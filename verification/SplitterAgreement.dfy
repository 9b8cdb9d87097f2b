/**
 The second, simpler splitter (strip `--` comments, split at `;`, trim) that the tenant migration runner uses,
 and where it agrees with the line splitter of the database-creation consumer.
 */
module SplitterAgreement {
  import opened Text
  import opened MigrationSplitter

  // ----- the simple splitter -----

  /** What `.` does not match in a regular expression without the `s` flag. */
  predicate IsTerminator(c: char) {
    c == '\n' || c == '\r' || c == '\U{2028}' || c == '\U{2029}'
  }

  predicate OneLine(s: string) {
    forall i :: 0 <= i < |s| ==> !IsTerminator(s[i])
  }

  /** `line.replace(/--.*$/, '')`: the leftmost `--` from which `.*` reaches the end of the text. */
  function StripComment(line: string): string {
    if line == "" then ""
    else if StartsWith(line, "--") && OneLine(line[2..]) then ""
    else [line[0]] + StripComment(line[1..])
  }

  function StripAll(lines: seq<string>): seq<string> {
    if lines == [] then [] else StripAll(lines[..|lines| - 1]) + [StripComment(lines[|lines| - 1])]
  }

  /** Trim every part and drop the empty ones. */
  function Compact(parts: seq<string>): seq<string> {
    if parts == [] then []
    else
      var n := |parts| - 1;
      Compact(parts[..n]) + if Trim(parts[n]) == "" then [] else [Trim(parts[n])]
  }

  function SimpleStatements(sql: string): seq<string> {
    Compact(Split(Join(StripAll(Split(sql, '\n')), '\n'), ';'))
  }

  // ----- the line splitter's statements, put in the same form -----

  function DropSemi(s: string): string {
    if EndsWith(s, ';') then s[..|s| - 1] else s
  }

  function DropSemis(statements: seq<string>): seq<string> {
    seq(|statements|, i requires 0 <= i < |statements| => DropSemi(statements[i]))
  }

  function LineStatements(sql: string): seq<string> {
    Compact(DropSemis(Statements(sql)))
  }

  // ----- canonical scripts -----

  /** A whole-line comment that the regular expression can strip. */
  predicate CommentLine(line: string) {
    IsComment(line) && OneLine(TrimStart(line))
  }

  predicate DashesAt(line: string, i: nat) {
    i + 1 < |line| && line[i] == '-' && line[i + 1] == '-'
  }

  predicate NoDashes(line: string) {
    forall i :: 0 <= i < |line| ==> !DashesAt(line, i)
  }

  /** A line of SQL: no `--`, balanced quotes, and `;` only as its last non-blank character. */
  predicate CodeLine(line: string) {
    && NoDashes(line)
    && Balanced(line)
    && (forall i :: 0 <= i < |line| && line[i] == ';' ==> Blank(line[i + 1..]))
  }

  /** Is a statement still open after these lines? */
  predicate Open(lines: seq<string>) {
    if lines == [] then false
    else
      var n := |lines| - 1;
      if CodeLine(lines[n]) then ';' !in lines[n] && (Open(lines[..n]) || !Blank(lines[n]))
      else Open(lines[..n])
  }

  /** Every line is code, or a comment that stands between statements. */
  predicate Canonical(lines: seq<string>) {
    forall i :: 0 <= i < |lines| ==>
      CodeLine(lines[i]) || (CommentLine(lines[i]) && !Open(lines[..i]))
  }

  // ----- small facts -----

  /** The parts of `a`, the last of them joined to the first part of `b`, then the other parts of `b`. */
  function Glue(A: seq<string>, B: seq<string>): seq<string>
    requires |A| >= 1 && |B| >= 1
  {
    A[..|A| - 1] + [A[|A| - 1] + B[0]] + B[1..]
  }

  lemma {:induction false} SplitAppend(a: string, b: string, sep: char)
    ensures Split(a + b, sep) == Glue(Split(a, sep), Split(b, sep))
  {
    var B := Split(b, sep);
    if a == "" {
      assert a + b == b;
      assert "" + B[0] == B[0];
      assert Glue([""], B) == B;
    } else {
      assert (a + b)[1..] == a[1..] + b;
      SplitAppend(a[1..], b, sep);
      GlueFirst(a[0], Split(a[1..], sep), B);
    }
  }

  lemma GlueFirst(c: char, R: seq<string>, B: seq<string>)
    requires |R| >= 1 && |B| >= 1
    ensures Glue([""] + R, B) == [""] + Glue(R, B)
    ensures Glue([[c] + R[0]] + R[1..], B) == [[c] + Glue(R, B)[0]] + Glue(R, B)[1..]
  {
    if |R| == 1 {
      assert [c] + (R[0] + B[0]) == ([c] + R[0]) + B[0];
    }
  }

  lemma {:induction false} StripCodeLine(line: string)
    requires NoDashes(line)
    ensures StripComment(line) == line
  {
    if line != "" {
      assert forall i :: 0 <= i < |line| - 1 && DashesAt(line[1..], i) ==> DashesAt(line, i + 1);
      assert StartsWith(line, "--") ==> DashesAt(line, 0);
      StripCodeLine(line[1..]);
    }
  }

  lemma {:induction false} StripCommentLine(line: string)
    requires CommentLine(line)
    ensures Blank(StripComment(line)) && ';' !in StripComment(line)
  {
    DashesShowEarly(line);
    if IsSpace(line[0]) {
      DashesShowEarly(line[1..]);
      StripCommentLine(line[1..]);
    } else {
      assert OneLine(line[2..]) by {
        assert forall i :: 0 <= i < |line| - 2 ==> line[2..][i] == line[i + 2];
      }
    }
  }

  /**
   The regular expression removes a whole-line comment exactly when no line terminator follows its dashes. A
   carriage return is one, so in a script with CRLF line ends no comment is removed.
   */
  lemma {:induction false} StripsExactlyOneLineComments(line: string)
    requires IsComment(line)
    ensures Blank(StripComment(line)) <==> OneLine(TrimStart(line))
  {
    if OneLine(TrimStart(line)) {
      StripCommentLine(line);
    } else {
      DashesShowEarly(line);
      if IsSpace(line[0]) {
        DashesShowEarly(line[1..]);
        StripsExactlyOneLineComments(line[1..]);
        assert StripComment(line)[1..] == StripComment(line[1..]);
        BlankConcat([line[0]], StripComment(line[1..]));
      } else {
        assert forall i :: 0 <= i < |line| - 2 ==> line[2..][i] == line[i + 2];
        assert !OneLine(line[2..]);
        assert StripComment(line)[0] == '-';
      }
    }
  }

  lemma {:induction false} CompactAppend(a: seq<string>, b: seq<string>)
    ensures Compact(a + b) == Compact(a) + Compact(b)
  {
    if b == [] {
      assert a + b == a;
    } else {
      var n := |b| - 1;
      assert (a + b)[..|a + b| - 1] == a + b[..n];
      CompactAppend(a, b[..n]);
    }
  }

  lemma CompactOne(part: string)
    ensures Compact([part]) == if Trim(part) == "" then [] else [Trim(part)]
  {
    assert [part][..0] == [];
  }

  /** Texts that agree once their leading blanks are gone go on agreeing when both are extended. */
  lemma SameStart(a: string, b: string, more: string)
    requires TrimStart(a) == TrimStart(b)
    ensures TrimStart(a + more) == TrimStart(b + more)
    ensures Trim(a + more) == Trim(b + more)
  {
    TrimStartAppend(a, more);
    TrimStartAppend(b, more);
    BlankTrims(a);
    BlankTrims(b);
  }

  lemma EmitOne(text: string)
    requires !IsComment(text)
    ensures Compact(DropSemis(Emit(text))) == Compact([DropSemi(Trim(text))])
  {
    if Trim(text) == "" {
      CompactOne("");
    } else {
      assert DropSemis([Trim(text)]) == [DropSemi(Trim(text))];
    }
  }

  /** The chunk closed by a `;` line, without that `;`, is what the simple splitter cuts off at it. */
  lemma ClosedChunk(acc: string, body: string, trail: string)
    requires Blank(trail)
    ensures Trim(DropSemi(Trim(acc + body + ";" + trail))) == Trim(acc + body)
  {
    var s := acc + body;
    var lead := TrimStartSplits(s);
    var core := TrimStart(s) + ";";
    assert s + ";" + trail == lead + core + trail;
    TrimIsTheCore(lead, core, trail);
    assert DropSemi(core) == TrimStart(s);
    TrimAround(lead, TrimStart(s), "");
    assert lead + TrimStart(s) + "" == s;
    TrimAround("", TrimStart(s), "");
  }

  // ----- the two splitters, line by line -----

  /** The lines with their newlines. */
  function Terminated(lines: seq<string>): string {
    if lines == [] then "" else Terminated(lines[..|lines| - 1]) + (lines[|lines| - 1] + "\n")
  }

  /** The splitter's state against the parts the simple splitter has cut so far. */
  ghost predicate Agree(st: Chunker, parts: seq<string>, open: bool) {
    && |parts| >= 1
    && Compact(DropSemis(EmitAll(st.closed))) == Compact(parts[..|parts| - 1])
    && TrimStart(st.acc) == TrimStart(parts[|parts| - 1])
    && ';' !in st.acc
    && st.quote == Outside
    && (open <==> !Blank(st.acc))
  }

  /** Text without `;` only lengthens the last part. */
  lemma SplitMore(text: string, more: string)
    requires ';' !in more
    ensures var A := Split(text, ';'); var n := |A| - 1;
            Split(text + more, ';') == A[..n] + [A[n] + more]
  {
    SplitWithout(more, ';');
    SplitAppend(text, more, ';');
  }

  /** A `;` closes the last part and opens a new one. */
  lemma SplitClose(text: string, body: string, tail: string)
    requires ';' !in body && ';' !in tail
    ensures var A := Split(text, ';'); var n := |A| - 1;
            Split(text + (body + ";" + tail), ';') == A[..n] + [A[n] + body] + [tail]
  {
    SplitAtSeparator(body, ';', tail);
    SplitWithout(tail, ';');
    SplitAppend(text, body + ";" + tail, ';');
  }

  lemma FeedComment(st: Chunker, line: string)
    requires IsComment(line) && Blank(st.acc)
    ensures Feed(st, line) == st
  {
    BlankTrims(st.acc);
  }

  lemma FeedOpenCode(st: Chunker, line: string)
    requires st.quote == Outside && Balanced(line) && !IsComment(line) && ';' !in line
    ensures Feed(st, line) == Chunker(st.closed, st.acc + (line + "\n"), Outside)
  {
    NoSemiAtEnd(line);
    assert st.acc + line + "\n" == st.acc + (line + "\n");
  }

  lemma FeedClosingCode(st: Chunker, line: string)
    requires st.quote == Outside && Balanced(line) && !IsComment(line) && EndsWith(Trim(line), ';')
    ensures Feed(st, line) == Chunker(st.closed + [st.acc + (line + "\n")], "", Outside)
  {
    assert st.acc + line + "\n" == st.acc + (line + "\n");
  }

  lemma AgreeLonger(st: Chunker, parts: seq<string>, open: bool, more: string, shown: string)
    requires Agree(st, parts, open) && ';' !in more
    requires shown == more || (shown == "" && Blank(st.acc) && Blank(more))
    ensures var n := |parts| - 1;
            Agree(Chunker(st.closed, st.acc + shown, Outside), parts[..n] + [parts[n] + more], open || !Blank(shown))
  {
    var n := |parts| - 1;
    var st', parts' := Chunker(st.closed, st.acc + shown, Outside), parts[..n] + [parts[n] + more];
    assert parts'[..n] == parts[..n];
    assert Blank(st'.acc) <==> Blank(st.acc) && Blank(shown) by { BlankConcat(st.acc, shown); }
    if shown == more {
      SameStart(st.acc, parts[n], more);
    } else {
      assert st'.acc == st.acc;
      BlankTrims(st.acc);
      BlankTrims(parts[n]);
      TrimStartAppend(parts[n], more);
      BlankTrims(more);
    }
  }

  lemma AgreeClosed(st: Chunker, parts: seq<string>, open: bool, body: string, tail: string)
    requires Agree(st, parts, open) && Blank(tail) && ';' !in tail
    requires !IsComment(st.acc + (body + ";" + tail))
    ensures var n := |parts| - 1;
            Agree(Chunker(st.closed + [st.acc + (body + ";" + tail)], "", Outside),
                  parts[..n] + [parts[n] + body] + [tail], false)
  {
    var n := |parts| - 1;
    var chunk, cut := st.acc + (body + ";" + tail), parts[n] + body;
    var parts' := parts[..n] + [cut] + [tail];
    assert parts'[..|parts'| - 1] == parts[..n] + [cut];
    BlankTrims(tail);
    assert Compact(DropSemis(EmitAll(st.closed + [chunk]))) == Compact(parts[..n] + [cut]) by {
      ChunkAgrees(st.acc, parts[n], body, tail);
      CompactAppend(parts[..n], [cut]);
      EmitSnoc(st.closed, chunk);
      CompactAppend(DropSemis(EmitAll(st.closed)), DropSemis(Emit(chunk)));
    }
  }

  lemma ChunkAgrees(acc: string, part: string, body: string, tail: string)
    requires TrimStart(acc) == TrimStart(part) && Blank(tail)
    requires !IsComment(acc + (body + ";" + tail))
    ensures Compact(DropSemis(Emit(acc + (body + ";" + tail)))) == Compact([part + body])
  {
    var chunk := acc + (body + ";" + tail);
    assert Trim(DropSemi(Trim(chunk))) == Trim(part + body) by {
      assert chunk == acc + body + ";" + tail;
      ClosedChunk(acc, body, tail);
      SameStart(acc, part, body);
    }
    EmitOne(chunk);
    CompactByTrim(DropSemi(Trim(chunk)), part + body);
  }

  lemma CompactByTrim(a: string, b: string)
    requires Trim(a) == Trim(b)
    ensures Compact([a]) == Compact([b])
  {
    CompactOne(a);
    CompactOne(b);
  }

  lemma AgreeComment(st: Chunker, text: string, line: string)
    requires Agree(st, Split(text, ';'), false) && CommentLine(line)
    ensures Agree(Feed(st, line), Split(text + (StripComment(line) + "\n"), ';'), false)
  {
    var more := StripComment(line) + "\n";
    assert Blank(more) && ';' !in more by {
      StripCommentLine(line);
      NoSemiWithNewline(StripComment(line));
      BlankConcat(StripComment(line), "\n");
    }
    assert Feed(st, line) == st by { FeedComment(st, line); }
    SplitMore(text, more);
    AgreeLonger(st, Split(text, ';'), false, more, "");
    assert Chunker(st.closed, st.acc + "", Outside) == st;
  }

  lemma AgreeOpenCode(st: Chunker, text: string, line: string, open: bool)
    requires Agree(st, Split(text, ';'), open) && NoDashes(line) && Balanced(line) && ';' !in line
    ensures Agree(Feed(st, line), Split(text + (line + "\n"), ';'), open || !Blank(line))
  {
    NotAComment(line);
    NoSemiWithNewline(line);
    FeedOpenCode(st, line);
    SplitMore(text, line + "\n");
    AgreeLonger(st, Split(text, ';'), open, line + "\n", line + "\n");
    BlankConcat(line, "\n");
  }

  lemma AgreeClosingCode(st: Chunker, text: string, line: string, open: bool, body: string, trail: string)
    requires Agree(st, Split(text, ';'), open) && NoDashes(line) && Balanced(line)
    requires line == body + ";" + trail && ';' !in body && ';' !in trail && Blank(trail)
    requires !IsComment(st.acc) && LastOr(st.acc, '\n') == '\n'
    ensures Agree(Feed(st, line), Split(text + (line + "\n"), ';'), false)
  {
    var tail, parts := trail + "\n", Split(text, ';');
    var chunk := st.acc + (body + ";" + tail);
    assert line + "\n" == body + ";" + tail;
    assert Feed(st, line) == Chunker(st.closed + [chunk], "", Outside) by {
      EndsInSemi(body, trail);
      NotAComment(line);
      FeedClosingCode(st, line);
    }
    assert ';' !in tail by { NoSemiWithNewline(trail); }
    assert Split(text + (line + "\n"), ';') == parts[..|parts| - 1] + [parts[|parts| - 1] + body] + [tail] by {
      SplitClose(text, body, tail);
    }
    assert !IsComment(chunk) by {
      NotAComment(line);
      NoCommentStarts(st.acc, line);
      assert st.acc + line + "\n" == chunk;
    }
    AgreeClosed(st, parts, open, body, tail);
  }

  lemma NoSemiWithNewline(s: string)
    requires ';' !in s
    ensures ';' !in s + "\n"
  {
    assert forall c :: c in s + "\n" ==> c in s || c == '\n';
  }

  lemma EmitSnoc(closed: seq<string>, chunk: string)
    ensures EmitAll(closed + [chunk]) == EmitAll(closed) + Emit(chunk)
    ensures DropSemis(EmitAll(closed + [chunk])) == DropSemis(EmitAll(closed)) + DropSemis(Emit(chunk))
  {
    EmitAllSnoc(closed, chunk);
  }

  lemma BlankConcat(a: string, b: string)
    ensures Blank(a + b) <==> Blank(a) && Blank(b)
  {
    var s := a + b;
    assert forall i :: 0 <= i < |a| ==> a[i] == s[i];
    assert forall i :: 0 <= i < |b| ==> b[i] == s[|a| + i];
  }

  lemma NotAComment(line: string)
    requires NoDashes(line)
    ensures !IsComment(line)
  {
    DashesShowEarly(line);
    var lead := TrimStartSplits(line);
    assert StartsWith(TrimStart(line), "--") ==> DashesAt(line, |lead|);
  }

  lemma NoSemiAtEnd(line: string)
    requires ';' !in line
    ensures !EndsWith(Trim(line), ';')
  {
    var lead := TrimStartSplits(line);
    var trail := TrimEndSplits(TrimStart(line));
    var t := Trim(line);
    assert forall i :: 0 <= i < |t| ==> t[i] == line[|lead| + i];
  }

  lemma CutAtSemi(line: string) returns (body: string, trail: string)
    requires CodeLine(line) && ';' in line
    ensures line == body + ";" + trail && ';' !in body && Blank(trail) && ';' !in trail
  {
    var i :| 0 <= i < |line| && line[i] == ';';
    body, trail := line[..i], line[i + 1..];
    assert Blank(trail);
    assert ';' !in body by {
      forall j | 0 <= j < i ensures line[j] != ';' {
        assert line[j + 1..][i - j - 1] == ';';
      }
    }
  }

  lemma EndsInSemi(body: string, trail: string)
    requires Blank(trail)
    ensures EndsWith(Trim(body + ";" + trail), ';')
  {
    var lead := TrimStartSplits(body);
    var core := TrimStart(body) + ";";
    assert body + ";" + trail == lead + core + trail;
    TrimIsTheCore(lead, core, trail);
  }

  lemma {:induction false} AgreeAll(lines: seq<string>)
    requires Canonical(lines)
    ensures Agree(FeedAll(START, lines), Split(Terminated(StripAll(lines)), ';'), Open(lines))
  {
    if lines == [] {
      assert [""][..0] == [];
    } else {
      var n := |lines| - 1;
      var line, before := lines[n], lines[..n];
      CanonicalPrefix(lines);
      AgreeAll(before);
      var st, text := FeedAll(START, before), Terminated(StripAll(before));
      StripAllLength(before);
      assert StripAll(lines)[..n] == StripAll(before);
      RunIsSound(before);
      if !CodeLine(line) {
        AgreeComment(st, text, line);
      } else {
        StripCodeLine(line);
        if ';' in line {
          var body, trail := CutAtSemi(line);
          AgreeClosingCode(st, text, line, Open(before), body, trail);
        } else {
          AgreeOpenCode(st, text, line, Open(before));
        }
      }
    }
  }

  lemma CanonicalPrefix(lines: seq<string>)
    requires lines != [] && Canonical(lines)
    ensures Canonical(lines[..|lines| - 1])
  {
    var n := |lines| - 1;
    var before := lines[..n];
    forall i | 0 <= i < n
      ensures CodeLine(before[i]) || (CommentLine(before[i]) && !Open(before[..i]))
    {
      assert before[i] == lines[i] && before[..i] == lines[..i];
    }
  }

  lemma {:induction false} StripAllLength(lines: seq<string>)
    ensures |StripAll(lines)| == |lines|
  {
    if lines != [] { StripAllLength(lines[..|lines| - 1]); }
  }

  lemma {:induction false} TerminatedJoins(lines: seq<string>)
    requires lines != []
    ensures Terminated(lines) == Join(lines, '\n') + "\n"
  {
    if |lines| == 1 {
      assert Terminated(lines[..0]) == "";
    } else {
      JoinSnoc(lines);
      TerminatedJoins(lines[..|lines| - 1]);
    }
  }

  lemma {:induction false} JoinSnoc(lines: seq<string>)
    requires |lines| >= 2
    ensures Join(lines, '\n') == Join(lines[..|lines| - 1], '\n') + "\n" + lines[|lines| - 1]
  {
    var n := |lines| - 1;
    if |lines| == 2 {
      assert lines[1..] == [lines[1]];
    } else {
      JoinSnoc(lines[1..]);
      assert lines[1..][..n - 1] == lines[..n][1..];
    }
  }

  /** Blank text at the end does not change the trimmed parts. */
  lemma TrailingBlank(text: string, blank: string)
    requires Blank(blank) && ';' !in blank
    ensures Compact(Split(text + blank, ';')) == Compact(Split(text, ';'))
  {
    var P := Split(text, ';');
    var n := |P| - 1;
    assert Split(text + blank, ';') == P[..n] + [P[n] + blank] by { SplitMore(text, blank); }
    assert P == P[..n] + [P[n]];
    LastBlankHidden(P[..n], P[n], blank);
  }

  lemma LastBlankHidden(parts: seq<string>, last: string, blank: string)
    requires Blank(blank)
    ensures Compact(parts + [last + blank]) == Compact(parts + [last])
  {
    CompactAppend(parts, [last]);
    CompactAppend(parts, [last + blank]);
    assert Trim(last + blank) == Trim(last) by {
      TrimAround("", last, blank);
      assert "" + last + blank == last + blank;
    }
    CompactByTrim(last, last + blank);
  }

  /** At the end of the script the text still open agrees too. */
  lemma AgreeEnd(st: Chunker, parts: seq<string>, open: bool)
    requires Agree(st, parts, open) && !IsComment(st.acc)
    ensures Compact(DropSemis(EmitAll(Pieces(st)))) == Compact(parts)
  {
    var n := |parts| - 1;
    assert parts == parts[..n] + [parts[n]];
    CompactAppend(parts[..n], [parts[n]]);
    EmitSnoc(st.closed, st.acc);
    CompactAppend(DropSemis(EmitAll(st.closed)), DropSemis(Emit(st.acc)));
    RemainderAgrees(st.acc, parts[n]);
  }

  lemma RemainderAgrees(acc: string, part: string)
    requires TrimStart(acc) == TrimStart(part) && ';' !in acc && !IsComment(acc)
    ensures Compact(DropSemis(Emit(acc))) == Compact([part])
  {
    EmitOne(acc);
    NoSemiAtEnd(acc);
    CompactOne(part);
    CompactOne(Trim(acc));
    TrimTwice(acc);
  }

  /** On every canonical script the two splitters yield the same statements, in the same order. */
  lemma SplittersAgree(sql: string)
    requires Canonical(Split(sql, '\n'))
    ensures LineStatements(sql) == SimpleStatements(sql)
  {
    var lines := Split(sql, '\n');
    var stripped := Join(StripAll(lines), '\n');
    assert Terminated(StripAll(lines)) == stripped + "\n" by {
      StripAllLength(lines);
      TerminatedJoins(StripAll(lines));
    }
    TrailingBlank(stripped, "\n");
    LinesAgree(lines);
  }

  lemma LinesAgree(lines: seq<string>)
    requires Canonical(lines)
    ensures Compact(DropSemis(EmitAll(Pieces(FeedAll(START, lines))))) == Compact(Split(Terminated(StripAll(lines)), ';'))
  {
    AgreeAll(lines);
    assert !IsComment(FeedAll(START, lines).acc) by { RunIsSound(lines); }
    AgreeEnd(FeedAll(START, lines), Split(Terminated(StripAll(lines)), ';'), Open(lines));
  }

  lemma TrimTwice(s: string)
    ensures Trim(Trim(s)) == Trim(s)
  {
    var lead := TrimStartSplits(s);
    var trail := TrimEndSplits(TrimStart(s));
    if Trim(s) != "" { assert Trim(s)[0] == TrimStart(s)[0]; }
    TrimIsTheCore("", Trim(s), "");
    assert "" + Trim(s) + "" == Trim(s);
  }
}
