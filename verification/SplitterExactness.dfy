/** Exactly when the two splitters agree: what a comment that cannot be stripped does to the statements. */
module SplitterExactness {
  import opened Text
  import opened MigrationSplitter
  import opened SplitterAgreement

  /** Every line is code, or a comment of any kind that stands between statements. */
  predicate Framed(lines: seq<string>) {
    forall i :: 0 <= i < |lines| ==> CodeLine(lines[i]) || (IsComment(lines[i]) && !Open(lines[..i]))
  }

  /** No comment line holds a line terminator after its dashes begin. */
  predicate CommentsStrip(lines: seq<string>) {
    forall i :: 0 <= i < |lines| && IsComment(lines[i]) ==> OneLine(TrimStart(lines[i]))
  }

  // ----- no statement of the line splitter holds `--` -----

  predicate AllNoDashes(texts: seq<string>) {
    forall i :: 0 <= i < |texts| ==> NoDashes(texts[i])
  }

  lemma PieceNoDashes(s: string, i: nat, j: nat)
    requires i <= j <= |s| && NoDashes(s)
    ensures NoDashes(s[i..j])
  {
    forall k | 0 <= k < j - i ensures !DashesAt(s[i..j], k) {
      assert !DashesAt(s, i + k);
    }
  }

  lemma TrimNoDashes(s: string)
    requires NoDashes(s)
    ensures NoDashes(Trim(s))
  {
    var lead := TrimStartSplits(s);
    var trail := TrimEndSplits(TrimStart(s));
    assert s[|lead|..|lead| + |Trim(s)|] == Trim(s);
    PieceNoDashes(s, |lead|, |lead| + |Trim(s)|);
  }

  /** Dashes do not meet across a line break. */
  lemma LinesNoDashes(acc: string, line: string)
    requires NoDashes(acc) && NoDashes(line) && LastOr(acc, '\n') == '\n'
    ensures NoDashes(acc + (line + "\n"))
  {
    var s := acc + (line + "\n");
    forall k | 0 <= k < |s| ensures !DashesAt(s, k) {
      if k < |acc| {
        assert !DashesAt(acc, k);
      } else if k - |acc| < |line| {
        assert !DashesAt(line, k - |acc|);
      }
    }
  }

  ghost predicate Clear(st: Chunker, open: bool) {
    st.quote == Outside && (open <==> !Blank(st.acc)) && NoDashes(st.acc) && AllNoDashes(st.closed)
  }

  lemma ClearCode(st: Chunker, line: string, open: bool)
    requires Clear(st, open) && CodeLine(line) && LastOr(st.acc, '\n') == '\n'
    ensures Clear(Feed(st, line), ';' !in line && (open || !Blank(line)))
  {
    NotAComment(line);
    LinesNoDashes(st.acc, line);
    if ';' in line {
      var body, trail := CutAtSemi(line);
      EndsInSemi(body, trail);
      FeedClosingCode(st, line);
    } else {
      FeedOpenCode(st, line);
      BlankConcat(st.acc, line + "\n");
      BlankConcat(line, "\n");
    }
  }

  lemma {:induction false} FramedStaysClear(lines: seq<string>)
    requires Framed(lines)
    ensures Clear(FeedAll(START, lines), Open(lines))
  {
    if lines != [] {
      var n := |lines| - 1;
      var line, before := lines[n], lines[..n];
      FramedPrefix(lines);
      FramedStaysClear(before);
      var st := FeedAll(START, before);
      if CodeLine(line) {
        assert LastOr(st.acc, '\n') == '\n' by { RunIsSound(before); }
        ClearCode(st, line, Open(before));
      } else {
        FeedComment(st, line);
      }
    }
  }

  lemma FramedPrefix(lines: seq<string>)
    requires lines != [] && Framed(lines)
    ensures Framed(lines[..|lines| - 1])
  {
    var before := lines[..|lines| - 1];
    forall i | 0 <= i < |before| ensures CodeLine(before[i]) || (IsComment(before[i]) && !Open(before[..i])) {
      assert before[i] == lines[i] && before[..i] == lines[..i];
    }
  }

  lemma {:induction false} EmitAllNoDashes(texts: seq<string>)
    requires AllNoDashes(texts)
    ensures AllNoDashes(EmitAll(texts))
  {
    if texts != [] {
      EmitAllNoDashes(texts[..|texts| - 1]);
      TrimNoDashes(texts[|texts| - 1]);
    }
  }

  lemma {:induction false} CompactNoDashes(texts: seq<string>)
    requires AllNoDashes(texts)
    ensures AllNoDashes(Compact(texts))
  {
    if texts != [] {
      CompactNoDashes(texts[..|texts| - 1]);
      TrimNoDashes(texts[|texts| - 1]);
    }
  }

  lemma DropSemisNoDashes(texts: seq<string>)
    requires AllNoDashes(texts)
    ensures AllNoDashes(DropSemis(texts))
  {
    forall i | 0 <= i < |texts| ensures NoDashes(DropSemis(texts)[i]) {
      var s := texts[i];
      if EndsWith(s, ';') { PieceNoDashes(s, 0, |s| - 1); assert s[0..|s| - 1] == s[..|s| - 1]; }
    }
  }

  lemma LineStatementsHaveNoDashes(sql: string)
    requires Framed(Split(sql, '\n'))
    ensures AllNoDashes(LineStatements(sql))
  {
    var st := FeedAll(START, Split(sql, '\n'));
    FramedStaysClear(Split(sql, '\n'));
    EmitAllNoDashes(Pieces(st));
    DropSemisNoDashes(Statements(sql));
    CompactNoDashes(DropSemis(Statements(sql)));
  }

  // ----- a comment that is not stripped leaves `--` in a statement of the simple splitter -----

  lemma PieceHasDashes(s: string, whole: string, i: nat)
    requires i + |s| <= |whole| && whole[i..i + |s|] == s && !NoDashes(s)
    ensures !NoDashes(whole)
  {
    if NoDashes(whole) { PieceNoDashes(whole, i, i + |s|); }
  }

  lemma TrimKeepsDashes(s: string)
    requires !NoDashes(s)
    ensures !NoDashes(Trim(s))
  {
    var lead := TrimStartSplits(s);
    var trail := TrimEndSplits(TrimStart(s));
    var core := Trim(s);
    assert s == lead + core + trail;
    var k :| 0 <= k < |s| && DashesAt(s, k);
    assert forall i :: 0 <= i < |lead| ==> s[i] == lead[i] && IsSpace(s[i]);
    assert forall i :: |lead| + |core| <= i < |s| ==> s[i] == trail[i - |lead| - |core|] && IsSpace(s[i]);
    assert DashesAt(core, k - |lead|);
  }

  lemma {:induction false} UnstrippedKeepsDashes(line: string)
    requires IsComment(line) && !OneLine(TrimStart(line))
    ensures !NoDashes(StripComment(line))
  {
    DashesShowEarly(line);
    if IsSpace(line[0]) {
      DashesShowEarly(line[1..]);
      UnstrippedKeepsDashes(line[1..]);
      var rest := StripComment(line[1..]);
      assert StripComment(line) == [line[0]] + rest;
      assert StripComment(line)[1..1 + |rest|] == rest;
      PieceHasDashes(rest, StripComment(line), 1);
    } else {
      assert forall i :: 0 <= i < |line| - 2 ==> line[2..][i] == line[i + 2];
      assert !OneLine(line[2..]);
      SecondDashKept(line[1..]);
      assert DashesAt(StripComment(line), 0);
    }
  }

  /** From the second dash on, with a terminator still ahead, the dash itself stays. */
  lemma SecondDashKept(line: string)
    requires line != "" && line[0] == '-' && !OneLine(line[1..])
    ensures StripComment(line) != "" && StripComment(line)[0] == '-'
  {
    if |line| >= 2 {
      assert forall i :: 0 <= i < |line| - 2 ==> line[2..][i] == line[i + 2] == line[1..][i + 1];
      assert line[1] == '-' ==> !OneLine(line[2..]);
    }
  }

  lemma {:induction false} StripAllAt(lines: seq<string>, i: nat)
    requires i < |lines|
    ensures |StripAll(lines)| == |lines| && StripAll(lines)[i] == StripComment(lines[i])
  {
    StripAllLength(lines);
    StripAllLength(lines[..|lines| - 1]);
    if i < |lines| - 1 { StripAllAt(lines[..|lines| - 1], i); }
  }

  lemma {:induction false} JoinKeepsDashes(lines: seq<string>, i: nat)
    requires i < |lines| && !NoDashes(lines[i])
    ensures !NoDashes(Join(lines, '\n'))
  {
    var text := Join(lines, '\n');
    if i == 0 {
      assert text[0..|lines[0]|] == lines[0];
      PieceHasDashes(lines[0], text, 0);
    } else {
      JoinKeepsDashes(lines[1..], i - 1);
      var rest := Join(lines[1..], '\n');
      var at := |lines[0]| + 1;
      assert text[at..at + |rest|] == rest;
      PieceHasDashes(rest, text, at);
    }
  }

  lemma {:induction false} SplitKeepsDashes(s: string) returns (j: nat)
    requires !NoDashes(s)
    ensures j < |Split(s, ';')| && !NoDashes(Split(s, ';')[j])
  {
    var rest, parts := Split(s[1..], ';'), Split(s, ';');
    if DashesAt(s, 0) {
      assert s[1..][0] == '-';
      assert rest[0] != "" && rest[0][0] == '-';
      assert parts[0] == ['-'] + rest[0];
      assert DashesAt(parts[0], 0);
      j := 0;
    } else {
      var k :| 0 <= k < |s| && DashesAt(s, k);
      assert DashesAt(s[1..], k - 1);
      var i := SplitKeepsDashes(s[1..]);
      if s[0] == ';' {
        j := i + 1;
      } else if i == 0 {
        assert parts[0][1..1 + |rest[0]|] == rest[0];
        PieceHasDashes(rest[0], parts[0], 1);
        j := 0;
      } else {
        assert parts[i] == rest[1..][i - 1];
        j := i;
      }
    }
  }

  lemma {:induction false} CompactKeepsDashes(parts: seq<string>, j: nat)
    requires j < |parts| && !NoDashes(parts[j])
    ensures !AllNoDashes(Compact(parts))
  {
    var n := |parts| - 1;
    if j == n {
      TrimKeepsDashes(parts[n]);
      assert Compact(parts)[|Compact(parts)| - 1] == Trim(parts[n]);
    } else {
      CompactKeepsDashes(parts[..n], j);
      var k :| 0 <= k < |Compact(parts[..n])| && !NoDashes(Compact(parts[..n])[k]);
      assert Compact(parts)[k] == Compact(parts[..n])[k];
    }
  }

  lemma UnstrippedShows(sql: string, i: nat)
    requires i < |Split(sql, '\n')| && IsComment(Split(sql, '\n')[i]) && !OneLine(TrimStart(Split(sql, '\n')[i]))
    ensures !AllNoDashes(SimpleStatements(sql))
  {
    var lines := Split(sql, '\n');
    UnstrippedKeepsDashes(lines[i]);
    StripAllAt(lines, i);
    JoinKeepsDashes(StripAll(lines), i);
    var text := Join(StripAll(lines), '\n');
    var j := SplitKeepsDashes(text);
    CompactKeepsDashes(Split(text, ';'), j);
  }

  // ----- the equivalence -----

  /**
   On every script of code lines and comments between statements, the two splitters yield the same statements, in the
   same order, if and only if no comment line holds a line terminator.
   */
  lemma SplittersAgreeExactly(sql: string)
    requires Framed(Split(sql, '\n'))
    ensures LineStatements(sql) == SimpleStatements(sql) <==> CommentsStrip(Split(sql, '\n'))
  {
    var lines := Split(sql, '\n');
    if CommentsStrip(lines) {
      assert Canonical(lines);
      SplittersAgree(sql);
    } else {
      var i :| 0 <= i < |lines| && IsComment(lines[i]) && !OneLine(TrimStart(lines[i]));
      UnstrippedShows(sql, i);
      LineStatementsHaveNoDashes(sql);
    }
  }

  /** Where they disagree: any such comment before a line of code. */
  lemma UnstrippedCommentDisagrees(comment: string, code: string)
    requires IsComment(comment) && !OneLine(TrimStart(comment)) && '\n' !in comment
    requires CodeLine(code) && '\n' !in code
    ensures var sql := comment + ['\n'] + code;
            Split(sql, '\n') == [comment, code] && LineStatements(sql) != SimpleStatements(sql)
  {
    var sql := comment + ['\n'] + code;
    SplitAtSeparator(comment, '\n', code);
    SplitWithout(code, '\n');
    assert Split(sql, '\n') == [comment, code];
    assert [comment, code][..0] == [];
    SplittersAgreeExactly(sql);
    assert [comment, code][0] == comment;
  }

  /** Such a script: one comment and one statement, with CRLF line ends. */
  lemma CrlfScriptDisagrees(comment: string, code: string)
    requires comment == ['-', '-', 'c', '\r'] && code == ['X', ';', '\r']
    ensures LineStatements(comment + ['\n'] + code) != SimpleStatements(comment + ['\n'] + code)
  {
    CarriageReturnComment(comment);
    CodeXIsCode(code);
    UnstrippedCommentDisagrees(comment, code);
  }

  lemma CarriageReturnComment(comment: string)
    requires comment == ['-', '-', 'c', '\r']
    ensures IsComment(comment) && !OneLine(TrimStart(comment)) && '\n' !in comment
  {
    assert TrimStart(comment) == comment;
    DashesShowEarly(comment);
    assert "--" <= comment;
    assert IsTerminator(comment[3]);
  }

  lemma CodeXIsCode(code: string)
    requires code == ['X', ';', '\r']
    ensures CodeLine(code) && '\n' !in code
  {
    assert forall i :: 0 <= i < |code| && code[i] == ';' ==> i == 1;
    assert code[2..] == ['\r'] && Blank(code[2..]);
    assert code[..2] == ['X', ';'] && ['X', ';'][..1] == ['X'] && ['X'][..0] == [];
    assert Scan(Outside, '\n', ['X']) == Outside;
    assert Scan(Outside, '\n', ['X', ';']) == Outside;
  }
}
