/**
 The statement splitter of the database-creation consumer: it walks a migration script line by line,
 carries the quote state from line to line and closes a statement at a line that ends in `;` outside quotes.
 */
module MigrationSplitter {
  import opened Text

  // ----- the one-pass quote scanner -----

  datatype Quote = Outside | Inside(mark: char)

  /** One character. `prev` is the character before it: a backslash there keeps a closing mark from closing. */
  function ScanChar(q: Quote, prev: char, c: char): Quote {
    if q.Outside? && (c == '"' || c == '\'') then Inside(c)
    else if q.Inside? && c == q.mark && prev != '\\' then Outside
    else q
  }

  function LastOr(s: string, c: char): char {
    if s == "" then c else s[|s| - 1]
  }

  /** The scanner run over a whole text, `prev` being the character before it. */
  function Scan(q: Quote, prev: char, s: string): Quote {
    if s == "" then q
    else
      var n := |s| - 1;
      ScanChar(Scan(q, prev, s[..n]), LastOr(s[..n], prev), s[n])
  }

  lemma {:induction false} ScanAppend(q: Quote, prev: char, a: string, b: string)
    ensures Scan(q, prev, a + b) == Scan(Scan(q, prev, a), LastOr(a, prev), b)
  {
    if b == "" {
      assert a + b == a;
    } else {
      var n := |b| - 1;
      assert (a + b)[..|a + b| - 1] == a + b[..n];
      ScanAppend(q, prev, a, b[..n]);
    }
  }

  /** Text is quote-balanced when a scan that starts outside quotes ends outside them. */
  predicate Balanced(s: string) {
    Scan(Outside, '\n', s) == Outside
  }

  // ----- the splitter as a state over the lines read -----

  datatype Chunker = Chunker(closed: seq<string>, acc: string, quote: Quote)

  const START := Chunker([], "", Outside)

  predicate IsComment(line: string) {
    StartsWith(Trim(line), "--")
  }

  function Feed(st: Chunker, line: string): Chunker {
    if IsComment(line) && Trim(st.acc) == "" then st else FeedCode(st, line)
  }

  /** A line that is not dropped. */
  function FeedCode(st: Chunker, line: string): Chunker {
    var quote := Scan(st.quote, '\n', line);
    var acc := st.acc + line + "\n";
    if quote.Outside? && EndsWith(Trim(line), ';')
    then Chunker(st.closed + [acc], "", quote)
    else Chunker(st.closed, acc, quote)
  }

  function FeedAll(st: Chunker, lines: seq<string>): Chunker {
    if lines == [] then st else Feed(FeedAll(st, lines[..|lines| - 1]), lines[|lines| - 1])
  }

  /** What reaches the users-table test from one accumulated text: its trim, unless empty or commented out. */
  function Emit(text: string): seq<string> {
    var statement := Trim(text);
    if statement != "" && !StartsWith(statement, "--") then [statement] else []
  }

  function EmitAll(texts: seq<string>): seq<string> {
    if texts == [] then [] else EmitAll(texts[..|texts| - 1]) + Emit(texts[|texts| - 1])
  }

  function Pieces(st: Chunker): seq<string> {
    st.closed + [st.acc]
  }

  /** The statements of a script, in order, before the users-table test. */
  function Statements(sql: string): seq<string> {
    EmitAll(Pieces(FeedAll(START, Split(sql, '\n'))))
  }

  // ----- the loops of the consumer -----

  /** The character loop over one line, on the consumer's two variables. */
  method ScanLine(line: string, inString0: bool, stringChar0: char) returns (inString: bool, stringChar: char)
    ensures (if inString then Inside(stringChar) else Outside)
         == Scan(if inString0 then Inside(stringChar0) else Outside, '\n', line)
  {
    inString, stringChar := inString0, stringChar0;
    ghost var q0 := if inString0 then Inside(stringChar0) else Outside;
    var i := 0;
    while i < |line|
      invariant 0 <= i <= |line|
      invariant (if inString then Inside(stringChar) else Outside) == Scan(q0, '\n', line[..i])
    {
      var c := line[i];
      assert line[..i + 1][..i] == line[..i];
      if !inString && (c == '"' || c == '\'') {
        inString, stringChar := true, c;
      } else if inString && c == stringChar && (i == 0 || line[i - 1] != '\\') {
        inString := false;
      }
      i := i + 1;
    }
    assert line[..i] == line;
  }

  /**
   The line loop. The result holds, in order, the statements that reach the users-table test; `closed` and
   `remainder` are the accumulated texts they were cut from.
   */
  method SplitStatements(sql: string) returns (statements: seq<string>, closed: seq<string>, remainder: string)
    ensures closed == FeedAll(START, Split(sql, '\n')).closed
    ensures remainder == FeedAll(START, Split(sql, '\n')).acc
    ensures statements == Statements(sql)
  {
    var lines := Split(sql, '\n');
    var currentStatement := "";
    var inString, stringChar := false, ' ';
    statements, closed := [], [];
    ghost var st := START;
    var n := 0;
    while n < |lines|
      invariant 0 <= n <= |lines|
      invariant st == FeedAll(START, lines[..n])
      invariant st == Chunker(closed, currentStatement, if inString then Inside(stringChar) else Outside)
      invariant statements == EmitAll(closed)
    {
      var line := lines[n];
      FeedSnoc(lines, n);
      st := Feed(st, line);
      n := n + 1;
      if StartsWith(Trim(line), "--") && Trim(currentStatement) == "" {
        continue;
      }
      inString, stringChar := ScanLine(line, inString, stringChar);
      currentStatement := currentStatement + line + "\n";
      if !inString && EndsWith(Trim(line), ';') {
        var statement := Trim(currentStatement);
        EmitAllSnoc(closed, currentStatement);
        if statement != "" && !StartsWith(statement, "--") {
          statements := statements + [statement];
        }
        closed := closed + [currentStatement];
        currentStatement := "";
      }
    }
    assert lines[..n] == lines;
    remainder := currentStatement;
    EmitAllSnoc(closed, remainder);
    if Trim(currentStatement) != "" && !StartsWith(Trim(currentStatement), "--") {
      statements := statements + [Trim(currentStatement)];
    }
  }

  lemma FeedSnoc(lines: seq<string>, n: nat)
    requires n < |lines|
    ensures FeedAll(START, lines[..n + 1]) == Feed(FeedAll(START, lines[..n]), lines[n])
  {
    assert lines[..n + 1][..n] == lines[..n];
  }

  lemma EmitAllSnoc(texts: seq<string>, text: string)
    ensures EmitAll(texts + [text]) == EmitAll(texts) + Emit(text)
  {
    assert (texts + [text])[..|texts|] == texts;
  }

  // ----- nothing lost, nothing duplicated, nothing reordered -----

  /** Line `i` is dropped exactly when it is a comment met while nothing but blanks has accumulated. */
  predicate Dropped(lines: seq<string>, i: nat)
    requires i < |lines|
  {
    IsComment(lines[i]) && Blank(FeedAll(START, lines[..i]).acc)
  }

  /** The text of the lines that are not dropped, each with its newline. */
  function KeptText(lines: seq<string>): string {
    if lines == [] then ""
    else
      var n := |lines| - 1;
      KeptText(lines[..n]) + if Dropped(lines, n) then "" else lines[n] + "\n"
  }

  /** What holds of the splitter's state after the kept text `text`. */
  ghost predicate Sound(st: Chunker, text: string) {
    && Concat(st.closed) + st.acc == text
    && LastOr(text, '\n') == LastOr(st.acc, '\n') == '\n'
    && st.quote == Scan(Outside, '\n', text) == Scan(Outside, '\n', st.acc)
    && (forall i :: 0 <= i < |st.closed| ==> Balanced(st.closed[i]) && !IsComment(st.closed[i]))
    && !IsComment(st.acc)
  }

  /** Appending a line to text that ends a line: the carried scan goes on as if there were no line break. */
  lemma ScanOneMoreLine(text: string, line: string)
    requires LastOr(text, '\n') == '\n'
    ensures Scan(Outside, '\n', text + (line + "\n")) == Scan(Scan(Outside, '\n', text), '\n', line)
    ensures LastOr(text + (line + "\n"), '\n') == '\n'
  {
    ScanAppend(Outside, '\n', text, line + "\n");
    var q := Scan(Outside, '\n', text);
    ScanAppend(q, '\n', line, "\n");
    MarksAreQuotes('\n', text);
    MarksAreQuotes('\n', text + line);
    ScanAppend(Outside, '\n', text, line);
    assert "\n"[..0] == "";
  }

  lemma {:induction false} MarksAreQuotes(prev: char, s: string)
    ensures Scan(Outside, prev, s).Inside? ==> Scan(Outside, prev, s).mark in {'"', '\''}
  {
    if s != "" { MarksAreQuotes(prev, s[..|s| - 1]); }
  }

  /** A non-blank line put after blank text, or any text put after a non-blank line, does not start a comment. */
  lemma NoCommentStarts(acc: string, line: string)
    requires LastOr(acc, '\n') == '\n' && !IsComment(acc)
    requires !(IsComment(line) && Blank(acc))
    ensures !IsComment(acc + line + "\n")
  {
    assert acc + line + "\n" == acc + (line + "\n");
    if Blank(acc) {
      TrimAround(acc, line, "\n");
    } else {
      TrimStartAppend(acc, line + "\n");
      DashesShowEarly(acc);
      DashesShowEarly(acc + (line + "\n"));
      BlankTrims(acc);
      var lead := TrimStartSplits(acc);
      assert acc[|acc| - 1] == TrimStart(acc)[|TrimStart(acc)| - 1] == '\n';
    }
  }

  /** Trimming the end never removes a dash. */
  lemma DashesShowEarly(s: string)
    ensures IsComment(s) <==> StartsWith(TrimStart(s), "--")
  {
    var trail := TrimEndSplits(TrimStart(s));
    var t := TrimStart(s);
    if StartsWith(t, "--") {
      assert forall i :: |Trim(s)| <= i < |t| ==> t[i] == trail[i - |Trim(s)|];
      assert !IsSpace(t[0]) && !IsSpace(t[1]);
      assert Trim(s)[..2] == t[..2];
    }
  }

  lemma FeedKeeps(st: Chunker, text: string, line: string)
    requires Sound(st, text)
    ensures Sound(Feed(st, line), text + if IsComment(line) && Blank(st.acc) then "" else line + "\n")
  {
    BlankTrims(st.acc);
    if IsComment(line) && Blank(st.acc) {
      assert text + "" == text;
    } else {
      assert Feed(st, line) == FeedCode(st, line);
      FeedCodeKeeps(st, text, line);
    }
  }

  lemma FeedCodeKeeps(st: Chunker, text: string, line: string)
    requires Sound(st, text) && !(IsComment(line) && Blank(st.acc))
    ensures Sound(FeedCode(st, line), text + (line + "\n"))
  {
    var acc, quote := st.acc + line + "\n", Scan(st.quote, '\n', line);
    ScanOneMoreLine(text, line);
    ScanOneMoreLine(st.acc, line);
    NoCommentStarts(st.acc, line);
    FeedText(st.closed, st.acc, text, line);
    assert Sound(Chunker(st.closed, acc, quote), text + (line + "\n"));
    if quote.Outside? {
      SoundCloses(Chunker(st.closed, acc, quote), text + (line + "\n"));
    }
  }

  lemma SoundCloses(st: Chunker, text: string)
    requires Sound(st, text) && st.quote == Outside
    ensures Sound(Chunker(st.closed + [st.acc], "", Outside), text)
  {
    assert (st.closed + [st.acc])[..|st.closed|] == st.closed;
    assert Concat(st.closed + [st.acc]) + "" == text;
    assert !IsComment("");
  }

  lemma FeedText(closed: seq<string>, acc: string, text: string, line: string)
    requires Concat(closed) + acc == text
    ensures acc + line + "\n" == acc + (line + "\n")
    ensures Concat(closed) + (acc + line + "\n") == text + (line + "\n")
  {
  }

  lemma {:induction false} RunIsSound(lines: seq<string>)
    ensures Sound(FeedAll(START, lines), KeptText(lines))
  {
    if lines != [] {
      var n := |lines| - 1;
      RunIsSound(lines[..n]);
      FeedKeeps(FeedAll(START, lines[..n]), KeptText(lines[..n]), lines[n]);
    }
  }

  // ----- the three results, for every script -----

  /** The closed chunks and the remainder are, put together, exactly the lines that were not dropped. */
  lemma NothingLost(sql: string)
    ensures var lines := Split(sql, '\n');
            Concat(Pieces(FeedAll(START, lines))) == KeptText(lines)
  {
    var lines := Split(sql, '\n');
    RunIsSound(lines);
    var st := FeedAll(START, lines);
    assert Pieces(st)[..|st.closed|] == st.closed;
  }

  /** The carried quote state is that of one scan over all kept text, and every closed chunk is balanced by itself. */
  lemma QuotesAreOnePass(sql: string)
    ensures var lines := Split(sql, '\n'); var st := FeedAll(START, lines);
            && st.quote == Scan(Outside, '\n', KeptText(lines))
            && forall i :: 0 <= i < |st.closed| ==> Balanced(st.closed[i])
  {
    RunIsSound(Split(sql, '\n'));
  }

  /** The two comment tests drop nothing: what is emitted is the trim of every piece that is not blank. */
  lemma OnlyBlankPiecesAreDropped(sql: string)
    ensures var st := FeedAll(START, Split(sql, '\n'));
            EmitAll(Pieces(st)) == NonBlankTrims(Pieces(st))
  {
    var st := FeedAll(START, Split(sql, '\n'));
    RunIsSound(Split(sql, '\n'));
    EmitAllNonBlank(Pieces(st));
  }

  function NonBlankTrims(texts: seq<string>): seq<string> {
    if texts == [] then []
    else
      var n := |texts| - 1;
      NonBlankTrims(texts[..n]) + if Blank(texts[n]) then [] else [Trim(texts[n])]
  }

  lemma {:induction false} EmitAllNonBlank(texts: seq<string>)
    requires forall i :: 0 <= i < |texts| ==> !IsComment(texts[i])
    ensures EmitAll(texts) == NonBlankTrims(texts)
  {
    if texts != [] {
      var n := |texts| - 1;
      EmitAllNonBlank(texts[..n]);
      BlankTrims(texts[n]);
    }
  }
}
