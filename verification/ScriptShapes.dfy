/**
 What the quote scanner and the line splitter compute, told by the shape of the text: bare and quoted stretches, comment
 lines, and statements that end at a semicolon.
 */
module ScriptShapes {
  import opened Text
  import opened MigrationSplitter
  import opened SplitterAgreement

  // ----- the scanner -----

  predicate IsMark(c: char) {
    c == '"' || c == '\''
  }

  /** Text free of quotation marks leaves the scanner outside quotes. */
  lemma {:induction false} BareStaysOutside(prev: char, s: string)
    requires forall i :: 0 <= i < |s| ==> !IsMark(s[i])
    ensures Scan(Outside, prev, s) == Outside
  {
    if s != "" { BareStaysOutside(prev, s[..|s| - 1]); }
  }

  /** Inside a quotation nothing but its own mark matters. */
  lemma {:induction false} QuotedStaysInside(mark: char, prev: char, s: string)
    requires mark !in s
    ensures Scan(Inside(mark), prev, s) == Inside(mark)
  {
    if s != "" { QuotedStaysInside(mark, prev, s[..|s| - 1]); }
  }

  lemma ScanOne(q: Quote, prev: char, c: char)
    ensures Scan(q, prev, [c]) == ScanChar(q, prev, c)
  {
    assert [c][..0] == "";
  }

  /** A mark opens a quotation whatever comes before it. */
  lemma MarkOpens(prev: char, mark: char, body: string)
    requires IsMark(mark) && mark !in body
    ensures Scan(Outside, prev, [mark] + body) == Inside(mark)
  {
    ScanOne(Outside, prev, mark);
    ScanAppend(Outside, prev, [mark], body);
    QuotedStaysInside(mark, mark, body);
  }

  /** The same mark closes it, unless a backslash stands before it. */
  lemma MarkClosesExactly(prev: char, mark: char, body: string)
    requires IsMark(mark) && mark !in body
    ensures Scan(Outside, prev, [mark] + body + [mark]) == if EndsWith(body, '\\') then Inside(mark) else Outside
  {
    MarkOpens(prev, mark, body);
    ScanAppend(Outside, prev, [mark] + body, [mark]);
    ScanOne(Inside(mark), LastOr([mark] + body, prev), mark);
  }

  // ----- lines of bare and quoted text -----

  datatype Piece = Bare(text: string) | Quoted(mark: char, body: string)

  predicate Closed(p: Piece) {
    match p
    case Bare(text) => forall i :: 0 <= i < |text| ==> !IsMark(text[i])
    case Quoted(mark, body) => IsMark(mark) && mark !in body && !EndsWith(body, '\\')
  }

  function PieceText(p: Piece): string {
    match p
    case Bare(text) => text
    case Quoted(mark, body) => [mark] + body + [mark]
  }

  function LineText(pieces: seq<Piece>): string {
    if pieces == [] then "" else PieceText(pieces[0]) + LineText(pieces[1..])
  }

  lemma {:induction false} PiecesEndOutside(prev: char, pieces: seq<Piece>)
    requires forall i :: 0 <= i < |pieces| ==> Closed(pieces[i])
    ensures Scan(Outside, prev, LineText(pieces)) == Outside
    decreases |pieces|
  {
    if pieces != [] {
      var p := pieces[0];
      match p {
        case Bare(text) => BareStaysOutside(prev, text);
        case Quoted(mark, body) => MarkClosesExactly(prev, mark, body);
      }
      ScanAppend(Outside, prev, PieceText(p), LineText(pieces[1..]));
      PiecesEndOutside(LastOr(PieceText(p), prev), pieces[1..]);
    }
  }

  /** A line of bare text and closed quotations is balanced. */
  lemma PiecesAreBalanced(pieces: seq<Piece>)
    requires forall i :: 0 <= i < |pieces| ==> Closed(pieces[i])
    ensures Balanced(LineText(pieces))
  {
    PiecesEndOutside('\n', pieces);
  }

  /** One with a quotation left open is not. */
  lemma OpenQuotesAreNotBalanced(pieces: seq<Piece>, mark: char, body: string)
    requires forall i :: 0 <= i < |pieces| ==> Closed(pieces[i])
    requires IsMark(mark) && mark !in body
    ensures !Balanced(LineText(pieces) + ([mark] + body))
  {
    PiecesEndOutside('\n', pieces);
    ScanAppend(Outside, '\n', LineText(pieces), [mark] + body);
    MarkOpens(LastOr(LineText(pieces), '\n'), mark, body);
  }

  // ----- comments -----

  /** A comment line is one that starts, after blanks, with two dashes. */
  lemma CommentsExactly(lead: string, text: string)
    requires Blank(lead)
    ensures IsComment(lead + text) <==> IsComment(text)
    ensures IsComment("--" + text)
    ensures text != "" && !IsSpace(text[0]) && !StartsWith(text, "--") ==> !IsComment(text)
  {
    DashesShowEarly(lead + text);
    DashesShowEarly(text);
    DashesShowEarly("--" + text);
    TrimStartAppend(lead, text);
    assert TrimStart("--" + text) == "--" + text;
  }

  /** The regular expression strips everything from the first two dashes on, if no line terminator follows them. */
  lemma {:induction false} StripsTrailingComments(code: string, text: string)
    requires NoDashes(code) && !EndsWith(code, '-') && OneLine(text)
    ensures StripComment(code + ("--" + text)) == code
  {
    var line := code + ("--" + text);
    if code == "" {
      assert line == "--" + text && line[2..] == text;
    } else {
      assert line[0] == code[0] && line[1..] == code[1..] + ("--" + text);
      assert forall i :: 0 <= i < |code| - 1 && DashesAt(code[1..], i) ==> DashesAt(code, i + 1);
      assert EndsWith(code[1..], '-') ==> EndsWith(code, '-');
      StripsTrailingComments(code[1..], text);
      assert !StartsWith(line, "--") by {
        if |code| >= 2 { assert !DashesAt(code, 0); assert line[1] == code[1]; }
      }
      assert code == [code[0]] + code[1..];
    }
  }

  // ----- scripts of statements and comments -----

  /** A comment line between statements, or the lines of one statement. */
  datatype Block = Comment(line: string) | Statement(lines: seq<string>)

  predicate WellFormed(b: Block) {
    match b
    case Comment(line) => IsComment(line)
    case Statement(lines) =>
      && lines != [] && (forall i :: 0 <= i < |lines| ==> Balanced(lines[i]) && !IsComment(lines[i]))
      && (forall i :: 0 <= i < |lines| ==> (EndsWith(Trim(lines[i]), ';') <==> i == |lines| - 1))
  }

  function BlockLines(b: Block): seq<string> {
    match b
    case Comment(line) => [line]
    case Statement(lines) => lines
  }

  function ScriptLines(blocks: seq<Block>): seq<string> {
    if blocks == [] then [] else ScriptLines(blocks[..|blocks| - 1]) + BlockLines(blocks[|blocks| - 1])
  }

  /** The text of every statement, with its newlines. */
  function StatementTexts(blocks: seq<Block>): seq<string> {
    if blocks == [] then []
    else
      var n := |blocks| - 1;
      StatementTexts(blocks[..n]) + if blocks[n].Statement? then [Terminated(blocks[n].lines)] else []
  }

  lemma {:induction false} FeedAllAppend(st: Chunker, a: seq<string>, b: seq<string>)
    ensures FeedAll(st, a + b) == FeedAll(FeedAll(st, a), b)
  {
    if b == [] {
      assert a + b == a;
    } else {
      var n := |b| - 1;
      assert (a + b)[..|a + b| - 1] == a + b[..n];
      FeedAllAppend(st, a, b[..n]);
    }
  }

  /** A line of a statement that does not end it is accumulated. */
  lemma FeedMiddle(closed: seq<string>, acc: string, line: string)
    requires Balanced(line) && !IsComment(line) && !EndsWith(Trim(line), ';')
    ensures Feed(Chunker(closed, acc, Outside), line) == Chunker(closed, acc + line + "\n", Outside)
  {}

  lemma FeedLast(closed: seq<string>, acc: string, line: string)
    requires Balanced(line) && !IsComment(line) && EndsWith(Trim(line), ';')
    ensures Feed(Chunker(closed, acc, Outside), line) == Chunker(closed + [acc + line + "\n"], "", Outside)
  {}

  lemma TerminatedSnoc(lines: seq<string>, k: nat)
    requires k < |lines|
    ensures Terminated(lines[..k + 1]) == Terminated(lines[..k]) + lines[k] + "\n"
  {
    assert lines[..k + 1][..k] == lines[..k];
  }

  lemma FeedSnocFrom(st: Chunker, lines: seq<string>, k: nat)
    requires k < |lines|
    ensures FeedAll(st, lines[..k + 1]) == Feed(FeedAll(st, lines[..k]), lines[k])
  {
    assert lines[..k + 1][..k] == lines[..k];
  }

  lemma {:induction false} StatementGrows(closed: seq<string>, lines: seq<string>, k: nat)
    requires WellFormed(Statement(lines)) && k < |lines|
    ensures FeedAll(Chunker(closed, "", Outside), lines[..k]) == Chunker(closed, Terminated(lines[..k]), Outside)
  {
    if k > 0 {
      StatementGrows(closed, lines, k - 1);
      FeedSnocFrom(Chunker(closed, "", Outside), lines, k - 1);
      TerminatedSnoc(lines, k - 1);
      FeedMiddle(closed, Terminated(lines[..k - 1]), lines[k - 1]);
    }
  }

  lemma BlockFeeds(closed: seq<string>, b: Block)
    requires WellFormed(b)
    ensures FeedAll(Chunker(closed, "", Outside), BlockLines(b))
         == Chunker(if b.Statement? then closed + [Terminated(b.lines)] else closed, "", Outside)
  {
    match b
    case Comment(line) =>
      assert [line][..0] == [];
      assert FeedAll(Chunker(closed, "", Outside), []) == Chunker(closed, "", Outside);
      FeedComment(Chunker(closed, "", Outside), line);
    case Statement(lines) =>
      var n := |lines| - 1;
      StatementGrows(closed, lines, n);
      FeedSnocFrom(Chunker(closed, "", Outside), lines, n);
      TerminatedSnoc(lines, n);
      FeedLast(closed, Terminated(lines[..n]), lines[n]);
      assert lines[..n + 1] == lines;
  }

  lemma {:induction false} ScriptFeeds(blocks: seq<Block>)
    requires forall i :: 0 <= i < |blocks| ==> WellFormed(blocks[i])
    ensures FeedAll(START, ScriptLines(blocks)) == Chunker(StatementTexts(blocks), "", Outside)
  {
    if blocks != [] {
      var n := |blocks| - 1;
      var before, texts := ScriptLines(blocks[..n]), StatementTexts(blocks[..n]);
      ScriptFeeds(blocks[..n]);
      FeedAllAppend(START, before, BlockLines(blocks[n]));
      BlockFeeds(texts, blocks[n]);
      assert blocks[n].Comment? ==> StatementTexts(blocks) == texts;
    }
  }

  /** The trims of the texts, in order. */
  function Trims(texts: seq<string>): seq<string> {
    if texts == [] then [] else Trims(texts[..|texts| - 1]) + [Trim(texts[|texts| - 1])]
  }

  lemma {:induction false} NonBlankAllShow(texts: seq<string>)
    requires forall i :: 0 <= i < |texts| ==> !Blank(texts[i])
    ensures NonBlankTrims(texts) == Trims(texts)
  {
    if texts != [] { NonBlankAllShow(texts[..|texts| - 1]); }
  }

  lemma {:induction false} StatementTextsShow(blocks: seq<Block>)
    requires forall i :: 0 <= i < |blocks| ==> WellFormed(blocks[i])
    ensures forall i :: 0 <= i < |StatementTexts(blocks)| ==> !Blank(StatementTexts(blocks)[i])
  {
    if blocks != [] {
      var n := |blocks| - 1;
      StatementTextsShow(blocks[..n]);
      if blocks[n].Statement? { TerminatedIsNotBlank(blocks[n].lines); }
    }
  }

  lemma TerminatedIsNotBlank(lines: seq<string>)
    requires lines != [] && EndsWith(Trim(lines[|lines| - 1]), ';')
    ensures !Blank(Terminated(lines))
  {
    var n := |lines| - 1;
    BlankTrims(lines[n]);
    BlankConcat(lines[n], "\n");
    BlankConcat(Terminated(lines[..n]), lines[n] + "\n");
    assert Terminated(lines) == Terminated(lines[..n]) + (lines[n] + "\n");
  }

  /**
   On every script of comment lines between statements and statements whose lines are balanced and whose last line alone
   ends in a semicolon, the line splitter yields exactly one statement per statement, in order.
   */
  lemma OneStatementEach(sql: string, blocks: seq<Block>)
    requires forall i :: 0 <= i < |blocks| ==> WellFormed(blocks[i])
    requires Split(sql, '\n') == ScriptLines(blocks)
    ensures Statements(sql) == Trims(StatementTexts(blocks))
  {
    var texts := StatementTexts(blocks);
    ScriptFeeds(blocks);
    OnlyBlankPiecesAreDropped(sql);
    assert (texts + [""])[..|texts|] == texts;
    StatementTextsShow(blocks);
    NonBlankAllShow(texts);
  }
}
