/** `JSON.stringify` on the values a query string can carry, and why no two of them print alike. */
module Json {
  import opened Wrappers

  datatype Value = Str(s: string) | List(items: seq<Value>) | Object(fields: seq<Field>)

  /** Object members in insertion order. */
  datatype Field = Field(name: string, value: Value)

  // ----- printing, each function in front of the text that follows -----

  function HexDigit(n: nat): char
    requires n < 16
  {
    if n < 10 then '0' + n as char else 'a' + (n - 10) as char
  }

  function Escape(c: char): string {
    if c == '"' then ['\\', '"']
    else if c == '\\' then ['\\', '\\']
    else if c as int == 8 then ['\\', 'b']
    else if c == '\t' then ['\\', 't']
    else if c == '\n' then ['\\', 'n']
    else if c as int == 12 then ['\\', 'f']
    else if c == '\r' then ['\\', 'r']
    else if c as int < 32 then ['\\', 'u', '0', '0', HexDigit(c as int / 16), HexDigit(c as int % 16)]
    else [c]
  }

  /** A string after its opening quote. */
  function Body(s: string, tail: string): string {
    if s == "" then ['"'] + tail else Escape(s[0]) + Body(s[1..], tail)
  }

  function Print(v: Value, tail: string): string
    decreases v, 2, 0
  {
    match v
    case Str(s) => ['"'] + Body(s, tail)
    case List(items) => ['['] + FirstItem(v, tail)
    case Object(fields) => ['{'] + FirstField(v, tail)
  }

  function FirstItem(v: Value, tail: string): string
    requires v.List?
    decreases v, 1, |v.items| + 1
  {
    if v.items == [] then [']'] + tail else Print(v.items[0], MoreItems(v, 1, tail))
  }

  function MoreItems(v: Value, i: nat, tail: string): string
    requires v.List? && i <= |v.items|
    decreases v, 1, |v.items| - i
  {
    if i == |v.items| then [']'] + tail else [','] + Print(v.items[i], MoreItems(v, i + 1, tail))
  }

  function PrintField(f: Field, tail: string): string
    decreases f, 3, 0
  {
    ['"'] + Body(f.name, [':'] + Print(f.value, tail))
  }

  function FirstField(v: Value, tail: string): string
    requires v.Object?
    decreases v, 1, |v.fields| + 1
  {
    if v.fields == [] then ['}'] + tail else PrintField(v.fields[0], MoreFields(v, 1, tail))
  }

  function MoreFields(v: Value, i: nat, tail: string): string
    requires v.Object? && i <= |v.fields|
    decreases v, 1, |v.fields| - i
  {
    if i == |v.fields| then ['}'] + tail else [','] + PrintField(v.fields[i], MoreFields(v, i + 1, tail))
  }

  function Stringify(v: Value): string {
    Print(v, "")
  }

  // ----- reading back: the printed text and what follows it determine each other -----

  lemma Peel(c: char, x: string, d: char, y: string)
    requires [c] + x == [d] + y
    ensures c == d && x == y
  {
    assert ([c] + x)[0] == ([d] + y)[0];
    assert ([c] + x)[1..] == x && ([d] + y)[1..] == y;
  }

  lemma HexDigitUnique(m: nat, n: nat)
    requires m < 16 && n < 16 && HexDigit(m) == HexDigit(n)
    ensures m == n
  {}

  lemma EscapeShape(c: char)
    ensures 1 <= |Escape(c)| && Escape(c)[0] != '"'
    ensures Escape(c)[0] == '\\' <==> |Escape(c)| > 1
    ensures |Escape(c)| > 1 ==> |Escape(c)| == if Escape(c)[1] == 'u' then 6 else 2
  {}

  lemma EscapeLengths(c: char, x: string, d: char, y: string)
    requires Escape(c) + x == Escape(d) + y
    ensures |Escape(c)| == |Escape(d)|
  {
    var s, t := Escape(c) + x, Escape(d) + y;
    EscapeShape(c);
    EscapeShape(d);
    assert s[0] == Escape(c)[0] && t[0] == Escape(d)[0];
    assert |Escape(c)| > 1 ==> s[1] == Escape(c)[1];
    assert |Escape(d)| > 1 ==> t[1] == Escape(d)[1];
  }

  lemma EscapeInjective(c: char, d: char)
    requires Escape(c) == Escape(d)
    ensures c == d
  {
    assert forall i :: 0 <= i < |Escape(c)| ==> Escape(c)[i] == Escape(d)[i];
    if |Escape(c)| == 6 {
      HexDigitUnique(c as int / 16, d as int / 16);
      HexDigitUnique(c as int % 16, d as int % 16);
    }
  }

  lemma EscapeUnique(c: char, x: string, d: char, y: string)
    requires Escape(c) + x == Escape(d) + y
    ensures c == d && x == y
  {
    EscapeLengths(c, x, d, y);
    var s, t, n := Escape(c) + x, Escape(d) + y, |Escape(c)|;
    assert s[..n] == Escape(c) && t[..n] == Escape(d);
    assert s[n..] == x && t[n..] == y;
    EscapeInjective(c, d);
  }

  lemma {:induction false} BodyUnique(s: string, x: string, t: string, y: string)
    requires Body(s, x) == Body(t, y)
    ensures s == t && x == y
  {
    if s != "" { EscapeShape(s[0]); }
    if t != "" { EscapeShape(t[0]); }
    assert s != "" ==> Body(s, x)[0] == Escape(s[0])[0];
    assert t != "" ==> Body(t, y)[0] == Escape(t[0])[0];
    if s == "" {
      Peel('"', x, '"', y);
    } else {
      EscapeUnique(s[0], Body(s[1..], x), t[0], Body(t[1..], y));
      BodyUnique(s[1..], x, t[1..], y);
      assert s == [s[0]] + s[1..] && t == [t[0]] + t[1..];
    }
  }

  /** The first character of a printed value tells its kind. */
  function Opening(v: Value): char {
    if v.Str? then '"' else if v.List? then '[' else '{'
  }

  lemma Opens(v: Value, x: string)
    ensures |Print(v, x)| > 0 && Print(v, x)[0] == Opening(v)
  {}

  /** A printed value followed by anything is read back as that value followed by that. */
  lemma {:induction false} PrintUnique(v: Value, x: string, w: Value, y: string)
    requires Print(v, x) == Print(w, y)
    ensures v == w && x == y
    decreases v, 2, 0
  {
    Opens(v, x);
    Opens(w, y);
    match v
    case Str(s) =>
      Peel('"', Body(s, x), '"', Body(w.s, y));
      BodyUnique(s, x, w.s, y);
    case List(items) =>
      Peel('[', FirstItem(v, x), '[', FirstItem(w, y));
      ItemsUnique(v, x, w, y);
    case Object(fields) =>
      Peel('{', FirstField(v, x), '{', FirstField(w, y));
      FieldsUnique(v, x, w, y);
  }

  lemma {:induction false} ItemsUnique(v: Value, x: string, w: Value, y: string)
    requires v.List? && w.List? && FirstItem(v, x) == FirstItem(w, y)
    ensures v == w && x == y
    decreases v, 1, |v.items| + 1
  {
    if v.items != [] { Opens(v.items[0], MoreItems(v, 1, x)); }
    if w.items != [] { Opens(w.items[0], MoreItems(w, 1, y)); }
    if v.items == [] {
      Peel(']', x, ']', y);
    } else {
      PrintUnique(v.items[0], MoreItems(v, 1, x), w.items[0], MoreItems(w, 1, y));
      MoreItemsUnique(v, 1, x, w, 1, y);
      assert v.items == [v.items[0]] + v.items[1..] && w.items == [w.items[0]] + w.items[1..];
    }
  }

  lemma {:induction false} MoreItemsUnique(v: Value, i: nat, x: string, w: Value, j: nat, y: string)
    requires v.List? && w.List? && i <= |v.items| && j <= |w.items| && MoreItems(v, i, x) == MoreItems(w, j, y)
    ensures v.items[i..] == w.items[j..] && x == y
    decreases v, 1, |v.items| - i
  {
    assert MoreItems(v, i, x)[0] == MoreItems(w, j, y)[0];
    if i == |v.items| {
      Peel(']', x, ']', y);
    } else {
      var more, more' := MoreItems(v, i + 1, x), MoreItems(w, j + 1, y);
      Peel(',', Print(v.items[i], more), ',', Print(w.items[j], more'));
      PrintUnique(v.items[i], more, w.items[j], more');
      MoreItemsUnique(v, i + 1, x, w, j + 1, y);
      assert v.items[i..] == [v.items[i]] + v.items[i + 1..] && w.items[j..] == [w.items[j]] + w.items[j + 1..];
    }
  }

  lemma {:induction false} FieldUnique(f: Field, x: string, g: Field, y: string)
    requires PrintField(f, x) == PrintField(g, y)
    ensures f == g && x == y
    decreases f, 3, 0
  {
    var rest, rest' := [':'] + Print(f.value, x), [':'] + Print(g.value, y);
    Peel('"', Body(f.name, rest), '"', Body(g.name, rest'));
    BodyUnique(f.name, rest, g.name, rest');
    Peel(':', Print(f.value, x), ':', Print(g.value, y));
    PrintUnique(f.value, x, g.value, y);
  }

  lemma {:induction false} FieldsUnique(v: Value, x: string, w: Value, y: string)
    requires v.Object? && w.Object? && FirstField(v, x) == FirstField(w, y)
    ensures v == w && x == y
    decreases v, 1, |v.fields| + 1
  {
    assert FirstField(v, x)[0] == FirstField(w, y)[0];
    if v.fields == [] {
      Peel('}', x, '}', y);
    } else {
      FieldUnique(v.fields[0], MoreFields(v, 1, x), w.fields[0], MoreFields(w, 1, y));
      MoreFieldsUnique(v, 1, x, w, 1, y);
      assert v.fields == [v.fields[0]] + v.fields[1..] && w.fields == [w.fields[0]] + w.fields[1..];
    }
  }

  lemma {:induction false} MoreFieldsUnique(v: Value, i: nat, x: string, w: Value, j: nat, y: string)
    requires v.Object? && w.Object? && i <= |v.fields| && j <= |w.fields| && MoreFields(v, i, x) == MoreFields(w, j, y)
    ensures v.fields[i..] == w.fields[j..] && x == y
    decreases v, 1, |v.fields| - i
  {
    assert MoreFields(v, i, x)[0] == MoreFields(w, j, y)[0];
    if i == |v.fields| {
      Peel('}', x, '}', y);
    } else {
      var more, more' := MoreFields(v, i + 1, x), MoreFields(w, j + 1, y);
      Peel(',', PrintField(v.fields[i], more), ',', PrintField(w.fields[j], more'));
      FieldUnique(v.fields[i], more, w.fields[j], more');
      MoreFieldsUnique(v, i + 1, x, w, j + 1, y);
      assert v.fields[i..] == [v.fields[i]] + v.fields[i + 1..] && w.fields[j..] == [w.fields[j]] + w.fields[j + 1..];
    }
  }

  /** Values that print alike are equal. */
  lemma StringifyIsInjective(v: Value, w: Value)
    requires Stringify(v) == Stringify(w)
    ensures v == w
  {
    PrintUnique(v, "", w, "");
  }

  // ----- strings as a JSON reader takes them (section 7 of RFC 8259) -----

  function HexValue(c: char): nat {
    if '0' <= c <= '9' then (c - '0') as nat
    else if 'a' <= c <= 'f' then 10 + (c - 'a') as nat
    else if 'A' <= c <= 'F' then 10 + (c - 'A') as nat
    else 0
  }

  /** The character an escape after a backslash stands for, and how long the escape is. */
  function Unescape(s: string): Option<(char, nat)> {
    if s == "" then None
    else if s[0] == '"' || s[0] == '\\' || s[0] == '/' then Some((s[0], 1))
    else if s[0] == 'b' then Some((8 as char, 1))
    else if s[0] == 'f' then Some((12 as char, 1))
    else if s[0] == 'n' then Some(('\n', 1))
    else if s[0] == 'r' then Some(('\r', 1))
    else if s[0] == 't' then Some(('\t', 1))
    else if s[0] == 'u' && |s| >= 5 then
      var code := ((HexValue(s[1]) * 16 + HexValue(s[2])) * 16 + HexValue(s[3])) * 16 + HexValue(s[4]);
      if code < 0xD800 then Some((code as char, 5)) else None
    else None
  }

  /** The text of a string after its opening quote, and what follows its closing one. */
  function ReadBody(s: string): Option<(string, string)>
    decreases |s|
  {
    if s == "" then None
    else if s[0] == '"' then Some(("", s[1..]))
    else if s[0] == '\\' then
      var e := Unescape(s[1..]);
      if e.None? || e.value.1 > |s| - 1 then None
      else
        var r := ReadBody(s[1 + e.value.1..]);
        if r.None? then None else Some(([e.value.0] + r.value.0, r.value.1))
    else
      var r := ReadBody(s[1..]);
      if r.None? then None else Some(([s[0]] + r.value.0, r.value.1))
  }

  lemma HexReads(n: nat)
    requires n < 16
    ensures HexValue(HexDigit(n)) == n
  {}

  lemma EscapeUnescapes(c: char, rest: string)
    requires |Escape(c)| > 1
    ensures Escape(c)[0] == '\\' && Unescape(Escape(c)[1..] + rest) == Some((c, |Escape(c)| - 1))
  {
    var s := Escape(c)[1..] + rest;
    assert s[0] == Escape(c)[1];
    if |Escape(c)| == 6 {
      HexReads(c as int / 16);
      HexReads(c as int % 16);
      assert s[1] == '0' && s[2] == '0' && s[3] == Escape(c)[4] && s[4] == Escape(c)[5];
    }
  }

  lemma EscapeReads(c: char, rest: string)
    requires ReadBody(rest).Some?
    ensures ReadBody(Escape(c) + rest) == Some(([c] + ReadBody(rest).value.0, ReadBody(rest).value.1))
  {
    var s, n := Escape(c) + rest, |Escape(c)|;
    EscapeShape(c);
    if n > 1 {
      EscapeUnescapes(c, rest);
      assert s[1..] == Escape(c)[1..] + rest && s[1 + (n - 1)..] == rest;
    } else {
      assert s[1..] == rest;
    }
  }

  /** A printed string is read back as itself, with what follows it. */
  lemma {:induction false} StringsReadBack(s: string, tail: string)
    ensures ReadBody(Body(s, tail)) == Some((s, tail))
  {
    if s == "" {
      assert (['"'] + tail)[1..] == tail;
    } else {
      StringsReadBack(s[1..], tail);
      EscapeReads(s[0], Body(s[1..], tail));
      assert s == [s[0]] + s[1..];
    }
  }
}
