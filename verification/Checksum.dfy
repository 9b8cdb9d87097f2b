/** The rolling migration checksum and the identifier quoting of the database-creation consumer. */
module Checksum {
  import opened Wrappers

  /** A UTF-16 code unit, as `charCodeAt` returns it. */
  type CodeUnit = c: int | 0 <= c < 0x1_0000

  const TWO_32 := 0x1_0000_0000
  const TWO_31 := 0x8000_0000

  /** ToInt32 (section 7.1.6 of ECMA-262). */
  function ToInt32(x: int): int {
    var m := x % TWO_32;
    if m >= TWO_31 then m - TWO_32 else m
  }

  /** The base-31 polynomial of the code units, the last one being the constant term. */
  function Poly(s: seq<CodeUnit>): int {
    if s == [] then 0 else Poly(s[..|s| - 1]) * 31 + s[|s| - 1]
  }

  function Pow31(n: nat): nat {
    if n == 0 then 1 else 31 * Pow31(n - 1)
  }

  lemma ToInt32Congruent(x: int) returns (k: int)
    ensures ToInt32(x) == x + k * TWO_32
    ensures -TWO_31 <= ToInt32(x) < TWO_31
  {
    k := if x % TWO_32 >= TWO_31 then -(x / TWO_32) - 1 else -(x / TWO_32);
  }

  lemma ToInt32Periodic(x: int, k: int)
    ensures ToInt32(x + k * TWO_32) == ToInt32(x)
  {
    var y := x + k * TWO_32;
    assert y == (x / TWO_32 + k) * TWO_32 + x % TWO_32;
  }

  /** The checksum loop. `<< 5` wraps to 32 bits, the subtraction and addition do not, `hash & hash` wraps again. */
  method HashLoop(content: seq<CodeUnit>) returns (hash: int)
    ensures hash == ToInt32(Poly(content))
    ensures -TWO_31 <= hash < TWO_31
  {
    hash := 0;
    var i := 0;
    while i < |content|
      invariant 0 <= i <= |content|
      invariant hash == ToInt32(Poly(content[..i]))
      invariant -TWO_31 <= hash < TWO_31
    {
      var unit := content[i];
      ghost var before := Poly(content[..i]);
      assert content[..i + 1][..i] == content[..i];
      ghost var a := ToInt32Congruent(before);
      ghost var b := ToInt32Congruent(hash * 32);
      hash := (ToInt32(hash * 32) - hash) + unit;
      assert hash == before * 31 + unit + (a * 31 + b) * TWO_32;
      ToInt32Periodic(before * 31 + unit, a * 31 + b);
      ghost var c := ToInt32Congruent(hash);
      hash := ToInt32(hash);
      i := i + 1;
    }
    assert content[..i] == content;
  }

  lemma {:induction false} PolyAppend(a: seq<CodeUnit>, b: seq<CodeUnit>)
    ensures Poly(a + b) == Poly(a) * Pow31(|b|) + Poly(b)
  {
    if b == [] {
      assert a + b == a;
    } else {
      var n := |b| - 1;
      assert (a + b)[..|a + b| - 1] == a + b[..n];
      PolyAppend(a, b[..n]);
      calc {
        Poly(a + b);
        (Poly(a) * Pow31(n) + Poly(b[..n])) * 31 + b[n];
        Poly(a) * Pow31(n) * 31 + Poly(b);
        { MulAssoc(Poly(a), Pow31(n)); }
        Poly(a) * Pow31(n + 1) + Poly(b);
      }
    }
  }

  lemma MulAssoc(x: int, y: int)
    ensures x * y * 31 == x * (31 * y)
  {}

  /** The hash of a concatenation is a function of the two hashes and the second length. */
  lemma HashComposes(a: seq<CodeUnit>, b: seq<CodeUnit>)
    ensures ToInt32(Poly(a + b)) == ToInt32(ToInt32(Poly(a)) * Pow31(|b|) + ToInt32(Poly(b)))
  {
    PolyAppend(a, b);
    var j := ToInt32Congruent(Poly(a));
    var k := ToInt32Congruent(Poly(b));
    SameHash(Poly(a), Poly(b), Pow31(|b|), j, k);
  }

  /** Multiples of 2^32 in the parts do not show in the hash. */
  lemma SameHash(x: int, y: int, p: int, j: int, k: int)
    ensures ToInt32((x + j * TWO_32) * p + (y + k * TWO_32)) == ToInt32(x * p + y)
  {
    var m := j * p;
    assert (x + j * TWO_32) * p == x * p + m * TWO_32 by { Distribute(x, j, p); }
    assert (m + k) * TWO_32 == m * TWO_32 + k * TWO_32;
    ToInt32Periodic(x * p + y, m + k);
  }

  lemma Distribute(x: int, j: int, p: int)
    ensures (x + j * TWO_32) * p == x * p + (j * p) * TWO_32
  {
    assert j * TWO_32 * p == (j * p) * TWO_32;
  }

  // ----- printing -----

  const DIGITS := "0123456789abcdef"

  predicate IsHexDigit(c: char) {
    '0' <= c <= '9' || 'a' <= c <= 'f'
  }

  predicate IsHex(s: string) {
    forall i :: 0 <= i < |s| ==> IsHexDigit(s[i])
  }

  /** `n.toString(16)`. */
  function ToHex(n: nat): string {
    if n < 16 then [DIGITS[n]] else ToHex(n / 16) + [DIGITS[n % 16]]
  }

  /** `s.padStart(width, '0')`. */
  function PadStart(s: string, width: nat): string
    decreases width - |s|
  {
    if |s| >= width then s else PadStart("0" + s, width)
  }

  function DigitValue(c: char): nat {
    if '0' <= c <= '9' then (c - '0') as nat
    else if 'a' <= c <= 'f' then 10 + (c - 'a') as nat
    else 0
  }

  function ParseHex(s: string): nat {
    if s == "" then 0 else ParseHex(s[..|s| - 1]) * 16 + DigitValue(s[|s| - 1])
  }

  lemma DigitRoundTrip(n: nat)
    requires n < 16
    ensures IsHexDigit(DIGITS[n]) && DigitValue(DIGITS[n]) == n
  {
    assert n == 0 || n == 1 || n == 2 || n == 3 || n == 4 || n == 5 || n == 6 || n == 7 || n == 8 || n == 9
        || n == 10 || n == 11 || n == 12 || n == 13 || n == 14 || n == 15;
  }

  function Pow16(n: nat): nat {
    if n == 0 then 1 else 16 * Pow16(n - 1)
  }

  lemma {:induction false} HexRoundTrip(n: nat, width: nat)
    requires width >= 1 && n < Pow16(width)
    ensures IsHex(ToHex(n)) && 1 <= |ToHex(n)| <= width && ParseHex(ToHex(n)) == n
  {
    if n < 16 {
      DigitRoundTrip(n);
      assert [DIGITS[n]][..0] == "";
    } else {
      assert Pow16(width) == 16 * Pow16(width - 1);
      var high, low := n / 16, n % 16;
      assert n == 16 * high + low && high < Pow16(width - 1) && 1 <= high;
      assert Pow16(0) == 1 && width > 1;
      HexRoundTrip(high, width - 1);
      DigitRoundTrip(low);
      ParseSnoc(ToHex(high), DIGITS[low]);
    }
  }

  lemma ParseSnoc(s: string, c: char)
    ensures ParseHex(s + [c]) == ParseHex(s) * 16 + DigitValue(c)
  {
    assert (s + [c])[..|s|] == s;
  }

  lemma {:induction false} ZeroPrefix(s: string)
    ensures ParseHex("0" + s) == ParseHex(s)
  {
    if s == "" {
      assert "0" + s == "0" && "0"[..0] == "";
    } else {
      assert ("0" + s)[..|s|] == "0" + s[..|s| - 1];
      ZeroPrefix(s[..|s| - 1]);
    }
  }

  lemma {:induction false} PadKeepsValue(s: string, width: nat)
    requires IsHex(s) && |s| <= width
    ensures IsHex(PadStart(s, width)) && |PadStart(s, width)| == width && ParseHex(PadStart(s, width)) == ParseHex(s)
    decreases width - |s|
  {
    if |s| < width {
      ZeroPrefix(s);
      assert IsHex("0" + s);
      PadKeepsValue("0" + s, width);
    }
  }

  function Abs(x: int): nat {
    if x < 0 then -x else x
  }

  method CalculateChecksum(content: seq<CodeUnit>) returns (checksum: string)
    ensures |checksum| == 8 && IsHex(checksum)
    ensures ParseHex(checksum) == Abs(ToInt32(Poly(content)))
  {
    var hash := HashLoop(content);
    checksum := PadStart(ToHex(Abs(hash)), 8);
    assert Pow16(8) == TWO_32 by {
      assert Pow16(2) == 256 && Pow16(4) == 0x1_0000 && Pow16(6) == 0x100_0000;
    }
    HexRoundTrip(Abs(hash), 8);
    PadKeepsValue(ToHex(Abs(hash)), 8);
  }

  // ----- quoted identifiers -----

  /** `identifier.replace(/"/g, '""')`. */
  function Doubled(s: string): string {
    if s == "" then "" else (if s[0] == '"' then "\"\"" else [s[0]]) + Doubled(s[1..])
  }

  function EscapeIdentifier(identifier: string): string {
    "\"" + Doubled(identifier) + "\""
  }

  /** The inside of a quoted identifier as PostgreSQL reads it (section 4.1.1 of its manual): the text and what follows. */
  function LexInside(s: string): Option<(string, string)> {
    if s == "" then None
    else if s[0] != '"' then
      var r := LexInside(s[1..]);
      if r.None? then None else Some(([s[0]] + r.value.0, r.value.1))
    else if |s| >= 2 && s[1] == '"' then
      var r := LexInside(s[2..]);
      if r.None? then None else Some((['"'] + r.value.0, r.value.1))
    else Some(("", s[1..]))
  }

  function LexQuoted(s: string): Option<(string, string)> {
    if s != "" && s[0] == '"' then LexInside(s[1..]) else None
  }

  /** An escaped identifier is read as one token whose text is the identifier, whatever follows it in the statement. */
  lemma {:induction false} EscapedIsOneToken(identifier: string, rest: string)
    requires rest == "" || rest[0] != '"'
    ensures LexQuoted(EscapeIdentifier(identifier) + rest) == Some((identifier, rest))
  {
    var s := EscapeIdentifier(identifier) + rest;
    assert s[1..] == Doubled(identifier) + ("\"" + rest);
    LexDoubled(identifier, rest);
  }

  lemma LexPlain(c: char, tail: string, id: string, rest: string)
    requires c != '"' && LexInside(tail) == Some((id, rest))
    ensures LexInside([c] + tail) == Some(([c] + id, rest))
  {
    assert ([c] + tail)[1..] == tail;
  }

  lemma LexMark(tail: string, id: string, rest: string)
    requires LexInside(tail) == Some((id, rest))
    ensures LexInside("\"\"" + tail) == Some((['"'] + id, rest))
  {
    assert ("\"\"" + tail)[2..] == tail;
  }

  lemma {:induction false} LexDoubled(id: string, rest: string)
    requires rest == "" || rest[0] != '"'
    ensures LexInside(Doubled(id) + ("\"" + rest)) == Some((id, rest))
  {
    var end := "\"" + rest;
    if id == "" {
      assert Doubled(id) + end == end && end[1..] == rest;
    } else {
      LexDoubled(id[1..], rest);
      var tail := Doubled(id[1..]) + end;
      assert id == [id[0]] + id[1..];
      if id[0] == '"' {
        assert Doubled(id) + end == "\"\"" + tail;
        LexMark(tail, id[1..], rest);
      } else {
        assert Doubled(id) + end == [id[0]] + tail;
        LexPlain(id[0], tail, id[1..], rest);
      }
    }
  }
}
