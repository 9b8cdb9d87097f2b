/**
 The order total: a sum of doubles rounded to DECIMAL(10,2). Each conversion, product and sum is taken as the exact
 real result times `1 + e` with `|e| <= 2^-53` (round-to-nearest in section 4.3.1 of IEEE 754-2019).
 */
module Money {
  import OrderModel

  datatype Line = Line(cents: nat, quantity: nat)

  /** The relative errors of one turn of the reduction: `Number(price)`, the product, the sum. */
  datatype Errors = Errors(conversion: real, product: real, sum: real)

  const U: real := 1.0 / 9007199254740992.0

  predicate Small(e: real) {
    -U <= e <= U
  }

  predicate AllSmall(es: seq<Errors>) {
    forall i :: 0 <= i < |es| ==> Small(es[i].conversion) && Small(es[i].product) && Small(es[i].sum)
  }

  /** Multiplication under a name, so that proofs use only the laws below. */
  function Mul(a: real, b: real): real {
    a * b
  }

  function ExactCents(lines: seq<Line>): nat {
    if lines == [] then 0
    else
      var n := |lines| - 1;
      ExactCents(lines[..n]) + lines[n].cents * lines[n].quantity
  }

  function Price(line: Line): real {
    line.cents as real / 100.0
  }

  /** `Number(item.price) * item.quantity`: the conversion rounds, then the product does. */
  function FloatProduct(line: Line, e: Errors): real {
    Mul(Mul(Mul(Price(line), 1.0 + e.conversion), line.quantity as real), 1.0 + e.product)
  }

  /** `items.reduce((sum, item) => sum + Number(item.price) * item.quantity, 0)` with its rounding errors. */
  function FloatTotal(lines: seq<Line>, es: seq<Errors>): real
    requires |es| == |lines|
  {
    if lines == [] then 0.0
    else
      var n := |lines| - 1;
      Mul(FloatTotal(lines[..n], es[..n]) + FloatProduct(lines[n], es[n]), 1.0 + es[n].sum)
  }

  /** What DECIMAL(10,2) keeps of a non-negative number: the nearest cent. */
  function RoundToCents(x: real): int {
    (x * 100.0 + 0.5).Floor
  }

  // ----- laws of multiplication -----

  lemma MulMono(a: real, b: real, c: real, d: real)
    requires 0.0 <= a <= b && 0.0 <= c <= d
    ensures 0.0 <= Mul(a, c) <= Mul(b, d)
  {
    assert a * c <= b * c;
    assert b * c <= b * d;
  }

  lemma MulOne(a: real)
    ensures Mul(a, 1.0) == a && Mul(1.0, a) == a && Mul(a, 0.0) == 0.0
  {}

  lemma MulSwap(a: real, b: real, c: real)
    ensures Mul(Mul(a, b), c) == Mul(Mul(a, c), b) == Mul(a, Mul(b, c))
  {}

  lemma MulAdd(a: real, x: real, y: real)
    ensures Mul(a, x + y) == Mul(a, x) + Mul(a, y)
  {}

  lemma MulOnePlus(a: real, x: real)
    ensures Mul(1.0 + a, x) == x + Mul(a, x)
  {}

  lemma MulTwice(a: real, x: real)
    ensures Mul(2.0 * a, x) == 2.0 * Mul(a, x) && Mul(-a, x) == -Mul(a, x)
  {}

  lemma MulExpand(a: real, b: real)
    ensures Mul(1.0 + a, 1.0 + b) == 1.0 + a + b + Mul(a, b)
  {}

  // ----- powers of 1 + u and 1 - u -----

  function RPow(x: real, n: nat): real {
    if n == 0 then 1.0 else Mul(RPow(x, n - 1), x)
  }

  /** `n` rounding errors. */
  function Err(n: nat): real {
    n as real / 9007199254740992.0
  }

  lemma {:induction false} PowUpper(n: nat)
    requires 2.0 * Err(n) <= 1.0
    ensures 1.0 <= RPow(1.0 + U, n) <= 1.0 + 2.0 * Err(n)
  {
    if n > 0 {
      PowUpper(n - 1);
      var p, k := RPow(1.0 + U, n - 1), 2.0 * Err(n - 1);
      assert Err(n) == Err(n - 1) + U;
      MulMono(1.0, p, 1.0, 1.0 + U);
      MulMono(p, 1.0 + k, 1.0 + U, 1.0 + U);
      MulExpand(k, U);
      MulMono(k, 1.0, U, U);
      MulOne(1.0);
      MulOne(U);
    }
  }

  lemma {:induction false} PowLower(n: nat)
    requires Err(n) <= 1.0
    ensures 1.0 - Err(n) <= RPow(1.0 - U, n) <= 1.0 && 0.0 <= RPow(1.0 - U, n)
  {
    if n > 0 {
      PowLower(n - 1);
      var p, k := RPow(1.0 - U, n - 1), Err(n - 1);
      assert Err(n) == k + U;
      MulMono(1.0 - k, p, 1.0 - U, 1.0 - U);
      MulMono(p, 1.0, 1.0 - U, 1.0);
      MulExpand(-k, -U);
      MulTwice(k, -U);
      MulMono(0.0, k, 0.0, U);
      MulNegative(k, U);
      MulOne(1.0);
    }
  }

  lemma MulNegative(a: real, b: real)
    ensures Mul(-a, -b) == Mul(a, b)
  {}

  // ----- the error of the reduction -----

  /** `v` is within `m` rounding errors of `x`. */
  predicate Within(v: real, x: real, m: nat) {
    0.0 <= x && Mul(RPow(1.0 - U, m), x) <= v <= Mul(RPow(1.0 + U, m), x)
  }

  lemma {:induction false} PowPositive(m: nat)
    ensures RPow(1.0 - U, m) >= 0.0 && RPow(1.0 + U, m) >= 1.0
  {
    if m > 0 {
      PowPositive(m - 1);
      MulMono(0.0, RPow(1.0 - U, m - 1), 0.0, 1.0 - U);
      MulMono(1.0, RPow(1.0 + U, m - 1), 1.0, 1.0 + U);
      MulOne(1.0);
    }
  }

  lemma Exact(x: real)
    requires 0.0 <= x
    ensures Within(x, x, 0)
  {
    MulOne(x);
  }

  lemma WithinOneMore(v: real, x: real, m: nat, e: real)
    requires Within(v, x, m) && Small(e)
    ensures Within(Mul(v, 1.0 + e), x, m + 1)
  {
    PowPositive(m);
    var lo, hi := RPow(1.0 - U, m), RPow(1.0 + U, m);
    MulMono(0.0, lo, 0.0, x);
    MulMono(Mul(lo, x), v, 1.0 - U, 1.0 + e);
    MulMono(v, Mul(hi, x), 1.0 + e, 1.0 + U);
    MulSwap(lo, x, 1.0 - U);
    MulSwap(hi, x, 1.0 + U);
  }

  lemma {:induction false} WithinWiden(v: real, x: real, m: nat, n: nat)
    requires Within(v, x, m) && m <= n
    ensures Within(v, x, n)
    decreases n - m
  {
    if m < n {
      PowPositive(m);
      var lo, hi := RPow(1.0 - U, m), RPow(1.0 + U, m);
      MulMono(0.0, lo, 0.0, x);
      MulMono(0.0, hi, 0.0, x);
      MulMono(Mul(lo, x), Mul(lo, x), 1.0 - U, 1.0);
      MulMono(Mul(hi, x), Mul(hi, x), 1.0, 1.0 + U);
      MulOne(Mul(lo, x));
      MulOne(Mul(hi, x));
      MulSwap(lo, x, 1.0 - U);
      MulSwap(hi, x, 1.0 + U);
      WithinWiden(v, x, m + 1, n);
    }
  }

  lemma WithinSum(v: real, x: real, w: real, y: real, m: nat)
    requires Within(v, x, m) && Within(w, y, m)
    ensures Within(v + w, x + y, m)
  {
    MulAdd(RPow(1.0 - U, m), x, y);
    MulAdd(RPow(1.0 + U, m), x, y);
  }

  lemma WithinScale(v: real, x: real, q: real, m: nat)
    requires Within(v, x, m) && 0.0 <= q
    ensures Within(Mul(v, q), Mul(x, q), m)
  {
    PowPositive(m);
    var lo, hi := RPow(1.0 - U, m), RPow(1.0 + U, m);
    MulMono(0.0, lo, 0.0, x);
    MulMono(0.0, x, 0.0, q);
    MulMono(Mul(lo, x), v, q, q);
    MulMono(v, Mul(hi, x), q, q);
    MulSwap(lo, x, q);
    MulSwap(hi, x, q);
  }

  lemma CentsTimes(line: Line)
    ensures Mul(Price(line), line.quantity as real) == (line.cents * line.quantity) as real / 100.0
  {
    assert (line.cents * line.quantity) as real == line.cents as real * line.quantity as real;
  }

  /** A price read as a double and multiplied by the quantity: two rounding errors. */
  lemma ProductWithin(line: Line, e: Errors)
    requires Small(e.conversion) && Small(e.product)
    ensures Within(FloatProduct(line, e), Mul(Price(line), line.quantity as real), 2)
  {
    var x, q := Price(line), line.quantity as real;
    Exact(x);
    WithinOneMore(x, x, 0, e.conversion);
    var read := Mul(x, 1.0 + e.conversion);
    WithinScale(read, x, q, 1);
    WithinOneMore(Mul(read, q), Mul(x, q), 1, e.product);
  }

  lemma {:induction false} TotalWithin(lines: seq<Line>, es: seq<Errors>)
    requires |es| == |lines| && AllSmall(es)
    ensures Within(FloatTotal(lines, es), ExactCents(lines) as real / 100.0, |lines| + 2)
  {
    if lines == [] {
      Exact(0.0);
      WithinWiden(0.0, 0.0, 0, 2);
    } else {
      var n := |lines| - 1;
      TotalWithin(lines[..n], es[..n]);
      ProductWithin(lines[n], es[n]);
      CentsTimes(lines[n]);
      var y := lines[n].cents * lines[n].quantity;
      SumWithin(FloatTotal(lines[..n], es[..n]), ExactCents(lines[..n]), FloatProduct(lines[n], es[n]), y, n, es[n].sum);
    }
  }

  lemma SumWithin(v: real, x: nat, w: real, y: nat, n: nat, e: real)
    requires Within(v, x as real / 100.0, n + 2) && Within(w, y as real / 100.0, 2) && Small(e)
    ensures Within(Mul(v + w, 1.0 + e), (x + y) as real / 100.0, n + 3)
  {
    WithinWiden(w, y as real / 100.0, 2, n + 2);
    WithinSum(v, x as real / 100.0, w, y as real / 100.0, n + 2);
    assert x as real / 100.0 + y as real / 100.0 == (x + y) as real / 100.0;
    WithinOneMore(v + w, (x + y) as real / 100.0, n + 2, e);
  }

  /**
   For every order of at most 100,000 items whose true total is below 10^8, however each operation rounds, the
   stored total is the exact cent total. `decimal` is the error of turning the double into a Decimal.
   */
  lemma StoredTotalIsExact(lines: seq<Line>, es: seq<Errors>, decimal: real)
    requires |es| == |lines| <= 100_000 && AllSmall(es) && Small(decimal)
    requires ExactCents(lines) < 10_000_000_000
    ensures RoundToCents(Mul(FloatTotal(lines, es), 1.0 + decimal)) == ExactCents(lines)
  {
    var m := |lines| + 3;
    TotalWithin(lines, es);
    var t := ExactCents(lines) as real;
    var v := Mul(FloatTotal(lines, es), 1.0 + decimal);
    WithinOneMore(FloatTotal(lines, es), t / 100.0, m - 1, decimal);
    CloseToTheCent(v, t / 100.0, m);
    NearestCent(v, ExactCents(lines));
  }

  // ----- the orders' total -----

  predicate Countable(items: seq<OrderModel.Item>) {
    forall i :: 0 <= i < |items| ==> items[i].price >= 0 && items[i].quantity >= 0
  }

  function AsLines(items: seq<OrderModel.Item>): seq<Line>
    requires Countable(items)
  {
    seq(|items|, i requires 0 <= i < |items| => Line(items[i].price, items[i].quantity))
  }

  /** The whole-cent total of an order's items is the exact total of its lines. */
  lemma {:induction false} TotalIsExactCents(items: seq<OrderModel.Item>)
    requires Countable(items)
    ensures OrderModel.Total(items) == ExactCents(AsLines(items))
  {
    if items != [] {
      var n := |items| - 1;
      TotalIsExactCents(items[..n]);
      assert AsLines(items)[..n] == AsLines(items[..n]);
    }
  }

  /** So the total that the order model computes in cents is the one the floating-point reduction stores. */
  lemma OrderTotalIsStored(items: seq<OrderModel.Item>, es: seq<Errors>, decimal: real)
    requires Countable(items) && |es| == |items| <= 100_000 && AllSmall(es) && Small(decimal)
    requires OrderModel.Total(items) < 10_000_000_000
    ensures RoundToCents(Mul(FloatTotal(AsLines(items), es), 1.0 + decimal)) == OrderModel.Total(items)
  {
    TotalIsExactCents(items);
    StoredTotalIsExact(AsLines(items), es, decimal);
  }

  lemma NearestCent(v: real, cents: nat)
    requires cents as real / 100.0 - 0.005 < v < cents as real / 100.0 + 0.005
    ensures RoundToCents(v) == cents
  {
    var y := v * 100.0 + 0.5;
    assert cents as real < y < cents as real + 1.0;
  }

  /** So few rounding errors, on a total below 10^8, are less than half a cent. */
  lemma CloseToTheCent(v: real, x: real, m: nat)
    requires Within(v, x, m) && m <= 100_003 && x < 100_000_000.0
    ensures x - 0.005 < v < x + 0.005
  {
    var e := Err(m);
    assert 0.0 <= e <= 0.0000000000125;
    PowUpper(m);
    PowLower(m);
    ErrorOn(e, x);
    MulMono(RPow(1.0 + U, m), 1.0 + 2.0 * e, x, x);
    MulOnePlus(2.0 * e, x);
    MulTwice(e, x);
    MulMono(1.0 - e, RPow(1.0 - U, m), x, x);
    MulOnePlus(-e, x);
  }

  lemma ErrorOn(e: real, x: real)
    requires 0.0 <= e <= 0.0000000000125 && 0.0 <= x < 100_000_000.0
    ensures 0.0 <= Mul(e, x) <= 0.00125
  {
    MulMono(e, 0.0000000000125, x, 100_000_000.0);
    assert Mul(0.0000000000125, 100_000_000.0) == 0.00125;
  }
}
