/** Order rows, and what it means that an order's items are its request lines grouped by product. */
module OrderModel {
  import opened Wrappers

  /** A UUID: only equality of identifiers matters. */
  type Id = int

  datatype Status = Pending | WaitingForPayment | Paid | Complete | Cancelled

  /** Prices and totals are whole cents, the resolution of DECIMAL(10,2). */
  datatype Item = Item(productId: Id, quantity: int, price: int)

  datatype Line = Line(productId: Id, quantity: int)

  datatype Order = Order(userId: Id, status: Status, total: int, items: seq<Item>,
                         paymentId: Option<Id>, transactionId: Option<string>)

  datatype Product = Product(price: int, stock: int)

  // ----- items -----

  /** The sum that `recalculateOrderTotal` stores. */
  function Total(items: seq<Item>): int {
    if items == [] then 0
    else
      var n := |items| - 1;
      Total(items[..n]) + items[n].price * items[n].quantity
  }

  function QuantityOf(items: seq<Item>, p: Id): int {
    if items == [] then 0
    else
      var n := |items| - 1;
      QuantityOf(items[..n], p) + if items[n].productId == p then items[n].quantity else 0
  }

  /** `orderItem.findFirst` by product: its place in the order's items. */
  function FindItem(items: seq<Item>, p: Id): (r: Option<nat>)
    ensures r.Some? ==> r.value < |items| && items[r.value].productId == p
    ensures r.None? ==> forall i :: 0 <= i < |items| ==> items[i].productId != p
  {
    if items == [] then None
    else
      var n := |items| - 1;
      var before := FindItem(items[..n], p);
      if before.Some? then before else if items[n].productId == p then Some(n) else None
  }

  // ----- grouping -----

  function QuantityIn(lines: seq<Line>, p: Id): int {
    if lines == [] then 0
    else
      var n := |lines| - 1;
      QuantityIn(lines[..n], p) + if lines[n].productId == p then lines[n].quantity else 0
  }

  /** The first line that asks for product `p`, or the number of lines. */
  function FirstLine(lines: seq<Line>, p: Id): (k: nat)
    ensures k <= |lines|
    ensures k < |lines| ==> lines[k].productId == p
    ensures forall i :: 0 <= i < k ==> lines[i].productId != p
  {
    if lines == [] then 0
    else
      var n := |lines| - 1;
      var k := FirstLine(lines[..n], p);
      if k < n then k else if lines[n].productId == p then n else n + 1
  }

  predicate HasProduct(items: seq<Item>, p: Id) {
    exists i :: 0 <= i < |items| && items[i].productId == p
  }

  /**
   `items` are exactly `lines` grouped by product: one item per product asked for, its quantity the sum over the
   lines, its price the one read for the first of them.
   */
  ghost predicate Grouped(items: seq<Item>, lines: seq<Line>, prices: seq<int>) {
    && |prices| == |lines|
    && (forall i, j :: 0 <= i < j < |items| ==> items[i].productId != items[j].productId)
    && (forall k :: 0 <= k < |lines| ==> HasProduct(items, lines[k].productId))
    && (forall i :: 0 <= i < |items| ==> ItemMatches(items[i], lines, prices))
  }

  ghost predicate ItemMatches(item: Item, lines: seq<Line>, prices: seq<int>)
    requires |prices| == |lines|
  {
    var first := FirstLine(lines, item.productId);
    first < |lines| && item.price == prices[first] && item.quantity == QuantityIn(lines, item.productId)
  }

  /** One line added, at the place `findFirst` found, or as a new item. */
  function AddLine(items: seq<Item>, line: Line, price: int): seq<Item> {
    var found := FindItem(items, line.productId);
    if found.Some?
    then items[found.value := items[found.value].(quantity := items[found.value].quantity + line.quantity)]
    else items + [Item(line.productId, line.quantity, price)]
  }

  lemma {:induction false} AbsentMeansZero(lines: seq<Line>, p: Id)
    requires FirstLine(lines, p) == |lines|
    ensures QuantityIn(lines, p) == 0
  {
    if lines != [] {
      AbsentMeansZero(lines[..|lines| - 1], p);
    }
  }

  lemma LineAdded(lines: seq<Line>, line: Line, p: Id)
    ensures QuantityIn(lines + [line], p) == QuantityIn(lines, p) + if line.productId == p then line.quantity else 0
    ensures FirstLine(lines, p) < |lines| ==> FirstLine(lines + [line], p) == FirstLine(lines, p)
    ensures FirstLine(lines, p) == |lines| && line.productId == p ==> FirstLine(lines + [line], p) == |lines|
  {
    assert (lines + [line])[..|lines|] == lines;
  }

  /** Adding a line to grouped items keeps them grouped. */
  lemma GroupedStep(items: seq<Item>, lines: seq<Line>, prices: seq<int>, line: Line, price: int)
    requires Grouped(items, lines, prices)
    ensures Grouped(AddLine(items, line, price), lines + [line], prices + [price])
  {
    var items', lines', prices' := AddLine(items, line, price), lines + [line], prices + [price];
    var found := FindItem(items, line.productId);
    forall i | 0 <= i < |items'| ensures ItemMatches(items'[i], lines', prices') {
      LineAdded(lines, line, items'[i].productId);
      if i < |items| {
        assert ItemMatches(items[i], lines, prices);
        if items[i].productId == line.productId {
          assert found.Some? && found.value == i;
        }
      } else {
        assert !HasProduct(items, line.productId);
        AbsentMeansZero(lines, line.productId);
      }
    }
    forall k | 0 <= k < |lines'| ensures HasProduct(items', lines'[k].productId) {
      if k < |lines| {
        var i :| 0 <= i < |items| && items[i].productId == lines[k].productId;
        assert items'[i].productId == lines'[k].productId;
      } else {
        var i := if found.Some? then found.value else |items|;
        assert items'[i].productId == line.productId;
      }
    }
  }

  // ----- one item per product -----

  predicate OneItemEach(items: seq<Item>) {
    forall i, j :: 0 <= i < j < |items| ==> items[i].productId != items[j].productId
  }

  lemma AddLineOneEach(items: seq<Item>, line: Line, price: int)
    requires OneItemEach(items)
    ensures OneItemEach(AddLine(items, line, price))
  {
    var found := FindItem(items, line.productId);
  }

  /** The first `n` items hold all of item `k` or nothing of its product. */
  lemma {:induction false} AllOrNone(items: seq<Item>, n: nat, k: nat)
    requires OneItemEach(items) && n <= |items| && k < |items|
    ensures QuantityOf(items[..n], items[k].productId) == if k < n then items[k].quantity else 0
  {
    if n > 0 {
      assert items[..n][..n - 1] == items[..n - 1];
      AllOrNone(items, n - 1, k);
    }
  }

  lemma AtMostOne(n: nat, quantity: int)
    requires quantity >= 1
    ensures n * quantity <= quantity <==> n <= 1
  {
    if n >= 2 { assert n * quantity == quantity + (n - 1) * quantity; }
  }

  // ----- grouped items hold what the lines ask for -----

  lemma {:induction false} QuantityOfOthers(items: seq<Item>, p: Id)
    requires !HasProduct(items, p)
    ensures QuantityOf(items, p) == 0
  {
    if items != [] {
      var n := |items| - 1;
      assert items[n].productId != p;
      assert forall i :: 0 <= i < n ==> items[..n][i] == items[i];
      QuantityOfOthers(items[..n], p);
    }
  }

  lemma GroupedQuantities(items: seq<Item>, lines: seq<Line>, prices: seq<int>, p: Id)
    requires Grouped(items, lines, prices)
    ensures QuantityOf(items, p) == QuantityIn(lines, p)
  {
    if HasProduct(items, p) {
      var k :| 0 <= k < |items| && items[k].productId == p;
      assert ItemMatches(items[k], lines, prices);
      AllOrNone(items, |items|, k);
      assert items[..|items|] == items;
    } else {
      QuantityOfOthers(items, p);
      assert FirstLine(lines, p) == |lines|;
      AbsentMeansZero(lines, p);
    }
  }
}
