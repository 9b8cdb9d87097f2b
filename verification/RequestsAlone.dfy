/**
 The two models of the order service meet: a request whose steps are not interleaved with anything does to the
 tables exactly what the whole-request functions say.
 */
module RequestsAlone {
  import opened Wrappers
  import opened OrderModel
  import opened OrderProtocol
  import OS = OrderService

  function Tables(s: State): OS.Db {
    OS.Db(s.orders, s.products, s.published, s.completions)
  }

  // ----- payments -----

  /** `k` turns of the payment loop, the status update included. */
  function PaySteps(s: State, pay: Id, k: nat): State
    decreases k
  {
    if k == 0 then s else PaySteps(AdvancePayment(s, pay), pay, k - 1)
  }

  /** A payment run alone until the store fails at its operation `fault`. */
  function PayAlone(s: State, pay: Id, o: Id, user: Id, fault: nat): State {
    StopPayment(PaySteps(StartPayment(s, pay, o, user), pay, fault), pay)
  }

  predicate AllThere(products: map<Id, Product>, items: seq<Item>, n: nat) {
    n <= |items| && forall i :: 0 <= i < n ==> items[i].productId in products
  }

  /** `Reached` stops at the fault or at the first product that is gone. */
  lemma {:induction false} ReachedExactly(products: map<Id, Product>, items: seq<Item>, fault: nat)
    ensures var n := OS.Reached(products, items, fault);
            && n <= fault && AllThere(products, items, n)
            && (n < |items| ==> fault == n || items[n].productId !in products)
  {
    if items != [] {
      ReachedExactly(products, items[..|items| - 1], fault);
    }
  }

  lemma {:induction false} SettledPayment(s: State, pay: Id, k: nat)
    requires pay !in s.payments || s.payments[pay].state != Running
    ensures PaySteps(s, pay, k) == s
    decreases k
  {
    if k > 0 { SettledPayment(s, pay, k - 1); }
  }

  /** Where the loop stands after `n` decrements that all found their product. */
  ghost predicate Deducting(db: OS.Db, s: State, pay: Id, o: Id, items: seq<Item>, n: nat) {
    && n <= |items| && o in db.orders
    && Tables(s) == db.(products := OS.Deducted(db.products, items[..n]))
    && pay in s.payments && s.payments[pay] == Payment(o, items, n, Running)
  }

  /** The tables after `n` decrements, and the status update if it came to that. */
  function Paying(db: OS.Db, o: Id, items: seq<Item>, n: nat, paid: bool): OS.Db
    requires o in db.orders && n <= |items|
  {
    var after := db.(products := OS.Deducted(db.products, items[..n]));
    if paid then after.(orders := db.orders[o := db.orders[o].(status := Paid)]) else after
  }

  lemma NextDeducts(db: OS.Db, s: State, pay: Id, o: Id, items: seq<Item>, n: nat)
    requires Deducting(db, s, pay, o, items, n) && n < |items| && items[n].productId in db.products
    ensures Deducting(db, AdvancePayment(s, pay), pay, o, items, n + 1)
  {
    OS.DeductedStep(db.products, items, n);
  }

  lemma LastTurn(db: OS.Db, s: State, pay: Id, o: Id, items: seq<Item>, n: nat)
    requires Deducting(db, s, pay, o, items, n) && (n < |items| ==> items[n].productId !in db.products)
    ensures var s' := AdvancePayment(s, pay);
            && Tables(s') == Paying(db, o, items, n, n == |items|)
            && pay in s'.payments && s'.payments[pay].state != Running
  {
  }

  /** From `n` decrements on, `more` turns get to `reach`, and to the end if there are turns left there. */
  lemma {:induction false} LoopReaches(db: OS.Db, s: State, pay: Id, o: Id, items: seq<Item>, n: nat, more: nat, reach: nat)
    requires Deducting(db, s, pay, o, items, n) && n <= reach <= n + more && AllThere(db.products, items, reach)
    requires reach < |items| ==> n + more == reach || items[reach].productId !in db.products
    ensures Tables(PaySteps(s, pay, more)) == Paying(db, o, items, reach, reach == |items| && n + more > reach)
    decreases more
  {
    if more > 0 {
      var next := AdvancePayment(s, pay);
      if n < reach {
        NextDeducts(db, s, pay, o, items, n);
        LoopReaches(db, next, pay, o, items, n + 1, more - 1, reach);
      } else {
        LastTurn(db, s, pay, o, items, n);
        SettledPayment(next, pay, more - 1);
      }
    }
  }

  lemma StoppingLeavesTables(s: State, pay: Id)
    ensures Tables(StopPayment(s, pay)) == Tables(s)
  {}

  /** A payment alone is `paymentReceived` as a whole, wherever the store fails. */
  lemma PaymentAloneIsPay(s: State, pay: Id, o: Id, user: Id, fault: nat)
    requires pay !in s.payments
    ensures Tables(PayAlone(s, pay, o, user, fault)) == OS.Pay(Tables(s), o, user, fault).0
  {
    var s1 := StartPayment(s, pay, o, user);
    StoppingLeavesTables(PaySteps(s1, pay, fault), pay);
    if OS.PayCheck(Tables(s), o, user) != OS.Ok {
      SettledPayment(s, pay, fault);
    } else {
      var items := s.orders[o].items;
      ReachedExactly(s.products, items, fault);
      assert OS.Deducted(s.products, items[..0]) == s.products;
      LoopReaches(Tables(s), s1, pay, o, items, 0, fault, OS.Reached(s.products, items, fault));
    }
  }

  // ----- two payments at once -----

  lemma {:induction false} OtherPaymentsStay(s: State, pay: Id, k: nat, other: Id)
    requires other in s.payments && other != pay
    ensures other in PaySteps(s, pay, k).payments && PaySteps(s, pay, k).payments[other] == s.payments[other]
    decreases k
  {
    if k > 0 { OtherPaymentsStay(AdvancePayment(s, pay), pay, k - 1, other); }
  }

  /** Two payments of an order that both passed their checks before either decremented: run to their ends, one after the other. */
  function BothPay(s: State, pay: Id, pay': Id, o: Id, user: Id): State
    requires o in s.orders
  {
    var n := |s.orders[o].items| + 1;
    var both := StartPayment(StartPayment(s, pay, o, user), pay', o, user);
    PaySteps(PaySteps(both, pay, n), pay', n)
  }

  lemma RunsToTheEnd(s: State, pay: Id, o: Id, items: seq<Item>)
    requires o in s.orders && pay in s.payments && s.payments[pay] == Payment(o, items, 0, Running)
    requires AllThere(s.products, items, |items|)
    ensures Tables(PaySteps(s, pay, |items| + 1)) == Paying(Tables(s), o, items, |items|, true)
  {
    assert OS.Deducted(s.products, items[..0]) == s.products;
    LoopReaches(Tables(s), s, pay, o, items, 0, |items| + 1, |items|);
  }

  /** Nothing stops the second: each product of the order loses its quantity twice. */
  lemma ConcurrentPaymentsTakeTwice(s: State, pay: Id, pay': Id, o: Id, user: Id, p: Id)
    requires pay !in s.payments && pay' !in s.payments && pay != pay' && p in s.products
    requires o in s.orders && s.orders[o].userId == user && s.orders[o].status == WaitingForPayment
    requires AllThere(s.products, s.orders[o].items, |s.orders[o].items|)
    ensures var end := BothPay(s, pay, pay', o, user);
            && p in end.products && o in end.orders && end.orders[o].status == Paid
            && end.products[p].stock == s.products[p].stock - 2 * QuantityOf(s.orders[o].items, p)
  {
    var items := s.orders[o].items;
    var n := |items| + 1;
    var both := StartPayment(StartPayment(s, pay, o, user), pay', o, user);
    assert Tables(both) == Tables(s);
    RunsToTheEnd(both, pay, o, items);
    OtherPaymentsStay(both, pay, n, pay');
    var mid := PaySteps(both, pay, n);
    assert mid.products == OS.Deducted(s.products, items[..|items|]);
    RunsToTheEnd(mid, pay', o, items);
    assert items[..|items|] == items;
  }

  // ----- creates -----

  function Iterate(f: State -> State, s: State, k: nat): State
    decreases k
  {
    if k == 0 then s else Iterate(f, f(s), k - 1)
  }

  /** The next store operation of the create call for order `o`. */
  function Turn(o: Id): State -> State {
    s => Apply(s, StepCreate(o))
  }

  ghost predicate IsTurn(f: State -> State, o: Id) {
    forall s {:trigger Apply(s, StepCreate(o))} :: f(s) == Apply(s, StepCreate(o))
  }

  /** A create call run alone: six operations per line, then the publish. */
  function CreateAlone(s: State, o: Id, user: Id, lines: seq<Line>): State {
    Iterate(Turn(o), Begin(s, o, user, lines), 6 * |lines| + 1)
  }

  predicate Settled(s: State, o: Id) {
    o !in s.creates || o !in s.orders || s.creates[o].step == Done || s.creates[o].step == Failed
  }

  lemma SettledStep(s: State, o: Id)
    requires Settled(s, o)
    ensures Apply(s, StepCreate(o)) == s
  {
    if CanAdvance(s, o) {
      assert s.creates[o := s.creates[o]] == s.creates && s.orders[o := s.orders[o]] == s.orders;
    }
  }

  lemma {:induction false} FixedPoint(f: State -> State, s: State, k: nat)
    requires f(s) == s
    ensures Iterate(f, s, k) == s
  {
    if k > 0 { FixedPoint(f, s, k - 1); }
  }

  lemma SettledCreate(f: State -> State, s: State, o: Id, k: nat)
    requires Settled(s, o) && IsTurn(f, o)
    ensures Iterate(f, s, k) == s
  {
    SettledStep(s, o);
    FixedPoint(f, s, k);
  }

  /** The call's own row and progress, put back into the state. */
  function SetRow(s: State, o: Id, r: (Create, Order)): State {
    s.(creates := s.creates[o := r.0], orders := s.orders[o := r.1])
  }

  /** `j` operations on the row, none of them the publish. */
  ghost predicate Leads(c: Create, order: Order, products: map<Id, Product>, j: nat, r: (Create, Order))
    decreases j
  {
    if j == 0 then r == (c, order)
    else Mid(c) && c.step != Publish &&
         var next := StepRow(c, order, products); Leads(next.0, next.1, products, j - 1, r)
  }

  lemma {:induction false} StepsFollowTheRow(f: State -> State, s: State, o: Id, j: nat, k: nat, r: (Create, Order))
    requires IsTurn(f, o) && o in s.creates && o in s.orders && Leads(s.creates[o], s.orders[o], s.products, j, r)
    ensures Iterate(f, s, j + k) == Iterate(f, SetRow(s, o, r), k)
    decreases j
  {
    if j == 0 {
      assert SetRow(s, o, r) == s;
    } else {
      var next := StepRow(s.creates[o], s.orders[o], s.products);
      var s' := SetRow(s, o, next);
      assert Apply(s, StepCreate(o)) == s';
      StepsFollowTheRow(f, s', o, j - 1, k, r);
      assert SetRow(s', o, r) == SetRow(s, o, r);
    }
  }

  /** A call about to add its next line to its own pending order. */
  ghost predicate AtLine(c: Create, order: Order) {
    && c.step == ReadOrder && c.added < |c.lines| && |c.prices| == c.added
    && order.userId == c.userId && order.status == Pending
  }

  predicate Available(products: map<Id, Product>, line: Line) {
    line.productId in products && products[line.productId].stock >= line.quantity
  }

  /** What the six operations of one line come to. */
  function LineDone(c: Create, order: Order, products: map<Id, Product>): (Create, Order)
    requires c.added < |c.lines|
  {
    var line := c.lines[c.added];
    if !Available(products, line) then (c.(step := Failed), order)
    else
      var price := products[line.productId].price;
      var items := AddLine(order.items, line, price);
      (c.(added := c.added + 1, prices := c.prices + [price],
          step := if c.added + 1 < |c.lines| then ReadOrder else Publish),
       order.(items := items, total := Total(items)))
  }

  lemma LeadsNext(c: Create, order: Order, c': Create, order': Order, products: map<Id, Product>, j: nat, r: (Create, Order))
    requires Mid(c) && c.step != Publish && StepRow(c, order, products) == (c', order')
    requires Leads(c', order', products, j, r)
    ensures Leads(c, order, products, j + 1, r)
  {}

  lemma LineTakesSix(c: Create, order: Order, products: map<Id, Product>)
    requires AtLine(c, order)
    ensures Leads(c, order, products, 6, LineDone(c, order, products))
  {
    var line := c.lines[c.added];
    var c1, r := c.(step := ReadProduct), LineDone(c, order, products);
    if !Available(products, line) {
      FailedLeads(c.(step := Failed), order, products, 4);
      LeadsNext(c1, order, c.(step := Failed), order, products, 4, r);
    } else {
      var c2 := c.(step := ReadItem, prices := c.prices + [products[line.productId].price]);
      LineWrites(c2, order, products);
      LeadsNext(c1, order, c2, order, products, 4, r);
    }
    LeadsNext(c, order, c1, order, products, 5, r);
  }

  lemma {:induction false} FailedLeads(c: Create, order: Order, products: map<Id, Product>, j: nat)
    requires c.step == Failed
    ensures Leads(c, order, products, j, (c, order))
  {
    if j > 0 { FailedLeads(c, order, products, j - 1); }
  }

  /** From the item lookup on: the item, the sum, the total. */
  lemma LineWrites(c: Create, order: Order, products: map<Id, Product>)
    requires c.step == ReadItem && c.added < |c.lines| && |c.prices| == c.added + 1
    requires c.lines[c.added].productId in products
    ensures var items := AddLine(order.items, c.lines[c.added], c.prices[c.added]);
            var step := if c.added + 1 < |c.lines| then ReadOrder else Publish;
            Leads(c, order, products, 4, (c.(added := c.added + 1, step := step), order.(items := items, total := Total(items))))
  {
    var items := AddLine(order.items, c.lines[c.added], c.prices[c.added]);
    var c3 := StepRow(c, order, products).0;
    assert StepRow(c3, order, products) == (c.(step := ReadItems), order.(items := items));
    TotalWrites(c.(step := ReadItems), order.(items := items), products);
    var step := if c.added + 1 < |c.lines| then ReadOrder else Publish;
    var r := (c.(added := c.added + 1, step := step), order.(items := items, total := Total(items)));
    LeadsNext(c3, order, c.(step := ReadItems), order.(items := items), products, 2, r);
    LeadsNext(c, order, c3, order, products, 3, r);
  }

  lemma TotalWrites(c: Create, order: Order, products: map<Id, Product>)
    requires c.step == ReadItems && c.added < |c.lines|
    ensures var step := if c.added + 1 < |c.lines| then ReadOrder else Publish;
            Leads(c, order, products, 2, (c.(added := c.added + 1, step := step), order.(total := Total(order.items))))
  {
    var total := Total(order.items);
    var step := if c.added + 1 < |c.lines| then ReadOrder else Publish;
    var r := (c.(added := c.added + 1, step := step), order.(total := total));
    LeadsNext(c.(step := WriteTotal(total)), order, r.0, r.1, products, 0, r);
    LeadsNext(c, order, c.(step := WriteTotal(total)), order, products, 1, r);
  }

  /** The state six operations later, for a call at the start of a line; a settled call stays. */
  function NextLine(s: State, o: Id): State {
    if o in s.creates && o in s.orders && s.creates[o].added < |s.creates[o].lines| && s.creates[o].step == ReadOrder
    then SetRow(s, o, LineDone(s.creates[o], s.orders[o], s.products)) else s
  }

  function AfterLines(s: State, o: Id, n: nat): State {
    if n == 0 then s else NextLine(AfterLines(s, o, n - 1), o)
  }

  ghost predicate Ready(s: State, o: Id) {
    Settled(s, o) || AtLine(s.creates[o], s.orders[o])
  }

  lemma LineAlone(f: State -> State, s: State, o: Id, k: nat)
    requires IsTurn(f, o) && Ready(s, o)
    ensures Iterate(f, s, 6 + k) == Iterate(f, NextLine(s, o), k)
  {
    if Settled(s, o) {
      SettledCreate(f, s, o, 6 + k);
      SettledCreate(f, s, o, k);
    } else {
      LineTakesSix(s.creates[o], s.orders[o], s.products);
      StepsFollowTheRow(f, s, o, 6, k, LineDone(s.creates[o], s.orders[o], s.products));
    }
  }

  lemma {:induction false} LinesAlone(f: State -> State, s: State, o: Id, n: nat, k: nat)
    requires IsTurn(f, o) && forall i: nat :: i < n ==> Ready(AfterLines(s, o, i), o)
    ensures Iterate(f, s, 6 * n + k) == Iterate(f, AfterLines(s, o, n), k)
  {
    if n > 0 {
      LinesAlone(f, s, o, n - 1, 6 + k);
      assert 6 * (n - 1) + (6 + k) == 6 * n + k;
      LineAlone(f, AfterLines(s, o, n - 1), o, k);
    }
  }

  /** One line of a call alone is one `addItemToOrder`. */
  lemma LineTables(s: State, o: Id)
    requires o in s.creates && o in s.orders && AtLine(s.creates[o], s.orders[o])
    ensures var c := s.creates[o]; var s' := SetRow(s, o, LineDone(c, s.orders[o], s.products));
            && Tables(s') == OS.AddItem(Tables(s), o, c.userId, c.lines[c.added])
            && (OS.AddCheck(Tables(s), o, c.userId, c.lines[c.added]) == OS.Ok <==> Available(s.products, c.lines[c.added]))
  {
    if !Available(s.products, s.creates[o].lines[s.creates[o].added]) {
      assert s.orders[o := s.orders[o]] == s.orders;
    }
  }

  /** One more turn of the loop in `create`: nothing after a refusal. */
  function OneLine(r: (OS.Db, OS.Outcome), o: Id, user: Id, line: Line): (OS.Db, OS.Outcome) {
    if r.1 != OS.Ok then r else (OS.AddItem(r.0, o, user, line), OS.AddCheck(r.0, o, user, line))
  }

  lemma AddItemsSnoc(db: OS.Db, o: Id, user: Id, lines: seq<Line>, n: nat)
    requires n < |lines|
    ensures OS.AddItems(db, o, user, lines[..n + 1]) == OneLine(OS.AddItems(db, o, user, lines[..n]), o, user, lines[n])
  {
    assert lines[..n + 1][..n] == lines[..n];
  }

  ghost predicate GoesOn(c: Create, order: Order, user: Id, lines: seq<Line>, n: nat) {
    && c.userId == user && c.lines == lines && c.added == n
    && if n < |lines| then AtLine(c, order) else c.step == Publish
  }

  /** After `n` lines the tables are the loop's; the call goes on as the loop does, or has failed as it has. */
  ghost predicate Follows(r: (OS.Db, OS.Outcome), s: State, o: Id, user: Id, lines: seq<Line>, n: nat) {
    && Tables(s) == r.0 && o in s.creates
    && (r.1 != OS.Ok ==> s.creates[o].step == Failed)
    && (r.1 == OS.Ok ==> o in s.orders && GoesOn(s.creates[o], s.orders[o], user, lines, n))
  }

  lemma FollowsNext(r: (OS.Db, OS.Outcome), s: State, o: Id, user: Id, lines: seq<Line>, n: nat)
    requires n < |lines| && Follows(r, s, o, user, lines, n)
    ensures Ready(s, o) && Follows(OneLine(r, o, user, lines[n]), NextLine(s, o), o, user, lines, n + 1)
  {
    if r.1 == OS.Ok { LineTables(s, o); }
  }

  lemma {:induction false} LinesFollow(db: OS.Db, s: State, o: Id, user: Id, lines: seq<Line>, n: nat)
    requires n <= |lines| && Follows((db, OS.Ok), s, o, user, lines, 0)
    ensures Follows(OS.AddItems(db, o, user, lines[..n]), AfterLines(s, o, n), o, user, lines, n)
  {
    if n > 0 {
      LinesFollow(db, s, o, user, lines, n - 1);
      FollowsNext(OS.AddItems(db, o, user, lines[..n - 1]), AfterLines(s, o, n - 1), o, user, lines, n - 1);
      AddItemsSnoc(db, o, user, lines, n - 1);
    }
  }

  lemma LinesReady(db: OS.Db, s: State, o: Id, user: Id, lines: seq<Line>)
    requires Follows((db, OS.Ok), s, o, user, lines, 0)
    ensures forall i: nat :: i < |lines| ==> Ready(AfterLines(s, o, i), o)
  {
    forall i: nat | i < |lines| ensures Ready(AfterLines(s, o, i), o) {
      LinesFollow(db, s, o, user, lines, i);
      FollowsNext(OS.AddItems(db, o, user, lines[..i]), AfterLines(s, o, i), o, user, lines, i);
    }
  }

  /** The last operation publishes the order of a call that got through, and leaves a failed one alone. */
  lemma LastOperation(f: State -> State, s: State, o: Id)
    requires IsTurn(f, o) && o in s.creates && (s.creates[o].step == Failed || (o in s.orders && s.creates[o].step == Publish))
    ensures var end := Iterate(f, s, 1);
            && Tables(end) == (if s.creates[o].step == Failed then Tables(s) else Tables(s).(published := s.published + {o}))
            && o in end.creates && (end.creates[o].step == Done <==> s.creates[o].step == Publish)
  {
    if s.creates[o].step == Failed {
      SettledCreate(f, s, o, 1);
    } else {
      var end := Apply(s, StepCreate(o));
      assert Iterate(f, s, 1) == end by { assert Iterate(f, end, 0) == end; }
      assert s.orders[o := s.orders[o]] == s.orders;
    }
  }

  /** A create call alone is the controller's `create` as a whole: same tables, and done exactly when it succeeds. */
  lemma CreateAloneIsCreate(s: State, o: Id, user: Id, lines: seq<Line>)
    requires o !in s.orders
    ensures var end := CreateAlone(s, o, user, lines); var r := OS.CreateOrder(Tables(s), o, user, lines);
            && Tables(end) == r.0
            && (lines != [] ==> o in end.creates && (end.creates[o].step == Done <==> r.1 == OS.Ok))
  {
    var f := Turn(o);
    assert IsTurn(f, o);
    if lines == [] {
      SettledCreate(f, s, o, 1);
    } else {
      var s1 := Begin(s, o, user, lines);
      LinesFollow(Tables(s1), s1, o, user, lines, |lines|);
      assert lines[..|lines|] == lines;
      LinesReady(Tables(s1), s1, o, user, lines);
      LinesAlone(f, s1, o, |lines|, 1);
      LastOperation(f, AfterLines(s1, o, |lines|), o);
    }
  }
}
