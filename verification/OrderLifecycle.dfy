/**
 What the order protocol achieves: an order whose lines are available is published, a delivered message makes it
 payable, its owner's payment takes exactly what was ordered, a completion completes it; and nobody else can act on it.
 */
module OrderLifecycle {
  import opened Wrappers
  import opened Text
  import opened OrderModel
  import opened OrderProtocol
  import OS = OrderService
  import Alone = RequestsAlone

  // ----- ordered products stay -----

  ghost predicate ItemsHaveProducts(s: State) {
    forall o, i :: o in s.orders && 0 <= i < |s.orders[o].items| ==> s.orders[o].items[i].productId in s.products
  }

  lemma RowKeepsProducts(c: Create, order: Order, products: map<Id, Product>)
    requires Mid(c) && forall i :: 0 <= i < |order.items| ==> order.items[i].productId in products
    ensures var items := StepRow(c, order, products).1.items;
            forall i :: 0 <= i < |items| ==> items[i].productId in products
  {}

  lemma AdvanceKeepsProducts(s: State, o: Id)
    requires ItemsHaveProducts(s) && CanAdvance(s, o)
    ensures ItemsHaveProducts(Advance(s, o))
  {
    RowKeepsProducts(s.creates[o], s.orders[o], s.products);
  }

  lemma PaymentKeepsProducts(s: State, pay: Id)
    requires ItemsHaveProducts(s)
    ensures ItemsHaveProducts(AdvancePayment(s, pay))
  {
    var s' := AdvancePayment(s, pay);
    assert s'.products.Keys == s.products.Keys && s'.orders.Keys == s.orders.Keys;
    assert forall o :: o in s.orders ==> s'.orders[o].items == s.orders[o].items;
  }

  lemma RemoveKeepsProducts(s: State, p: Id)
    requires ItemsHaveProducts(s)
    ensures ItemsHaveProducts(Remove(s, p))
  {
    if Remove(s, p) != s {
      forall o, i | o in s.orders && 0 <= i < |s.orders[o].items| ensures s.orders[o].items[i].productId != p {
        assert !HasProduct(s.orders[o].items, p);
      }
    }
  }

  lemma StepKeepsProducts(s: State, e: Event)
    requires ItemsHaveProducts(s)
    ensures ItemsHaveProducts(Apply(s, e))
  {
    match e
    case StepCreate(o) => if CanAdvance(s, o) { AdvanceKeepsProducts(s, o); }
    case StepPayment(pay) => PaymentKeepsProducts(s, pay);
    case RemoveProduct(p) => RemoveKeepsProducts(s, p);
    case _ =>
  }

  /** In every run, the product of every ordered item exists: it cannot be removed while an order holds it. */
  lemma {:induction false} OrderedProductsExist(events: seq<Event>)
    ensures ItemsHaveProducts(Run(events))
  {
    if events != [] {
      OrderedProductsExist(events[..|events| - 1]);
      StepKeepsProducts(Run(events[..|events| - 1]), events[|events| - 1]);
    }
  }

  // ----- runs that go on -----

  function Repeat(e: Event, k: nat): seq<Event> {
    if k == 0 then [] else [e] + Repeat(e, k - 1)
  }

  lemma RunNext(events: seq<Event>, e: Event)
    ensures Run(events + [e]) == Apply(Run(events), e)
  {
    RunLast(events + [e], events, e);
  }

  lemma PayNext(events: seq<Event>, pay: Id)
    ensures Run(events + [StepPayment(pay)]) == AdvancePayment(Run(events), pay)
  {
    var e := StepPayment(pay);
    RunNext(events, e);
    ApplyPayment(Run(events), pay);
  }

  lemma ApplyPayment(s: State, pay: Id)
    ensures Apply(s, StepPayment(pay)) == AdvancePayment(s, pay)
  {}

  lemma PayStepsNext(s: State, pay: Id, k: nat)
    requires k > 0
    ensures Alone.PaySteps(s, pay, k) == Alone.PaySteps(AdvancePayment(s, pay), pay, k - 1)
  {}

  lemma RepeatNext(events: seq<Event>, e: Event, k: nat)
    requires k > 0
    ensures events + Repeat(e, k) == (events + [e]) + Repeat(e, k - 1)
  {}

  lemma {:induction false} RunPaySteps(events: seq<Event>, pay: Id, k: nat)
    ensures Run(events + Repeat(StepPayment(pay), k)) == Alone.PaySteps(Run(events), pay, k)
    decreases k
  {
    if k == 0 {
      assert events + [] == events;
    } else {
      RepeatNext(events, StepPayment(pay), k);
      PayNext(events, pay);
      PayStepsNext(Run(events), pay, k);
      RunPaySteps(events + [StepPayment(pay)], pay, k - 1);
    }
  }

  lemma {:induction false} RunCreateSteps(events: seq<Event>, o: Id, k: nat)
    ensures Run(events + Repeat(StepCreate(o), k)) == Alone.Iterate(Alone.Turn(o), Run(events), k)
    decreases k
  {
    if k == 0 {
      assert events + [] == events;
    } else {
      RepeatNext(events, StepCreate(o), k);
      RunNext(events, StepCreate(o));
      RunCreateSteps(events + [StepCreate(o)], o, k - 1);
    }
  }

  // ----- creating -----

  /** Every line's product is there with at least the quantity asked for. */
  predicate AllAvailable(products: map<Id, Product>, lines: seq<Line>) {
    forall i :: 0 <= i < |lines| ==> IsAvailable(products, lines[i])
  }

  /** The call's own pending order is there. */
  ghost predicate OwnPending(db: OS.Db, o: Id, user: Id) {
    o in db.orders && db.orders[o].userId == user && db.orders[o].status == Pending
  }

  predicate IsAvailable(products: map<Id, Product>, line: Line) {
    line.productId in products && products[line.productId].stock >= line.quantity
  }

  lemma LinePassesExactly(db: OS.Db, o: Id, user: Id, line: Line)
    requires OwnPending(db, o, user)
    ensures var db' := OS.AddItem(db, o, user, line);
            && db' == db.(orders := db'.orders) && OwnPending(db', o, user)
            && (OS.AddCheck(db, o, user, line) == OS.Ok <==> IsAvailable(db.products, line))
  {}

  /** Only orders changed, the own one is still pending, and nothing was refused exactly if `passed`. */
  ghost predicate Passing(db: OS.Db, r: (OS.Db, OS.Outcome), o: Id, user: Id, passed: bool) {
    && r.0 == db.(orders := r.0.orders) && OwnPending(r.0, o, user)
    && (r.1 == OS.Ok <==> passed)
  }

  lemma PassingNext(db: OS.Db, r: (OS.Db, OS.Outcome), o: Id, user: Id, passed: bool, line: Line)
    requires Passing(db, r, o, user, passed)
    ensures Passing(db, Alone.OneLine(r, o, user, line), o, user, passed && IsAvailable(db.products, line))
  {
    if r.1 == OS.Ok { LinePassesExactly(r.0, o, user, line); }
  }

  lemma AvailableCons(products: map<Id, Product>, lines: seq<Line>)
    requires lines != []
    ensures AllAvailable(products, lines) <==> IsAvailable(products, lines[0]) && AllAvailable(products, lines[1..])
  {
    assert forall i :: 1 <= i < |lines| ==> lines[1..][i - 1] == lines[i];
    assert forall i :: 0 <= i < |lines| - 1 ==> lines[1..][i] == lines[i + 1];
  }

  /** The loop of `create`, from an outcome that stands for the lines before. */
  function AddLines(r: (OS.Db, OS.Outcome), o: Id, user: Id, lines: seq<Line>): (OS.Db, OS.Outcome)
    decreases |lines|
  {
    if lines == [] then r else AddLines(Alone.OneLine(r, o, user, lines[0]), o, user, lines[1..])
  }

  lemma {:induction false} AddLinesSnoc(r: (OS.Db, OS.Outcome), o: Id, user: Id, lines: seq<Line>, line: Line)
    ensures AddLines(r, o, user, lines + [line]) == Alone.OneLine(AddLines(r, o, user, lines), o, user, line)
    decreases |lines|
  {
    if lines == [] {
      assert (lines + [line])[1..] == [];
    } else {
      assert (lines + [line])[1..] == lines[1..] + [line];
      AddLinesSnoc(Alone.OneLine(r, o, user, lines[0]), o, user, lines[1..], line);
    }
  }

  lemma {:induction false} AddLinesIsAddItems(db: OS.Db, o: Id, user: Id, lines: seq<Line>, n: nat)
    requires n <= |lines|
    ensures OS.AddItems(db, o, user, lines[..n]) == AddLines((db, OS.Ok), o, user, lines[..n])
  {
    if n > 0 {
      AddLinesIsAddItems(db, o, user, lines, n - 1);
      Alone.AddItemsSnoc(db, o, user, lines, n - 1);
      AddLinesSnoc((db, OS.Ok), o, user, lines[..n - 1], lines[n - 1]);
      assert lines[..n] == lines[..n - 1] + [lines[n - 1]];
    }
  }

  lemma {:induction false} LinesPassExactly(db: OS.Db, r: (OS.Db, OS.Outcome), o: Id, user: Id, passed: bool, lines: seq<Line>)
    requires Passing(db, r, o, user, passed)
    ensures Passing(db, AddLines(r, o, user, lines), o, user, passed && AllAvailable(db.products, lines))
    decreases |lines|
  {
    if lines != [] {
      PassingNext(db, r, o, user, passed, lines[0]);
      var ok := passed && IsAvailable(db.products, lines[0]);
      LinesPassExactly(db, Alone.OneLine(r, o, user, lines[0]), o, user, ok, lines[1..]);
      AvailableCons(db.products, lines);
    }
  }

  /** `create` succeeds if and only if there is a line and every line's product has enough stock. */
  lemma CreateSucceedsExactly(db: OS.Db, o: Id, user: Id, lines: seq<Line>)
    ensures var (db', r) := OS.CreateOrder(db, o, user, lines);
            && (r == OS.Ok <==> lines != [] && AllAvailable(db.products, lines))
            && db'.products == db.products && db'.completions == db.completions
            && db'.published == (if r == OS.Ok then db.published + {o} else db.published)
  {
    if lines != [] {
      var started := db.(orders := db.orders[o := Order(user, Pending, 0, [], None, None)]);
      LinesPassExactly(started, (started, OS.Ok), o, user, true, lines);
      AddLinesIsAddItems(started, o, user, lines, |lines|);
      assert lines[..|lines|] == lines;
    }
  }

  /** All the operations of a create call, one after the other. */
  function Creating(o: Id, user: Id, lines: seq<Line>): seq<Event> {
    [BeginCreate(o, user, lines)] + Repeat(StepCreate(o), 6 * |lines| + 1)
  }

  /** In every run, a create call that is not interrupted publishes its order exactly when it has lines and all are available. */
  lemma CreatePublishesExactly(events: seq<Event>, o: Id, user: Id, lines: seq<Line>)
    requires o !in Run(events).orders
    ensures var s, s' := Run(events), Run(events + Creating(o, user, lines));
            && (o in s'.published <==> lines != [] && AllAvailable(s.products, lines))
            && s'.products == s.products && s'.completions == s.completions
            && (o in s'.published ==> BegunBy(s', o, user, lines))
  {
    var s := Run(events);
    RunsKeep(events);
    CreatingIsAlone(events, o, user, lines);
    Alone.CreateAloneIsCreate(s, o, user, lines);
    CreateSucceedsExactly(Alone.Tables(s), o, user, lines);
    if o in Run(events + Creating(o, user, lines)).published {
      CreatorIsOwner(events, o, user, lines);
    }
  }

  lemma CreatingIsAlone(events: seq<Event>, o: Id, user: Id, lines: seq<Line>)
    ensures Run(events + Creating(o, user, lines)) == Alone.CreateAlone(Run(events), o, user, lines)
  {
    var begin, k := BeginCreate(o, user, lines), 6 * |lines| + 1;
    assert events + Creating(o, user, lines) == (events + [begin]) + Repeat(StepCreate(o), k);
    RunNext(events, begin);
    RunCreateSteps(events + [begin], o, k);
  }

  /** Whose order it is, and what it is for, is fixed when the call begins. */
  ghost predicate BegunBy(s: State, o: Id, user: Id, lines: seq<Line>) {
    o in s.creates && o in s.orders && s.creates[o].lines == lines && s.orders[o].userId == user
  }

  lemma AdvanceKeepsBegun(s: State, o: Id, user: Id, lines: seq<Line>)
    requires BegunBy(s, o, user, lines)
    ensures BegunBy(Apply(s, StepCreate(o)), o, user, lines)
  {}

  lemma {:induction false} StepsKeepBegun(f: State -> State, s: State, o: Id, user: Id, lines: seq<Line>, k: nat)
    requires Alone.IsTurn(f, o) && BegunBy(s, o, user, lines)
    ensures BegunBy(Alone.Iterate(f, s, k), o, user, lines)
    decreases k
  {
    if k > 0 {
      AdvanceKeepsBegun(s, o, user, lines);
      StepsKeepBegun(f, Apply(s, StepCreate(o)), o, user, lines, k - 1);
    }
  }

  lemma CreatorIsOwner(events: seq<Event>, o: Id, user: Id, lines: seq<Line>)
    requires o !in Run(events).orders && lines != []
    ensures BegunBy(Run(events + Creating(o, user, lines)), o, user, lines)
  {
    CreatingIsAlone(events, o, user, lines);
    StepsKeepBegun(Alone.Turn(o), Begin(Run(events), o, user, lines), o, user, lines, 6 * |lines| + 1);
  }

  // ----- processing -----

  ghost predicate MadePayable(s: State, s': State, o: Id, id: Id) {
    && o in s.orders && o in s'.orders && SameContents(s.orders[o], s'.orders[o])
    && s'.orders[o].status == WaitingForPayment && s'.orders[o].paymentId == Some(id)
    && s'.products == s.products && s'.payments == s.payments
  }

  /** In every run, a delivered processing message makes its order payable, under the payment id drawn, and changes no more of it. */
  lemma DeliveryMakesPayable(events: seq<Event>, o: Id, id: Id)
    requires o in Run(events).published
    ensures MadePayable(Run(events), Run(events + [DeliverProcessing(o, id)]), o, id)
  {
    RunsKeep(events);
    RunNext(events, DeliverProcessing(o, id));
  }

  // ----- paying -----

  /** All the operations of a payment, one after the other. */
  function PayingEvents(pay: Id, o: Id, user: Id, items: nat): seq<Event> {
    [BeginPayment(pay, o, user)] + Repeat(StepPayment(pay), items + 1)
  }

  /** A payment starts if and only if its order waits for payment and the caller owns it; otherwise nothing changes. */
  lemma PaymentStartsExactly(s: State, pay: Id, o: Id, user: Id)
    requires pay !in s.payments
    ensures var s' := Apply(s, BeginPayment(pay, o, user));
            && (pay in s'.payments <==> o in s.orders && s.orders[o].userId == user && s.orders[o].status == WaitingForPayment)
            && (pay !in s'.payments ==> s' == s)
            && (pay in s'.payments ==> s'.payments[pay].state == Running && s'.payments[pay].items == s.orders[o].items)
  {}

  /** The order is paid, and every product lost what the order holds of it. */
  ghost predicate PaidFor(s: State, s': State, o: Id) {
    && o in s.orders && o in s'.orders && s'.orders[o] == s.orders[o].(status := Paid)
    && s'.completions == s.completions && Lost(s, s', s.orders[o].items)
  }

  ghost predicate Lost(s: State, s': State, items: seq<Item>) {
    forall p :: p in s.products ==>
      p in s'.products && s'.products[p].stock == s.products[p].stock - QuantityOf(items, p)
  }

  /** In every run, a payment of a payable order by its owner, not interrupted, ends PAID and takes exactly the order's items. */
  lemma PaymentEndsPaid(events: seq<Event>, pay: Id, o: Id)
    requires var s := Run(events); pay !in s.payments && o in s.orders && s.orders[o].status == WaitingForPayment
    ensures var s := Run(events);
            PaidFor(s, Run(events + PayingEvents(pay, o, s.orders[o].userId, |s.orders[o].items|)), o)
  {
    var s := Run(events);
    var user, items := s.orders[o].userId, s.orders[o].items;
    var begin := BeginPayment(pay, o, user);
    assert events + PayingEvents(pay, o, user, |items|) == (events + [begin]) + Repeat(StepPayment(pay), |items| + 1);
    RunNext(events, begin);
    RunPaySteps(events + [begin], pay, |items| + 1);
    OrderedProductsExist(events);
    var s1 := Run(events + [begin]);
    assert Alone.AllThere(s1.products, items, |items|);
    Alone.RunsToTheEnd(s1, pay, o, items);
    assert items[..|items|] == items;
  }

  // ----- completing -----

  /** A completion request is accepted if and only if its transaction id is not blank and the caller owns the order. */
  lemma CompletionRequestedExactly(s: State, o: Id, user: Id, tx: string)
    ensures var s' := Apply(s, RequestCompletion(o, user, tx));
            && s' == s.(completions := s'.completions)
            && s'.completions == s.completions +
                 (if !Blank(tx) && o in s.orders && s.orders[o].userId == user then {(o, tx)} else {})
  {
    BlankTrims(tx);
    if Apply(s, RequestCompletion(o, user, tx)) == s { assert s.completions + {} == s.completions; }
  }

  ghost predicate CompletedAs(s: State, s': State, o: Id, tx: string) {
    && o in s.orders && o in s'.orders && s'.orders[o].status == Complete && s'.orders[o].transactionId == Some(tx)
    && SameContents(s.orders[o], s'.orders[o]) && s'.orders[o].paymentId == s.orders[o].paymentId
    && s'.products == s.products
  }

  /** In every run, a delivered completion completes its order under its transaction id, and changes no more of it. */
  lemma DeliveryCompletes(events: seq<Event>, o: Id, tx: string)
    requires (o, tx) in Run(events).completions && o in Run(events).orders
    ensures CompletedAs(Run(events), Run(events + [DeliverCompletion(o, tx)]), o, tx)
  {
    RunNext(events, DeliverCompletion(o, tx));
  }

  // ----- the whole life of an order -----

  /** From the delivery of the processing message to the delivery of the completion. */
  function Fulfilling(o: Id, user: Id, items: nat, id: Id, pay: Id, tx: string): seq<Event> {
    [DeliverProcessing(o, id)] + PayingEvents(pay, o, user, items) + [RequestCompletion(o, user, tx)] + [DeliverCompletion(o, tx)]
  }

  /** Complete, under this payment and transaction id, and with what it holds taken from stock. */
  ghost predicate Fulfilled(s: State, s': State, o: Id, id: Id, tx: string) {
    && o in s.orders && o in s'.orders && SameContents(s.orders[o], s'.orders[o]) && s'.orders[o].status == Complete
    && s'.orders[o].paymentId == Some(id) && s'.orders[o].transactionId == Some(tx)
    && Lost(s, s', s.orders[o].items)
  }

  lemma RequestAndComplete(events: seq<Event>, o: Id, user: Id, tx: string)
    requires o in Run(events).orders && Run(events).orders[o].userId == user && !Blank(tx)
    ensures CompletedAs(Run(events), Run(events + [RequestCompletion(o, user, tx)] + [DeliverCompletion(o, tx)]), o, tx)
  {
    RunNext(events, RequestCompletion(o, user, tx));
    CompletionRequestedExactly(Run(events), o, user, tx);
    DeliveryCompletes(events + [RequestCompletion(o, user, tx)], o, tx);
  }

  /** Paid and completed, from a state in which the order waits for payment. */
  ghost predicate PaidAndCompleted(s: State, s': State, o: Id, tx: string) {
    && o in s.orders && o in s'.orders && SameContents(s.orders[o], s'.orders[o]) && s'.orders[o].status == Complete
    && s'.orders[o].paymentId == s.orders[o].paymentId && s'.orders[o].transactionId == Some(tx)
    && Lost(s, s', s.orders[o].items)
  }

  lemma PayThenComplete(s: State, s1: State, s2: State, o: Id, tx: string)
    requires PaidFor(s, s1, o) && CompletedAs(s1, s2, o, tx)
    ensures PaidAndCompleted(s, s2, o, tx)
  {}

  lemma PayAndComplete(events: seq<Event>, pay: Id, o: Id, user: Id, items: nat, tx: string)
    requires var s := Run(events); pay !in s.payments && o in s.orders && s.orders[o].status == WaitingForPayment
    requires Run(events).orders[o].userId == user && |Run(events).orders[o].items| == items && !Blank(tx)
    ensures PaidAndCompleted(Run(events),
              Run(events + PayingEvents(pay, o, user, items) + [RequestCompletion(o, user, tx)] + [DeliverCompletion(o, tx)]), o, tx)
  {
    var paid := events + PayingEvents(pay, o, user, items);
    PaymentEndsPaid(events, pay, o);
    RequestAndComplete(paid, o, user, tx);
    PayThenComplete(Run(events), Run(paid), Run(paid + [RequestCompletion(o, user, tx)] + [DeliverCompletion(o, tx)]), o, tx);
  }

  lemma ProcessThenFulfil(s: State, s1: State, s2: State, o: Id, id: Id, tx: string)
    requires MadePayable(s, s1, o, id) && PaidAndCompleted(s1, s2, o, tx)
    ensures Fulfilled(s, s2, o, id, tx)
  {}

  lemma DeliverPayComplete(events: seq<Event>, delivered: seq<Event>, o: Id, user: Id, items: nat, id: Id, pay: Id, tx: string)
    requires delivered == events + [DeliverProcessing(o, id)]
    requires o in Run(events).published && pay !in Run(events).payments && !Blank(tx) && o in Run(events).orders
    requires Run(events).orders[o].userId == user && |Run(events).orders[o].items| == items
    ensures Fulfilled(Run(events),
              Run(delivered + PayingEvents(pay, o, user, items) + [RequestCompletion(o, user, tx)] + [DeliverCompletion(o, tx)]),
              o, id, tx)
  {
    assert MadePayable(Run(events), Run(delivered), o, id) by { DeliveryMakesPayable(events, o, id); }
    var all := delivered + PayingEvents(pay, o, user, items) + [RequestCompletion(o, user, tx)] + [DeliverCompletion(o, tx)];
    assert PaidAndCompleted(Run(delivered), Run(all), o, tx) by { PayAndComplete(delivered, pay, o, user, items, tx); }
    ProcessThenFulfil(Run(events), Run(delivered), Run(all), o, id, tx);
  }

  /** In every run, a published order can be fulfilled: paid for what it holds and completed. */
  lemma PublishedOrdersAreFulfilled(events: seq<Event>, o: Id, id: Id, pay: Id, tx: string)
    requires o in Run(events).published && pay !in Run(events).payments && !Blank(tx)
    requires o in Run(events).orders
    ensures var s := Run(events); var order := s.orders[o];
            Fulfilled(s, Run(events + Fulfilling(o, order.userId, |order.items|, id, pay, tx)), o, id, tx)
  {
    var order := Run(events).orders[o];
    var user, n := order.userId, |order.items|;
    var delivered := events + [DeliverProcessing(o, id)];
    DeliverPayComplete(events, delivered, o, user, n, id, pay, tx);
    SameEvents(events, delivered, PayingEvents(pay, o, user, n), DeliverProcessing(o, id),
               RequestCompletion(o, user, tx), DeliverCompletion(o, tx));
  }

  lemma SameEvents(events: seq<Event>, delivered: seq<Event>, paying: seq<Event>, d: Event, r: Event, c: Event)
    requires delivered == events + [d]
    ensures events + ([d] + paying + [r] + [c]) == delivered + paying + [r] + [c]
  {}

  /**
   From any moment of any run: a new order whose lines are available goes through creation, processing, payment and
   completion, ends COMPLETE with its items grouped and its total right, and takes from every product exactly what its
   lines asked for.
   */
  lemma OrdersLive(events: seq<Event>, o: Id, user: Id, lines: seq<Line>, id: Id, pay: Id, tx: string) returns (life: seq<Event>)
    requires var s := Run(events);
             o !in s.orders && pay !in s.payments && lines != [] && AllAvailable(s.products, lines) && !Blank(tx)
    ensures var s, s' := Run(events), Run(events + life);
            && o in s'.orders && s'.orders[o].userId == user && s'.orders[o].status == Complete
            && s'.orders[o].paymentId == Some(id) && s'.orders[o].transactionId == Some(tx)
            && (exists prices :: Grouped(s'.orders[o].items, lines, prices))
            && s'.orders[o].total == Total(s'.orders[o].items)
            && forall p :: p in s.products ==>
                 p in s'.products && s'.products[p].stock == s.products[p].stock - QuantityIn(lines, p)
  {
    var created := events + Creating(o, user, lines);
    CreatePublishesExactly(events, o, user, lines);
    PublishedOrdersAreBuilt(created, o);
    CreatingStartsNoPayment(events, o, user, lines);
    var order, c := Run(created).orders[o], Run(created).creates[o];
    PublishedOrdersAreFulfilled(created, o, id, pay, tx);
    forall p ensures QuantityOf(order.items, p) == QuantityIn(lines, p) {
      GroupedQuantities(order.items, c.lines, c.prices, p);
    }
    life := Creating(o, user, lines) + Fulfilling(o, user, |order.items|, id, pay, tx);
    assert events + life == created + Fulfilling(o, user, |order.items|, id, pay, tx);
  }

  lemma {:induction false} StepsStartNoPayment(f: State -> State, s: State, o: Id, k: nat)
    requires Alone.IsTurn(f, o)
    ensures Alone.Iterate(f, s, k).payments == s.payments
    decreases k
  {
    if k > 0 {
      assert f(s) == Apply(s, StepCreate(o));
      StepsStartNoPayment(f, f(s), o, k - 1);
    }
  }

  lemma CreatingStartsNoPayment(events: seq<Event>, o: Id, user: Id, lines: seq<Line>)
    ensures Run(events + Creating(o, user, lines)).payments == Run(events).payments
  {
    CreatingIsAlone(events, o, user, lines);
    StepsStartNoPayment(Alone.Turn(o), Begin(Run(events), o, user, lines), o, 6 * |lines| + 1);
  }

  // ----- admin writes -----

  /** What an admin writes is what the product shows, field by field; what is not given stays. */
  lemma AdminWritesShow(s: State, p: Id, price: Option<int>, stock: Option<int>)
    requires p in s.products
    ensures var s' := Apply(s, UpdateProduct(p, price, stock));
            && p in s'.products
            && s'.products[p].price == (if price.Some? then price.value else s.products[p].price)
            && s'.products[p].stock == (if stock.Some? then stock.value else s.products[p].stock)
            && (forall q :: q in s.products && q != p ==> q in s'.products && s'.products[q] == s.products[q])
            && s'.orders == s.orders
  {}
}
