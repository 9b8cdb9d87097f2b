/** Serialised requests with arbitrary redelivery: how often an order can be paid, and what that takes from stock. */
module SerialisedRuns {
  import opened Wrappers
  import opened OrderModel
  import OS = OrderService

  datatype Request =
    | Create(o: Id, user: Id, lines: seq<Line>)
    | Checkout(o: Id, user: Id)
    | Pay(o: Id, user: Id, fault: nat)
    | Process(o: Id, paymentId: Id)
    | Enqueue(o: Id, user: Id, tx: string)
    | Finish(o: Id, tx: string)
    | WriteProduct(p: Id, product: Option<Product>)

  /** One whole request or delivery. New identifiers are fresh; only published messages are delivered. */
  function Serve(db: OS.Db, r: Request): OS.Db {
    match r
    case Create(o, user, lines) => if o in db.orders then db else OS.CreateOrder(db, o, user, lines).0
    case Checkout(o, user) => OS.Checkout(db, o, user)
    case Pay(o, user, fault) => OS.Pay(db, o, user, fault).0
    case Process(o, paymentId) => if o in db.published then OS.Process(db, o, paymentId) else db
    case Enqueue(o, user, tx) => OS.Enqueue(db, o, user, tx)
    case Finish(o, tx) => if (o, tx) in db.completions then OS.Finish(db, o, tx) else db
    case WriteProduct(p, product) =>
      db.(products := if product.Some? then db.products[p := product.value] else db.products - {p})
  }

  function Run(rs: seq<Request>): OS.Db {
    if rs == [] then OS.EMPTY else Serve(Run(rs[..|rs| - 1]), rs[|rs| - 1])
  }

  /** The backend's methods under a request. */
  method ServeRequest(backend: OS.Backend, r: Request)
    modifies backend
    ensures backend.Tables() == Serve(old(backend.Tables()), r)
  {
    match r {
      case Create(o, user, lines) => if o !in backend.orders { var _ := backend.Create(o, user, lines); }
      case Checkout(o, user) => var _ := backend.CheckoutOrder(o, user);
      case Pay(o, user, fault) => var _ := backend.PaymentReceived(o, user, fault);
      case Process(o, paymentId) => if o in backend.published { backend.HandleOrderProcessing(o, paymentId); }
      case Enqueue(o, user, tx) => var _ := backend.CompleteOrder(o, user, tx);
      case Finish(o, tx) => if (o, tx) in backend.completions { backend.HandleOrderCompleted(o, tx); }
      case WriteProduct(p, product) =>
        backend.products := if product.Some? then backend.products[p := product.value] else backend.products - {p};
    }
  }

  /** A new backend that serves these requests one after the other has the tables all results below speak of. */
  method ServeAll(rs: seq<Request>) returns (backend: OS.Backend)
    ensures fresh(backend) && backend.Tables() == Run(rs)
  {
    backend := new OS.Backend();
    var i := 0;
    while i < |rs|
      invariant 0 <= i <= |rs|
      invariant fresh(backend) && backend.Tables() == Run(rs[..i])
    {
      assert rs[..i + 1][..i] == rs[..i];
      ServeRequest(backend, rs[i]);
      i := i + 1;
    }
    assert rs[..i] == rs;
  }

  // ----- counting what one request does for order `o` -----

  /** A payment that was accepted: the order became PAID. */
  predicate Accepts(db: OS.Db, r: Request, o: Id) {
    r.Pay? && r.o == o && OS.Pay(db, o, r.user, r.fault).1 == OS.Ok
  }

  /** A payment that passed its checks and then stopped on a store error. */
  predicate Stops(db: OS.Db, r: Request, o: Id) {
    r.Pay? && r.o == o && OS.PayCheck(db, o, r.user) == OS.Ok && OS.Pay(db, o, r.user, r.fault).1 != OS.Ok
  }

  /** A processing delivery that was handled. */
  predicate Handles(db: OS.Db, r: Request, o: Id) {
    r.Process? && r.o == o && o in db.published && o in db.orders
  }

  predicate ChecksOut(db: OS.Db, r: Request, o: Id) {
    r.Checkout? && r.o == o && OS.CheckoutCheck(db, o, r.user) == OS.Ok
  }

  /** What the request takes from product `p` for the order. */
  function Takes(db: OS.Db, r: Request, o: Id, p: Id): int {
    if r.Pay? && r.o == o && OS.PayCheck(db, o, r.user) == OS.Ok then
      var items := db.orders[o].items;
      QuantityOf(items[..OS.Reached(db.products, items, r.fault)], p)
    else 0
  }

  datatype Tally = Tally(accepted: nat, stopped: nat, handled: nat, checkouts: nat)

  function One(b: bool): nat {
    if b then 1 else 0
  }

  function Count(rs: seq<Request>, o: Id): Tally {
    if rs == [] then Tally(0, 0, 0, 0)
    else
      var n := |rs| - 1;
      var db, t := Run(rs[..n]), Count(rs[..n], o);
      Tally(t.accepted + One(Accepts(db, rs[n], o)), t.stopped + One(Stops(db, rs[n], o)),
            t.handled + One(Handles(db, rs[n], o)), t.checkouts + One(ChecksOut(db, rs[n], o)))
  }

  function Taken(rs: seq<Request>, o: Id, p: Id): int {
    if rs == [] then 0
    else
      var n := |rs| - 1;
      Taken(rs[..n], o, p) + Takes(Run(rs[..n]), rs[n], o, p)
  }

  function Waiting(db: OS.Db, o: Id): nat {
    One(o in db.orders && db.orders[o].status == WaitingForPayment)
  }

  // ----- a request touches one order -----

  lemma {:induction false} AddItemsTouchOne(db: OS.Db, o: Id, user: Id, lines: seq<Line>)
    requires o in db.orders
    ensures var db' := OS.AddItems(db, o, user, lines).0;
            && db' == db.(orders := db'.orders) && db'.orders.Keys == db.orders.Keys
            && db'.orders[o].status == db.orders[o].status
            && forall x :: x in db.orders && x != o ==> db'.orders[x] == db.orders[x]
  {
    if lines != [] {
      AddItemsTouchOne(db, o, user, lines[..|lines| - 1]);
    }
  }

  lemma CreateTouchesOne(db: OS.Db, o: Id, user: Id, lines: seq<Line>)
    requires o !in db.orders
    ensures var db' := OS.CreateOrder(db, o, user, lines).0;
            && db'.orders.Keys <= db.orders.Keys + {o}
            && (o in db'.orders ==> db'.orders[o].status == Pending)
            && forall x :: x in db.orders ==> x in db'.orders && db'.orders[x] == db.orders[x]
  {
    if lines != [] {
      AddItemsTouchOne(db.(orders := db.orders[o := Order(user, Pending, 0, [], None, None)]), o, user, lines);
    }
  }

  /** Once an order is there its items stay what they are. */
  lemma ItemsStay(db: OS.Db, r: Request, o: Id)
    requires o in db.orders
    ensures o in Serve(db, r).orders && Serve(db, r).orders[o].items == db.orders[o].items
  {
    if r.Create? && r.o !in db.orders { CreateTouchesOne(db, r.o, r.user, r.lines); }
  }

  lemma TallyStep(db: OS.Db, r: Request, o: Id)
    ensures One(Accepts(db, r, o)) + Waiting(Serve(db, r), o)
         <= Waiting(db, o) + One(Handles(db, r, o)) + One(ChecksOut(db, r, o))
  {
    if r.Create? && r.o !in db.orders { CreateTouchesOne(db, r.o, r.user, r.lines); }
  }

  /**
   In every serialised run, payments accepted for an order, plus one if it waits for payment now, never exceed the
   processing deliveries handled plus the checkouts.
   */
  lemma {:induction false} PaymentsAreBounded(rs: seq<Request>, o: Id)
    ensures var t := Count(rs, o);
            t.accepted + Waiting(Run(rs), o) <= t.handled + t.checkouts
  {
    if rs != [] {
      var n := |rs| - 1;
      PaymentsAreBounded(rs[..n], o);
      TallyStep(Run(rs[..n]), rs[n], o);
    }
  }

  /** What payments that stopped part-way took and never gave back. */
  function TakenByStopped(rs: seq<Request>, o: Id, p: Id): int {
    if rs == [] then 0
    else
      var n := |rs| - 1;
      var db := Run(rs[..n]);
      TakenByStopped(rs[..n], o, p) + if Stops(db, rs[n], o) then Takes(db, rs[n], o, p) else 0
  }

  /** `taken` is the order's quantity once per accepted payment, plus what stopped payments took. */
  predicate Accounts(db: OS.Db, o: Id, p: Id, accepted: nat, taken: int, stopped: int) {
    if o in db.orders then taken == accepted * QuantityOf(db.orders[o].items, p) + stopped
    else accepted == 0 && taken == 0 && stopped == 0
  }

  lemma AccountsStep(db: OS.Db, r: Request, o: Id, p: Id, accepted: nat, taken: int, stopped: int)
    requires Accounts(db, o, p, accepted, taken, stopped)
    ensures Accounts(Serve(db, r), o, p, accepted + One(Accepts(db, r, o)), taken + Takes(db, r, o, p),
                     stopped + if Stops(db, r, o) then Takes(db, r, o, p) else 0)
  {
    TakesStep(db, r, o, p);
    if o in db.orders {
      ItemsStay(db, r, o);
      var q := QuantityOf(db.orders[o].items, p);
      assert (accepted + 1) * q == accepted * q + q;
    } else {
      assert !Accepts(db, r, o);
    }
  }

  /** An order has taken its quantities once per accepted payment, and besides only what stopped payments took. */
  lemma {:induction false} TakenPerPayment(rs: seq<Request>, o: Id, p: Id)
    ensures Accounts(Run(rs), o, p, Count(rs, o).accepted, Taken(rs, o, p), TakenByStopped(rs, o, p))
  {
    if rs != [] {
      var n := |rs| - 1;
      TakenPerPayment(rs[..n], o, p);
      AccountsStep(Run(rs[..n]), rs[n], o, p, Count(rs[..n], o).accepted, Taken(rs[..n], o, p), TakenByStopped(rs[..n], o, p));
    }
  }

  lemma TakesStep(db: OS.Db, r: Request, o: Id, p: Id)
    ensures Accepts(db, r, o) ==> o in db.orders && !Stops(db, r, o) && Takes(db, r, o, p) == QuantityOf(db.orders[o].items, p)
    ensures !Accepts(db, r, o) && !Stops(db, r, o) ==> Takes(db, r, o, p) == 0
    ensures o !in db.orders ==> Takes(db, r, o, p) == 0
  {
    if Accepts(db, r, o) {
      var items := db.orders[o].items;
      assert items[..|items|] == items;
    }
  }

  lemma {:induction false} NoneStoppedNothingTaken(rs: seq<Request>, o: Id, p: Id)
    requires Count(rs, o).stopped == 0
    ensures TakenByStopped(rs, o, p) == 0
  {
    if rs != [] { NoneStoppedNothingTaken(rs[..|rs| - 1], o, p); }
  }

  /**
   An order processed once and never checked out has its stock deducted at most once, over and above what payments
   that stopped part-way took; with none of those, at most once.
   */
  lemma StockDeductedAtMostOnce(rs: seq<Request>, o: Id, p: Id)
    requires Count(rs, o).handled <= 1 && Count(rs, o).checkouts == 0 && o in Run(rs).orders
    ensures var taken, stopped := Taken(rs, o, p), TakenByStopped(rs, o, p);
            && (taken == stopped || taken == stopped + QuantityOf(Run(rs).orders[o].items, p))
            && (Count(rs, o).stopped == 0 ==> stopped == 0)
  {
    PaymentsAreBounded(rs, o);
    TakenPerPayment(rs, o, p);
    if Count(rs, o).stopped == 0 { NoneStoppedNothingTaken(rs, o, p); }
    var a, q := Count(rs, o).accepted, QuantityOf(Run(rs).orders[o].items, p);
    assert a == 0 || a == 1;
    assert 0 * q == 0 && 1 * q == q;
  }

  // ----- exactly when stock is deducted at most once -----

  ghost predicate AllOneItemEach(db: OS.Db) {
    forall o :: o in db.orders ==> OneItemEach(db.orders[o].items)
  }

  lemma AddItemOneEach(db: OS.Db, o: Id, user: Id, line: Line)
    requires AllOneItemEach(db)
    ensures AllOneItemEach(OS.AddItem(db, o, user, line))
  {
    if OS.AddCheck(db, o, user, line) == OS.Ok {
      AddLineOneEach(db.orders[o].items, line, db.products[line.productId].price);
    }
  }

  lemma {:induction false} AddItemsOneEach(db: OS.Db, o: Id, user: Id, lines: seq<Line>)
    requires AllOneItemEach(db)
    ensures AllOneItemEach(OS.AddItems(db, o, user, lines).0)
  {
    if lines != [] {
      var n := |lines| - 1;
      AddItemsOneEach(db, o, user, lines[..n]);
      AddItemOneEach(OS.AddItems(db, o, user, lines[..n]).0, o, user, lines[n]);
    }
  }

  lemma ServeOneEach(db: OS.Db, r: Request)
    requires AllOneItemEach(db)
    ensures AllOneItemEach(Serve(db, r))
  {
    if r.Create? && r.o !in db.orders && r.lines != [] {
      var started := db.(orders := db.orders[r.o := Order(r.user, Pending, 0, [], None, None)]);
      AddItemsOneEach(started, r.o, r.user, r.lines);
    }
  }

  lemma {:induction false} OrdersHaveOneItemEach(rs: seq<Request>)
    ensures AllOneItemEach(Run(rs))
  {
    if rs != [] {
      OrdersHaveOneItemEach(rs[..|rs| - 1]);
      ServeOneEach(Run(rs[..|rs| - 1]), rs[|rs| - 1]);
    }
  }

  /** The payment passes its checks and the store does not fail before item `k` of the order is deducted. */
  predicate PassesItem(db: OS.Db, r: Request, o: Id, k: nat) {
    r.Pay? && r.o == o && OS.PayCheck(db, o, r.user) == OS.Ok && k < OS.Reached(db.products, db.orders[o].items, r.fault)
  }

  function Passes(rs: seq<Request>, o: Id, k: nat): nat {
    if rs == [] then 0
    else
      var n := |rs| - 1;
      Passes(rs[..n], o, k) + One(PassesItem(Run(rs[..n]), rs[n], o, k))
  }

  lemma PassTakesAll(db: OS.Db, r: Request, o: Id, k: nat)
    requires o in db.orders && OneItemEach(db.orders[o].items) && k < |db.orders[o].items|
    ensures var item := db.orders[o].items[k];
            Takes(db, r, o, item.productId) == if PassesItem(db, r, o, k) then item.quantity else 0
  {
    if r.Pay? && r.o == o && OS.PayCheck(db, o, r.user) == OS.Ok {
      var items := db.orders[o].items;
      AllOrNone(items, OS.Reached(db.products, items, r.fault), k);
    }
  }

  lemma {:induction false} NoOrderNoPasses(rs: seq<Request>, o: Id, k: nat)
    requires o !in Run(rs).orders
    ensures Passes(rs, o, k) == 0
  {
    if rs != [] {
      var n := |rs| - 1;
      if o in Run(rs[..n]).orders { ItemsStay(Run(rs[..n]), rs[n], o); }
      NoOrderNoPasses(rs[..n], o, k);
    }
  }

  lemma PassStep(db: OS.Db, r: Request, o: Id, k: nat, passes: nat, taken: int)
    requires o in db.orders && OneItemEach(db.orders[o].items) && k < |db.orders[o].items|
    requires taken == passes * db.orders[o].items[k].quantity
    ensures var item := db.orders[o].items[k];
            taken + Takes(db, r, o, item.productId) == (passes + One(PassesItem(db, r, o, k))) * item.quantity
  {
    PassTakesAll(db, r, o, k);
    Distributes(passes, One(PassesItem(db, r, o, k)), db.orders[o].items[k].quantity);
  }

  /** In every run, an order has taken an item's quantity once per payment that got past the item. */
  lemma {:induction false} TakenPerPass(rs: seq<Request>, o: Id, k: nat)
    requires o in Run(rs).orders && k < |Run(rs).orders[o].items|
    ensures var item := Run(rs).orders[o].items[k];
            Taken(rs, o, item.productId) == Passes(rs, o, k) * item.quantity
  {
    var n := |rs| - 1;
    var before, r := Run(rs[..n]), rs[n];
    var p := Run(rs).orders[o].items[k].productId;
    if o in before.orders {
      ItemsStay(before, r, o);
      TakenPerPass(rs[..n], o, k);
      assert OneItemEach(before.orders[o].items) by { OrdersHaveOneItemEach(rs[..n]); }
      PassStep(before, r, o, k, Passes(rs[..n], o, k), Taken(rs[..n], o, p));
    } else {
      NoOrderNoPasses(rs[..n], o, k);
      TakenPerPayment(rs[..n], o, p);
    }
  }

  lemma Distributes(a: int, b: int, q: int)
    ensures (a + b) * q == a * q + b * q
  {}

  /**
   In every serialised run, whatever was processed or checked out how often: an item's stock is deducted at most once if
   and only if at most one payment of the order passed its checks and got past the item before a store failure.
   */
  lemma AtMostOnceExactly(rs: seq<Request>, o: Id, k: nat)
    requires o in Run(rs).orders && k < |Run(rs).orders[o].items| && Run(rs).orders[o].items[k].quantity >= 1
    ensures var item := Run(rs).orders[o].items[k];
            Taken(rs, o, item.productId) <= item.quantity <==> Passes(rs, o, k) <= 1
  {
    TakenPerPass(rs, o, k);
    AtMostOne(Passes(rs, o, k), Run(rs).orders[o].items[k].quantity);
  }

  // ----- what is taken is what the stock column loses -----

  predicate WritesTo(r: Request, p: Id) {
    r.WriteProduct? && r.p == p
  }

  lemma ServeStock(db: OS.Db, r: Request, p: Id)
    requires p in db.products && !WritesTo(r, p)
    ensures var db' := Serve(db, r);
            p in db'.products && db'.products[p].stock == db.products[p].stock - if r.Pay? then Takes(db, r, r.o, p) else 0
  {
    match r
    case Create(o, user, lines) =>
      if o !in db.orders && lines != [] {
        AddItemsTouchOne(db.(orders := db.orders[o := Order(user, Pending, 0, [], None, None)]), o, user, lines);
      }
    case Pay(o, user, fault) => PayStock(db, o, user, fault, p);
    case _ =>
  }

  lemma PayStock(db: OS.Db, o: Id, user: Id, fault: nat, p: Id)
    requires p in db.products
    ensures var db' := OS.Pay(db, o, user, fault).0;
            p in db'.products && db'.products[p].stock == db.products[p].stock - Takes(db, Pay(o, user, fault), o, p)
  {}

  predicate Distinct(os: seq<Id>) {
    forall i, j :: 0 <= i < j < |os| ==> os[i] != os[j]
  }

  /** What all of these orders took together. */
  function TakenByAll(rs: seq<Request>, os: seq<Id>, p: Id): int {
    if os == [] then 0 else TakenByAll(rs, os[..|os| - 1], p) + Taken(rs, os[|os| - 1], p)
  }

  /** A payment adds to what its own order took. */
  lemma {:induction false} TakenByAllStep(rs: seq<Request>, os: seq<Id>, p: Id)
    requires rs != [] && Distinct(os)
    ensures var n := |rs| - 1; var r, db := rs[n], Run(rs[..n]);
            TakenByAll(rs, os, p) == TakenByAll(rs[..n], os, p) + if r.Pay? && r.o in os then Takes(db, r, r.o, p) else 0
  {
    if os != [] {
      var m := |os| - 1;
      TakenByAllStep(rs, os[..m], p);
      assert os == os[..m] + [os[m]];
    }
  }

  /**
   In every serialised run, a stock column has lost exactly what the orders took since any moment after which the
   product was not written: nothing else changes stock.
   */
  lemma {:induction false} StockLosesWhatIsTaken(rs: seq<Request>, m: nat, os: seq<Id>, p: Id)
    requires m <= |rs| && Distinct(os) && p in Run(rs[..m]).products
    requires forall i :: m <= i < |rs| ==> !WritesTo(rs[i], p) && (rs[i].Pay? ==> rs[i].o in os)
    ensures p in Run(rs).products
    ensures Run(rs[..m]).products[p].stock - Run(rs).products[p].stock == TakenByAll(rs, os, p) - TakenByAll(rs[..m], os, p)
  {
    if m == |rs| {
      assert rs[..m] == rs;
    } else {
      var n := |rs| - 1;
      assert rs[..n][..m] == rs[..m];
      StockLosesWhatIsTaken(rs[..n], m, os, p);
      ServeStock(Run(rs[..n]), rs[n], p);
      TakenByAllStep(rs, os, p);
    }
  }

  // ----- a payment that stops and is repeated -----

  lemma {:induction false} ReachesAll(products: map<Id, Product>, items: seq<Item>, fault: nat)
    requires fault >= |items| && forall i :: 0 <= i < |items| ==> items[i].productId in products
    ensures OS.Reached(products, items, fault) == |items|
  {
    if items != [] { ReachesAll(products, items[..|items| - 1], fault); }
  }

  /** The order waits for payment and its products are there. */
  predicate Payable(db: OS.Db, o: Id) {
    && o in db.orders && db.orders[o].status == WaitingForPayment
    && forall i :: 0 <= i < |db.orders[o].items| ==> db.orders[o].items[i].productId in db.products
  }

  /** The status update fails after all the decrements: everything was taken and the order still waits. */
  lemma StoppedAtTheEnd(db: OS.Db, o: Id, p: Id)
    requires Payable(db, o)
    ensures var r := Pay(o, db.orders[o].userId, |db.orders[o].items|);
            && Payable(Serve(db, r), o) && Serve(db, r).orders == db.orders
            && Takes(db, r, o, p) == QuantityOf(db.orders[o].items, p)
  {
    var items := db.orders[o].items;
    ReachesAll(db.products, items, |items|);
    assert items[..|items|] == items;
  }

  lemma PaidAtLast(db: OS.Db, o: Id, p: Id)
    requires Payable(db, o)
    ensures Takes(db, Pay(o, db.orders[o].userId, |db.orders[o].items| + 1), o, p) == QuantityOf(db.orders[o].items, p)
  {
    var items := db.orders[o].items;
    ReachesAll(db.products, items, |items| + 1);
    assert items[..|items|] == items;
  }

  lemma RunSnoc(rs: seq<Request>, r: Request, o: Id, p: Id)
    ensures Run(rs + [r]) == Serve(Run(rs), r)
    ensures Taken(rs + [r], o, p) == Taken(rs, o, p) + Takes(Run(rs), r, o, p)
    ensures r.Pay? ==> Count(rs + [r], o).handled == Count(rs, o).handled && Count(rs + [r], o).checkouts == Count(rs, o).checkouts
  {
    assert (rs + [r])[..|rs|] == rs;
  }

  /**
   Why stopped payments matter: in any run that leaves an order payable, a payment whose status update fails and its
   repetition take the order's quantities twice, with no further processing and no checkout.
   */
  lemma RepeatedPaymentTakesTwice(rs: seq<Request>, o: Id, p: Id)
    requires Payable(Run(rs), o)
    ensures var order := Run(rs).orders[o]; var n := |order.items|;
            var after := rs + [Pay(o, order.userId, n)] + [Pay(o, order.userId, n + 1)];
            && Taken(after, o, p) == Taken(rs, o, p) + 2 * QuantityOf(order.items, p)
            && Count(after, o).handled == Count(rs, o).handled && Count(after, o).checkouts == Count(rs, o).checkouts
  {
    var db := Run(rs);
    var order := db.orders[o];
    var first, second := Pay(o, order.userId, |order.items|), Pay(o, order.userId, |order.items| + 1);
    RunSnoc(rs, first, o, p);
    RunSnoc(rs + [first], second, o, p);
    StoppedAtTheEnd(db, o, p);
    PaidAtLast(Serve(db, first), o, p);
  }
}
