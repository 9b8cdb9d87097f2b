/** Which requests are accepted, which refusal each failed check gives, and what accepted ones achieve in serialised runs. */
module RequestOutcomes {
  import opened Wrappers
  import opened Text
  import opened OrderModel
  import opened SerialisedRuns
  import OS = OrderService
  import Life = OrderLifecycle

  // ----- refusals -----

  predicate Owns(db: OS.Db, o: Id, user: Id) {
    o in db.orders && db.orders[o].userId == user
  }

  /** The order is somebody else's. */
  predicate Foreign(db: OS.Db, o: Id, user: Id) {
    o in db.orders && db.orders[o].userId != user
  }

  predicate EnoughStock(products: map<Id, Product>, p: Id, quantity: int) {
    p in products && products[p].stock >= quantity
  }

  predicate AllInStock(products: map<Id, Product>, items: seq<Item>) {
    forall i :: 0 <= i < |items| ==> EnoughStock(products, items[i].productId, items[i].quantity)
  }

  predicate LostExactly(before: map<Id, Product>, after: map<Id, Product>, items: seq<Item>) {
    forall p :: p in before ==> p in after && after[p].stock == before[p].stock - QuantityOf(items, p)
  }

  /** A payment is accepted exactly from the owner of an order that waits for it; each refusal has its kind. */
  lemma PaymentOutcomes(db: OS.Db, o: Id, user: Id)
    ensures var r := OS.PayCheck(db, o, user);
            && (r == OS.Ok <==> Owns(db, o, user) && db.orders[o].status == WaitingForPayment)
            && (r == OS.Err(OS.NotFound) <==> o !in db.orders)
            && (r == OS.Err(OS.Forbidden) <==> Foreign(db, o, user))
            && (r == OS.Err(OS.BadRequest) <==> Owns(db, o, user) && db.orders[o].status != WaitingForPayment)
  {}

  /** A completion request is accepted exactly with a transaction id that is not blank, from the order's owner. */
  lemma CompletionOutcomes(db: OS.Db, o: Id, user: Id, tx: string)
    ensures var r := OS.EnqueueCheck(db, o, user, tx);
            && (r == OS.Ok <==> !Blank(tx) && Owns(db, o, user))
            && (r == OS.Err(OS.BadRequest) <==> Blank(tx))
            && (r == OS.Err(OS.NotFound) <==> !Blank(tx) && o !in db.orders)
            && (r == OS.Err(OS.Forbidden) <==> !Blank(tx) && Foreign(db, o, user))
  {
    BlankTrims(tx);
  }

  /** A line is added exactly by the owner of a pending order, for a product with enough stock. */
  lemma AddOutcomes(db: OS.Db, o: Id, user: Id, line: Line)
    ensures var r := OS.AddCheck(db, o, user, line);
            var pending := Owns(db, o, user) && db.orders[o].status == Pending;
            && (r == OS.Ok <==> pending && EnoughStock(db.products, line.productId, line.quantity))
            && (r == OS.Err(OS.NotFound) <==> o !in db.orders || (pending && line.productId !in db.products))
            && (r == OS.Err(OS.Forbidden) <==> Foreign(db, o, user))
            && (r == OS.Err(OS.BadRequest) <==>
                (Owns(db, o, user) && db.orders[o].status != Pending) ||
                (pending && line.productId in db.products && db.products[line.productId].stock < line.quantity))
  {}

  /** A checkout is accepted exactly by the owner of a pending order with items, all of them in stock; it then waits for payment. */
  lemma CheckoutOutcomes(db: OS.Db, o: Id, user: Id)
    ensures var r := OS.CheckoutCheck(db, o, user);
            && (r == OS.Ok <==>
                Owns(db, o, user) && db.orders[o].status == Pending && db.orders[o].items != []
                && AllInStock(db.products, db.orders[o].items))
            && (Foreign(db, o, user) ==> r == OS.Err(OS.Forbidden))
            && (o !in db.orders ==> r == OS.Err(OS.NotFound))
            && (r == OS.Ok ==>
                OS.Checkout(db, o, user) == db.(orders := db.orders[o := db.orders[o].(status := WaitingForPayment)]))
            && (r != OS.Ok ==> OS.Checkout(db, o, user) == db)
  {
    if o in db.orders { OS.StockCheckIsAll(db.products, db.orders[o].items); }
  }

  /** Whoever does not own an order changes nothing by paying, checking out or completing it. */
  lemma StrangersChangeNothing(db: OS.Db, r: Request)
    requires (r.Pay? || r.Checkout? || r.Enqueue?) && !Owns(db, r.o, r.user)
    ensures Serve(db, r) == db
  {}

  // ----- what deliveries and payments achieve -----

  ghost predicate PublishedExist(db: OS.Db) {
    forall o :: o in db.published ==> o in db.orders
  }

  lemma {:induction false} PublishedOrdersExist(rs: seq<Request>)
    ensures PublishedExist(Run(rs))
  {
    if rs != [] {
      var n := |rs| - 1;
      PublishedOrdersExist(rs[..n]);
      PublishedStay(Run(rs[..n]), rs[n]);
    }
  }

  lemma PublishedStay(db: OS.Db, r: Request)
    requires PublishedExist(db)
    ensures PublishedExist(Serve(db, r))
  {
    if r.Create? && r.o !in db.orders {
      CreateTouchesOne(db, r.o, r.user, r.lines);
      if r.lines != [] {
        AddItemsTouchOne(db.(orders := db.orders[r.o := Order(r.user, Pending, 0, [], None, None)]), r.o, r.user, r.lines);
      }
    }
  }

  lemma RunNext(rs: seq<Request>, r: Request)
    ensures Run(rs + [r]) == Serve(Run(rs), r)
  {
    assert (rs + [r])[..|rs|] == rs;
  }

  predicate SameOrder(a: Order, b: Order) {
    a.userId == b.userId && a.items == b.items && a.total == b.total
  }

  /** In every serialised run, a processing delivery of a published order makes it payable under the payment id drawn. */
  lemma ProcessingMakesPayable(rs: seq<Request>, o: Id, id: Id)
    requires o in Run(rs).published
    ensures var db, db' := Run(rs), Run(rs + [Process(o, id)]);
            && o in db.orders && o in db'.orders && SameOrder(db.orders[o], db'.orders[o])
            && db'.orders[o].status == WaitingForPayment && db'.orders[o].paymentId == Some(id)
            && db'.products == db.products
  {
    PublishedOrdersExist(rs);
    RunNext(rs, Process(o, id));
  }

  /** A payment that meets no store failure succeeds exactly when its checks pass and its products are there. */
  lemma FaultFreePayments(db: OS.Db, o: Id, user: Id, fault: nat)
    requires o in db.orders && fault > |db.orders[o].items|
    requires forall i :: 0 <= i < |db.orders[o].items| ==> db.orders[o].items[i].productId in db.products
    ensures var (db', r) := OS.Pay(db, o, user, fault); var order := db.orders[o];
            && (r == OS.Ok <==> order.userId == user && order.status == WaitingForPayment)
            && (r == OS.Ok ==>
                o in db'.orders && db'.orders[o] == order.(status := Paid) && LostExactly(db.products, db'.products, order.items))
            && (r != OS.Ok ==> db' == db)
  {
    var items := db.orders[o].items;
    ReachesAll(db.products, items, fault);
    assert items[..|items|] == items;
  }

  /** A requested completion that is delivered completes the order under its transaction id. */
  lemma CompletionsComplete(db: OS.Db, o: Id, user: Id, tx: string)
    requires Owns(db, o, user) && !Blank(tx)
    ensures var db' := Serve(Serve(db, Enqueue(o, user, tx)), Finish(o, tx));
            && o in db'.orders && SameOrder(db.orders[o], db'.orders[o]) && db'.orders[o].paymentId == db.orders[o].paymentId
            && db'.orders[o].status == Complete && db'.orders[o].transactionId == Some(tx)
            && db'.products == db.products
  {
    CompletionOutcomes(db, o, user, tx);
  }

  /** A completion that nobody requested, or a processing message that was not published, is never delivered. */
  lemma OnlyPublishedIsDelivered(db: OS.Db, o: Id, id: Id, tx: string)
    ensures o !in db.published ==> Serve(db, Process(o, id)) == db
    ensures (o, tx) !in db.completions ==> Serve(db, Finish(o, tx)) == db
  {}

  /** The create request: accepted exactly with lines that are all available. */
  lemma CreateOutcomes(db: OS.Db, o: Id, user: Id, lines: seq<Line>)
    requires o !in db.orders && o !in db.published
    ensures o in Serve(db, Create(o, user, lines)).published <==>
            lines != [] && forall i :: 0 <= i < |lines| ==> EnoughStock(db.products, lines[i].productId, lines[i].quantity)
  {
    Life.CreateSucceedsExactly(db, o, user, lines);
    assert forall i :: 0 <= i < |lines| ==>
      (Life.IsAvailable(db.products, lines[i]) <==> EnoughStock(db.products, lines[i].productId, lines[i].quantity));
  }
}
