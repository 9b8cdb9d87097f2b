/**
 The order protocol of one tenant, one step per `await`: any number of create calls, payments, completions, admin
 writes and queue deliveries interleave freely, any of them may stop on an error, and a published message may be
 delivered any number of times. A run is any sequence of events; an event that is not possible changes nothing.
 */
module OrderProtocol {
  import opened Wrappers
  import opened Text
  import opened OrderModel

  // ----- state -----

  /** Where a create call stands: the store operation it performs next. `Found` carries what `findFirst` returned. */
  datatype Step =
    | ReadOrder
    | ReadProduct
    | ReadItem
    | WriteItem(found: Option<(nat, int)>)
    | ReadItems
    | WriteTotal(total: int)
    | Publish
    | Done
    | Failed

  /** A create call after its `order.create`: `added` lines are complete, `prices` were read so far. */
  datatype Create = Create(userId: Id, lines: seq<Line>, added: nat, prices: seq<int>, step: Step)

  datatype PaymentState = Running | Finished | Stopped

  /** A payment that passed its checks, with the items it read; `deducted` of them are done. */
  datatype Payment = Payment(orderId: Id, items: seq<Item>, deducted: nat, state: PaymentState)

  datatype StockWrite =
    | Stocked(productId: Id, stock: int)
    | Removed(productId: Id)
    | Decrement(payment: Id, productId: Id, quantity: int)

  datatype State = State(
    orders: map<Id, Order>,
    products: map<Id, Product>,
    creates: map<Id, Create>,
    payments: map<Id, Payment>,
    published: set<Id>,
    completions: set<(Id, string)>,
    log: seq<StockWrite>)

  const INITIAL := State(map[], map[], map[], map[], {}, {}, [])

  datatype Event =
    | BeginCreate(order: Id, user: Id, lines: seq<Line>)
    | StepCreate(order: Id)
    | FailCreate(order: Id)
    | BeginPayment(payment: Id, order: Id, user: Id)
    | StepPayment(payment: Id)
    | FailPayment(payment: Id)
    | DeliverProcessing(order: Id, paymentId: Id)
    | RequestCompletion(order: Id, user: Id, transactionId: string)
    | DeliverCompletion(order: Id, transactionId: string)
    | PutProduct(product: Id, price: int, stock: int)
    | UpdateProduct(product: Id, newPrice: Option<int>, newStock: Option<int>)
    | RemoveProduct(product: Id)

  // ----- the create call -----

  /** `order.create`; the body was checked to hold at least one line, and the new identifier is fresh. */
  function Begin(s: State, o: Id, user: Id, lines: seq<Line>): State {
    if o in s.orders || lines == [] then s
    else s.(orders := s.orders[o := Order(user, Pending, 0, [], None, None)],
            creates := s.creates[o := Create(user, lines, 0, [], ReadOrder)])
  }

  predicate Mid(c: Create) {
    c.step.Publish? || c.step.Done? || c.step.Failed? || c.added < |c.lines|
  }

  /** The next store operation of a create call, on its own order row and the products it reads. */
  function StepRow(c: Create, order: Order, products: map<Id, Product>): (Create, Order)
    requires Mid(c)
  {
    match c.step
    case ReadOrder =>
      (c.(step := if order.userId == c.userId && order.status == Pending then ReadProduct else Failed), order)
    case ReadProduct =>
      var line := c.lines[c.added];
      if line.productId in products && products[line.productId].stock >= line.quantity
      then (c.(step := ReadItem, prices := c.prices + [products[line.productId].price]), order)
      else (c.(step := Failed), order)
    case ReadItem =>
      var at := FindItem(order.items, c.lines[c.added].productId);
      (c.(step := WriteItem(if at.None? then None else Some((at.value, order.items[at.value].quantity)))), order)
    case WriteItem(found) =>
      var line := c.lines[c.added];
      if found.Some? && found.value.0 < |order.items| then
        var item := order.items[found.value.0].(quantity := found.value.1 + line.quantity);
        (c.(step := ReadItems), order.(items := order.items[found.value.0 := item]))
      else if found.None? && line.productId in products && c.added < |c.prices| then
        var item := Item(line.productId, line.quantity, c.prices[c.added]);
        (c.(step := ReadItems), order.(items := order.items + [item]))
      else (c.(step := Failed), order)
    case ReadItems => (c.(step := WriteTotal(Total(order.items))), order)
    case WriteTotal(total) =>
      (c.(added := c.added + 1, step := if c.added + 1 < |c.lines| then ReadOrder else Publish), order.(total := total))
    case Publish => (c.(step := Done), order)
    case Done => (c, order)
    case Failed => (c, order)
  }

  predicate CanAdvance(s: State, o: Id) {
    o in s.creates && o in s.orders && Mid(s.creates[o])
  }

  function Advance(s: State, o: Id): State
    requires CanAdvance(s, o)
  {
    var (c, order) := StepRow(s.creates[o], s.orders[o], s.products);
    s.(creates := s.creates[o := c], orders := s.orders[o := order],
       published := if s.creates[o].step.Publish? then s.published + {o} else s.published)
  }

  /** An exception ends the call; nothing is undone. */
  function Fail(s: State, o: Id): State {
    if o in s.creates && !s.creates[o].step.Done? 
    then s.(creates := s.creates[o := s.creates[o].(step := Failed)]) else s
  }

  // ----- the payment -----

  function StartPayment(s: State, pay: Id, o: Id, user: Id): State {
    if pay !in s.payments && o in s.orders && s.orders[o].userId == user && s.orders[o].status == WaitingForPayment
    then s.(payments := s.payments[pay := Payment(o, s.orders[o].items, 0, Running)])
    else s
  }

  /** One `product.update` of the loop, or, after the last item, the status update. */
  function AdvancePayment(s: State, pay: Id): State {
    if pay !in s.payments || s.payments[pay].state != Running || s.payments[pay].orderId !in s.orders then s
    else
      var p := s.payments[pay];
      if p.deducted < |p.items| then
        var item := p.items[p.deducted];
        if item.productId !in s.products then s.(payments := s.payments[pay := p.(state := Stopped)])
        else
          var product := s.products[item.productId];
          s.(products := s.products[item.productId := product.(stock := product.stock - item.quantity)],
             payments := s.payments[pay := p.(deducted := p.deducted + 1)],
             log := s.log + [Decrement(pay, item.productId, item.quantity)])
      else
        s.(orders := s.orders[p.orderId := s.orders[p.orderId].(status := Paid)],
           payments := s.payments[pay := p.(state := Finished)])
  }

  function StopPayment(s: State, pay: Id): State {
    if pay in s.payments && s.payments[pay].state == Running
    then s.(payments := s.payments[pay := s.payments[pay].(state := Stopped)]) else s
  }

  // ----- consumers, completion requests, admin writes -----

  function Processed(s: State, o: Id, paymentId: Id): State {
    if o in s.published && o in s.orders
    then s.(orders := s.orders[o := s.orders[o].(status := WaitingForPayment, paymentId := Some(paymentId))]) else s
  }

  /** The route refuses a blank transaction id; the service refuses a foreign order. */
  function Requested(s: State, o: Id, user: Id, tx: string): State {
    if Trim(tx) != "" && o in s.orders && s.orders[o].userId == user
    then s.(completions := s.completions + {(o, tx)}) else s
  }

  function Completed(s: State, o: Id, tx: string): State {
    if (o, tx) in s.completions && o in s.orders
    then s.(orders := s.orders[o := s.orders[o].(status := Complete, transactionId := Some(tx))]) else s
  }

  function Put(s: State, p: Id, price: int, stock: int): State {
    if p in s.products then s
    else s.(products := s.products[p := Product(price, stock)], log := s.log + [Stocked(p, stock)])
  }

  function Update(s: State, p: Id, price: Option<int>, stock: Option<int>): State {
    if p !in s.products then s
    else
      var product := s.products[p];
      s.(products := s.products[p := Product(price.GetOr(product.price), stock.GetOr(product.stock))],
         log := s.log + if stock.Some? then [Stocked(p, stock.value)] else [])
  }

  /** Deleting is restricted by the foreign key of the order items. */
  function Remove(s: State, p: Id): State {
    if p !in s.products || exists o | o in s.orders :: HasProduct(s.orders[o].items, p) then s
    else s.(products := s.products - {p}, log := s.log + [Removed(p)])
  }

  function Apply(s: State, e: Event): State {
    match e
    case BeginCreate(o, user, lines) => Begin(s, o, user, lines)
    case StepCreate(o) => if CanAdvance(s, o) then Advance(s, o) else s
    case FailCreate(o) => Fail(s, o)
    case BeginPayment(pay, o, user) => StartPayment(s, pay, o, user)
    case StepPayment(pay) => AdvancePayment(s, pay)
    case FailPayment(pay) => StopPayment(s, pay)
    case DeliverProcessing(o, paymentId) => Processed(s, o, paymentId)
    case RequestCompletion(o, user, tx) => Requested(s, o, user, tx)
    case DeliverCompletion(o, tx) => Completed(s, o, tx)
    case PutProduct(p, price, stock) => Put(s, p, price, stock)
    case UpdateProduct(p, price, stock) => Update(s, p, price, stock)
    case RemoveProduct(p) => Remove(s, p)
  }

  function Run(events: seq<Event>): State {
    if events == [] then INITIAL else Apply(Run(events[..|events| - 1]), events[|events| - 1])
  }

  // ----- the invariant -----

  /** What a create call knows of its order at each step. */
  ghost predicate CreateOk(c: Create, order: Order) {
    var n := c.added;
    && c.lines != [] && c.userId == order.userId
    && match c.step
       case ReadOrder => n < |c.lines| && Grouped(order.items, c.lines[..n], c.prices)
       case ReadProduct => n < |c.lines| && Grouped(order.items, c.lines[..n], c.prices)
       case ReadItem => n < |c.lines| && |c.prices| == n + 1 && Grouped(order.items, c.lines[..n], c.prices[..n])
       case WriteItem(found) =>
         && n < |c.lines| && |c.prices| == n + 1 && Grouped(order.items, c.lines[..n], c.prices[..n])
         && var at := FindItem(order.items, c.lines[n].productId);
            found == if at.None? then None else Some((at.value, order.items[at.value].quantity))
       case ReadItems => n < |c.lines| && Grouped(order.items, c.lines[..n + 1], c.prices)
       case WriteTotal(total) =>
         n < |c.lines| && Grouped(order.items, c.lines[..n + 1], c.prices) && total == Total(order.items)
       case Publish => Built(c, order)
       case Done => Built(c, order)
       case Failed => true
  }

  /** The order is what the request asked for, and its total is right. */
  ghost predicate Built(c: Create, order: Order) {
    c.lines != [] && Grouped(order.items, c.lines, c.prices) && order.total == Total(order.items)
  }

  ghost predicate OrderOk(s: State, o: Id, order: Order) {
    && (order.status == WaitingForPayment || order.status == Paid ==> o in s.published && order.paymentId.Some?)
    && (order.status == Complete ==> order.transactionId.Some? && !Blank(order.transactionId.value))
  }

  ghost predicate PaymentOk(s: State, p: Payment) {
    && p.orderId in s.published && p.orderId in s.orders && p.items == s.orders[p.orderId].items
    && s.orders[p.orderId].paymentId.Some?
    && p.deducted <= |p.items|
    && (p.state == Finished ==> p.deducted == |p.items|)
  }

  ghost predicate Inv(s: State) {
    && s.creates.Keys == s.orders.Keys
    && (forall o :: o in s.orders ==> CreateOk(s.creates[o], s.orders[o]) && OrderOk(s, o, s.orders[o]))
    && (forall o :: o in s.published ==> o in s.orders && s.creates[o].step == Done)
    && (forall c :: c in s.completions ==> !Blank(c.1))
    && (forall pay :: pay in s.payments ==> PaymentOk(s, s.payments[pay]))
  }

  /** What changes when only row and create call `o` change. */
  lemma RowChange(s: State, s': State, o: Id)
    requires Inv(s) && o in s.orders
    requires s' == s.(orders := s'.orders, creates := s'.creates)
    requires s'.orders.Keys == s.orders.Keys && s'.creates.Keys == s.creates.Keys
    requires forall x :: x in s.orders && x != o ==> s'.orders[x] == s.orders[x] && s'.creates[x] == s.creates[x]
    requires CreateOk(s'.creates[o], s'.orders[o]) && OrderOk(s, o, s'.orders[o])
    requires o in s.published ==> s'.creates[o].step == Done && s'.orders[o].items == s.orders[o].items
    requires s.orders[o].paymentId.Some? ==> s'.orders[o].paymentId.Some?
    ensures Inv(s')
  {
    forall pay | pay in s'.payments ensures PaymentOk(s', s'.payments[pay]) {
      assert PaymentOk(s, s.payments[pay]);
    }
    forall x | x in s'.orders ensures OrderOk(s', x, s'.orders[x]) {
      assert OrderOk(s, x, s.orders[x]);
    }
  }

  lemma BeginKeeps(s: State, o: Id, user: Id, lines: seq<Line>)
    requires Inv(s)
    ensures Inv(Begin(s, o, user, lines))
  {
    var s' := Begin(s, o, user, lines);
    if s' != s {
      assert lines[..0] == [];
      forall pay | pay in s'.payments ensures PaymentOk(s', s'.payments[pay]) {
        assert PaymentOk(s, s.payments[pay]);
      }
      forall x | x in s'.orders ensures CreateOk(s'.creates[x], s'.orders[x]) && OrderOk(s', x, s'.orders[x]) {
        if x != o { assert OrderOk(s, x, s.orders[x]); }
      }
    }
  }

  /** The next store operation keeps what the call knows of its order, and touches nothing else of the row. */
  lemma StepRowOk(c: Create, order: Order, products: map<Id, Product>)
    requires CreateOk(c, order) && Mid(c)
    ensures var (c', order') := StepRow(c, order, products);
            && CreateOk(c', order')
            && order' == order.(items := order'.items, total := order'.total)
            && (c.step.Done? || c.step.Publish? ==> c'.step.Done? && order' == order)
            && c'.lines == c.lines
            && (c'.prices == c.prices || (c.step == ReadProduct && ReadsPrice(c, c', products)))
  {
    var n := c.added;
    match c.step
    case ReadProduct =>
      ReadProductOk(c, order, products);
    case WriteItem(found) =>
      WriteItemOk(c, order, products);
    case WriteTotal(total) =>
      assert n + 1 == |c.lines| ==> c.lines[..n + 1] == c.lines;
    case _ =>
  }

  ghost predicate ReadsPrice(c: Create, c': Create, products: map<Id, Product>) {
    && |c.prices| == c.added < |c.lines| && c.lines[c.added].productId in products
    && c'.prices == c.prices + [products[c.lines[c.added].productId].price]
  }

  lemma ReadProductOk(c: Create, order: Order, products: map<Id, Product>)
    requires CreateOk(c, order) && c.step.ReadProduct?
    ensures var (c', order') := StepRow(c, order, products);
            order' == order && CreateOk(c', order) && (c'.prices == c.prices || ReadsPrice(c, c', products))
  {
    var c' := StepRow(c, order, products).0;
    assert |c.prices| == c.added;
    assert c'.step == ReadItem ==> c'.prices[..c.added] == c.prices;
  }

  /** With what `findFirst` returned still true, the write adds the line to the items. */
  lemma WriteAddsLine(c: Create, order: Order, products: map<Id, Product>)
    requires c.step.WriteItem? && c.added < |c.lines| && |c.prices| == c.added + 1
    requires var at := FindItem(order.items, c.lines[c.added].productId);
             c.step.found == if at.None? then None else Some((at.value, order.items[at.value].quantity))
    ensures var r := StepRow(c, order, products);
            var items := AddLine(order.items, c.lines[c.added], c.prices[c.added]);
            r == (c.(step := Failed), order) || r == (c.(step := ReadItems), order.(items := items))
  {
  }

  lemma WriteItemOk(c: Create, order: Order, products: map<Id, Product>)
    requires CreateOk(c, order) && c.step.WriteItem?
    ensures var (c', order') := StepRow(c, order, products);
            && CreateOk(c', order') && order' == order.(items := order'.items)
            && c'.lines == c.lines && c'.prices == c.prices
  {
    WriteAddsLine(c, order, products);
    GroupedNext(order.items, c.lines, c.prices, c.added);
  }

  lemma GroupedNext(items: seq<Item>, lines: seq<Line>, prices: seq<int>, n: nat)
    requires n < |lines| && |prices| == n + 1 && Grouped(items, lines[..n], prices[..n])
    ensures Grouped(AddLine(items, lines[n], prices[n]), lines[..n + 1], prices)
  {
    GroupedStep(items, lines[..n], prices[..n], lines[n], prices[n]);
    assert lines[..n] + [lines[n]] == lines[..n + 1];
    assert prices[..n] + [prices[n]] == prices;
  }

  lemma AdvanceKeeps(s: State, o: Id)
    requires Inv(s) && CanAdvance(s, o)
    ensures Inv(Advance(s, o))
  {
    var s' := Advance(s, o);
    assert CreateOk(s.creates[o], s.orders[o]) && OrderOk(s, o, s.orders[o]);
    StepRowOk(s.creates[o], s.orders[o], s.products);
    var mid := s'.(published := s.published);
    RowChange(s, mid, o);
    if s.creates[o].step.Publish? {
      PublishKeeps(mid, o);
      assert s' == mid.(published := mid.published + {o});
    } else {
      assert s' == mid;
    }
  }

  lemma PublishKeeps(s: State, o: Id)
    requires Inv(s) && o in s.orders && s.creates[o].step == Done
    ensures Inv(s.(published := s.published + {o}))
  {
    var s' := s.(published := s.published + {o});
    forall pay | pay in s'.payments ensures PaymentOk(s', s'.payments[pay]) {
      assert PaymentOk(s, s.payments[pay]);
    }
    forall x | x in s'.orders ensures CreateOk(s'.creates[x], s'.orders[x]) && OrderOk(s', x, s'.orders[x]) {
      assert OrderOk(s, x, s.orders[x]);
    }
  }

  lemma FailKeeps(s: State, o: Id)
    requires Inv(s)
    ensures Inv(Fail(s, o))
  {
    if o in s.creates {
      assert OrderOk(s, o, s.orders[o]);
      if !s.creates[o].step.Done? { RowChange(s, Fail(s, o), o); }
    }
  }

  lemma StartKeeps(s: State, pay: Id, o: Id, user: Id)
    requires Inv(s)
    ensures Inv(StartPayment(s, pay, o, user))
  {
    var s' := StartPayment(s, pay, o, user);
    if s' != s {
      assert OrderOk(s, o, s.orders[o]);
      PaymentsChange(s, s', pay);
    }
  }

  lemma StopKeeps(s: State, pay: Id)
    requires Inv(s)
    ensures Inv(StopPayment(s, pay))
  {
    var s' := StopPayment(s, pay);
    if s' != s {
      assert PaymentOk(s, s.payments[pay]);
      PaymentsChange(s, s', pay);
    }
  }

  lemma AdvancePaymentKeeps(s: State, pay: Id)
    requires Inv(s)
    ensures Inv(AdvancePayment(s, pay))
  {
    var s' := AdvancePayment(s, pay);
    if pay in s.payments && s.payments[pay].state == Running {
      var p := s.payments[pay];
      assert PaymentOk(s, p) && OrderOk(s, p.orderId, s.orders[p.orderId]);
      assert CreateOk(s.creates[p.orderId], s.orders[p.orderId]);
      var mid := s.(orders := s'.orders);
      RowChange(s, mid, p.orderId);
      assert PaymentOk(mid, s'.payments[pay]) by { assert PaymentOk(mid, mid.payments[pay]); }
      var mid' := mid.(payments := s'.payments);
      PaymentsChange(mid, mid', pay);
      StoreChange(mid', s');
    }
  }

  lemma PaymentsChange(s: State, s': State, pay: Id)
    requires Inv(s) && s' == s.(payments := s'.payments)
    requires pay in s'.payments && PaymentOk(s, s'.payments[pay])
    requires s'.payments == s.payments[pay := s'.payments[pay]]
    ensures Inv(s')
  {
    forall q | q in s'.payments ensures PaymentOk(s', s'.payments[q]) {
      if q != pay { assert PaymentOk(s, s.payments[q]); }
    }
    forall x | x in s'.orders ensures CreateOk(s'.creates[x], s'.orders[x]) && OrderOk(s', x, s'.orders[x]) {
      assert OrderOk(s, x, s.orders[x]);
    }
  }

  lemma ProcessedKeeps(s: State, o: Id, paymentId: Id)
    requires Inv(s)
    ensures Inv(Processed(s, o, paymentId))
  {
    if o in s.published {
      assert OrderOk(s, o, s.orders[o]) && CreateOk(s.creates[o], s.orders[o]);
      RowChange(s, Processed(s, o, paymentId), o);
    }
  }

  lemma CompletedKeeps(s: State, o: Id, tx: string)
    requires Inv(s)
    ensures Inv(Completed(s, o, tx))
  {
    if (o, tx) in s.completions && o in s.orders {
      assert OrderOk(s, o, s.orders[o]) && CreateOk(s.creates[o], s.orders[o]);
      assert !Blank((o, tx).1);
      RowChange(s, Completed(s, o, tx), o);
    }
  }

  /** A change that leaves orders, calls, payments and the processing queue alone. */
  lemma StoreChange(s: State, s': State)
    requires Inv(s)
    requires s'.orders == s.orders && s'.creates == s.creates && s'.payments == s.payments && s'.published == s.published
    requires forall c :: c in s'.completions ==> !Blank(c.1)
    ensures Inv(s')
  {
    forall x | x in s'.orders ensures CreateOk(s'.creates[x], s'.orders[x]) && OrderOk(s', x, s'.orders[x]) {
      assert OrderOk(s, x, s.orders[x]);
    }
    forall pay | pay in s'.payments ensures PaymentOk(s', s'.payments[pay]) {
      assert PaymentOk(s, s.payments[pay]);
    }
  }

  lemma ApplyKeeps(s: State, e: Event)
    requires Inv(s)
    ensures Inv(Apply(s, e))
  {
    match e
    case BeginCreate(o, user, lines) => BeginKeeps(s, o, user, lines);
    case StepCreate(o) => if CanAdvance(s, o) { AdvanceKeeps(s, o); }
    case FailCreate(o) => FailKeeps(s, o);
    case BeginPayment(pay, o, user) => StartKeeps(s, pay, o, user);
    case StepPayment(pay) => AdvancePaymentKeeps(s, pay);
    case FailPayment(pay) => StopKeeps(s, pay);
    case DeliverProcessing(o, paymentId) => ProcessedKeeps(s, o, paymentId);
    case RequestCompletion(o, user, tx) => RequestedKeeps(s, o, user, tx);
    case DeliverCompletion(o, tx) => CompletedKeeps(s, o, tx);
    case PutProduct(p, price, stock) => PutKeeps(s, p, price, stock);
    case UpdateProduct(p, price, stock) => UpdateKeeps(s, p, price, stock);
    case RemoveProduct(p) => RemoveKeeps(s, p);
  }

  lemma PutKeeps(s: State, p: Id, price: int, stock: int)
    requires Inv(s)
    ensures Inv(Put(s, p, price, stock))
  {
    StoreChange(s, Put(s, p, price, stock));
  }

  lemma UpdateKeeps(s: State, p: Id, price: Option<int>, stock: Option<int>)
    requires Inv(s)
    ensures Inv(Update(s, p, price, stock))
  {
    StoreChange(s, Update(s, p, price, stock));
  }

  lemma RemoveKeeps(s: State, p: Id)
    requires Inv(s)
    ensures Inv(Remove(s, p))
  {
    StoreChange(s, Remove(s, p));
  }

  lemma RequestedKeeps(s: State, o: Id, user: Id, tx: string)
    requires Inv(s)
    ensures Inv(Requested(s, o, user, tx))
  {
    BlankTrims(tx);
    StoreChange(s, Requested(s, o, user, tx));
  }

  lemma {:induction false} RunsKeep(events: seq<Event>)
    ensures Inv(Run(events))
  {
    if events != [] {
      RunsKeep(events[..|events| - 1]);
      ApplyKeeps(Run(events[..|events| - 1]), events[|events| - 1]);
    }
  }

  // ----- results, for every run -----

  /** When a create call is about to publish, and ever after, its order is exactly what was asked for. */
  lemma PublishedOrdersAreBuilt(events: seq<Event>, o: Id)
    requires var s := Run(events);
             o in s.published || (o in s.creates && s.creates[o].step == Publish)
    ensures var s := Run(events);
            && o in s.orders && o in s.creates
            && Grouped(s.orders[o].items, s.creates[o].lines, s.creates[o].prices)
            && s.orders[o].total == Total(s.orders[o].items)
  {
    RunsKeep(events);
    var s := Run(events);
    assert CreateOk(s.creates[o], s.orders[o]);
  }

  /** An order that waits for payment or is paid is finished, correct and has a payment id. */
  lemma PayableOrdersAreFinal(events: seq<Event>, o: Id)
    requires var s := Run(events);
             o in s.orders && (s.orders[o].status == WaitingForPayment || s.orders[o].status == Paid)
    ensures var s := Run(events); var order := s.orders[o];
            && |order.items| >= 1
            && order.total == Total(order.items)
            && order.paymentId.Some?
            && o in s.creates && s.creates[o].step == Done
            && Grouped(order.items, s.creates[o].lines, s.creates[o].prices)
  {
    RunsKeep(events);
    var s := Run(events);
    assert OrderOk(s, o, s.orders[o]);
    assert CreateOk(s.creates[o], s.orders[o]);
    assert HasProduct(s.orders[o].items, s.creates[o].lines[0].productId);
  }

  /** A complete order has a transaction id that is not blank. */
  lemma CompleteOrdersHaveTransactions(events: seq<Event>, o: Id)
    requires var s := Run(events); o in s.orders && s.orders[o].status == Complete
    ensures var tx := Run(events).orders[o].transactionId; tx.Some? && Trim(tx.value) != ""
  {
    RunsKeep(events);
    var s := Run(events);
    assert OrderOk(s, o, s.orders[o]);
    BlankTrims(s.orders[o].transactionId.value);
  }

  // ----- prices are prices that were read -----

  /** Event `n` is the call's read of the product for line `k`, and finds it at `price`. */
  ghost predicate ReadsLine(events: seq<Event>, n: nat, o: Id, k: nat, product: Id, price: int) {
    && n < |events| && events[n] == StepCreate(o)
    && var s := Run(events[..n]);
       && o in s.creates && s.creates[o].step == ReadProduct && s.creates[o].added == k
       && product in s.products && s.products[product].price == price
  }

  ghost predicate PricesWereRead(events: seq<Event>, o: Id, c: Create) {
    && |c.prices| <= |c.lines|
    && forall k :: 0 <= k < |c.prices| ==> LineWasRead(events, o, k, c.lines[k].productId, c.prices[k])
  }

  ghost predicate LineWasRead(events: seq<Event>, o: Id, k: nat, product: Id, price: int) {
    exists n: nat :: ReadsLine(events, n, o, k, product, price)
  }

  /** Every price an order was built with is the one the call's own read of that line's product found. */
  lemma {:induction false} EveryPriceWasRead(events: seq<Event>, o: Id)
    requires o in Run(events).creates
    ensures PricesWereRead(events, o, Run(events).creates[o])
  {
    if events != [] {
      var n := |events| - 1;
      var before, e := events[..n], events[n];
      var s := Run(before);
      RunsKeep(before);
      if o in s.creates {
        EveryPriceWasRead(before, o);
        PricesStep(s, e, o);
        PricesExtend(events, o, s.creates[o], Apply(s, e).creates[o]);
      } else {
        NewCreates(s, e, o);
      }
    }
  }

  lemma NewCreates(s: State, e: Event, o: Id)
    requires o !in s.creates && o in Apply(s, e).creates
    ensures Apply(s, e).creates[o].prices == []
  {
  }

  lemma ReadStays(events: seq<Event>, o: Id, k: nat, product: Id, price: int)
    requires events != [] && LineWasRead(events[..|events| - 1], o, k, product, price)
    ensures LineWasRead(events, o, k, product, price)
  {
    var before := events[..|events| - 1];
    var n: nat :| ReadsLine(before, n, o, k, product, price);
    assert before[..n] == events[..n];
    assert ReadsLine(events, n, o, k, product, price);
  }

  lemma ReadHere(events: seq<Event>, o: Id, c: Create, c': Create)
    requires events != [] && ReadsNow(events, o, c, c')
    ensures LineWasRead(events, o, c.added, c.lines[c.added].productId, c'.prices[c.added])
  {
    assert ReadsLine(events, |events| - 1, o, c.added, c.lines[c.added].productId, c'.prices[c.added]);
  }

  lemma PricesExtend(events: seq<Event>, o: Id, c: Create, c': Create)
    requires events != [] && PricesWereRead(events[..|events| - 1], o, c) && c'.lines == c.lines
    requires c'.prices == c.prices || ReadsNow(events, o, c, c')
    ensures PricesWereRead(events, o, c')
  {
    forall k | 0 <= k < |c'.prices| ensures LineWasRead(events, o, k, c'.lines[k].productId, c'.prices[k]) {
      if k < |c.prices| {
        ReadStays(events, o, k, c.lines[k].productId, c.prices[k]);
      } else {
        ReadHere(events, o, c, c');
      }
    }
  }

  /** The last event is the call's read for its next line. */
  ghost predicate ReadsNow(events: seq<Event>, o: Id, c: Create, c': Create)
    requires events != []
  {
    var s := Run(events[..|events| - 1]);
    && events[|events| - 1] == StepCreate(o) && o in s.creates && s.creates[o] == c && c.step == ReadProduct
    && ReadsPrice(c, c', s.products)
  }

  /** A step keeps the prices read so far, and adds at most the current price of the line's product. */
  lemma PricesStep(s: State, e: Event, o: Id)
    requires Inv(s) && o in s.creates
    ensures var s' := Apply(s, e); var c := s.creates[o];
            && o in s'.creates && s'.creates[o].lines == c.lines
            && (|| s'.creates[o].prices == c.prices
                || (e == StepCreate(o) && c.step == ReadProduct && ReadsPrice(c, s'.creates[o], s.products)))
  {
    if e == StepCreate(o) && CanAdvance(s, o) {
      assert CreateOk(s.creates[o], s.orders[o]);
      StepRowOk(s.creates[o], s.orders[o], s.products);
    } else {
      OthersLeaveCreate(s, e, o);
    }
  }

  lemma OthersLeaveCreate(s: State, e: Event, o: Id)
    requires o in s.creates && o in s.orders && e != StepCreate(o)
    ensures var s' := Apply(s, e);
            && o in s'.creates && s'.creates[o].lines == s.creates[o].lines && s'.creates[o].prices == s.creates[o].prices
  {
    match e
    case StepCreate(x) => assert x != o;
    case _ =>
  }

  // ----- what was published stays -----

  /** Same owner, items and total. */
  predicate SameContents(a: Order, b: Order) {
    a.userId == b.userId && a.items == b.items && a.total == b.total
  }

  ghost predicate Kept(s: State, s': State, o: Id) {
    o in s.orders && o in s'.orders && o in s'.published && SameContents(s.orders[o], s'.orders[o])
  }

  ghost predicate IsPublished(s: State, o: Id) {
    o in s.published && o in s.orders && o in s.creates && s.creates[o].step == Done
  }

  lemma PublishedStep(s: State, e: Event, o: Id)
    requires IsPublished(s, o)
    ensures Kept(s, Apply(s, e), o)
  {
    match e
    case StepCreate(x) => if CanAdvance(s, x) { AdvanceKeepsPublished(s, x, o); }
    case StepPayment(pay) => PaymentKeepsPublished(s, pay, o);
    case _ =>
  }

  lemma PaymentKeepsPublished(s: State, pay: Id, o: Id)
    requires IsPublished(s, o)
    ensures Kept(s, AdvancePayment(s, pay), o)
  {}

  lemma AdvanceKeepsPublished(s: State, x: Id, o: Id)
    requires CanAdvance(s, x) && IsPublished(s, o)
    ensures Kept(s, Advance(s, x), o)
  {}

  lemma RunLast(events: seq<Event>, before: seq<Event>, e: Event)
    requires events == before + [e]
    ensures Run(events) == Apply(Run(before), e)
  {
    assert events[..|events| - 1] == before && events[|events| - 1] == e;
  }

  /** Deliveries, redeliveries, payments, completions and admin writes never change what a published order is for. */
  lemma {:induction false} PublishedOrdersStay(events: seq<Event>, more: seq<Event>, o: Id)
    requires o in Run(events).published
    ensures Kept(Run(events), Run(events + more), o)
  {
    if more == [] {
      RunsKeep(events);
      assert events + more == events;
    } else {
      var before := events + more[..|more| - 1];
      PublishedOrdersStay(events, more[..|more| - 1], o);
      RunsKeep(before);
      assert IsPublished(Run(before), o);
      PublishedStep(Run(before), more[|more| - 1], o);
      RunLast(events + more, before, more[|more| - 1]);
    }
  }
}
