/**
 The order service with one request at a time: the controller's and the service's methods on the tables they change,
 each against a function of the tables.
 */
module OrderService {
  import opened Wrappers
  import opened Text
  import opened OrderModel

  datatype Error = NotFound | Forbidden | BadRequest | StoreError

  datatype Outcome = Ok | Err(error: Error)

  /** One tenant's tables and the two order queues. Published messages stay: a queue may deliver them again. */
  datatype Db = Db(orders: map<Id, Order>, products: map<Id, Product>,
                   published: set<Id>, completions: set<(Id, string)>)

  const EMPTY := Db(map[], map[], {}, {})

  // ----- addItemToOrder and create -----

  /** The checks of `addItemToOrder`, in their order. */
  function AddCheck(db: Db, o: Id, user: Id, line: Line): Outcome {
    if o !in db.orders then Err(NotFound)
    else if db.orders[o].userId != user then Err(Forbidden)
    else if db.orders[o].status != Pending then Err(BadRequest)
    else if line.productId !in db.products then Err(NotFound)
    else if db.products[line.productId].stock < line.quantity then Err(BadRequest)
    else Ok
  }

  function AddItem(db: Db, o: Id, user: Id, line: Line): Db {
    if AddCheck(db, o, user, line) != Ok then db
    else
      var items := AddLine(db.orders[o].items, line, db.products[line.productId].price);
      db.(orders := db.orders[o := db.orders[o].(items := items, total := Total(items))])
  }

  /** The loop of `create`: it ends at the first line that is refused, and keeps what came before. */
  function AddItems(db: Db, o: Id, user: Id, lines: seq<Line>): (Db, Outcome) {
    if lines == [] then (db, Ok)
    else
      var n := |lines| - 1;
      var (before, r) := AddItems(db, o, user, lines[..n]);
      if r != Ok then (before, r) else (AddItem(before, o, user, lines[n]), AddCheck(before, o, user, lines[n]))
  }

  function CreateOrder(db: Db, o: Id, user: Id, lines: seq<Line>): (Db, Outcome) {
    if lines == [] then (db, Err(BadRequest))
    else
      var started := db.(orders := db.orders[o := Order(user, Pending, 0, [], None, None)]);
      var (added, r) := AddItems(started, o, user, lines);
      if r != Ok then (added, r) else (added.(published := added.published + {o}), Ok)
  }

  // ----- checkout and payment -----

  /** The stock check of `checkoutOrder` over the items, in their order. */
  function StockCheck(products: map<Id, Product>, items: seq<Item>): Outcome {
    if items == [] then Ok
    else
      var n := |items| - 1;
      var r := StockCheck(products, items[..n]);
      if r != Ok then r
      else if items[n].productId !in products then Err(NotFound)
      else if products[items[n].productId].stock < items[n].quantity then Err(BadRequest)
      else Ok
  }

  function CheckoutCheck(db: Db, o: Id, user: Id): Outcome {
    if o !in db.orders then Err(NotFound)
    else if db.orders[o].userId != user then Err(Forbidden)
    else if db.orders[o].status != Pending then Err(BadRequest)
    else if db.orders[o].items == [] then Err(BadRequest)
    else StockCheck(db.products, db.orders[o].items)
  }

  function Checkout(db: Db, o: Id, user: Id): Db {
    if CheckoutCheck(db, o, user) != Ok then db
    else db.(orders := db.orders[o := db.orders[o].(status := WaitingForPayment)])
  }

  function PayCheck(db: Db, o: Id, user: Id): Outcome {
    if o !in db.orders then Err(NotFound)
    else if db.orders[o].userId != user then Err(Forbidden)
    else if db.orders[o].status != WaitingForPayment then Err(BadRequest)
    else Ok
  }

  /** How many decrements succeed when the store fails at operation `fault` (any number past the last: never). */
  function Reached(products: map<Id, Product>, items: seq<Item>, fault: nat): (n: nat)
    ensures n <= |items|
    ensures n == |items| ==> fault >= n
  {
    if items == [] then 0
    else
      var m := |items| - 1;
      var n := Reached(products, items[..m], fault);
      if n < m || fault == m || items[m].productId !in products then n else n + 1
  }

  /** The products after the decrements for these items. */
  function Deducted(products: map<Id, Product>, items: seq<Item>): map<Id, Product> {
    map p | p in products :: products[p].(stock := products[p].stock - QuantityOf(items, p))
  }

  /** `paymentReceived`: no transaction, so decrements made before a failure stay. */
  function Pay(db: Db, o: Id, user: Id, fault: nat): (Db, Outcome) {
    var check := PayCheck(db, o, user);
    if check != Ok then (db, check)
    else
      var items := db.orders[o].items;
      var n := Reached(db.products, items, fault);
      var after := db.(products := Deducted(db.products, items[..n]));
      if n < |items| || fault == |items| then (after, Err(StoreError))
      else (after.(orders := db.orders[o := db.orders[o].(status := Paid)]), Ok)
  }

  // ----- consumers and completion -----

  function Process(db: Db, o: Id, paymentId: Id): Db {
    if o !in db.orders then db
    else db.(orders := db.orders[o := db.orders[o].(status := WaitingForPayment, paymentId := Some(paymentId))])
  }

  function EnqueueCheck(db: Db, o: Id, user: Id, tx: string): Outcome {
    if Trim(tx) == "" then Err(BadRequest)
    else if o !in db.orders then Err(NotFound)
    else if db.orders[o].userId != user then Err(Forbidden)
    else Ok
  }

  function Enqueue(db: Db, o: Id, user: Id, tx: string): Db {
    if EnqueueCheck(db, o, user, tx) != Ok then db else db.(completions := db.completions + {(o, tx)})
  }

  function Finish(db: Db, o: Id, tx: string): Db {
    if o !in db.orders then db
    else db.(orders := db.orders[o := db.orders[o].(status := Complete, transactionId := Some(tx))])
  }

  // ----- the methods -----

  class Backend {
    var orders: map<Id, Order>
    var products: map<Id, Product>
    var published: set<Id>
    var completions: set<(Id, string)>

    constructor ()
      ensures Tables() == EMPTY
    {
      orders, products, published, completions := map[], map[], {}, {};
    }

    ghost function Tables(): Db
      reads this
    {
      Db(orders, products, published, completions)
    }

    method AddItemToOrder(orderId: Id, userId: Id, line: Line) returns (r: Outcome)
      modifies this
      ensures r == AddCheck(old(Tables()), orderId, userId, line)
      ensures Tables() == AddItem(old(Tables()), orderId, userId, line)
    {
      if orderId !in orders { return Err(NotFound); }
      var order := orders[orderId];
      if order.userId != userId { return Err(Forbidden); }
      if order.status != Pending { return Err(BadRequest); }
      if line.productId !in products { return Err(NotFound); }
      var product := products[line.productId];
      if product.stock < line.quantity { return Err(BadRequest); }

      var existing := FindItem(order.items, line.productId);
      var items;
      if existing.Some? {
        var item := order.items[existing.value];
        items := order.items[existing.value := item.(quantity := item.quantity + line.quantity)];
      } else {
        items := order.items + [Item(line.productId, line.quantity, product.price)];
      }
      orders := orders[orderId := order.(items := items)];
      RecalculateOrderTotal(orderId);
      r := Ok;
    }

    /** The reduction of `recalculateOrderTotal`, as a loop over the items. */
    method RecalculateOrderTotal(orderId: Id)
      requires orderId in orders
      modifies this`orders
      ensures orders == old(orders)[orderId := old(orders)[orderId].(total := Total(old(orders)[orderId].items))]
    {
      var items := orders[orderId].items;
      var total, i := 0, 0;
      while i < |items|
        invariant 0 <= i <= |items|
        invariant total == Total(items[..i])
      {
        assert items[..i + 1][..i] == items[..i];
        total := total + items[i].price * items[i].quantity;
        i := i + 1;
      }
      assert items[..i] == items;
      orders := orders[orderId := orders[orderId].(total := total)];
    }

    /** `POST :tenantCode/create`; `id` is the identifier the store generates. */
    method Create(id: Id, userId: Id, lines: seq<Line>) returns (r: Outcome)
      modifies this
      ensures (Tables(), r) == CreateOrder(old(Tables()), id, userId, lines)
    {
      if |lines| == 0 { return Err(BadRequest); }
      orders := orders[id := Order(userId, Pending, 0, [], None, None)];
      ghost var started := Tables();
      var i := 0;
      while i < |lines|
        invariant 0 <= i <= |lines|
        invariant AddItems(started, id, userId, lines[..i]) == (Tables(), Ok)
      {
        assert lines[..i + 1][..i] == lines[..i];
        r := AddItemToOrder(id, userId, lines[i]);
        i := i + 1;
        if r != Ok {
          AddItemsStops(started, id, userId, lines, i);
          return;
        }
      }
      assert lines[..i] == lines;
      published := published + {id};
      r := Ok;
    }

    method CheckoutOrder(orderId: Id, userId: Id) returns (r: Outcome)
      modifies this
      ensures r == CheckoutCheck(old(Tables()), orderId, userId)
      ensures Tables() == Checkout(old(Tables()), orderId, userId)
    {
      if orderId !in orders { return Err(NotFound); }
      var order := orders[orderId];
      if order.userId != userId { return Err(Forbidden); }
      if order.status != Pending { return Err(BadRequest); }
      if |order.items| == 0 { return Err(BadRequest); }
      var i := 0;
      while i < |order.items|
        invariant 0 <= i <= |order.items|
        invariant StockCheck(products, order.items[..i]) == Ok
      {
        var item := order.items[i];
        assert order.items[..i + 1][..i] == order.items[..i];
        i := i + 1;
        if item.productId !in products {
          StockCheckStops(products, order.items, i);
          return Err(NotFound);
        }
        if products[item.productId].stock < item.quantity {
          StockCheckStops(products, order.items, i);
          return Err(BadRequest);
        }
      }
      assert order.items[..i] == order.items;
      orders := orders[orderId := order.(status := WaitingForPayment)];
      r := Ok;
    }

    /**
     `paymentReceived`. When it runs to its end, every product drops by exactly the order's quantity of it; when
     the store fails, by the quantity of the items before the failure.
     */
    method PaymentReceived(orderId: Id, userId: Id, fault: nat) returns (r: Outcome)
      modifies this
      ensures (Tables(), r) == Pay(old(Tables()), orderId, userId, fault)
      ensures r == Ok ==> orderId in old(orders) && forall p :: p in old(products) ==>
                p in products && products[p].stock == old(products[p].stock) - QuantityOf(old(orders)[orderId].items, p)
    {
      if orderId !in orders { return Err(NotFound); }
      var order := orders[orderId];
      if order.userId != userId { return Err(Forbidden); }
      if order.status != WaitingForPayment { return Err(BadRequest); }
      var items := order.items;
      ghost var before := products;
      assert Deducted(before, items[..0]) == before;
      var i := 0;
      while i < |items|
        invariant 0 <= i <= |items|
        invariant Reached(before, items[..i], fault) == i
        invariant products == Deducted(before, items[..i])
        invariant orders == old(orders) && published == old(published) && completions == old(completions)
      {
        var item := items[i];
        assert items[..i + 1][..i] == items[..i];
        if fault == i || item.productId !in products {
          assert Reached(before, items[..i + 1], fault) == i;
          ReachedStops(before, items, fault, i + 1);
          return Err(StoreError);
        }
        var product := products[item.productId];
        products := products[item.productId := product.(stock := product.stock - item.quantity)];
        DeductedStep(before, items, i);
        i := i + 1;
      }
      assert items[..i] == items;
      if fault == |items| { return Err(StoreError); }
      orders := orders[orderId := order.(status := Paid)];
      r := Ok;
    }

    method HandleOrderProcessing(orderId: Id, paymentId: Id)
      modifies this`orders
      ensures Tables() == Process(old(Tables()), orderId, paymentId)
    {
      if orderId in orders {
        orders := orders[orderId := orders[orderId].(status := WaitingForPayment, paymentId := Some(paymentId))];
      }
    }

    method CompleteOrder(orderId: Id, userId: Id, transactionId: string) returns (r: Outcome)
      modifies this`completions
      ensures r == EnqueueCheck(old(Tables()), orderId, userId, transactionId)
      ensures Tables() == Enqueue(old(Tables()), orderId, userId, transactionId)
    {
      if Trim(transactionId) == "" { return Err(BadRequest); }
      if orderId !in orders { return Err(NotFound); }
      if orders[orderId].userId != userId { return Err(Forbidden); }
      completions := completions + {(orderId, transactionId)};
      r := Ok;
    }

    method HandleOrderCompleted(orderId: Id, transactionId: string)
      modifies this`orders
      ensures Tables() == Finish(old(Tables()), orderId, transactionId)
    {
      if orderId in orders {
        orders := orders[orderId := orders[orderId].(status := Complete, transactionId := Some(transactionId))];
      }
    }
  }

  lemma {:induction false} AddItemsStops(db: Db, o: Id, user: Id, lines: seq<Line>, i: nat)
    requires i <= |lines| && AddItems(db, o, user, lines[..i]).1 != Ok
    ensures AddItems(db, o, user, lines) == AddItems(db, o, user, lines[..i])
  {
    if i == |lines| {
      assert lines[..i] == lines;
    } else {
      var n := |lines| - 1;
      assert lines[..n][..i] == lines[..i];
      AddItemsStops(db, o, user, lines[..n], i);
    }
  }

  lemma {:induction false} StockCheckStops(products: map<Id, Product>, items: seq<Item>, i: nat)
    requires i <= |items| && StockCheck(products, items[..i]) != Ok
    ensures StockCheck(products, items) == StockCheck(products, items[..i])
  {
    if i == |items| {
      assert items[..i] == items;
    } else {
      var n := |items| - 1;
      assert items[..n][..i] == items[..i];
      StockCheckStops(products, items[..n], i);
    }
  }

  /** A checkout passes its stock check exactly when every item's product is there with enough of it. */
  lemma {:induction false} StockCheckIsAll(products: map<Id, Product>, items: seq<Item>)
    ensures StockCheck(products, items) == Ok <==>
            forall i :: 0 <= i < |items| ==>
              items[i].productId in products && products[items[i].productId].stock >= items[i].quantity
  {
    if items != [] {
      var n := |items| - 1;
      StockCheckIsAll(products, items[..n]);
      assert forall i :: 0 <= i < n ==> items[..n][i] == items[i];
    }
  }

  lemma {:induction false} ReachedStops(products: map<Id, Product>, items: seq<Item>, fault: nat, i: nat)
    requires i <= |items| && Reached(products, items[..i], fault) < i
    ensures Reached(products, items, fault) == Reached(products, items[..i], fault)
  {
    if i == |items| {
      assert items[..i] == items;
    } else {
      var n := |items| - 1;
      assert items[..n][..i] == items[..i];
      ReachedStops(products, items[..n], fault, i);
    }
  }

  lemma DeductedStep(products: map<Id, Product>, items: seq<Item>, i: nat)
    requires i < |items| && items[i].productId in products
    ensures var d, p := Deducted(products, items[..i]), items[i].productId;
            Deducted(products, items[..i + 1]) == d[p := d[p].(stock := d[p].stock - items[i].quantity)]
  {
    assert items[..i + 1][..i] == items[..i];
  }
}
