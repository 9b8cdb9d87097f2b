/**
 Where stock goes, over every interleaving of payment loops with admin writes: the log of stock writes explains each
 product's stock, and the payments explain the log.
 */
module StockLedger {
  import opened Wrappers
  import opened OrderModel
  import opened OrderProtocol

  // ----- the log explains the stock -----

  function StockAfter(log: seq<StockWrite>, p: Id): Option<int> {
    if log == [] then None
    else
      var n := |log| - 1;
      var before := StockAfter(log[..n], p);
      match log[n]
      case Stocked(q, stock) => if q == p then Some(stock) else before
      case Removed(q) => if q == p then None else before
      case Decrement(_, q, quantity) => if q == p && before.Some? then Some(before.value - quantity) else before
  }

  function StockOf(s: State, p: Id): Option<int> {
    if p in s.products then Some(s.products[p].stock) else None
  }

  lemma StockSnoc(log: seq<StockWrite>, w: StockWrite, p: Id)
    ensures StockAfter(log + [w], p) ==
            match w
            case Stocked(q, stock) => if q == p then Some(stock) else StockAfter(log, p)
            case Removed(q) => if q == p then None else StockAfter(log, p)
            case Decrement(_, q, quantity) =>
              if q == p && StockAfter(log, p).Some? then Some(StockAfter(log, p).value - quantity) else StockAfter(log, p)
  {
    assert (log + [w])[..|log|] == log;
  }

  lemma StockStepPayment(s: State, pay: Id, p: Id)
    requires StockOf(s, p) == StockAfter(s.log, p)
    ensures StockOf(AdvancePayment(s, pay), p) == StockAfter(AdvancePayment(s, pay).log, p)
  {
    if pay in s.payments && s.payments[pay].deducted < |s.payments[pay].items| {
      var item := s.payments[pay].items[s.payments[pay].deducted];
      StockSnoc(s.log, Decrement(pay, item.productId, item.quantity), p);
    }
  }

  ghost predicate LogExplains(s: State, p: Id) {
    StockOf(s, p) == StockAfter(s.log, p)
  }

  lemma StockPut(s: State, q: Id, price: int, stock: int, p: Id)
    requires LogExplains(s, p)
    ensures LogExplains(Put(s, q, price, stock), p)
  {
    StockSnoc(s.log, Stocked(q, stock), p);
  }

  lemma StockUpdate(s: State, q: Id, price: Option<int>, stock: Option<int>, p: Id)
    requires LogExplains(s, p)
    ensures LogExplains(Update(s, q, price, stock), p)
  {
    if stock.Some? { StockSnoc(s.log, Stocked(q, stock.value), p); } else { assert s.log + [] == s.log; }
  }

  lemma StockRemove(s: State, q: Id, p: Id)
    requires LogExplains(s, p)
    ensures LogExplains(Remove(s, q), p)
  {
    StockSnoc(s.log, Removed(q), p);
  }

  lemma StockStep(s: State, e: Event, p: Id)
    requires LogExplains(s, p)
    ensures LogExplains(Apply(s, e), p)
  {
    match e
    case StepPayment(pay) => StockStepPayment(s, pay, p);
    case PutProduct(q, price, stock) => StockPut(s, q, price, stock, p);
    case UpdateProduct(q, price, stock) => StockUpdate(s, q, price, stock, p);
    case RemoveProduct(q) => StockRemove(s, q, p);
    case _ => assert Apply(s, e).products == s.products && Apply(s, e).log == s.log;
  }

  /** The last admin write of the product's stock. */
  function LastWrite(log: seq<StockWrite>, p: Id): (r: Option<nat>)
    ensures r.Some? ==> r.value < |log|
  {
    if log == [] then None
    else
      var n := |log| - 1;
      if log[n] == Removed(p) || (log[n].Stocked? && log[n].productId == p) then Some(n) else LastWrite(log[..n], p)
  }

  /** Everything payments took from the product in this stretch of the log. */
  function Decremented(log: seq<StockWrite>, p: Id): int {
    if log == [] then 0
    else
      var n := |log| - 1;
      Decremented(log[..n], p) + if log[n].Decrement? && log[n].productId == p then log[n].quantity else 0
  }

  lemma {:induction false} LastWriteAndDecrements(log: seq<StockWrite>, p: Id)
    requires StockAfter(log, p).Some?
    ensures var i := LastWrite(log, p);
            i.Some? && log[i.value].Stocked? &&
            StockAfter(log, p).value == log[i.value].stock - Decremented(log[i.value + 1..], p)
  {
    var n := |log| - 1;
    if LastWrite(log, p) == Some(n) {
      assert log[n + 1..] == [];
    } else {
      LastWriteAndDecrements(log[..n], p);
      var i := LastWrite(log, p).value;
      assert log[i + 1..][..n - i - 1] == log[..n][i + 1..];
    }
  }

  lemma {:induction false} RunExplainsStock(events: seq<Event>, p: Id)
    ensures LogExplains(Run(events), p)
  {
    if events != [] {
      var n := |events| - 1;
      RunExplainsStock(events[..n], p);
      StockStep(Run(events[..n]), events[n], p);
    }
  }

  /** Stock is its value at the last admin write minus all decrements logged since. */
  ghost predicate IsLastWriteMinusDecrements(s: State, p: Id)
    requires p in s.products
  {
    var i := LastWrite(s.log, p);
    i.Some? && s.log[i.value].Stocked? &&
    s.products[p].stock == s.log[i.value].stock - Decremented(s.log[i.value + 1..], p)
  }

  lemma StockFromLog(s: State, p: Id)
    requires p in s.products && LogExplains(s, p)
    ensures IsLastWriteMinusDecrements(s, p)
  {
    LastWriteAndDecrements(s.log, p);
  }

  /** In every run, stock is its value at the last admin write minus all decrements executed since. */
  lemma StockIsLastWriteMinusDecrements(events: seq<Event>, p: Id)
    requires p in Run(events).products
    ensures IsLastWriteMinusDecrements(Run(events), p)
  {
    RunExplainsStock(events, p);
    StockFromLog(Run(events), p);
  }

  // ----- the payments explain the log -----

  /** What payment `pay` took from the product. */
  function TakenBy(log: seq<StockWrite>, pay: Id, p: Id): int {
    if log == [] then 0
    else
      var n := |log| - 1;
      TakenBy(log[..n], pay, p) +
      if log[n].Decrement? && log[n].payment == pay && log[n].productId == p then log[n].quantity else 0
  }

  /** The part of its order a payment has deducted so far. */
  function Share(payment: Payment, p: Id): int {
    if payment.deducted <= |payment.items| then QuantityOf(payment.items[..payment.deducted], p) else 0
  }

  function ShareOf(s: State, pay: Id, p: Id): int {
    if pay in s.payments then Share(s.payments[pay], p) else 0
  }

  /** Only payments touch payments; every other event logs at most an admin write. */
  lemma OtherEvents(s: State, e: Event)
    requires !e.StepPayment? && !e.FailPayment? && !e.BeginPayment?
    ensures var s' := Apply(s, e);
            && s'.payments == s.payments
            && (s'.log == s.log || (|s'.log| == |s.log| + 1 && s'.log[..|s.log|] == s.log && !s'.log[|s.log|].Decrement?))
  {
    var s' := Apply(s, e);
    match e
    case UpdateProduct(q, price, stock) => assert stock.None? ==> s'.log == s.log;
    case _ =>
  }

  lemma TakenSnoc(log: seq<StockWrite>, w: StockWrite, pay: Id, p: Id)
    ensures TakenBy(log + [w], pay, p) == TakenBy(log, pay, p) +
            if w.Decrement? && w.payment == pay && w.productId == p then w.quantity else 0
    ensures Decremented(log + [w], p) == Decremented(log, p) +
            if w.Decrement? && w.productId == p then w.quantity else 0
  {
    assert (log + [w])[..|log|] == log;
  }

  lemma ShareSnoc(payment: Payment, p: Id)
    requires payment.deducted < |payment.items|
    ensures var item := payment.items[payment.deducted];
            Share(payment.(deducted := payment.deducted + 1), p) ==
            Share(payment, p) + if item.productId == p then item.quantity else 0
  {
    var n := payment.deducted;
    assert payment.items[..n + 1][..n] == payment.items[..n];
  }

  /** What one turn of a payment does to its record and the log: it deducts the next item, or only changes its state. */
  ghost predicate Turn(pay: Id, before: Payment, after: Payment, log: seq<StockWrite>, log': seq<StockWrite>) {
    if before.deducted < after.deducted then
      && before.deducted < |before.items| && after == before.(deducted := before.deducted + 1)
      && var item := before.items[before.deducted];
         log' == log + [Decrement(pay, item.productId, item.quantity)]
    else
      after == before.(state := after.state) && log' == log
  }

  lemma AdvanceIsTurn(s: State, pay: Id)
    requires pay in s.payments
    ensures var s' := AdvancePayment(s, pay);
            && pay in s'.payments && s'.payments == s.payments[pay := s'.payments[pay]]
            && Turn(pay, s.payments[pay], s'.payments[pay], s.log, s'.log)
  {
    if AdvancePayment(s, pay) == s {
      assert s.payments == s.payments[pay := s.payments[pay]];
    }
  }

  lemma TurnAccounts(q: Id, before: Payment, after: Payment, log: seq<StockWrite>, log': seq<StockWrite>, pay: Id, p: Id)
    requires Turn(q, before, after, log, log')
    ensures TakenBy(log', pay, p) - TakenBy(log, pay, p) == if pay == q then Share(after, p) - Share(before, p) else 0
    ensures Decremented(log', p) - Decremented(log, p) == Share(after, p) - Share(before, p)
  {
    if before.deducted < after.deducted {
      var item := before.items[before.deducted];
      TakenSnoc(log, Decrement(q, item.productId, item.quantity), pay, p);
      ShareSnoc(before, p);
    }
  }

  lemma ShareStepPayment(s: State, q: Id, pay: Id, p: Id)
    requires TakenBy(s.log, pay, p) == ShareOf(s, pay, p)
    ensures TakenBy(AdvancePayment(s, q).log, pay, p) == ShareOf(AdvancePayment(s, q), pay, p)
  {
    if q in s.payments {
      var s' := AdvancePayment(s, q);
      AdvanceIsTurn(s, q);
      TurnAccounts(q, s.payments[q], s'.payments[q], s.log, s'.log, pay, p);
    }
  }

  lemma ShareStep(s: State, e: Event, pay: Id, p: Id)
    requires TakenBy(s.log, pay, p) == ShareOf(s, pay, p)
    ensures TakenBy(Apply(s, e).log, pay, p) == ShareOf(Apply(s, e), pay, p)
  {
    match e
    case StepPayment(q) => ShareStepPayment(s, q, pay, p);
    case FailPayment(q) =>
    case BeginPayment(q, o, user) =>
    case _ => OtherEvents(s, e);
  }

  lemma {:induction false} RunExplainsShares(events: seq<Event>, pay: Id, p: Id)
    ensures TakenBy(Run(events).log, pay, p) == ShareOf(Run(events), pay, p)
  {
    if events != [] {
      var n := |events| - 1;
      RunExplainsShares(events[..n], pay, p);
      ShareStep(Run(events[..n]), events[n], pay, p);
    }
  }

  /** A payment has taken exactly the items it got through, whatever ran beside it; one that finished, its whole order. */
  lemma PaymentsTakeTheirItems(events: seq<Event>, pay: Id, p: Id)
    requires pay in Run(events).payments
    ensures var s := Run(events); var payment := s.payments[pay];
            && payment.orderId in s.orders && payment.deducted <= |s.orders[payment.orderId].items|
            && TakenBy(s.log, pay, p) == QuantityOf(s.orders[payment.orderId].items[..payment.deducted], p)
            && (payment.state == Finished ==> TakenBy(s.log, pay, p) == QuantityOf(s.orders[payment.orderId].items, p))
  {
    RunsKeep(events);
    RunExplainsShares(events, pay, p);
    var s := Run(events);
    var payment := s.payments[pay];
    assert PaymentOk(s, payment);
    assert payment.items[..|payment.items|] == payment.items;
  }

  // ----- conservation over all payments -----

  ghost function SumOver(keys: set<Id>, payments: map<Id, Payment>, p: Id): int
    requires keys <= payments.Keys
  {
    if exists pay :: pay in keys then
      var pay :| pay in keys;
      Share(payments[pay], p) + SumOver(keys - {pay}, payments, p)
    else 0
  }

  ghost function SumShares(payments: map<Id, Payment>, p: Id): int {
    SumOver(payments.Keys, payments, p)
  }

  lemma {:induction false} SumAt(keys: set<Id>, payments: map<Id, Payment>, pay: Id, p: Id)
    requires pay in keys && keys <= payments.Keys
    ensures SumOver(keys, payments, p) == Share(payments[pay], p) + SumOver(keys - {pay}, payments, p)
  {
    var q :| q in keys && SumOver(keys, payments, p) == Share(payments[q], p) + SumOver(keys - {q}, payments, p);
    if q != pay {
      SumAt(keys - {q}, payments, pay, p);
      SumAt(keys - {pay}, payments, q, p);
      assert keys - {q} - {pay} == keys - {pay} - {q};
    }
  }

  lemma {:induction false} SumSame(keys: set<Id>, m: map<Id, Payment>, m': map<Id, Payment>, p: Id)
    requires keys <= m.Keys && keys <= m'.Keys && forall k :: k in keys ==> m[k] == m'[k]
    ensures SumOver(keys, m, p) == SumOver(keys, m', p)
  {
    if k :| k in keys {
      SumAt(keys, m, k, p);
      SumAt(keys, m', k, p);
      SumSame(keys - {k}, m, m', p);
    }
  }

  lemma SumSharesUpdate(payments: map<Id, Payment>, pay: Id, payment: Payment, p: Id)
    ensures SumShares(payments[pay := payment], p) ==
            SumShares(payments, p) - (if pay in payments then Share(payments[pay], p) else 0) + Share(payment, p)
  {
    var payments' := payments[pay := payment];
    var rest := payments.Keys - {pay};
    SumAt(payments'.Keys, payments', pay, p);
    assert payments'.Keys - {pay} == rest;
    SumSame(rest, payments, payments', p);
    if pay in payments {
      SumAt(payments.Keys, payments, pay, p);
    } else {
      assert rest == payments.Keys;
    }
  }

  lemma TotalStepPayment(s: State, pay: Id, p: Id)
    requires Decremented(s.log, p) == SumShares(s.payments, p)
    ensures Decremented(AdvancePayment(s, pay).log, p) == SumShares(AdvancePayment(s, pay).payments, p)
  {
    if pay in s.payments {
      var s' := AdvancePayment(s, pay);
      AdvanceIsTurn(s, pay);
      TurnAccounts(pay, s.payments[pay], s'.payments[pay], s.log, s'.log, pay, p);
      SumSharesUpdate(s.payments, pay, s'.payments[pay], p);
    }
  }

  lemma TotalStep(s: State, e: Event, p: Id)
    requires Decremented(s.log, p) == SumShares(s.payments, p)
    ensures Decremented(Apply(s, e).log, p) == SumShares(Apply(s, e).payments, p)
  {
    match e
    case StepPayment(q) => TotalStepPayment(s, q, p);
    case FailPayment(q) => TotalStop(s, q, p);
    case BeginPayment(q, o, user) => TotalStart(s, q, o, user, p);
    case _ => OtherEvents(s, e);
  }

  lemma TotalStop(s: State, pay: Id, p: Id)
    ensures SumShares(StopPayment(s, pay).payments, p) == SumShares(s.payments, p)
  {
    if pay in s.payments {
      SumSharesUpdate(s.payments, pay, s.payments[pay].(state := Stopped), p);
    }
  }

  lemma TotalStart(s: State, pay: Id, o: Id, user: Id, p: Id)
    ensures SumShares(StartPayment(s, pay, o, user).payments, p) == SumShares(s.payments, p)
  {
    if pay !in s.payments && o in s.orders {
      SumSharesUpdate(s.payments, pay, Payment(o, s.orders[o].items, 0, Running), p);
    }
  }

  /** Nothing is taken from a product but by payments, and each accounts for what it took. */
  lemma {:induction false} DecrementsAreThePayments(events: seq<Event>, p: Id)
    ensures Decremented(Run(events).log, p) == SumShares(Run(events).payments, p)
  {
    if events != [] {
      var n := |events| - 1;
      DecrementsAreThePayments(events[..n], p);
      TotalStep(Run(events[..n]), events[n], p);
    }
  }

  // ----- exactly when an order's stock is deducted at most once -----

  /** In every interleaving, a payment has taken item `k` of its order wholly if it got past it, and not at all otherwise. */
  lemma PaymentTakesItemsWhole(events: seq<Event>, pay: Id, k: nat)
    requires pay in Run(events).payments
    requires var s := Run(events); var o := s.payments[pay].orderId; o in s.orders && k < |s.orders[o].items|
    ensures var s := Run(events); var payment := s.payments[pay]; var item := s.orders[payment.orderId].items[k];
            TakenBy(s.log, pay, item.productId) == if k < payment.deducted then item.quantity else 0
  {
    var s := Run(events);
    var payment := s.payments[pay];
    var items := s.orders[payment.orderId].items;
    PaymentsTakeTheirItems(events, pay, items[k].productId);
    assert payment.orderId in s.published by {
      RunsKeep(events);
      assert PaymentOk(s, payment);
    }
    PublishedOrdersAreBuilt(events, payment.orderId);
    AllOrNone(items, payment.deducted, k);
  }

  /** What these payments took from the product together. */
  function TakenByAny(log: seq<StockWrite>, pays: set<Id>, p: Id): int {
    if log == [] then 0
    else
      var n := |log| - 1;
      TakenByAny(log[..n], pays, p) +
      if log[n].Decrement? && log[n].payment in pays && log[n].productId == p then log[n].quantity else 0
  }

  lemma {:induction false} TakenByNone(log: seq<StockWrite>, p: Id)
    ensures TakenByAny(log, {}, p) == 0
  {
    if log != [] { TakenByNone(log[..|log| - 1], p); }
  }

  lemma {:induction false} TakenByOneMore(log: seq<StockWrite>, pays: set<Id>, pay: Id, p: Id)
    requires pay in pays
    ensures TakenByAny(log, pays, p) == TakenByAny(log, pays - {pay}, p) + TakenBy(log, pay, p)
  {
    if log != [] { TakenByOneMore(log[..|log| - 1], pays, pay, p); }
  }

  /** The payments of an order. */
  function PaymentsOf(s: State, o: Id): set<Id> {
    set pay | pay in s.payments && s.payments[pay].orderId == o
  }

  /** Those of them that got past item `k`. */
  function Past(s: State, pays: set<Id>, k: nat): set<Id> {
    set pay | pay in pays && pay in s.payments && k < s.payments[pay].deducted
  }

  lemma {:induction false} TakenPerPass(events: seq<Event>, o: Id, pays: set<Id>, k: nat)
    requires var s := Run(events); o in s.orders && k < |s.orders[o].items| && pays <= PaymentsOf(s, o)
    ensures var s := Run(events); var item := s.orders[o].items[k];
            TakenByAny(s.log, pays, item.productId) == |Past(s, pays, k)| * item.quantity
    decreases pays
  {
    var s := Run(events);
    var item := s.orders[o].items[k];
    if |pays| == 0 {
      assert pays == {} && Past(s, {}, k) == {};
      TakenByNone(s.log, item.productId);
    } else {
      var pay := Pick(pays);
      var rest := pays - {pay};
      TakenPerPass(events, o, rest, k);
      TakenByOneMore(s.log, pays, pay, item.productId);
      PaymentTakesItemsWhole(events, pay, k);
      OneMorePast(s, pays, pay, k, item.quantity);
    }
  }

  lemma OneMorePast(s: State, pays: set<Id>, pay: Id, k: nat, q: int)
    requires pay in pays && pay in s.payments
    ensures |Past(s, pays, k)| * q ==
            |Past(s, pays - {pay}, k)| * q + if k < s.payments[pay].deducted then q else 0
  {
    var rest := Past(s, pays - {pay}, k);
    if k < s.payments[pay].deducted {
      assert Past(s, pays, k) == rest + {pay};
      assert (|rest| + 1) * q == |rest| * q + q;
    } else {
      assert Past(s, pays, k) == rest;
    }
  }

  /**
   In every interleaving of payments, finished, stopped or still running: an item's stock is deducted for the order at
   most once if and only if at most one payment of the order got past the item.
   */
  lemma AtMostOnceExactly(events: seq<Event>, o: Id, k: nat)
    requires var s := Run(events); o in s.orders && k < |s.orders[o].items| && s.orders[o].items[k].quantity >= 1
    ensures var s := Run(events); var item := s.orders[o].items[k];
            TakenByAny(s.log, PaymentsOf(s, o), item.productId) <= item.quantity <==> |Past(s, PaymentsOf(s, o), k)| <= 1
  {
    var s := Run(events);
    TakenPerPass(events, o, PaymentsOf(s, o), k);
    AtMostOne(|Past(s, PaymentsOf(s, o), k)|, s.orders[o].items[k].quantity);
  }
}
