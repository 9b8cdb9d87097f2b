/**
 A RabbitMQ queue as the service uses it: persistent publish, delivery, `ack` after the handler's promise resolves,
 `nack` with requeue when it rejects, and the broker's requeueing of everything unacknowledged when a consumer dies.
 */
module Broker {

  /** `running` and `finished` together are in flight: delivered, not acknowledged. */
  datatype Queue<!M(==)> = Queue(queued: multiset<M>, running: multiset<M>, finished: multiset<M>, acked: multiset<M>)

  datatype Event<M> =
    | Publish(m: M)
    | Deliver(m: M)
    | Resolve(m: M)
    | Reject(m: M)
    | Ack(m: M)
    | Crash

  function Empty<M(==)>(): Queue<M> {
    Queue(multiset{}, multiset{}, multiset{}, multiset{})
  }

  /** An event that is not possible changes nothing. */
  function Apply<M(==)>(q: Queue<M>, e: Event<M>): Queue<M> {
    match e
    case Publish(m) => q.(queued := q.queued + multiset{m})
    case Deliver(m) =>
      if m in q.queued then q.(queued := q.queued - multiset{m}, running := q.running + multiset{m}) else q
    case Resolve(m) =>
      if m in q.running then q.(running := q.running - multiset{m}, finished := q.finished + multiset{m}) else q
    case Reject(m) =>
      if m in q.running then q.(running := q.running - multiset{m}, queued := q.queued + multiset{m}) else q
    case Ack(m) =>
      if m in q.finished then q.(finished := q.finished - multiset{m}, acked := q.acked + multiset{m}) else q
    case Crash =>
      q.(queued := q.queued + q.running + q.finished, running := multiset{}, finished := multiset{})
  }

  function Run<M(==)>(events: seq<Event<M>>): Queue<M> {
    if events == [] then Empty() else Apply(Run(events[..|events| - 1]), events[|events| - 1])
  }

  function Published<M(==)>(events: seq<Event<M>>): multiset<M> {
    if events == [] then multiset{}
    else
      var n := |events| - 1;
      Published(events[..n]) + if events[n].Publish? then multiset{events[n].m} else multiset{}
  }

  /** Handler runs that completed: the resolving events that found their message running. */
  function Completed<M(==)>(events: seq<Event<M>>): multiset<M> {
    if events == [] then multiset{}
    else
      var n := |events| - 1;
      Completed(events[..n]) +
      if events[n].Resolve? && events[n].m in Run(events[..n]).running then multiset{events[n].m} else multiset{}
  }

  function All<M(==)>(q: Queue<M>): multiset<M> {
    q.queued + (q.running + q.finished) + q.acked
  }

  lemma StepConserves<M(!new)>(q: Queue<M>, e: Event<M>)
    ensures All(Apply(q, e)) == All(q) + if e.Publish? then multiset{e.m} else multiset{}
  {
    forall x ensures All(Apply(q, e))[x] == All(q)[x] + if e.Publish? && e.m == x then 1 else 0 {
      StepConservesEach(q, e, x);
    }
  }

  lemma Counts<M>(q: Queue<M>, x: M)
    ensures All(q)[x] == q.queued[x] + q.running[x] + q.finished[x] + q.acked[x]
  {}

  lemma AddOne<M>(a: multiset<M>, m: M, x: M)
    ensures (a + multiset{m})[x] == a[x] + if x == m then 1 else 0
    ensures m in a ==> (a - multiset{m})[x] == a[x] - if x == m then 1 else 0
  {}

  lemma StepConservesEach<M>(q: Queue<M>, e: Event<M>, x: M)
    ensures All(Apply(q, e))[x] == All(q)[x] + if e.Publish? && e.m == x then 1 else 0
  {
    Counts(q, x);
    Counts(Apply(q, e), x);
    match e
    case Publish(m) => AddOne(q.queued, m, x);
    case Deliver(m) => AddOne(q.queued, m, x); AddOne(q.running, m, x);
    case Resolve(m) => AddOne(q.running, m, x); AddOne(q.finished, m, x);
    case Reject(m) => AddOne(q.running, m, x); AddOne(q.queued, m, x);
    case Ack(m) => AddOne(q.finished, m, x); AddOne(q.acked, m, x);
    case Crash =>
  }

  lemma StepCompletes<M>(q: Queue<M>, e: Event<M>)
    ensures var q' := Apply(q, e);
            q'.finished + q'.acked <=
            q.finished + q.acked + if e.Resolve? && e.m in q.running then multiset{e.m} else multiset{}
  {
  }

  /**
   In every run with handler failures and crashes, what was published is what is queued, in flight or acknowledged,
   and each acknowledgement has a completed handler run of its own.
   */
  lemma {:induction false} QueueConserves<M(!new)>(events: seq<Event<M>>)
    ensures var q := Run(events);
            && Published(events) == q.queued + (q.running + q.finished) + q.acked
            && q.acked <= q.finished + q.acked <= Completed(events)
  {
    if events != [] {
      var n := |events| - 1;
      QueueConserves(events[..n]);
      StepConserves(Run(events[..n]), events[n]);
      StepCompletes(Run(events[..n]), events[n]);
    }
  }

  /** The channel's side of it, on the queue's message counts. */
  class Channel<M(==)> {
    var queued: multiset<M>
    var running: multiset<M>
    var finished: multiset<M>
    var acked: multiset<M>

    constructor ()
      ensures State() == Empty()
    {
      queued, running, finished, acked := multiset{}, multiset{}, multiset{}, multiset{};
    }

    ghost function State(): Queue<M>
      reads this
    {
      Queue(queued, running, finished, acked)
    }

    method SendToQueue(m: M)
      modifies this`queued
      ensures State() == Apply(old(State()), Publish(m))
    {
      queued := queued + multiset{m};
    }

    method TakeDelivery(m: M)
      modifies this
      ensures State() == Apply(old(State()), Deliver(m))
    {
      if m in queued { queued, running := queued - multiset{m}, running + multiset{m}; }
    }

    /** The handler's promise settles: done, or given back at once with `nack`. */
    method Settle(m: M, ok: bool)
      modifies this
      ensures State() == Apply(old(State()), if ok then Resolve(m) else Reject(m))
    {
      if m in running {
        running := running - multiset{m};
        if ok { finished := finished + multiset{m}; } else { queued := queued + multiset{m}; }
      }
    }

    method Acknowledge(m: M)
      modifies this
      ensures State() == Apply(old(State()), Ack(m))
    {
      if m in finished { finished, acked := finished - multiset{m}, acked + multiset{m}; }
    }

    method ConsumerDies()
      modifies this
      ensures State() == Apply(old(State()), Crash)
    {
      queued, running, finished := queued + running + finished, multiset{}, multiset{};
    }

    /**
     The consumer callback for one delivery; `ok` says whether the handler's promise resolves. The net effect: the
     message is acknowledged and gone from the queue, or the queue is as before.
     */
    method Consume(m: M, ok: bool)
      requires m in queued
      modifies this
      ensures State() == if ok then Acked(old(State()), m) else old(State())
    {
      DeliveredIsRunning(State(), m);
      TakeDelivery(m);
      Settle(m, ok);
      if ok { Acknowledge(m); }
    }

    method Perform(e: Event<M>)
      modifies this
      ensures State() == Apply(old(State()), e)
    {
      match e {
        case Publish(m) => SendToQueue(m);
        case Deliver(m) => TakeDelivery(m);
        case Resolve(m) => Settle(m, true);
        case Reject(m) => Settle(m, false);
        case Ack(m) => Acknowledge(m);
        case Crash => ConsumerDies();
      }
    }

    /** The channel under any sequence of events is the queue of that run. */
    method Replay(events: seq<Event<M>>)
      requires State() == Empty()
      modifies this
      ensures State() == Run(events)
    {
      var i := 0;
      while i < |events|
        invariant 0 <= i <= |events|
        invariant State() == Run(events[..i])
      {
        RunSnoc(events, i);
        Perform(events[i]);
        i := i + 1;
      }
      assert events[..i] == events;
    }
  }

  /** One message less in the queue and one more acknowledged. */
  function Acked<M(==)>(q: Queue<M>, m: M): Queue<M> {
    q.(queued := q.queued - multiset{m}, acked := q.acked + multiset{m})
  }

  lemma GiveAndTake<M>(a: multiset<M>, m: M)
    ensures (a + multiset{m}) - multiset{m} == a
    ensures m in a ==> (a - multiset{m}) + multiset{m} == a
  {}

  /** A delivery that is settled and, if need be, acknowledged touches nothing but its own message. */
  lemma DeliveredIsRunning<M>(q: Queue<M>, m: M)
    requires m in q.queued
    ensures Apply(Apply(Apply(q, Deliver(m)), Resolve(m)), Ack(m)) == Acked(q, m)
    ensures Apply(Apply(q, Deliver(m)), Reject(m)) == q
  {
    GiveAndTake(q.queued, m);
    GiveAndTake(q.running, m);
    GiveAndTake(q.finished, m);
    var q1 := Apply(q, Deliver(m));
    assert q1 == q.(queued := q.queued - multiset{m}, running := q.running + multiset{m});
    var q2 := Apply(q1, Resolve(m));
    assert q2 == q.(queued := q.queued - multiset{m}, finished := q.finished + multiset{m});
  }

  /** A publish queues its message, and when a consumer dies all that was in flight is queued again. */
  lemma NothingIsStuck<M>(q: Queue<M>, m: M)
    ensures m in Apply(q, Publish(m)).queued
    ensures var died := Apply(q, Crash);
            died.running == multiset{} == died.finished && died.queued == q.queued + q.running + q.finished
  {}

  lemma RunSnoc<M>(events: seq<Event<M>>, i: nat)
    requires i < |events|
    ensures Run(events[..i + 1]) == Apply(Run(events[..i]), events[i])
  {
    assert events[..i + 1][..i] == events[..i];
  }
}
