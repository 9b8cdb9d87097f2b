/**
 Tenant provisioning end to end: users are created and removed, database-creation messages are delivered and
 redelivered, handlers fail, consumers crash. Handlers of different databases interleave; those of one database do not.
 */
module ProvisioningRuns {
  import opened Wrappers
  import opened Provisioning
  import Broker
  import Sorting

  type Id = int

  datatype User = User(tenantCode: Option<string>, isDatabaseCreated: bool)

  datatype Message = Message(userId: Id, tenantCode: string)

  /** A handler at work, the faults it meets, and whether its database was there when it began. */
  datatype Handler = Handler(m: Message, faults: Faults, flagFails: bool, existed: bool)

  /**
   `used` are the user identifiers ever issued: a removed user's is not issued again. `active` are the handlers at work,
   by the database they work on.
   */
  datatype State = State(users: map<Id, User>, used: set<Id>, databases: Databases, queue: Broker.Queue<Message>,
                         active: map<string, Handler>)

  /** What every run shares: the migration directories and the users-table test. */
  datatype Config = Config(dirs: seq<Dir>, skip: string -> bool)

  datatype Event =
    | CreateUser(id: Id, admin: bool, tenantCode: Option<string>, publishes: bool)
    | RemoveUser(id: Id)
    | Deliver(m: Message)
    | Begin(m: Message, faults: Faults, flagFails: bool)
    | Work(name: string, rows: Option<seq<Row>>)
    | End(name: string)
    | Ack(m: Message)
    | Crash

  const INITIAL := State(map[], {}, map[], Broker.Empty(), map[])

  // ----- creating users -----

  predicate Given(tenantCode: Option<string>) {
    tenantCode.Some? && tenantCode.value != ""
  }

  predicate CodeTaken(users: map<Id, User>, tenantCode: Option<string>) {
    exists u | u in users :: users[u].tenantCode == tenantCode
  }

  /** An administrator needs a tenant code, nobody else may have one, and it must not be in use. */
  predicate Accepted(s: State, id: Id, admin: bool, tenantCode: Option<string>) {
    id !in s.used && admin == Given(tenantCode) && !(Given(tenantCode) && CodeTaken(s.users, tenantCode))
  }

  function Create(s: State, id: Id, admin: bool, tenantCode: Option<string>, publishes: bool): State {
    if !Accepted(s, id, admin, tenantCode) then s
    else
      var user := User(if Given(tenantCode) then tenantCode else None, !admin);
      s.(users := s.users[id := user], used := s.used + {id},
         queue := if admin && publishes then Broker.Apply(s.queue, Broker.Publish(Message(id, tenantCode.value))) else s.queue)
  }

  // ----- the handler -----

  function SetFlag(users: map<Id, User>, id: Id): map<Id, User> {
    if id in users then users[id := users[id].(isDatabaseCreated := true)] else users
  }

  /** A handler starts on a delivered message, unless one is at work on the same database. */
  function Start(s: State, m: Message, f: Faults, flagFails: bool): State {
    var name := DatabaseName(m.tenantCode);
    if m !in s.queue.running || name in s.active then s
    else s.(active := s.active[name := Handler(m, f, flagFails, name in s.databases)])
  }

  /** The database is there but still in the hands of the handler that creates it. */
  predicate Building(s: State, name: string) {
    name in s.active && !s.active[name].existed
  }

  /** Until the handler ends, the database it creates may be in any state, or not there. */
  function Worked(s: State, name: string, rows: Option<seq<Row>>): State {
    if !Building(s, name) then s
    else s.(databases := if rows.Some? then s.databases[name := rows.value] else s.databases - {name})
  }

  /** What the handler makes of the databases, from those it found. */
  function Provisioned(s: State, c: Config, name: string): (Databases, Outcome)
    requires name in s.active
  {
    var found := if Building(s, name) then s.databases - {name} else s.databases;
    Provision(found, name, c.dirs, c.skip, s.active[name].faults)
  }

  /** `handleDatabaseCreation` resolves when the database part does and the user row can be updated. */
  predicate Resolves(s: State, c: Config, name: string)
    requires name in s.active
  {
    var h := s.active[name];
    Provisioned(s, c, name).1 == Ok && h.m in s.queue.running && h.m.userId in s.users && !h.flagFails
  }

  function Finish(s: State, c: Config, name: string): State {
    if name !in s.active then s
    else
      var h := s.active[name];
      var s' := s.(active := s.active - {name}, databases := Provisioned(s, c, name).0);
      if Resolves(s, c, name)
      then s'.(users := SetFlag(s.users, h.m.userId), queue := Broker.Apply(s.queue, Broker.Resolve(h.m)))
      else s'.(queue := Broker.Apply(s.queue, Broker.Reject(h.m)))
  }

  /** The process dies: its handlers stop where they are, and everything unacknowledged goes back to the queue. */
  function Die(s: State): State {
    s.(active := map[], queue := Broker.Apply(s.queue, Broker.Crash))
  }

  function Removed(s: State, id: Id): State {
    s.(users := s.users - {id})
  }

  function Moved(s: State, e: Broker.Event<Message>): State {
    s.(queue := Broker.Apply(s.queue, e))
  }

  function Apply(s: State, c: Config, e: Event): State {
    match e
    case CreateUser(id, admin, tenantCode, publishes) => Create(s, id, admin, tenantCode, publishes)
    case RemoveUser(id) => Removed(s, id)
    case Deliver(m) => Moved(s, Broker.Deliver(m))
    case Begin(m, f, flagFails) => Start(s, m, f, flagFails)
    case Work(name, rows) => Worked(s, name, rows)
    case End(name) => Finish(s, c, name)
    case Ack(m) => Moved(s, Broker.Ack(m))
    case Crash => Die(s)
  }

  function Run(c: Config, events: seq<Event>): State {
    if events == [] then INITIAL else Apply(Run(c, events[..|events| - 1]), c, events[|events| - 1])
  }

  // ----- the queue of a run is a broker queue -----

  function QueueEvent(s: State, c: Config, e: Event): Option<Broker.Event<Message>> {
    match e
    case CreateUser(id, admin, tenantCode, publishes) =>
      if Accepted(s, id, admin, tenantCode) && admin && publishes
      then Some(Broker.Publish(Message(id, tenantCode.value))) else None
    case RemoveUser(_) => None
    case Deliver(m) => Some(Broker.Deliver(m))
    case Begin(_, _, _) => None
    case Work(_, _) => None
    case End(name) =>
      if name !in s.active then None
      else if Resolves(s, c, name) then Some(Broker.Resolve(s.active[name].m)) else Some(Broker.Reject(s.active[name].m))
    case Ack(m) => Some(Broker.Ack(m))
    case Crash => Some(Broker.Crash)
  }

  function QueueEvents(c: Config, events: seq<Event>): seq<Broker.Event<Message>> {
    if events == [] then []
    else
      var n := |events| - 1;
      var e := QueueEvent(Run(c, events[..n]), c, events[n]);
      QueueEvents(c, events[..n]) + if e.Some? then [e.value] else []
  }

  lemma {:induction false} QueueIsBrokerRun(c: Config, events: seq<Event>)
    ensures Run(c, events).queue == Broker.Run(QueueEvents(c, events))
  {
    if events != [] {
      var n := |events| - 1;
      QueueIsBrokerRun(c, events[..n]);
      var s := Run(c, events[..n]);
      var e := QueueEvent(s, c, events[n]);
      QueueStep(s, c, events[n]);
      var qs := QueueEvents(c, events[..n]);
      if e.Some? {
        assert (qs + [e.value])[..|qs|] == qs;
      } else {
        assert qs + [] == qs;
      }
    }
  }

  lemma QueueStep(s: State, c: Config, e: Event)
    ensures Apply(s, c, e).queue ==
            var q := QueueEvent(s, c, e); if q.Some? then Broker.Apply(s.queue, q.value) else s.queue
  {
  }

  /** Database-creation messages are conserved, and none is acknowledged without a completed handler run. */
  lemma MessagesAreConserved(c: Config, events: seq<Event>)
    ensures var q, qs := Run(c, events).queue, QueueEvents(c, events);
            && Broker.Published(qs) == q.queued + (q.running + q.finished) + q.acked
            && q.acked <= Broker.Completed(qs)
  {
    QueueIsBrokerRun(c, events);
    Broker.QueueConserves(QueueEvents(c, events));
  }

  // ----- acknowledged messages and flags -----

  /** The message's user was issued, and if still there it has the message's tenant code. */
  ghost predicate Owned(s: State, m: Message) {
    m.userId in s.used && (m.userId in s.users ==> s.users[m.userId].tenantCode == Some(m.tenantCode))
  }

  ghost predicate Flagged(s: State, m: Message) {
    m.userId in s.users ==> s.users[m.userId].isDatabaseCreated
  }

  ghost predicate Inv(s: State) {
    && s.users.Keys <= s.used
    && (forall m :: m in s.queue.queued || m in s.queue.running ==> Owned(s, m))
    && (forall m :: m in s.queue.finished || m in s.queue.acked ==> Owned(s, m) && Flagged(s, m))
  }

  lemma CreateKeeps(s: State, id: Id, admin: bool, tenantCode: Option<string>, publishes: bool)
    requires Inv(s)
    ensures Inv(Create(s, id, admin, tenantCode, publishes))
  {
  }

  lemma FlagKeeps(s: State, id: Id, dbs: Databases)
    requires Inv(s)
    ensures Inv(s.(users := SetFlag(s.users, id), databases := dbs))
  {
    var s' := s.(users := SetFlag(s.users, id), databases := dbs);
    assert forall m :: Owned(s, m) ==> Owned(s', m);
    assert forall m :: Flagged(s, m) ==> Flagged(s', m);
  }

  lemma ResolveKeeps(s: State, m: Message)
    requires Inv(s) && m in s.queue.running && Flagged(s, m)
    ensures Inv(s.(queue := Broker.Apply(s.queue, Broker.Resolve(m))))
  {
    var s' := s.(queue := Broker.Apply(s.queue, Broker.Resolve(m)));
    assert forall x :: x in s'.queue.finished ==> x in s.queue.finished || x == m;
    assert forall x :: x in s'.queue.running ==> x in s.queue.running;
    assert forall x :: Owned(s, x) ==> Owned(s', x);
    assert forall x :: Flagged(s, x) ==> Flagged(s', x);
  }

  lemma FinishKeeps(s: State, c: Config, name: string)
    requires Inv(s)
    ensures Inv(Finish(s, c, name))
  {
    if name in s.active {
      var m, dbs := s.active[name].m, Provisioned(s, c, name).0;
      var s1 := s.(databases := dbs, active := s.active - {name});
      OutsideKeep(s, s1);
      if Resolves(s, c, name) {
        FlagKeeps(s1, m.userId, dbs);
        ResolveKeeps(s1.(users := SetFlag(s.users, m.userId)), m);
      } else {
        QueueMoveKeeps(s1, Broker.Reject(m));
      }
    }
  }

  /** Databases and handlers do not matter to the invariant. */
  lemma OutsideKeep(s: State, s': State)
    requires Inv(s) && s'.users == s.users && s'.used == s.used && s'.queue == s.queue
    ensures Inv(s')
  {
    assert forall m :: Owned(s, m) ==> Owned(s', m);
    assert forall m :: Flagged(s, m) ==> Flagged(s', m);
  }

  lemma QueueMoveKeeps(s: State, e: Broker.Event<Message>)
    requires Inv(s) && (e.Deliver? || e.Ack? || e.Reject? || e.Crash?)
    ensures Inv(Moved(s, e))
  {
    var q, s' := s.queue, s.(queue := Broker.Apply(s.queue, e));
    forall x ensures x in s'.queue.queued || x in s'.queue.running ==>
                       x in q.queued || x in q.running || x in q.finished {
      MoveSources(q, e, x);
    }
    forall x ensures x in s'.queue.finished || x in s'.queue.acked ==> x in q.finished || x in q.acked {
      MoveSources(q, e, x);
    }
    assert forall x :: Owned(s, x) ==> Owned(s', x);
    assert forall x :: Flagged(s, x) ==> Flagged(s', x);
  }

  lemma MoveSources(q: Broker.Queue<Message>, e: Broker.Event<Message>, x: Message)
    requires e.Deliver? || e.Ack? || e.Reject? || e.Crash?
    ensures var q' := Broker.Apply(q, e);
            && (x in q'.queued || x in q'.running ==> x in q.queued || x in q.running || x in q.finished)
            && (x in q'.finished || x in q'.acked ==> x in q.finished || x in q.acked)
  {
  }

  lemma ApplyKeeps(s: State, c: Config, e: Event)
    requires Inv(s)
    ensures Inv(Apply(s, c, e))
  {
    match e
    case CreateUser(id, admin, tenantCode, publishes) => CreateKeeps(s, id, admin, tenantCode, publishes);
    case RemoveUser(id) => RemoveKeeps(s, id);
    case Deliver(m) => QueueMoveKeeps(s, Broker.Deliver(m));
    case Begin(m, f, flagFails) => StartKeeps(s, m, f, flagFails);
    case Work(name, rows) => WorkKeeps(s, name, rows);
    case End(name) => FinishKeeps(s, c, name);
    case Ack(m) => QueueMoveKeeps(s, Broker.Ack(m));
    case Crash => DieKeeps(s);
  }

  lemma StartKeeps(s: State, m: Message, f: Faults, flagFails: bool)
    requires Inv(s)
    ensures Inv(Start(s, m, f, flagFails))
  {
    OutsideKeep(s, Start(s, m, f, flagFails));
  }

  lemma WorkKeeps(s: State, name: string, rows: Option<seq<Row>>)
    requires Inv(s)
    ensures Inv(Worked(s, name, rows))
  {
    OutsideKeep(s, Worked(s, name, rows));
  }

  lemma RemoveKeeps(s: State, id: Id)
    requires Inv(s)
    ensures Inv(Removed(s, id))
  {
    var s' := s.(users := s.users - {id});
    assert forall m :: Owned(s, m) ==> Owned(s', m);
    assert forall m :: Flagged(s, m) ==> Flagged(s', m);
  }

  lemma DieKeeps(s: State)
    requires Inv(s)
    ensures Inv(Die(s))
  {
    OutsideKeep(s, s.(active := map[]));
    QueueMoveKeeps(s.(active := map[]), Broker.Crash);
  }

  lemma {:induction false} RunsKeep(c: Config, events: seq<Event>)
    ensures Inv(Run(c, events))
  {
    if events != [] {
      RunsKeep(c, events[..|events| - 1]);
      ApplyKeeps(Run(c, events[..|events| - 1]), c, events[|events| - 1]);
    }
  }

  /** In every run, crashes included: the user of an acknowledged message is flagged for as long as it exists. */
  lemma AcknowledgedMeansFlagged(c: Config, events: seq<Event>, m: Message)
    requires m in Run(c, events).queue.acked
    ensures var users := Run(c, events).users;
            m.userId in users ==> users[m.userId].isDatabaseCreated && users[m.userId].tenantCode == Some(m.tenantCode)
  {
    RunsKeep(c, events);
  }

  // ----- flags and databases -----

  /** No crash while a handler is at work, and no handler that creates a database meets a harmful fault. */
  predicate SafeAt(s: State, c: Config, e: Event) {
    && (e.Crash? ==> s.active == map[])
    && (e.End? && Building(s, e.name) ==> !Harmful(s.active[e.name].faults, c.dirs, c.skip))
  }

  predicate SafeRun(c: Config, events: seq<Event>) {
    forall i :: 0 <= i < |events| ==> SafeAt(Run(c, events[..i]), c, events[i])
  }

  /** Rollbacks that work, connections that close and errors that do not claim "already exists" are enough. */
  lemma UsualConditionsSuffice(c: Config, f: Faults)
    requires !f.disconnect && !f.drop && !f.saysExists
    ensures !Harmful(f, c.dirs, c.skip)
  {
  }

  predicate IsComplete(s: State, c: Config, name: string) {
    name in s.databases && s.databases[name] == Complete(Sorting.Sort(c.dirs, NameLeq))
  }

  /** Every database out of a creating handler's hands is complete, and so is that of every flagged user, at all times. */
  ghost predicate Sound(s: State, c: Config) {
    && (forall d :: d in s.databases && !Building(s, d) ==> IsComplete(s, c, d))
    && (forall d :: d in s.active && s.active[d].existed ==> d in s.databases)
    && (forall u :: u in s.users && s.users[u].isDatabaseCreated && s.users[u].tenantCode.Some? ==>
          var d := DatabaseName(s.users[u].tenantCode.value); d in s.databases && !Building(s, d))
  }

  /** `Provision` looks at and changes its own database only. */
  lemma ProvisionIsLocal(dbs: Databases, name: string, c: Config, f: Faults)
    requires name !in dbs
    ensures var (dbs', r) := Provision(dbs, name, c.dirs, c.skip, f);
            var (alone, r') := Provision(map[], name, c.dirs, c.skip, f);
            && r == r' && (name in dbs' <==> name in alone) && (name in alone ==> dbs'[name] == alone[name])
            && dbs' - {name} == dbs
  {
  }

  /** What a safe handler that creates its database leaves: a complete one or none, and success only with one. */
  lemma CreatesSafely(dbs: Databases, name: string, c: Config, f: Faults)
    requires name !in dbs && Distinct(c.dirs) && !Harmful(f, c.dirs, c.skip)
    ensures var (dbs', r) := Provision(dbs, name, c.dirs, c.skip, f);
            && dbs' - {name} == dbs && (r == Ok ==> name in dbs')
            && (name in dbs' ==> dbs'[name] == Complete(Sorting.Sort(c.dirs, NameLeq)))
  {
    ProvisionIsLocal(dbs, name, c, f);
    HandlerIsSafeExactly(map[], name, c.dirs, c.skip, f);
  }

  /** Ending leaves other databases and handlers alone, and its own database complete or not there. */
  lemma FinishIsLocal(s: State, c: Config, name: string)
    requires Sound(s, c) && SafeAt(s, c, End(name)) && Distinct(c.dirs) && name in s.active
    ensures var s' := Finish(s, c, name);
            && s'.databases - {name} == s.databases - {name} && s'.active == s.active - {name}
            && (name in s'.databases ==> IsComplete(s', c, name))
            && (Provisioned(s, c, name).1 == Ok || !Building(s, name) ==> name in s'.databases)
  {
    if Building(s, name) {
      CreatesSafely(s.databases - {name}, name, c, s.active[name].faults);
    } else {
      assert Provisioned(s, c, name).0 == s.databases;
      assert IsComplete(s, c, name);
    }
  }

  lemma SoundElsewhere(s: State, s': State, c: Config, name: string)
    requires Sound(s, c) && s'.databases - {name} == s.databases - {name} && s'.active == s.active - {name}
    requires name in s'.databases ==> IsComplete(s', c, name)
    requires forall u :: u in s'.users && s'.users[u].isDatabaseCreated && s'.users[u].tenantCode.Some? ==>
               (u in s.users && s.users[u] == s'.users[u] && DatabaseName(s'.users[u].tenantCode.value) != name)
               || (DatabaseName(s'.users[u].tenantCode.value) == name && name in s'.databases)
    ensures Sound(s', c)
  {
    assert forall d :: d != name ==> (Building(s', d) <==> Building(s, d));
    forall d | d != name ensures (d in s'.databases <==> d in s.databases) && (d in s.databases ==> s'.databases[d] == s.databases[d]) {
      assert d in s'.databases <==> d in s'.databases - {name};
      assert d in s.databases <==> d in s.databases - {name};
      assert d in s.databases ==> (s'.databases - {name})[d] == (s.databases - {name})[d];
    }
  }

  lemma FinishSound(s: State, c: Config, name: string)
    requires Inv(s) && Sound(s, c) && SafeAt(s, c, End(name)) && Distinct(c.dirs) && name in s.active
    requires s.active[name].m in s.queue.running ==> name == DatabaseName(s.active[name].m.tenantCode)
    ensures Sound(Finish(s, c, name), c)
  {
    var s', m := Finish(s, c, name), s.active[name].m;
    FinishIsLocal(s, c, name);
    assert m in s.queue.running ==> Owned(s, m);
    SoundElsewhere(s, s', c, name);
  }

  /** Handlers are filed under the database of their message. */
  predicate WellFiled(s: State) {
    forall name :: name in s.active ==> name == DatabaseName(s.active[name].m.tenantCode)
  }

  lemma {:induction false} AlwaysWellFiled(c: Config, events: seq<Event>)
    ensures WellFiled(Run(c, events))
  {
    if events != [] { AlwaysWellFiled(c, events[..|events| - 1]); }
  }

  lemma SafeStep(s: State, c: Config, e: Event)
    requires Inv(s) && Sound(s, c) && SafeAt(s, c, e) && Distinct(c.dirs) && WellFiled(s)
    ensures Sound(Apply(s, c, e), c)
  {
    match e
    case End(name) => if name in s.active { FinishSound(s, c, name); }
    case Begin(m, f, flagFails) => StartSound(s, c, m, f, flagFails);
    case Work(name, rows) => WorkSound(s, c, name, rows);
    case _ =>
  }

  lemma StartSound(s: State, c: Config, m: Message, f: Faults, flagFails: bool)
    requires Sound(s, c)
    ensures Sound(Start(s, m, f, flagFails), c)
  {
    var s', name := Start(s, m, f, flagFails), DatabaseName(m.tenantCode);
    assert forall d :: d != name ==> (Building(s', d) <==> Building(s, d));
  }

  lemma WorkSound(s: State, c: Config, name: string, rows: Option<seq<Row>>)
    requires Sound(s, c)
    ensures Sound(Worked(s, name, rows), c)
  {
    var s' := Worked(s, name, rows);
    assert forall d :: Building(s', d) <==> Building(s, d);
  }

  /**
   In every run without a harmful fault to a creating handler and without a crash inside one, under any interleaving of
   handlers of different databases and any pattern of failures and requeues: each tenant database that no handler is
   creating is complete, and a flagged user with a tenant code has a complete one at every moment.
   */
  lemma {:induction false} FlaggedUsersHaveDatabases(c: Config, events: seq<Event>)
    requires SafeRun(c, events) && Distinct(c.dirs)
    ensures Sound(Run(c, events), c)
  {
    if events != [] {
      var n := |events| - 1;
      assert forall i :: 0 <= i < n ==> events[..n][..i] == events[..i];
      FlaggedUsersHaveDatabases(c, events[..n]);
      RunsKeep(c, events[..n]);
      AlwaysWellFiled(c, events[..n]);
      SafeStep(Run(c, events[..n]), c, events[n]);
    }
  }

  // ----- what a clean delivery achieves -----

  lemma RunLast(c: Config, before: seq<Event>, e: Event)
    ensures Run(c, before + [e]) == Apply(Run(c, before), c, e)
  {
    assert (before + [e])[..|before|] == before;
  }

  /** One delivery of a message, handled from beginning to end with nothing in between. */
  function Handling(m: Message, f: Faults): seq<Event> {
    [Deliver(m), Begin(m, f, false), End(DatabaseName(m.tenantCode))]
  }

  function Handled(s: State, c: Config, m: Message, f: Faults): State {
    Apply(Apply(Apply(s, c, Deliver(m)), c, Begin(m, f, false)), c, End(DatabaseName(m.tenantCode)))
  }

  lemma RunHandling(c: Config, before: seq<Event>, m: Message, f: Faults)
    ensures Run(c, before + Handling(m, f)) == Handled(Run(c, before), c, m, f)
  {
    var a, b, d := Deliver(m), Begin(m, f, false), End(DatabaseName(m.tenantCode));
    RunLast(c, before, a);
    RunLast(c, before + [a], b);
    RunLast(c, before + [a] + [b], d);
    assert before + Handling(m, f) == before + [a] + [b] + [d];
  }

  /** A handled delivery, in terms of what `Provision` says of the databases. */
  lemma HandledIsProvision(s: State, c: Config, m: Message, f: Faults)
    requires m in s.queue.queued && m.userId in s.users && DatabaseName(m.tenantCode) !in s.active
    ensures var (dbs, r) := Provision(s.databases, DatabaseName(m.tenantCode), c.dirs, c.skip, f);
            var s' := Handled(s, c, m, f);
            && s'.databases == dbs && s'.active == s.active
            && s'.users == (if r == Ok then SetFlag(s.users, m.userId) else s.users)
            && (r == Ok ==> m in s'.queue.finished) && (r != Ok ==> m in s'.queue.queued)
  {
    var name := DatabaseName(m.tenantCode);
    var s1 := Apply(s, c, Deliver(m));
    assert m in s1.queue.running;
    var s2 := Apply(s1, c, Begin(m, f, false));
    assert s2.active == s.active[name := Handler(m, f, false, name in s.databases)];
    assert name !in s.databases ==> s.databases - {name} == s.databases;
    assert s2.active - {name} == s.active;
  }

  /** A new administrator is accepted exactly with a tenant code of its own, is not flagged yet, and its message is queued. */
  lemma NewAdminsAreQueued(s: State, c: Config, id: Id, code: string)
    requires id !in s.used && code != ""
    ensures var s' := Apply(s, c, CreateUser(id, true, Some(code), true));
            && (forall u :: u in s.users && s.users[u].tenantCode == Some(code) ==> s' == s)
            && ((forall u :: u in s.users ==> s.users[u].tenantCode != Some(code)) ==> s' == Admitted(s, id, code))
  {
    assert Given(Some(code));
    forall u | u in s.users && s.users[u].tenantCode == Some(code)
      ensures Apply(s, c, CreateUser(id, true, Some(code), true)) == s
    {
      assert CodeTaken(s.users, Some(code));
    }
  }

  /** With a new administrator who is not flagged yet, and whose message is queued. */
  function Admitted(s: State, id: Id, code: string): State {
    s.(users := s.users[id := User(Some(code), false)], used := s.used + {id},
       queue := s.queue.(queued := s.queue.queued + multiset{Message(id, code)}))
  }

  /** Anybody else needs no database: the user is flagged from the start and no message is sent. */
  lemma OthersAreFlaggedAtOnce(s: State, c: Config, id: Id, publishes: bool)
    requires id !in s.used
    ensures Apply(s, c, CreateUser(id, false, None, publishes))
         == s.(users := s.users[id := User(None, true)], used := s.used + {id})
  {}

  /** A tenant code is demanded of administrators and refused to everybody else. */
  lemma CodesAreForAdmins(s: State, c: Config, id: Id, code: string, publishes: bool)
    ensures code != "" ==> Apply(s, c, CreateUser(id, false, Some(code), publishes)) == s
    ensures Apply(s, c, CreateUser(id, true, None, publishes)) == s && Apply(s, c, CreateUser(id, true, Some(""), publishes)) == s
  {}

  predicate Clean(f: Faults, c: Config) {
    !f.create && !f.disconnect && CleanFill(f, c.dirs, c.skip)
  }

  /** From any state: a delivery that meets no fault leaves its user flagged and a database that was missing complete. */
  lemma CleanDeliveryProvisions(s: State, c: Config, m: Message, f: Faults)
    requires m in s.queue.queued && m.userId in s.users && DatabaseName(m.tenantCode) !in s.active
    requires Clean(f, c) && Distinct(c.dirs)
    ensures var s', name := Handled(s, c, m, f), DatabaseName(m.tenantCode);
            && m.userId in s'.users && s'.users[m.userId].isDatabaseCreated && m in s'.queue.finished
            && s'.databases == (if name in s.databases then s.databases
                                else s.databases[name := Complete(Sorting.Sort(c.dirs, NameLeq))])
  {
    HandledIsProvision(s, c, m, f);
    ProvisionExactly(s.databases, DatabaseName(m.tenantCode), c.dirs, c.skip, f);
  }

  /** A delivery whose handler reports failure flags nobody and is queued again. */
  lemma FailedDeliveryIsRetried(s: State, c: Config, m: Message, f: Faults)
    requires m in s.queue.queued && m.userId in s.users && DatabaseName(m.tenantCode) !in s.active
    requires Distinct(c.dirs) && !f.saysExists
    requires f.create || f.disconnect || (DatabaseName(m.tenantCode) !in s.databases && !CleanFill(f, c.dirs, c.skip))
    ensures var s' := Handled(s, c, m, f); s'.users == s.users && m in s'.queue.queued
  {
    HandledIsProvision(s, c, m, f);
    ProvisionExactly(s.databases, DatabaseName(m.tenantCode), c.dirs, c.skip, f);
  }

  /** Flagged under its code, acknowledged, with its database in place: complete if it was missing. */
  ghost predicate Served(s: State, s': State, c: Config, id: Id, code: string) {
    && id in s'.users && s'.users[id] == User(Some(code), true) && Message(id, code) in s'.queue.acked
    && DatabaseName(code) in s'.databases
    && (DatabaseName(code) !in s.databases ==> IsComplete(s', c, DatabaseName(code)))
  }

  lemma AdmittedIsServed(s: State, c: Config, id: Id, code: string, f: Faults)
    requires DatabaseName(code) !in s.active && Clean(f, c) && Distinct(c.dirs)
    ensures var m := Message(id, code);
            Served(s, Apply(Handled(Admitted(s, id, code), c, m, f), c, Ack(m)), c, id, code)
  {
    var m, s1 := Message(id, code), Admitted(s, id, code);
    assert m in s1.queue.queued && s1.users[id] == User(Some(code), false);
    HandledIsProvision(s1, c, m, f);
    CleanDeliveryProvisions(s1, c, m, f);
  }

  /**
   In every run in which its tenant code is free and nobody works on its database: a new administrator whose message is
   delivered once without a fault and acknowledged ends flagged, with its database in place, complete if it was missing.
   */
  lemma AdminsGetTheirDatabase(c: Config, events: seq<Event>, id: Id, code: string, f: Faults)
    requires var s := Run(c, events);
             && id !in s.used && code != "" && !CodeTaken(s.users, Some(code)) && DatabaseName(code) !in s.active
    requires Clean(f, c) && Distinct(c.dirs)
    ensures var m := Message(id, code);
            Served(Run(c, events), Run(c, events + [CreateUser(id, true, Some(code), true)] + Handling(m, f) + [Ack(m)]), c, id, code)
  {
    var s, m := Run(c, events), Message(id, code);
    var created := events + [CreateUser(id, true, Some(code), true)];
    assert Run(c, created) == Admitted(s, id, code) by {
      RunLast(c, events, CreateUser(id, true, Some(code), true));
      NewAdminsAreQueued(s, c, id, code);
    }
    RunHandling(c, created, m, f);
    RunLast(c, created + Handling(m, f), Ack(m));
    AdmittedIsServed(s, c, id, code, f);
  }

  // ----- where it ends -----

  /**
   Why connections must close: one failed disconnect after CREATE DATABASE, then a redelivery with no fault at all,
   and the user is flagged with a database that has no migration.
   */
  lemma FailedDisconnectIsNotRepaired(c: Config, id: Id, code: string)
    requires code != ""
    ensures var m := Message(id, code);
            var fault := Faults(false, true, 0, false, false, false);
            var fine := Faults(false, false, LastOp(Sorting.Sort(c.dirs, NameLeq), c.skip) + 1, false, false, false);
            var s := Run(c, [CreateUser(id, true, Some(code), true)] + Handling(m, fault) + Handling(m, fine));
            && id in s.users && s.users[id].isDatabaseCreated
            && DatabaseName(code) in s.databases && s.databases[DatabaseName(code)] == []
            && (Complete(Sorting.Sort(c.dirs, NameLeq)) != [] ==> !Sound(s, c))
  {
    var m := Message(id, code);
    var fault := Faults(false, true, 0, false, false, false);
    var fine := Faults(false, false, LastOp(Sorting.Sort(c.dirs, NameLeq), c.skip) + 1, false, false, false);
    var created := CreateUser(id, true, Some(code), true);
    RunLast(c, [], created);
    assert [] + [created] == [created];
    var s1 := Run(c, [created]);
    assert s1.queue.queued == multiset{m} && id in s1.users && s1.databases == map[] && s1.active == map[];
    RunHandling(c, [created], m, fault);
    HandledIsProvision(s1, c, m, fault);
    var s2 := Run(c, [created] + Handling(m, fault));
    RunHandling(c, [created] + Handling(m, fault), m, fine);
    HandledIsProvision(s2, c, m, fine);
  }

  /**
   Tenant codes are compared as they are spelled, databases are not: once a code's database is there, an administrator
   with another spelling of it is accepted and flagged too, for the same database.
   */
  lemma OtherSpellingIsFlagged(s: State, c: Config, id: Id, code: string, f: Faults)
    requires id !in s.used && code != "" && !CodeTaken(s.users, Some(code))
    requires DatabaseName(code) in s.databases && DatabaseName(code) !in s.active
    requires !f.create && !f.disconnect
    ensures var s' := Handled(Apply(s, c, CreateUser(id, true, Some(code), true)), c, Message(id, code), f);
            && id in s'.users && s'.users[id] == User(Some(code), true)
            && s'.databases == s.databases
  {
    var created := Apply(s, c, CreateUser(id, true, Some(code), true));
    assert created.users[id] == User(Some(code), false);
    HandledIsProvision(created, c, Message(id, code), f);
  }
}
