/** How far a cached product may be from the database, and exactly what each write evicts. */
module CachedProducts {
  import opened Wrappers
  import opened Text
  import opened Json
  import opened ResponseCache
  import opened ProductCache

  // ----- exactly when keys meet -----

  predicate PlainTenant(tenant: string) {
    tenant != "" && ColonFree(tenant)
  }

  function GetArgs(get: Get): Args {
    MethodArguments(GetParams(get), get.query)
  }

  function WriteArgs(w: Write): Args {
    MethodArguments(WriteParams(w), w.query)
  }

  /** Any two reads, clean or not, share an entry exactly when route, tenant and merged arguments coincide. */
  lemma KeysMeetExactly(g: Get, h: Get)
    requires PlainTenant(g.tenant) && PlainTenant(h.tenant)
    ensures KeyOf(g) == KeyOf(h) <==> g.FindOne? == h.FindOne? && g.tenant == h.tenant && GetArgs(g) == GetArgs(h)
  {
    NamesDiffer();
    NamesHaveNoColon(g);
    NamesHaveNoColon(h);
    if KeyOf(g) == KeyOf(h) {
      KeyDetermines(g.tenant, CONTROLLER, Name(g), GetArgs(g), h.tenant, CONTROLLER, Name(h), GetArgs(h));
    }
  }

  /** The key a write deletes for one of its targets. */
  function EvictedKey(w: Write, name: string): string {
    CacheKey(TenantOf(Some(w.tenant), None), CONTROLLER, name, WriteArgs(w))
  }

  lemma EvictedKeyMeets(w: Write, name: string, get: Get)
    requires PlainTenant(w.tenant) && PlainTenant(get.tenant) && ColonFree(name)
    ensures EvictedKey(w, name) == KeyOf(get) <==> name == Name(get) && w.tenant == get.tenant && WriteArgs(w) == GetArgs(get)
  {
    NamesHaveNoColon(get);
    if EvictedKey(w, name) == KeyOf(get) {
      KeyDetermines(w.tenant, CONTROLLER, name, WriteArgs(w), get.tenant, CONTROLLER, Name(get), GetArgs(get));
    }
  }

  lemma BareEvicts<V>(redis: Redis<V>, w: Write, name: string)
    requires name != "*"
    ensures EvictOne(redis, WriteRequest(w), Bare(name)) == redis - {EvictedKey(w, name)}
  {}

  /** The keys a write deletes: one per target whose call to the store succeeds. */
  function EvictedKeys(w: Write, works: nat -> bool): set<string> {
    (if works(0) then {EvictedKey(w, "findAll")} else {}) +
    (if !w.Create? && works(1) then {EvictedKey(w, "findOne")} else {})
  }

  lemma TargetsEvict<V>(redis: Redis<V>, w: Write, works: nat -> bool)
    ensures EvictAll(redis, WriteRequest(w), Targets(w), works) == redis - EvictedKeys(w, works)
  {
    var request, targets := WriteRequest(w), Targets(w);
    assert targets[..1] == [Bare("findAll")] && targets[..1][..0] == [];
    BareEvicts(redis, w, "findAll");
    var one := EvictAll(redis, request, targets[..1], works);
    assert one == redis - (if works(0) then {EvictedKey(w, "findAll")} else {}) by {
      assert EvictAll(redis, request, [], works) == redis;
    }
    BareEvicts(one, w, "findOne");
    if w.Create? {
      assert targets[..1] == targets;
    } else {
      assert targets[1] == Bare("findOne");
    }
  }

  /** The write has the read's route among its targets, and that call to the store succeeds. */
  predicate Aims(w: Write, works: nat -> bool, get: Get) {
    if get.FindAll? then works(0) else !w.Create? && works(1)
  }

  /** A write evicts the entry of a read exactly when it aims at the route, with the same tenant code and arguments. */
  lemma EvictionIsExact<V>(redis: Redis<V>, w: Write, works: nat -> bool, get: Get)
    requires PlainTenant(w.tenant) && PlainTenant(get.tenant)
    ensures KeyOf(get) in EvictAll(redis, WriteRequest(w), Targets(w), works) <==>
            KeyOf(get) in redis && !(Aims(w, works, get) && w.tenant == get.tenant && WriteArgs(w) == GetArgs(get))
  {
    TargetsEvict(redis, w, works);
    NamesDiffer();
    NamesHaveNoColon(FindAll("", []));
    NamesHaveNoColon(FindOne("", "", []));
    EvictedKeyMeets(w, "findAll", get);
    EvictedKeyMeets(w, "findOne", get);
  }

  predicate CleanWrite(w: Write) {
    PlainTenant(w.tenant) && DistinctNames(WriteParams(w) + w.query)
  }

  lemma Cancel(params: seq<Field>, a: seq<Field>, b: seq<Field>)
    requires params + a == params + b
    ensures a == b
  {
    assert (params + a)[|params|..] == a && (params + b)[|params|..] == b;
  }

  /** Creating a product evicts the list read with the same query, and no other page of it. */
  lemma CreateEvictsOneList<V>(redis: Redis<V>, w: Write, works: nat -> bool, get: Get)
    requires w.Create? && CleanWrite(w) && get.FindAll? && Clean(get) && get.tenant == w.tenant
    ensures KeyOf(get) in EvictAll(redis, WriteRequest(w), Targets(w), works) <==>
            KeyOf(get) in redis && !(works(0) && get.query == w.query)
  {
    EvictionIsExact(redis, w, works, get);
    ArgsOf(GetParams(get), get.query);
    ArgsOf(WriteParams(w), w.query);
    if WriteArgs(w) == GetArgs(get) { Cancel(WriteParams(w), w.query, get.query); }
  }

  /**
   Updating or removing a product names 'findAll' among what it evicts, but with its own arguments, the id among
   them: every cached list whose query has no "id" stays.
   */
  lemma ListsOutliveProductWrites<V>(redis: Redis<V>, w: Write, works: nat -> bool, get: Get)
    requires !w.Create? && CleanWrite(w)
    requires get.FindAll? && Clean(get) && forall f :: f in get.query ==> f.name != "id"
    ensures KeyOf(get) in EvictAll(redis, WriteRequest(w), Targets(w), works) <==> KeyOf(get) in redis
  {
    EvictionIsExact(redis, w, works, get);
    ArgsOf(GetParams(get), get.query);
    ArgsOf(WriteParams(w), w.query);
    var written, read := WriteParams(w) + w.query, GetParams(get) + get.query;
    assert written[1] == IdParam(w.id);
    assert |read| > 1 ==> read[1] == get.query[0];
  }

  /** It evicts a product's entry exactly under its own tenant spelling, id and query, and if the store is reached. */
  lemma ProductWritesEvictExactly<V>(redis: Redis<V>, w: Write, works: nat -> bool, get: Get)
    requires !w.Create? && CleanWrite(w) && get.FindOne? && Clean(get)
    ensures KeyOf(get) in EvictAll(redis, WriteRequest(w), Targets(w), works) <==>
            KeyOf(get) in redis && !(works(1) && get.tenant == w.tenant && get.id == w.id && get.query == w.query)
  {
    EvictionIsExact(redis, w, works, get);
    ArgsOf(GetParams(get), get.query);
    ArgsOf(WriteParams(w), w.query);
    var written, read := WriteParams(w) + w.query, GetParams(get) + get.query;
    assert written[0] == TenantParam(w.tenant) && read[0] == TenantParam(get.tenant);
    assert written[1] == IdParam(w.id) && read[1] == IdParam(get.id);
    if WriteArgs(w) == GetArgs(get) { Cancel(WriteParams(w), w.query, get.query); }
  }

  // ----- a cached product and the database -----

  /** An update or removal of the product that reaches its handler. */
  predicate Touches(e: Event, tenant: string, id: string) {
    e.Change? && !e.limited && !e.write.Create? && Lower(e.write.tenant) == Lower(tenant) && e.write.id == id
  }

  /** It spells the tenant code as the reader does, its query adds nothing to the path, and its eviction succeeds. */
  predicate Evicts(e: Event, tenant: string)
    requires e.Change?
  {
    e.write.tenant == tenant && WriteArgs(e.write) == Fields(WriteParams(e.write)) && e.works(1)
  }

  ghost predicate WritesEvict(events: seq<Event>, tenant: string, id: string) {
    forall i :: 0 <= i < |events| && Touches(events[i], tenant, id) ==> Evicts(events[i], tenant)
  }

  predicate Pays(e: Event, tenant: string, id: string) {
    e.Decrement? && Lower(e.tenant) == Lower(tenant) && e.id == id
  }

  /** What payments took from the product after the first `k` events. */
  function TakenSince(events: seq<Event>, k: nat, tenant: string, id: string): int {
    if |events| <= k then 0
    else
      var n := |events| - 1;
      TakenSince(events[..n], k, tenant, id) + if Pays(events[n], tenant, id) then events[n].quantity else 0
  }

  /** When the last of those payments came. */
  function LastPaid(world: World, events: seq<Event>, k: nat, tenant: string, id: string): Option<int> {
    if |events| <= k then None
    else
      var n := |events| - 1;
      if Pays(events[n], tenant, id) then Some(Run(world, events[..n]).now) else LastPaid(world, events[..n], k, tenant, id)
  }

  function Plain(tenant: string, id: string): Get {
    FindOne(tenant, id, [])
  }

  predicate InDb(db: Db, tenant: string, id: string) {
    Lower(tenant) in db && id in db[Lower(tenant)]
  }

  function Row(db: Db, tenant: string, id: string): Product
    requires InDb(db, tenant, id)
  {
    db[Lower(tenant)][id]
  }

  /** The product after payments took `taken` units, the last of them at `paid`. */
  function Paid(p: Product, taken: int, paid: Option<int>): Product {
    p.(stock := p.stock - taken, updatedAt := paid.GetOr(p.updatedAt))
  }

  predicate SameButStock(p: Product, q: Product) {
    p.(stock := q.stock) == q
  }

  predicate Drifted(db: Db, tenant: string, id: string, value: Response, taken: int, paid: Option<int>) {
    InDb(db, tenant, id) && value.One? && Row(db, tenant, id) == Paid(value.product, taken, paid)
  }

  lemma TouchEvicts<V>(redis: Redis<V>, w: Write, works: nat -> bool, tenant: string, id: string)
    requires !w.Create? && w.tenant == tenant && w.id == id && WriteArgs(w) == Fields(WriteParams(w)) && works(1)
    ensures KeyOf(Plain(tenant, id)) !in EvictAll(redis, WriteRequest(w), Targets(w), works)
  {
    TargetsEvict(redis, w, works);
    PathNames(tenant, id);
    ArgsOf(GetParams(Plain(tenant, id)), []);
    assert GetParams(Plain(tenant, id)) + [] == WriteParams(w);
    assert EvictedKey(w, "findOne") == KeyOf(Plain(tenant, id));
  }

  lemma PathNames(tenant: string, id: string)
    ensures DistinctNames([TenantParam(tenant), IdParam(id)] + [])
  {
    assert |"id"| != |"tenantCode"|;
  }

  /** One event moves the row of a product whose entry survives as a payment does, and in no other way. */
  lemma StepDrifts(list: ListHandler, s: State, e: Event, tenant: string, id: string, value: Response, taken: int, paid: Option<int>)
    requires Drifted(s.db, tenant, id, value, taken, paid)
    requires Touches(e, tenant, id) ==> Evicts(e, tenant)
    requires KeyOf(Plain(tenant, id)) in Step(list, s, e).redis
    ensures if Pays(e, tenant, id) then Drifted(Step(list, s, e).db, tenant, id, value, taken + e.quantity, Some(s.now))
            else Drifted(Step(list, s, e).db, tenant, id, value, taken, paid)
  {
    match e
    case Change(w, limited, works) => if !limited { WriteDrifts(s, w, works, tenant, id); }
    case _ =>
  }

  /** A write whose effects leave the entry in place leaves the row alone. */
  lemma WriteDrifts(s: State, w: Write, works: nat -> bool, tenant: string, id: string)
    requires InDb(s.db, tenant, id)
    requires Touches(Change(w, false, works), tenant, id) ==> Evicts(Change(w, false, works), tenant)
    requires KeyOf(Plain(tenant, id)) in ApplyWrite(s, w, works).redis
    ensures InDb(ApplyWrite(s, w, works).db, tenant, id)
         && Row(ApplyWrite(s, w, works).db, tenant, id) == Row(s.db, tenant, id)
  {
    if Touches(Change(w, false, works), tenant, id) {
      TouchEvicts(s.redis, w, works, tenant, id);
      assert false;
    }
  }

  lemma {:induction false} CachedIsDrifted(world: World, events: seq<Event>, tenant: string, id: string) returns (k: nat)
    requires CleanReads(events) && WritesEvict(events, tenant, id) && Clean(Plain(tenant, id))
    requires KeyOf(Plain(tenant, id)) in Run(world, events).redis
    ensures var entry := Run(world, events).redis[KeyOf(Plain(tenant, id))];
            && FilledAt(world, events, k, Plain(tenant, id), entry)
            && Drifted(Run(world, events).db, tenant, id, entry.value, TakenSince(events, k, tenant, id),
                       LastPaid(world, events, k, tenant, id))
  {
    assert events != [];
    var n, key := |events| - 1, KeyOf(Plain(tenant, id));
    var before, e := events[..n], events[n];
    var s, entry := Run(world, before), Run(world, events).redis[key];
    StepEntries(world.list, s, e, key);
    if key in s.redis && entry == s.redis[key] {
      k := CachedIsDrifted(world, before, tenant, id);
      StepDrifts(world.list, s, e, tenant, id, entry.value, TakenSince(before, k, tenant, id), LastPaid(world, before, k, tenant, id));
      assert before[..k] == events[..k];
    } else {
      k := n;
      KeysNameRequests(e.get, Plain(tenant, id));
    }
  }

  lemma SameButStockExactly(p: Product, taken: int, paid: Option<int>)
    ensures SameButStock(p, Paid(p, taken, paid)) <==> paid.None? || paid.value == p.updatedAt
  {}

  /**
   In every run whose updates and removals of the product evict its entry, an entry for the product read without query
   is the product's row but for what payments did since it was filled: the row has as much less stock as they took, and
   the last one's time as `updatedAt`. So the two agree on every field except `stock` exactly when no payment touched the
   product since, or the last one came at the very time the entry shows. A removed product has no entry.
   */
  lemma CachedProductsAgree(world: World, events: seq<Event>, tenant: string, id: string) returns (k: nat)
    requires CleanReads(events) && WritesEvict(events, tenant, id) && Clean(Plain(tenant, id))
    requires KeyOf(Plain(tenant, id)) in Run(world, events).redis
    ensures var entry := Run(world, events).redis[KeyOf(Plain(tenant, id))];
            var db, paid := Run(world, events).db, LastPaid(world, events, k, tenant, id);
            && FilledAt(world, events, k, Plain(tenant, id), entry)
            && Drifted(db, tenant, id, entry.value, TakenSince(events, k, tenant, id), paid)
            && (SameButStock(entry.value.product, Row(db, tenant, id)) <==>
                paid.None? || paid.value == entry.value.product.updatedAt)
  {
    k := CachedIsDrifted(world, events, tenant, id);
    var entry := Run(world, events).redis[KeyOf(Plain(tenant, id))];
    SameButStockExactly(entry.value.product, TakenSince(events, k, tenant, id), LastPaid(world, events, k, tenant, id));
  }

  // ----- where agreement ends -----

  /** A payment moves `updatedAt` as well as `stock`, and the entry keeps the old value of both. */
  lemma PaymentsShowInUpdatedAt(world: World, tenant: string, id: string, quantity: int)
    requires InDb(world.db, tenant, id) && Row(world.db, tenant, id).updatedAt != world.start
    ensures var s := Run(world, [Read(Plain(tenant, id), false, true, true), Decrement(tenant, id, quantity)]);
            && InDb(s.db, tenant, id)
            && Live(s.redis, s.now, KeyOf(Plain(tenant, id))) == Some(One(Row(world.db, tenant, id)))
            && Row(s.db, tenant, id).updatedAt != Row(world.db, tenant, id).updatedAt
  {
    var read, pay := Read(Plain(tenant, id), false, true, true), Decrement(tenant, id, quantity);
    RunTwo(world, read, pay);
  }

  lemma RunTwo(world: World, e: Event, f: Event)
    ensures Run(world, [e]) == Step(world.list, State(world.db, map[], world.start), e)
    ensures Run(world, [e, f]) == Step(world.list, Run(world, [e]), f)
  {
    assert [e, f][..1] == [e] && [e][..0] == [];
    assert Run(world, []) == State(world.db, map[], world.start);
  }

  /**
   An update leaves the product's entry as it was, with the row changed under it, exactly when it spells the tenant code
   another way, carries a query, or its eviction does not reach the store (an error that is swallowed).
   */
  lemma UpdatesLeaveEntriesExactly(s: State, w: Write, works: nat -> bool, tenant: string, id: string)
    requires w.Update? && CleanWrite(w) && Lower(w.tenant) == Lower(tenant) && w.id == id && Clean(Plain(tenant, id))
    requires InDb(s.db, tenant, id) && KeyOf(Plain(tenant, id)) in s.redis
    ensures var s', key := ApplyWrite(s, w, works), KeyOf(Plain(tenant, id));
            && InDb(s'.db, tenant, id) && Row(s'.db, tenant, id) == Patched(Row(s.db, tenant, id), w.patch, s.now)
            && (key in s'.redis <==> w.tenant != tenant || w.query != [] || !works(1))
            && (key in s'.redis ==> s'.redis[key] == s.redis[key])
  {
    ProductWritesEvictExactly(s.redis, w, works, Plain(tenant, id));
    TargetsEvict(s.redis, w, works);
  }

  /** A price update whose eviction the store refuses: the next read still shows the old price. */
  lemma LostEvictionServesTheOldPrice(world: World, tenant: string, id: string, price: int)
    requires InDb(world.db, tenant, id) && Row(world.db, tenant, id).price != price && Clean(Plain(tenant, id))
    ensures var patch := Patch(None, None, Some(price), None);
            var s := Run(world, [Read(Plain(tenant, id), false, true, true),
                                 Change(Update(tenant, id, [], patch), false, (i: nat) => false)]);
            && InDb(s.db, tenant, id) && Row(s.db, tenant, id).price == price
            && Answer(world.list, s, Plain(tenant, id), false, true, true).1 == Some(One(Row(world.db, tenant, id)))
  {
    var read := Read(Plain(tenant, id), false, true, true);
    var w, refused := Update(tenant, id, [], Patch(None, None, Some(price), None)), (i: nat) => false;
    RunTwo(world, read, Change(w, false, refused));
    PathNames(tenant, id);
    UpdatesLeaveEntriesExactly(Run(world, [read]), w, refused, tenant, id);
  }

  lemma AssignOverSecond(f: Field, g: Field, h: Field)
    requires f.name != h.name && g.name == h.name
    ensures Assign([f, g], [h]) == [f, h]
  {
    assert [h][..0] == [];
    assert [f, g][1..] == [g];
    assert Put([g], h) == [h] + [g][1..] == [h];
    assert Put([f, g], h) == [f] + Put([g], h);
  }

  lemma ReusedId(tenant: string, a: string, b: string)
    ensures GetArgs(FindOne(tenant, a, [IdParam(b)])) == GetArgs(Plain(tenant, b))
  {
    PathNames(tenant, a);
    PathNames(tenant, b);
    var params := [TenantParam(tenant), IdParam(a)];
    assert [] + params == params + [] == params;
    AssignDistinct([], params);
    assert |"id"| != |"tenantCode"|;
    AssignOverSecond(TenantParam(tenant), IdParam(a), IdParam(b));
    assert GetParams(Plain(tenant, b)) + [] == [TenantParam(tenant), IdParam(b)];
    ArgsOf(GetParams(Plain(tenant, b)), []);
  }

  /** A query that reuses the name "id" files one product under the key of another, which is then answered with it. */
  lemma ReusedNameServesAnotherProduct(world: World, tenant: string, a: string, b: string)
    requires InDb(world.db, tenant, a)
    ensures var s := Run(world, [Read(FindOne(tenant, a, [IdParam(b)]), false, true, true)]);
            Answer(world.list, s, Plain(tenant, b), false, true, true).1 == Some(One(Row(world.db, tenant, a)))
  {
    var get := FindOne(tenant, a, [IdParam(b)]);
    ReusedId(tenant, a, b);
    assert KeyOf(get) == KeyOf(Plain(tenant, b));
    assert [Read(get, false, true, true)][..0] == [];
    assert Run(world, []) == State(world.db, map[], world.start);
  }
}
