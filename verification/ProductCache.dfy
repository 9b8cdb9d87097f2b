/** The product routes behind the response cache: sequential runs of reads, writes, payments and passing time. */
module ProductCache {
  import opened Wrappers
  import opened Text
  import opened Json
  import opened ResponseCache

  datatype Product = Product(id: string, name: string, description: Option<string>, price: int, stock: int,
                             createdAt: int, updatedAt: int)

  type Table = map<string, Product>

  /** Tenant databases by lower-cased tenant code. */
  type Db = map<string, Table>

  datatype Response = One(product: Product) | Many(page: int, perPage: int, total: nat, data: seq<Product>)

  /** The listing handler: any function of the table and the query. */
  type ListHandler = (Table, seq<Field>) -> Response

  /** The cacheable routes; query names are distinct, as an object's are. */
  datatype Get = FindOne(tenant: string, id: string, query: seq<Field>) | FindAll(tenant: string, query: seq<Field>)

  datatype Draft = Draft(name: string, description: Option<string>, price: int, stock: Option<int>)

  datatype Patch = Patch(name: Option<string>, description: Option<string>, price: Option<int>, stock: Option<int>)

  /** The admin routes; the id of a created product is the one the database draws. */
  datatype Write =
    | Create(tenant: string, query: seq<Field>, id: string, draft: Draft)
    | Update(tenant: string, id: string, query: seq<Field>, patch: Patch)
    | Remove(tenant: string, id: string, query: seq<Field>)

  /**
   One request at a time. The flags say which calls to the cache store succeed (its errors are swallowed), and whether
   the rate limiter, which stands between the cache and the handler, answers 429 instead of the handler.
   */
  datatype Event =
    | Tick(ms: nat)
    | Read(get: Get, limited: bool, getWorks: bool, setWorks: bool)
    | Change(write: Write, limited: bool, works: nat -> bool)
    | Decrement(tenant: string, id: string, quantity: int)

  datatype State = State(db: Db, redis: Redis<Response>, now: int)

  /** Where a run starts: the databases as they are, the cache empty. */
  datatype World = World(list: ListHandler, db: Db, start: int)

  // ----- the handlers -----

  /** What the handler returns, `None` when it throws. */
  function Handled(list: ListHandler, db: Db, get: Get): Option<Response> {
    if Lower(get.tenant) !in db then None
    else
      var table := db[Lower(get.tenant)];
      match get
      case FindOne(_, id, _) => if id in table then Some(One(table[id])) else None
      case FindAll(_, query) => Some(list(table, query))
  }

  function Patched(p: Product, patch: Patch, now: int): Product {
    Product(p.id, patch.name.GetOr(p.name), patch.description.Or(p.description), patch.price.GetOr(p.price),
            patch.stock.GetOr(p.stock), p.createdAt, now)
  }

  /** The table after a write, `None` when the handler throws. */
  function Written(table: Table, now: int, w: Write): Option<Table> {
    match w
    case Create(_, _, id, d) =>
      if id in table then None
      else Some(table[id := Product(id, d.name, d.description, d.price, d.stock.GetOr(0), now, now)])
    case Update(_, id, _, patch) => if id in table then Some(table[id := Patched(table[id], patch, now)]) else None
    case Remove(_, id, _) => if id in table then Some(table - {id}) else None
  }

  // ----- the routes -----

  const CONTROLLER := "ProductController"

  const CACHED := Options(Some(300), true, false)

  /** 300 seconds. */
  const LIFETIME := 300_000

  function Name(get: Get): string {
    if get.FindOne? then "findOne" else "findAll"
  }

  function TenantParam(tenant: string): Field {
    Field("tenantCode", Str(tenant))
  }

  function IdParam(id: string): Field {
    Field("id", Str(id))
  }

  function GetParams(get: Get): seq<Field> {
    match get
    case FindOne(tenant, id, _) => [TenantParam(tenant), IdParam(id)]
    case FindAll(tenant, _) => [TenantParam(tenant)]
  }

  function WriteParams(w: Write): seq<Field> {
    match w
    case Create(tenant, _, _, _) => [TenantParam(tenant)]
    case Update(tenant, id, _, _) => [TenantParam(tenant), IdParam(id)]
    case Remove(tenant, id, _) => [TenantParam(tenant), IdParam(id)]
  }

  function GetRequest(get: Get): Request {
    Request(Some(get.tenant), CONTROLLER, GetParams(get), get.query, None)
  }

  function WriteRequest(w: Write): Request {
    Request(Some(w.tenant), CONTROLLER, WriteParams(w), w.query, None)
  }

  function Targets(w: Write): seq<Target> {
    if w.Create? then [Bare("findAll")] else [Bare("findAll"), Bare("findOne")]
  }

  function Bare(name: string): Target {
    Target(name, true, false, false)
  }

  function KeyOf(get: Get): string {
    CacheKey(TenantOf(Some(get.tenant), None), CONTROLLER, Name(get), ReadArgs(CACHED, GetRequest(get)))
  }

  /** The answer, `None` for an exception; the rate limiter is asked only on a miss. */
  function Answer(list: ListHandler, s: State, get: Get, limited: bool, getWorks: bool, setWorks: bool)
    : (Redis<Response>, Option<Response>)
  {
    var handled := if limited then None else Handled(list, s.db, get);
    Intercepted(s.redis, s.now, KeyOf(get), Ttl(CACHED), handled, getWorks, setWorks)
  }

  function ApplyWrite(s: State, w: Write, works: nat -> bool): State {
    var database := Lower(w.tenant);
    if database !in s.db then s
    else
      var written := Written(s.db[database], s.now, w);
      if written.None? then s
      else State(s.db[database := written.value], EvictAll(s.redis, WriteRequest(w), Targets(w), works), s.now)
  }

  /** The payment loop's update of one product: no cache entry is touched. */
  function ApplyDecrement(s: State, tenant: string, id: string, quantity: int): State {
    var database := Lower(tenant);
    if database !in s.db || id !in s.db[database] then s
    else
      var p := s.db[database][id];
      s.(db := s.db[database := s.db[database][id := p.(stock := p.stock - quantity, updatedAt := s.now)]])
  }

  function Step(list: ListHandler, s: State, e: Event): State {
    match e
    case Tick(ms) => s.(now := s.now + ms)
    case Read(get, limited, getWorks, setWorks) => s.(redis := Answer(list, s, get, limited, getWorks, setWorks).0)
    case Change(w, limited, works) => if limited then s else ApplyWrite(s, w, works)
    case Decrement(tenant, id, quantity) => ApplyDecrement(s, tenant, id, quantity)
  }

  function Run(world: World, events: seq<Event>): State {
    if events == [] then State(world.db, map[], world.start)
    else Step(world.list, Run(world, events[..|events| - 1]), events[|events| - 1])
  }

  // ----- keys name requests -----

  /** A colon-free tenant code and a query that reuses no path-parameter name. */
  predicate Clean(get: Get) {
    get.tenant != "" && ColonFree(get.tenant) && DistinctNames(GetParams(get) + get.query)
  }

  lemma NamesHaveNoColon(get: Get)
    ensures ColonFree(CONTROLLER) && ColonFree(Name(get))
  {}

  lemma NamesDiffer()
    ensures "findOne" != "findAll"
  {
    assert "findOne"[4] != "findAll"[4];
  }

  lemma GetsAlike(g: Get, h: Get)
    requires Name(g) == Name(h) && GetParams(g) + g.query == GetParams(h) + h.query
    ensures g == h
  {
    NamesDiffer();
    var a, b := GetParams(g) + g.query, GetParams(h) + h.query;
    var n := |GetParams(g)|;
    assert a[0] == TenantParam(g.tenant) && b[0] == TenantParam(h.tenant);
    assert a[n..] == g.query && b[n..] == h.query;
    if g.FindOne? {
      assert a[1] == IdParam(g.id) && b[1] == IdParam(h.id);
    }
  }

  /** Two clean requests share a key only if they are the same request. */
  lemma KeysNameRequests(g: Get, h: Get)
    requires Clean(g) && Clean(h) && KeyOf(g) == KeyOf(h)
    ensures g == h
  {
    ArgsOf(GetParams(g), g.query);
    ArgsOf(GetParams(h), h.query);
    NamesHaveNoColon(g);
    NamesHaveNoColon(h);
    KeyDetermines(g.tenant, CONTROLLER, Name(g), ReadArgs(CACHED, GetRequest(g)),
                  h.tenant, CONTROLLER, Name(h), ReadArgs(CACHED, GetRequest(h)));
    GetsAlike(g, h);
  }

  // ----- a hit is what the handler returned a moment ago -----

  predicate CleanReads(events: seq<Event>) {
    forall i :: 0 <= i < |events| && events[i].Read? ==> Clean(events[i].get)
  }

  /** After its first `k` events the run was at a moment when the handler returned this entry's value for `get`. */
  ghost predicate FilledAt(world: World, events: seq<Event>, k: nat, get: Get, entry: Entry<Response>) {
    && k <= |events|
    && Handled(world.list, Run(world, events[..k]).db, get) == Some(entry.value)
    && entry.expires == Run(world, events[..k]).now + LIFETIME
  }

  ghost predicate Explained(world: World, events: seq<Event>, key: string, entry: Entry<Response>) {
    exists k: nat, get :: Clean(get) && KeyOf(get) == key && FilledAt(world, events, k, get, entry)
  }

  lemma StaysExplained(world: World, events: seq<Event>, key: string, entry: Entry<Response>)
    requires events != [] && Explained(world, events[..|events| - 1], key, entry)
    ensures Explained(world, events, key, entry)
  {
    var before := events[..|events| - 1];
    var k: nat, get :| Clean(get) && KeyOf(get) == key && FilledAt(world, before, k, get, entry);
    assert before[..k] == events[..k];
    assert FilledAt(world, events, k, get, entry);
  }

  lemma {:induction false} EvictionOnlyRemoves<V>(redis: Redis<V>, request: Request, targets: seq<Target>, works: nat -> bool,
                                                  key: string)
    requires key in EvictAll(redis, request, targets, works)
    ensures key in redis && EvictAll(redis, request, targets, works)[key] == redis[key]
  {
    if targets != [] {
      EvictionOnlyRemoves(redis, request, targets[..|targets| - 1], works, key);
    }
  }

  /** The only entry an event can add is the handler's present result under the key of a request being read. */
  lemma StepEntries(list: ListHandler, s: State, e: Event, key: string)
    requires key in Step(list, s, e).redis
    ensures var entry := Step(list, s, e).redis[key];
            || (key in s.redis && entry == s.redis[key])
            || (e.Read? && key == KeyOf(e.get) && Handled(list, s.db, e.get) == Some(entry.value)
                && entry.expires == s.now + LIFETIME)
  {
    match e
    case Change(w, limited, works) =>
      if Step(list, s, e).redis != s.redis {
        EvictionOnlyRemoves(s.redis, WriteRequest(w), Targets(w), works, key);
      }
    case _ =>
  }

  lemma {:induction false} EntriesAreExplained(world: World, events: seq<Event>, key: string)
    requires CleanReads(events) && key in Run(world, events).redis
    ensures Explained(world, events, key, Run(world, events).redis[key])
  {
    if events != [] {
      var n := |events| - 1;
      var s := Run(world, events[..n]);
      var entry := Run(world, events).redis[key];
      StepEntries(world.list, s, events[n], key);
      if key in s.redis && entry == s.redis[key] {
        EntriesAreExplained(world, events[..n], key);
        StaysExplained(world, events, key, entry);
      } else {
        assert FilledAt(world, events, n, events[n].get, entry);
      }
    }
  }

  /** The clock never goes back. */
  lemma {:induction false} TimePasses(world: World, events: seq<Event>, k: nat)
    requires k <= |events|
    ensures Run(world, events[..k]).now <= Run(world, events).now
  {
    if k == |events| {
      assert events[..k] == events;
    } else {
      var before := events[..|events| - 1];
      assert before[..k] == events[..k];
      TimePasses(world, before, k);
    }
  }

  /**
   Whatever a clean request is answered, its own handler would have returned at some moment of the run, less than the
   time-to-live ago; an exception is the handler's own, now, or the rate limiter's on a miss.
   */
  lemma AnswersAreRecent(world: World, events: seq<Event>, get: Get, limited: bool, getWorks: bool, setWorks: bool)
    returns (k: nat)
    requires CleanReads(events) && Clean(get)
    ensures k <= |events|
    ensures var s := Run(world, events); var past := Run(world, events[..k]);
            var hit := getWorks && Live(s.redis, s.now, KeyOf(get)).Some?;
            var answer := Answer(world.list, s, get, limited, getWorks, setWorks).1;
            && past.now <= s.now < past.now + LIFETIME
            && answer == if limited && !hit then None else Handled(world.list, past.db, get)
  {
    var s := Run(world, events);
    assert events[..|events|] == events;
    var live := if getWorks then Live(s.redis, s.now, KeyOf(get)) else None;
    if live.Some? {
      EntriesAreExplained(world, events, KeyOf(get));
      var i: nat, filled :| Clean(filled) && KeyOf(filled) == KeyOf(get)
                         && FilledAt(world, events, i, filled, s.redis[KeyOf(get)]);
      KeysNameRequests(filled, get);
      TimePasses(world, events, i);
      k := i;
    } else {
      k := |events|;
    }
  }

  // ----- writes show -----

  /** A created product is read back as drafted, with no stock if none was given and both times now. */
  lemma CreatedIsRead(list: ListHandler, s: State, w: Write, works: nat -> bool, get: Get)
    requires w.Create? && Lower(w.tenant) in s.db && w.id !in s.db[Lower(w.tenant)]
    requires get.FindOne? && Lower(get.tenant) == Lower(w.tenant) && get.id == w.id
    ensures var r := Handled(list, ApplyWrite(s, w, works).db, get);
            && r.Some? && r.value.One? && var p := r.value.product;
               && p.id == w.id && p.name == w.draft.name && p.description == w.draft.description && p.price == w.draft.price
               && p.stock == (if w.draft.stock.Some? then w.draft.stock.value else 0)
               && p.createdAt == s.now && p.updatedAt == s.now
  {}

  /** An update is read back field by field: what was given, else what was there; the creation time stays. */
  lemma UpdatedIsRead(list: ListHandler, s: State, w: Write, works: nat -> bool, get: Get)
    requires w.Update? && Lower(w.tenant) in s.db && w.id in s.db[Lower(w.tenant)]
    requires get.FindOne? && Lower(get.tenant) == Lower(w.tenant) && get.id == w.id
    ensures var r := Handled(list, ApplyWrite(s, w, works).db, get); var was := s.db[Lower(w.tenant)][w.id];
            && r.Some? && r.value.One? && var p := r.value.product;
               && p.id == was.id && p.createdAt == was.createdAt && p.updatedAt == s.now
               && p.name == (if w.patch.name.Some? then w.patch.name.value else was.name)
               && p.description == (if w.patch.description.Some? then w.patch.description else was.description)
               && p.price == (if w.patch.price.Some? then w.patch.price.value else was.price)
               && p.stock == (if w.patch.stock.Some? then w.patch.stock.value else was.stock)
  {}

  /** A removed product is not found any more. */
  lemma RemovedIsGone(list: ListHandler, s: State, w: Write, works: nat -> bool, get: Get)
    requires w.Remove? && Lower(w.tenant) in s.db && w.id in s.db[Lower(w.tenant)]
    requires get.FindOne? && Lower(get.tenant) == Lower(w.tenant) && get.id == w.id
    ensures Handled(list, ApplyWrite(s, w, works).db, get).None?
  {}

  /** A write to one product of one database changes no other product; one whose handler throws changes nothing at all. */
  lemma OthersAreUntouched(list: ListHandler, s: State, w: Write, works: nat -> bool, get: Get)
    requires get.FindOne? && (Lower(get.tenant) != Lower(w.tenant) || get.id != w.id)
    ensures Handled(list, ApplyWrite(s, w, works).db, get) == Handled(list, s.db, get)
    ensures Lower(w.tenant) !in s.db ==> ApplyWrite(s, w, works) == s
    ensures Lower(w.tenant) in s.db && (w.Create? <==> w.id in s.db[Lower(w.tenant)]) ==> ApplyWrite(s, w, works) == s
  {}
}
