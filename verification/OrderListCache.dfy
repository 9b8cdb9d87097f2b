/**
 The cached order list: `GET /orders` is filed per user, and creating or completing an order evicts the writer's entries
 of the default tenant. `W` is whatever the handler looks at, `V` what it answers.
 */
module OrderListCache {
  import opened Wrappers
  import opened Text
  import opened Json
  import opened ResponseCache

  const CONTROLLER := "OrderController"

  const ROUTE := "findAll"

  const CACHED := Options(Some(300), true, true)

  /** 300 seconds. */
  const LIFETIME := 300_000

  /** What creating and completing an order evict. */
  const TARGET := Target("findAll", true, true, true)

  /** The order-list handler: any function of the world, the user and the query. */
  type ListHandler<!W, !V> = (W, string, seq<Field>) -> V

  /**
   One request at a time. `context` is the tenant a request carries when the cache is asked, `stored` the one it carries
   when the answer is filed (the handler may set it). The flags say which calls to the store succeed.
   */
  datatype Event<W> =
    | Tick(ms: nat)
    | Change(w: W)
    | Read(user: string, context: Option<string>, stored: Option<string>, query: seq<Field>, getWorks: bool, setWorks: bool)
    | Write(request: Request, works: bool)

  datatype State<W, V> = State(w: W, redis: Redis<V>, now: int)

  function ReadRequest(user: string, context: Option<string>, query: seq<Field>): Request {
    Request(context, CONTROLLER, [], query, Some(user))
  }

  function KeyOf(user: string, context: Option<string>, query: seq<Field>): string {
    CacheKey(TenantOf(context, None), CONTROLLER, ROUTE, ReadArgs(CACHED, ReadRequest(user, context, query)))
  }

  function Hit<W, V>(s: State<W, V>, user: string, context: Option<string>, query: seq<Field>): Option<V> {
    Live(s.redis, s.now, KeyOf(user, context, query))
  }

  function Step<W, V>(list: ListHandler<W, V>, s: State<W, V>, e: Event<W>): State<W, V> {
    match e
    case Tick(ms) => s.(now := s.now + ms)
    case Change(w) => s.(w := w)
    case Read(user, context, stored, query, getWorks, setWorks) =>
      if (getWorks && Hit(s, user, context, query).Some?) || !setWorks then s
      else s.(redis := Stored(s.redis, s.now, KeyOf(user, stored, query), Ttl(CACHED), list(s.w, user, query)))
    case Write(request, works) => if works then s.(redis := EvictOne(s.redis, request, TARGET)) else s
  }

  function Run<W, V>(list: ListHandler<W, V>, start: W, events: seq<Event<W>>): State<W, V> {
    if events == [] then State(start, map[], 0)
    else Step(list, Run(list, start, events[..|events| - 1]), events[|events| - 1])
  }

  // ----- whose entry a key is -----

  /** A plain user id, a colon-free tenant, and a query with distinct names, none of them the reserved one. */
  predicate Clean(user: string, context: Option<string>, query: seq<Field>) {
    && PlainId(Some(user)) && ColonFree(TenantOf(context, None))
    && DistinctNames(query) && forall i :: 0 <= i < |query| ==> query[i].name != "__userId"
  }

  lemma QueryIsArguments(query: seq<Field>)
    requires DistinctNames(query)
    ensures MethodArguments([], query) == if query == [] then NoArgs else Fields(query)
  {
    assert [] + query == query;
    AssignDistinct([], query);
  }

  lemma NamesHaveNoColon()
    ensures ColonFree(CONTROLLER) && ColonFree(ROUTE) && ColonFree("default")
  {}

  /** Two clean requests share an entry only if they are the same user's, with the same query. */
  lemma KeysNameUsers(user: string, context: Option<string>, query: seq<Field>,
                      user': string, context': Option<string>, query': seq<Field>)
    requires Clean(user, context, query) && Clean(user', context', query')
    requires KeyOf(user, context, query) == KeyOf(user', context', query')
    ensures user == user' && query == query' && TenantOf(context, None) == TenantOf(context', None)
  {
    NamesHaveNoColon();
    QueryIsArguments(query);
    QueryIsArguments(query');
    UsersNeverShareEntries(CACHED, ReadRequest(user, context, query), ROUTE, ReadRequest(user', context', query'), ROUTE);
  }

  // ----- a hit is the user's own -----

  predicate CleanReads<W>(events: seq<Event<W>>) {
    forall i :: 0 <= i < |events| && events[i].Read? ==>
      var e := events[i]; Clean(e.user, e.context, e.query) && Clean(e.user, e.stored, e.query)
  }

  /** After the first `k` events the handler answered this user and query with the entry's value. */
  ghost predicate FilledAt<W, V>(list: ListHandler<W, V>, start: W, events: seq<Event<W>>, k: nat,
                                 user: string, query: seq<Field>, entry: Entry<V>) {
    && k <= |events|
    && entry.value == list(Run(list, start, events[..k]).w, user, query)
    && entry.expires == Run(list, start, events[..k]).now + LIFETIME
  }

  ghost predicate Explained<W, V>(list: ListHandler<W, V>, start: W, events: seq<Event<W>>, key: string, entry: Entry<V>) {
    exists k: nat, user, context, query ::
      Clean(user, context, query) && KeyOf(user, context, query) == key && FilledAt(list, start, events, k, user, query, entry)
  }

  lemma StaysExplained<W, V>(list: ListHandler<W, V>, start: W, events: seq<Event<W>>, key: string, entry: Entry<V>)
    requires events != [] && Explained(list, start, events[..|events| - 1], key, entry)
    ensures Explained(list, start, events, key, entry)
  {
    var before := events[..|events| - 1];
    var k: nat, user, context, query :|
      Clean(user, context, query) && KeyOf(user, context, query) == key && FilledAt(list, start, before, k, user, query, entry);
    assert before[..k] == events[..k];
    assert FilledAt(list, start, events, k, user, query, entry);
  }

  lemma StepEntries<W, V>(list: ListHandler<W, V>, s: State<W, V>, e: Event<W>, key: string)
    requires key in Step(list, s, e).redis
    ensures var entry := Step(list, s, e).redis[key];
            || (key in s.redis && entry == s.redis[key])
            || (e.Read? && key == KeyOf(e.user, e.stored, e.query) && entry == Entry(list(s.w, e.user, e.query), s.now + LIFETIME))
  {}

  lemma {:induction false} EntriesAreExplained<W, V>(list: ListHandler<W, V>, start: W, events: seq<Event<W>>, key: string)
    requires CleanReads(events) && key in Run(list, start, events).redis
    ensures Explained(list, start, events, key, Run(list, start, events).redis[key])
  {
    assert events != [];
    var n := |events| - 1;
    var s, entry := Run(list, start, events[..n]), Run(list, start, events).redis[key];
    StepEntries(list, s, events[n], key);
    if key in s.redis && entry == s.redis[key] {
      EntriesAreExplained(list, start, events[..n], key);
      StaysExplained(list, start, events, key, entry);
    } else {
      assert FilledAt(list, start, events, n, events[n].user, events[n].query, entry);
    }
  }

  lemma {:induction false} TimePasses<W, V>(list: ListHandler<W, V>, start: W, events: seq<Event<W>>, k: nat)
    requires k <= |events|
    ensures Run(list, start, events[..k]).now <= Run(list, start, events).now
  {
    if k == |events| {
      assert events[..k] == events;
    } else {
      var before := events[..|events| - 1];
      assert before[..k] == events[..k];
      TimePasses(list, start, before, k);
    }
  }

  /**
   In every sequential run, a hit for a user is what that user's own handler answered to the same query at a moment less
   than the time-to-live ago.
   */
  lemma HitsAreTheUsersOwn<W, V>(list: ListHandler<W, V>, start: W, events: seq<Event<W>>,
                                 user: string, context: Option<string>, query: seq<Field>) returns (k: nat)
    requires CleanReads(events) && Clean(user, context, query)
    requires Hit(Run(list, start, events), user, context, query).Some?
    ensures k <= |events|
    ensures var s, past := Run(list, start, events), Run(list, start, events[..k]);
            && Hit(s, user, context, query) == Some(list(past.w, user, query))
            && past.now <= s.now < past.now + LIFETIME
  {
    var s, key := Run(list, start, events), KeyOf(user, context, query);
    EntriesAreExplained(list, start, events, key);
    var i: nat, user', context', query' :|
      Clean(user', context', query') && KeyOf(user', context', query') == key
      && FilledAt(list, start, events, i, user', query', s.redis[key]);
    KeysNameUsers(user', context', query', user, context, query);
    TimePasses(list, start, events, i);
    k := i;
  }

  /** And a read that missed and was filed is a hit for the same user and query from then on. */
  lemma FiledReadsHit<W, V>(list: ListHandler<W, V>, s: State<W, V>, user: string, context: Option<string>, query: seq<Field>)
    requires Hit(s, user, context, query).None?
    ensures Hit(Step(list, s, Read(user, context, context, query, true, true)), user, context, query)
         == Some(list(s.w, user, query))
  {}

  // ----- what order writes evict -----

  lemma OtherTenantStays(tenant: string, rest: string, prefixRest: string)
    requires ColonFree(tenant) && StartsWith(tenant + [':'] + rest, "default" + [':'] + prefixRest)
    ensures tenant == "default"
  {
    var key, prefix := tenant + [':'] + rest, "default" + [':'] + prefixRest;
    var more := key[|prefix|..];
    assert key == prefix + more == "default" + [':'] + (prefixRest + more);
    NamesHaveNoColon();
    CutUnique(tenant, rest, "default", prefixRest + more, ':');
  }

  /**
   Creating or completing an order removes a cached list if and only if it was filed without a tenant, without a query, by
   a user whose id starts with the writer's: with ids of one length, by the writer. Lists filed under a tenant, and pages
   asked for by query, stay.
   */
  lemma OrderWritesEvictExactly<V>(redis: Redis<V>, request: Request, user: string, context: Option<string>, query: seq<Field>)
    requires request.controller == CONTROLLER && request.user.Some? && request.user.value != "" && request.user.value[0] != '{'
    requires Literal(UserPrefix("default", CONTROLLER, ROUTE, request.user.value)) && Clean(user, context, query)
    ensures KeyOf(user, context, query) in EvictOne(redis, request, TARGET) <==>
            KeyOf(user, context, query) in redis
            && !(TenantOf(context, None) == "default" && query == [] && StartsWith(user, request.user.value))
  {
    var key := KeyOf(user, context, query);
    var args := ReadArgs(CACHED, ReadRequest(user, context, query));
    QueryIsArguments(query);
    WithUser(CACHED, ReadRequest(user, context, query));
    if TenantOf(context, None) == "default" {
      UserEvictionIsByPrefix(redis, request, TARGET, args);
    } else {
      var prefix := UserPrefix("default", CONTROLLER, ROUTE, request.user.value);
      LiteralMatches(prefix, key);
      if StartsWith(key, prefix) {
        OtherTenantStays(TenantOf(context, None), CONTROLLER + [':'] + (ROUTE + ArgsText(args)),
                         CONTROLLER + [':'] + (ROUTE + ArgsText(Word(request.user.value))));
      }
    }
  }

  /** In particular the writer's own plain list, filed without a tenant, is answered afresh. */
  lemma OwnListIsEvicted<V>(redis: Redis<V>, request: Request, user: string)
    requires request.controller == CONTROLLER && request.user == Some(user) && user != "" && user[0] != '{'
    requires Literal(UserPrefix("default", CONTROLLER, ROUTE, user))
    ensures KeyOf(user, None, []) !in EvictOne(redis, request, TARGET)
  {
    NamesHaveNoColon();
    OrderWritesEvictExactly(redis, request, user, None, []);
  }
}
