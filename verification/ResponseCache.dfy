/** The response cache: its keys, the Redis store behind it, and the interceptor's lookup, fill and eviction. */
module ResponseCache {
  import opened Wrappers
  import opened Text
  import opened Json

  // ----- keys -----

  /** The `args` of a key: `undefined`, a string (a user id), or an object. */
  datatype Args = NoArgs | Word(word: string) | Fields(fields: seq<Field>)

  function ArgsText(args: Args): string {
    match args
    case NoArgs => ""
    case Word(word) => [':'] + word
    case Fields(fields) => [':'] + Stringify(Object(fields))
  }

  /** An override wins; an unset or empty tenant code reads as "default". */
  function TenantOf(context: Option<string>, override: Option<string>): string {
    if override.Some? then override.value
    else if context.None? || context.value == "" then "default"
    else context.value
  }

  function CacheKey(tenant: string, controller: string, name: string, args: Args): string {
    tenant + [':'] + (controller + [':'] + (name + ArgsText(args)))
  }

  function UserPrefix(tenant: string, controller: string, name: string, userId: string): string {
    CacheKey(tenant, controller, name, Word(userId))
  }

  function ControllerPrefix(tenant: string, controller: string): string {
    tenant + [':'] + (controller + [':'])
  }

  // ----- the store -----

  datatype Entry<V> = Entry(value: V, expires: int)

  type Redis<V> = map<string, Entry<V>>

  /** GET: the value, unless it is absent or has expired. */
  function Live<V>(redis: Redis<V>, now: int, key: string): Option<V> {
    if key in redis && now < redis[key].expires then Some(redis[key].value) else None
  }

  /** SETEX, with times in milliseconds. */
  function Stored<V>(redis: Redis<V>, now: int, key: string, ttlSeconds: nat, value: V): Redis<V> {
    redis[key := Entry(value, now + 1000 * ttlSeconds)]
  }

  // ----- KEYS patterns -----

  /** The rest of a character class after `[` or `[^`: whether it holds `c`, and the pattern after it. */
  function InClass(p: string, c: char, hit: bool): (r: (bool, string))
    ensures |r.1| <= |p|
  {
    if p == "" then (hit, "")
    else if p[0] == '\\' && |p| >= 2 then InClass(p[2..], c, hit || p[1] == c)
    else if p[0] == ']' then (hit, p[1..])
    else if |p| >= 3 && p[1] == '-' then InClass(p[3..], c, hit || p[0] <= c <= p[2] || p[2] <= c <= p[0])
    else InClass(p[1..], c, hit || p[0] == c)
  }

  /** Redis glob matching: `*`, `?`, `[...]` and a backslash before a character taken literally. */
  predicate Matches(p: string, s: string)
    decreases |p| + |s|
  {
    if p == "" then s == ""
    else if p[0] == '*' then Matches(p[1..], s) || (s != "" && Matches(p, s[1..]))
    else if s == "" then false
    else if p[0] == '?' then Matches(p[1..], s[1..])
    else if p[0] == '[' then
      var negated := |p| > 1 && p[1] == '^';
      var (hit, rest) := InClass(if negated then p[2..] else p[1..], s[0], false);
      hit != negated && Matches(rest, s[1..])
    else if p[0] == '\\' && |p| >= 2 then s[0] == p[1] && Matches(p[2..], s[1..])
    else s[0] == p[0] && Matches(p[1..], s[1..])
  }

  /** KEYS followed by DEL of what it returned. */
  function WithoutMatching<V>(redis: Redis<V>, pattern: string): Redis<V> {
    map key | key in redis && !Matches(pattern, key) :: redis[key]
  }

  /** No character with a meaning in patterns. */
  predicate Literal(prefix: string) {
    forall i :: 0 <= i < |prefix| ==> prefix[i] !in {'*', '?', '[', '\\'}
  }

  lemma {:induction false} StarMatchesAll(s: string)
    ensures Matches(['*'], s)
  {
    assert ['*'][1..] == "";
    if s != "" { StarMatchesAll(s[1..]); }
  }

  /** A literal prefix followed by `*` matches exactly the keys that start with it. */
  lemma {:induction false} LiteralMatches(prefix: string, s: string)
    requires Literal(prefix)
    ensures Matches(prefix + ['*'], s) <==> StartsWith(s, prefix)
  {
    var p := prefix + ['*'];
    if prefix == "" {
      assert p == ['*'];
      StarMatchesAll(s);
    } else if s != "" {
      assert p[0] == prefix[0] && p[1..] == prefix[1..] + ['*'];
      LiteralMatches(prefix[1..], s[1..]);
      assert prefix == [prefix[0]] + prefix[1..] && s == [s[0]] + s[1..];
      assert StartsWith(s, prefix) <==> s[0] == prefix[0] && StartsWith(s[1..], prefix[1..]);
    }
  }

  class CacheService<V> {
    var redis: Redis<V>
    var now: int

    constructor (start: int)
      ensures redis == map[] && now == start
    {
      redis := map[];
      now := start;
    }

    /** An error of the store is caught and reads as a miss. */
    method Get(context: Option<string>, controller: string, name: string, args: Args, reachable: bool)
      returns (r: Option<V>)
      ensures r == if reachable then Live(redis, now, CacheKey(TenantOf(context, None), controller, name, args)) else None
    {
      var key := CacheKey(TenantOf(context, None), controller, name, args);
      if reachable && key in redis && now < redis[key].expires {
        return Some(redis[key].value);
      }
      return None;
    }

    method Set(context: Option<string>, controller: string, name: string, value: V, ttlSeconds: nat, args: Args,
               reachable: bool)
      modifies this`redis
      ensures redis == if reachable
                       then Stored(old(redis), now, CacheKey(TenantOf(context, None), controller, name, args), ttlSeconds, value)
                       else old(redis)
    {
      if reachable {
        redis := redis[CacheKey(TenantOf(context, None), controller, name, args) := Entry(value, now + 1000 * ttlSeconds)];
      }
    }

    method Del(context: Option<string>, controller: string, name: string, args: Args, override: Option<string>,
               reachable: bool)
      modifies this`redis
      ensures redis == if reachable
                       then old(redis) - {CacheKey(TenantOf(context, override), controller, name, args)}
                       else old(redis)
    {
      if reachable {
        redis := redis - {CacheKey(TenantOf(context, override), controller, name, args)};
      }
    }

    /** `delMethodUserKeys` and `delPattern`: KEYS, then DEL of what it returned. */
    method DelMatching(pattern: string, reachable: bool)
      modifies this`redis
      ensures redis == if reachable then WithoutMatching(old(redis), pattern) else old(redis)
    {
      if reachable {
        var keys := set key | key in redis && Matches(pattern, key);
        redis := redis - keys;
      }
    }
  }

  // ----- the interceptor -----

  datatype Request = Request(context: Option<string>, controller: string, params: seq<Field>, query: seq<Field>,
                             user: Option<string>)

  /** What `@Cacheable` declares. */
  datatype Options = Options(ttl: Option<nat>, includeArgs: bool, includeUserId: bool)

  /** What `@InvalidateCache` declares; a bare method name stands for `Target(name, true, false, false)`. */
  datatype Target = Target(name: string, includeArgs: bool, includeUserId: bool, isDefaultTenant: bool)

  /** Assigning one property: a name already there keeps its place. */
  function Put(args: seq<Field>, f: Field): seq<Field> {
    if args == [] then [f]
    else if args[0].name == f.name then [f] + args[1..]
    else [args[0]] + Put(args[1..], f)
  }

  /** `Object.assign(args, more)`. */
  function Assign(args: seq<Field>, more: seq<Field>): seq<Field> {
    if more == [] then args else Put(Assign(args, more[..|more| - 1]), more[|more| - 1])
  }

  function MethodArguments(params: seq<Field>, query: seq<Field>): Args {
    var args := Assign(Assign([], params), query);
    if args == [] then NoArgs else Fields(args)
  }

  /** The key arguments of a cacheable request. */
  function ReadArgs(options: Options, request: Request): Args {
    var args := if options.includeArgs then MethodArguments(request.params, request.query) else NoArgs;
    if !options.includeUserId || request.user.None? then args
    else if args.Fields? then Fields(Assign([Field("__userId", Str(request.user.value))], args.fields))
    else Word(request.user.value)
  }

  function Ttl(options: Options): nat {
    if options.ttl.None? || options.ttl.value == 0 then 300 else options.ttl.value
  }

  /** Lookup and fill: `handled` is what the handler returns if it is called, `None` if it throws. */
  function Intercepted<V>(redis: Redis<V>, now: int, key: string, ttl: nat, handled: Option<V>,
                          getWorks: bool, setWorks: bool): (Redis<V>, Option<V>)
  {
    var cached := if getWorks then Live(redis, now, key) else None;
    if cached.Some? then (redis, cached)
    else if handled.Some? && setWorks then (Stored(redis, now, key, ttl, handled.value), handled)
    else (redis, handled)
  }

  function Override(t: Target): Option<string> {
    if t.isDefaultTenant then Some("default") else None
  }

  function EvictArgs(t: Target, request: Request): Args {
    if t.includeUserId then (if request.user.Some? then Word(request.user.value) else NoArgs)
    else if t.includeArgs then MethodArguments(request.params, request.query)
    else NoArgs
  }

  function EvictOne<V>(redis: Redis<V>, request: Request, t: Target): Redis<V> {
    var tenant := TenantOf(request.context, Override(t));
    if t.name == "*" then WithoutMatching(redis, ControllerPrefix(tenant, request.controller) + ['*'])
    else if t.includeUserId && t.includeArgs && request.user.Some? then
      WithoutMatching(redis, UserPrefix(tenant, request.controller, t.name, request.user.value) + ['*'])
    else redis - {CacheKey(tenant, request.controller, t.name, EvictArgs(t, request))}
  }

  /** The targets in order; `works(i)` says whether the store answered for the i-th. */
  function EvictAll<V>(redis: Redis<V>, request: Request, targets: seq<Target>, works: nat -> bool): Redis<V> {
    if targets == [] then redis
    else
      var n := |targets| - 1;
      var before := EvictAll(redis, request, targets[..n], works);
      if works(n) then EvictOne(before, request, targets[n]) else before
  }

  class CacheInterceptor<V> {
    const cache: CacheService<V>

    constructor (cache: CacheService<V>)
      ensures this.cache == cache
    {
      this.cache := cache;
    }

    /** Fills `args` in place: route parameters first, then the query, which overrides a name they share. */
    method GetMethodArguments(params: seq<Field>, query: seq<Field>) returns (r: Args)
      ensures r == MethodArguments(params, query)
    {
      var args := AssignInto([], params);
      args := AssignInto(args, query);
      return if args == [] then NoArgs else Fields(args);
    }

    method AssignInto(target: seq<Field>, more: seq<Field>) returns (args: seq<Field>)
      ensures args == Assign(target, more)
    {
      args := target;
      var i := 0;
      while i < |more|
        invariant 0 <= i <= |more|
        invariant args == Assign(target, more[..i])
      {
        assert more[..i + 1][..i] == more[..i];
        args := Put(args, more[i]);
        i := i + 1;
      }
      assert more[..i] == more;
    }

    method InterceptRead(options: Options, request: Request, name: string, handled: Option<V>, getWorks: bool, setWorks: bool)
      returns (r: Option<V>)
      modifies cache`redis
      ensures (cache.redis, r) == Intercepted(old(cache.redis), cache.now,
                                    CacheKey(TenantOf(request.context, None), request.controller, name, ReadArgs(options, request)),
                                    Ttl(options), handled, getWorks, setWorks)
    {
      var args := GetMethodArguments(request.params, request.query);
      var argsKey := if options.includeArgs then args else NoArgs;
      if options.includeUserId && request.user.Some? {
        if argsKey.Fields? {
          var fields := AssignInto([Field("__userId", Str(request.user.value))], argsKey.fields);
          argsKey := Fields(fields);
        } else {
          argsKey := Word(request.user.value);
        }
      }
      r := cache.Get(request.context, request.controller, name, argsKey, getWorks);
      if r.Some? { return; }
      r := handled;
      if r.Some? {
        cache.Set(request.context, request.controller, name, r.value, Ttl(options), argsKey, setWorks);
      }
    }

    /** The eviction loop, entered only after the handler has returned. */
    method Invalidate(request: Request, targets: seq<Target>, works: nat -> bool)
      modifies cache`redis
      ensures cache.redis == EvictAll(old(cache.redis), request, targets, works)
    {
      var i := 0;
      while i < |targets|
        invariant 0 <= i <= |targets|
        invariant cache.redis == EvictAll(old(cache.redis), request, targets[..i], works)
      {
        assert targets[..i + 1][..i] == targets[..i];
        var t := targets[i];
        var reachable := works(i);
        i := i + 1;
        var override := Override(t);
        var tenant := TenantOf(request.context, override);
        if t.name == "*" {
          cache.DelMatching(ControllerPrefix(tenant, request.controller) + ['*'], reachable);
        } else {
          var argsKey := NoArgs;
          if t.includeUserId {
            if request.user.Some? {
              if t.includeArgs {
                cache.DelMatching(UserPrefix(tenant, request.controller, t.name, request.user.value) + ['*'], reachable);
                continue;
              }
              argsKey := Word(request.user.value);
            }
          } else if t.includeArgs {
            argsKey := GetMethodArguments(request.params, request.query);
          }
          cache.Del(request.context, request.controller, t.name, argsKey, override, reachable);
        }
      }
      assert targets[..i] == targets;
    }
  }

  // ----- what a key tells -----

  predicate ColonFree(s: string) {
    ':' !in s
  }

  /** A key without user id names its tenant, controller, method and arguments. */
  lemma KeyDetermines(tenant: string, controller: string, name: string, args: Args,
                      tenant': string, controller': string, name': string, args': Args)
    requires ColonFree(tenant) && ColonFree(controller) && ColonFree(name) && !args.Word?
    requires ColonFree(tenant') && ColonFree(controller') && ColonFree(name') && !args'.Word?
    requires CacheKey(tenant, controller, name, args) == CacheKey(tenant', controller', name', args')
    ensures tenant == tenant' && controller == controller' && name == name' && args == args'
  {
    var end, end' := name + ArgsText(args), name' + ArgsText(args');
    CutUnique(tenant, controller + [':'] + end, tenant', controller' + [':'] + end', ':');
    CutUnique(controller, end, controller', end', ':');
    EndDetermines(name, args, name', args');
  }

  lemma ColonMeansArgs(name: string, args: Args)
    requires ColonFree(name) && !args.Word?
    ensures ':' in name + ArgsText(args) <==> args.Fields?
    ensures args.NoArgs? ==> name + ArgsText(args) == name
  {}

  lemma EndDetermines(name: string, args: Args, name': string, args': Args)
    requires ColonFree(name) && ColonFree(name') && !args.Word? && !args'.Word?
    requires name + ArgsText(args) == name' + ArgsText(args')
    ensures name == name' && args == args'
  {
    ColonMeansArgs(name, args);
    ColonMeansArgs(name', args');
    if args.Fields? {
      var text, text' := Stringify(Object(args.fields)), Stringify(Object(args'.fields));
      assert name + ([':'] + text) == name + [':'] + text;
      assert name' + ([':'] + text') == name' + [':'] + text';
      CutUnique(name, text, name', text', ':');
      StringifyIsInjective(Object(args.fields), Object(args'.fields));
    }
  }

  // ----- evicting "all keys of a user" -----

  lemma PrefixCancels(a: string, x: string, y: string)
    ensures StartsWith(a + x, a + y) <==> StartsWith(x, y)
  {
    if |y| <= |x| {
      assert (a + x)[..|a + y|] == a + x[..|y|];
      assert (a + y)[|a|..] == y && (a + x[..|y|])[|a|..] == x[..|y|];
    }
  }

  /** The text a key's arguments contribute after the colon. */
  function AfterColon(args: Args): string
    requires !args.NoArgs?
  {
    if args.Word? then args.word else Stringify(Object(args.fields))
  }

  lemma UserPrefixMatches(tenant: string, controller: string, name: string, userId: string, args: Args)
    ensures StartsWith(CacheKey(tenant, controller, name, args), UserPrefix(tenant, controller, name, userId))
       <==> !args.NoArgs? && StartsWith(AfterColon(args), userId)
  {
    var front := tenant + [':'] + (controller + [':'] + name);
    assert CacheKey(tenant, controller, name, args) == front + ArgsText(args);
    assert UserPrefix(tenant, controller, name, userId) == front + ([':'] + userId);
    PrefixCancels(front, ArgsText(args), [':'] + userId);
    if !args.NoArgs? { PrefixCancels([':'], AfterColon(args), userId); }
  }

  /**
   Evicting a method's keys "for this user" removes a key of that tenant and method exactly when its arguments
   text starts with the user id, for names and ids without pattern characters. The key of a request without arguments
   goes. A key that combines user and arguments is an object's text, so it stays for every id that is not empty and does
   not open with a brace.
   */
  lemma UserEvictionIsByPrefix<V>(redis: Redis<V>, request: Request, t: Target, args: Args)
    requires t.name != "*" && t.includeUserId && t.includeArgs && request.user.Some?
    requires Literal(UserPrefix(TenantOf(request.context, Override(t)), request.controller, t.name, request.user.value))
    ensures var tenant := TenantOf(request.context, Override(t));
            var key := CacheKey(tenant, request.controller, t.name, args);
            var after := EvictOne(redis, request, t);
            var user := request.user.value;
            && (key in after <==> key in redis && (args.NoArgs? || !StartsWith(AfterColon(args), user)))
            && (args == Word(user) ==> key !in after)
            && (args.Fields? && user != "" && user[0] != '{' && key in redis ==> key in after)
  {
    var tenant := TenantOf(request.context, Override(t));
    var prefix := UserPrefix(tenant, request.controller, t.name, request.user.value);
    LiteralMatches(prefix, CacheKey(tenant, request.controller, t.name, args));
    UserPrefixMatches(tenant, request.controller, t.name, request.user.value, args);
    if args.Fields? {
      Opens(Object(args.fields), "");
    }
  }

  /** A user's cached request with arguments outlives the eviction that is meant to remove all of the user's keys. */
  lemma ArgumentKeysOutliveEviction<V>(redis: Redis<V>, read: Request, options: Options, write: Request, t: Target)
    requires t.name != "*" && t.includeUserId && t.includeArgs && options.includeUserId && options.includeArgs
    requires read.user == write.user && read.user.Some? && read.user.value != "" && read.user.value[0] != '{'
    requires read.controller == write.controller && TenantOf(read.context, None) == TenantOf(write.context, Override(t))
    requires Literal(UserPrefix(TenantOf(write.context, Override(t)), write.controller, t.name, write.user.value))
    ensures var key := CacheKey(TenantOf(read.context, None), read.controller, t.name, ReadArgs(options, read));
            key in EvictOne(redis, write, t) <==> key in redis && MethodArguments(read.params, read.query) != NoArgs
  {
    UserEvictionIsByPrefix(redis, write, t, ReadArgs(options, read));
  }

  // ----- what is stored is read back -----

  /**
   A miss that was answered `value` and stored is a hit with that value until the time-to-live has passed, whatever the
   handler would say by then; afterwards, and under every other key, reads are answered as if it had not been stored.
   */
  lemma StoredIsReadBack<V>(redis: Redis<V>, now: int, key: string, ttl: nat, value: V,
                            later: int, key': string, ttl': nat, handled: Option<V>, setWorks: bool)
    requires Live(redis, now, key).None? && now <= later
    ensures var stored := Intercepted(redis, now, key, ttl, Some(value), true, true).0;
            Intercepted(stored, later, key', ttl', handled, true, setWorks).1 ==
            if key' == key && later < now + 1000 * ttl then Some(value)
            else Intercepted(redis, later, key', ttl', handled, true, setWorks).1
  {}

  /** After its key was deleted a read is answered by its handler; every other read as before. */
  lemma DeletedIsReadAfresh<V>(redis: Redis<V>, request: Request, t: Target, now: int, key: string, ttl: nat,
                               handled: Option<V>, setWorks: bool)
    requires t.name != "*" && !(t.includeUserId && t.includeArgs && request.user.Some?)
    ensures var evicted := CacheKey(TenantOf(request.context, Override(t)), request.controller, t.name, EvictArgs(t, request));
            Intercepted(EvictOne(redis, request, t), now, key, ttl, handled, true, setWorks).1 ==
            if key == evicted then handled else Intercepted(redis, now, key, ttl, handled, true, setWorks).1
  {}

  // ----- merged arguments -----

  predicate DistinctNames(fields: seq<Field>) {
    forall i, j :: 0 <= i < j < |fields| ==> fields[i].name != fields[j].name
  }

  lemma {:induction false} PutNew(args: seq<Field>, f: Field)
    requires DistinctNames(args + [f])
    ensures Put(args, f) == args + [f]
  {
    if args != [] {
      var all := args + [f];
      assert all[0] == args[0] && all[|args|] == f;
      assert all[1..] == args[1..] + [f];
      PutNew(args[1..], f);
      assert args == [args[0]] + args[1..];
    }
  }

  lemma {:induction false} AssignDistinct(args: seq<Field>, more: seq<Field>)
    requires DistinctNames(args + more)
    ensures Assign(args, more) == args + more
  {
    if more == [] {
      assert args + more == args;
    } else {
      var n := |more| - 1;
      var all := args + more;
      assert all[..|args| + n] == args + more[..n];
      AssignDistinct(args, more[..n]);
      assert (args + more[..n]) + [more[n]] == all;
      PutNew(args + more[..n], more[n]);
    }
  }

  lemma ArgsOf(params: seq<Field>, query: seq<Field>)
    requires params != [] && DistinctNames(params + query)
    ensures MethodArguments(params, query) == Fields(params + query)
  {
    var all := params + query;
    assert all[..|params|] == params;
    assert [] + params == params;
    AssignDistinct([], params);
    AssignDistinct(params, query);
  }

  /** What the object holds under a name. */
  function ValueOf(fields: seq<Field>, name: string): Option<Value> {
    if fields == [] then None
    else if fields[0].name == name then Some(fields[0].value)
    else ValueOf(fields[1..], name)
  }

  lemma {:induction false} PutHolds(args: seq<Field>, f: Field, name: string)
    ensures ValueOf(Put(args, f), name) == if name == f.name then Some(f.value) else ValueOf(args, name)
  {
    if args == [] {
      assert [f][1..] == [];
    } else if args[0].name == f.name {
      assert ([f] + args[1..])[1..] == args[1..];
    } else {
      PutHolds(args[1..], f, name);
      assert Put(args, f)[1..] == Put(args[1..], f);
    }
  }

  /** Assigning overrides name by name: what the later object holds, else what was there. */
  lemma {:induction false} AssignHolds(args: seq<Field>, more: seq<Field>, name: string)
    requires DistinctNames(more)
    ensures ValueOf(Assign(args, more), name) == if ValueOf(more, name).Some? then ValueOf(more, name) else ValueOf(args, name)
  {
    if more != [] {
      var n := |more| - 1;
      AssignHolds(args, more[..n], name);
      PutHolds(Assign(args, more[..n]), more[n], name);
      ValueOfSnoc(more[..n], more[n], name);
      assert more == more[..n] + [more[n]];
    }
  }

  lemma {:induction false} ValueOfSnoc(fields: seq<Field>, f: Field, name: string)
    requires DistinctNames(fields + [f])
    ensures ValueOf(fields + [f], name) == if name == f.name then Some(f.value) else ValueOf(fields, name)
  {
    var all := fields + [f];
    if fields == [] {
      assert all[1..] == [];
    } else {
      assert all[0] == fields[0] && all[|fields|] == f && all[1..] == fields[1..] + [f];
      ValueOfSnoc(fields[1..], f, name);
    }
  }

  lemma {:induction false} PutKeepsDistinct(args: seq<Field>, f: Field)
    requires DistinctNames(args)
    ensures DistinctNames(Put(args, f))
    ensures forall g :: g in Put(args, f) ==> g == f || g in args
  {
    if args != [] && args[0].name != f.name {
      PutKeepsDistinct(args[1..], f);
      var rest := Put(args[1..], f);
      forall i | 0 <= i < |rest| ensures rest[i].name != args[0].name {
        if rest[i] != f {
          assert rest[i] in args[1..];
          var j :| 0 <= j < |args| - 1 && args[1..][j] == rest[i];
          assert args[j + 1] == rest[i];
        }
      }
    }
  }

  lemma {:induction false} AssignKeepsDistinct(args: seq<Field>, more: seq<Field>)
    requires DistinctNames(args)
    ensures DistinctNames(Assign(args, more))
  {
    if more != [] {
      AssignKeepsDistinct(args, more[..|more| - 1]);
      PutKeepsDistinct(Assign(args, more[..|more| - 1]), more[|more| - 1]);
    }
  }

  // ----- keys of users -----

  /** The argument object does not use the name reserved for the user. */
  predicate Unreserved(args: Args) {
    args.Fields? ==> forall i :: 0 <= i < |args.fields| ==> args.fields[i].name != "__userId"
  }

  /** An identifier that does not read as an object. */
  predicate PlainId(user: Option<string>) {
    user.Some? && user.value != "" ==> user.value[0] != '{'
  }

  predicate PlainWord(args: Args) {
    args.Word? && args.word != "" ==> args.word[0] != '{'
  }

  lemma ArgsTextUnique(args: Args, args': Args)
    requires PlainWord(args) && PlainWord(args') && ArgsText(args) == ArgsText(args')
    ensures args == args'
  {
    if args.NoArgs? || args'.NoArgs? {
      assert args.NoArgs? <==> |ArgsText(args)| == 0;
      assert args'.NoArgs? <==> |ArgsText(args')| == 0;
    } else {
      Peel(':', AfterColon(args), ':', AfterColon(args'));
      if args.Fields? { Opens(Object(args.fields), ""); }
      if args'.Fields? { Opens(Object(args'.fields), ""); }
      if args.Fields? && args'.Fields? { StringifyIsInjective(Object(args.fields), Object(args'.fields)); }
    }
  }

  lemma NameEnds(name: string, args: Args, name': string, args': Args)
    requires ColonFree(name) && ColonFree(name') && name + ArgsText(args) == name' + ArgsText(args')
    ensures name == name' && ArgsText(args) == ArgsText(args')
  {
    var whole := name + ArgsText(args);
    assert whole == name' + ArgsText(args');
    if |name| < |name'| {
      NameTooShort(name, args, name', args');
    } else if |name'| < |name| {
      NameTooShort(name', args', name, args);
    } else {
      assert name == whole[..|name|] && name' == whole[..|name'|];
      assert ArgsText(args) == whole[|name|..] && ArgsText(args') == whole[|name'|..];
    }
  }

  lemma NameTooShort(name: string, args: Args, name': string, args': Args)
    requires name + ArgsText(args) == name' + ArgsText(args') && |name| < |name'|
    ensures ':' in name'
  {
    var whole := name + ArgsText(args);
    assert |ArgsText(args)| > 0 && whole[|name|] == ArgsText(args)[0] == ':';
    assert name'[|name|] == (name' + ArgsText(args'))[|name|];
  }

  lemma ReadArgsUnique(options: Options, r: Request, r': Request)
    requires options.includeUserId && ReadArgs(options, r) == ReadArgs(options, r')
    requires Unreserved(MethodArguments(r.params, r.query)) && Unreserved(MethodArguments(r'.params, r'.query))
    ensures r.user == r'.user
    ensures options.includeArgs ==> MethodArguments(r.params, r.query) == MethodArguments(r'.params, r'.query)
  {
    WithUser(options, r);
    WithUser(options, r');
    var args, args' := ReadArgs(options, r), ReadArgs(options, r');
    if args.Fields? {
      var fields, fields' := MethodArguments(r.params, r.query).fields, MethodArguments(r'.params, r'.query).fields;
      assert r.user.Some? ==> args.fields[0].name == "__userId" && args.fields[1..] == fields;
      assert r'.user.Some? ==> args'.fields[0].name == "__userId" && args'.fields[1..] == fields';
    }
  }

  /** The user's id comes first in the object, or stands alone. */
  lemma WithUser(options: Options, r: Request)
    requires options.includeUserId && Unreserved(MethodArguments(r.params, r.query))
    ensures var args := if options.includeArgs then MethodArguments(r.params, r.query) else NoArgs;
            ReadArgs(options, r) ==
            if r.user.None? then args
            else if args.NoArgs? then Word(r.user.value)
            else Fields([Field("__userId", Str(r.user.value))] + args.fields)
    ensures MethodArguments(r.params, r.query).Fields? ==> MethodArguments(r.params, r.query).fields != []
  {
    var args := MethodArguments(r.params, r.query);
    if args.Fields? && r.user.Some? {
      var own := [Field("__userId", Str(r.user.value))];
      AssignKeepsDistinct([], r.params);
      AssignKeepsDistinct(Assign([], r.params), r.query);
      assert DistinctNames(own + args.fields);
      AssignDistinct(own, args.fields);
    }
  }

  /**
   With the user's id in the key, two requests share an entry only if tenant, controller, method, user and arguments are
   the same: for colon-free names, ids that do not open with a brace, and arguments that leave the reserved name alone.
   */
  lemma UsersNeverShareEntries(options: Options, r: Request, name: string, r': Request, name': string)
    requires options.includeUserId && PlainId(r.user) && PlainId(r'.user)
    requires ColonFree(TenantOf(r.context, None)) && ColonFree(r.controller) && ColonFree(name)
    requires ColonFree(TenantOf(r'.context, None)) && ColonFree(r'.controller) && ColonFree(name')
    requires Unreserved(MethodArguments(r.params, r.query)) && Unreserved(MethodArguments(r'.params, r'.query))
    requires CacheKey(TenantOf(r.context, None), r.controller, name, ReadArgs(options, r))
          == CacheKey(TenantOf(r'.context, None), r'.controller, name', ReadArgs(options, r'))
    ensures TenantOf(r.context, None) == TenantOf(r'.context, None) && r.controller == r'.controller && name == name'
    ensures r.user == r'.user
    ensures options.includeArgs ==> MethodArguments(r.params, r.query) == MethodArguments(r'.params, r'.query)
  {
    var args, args' := ReadArgs(options, r), ReadArgs(options, r');
    var end, end' := name + ArgsText(args), name' + ArgsText(args');
    CutUnique(TenantOf(r.context, None), r.controller + [':'] + end, TenantOf(r'.context, None), r'.controller + [':'] + end', ':');
    CutUnique(r.controller, end, r'.controller, end', ':');
    NameEnds(name, args, name', args');
    WithUser(options, r);
    WithUser(options, r');
    ArgsTextUnique(args, args');
    ReadArgsUnique(options, r, r');
  }

  // ----- small rules of the service -----

  /** An entry lives as long as declared, or five minutes if nothing, or zero, is declared. */
  lemma LifetimeRule(options: Options)
    ensures options.ttl.Some? && options.ttl.value > 0 ==> Ttl(options) == options.ttl.value
    ensures options.ttl == None || options.ttl == Some(0) ==> Ttl(options) == 300
  {}

  /** A wildcard target removes exactly the controller's keys of that tenant, for names without pattern characters. */
  lemma WildcardEvictsTheController<V>(redis: Redis<V>, request: Request, t: Target, key: string)
    requires t.name == "*" && Literal(ControllerPrefix(TenantOf(request.context, Override(t)), request.controller))
    ensures key in EvictOne(redis, request, t) <==>
            key in redis && !StartsWith(key, ControllerPrefix(TenantOf(request.context, Override(t)), request.controller))
  {
    LiteralMatches(ControllerPrefix(TenantOf(request.context, Override(t)), request.controller), key);
  }

  /** A target declared like a cached route, but for user and arguments together, deletes the key that route files under. */
  lemma MatchingTargetsMeet(t: Target, request: Request, ttl: Option<nat>)
    requires !(t.includeUserId && t.includeArgs)
    ensures EvictArgs(t, request) == ReadArgs(Options(ttl, t.includeArgs, t.includeUserId), request)
  {}

  /** A default-tenant target speaks of the entries that requests without a tenant filed, whatever the writer's tenant. */
  lemma DefaultTargetsMeetDefaultReads(context: Option<string>, t: Target, reader: Option<string>)
    ensures t.isDefaultTenant && (reader == None || reader == Some("")) ==>
              TenantOf(context, Override(t)) == TenantOf(reader, None) == "default"
    ensures !t.isDefaultTenant && context.Some? && context.value != "" ==> TenantOf(context, Override(t)) == context.value
  {}
}
