/**
 The fixed-window rate limiter: one counter per caller, restarted by the first request that arrives a full window
 after the counter's start. The module proves what this means over sliding intervals of a whole run.
 */
module RateLimiter {
  import opened Wrappers
  import opened Text

  // ----- options -----

  datatype Options = Options(windowMs: int, max: int, keyByUser: bool)

  /** What a `@RateLimit` decorator supplies; absent fields are inherited. */
  datatype Given = Given(windowMs: Option<int>, max: Option<int>, keyByUser: Option<bool>)

  const DEFAULTS := Options(60_000, 60, true)

  function ResolveOptions(controller: Option<Given>, handler: Option<Given>): Options {
    var none := Given(None, None, None);
    var c, h := controller.GetOr(none), handler.GetOr(none);
    Options(h.windowMs.Or(c.windowMs).GetOr(DEFAULTS.windowMs),
            h.max.Or(c.max).GetOr(DEFAULTS.max),
            h.keyByUser.Or(c.keyByUser).GetOr(DEFAULTS.keyByUser))
  }

  // ----- who is calling -----

  datatype User = User(id: Option<string>, userId: Option<string>, sub: Option<string>, tenantCode: Option<string>)

  datatype Request = Request(user: Option<User>, ip: Option<string>, remoteAddress: Option<string>,
                             paramTenant: Option<string>, controller: string, handler: string)

  datatype Principal = ByUser(userId: string) | ByIp(ip: string)

  datatype Caller = Caller(tenant: string, controller: string, handler: string, principal: Principal)

  function Identify(r: Request, keyByUser: bool): Caller {
    var none := User(None, None, None, None);
    var u := r.user.GetOr(none);
    var userId := if keyByUser then u.id.Or(u.userId).Or(u.sub) else None;
    var tenant := u.tenantCode.Or(r.paramTenant).GetOr("no-tenant");
    var principal := if userId.Some? then ByUser(userId.value)
                     else ByIp(r.ip.Or(r.remoteAddress).GetOr("unknown"));
    Caller(tenant, r.controller, r.handler, principal)
  }

  function Key(c: Caller): string {
    c.tenant + [':'] + (c.controller + ['.'] + (c.handler + [':'] + Suffix(c.principal)))
  }

  function PrincipalId(p: Principal): string {
    match p case ByUser(u) => u case ByIp(a) => a
  }

  /** Class and method names are identifiers. */
  predicate WellNamed(c: Caller) {
    '.' !in c.controller && ':' !in c.controller && ':' !in c.handler
  }

  /** No colon comes after a dot. This is so of UUIDs and of addresses, IPv6 and IPv4-mapped ones included. */
  predicate NoColonAfterDot(s: string) {
    forall i, j :: 0 <= i < j < |s| && s[i] == '.' ==> s[j] != ':'
  }

  predicate PlainPrincipal(c: Caller) {
    '.' !in c.handler && NoColonAfterDot(PrincipalId(c.principal))
  }

  /** Tenant codes may hold colons as long as principals are identifiers and addresses; or principals may be anything. */
  ghost predicate Separable(callers: set<Caller>) {
    && (forall c :: c in callers ==> WellNamed(c))
    && ((forall c :: c in callers ==> ':' !in c.tenant) || (forall c :: c in callers ==> PlainPrincipal(c)))
  }

  /** The part of a key after the handler's name. */
  function Suffix(p: Principal): string {
    match p case ByUser(u) => "user:" + u case ByIp(a) => "ip:" + a
  }

  lemma SuffixUnique(p: Principal, q: Principal)
    requires Suffix(p) == Suffix(q)
    ensures p == q
  {
    assert Suffix(p)[0] == Suffix(q)[0];
    match p {
      case ByUser(u) => assert u == Suffix(p)[5..] == Suffix(q)[5..];
      case ByIp(x) => assert x == Suffix(p)[3..] == Suffix(q)[3..];
    }
  }

  /** From the left: with colon-free tenants the first colon ends the tenant. */
  lemma KeysFromTheLeft(a: Caller, b: Caller)
    requires WellNamed(a) && WellNamed(b) && ':' !in a.tenant && ':' !in b.tenant && Key(a) == Key(b)
    ensures a == b
  {
    var pa, pb := Suffix(a.principal), Suffix(b.principal);
    CutUnique(a.tenant, a.controller + ['.'] + (a.handler + [':'] + pa),
              b.tenant, b.controller + ['.'] + (b.handler + [':'] + pb), ':');
    CutUnique(a.controller, a.handler + [':'] + pa, b.controller, b.handler + [':'] + pb, '.');
    CutUnique(a.handler, pa, b.handler, pb, ':');
    SuffixUnique(a.principal, b.principal);
  }

  /** The dot after the class name is the last one with a colon after it. */
  lemma LastDot(x: string, s: string, y: string, t: string)
    requires x + ['.'] + s == y + ['.'] + t
    requires NoColonAfterDot(s) && NoColonAfterDot(t) && ':' in s && ':' in t
    ensures x == y && s == t
  {
    var whole := x + ['.'] + s;
    if |x| < |y| {
      DotInside(x, s, y, t);
    } else if |y| < |x| {
      DotInside(y, t, x, s);
    } else {
      assert x == whole[..|x|] && y == whole[..|y|];
      assert s == whole[|x| + 1..] && t == whole[|y| + 1..];
    }
  }

  lemma DotInside(x: string, s: string, y: string, t: string)
    requires x + ['.'] + s == y + ['.'] + t && |x| < |y| && ':' in t
    ensures !NoColonAfterDot(s)
  {
    var whole := x + ['.'] + s;
    var d := |y| - |x| - 1;
    var k :| 0 <= k < |t| && t[k] == ':';
    assert s[d] == whole[|y|] == '.';
    assert s[d + 1 + k] == whole[|y| + 1 + k] == t[k];
  }

  lemma LastColon(x: string, s: string, y: string, t: string)
    requires x + [':'] + s == y + [':'] + t && ':' !in s && ':' !in t
    ensures x == y && s == t
  {
    var whole := x + [':'] + s;
    if |x| < |y| {
      ColonInside(x, s, y, t);
    } else if |y| < |x| {
      ColonInside(y, t, x, s);
    } else {
      assert x == whole[..|x|] && y == whole[..|y|];
      assert s == whole[|x| + 1..] && t == whole[|y| + 1..];
    }
  }

  lemma ColonInside(x: string, s: string, y: string, t: string)
    requires x + [':'] + s == y + [':'] + t && |x| < |y|
    ensures ':' in s
  {
    assert s[|y| - |x| - 1] == (x + [':'] + s)[|y|];
  }

  lemma TailHasNoColonAfterDot(c: Caller)
    requires WellNamed(c) && PlainPrincipal(c)
    ensures NoColonAfterDot(c.handler + [':'] + Suffix(c.principal)) && ':' in c.handler + [':'] + Suffix(c.principal)
  {
    var id, suffix := PrincipalId(c.principal), Suffix(c.principal);
    var front := c.handler + [':'] + if c.principal.ByUser? then "user:" else "ip:";
    var tail := c.handler + [':'] + suffix;
    assert tail == front + id;
    assert '.' !in front;
    assert tail[|c.handler|] == ':';
    forall i, j | 0 <= i < j < |tail| && tail[i] == '.' ensures tail[j] != ':' {
      assert i >= |front| && tail[i] == id[i - |front|] && tail[j] == id[j - |front|];
    }
  }

  /** From the right: with plain principals the last dot that has a colon after it ends the class name. */
  lemma KeysFromTheRight(a: Caller, b: Caller)
    requires WellNamed(a) && WellNamed(b) && PlainPrincipal(a) && PlainPrincipal(b) && Key(a) == Key(b)
    ensures a == b
  {
    var sa, sb := a.handler + [':'] + Suffix(a.principal), b.handler + [':'] + Suffix(b.principal);
    TailHasNoColonAfterDot(a);
    TailHasNoColonAfterDot(b);
    assert Key(a) == (a.tenant + [':'] + a.controller) + ['.'] + sa;
    assert Key(b) == (b.tenant + [':'] + b.controller) + ['.'] + sb;
    LastDot(a.tenant + [':'] + a.controller, sa, b.tenant + [':'] + b.controller, sb);
    LastColon(a.tenant, a.controller, b.tenant, b.controller);
    CutUnique(a.handler, Suffix(a.principal), b.handler, Suffix(b.principal), ':');
    SuffixUnique(a.principal, b.principal);
  }

  /** Two callers share a counter exactly when tenant, handler and principal are the same. */
  lemma KeysSeparateCallers(callers: set<Caller>, a: Caller, b: Caller)
    requires Separable(callers) && a in callers && b in callers
    ensures Key(a) == Key(b) <==> a == b
  {
    if Key(a) == Key(b) {
      if ':' in a.tenant || ':' in b.tenant {
        KeysFromTheRight(a, b);
      } else {
        KeysFromTheLeft(a, b);
      }
    }
  }

  // ----- the counter -----

  datatype Counter = Counter(count: int, windowStart: int)

  datatype Decision = Decision(admitted: bool, limit: int, remaining: int, resetSeconds: int)

  function Max0(x: int): int {
    if x < 0 then 0 else x
  }

  function Bump(prev: Option<Counter>, now: int, windowMs: int): Counter {
    if prev.None? || now - prev.value.windowStart >= windowMs then Counter(1, now)
    else Counter(prev.value.count + 1, prev.value.windowStart)
  }

  function Answer(c: Counter, now: int, o: Options): Decision {
    var resetInMs := Max0(o.windowMs - (now - c.windowStart));
    Decision(c.count <= o.max, o.max, Max0(o.max - c.count), (resetInMs + 999) / 1000)
  }

  class RateLimitInterceptor {
    var counters: map<string, Counter>

    constructor ()
      ensures counters == map[]
    {
      counters := map[];
    }

    method Intercept(request: Request, controller: Option<Given>, handler: Option<Given>, now: int)
      returns (decision: Decision)
      modifies this
      ensures var o := ResolveOptions(controller, handler);
              var key := Key(Identify(request, o.keyByUser));
              && counters == old(counters)[key := Bump(Lookup(old(counters), key), now, o.windowMs)]
              && decision == Answer(counters[key], now, o)
    {
      var options := ResolveOptions(controller, handler);
      var key := Key(Identify(request, options.keyByUser));
      if key !in counters || now - counters[key].windowStart >= options.windowMs {
        counters := counters[key := Counter(1, now)];
      } else {
        var existing := counters[key];
        counters := counters[key := existing.(count := existing.count + 1)];
      }
      var state := counters[key];
      var remaining := if options.max - state.count < 0 then 0 else options.max - state.count;
      var resetInMs := options.windowMs - (now - state.windowStart);
      if resetInMs < 0 { resetInMs := 0; }
      decision := Decision(!(state.count > options.max), options.max, remaining, (resetInMs + 999) / 1000);
    }
  }

  // ----- runs -----

  datatype Arrival = Arrival(who: Caller, time: int)

  /** The decisions of a whole run, `opts` giving each caller's options (they belong to its handler). */
  ghost function Decisions(counters: map<string, Counter>, run: seq<Arrival>, opts: Caller -> Options): seq<Decision>
    decreases |run|
  {
    if run == [] then []
    else
      var key, o := Key(run[0].who), opts(run[0].who);
      var c := Bump(Lookup(counters, key), run[0].time, o.windowMs);
      [Answer(c, run[0].time, o)] + Decisions(counters[key := c], run[1..], opts)
  }

  /** The decisions of a run of one caller alone. */
  function AloneDecisions(prev: Option<Counter>, times: seq<int>, o: Options): (ds: seq<Decision>)
    ensures |ds| == |times|
    decreases |times|
  {
    if times == [] then []
    else
      var c := Bump(prev, times[0], o.windowMs);
      [Answer(c, times[0], o)] + AloneDecisions(Some(c), times[1..], o)
  }

  function TimesOf(run: seq<Arrival>, who: Caller): seq<int> {
    if run == [] then []
    else (if run[0].who == who then [run[0].time] else []) + TimesOf(run[1..], who)
  }

  function DecisionsFor(run: seq<Arrival>, ds: seq<Decision>, who: Caller): seq<Decision>
    requires |ds| == |run|
  {
    if run == [] then []
    else (if run[0].who == who then [ds[0]] else []) + DecisionsFor(run[1..], ds[1..], who)
  }

  lemma {:induction false} DecisionsLength(counters: map<string, Counter>, run: seq<Arrival>, opts: Caller -> Options)
    ensures |Decisions(counters, run, opts)| == |run|
    decreases |run|
  {
    if run != [] {
      var key, o := Key(run[0].who), opts(run[0].who);
      DecisionsLength(counters[key := Bump(Lookup(counters, key), run[0].time, o.windowMs)], run[1..], opts);
    }
  }

  /** A caller is decided as if it were alone: only its own requests count. */
  lemma {:induction false} CallersAreIndependent(counters: map<string, Counter>, run: seq<Arrival>,
                                                opts: Caller -> Options, callers: set<Caller>, who: Caller)
    requires Separable(callers) && who in callers && forall i :: 0 <= i < |run| ==> run[i].who in callers
    ensures |Decisions(counters, run, opts)| == |run|
    ensures DecisionsFor(run, Decisions(counters, run, opts), who)
         == AloneDecisions(Lookup(counters, Key(who)), TimesOf(run, who), opts(who))
    decreases |run|
  {
    DecisionsLength(counters, run, opts);
    if run != [] {
      var key, o := Key(run[0].who), opts(run[0].who);
      var c := Bump(Lookup(counters, key), run[0].time, o.windowMs);
      var next := counters[key := c];
      KeysSeparateCallers(callers, run[0].who, who);
      CallersAreIndependent(next, run[1..], opts, callers, who);
      var ds := Decisions(counters, run, opts);
      assert ds[1..] == Decisions(next, run[1..], opts);
      var times := TimesOf(run, who);
      if run[0].who == who {
        assert times[1..] == TimesOf(run[1..], who);
      } else {
        assert times == TimesOf(run[1..], who);
        assert Lookup(next, Key(who)) == Lookup(counters, Key(who));
        assert DecisionsFor(run, ds, who) == DecisionsFor(run[1..], ds[1..], who);
      }
    }
  }

  // ----- what the decorators and the request decide -----

  /** Field by field: what the handler's decorator gives, else the controller's, else a minute, 60 requests, by user. */
  lemma HandlerBeforeController(controller: Option<Given>, handler: Option<Given>)
    ensures var o := ResolveOptions(controller, handler);
            var c, h := controller.GetOr(Given(None, None, None)), handler.GetOr(Given(None, None, None));
            && (h.windowMs.Some? ==> o.windowMs == h.windowMs.value)
            && (h.windowMs.None? && c.windowMs.Some? ==> o.windowMs == c.windowMs.value)
            && (h.windowMs.None? && c.windowMs.None? ==> o.windowMs == 60_000)
            && (h.max.Some? ==> o.max == h.max.value)
            && (h.max.None? && c.max.Some? ==> o.max == c.max.value)
            && (h.max.None? && c.max.None? ==> o.max == 60)
            && (h.keyByUser.Some? ==> o.keyByUser == h.keyByUser.value)
            && (h.keyByUser.None? && c.keyByUser.Some? ==> o.keyByUser == c.keyByUser.value)
            && (h.keyByUser.None? && c.keyByUser.None? ==> o.keyByUser)
  {}

  /** A user is known by `id`, else `userId`, else `sub`; anybody else, and everybody if keys are not by user, by address. */
  lemma PrincipalPrecedence(r: Request, keyByUser: bool)
    ensures var p := Identify(r, keyByUser).principal;
            var known := keyByUser && r.user.Some?;
            && (known && r.user.value.id.Some? ==> p == ByUser(r.user.value.id.value))
            && (known && r.user.value.id.None? && r.user.value.userId.Some? ==> p == ByUser(r.user.value.userId.value))
            && (known && r.user.value.id.None? && r.user.value.userId.None? && r.user.value.sub.Some? ==>
                  p == ByUser(r.user.value.sub.value))
            && (!known || (r.user.value.id.None? && r.user.value.userId.None? && r.user.value.sub.None?) ==> p.ByIp?)
            && (p.ByIp? && r.ip.Some? ==> p.ip == r.ip.value)
            && (p.ByIp? && r.ip.None? && r.remoteAddress.Some? ==> p.ip == r.remoteAddress.value)
            && (p.ByIp? && r.ip.None? && r.remoteAddress.None? ==> p.ip == "unknown")
  {}

  /** The user's tenant comes before the path's. */
  lemma TenantPrecedence(r: Request, keyByUser: bool)
    ensures var c := Identify(r, keyByUser); var own := r.user.Some? && r.user.value.tenantCode.Some?;
            && (own ==> c.tenant == r.user.value.tenantCode.value)
            && (!own && r.paramTenant.Some? ==> c.tenant == r.paramTenant.value)
            && (!own && r.paramTenant.None? ==> c.tenant == "no-tenant")
            && c.controller == r.controller && c.handler == r.handler
  {}

  // ----- one window -----

  lemma {:induction false} WithinWindow(c: Counter, times: seq<int>, o: Options, i: nat)
    requires i < |times| && forall j :: 0 <= j < |times| ==> times[j] - c.windowStart < o.windowMs
    ensures AloneDecisions(Some(c), times, o)[i] == Answer(Counter(c.count + 1 + i, c.windowStart), times[i], o)
    decreases |times|
  {
    if i > 0 {
      var c' := Bump(Some(c), times[0], o.windowMs);
      WithinWindow(c', times[1..], o, i - 1);
      assert AloneDecisions(Some(c), times, o)[i] == AloneDecisions(Some(c'), times[1..], o)[i - 1];
    }
  }

  /** Of the requests of a window its first `max` are admitted and no other; each is told the limit and what is left. */
  lemma FirstMaxAreAdmitted(times: seq<int>, o: Options, i: nat)
    requires i < |times| && forall j :: 0 <= j < |times| ==> times[j] - times[0] < o.windowMs
    ensures var d := AloneDecisions(None, times, o)[i];
            && (d.admitted <==> i < o.max) && d.limit == o.max
            && d.remaining == (if i + 1 < o.max then o.max - (i + 1) else 0)
  {
    var c := Counter(1, times[0]);
    if i > 0 {
      assert AloneDecisions(None, times, o)[i] == AloneDecisions(Some(c), times[1..], o)[i - 1];
      WithinWindow(c, times[1..], o, i - 1);
    }
  }

  /** So a maximum on the handler's decorator rules, whatever the controller's says. */
  lemma HandlerMaximumRules(controller: Option<Given>, handler: Given, times: seq<int>, i: nat)
    requires handler.max.Some?
    requires var o := ResolveOptions(controller, Some(handler));
             i < |times| && forall j :: 0 <= j < |times| ==> times[j] - times[0] < o.windowMs
    ensures var d := AloneDecisions(None, times, ResolveOptions(controller, Some(handler)))[i];
            (d.admitted <==> i < handler.max.value) && d.limit == handler.max.value
  {
    HandlerBeforeController(controller, Some(handler));
    FirstMaxAreAdmitted(times, ResolveOptions(controller, Some(handler)), i);
  }

  // ----- the sliding interval -----

  /** How many of the requests with `lo <= time < hi` were admitted. */
  function AdmittedIn(times: seq<int>, ds: seq<Decision>, lo: int, hi: int): nat
    requires |ds| == |times|
  {
    if times == [] then 0
    else (if lo <= times[0] < hi && ds[0].admitted then 1 else 0) + AdmittedIn(times[1..], ds[1..], lo, hi)
  }

  predicate Ordered(times: seq<int>) {
    forall i, j :: 0 <= i < j < |times| ==> times[i] <= times[j]
  }

  ghost predicate OrderedFrom(start: int, times: seq<int>) {
    Ordered(times) && (times != [] ==> start <= times[0])
  }

  function Count(prev: Option<Counter>, times: seq<int>, o: Options, lo: int, hi: int): nat {
    AdmittedIn(times, AloneDecisions(prev, times, o), lo, hi)
  }

  lemma CountStep(prev: Option<Counter>, times: seq<int>, o: Options, lo: int, hi: int)
    requires times != []
    ensures var c := Bump(prev, times[0], o.windowMs);
            Count(prev, times, o, lo, hi) ==
            (if lo <= times[0] < hi && c.count <= o.max then 1 else 0) + Count(Some(c), times[1..], o, lo, hi)
  {
    var c := Bump(prev, times[0], o.windowMs);
    assert AloneDecisions(prev, times, o)[1..] == AloneDecisions(Some(c), times[1..], o);
  }

  lemma {:induction false} CountGrows(prev: Option<Counter>, times: seq<int>, o: Options, lo: int, hi: int, hi': int)
    requires hi <= hi'
    ensures Count(prev, times, o, lo, hi) <= Count(prev, times, o, lo, hi')
    decreases |times|
  {
    if times != [] {
      CountStep(prev, times, o, lo, hi);
      CountStep(prev, times, o, lo, hi');
      CountGrows(Some(Bump(prev, times[0], o.windowMs)), times[1..], o, lo, hi, hi');
    }
  }

  lemma {:induction false} NoneBeyond(prev: Option<Counter>, times: seq<int>, o: Options, lo: int, hi: int)
    requires OrderedFrom(hi, times)
    ensures Count(prev, times, o, lo, hi) == 0
    decreases |times|
  {
    if times != [] {
      CountStep(prev, times, o, lo, hi);
      NoneBeyond(Some(Bump(prev, times[0], o.windowMs)), times[1..], o, lo, hi);
    }
  }

  /** `n * x` as a sum, so that the counting below stays linear. */
  function Times(n: nat, x: int): int {
    if n == 0 then 0 else Times(n - 1, x) + x
  }

  lemma {:induction false} TimesIsProduct(n: nat, x: int)
    ensures Times(n, x) == n * x
  {
    if n > 0 { TimesIsProduct(n - 1, x); }
  }

  lemma {:induction false} TimesPositive(n: nat, x: int)
    requires x >= 0
    ensures Times(n, x) >= 0
  {
    if n > 0 { TimesPositive(n - 1, x); }
  }

  /** With a window open since `c.windowStart`, at most the rest of it and `j` full windows fit into `j + 1` lengths. */
  lemma {:induction false} FromOpenWindow(c: Counter, times: seq<int>, o: Options, lo: int, j: nat)
    requires c.count >= 1 && o.max >= 1 && o.windowMs > 0
    requires OrderedFrom(c.windowStart, times)
    ensures Count(Some(c), times, o, lo, c.windowStart + Times(j + 1, o.windowMs)) <= Max0(o.max - c.count) + Times(j, o.max)
    decreases |times|
  {
    var hi := c.windowStart + Times(j + 1, o.windowMs);
    TimesPositive(j, o.max);
    if times != [] {
      var t, c' := times[0], Bump(Some(c), times[0], o.windowMs);
      CountStep(Some(c), times, o, lo, hi);
      if t - c.windowStart < o.windowMs {
        FromOpenWindow(c', times[1..], o, lo, j);
      } else if j == 0 {
        NoneBeyond(Some(c'), times[1..], o, lo, hi);
      } else {
        CountGrows(Some(c'), times[1..], o, lo, hi, t + Times(j, o.windowMs));
        FromOpenWindow(c', times[1..], o, lo, j - 1);
      }
    }
  }

  lemma {:induction false} SlidingAlone(prev: Option<Counter>, times: seq<int>, o: Options, lo: int, k: nat)
    requires o.max >= 1 && o.windowMs > 0
    requires Ordered(times)
    requires prev.Some? ==> prev.value.count >= 1 && OrderedFrom(prev.value.windowStart, times)
    ensures Count(prev, times, o, lo, lo + Times(k, o.windowMs)) <= Times(k + 1, o.max) - 1
    decreases |times|
  {
    var hi := lo + Times(k, o.windowMs);
    TimesPositive(k, o.max);
    if times != [] {
      var t, c := times[0], Bump(prev, times[0], o.windowMs);
      CountStep(prev, times, o, lo, hi);
      if t < lo {
        SlidingAlone(Some(c), times[1..], o, lo, k);
      } else if k == 0 {
        NoneBeyond(prev, times, o, lo, hi);
      } else if prev.None? || t - prev.value.windowStart >= o.windowMs {
        CountGrows(Some(c), times[1..], o, lo, hi, t + Times(k, o.windowMs));
        FromOpenWindow(c, times[1..], o, lo, k - 1);
      } else {
        var w := prev.value.windowStart;
        CountGrows(prev, times, o, lo, hi, w + Times(k + 1, o.windowMs));
        FromOpenWindow(prev.value, times, o, lo, k);
      }
    }
  }

  lemma {:induction false} NoneWithoutQuota(prev: Option<Counter>, times: seq<int>, o: Options, lo: int, hi: int)
    requires prev.Some? ==> prev.value.count >= 1
    requires o.max <= 0
    ensures Count(prev, times, o, lo, hi) == 0
    decreases |times|
  {
    if times != [] {
      CountStep(prev, times, o, lo, hi);
      NoneWithoutQuota(Some(Bump(prev, times[0], o.windowMs)), times[1..], o, lo, hi);
    }
  }

  lemma {:induction false} EmptyInterval(times: seq<int>, ds: seq<Decision>, lo: int, hi: int)
    requires |ds| == |times| && hi <= lo
    ensures AdmittedIn(times, ds, lo, hi) == 0
  {
    if times != [] { EmptyInterval(times[1..], ds[1..], lo, hi); }
  }

  predicate InOrder(run: seq<Arrival>) {
    forall i, j :: 0 <= i < j < |run| ==> run[i].time <= run[j].time
  }

  lemma {:induction false} TimesStayOrdered(run: seq<Arrival>, who: Caller, start: int)
    requires InOrder(run) && forall i :: 0 <= i < |run| ==> start <= run[i].time
    ensures Ordered(TimesOf(run, who))
    ensures forall i :: 0 <= i < |TimesOf(run, who)| ==> start <= TimesOf(run, who)[i]
  {
    if run != [] {
      TimesStayOrdered(run[1..], who, run[0].time);
    }
  }

  /**
   In every time-ordered run of all callers, a caller gets fewer than `(k + 1) * max` requests admitted in any
   half-open interval of `k` window lengths: at most `2 * max - 1` in one.
   */
  lemma SlidingBound(run: seq<Arrival>, opts: Caller -> Options, callers: set<Caller>, who: Caller, lo: int, k: nat)
    requires InOrder(run)
    requires Separable(callers) && who in callers && forall i :: 0 <= i < |run| ==> run[i].who in callers
    ensures |Decisions(map[], run, opts)| == |run|
    ensures var o := opts(who);
            var ds := DecisionsFor(run, Decisions(map[], run, opts), who);
            && |ds| == |TimesOf(run, who)|
            && AdmittedIn(TimesOf(run, who), ds, lo, lo + k * o.windowMs) <= Max0((k + 1) * o.max - 1)
  {
    CallersAreIndependent(map[], run, opts, callers, who);
    var o, times := opts(who), TimesOf(run, who);
    TimesStayOrdered(run, who, if run == [] then 0 else run[0].time);
    if o.max <= 0 {
      NoneWithoutQuota(None, times, o, lo, lo + k * o.windowMs);
    } else if o.windowMs <= 0 {
      NoLength(k, o.windowMs);
      EmptyInterval(times, AloneDecisions(None, times, o), lo, lo + k * o.windowMs);
    } else {
      SlidingAlone(None, times, o, lo, k);
      TimesIsProduct(k, o.windowMs);
      TimesIsProduct(k + 1, o.max);
    }
  }

  lemma NoLength(k: nat, w: int)
    requires w <= 0
    ensures k * w <= 0
  {}

  // ----- the bound is reached -----

  /** `n` requests at time `t`. */
  function Burst(t: int, n: nat): seq<int>
    decreases n
  {
    if n == 0 then [] else [t] + Burst(t, n - 1)
  }

  /** A full burst at `t` and at each of the next `n - 1` window starts. */
  function Bursts(t: int, n: nat, o: Options): seq<int>
    requires o.max >= 1
    decreases n
  {
    if n == 0 then [] else Burst(t, o.max) + Bursts(t + o.windowMs, n - 1, o)
  }

  /** One request opens a window, the others come at its end, then every window is filled as it opens. */
  function Worst(k: nat, o: Options): seq<int>
    requires o.max >= 1
  {
    [0] + (Burst(o.windowMs - 1, o.max - 1) + Bursts(o.windowMs, k, o))
  }

  lemma {:induction false} BurstAdmitted(c: Counter, t: int, n: nat, rest: seq<int>, o: Options, lo: int, hi: int)
    requires t - c.windowStart < o.windowMs && c.count + n <= o.max && lo <= t < hi
    ensures Count(Some(c), Burst(t, n) + rest, o, lo, hi)
         == n + Count(Some(Counter(c.count + n, c.windowStart)), rest, o, lo, hi)
    decreases n
  {
    var times := Burst(t, n) + rest;
    if n == 0 {
      assert times == rest;
    } else {
      assert times[0] == t && times[1..] == Burst(t, n - 1) + rest;
      CountStep(Some(c), times, o, lo, hi);
      BurstAdmitted(Counter(c.count + 1, c.windowStart), t, n - 1, rest, o, lo, hi);
    }
  }

  lemma {:induction false} BurstsAdmitted(c: Counter, t: int, n: nat, o: Options, lo: int, hi: int)
    requires o.max >= 1 && o.windowMs >= 1 && t - c.windowStart >= o.windowMs && lo <= t
    requires n >= 1 ==> t + Times(n - 1, o.windowMs) < hi
    ensures Count(Some(c), Bursts(t, n, o), o, lo, hi) == Times(n, o.max)
    decreases n
  {
    if n > 0 {
      TimesPositive(n - 1, o.windowMs);
      var rest := Bursts(t + o.windowMs, n - 1, o);
      var times := Bursts(t, n, o);
      assert Burst(t, o.max) == [t] + Burst(t, o.max - 1);
      assert times[0] == t && times[1..] == Burst(t, o.max - 1) + rest;
      CountStep(Some(c), times, o, lo, hi);
      BurstAdmitted(Counter(1, t), t, o.max - 1, rest, o, lo, hi);
      BurstsAdmitted(Counter(o.max, t), t + o.windowMs, n - 1, o, lo, hi);
    }
  }

  lemma {:induction false} BurstOrdered(t: int, n: nat, rest: seq<int>)
    requires OrderedFrom(t, rest)
    ensures OrderedFrom(t, Burst(t, n) + rest)
  {
    if n == 0 {
      assert Burst(t, n) + rest == rest;
    } else {
      BurstOrdered(t, n - 1, rest);
      var times := Burst(t, n - 1) + rest;
      assert Burst(t, n) + rest == [t] + times;
      assert forall i :: 0 <= i < |times| ==> times[0] <= times[i];
    }
  }

  lemma {:induction false} BurstsOrdered(t: int, n: nat, o: Options)
    requires o.max >= 1 && o.windowMs >= 1
    ensures OrderedFrom(t, Bursts(t, n, o))
    decreases n
  {
    if n > 0 {
      BurstsOrdered(t + o.windowMs, n - 1, o);
      BurstOrdered(t, o.max, Bursts(t + o.windowMs, n - 1, o));
    }
  }

  lemma WorstIsOrdered(k: nat, o: Options)
    requires o.max >= 1 && o.windowMs >= 2
    ensures Ordered(Worst(k, o))
  {
    var bursts := Bursts(o.windowMs, k, o);
    BurstsOrdered(o.windowMs, k, o);
    BurstOrdered(o.windowMs - 1, o.max - 1, bursts);
    var times := Burst(o.windowMs - 1, o.max - 1) + bursts;
    assert forall i :: 0 <= i < |times| ==> times[0] <= times[i];
  }

  lemma WorstAdmitted(k: nat, o: Options, hi: int)
    requires k >= 1 && o.max >= 1 && o.windowMs >= 2 && hi == o.windowMs - 1 + Times(k, o.windowMs)
    ensures Count(None, Worst(k, o), o, o.windowMs - 1, hi) == o.max - 1 + Times(k, o.max)
  {
    var lo, worst := o.windowMs - 1, Worst(k, o);
    var bursts := Bursts(o.windowMs, k, o);
    TimesPositive(k - 1, o.windowMs);
    assert worst[0] == 0 && worst[1..] == Burst(lo, o.max - 1) + bursts;
    CountStep(None, worst, o, lo, hi);
    BurstAdmitted(Counter(1, 0), lo, o.max - 1, bursts, o, lo, hi);
    BurstsAdmitted(Counter(o.max, 0), o.windowMs, k, o, lo, hi);
  }

  /** For every number of windows, every quota and every window of at least two milliseconds, the bound is reached. */
  lemma SlidingBoundIsTight(k: nat, o: Options)
    requires k >= 1 && o.max >= 1 && o.windowMs >= 2
    ensures Ordered(Worst(k, o))
    ensures var lo := o.windowMs - 1; Count(None, Worst(k, o), o, lo, lo + k * o.windowMs) == (k + 1) * o.max - 1
  {
    WorstIsOrdered(k, o);
    var w, q := Times(k, o.windowMs), Times(k + 1, o.max);
    assert w == k * o.windowMs by { TimesIsProduct(k, o.windowMs); }
    assert q == (k + 1) * o.max by { TimesIsProduct(k + 1, o.max); }
    WorstAdmitted(k, o, o.windowMs - 1 + w);
  }

  // ----- the headers -----

  /** `X-RateLimit-Remaining` is exact: of the further requests in this window, the first `remaining` are admitted. */
  lemma {:induction false} RemainingIsExact(c: Counter, now: int, times: seq<int>, o: Options)
    requires forall i :: 0 <= i < |times| ==> times[i] - c.windowStart < o.windowMs
    ensures forall i :: 0 <= i < |times| ==>
              (AloneDecisions(Some(c), times, o)[i].admitted <==> i < Answer(c, now, o).remaining)
    decreases |times|
  {
    if times != [] {
      var c' := Bump(Some(c), times[0], o.windowMs);
      RemainingIsExact(c', now, times[1..], o);
      var ds, rest := AloneDecisions(Some(c), times, o), AloneDecisions(Some(c'), times[1..], o);
      assert forall i :: 1 <= i < |times| ==> ds[i] == rest[i - 1];
    }
  }

  /** `X-RateLimit-Reset` is sufficient: the caller's next request, sent no sooner than that, is admitted. */
  lemma ResetSuffices(c: Counter, now: int, next: int, o: Options)
    requires o.max >= 1 && next >= now + 1000 * Answer(c, now, o).resetSeconds
    ensures AloneDecisions(Some(c), [next], o)[0].admitted
  {
    var ms := Max0(o.windowMs - (now - c.windowStart));
    assert 1000 * ((ms + 999) / 1000) >= ms;
  }

  /** And it is not longer than needed: with the window full, a request more than a second sooner is refused. */
  lemma ResetIsTight(c: Counter, now: int, next: int, o: Options)
    requires c.count >= o.max && c.windowStart <= now && Answer(c, now, o).resetSeconds >= 1
    requires next <= now + 1000 * (Answer(c, now, o).resetSeconds - 1)
    ensures !AloneDecisions(Some(c), [next], o)[0].admitted
  {
    var ms := Max0(o.windowMs - (now - c.windowStart));
    assert 1000 * ((ms + 999) / 1000 - 1) < ms;
  }

  // ----- the interceptor over a whole run -----

  /** Options belong to the route. */
  datatype Routes = Routes(controllers: string -> Option<Given>, handlers: (string, string) -> Option<Given>)

  function OptionsOf(routes: Routes): Caller -> Options {
    (c: Caller) => ResolveOptions(routes.controllers(c.controller), routes.handlers(c.controller, c.handler))
  }

  function ArrivalOf(routes: Routes, r: Request, time: int): Arrival {
    var o := ResolveOptions(routes.controllers(r.controller), routes.handlers(r.controller, r.handler));
    Arrival(Identify(r, o.keyByUser), time)
  }

  function ArrivalsOf(routes: Routes, requests: seq<(Request, int)>): seq<Arrival> {
    seq(|requests|, i requires 0 <= i < |requests| => ArrivalOf(routes, requests[i].0, requests[i].1))
  }

  /** One request is the next decision of the run, whatever is still to come. */
  method InterceptNext(limiter: RateLimitInterceptor, routes: Routes, r: Request, time: int, ghost rest: seq<Arrival>)
    returns (d: Decision)
    modifies limiter
    ensures Decisions(old(limiter.counters), [ArrivalOf(routes, r, time)] + rest, OptionsOf(routes))
         == [d] + Decisions(limiter.counters, rest, OptionsOf(routes))
  {
    ghost var counters, run := limiter.counters, [ArrivalOf(routes, r, time)] + rest;
    d := limiter.Intercept(r, routes.controllers(r.controller), routes.handlers(r.controller, r.handler), time);
    DecisionsNext(counters, run, OptionsOf(routes));
    assert run[1..] == rest;
  }

  lemma Regroup(done: seq<Decision>, d: Decision, rest: seq<Decision>)
    ensures done + ([d] + rest) == (done + [d]) + rest
  {}

  /** A new interceptor that meets these requests decides them as the runs above do. */
  method InterceptAll(routes: Routes, requests: seq<(Request, int)>) returns (decisions: seq<Decision>)
    ensures decisions == Decisions(map[], ArrivalsOf(routes, requests), OptionsOf(routes))
  {
    var limiter := new RateLimitInterceptor();
    decisions := [];
    ghost var run, opts := ArrivalsOf(routes, requests), OptionsOf(routes);
    var i := 0;
    assert run[0..] == run;
    while i < |requests|
      invariant 0 <= i <= |requests|
      invariant fresh(limiter)
      invariant decisions + Decisions(limiter.counters, run[i..], opts) == Decisions(map[], run, opts)
    {
      assert run[i..] == [ArrivalOf(routes, requests[i].0, requests[i].1)] + run[i + 1..];
      var d := InterceptNext(limiter, routes, requests[i].0, requests[i].1, run[i + 1..]);
      Regroup(decisions, d, Decisions(limiter.counters, run[i + 1..], opts));
      decisions := decisions + [d];
      i := i + 1;
    }
    assert run[i..] == [];
  }

  lemma DecisionsNext(counters: map<string, Counter>, run: seq<Arrival>, opts: Caller -> Options)
    requires run != []
    ensures var key, o := Key(run[0].who), opts(run[0].who);
            var c := Bump(Lookup(counters, key), run[0].time, o.windowMs);
            Decisions(counters, run, opts) == [Answer(c, run[0].time, o)] + Decisions(counters[key := c], run[1..], opts)
  {}
}
