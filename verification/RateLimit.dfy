/** The fixed-window rate limiters and the throttle semaphore on one Redis keyspace
    (repository/redis/ratelimit.go, repository/redis/cache.go). Time is in milliseconds; a key with a
    TTL of n milliseconds set at t is there before t + n and gone from t + n on. */
module RateLimit {
  import opened Common
  import Numerals

  // ---------------------------------------------------------------- the keyspace

  datatype Entry = Entry(count: int, expiresAt: int)

  type Store = map<string, Entry>

  predicate Live(s: Store, key: string, now: int) { key in s && now < s[key].expiresAt }

  function Count(s: Store, key: string, now: int): int { if Live(s, key, now) then s[key].count else 0 }

  function BurstKey(tenant: string): string { "rl:burst:" + tenant }

  function GlobalKey(second: nat): string { "rl:global:" + Numerals.Decimal(second) }

  function ThrottleKey(key: string): string { "throttle:" + key }

  /** Three namespaces, and no two tenants, seconds or throttles share a key. */
  lemma KeysAreApart(t: string, u: string, m: nat, n: nat)
    ensures BurstKey(t) == BurstKey(u) <==> t == u
    ensures GlobalKey(m) == GlobalKey(n) <==> m == n
    ensures ThrottleKey(t) == ThrottleKey(u) <==> t == u
    ensures BurstKey(t) != GlobalKey(n) && BurstKey(t) != ThrottleKey(u) && GlobalKey(n) != ThrottleKey(t)
  {
    assert BurstKey(t)[9..] == t && BurstKey(u)[9..] == u;
    assert ThrottleKey(t)[9..] == t && ThrottleKey(u)[9..] == u;
    assert GlobalKey(m)[10..] == Numerals.Decimal(m) && GlobalKey(n)[10..] == Numerals.Decimal(n);
    if Numerals.Decimal(m) == Numerals.Decimal(n) {
      Numerals.DecimalIsInjective(m, n);
    }
    assert BurstKey(t)[3] == 'b' && GlobalKey(n)[3] == 'g' && BurstKey(t)[0] == 'r' && GlobalKey(n)[0] == 'r';
    assert ThrottleKey(u)[0] == 't' && ThrottleKey(t)[0] == 't';
  }

  // ---------------------------------------------------------------- the three calls

  /** `exec` is when Redis runs the call; CheckGlobal read its clock a little earlier. */
  datatype Call =
    | Tenant(tenant: string, limit: int, exec: int)
    | Global(clock: nat, maxRps: int, exec: int)
    | Throttle(key: string, window: nat, exec: int)

  function KeyOf(c: Call): string {
    match c
    case Tenant(tenant, _, _) => BurstKey(tenant)
    case Global(clock, _, _) => GlobalKey(clock / 1000)
    case Throttle(key, _, _) => ThrottleKey(key)
  }

  function Next(s: Store, c: Call): Store {
    var key := KeyOf(c);
    var n := Count(s, key, c.exec) + 1;
    match c
    case Tenant(_, _, now) =>
      s[key := Entry(n, if n == 1 then now + 60000 else s[key].expiresAt)]
    case Global(_, _, now) =>
      s[key := Entry(n, now + 2000)]
    case Throttle(_, window, now) =>
      if Live(s, key, now) then s else s[key := Entry(1, now + window)]
  }

  predicate Allowed(s: Store, c: Call) {
    match c
    case Tenant(_, limit, now) => Count(s, KeyOf(c), now) + 1 <= limit
    case Global(_, maxRps, now) => Count(s, KeyOf(c), now) + 1 <= maxRps
    case Throttle(_, _, now) => !Live(s, KeyOf(c), now)
  }

  /** Counters are positive: what INCR and SETNX leave. */
  ghost predicate Counting(s: Store) { forall key :: key in s ==> s[key].count >= 1 }

  lemma NextKeepsOthers(s: Store, c: Call, key: string)
    requires key != KeyOf(c)
    ensures (key in Next(s, c) <==> key in s) && (key in s ==> Next(s, c)[key] == s[key])
  {
  }

  predicate Sorted(cs: seq<Call>, from: int) {
    && (forall i :: 0 <= i < |cs| ==> from <= cs[i].exec)
    && (forall i, j :: 0 <= i < j < |cs| ==> cs[i].exec <= cs[j].exec)
  }

  // ---------------------------------------------------------------- one tenant

  predicate Hits(c: Call, tenant: string, a: int, b: int) {
    c.Tenant? && c.tenant == tenant && a <= c.exec < b
  }

  /** Requests of the tenant let through in [a, b) while the calls cs run from store s. */
  function AllowedIn(s: Store, cs: seq<Call>, tenant: string, a: int, b: int): nat
    decreases |cs|
  {
    if cs == [] then 0
    else (if Hits(cs[0], tenant, a, b) && Allowed(s, cs[0]) then 1 else 0)
         + AllowedIn(Next(s, cs[0]), cs[1..], tenant, a, b)
  }

  predicate LimitIs(cs: seq<Call>, tenant: string, limit: int) {
    forall i :: 0 <= i < |cs| && cs[i].Tenant? && cs[i].tenant == tenant ==> cs[i].limit == limit
  }

  /** How many windows can begin in a stretch of d milliseconds. */
  function Windows(d: int): nat
    decreases if d <= 0 then 0 else d
  {
    if d <= 0 then 0 else 1 + Windows(d - 60000)
  }

  lemma {:induction false} WindowsGrow(d: int, e: int)
    requires d <= e
    ensures Windows(d) <= Windows(e)
    decreases if e <= 0 then 0 else e
  {
    if d > 0 {
      WindowsGrow(d - 60000, e - 60000);
    }
  }

  lemma {:induction false} WindowsOfMinutes(k: nat)
    ensures Windows(60000 * k) == k
  {
    if k > 0 {
      WindowsOfMinutes(k - 1);
    }
  }

  /** What the tenant can still be allowed from `from` on, before b. */
  function Left(s: Store, tenant: string, limit: nat, from: int, b: int): int {
    var key := BurstKey(tenant);
    if Live(s, key, from) then Max(0, limit - s[key].count) + limit * Windows(b - s[key].expiresAt)
    else limit * Windows(b - from)
  }

  lemma LimitTimes(limit: nat, x: nat, y: nat)
    requires x <= y
    ensures limit * x <= limit * y
  {
  }

  lemma LeftShrinks(s: Store, tenant: string, limit: nat, from: int, now: int, b: int)
    requires from <= now
    ensures Left(s, tenant, limit, now, b) <= Left(s, tenant, limit, from, b)
  {
    var key := BurstKey(tenant);
    WindowsGrow(b - now, b - from);
    LimitTimes(limit, Windows(b - now), Windows(b - from));
    if Live(s, key, from) && !Live(s, key, now) {
      WindowsGrow(b - now, b - s[key].expiresAt);
      LimitTimes(limit, Windows(b - now), Windows(b - s[key].expiresAt));
    }
  }

  /** One request of the tenant costs what it takes. */
  lemma TenantSpends(s: Store, c: Call, limit: nat, b: int)
    requires c.Tenant? && c.limit == limit && limit >= 1 && Counting(s) && c.exec < b
    ensures (if Allowed(s, c) then 1 else 0) + Left(Next(s, c), c.tenant, limit, c.exec, b)
            <= Left(s, c.tenant, limit, c.exec, b)
  {
    if !Live(s, KeyOf(c), c.exec) {
      assert Windows(b - c.exec) == 1 + Windows(b - c.exec - 60000);
      assert limit * (1 + Windows(b - c.exec - 60000)) == limit + limit * Windows(b - c.exec - 60000);
    }
  }

  lemma {:induction false} NothingAllowedLate(s: Store, cs: seq<Call>, tenant: string, a: int, b: int, from: int)
    requires Sorted(cs, from) && b <= from
    ensures AllowedIn(s, cs, tenant, a, b) == 0
    decreases |cs|
  {
    if cs != [] {
      NothingAllowedLate(Next(s, cs[0]), cs[1..], tenant, a, b, from);
    }
  }

  lemma NextCounts(s: Store, c: Call)
    requires Counting(s)
    ensures Counting(Next(s, c))
  {
  }

  /** No call takes more than it costs. */
  lemma LeftStep(s: Store, c: Call, tenant: string, limit: nat, a: int, b: int)
    requires Counting(s) && limit >= 1 && c.exec < b
    requires c.Tenant? && c.tenant == tenant ==> c.limit == limit
    ensures (if Hits(c, tenant, a, b) && Allowed(s, c) then 1 else 0) + Left(Next(s, c), tenant, limit, c.exec, b)
            <= Left(s, tenant, limit, c.exec, b)
  {
    if c.Tenant? && c.tenant == tenant {
      TenantSpends(s, c, limit, b);
    } else {
      KeysOfOthers(c, tenant);
      NextKeepsOthers(s, c, BurstKey(tenant));
    }
  }

  lemma {:induction false} AllowedAtMostLeft(s: Store, cs: seq<Call>, tenant: string, limit: nat,
                                           a: int, b: int, from: int)
    requires Counting(s) && Sorted(cs, from) && LimitIs(cs, tenant, limit) && limit >= 1
    ensures AllowedIn(s, cs, tenant, a, b) <= Left(s, tenant, limit, from, b)
    decreases |cs|
  {
    if cs == [] {
      LeftIsNonNegative(s, tenant, limit, from, b);
    } else if b <= cs[0].exec {
      NothingAllowedLate(s, cs, tenant, a, b, cs[0].exec);
      LeftIsNonNegative(s, tenant, limit, from, b);
    } else {
      var c := cs[0];
      NextCounts(s, c);
      AllowedAtMostLeft(Next(s, c), cs[1..], tenant, limit, a, b, c.exec);
      LeftStep(s, c, tenant, limit, a, b);
      LeftShrinks(s, tenant, limit, from, c.exec, b);
    }
  }

  lemma LeftIsNonNegative(s: Store, tenant: string, limit: nat, from: int, b: int)
    ensures 0 <= Left(s, tenant, limit, from, b)
  {
    var key := BurstKey(tenant);
    LimitTimes(limit, 0, Windows(b - from));
    if Live(s, key, from) {
      LimitTimes(limit, 0, Windows(b - s[key].expiresAt));
    }
  }

  lemma KeysOfOthers(c: Call, tenant: string)
    requires !(c.Tenant? && c.tenant == tenant)
    ensures KeyOf(c) != BurstKey(tenant)
  {
    match c {
      case Tenant(t, _, _) => KeysAreApart(t, tenant, 0, 0);
      case Global(clock, _, _) => KeysAreApart(tenant, tenant, 0, clock / 1000);
      case Throttle(key, _, _) => KeysAreApart(tenant, key, 0, 0);
    }
  }

  /** At the first request of the stretch, at most one window is already open, and it has been used
      at least once. */
  lemma LeftOfMinutes(s: Store, tenant: string, limit: nat, from: int, a: int, k: nat)
    requires Counting(s) && limit >= 1 && k >= 1 && a <= from
    ensures Left(s, tenant, limit, from, a + 60000 * k) <= (k + 1) * limit - 1
  {
    var key, b := BurstKey(tenant), a + 60000 * k;
    WindowsOfMinutes(k);
    WindowsGrow(b - from, 60000 * k);
    LimitTimes(limit, Windows(b - from), k);
    if Live(s, key, from) {
      WindowsGrow(b - s[key].expiresAt, 60000 * k);
      LimitTimes(limit, Windows(b - s[key].expiresAt), k);
    }
    assert (k + 1) * limit == limit * k + limit;
  }

  lemma {:induction false} NothingAllowed(s: Store, cs: seq<Call>, tenant: string, limit: nat, a: int, b: int)
    requires Counting(s) && LimitIs(cs, tenant, limit) && (limit == 0 || b <= a)
    ensures AllowedIn(s, cs, tenant, a, b) == 0
    decreases |cs|
  {
    if cs != [] {
      NextCounts(s, cs[0]);
      NothingAllowed(Next(s, cs[0]), cs[1..], tenant, limit, a, b);
    }
  }

  lemma {:induction false} SlidingFrom(s: Store, cs: seq<Call>, tenant: string, limit: nat, a: int, k: nat, from: int,
                                      most: nat)
    requires Counting(s) && Sorted(cs, from) && LimitIs(cs, tenant, limit) && limit >= 1 && k >= 1
    requires most == (k + 1) * limit - 1
    ensures AllowedIn(s, cs, tenant, a, a + 60000 * k) <= most
    decreases |cs|
  {
    if cs != [] {
      if cs[0].exec < a {
        NextCounts(s, cs[0]);
        SlidingFrom(Next(s, cs[0]), cs[1..], tenant, limit, a, k, cs[0].exec, most);
      } else {
        AllowedAtMostLeft(s, cs, tenant, limit, a, a + 60000 * k, cs[0].exec);
        LeftOfMinutes(s, tenant, limit, cs[0].exec, a, k);
      }
    }
  }

  /** The sliding guarantee of a fixed window: over any k minutes, whatever else runs on the same
      Redis, a tenant with limit B is let through at most (k+1)B - 1 times, and not at all when k or B
      is 0. */
  lemma TenantSlidingBound(s: Store, cs: seq<Call>, tenant: string, limit: nat, a: int, k: nat, from: int)
    requires Counting(s) && Sorted(cs, from) && LimitIs(cs, tenant, limit)
    ensures AllowedIn(s, cs, tenant, a, a + 60000 * k) <= if limit == 0 || k == 0 then 0 else (k + 1) * limit - 1
  {
    if limit == 0 || k == 0 {
      NothingAllowed(s, cs, tenant, limit, a, a + 60000 * k);
    } else {
      LimitTimes(limit, 1, k + 1);
      SlidingFrom(s, cs, tenant, limit, a, k, from, (k + 1) * limit - 1);
    }
  }

  // ---------------------------------------------------------------- the bound is reached

  function Burst(tenant: string, limit: nat, now: int, n: nat): seq<Call> {
    if n == 0 then [] else [Tenant(tenant, limit, now)] + Burst(tenant, limit, now, n - 1)
  }

  /** k full bursts, one at the start of each minute. */
  function Wave(tenant: string, limit: nat, start: int, k: nat): seq<Call>
    decreases k
  {
    if k == 0 then [] else Burst(tenant, limit, start, limit) + Wave(tenant, limit, start + 60000, k - 1)
  }

  lemma {:induction false} BurstTakes(s: Store, tenant: string, limit: nat, now: int, n: nat, rest: seq<Call>,
                                    a: int, b: int)
    returns (s': Store)
    requires Counting(s) && a <= now < b && n >= 1 && Count(s, BurstKey(tenant), now) + n <= limit
    ensures AllowedIn(s, Burst(tenant, limit, now, n) + rest, tenant, a, b) == n + AllowedIn(s', rest, tenant, a, b)
    ensures Counting(s') && BurstKey(tenant) in s'
    ensures s'[BurstKey(tenant)].expiresAt
            == if Count(s, BurstKey(tenant), now) == 0 then now + 60000 else s[BurstKey(tenant)].expiresAt
    decreases n
  {
    var c := Tenant(tenant, limit, now);
    var cs := Burst(tenant, limit, now, n) + rest;
    assert cs[0] == c && cs[1..] == Burst(tenant, limit, now, n - 1) + rest;
    s' := Next(s, c);
    if n > 1 {
      assert Live(s', BurstKey(tenant), now);
      s' := BurstTakes(Next(s, c), tenant, limit, now, n - 1, rest, a, b);
    } else {
      assert Burst(tenant, limit, now, 0) + rest == rest;
    }
  }

  lemma {:induction false} WaveTakes(s: Store, tenant: string, limit: nat, start: int, k: nat, a: int, b: int)
    requires limit >= 1 && a <= start && (k > 0 ==> start + 60000 * (k - 1) < b)
    requires Counting(s) && !Live(s, BurstKey(tenant), start)
    ensures AllowedIn(s, Wave(tenant, limit, start, k), tenant, a, b) == k * limit
    decreases k
  {
    if k > 0 {
      var s' := BurstTakes(s, tenant, limit, start, limit, Wave(tenant, limit, start + 60000, k - 1), a, b);
      WaveTakes(s', tenant, limit, start + 60000, k - 1, a, b);
      assert k * limit == limit + (k - 1) * limit;
    }
  }

  /** A window opened just before the stretch leaves limit - 1 in it. */
  lemma RestOfWindowTakes(s: Store, tenant: string, limit: nat, a: int, k: nat)
    requires limit >= 1 && k >= 1 && Counting(s) && BurstKey(tenant) in s
    requires s[BurstKey(tenant)] == Entry(1, a + 59999)
    ensures var cs := Burst(tenant, limit, a, limit - 1) + Wave(tenant, limit, a + 59999, k);
            AllowedIn(s, cs, tenant, a, a + 60000 * k) == limit - 1 + k * limit
  {
    var b := a + 60000 * k;
    var wave := Wave(tenant, limit, a + 59999, k);
    if limit > 1 {
      var s' := BurstTakes(s, tenant, limit, a, limit - 1, wave, a, b);
      WaveTakes(s', tenant, limit, a + 59999, k, a, b);
    } else {
      assert Burst(tenant, limit, a, 0) + wave == wave;
      WaveTakes(s, tenant, limit, a + 59999, k, a, b);
    }
  }

  /** Nothing smaller would do: one request just before the stretch, the rest of its window inside
      it, and k full windows after that. */
  lemma TenantBoundIsReached(tenant: string, limit: nat, a: int, k: nat)
    requires limit >= 1 && k >= 1
    ensures var cs := [Tenant(tenant, limit, a - 1)]
                      + (Burst(tenant, limit, a, limit - 1) + Wave(tenant, limit, a + 59999, k));
            AllowedIn(map[], cs, tenant, a, a + 60000 * k) == (k + 1) * limit - 1
  {
    var c := Tenant(tenant, limit, a - 1);
    var rest := Burst(tenant, limit, a, limit - 1) + Wave(tenant, limit, a + 59999, k);
    assert ([c] + rest)[1..] == rest;
    RestOfWindowTakes(Next(map[], c), tenant, limit, a, k);
    assert (k + 1) * limit == k * limit + limit;
  }

  // ---------------------------------------------------------------- which requests of a window

  function After(s: Store, cs: seq<Call>): Store {
    if cs == [] then s else Next(After(s, cs[..|cs| - 1]), cs[|cs| - 1])
  }

  function TenantCalls(cs: seq<Call>, tenant: string): nat {
    if cs == [] then 0
    else TenantCalls(cs[..|cs| - 1], tenant)
         + if cs[|cs| - 1].Tenant? && cs[|cs| - 1].tenant == tenant then 1 else 0
  }

  /** cs is what runs from the request of the tenant that opens a window until that window closes. */
  predicate WindowOf(s: Store, cs: seq<Call>, tenant: string) {
    && cs != [] && cs[0].Tenant? && cs[0].tenant == tenant && !Live(s, BurstKey(tenant), cs[0].exec)
    && Sorted(cs, cs[0].exec)
    && (forall i :: 0 <= i < |cs| ==> cs[i].exec < cs[0].exec + 60000)
  }

  /** Inside a window the counter is the number of requests so far, so the requests let through are
      exactly the first B of the window. */
  lemma {:induction false} WindowCounts(s: Store, cs: seq<Call>, tenant: string)
    requires WindowOf(s, cs, tenant)
    ensures var key := BurstKey(tenant);
            key in After(s, cs) && After(s, cs)[key] == Entry(TenantCalls(cs, tenant), cs[0].exec + 60000)
  {
    var pre, c := cs[..|cs| - 1], cs[|cs| - 1];
    if pre == [] {
      assert After(s, pre) == s;
    } else {
      assert pre[0] == cs[0];
      WindowCounts(s, pre, tenant);
      TenantCallsPositive(pre, tenant);
      if !(c.Tenant? && c.tenant == tenant) {
        KeysOfOthers(c, tenant);
        NextKeepsOthers(After(s, pre), c, BurstKey(tenant));
      }
    }
  }

  lemma {:induction false} TenantCallsPositive(cs: seq<Call>, tenant: string)
    requires cs != [] && cs[0].Tenant? && cs[0].tenant == tenant
    ensures TenantCalls(cs, tenant) >= 1
  {
    if |cs| > 1 {
      assert cs[..|cs| - 1][0] == cs[0];
      TenantCallsPositive(cs[..|cs| - 1], tenant);
    }
  }

  lemma FirstOnesAreAllowed(s: Store, cs: seq<Call>, tenant: string, i: nat)
    requires WindowOf(s, cs, tenant) && i < |cs| && cs[i].Tenant? && cs[i].tenant == tenant
    ensures Allowed(After(s, cs[..i]), cs[i]) <==> TenantCalls(cs[..i], tenant) + 1 <= cs[i].limit
  {
    if i > 0 {
      assert cs[..i][0] == cs[0];
      WindowCounts(s, cs[..i], tenant);
    }
  }

  // ---------------------------------------------------------------- the global limit

  /** Requests let through whose clock read a value in [a, b). */
  function GlobalIn(s: Store, cs: seq<Call>, a: int, b: int): nat
    decreases |cs|
  {
    if cs == [] then 0
    else (if cs[0].Global? && a <= cs[0].clock < b && Allowed(s, cs[0]) then 1 else 0)
         + GlobalIn(Next(s, cs[0]), cs[1..], a, b)
  }

  /** One limit, and Redis runs each call within a second of its clock reading. */
  predicate Prompt(cs: seq<Call>, maxRps: nat) {
    forall i :: 0 <= i < |cs| && cs[i].Global? ==>
      cs[i].maxRps == maxRps && cs[i].clock <= cs[i].exec < cs[i].clock + 1000
  }

  /** What second n has left; its key, once there, outlives every call of that second. */
  function SecondLeft(s: Store, n: nat, maxRps: nat): int {
    if GlobalKey(n) in s then Max(0, maxRps - s[GlobalKey(n)].count) else maxRps
  }

  predicate OutlivesSecond(s: Store, n: nat) {
    GlobalKey(n) in s ==> s[GlobalKey(n)].count >= 1 && 1000 * n + 2000 <= s[GlobalKey(n)].expiresAt
  }

  lemma GlobalStep(s: Store, c: Call, n: nat, maxRps: nat)
    requires OutlivesSecond(s, n)
    requires c.Global? ==> c.maxRps == maxRps && c.clock <= c.exec < c.clock + 1000
    ensures OutlivesSecond(Next(s, c), n)
    ensures (if c.Global? && c.clock / 1000 == n && Allowed(s, c) then 1 else 0) + SecondLeft(Next(s, c), n, maxRps)
            <= SecondLeft(s, n, maxRps)
  {
    if c.Global? && c.clock / 1000 == n {
      assert GlobalKey(n) in s ==> Live(s, GlobalKey(n), c.exec);
    } else {
      match c {
        case Tenant(t, _, _) => KeysAreApart(t, t, 0, n);
        case Global(clock, _, _) => KeysAreApart("", "", n, clock / 1000);
        case Throttle(key, _, _) => KeysAreApart(key, key, 0, n);
      }
      NextKeepsOthers(s, c, GlobalKey(n));
    }
  }

  lemma {:induction false} SecondBound(s: Store, cs: seq<Call>, n: nat, maxRps: nat, a: int, b: int)
    requires OutlivesSecond(s, n) && Prompt(cs, maxRps)
    requires 1000 * n <= a && b <= 1000 * n + 1000
    ensures GlobalIn(s, cs, a, b) <= SecondLeft(s, n, maxRps) <= maxRps
    decreases |cs|
  {
    if cs != [] {
      var c := cs[0];
      GlobalStep(s, c, n, maxRps);
      SecondBound(Next(s, c), cs[1..], n, maxRps, a, b);
      if c.Global? && a <= c.clock < b {
        assert c.clock / 1000 == n;
      }
    }
  }

  lemma {:induction false} GlobalSplits(s: Store, cs: seq<Call>, a: int, m: int, b: int)
    requires a <= m <= b
    ensures GlobalIn(s, cs, a, b) == GlobalIn(s, cs, a, m) + GlobalIn(s, cs, m, b)
    decreases |cs|
  {
    if cs != [] {
      GlobalSplits(Next(s, cs[0]), cs[1..], a, m, b);
    }
  }

  lemma {:induction false} GlobalEmpty(s: Store, cs: seq<Call>, a: int, b: int)
    requires b <= a
    ensures GlobalIn(s, cs, a, b) == 0
    decreases |cs|
  {
    if cs != [] {
      GlobalEmpty(Next(s, cs[0]), cs[1..], a, b);
    }
  }

  /** From the start of a second, k seconds' worth of limits cover k seconds. */
  lemma {:induction false} GlobalFromSecond(s: Store, cs: seq<Call>, maxRps: nat, first: nat, b: int, k: nat)
    requires Prompt(cs, maxRps) && forall j: nat :: OutlivesSecond(s, j)
    requires b <= 1000 * (first + k)
    ensures GlobalIn(s, cs, 1000 * first, b) <= k * maxRps
    decreases k
  {
    if k == 0 {
      GlobalEmpty(s, cs, 1000 * first, b);
    } else {
      var m := Min(1000 * first + 1000, b);
      if m <= 1000 * first {
        GlobalEmpty(s, cs, 1000 * first, b);
        LimitTimes(maxRps, 0, k);
      } else {
        SecondBound(s, cs, first, maxRps, 1000 * first, m);
        GlobalSplits(s, cs, 1000 * first, m, b);
        if m == b {
          GlobalEmpty(s, cs, m, b);
          LimitTimes(maxRps, 1, k);
        } else {
          GlobalFromSecond(s, cs, maxRps, first + 1, b, k - 1);
          assert k * maxRps == maxRps + (k - 1) * maxRps;
        }
      }
    }
  }

  /** How many seconds of the clock n seconds from a on touch. */
  function SecondsTouched(a: nat, n: nat): nat {
    if n == 0 then 0 else if a % 1000 == 0 then n else n + 1
  }

  /** From inside a second: its rest, and then whole seconds. */
  lemma GlobalFromWithin(s: Store, cs: seq<Call>, maxRps: nat, first: nat, a: nat, b: nat, n: nat)
    requires Prompt(cs, maxRps) && forall k: nat :: OutlivesSecond(s, k)
    requires 1000 * first <= a <= 1000 * (first + 1) <= b <= 1000 * (first + 1 + n)
    ensures GlobalIn(s, cs, a, b) <= maxRps + n * maxRps
  {
    var m := 1000 * (first + 1);
    assert OutlivesSecond(s, first);
    SecondBound(s, cs, first, maxRps, a, m);
    GlobalSplits(s, cs, a, m, b);
    GlobalFromSecond(s, cs, maxRps, first + 1, b, n);
  }

  /** Over any n seconds of clock time at most maxRps requests are let through for each second touched,
      that is (n+1) * maxRps, or n * maxRps from the start of a second: no second's key expires while
      that second's requests arrive. */
  lemma GlobalSlidingBound(s: Store, cs: seq<Call>, maxRps: nat, a: nat, n: nat)
    requires Prompt(cs, maxRps) && forall k: nat :: OutlivesSecond(s, k)
    ensures GlobalIn(s, cs, a, a + 1000 * n) <= SecondsTouched(a, n) * maxRps
  {
    var first := a / 1000;
    if n == 0 {
      GlobalEmpty(s, cs, a, a);
    } else if a % 1000 == 0 {
      assert a == 1000 * first;
      GlobalFromSecond(s, cs, maxRps, first, a + 1000 * n, n);
    } else {
      GlobalFromWithin(s, cs, maxRps, first, a, a + 1000 * n, n);
      assert (n + 1) * maxRps == maxRps + n * maxRps;
    }
  }

  function GlobalBurst(clock: nat, maxRps: nat, n: nat): seq<Call> {
    if n == 0 then [] else [Global(clock, maxRps, clock)] + GlobalBurst(clock, maxRps, n - 1)
  }

  /** A full burst in each of k seconds, none before a. */
  function GlobalWave(a: nat, first: nat, maxRps: nat, k: nat): seq<Call>
    decreases k
  {
    if k == 0 then []
    else GlobalBurst(Max(a, 1000 * first), maxRps, maxRps) + GlobalWave(a, first + 1, maxRps, k - 1)
  }

  ghost predicate UnusedFrom(s: Store, first: nat) { forall j: nat :: first <= j ==> GlobalKey(j) !in s }

  lemma {:induction false} GlobalBurstTakes(s: Store, clock: nat, maxRps: nat, n: nat, rest: seq<Call>, a: int, b: int)
    returns (s': Store)
    requires a <= clock < b && Count(s, GlobalKey(clock / 1000), clock) + n <= maxRps
    requires UnusedFrom(s, clock / 1000 + 1)
    ensures GlobalIn(s, GlobalBurst(clock, maxRps, n) + rest, a, b) == n + GlobalIn(s', rest, a, b)
    ensures UnusedFrom(s', clock / 1000 + 1)
    decreases n
  {
    var cs := GlobalBurst(clock, maxRps, n) + rest;
    s' := s;
    if n == 0 {
      assert cs == rest;
    } else {
      var c := Global(clock, maxRps, clock);
      assert cs[0] == c && cs[1..] == GlobalBurst(clock, maxRps, n - 1) + rest;
      LaterSecondsUnused(s, c);
      s' := GlobalBurstTakes(Next(s, c), clock, maxRps, n - 1, rest, a, b);
    }
  }

  lemma LaterSecondsUnused(s: Store, c: Call)
    requires c.Global? && UnusedFrom(s, c.clock / 1000 + 1)
    ensures UnusedFrom(Next(s, c), c.clock / 1000 + 1)
  {
    forall j: nat | c.clock / 1000 + 1 <= j ensures GlobalKey(j) !in Next(s, c) {
      KeysAreApart("", "", j, c.clock / 1000);
    }
  }

  lemma {:induction false} WaveIsPrompt(a: nat, first: nat, maxRps: nat, k: nat)
    ensures Prompt(GlobalWave(a, first, maxRps, k), maxRps)
    decreases k
  {
    if k > 0 {
      WaveIsPrompt(a, first + 1, maxRps, k - 1);
      BurstIsPrompt(Max(a, 1000 * first), maxRps, maxRps);
    }
  }

  lemma {:induction false} BurstIsPrompt(clock: nat, maxRps: nat, n: nat)
    ensures Prompt(GlobalBurst(clock, maxRps, n), maxRps)
  {
    if n > 0 {
      BurstIsPrompt(clock, maxRps, n - 1);
    }
  }

  /** The burst of one second, and what is left for the rest. */
  lemma WaveBegins(s: Store, a: nat, first: nat, maxRps: nat, rest: seq<Call>, b: int) returns (s': Store)
    requires UnusedFrom(s, first) && a < 1000 * (first + 1) && Max(a, 1000 * first) < b
    ensures GlobalIn(s, GlobalBurst(Max(a, 1000 * first), maxRps, maxRps) + rest, a, b)
            == maxRps + GlobalIn(s', rest, a, b)
    ensures UnusedFrom(s', first + 1)
  {
    var clock := Max(a, 1000 * first);
    assert clock / 1000 == first;
    s' := GlobalBurstTakes(s, clock, maxRps, maxRps, rest, a, b);
  }

  lemma {:induction false} GlobalWaveTakes(s: Store, a: nat, first: nat, maxRps: nat, k: nat, b: int)
    requires UnusedFrom(s, first) && a < 1000 * (first + 1) && (k > 0 ==> a < b && 1000 * (first + k - 1) < b)
    ensures GlobalIn(s, GlobalWave(a, first, maxRps, k), a, b) == k * maxRps
    decreases k
  {
    if k > 0 {
      var rest := GlobalWave(a, first + 1, maxRps, k - 1);
      var s' := WaveBegins(s, a, first, maxRps, rest, b);
      GlobalWaveTakes(s', a, first + 1, maxRps, k - 1, b);
      OneMoreTimes(k, maxRps);
    }
  }

  lemma OneMoreTimes(k: nat, n: nat)
    requires k > 0
    ensures k * n == n + (k - 1) * n
  {
  }

  /** And that is reached: a full burst in each second touched, as soon as it begins. */
  lemma GlobalBoundIsReached(maxRps: nat, a: nat, n: nat)
    ensures var cs := GlobalWave(a, a / 1000, maxRps, SecondsTouched(a, n));
            Prompt(cs, maxRps) && GlobalIn(map[], cs, a, a + 1000 * n) == SecondsTouched(a, n) * maxRps
  {
    WaveIsPrompt(a, a / 1000, maxRps, SecondsTouched(a, n));
    GlobalWaveTakes(map[], a, a / 1000, maxRps, SecondsTouched(a, n), a + 1000 * n);
  }

  // ---------------------------------------------------------------- the throttle

  /** A live semaphore lasts at least until the window of the call that took it is over. */
  lemma {:induction false} ThrottleHolds(s: Store, cs: seq<Call>, i: nat)
    requires i < |cs| && cs[i].Throttle? && Sorted(cs, cs[0].exec) && Allowed(After(s, cs[..i]), cs[i])
    ensures var key := KeyOf(cs[i]);
            key in After(s, cs) && cs[i].exec + cs[i].window <= After(s, cs)[key].expiresAt
    decreases |cs|
  {
    var pre, c, key := cs[..|cs| - 1], cs[|cs| - 1], KeyOf(cs[i]);
    if i < |pre| {
      assert pre[..i] == cs[..i];
      ThrottleHolds(s, pre, i);
      if KeyOf(c) != key {
        NextKeepsOthers(After(s, pre), c, key);
      } else {
        SameKeySameKind(c, cs[i]);
      }
    }
  }

  lemma SameKeySameKind(c: Call, d: Call)
    requires KeyOf(c) == KeyOf(d) && d.Throttle?
    ensures c.Throttle? && c.key == d.key
  {
    match c {
      case Tenant(t, _, _) => KeysAreApart(t, d.key, 0, 0);
      case Global(clock, _, _) => KeysAreApart(d.key, "", 0, clock / 1000);
      case Throttle(key, _, _) => KeysAreApart(key, d.key, 0, 0);
    }
  }

  /** Whatever runs in between, two acquisitions of one throttle are a whole window apart. */
  lemma ThrottleSpacing(s: Store, cs: seq<Call>, i: nat, j: nat)
    requires i < j < |cs| && Sorted(cs, cs[0].exec)
    requires cs[i].Throttle? && cs[j].Throttle? && cs[i].key == cs[j].key
    requires Allowed(After(s, cs[..i]), cs[i]) && Allowed(After(s, cs[..j]), cs[j])
    ensures cs[i].exec + cs[i].window <= cs[j].exec
  {
    assert cs[..j][..i] == cs[..i];
    ThrottleHolds(s, cs[..j], i);
  }

  /** Call i acquired the throttle until then. */
  predicate Acquires(s: Store, cs: seq<Call>, i: nat, key: string, until: int) {
    && i < |cs| && cs[i].Throttle? && cs[i].key == key && Allowed(After(s, cs[..i]), cs[i])
    && until == cs[i].exec + cs[i].window
  }

  lemma AcquiresEarlier(s: Store, cs: seq<Call>, n: nat, i: nat, key: string, until: int)
    requires n <= |cs| && Acquires(s, cs[..n], i, key, until)
    ensures i < n && Acquires(s, cs, i, key, until)
  {
    assert cs[..n][..i] == cs[..i] && cs[..n][i] == cs[i];
  }

  lemma MarkMoves(s: Store, c: Call, key: string)
    ensures var k := ThrottleKey(key);
            if c.Throttle? && c.key == key && Allowed(s, c)
            then k in Next(s, c) && Next(s, c)[k] == Entry(1, c.exec + c.window)
            else (k in Next(s, c) <==> k in s) && (k in s ==> Next(s, c)[k] == s[k])
  {
    if !(c.Throttle? && c.key == key) {
      if KeyOf(c) == ThrottleKey(key) {
        SameKeySameKind(c, Throttle(key, 0, 0));
      }
      NextKeepsOthers(s, c, ThrottleKey(key));
    }
  }

  /** Its key, once there, is the mark of some acquisition and lasts exactly that one's window. */
  lemma {:induction false} ThrottleMark(s: Store, cs: seq<Call>, key: string) returns (i: nat)
    requires ThrottleKey(key) !in s && ThrottleKey(key) in After(s, cs)
    ensures Acquires(s, cs, i, key, After(s, cs)[ThrottleKey(key)].expiresAt)
  {
    assert cs != [];
    var n := |cs| - 1;
    var u, c := After(s, cs[..n]), cs[n];
    MarkMoves(u, c, key);
    if c.Throttle? && c.key == key && Allowed(u, c) {
      i := n;
    } else {
      i := ThrottleMark(s, cs[..n], key);
      AcquiresEarlier(s, cs, n, i, key, u[ThrottleKey(key)].expiresAt);
    }
  }

  /** A throttle is acquired exactly when the window of every earlier acquisition of it is over. */
  lemma ThrottleIsExact(s: Store, cs: seq<Call>, j: nat)
    requires j < |cs| && Sorted(cs, cs[0].exec) && cs[j].Throttle? && ThrottleKey(cs[j].key) !in s
    ensures Allowed(After(s, cs[..j]), cs[j]) <==>
              forall i | 0 <= i < j && cs[i].Throttle? && cs[i].key == cs[j].key && Allowed(After(s, cs[..i]), cs[i]) ::
                cs[i].exec + cs[i].window <= cs[j].exec
  {
    if Allowed(After(s, cs[..j]), cs[j]) {
      forall i: nat | i < j && cs[i].Throttle? && cs[i].key == cs[j].key && Allowed(After(s, cs[..i]), cs[i])
        ensures cs[i].exec + cs[i].window <= cs[j].exec
      {
        ThrottleSpacing(s, cs, i, j);
      }
    } else {
      var i := ThrottleMark(s, cs[..j], cs[j].key);
      AcquiresEarlier(s, cs, j, i, cs[j].key, After(s, cs[..j])[ThrottleKey(cs[j].key)].expiresAt);
    }
  }

  // ---------------------------------------------------------------- the limiter itself

  /** What the caller is told is left: never negative, and zero exactly from the last request of the
      budget on. */
  function Remaining(limit: int, count: int): (r: int)
    ensures r >= 0 && (r == 0 <==> limit <= count)
  {
    Max(0, limit - count)
  }

  class RateLimiter {
    var entries: Store

    constructor ()
      ensures entries == map[]
    {
      entries := map[];
    }

    /** INCR: a missing or expired key counts from 0 and has no TTL until one is set. */
    method Incr(key: string, now: int, noExpiry: int) returns (count: int)
      modifies this
      ensures count == Count(old(entries), key, now) + 1
      ensures entries == old(entries)[key := Entry(count,
                if Live(old(entries), key, now) then old(entries)[key].expiresAt else noExpiry)]
    {
      if key in entries && now < entries[key].expiresAt {
        count := entries[key].count + 1;
        entries := entries[key := Entry(count, entries[key].expiresAt)];
      } else {
        count := 1;
        entries := entries[key := Entry(1, noExpiry)];
      }
    }

    method Expire(key: string, at: int)
      requires key in entries
      modifies this
      ensures entries == old(entries)[key := Entry(old(entries)[key].count, at)]
    {
      entries := entries[key := Entry(entries[key].count, at)];
    }

    /** CheckGlobal; on a Redis error it lets the request through. */
    method CheckGlobal(maxRps: int, clock: nat, now: int, redisUp: bool) returns (allowed: bool, remaining: int)
      modifies this
      ensures var c := Global(clock, maxRps, now);
              if redisUp then
                && entries == Next(old(entries), c) && allowed == Allowed(old(entries), c)
                && remaining == Remaining(maxRps, Count(old(entries), KeyOf(c), now) + 1)
              else entries == old(entries) && allowed && remaining == maxRps
      ensures redisUp ==>
                var key, was := "rl:global:" + Numerals.Decimal(clock / 1000), old(entries);
                var n := (if key in was && now < was[key].expiresAt then was[key].count else 0) + 1;
                && entries == was[key := Entry(n, now + 2000)] && (allowed <==> n <= maxRps)
                && remaining == if n <= maxRps then maxRps - n else 0
    {
      if !redisUp {
        return true, maxRps;
      }
      var key := GlobalKey(clock / 1000);
      var count := Incr(key, now, now);
      Expire(key, now + 2000);
      remaining := maxRps - count;
      if remaining < 0 {
        remaining := 0;
      }
      allowed := count <= maxRps;
    }

    /** CheckTenant; the script sets the TTL only when its INCR opened the window. */
    method CheckTenant(tenant: string, burstLimit: int, now: int, redisUp: bool) returns (allowed: bool, remaining: int)
      requires Counting(entries)
      modifies this
      ensures Counting(entries)
      ensures var c := Tenant(tenant, burstLimit, now);
              if redisUp then
                && entries == Next(old(entries), c) && allowed == Allowed(old(entries), c)
                && remaining == Remaining(burstLimit, Count(old(entries), KeyOf(c), now) + 1)
              else entries == old(entries) && allowed && remaining == burstLimit
      ensures redisUp ==>
                var key, was := "rl:burst:" + tenant, old(entries);
                var open := key in was && now < was[key].expiresAt;
                var n := if open then was[key].count + 1 else 1;
                && entries == was[key := Entry(n, if open then was[key].expiresAt else now + 60000)]
                && (allowed <==> n <= burstLimit) && remaining == if n <= burstLimit then burstLimit - n else 0
    {
      if !redisUp {
        return true, burstLimit;
      }
      var key := BurstKey(tenant);
      var count := Incr(key, now, now);
      if count == 1 {
        Expire(key, now + 60000);
      }
      remaining := burstLimit - count;
      if remaining < 0 {
        remaining := 0;
      }
      allowed := count <= burstLimit;
    }

    /** Cache.TryAcquireThrottle: SETNX with the window as TTL. */
    method TryAcquireThrottle(key: string, window: nat, now: int) returns (acquired: bool)
      modifies this
      ensures var c := Throttle(key, window, now);
              entries == Next(old(entries), c) && acquired == Allowed(old(entries), c)
      ensures var k, was := "throttle:" + key, old(entries);
              && (acquired <==> !(k in was && now < was[k].expiresAt))
              && entries == if acquired then was[k := Entry(1, now + window)] else was
    {
      var k := ThrottleKey(key);
      acquired := !(k in entries && now < entries[k].expiresAt);
      if acquired {
        entries := entries[k := Entry(1, now + window)];
      }
    }
  }
}
