/** The dual token-bucket limiter: one atomic script refills a key bucket and a
    tenant bucket, charges both or neither, and re-arms both expiries.

    Token counts are exact reals and the clock is the `now` of each call, in
    milliseconds.  Which expired keys the store has dropped by then is an input
    (`evicted`), so the results hold for prompt, lazy and no eviction alike. */
module RateLimit {
  import opened Wrappers

  datatype BucketConfig = BucketConfig(rps: real, burst: nat)

  datatype RouteLimitConfig = RouteLimitConfig(key: BucketConfig, tenant: BucketConfig)

  datatype Bucket = Bucket(tokens: real, ts: int, expiresAt: int)

  type Store = map<string, Bucket>

  datatype Call = Call(
    now: int,
    evicted: set<string>,
    apiKeyId: string,
    tenantId: string,
    routeClass: string,
    cost: nat,
    limits: RouteLimitConfig)

  /** Remaining balances are whole numbers: the script's reply truncates them. */
  datatype Decision = Decision(
    allowed: bool,
    routeClass: string,
    scope: Option<string>,
    retryAfterMs: int,
    keyRemaining: int,
    tenantRemaining: int)

  const PREFIX := "nexusrag:rl"

  function KeyBucket(apiKeyId: string, routeClass: string): string {
    PREFIX + ":key:" + apiKeyId + ":" + routeClass
  }

  function TenantBucket(tenantId: string, routeClass: string): string {
    PREFIX + ":tenant:" + tenantId + ":" + routeClass
  }

  function Ceil(x: real): int {
    -((-x).Floor)
  }

  function Min(x: real, y: real): real {
    if x <= y then x else y
  }

  /** The balance of a bucket at `now`, as `get_tokens` computes it. */
  function GetTokens(store: Store, name: string, config: BucketConfig, now: int): real {
    if name !in store then
      config.burst as real
    else
      var ts := if now < store[name].ts then now else store[name].ts;
      var delta := (now - ts) as real / 1000.0;
      Min(config.burst as real, store[name].tokens + delta * config.rps)
  }

  function RetryAfterMs(tokens: real, rate: real, cost: nat): int {
    if tokens >= cost as real then 0
    else if rate <= 0.0 then 1000
    else Ceil((cost as real - tokens) / rate * 1000.0)
  }

  function TtlSeconds(rate: real, burst: nat): int {
    var window := if rate <= 0.0 then burst else Ceil(burst as real / rate * 2.0);
    if window < 1 then 1 else window
  }

  function Charged(tokens: real, c: Call, allowed: bool): real {
    if allowed then tokens - c.cost as real else tokens
  }

  function Stored(tokens: real, config: BucketConfig, now: int): Bucket {
    Bucket(tokens, now, now + 1000 * TtlSeconds(config.rps, config.burst))
  }

  function BothCover(s: Store, key: string, tenant: string, c: Call): bool {
    && GetTokens(s, key, c.limits.key, c.now) >= c.cost as real
    && GetTokens(s, tenant, c.limits.tenant, c.now) >= c.cost as real
  }

  function Write(s: Store, key: string, tenant: string, c: Call): Store {
    var allowed := BothCover(s, key, tenant, c);
    s[key := Stored(Charged(GetTokens(s, key, c.limits.key, c.now), c, allowed), c.limits.key, c.now)]
     [tenant := Stored(Charged(GetTokens(s, tenant, c.limits.tenant, c.now), c, allowed), c.limits.tenant, c.now)]
  }

  predicate Admits(s: Store, c: Call) {
    BothCover(s - c.evicted, KeyBucket(c.apiKeyId, c.routeClass), TenantBucket(c.tenantId, c.routeClass), c)
  }

  /** The store after one call, starting from what eviction has left. */
  function After(s: Store, c: Call): Store {
    Write(s - c.evicted, KeyBucket(c.apiKeyId, c.routeClass), TenantBucket(c.tenantId, c.routeClass), c)
  }

  /** What the caller is told. */
  function Decide(store: Store, c: Call): Decision {
    var s := store - c.evicted;
    var keyTokens := GetTokens(s, KeyBucket(c.apiKeyId, c.routeClass), c.limits.key, c.now);
    var tenantTokens := GetTokens(s, TenantBucket(c.tenantId, c.routeClass), c.limits.tenant, c.now);
    var keyRetry := RetryAfterMs(keyTokens, c.limits.key.rps, c.cost);
    var tenantRetry := RetryAfterMs(tenantTokens, c.limits.tenant.rps, c.cost);
    if Admits(store, c) then
      Decision(true, c.routeClass, None, 0,
               Charged(keyTokens, c, true).Floor, Charged(tenantTokens, c, true).Floor)
    else
      var tenantBlocks := tenantTokens < c.cost as real &&
                          (keyTokens >= c.cost as real || tenantRetry > keyRetry);
      Decision(false, c.routeClass,
               Some(if tenantBlocks then "tenant" else "api_key"),
               if tenantBlocks then tenantRetry else keyRetry,
               keyTokens.Floor, tenantTokens.Floor)
  }

  class RateLimiter {
    var store: Store

    constructor ()
      ensures store == map[]
    {
      store := map[];
    }

    method Check(now: int, evicted: set<string>, apiKeyId: string, tenantId: string,
                 routeClass: string, cost: nat, limits: RouteLimitConfig)
      returns (decision: Decision)
      modifies this
      ensures var c := Call(now, evicted, apiKeyId, tenantId, routeClass, cost, limits);
              store == After(old(store), c) && decision == Decide(old(store), c)
    {
      store := store - evicted;
      var keyBucket := KeyBucket(apiKeyId, routeClass);
      var tenantBucket := TenantBucket(tenantId, routeClass);
      var keyTtl := TtlSeconds(limits.key.rps, limits.key.burst);
      var tenantTtl := TtlSeconds(limits.tenant.rps, limits.tenant.burst);

      var keyTokens := GetTokens(store, keyBucket, limits.key, now);
      var tenantTokens := GetTokens(store, tenantBucket, limits.tenant, now);
      var keyAllowed := keyTokens >= cost as real;
      var tenantAllowed := tenantTokens >= cost as real;
      var allowed := keyAllowed && tenantAllowed;
      var keyRetry := RetryAfterMs(keyTokens, limits.key.rps, cost);
      var tenantRetry := RetryAfterMs(tenantTokens, limits.tenant.rps, cost);
      if allowed {
        keyTokens := keyTokens - cost as real;
        tenantTokens := tenantTokens - cost as real;
      }
      store := store[keyBucket := Bucket(keyTokens, now, now + 1000 * keyTtl)];
      store := store[tenantBucket := Bucket(tenantTokens, now, now + 1000 * tenantTtl)];

      if allowed {
        return Decision(true, routeClass, None, 0, keyTokens.Floor, tenantTokens.Floor);
      }
      var scope := "api_key";
      var retryAfterMs := keyRetry;
      if keyAllowed && !tenantAllowed {
        scope := "tenant";
        retryAfterMs := tenantRetry;
      } else if !keyAllowed && !tenantAllowed {
        if tenantRetry > keyRetry {
          scope := "tenant";
          retryAfterMs := tenantRetry;
        }
      }
      return Decision(false, routeClass, Some(scope), retryAfterMs, keyTokens.Floor, tenantTokens.Floor);
    }
  }

  // ---------------------------------------------------------------- bucket names

  lemma KeyAndTenantBucketsDiffer(apiKeyId: string, tenantId: string, r: string, r': string)
    ensures KeyBucket(apiKeyId, r) != TenantBucket(tenantId, r')
  {
    var k := |PREFIX| + 1;
    assert KeyBucket(apiKeyId, r)[k] == 'k';
    assert TenantBucket(tenantId, r')[k] == 't';
  }

  lemma NamesEndAlike(front: string, r: string, front': string, r': string)
    requires ':' !in r && front + ":" + r == front' + ":" + r' && |r| >= |r'|
    ensures front == front' && r == r'
  {
    var whole := front + ":" + r;
    assert whole[|front'|] == (front' + ":" + r')[|front'|] == ':';
    assert forall i | |front| < i < |whole| :: whole[i] == r[i - |front| - 1];
    assert front == whole[..|front|] && front' == whole[..|front'|];
    assert r == whole[|front| + 1..] && r' == whole[|front'| + 1..];
  }

  /** Callers share a bucket only with themselves, route class by route class, as long as
      route classes hold no colon. */
  lemma BucketsTellCallersApart(id: string, id': string, r: string, r': string)
    requires ':' !in r && ':' !in r'
    ensures KeyBucket(id, r) == KeyBucket(id', r') <==> id == id' && r == r'
    ensures TenantBucket(id, r) == TenantBucket(id', r') <==> id == id' && r == r'
  {
    if KeyBucket(id, r) == KeyBucket(id', r') {
      var front, front' := PREFIX + ":key:" + id, PREFIX + ":key:" + id';
      if |r| >= |r'| {
        NamesEndAlike(front, r, front', r');
      } else {
        NamesEndAlike(front', r', front, r);
      }
      assert id == front[|PREFIX + ":key:"|..] && id' == front'[|PREFIX + ":key:"|..];
    }
    if TenantBucket(id, r) == TenantBucket(id', r') {
      var front, front' := PREFIX + ":tenant:" + id, PREFIX + ":tenant:" + id';
      if |r| >= |r'| {
        NamesEndAlike(front, r, front', r');
      } else {
        NamesEndAlike(front', r', front, r);
      }
      assert id == front[|PREFIX + ":tenant:"|..] && id' == front'[|PREFIX + ":tenant:"|..];
    }
  }

  // ------------------------------------------------------------------ single calls

  /** Every bucket name has one configuration, as `_limits_for_route` gives it. */
  type Plan = string -> BucketConfig

  ghost predicate Follows(c: Call, plan: Plan) {
    && plan(KeyBucket(c.apiKeyId, c.routeClass)) == c.limits.key
    && plan(TenantBucket(c.tenantId, c.routeClass)) == c.limits.tenant
    && c.limits.key.rps > 0.0
    && c.limits.tenant.rps > 0.0
  }

  /** What holds of the store between calls, the last of which was at `now`. */
  ghost predicate Valid(s: Store, now: int, plan: Plan) {
    forall b <- s ::
      && plan(b).rps > 0.0
      && 0.0 <= s[b].tokens <= plan(b).burst as real
      && s[b].ts <= now
      && s[b].expiresAt >= s[b].ts + 1000 * TtlSeconds(plan(b).rps, plan(b).burst)
  }

  /** The store drops only keys whose time to live has run out. */
  ghost predicate EvictsExpired(s: Store, c: Call) {
    forall b <- c.evicted :: b in s ==> s[b].expiresAt <= c.now
  }

  ghost predicate Legal(s: Store, t: int, c: Call, plan: Plan) {
    Valid(s, t, plan) && t <= c.now && Follows(c, plan) && EvictsExpired(s, c)
  }

  ghost function Level(s: Store, b: string, t: int, plan: Plan): real {
    GetTokens(s, b, plan(b), t)
  }

  predicate Touches(c: Call, b: string) {
    b == KeyBucket(c.apiKeyId, c.routeClass) || b == TenantBucket(c.tenantId, c.routeClass)
  }

  /** What a call takes from bucket `b`: its cost when admitted, else nothing. */
  function Charge(s: Store, c: Call, b: string): nat {
    if Decide(s, c).allowed && Touches(c, b) then c.cost else 0
  }

  lemma MulMonotone(x: real, y: real, z: real)
    requires x <= y && 0.0 <= z
    ensures x * z <= y * z
  {
  }

  lemma CeilBounds(x: real)
    ensures x <= Ceil(x) as real < x + 1.0
  {
  }

  /** A bucket left alone for its time to live is full again. */
  lemma TtlCoversRefill(config: BucketConfig, elapsedMs: int)
    requires config.rps > 0.0
    requires elapsedMs >= 1000 * TtlSeconds(config.rps, config.burst)
    ensures elapsedMs as real / 1000.0 * config.rps >= config.burst as real
  {
    var full := config.burst as real / config.rps;
    CeilBounds(full * 2.0);
    assert full >= 0.0;
    assert elapsedMs as real / 1000.0 >= full;
    MulMonotone(full, elapsedMs as real / 1000.0, config.rps);
  }

  /** The time to live is the least whole number of seconds, and at least one, in which the
      bucket would fill twice over; a bucket that never fills keeps for a second a token. */
  lemma TtlIsLeast(config: BucketConfig, ttl: nat)
    requires ttl >= 1
    ensures TtlSeconds(config.rps, config.burst) >= 1
    ensures config.rps > 0.0 ==>
              (TtlSeconds(config.rps, config.burst) <= ttl <==> ttl as real * config.rps >= 2.0 * config.burst as real)
    ensures config.rps <= 0.0 ==> (TtlSeconds(config.rps, config.burst) <= ttl <==> config.burst <= ttl)
  {
    if config.rps > 0.0 {
      var full := config.burst as real / config.rps;
      assert full * config.rps == config.burst as real;
      CeilBounds(full * 2.0);
      if full * 2.0 <= ttl as real {
        MulMonotone(full * 2.0, ttl as real, config.rps);
      }
      if ttl as real * config.rps >= 2.0 * config.burst as real {
        assert (ttl as real - full * 2.0) * config.rps >= 0.0;
      }
    }
  }

  /** A call stamps both its buckets with its time, and lets them live on from there. */
  lemma CallArmsExpiry(s: Store, c: Call, b: string)
    requires Touches(c, b)
    ensures var config := if b == KeyBucket(c.apiKeyId, c.routeClass) then c.limits.key else c.limits.tenant;
            && b in After(s, c) && After(s, c)[b].ts == c.now
            && After(s, c)[b].expiresAt == c.now + TtlSeconds(config.rps, config.burst) * 1000
  {
    KeyAndTenantBucketsDiffer(c.apiKeyId, c.tenantId, c.routeClass, c.routeClass);
  }

  lemma ExpiredBucketIsFull(s: Store, b: string, t: int, now: int, plan: Plan)
    requires Valid(s, t, plan) && b in s && s[b].expiresAt <= now
    ensures Level(s, b, now, plan) == plan(b).burst as real
  {
    TtlCoversRefill(plan(b), now - s[b].ts);
  }

  lemma EvictionInvisible(s: Store, c: Call, t: int, b: string, plan: Plan)
    requires Legal(s, t, c, plan)
    ensures Level(s - c.evicted, b, c.now, plan) == Level(s, b, c.now, plan)
  {
    if b in s && b in c.evicted {
      ExpiredBucketIsFull(s, b, t, c.now, plan);
    }
  }

  /** What a bucket gains between two instants, before saturation. */
  function Gain(config: BucketConfig, t: int, t': int): real {
    (t' - t) as real / 1000.0 * config.rps
  }

  /** Refilling in two steps is refilling in one. */
  lemma RefillComposes(s: Store, b: string, t: int, t': int, plan: Plan)
    requires Valid(s, t, plan) && t <= t' && plan(b).rps > 0.0
    ensures Level(s, b, t', plan)
         == Min(plan(b).burst as real, Level(s, b, t, plan) + Gain(plan(b), t, t'))
    ensures 0.0 <= Level(s, b, t, plan) <= plan(b).burst as real
  {
    var more := (t' - t) as real / 1000.0;
    assert more * plan(b).rps >= 0.0;
    if b in s {
      var d := (t - s[b].ts) as real / 1000.0;
      var d' := (t' - s[b].ts) as real / 1000.0;
      assert d' == d + more;
      assert d' * plan(b).rps == d * plan(b).rps + more * plan(b).rps;
      assert d * plan(b).rps >= 0.0;
    }
  }

  lemma WriteKeepsValid(s: Store, t: int, c: Call, key: string, tenant: string, plan: Plan)
    requires Valid(s, t, plan) && t <= c.now && key != tenant
    requires plan(key) == c.limits.key && plan(tenant) == c.limits.tenant
    requires c.limits.key.rps > 0.0 && c.limits.tenant.rps > 0.0
    ensures Valid(Write(s, key, tenant, c), c.now, plan)
  {
    RefillComposes(s, key, t, c.now, plan);
    RefillComposes(s, tenant, t, c.now, plan);
    RefillComposes(s, key, t, t, plan);
    RefillComposes(s, tenant, t, t, plan);
    assert 0.0 <= GetTokens(s, key, plan(key), c.now) <= plan(key).burst as real;
    assert 0.0 <= GetTokens(s, tenant, plan(tenant), c.now) <= plan(tenant).burst as real;
    var w := Write(s, key, tenant, c);
    forall b <- w
      ensures plan(b).rps > 0.0 && 0.0 <= w[b].tokens <= plan(b).burst as real
      ensures w[b].ts <= c.now
      ensures w[b].expiresAt >= w[b].ts + 1000 * TtlSeconds(plan(b).rps, plan(b).burst)
    {
      if b != key && b != tenant {
        assert b in s && w[b] == s[b];
      }
    }
  }

  lemma WriteCharges(s: Store, t: int, c: Call, key: string, tenant: string, b: string, plan: Plan)
    requires Valid(s, t, plan) && t <= c.now && key != tenant
    requires plan(key) == c.limits.key && plan(tenant) == c.limits.tenant
    requires c.limits.key.rps > 0.0 && c.limits.tenant.rps > 0.0
    ensures Level(Write(s, key, tenant, c), b, c.now, plan)
         == if BothCover(s, key, tenant, c) && (b == key || b == tenant)
            then Level(s, b, c.now, plan) - c.cost as real
            else Level(s, b, c.now, plan)
  {
    if b == key || b == tenant {
      RefillComposes(s, b, t, c.now, plan);
    }
  }

  lemma ChargeWithinLevel(s: Store, t: int, c: Call, b: string, plan: Plan)
    requires Legal(s, t, c, plan) && plan(b).rps > 0.0
    ensures Charge(s, c, b) as real <= Level(s, b, c.now, plan)
  {
    EvictionInvisible(s, c, t, b, plan);
    RefillComposes(s, b, t, c.now, plan);
    RefillComposes(s, b, t, t, plan);
    assert (c.now - t) as real / 1000.0 * plan(b).rps >= 0.0;
  }

  /** One call moves the balance of every bucket by exactly its charge, keeps the
      store valid, and admits only what both balances cover. */
  lemma CallChargesExactly(s: Store, t: int, c: Call, b: string, plan: Plan)
    requires Legal(s, t, c, plan)
    ensures Valid(After(s, c), c.now, plan)
    ensures Level(After(s, c), b, c.now, plan) == Level(s, b, c.now, plan) - Charge(s, c, b) as real
    ensures 0.0 <= Charge(s, c, b) as real <= Level(s, b, c.now, plan) || plan(b).rps <= 0.0
  {
    KeyAndTenantBucketsDiffer(c.apiKeyId, c.tenantId, c.routeClass, c.routeClass);
    var key, tenant := KeyBucket(c.apiKeyId, c.routeClass), TenantBucket(c.tenantId, c.routeClass);
    assert Valid(s - c.evicted, t, plan);
    WriteKeepsValid(s - c.evicted, t, c, key, tenant, plan);
    WriteCharges(s - c.evicted, t, c, key, tenant, b, plan);
    EvictionInvisible(s, c, t, b, plan);
    if plan(b).rps > 0.0 {
      ChargeWithinLevel(s, t, c, b, plan);
    }
  }

  /** A call is admitted exactly when both balances cover its cost. */
  lemma AdmittedExactlyWhenCovered(s: Store, t: int, c: Call, plan: Plan)
    requires Legal(s, t, c, plan)
    ensures Decide(s, c).allowed
       <==> && c.cost as real <= Level(s, KeyBucket(c.apiKeyId, c.routeClass), c.now, plan)
            && c.cost as real <= Level(s, TenantBucket(c.tenantId, c.routeClass), c.now, plan)
  {
    EvictionInvisible(s, c, t, KeyBucket(c.apiKeyId, c.routeClass), plan);
    EvictionInvisible(s, c, t, TenantBucket(c.tenantId, c.routeClass), plan);
  }

  /** The reply tells the whole balances that the call leaves in the key's and in the
      tenant's bucket. */
  lemma ReplyTellsBalances(s: Store, t: int, c: Call, plan: Plan)
    requires Legal(s, t, c, plan)
    ensures Decide(s, c).keyRemaining == Level(After(s, c), KeyBucket(c.apiKeyId, c.routeClass), c.now, plan).Floor
    ensures Decide(s, c).tenantRemaining == Level(After(s, c), TenantBucket(c.tenantId, c.routeClass), c.now, plan).Floor
    ensures Decide(s, c).routeClass == c.routeClass
  {
    var key, tenant := KeyBucket(c.apiKeyId, c.routeClass), TenantBucket(c.tenantId, c.routeClass);
    CallChargesExactly(s, t, c, key, plan);
    CallChargesExactly(s, t, c, tenant, plan);
    EvictionInvisible(s, c, t, key, plan);
    EvictionInvisible(s, c, t, tenant, plan);
  }

  /** A denial names the bucket that makes the caller wait: its hint is the longer of the two
      buckets' waits, and its scope the tenant exactly when the tenant's is longer; an
      admission names none. */
  lemma ScopeNamesLongerWait(s: Store, t: int, c: Call, plan: Plan)
    requires Legal(s, t, c, plan)
    ensures var d := Decide(s, c);
            var keyWait := RetryAfterMs(Level(s, KeyBucket(c.apiKeyId, c.routeClass), c.now, plan), c.limits.key.rps, c.cost);
            var tenantWait :=
              RetryAfterMs(Level(s, TenantBucket(c.tenantId, c.routeClass), c.now, plan), c.limits.tenant.rps, c.cost);
            && (d.scope == None <==> d.allowed)
            && (d.allowed ==> d.retryAfterMs == 0)
            && (!d.allowed ==> d.scope == Some(if tenantWait > keyWait then "tenant" else "api_key")
                               && d.retryAfterMs == if tenantWait > keyWait then tenantWait else keyWait)
  {
    var key, tenant := KeyBucket(c.apiKeyId, c.routeClass), TenantBucket(c.tenantId, c.routeClass);
    EvictionInvisible(s, c, t, key, plan);
    EvictionInvisible(s, c, t, tenant, plan);
    WaitPositiveExactly(Level(s, key, c.now, plan), c.limits.key.rps, c.cost);
    WaitPositiveExactly(Level(s, tenant, c.now, plan), c.limits.tenant.rps, c.cost);
  }

  lemma WaitPositiveExactly(tokens: real, rate: real, cost: nat)
    requires rate > 0.0
    ensures RetryAfterMs(tokens, rate, cost) >= 0
    ensures RetryAfterMs(tokens, rate, cost) > 0 <==> tokens < cost as real
  {
    if tokens < cost as real {
      var x := (cost as real - tokens) / rate;
      assert x * rate == cost as real - tokens;
      assert x > 0.0;
      CeilBounds(x * 1000.0);
    }
  }

  // -------------------------------------------------------------------------- runs

  /** A run of checks whose clock never goes back, each bucket configured one way,
      evictions only of expired keys. */
  ghost predicate LegalRun(s: Store, t: int, calls: seq<Call>, plan: Plan)
    decreases |calls|
  {
    Valid(s, t, plan) &&
    (calls == [] || (Legal(s, t, calls[0], plan) && LegalRun(After(s, calls[0]), calls[0].now, calls[1..], plan)))
  }

  function RunStore(s: Store, calls: seq<Call>): Store
    decreases |calls|
  {
    if calls == [] then s else RunStore(After(s, calls[0]), calls[1..])
  }

  function RunDecisions(s: Store, calls: seq<Call>): (decisions: seq<Decision>)
    ensures |decisions| == |calls|
    decreases |calls|
  {
    if calls == [] then [] else [Decide(s, calls[0])] + RunDecisions(After(s, calls[0]), calls[1..])
  }

  /** The cost that a run of checks takes from bucket `b`. */
  function AdmittedCost(s: Store, calls: seq<Call>, b: string): nat
    decreases |calls|
  {
    if calls == [] then 0 else Charge(s, calls[0], b) + AdmittedCost(After(s, calls[0]), calls[1..], b)
  }

  function ClockAfter(t: int, calls: seq<Call>): int {
    if calls == [] then t else calls[|calls| - 1].now
  }

  /** Any initial stretch of a legal run is legal, and so is what follows it. */
  lemma {:induction false} LegalRunSplits(s: Store, t: int, first: seq<Call>, rest: seq<Call>, plan: Plan)
    requires LegalRun(s, t, first + rest, plan)
    ensures LegalRun(s, t, first, plan)
    ensures LegalRun(RunStore(s, first), ClockAfter(t, first), rest, plan)
    decreases |first|
  {
    if first == [] {
      assert first + rest == rest;
    } else {
      assert (first + rest)[1..] == first[1..] + rest;
      LegalRunSplits(After(s, first[0]), first[0].now, first[1..], rest, plan);
    }
  }

  /** In every reachable store every balance is between nothing and the burst. */
  lemma {:induction false} BalancesStayInRange(calls: seq<Call>, t: int, plan: Plan, b: string)
    requires LegalRun(map[], t, calls, plan)
    requires b in RunStore(map[], calls)
    ensures 0.0 <= RunStore(map[], calls)[b].tokens <= plan(b).burst as real
  {
    assert calls + [] == calls;
    LegalRunSplits(map[], t, calls, [], plan);
  }

  lemma GainAdds(config: BucketConfig, t0: int, t1: int, t2: int)
    ensures Gain(config, t0, t1) + Gain(config, t1, t2) == Gain(config, t0, t2)
  {
    var d, d' := (t1 - t0) as real / 1000.0, (t2 - t1) as real / 1000.0;
    assert (t2 - t0) as real / 1000.0 == d + d';
    assert (d + d') * config.rps == d * config.rps + d' * config.rps;
  }

  lemma CallSpendsBalance(s: Store, t: int, c: Call, b: string, later: int, plan: Plan)
    requires Legal(s, t, c, plan) && plan(b).rps > 0.0 && c.now <= later
    ensures Charge(s, c, b) as real <= Level(s, b, c.now, plan)
    ensures Charge(s, c, b) as real + Level(After(s, c), b, later, plan)
         <= Level(s, b, c.now, plan) + Gain(plan(b), c.now, later)
  {
    CallChargesExactly(s, t, c, b, plan);
    LevelGainsAtMost(After(s, c), b, c.now, later, plan);
  }

  lemma LevelGainsAtMost(s: Store, b: string, t: int, t': int, plan: Plan)
    requires Valid(s, t, plan) && plan(b).rps > 0.0 && t <= t'
    ensures Level(s, b, t', plan) <= Level(s, b, t, plan) + Gain(plan(b), t, t')
    ensures Level(s, b, t', plan) <= plan(b).burst as real
  {
    RefillComposes(s, b, t, t', plan);
  }

  lemma ValidLater(s: Store, t: int, t': int, plan: Plan)
    requires Valid(s, t, plan) && t <= t'
    ensures Valid(s, t', plan)
  {
  }

  /** From any valid store, a bucket gives out at most its balance at the first
      call plus what it gains up to the last. */
  lemma {:induction false} AdmittedWithinBalance(s: Store, t: int, calls: seq<Call>, b: string, plan: Plan)
    requires LegalRun(s, t, calls, plan) && calls != [] && plan(b).rps > 0.0
    ensures calls[0].now <= calls[|calls| - 1].now
    ensures AdmittedCost(s, calls, b) as real
         <= Level(s, b, calls[0].now, plan) + Gain(plan(b), calls[0].now, calls[|calls| - 1].now)
    decreases |calls|
  {
    var c, rest, s' := calls[0], calls[1..], After(s, calls[0]);
    if rest == [] {
      CallSpendsBalance(s, t, c, b, c.now, plan);
      assert AdmittedCost(s', rest, b) == 0;
    } else {
      assert rest[0] == calls[1] && rest[|rest| - 1] == calls[|calls| - 1];
      AdmittedWithinBalance(s', c.now, rest, b, plan);
      CallSpendsBalance(s, t, c, b, rest[0].now, plan);
      GainAdds(plan(b), c.now, rest[0].now, calls[|calls| - 1].now);
    }
  }

  lemma WindowIsLegal(calls: seq<Call>, t: int, i: nat, j: nat, plan: Plan)
    requires LegalRun(map[], t, calls, plan) && i <= j < |calls|
    ensures LegalRun(RunStore(map[], calls[..i]), ClockAfter(t, calls[..i]), calls[i..j + 1], plan)
  {
    assert calls[..i] + calls[i..] == calls;
    LegalRunSplits(map[], t, calls[..i], calls[i..], plan);
    assert calls[i..j + 1] + calls[j + 1..] == calls[i..];
    LegalRunSplits(RunStore(map[], calls[..i]), ClockAfter(t, calls[..i]), calls[i..j + 1], calls[j + 1..], plan);
  }

  /** The rate bound: in every window of every run, and for every key or tenant
      bucket, the admitted cost is at most the burst plus the sustained rate times
      the window's length. */
  lemma RateBound(calls: seq<Call>, t: int, i: nat, j: nat, b: string, plan: Plan)
    requires LegalRun(map[], t, calls, plan) && i <= j < |calls| && plan(b).rps > 0.0
    ensures AdmittedCost(RunStore(map[], calls[..i]), calls[i..j + 1], b) as real
         <= plan(b).burst as real + Gain(plan(b), calls[i].now, calls[j].now)
  {
    WindowIsLegal(calls, t, i, j, plan);
    var s, t' := RunStore(map[], calls[..i]), ClockAfter(t, calls[..i]);
    var window := calls[i..j + 1];
    assert window[0] == calls[i] && window[|window| - 1] == calls[j];
    AdmittedWithinBalance(s, t', window, b, plan);
    LevelGainsAtMost(s, b, t', calls[i].now, plan);
  }

  /** A burst of one, refilled once in the time between two readings. */
  function OncePer(lo: int, hi: int): BucketConfig
    requires lo < hi
  {
    BucketConfig(1000.0 / (hi - lo) as real, 1)
  }

  function UnitCall(now: int, config: BucketConfig): Call {
    Call(now, {}, "k", "t", "read", 1, RouteLimitConfig(config, config))
  }

  lemma RefillsOnce(lo: int, hi: int)
    requires lo < hi
    ensures (hi - lo) as real / 1000.0 * OncePer(lo, hi).rps == 1.0 && OncePer(lo, hi).rps > 0.0
  {
    var d := (hi - lo) as real;
    assert d / 1000.0 * (1000.0 / d) == d * (1000.0 / d) / 1000.0;
  }

  /** A call that finds a fresh bucket empties it; a step back then moves its clock. */
  lemma StepBackRefills(lo: int, hi: int, b: string)
    requires lo < hi && (b == KeyBucket("k", "read") || b == TenantBucket("t", "read"))
    ensures var c, s := OncePer(lo, hi), After(map[], UnitCall(hi, OncePer(lo, hi)));
            && GetTokens(s, b, c, lo) == 0.0
            && GetTokens(After(s, UnitCall(lo, c)), b, c, hi) == 1.0
  {
    KeyAndTenantBucketsDiffer("k", "t", "read", "read");
    RefillsOnce(lo, hi);
    var c := OncePer(lo, hi);
    var s := After(map[], UnitCall(hi, c));
    assert s[b].tokens == 0.0 && s[b].ts == hi;
    assert GetTokens(s, KeyBucket("k", "read"), c, lo) == 0.0;
    var s' := After(s, UnitCall(lo, c));
    assert s'[b].tokens == 0.0 && s'[b].ts == lo;
  }

  /** The clock assumption is needed wherever a clock can step back: readings hi, lo, hi
      refill the time between them twice, and two unit calls at one instant both get
      through a burst of one, past the bound for the window from `hi` to `hi`. */
  lemma BackwardsClockOveradmits(lo: int, hi: int)
    requires lo < hi
    ensures var c := OncePer(lo, hi);
            var calls := [UnitCall(hi, c), UnitCall(lo, c), UnitCall(hi, c)];
            && (forall i | 0 <= i < 3 :: Follows(calls[i], _ => c))
            && AdmittedCost(map[], calls, KeyBucket("k", "read")) as real
               > c.burst as real + Gain(c, calls[0].now, calls[2].now)
  {
    var c, key, tenant := OncePer(lo, hi), KeyBucket("k", "read"), TenantBucket("t", "read");
    var calls := [UnitCall(hi, c), UnitCall(lo, c), UnitCall(hi, c)];
    RefillsOnce(lo, hi);
    StepBackRefills(lo, hi, key);
    StepBackRefills(lo, hi, tenant);
    var s1 := After(map[], calls[0]);
    var s2 := After(s1, calls[1]);
    assert calls[1..] == [calls[1], calls[2]] && calls[1..][1..] == [calls[2]];
    assert Charge(map[], calls[0], key) == 1 && Charge(s2, calls[2], key) == 1;
    assert AdmittedCost(s2, [calls[2]], key) == 1;
    assert AdmittedCost(s1, [calls[1], calls[2]], key) == 1;
  }

  // --------------------------------------------- denied checks and expiries are invisible

  function Select<T>(xs: seq<T>, keep: seq<bool>): seq<T>
    requires |xs| == |keep|
  {
    if xs == [] then []
    else (if keep[0] then [xs[0]] else []) + Select(xs[1..], keep[1..])
  }

  /** The same checks against a store that never expires a key. */
  function WithoutEviction(calls: seq<Call>): (r: seq<Call>)
    ensures |r| == |calls|
  {
    seq(|calls|, i requires 0 <= i < |calls| => calls[i].(evicted := {}))
  }

  ghost predicate SameLevels(s: Store, s': Store, t: int, plan: Plan) {
    forall b {:trigger Level(s, b, t, plan)} {:trigger Level(s', b, t, plan)} ::
      plan(b).rps > 0.0 ==> Level(s, b, t, plan) == Level(s', b, t, plan)
  }

  lemma SameLevelsLater(s: Store, s': Store, t: int, t': int, plan: Plan)
    requires Valid(s, t, plan) && Valid(s', t, plan) && t <= t' && SameLevels(s, s', t, plan)
    ensures SameLevels(s, s', t', plan)
  {
    forall b | plan(b).rps > 0.0
      ensures Level(s, b, t', plan) == Level(s', b, t', plan)
    {
      RefillComposes(s, b, t, t', plan);
      RefillComposes(s', b, t, t', plan);
    }
  }

  lemma SameLevelsSameDecision(s: Store, s': Store, t: int, c: Call, c': Call, plan: Plan)
    requires Legal(s, t, c, plan) && Legal(s', t, c', plan) && c' == c.(evicted := c'.evicted)
    requires SameLevels(s, s', t, plan)
    ensures Decide(s, c) == Decide(s', c')
    ensures SameLevels(After(s, c), After(s', c'), c.now, plan)
  {
    SameLevelsLater(s, s', t, c.now, plan);
    var key, tenant := KeyBucket(c.apiKeyId, c.routeClass), TenantBucket(c.tenantId, c.routeClass);
    EvictionInvisible(s, c, t, key, plan);
    EvictionInvisible(s, c, t, tenant, plan);
    EvictionInvisible(s', c', t, key, plan);
    EvictionInvisible(s', c', t, tenant, plan);
    assert Level(s, key, c.now, plan) == Level(s', key, c.now, plan);
    assert Level(s, tenant, c.now, plan) == Level(s', tenant, c.now, plan);
    assert Decide(s, c) == Decide(s', c');
    forall b | plan(b).rps > 0.0
      ensures Level(After(s, c), b, c.now, plan) == Level(After(s', c'), b, c.now, plan)
    {
      CallChargesExactly(s, t, c, b, plan);
      CallChargesExactly(s', t, c', b, plan);
      assert Level(s, b, c.now, plan) == Level(s', b, c.now, plan);
    }
  }

  lemma DeniedCallChangesNoLevel(s: Store, t: int, c: Call, plan: Plan)
    requires Legal(s, t, c, plan) && !Decide(s, c).allowed
    ensures Valid(After(s, c), c.now, plan)
    ensures SameLevels(After(s, c), s, c.now, plan)
  {
    forall b
      ensures Level(After(s, c), b, c.now, plan) == Level(s, b, c.now, plan)
    {
      CallChargesExactly(s, t, c, b, plan);
    }
    CallChargesExactly(s, t, c, "", plan);
  }

  lemma SelectStep(calls: seq<Call>, keep: seq<bool>)
    requires |keep| == |calls| > 0
    ensures Select(WithoutEviction(calls), keep)
         == (if keep[0] then [calls[0].(evicted := {})] else []) + Select(WithoutEviction(calls[1..]), keep[1..])
  {
    assert WithoutEviction(calls)[1..] == WithoutEviction(calls[1..]);
  }

  lemma StartsKept(s: Store, t: int, c: Call, calls: seq<Call>, plan: Plan)
    requires Legal(s, t, c, plan) && LegalRun(After(s, c), c.now, calls, plan)
    ensures LegalRun(s, t, [c] + calls, plan)
    ensures RunDecisions(s, [c] + calls) == [Decide(s, c)] + RunDecisions(After(s, c), calls)
  {
    assert ([c] + calls)[1..] == calls;
  }

  /** Every call that is not kept was denied. */
  ghost predicate OnlyDeniedDropped(s: Store, calls: seq<Call>, keep: seq<bool>) {
    |keep| == |calls| && forall i | 0 <= i < |calls| && !keep[i] :: !RunDecisions(s, calls)[i].allowed
  }

  lemma DroppedRest(s: Store, calls: seq<Call>, keep: seq<bool>)
    requires OnlyDeniedDropped(s, calls, keep) && calls != []
    ensures OnlyDeniedDropped(After(s, calls[0]), calls[1..], keep[1..])
    ensures keep[0] || !Decide(s, calls[0]).allowed
    ensures Select(RunDecisions(s, calls), keep)
         == (if keep[0] then [Decide(s, calls[0])] else []) + Select(RunDecisions(After(s, calls[0]), calls[1..]), keep[1..])
  {
    var later := RunDecisions(After(s, calls[0]), calls[1..]);
    assert RunDecisions(s, calls) == [Decide(s, calls[0])] + later;
    assert forall i | 0 <= i < |calls| - 1 :: later[i] == RunDecisions(s, calls)[i + 1] && keep[1..][i] == keep[i + 1];
  }

  /** The stores keep agreeing over a call made in both, without expiry in the second. */
  lemma KeptCallAgrees(s: Store, s': Store, t: int, c: Call, plan: Plan)
    requires Legal(s, t, c, plan) && Valid(s', t, plan) && SameLevels(s, s', t, plan)
    ensures var c' := c.(evicted := {});
            && Legal(s', t, c', plan) && Decide(s', c') == Decide(s, c)
            && Valid(After(s', c'), c.now, plan) && SameLevels(After(s, c), After(s', c'), c.now, plan)
  {
    SameLevelsSameDecision(s, s', t, c, c.(evicted := {}), plan);
    CallChargesExactly(s', t, c.(evicted := {}), "", plan);
  }

  /** And over a denied call made in the first only. */
  lemma DroppedCallAgrees(s: Store, s': Store, t: int, c: Call, plan: Plan)
    requires Legal(s, t, c, plan) && Valid(s', t, plan) && SameLevels(s, s', t, plan) && !Decide(s, c).allowed
    ensures Valid(s', c.now, plan) && SameLevels(After(s, c), s', c.now, plan)
  {
    DeniedCallChangesNoLevel(s, t, c, plan);
    SameLevelsLater(s, s', t, c.now, plan);
    ValidLater(s', t, c.now, plan);
  }

  lemma {:induction false} InvisibleFrom(s: Store, s': Store, t: int, calls: seq<Call>, keep: seq<bool>, plan: Plan)
    requires LegalRun(s, t, calls, plan) && Valid(s', t, plan) && SameLevels(s, s', t, plan)
    requires OnlyDeniedDropped(s, calls, keep)
    ensures LegalRun(s', t, Select(WithoutEviction(calls), keep), plan)
    ensures RunDecisions(s', Select(WithoutEviction(calls), keep)) == Select(RunDecisions(s, calls), keep)
    decreases |calls|
  {
    if calls != [] {
      var c, rest, keep' := calls[0], calls[1..], keep[1..];
      DroppedRest(s, calls, keep);
      SelectStep(calls, keep);
      var kept := Select(WithoutEviction(rest), keep');
      if keep[0] {
        KeptCallAgrees(s, s', t, c, plan);
        InvisibleFrom(After(s, c), After(s', c.(evicted := {})), c.now, rest, keep', plan);
        StartsKept(s', t, c.(evicted := {}), kept, plan);
      } else {
        DroppedCallAgrees(s, s', t, c, plan);
        InvisibleFrom(After(s, c), s', c.now, rest, keep', plan);
        LegalRunEarlier(s', t, c.now, kept, plan);
        assert [] + kept == kept;
      }
    }
  }

  /** The balances left behind agree too, exactly and for every bucket. */
  lemma {:induction false} InvisibleBalances(s: Store, s': Store, t: int, calls: seq<Call>, keep: seq<bool>, plan: Plan)
    requires LegalRun(s, t, calls, plan) && Valid(s', t, plan) && SameLevels(s, s', t, plan)
    requires OnlyDeniedDropped(s, calls, keep)
    ensures SameLevels(RunStore(s, calls), RunStore(s', Select(WithoutEviction(calls), keep)), ClockAfter(t, calls), plan)
    decreases |calls|
  {
    if calls != [] {
      var c, rest, keep' := calls[0], calls[1..], keep[1..];
      DroppedRest(s, calls, keep);
      SelectStep(calls, keep);
      var kept := Select(WithoutEviction(rest), keep');
      if keep[0] {
        KeptCallAgrees(s, s', t, c, plan);
        InvisibleBalances(After(s, c), After(s', c.(evicted := {})), c.now, rest, keep', plan);
        RunStoreStep(s', c.(evicted := {}), kept);
      } else {
        DroppedCallAgrees(s, s', t, c, plan);
        InvisibleBalances(After(s, c), s', c.now, rest, keep', plan);
        assert [] + kept == kept;
      }
    }
  }

  lemma RunStoreStep(s: Store, c: Call, calls: seq<Call>)
    ensures RunStore(s, [c] + calls) == RunStore(After(s, c), calls)
  {
    assert ([c] + calls)[1..] == calls;
  }

  lemma LegalRunEarlier(s: Store, t: int, t': int, calls: seq<Call>, plan: Plan)
    requires Valid(s, t, plan) && t <= t' && LegalRun(s, t', calls, plan)
    ensures LegalRun(s, t, calls, plan)
  {
  }

  /** Denied checks and expiries leave no trace: strike any denied checks from a
      run and let no key expire, and every other decision, remaining balances and
      retry hints included, is the same, and so is the exact balance of every bucket
      at the end. */
  lemma DeniedAndExpiredInvisible(t: int, calls: seq<Call>, keep: seq<bool>, plan: Plan)
    requires LegalRun(map[], t, calls, plan) && OnlyDeniedDropped(map[], calls, keep)
    ensures RunDecisions(map[], Select(WithoutEviction(calls), keep)) == Select(RunDecisions(map[], calls), keep)
    ensures SameLevels(RunStore(map[], calls), RunStore(map[], Select(WithoutEviction(calls), keep)),
                       ClockAfter(t, calls), plan)
  {
    InvisibleFrom(map[], map[], t, calls, keep, plan);
    InvisibleBalances(map[], map[], t, calls, keep, plan);
  }

  // -------------------------------------------------------------------- the retry hint

  /** The hint of one short bucket is the least wait that fills the gap. */
  lemma RetryAfterLeast(tokens: real, rate: real, cost: nat, wait: nat)
    requires rate > 0.0
    ensures cost as real <= tokens + wait as real / 1000.0 * rate <==> RetryAfterMs(tokens, rate, cost) <= wait
  {
    var gain := wait as real / 1000.0 * rate;
    assert gain >= 0.0;
    if tokens < cost as real {
      var x := (cost as real - tokens) / rate;
      CeilBounds(x * 1000.0);
      if x * 1000.0 <= wait as real {
        MulMonotone(x, wait as real / 1000.0, rate);
      }
      if gain >= cost as real - tokens {
        assert gain / rate == wait as real / 1000.0;
        DivMonotone(cost as real - tokens, gain, rate);
      }
    }
  }

  lemma DivMonotone(x: real, y: real, z: real)
    requires x <= y && 0.0 < z
    ensures x / z <= y / z
  {
    assert y / z - x / z == (y - x) / z;
  }

  lemma CoveredAfterWait(s: Store, b: string, t: int, wait: nat, cost: nat, plan: Plan)
    requires Valid(s, t, plan) && plan(b).rps > 0.0
    ensures cost as real <= Level(s, b, t + wait, plan)
       <==> cost <= plan(b).burst && RetryAfterMs(Level(s, b, t, plan), plan(b).rps, cost) <= wait
  {
    RefillComposes(s, b, t, t + wait, plan);
    RetryAfterLeast(Level(s, b, t, plan), plan(b).rps, cost, wait);
  }

  /** After a denial, and with no other traffic, the same request is admitted on
      waiting `wait` milliseconds exactly when `wait` has reached the hint and the
      cost fits both bursts: the hint is the least wait when there is one, and a
      cost above a burst is never admitted whatever the hint says. */
  lemma RetryHintExact(s: Store, t: int, c: Call, wait: nat, evicted: set<string>, plan: Plan)
    requires Legal(s, t, c, plan) && !Decide(s, c).allowed
    requires EvictsExpired(After(s, c), c.(now := c.now + wait, evicted := evicted))
    ensures Decide(After(s, c), c.(now := c.now + wait, evicted := evicted)).allowed
       <==> Decide(s, c).retryAfterMs <= wait && c.cost <= c.limits.key.burst && c.cost <= c.limits.tenant.burst
  {
    var key, tenant := KeyBucket(c.apiKeyId, c.routeClass), TenantBucket(c.tenantId, c.routeClass);
    DeniedCallChangesNoLevel(s, t, c, plan);
    AdmittedExactlyWhenCovered(After(s, c), c.now, c.(now := c.now + wait, evicted := evicted), plan);
    WaitCovers(s, t, c, key, wait, plan);
    WaitCovers(s, t, c, tenant, wait, plan);
    HintOfDenial(s, t, c, plan);
  }

  /** After a denial a bucket covers the cost on waiting its own hint, if its burst does. */
  lemma WaitCovers(s: Store, t: int, c: Call, b: string, wait: nat, plan: Plan)
    requires Legal(s, t, c, plan) && !Decide(s, c).allowed && plan(b).rps > 0.0
    ensures c.cost as real <= Level(After(s, c), b, c.now + wait, plan)
       <==> c.cost <= plan(b).burst && RetryAfterMs(Level(s, b, c.now, plan), plan(b).rps, c.cost) <= wait
  {
    DeniedCallChangesNoLevel(s, t, c, plan);
    assert Level(After(s, c), b, c.now, plan) == Level(s, b, c.now, plan);
    CoveredAfterWait(After(s, c), b, c.now, wait, c.cost, plan);
  }

  /** The hint of a denial is the longer of what the two buckets ask for. */
  lemma HintOfDenial(s: Store, t: int, c: Call, plan: Plan)
    requires Legal(s, t, c, plan) && !Decide(s, c).allowed
    ensures var key, tenant := KeyBucket(c.apiKeyId, c.routeClass), TenantBucket(c.tenantId, c.routeClass);
            var keyWait := RetryAfterMs(Level(s, key, c.now, plan), c.limits.key.rps, c.cost);
            var tenantWait := RetryAfterMs(Level(s, tenant, c.now, plan), c.limits.tenant.rps, c.cost);
            Decide(s, c).retryAfterMs == if keyWait >= tenantWait then keyWait else tenantWait
  {
    var key, tenant := KeyBucket(c.apiKeyId, c.routeClass), TenantBucket(c.tenantId, c.routeClass);
    EvictionInvisible(s, c, t, key, plan);
    EvictionInvisible(s, c, t, tenant, plan);
    HintNonNegative(Level(s, key, c.now, plan), c.limits.key.rps, c.cost);
    HintNonNegative(Level(s, tenant, c.now, plan), c.limits.tenant.rps, c.cost);
  }

  lemma HintNonNegative(tokens: real, rate: real, cost: nat)
    requires rate > 0.0
    ensures RetryAfterMs(tokens, rate, cost) >= 0
    ensures tokens < cost as real ==> RetryAfterMs(tokens, rate, cost) > 0
  {
    if tokens < cost as real {
      assert (cost as real - tokens) / rate > 0.0;
      CeilBounds((cost as real - tokens) / rate * 1000.0);
    }
  }
}
