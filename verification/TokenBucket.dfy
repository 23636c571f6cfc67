/**
  The log-request rate limiter (backend/internal/api/log_rate_limiter.go and the key building of
  allowLogRequest in backend/internal/api/logs.go).

  Times are seconds and tokens are real numbers; rounding of floating point is not modelled.
 */
module TokenBucket {

  datatype Rate = Rate(rate: real, burst: real)

  datatype Bucket = Bucket(tokens: real, last: real)

  // How a bucket fills: its size, and the tokens earned between two instants.
  datatype Rule = Rule(burst: real, earn: (real, real) -> real)

  function RuleOf(cfg: Rate): Rule {
    Rule(cfg.burst, (from, to) => (to - from) * cfg.rate)
  }

  // Earning adds up over time and never takes anything away.
  ghost predicate Steady(r: Rule) {
    (forall a, b, c :: Adds(r, a, b, c)) && (forall a, b :: a <= b ==> r.earn(a, b) >= 0.0)
  }

  ghost predicate Adds(r: Rule, a: real, b: real, c: real) {
    r.earn(a, c) == r.earn(a, b) + r.earn(b, c)
  }

  lemma RateAdds(rate: real, a: real, b: real, c: real)
    ensures (c - a) * rate == (b - a) * rate + (c - b) * rate
  {
  }

  lemma RateIsSteady(cfg: Rate)
    requires cfg.rate >= 0.0
    ensures Steady(RuleOf(cfg))
  {
    forall a, b, c ensures Adds(RuleOf(cfg), a, b, c) {
      RateAdds(cfg.rate, a, b, c);
    }
  }

  // ---- One bucket ----

  function Refill(r: Rule, b: Bucket, now: real): real {
    var tokens := b.tokens + r.earn(b.last, now);
    if tokens > r.burst then r.burst else tokens
  }

  function Take(r: Rule, b: Bucket, now: real): (Bucket, bool) {
    var tokens := Refill(r, b, now);
    if tokens < 1.0 then (Bucket(tokens, now), false) else (Bucket(tokens - 1.0, now), true)
  }

  // ---- A run of calls on one bucket ----

  ghost predicate CallTimes(created: real, times: seq<real>) {
    && (times != [] ==> created <= times[0])
    && forall i, j :: 0 <= i <= j < |times| ==> times[i] <= times[j]
  }

  // The bucket after the first `k` calls; it is created full.
  function After(r: Rule, created: real, times: seq<real>, k: nat): Bucket
    requires k <= |times|
  {
    if k == 0 then Bucket(r.burst, created) else Take(r, After(r, created, times, k - 1), times[k - 1]).0
  }

  function Level(r: Rule, created: real, times: seq<real>, k: nat): real
    requires k < |times|
  {
    Refill(r, After(r, created, times, k), times[k])
  }

  predicate Allowed(r: Rule, created: real, times: seq<real>, k: nat)
    requires k < |times|
  {
    Take(r, After(r, created, times, k), times[k]).1
  }

  // Calls allowed among those numbered from `i` up to but not including `j`.
  function Count(r: Rule, created: real, times: seq<real>, i: nat, j: nat): nat
    requires i <= j <= |times|
  {
    if i == j then 0
    else Count(r, created, times, i, j - 1) + (if Allowed(r, created, times, j - 1) then 1 else 0)
  }

  lemma {:induction false} TokensBounded(r: Rule, created: real, times: seq<real>, k: nat)
    requires Steady(r) && r.burst >= 0.0 && CallTimes(created, times) && k <= |times|
    ensures 0.0 <= After(r, created, times, k).tokens <= r.burst
    ensures After(r, created, times, k).last == if k == 0 then created else times[k - 1]
  {
    if k > 0 {
      TokensBounded(r, created, times, k - 1);
      assert After(r, created, times, k - 1).last <= times[k - 1];
    }
  }

  // What a window that starts with call `i` would still permit at call `k`.
  function Room(r: Rule, created: real, times: seq<real>, i: nat, k: nat): real
    requires i <= k < |times|
  {
    r.burst + r.earn(times[i], times[k]) - Count(r, created, times, i, k) as real
  }

  lemma RoomStep(r: Rule, created: real, times: seq<real>, i: nat, k: nat)
    requires Steady(r) && i < k < |times|
    ensures Room(r, created, times, i, k) == Room(r, created, times, i, k - 1)
              + r.earn(times[k - 1], times[k]) - (if Allowed(r, created, times, k - 1) then 1.0 else 0.0)
  {
    assert Adds(r, times[i], times[k - 1], times[k]);
  }

  lemma LevelStep(r: Rule, created: real, times: seq<real>, k: nat)
    requires Steady(r) && r.burst >= 0.0 && CallTimes(created, times) && 0 < k < |times|
    ensures var full := Level(r, created, times, k - 1) - (if Allowed(r, created, times, k - 1) then 1.0 else 0.0)
                        + r.earn(times[k - 1], times[k]);
            Level(r, created, times, k) == if full > r.burst then r.burst else full
  {
    TokensBounded(r, created, times, k);
  }

  lemma FirstLevel(r: Rule, created: real, times: seq<real>)
    requires Steady(r) && CallTimes(created, times) && times != []
    ensures Level(r, created, times, 0) == r.burst
  {
    assert r.earn(created, times[0]) >= 0.0;
  }

  lemma OwnRoom(r: Rule, created: real, times: seq<real>, k: nat)
    requires Steady(r) && k < |times|
    ensures Room(r, created, times, k, k) == r.burst
  {
    assert Adds(r, times[k], times[k], times[k]);
  }

  // The level is never above what any window permits...
  lemma {:induction false} LevelWithinRoom(r: Rule, created: real, times: seq<real>, i: nat, k: nat)
    requires Steady(r) && r.burst >= 0.0 && CallTimes(created, times) && i <= k < |times|
    ensures Level(r, created, times, k) <= Room(r, created, times, i, k)
    decreases k
  {
    if i < k {
      LevelWithinRoom(r, created, times, i, k - 1);
      RoomStep(r, created, times, i, k);
      LevelStep(r, created, times, k);
    } else {
      OwnRoom(r, created, times, k);
    }
  }

  // ...and equals what some window permits.
  lemma {:induction false} LevelIsSomeRoom(r: Rule, created: real, times: seq<real>, k: nat) returns (i: nat)
    requires Steady(r) && r.burst >= 0.0 && CallTimes(created, times) && k < |times|
    ensures i <= k && Level(r, created, times, k) == Room(r, created, times, i, k)
    decreases k
  {
    OwnRoom(r, created, times, k);
    i := k;
    if k == 0 {
      FirstLevel(r, created, times);
    } else if Level(r, created, times, k) != r.burst {
      i := LevelIsSomeRoom(r, created, times, k - 1);
      RoomStep(r, created, times, i, k);
      LevelStep(r, created, times, k);
    }
  }

  // ---- Main results ----

  lemma {:induction false} WindowBoundByRule(r: Rule, created: real, times: seq<real>, i: nat, j: nat,
                                             from: real, to: real)
    requires Steady(r) && r.burst >= 0.0 && CallTimes(created, times) && i <= j < |times|
    requires from <= times[i] && times[j] <= to
    ensures Count(r, created, times, i, j + 1) as real <= r.burst + r.earn(from, to)
  {
    LevelWithinRoom(r, created, times, i, j);
    assert Adds(r, from, times[i], to);
    assert Adds(r, times[i], times[j], to);
    TokensBounded(r, created, times, j + 1);
  }

  // The calls allowed in any stretch of time are at most the burst plus what the rate gives in it.
  lemma WindowBound(cfg: Rate, created: real, times: seq<real>, i: nat, j: nat, from: real, to: real)
    requires cfg.rate >= 0.0 && cfg.burst >= 0.0 && CallTimes(created, times) && i <= j < |times|
    requires from <= times[i] && times[j] <= to
    ensures Count(RuleOf(cfg), created, times, i, j + 1) as real <= cfg.burst + (to - from) * cfg.rate
  {
    var r := RuleOf(cfg);
    assert Steady(r) by { RateIsSteady(cfg); }
    assert r.burst == cfg.burst;
    EarnsAtRate(cfg, from, to);
    WindowBoundByRule(r, created, times, i, j, from, to);
  }

  lemma EarnsAtRate(cfg: Rate, from: real, to: real)
    ensures RuleOf(cfg).earn(from, to) == (to - from) * cfg.rate
  {
  }

  // Allowing call `k` would exceed the bound for the window that starts with call `i`.
  predicate WindowFull(r: Rule, created: real, times: seq<real>, i: nat, k: nat)
    requires i <= k < |times|
  {
    Count(r, created, times, i, k) as real + 1.0 > r.burst + r.earn(times[i], times[k])
  }

  // Partner: a call is refused exactly when allowing it would break that bound for some window
  // that starts with an earlier call or with this one.
  lemma RefusedIffWindowFull(r: Rule, created: real, times: seq<real>, k: nat)
    requires Steady(r) && r.burst >= 0.0 && CallTimes(created, times) && k < |times|
    ensures !Allowed(r, created, times, k) <==>
              exists i :: 0 <= i <= k && WindowFull(r, created, times, i, k)
  {
    var i := LevelIsSomeRoom(r, created, times, k);
    assert WindowFull(r, created, times, i, k) <==> Room(r, created, times, i, k) < 1.0;
    forall h | 0 <= h <= k ensures WindowFull(r, created, times, h, k) ==> Level(r, created, times, k) < 1.0 {
      LevelWithinRoom(r, created, times, h, k);
    }
  }

  lemma OnePerInterval(rate: real, gap: real)
    requires rate > 0.0 && gap >= 1.0 / rate
    ensures gap * rate >= 1.0
  {
    assert (gap - 1.0 / rate) * rate >= 0.0;
    assert (gap - 1.0 / rate) * rate == gap * rate - 1.0;
  }

  lemma EarnedCallAllowed(r: Rule, created: real, times: seq<real>, k: nat)
    requires Steady(r) && r.burst >= 1.0 && CallTimes(created, times) && k < |times|
    requires k > 0 ==> r.earn(times[k - 1], times[k]) >= 1.0
    ensures Allowed(r, created, times, k)
  {
    if k == 0 {
      FirstLevel(r, created, times);
    } else {
      TokensBounded(r, created, times, k);
    }
  }

  // A client that keeps to the rate is never refused.
  lemma SpacedCallsAllowed(cfg: Rate, created: real, times: seq<real>, k: nat)
    requires cfg.rate > 0.0 && cfg.burst >= 1.0 && CallTimes(created, times) && k < |times|
    requires k > 0 ==> times[k] - times[k - 1] >= 1.0 / cfg.rate
    ensures Allowed(RuleOf(cfg), created, times, k)
  {
    RateIsSteady(cfg);
    if k > 0 {
      OnePerInterval(cfg.rate, times[k] - times[k - 1]);
    }
    EarnedCallAllowed(RuleOf(cfg), created, times, k);
  }

  // ---- The limiter ----

  datatype Override = Override(namespace: string, ratePerMinute: int, burst: int)

  function PerMinute(ratePerMinute: int, burst: int): Rate {
    Rate(ratePerMinute as real / 60.0, (if burst <= 0 then ratePerMinute else burst) as real)
  }

  function Overrides(entries: seq<Override>): map<string, Rate> {
    if entries == [] then map[]
    else
      var before, e := Overrides(entries[..|entries| - 1]), entries[|entries| - 1];
      if e.namespace == "" || e.ratePerMinute <= 0 then before
      else before[e.namespace := PerMinute(e.ratePerMinute, e.burst)]
  }

  // A bucket that is limited at all can hold a whole token.
  ghost predicate Usable(r: Rate) {
    r.rate > 0.0 ==> r.burst >= 1.0
  }

  lemma PerMinuteUsable(ratePerMinute: int, burst: int)
    ensures Usable(PerMinute(ratePerMinute, burst))
    ensures PerMinute(ratePerMinute, burst).rate > 0.0 <==> ratePerMinute > 0
  {
  }

  lemma {:induction false} OverridesUsable(entries: seq<Override>)
    ensures forall ns :: ns in Overrides(entries) ==>
              Usable(Overrides(entries)[ns]) && Overrides(entries)[ns].rate > 0.0
  {
    if entries != [] {
      var e := entries[|entries| - 1];
      OverridesUsable(entries[..|entries| - 1]);
      PerMinuteUsable(e.ratePerMinute, e.burst);
    }
  }

  class Limiter {
    const default: Rate
    const overrides: map<string, Rate>
    var buckets: map<string, Bucket>

    constructor (ratePerMinute: int, burst: int, entries: seq<Override>)
      ensures default == PerMinute(ratePerMinute, burst) && overrides == Overrides(entries) && buckets == map[]
      ensures Usable(default) && forall ns :: ns in overrides ==> Usable(overrides[ns])
    {
      var configOverrides: map<string, Rate> := map[];
      for k := 0 to |entries|
        invariant configOverrides == Overrides(entries[..k])
      {
        var entry := entries[k];
        assert entries[..k + 1][..k] == entries[..k];
        if entry.namespace == "" || entry.ratePerMinute <= 0 {
          continue;
        }
        var overrideBurst := entry.burst;
        if overrideBurst <= 0 {
          overrideBurst := entry.ratePerMinute;
        }
        var rate := Rate(entry.ratePerMinute as real / 60.0, overrideBurst as real);
        configOverrides := configOverrides[entry.namespace := rate];
      }
      assert entries[..|entries|] == entries;
      OverridesUsable(entries);
      PerMinuteUsable(ratePerMinute, burst);
      default, overrides, buckets := PerMinute(ratePerMinute, burst), configOverrides, map[];
    }

    function LookupConfig(namespace: string): Rate {
      if namespace in overrides then overrides[namespace] else default
    }

    // `created` and `now` are the two clock readings of one call.
    method Allow(namespace: string, key: string, created: real, now: real) returns (ok: bool)
      modifies this
      ensures var cfg := LookupConfig(namespace);
              if cfg.rate <= 0.0 then ok && buckets == old(buckets)
              else
                var id := BucketKey(namespace, key);
                var b := if id in old(buckets) then old(buckets)[id] else Bucket(cfg.burst, created);
                ok == Take(RuleOf(cfg), b, now).1 && buckets == old(buckets)[id := Take(RuleOf(cfg), b, now).0]
    {
      var cfg := LookupConfig(namespace);
      if cfg.rate <= 0.0 {
        return true;
      }
      var bucketKey := BucketKey(namespace, key);
      var bucket := Bucket(cfg.burst, created);
      if bucketKey in buckets {
        bucket := buckets[bucketKey];
      }
      var elapsed := now - bucket.last;
      var earned := elapsed * cfg.rate;
      EarnsAtRate(cfg, bucket.last, now);
      assert earned == RuleOf(cfg).earn(bucket.last, now);
      var tokens := bucket.tokens + earned;
      if tokens > cfg.burst {
        tokens := cfg.burst;
      }
      ok := tokens >= 1.0;
      if ok {
        tokens := tokens - 1.0;
      }
      buckets := buckets[bucketKey := Bucket(tokens, now)];
    }
  }

  // The entry limits the namespace.
  predicate Limits(e: Override, namespace: string) {
    namespace != "" && e.namespace == namespace && e.ratePerMinute > 0
  }

  // A limit of so many requests a minute; without a positive burst the bucket holds a minute's worth.
  ghost predicate IsLimit(r: Rate, ratePerMinute: int, burst: int) {
    r.rate * 60.0 == ratePerMinute as real && r.burst == (if burst > 0 then burst else ratePerMinute) as real
  }

  // The last entry that limits the namespace decides, and the default without one.
  lemma {:induction false} LastOverrideDecides(entries: seq<Override>, ns: string) returns (k: int)
    ensures -1 <= k < |entries| && (k >= 0 ==> Limits(entries[k], ns))
    ensures forall j :: k < j < |entries| ==> !Limits(entries[j], ns)
    ensures ns in Overrides(entries) <==> k >= 0
    ensures k >= 0 ==> IsLimit(Overrides(entries)[ns], entries[k].ratePerMinute, entries[k].burst)
  {
    k := |entries| - 1;
    if entries != [] && !Limits(entries[k], ns) {
      k := LastOverrideDecides(entries[..k], ns);
    }
  }

  lemma ConfiguredLimit(limiter: Limiter, ratePerMinute: int, burst: int, entries: seq<Override>, ns: string)
    returns (k: int)
    requires limiter.default == PerMinute(ratePerMinute, burst) && limiter.overrides == Overrides(entries)
    ensures -1 <= k < |entries| && forall j :: k < j < |entries| ==> !Limits(entries[j], ns)
    ensures if k == -1 then IsLimit(limiter.LookupConfig(ns), ratePerMinute, burst)
            else Limits(entries[k], ns)
                 && IsLimit(limiter.LookupConfig(ns), entries[k].ratePerMinute, entries[k].burst)
  {
    k := LastOverrideDecides(entries, ns);
  }

  // ---- Which requests share a bucket ----

  function BucketKey(namespace: string, key: string): string {
    namespace + "|" + key
  }

  // allowLogRequest: `who` is the user's subject, or the remote address without a user.
  function RequestKey(who: string, namespace: string): string {
    who + "|" + namespace
  }

  lemma SplitAtBar(a: string, s: string, b: string, t: string)
    requires '|' !in a && '|' !in b && a + "|" + s == b + "|" + t
    ensures a == b && s == t
  {
    var x, y := a + "|" + s, b + "|" + t;
    assert x[|a|] == '|' && y[|b|] == '|';
    forall k | 0 <= k < |b| ensures y[k] != '|' {
      assert b[k] in b;
    }
    forall k | 0 <= k < |a| ensures x[k] != '|' {
      assert a[k] in a;
    }
    assert x[..|a|] == a && y[..|b|] == b;
    assert x[|a| + 1..] == s && y[|b| + 1..] == t;
  }

  // Two requests draw on one bucket exactly when subject and namespace agree, whatever characters
  // the subjects contain.
  lemma SharedBucketIff(who: string, ns: string, who': string, ns': string)
    requires '|' !in ns && '|' !in ns'
    ensures BucketKey(ns, RequestKey(who, ns)) == BucketKey(ns', RequestKey(who', ns')) <==>
              who == who' && ns == ns'
  {
    if BucketKey(ns, RequestKey(who, ns)) == BucketKey(ns', RequestKey(who', ns')) {
      SplitAtBar(ns, RequestKey(who, ns), ns', RequestKey(who', ns'));
      assert RequestKey(who, ns)[..|who|] == who;
      assert RequestKey(who', ns')[..|who'|] == who';
      assert |RequestKey(who, ns)| == |who| + 1 + |ns|;
    }
  }

  // ---- Any interleaving of requests ----

  // One request: who asks for which namespace, and the two clock readings.
  datatype Request = Request(who: string, namespace: string, created: real, now: real)

  function IdOf(q: Request): string {
    BucketKey(q.namespace, RequestKey(q.who, q.namespace))
  }

  // The requests that draw on the same bucket, in order.
  ghost function Same(qs: seq<Request>, who: string, namespace: string): seq<Request> {
    if qs == [] then []
    else
      var last := qs[|qs| - 1];
      Same(qs[..|qs| - 1], who, namespace)
      + (if last.who == who && last.namespace == namespace then [last] else [])
  }

  ghost function Times(qs: seq<Request>): seq<real> {
    seq(|qs|, k requires 0 <= k < |qs| => qs[k].now)
  }

  // The bucket after those requests; the first of them creates it.
  ghost function BucketAfter(cfg: Rate, qs: seq<Request>): Bucket
    requires qs != []
  {
    After(RuleOf(cfg), qs[0].created, Times(qs), |qs|)
  }

  // The answer to the last of them.
  ghost predicate Answer(cfg: Rate, qs: seq<Request>)
    requires qs != []
  {
    Allowed(RuleOf(cfg), qs[0].created, Times(qs), |qs| - 1)
  }

  lemma {:induction false} AfterAgrees(r: Rule, created: real, a: seq<real>, b: seq<real>, k: nat)
    requires k <= |a| && a <= b
    ensures After(r, created, a, k) == After(r, created, b, k)
  {
    if k > 0 {
      AfterAgrees(r, created, a, b, k - 1);
    }
  }

  // One more request on a bucket takes one step of its rule.
  lemma OneMoreRequest(cfg: Rate, qs: seq<Request>, q: Request)
    ensures var r, all := RuleOf(cfg), qs + [q];
            var b := if qs == [] then Bucket(cfg.burst, q.created) else BucketAfter(cfg, qs);
            Take(r, b, q.now) == (BucketAfter(cfg, all), Answer(cfg, all))
  {
    var r, all := RuleOf(cfg), qs + [q];
    if qs == [] {
      assert all == [q] && Times(all) == [q.now];
      assert After(r, q.created, [q.now], 0) == Bucket(cfg.burst, q.created);
    } else {
      assert Times(all) == Times(qs) + [q.now];
      AfterAgrees(r, qs[0].created, Times(qs), Times(all), |qs|);
    }
  }

  // What the buckets of a limiter are after a list of requests.
  ghost predicate Reflects(limiter: Limiter, buckets: map<string, Bucket>, qs: seq<Request>) {
    forall who, ns {:trigger Same(qs, who, ns)} :: '|' !in ns ==> Holds(limiter, buckets, qs, who, ns)
  }

  ghost predicate Holds(limiter: Limiter, buckets: map<string, Bucket>, qs: seq<Request>, who: string, ns: string) {
    var id, same, cfg := BucketKey(ns, RequestKey(who, ns)), Same(qs, who, ns), limiter.LookupConfig(ns);
    cfg.rate > 0.0 ==>
      if same == [] then id !in buckets else id in buckets && buckets[id] == BucketAfter(cfg, same)
  }

  lemma NoBuckets(limiter: Limiter)
    ensures Reflects(limiter, map[], [])
  {
    forall who, ns ensures Holds(limiter, map[], [], who, ns) {
      assert Same([], who, ns) == [];
    }
  }

  lemma SameSnoc(qs: seq<Request>, q: Request, who: string, ns: string)
    ensures Same(qs + [q], who, ns) == Same(qs, who, ns) + if q.who == who && q.namespace == ns then [q] else []
  {
    assert (qs + [q])[..|qs|] == qs;
  }

  // Answering a request leaves every other client's bucket alone.
  lemma OthersStay(limiter: Limiter, buckets: map<string, Bucket>, b: Bucket, qs: seq<Request>, q: Request,
                   who: string, ns: string)
    requires Holds(limiter, buckets, qs, who, ns) && '|' !in ns && '|' !in q.namespace
    requires who != q.who || ns != q.namespace
    ensures Holds(limiter, buckets, qs + [q], who, ns) && Holds(limiter, buckets[IdOf(q) := b], qs + [q], who, ns)
  {
    SameSnoc(qs, q, who, ns);
    assert Same(qs, who, ns) + [] == Same(qs, who, ns);
    SharedBucketIff(who, ns, q.who, q.namespace);
  }

  // Answers one more request of any client.
  method AllowNext(limiter: Limiter, ghost qs: seq<Request>, q: Request) returns (ok: bool)
    requires Reflects(limiter, limiter.buckets, qs) && '|' !in q.namespace
    modifies limiter
    ensures Reflects(limiter, limiter.buckets, qs + [q])
    ensures var cfg := limiter.LookupConfig(q.namespace);
            if cfg.rate <= 0.0 then ok
            else var same := Same(qs + [q], q.who, q.namespace); same != [] && ok == Answer(cfg, same)
  {
    ghost var cfg := limiter.LookupConfig(q.namespace);
    ghost var before := limiter.buckets;
    SameSnoc(qs, q, q.who, q.namespace);
    OneMoreRequest(cfg, Same(qs, q.who, q.namespace), q);
    assert Holds(limiter, before, qs, q.who, q.namespace);
    ok := limiter.Allow(q.namespace, RequestKey(q.who, q.namespace), q.created, q.now);
    assert Holds(limiter, limiter.buckets, qs + [q], q.who, q.namespace);
    ghost var b := if cfg.rate > 0.0 then limiter.buckets[IdOf(q)] else Bucket(0.0, 0.0);
    forall who, ns | '|' !in ns ensures Holds(limiter, limiter.buckets, qs + [q], who, ns) {
      if who != q.who || ns != q.namespace {
        assert Holds(limiter, before, qs, who, ns);
        OthersStay(limiter, before, b, qs, q, who, ns);
      }
    }
  }

  // The answer to request `k`: that of its place in the run of all requests of its own subject and
  // namespace, whatever the others do.
  ghost predicate IsAnswer(limiter: Limiter, qs: seq<Request>, k: nat, ok: bool)
    requires k < |qs|
  {
    var who, ns := qs[k].who, qs[k].namespace;
    var cfg, same, place := limiter.LookupConfig(ns), Same(qs, who, ns), |Same(qs[..k], who, ns)|;
    if cfg.rate <= 0.0 then ok
    else place < |same| && ok == Allowed(RuleOf(cfg), same[0].created, Times(same), place)
  }

  lemma {:induction false} SameIsPrefix(qs: seq<Request>, k: nat, who: string, ns: string)
    requires k <= |qs|
    ensures Same(qs[..k], who, ns) <= Same(qs, who, ns)
    decreases |qs|
  {
    if k < |qs| {
      var n := |qs| - 1;
      assert qs[..n][..k] == qs[..k];
      SameIsPrefix(qs[..n], k, who, ns);
    } else {
      assert qs[..k] == qs;
    }
  }

  // What is answered at the time is what the whole run says about that place.
  lemma AnswerInWholeRun(cfg: Rate, qs: seq<Request>, k: nat)
    requires k < |qs|
    ensures var who, ns := qs[k].who, qs[k].namespace;
            var sofar, same, place := Same(qs[..k + 1], who, ns), Same(qs, who, ns), |Same(qs[..k], who, ns)|;
            && sofar != [] && place < |same|
            && Answer(cfg, sofar) == Allowed(RuleOf(cfg), same[0].created, Times(same), place)
  {
    var who, ns := qs[k].who, qs[k].namespace;
    assert qs[..k + 1] == qs[..k] + [qs[k]];
    SameSnoc(qs[..k], qs[k], who, ns);
    SameIsPrefix(qs, k + 1, who, ns);
    AnswerOfBeginning(cfg, Same(qs[..k + 1], who, ns), Same(qs, who, ns));
  }

  lemma AnswerOfBeginning(cfg: Rate, sofar: seq<Request>, same: seq<Request>)
    requires sofar != [] && sofar <= same
    ensures Answer(cfg, sofar) == Allowed(RuleOf(cfg), same[0].created, Times(same), |sofar| - 1)
  {
    assert Times(sofar) <= Times(same);
    AfterAgrees(RuleOf(cfg), same[0].created, Times(sofar), Times(same), |sofar| - 1);
  }

  method AllowAt(limiter: Limiter, qs: seq<Request>, k: nat) returns (ok: bool)
    requires k < |qs| && Reflects(limiter, limiter.buckets, qs[..k]) && '|' !in qs[k].namespace
    modifies limiter
    ensures Reflects(limiter, limiter.buckets, qs[..k + 1]) && IsAnswer(limiter, qs, k, ok)
  {
    ok := AllowNext(limiter, qs[..k], qs[k]);
    assert qs[..k + 1] == qs[..k] + [qs[k]];
    AnswerInWholeRun(limiter.LookupConfig(qs[k].namespace), qs, k);
  }

  // Any interleaving of requests by any clients, from a new limiter on.
  method AllowAll(limiter: Limiter, qs: seq<Request>) returns (oks: seq<bool>)
    requires limiter.buckets == map[] && forall k :: 0 <= k < |qs| ==> '|' !in qs[k].namespace
    modifies limiter
    ensures |oks| == |qs|
    ensures forall k :: 0 <= k < |qs| ==> IsAnswer(limiter, qs, k, oks[k])
  {
    oks := [];
    assert qs[..0] == [];
    NoBuckets(limiter);
    for k := 0 to |qs|
      invariant |oks| == k && Reflects(limiter, limiter.buckets, qs[..k])
      invariant forall h :: 0 <= h < k ==> IsAnswer(limiter, qs, h, oks[h])
    {
      var ok := AllowAt(limiter, qs, k);
      oks := oks + [ok];
    }
  }

  // The clock does not go back, and a bucket is created before it is used.
  ghost predicate Clock(qs: seq<Request>) {
    && (forall i, j :: 0 <= i <= j < |qs| ==> qs[i].now <= qs[j].now)
    && forall i :: 0 <= i < |qs| ==> qs[i].created <= qs[i].now
  }

  lemma {:induction false} SameKeepsClock(qs: seq<Request>, who: string, ns: string)
    requires Clock(qs)
    ensures Clock(Same(qs, who, ns))
    ensures forall q :: q in Same(qs, who, ns) ==> q in qs
  {
    if qs != [] {
      var n := |qs| - 1;
      SameKeepsClock(qs[..n], who, ns);
      var before := Same(qs[..n], who, ns);
      forall i | 0 <= i < |before| ensures before[i].now <= qs[n].now {
        assert before[i] in qs[..n];
      }
      ClockSnoc(before, qs[n]);
    }
  }

  lemma ClockSnoc(qs: seq<Request>, q: Request)
    requires Clock(qs) && q.created <= q.now && forall i :: 0 <= i < |qs| ==> qs[i].now <= q.now
    ensures Clock(qs + [q])
  {
  }

  // Main result: whatever the other clients do, the requests of one subject for one namespace that
  // are allowed in any stretch of time are at most the burst plus what the rate gives in it.
  lemma ClientWindowBound(cfg: Rate, qs: seq<Request>, who: string, ns: string, i: nat, j: nat, from: real, to: real)
    requires cfg.rate >= 0.0 && cfg.burst >= 0.0 && Clock(qs) && i <= j < |Same(qs, who, ns)|
    requires from <= Same(qs, who, ns)[i].now && Same(qs, who, ns)[j].now <= to
    ensures var same := Same(qs, who, ns);
            Count(RuleOf(cfg), same[0].created, Times(same), i, j + 1) as real <= cfg.burst + (to - from) * cfg.rate
  {
    var same := Same(qs, who, ns);
    SameKeepsClock(qs, who, ns);
    WindowBound(cfg, same[0].created, Times(same), i, j, from, to);
  }
}
