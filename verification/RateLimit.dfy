/**
 The two-tier rate limiter's token bucket, and the bounded map of per-tenant buckets with its eviction
 rule. Times and tokens are reals; a call's time is a parameter.
 */
module RateLimit {
  const MAX_TENANT_BUCKETS := 4096

  /** Tokens per second, and capacity. */
  datatype Limits = Limits(rate: nat, burst: real) {
    predicate Valid() {
      burst >= 1.0
    }
  }

  /** Manifest values; a burst of 0 counts as 1. */
  function LimitsOf(messagesPerSec: nat, burst: nat): (l: Limits)
    ensures l.Valid()
  {
    Limits(messagesPerSec, if burst == 0 then 1.0 else burst as real)
  }

  datatype Bucket = Bucket(tokens: real, lastRefill: real)

  function Min(a: real, b: real): real {
    if a <= b then a else b
  }

  /** What `rate` tokens a second amount to over `dt` seconds; `EarnedIsProduct` says it in closed form. */
  function Earned(rate: nat, dt: real): real {
    if rate == 0 then 0.0 else Earned(rate - 1, dt) + dt
  }

  /** Time passed, none if the clock reading is an earlier one. */
  function Since(last: real, now: real): real {
    if now >= last then now - last else 0.0
  }

  /** What the bucket holds at time `now`. */
  function Level(l: Limits, b: Bucket, now: real): real {
    Min(b.tokens + Earned(l.rate, Since(b.lastRefill, now)), l.burst)
  }

  function Refill(l: Limits, b: Bucket, now: real): Bucket {
    Bucket(Level(l, b, now), now)
  }

  /** Refill, then take a token if there is one. */
  function Take(l: Limits, b: Bucket, now: real): Bucket {
    var level := Level(l, b, now);
    Bucket(if level >= 1.0 then level - 1.0 else level, now)
  }

  /** `Taken`: admitted. `Empty`: the tenant's own bucket refused. `MapFull`: no room to track the tenant. */
  datatype Outcome = Taken | Empty(retry: Retry) | MapFull
  datatype Retry = After(seconds: real) | Never

  function Answer(l: Limits, b: Bucket, now: real): Outcome {
    var level := Level(l, b, now);
    if level >= 1.0 then Taken
    else if l.rate > 0 then Empty(After((1.0 - level) / l.rate as real))
    else Empty(Never)
  }

  // ----- Refilling -----

  lemma {:induction false} EarnedIsProduct(rate: nat, dt: real)
    ensures Earned(rate, dt) == rate as real * dt
  {
    if rate > 0 {
      EarnedIsProduct(rate - 1, dt);
      assert rate as real * dt == ((rate - 1) as real + 1.0) * dt == (rate - 1) as real * dt + dt;
    }
  }

  lemma {:induction false} EarnedAdds(rate: nat, a: real, b: real)
    ensures Earned(rate, a + b) == Earned(rate, a) + Earned(rate, b)
  {
    if rate > 0 {
      EarnedAdds(rate - 1, a, b);
    }
  }

  lemma {:induction false} EarnedSign(rate: nat, dt: real)
    requires dt >= 0.0
    ensures Earned(rate, dt) >= 0.0
    ensures dt == 0.0 ==> Earned(rate, dt) == 0.0
    ensures dt > 0.0 && rate > 0 ==> Earned(rate, dt) > 0.0
  {
    if rate > 0 {
      EarnedSign(rate - 1, dt);
    }
  }

  /** No time, no refill. */
  lemma LevelNow(l: Limits, b: Bucket)
    ensures Level(l, b, b.lastRefill) == Min(b.tokens, l.burst)
  {
    EarnedSign(l.rate, b.lastRefill - b.lastRefill);
  }

  /** Refilling on the way changes nothing. */
  lemma RefillComposes(l: Limits, b: Bucket, mid: real, now: real)
    requires b.lastRefill <= mid <= now
    ensures Level(l, Refill(l, b, mid), now) == Level(l, b, now)
  {
    EarnedSign(l.rate, now - mid);
    EarnedAdds(l.rate, mid - b.lastRefill, now - mid);
    assert (mid - b.lastRefill) + (now - mid) == now - b.lastRefill;
  }

  /** Between two times a bucket gains at most the rate, and loses nothing. */
  lemma LevelGrowth(l: Limits, b: Bucket, mid: real, now: real)
    requires b.lastRefill <= mid <= now
    ensures Level(l, b, mid) <= Level(l, b, now) <= Level(l, b, mid) + Earned(l.rate, now - mid)
  {
    RefillComposes(l, b, mid, now);
    EarnedSign(l.rate, now - mid);
  }

  /** The wait reported with a refusal is exact: sooner the bucket still refuses, from then on it admits. */
  lemma RetryIsExact(l: Limits, b: Bucket, now: real, wait: real)
    requires l.Valid() && wait >= 0.0 && Answer(l, b, now).Empty?
    ensures Answer(l, Take(l, b, now), now + wait).Taken? <==>
              var r := Answer(l, b, now).retry; r.After? && wait >= r.seconds
  {
    var level := Level(l, b, now);
    assert now + wait - now == wait;
    if l.rate > 0 {
      var r := (1.0 - level) / l.rate as real;
      EarnedIsProduct(l.rate, r);
      assert Earned(l.rate, r) == 1.0 - level;
      if wait >= r {
        EarnedAdds(l.rate, wait - r, r);
        EarnedSign(l.rate, wait - r);
        assert wait - r + r == wait;
      } else {
        EarnedAdds(l.rate, r - wait, wait);
        EarnedSign(l.rate, r - wait);
        assert r - wait + wait == r;
      }
    }
  }

  // ----- The reference: every tenant has its own bucket, always -----

  datatype Call = Call(tenant: string, at: real, outcome: Outcome)

  /** The tenant's bucket if nothing were ever evicted: full at the start, charged by its own calls only. */
  function OwnBucket(l: Limits, log: seq<Call>, tenant: string): Bucket {
    if log == [] then Bucket(l.burst, 0.0)
    else
      var b := OwnBucket(l, log[..|log| - 1], tenant);
      var c := log[|log| - 1];
      if c.tenant == tenant && c.outcome != MapFull then Take(l, b, c.at) else b
  }

  function Clock(log: seq<Call>): real {
    if log == [] then 0.0 else log[|log| - 1].at
  }

  /** Call `i` is not earlier than the one before, and unless refused for room the tenant's own bucket answered it. */
  predicate CallOk(l: Limits, log: seq<Call>, i: nat)
    requires i < |log|
  {
    && Clock(log[..i]) <= log[i].at
    && (log[i].outcome == MapFull || log[i].outcome == Answer(l, OwnBucket(l, log[..i], log[i].tenant), log[i].at))
  }

  ghost predicate Faithful(l: Limits, log: seq<Call>) {
    forall i :: 0 <= i < |log| ==> CallOk(l, log, i)
  }

  lemma FaithfulPrefix(l: Limits, log: seq<Call>, n: nat)
    requires Faithful(l, log) && n <= |log|
    ensures Faithful(l, log[..n])
  {
    forall i | 0 <= i < n ensures CallOk(l, log[..n], i) {
      assert CallOk(l, log, i);
      assert log[..n][..i] == log[..i];
    }
  }

  lemma FaithfulExtend(l: Limits, log: seq<Call>, c: Call)
    requires Faithful(l, log) && Clock(log) <= c.at
    requires c.outcome == MapFull || c.outcome == Answer(l, OwnBucket(l, log, c.tenant), c.at)
    ensures Faithful(l, log + [c])
  {
    var all := log + [c];
    forall i | 0 <= i < |all| ensures CallOk(l, all, i) {
      if i < |log| {
        assert CallOk(l, log, i);
        assert all[..i] == log[..i];
      } else {
        assert all[..i] == log;
      }
    }
  }

  lemma {:induction false} OwnBucketIsPast(l: Limits, log: seq<Call>, tenant: string)
    requires l.Valid() && Faithful(l, log)
    ensures 0.0 <= OwnBucket(l, log, tenant).lastRefill <= Clock(log)
  {
    if log != [] {
      var n := |log| - 1;
      FaithfulPrefix(l, log, n);
      OwnBucketIsPast(l, log[..n], tenant);
      assert CallOk(l, log, n);
    }
  }

  // ----- How many calls get through -----

  function Gain(c: Call, tenant: string): nat {
    if c.tenant == tenant && c.outcome == Taken then 1 else 0
  }

  /** The tenant's calls admitted from call `i` up to call `n`. */
  function Admitted(log: seq<Call>, tenant: string, i: nat, n: nat): nat
    requires n <= |log|
  {
    if n <= i then 0 else Admitted(log, tenant, i, n - 1) + Gain(log[n - 1], tenant)
  }

  /** One call at most turns a token into an admission. */
  lemma OneCall(l: Limits, b: Bucket, now: real)
    requires l.Valid()
    ensures Level(l, Take(l, b, now), now) + (if Answer(l, b, now) == Taken then 1.0 else 0.0) == Level(l, b, now)
  {
    LevelNow(l, Take(l, b, now));
  }

  /** One more call: the tenant's own may spend a token, any other leaves its bucket alone. */
  lemma NextCall(l: Limits, log: seq<Call>, tenant: string, n: nat)
    requires l.Valid() && n < |log| && CallOk(l, log, n)
    ensures Level(l, OwnBucket(l, log[..n + 1], tenant), log[n].at) + Gain(log[n], tenant) as real
            <= Level(l, OwnBucket(l, log[..n], tenant), log[n].at)
  {
    assert log[..n + 1][..n] == log[..n];
    if log[n].tenant == tenant && log[n].outcome != MapFull {
      OneCall(l, OwnBucket(l, log[..n], tenant), log[n].at);
    }
  }

  /** Before call `n` the tenant's bucket was last touched no later than the call before it. */
  lemma PastBefore(l: Limits, log: seq<Call>, tenant: string, n: nat)
    requires l.Valid() && Faithful(l, log) && 0 < n <= |log|
    ensures OwnBucket(l, log[..n], tenant).lastRefill <= log[n - 1].at
    ensures n < |log| ==> log[n - 1].at <= log[n].at
  {
    FaithfulPrefix(l, log, n);
    OwnBucketIsPast(l, log[..n], tenant);
    if n < |log| {
      assert CallOk(l, log, n);
    }
  }

  lemma Carry(l: Limits, level0: real, level1: real, level2: real, n0: int, n1: int, start: real, mid: real, now: real)
    requires level0 + n0 as real <= l.burst + Earned(l.rate, mid - start)
    requires level1 <= level0 + Earned(l.rate, now - mid)
    requires level2 + (n1 - n0) as real <= level1
    ensures level2 + n1 as real <= l.burst + Earned(l.rate, now - start)
  {
    EarnedAdds(l.rate, now - mid, mid - start);
    assert now - mid + (mid - start) == now - start;
  }

  /** Tokens left plus calls admitted since call `i` never exceed the burst plus what the rate earned. */
  lemma {:induction false} TokensAreEarned(l: Limits, log: seq<Call>, tenant: string, i: nat, n: nat)
    requires l.Valid() && Faithful(l, log) && i < n <= |log|
    ensures Level(l, OwnBucket(l, log[..n], tenant), log[n - 1].at) + Admitted(log, tenant, i, n) as real
            <= l.burst + Earned(l.rate, log[n - 1].at - log[i].at)
  {
    assert CallOk(l, log, n - 1);
    NextCall(l, log, tenant, n - 1);
    if i < n - 1 {
      TokensAreEarned(l, log, tenant, i, n - 1);
      PastBefore(l, log, tenant, n - 1);
      var own, mid, now := OwnBucket(l, log[..n - 1], tenant), log[n - 2].at, log[n - 1].at;
      LevelGrowth(l, own, mid, now);
      Carry(l, Level(l, own, mid), Level(l, own, now), Level(l, OwnBucket(l, log[..n], tenant), now),
            Admitted(log, tenant, i, n - 1), Admitted(log, tenant, i, n), log[i].at, mid, now);
    } else {
      EarnedSign(l.rate, log[i].at - log[i].at);
    }
  }

  /** A token count is never negative. */
  lemma {:induction false} OwnBucketNonNegative(l: Limits, log: seq<Call>, tenant: string)
    requires l.Valid() && Faithful(l, log)
    ensures OwnBucket(l, log, tenant).tokens >= 0.0
  {
    if log != [] {
      var n := |log| - 1;
      FaithfulPrefix(l, log, n);
      OwnBucketNonNegative(l, log[..n], tenant);
      OwnBucketIsPast(l, log[..n], tenant);
      var b := OwnBucket(l, log[..n], tenant);
      assert CallOk(l, log, n);
      EarnedSign(l.rate, log[n].at - b.lastRefill);
    }
  }

  /** In any stretch of calls a tenant gets at most the burst plus what the rate earns in the time it spans. */
  lemma AdmissionBound(l: Limits, log: seq<Call>, tenant: string, i: nat, j: nat)
    requires l.Valid() && Faithful(l, log) && i < j <= |log|
    ensures Admitted(log, tenant, i, j) as real <= l.burst + Earned(l.rate, log[j - 1].at - log[i].at)
  {
    TokensAreEarned(l, log, tenant, i, j);
    FaithfulPrefix(l, log, j);
    LevelNonNegative(l, log[..j], tenant);
  }

  lemma LevelNonNegative(l: Limits, log: seq<Call>, tenant: string)
    requires l.Valid() && Faithful(l, log)
    ensures Level(l, OwnBucket(l, log, tenant), Clock(log)) >= 0.0
  {
    OwnBucketNonNegative(l, log, tenant);
    OwnBucketIsPast(l, log, tenant);
    EarnedSign(l.rate, Clock(log) - OwnBucket(l, log, tenant).lastRefill);
  }

  // ----- A bucket alone, with callers that read the clock before they take the lock -----

  /** The bucket after the first `n` calls, whose clock readings may be out of order. */
  function Shared(l: Limits, start: real, times: seq<real>, n: nat): Bucket
    requires n <= |times|
  {
    if n == 0 then Bucket(l.burst, start) else Take(l, Shared(l, start, times, n - 1), times[n - 1])
  }

  /** How many of them were admitted. */
  function Passed(l: Limits, start: real, times: seq<real>, n: nat): nat
    requires n <= |times|
  {
    if n == 0 then 0
    else
      Passed(l, start, times, n - 1)
      + if Answer(l, Shared(l, start, times, n - 1), times[n - 1]) == Taken then 1 else 0
  }

  /** All forward movement of the readings, repeated stretches counted each time. */
  function Forward(start: real, times: seq<real>, n: nat): real
    requires n <= |times|
  {
    if n == 0 then 0.0
    else Forward(start, times, n - 1) + Since(if n == 1 then start else times[n - 2], times[n - 1])
  }

  /** Whatever the order of the readings, calls are paid for by the burst and by forward movement. */
  lemma {:induction false} SharedBucketBound(l: Limits, start: real, times: seq<real>, n: nat)
    requires l.Valid() && n <= |times|
    ensures var b := Shared(l, start, times, n);
            && 0.0 <= b.tokens <= l.burst && b.lastRefill == (if n == 0 then start else times[n - 1])
            && b.tokens + Passed(l, start, times, n) as real <= l.burst + Earned(l.rate, Forward(start, times, n))
  {
    if n == 0 {
      EarnedSign(l.rate, 0.0);
    } else {
      SharedBucketBound(l, start, times, n - 1);
      var b, dt := Shared(l, start, times, n - 1), Since(if n == 1 then start else times[n - 2], times[n - 1]);
      EarnedAdds(l.rate, Forward(start, times, n - 1), dt);
      EarnedSign(l.rate, dt);
    }
  }

  /** With readings in order the forward movement is the time that passed. */
  lemma {:induction false} ForwardInOrder(start: real, times: seq<real>, n: nat)
    requires n <= |times| && (forall i :: 0 <= i < |times| ==> start <= times[i])
    requires forall i, j :: 0 <= i < j < |times| ==> times[i] <= times[j]
    ensures Forward(start, times, n) == if n == 0 then 0.0 else times[n - 1] - start
  {
    if n > 0 {
      ForwardInOrder(start, times, n - 1);
    }
  }

  /** One token a second, a burst of one, and an empty bucket: a second earns a call, no time earns none. */
  lemma EmptyBucketTakes(last: real, now: real)
    requires now == last + 1.0 || now <= last
    ensures var l, b := Limits(1, 1.0), Bucket(0.0, last);
            Take(l, b, now) == Bucket(0.0, now) && (Answer(l, b, now) == Taken <==> now > last)
  {
    assert Earned(1, 1.0) == Earned(0, 1.0) + 1.0 && Earned(1, 0.0) == Earned(0, 0.0) + 0.0;
  }

  /** Readings 0, 1, 0, 1 at one token a second and a burst of one: three calls pass within one second. */
  lemma OutOfOrderEarnsTwice(times: seq<real>)
    requires |times| == 4 && times[0] == 0.0 && times[1] == 1.0 && times[2] == 0.0 && times[3] == 1.0
    ensures var l := Limits(1, 1.0); Passed(l, 0.0, times, 4) == 3 && 3.0 > l.burst + Earned(l.rate, 1.0)
  {
    var l := Limits(1, 1.0);
    LevelNow(l, Bucket(1.0, 0.0));
    assert Shared(l, 0.0, times, 1) == Bucket(0.0, 0.0) && Passed(l, 0.0, times, 1) == 1;
    EmptyBucketTakes(0.0, 1.0);
    assert Shared(l, 0.0, times, 2) == Bucket(0.0, 1.0) && Passed(l, 0.0, times, 2) == 2;
    EmptyBucketTakes(1.0, 0.0);
    assert Shared(l, 0.0, times, 3) == Bucket(0.0, 0.0) && Passed(l, 0.0, times, 3) == 2;
    EarnedIsProduct(1, 1.0);
  }

  // ----- The bounded map -----

  datatype Tracked = Tracked(bucket: Bucket, lastUsed: real)

  /** The map holds the same allowance for `t` as the reference does; an absent tenant is a full one. */
  predicate Same(l: Limits, buckets: map<string, Tracked>, log: seq<Call>, now: real, t: string) {
    var level := Level(l, OwnBucket(l, log, t), now);
    if t in buckets then buckets[t].bucket.lastRefill <= now && Level(l, buckets[t].bucket, now) == level
    else level == l.burst
  }

  ghost predicate Agrees(l: Limits, buckets: map<string, Tracked>, log: seq<Call>, now: real) {
    forall t: string :: Same(l, buckets, log, now, t)
  }

  /** Two buckets level now are level ever after. */
  lemma LevelsStay(l: Limits, a: Bucket, b: Bucket, mid: real, now: real)
    requires l.Valid() && a.lastRefill <= mid <= now && b.lastRefill <= mid
    requires Level(l, a, mid) == Level(l, b, mid)
    ensures Level(l, a, now) == Level(l, b, now)
  {
    RefillComposes(l, a, mid, now);
    RefillComposes(l, b, mid, now);
  }

  lemma FullStays(l: Limits, b: Bucket, mid: real, now: real)
    requires l.Valid() && b.lastRefill <= mid <= now && Level(l, b, mid) == l.burst
    ensures Level(l, b, now) == l.burst
  {
    LevelGrowth(l, b, mid, now);
  }

  lemma AgreesLater(l: Limits, buckets: map<string, Tracked>, log: seq<Call>, now: real)
    requires l.Valid() && Faithful(l, log) && Agrees(l, buckets, log, Clock(log)) && Clock(log) <= now
    ensures Agrees(l, buckets, log, now)
  {
    forall t: string ensures Same(l, buckets, log, now, t) {
      assert Same(l, buckets, log, Clock(log), t);
      OwnBucketIsPast(l, log, t);
      if t in buckets {
        LevelsStay(l, buckets[t].bucket, OwnBucket(l, log, t), Clock(log), now);
      } else {
        FullStays(l, OwnBucket(l, log, t), Clock(log), now);
      }
    }
  }

  function RefillAll(l: Limits, buckets: map<string, Tracked>, now: real): map<string, Tracked> {
    map k | k in buckets :: buckets[k].(bucket := Refill(l, buckets[k].bucket, now))
  }

  /** The buckets that owe nobody anything. */
  function Replenished(l: Limits, buckets: map<string, Tracked>, now: real): set<string> {
    set k | k in buckets && Level(l, buckets[k].bucket, now) >= l.burst
  }

  lemma AgreesRefilled(l: Limits, buckets: map<string, Tracked>, log: seq<Call>, now: real)
    requires Agrees(l, buckets, log, now)
    ensures Agrees(l, RefillAll(l, buckets, now), log, now)
  {
    forall t: string ensures Same(l, RefillAll(l, buckets, now), log, now, t) {
      assert Same(l, buckets, log, now, t);
      if t in buckets {
        RefillComposes(l, buckets[t].bucket, now, now);
      }
    }
  }

  lemma AgreesEvicted(l: Limits, buckets: map<string, Tracked>, log: seq<Call>, now: real, victim: string)
    requires Agrees(l, buckets, log, now) && victim in Replenished(l, buckets, now)
    ensures Agrees(l, buckets - {victim}, log, now)
  {
    forall t: string ensures Same(l, buckets - {victim}, log, now, t) {
      assert Same(l, buckets, log, now, t);
    }
  }

  /** The bucket a call finds: the tenant's, or a new full one. */
  function BucketFor(l: Limits, buckets: map<string, Tracked>, tenant: string, now: real): Bucket {
    if tenant in buckets then buckets[tenant].bucket else Bucket(l.burst, now)
  }

  lemma SameAnswer(l: Limits, buckets: map<string, Tracked>, log: seq<Call>, now: real, tenant: string)
    requires Agrees(l, buckets, log, now)
    ensures Level(l, BucketFor(l, buckets, tenant, now), now) == Level(l, OwnBucket(l, log, tenant), now)
  {
    assert Same(l, buckets, log, now, tenant);
    LevelNow(l, Bucket(l.burst, now));
  }

  /** Answering a call that found room, on the map and on the reference. */
  lemma AgreesTaken(l: Limits, buckets: map<string, Tracked>, log: seq<Call>, now: real, tenant: string, c: Call, used: real)
    requires Agrees(l, buckets, log, now) && c.tenant == tenant && c.at == now && c.outcome != MapFull
    ensures Agrees(l, buckets[tenant := Tracked(Take(l, BucketFor(l, buckets, tenant, now), now), used)], log + [c], now)
  {
    var taken := Take(l, BucketFor(l, buckets, tenant, now), now);
    SameAnswer(l, buckets, log, now, tenant);
    var after := buckets[tenant := Tracked(taken, used)];
    var longer := log + [c];
    assert longer[..|longer| - 1] == log;
    forall t: string ensures Same(l, after, longer, now, t) {
      assert Same(l, buckets, log, now, t);
    }
  }

  lemma AgreesRefused(l: Limits, buckets: map<string, Tracked>, log: seq<Call>, now: real, c: Call)
    requires Agrees(l, buckets, log, now) && c.outcome == MapFull
    ensures Agrees(l, buckets, log + [c], now)
  {
    assert (log + [c])[..|log + [c]| - 1] == log;
    forall t: string ensures Same(l, buckets, log + [c], now, t) {
      assert Same(l, buckets, log, now, t);
    }
  }

  /** A tenant's bucket is a candidate for eviction exactly if the tenant has its whole allowance. */
  lemma ReplenishedMeansFull(l: Limits, buckets: map<string, Tracked>, log: seq<Call>, now: real)
    requires Agrees(l, buckets, log, now)
    ensures forall k :: k in Replenished(l, buckets, now) <==>
              k in buckets && Level(l, OwnBucket(l, log, k), now) >= l.burst
  {
    forall k ensures k in Replenished(l, buckets, now) <==>
                       k in buckets && Level(l, OwnBucket(l, log, k), now) >= l.burst {
      assert Same(l, buckets, log, now, k);
    }
  }

  predicate Oldest(buckets: map<string, Tracked>, among: set<string>, k: string)
    requires among <= buckets.Keys
  {
    k in among && forall j :: j in among ==> buckets[k].lastUsed <= buckets[j].lastUsed
  }

  lemma {:induction false} OldestExists(buckets: map<string, Tracked>, among: set<string>)
    requires among <= buckets.Keys && among != {}
    ensures exists k :: Oldest(buckets, among, k)
    decreases |among|
  {
    var x :| x in among;
    var rest := among - {x};
    if rest == {} {
      assert among == {x};
      assert Oldest(buckets, among, x);
    } else {
      OldestExists(buckets, rest);
      var k :| Oldest(buckets, rest, k);
      assert Oldest(buckets, among, if buckets[x].lastUsed <= buckets[k].lastUsed then x else k);
    }
  }

  /** The bounded per-tenant limiter. The ghost log is every call made so far with its answer. */
  class PerTenantBuckets {
    const limits: Limits
    var buckets: map<string, Tracked>
    var mapFullRefusals: nat
    ghost var log: seq<Call>

    ghost predicate Valid()
      reads this
    {
      && limits.Valid() && |buckets| <= MAX_TENANT_BUCKETS
      && Faithful(limits, log) && Agrees(limits, buckets, log, Clock(log))
    }

    constructor (messagesPerSec: nat, burst: nat)
      ensures Valid() && log == [] && limits == LimitsOf(messagesPerSec, burst) && mapFullRefusals == 0
    {
      limits := LimitsOf(messagesPerSec, burst);
      buckets := map[];
      mapFullRefusals := 0;
      log := [];
      LevelNow(LimitsOf(messagesPerSec, burst), Bucket(LimitsOf(messagesPerSec, burst).burst, 0.0));
    }

    /** Evict the bucket with the earliest reading of last use among those that owe nobody anything, if there is one. */
    method MakeRoom(now: real) returns (made: bool)
      requires limits.Valid() && |buckets| == MAX_TENANT_BUCKETS && Agrees(limits, buckets, log, now)
      modifies this`buckets
      ensures made <==> exists k :: k in old(buckets) && Level(limits, OwnBucket(limits, log, k), now) >= limits.burst
      ensures Agrees(limits, buckets, log, now)
      ensures |buckets| == if made then MAX_TENANT_BUCKETS - 1 else MAX_TENANT_BUCKETS
      ensures made ==> exists v :: Oldest(old(buckets), Replenished(limits, old(buckets), now), v)
                                   && buckets.Keys == old(buckets).Keys - {v}
      ensures forall k :: k in buckets ==> k in old(buckets) && buckets[k].lastUsed == old(buckets)[k].lastUsed
    {
      ReplenishedMeansFull(limits, buckets, log, now);
      var candidates := Replenished(limits, buckets, now);
      AgreesRefilled(limits, buckets, log, now);
      buckets := RefillAll(limits, buckets, now);
      SameSize(buckets, old(buckets));
      if candidates == {} {
        return false;
      }
      OldestExists(buckets, candidates);
      var victim :| Oldest(buckets, candidates, victim);
      assert Oldest(old(buckets), candidates, victim);
      assert Level(limits, buckets[victim].bucket, now) >= limits.burst by {
        LevelNow(limits, buckets[victim].bucket);
      }
      AgreesEvicted(limits, buckets, log, now, victim);
      SizeWithout(buckets, victim);
      buckets := buckets - {victim};
      return true;
    }

    /**
     Answers exactly as if every tenant had a bucket of its own for ever, or refuses for lack of room.
     It does the latter only when the map is full, the tenant is not in it and every tenant in it is
     still owed tokens. `entered` is the clock reading taken before the lock, in whatever order the
     callers get it; `now` is the one under the lock.
     */
    method TryTake(tenant: string, entered: real, now: real) returns (out: Outcome)
      requires Valid() && Clock(log) <= now
      modifies this
      ensures Valid() && log == old(log) + [Call(tenant, now, out)]
      ensures out == MapFull <==>
                |old(buckets)| == MAX_TENANT_BUCKETS && tenant !in old(buckets)
                && !exists k :: k in old(buckets) && Level(limits, OwnBucket(limits, old(log), k), now) >= limits.burst
      ensures out != MapFull ==> out == Answer(limits, OwnBucket(limits, old(log), tenant), now)
      ensures mapFullRefusals == old(mapFullRefusals) + if out == MapFull then 1 else 0
      ensures out != MapFull ==> tenant in buckets && buckets[tenant].lastUsed == entered
      ensures forall k :: k in buckets && k != tenant ==> k in old(buckets) && buckets[k].lastUsed == old(buckets)[k].lastUsed
    {
      AgreesLater(limits, buckets, log, now);
      if |buckets| >= MAX_TENANT_BUCKETS && tenant !in buckets {
        var made := MakeRoom(now);
        if !made {
          mapFullRefusals := mapFullRefusals + 1;
          Record(Call(tenant, now, MapFull));
          return MapFull;
        }
      }
      var bucket := BucketFor(limits, buckets, tenant, now);
      out := Answer(limits, bucket, now);
      SameAnswer(limits, buckets, log, now, tenant);
      AgreesTaken(limits, buckets, log, now, tenant, Call(tenant, now, out), entered);
      FaithfulExtend(limits, log, Call(tenant, now, out));
      SizeWith(buckets, tenant, Tracked(Take(limits, bucket, now), entered));
      buckets := buckets[tenant := Tracked(Take(limits, bucket, now), entered)];
      log := log + [Call(tenant, now, out)];
    }

    /** A refusal for lack of room charges nobody. */
    ghost method Record(c: Call)
      requires limits.Valid() && |buckets| <= MAX_TENANT_BUCKETS && c.outcome == MapFull && Clock(log) <= c.at
      requires Faithful(limits, log) && Agrees(limits, buckets, log, c.at)
      modifies this`log
      ensures Valid() && log == old(log) + [c]
    {
      AgreesRefused(limits, buckets, log, c.at, c);
      FaithfulExtend(limits, log, c);
      log := log + [c];
    }
  }

  lemma SameSize(a: map<string, Tracked>, b: map<string, Tracked>)
    requires a.Keys == b.Keys
    ensures |a| == |b|
  {
    assert |a.Keys| == |a| && |b.Keys| == |b|;
  }

  lemma SizeWithout(m: map<string, Tracked>, k: string)
    requires k in m
    ensures |m - {k}| == |m| - 1
  {
    assert (m - {k}).Keys == m.Keys - {k};
    assert |(m - {k}).Keys| == |m - {k}| && |m.Keys| == |m|;
  }

  lemma SizeWith(m: map<string, Tracked>, k: string, v: Tracked)
    ensures |m[k := v]| == if k in m then |m| else |m| + 1
  {
    assert m[k := v].Keys == m.Keys + {k};
    assert |m[k := v].Keys| == |m[k := v]| && |m.Keys| == |m|;
  }
}
