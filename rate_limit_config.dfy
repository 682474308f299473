/** `RateLimitConfig`: one Bucket4j token bucket per action and client address, kept in a
    cache that drops a bucket two hours after its last use. Each bucket has a capacity
    and an interval refill (`Refill.intervally`): once every whole period since the last
    refill, the refill amount comes back at once, capped at the capacity. Times are
    milliseconds passed in by the caller. */
module RateLimiting {
  import opened Wrappers
  import opened Strings
  import opened Collections

  /** `Bandwidth.classic(capacity, Refill.intervally(amount, period))`. */
  datatype Bandwidth = Bandwidth(capacity: nat, amount: nat, periodMs: int)

  datatype BucketState = BucketState(tokens: nat, lastRefill: int)

  ghost predicate ValidBandwidth(bw: Bandwidth)
  {
    bw.periodMs > 0 && bw.capacity >= 1
  }

  /** The five limits: login 5 per 15 minutes, registration 20 per hour, password reset 3
      per hour, verification email 5 per hour, everything else 100 per minute. */
  datatype Action = Login | Registration | PasswordReset | EmailVerification | General

  const Minute: int := 60000
  const Hour: int := 60 * Minute

  function BandwidthOf(a: Action): (bw: Bandwidth)
    ensures ValidBandwidth(bw) && bw.amount == bw.capacity
  {
    match a
    case Login => Bandwidth(5, 5, 15 * Minute)
    case Registration => Bandwidth(20, 20, Hour)
    case PasswordReset => Bandwidth(3, 3, Hour)
    case EmailVerification => Bandwidth(5, 5, Hour)
    case General => Bandwidth(100, 100, Minute)
  }

  /** The cache key prefix of each action. */
  function Prefix(a: Action): string
  {
    match a
    case Login => "login:"
    case Registration => "register:"
    case PasswordReset => "reset:"
    case EmailVerification => "verify:"
    case General => "general:"
  }

  /** A cache entry's identity: the action and the client address. */
  datatype CacheKey = CacheKey(action: Action, clientIp: string)

  /** The cache key string, `"login:" + clientIp` and so on. */
  function Key(a: Action, clientIp: string): string
  {
    Prefix(a) + clientIp
  }

  /** A new bucket created at `now` is full. */
  function Fresh(bw: Bandwidth, now: int): (s: BucketState)
    ensures s.tokens == bw.capacity
  {
    BucketState(bw.capacity, now)
  }

  /** The interval refill at `now`: each whole period since the last refill brings the
      refill amount back, capped at the capacity; the refill time moves by whole periods.
      A clock reading before the last refill brings nothing. */
  function Refill(bw: Bandwidth, s: BucketState, now: int): (r: BucketState)
    requires bw.periodMs > 0
    ensures s.tokens <= bw.capacity ==> r.tokens <= bw.capacity
    ensures r.tokens >= s.tokens || r.tokens == bw.capacity
    ensures s.lastRefill <= r.lastRefill
    ensures now >= s.lastRefill ==> r.lastRefill <= now < r.lastRefill + bw.periodMs
  {
    if now <= s.lastRefill then s
    else
      var periods := (now - s.lastRefill) / bw.periodMs;
      var added := periods * bw.amount;
      assert added >= 0;
      assert periods * bw.periodMs <= now - s.lastRefill < periods * bw.periodMs + bw.periodMs;
      BucketState(if s.tokens + added <= bw.capacity then s.tokens + added else bw.capacity,
                  s.lastRefill + periods * bw.periodMs)
  }

  /** Within one period of the last refill nothing comes back. */
  lemma NoRefillWithinPeriod(bw: Bandwidth, s: BucketState, now: int)
    requires bw.periodMs > 0 && s.tokens <= bw.capacity
    requires now < s.lastRefill + bw.periodMs
    ensures Refill(bw, s, now) == s
  {
    if now > s.lastRefill {
      assert (now - s.lastRefill) / bw.periodMs == 0;
    }
  }

  /** Once a whole period has passed, a bucket whose refill amount is its capacity is
      full again. */
  lemma FullAfterPeriod(bw: Bandwidth, s: BucketState, now: int)
    requires bw.periodMs > 0 && bw.amount == bw.capacity
    requires now >= s.lastRefill + bw.periodMs
    ensures Refill(bw, s, now).tokens == bw.capacity
  {
    var periods := (now - s.lastRefill) / bw.periodMs;
    assert periods >= 1;
    assert periods * bw.amount >= bw.amount;
  }

  /** `tryConsume(1)`: after the refill, take one token if there is one. A refused attempt
      leaves the bucket as it was. */
  function Consume(bw: Bandwidth, s: BucketState, now: int): (r: (bool, BucketState))
    requires bw.periodMs > 0
    ensures r.0 <==> Refill(bw, s, now).tokens >= 1
    ensures r.0 ==> r.1.tokens == Refill(bw, s, now).tokens - 1 && r.1.lastRefill == Refill(bw, s, now).lastRefill
    ensures !r.0 ==> r.1 == s
  {
    var refilled := Refill(bw, s, now);
    if refilled.tokens >= 1 then (true, refilled.(tokens := refilled.tokens - 1)) else (false, s)
  }

  /** The answers to consecutive attempts at the given times. */
  function Attempts(bw: Bandwidth, s: BucketState, times: seq<int>): (answers: seq<bool>)
    requires bw.periodMs > 0
    ensures |answers| == |times|
    decreases |times|
  {
    if |times| == 0 then []
    else
      var (ok, next) := Consume(bw, s, times[0]);
      [ok] + Attempts(bw, next, times[1..])
  }

  /** Within one period of the last refill, the first `tokens` attempts succeed and every
      later one fails. */
  lemma {:induction false} AttemptsWithinPeriod(bw: Bandwidth, s: BucketState, times: seq<int>)
    requires bw.periodMs > 0 && s.tokens <= bw.capacity
    requires forall i :: 0 <= i < |times| ==> times[i] < s.lastRefill + bw.periodMs
    ensures forall i :: 0 <= i < |times| ==> (Attempts(bw, s, times)[i] <==> i < s.tokens)
    decreases |times|
  {
    if |times| > 0 {
      NoRefillWithinPeriod(bw, s, times[0]);
      var (ok, next) := Consume(bw, s, times[0]);
      assert next.lastRefill == s.lastRefill;
      AttemptsWithinPeriod(bw, next, times[1..]);
      var answers := Attempts(bw, s, times);
      assert answers == [ok] + Attempts(bw, next, times[1..]);
      forall i | 0 <= i < |times|
        ensures answers[i] <==> i < s.tokens
      {
        if i > 0 {
          assert answers[i] == Attempts(bw, next, times[1..])[i - 1];
        }
      }
    }
  }

  /** The login limit: from a fresh bucket, five attempts succeed and the sixth, within the
      same fifteen minutes, fails. */
  lemma SixthLoginRefused(now: int, times: seq<int>)
    requires |times| == 6
    requires forall i :: 0 <= i < 6 ==> times[i] < now + 15 * Minute
    ensures Attempts(BandwidthOf(Login), Fresh(BandwidthOf(Login), now), times) == [true, true, true, true, true, false]
  {
    AttemptsWithinPeriod(BandwidthOf(Login), Fresh(BandwidthOf(Login), now), times);
  }

  /** The state after a run of attempts. */
  function Drain(bw: Bandwidth, s: BucketState, times: seq<int>): BucketState
    requires bw.periodMs > 0
    decreases |times|
  {
    if |times| == 0 then s else Drain(bw, Consume(bw, s, times[0]).1, times[1..])
  }

  /** Attempts within one period of the last refill never move the refill time. */
  lemma {:induction false} DrainWithinPeriod(bw: Bandwidth, s: BucketState, times: seq<int>)
    requires bw.periodMs > 0 && s.tokens <= bw.capacity
    requires forall i :: 0 <= i < |times| ==> times[i] < s.lastRefill + bw.periodMs
    ensures Drain(bw, s, times).lastRefill == s.lastRefill
    ensures Drain(bw, s, times).tokens <= bw.capacity
    decreases |times|
  {
    if |times| > 0 {
      NoRefillWithinPeriod(bw, s, times[0]);
      DrainWithinPeriod(bw, Consume(bw, s, times[0]).1, times[1..]);
    }
  }

  /** Two runs of attempts answer as one run whose second half starts from the first's
      final state. */
  lemma {:induction false} AttemptsAppend(bw: Bandwidth, s: BucketState, xs: seq<int>, ys: seq<int>)
    requires bw.periodMs > 0
    ensures Attempts(bw, s, xs + ys) == Attempts(bw, s, xs) + Attempts(bw, Drain(bw, s, xs), ys)
    decreases |xs|
  {
    if |xs| > 0 {
      assert (xs + ys)[1..] == xs[1..] + ys;
      AttemptsAppend(bw, Consume(bw, s, xs[0]).1, xs[1..], ys);
    } else {
      assert xs + ys == ys;
    }
  }

  /** Attempts all made at one instant succeed as long as the refilled bucket holds
      tokens for them. */
  lemma {:induction false} AttemptsAtOnce(bw: Bandwidth, s: BucketState, times: seq<int>, t: int)
    requires bw.periodMs > 0 && t >= s.lastRefill && s.tokens <= bw.capacity
    requires forall i :: 0 <= i < |times| ==> times[i] == t
    requires |times| <= Refill(bw, s, t).tokens
    ensures forall i :: 0 <= i < |times| ==> Attempts(bw, s, times)[i]
  {
    if |times| > 0 {
      var refilled := Refill(bw, s, t);
      var next := Consume(bw, s, t).1;
      assert next == refilled.(tokens := refilled.tokens - 1);
      AttemptsWithinPeriod(bw, next, times[1..]);
      var answers := Attempts(bw, s, times);
      forall i | 0 <= i < |times|
        ensures answers[i]
      {
        if i > 0 {
          assert answers[i] == Attempts(bw, next, times[1..])[i - 1];
        }
      }
    }
  }

  /** The interval refill is not a sliding window: a full bucket used up just before a
      period boundary is full again at the boundary, so twice the capacity passes within
      two milliseconds. */
  lemma BurstAcrossBoundary(bw: Bandwidth, created: int)
    requires ValidBandwidth(bw) && bw.amount == bw.capacity && bw.periodMs >= 2
    ensures var before := seq(bw.capacity, _ => created + bw.periodMs - 1);
            var after := seq(bw.capacity, _ => created + bw.periodMs);
            var answers := Attempts(bw, Fresh(bw, created), before + after);
            forall i :: 0 <= i < 2 * bw.capacity ==> answers[i]
  {
    var before := seq(bw.capacity, _ => created + bw.periodMs - 1);
    var after := seq(bw.capacity, _ => created + bw.periodMs);
    var s := Fresh(bw, created);
    AttemptsWithinPeriod(bw, s, before);
    DrainWithinPeriod(bw, s, before);
    var mid := Drain(bw, s, before);
    FullAfterPeriod(bw, mid, created + bw.periodMs);
    AttemptsAtOnce(bw, mid, after, created + bw.periodMs);
    AttemptsAppend(bw, s, before, after);
    var answers := Attempts(bw, s, before + after);
    forall i | 0 <= i < 2 * bw.capacity
      ensures answers[i]
    {
      if i >= bw.capacity {
        assert answers[i] == Attempts(bw, mid, after)[i - bw.capacity];
      }
    }
  }

  /** A Bucket4j bucket, whose token count changes with every successful consumption. */
  class Bucket {
    const bandwidth: Bandwidth
    var state: BucketState

    ghost predicate Valid()
      reads this
    {
      ValidBandwidth(bandwidth) && state.tokens <= bandwidth.capacity
    }

    /** `Bucket4j.builder().addLimit(bandwidth).build()` at time `now`: full. */
    constructor (bandwidth: Bandwidth, now: int)
      requires ValidBandwidth(bandwidth)
      ensures Valid() && this.bandwidth == bandwidth && state == Fresh(bandwidth, now)
    {
      this.bandwidth := bandwidth;
      state := Fresh(bandwidth, now);
    }

    /** `getAvailableTokens()`: the count after the refill, without consuming. */
    function AvailableTokens(now: int): (n: nat)
      requires Valid()
      reads this
      ensures n <= bandwidth.capacity
    {
      Refill(bandwidth, state, now).tokens
    }

    /** `tryConsume(1)`. */
    method TryConsume(now: int) returns (ok: bool)
      requires Valid()
      modifies this
      ensures Valid()
      ensures (ok, state) == Consume(bandwidth, old(state), now)
      ensures ok <==> old(AvailableTokens(now)) >= 1
    {
      var refilled := Refill(bandwidth, state, now);
      if refilled.tokens >= 1 {
        state := refilled.(tokens := refilled.tokens - 1);
        ok := true;
      } else {
        ok := false;
      }
    }
  }

  /** The action whose bucket a cache key names. */
  function ActionOfKey(key: string): Option<Action>
  {
    if StartsWith(key, "login:") then Some(Login)
    else if StartsWith(key, "register:") then Some(Registration)
    else if StartsWith(key, "reset:") then Some(PasswordReset)
    else if StartsWith(key, "verify:") then Some(EmailVerification)
    else if StartsWith(key, "general:") then Some(General)
    else None
  }

  /** Every key names its own action: no prefix is a prefix of another. */
  lemma KeyNamesAction(a: Action, clientIp: string)
    ensures ActionOfKey(Key(a, clientIp)) == Some(a)
  {
    var k := Key(a, clientIp);
    assert k[..|Prefix(a)|] == Prefix(a);
    match a
    case Login => assert StartsWith(k, "login:");
    case Registration => assert k[0] == 'r' && k[2] == 'g';
    case PasswordReset => assert k[0] == 'r' && k[2] == 's';
    case EmailVerification => assert k[0] == 'v';
    case General => assert k[0] == 'g';
  }

  /** Distinct key strings name distinct entries and conversely, so a cache keyed by
      the strings holds one bucket per action and address. */
  lemma KeyInjective(k1: CacheKey, k2: CacheKey)
    ensures Key(k1.action, k1.clientIp) == Key(k2.action, k2.clientIp) <==> k1 == k2
  {
    var s1 := Key(k1.action, k1.clientIp);
    var s2 := Key(k2.action, k2.clientIp);
    KeyNamesAction(k1.action, k1.clientIp);
    KeyNamesAction(k2.action, k2.clientIp);
    if s1 == s2 {
      assert k1.action == k2.action;
      var n := |Prefix(k1.action)|;
      assert k1.clientIp == s1[n..] && k2.clientIp == s2[n..];
    }
  }

  /** `expireAfterAccess(2, HOURS)` and `maximumSize(10000)`. */
  const IdleLimit: int := 2 * Hour
  const MaxBuckets: nat := 10000

  /** Whether an entry last accessed at `lastAccess[k]` is still held at `now`. */
  predicate LiveAt(lastAccess: map<CacheKey, int>, k: CacheKey, now: int)
  {
    k in lastAccess && now - lastAccess[k] < IdleLimit
  }

  /** A write of `v` under `key` at `now` before any size eviction: the idle entries go
      and `key` maps to `v`. The access map itself is written with `v == now`. */
  function Put<V>(m: map<CacheKey, V>, lastAccess: map<CacheKey, int>, key: CacheKey, v: V, now: int): (r: map<CacheKey, V>)
    ensures key in r && r[key] == v
    ensures forall k :: k != key ==> (k in r <==> k in m && LiveAt(lastAccess, k, now))
    ensures forall k :: k in r && k != key ==> r[k] == m[k]
  {
    (map k | k in m && LiveAt(lastAccess, k, now) :: m[k])[key := v]
  }

  /** A write grows the cache by at most one entry, and only when `key` was not live. */
  lemma PutSize<V>(m: map<CacheKey, V>, lastAccess: map<CacheKey, int>, key: CacheKey, v: V, now: int)
    ensures |Put(m, lastAccess, key, v, now)| <= |m| + 1
    ensures key in m && LiveAt(lastAccess, key, now) ==> |Put(m, lastAccess, key, v, now)| <= |m|
  {
    var live := map k | k in m && LiveAt(lastAccess, k, now) :: m[k];
    SubsetSize(live.Keys, m.Keys);
    if key in live {
      assert Put(m, lastAccess, key, v, now).Keys == live.Keys;
    } else {
      assert Put(m, lastAccess, key, v, now).Keys == live.Keys + {key};
    }
  }

  /** The map without the evicted entry, if any. */
  function Without<V>(m: map<CacheKey, V>, victim: Option<CacheKey>): (r: map<CacheKey, V>)
    ensures forall k :: k in r <==> k in m && victim != Some(k)
    ensures forall k :: k in r ==> r[k] == m[k]
    ensures victim.Some? && victim.value in m ==> |r| == |m| - 1
    ensures victim.None? ==> r == m
  {
    if victim.None? then m
    else
      assert (m - {victim.value}).Keys == m.Keys - {victim.value};
      m - {victim.value}
  }

  /** Every cached bucket is valid and has the limit of its key's action. */
  ghost predicate GoodEntries(m: map<CacheKey, Bucket>)
    reads m.Values
  {
    forall k :: k in m ==> m[k].Valid() && m[k].bandwidth == BandwidthOf(k.action)
  }

  /** No two keys share a bucket. */
  ghost predicate Separate(m: map<CacheKey, Bucket>)
  {
    forall k1, k2 :: k1 in m && k2 in m && k1 != k2 ==> m[k1] != m[k2]
  }

  /** Dropping entries keeps both properties. */
  lemma SubmapGood(m: map<CacheKey, Bucket>, r: map<CacheKey, Bucket>)
    requires GoodEntries(m) && Separate(m)
    requires forall k :: k in r ==> k in m && r[k] == m[k]
    ensures GoodEntries(r) && Separate(r)
  {
  }

  /** Writing a valid bucket of the key's own limit, new or the one already live there,
      keeps both properties. */
  lemma PutGood(m: map<CacheKey, Bucket>, lastAccess: map<CacheKey, int>, key: CacheKey, b: Bucket, now: int)
    requires GoodEntries(m) && Separate(m)
    requires b.Valid() && b.bandwidth == BandwidthOf(key.action)
    requires if key in m && LiveAt(lastAccess, key, now) then m[key] == b else b !in m.Values
    ensures GoodEntries(Put(m, lastAccess, key, b, now)) && Separate(Put(m, lastAccess, key, b, now))
  {
    var r := Put(m, lastAccess, key, b, now);
    forall k1, k2 | k1 in r && k2 in r && k1 != k2
      ensures r[k1] != r[k2]
    {
      if k1 == key {
        assert r[k2] == m[k2];
      } else if k2 == key {
        assert r[k1] == m[k1];
      }
    }
  }

  /** The cache overflows only when it was full and the key was not live. */
  lemma OverflowOnlyWhenFull<V>(m: map<CacheKey, V>, lastAccess: map<CacheKey, int>, key: CacheKey, v: V, now: int)
    requires |m| <= MaxBuckets
    requires |Put(m, lastAccess, key, v, now)| > MaxBuckets
    ensures |m| == MaxBuckets && !(key in m && LiveAt(lastAccess, key, now))
  {
    PutSize(m, lastAccess, key, v, now);
  }

  /** Dropping the evicted entry, when the write overflowed, restores every property of
      the cache. */
  lemma EvictGood(stored: map<CacheKey, Bucket>, touched: map<CacheKey, int>, evicted: Option<CacheKey>)
    requires GoodEntries(stored) && Separate(stored) && stored.Keys == touched.Keys
    requires |stored| <= MaxBuckets + 1
    requires evicted.Some? <==> |stored| > MaxBuckets
    requires evicted.Some? ==> evicted.value in stored
    ensures var next := Without(stored, evicted);
            next.Keys == Without(touched, evicted).Keys && |next| <= MaxBuckets && GoodEntries(next) && Separate(next)
  {
    SubmapGood(stored, Without(stored, evicted));
  }

  /** The bucket map and the access map keep the same keys through a write. */
  lemma PutKeys(m: map<CacheKey, Bucket>, lastAccess: map<CacheKey, int>, key: CacheKey, b: Bucket, now: int)
    requires m.Keys == lastAccess.Keys
    ensures Put(m, lastAccess, key, b, now).Keys == Put(lastAccess, lastAccess, key, now, now).Keys
  {
  }

  /** The bucket cache, with the time of each entry's last access. */
  class RateLimitConfig {
    var buckets: map<CacheKey, Bucket>
    var lastAccess: map<CacheKey, int>

    ghost predicate Valid()
      reads this, buckets.Values
    {
      buckets.Keys == lastAccess.Keys && |buckets| <= MaxBuckets && GoodEntries(buckets) && Separate(buckets)
    }

    constructor ()
      ensures Valid() && buckets == map[] && lastAccess == map[]
    {
      buckets := map[];
      lastAccess := map[];
    }

    /** Whether the cache still holds `key` at `now`. */
    predicate Live(key: CacheKey, now: int)
      reads this
    {
      key in buckets && LiveAt(lastAccess, key, now)
    }

    /** The cache's write of `b` under `key` at `now`: the idle entries go, `b` is stored
        and touched, and if that overflows the maximum size one entry of the cache's
        choosing, possibly the new one, is dropped and reported as `evicted`. */
    method Store(key: CacheKey, b: Bucket, now: int) returns (evicted: Option<CacheKey>)
      requires Valid() && b.Valid() && b.bandwidth == BandwidthOf(key.action)
      requires if Live(key, now) then buckets[key] == b else b !in buckets.Values
      modifies this
      ensures Valid()
      ensures buckets == Without(Put(old(buckets), old(lastAccess), key, b, now), evicted)
      ensures lastAccess == Without(Put(old(lastAccess), old(lastAccess), key, now, now), evicted)
      ensures evicted.Some? <==> |Put(old(buckets), old(lastAccess), key, b, now)| > MaxBuckets
      ensures evicted.Some? ==> evicted.value in Put(old(buckets), old(lastAccess), key, b, now)
    {
      var stored := Put(buckets, lastAccess, key, b, now);
      var touched := Put(lastAccess, lastAccess, key, now, now);
      PutSize(buckets, lastAccess, key, b, now);
      PutKeys(buckets, lastAccess, key, b, now);
      PutGood(buckets, lastAccess, key, b, now);
      if |stored| > MaxBuckets {
        var victim :| victim in stored;
        evicted := Some(victim);
      } else {
        evicted := None;
      }
      EvictGood(stored, touched, evicted);
      var next := Without(stored, evicted);
      // The cache object is none of its buckets, so replacing its maps keeps them valid.
      assert forall k :: k in next ==> (next[k] as object) != this;
      buckets, lastAccess := next, Without(touched, evicted);
    }

    /** The state a lookup of `key` at `now` hands out: the live bucket's, or a new full
        bucket's. */
    ghost function Prior(key: CacheKey, now: int): BucketState
      reads this, buckets.Values
    {
      if Live(key, now) then buckets[key].state else Fresh(BandwidthOf(key.action), now)
    }

    /** `getLoginBucket(clientIp)` and its four siblings, at `now`: the live bucket under
        the action's key is returned and touched, or a full one is created and stored. */
    method GetBucket(a: Action, clientIp: string, now: int) returns (b: Bucket, evicted: Option<CacheKey>)
      requires Valid()
      modifies this
      ensures Valid() && b.Valid() && b.bandwidth == BandwidthOf(a)
      ensures old(Live(CacheKey(a, clientIp), now)) ==> b == old(buckets[CacheKey(a, clientIp)]) && evicted == None
      ensures !old(Live(CacheKey(a, clientIp), now)) ==> fresh(b) && b.state == Fresh(BandwidthOf(a), now)
      ensures buckets == Without(Put(old(buckets), old(lastAccess), CacheKey(a, clientIp), b, now), evicted)
      ensures lastAccess == Without(Put(old(lastAccess), old(lastAccess), CacheKey(a, clientIp), now, now), evicted)
      ensures evicted.Some? ==> |old(buckets)| == MaxBuckets && !old(Live(CacheKey(a, clientIp), now))
      ensures b.state == old(Prior(CacheKey(a, clientIp), now))
      ensures CacheKey(a, clientIp) in buckets ==> buckets[CacheKey(a, clientIp)] == b
      ensures forall k :: k in old(buckets) && k != CacheKey(a, clientIp) ==> old(buckets)[k] != b
    {
      var key := CacheKey(a, clientIp);
      if Live(key, now) {
        b := buckets[key];
      } else {
        b := new Bucket(BandwidthOf(a), now);
      }
      ghost var before := buckets;
      ghost var accessed := lastAccess;
      evicted := Store(key, b, now);
      if evicted.Some? {
        OverflowOnlyWhenFull(before, accessed, key, b, now);
      }
    }

    /** `bucket.tryConsume(1)` on the bucket just looked up under `key`, which the cache
        holds under that key alone or no longer holds: the cache stays valid. */
    method ConsumeFrom(b: Bucket, ghost key: CacheKey, now: int) returns (ok: bool)
      requires Valid() && b.Valid()
      requires key in buckets ==> buckets[key] == b
      requires forall k :: k in buckets && k != key ==> buckets[k] != b
      modifies b
      ensures Valid()
      ensures (ok, b.state) == Consume(b.bandwidth, old(b.state), now)
    {
      ok := b.TryConsume(now);
      forall k | k in buckets
        ensures buckets[k].Valid() && buckets[k].bandwidth == BandwidthOf(k.action)
      {
        assert old(buckets[k].Valid());
      }
    }
  }
}
