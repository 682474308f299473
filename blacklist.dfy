/** `TokenBlacklistService`: revoked token strings in a cache whose entries expire a fixed
    time after their last write and whose size is bounded. Times are milliseconds passed
    in by the caller. */
module TokenBlacklist {
  import opened Wrappers
  import opened Collections

  /** `maximumSize(100000)`. */
  const MaxSize: nat := 100000

  const MillisPerMinute: int := 60000

  /** Java `long` division, which truncates toward zero: the quotient's multiple of `b`
      lies between zero and `a`, less than one `b` away. */
  function JavaDiv(a: int, b: int): (q: int)
    requires b > 0
    ensures a >= 0 ==> 0 <= q * b <= a < q * b + b
    ensures a < 0 ==> q * b - b < a <= q * b <= 0
  {
    if a >= 0 then
      DivBounds(a, b);
      a / b
    else
      DivBounds(-a, b);
      assert -((-a) / b) * b == -(((-a) / b) * b);
      -((-a) / b)
  }

  lemma DivBounds(n: nat, b: int)
    requires b > 0
    ensures 0 <= (n / b) * b <= n < (n / b) * b + b
  {
  }

  /** Truncation is symmetric: negating the dividend negates the quotient. */
  lemma JavaDivNegates(a: int, b: int)
    requires b > 0
    ensures JavaDiv(-a, b) == -JavaDiv(a, b)
  {
  }

  /** The retention in minutes: the token lifetime in whole minutes plus five. For every
      non-negative lifetime the retention outlasts the lifetime itself. */
  function RetentionMinutes(jwtExpirationMs: int): (m: int)
    ensures jwtExpirationMs >= 0 ==> m * MillisPerMinute > jwtExpirationMs
    ensures jwtExpirationMs >= 0 ==> m >= 5
  {
    var seconds := JavaDiv(jwtExpirationMs, 1000);
    assert jwtExpirationMs >= 0 ==> seconds * 1000 > jwtExpirationMs - 1000;
    assert jwtExpirationMs >= 0 ==> JavaDiv(seconds, 60) * 60 > seconds - 60;
    JavaDiv(seconds, 60) + 5
  }

  /** The default lifetime of 86400000 ms (a day) is retained for 1445 minutes. */
  lemma DefaultRetention()
    ensures RetentionMinutes(86400000) == 1445
  {
  }

  /** Whether an entry written at `m[k]` is still present at time `t`: Caffeine expires an
      entry once `ttl` has passed since its last write. */
  predicate Live(m: map<string, int>, k: string, t: int, ttl: int)
  {
    k in m && t - m[k] < ttl
  }

  /** What the cache's maintenance does first on a write: drop every expired entry. */
  function Purge(m: map<string, int>, now: int, ttl: int): (r: map<string, int>)
    ensures r.Keys <= m.Keys
    ensures forall k :: k in r ==> r[k] == m[k] && Live(m, k, now, ttl)
  {
    map k | k in m && now - m[k] < ttl :: m[k]
  }

  /** Purging at `now` never changes whether an entry is present at `now` or later. */
  lemma PurgeKeepsLaterAnswers(m: map<string, int>, now: int, ttl: int, k: string, t: int)
    requires t >= now
    ensures Live(Purge(m, now, ttl), k, t, ttl) == Live(m, k, t, ttl)
  {
  }

  /** The entries after `put(token)` and before any size eviction. */
  function Stored(m: map<string, int>, token: string, now: int, ttl: int): (r: map<string, int>)
    ensures token in r && r[token] == now
    ensures forall k :: k != token ==> (k in r <==> k in m && Live(m, k, now, ttl))
  {
    Purge(m, now, ttl)[token := now]
  }

  /** Writing grows the cache by at most one entry, and only when the token is absent. */
  lemma StoredSize(m: map<string, int>, token: string, now: int, ttl: int)
    ensures |Stored(m, token, now, ttl)| <= |m| + 1
    ensures Live(m, token, now, ttl) ==> |Stored(m, token, now, ttl)| <= |m|
  {
    var p := Purge(m, now, ttl);
    SubsetSize(p.Keys, m.Keys);
    if token in p {
      assert Stored(m, token, now, ttl).Keys == p.Keys;
    } else {
      assert Stored(m, token, now, ttl).Keys == p.Keys + {token};
    }
  }

  class TokenBlacklistService {
    /** The write time of every entry the cache still holds. */
    var written: map<string, int>
    /** `expireAfterWrite(expirationMinutes, MINUTES)`, in milliseconds. */
    const retentionMs: int

    ghost predicate Valid()
      reads this
    {
      "" !in written && |written| <= MaxSize && retentionMs >= 0
    }

    /** The constructor; Caffeine refuses a negative expiry duration. */
    constructor (jwtExpirationMs: int)
      requires RetentionMinutes(jwtExpirationMs) >= 0
      ensures Valid()
      ensures retentionMs == RetentionMinutes(jwtExpirationMs) * MillisPerMinute && written == map[]
    {
      retentionMs := RetentionMinutes(jwtExpirationMs) * MillisPerMinute;
      written := map[];
    }

    /** `isBlacklisted(token)` at time `now`: never for the empty token, only for a token
        that was written, and only before its retention has run out since that write. */
    predicate IsBlacklisted(token: string, now: int)
      reads this
      ensures IsBlacklisted(token, now) ==> token != "" && token in written && now < written[token] + retentionMs
    {
      token != "" && Live(written, token, now, retentionMs)
    }

    /** `getBlacklistSize()`: never more than the maximum size. */
    function BlacklistSize(): (n: int)
      requires Valid()
      reads this
      ensures 0 <= n <= MaxSize
    {
      |written|
    }

    /** `blacklistToken(token)` at time `now`. The empty token is ignored. Otherwise the
        expired entries go, the token is written at `now`, and if that overflows the
        maximum size the cache drops one entry of its choosing, possibly the new one,
        which `evicted` reports. */
    method BlacklistToken(token: string, now: int) returns (evicted: Option<string>)
      requires Valid()
      modifies this
      ensures Valid()
      ensures token == "" ==> written == old(written) && evicted == None
      ensures token != "" && evicted == None ==> written == Stored(old(written), token, now, retentionMs)
      ensures token != "" && evicted.Some? ==>
                evicted.value in Stored(old(written), token, now, retentionMs) &&
                written == Stored(old(written), token, now, retentionMs) - {evicted.value} &&
                |old(written)| == MaxSize && !old(IsBlacklisted(token, now))
      ensures token != "" && evicted != Some(token) ==>
                forall t :: now <= t < now + retentionMs ==> IsBlacklisted(token, t)
      ensures forall q, t :: q != token && evicted != Some(q) && t >= now ==>
                (IsBlacklisted(q, t) <==> old(IsBlacklisted(q, t)))
    {
      if token == "" {
        return None;
      }
      var next := Stored(written, token, now, retentionMs);
      StoredSize(written, token, now, retentionMs);
      forall q, t | q != token && t >= now
        ensures Live(next, q, t, retentionMs) == Live(written, q, t, retentionMs)
      {
        PurgeKeepsLaterAnswers(written, now, retentionMs, q, t);
      }
      if |next| > MaxSize {
        var victim :| victim in next;
        written := next - {victim};
        evicted := Some(victim);
      } else {
        written := next;
        evicted := None;
      }
    }
  }

  /** Blacklisting a live token again adds nothing and evicts nothing: only its write time
      moves to `now`. */
  method BlacklistAgain(s: TokenBlacklistService, token: string, now: int)
    requires s.Valid() && s.IsBlacklisted(token, now)
    modifies s
    ensures s.Valid() && s.written.Keys <= old(s.written.Keys) && token in s.written && s.written[token] == now
  {
    StoredSize(s.written, token, now, s.retentionMs);
    var evicted := s.BlacklistToken(token, now);
  }
}
