/** `RateLimitService`: picks the bucket for an action and the client's address, and asks
    it for one token. The address comes from the proxy headers when they are present. */
module RateLimitService {
  import opened Wrappers
  import opened Strings
  import opened AppErrors
  import opened RateLimiting

  /** The parts of an HTTP request the service reads: the `X-Forwarded-For` and
      `X-Real-IP` headers, absent as `None`, and the peer address. */
  datatype Request = Request(xForwardedFor: Option<string>, xRealIp: Option<string>, remoteAddr: string)

  /** `getBucketForAction`: the action name, compared without regard to case, chooses the
      limit; every other name gets the general limit. */
  function ActionFor(action: string): (a: Action)
    ensures a == Login <==> ToLower(action) == "login"
    ensures a == Registration <==> ToLower(action) == "register"
    ensures a == PasswordReset <==> ToLower(action) == "reset"
    ensures a == EmailVerification <==> ToLower(action) == "verify"
    ensures a == General <==> ToLower(action) !in {"login", "register", "reset", "verify"}
  {
    match ToLower(action)
    case "login" => Login
    case "register" => Registration
    case "reset" => PasswordReset
    case "verify" => EmailVerification
    case _ => General
  }

  /** Lower-casing twice changes nothing more. */
  lemma ToLowerIdempotent(s: string)
    ensures ToLower(ToLower(s)) == ToLower(s)
  {
    assert forall i :: 0 <= i < |s| ==> LowerChar(LowerChar(s[i])) == LowerChar(s[i]);
  }

  /** The choice ignores case: an action name and its lower-case form get the same limit. */
  lemma ActionIgnoresCase(action: string)
    ensures ActionFor(ToLower(action)) == ActionFor(action)
  {
    ToLowerIdempotent(action);
  }

  /** The text before the first comma, or all of it when there is no comma. */
  lemma {:induction false} SplitFirst(hop: string, rest: string)
    requires ',' !in hop && (rest == [] || rest[0] == ',')
    ensures Split(hop + rest, ',')[0] == hop
  {
    if |hop| > 0 {
      assert (hop + rest)[1..] == hop[1..] + rest;
      SplitFirst(hop[1..], rest);
    } else if rest != [] {
      assert hop + rest == rest;
    }
  }

  /** A header made of commas only: Java's `split(",")` drops the trailing empty pieces,
      so such a header splits into nothing and taking its first piece fails. */
  predicate OnlyCommas(s: string)
  {
    forall i :: 0 <= i < |s| ==> s[i] == ','
  }

  /** `getClientIpAddress`: the first piece of a non-empty `X-Forwarded-For` split on
      commas, trimmed; otherwise a non-empty `X-Real-IP` as it is; otherwise the peer
      address. A forwarded-for header of commas only has no first piece and fails with an
      index exception. */
  function ClientIp(r: Request): (ip: Result<string, AppError>)
    ensures ip.Err? <==> r.xForwardedFor.Some? && |r.xForwardedFor.value| > 0 && OnlyCommas(r.xForwardedFor.value)
    ensures ip.Ok? && r.xForwardedFor.Some? && |r.xForwardedFor.value| > 0 ==> ',' !in ip.value
    ensures (r.xForwardedFor.None? || r.xForwardedFor.value == "") ==>
              ip == Ok(if r.xRealIp.Some? && r.xRealIp.value != "" then r.xRealIp.value else r.remoteAddr)
  {
    if r.xForwardedFor.Some? && |r.xForwardedFor.value| > 0 then
      var parts := JavaSplit(r.xForwardedFor.value, ',');
      JavaSplitEmpty(r.xForwardedFor.value, ',');
      if |parts| == 0 then Err(Runtime(Some("Index 0 out of bounds for length 0")))
      else Ok(Trim(parts[0]))
    else if r.xRealIp.Some? && r.xRealIp.value != "" then Ok(r.xRealIp.value)
    else Ok(r.remoteAddr)
  }

  /** The forwarded-for header names the client as its first hop: the text before the first
      comma, or the whole header when there is none, trimmed, whatever the proxies
      appended; an empty first hop gives the empty address. */
  lemma FirstHopWins(hop: string, rest: string, realIp: Option<string>, remote: string)
    requires ',' !in hop && (rest == [] || rest[0] == ',') && !OnlyCommas(hop + rest)
    ensures ClientIp(Request(Some(hop + rest), realIp, remote)) == Ok(Trim(hop))
  {
    SplitFirst(hop, rest);
    JavaSplitEmpty(hop + rest, ',');
  }

  /** `getBucketForAction(clientIp, action)` followed by `tryConsume(1)` on that bucket:
      the answer and the new state are those of one consumption from the bucket the cache
      held under the key, or from a new full one; no other bucket changes. */
  method ConsumeForAction(config: RateLimitConfig, clientIp: string, action: string, now: int)
    returns (ok: bool)
    requires config.Valid()
    modifies config, config.buckets.Values
    ensures config.Valid()
    ensures var key := CacheKey(ActionFor(action), clientIp);
            var prior := old(config.Prior(key, now));
            ok == Consume(BandwidthOf(key.action), prior, now).0 &&
            (key in config.buckets ==> config.buckets[key].state == Consume(BandwidthOf(key.action), prior, now).1)
    ensures forall k :: k in old(config.buckets) && k != CacheKey(ActionFor(action), clientIp) ==>
              old(config.buckets)[k].state == old(config.buckets[k].state)
  {
    var a := ActionFor(action);
    var key := CacheKey(a, clientIp);
    var bucket, evicted := config.GetBucket(a, clientIp, now);
    ok := config.ConsumeFrom(bucket, key, now);
  }

  /** `isAllowed(request, action)` at `now`: one token from the bucket of the action and
      the client's address. The answer is the bucket's `tryConsume(1)` where the bucket
      is the live one or a new full one; no other bucket changes. */
  method IsAllowed(config: RateLimitConfig, request: Request, action: string, now: int)
    returns (r: Result<bool, AppError>)
    requires config.Valid()
    modifies config, config.buckets.Values
    ensures config.Valid()
    ensures ClientIp(request).Err? ==> r == Err(ClientIp(request).error) && unchanged(config)
    ensures ClientIp(request).Ok? ==>
              var key := CacheKey(ActionFor(action), ClientIp(request).value);
              var prior := old(config.Prior(key, now));
              r.Ok? && r.value == Consume(BandwidthOf(key.action), prior, now).0 &&
              (key in config.buckets ==> config.buckets[key].state == Consume(BandwidthOf(key.action), prior, now).1)
    ensures forall k :: k in old(config.buckets) && (ClientIp(request).Err? || k != CacheKey(ActionFor(action), ClientIp(request).value)) ==>
              old(config.buckets)[k].state == old(config.buckets[k].state)
  {
    var ip := ClientIp(request);
    if ip.Err? {
      return Err(ip.error);
    }
    var ok := ConsumeForAction(config, ip.value, action, now);
    r := Ok(ok);
  }

  /** `getRemainingTokens(request, action)` at `now`: what the bucket holds after its
      refill, consuming nothing. The lookup still touches or creates the bucket. */
  method GetRemainingTokens(config: RateLimitConfig, request: Request, action: string, now: int)
    returns (r: Result<nat, AppError>)
    requires config.Valid()
    modifies config
    ensures config.Valid()
    ensures ClientIp(request).Err? ==> r == Err(ClientIp(request).error) && unchanged(config)
    ensures ClientIp(request).Ok? ==>
              var key := CacheKey(ActionFor(action), ClientIp(request).value);
              var bw := BandwidthOf(key.action);
              var prior := if old(config.Live(key, now)) then old(config.buckets[key].state) else Fresh(bw, now);
              r == Ok(Refill(bw, prior, now).tokens) && r.value <= bw.capacity
  {
    var ip := ClientIp(request);
    if ip.Err? {
      return Err(ip.error);
    }
    var bucket, evicted := config.GetBucket(ActionFor(action), ip.value, now);
    r := Ok(bucket.AvailableTokens(now));
  }
}
