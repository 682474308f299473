/** The JWT token service of the backend: it issues HS256-signed access and refresh tokens
    whose `sub`, `iat` and `exp` claims are those of section 4.1 of RFC 7519 and whose
    private `type` claim is "access" or "refresh", and it parses and classifies them.

    The compact serialization and the HMAC are abstracted. A token string is decoded by
    the service's `Codec` into a `Jws`: the claims it carries and the key its MAC was
    computed with. The signature verifies exactly when that key is the configured secret.
    Times are milliseconds since the epoch and are passed in as `now`. */
module Jwt {
  import opened Wrappers
  import opened Strings

  /** Shortest accepted secret: 32 characters, at least the 256-bit hash size that
      section 3.2 of RFC 7518 requires of an HS256 key. */
  const MinSecretLength: nat := 32

  const AccessType := "access"
  const RefreshType := "refresh"

  /** The claims of a token: `sub`, the private `type` claim (absent on foreign tokens),
      `iat` and `exp`. */
  datatype Claims = Claims(subject: string, tokenType: Option<string>, issuedAt: int, expiresAt: int)

  /** A signed token as the parser sees it: its claims and the key its MAC was made with. */
  datatype Jws = Jws(claims: Claims, signedWith: string)

  /** The compact serialization: `encode` renders a signed token, `decode` reads one back
      and is `None` for anything that is not a well-formed signed JWT. */
  datatype Codec = Codec(encode: Jws -> string, decode: string -> Option<Jws>)

  /** What the token library guarantees: decoding an encoded token gives it back, and an
      encoded token is never blank. */
  ghost predicate Lossless(c: Codec)
  {
    (forall j :: c.decode(c.encode(j)) == Some(j)) && (forall j :: HasText(c.encode(j)))
  }

  /** The service's configuration: `jwt.secret` (possibly unset), `jwt.expiration` and
      `jwt.refresh-expiration` in milliseconds, and the token library. */
  datatype JwtService = JwtService(secret: Option<string>, jwtExpiration: int, refreshExpiration: int, codec: Codec)

  datatype ConfigError = SecretMissing | SecretTooShort(length: nat)

  /** The start-up check: an unset or blank secret is refused first, then one shorter than
      32 characters; the service exists only when this succeeds. */
  function ValidateConfiguration(s: JwtService): (r: Result<(), ConfigError>)
    ensures r.Ok? <==> s.secret.Some? && HasText(s.secret.value) && |s.secret.value| >= MinSecretLength
    ensures r.Err? && r.error.SecretTooShort? ==> r.error.length < MinSecretLength
    ensures s.secret.None? ==> r == Err(SecretMissing)
  {
    match s.secret
    case None => Err(SecretMissing)
    case Some(k) =>
      if IsBlank(k) then Err(SecretMissing)
      else if |k| < MinSecretLength then Err(SecretTooShort(|k|))
      else Ok(())
  }

  predicate Configured(s: JwtService)
  {
    ValidateConfiguration(s).Ok?
  }

  /** A secret of 32 characters or more that is not blank is accepted; any shorter one is
      refused. */
  lemma SecretLengthBoundary(s: JwtService)
    requires s.secret.Some? && HasText(s.secret.value)
    ensures Configured(s) <==> |s.secret.value| >= 32
    ensures |s.secret.value| < 32 ==> ValidateConfiguration(s) == Err(SecretTooShort(|s.secret.value|))
  {
  }

  function SigningKey(s: JwtService): string
    requires Configured(s)
  {
    s.secret.value
  }

  /** `generateToken`: subject, `iat` = now, `exp` = now + lifetime, the given type claim,
      signed with the configured secret. */
  function GenerateToken(s: JwtService, tokenType: string, subject: string, lifetime: int, now: int): (token: string)
    requires Configured(s)
    ensures Lossless(s.codec) ==>
      s.codec.decode(token) == Some(Jws(Claims(subject, Some(tokenType), now, now + lifetime), SigningKey(s)))
  {
    s.codec.encode(Jws(Claims(subject, Some(tokenType), now, now + lifetime), SigningKey(s)))
  }

  datatype JwtError = EmptyToken | Malformed | BadSignature | ExpiredToken(claims: Claims)

  /** `parseSignedClaims`: a blank string is refused (IllegalArgumentException), then one
      that does not decode (MalformedJwtException), then a MAC made with another key
      (SecurityException), then an `exp` strictly before `now` (ExpiredJwtException). */
  function ParseSignedClaims(s: JwtService, token: string, now: int): (r: Result<Claims, JwtError>)
    requires Configured(s)
    ensures r.Ok? ==> s.codec.decode(token) == Some(Jws(r.value, SigningKey(s))) && now <= r.value.expiresAt
    ensures IsBlank(token) ==> r == Err(EmptyToken)
    ensures HasText(token) && s.codec.decode(token).None? ==> r == Err(Malformed)
  {
    if IsBlank(token) then Err(EmptyToken)
    else
      match s.codec.decode(token)
      case None => Err(Malformed)
      case Some(j) =>
        if j.signedWith != SigningKey(s) then Err(BadSignature)
        else if j.claims.expiresAt < now then Err(ExpiredToken(j.claims))
        else Ok(j.claims)
  }

  /** `validateToken(token)`: true exactly when parsing succeeds; every failure of the
      parser is caught and answered with false. */
  function ValidateToken(s: JwtService, token: string, now: int): (valid: bool)
    requires Configured(s)
    ensures valid <==>
      HasText(token) && s.codec.decode(token).Some? &&
      s.codec.decode(token).value.signedWith == SigningKey(s) &&
      now <= s.codec.decode(token).value.claims.expiresAt
  {
    ParseSignedClaims(s, token, now).Ok?
  }

  /** `getUsernameFromToken`: the subject of a token that parses; the parser's exception
      otherwise. */
  function GetUsernameFromToken(s: JwtService, token: string, now: int): (r: Result<string, JwtError>)
    requires Configured(s)
    ensures r.Ok? <==> ValidateToken(s, token, now)
    ensures r.Ok? ==> r.value == s.codec.decode(token).value.claims.subject
  {
    match ParseSignedClaims(s, token, now)
    case Ok(c) => Ok(c.subject)
    case Err(e) => Err(e)
  }

  /** `getExpirationDateFromToken`. */
  function GetExpirationFromToken(s: JwtService, token: string, now: int): (r: Result<int, JwtError>)
    requires Configured(s)
    ensures r.Ok? <==> ValidateToken(s, token, now)
    ensures r.Ok? ==> r.value == s.codec.decode(token).value.claims.expiresAt && now <= r.value
  {
    match ParseSignedClaims(s, token, now)
    case Ok(c) => Ok(c.expiresAt)
    case Err(e) => Err(e)
  }

  /** `isTokenExpired`: `exp` strictly before `now`. Reading `exp` goes through the parser,
      which already throws for an expired token, so a result, when there is one, is false. */
  function IsTokenExpired(s: JwtService, token: string, now: int): (r: Result<bool, JwtError>)
    requires Configured(s)
    ensures r.Ok? <==> ValidateToken(s, token, now)
    ensures r.Ok? ==> (r.value <==> s.codec.decode(token).value.claims.expiresAt < now)
    ensures r.Ok? ==> !r.value
    ensures (HasText(token) && s.codec.decode(token).Some? && s.codec.decode(token).value.signedWith == SigningKey(s) &&
             s.codec.decode(token).value.claims.expiresAt < now) ==> r.Err? && r.error.ExpiredToken?
  {
    match GetExpirationFromToken(s, token, now)
    case Ok(exp) => Ok(exp < now)
    case Err(e) => Err(e)
  }

  /** `validateToken(token, userDetails)`: the subject equals the username and the token is
      not expired. Both reads go through the parser, so a token that does not parse
      (expired ones included) throws instead of answering false. */
  function ValidateTokenForUser(s: JwtService, token: string, username: string, now: int): (r: Result<bool, JwtError>)
    requires Configured(s)
    ensures r.Ok? <==> ValidateToken(s, token, now)
    ensures r.Ok? ==> (r.value <==> s.codec.decode(token).value.claims.subject == username)
  {
    match GetUsernameFromToken(s, token, now)
    case Err(e) => Err(e)
    case Ok(name) =>
      if name != username then Ok(false)
      else
        match IsTokenExpired(s, token, now)
        case Err(e) => Err(e)
        case Ok(expired) => Ok(!expired)
  }

  /** `getTokenType`: the `type` claim of a token that parses (null when absent). */
  function GetTokenType(s: JwtService, token: string, now: int): (r: Result<Option<string>, JwtError>)
    requires Configured(s)
    ensures r.Ok? <==> ValidateToken(s, token, now)
    ensures r.Ok? ==> r.value == s.codec.decode(token).value.claims.tokenType
  {
    match ParseSignedClaims(s, token, now)
    case Ok(c) => Ok(c.tokenType)
    case Err(e) => Err(e)
  }

  /** `isAccessToken`: the type claim is exactly "access". */
  function IsAccessToken(s: JwtService, token: string, now: int): (r: Result<bool, JwtError>)
    requires Configured(s)
    ensures r.Ok? <==> ValidateToken(s, token, now)
    ensures r.Ok? ==> (r.value <==> GetTokenType(s, token, now).value == Some(AccessType))
  {
    match GetTokenType(s, token, now)
    case Ok(t) => Ok(t == Some(AccessType))
    case Err(e) => Err(e)
  }

  /** `isRefreshToken`: the type claim is exactly "refresh". */
  function IsRefreshToken(s: JwtService, token: string, now: int): (r: Result<bool, JwtError>)
    requires Configured(s)
    ensures r.Ok? <==> ValidateToken(s, token, now)
    ensures r.Ok? ==> (r.value <==> GetTokenType(s, token, now).value == Some(RefreshType))
  {
    match GetTokenType(s, token, now)
    case Ok(t) => Ok(t == Some(RefreshType))
    case Err(e) => Err(e)
  }

  /** `generateAccessToken(username)`: type "access", lifetime `jwt.expiration`. */
  function GenerateAccessToken(s: JwtService, username: string, now: int): (token: string)
    requires Configured(s)
    ensures Lossless(s.codec) ==>
      s.codec.decode(token) == Some(Jws(Claims(username, Some(AccessType), now, now + s.jwtExpiration), SigningKey(s)))
  {
    GenerateToken(s, AccessType, username, s.jwtExpiration, now)
  }

  /** `generateRefreshToken(username)`: type "refresh", lifetime `jwt.refresh-expiration`. */
  function GenerateRefreshToken(s: JwtService, username: string, now: int): (token: string)
    requires Configured(s)
    ensures Lossless(s.codec) ==>
      s.codec.decode(token) == Some(Jws(Claims(username, Some(RefreshType), now, now + s.refreshExpiration), SigningKey(s)))
  {
    GenerateToken(s, RefreshType, username, s.refreshExpiration, now)
  }

  /** A token is never both an access and a refresh token, and one whose type claim is
      neither literal (or absent) is neither. */
  lemma AccessRefreshExclusive(s: JwtService, token: string, now: int)
    requires Configured(s)
    ensures !(IsAccessToken(s, token, now) == Ok(true) && IsRefreshToken(s, token, now) == Ok(true))
    ensures ValidateToken(s, token, now) && GetTokenType(s, token, now).value !in {Some(AccessType), Some(RefreshType)} ==>
      IsAccessToken(s, token, now) == Ok(false) && IsRefreshToken(s, token, now) == Ok(false)
  {
  }

  /** Round trip: while it lives, an access token yields its subject, validates, is an
      access token and not a refresh token, and its lifetime is `jwt.expiration`. */
  lemma AccessTokenRoundTrip(s: JwtService, username: string, issued: int, now: int)
    requires Configured(s) && Lossless(s.codec)
    requires issued <= now <= issued + s.jwtExpiration
    ensures var t := GenerateAccessToken(s, username, issued);
      ValidateToken(s, t, now) &&
      GetUsernameFromToken(s, t, now) == Ok(username) &&
      GetExpirationFromToken(s, t, now) == Ok(issued + s.jwtExpiration) &&
      IsAccessToken(s, t, now) == Ok(true) && IsRefreshToken(s, t, now) == Ok(false) &&
      ValidateTokenForUser(s, t, username, now) == Ok(true)
  {
  }

  /** Round trip for refresh tokens, whose lifetime is `jwt.refresh-expiration`. */
  lemma RefreshTokenRoundTrip(s: JwtService, username: string, issued: int, now: int)
    requires Configured(s) && Lossless(s.codec)
    requires issued <= now <= issued + s.refreshExpiration
    ensures var t := GenerateRefreshToken(s, username, issued);
      ValidateToken(s, t, now) &&
      GetUsernameFromToken(s, t, now) == Ok(username) &&
      GetExpirationFromToken(s, t, now) == Ok(issued + s.refreshExpiration) &&
      IsRefreshToken(s, t, now) == Ok(true) && IsAccessToken(s, t, now) == Ok(false)
  {
  }

  /** Once its lifetime has passed, a generated token no longer validates and every read of
      it throws the expiry exception. */
  lemma GeneratedTokenExpires(s: JwtService, tokenType: string, username: string, lifetime: int, issued: int, now: int)
    requires Configured(s) && Lossless(s.codec)
    requires now > issued + lifetime
    ensures var t := GenerateToken(s, tokenType, username, lifetime, issued);
      !ValidateToken(s, t, now) &&
      GetUsernameFromToken(s, t, now) == Err(ExpiredToken(Claims(username, Some(tokenType), issued, issued + lifetime))) &&
      IsTokenExpired(s, t, now).Err?
  {
  }

  /** A token whose MAC was made with another key never validates, whatever its claims. */
  lemma ForeignKeyRejected(s: JwtService, c: Claims, key: string, now: int)
    requires Configured(s) && Lossless(s.codec)
    requires key != SigningKey(s)
    ensures ParseSignedClaims(s, s.codec.encode(Jws(c, key)), now) == Err(BadSignature)
  {
  }
}
