/** `JwtValidationUtility` and `UserContextService`: wrappers that turn every failure of the
    token service into a fixed answer, and the current user looked up from a token. */
module JwtIntegration {
  import opened Wrappers
  import opened Strings
  import opened Jwt
  import opened AppErrors
  import opened AuthEntity
  import opened UserStore

  /** `JwtValidationUtility.validateToken`: never throws; true exactly for a non-blank token
      that decodes, carries the configured key's signature and has not expired. */
  function ValidateTokenSafe(s: JwtService, token: string, now: int): (valid: bool)
    requires Configured(s)
    ensures valid <==>
      HasText(token) && s.codec.decode(token).Some? &&
      s.codec.decode(token).value.signedWith == SigningKey(s) &&
      now <= s.codec.decode(token).value.claims.expiresAt
  {
    ValidateToken(s, token, now)
  }

  /** `extractUsername`: the subject, or null when the token cannot be read. */
  function ExtractUsername(s: JwtService, token: string, now: int): (username: Option<string>)
    requires Configured(s)
    ensures username.Some? <==> ValidateToken(s, token, now)
    ensures username.Some? ==> username.value == s.codec.decode(token).value.claims.subject
  {
    GetUsernameFromToken(s, token, now).ToOption()
  }

  /** `isTokenExpired`, failing closed: true whenever the expiry cannot be read. Since the
      token service itself refuses expired tokens, this is exactly "not valid". */
  function IsTokenExpiredSafe(s: JwtService, token: string, now: int): (expired: bool)
    requires Configured(s)
    ensures expired <==> !ValidateToken(s, token, now)
  {
    match IsTokenExpired(s, token, now)
    case Ok(b) => b
    case Err(_) => true
  }

  /** A token the service issued is neither expired nor unreadable until its expiry. */
  lemma FreshTokenNotExpired(s: JwtService, username: string, issued: int, now: int)
    requires Configured(s) && Lossless(s.codec)
    requires issued <= now <= issued + s.jwtExpiration
    ensures !IsTokenExpiredSafe(s, GenerateAccessToken(s, username, issued), now)
    ensures ExtractUsername(s, GenerateAccessToken(s, username, issued), now) == Some(username)
  {
    AccessTokenRoundTrip(s, username, issued, now);
  }

  /** `UserContextService.getCurrentUser`: nothing for a missing or invalid token, without
      consulting the store; otherwise the user stored under the token's subject. A store
      failure propagates. */
  function GetCurrentUser(s: JwtService, users: UserTable, token: Option<string>, now: int): (r: Result<Option<User>, AppError>)
    requires Configured(s)
    ensures token.None? || !ValidateTokenSafe(s, token.value, now) ==> r == Ok(None)
    ensures r.Ok? && r.value.Some? ==>
              token.Some? && ValidateToken(s, token.value, now) &&
              r.value.value in users && r.value.value.username == ExtractUsername(s, token.value, now).value
  {
    if token.None? || !ValidateTokenSafe(s, token.value, now) then Ok(None)
    else
      var username := ExtractUsername(s, token.value, now);
      if username.None? then Ok(None)
      else FindByUsername(users, username.value)
  }

  /** In a well-formed table the lookup never fails, and it finds the user exactly when one
      has the token's subject as username. */
  lemma CurrentUserExact(s: JwtService, users: UserTable, token: string, now: int)
    requires Configured(s) && WellFormed(users) && ValidateToken(s, token, now)
    ensures GetCurrentUser(s, users, Some(token), now).Ok?
    ensures GetCurrentUser(s, users, Some(token), now).value.Some? <==>
              ExistsByUsername(users, s.codec.decode(token).value.claims.subject)
  {
    FindByUsernameExact(users, ExtractUsername(s, token, now).value);
  }

  /** `getCurrentUserId`. */
  function GetCurrentUserId(s: JwtService, users: UserTable, token: Option<string>, now: int): (r: Result<Option<nat>, AppError>)
    requires Configured(s)
    ensures r.Ok? <==> GetCurrentUser(s, users, token, now).Ok?
    ensures r.Ok? ==> (r.value.Some? <==> GetCurrentUser(s, users, token, now).value.Some?)
    ensures r.Ok? && r.value.Some? ==> r.value.value == GetCurrentUser(s, users, token, now).value.value.id
  {
    match GetCurrentUser(s, users, token, now)
    case Ok(Some(u)) => Ok(Some(u.id))
    case Ok(None) => Ok(None)
    case Err(e) => Err(e)
  }

  /** `isValidUser`. */
  function IsValidUser(s: JwtService, users: UserTable, token: Option<string>, now: int): (r: Result<bool, AppError>)
    requires Configured(s)
    ensures r.Ok? <==> GetCurrentUser(s, users, token, now).Ok?
    ensures r.Ok? ==> (r.value <==> GetCurrentUser(s, users, token, now).value.Some?)
  {
    match GetCurrentUser(s, users, token, now)
    case Ok(u) => Ok(u.Some?)
    case Err(e) => Err(e)
  }
}
