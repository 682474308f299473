/** `JwtAuthenticationFilter`: for each request, read the bearer credential, refuse revoked,
    invalid and refresh tokens, and otherwise load the user and record it, with its
    authorities, as the request's authentication. The filter never fails the request: the
    rest of the chain runs once whatever happens. */
module JwtFilter {
  import opened Wrappers
  import opened Strings
  import opened Jwt
  import opened AuthEntity
  import opened UserStore
  import opened TokenBlacklist

  const BearerPrefix := "Bearer "

  /** `getJwtFromRequest`: the `Authorization` header without its `Bearer ` prefix, which is
      matched case-sensitively (the credential syntax of section 2.1 of RFC 6750). */
  function GetJwtFromRequest(authorization: Option<string>): (jwt: Option<string>)
    ensures jwt.Some? <==> authorization.Some? && StartsWith(authorization.value, BearerPrefix)
    ensures jwt.Some? ==> authorization.value == BearerPrefix + jwt.value
  {
    assert authorization.Some? && StartsWith(authorization.value, BearerPrefix) ==>
             authorization.value[0] == 'B' && authorization.value == BearerPrefix + authorization.value[7..];
    if authorization.Some? && HasText(authorization.value) && StartsWith(authorization.value, BearerPrefix) then
      Some(authorization.value[7..])
    else None
  }

  /** The header carrying a token yields exactly that token. */
  lemma BearerRoundTrip(token: string)
    ensures GetJwtFromRequest(Some(BearerPrefix + token)) == Some(token)
  {
    assert StartsWith(BearerPrefix + token, BearerPrefix) by {
      assert (BearerPrefix + token)[..7] == BearerPrefix;
    }
  }

  /** The credential the filter acts on: the extracted token, when it has text. */
  function Credential(authorization: Option<string>): Option<string>
  {
    var jwt := GetJwtFromRequest(authorization);
    if jwt.Some? && HasText(jwt.value) then jwt else None
  }

  /** `UsernamePasswordAuthenticationToken(userDetails, null, authorities)`. */
  datatype Authentication = Authentication(principal: User, credentials: Option<string>, authorities: set<string>)

  /** The request's `SecurityContext`. */
  class SecurityContext {
    var authentication: Option<Authentication>

    constructor ()
      ensures authentication == None
    {
      authentication := None;
    }
  }

  /** The branch a request takes through the filter. */
  datatype FilterPath =
    | NoToken
    | Revoked
    | Authenticated(user: User)
    | RefreshTokenUsed
    | ValidationFailed
      /** An exception while authenticating, caught and logged. */
    | AuthenticationFailed

  /** `doFilterInternal`. `chainCalls` counts the calls to `filterChain.doFilter`. */
  method DoFilterInternal(authorization: Option<string>, blacklist: TokenBlacklistService, tokens: JwtService,
                          users: UserTable, ctx: SecurityContext, now: int)
    returns (path: FilterPath, chainCalls: nat)
    requires Configured(tokens)
    modifies ctx
    ensures chainCalls == 1
    ensures path.NoToken? <==> Credential(authorization).None?
    ensures path.Revoked? <==> Credential(authorization).Some? && blacklist.IsBlacklisted(Credential(authorization).value, now)
    ensures path.ValidationFailed? <==>
              Credential(authorization).Some? && !blacklist.IsBlacklisted(Credential(authorization).value, now) &&
              !ValidateToken(tokens, Credential(authorization).value, now)
    ensures path.RefreshTokenUsed? ==> ValidateToken(tokens, Credential(authorization).value, now) &&
                                       IsAccessToken(tokens, Credential(authorization).value, now) == Ok(false)
    ensures path.Authenticated? <==>
              Credential(authorization).Some? && !blacklist.IsBlacklisted(Credential(authorization).value, now) &&
              ValidateToken(tokens, Credential(authorization).value, now) &&
              IsAccessToken(tokens, Credential(authorization).value, now) == Ok(true) &&
              LoadUserByUsername(users, GetUsernameFromToken(tokens, Credential(authorization).value, now).value).Ok?
    ensures path.Authenticated? ==>
              path.user == LoadUserByUsername(users, GetUsernameFromToken(tokens, Credential(authorization).value, now).value).value &&
              ctx.authentication == Some(Authentication(path.user, None, Authorities(path.user)))
    ensures !path.Authenticated? ==> ctx.authentication == old(ctx.authentication)
  {
    chainCalls := 0;
    var jwt := GetJwtFromRequest(authorization);
    if jwt.Some? && HasText(jwt.value) {
      var token := jwt.value;
      if blacklist.IsBlacklisted(token, now) {
        chainCalls := chainCalls + 1;
        return Revoked, chainCalls;
      }
      if ValidateToken(tokens, token, now) {
        var access := IsAccessToken(tokens, token, now);
        if access == Ok(true) {
          var username := GetUsernameFromToken(tokens, token, now).value;
          var loaded := LoadUserByUsername(users, username);
          if loaded.Ok? {
            var user := loaded.value;
            ctx.authentication := Some(Authentication(user, None, Authorities(user)));
            path := Authenticated(user);
          } else {
            path := AuthenticationFailed;
          }
        } else {
          path := RefreshTokenUsed;
        }
      } else {
        path := ValidationFailed;
      }
    } else {
      path := NoToken;
    }
    chainCalls := chainCalls + 1;
  }

  /** A valid refresh token is never taken as an access token, so it never authenticates. */
  lemma RefreshNeverAuthenticates(tokens: JwtService, token: string, now: int)
    requires Configured(tokens)
    requires ValidateToken(tokens, token, now) && IsRefreshToken(tokens, token, now) == Ok(true)
    ensures IsAccessToken(tokens, token, now) == Ok(false)
  {
    AccessRefreshExclusive(tokens, token, now);
  }
}
