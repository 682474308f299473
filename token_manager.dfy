/** The client's `TokenManager`: the login state kept as string preferences. A write is
    one `edit` transaction over the preferences map; when the store fails the transaction
    is dropped and the failure swallowed, and a failing read yields `null` (or `false`). The
    `fault` parameters stand for those store failures. */
module TokenStore {
  import opened Wrappers

  const AccessTokenKey := "access_token"
  const RefreshTokenKey := "refresh_token"
  const UserIdKey := "user_id"
  const UsernameKey := "username"
  const EmailKey := "email"
  const IsLoggedInKey := "is_logged_in"

  type Prefs = map<string, string>

  /** The value `isLoggedInFlow` emits for a store state: the flag holds the text `true`. */
  predicate LoggedInFlow(p: Prefs)
  {
    IsLoggedInKey in p && p[IsLoggedInKey] == "true"
  }

  /** The keys `clearTokens` removes. */
  const SessionKeys: set<string> := {AccessTokenKey, RefreshTokenKey, UserIdKey, UsernameKey, EmailKey}

  class TokenManager {
    var prefs: Prefs

    constructor ()
      ensures prefs == map[]
    {
      prefs := map[];
    }

    /** A getter's answer for a key: the stored value, or `null` when the key is absent or the
        read fails. */
    function Lookup(key: string, fault: bool): (v: Option<string>)
      reads this
      ensures v.Some? <==> !fault && key in prefs
      ensures v.Some? ==> v.value == prefs[key]
    {
      if !fault && key in prefs then Some(prefs[key]) else None
    }

    /** `getAccessToken()`: the stored access token, or `null` when it is absent or the read fails. */
    function GetAccessToken(fault: bool): (v: Option<string>)
      reads this
      ensures v.Some? <==> !fault && AccessTokenKey in prefs
      ensures v.Some? ==> v.value == prefs[AccessTokenKey]
    {
      Lookup(AccessTokenKey, fault)
    }

    /** `getRefreshToken()`: the stored refresh token, or `null` when it is absent or the read fails. */
    function GetRefreshToken(fault: bool): (v: Option<string>)
      reads this
      ensures v.Some? <==> !fault && RefreshTokenKey in prefs
      ensures v.Some? ==> v.value == prefs[RefreshTokenKey]
    {
      Lookup(RefreshTokenKey, fault)
    }

    /** `getUserId()`: the stored user id, or `null` when it is absent or the read fails. */
    function GetUserId(fault: bool): (v: Option<string>)
      reads this
      ensures v.Some? <==> !fault && UserIdKey in prefs
      ensures v.Some? ==> v.value == prefs[UserIdKey]
    {
      Lookup(UserIdKey, fault)
    }

    /** `getUsername()`: the stored username, or `null` when it is absent or the read fails. */
    function GetUsername(fault: bool): (v: Option<string>)
      reads this
      ensures v.Some? <==> !fault && UsernameKey in prefs
      ensures v.Some? ==> v.value == prefs[UsernameKey]
    {
      Lookup(UsernameKey, fault)
    }

    /** `getEmail()`: the stored email, or `null` when it is absent or the read fails. */
    function GetEmail(fault: bool): (v: Option<string>)
      reads this
      ensures v.Some? <==> !fault && EmailKey in prefs
      ensures v.Some? ==> v.value == prefs[EmailKey]
    {
      Lookup(EmailKey, fault)
    }

    /** `isLoggedIn()`: the flag reads `true`; an absent flag or a failed read is `false`. */
    predicate IsLoggedIn(fault: bool)
      reads this
      ensures IsLoggedIn(fault) <==> !fault && IsLoggedInKey in prefs && prefs[IsLoggedInKey] == "true"
    {
      Lookup(IsLoggedInKey, fault) == Some("true")
    }

    /** `saveTokens(access, refresh)`: both tokens and the flag `true` in one transaction. */
    method SaveTokens(accessToken: string, refreshToken: string, fault: bool)
      modifies this
      ensures fault ==> prefs == old(prefs)
      ensures !fault ==> prefs == old(prefs)[AccessTokenKey := accessToken][RefreshTokenKey := refreshToken][IsLoggedInKey := "true"]
      ensures !fault ==> IsLoggedIn(false) && GetAccessToken(false) == Some(accessToken) && GetRefreshToken(false) == Some(refreshToken)
    {
      if fault {
        return;
      }
      var edited := prefs;
      edited := edited[AccessTokenKey := accessToken];
      edited := edited[RefreshTokenKey := refreshToken];
      edited := edited[IsLoggedInKey := "true"];
      prefs := edited;
    }

    /** `saveUserInfo(id, username, email)`: the three user keys and nothing else. */
    method SaveUserInfo(userId: string, username: string, email: string, fault: bool)
      modifies this
      ensures fault ==> prefs == old(prefs)
      ensures !fault ==> prefs == old(prefs)[UserIdKey := userId][UsernameKey := username][EmailKey := email]
      ensures forall k :: k !in {UserIdKey, UsernameKey, EmailKey} ==> Lookup(k, false) == old(Lookup(k, false))
    {
      if fault {
        return;
      }
      var edited := prefs;
      edited := edited[UserIdKey := userId];
      edited := edited[UsernameKey := username];
      edited := edited[EmailKey := email];
      prefs := edited;
    }

    /** `clearTokens()`: the five session keys removed and the flag set to `false`; every
        other key kept. */
    method ClearTokens(fault: bool)
      modifies this
      ensures fault ==> prefs == old(prefs)
      ensures !fault ==> prefs == (old(prefs) - SessionKeys)[IsLoggedInKey := "false"]
      ensures !fault ==> forall k :: k in SessionKeys ==> Lookup(k, false).None?
      ensures !fault ==> !IsLoggedIn(false)
    {
      if fault {
        return;
      }
      var edited := prefs;
      edited := edited - {AccessTokenKey};
      edited := edited - {RefreshTokenKey};
      edited := edited - {UserIdKey};
      edited := edited - {UsernameKey};
      edited := edited - {EmailKey};
      edited := edited[IsLoggedInKey := "false"];
      assert edited == (prefs - SessionKeys)[IsLoggedInKey := "false"];
      prefs := edited;
    }

    /** `clearAllData()`: the store emptied, so nobody is logged in. */
    method ClearAllData(fault: bool)
      modifies this
      ensures fault ==> prefs == old(prefs)
      ensures !fault ==> prefs == map[] && !IsLoggedIn(false) && !LoggedInFlow(prefs)
    {
      if fault {
        return;
      }
      prefs := map[];
    }
  }

  /** The flow and the one-shot read agree on every store state, unless the read fails. */
  lemma FlowAgreesWithIsLoggedIn(tm: TokenManager, fault: bool)
    ensures tm.IsLoggedIn(fault) <==> !fault && LoggedInFlow(tm.prefs)
  {
  }
}
