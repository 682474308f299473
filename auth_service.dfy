/** `AuthenticationService`: registration of users and healthcare providers, token refresh,
    email verification and password reset with single-use tokens, provider approval and
    password change. Every operation runs in one transaction: when it fails, the user and
    token tables are as before, while an email already handed to the mail service stays
    sent. Random token values, BCrypt salts and the current time (in milliseconds) are
    parameters. */
module AuthService {
  import opened Wrappers
  import opened Strings
  import opened AppErrors
  import opened Passwords
  import opened AuthEntity
  import opened UserStore
  import opened Jwt
  import TokenBlacklist

  const UserRoleName := "USER"
  const ProviderRoleName := "HEALTHCARE_PROVIDER"
  const VerifiedProviderRoleName := "VERIFIED_HEALTHCARE_PROVIDER"

  /** The first failure of `registerUser`'s checks, in their order: the username, then the
      email, then the `USER` role. */
  function RegistrationError(t: UserTable, catalog: map<string, Role>, username: string, email: string): (e: Option<AppError>)
    ensures ExistsByUsername(t, username) ==> e == Some(AlreadyRegistered("Username", username))
    ensures !ExistsByUsername(t, username) && ExistsByEmail(t, email) ==> e == Some(AlreadyRegistered("Email", email))
    ensures !ExistsByUsername(t, username) && !ExistsByEmail(t, email) && UserRoleName !in catalog ==>
              e == Some(NotFoundWith("Role", "name", UserRoleName))
    ensures e.None? <==> !ExistsByUsername(t, username) && !ExistsByEmail(t, email) && UserRoleName in catalog
  {
    if ExistsByUsername(t, username) then Some(AlreadyRegistered("Username", username))
    else if ExistsByEmail(t, email) then Some(AlreadyRegistered("Email", email))
    else if UserRoleName !in catalog then Some(NotFoundWith("Role", "name", UserRoleName))
    else None
  }

  /** Whether `registerHealthcareProvider` gets as far as a successful `registerUser`. */
  predicate ReachesRegistration(t: UserTable, catalog: map<string, Role>, username: string, email: string, licenseNumber: string)
  {
    !ExistsByLicenseNumber(t, licenseNumber) && RegistrationError(t, catalog, username, email).None?
  }

  /** The first failure of `registerHealthcareProvider`'s checks: the license number comes
      before everything `registerUser` checks, and the `HEALTHCARE_PROVIDER` role after. */
  function ProviderRegistrationError(t: UserTable, catalog: map<string, Role>, username: string, email: string,
                                     licenseNumber: string): (e: Option<AppError>)
    ensures ExistsByLicenseNumber(t, licenseNumber) ==> e == Some(AlreadyRegistered("License number", licenseNumber))
    ensures !ExistsByLicenseNumber(t, licenseNumber) && RegistrationError(t, catalog, username, email).Some? ==>
              e == RegistrationError(t, catalog, username, email)
    ensures ReachesRegistration(t, catalog, username, email, licenseNumber) && ProviderRoleName !in catalog ==>
              e == Some(NotFoundWith("Role", "name", ProviderRoleName))
    ensures e.None? <==> ReachesRegistration(t, catalog, username, email, licenseNumber) && ProviderRoleName in catalog
  {
    if ExistsByLicenseNumber(t, licenseNumber) then Some(AlreadyRegistered("License number", licenseNumber))
    else if RegistrationError(t, catalog, username, email).Some? then RegistrationError(t, catalog, username, email)
    else if ProviderRoleName !in catalog then Some(NotFoundWith("Role", "name", ProviderRoleName))
    else None
  }

  /** The account fields of a newly registered user: the details as given, the password
      encoded, verified and enabled. */
  predicate NewAccount(u: User, username: string, email: string, password: string, salt: string,
                       firstName: string, lastName: string, phoneNumber: Option<string>)
  {
    u.username == username && u.email == email && u.password == Encode(password, salt) &&
    u.firstName == firstName && u.lastName == lastName && u.phoneNumber == phoneNumber &&
    u.isVerified && u.isEnabled
  }

  /** A row of `verification_tokens` or `password_reset_tokens`: the user it belongs to, its
      expiry, and `verifiedAt` (respectively `usedAt`), set when it is redeemed. */
  datatype OneTimeToken = OneTimeToken(userId: nat, expiresAt: int, redeemedAt: Option<int>)

  /** `isExpired()`: the expiry lies in the past. */
  predicate IsExpired(t: OneTimeToken, now: int)
  {
    now > t.expiresAt
  }

  /** `isVerified()` for a verification token and `isUsed()` for a reset token. */
  predicate IsRedeemed(t: OneTimeToken)
  {
    t.redeemedAt.Some?
  }

  /** A token table keyed by the token string. */
  type TokenTable = map<string, OneTimeToken>

  /** Every token belongs to a stored user, and no user holds two tokens of one kind. */
  ghost predicate OnePerUser(m: TokenTable, userCount: nat)
  {
    (forall k :: k in m ==> 1 <= m[k].userId <= userCount) &&
    (forall k1, k2 :: k1 in m && k2 in m && m[k1].userId == m[k2].userId ==> k1 == k2)
  }

  /** `deleteByUser(user)`: every token of that user goes, every other token stays. */
  function DeleteByUser(m: TokenTable, userId: nat): (r: TokenTable)
    ensures forall k :: k in r <==> k in m && m[k].userId != userId
    ensures forall k :: k in r ==> r[k] == m[k]
  {
    map k | k in m && m[k].userId != userId :: m[k]
  }

  /** Issuing a token: the user's old tokens of that kind are deleted and the new one, not
      yet redeemed, is saved. */
  function Issue(m: TokenTable, userId: nat, token: string, expiresAt: int): (r: TokenTable)
    ensures token in r && r[token] == OneTimeToken(userId, expiresAt, None)
    ensures forall k :: k in r && k != token ==> k in m && r[k] == m[k] && m[k].userId != userId
    ensures forall k :: k in m && m[k].userId != userId && k != token ==> k in r
  {
    DeleteByUser(m, userId)[token := OneTimeToken(userId, expiresAt, None)]
  }

  /** After issuing, the new token is the user's only token of that kind, and the table
      still holds at most one token per user. */
  lemma IssueKeepsOnePerUser(m: TokenTable, n: nat, userId: nat, token: string, expiresAt: int)
    requires OnePerUser(m, n) && 1 <= userId <= n
    ensures OnePerUser(Issue(m, userId, token, expiresAt), n)
    ensures forall k :: k in Issue(m, userId, token, expiresAt) && Issue(m, userId, token, expiresAt)[k].userId == userId ==> k == token
  {
  }

  /** `now.plusSeconds(lifetime / 1000)`: the lifetime is truncated to whole seconds. */
  function ExpiryAfter(now: int, lifetimeMs: int): (e: int)
    ensures lifetimeMs >= 0 ==> now <= e <= now + lifetimeMs && now + lifetimeMs < e + 1000
  {
    now + TokenBlacklist.JavaDiv(lifetimeMs, 1000) * 1000
  }

  /** A token can be redeemed: it exists, has not expired and has not been redeemed. */
  predicate Redeemable(m: TokenTable, token: string, now: int)
  {
    token in m && !IsExpired(m[token], now) && !IsRedeemed(m[token])
  }

  /** `setVerifiedAt(now)` / `setUsedAt(now)` and save. */
  function Redeem(m: TokenTable, token: string, now: int): (r: TokenTable)
    requires token in m
    ensures r.Keys == m.Keys
    ensures r[token].userId == m[token].userId && IsRedeemed(r[token])
    ensures forall k :: k in m && k != token ==> r[k] == m[k]
  {
    m[token := m[token].(redeemedAt := Some(now))]
  }

  /** Tokens are single use: once redeemed, a token can never be redeemed again, and
      redeeming it changes whether no other token can be redeemed. */
  lemma RedeemOnce(m: TokenTable, token: string, now: int, later: int)
    requires Redeemable(m, token, now)
    ensures !Redeemable(Redeem(m, token, now), token, later)
    ensures forall k :: k != token ==> (Redeemable(Redeem(m, token, now), k, later) <==> Redeemable(m, k, later))
  {
  }

  /** Redeeming keeps the table's shape. */
  lemma RedeemKeepsOnePerUser(m: TokenTable, n: nat, token: string, now: int)
    requires OnePerUser(m, n) && token in m
    ensures OnePerUser(Redeem(m, token, now), n)
  {
    var r := Redeem(m, token, now);
    forall k1, k2 | k1 in r && k2 in r && r[k1].userId == r[k2].userId
      ensures k1 == k2
    {
      assert m[k1].userId == r[k1].userId && m[k2].userId == r[k2].userId;
    }
  }

  /** `deleteExpiredTokens(now)`: only tokens that expired before `now` and were never
      redeemed are removed. */
  function SweepExpired(m: TokenTable, now: int): (r: TokenTable)
    ensures forall k :: k in r <==> k in m && !(m[k].expiresAt < now && !IsRedeemed(m[k]))
    ensures forall k :: k in r ==> r[k] == m[k]
  {
    map k | k in m && !(m[k].expiresAt < now && !IsRedeemed(m[k])) :: m[k]
  }

  /** The sweep changes no later answer: a token it removes could not have been redeemed
      from `now` on, and redeemed tokens stay as a record. */
  lemma SweepKeepsAnswers(m: TokenTable, now: int, later: int, token: string)
    requires now <= later
    ensures Redeemable(SweepExpired(m, now), token, later) <==> Redeemable(m, token, later)
    ensures token in m && IsRedeemed(m[token]) ==> token in SweepExpired(m, now)
  {
  }

  /** The sweep keeps the table's shape. */
  lemma SweepKeepsOnePerUser(m: TokenTable, n: nat, now: int)
    requires OnePerUser(m, n)
    ensures OnePerUser(SweepExpired(m, now), n)
  {
  }

  /** The emails the service hands to `EmailService`. */
  datatype Email =
    | VerificationEmail(to: string, username: string, token: string)
    | PasswordResetEmail(to: string, username: string, token: string)
    | ProviderVerificationEmail(to: string, username: string, licenseNumber: string)

  /** The two kinds of `java.util.Set` the service puts in a user: `Set.of(..)` refuses
      every change with an `UnsupportedOperationException` that has no message, a
      `HashSet` accepts it. */
  datatype JavaSet<T> = SetOf(elements: set<T>) | HashSet(elements: set<T>)

  /** `set.add(x)`. */
  function SetAdd<T>(s: JavaSet<T>, x: T): (r: Result<JavaSet<T>, AppError>)
    ensures r.Ok? <==> s.HashSet?
    ensures r.Ok? ==> r.value.elements == s.elements + {x} && r.value.HashSet?
    ensures r.Err? ==> r.error == Runtime(None)
  {
    match s
    case SetOf(_) => Err(Runtime(None))
    case HashSet(e) => Ok(HashSet(e + {x}))
  }

  /** The pair of tokens `refreshToken` answers with. */
  datatype TokenPair = TokenPair(accessToken: string, refreshToken: string)

  /** `refreshToken(refreshToken)`: a valid refresh token buys a new access token for its
      subject, and comes back unchanged; anything else is an invalid refresh token. */
  function RefreshToken(s: JwtService, refreshToken: string, now: int): (r: Result<TokenPair, AppError>)
    requires Configured(s)
    ensures r.Ok? <==> ValidateToken(s, refreshToken, now) && IsRefreshToken(s, refreshToken, now) == Ok(true)
    ensures r.Err? ==> r.error == InvalidToken("refresh", "Invalid or expired refresh token")
    ensures r.Ok? ==> r.value.refreshToken == refreshToken &&
                      r.value.accessToken == GenerateAccessToken(s, s.codec.decode(refreshToken).value.claims.subject, now)
  {
    if !ValidateToken(s, refreshToken, now) || IsRefreshToken(s, refreshToken, now) != Ok(true) then
      Err(InvalidToken("refresh", "Invalid or expired refresh token"))
    else
      var username := GetUsernameFromToken(s, refreshToken, now).value;
      Ok(TokenPair(GenerateAccessToken(s, username, now), refreshToken))
  }

  /** A refresh token the service issued, used while it lives, gives an access token for the
      same user that is valid and of access type from `now` until its own expiry. */
  lemma RefreshRoundTrip(s: JwtService, username: string, issued: int, now: int, later: int)
    requires Configured(s) && Lossless(s.codec)
    requires issued <= now <= issued + s.refreshExpiration
    requires now <= later <= now + s.jwtExpiration
    ensures var t := GenerateRefreshToken(s, username, issued);
      RefreshToken(s, t, now).Ok? &&
      RefreshToken(s, t, now).value.refreshToken == t &&
      GetUsernameFromToken(s, RefreshToken(s, t, now).value.accessToken, later) == Ok(username) &&
      IsAccessToken(s, RefreshToken(s, t, now).value.accessToken, later) == Ok(true)
  {
    RefreshTokenRoundTrip(s, username, issued, now);
    AccessTokenRoundTrip(s, username, now, later);
  }

  /** An access token cannot be used to refresh. */
  lemma AccessTokenCannotRefresh(s: JwtService, username: string, issued: int, now: int)
    requires Configured(s) && Lossless(s.codec)
    ensures RefreshToken(s, GenerateAccessToken(s, username, issued), now).Err?
  {
    var t := GenerateAccessToken(s, username, issued);
    if ValidateToken(s, t, now) {
      assert GetTokenType(s, t, now).value == Some(AccessType);
    }
  }

  class AuthenticationService {
    var users: UserTable
    var verificationTokens: TokenTable
    var resetTokens: TokenTable
    /** The emails sent so far, in order. */
    var outbox: seq<Email>
    /** `roleRepository.findByName`. */
    const roleCatalog: map<string, Role>
    /** Whether an `EmailService` bean was injected. */
    const emailEnabled: bool
    /** `medassist.app.verification-token-expiration` and `reset-token-expiration`, in ms. */
    const verificationTokenExpiration: int
    const resetTokenExpiration: int

    ghost predicate Valid()
      reads this
    {
      WellFormed(users) && OnePerUser(verificationTokens, |users|) && OnePerUser(resetTokens, |users|)
    }

    constructor (roleCatalog: map<string, Role>, emailEnabled: bool, verificationTokenExpiration: int, resetTokenExpiration: int)
      ensures Valid()
      ensures users == [] && verificationTokens == map[] && resetTokens == map[] && outbox == []
      ensures this.roleCatalog == roleCatalog && this.emailEnabled == emailEnabled
      ensures this.verificationTokenExpiration == verificationTokenExpiration && this.resetTokenExpiration == resetTokenExpiration
    {
      users := [];
      verificationTokens := map[];
      resetTokens := map[];
      outbox := [];
      this.roleCatalog := roleCatalog;
      this.emailEnabled := emailEnabled;
      this.verificationTokenExpiration := verificationTokenExpiration;
      this.resetTokenExpiration := resetTokenExpiration;
    }

    /** `generateAndSendVerificationToken(user)`: replace the user's verification token by a
        new one and, when mail is enabled, send it. */
    method GenerateAndSendVerificationToken(user: User, token: string, now: int)
      requires Valid() && 1 <= user.id <= |users|
      requires token !in verificationTokens
      modifies this
      ensures Valid()
      ensures verificationTokens == Issue(old(verificationTokens), user.id, token, ExpiryAfter(now, verificationTokenExpiration))
      ensures outbox == old(outbox) + (if emailEnabled then [VerificationEmail(user.email, user.username, token)] else [])
      ensures users == old(users) && resetTokens == old(resetTokens)
    {
      IssueKeepsOnePerUser(verificationTokens, |users|, user.id, token, ExpiryAfter(now, verificationTokenExpiration));
      verificationTokens := Issue(verificationTokens, user.id, token, ExpiryAfter(now, verificationTokenExpiration));
      if emailEnabled {
        outbox := outbox + [VerificationEmail(user.email, user.username, token)];
      }
    }

    /** `registerUser`: the checks fail as `RegistrationError` says and change nothing;
        otherwise the new user is verified, enabled, not a provider and holds exactly the
        `USER` role. */
    method RegisterUser(username: string, email: string, password: string, firstName: string, lastName: string,
                        phoneNumber: Option<string>, salt: string, token: string, now: int)
      returns (r: Result<User, AppError>)
      requires Valid() && token !in verificationTokens
      modifies this
      ensures Valid()
      ensures r.Err? <==> RegistrationError(old(users), roleCatalog, username, email).Some?
      ensures r.Err? ==>
                r.error == RegistrationError(old(users), roleCatalog, username, email).value &&
                users == old(users) && verificationTokens == old(verificationTokens) && outbox == old(outbox)
      ensures r.Ok? ==>
                var u := r.value;
                users == old(users) + [u] && u.id == |old(users)| + 1 &&
                NewAccount(u, username, email, password, salt, firstName, lastName, phoneNumber) &&
                !u.isHealthcareProvider && !u.providerVerified &&
                u.licenseNumber == None && u.medicalSpecialty == None && u.hospitalAffiliation == None &&
                u.roles == {roleCatalog[UserRoleName]}
      ensures r.Ok? ==>
                verificationTokens == (if emailEnabled then Issue(old(verificationTokens), r.value.id, token, ExpiryAfter(now, verificationTokenExpiration))
                                       else old(verificationTokens)) &&
                outbox == old(outbox) + (if emailEnabled then [VerificationEmail(email, username, token)] else [])
      ensures resetTokens == old(resetTokens)
    {
      if ExistsByUsername(users, username) {
        return Err(AlreadyRegistered("Username", username));
      }
      if ExistsByEmail(users, email) {
        return Err(AlreadyRegistered("Email", email));
      }
      if UserRoleName !in roleCatalog {
        return Err(NotFoundWith("Role", "name", UserRoleName));
      }
      var user := NewUser(username, email, Encode(password, salt), firstName, lastName, phoneNumber);
      user := user.(isVerified := true, isEnabled := true, isHealthcareProvider := false,
                    roles := {roleCatalog[UserRoleName]});
      // `save` assigns the next generated key.
      user := user.(id := |users| + 1);
      AppendKeepsWellFormed(users, user);
      users := users + [user];
      if emailEnabled {
        GenerateAndSendVerificationToken(user, token, now);
      }
      r := Ok(user);
    }

    /** `registerHealthcareProvider` as written: the user `registerUser` saved holds the
        immutable `Set.of(userRole)`, so once every check passes, adding the provider role
        throws, and the whole registration rolls back. Only the verification email that
        `registerUser` sent stays sent. */
    method RegisterHealthcareProviderAsWritten(username: string, email: string, password: string, firstName: string,
                                               lastName: string, phoneNumber: Option<string>, licenseNumber: string,
                                               medicalSpecialty: Option<string>, hospitalAffiliation: Option<string>,
                                               salt: string, token: string, now: int)
      returns (r: Result<User, AppError>)
      requires Valid() && token !in verificationTokens
      modifies this
      ensures Valid()
      ensures r == Err(ProviderRegistrationError(old(users), roleCatalog, username, email, licenseNumber).GetOr(Runtime(None)))
      ensures users == old(users) && verificationTokens == old(verificationTokens) && resetTokens == old(resetTokens)
      ensures outbox == old(outbox) + (if emailEnabled && ReachesRegistration(old(users), roleCatalog, username, email, licenseNumber)
                                       then [VerificationEmail(email, username, token)] else [])
    {
      if ExistsByLicenseNumber(users, licenseNumber) {
        return Err(AlreadyRegistered("License number", licenseNumber));
      }
      var savedUsers, savedTokens := users, verificationTokens;
      var registered := RegisterUser(username, email, password, firstName, lastName, phoneNumber, salt, token, now);
      if registered.Err? {
        return Err(registered.error);
      }
      var user := registered.value;
      user := user.(isHealthcareProvider := true, licenseNumber := Some(licenseNumber),
                    medicalSpecialty := medicalSpecialty, hospitalAffiliation := hospitalAffiliation,
                    providerVerified := false);
      if ProviderRoleName !in roleCatalog {
        users, verificationTokens := savedUsers, savedTokens;
        return Err(NotFoundWith("Role", "name", ProviderRoleName));
      }
      // The role set is the one built with `Set.of` in `registerUser`; it refuses the
      // change, so nothing after line 117 runs.
      var added := SetAdd(SetOf(user.roles), roleCatalog[ProviderRoleName]);
      users, verificationTokens := savedUsers, savedTokens;
      r := Err(added.error);
    }

    /** `registerHealthcareProvider` as intended, with a mutable role set: the checks fail as
        `ProviderRegistrationError` says and leave the tables unchanged; otherwise the saved
        user is a provider, not yet approved, holding the `USER` and `HEALTHCARE_PROVIDER`
        roles. */
    method RegisterHealthcareProvider(username: string, email: string, password: string, firstName: string,
                                      lastName: string, phoneNumber: Option<string>, licenseNumber: string,
                                      medicalSpecialty: Option<string>, hospitalAffiliation: Option<string>,
                                      salt: string, token: string, now: int)
      returns (r: Result<User, AppError>)
      requires Valid() && token !in verificationTokens
      modifies this
      ensures Valid()
      ensures r.Err? <==> ProviderRegistrationError(old(users), roleCatalog, username, email, licenseNumber).Some?
      ensures r.Err? ==>
                r.error == ProviderRegistrationError(old(users), roleCatalog, username, email, licenseNumber).value &&
                users == old(users) && verificationTokens == old(verificationTokens) &&
                outbox == old(outbox) + (if emailEnabled && ReachesRegistration(old(users), roleCatalog, username, email, licenseNumber)
                                         then [VerificationEmail(email, username, token)] else [])
      ensures r.Ok? ==>
                var u := r.value;
                users == old(users) + [u] && u.id == |old(users)| + 1 &&
                NewAccount(u, username, email, password, salt, firstName, lastName, phoneNumber) &&
                u.isHealthcareProvider && !u.providerVerified &&
                u.licenseNumber == Some(licenseNumber) && u.medicalSpecialty == medicalSpecialty &&
                u.hospitalAffiliation == hospitalAffiliation &&
                u.roles == {roleCatalog[UserRoleName], roleCatalog[ProviderRoleName]}
      ensures r.Ok? ==>
                verificationTokens == (if emailEnabled then Issue(old(verificationTokens), r.value.id, token, ExpiryAfter(now, verificationTokenExpiration))
                                       else old(verificationTokens)) &&
                outbox == old(outbox) + (if emailEnabled then [VerificationEmail(email, username, token),
                                                               ProviderVerificationEmail(email, username, licenseNumber)] else [])
      ensures resetTokens == old(resetTokens)
    {
      if ExistsByLicenseNumber(users, licenseNumber) {
        return Err(AlreadyRegistered("License number", licenseNumber));
      }
      var savedUsers, savedTokens := users, verificationTokens;
      var registered := RegisterUser(username, email, password, firstName, lastName, phoneNumber, salt, token, now);
      if registered.Err? {
        return Err(registered.error);
      }
      r := CompleteProvider(savedUsers, savedTokens, registered.value, licenseNumber, medicalSpecialty, hospitalAffiliation);
    }

    /** The end of `registerHealthcareProvider` once the role set is mutable, on the user
        `registerUser` just saved: the provider details are set, and either the provider
        role is missing and the registration rolls back to `savedUsers` and `savedTokens`,
        or the role is added, the user is saved again and the provider email goes out. */
    method CompleteProvider(savedUsers: UserTable, savedTokens: TokenTable, registered: User, licenseNumber: string,
                            medicalSpecialty: Option<string>, hospitalAffiliation: Option<string>)
      returns (r: Result<User, AppError>)
      requires Valid() && WellFormed(savedUsers) && OnePerUser(savedTokens, |savedUsers|) && OnePerUser(resetTokens, |savedUsers|)
      requires users == savedUsers + [registered] && registered.id == |users|
      modifies this
      ensures Valid()
      ensures r.Err? <==> ProviderRoleName !in roleCatalog
      ensures r.Err? ==> r.error == NotFoundWith("Role", "name", ProviderRoleName) &&
                         users == savedUsers && verificationTokens == savedTokens && outbox == old(outbox)
      ensures r.Ok? ==>
                r.value == registered.(isHealthcareProvider := true, licenseNumber := Some(licenseNumber),
                                       medicalSpecialty := medicalSpecialty, hospitalAffiliation := hospitalAffiliation,
                                       providerVerified := false,
                                       roles := registered.roles + {roleCatalog[ProviderRoleName]}) &&
                users == savedUsers + [r.value] && verificationTokens == old(verificationTokens) &&
                outbox == old(outbox) + (if emailEnabled then [ProviderVerificationEmail(registered.email, registered.username, licenseNumber)] else [])
      ensures resetTokens == old(resetTokens)
    {
      var user := registered.(isHealthcareProvider := true, licenseNumber := Some(licenseNumber),
                              medicalSpecialty := medicalSpecialty, hospitalAffiliation := hospitalAffiliation,
                              providerVerified := false);
      if ProviderRoleName !in roleCatalog {
        users, verificationTokens := savedUsers, savedTokens;
        return Err(NotFoundWith("Role", "name", ProviderRoleName));
      }
      var added := SetAdd(HashSet(user.roles), roleCatalog[ProviderRoleName]);
      var saved := user.(roles := added.value.elements);
      ReplaceKeepsWellFormed(users, user.id - 1, saved);
      assert users[user.id - 1 := saved] == savedUsers + [saved];
      users := users[user.id - 1 := saved];
      if emailEnabled {
        outbox := outbox + [ProviderVerificationEmail(user.email, user.username, licenseNumber)];
      }
      r := Ok(saved);
    }

    /** `verifyEmail(token)`: false, changing nothing, for an unknown, expired or already
        verified token; otherwise the token and its user become verified. */
    method VerifyEmail(token: string, now: int) returns (verified: bool)
      requires Valid()
      modifies this
      ensures Valid()
      ensures verified <==> Redeemable(old(verificationTokens), token, now)
      ensures !verified ==> verificationTokens == old(verificationTokens) && users == old(users)
      ensures verified ==>
                verificationTokens == Redeem(old(verificationTokens), token, now) &&
                var i := old(verificationTokens)[token].userId - 1;
                users == old(users)[i := old(users)[i].(isVerified := true)]
      ensures resetTokens == old(resetTokens) && outbox == old(outbox)
    {
      if token !in verificationTokens {
        return false;
      }
      var entity := verificationTokens[token];
      if IsExpired(entity, now) || IsRedeemed(entity) {
        return false;
      }
      RedeemKeepsOnePerUser(verificationTokens, |users|, token, now);
      verificationTokens := Redeem(verificationTokens, token, now);
      var i := entity.userId - 1;
      ReplaceKeepsWellFormed(users, i, users[i].(isVerified := true));
      users := users[i := users[i].(isVerified := true)];
      assert |users| == |old(users)|;
      verified := true;
    }

    /** `requestPasswordReset(email)`: only a verified user can ask; that user's reset token
        is replaced by a new one, which is mailed when mail is enabled. */
    method RequestPasswordReset(email: string, token: string, now: int) returns (r: Result<(), AppError>)
      requires Valid() && token !in resetTokens
      modifies this
      ensures Valid()
      ensures var i := VerifiedIndex(old(users), email);
              (r.Ok? <==> i >= 0) &&
              (r.Ok? ==> resetTokens == Issue(old(resetTokens), i + 1, token, ExpiryAfter(now, resetTokenExpiration)) &&
                         outbox == old(outbox) + (if emailEnabled then [PasswordResetEmail(email, old(users)[i].username, token)] else []))
      ensures r.Err? ==> r.error == NotFoundWith("User", "email", email) && resetTokens == old(resetTokens) && outbox == old(outbox)
      ensures users == old(users) && verificationTokens == old(verificationTokens)
    {
      var found := FindVerifiedByEmail(users, email);
      if found.Err? || found.value.None? {
        return Err(NotFoundWith("User", "email", email));
      }
      var user := found.value.value;
      IssueKeepsOnePerUser(resetTokens, |users|, user.id, token, ExpiryAfter(now, resetTokenExpiration));
      resetTokens := Issue(resetTokens, user.id, token, ExpiryAfter(now, resetTokenExpiration));
      if emailEnabled {
        outbox := outbox + [PasswordResetEmail(user.email, user.username, token)];
      }
      r := Ok(());
    }

    /** `resetPassword(token, newPassword)`: false, changing nothing, for an unknown, expired
        or used token; otherwise the token is used up and its user gets the new password. */
    method ResetPassword(token: string, newPassword: string, salt: string, now: int) returns (reset: bool)
      requires Valid()
      modifies this
      ensures Valid()
      ensures reset <==> Redeemable(old(resetTokens), token, now)
      ensures !reset ==> resetTokens == old(resetTokens) && users == old(users)
      ensures reset ==>
                resetTokens == Redeem(old(resetTokens), token, now) &&
                var i := old(resetTokens)[token].userId - 1;
                users == old(users)[i := old(users)[i].(password := Encode(newPassword, salt))]
      ensures verificationTokens == old(verificationTokens) && outbox == old(outbox)
    {
      if token !in resetTokens {
        return false;
      }
      var entity := resetTokens[token];
      if IsExpired(entity, now) || IsRedeemed(entity) {
        return false;
      }
      RedeemKeepsOnePerUser(resetTokens, |users|, token, now);
      resetTokens := Redeem(resetTokens, token, now);
      var i := entity.userId - 1;
      ReplaceKeepsWellFormed(users, i, users[i].(password := Encode(newPassword, salt)));
      users := users[i := users[i].(password := Encode(newPassword, salt))];
      assert |users| == |old(users)|;
      reset := true;
    }

    /** `verifyHealthcareProvider(userId, approved)`: only a provider can be approved or
        refused; approval also grants the `VERIFIED_HEALTHCARE_PROVIDER` role, refusal takes
        no role away. */
    method VerifyHealthcareProvider(userId: int, approved: bool) returns (r: Result<(), AppError>)
      requires Valid()
      modifies this
      ensures Valid()
      ensures !(1 <= userId <= |old(users)|) ==> r == Err(NotFoundWith("User", "id", IntToString(userId)))
      ensures 1 <= userId <= |old(users)| && !old(users)[userId - 1].isHealthcareProvider ==>
                r == Err(BusinessValidation("User is not a healthcare provider", "NOT_HEALTHCARE_PROVIDER"))
      ensures 1 <= userId <= |old(users)| && old(users)[userId - 1].isHealthcareProvider && approved &&
              VerifiedProviderRoleName !in roleCatalog ==>
                r == Err(NotFoundWith("Role", "name", VerifiedProviderRoleName))
      ensures r.Err? ==> users == old(users)
      ensures r.Ok? ==>
                1 <= userId <= |old(users)| && old(users)[userId - 1].isHealthcareProvider &&
                (approved ==> VerifiedProviderRoleName in roleCatalog) &&
                var u := old(users)[userId - 1];
                users == old(users)[userId - 1 := u.(providerVerified := approved,
                                                     roles := if approved then u.roles + {roleCatalog[VerifiedProviderRoleName]} else u.roles)]
      ensures verificationTokens == old(verificationTokens) && resetTokens == old(resetTokens) && outbox == old(outbox)
    {
      var found := FindById(users, userId);
      if found.None? {
        return Err(NotFoundWith("User", "id", IntToString(userId)));
      }
      var user := found.value;
      if !user.isHealthcareProvider {
        return Err(BusinessValidation("User is not a healthcare provider", "NOT_HEALTHCARE_PROVIDER"));
      }
      user := user.(providerVerified := approved);
      if approved {
        if VerifiedProviderRoleName !in roleCatalog {
          return Err(NotFoundWith("Role", "name", VerifiedProviderRoleName));
        }
        user := user.(roles := user.roles + {roleCatalog[VerifiedProviderRoleName]});
      }
      ReplaceKeepsWellFormed(users, userId - 1, user);
      users := users[userId - 1 := user];
      r := Ok(());
    }

    /** `resendVerificationEmail(email)`: an unknown email is not found, a verified user is
        refused; otherwise a new verification token replaces the old one and is mailed, which
        happens only when mail is enabled. */
    method ResendVerificationEmail(email: string, token: string, now: int) returns (r: Result<(), AppError>)
      requires Valid() && token !in verificationTokens
      modifies this
      ensures Valid()
      ensures var i := EmailIndex(old(users), email);
              (i < 0 ==> r == Err(NotFoundWith("User", "email", email))) &&
              (i >= 0 && old(users)[i].isVerified ==> r == Err(BusinessValidation("Email is already verified", "EMAIL_ALREADY_VERIFIED"))) &&
              (r.Ok? <==> i >= 0 && !old(users)[i].isVerified) &&
              (r.Ok? ==> verificationTokens == (if emailEnabled then Issue(old(verificationTokens), i + 1, token, ExpiryAfter(now, verificationTokenExpiration))
                                                else old(verificationTokens)) &&
                         outbox == old(outbox) + (if emailEnabled then [VerificationEmail(email, old(users)[i].username, token)] else []))
      ensures r.Err? ==> verificationTokens == old(verificationTokens) && outbox == old(outbox)
      ensures users == old(users) && resetTokens == old(resetTokens)
    {
      var found := FindByEmail(users, email);
      if found.Err? || found.value.None? {
        return Err(NotFoundWith("User", "email", email));
      }
      var user := found.value.value;
      if user.isVerified {
        return Err(BusinessValidation("Email is already verified", "EMAIL_ALREADY_VERIFIED"));
      }
      if emailEnabled {
        GenerateAndSendVerificationToken(user, token, now);
      }
      r := Ok(());
    }

    /** `changePassword(username, currentPassword, newPassword)`: the current password must
        match; otherwise nothing changes. */
    method ChangePassword(username: string, currentPassword: string, newPassword: string, salt: string)
      returns (r: Result<(), AppError>)
      requires Valid()
      modifies this
      ensures Valid()
      ensures var i := UsernameIndex(old(users), username);
              (i < 0 ==> r == Err(NotFoundWith("User", "username", username))) &&
              (i >= 0 && !Matches(currentPassword, old(users)[i].password) ==> r == Err(InvalidCredentials("Current password is incorrect"))) &&
              (r.Ok? <==> i >= 0 && Matches(currentPassword, old(users)[i].password)) &&
              (r.Ok? ==> users == old(users)[i := old(users)[i].(password := Encode(newPassword, salt))])
      ensures r.Err? ==> users == old(users)
      ensures verificationTokens == old(verificationTokens) && resetTokens == old(resetTokens) && outbox == old(outbox)
    {
      var found := FindByUsername(users, username);
      if found.Err? || found.value.None? {
        return Err(NotFoundWith("User", "username", username));
      }
      var user := found.value.value;
      if !Matches(currentPassword, user.password) {
        return Err(InvalidCredentials("Current password is incorrect"));
      }
      // `save` writes the row with the user's key.
      var saved := user.(password := Encode(newPassword, salt));
      ReplaceKeepsWellFormed(users, user.id - 1, saved);
      users := users[user.id - 1 := saved];
      r := Ok(());
    }

    /** `VerificationTokenRepository.deleteExpiredTokens(now)`. */
    method DeleteExpiredVerificationTokens(now: int)
      requires Valid()
      modifies this
      ensures Valid()
      ensures verificationTokens == SweepExpired(old(verificationTokens), now)
      ensures users == old(users) && resetTokens == old(resetTokens) && outbox == old(outbox)
    {
      SweepKeepsOnePerUser(verificationTokens, |users|, now);
      verificationTokens := SweepExpired(verificationTokens, now);
    }

    /** `PasswordResetTokenRepository.deleteExpiredTokens(now)`. */
    method DeleteExpiredResetTokens(now: int)
      requires Valid()
      modifies this
      ensures Valid()
      ensures resetTokens == SweepExpired(old(resetTokens), now)
      ensures users == old(users) && verificationTokens == old(verificationTokens) && outbox == old(outbox)
    {
      SweepKeepsOnePerUser(resetTokens, |users|, now);
      resetTokens := SweepExpired(resetTokens, now);
    }
  }
}
