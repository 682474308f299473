/** The client's `AuthViewModel`: four screen states (session, login form, registration
    form, forgot-password form), each replaced by a copy with some fields changed. Every
    action is a function on the four states together; the view model applies it. */
module AuthScreens {
  import opened Wrappers
  import opened ClientModels

  datatype AuthUiState = AuthUiState(
    isLoading: bool,
    isLoggedIn: bool,
    user: Option<User>,
    error: Option<string>,
    isSuccess: bool)

  datatype LoginUiState = LoginUiState(
    usernameOrEmail: string,
    password: string,
    isLoading: bool,
    error: Option<string>,
    isSuccess: bool,
    showPassword: bool)

  datatype RegisterUiState = RegisterUiState(
    username: string,
    email: string,
    password: string,
    confirmPassword: string,
    firstName: string,
    lastName: string,
    phoneNumber: string,
    isLoading: bool,
    error: Option<string>,
    isSuccess: bool,
    showPassword: bool,
    showConfirmPassword: bool,
    passwordsMatch: bool)

  datatype ForgotPasswordUiState = ForgotPasswordUiState(
    email: string,
    isLoading: bool,
    error: Option<string>,
    isSuccess: bool)

  /** The default arguments of the four state classes. */
  const DefaultAuth := AuthUiState(false, false, None, None, false)
  const DefaultLogin := LoginUiState("", "", false, None, false, false)
  const DefaultRegister := RegisterUiState("", "", "", "", "", "", "", false, None, false, false, false, true)
  const DefaultForgotPassword := ForgotPasswordUiState("", false, None, false)

  datatype Screens = Screens(
    auth: AuthUiState,
    login: LoginUiState,
    register: RegisterUiState,
    forgotPassword: ForgotPasswordUiState)

  const InitialScreens := Screens(DefaultAuth, DefaultLogin, DefaultRegister, DefaultForgotPassword)

  // The login form.

  /** The text field of the login form a name selects, if any. */
  function LoginText(s: LoginUiState, name: string): Option<string>
  {
    match name
    case "usernameOrEmail" => Some(s.usernameOrEmail)
    case "password" => Some(s.password)
    case _ => None
  }

  /** `updateLoginField(field, value)`: the named text field set, every other field kept; an
      unknown name changes nothing. */
  function LoginFieldUpdated(s: LoginUiState, field: string, value: string): (r: LoginUiState)
    ensures forall n :: LoginText(r, n) == if n == field && LoginText(s, n).Some? then Some(value) else LoginText(s, n)
    ensures r.isLoading == s.isLoading && r.error == s.error && r.isSuccess == s.isSuccess && r.showPassword == s.showPassword
    ensures LoginText(s, field).None? ==> r == s
  {
    match field
    case "usernameOrEmail" => s.(usernameOrEmail := value)
    case "password" => s.(password := value)
    case _ => s
  }

  /** Writing a field twice keeps the second value, and writes to different fields
      commute. */
  lemma LoginUpdatesCompose(s: LoginUiState, f1: string, v1: string, f2: string, v2: string)
    ensures f1 == f2 ==> LoginFieldUpdated(LoginFieldUpdated(s, f1, v1), f2, v2) == LoginFieldUpdated(s, f2, v2)
    ensures f1 != f2 ==> LoginFieldUpdated(LoginFieldUpdated(s, f1, v1), f2, v2) ==
                         LoginFieldUpdated(LoginFieldUpdated(s, f2, v2), f1, v1)
  {
  }

  // The registration form.

  /** The text field of the registration form a name selects, if any. */
  function RegisterText(s: RegisterUiState, name: string): Option<string>
  {
    match name
    case "username" => Some(s.username)
    case "email" => Some(s.email)
    case "password" => Some(s.password)
    case "confirmPassword" => Some(s.confirmPassword)
    case "firstName" => Some(s.firstName)
    case "lastName" => Some(s.lastName)
    case "phoneNumber" => Some(s.phoneNumber)
    case _ => None
  }

  /** The fields no text update touches. */
  predicate SameFlags(a: RegisterUiState, b: RegisterUiState)
  {
    a.isLoading == b.isLoading && a.error == b.error && a.isSuccess == b.isSuccess &&
    a.showPassword == b.showPassword && a.showConfirmPassword == b.showConfirmPassword
  }

  /** `updateRegisterField(field, value)` as written: the named text field set, and only an
      edit of the confirmation recomputes `passwordsMatch`, against the current password;
      an unknown name changes nothing. */
  function RegisterFieldUpdatedAsWritten(s: RegisterUiState, field: string, value: string): (r: RegisterUiState)
    ensures forall n :: RegisterText(r, n) == if n == field && RegisterText(s, n).Some? then Some(value) else RegisterText(s, n)
    ensures SameFlags(s, r)
    ensures field == "confirmPassword" ==> r.passwordsMatch == (value == s.password)
    ensures field != "confirmPassword" ==> r.passwordsMatch == s.passwordsMatch
    ensures RegisterText(s, field).None? ==> r == s
  {
    match field
    case "username" => s.(username := value)
    case "email" => s.(email := value)
    case "password" => s.(password := value)
    case "confirmPassword" => s.(confirmPassword := value, passwordsMatch := value == s.password)
    case "firstName" => s.(firstName := value)
    case "lastName" => s.(lastName := value)
    case "phoneNumber" => s.(phoneNumber := value)
    case _ => s
  }

  /** `passwordsMatch` says exactly whether the two password fields agree. */
  predicate MatchIsExact(s: RegisterUiState)
  {
    s.passwordsMatch <==> s.password == s.confirmPassword
  }

  /** As written, editing the password after a matching confirmation leaves
      `passwordsMatch` set although the two fields now differ. */
  lemma StaleMatchAsWritten()
    ensures var s := RegisterFieldUpdatedAsWritten(
                       RegisterFieldUpdatedAsWritten(
                         RegisterFieldUpdatedAsWritten(DefaultRegister, "password", "Secret123"),
                         "confirmPassword", "Secret123"),
                       "password", "Other4567");
            s.passwordsMatch && s.password != s.confirmPassword && !MatchIsExact(s)
  {
  }

  /** `updateRegisterField(field, value)` as intended: an edit of either password field
      recomputes `passwordsMatch` from the two fields as they now are. */
  function RegisterFieldUpdated(s: RegisterUiState, field: string, value: string): (r: RegisterUiState)
    ensures forall n :: RegisterText(r, n) == if n == field && RegisterText(s, n).Some? then Some(value) else RegisterText(s, n)
    ensures SameFlags(s, r)
    ensures field in {"password", "confirmPassword"} ==> r.passwordsMatch == (r.password == r.confirmPassword)
    ensures field !in {"password", "confirmPassword"} ==> r.passwordsMatch == s.passwordsMatch
    ensures RegisterText(s, field).None? ==> r == s
  {
    match field
    case "password" => s.(password := value, passwordsMatch := s.confirmPassword == value)
    case "confirmPassword" => s.(confirmPassword := value, passwordsMatch := value == s.password)
    case _ => RegisterFieldUpdatedAsWritten(s, field, value)
  }

  /** The intended update keeps `passwordsMatch` exact, and the default form starts exact,
      so the flag is exact in every state the registration form reaches. */
  lemma MatchStaysExact(s: RegisterUiState, field: string, value: string)
    ensures MatchIsExact(DefaultRegister)
    ensures MatchIsExact(s) ==> MatchIsExact(RegisterFieldUpdated(s, field, value))
  {
  }

  /** The two updates differ only in the flag, and only on a password edit. */
  lemma IntendedDiffersOnlyInFlag(s: RegisterUiState, field: string, value: string)
    ensures field != "password" ==> RegisterFieldUpdated(s, field, value) == RegisterFieldUpdatedAsWritten(s, field, value)
    ensures RegisterFieldUpdated(s, field, value) ==
            RegisterFieldUpdatedAsWritten(s, field, value).(passwordsMatch := RegisterFieldUpdated(s, field, value).passwordsMatch)
  {
  }

  // Visibility toggles, clearing, logout.

  /** `togglePasswordVisibility(isLogin)`: the login form's flag or the registration form's
      flips, and nothing else changes. */
  function PasswordVisibilityToggled(a: Screens, isLogin: bool): (b: Screens)
    ensures isLogin ==> b.login.showPassword == !a.login.showPassword && b.register == a.register
    ensures !isLogin ==> b.register.showPassword == !a.register.showPassword && b.login == a.login
    ensures b.auth == a.auth && b.forgotPassword == a.forgotPassword
    ensures b.login.(showPassword := a.login.showPassword) == a.login
    ensures b.register.(showPassword := a.register.showPassword) == a.register
  {
    if isLogin then a.(login := a.login.(showPassword := !a.login.showPassword))
    else a.(register := a.register.(showPassword := !a.register.showPassword))
  }

  /** `toggleConfirmPasswordVisibility()`: only the registration form's confirmation flag
      flips. */
  function ConfirmVisibilityToggled(a: Screens): (b: Screens)
    ensures b.register.showConfirmPassword == !a.register.showConfirmPassword
    ensures b.register.(showConfirmPassword := a.register.showConfirmPassword) == a.register
    ensures b.auth == a.auth && b.login == a.login && b.forgotPassword == a.forgotPassword
  {
    a.(register := a.register.(showConfirmPassword := !a.register.showConfirmPassword))
  }

  /** Toggling twice restores the screens. */
  lemma TogglesAreInvolutions(a: Screens, isLogin: bool)
    ensures PasswordVisibilityToggled(PasswordVisibilityToggled(a, isLogin), isLogin) == a
    ensures ConfirmVisibilityToggled(ConfirmVisibilityToggled(a)) == a
  {
  }

  /** `clearError()`: no state shows an error, and nothing else changes. */
  function ErrorsCleared(a: Screens): (b: Screens)
    ensures b.auth.error.None? && b.login.error.None? && b.register.error.None? && b.forgotPassword.error.None?
    ensures b.auth.(error := a.auth.error) == a.auth && b.login.(error := a.login.error) == a.login
    ensures b.register.(error := a.register.error) == a.register
    ensures b.forgotPassword.(error := a.forgotPassword.error) == a.forgotPassword
  {
    Screens(a.auth.(error := None), a.login.(error := None), a.register.(error := None),
            a.forgotPassword.(error := None))
  }

  /** `clearSuccess()`: the three forms are no longer marked successful; the session state
      is left as it is. */
  function SuccessCleared(a: Screens): (b: Screens)
    ensures !b.login.isSuccess && !b.register.isSuccess && !b.forgotPassword.isSuccess
    ensures b.auth == a.auth
    ensures b.login.(isSuccess := a.login.isSuccess) == a.login
    ensures b.register.(isSuccess := a.register.isSuccess) == a.register
    ensures b.forgotPassword.(isSuccess := a.forgotPassword.isSuccess) == a.forgotPassword
  {
    a.(login := a.login.(isSuccess := false), register := a.register.(isSuccess := false),
       forgotPassword := a.forgotPassword.(isSuccess := false))
  }

  /** Clearing is idempotent, and the two clears do not interfere. */
  lemma ClearsAreIdempotent(a: Screens)
    ensures ErrorsCleared(ErrorsCleared(a)) == ErrorsCleared(a)
    ensures SuccessCleared(SuccessCleared(a)) == SuccessCleared(a)
  {
  }

  lemma ClearsCommute(a: Screens)
    ensures ErrorsCleared(SuccessCleared(a)) == SuccessCleared(ErrorsCleared(a))
  {
  }

  /** One emission of the logout flow: loading marks the session busy, success resets the
      session, login and registration states (logged out), an error is shown on the session
      state. The forgot-password state is never touched. */
  function AfterLogoutEmission<T>(a: Screens, r: Resource<T>): (b: Screens)
    ensures b.forgotPassword == a.forgotPassword
    ensures r.Loading? ==> b == a.(auth := a.auth.(isLoading := true))
    ensures r.Success? ==> b.auth == DefaultAuth && !b.auth.isLoggedIn && b.login == DefaultLogin && b.register == DefaultRegister
    ensures r.Error? ==> b == a.(auth := a.auth.(isLoading := false, error := Some(r.message)))
  {
    match r
    case Loading => a.(auth := a.auth.(isLoading := true))
    case Success(_) => Screens(AuthUiState(false, false, None, None, false), DefaultLogin, DefaultRegister, a.forgotPassword)
    case Error(message) => a.(auth := a.auth.(isLoading := false, error := Some(message)))
  }

  /** The logout flow's emissions applied in turn. */
  function AfterLogout<T>(a: Screens, rs: seq<Resource<T>>): Screens
    decreases |rs|
  {
    if |rs| == 0 then a else AfterLogout(AfterLogoutEmission(a, rs[0]), rs[1..])
  }

  lemma {:induction false} AfterLogoutSnoc<T>(a: Screens, rs: seq<Resource<T>>, r: Resource<T>)
    ensures AfterLogout(a, rs + [r]) == AfterLogoutEmission(AfterLogout(a, rs), r)
    decreases |rs|
  {
    if |rs| > 0 {
      assert (rs + [r])[1..] == rs[1..] + [r];
      AfterLogoutSnoc(AfterLogoutEmission(a, rs[0]), rs[1..], r);
    } else {
      assert rs + [r] == [r];
    }
  }

  /** A logout whose last emission is a success leaves the user logged out with fresh login
      and registration forms, whatever came before; the forgot-password state survives. */
  lemma {:induction false} LogoutEndsLoggedOut<T>(a: Screens, rs: seq<Resource<T>>)
    requires |rs| > 0 && rs[|rs| - 1].Success?
    ensures AfterLogout(a, rs) == Screens(DefaultAuth, DefaultLogin, DefaultRegister, a.forgotPassword)
  {
    var init := rs[..|rs| - 1];
    assert rs == init + [rs[|rs| - 1]];
    AfterLogoutSnoc(a, init, rs[|rs| - 1]);
    LogoutKeepsForgotPassword(a, init);
  }

  /** No emission of the logout flow touches the forgot-password state. */
  lemma {:induction false} LogoutKeepsForgotPassword<T>(a: Screens, rs: seq<Resource<T>>)
    ensures AfterLogout(a, rs).forgotPassword == a.forgotPassword
    decreases |rs|
  {
    if |rs| > 0 {
      LogoutKeepsForgotPassword(AfterLogoutEmission(a, rs[0]), rs[1..]);
    }
  }

  class AuthViewModel {
    var authUiState: AuthUiState
    var loginUiState: LoginUiState
    var registerUiState: RegisterUiState
    var forgotPasswordUiState: ForgotPasswordUiState

    /** The four states as one value. */
    function Current(): Screens
      reads this
    {
      Screens(authUiState, loginUiState, registerUiState, forgotPasswordUiState)
    }

    constructor ()
      ensures Current() == InitialScreens
    {
      authUiState := DefaultAuth;
      loginUiState := DefaultLogin;
      registerUiState := DefaultRegister;
      forgotPasswordUiState := DefaultForgotPassword;
    }

    method UpdateLoginField(field: string, value: string)
      modifies this
      ensures Current() == old(Current()).(login := LoginFieldUpdated(old(loginUiState), field, value))
    {
      loginUiState := LoginFieldUpdated(loginUiState, field, value);
    }

    /** `updateRegisterField`, with the password edit recomputing the match flag. */
    method UpdateRegisterField(field: string, value: string)
      modifies this
      ensures Current() == old(Current()).(register := RegisterFieldUpdated(old(registerUiState), field, value))
      ensures MatchIsExact(old(registerUiState)) ==> MatchIsExact(registerUiState)
    {
      MatchStaysExact(registerUiState, field, value);
      registerUiState := RegisterFieldUpdated(registerUiState, field, value);
    }

    method TogglePasswordVisibility(isLogin: bool)
      modifies this
      ensures Current() == PasswordVisibilityToggled(old(Current()), isLogin)
    {
      if isLogin {
        loginUiState := loginUiState.(showPassword := !loginUiState.showPassword);
      } else {
        registerUiState := registerUiState.(showPassword := !registerUiState.showPassword);
      }
    }

    method ToggleConfirmPasswordVisibility()
      modifies this
      ensures Current() == ConfirmVisibilityToggled(old(Current()))
    {
      registerUiState := registerUiState.(showConfirmPassword := !registerUiState.showConfirmPassword);
    }

    method ClearError()
      modifies this
      ensures Current() == ErrorsCleared(old(Current()))
    {
      authUiState := authUiState.(error := None);
      loginUiState := loginUiState.(error := None);
      registerUiState := registerUiState.(error := None);
      forgotPasswordUiState := forgotPasswordUiState.(error := None);
    }

    method ClearSuccess()
      modifies this
      ensures Current() == SuccessCleared(old(Current()))
    {
      loginUiState := loginUiState.(isSuccess := false);
      registerUiState := registerUiState.(isSuccess := false);
      forgotPasswordUiState := forgotPasswordUiState.(isSuccess := false);
    }

    /** `clearForgotPasswordState()`. */
    method ClearForgotPasswordState()
      modifies this
      ensures Current() == old(Current()).(forgotPassword := DefaultForgotPassword)
    {
      forgotPasswordUiState := DefaultForgotPassword;
    }

    /** `logout()`, given what the logout use case emits. */
    method Logout<T>(emissions: seq<Resource<T>>)
      modifies this
      ensures Current() == AfterLogout(old(Current()), emissions)
    {
      for i := 0 to |emissions|
        invariant Current() == AfterLogout(old(Current()), emissions[..i])
      {
        assert emissions[..i + 1] == emissions[..i] + [emissions[i]];
        AfterLogoutSnoc(old(Current()), emissions[..i], emissions[i]);
        match emissions[i] {
          case Loading =>
            authUiState := authUiState.(isLoading := true);
          case Success(_) =>
            authUiState := AuthUiState(false, false, None, None, false);
            loginUiState := DefaultLogin;
            registerUiState := DefaultRegister;
          case Error(message) =>
            authUiState := authUiState.(isLoading := false, error := Some(message));
        }
      }
      assert emissions[..|emissions|] == emissions;
    }
  }
}
