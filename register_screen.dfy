/** The registration screen's validity test and its submission: the keyboard's Done action
    on the confirmation field and the Register button both submit through the same test. */
module RegisterForms {
  import opened Wrappers
  import opened Strings
  import opened AuthScreens

  /** `isFormValid`: every field but the phone number is filled in and the passwords are
      flagged as matching. */
  predicate IsFormValid(s: RegisterUiState)
    ensures IsFormValid(s) ==> s.passwordsMatch && |s.password| > 0 && |s.username| > 0 && |s.email| > 0
  {
    !IsBlank(s.username) && !IsBlank(s.email) && !IsBlank(s.password) && !IsBlank(s.confirmPassword) &&
    !IsBlank(s.firstName) && !IsBlank(s.lastName) && s.passwordsMatch
  }

  /** The phone number plays no part in validity. */
  lemma PhoneIsOptional(s: RegisterUiState, phone: string)
    ensures IsFormValid(s.(phoneNumber := phone)) == IsFormValid(s)
  {
  }

  /** The arguments of `register(...)`. */
  datatype RegisterCall = RegisterCall(
    username: string,
    email: string,
    password: string,
    firstName: string,
    lastName: string,
    phoneNumber: Option<string>)

  /** A submission from either path: `register` is called exactly when the form is valid,
      with the fields as typed and a blank phone number sent as `null`. */
  function Submitted(s: RegisterUiState): (call: Option<RegisterCall>)
    ensures call.Some? <==> IsFormValid(s)
    ensures call.Some? ==> call.value.username == s.username && call.value.email == s.email &&
                           call.value.password == s.password && call.value.firstName == s.firstName &&
                           call.value.lastName == s.lastName
    ensures call.Some? ==> (call.value.phoneNumber.None? <==> IsBlank(s.phoneNumber))
    ensures call.Some? && call.value.phoneNumber.Some? ==> call.value.phoneNumber.value == s.phoneNumber
  {
    if IsFormValid(s) then
      Some(RegisterCall(s.username, s.email, s.password, s.firstName, s.lastName, NullIfBlank(s.phoneNumber)))
    else None
  }

  /** The Register button is enabled iff the screen is not busy and the form is valid, so
      pressing an enabled button always registers. */
  function ButtonEnabled(s: RegisterUiState): (enabled: bool)
    ensures enabled <==> !s.isLoading && IsFormValid(s)
    ensures enabled ==> Submitted(s).Some?
  {
    !s.isLoading && IsFormValid(s)
  }

  /** With the field updates as written, a form reached by ordinary typing can be valid and
      submit a password the confirmation field does not repeat. */
  lemma UnconfirmedPasswordSubmittedAsWritten()
    ensures var s := RegisterFieldUpdatedAsWritten(
                       RegisterFieldUpdatedAsWritten(
                         RegisterFieldUpdatedAsWritten(
                           DefaultRegister.(username := "ana", email := "ana@example.org",
                                            firstName := "Ana", lastName := "Lee"),
                           "password", "Secret123"),
                         "confirmPassword", "Secret123"),
                       "password", "Other4567");
            Submitted(s).Some? && Submitted(s).value.password != s.confirmPassword
  {
    var s0 := DefaultRegister.(username := "ana", email := "ana@example.org", firstName := "Ana", lastName := "Lee");
    var s1 := RegisterFieldUpdatedAsWritten(s0, "password", "Secret123");
    var s2 := RegisterFieldUpdatedAsWritten(s1, "confirmPassword", "Secret123");
    var s3 := RegisterFieldUpdatedAsWritten(s2, "password", "Other4567");
    assert !IsWhitespace('a') && !IsWhitespace('A') && !IsWhitespace('S') && !IsWhitespace('O') && !IsWhitespace('L');
    assert s3.username[0] == 'a' && s3.email[0] == 'a' && s3.firstName[0] == 'A' && s3.lastName[0] == 'L';
    assert s3.password[0] == 'O' && s3.confirmPassword[0] == 'S';
  }

  /** With the intended updates the match flag is exact, so a submitted password is always
      the confirmed one. */
  lemma SubmittedPasswordIsConfirmed(s: RegisterUiState)
    requires MatchIsExact(s)
    ensures Submitted(s).Some? ==> Submitted(s).value.password == s.confirmPassword
  {
  }
}
