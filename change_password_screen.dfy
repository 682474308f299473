/** The change-password screen: the strength check on the new password, the three fields
    and their error texts (remembered screen state, updated as the user types), the
    validation run by the Change Password button, and when that button is enabled.
    Character classes are ASCII. */
module ChangePasswordForms {
  import opened Wrappers
  import opened Strings

  predicate IsUpper(c: char) { 'A' <= c <= 'Z' }
  predicate IsLower(c: char) { 'a' <= c <= 'z' }

  /** `any { ... }` over the password. */
  predicate HasUpper(s: string) { exists i :: 0 <= i < |s| && IsUpper(s[i]) }
  predicate HasLower(s: string) { exists i :: 0 <= i < |s| && IsLower(s[i]) }
  predicate HasDigit(s: string) { exists i :: 0 <= i < |s| && IsDigit(s[i]) }

  const NewRequired := "New password is required"
  const TooShort := "Password must be at least 8 characters"
  const NeedsUpper := "Password must contain an uppercase letter"
  const NeedsLower := "Password must contain a lowercase letter"
  const NeedsDigit := "Password must contain a number"

  /** `validateNewPassword`: the first failed requirement, in order required, length,
      uppercase, lowercase, digit; `null` when all hold. */
  function ValidateNewPassword(p: string): (r: Option<string>)
    ensures r.None? <==> !IsBlank(p) && |p| >= 8 && HasUpper(p) && HasLower(p) && HasDigit(p)
    ensures IsBlank(p) ==> r == Some(NewRequired)
    ensures !IsBlank(p) && |p| < 8 ==> r == Some(TooShort)
    ensures !IsBlank(p) && |p| >= 8 && !HasUpper(p) ==> r == Some(NeedsUpper)
    ensures !IsBlank(p) && |p| >= 8 && HasUpper(p) && !HasLower(p) ==> r == Some(NeedsLower)
    ensures !IsBlank(p) && |p| >= 8 && HasUpper(p) && HasLower(p) && !HasDigit(p) ==> r == Some(NeedsDigit)
  {
    if IsBlank(p) then Some(NewRequired)
    else if |p| < 8 then Some(TooShort)
    else if !HasUpper(p) then Some(NeedsUpper)
    else if !HasLower(p) then Some(NeedsLower)
    else if !HasDigit(p) then Some(NeedsDigit)
    else None
  }

  /** A password of eight or more spaces is reported as missing, not as weak. */
  lemma WhitespaceIsRequired()
    ensures ValidateNewPassword("         ") == Some(NewRequired)
  {
    assert IsBlank("         ");
  }

  /** The requirement list shown under the field: length, uppercase, lowercase, digit. */
  function Checklist(p: string): (marks: seq<bool>)
    ensures |marks| == 4
  {
    [|p| >= 8, HasUpper(p), HasLower(p), HasDigit(p)]
  }

  /** The list mirrors the check: a non-blank password passes iff every item is ticked, and
      a failing non-blank password is reported by its first unticked item. */
  lemma ChecklistMirrorsValidator(p: string)
    ensures !IsBlank(p) ==> (ValidateNewPassword(p).None? <==> forall k :: 0 <= k < 4 ==> Checklist(p)[k])
    ensures !IsBlank(p) && ValidateNewPassword(p).Some? ==>
              exists k :: 0 <= k < 4 && !Checklist(p)[k] &&
                          ValidateNewPassword(p).value == [TooShort, NeedsUpper, NeedsLower, NeedsDigit][k] &&
                          forall j :: 0 <= j < k ==> Checklist(p)[j]
  {
    var c := Checklist(p);
    if !IsBlank(p) && ValidateNewPassword(p).Some? {
      var k := if !c[0] then 0 else if !c[1] then 1 else if !c[2] then 2 else 3;
      assert !c[k];
    }
  }

  /** The screen's remembered state: the three fields and their error texts. */
  datatype PasswordFields = PasswordFields(
    currentPassword: string,
    newPassword: string,
    confirmPassword: string,
    currentPasswordError: Option<string>,
    newPasswordError: Option<string>,
    confirmPasswordError: Option<string>)

  const EmptyFields := PasswordFields("", "", "", None, None, None)

  const CurrentRequired := "Current password is required"
  const Mismatch := "Passwords do not match"
  const MustDiffer := "New password must be different from current password"

  /** The confirmation error for two texts. */
  function MismatchError(newPassword: string, confirmation: string): (e: Option<string>)
    ensures e.None? <==> newPassword == confirmation
  {
    if confirmation != newPassword then Some(Mismatch) else None
  }

  /** Typing in the current-password field clears its error. */
  function CurrentPasswordChanged(f: PasswordFields, value: string): PasswordFields
  {
    f.(currentPassword := value, currentPasswordError := None)
  }

  /** Typing in the new-password field re-runs the strength check, and re-checks the
      confirmation if one has been typed. */
  function NewPasswordChanged(f: PasswordFields, value: string): PasswordFields
  {
    f.(newPassword := value, newPasswordError := ValidateNewPassword(value),
       confirmPasswordError := if |f.confirmPassword| != 0 then MismatchError(value, f.confirmPassword) else f.confirmPasswordError)
  }

  /** Typing in the confirmation field re-checks it against the new password. */
  function ConfirmPasswordChanged(f: PasswordFields, value: string): PasswordFields
  {
    f.(confirmPassword := value, confirmPasswordError := MismatchError(f.newPassword, value))
  }

  /** The error texts are in step with the texts the user has typed: a typed new password
      carries its strength error, a typed confirmation its mismatch error. */
  predicate InStep(f: PasswordFields)
  {
    (|f.newPassword| != 0 ==> f.newPasswordError == ValidateNewPassword(f.newPassword)) &&
    (|f.confirmPassword| != 0 ==> f.confirmPasswordError == MismatchError(f.newPassword, f.confirmPassword))
  }

  /** The screen starts in step and typing keeps it in step. */
  lemma TypingKeepsInStep(f: PasswordFields, value: string)
    ensures InStep(EmptyFields)
    ensures InStep(f) ==> InStep(CurrentPasswordChanged(f, value))
    ensures InStep(f) ==> InStep(NewPasswordChanged(f, value))
    ensures InStep(f) ==> InStep(ConfirmPasswordChanged(f, value))
  {
  }

  /** Whether the button press calls `changePassword`: a current password is given, the new
      one passes the check and is confirmed, and it differs from the current one. */
  predicate Accepted(f: PasswordFields)
  {
    !IsBlank(f.currentPassword) && ValidateNewPassword(f.newPassword).None? &&
    f.newPassword == f.confirmPassword && f.currentPassword != f.newPassword
  }

  /** The error texts after a press: each failed check sets its text (the "must be
      different" text replacing any strength text), a passed check leaves its text as it
      was. */
  function ErrorsAfterPress(f: PasswordFields): (g: PasswordFields)
    ensures g.currentPassword == f.currentPassword && g.newPassword == f.newPassword && g.confirmPassword == f.confirmPassword
    ensures g.currentPasswordError == if IsBlank(f.currentPassword) then Some(CurrentRequired) else f.currentPasswordError
    ensures f.currentPassword == f.newPassword ==> g.newPasswordError == Some(MustDiffer)
    ensures f.currentPassword != f.newPassword ==>
              g.newPasswordError == if ValidateNewPassword(f.newPassword).Some? then ValidateNewPassword(f.newPassword) else f.newPasswordError
    ensures g.confirmPasswordError == if f.newPassword != f.confirmPassword then Some(Mismatch) else f.confirmPasswordError
  {
    f.(currentPasswordError := if IsBlank(f.currentPassword) then Some(CurrentRequired) else f.currentPasswordError,
       newPasswordError := if f.currentPassword == f.newPassword then Some(MustDiffer)
                           else if ValidateNewPassword(f.newPassword).Some? then ValidateNewPassword(f.newPassword)
                           else f.newPasswordError,
       confirmPasswordError := if f.newPassword != f.confirmPassword then Some(Mismatch) else f.confirmPasswordError)
  }

  /** The button's click handler, check by check with its `isValid` flag: the new error
      texts, and the `changePassword(current, new)` call when every check passed. */
  method PressChangePassword(f: PasswordFields) returns (g: PasswordFields, call: Option<(string, string)>)
    ensures g == ErrorsAfterPress(f)
    ensures call.Some? <==> Accepted(f)
    ensures call.Some? ==> call.value == (f.currentPassword, f.newPassword)
  {
    g := f;
    var isValid := true;
    if IsBlank(f.currentPassword) {
      g := g.(currentPasswordError := Some(CurrentRequired));
      isValid := false;
    }
    var newPwdError := ValidateNewPassword(f.newPassword);
    if newPwdError.Some? {
      g := g.(newPasswordError := newPwdError);
      isValid := false;
    }
    if f.newPassword != f.confirmPassword {
      g := g.(confirmPasswordError := Some(Mismatch));
      isValid := false;
    }
    if f.currentPassword == f.newPassword {
      g := g.(newPasswordError := Some(MustDiffer));
      isValid := false;
    }
    call := if isValid then Some((f.currentPassword, f.newPassword)) else None;
  }

  /** The button is enabled when the screen is not busy, all three fields are filled in and
      no error text is shown. */
  predicate ButtonEnabled(isLoading: bool, f: PasswordFields)
  {
    !isLoading && !IsBlank(f.currentPassword) && !IsBlank(f.newPassword) && !IsBlank(f.confirmPassword) &&
    f.currentPasswordError.None? && f.newPasswordError.None? && f.confirmPasswordError.None?
  }

  /** On a screen in step, pressing the enabled button changes the password unless the new
      password is the current one. */
  lemma EnabledPressAccepted(isLoading: bool, f: PasswordFields)
    requires InStep(f) && ButtonEnabled(isLoading, f)
    ensures Accepted(f) <==> f.currentPassword != f.newPassword
  {
    assert f.newPassword != [] && f.confirmPassword != [];
  }

  /** A rejected press always leaves an error text, so the button stays disabled until the
      user types again. */
  lemma RejectedPressDisablesButton(isLoading: bool, f: PasswordFields)
    requires !Accepted(f)
    ensures var g := ErrorsAfterPress(f);
      g.currentPasswordError.Some? || g.newPasswordError.Some? || g.confirmPasswordError.Some?
    ensures !ButtonEnabled(isLoading, ErrorsAfterPress(f))
  {
  }
}
