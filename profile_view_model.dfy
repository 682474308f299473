/** The client's `ProfileViewModel`: the profile state (the loaded user) and the edit form,
    each replaced by a copy with some fields changed. */
module ProfileScreens {
  import opened Wrappers
  import opened Strings
  import opened ClientModels

  datatype ProfileUiState = ProfileUiState(
    user: Option<User>,
    isLoading: bool,
    error: Option<string>)

  datatype EditProfileUiState = EditProfileUiState(
    firstName: string,
    lastName: string,
    phoneNumber: string,
    medicalSpecialty: string,
    hospitalAffiliation: string,
    isLoading: bool,
    error: Option<string>,
    isSuccess: bool)

  const DefaultProfile := ProfileUiState(None, false, None)
  const DefaultEdit := EditProfileUiState("", "", "", "", "", false, None, false)

  /** The text field of the edit form a name selects, if any. */
  function EditText(s: EditProfileUiState, name: string): Option<string>
  {
    match name
    case "firstName" => Some(s.firstName)
    case "lastName" => Some(s.lastName)
    case "phoneNumber" => Some(s.phoneNumber)
    case "medicalSpecialty" => Some(s.medicalSpecialty)
    case "hospitalAffiliation" => Some(s.hospitalAffiliation)
    case _ => None
  }

  /** The form's status fields. */
  predicate SameStatus(a: EditProfileUiState, b: EditProfileUiState)
  {
    a.isLoading == b.isLoading && a.error == b.error && a.isSuccess == b.isSuccess
  }

  /** `updateEditField(field, value)`: the named text field set, every other field kept; an
      unknown name changes nothing. */
  function EditFieldUpdated(s: EditProfileUiState, field: string, value: string): (r: EditProfileUiState)
    ensures forall n :: EditText(r, n) == if n == field && EditText(s, n).Some? then Some(value) else EditText(s, n)
    ensures SameStatus(s, r)
    ensures EditText(s, field).None? ==> r == s
  {
    match field
    case "firstName" => s.(firstName := value)
    case "lastName" => s.(lastName := value)
    case "phoneNumber" => s.(phoneNumber := value)
    case "medicalSpecialty" => s.(medicalSpecialty := value)
    case "hospitalAffiliation" => s.(hospitalAffiliation := value)
    case _ => s
  }

  /** The user's editable fields copied into a form, a missing optional as the empty text,
      the status fields kept. */
  function WithUserFields(e: EditProfileUiState, user: User): (r: EditProfileUiState)
    ensures SameStatus(e, r)
    ensures r.firstName == user.firstName && r.lastName == user.lastName
    ensures r.phoneNumber == user.phoneNumber.GetOr("") && r.medicalSpecialty == user.medicalSpecialty.GetOr("")
    ensures r.hospitalAffiliation == user.hospitalAffiliation.GetOr("")
  {
    e.(firstName := user.firstName, lastName := user.lastName,
       phoneNumber := user.phoneNumber.GetOr(""),
       medicalSpecialty := user.medicalSpecialty.GetOr(""),
       hospitalAffiliation := user.hospitalAffiliation.GetOr(""))
  }

  /** The arguments `saveProfile` passes to the update use case. */
  datatype ProfileUpdate = ProfileUpdate(
    firstName: Option<string>,
    lastName: Option<string>,
    phoneNumber: Option<string>,
    medicalSpecialty: Option<string>,
    hospitalAffiliation: Option<string>)

  /** The argument a field name selects. */
  function Argument(u: ProfileUpdate, name: string): Option<string>
  {
    match name
    case "firstName" => u.firstName
    case "lastName" => u.lastName
    case "phoneNumber" => u.phoneNumber
    case "medicalSpecialty" => u.medicalSpecialty
    case "hospitalAffiliation" => u.hospitalAffiliation
    case _ => None
  }

  /** `saveProfile`'s arguments: each field is `null` when blank and its text otherwise. */
  function UpdateArguments(e: EditProfileUiState): (u: ProfileUpdate)
    ensures forall n :: EditText(e, n).Some? ==> Argument(u, n) == NullIfBlank(EditText(e, n).value)
  {
    ProfileUpdate(NullIfBlank(e.firstName), NullIfBlank(e.lastName), NullIfBlank(e.phoneNumber),
                  NullIfBlank(e.medicalSpecialty), NullIfBlank(e.hospitalAffiliation))
  }

  /** Whether an optional field holds a non-blank text when it is present. */
  predicate FilledOrAbsent(o: Option<string>)
  {
    o.Some? ==> !IsBlank(o.value)
  }

  /** Saving a form fresh from the user sends the user's own values back: missing optionals
      stay `null` and present ones are resent, provided nothing the user has is blank. This
      holds both for the form `initializeEditForm` builds and for the one a user load
      fills. */
  lemma UntouchedFormResendsUser(e: EditProfileUiState, user: User)
    requires !IsBlank(user.firstName) && !IsBlank(user.lastName)
    requires FilledOrAbsent(user.phoneNumber) && FilledOrAbsent(user.medicalSpecialty) && FilledOrAbsent(user.hospitalAffiliation)
    ensures UpdateArguments(WithUserFields(e, user)) ==
            ProfileUpdate(Some(user.firstName), Some(user.lastName), user.phoneNumber,
                          user.medicalSpecialty, user.hospitalAffiliation)
  {
    assert IsBlank("");
  }

  /** A blank optional of the user is sent as `null`. The backend reads `null` as "leave
      unchanged", so saving such a form keeps the stored value; a blank field can never
      clear one. */
  lemma BlankOptionalSentAsNull(e: EditProfileUiState, user: User)
    requires user.phoneNumber.Some? && IsBlank(user.phoneNumber.value)
    ensures UpdateArguments(WithUserFields(e, user)).phoneNumber.None?
  {
  }

  /** `initializeEditForm()`'s form: the user's fields in a fresh form. */
  function FormOf(user: User): (e: EditProfileUiState)
    ensures e == WithUserFields(DefaultEdit, user)
    ensures !e.isLoading && e.error.None? && !e.isSuccess
  {
    EditProfileUiState(user.firstName, user.lastName, user.phoneNumber.GetOr(""),
                       user.medicalSpecialty.GetOr(""), user.hospitalAffiliation.GetOr(""),
                       false, None, false)
  }

  /** A user load and `initializeEditForm` agree on the text fields; they differ only in
      that the load keeps the form's status. */
  lemma LoadAndInitializeAgree(e: EditProfileUiState, user: User)
    ensures WithUserFields(e, user) == FormOf(user).(isLoading := e.isLoading, error := e.error, isSuccess := e.isSuccess)
  {
  }

  /** The two states together. */
  datatype ProfileScreensState = ProfileScreensState(profile: ProfileUiState, edit: EditProfileUiState)

  /** One emission of the current-user flow: success stores the user (which may be `null`)
      and, when there is one, fills the form's text fields without touching its status. */
  function AfterLoadEmission(a: ProfileScreensState, r: Resource<Option<User>>): (b: ProfileScreensState)
    ensures r.Loading? ==> b == a.(profile := a.profile.(isLoading := true))
    ensures r.Success? ==> b.profile == a.profile.(isLoading := false, user := r.data, error := None)
    ensures r.Success? && r.data.Some? ==> b.edit == WithUserFields(a.edit, r.data.value)
    ensures r.Success? && r.data.None? ==> b.edit == a.edit
    ensures r.Error? ==> b == a.(profile := a.profile.(isLoading := false, error := Some(r.message)))
    ensures SameStatus(a.edit, b.edit)
  {
    match r
    case Loading => a.(profile := a.profile.(isLoading := true))
    case Success(data) =>
      ProfileScreensState(
        a.profile.(isLoading := false, user := data, error := None),
        if data.Some? then WithUserFields(a.edit, data.value) else a.edit)
    case Error(message) => a.(profile := a.profile.(isLoading := false, error := Some(message)))
  }

  /** The current-user flow's emissions applied in turn. */
  function AfterLoad(a: ProfileScreensState, rs: seq<Resource<Option<User>>>): ProfileScreensState
    decreases |rs|
  {
    if |rs| == 0 then a else AfterLoadEmission(AfterLoad(a, rs[..|rs| - 1]), rs[|rs| - 1])
  }

  /** However the loads went, they never change the form's status fields. */
  lemma {:induction false} LoadKeepsFormStatus(a: ProfileScreensState, rs: seq<Resource<Option<User>>>)
    ensures SameStatus(a.edit, AfterLoad(a, rs).edit)
    decreases |rs|
  {
    if |rs| > 0 {
      LoadKeepsFormStatus(a, rs[..|rs| - 1]);
    }
  }

  /** One emission of the update flow on the form. */
  function AfterSaveEmission<T>(e: EditProfileUiState, r: Resource<T>): (g: EditProfileUiState)
    ensures r.Loading? ==> g == e.(isLoading := true, error := None)
    ensures r.Success? ==> g == e.(isLoading := false, isSuccess := true, error := None)
    ensures r.Error? ==> g == e.(isLoading := false, error := Some(r.message), isSuccess := false)
  {
    match r
    case Loading => e.(isLoading := true, error := None)
    case Success(_) => e.(isLoading := false, isSuccess := true, error := None)
    case Error(message) => e.(isLoading := false, error := Some(message), isSuccess := false)
  }

  /** The update flow's emissions applied in turn. */
  function AfterSave<T>(e: EditProfileUiState, rs: seq<Resource<T>>): EditProfileUiState
    decreases |rs|
  {
    if |rs| == 0 then e else AfterSaveEmission(AfterSave(e, rs[..|rs| - 1]), rs[|rs| - 1])
  }

  /** Saving never changes what the form holds, and the outcome shown is the last
      emission's: a success leaves no error, an error leaves its message. */
  lemma {:induction false} SaveKeepsText<T>(e: EditProfileUiState, rs: seq<Resource<T>>)
    ensures forall n :: EditText(AfterSave(e, rs), n) == EditText(e, n)
    ensures |rs| > 0 && rs[|rs| - 1].Success? ==> AfterSave(e, rs).isSuccess && AfterSave(e, rs).error.None?
    ensures |rs| > 0 && rs[|rs| - 1].Error? ==> !AfterSave(e, rs).isSuccess && AfterSave(e, rs).error == Some(rs[|rs| - 1].message)
    decreases |rs|
  {
    if |rs| > 0 {
      SaveKeepsText(e, rs[..|rs| - 1]);
    }
  }

  /** `clearEditState()`: only the success flag and the error are reset. */
  function EditStateCleared(e: EditProfileUiState): (g: EditProfileUiState)
    ensures !g.isSuccess && g.error.None? && g.isLoading == e.isLoading
    ensures forall n :: EditText(g, n) == EditText(e, n)
  {
    e.(isSuccess := false, error := None)
  }

  class ProfileViewModel {
    var profileUiState: ProfileUiState
    var editProfileUiState: EditProfileUiState

    function Current(): ProfileScreensState
      reads this
    {
      ProfileScreensState(profileUiState, editProfileUiState)
    }

    /** The default states; the initial `loadCurrentUser()` is a separate call here. */
    constructor ()
      ensures Current() == ProfileScreensState(DefaultProfile, DefaultEdit)
    {
      profileUiState := DefaultProfile;
      editProfileUiState := DefaultEdit;
    }

    /** `loadCurrentUser()`, given what the current-user use case emits. */
    method LoadCurrentUser(emissions: seq<Resource<Option<User>>>)
      modifies this
      ensures Current() == AfterLoad(old(Current()), emissions)
    {
      for i := 0 to |emissions|
        invariant Current() == AfterLoad(old(Current()), emissions[..i])
      {
        assert emissions[..i + 1][..i] == emissions[..i];
        match emissions[i] {
          case Loading =>
            profileUiState := profileUiState.(isLoading := true);
          case Success(data) =>
            profileUiState := profileUiState.(isLoading := false, user := data, error := None);
            if data.Some? {
              editProfileUiState := WithUserFields(editProfileUiState, data.value);
            }
          case Error(message) =>
            profileUiState := profileUiState.(isLoading := false, error := Some(message));
        }
      }
      assert emissions[..|emissions|] == emissions;
    }

    method UpdateEditField(field: string, value: string)
      modifies this
      ensures Current() == old(Current()).(edit := EditFieldUpdated(old(editProfileUiState), field, value))
    {
      editProfileUiState := EditFieldUpdated(editProfileUiState, field, value);
    }

    /** `saveProfile()`: the arguments are taken from the form as it is when the save
        starts; then each emission of the update use case updates the form's status. */
    method SaveProfile<T>(emissions: seq<Resource<T>>) returns (sent: ProfileUpdate)
      modifies this
      ensures sent == UpdateArguments(old(editProfileUiState))
      ensures Current() == old(Current()).(edit := AfterSave(old(editProfileUiState), emissions))
    {
      var currentState := editProfileUiState;
      sent := UpdateArguments(currentState);
      for i := 0 to |emissions|
        invariant Current() == old(Current()).(edit := AfterSave(currentState, emissions[..i]))
      {
        assert emissions[..i + 1][..i] == emissions[..i];
        match emissions[i] {
          case Loading =>
            editProfileUiState := editProfileUiState.(isLoading := true, error := None);
          case Success(_) =>
            editProfileUiState := editProfileUiState.(isLoading := false, isSuccess := true, error := None);
          case Error(message) =>
            editProfileUiState := editProfileUiState.(isLoading := false, error := Some(message), isSuccess := false);
        }
      }
      assert emissions[..|emissions|] == emissions;
    }

    method ClearEditState()
      modifies this
      ensures Current() == old(Current()).(edit := EditStateCleared(old(editProfileUiState)))
    {
      editProfileUiState := editProfileUiState.(isSuccess := false, error := None);
    }

    /** `initializeEditForm()`: a fresh form of the loaded user's fields; without a loaded
        user nothing changes. */
    method InitializeEditForm()
      modifies this
      ensures old(profileUiState.user).None? ==> Current() == old(Current())
      ensures old(profileUiState.user).Some? ==>
                Current() == old(Current()).(edit := FormOf(old(profileUiState.user).value))
    {
      if profileUiState.user.Some? {
        editProfileUiState := FormOf(profileUiState.user.value);
      }
    }
  }
}
