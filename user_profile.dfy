/** `UserProfileService`: a user edits the fields of their own profile, and an administrator
    switches accounts off and on. Each operation loads the user by id, changes it and saves it
    back, in one transaction. */
module UserProfile {
  import opened Wrappers
  import opened Strings
  import opened AppErrors
  import opened AuthEntity
  import opened UserStore

  /** `UserProfileUpdateDto`: every field may be absent (`null`). */
  datatype ProfileUpdate = ProfileUpdate(
    firstName: Option<string>,
    lastName: Option<string>,
    phoneNumber: Option<string>,
    medicalSpecialty: Option<string>,
    hospitalAffiliation: Option<string>)

  /** A name field is replaced only by a value that is present and not empty once trimmed. */
  function NameAfter(current: string, given: Option<string>): (r: string)
    ensures given.Some? && Trim(given.value) != "" ==> r == Trim(given.value)
    ensures given.None? || Trim(given.value) == "" ==> r == current
  {
    if given.Some? && Trim(given.value) != "" then Trim(given.value) else current
  }

  /** An optional field is replaced by the trimmed value whenever one is given, even when
      that leaves it empty. */
  function OptionalAfter(current: Option<string>, given: Option<string>): (r: Option<string>)
    ensures given.Some? ==> r == Some(Trim(given.value))
    ensures given.None? ==> r == current
  {
    if given.Some? then Some(Trim(given.value)) else current
  }

  /** The profile the update leaves: the names, the phone number and, for a provider only,
      the specialty and the affiliation; nothing else about the user changes. */
  function Updated(u: User, dto: ProfileUpdate): (v: User)
    ensures v.firstName == NameAfter(u.firstName, dto.firstName)
    ensures v.lastName == NameAfter(u.lastName, dto.lastName)
    ensures v.phoneNumber == OptionalAfter(u.phoneNumber, dto.phoneNumber)
    ensures !u.isHealthcareProvider ==> v.medicalSpecialty == u.medicalSpecialty && v.hospitalAffiliation == u.hospitalAffiliation
    ensures u.isHealthcareProvider ==>
              v.medicalSpecialty == OptionalAfter(u.medicalSpecialty, dto.medicalSpecialty) &&
              v.hospitalAffiliation == OptionalAfter(u.hospitalAffiliation, dto.hospitalAffiliation)
    ensures v == u.(firstName := v.firstName, lastName := v.lastName, phoneNumber := v.phoneNumber,
                    medicalSpecialty := v.medicalSpecialty, hospitalAffiliation := v.hospitalAffiliation)
  {
    var v := u.(firstName := NameAfter(u.firstName, dto.firstName),
                lastName := NameAfter(u.lastName, dto.lastName),
                phoneNumber := OptionalAfter(u.phoneNumber, dto.phoneNumber));
    if u.isHealthcareProvider then
      v.(medicalSpecialty := OptionalAfter(u.medicalSpecialty, dto.medicalSpecialty),
         hospitalAffiliation := OptionalAfter(u.hospitalAffiliation, dto.hospitalAffiliation))
    else v
  }

  /** Sending the same update twice leaves the profile as sending it once: every value it
      writes is already trimmed. */
  lemma UpdateIdempotent(u: User, dto: ProfileUpdate)
    ensures Updated(Updated(u, dto), dto) == Updated(u, dto)
  {
    forall o: Option<string> | o.Some?
      ensures Trim(Trim(o.value)) == Trim(o.value)
    {
      TrimIdempotent(o.value);
    }
  }

  /** An update with no fields changes nothing. */
  lemma EmptyUpdateChangesNothing(u: User)
    ensures Updated(u, ProfileUpdate(None, None, None, None, None)) == u
  {
  }

  /** The update never touches the identity, the credentials, the roles or the flags. */
  lemma UpdateKeepsIdentity(u: User, dto: ProfileUpdate)
    ensures var v := Updated(u, dto);
      v.id == u.id && v.username == u.username && v.email == u.email && v.password == u.password &&
      v.roles == u.roles && v.isEnabled == u.isEnabled && v.isVerified == u.isVerified &&
      v.isHealthcareProvider == u.isHealthcareProvider && v.providerVerified == u.providerVerified &&
      v.licenseNumber == u.licenseNumber
  {
  }

  /** `new ResourceNotFoundException("User", userId)`: a not-found error naming the user
      and the id. */
  function UserNotFound(userId: int): (e: AppError)
    ensures e == ResourceNotFound("User not found with id: " + IntToString(userId))
  {
    assert "User" + " not found with " + "id" + ": " == "User not found with id: ";
    NotFoundWith("User", "id", IntToString(userId))
  }

  /** `getUserProfile(userId)`. */
  function GetUserProfile(t: UserTable, userId: int): (r: Result<User, AppError>)
    ensures WellFormed(t) ==> (r.Ok? <==> 1 <= userId <= |t|)
    ensures r.Ok? ==> r.value in t
    ensures WellFormed(t) && r.Ok? ==> r.value.id == userId
    ensures r.Err? ==> r.error == UserNotFound(userId)
  {
    match FindById(t, userId)
    case Some(u) => Ok(u)
    case None => Err(UserNotFound(userId))
  }

  class UserProfileService {
    var users: UserTable

    ghost predicate Valid()
      reads this
    {
      WellFormed(users)
    }

    constructor (users: UserTable)
      requires WellFormed(users)
      ensures Valid() && this.users == users
    {
      this.users := users;
    }

    /** `updateUserProfile(userId, dto)`: field by field as `Updated` describes, then saved;
        an unknown id fails and changes nothing. */
    method UpdateUserProfile(userId: int, dto: ProfileUpdate) returns (r: Result<User, AppError>)
      requires Valid()
      modifies this
      ensures Valid()
      ensures !(1 <= userId <= |old(users)|) ==> r == Err(UserNotFound(userId)) && users == old(users)
      ensures 1 <= userId <= |old(users)| ==>
                r == Ok(Updated(old(users)[userId - 1], dto)) && users == old(users)[userId - 1 := r.value]
    {
      var found := GetUserProfile(users, userId);
      if found.Err? {
        return Err(found.error);
      }
      var user := found.value;
      assert user == users[userId - 1];
      user := user.(firstName := NameAfter(user.firstName, dto.firstName));
      user := user.(lastName := NameAfter(user.lastName, dto.lastName));
      user := user.(phoneNumber := OptionalAfter(user.phoneNumber, dto.phoneNumber));
      if user.isHealthcareProvider {
        user := user.(medicalSpecialty := OptionalAfter(user.medicalSpecialty, dto.medicalSpecialty));
        user := user.(hospitalAffiliation := OptionalAfter(user.hospitalAffiliation, dto.hospitalAffiliation));
      }
      assert user == Updated(users[userId - 1], dto);
      ReplaceKeepsWellFormed(users, userId - 1, user);
      users := users[userId - 1 := user];
      r := Ok(user);
    }

    /** `deactivateUser(userId)` / `reactivateUser(userId)`: the enabled flag takes the given
        value and nothing else changes, so a repeated call changes nothing. */
    method SetEnabled(userId: int, enabled: bool) returns (r: Result<(), AppError>)
      requires Valid()
      modifies this
      ensures Valid()
      ensures !(1 <= userId <= |old(users)|) ==> r == Err(UserNotFound(userId)) && users == old(users)
      ensures 1 <= userId <= |old(users)| ==>
                r == Ok(()) && users == old(users)[userId - 1 := old(users)[userId - 1].(isEnabled := enabled)]
      ensures 1 <= userId <= |old(users)| && old(users)[userId - 1].isEnabled == enabled ==> users == old(users)
    {
      var found := GetUserProfile(users, userId);
      if found.Err? {
        return Err(found.error);
      }
      var user := found.value.(isEnabled := enabled);
      ReplaceKeepsWellFormed(users, userId - 1, user);
      users := users[userId - 1 := user];
      r := Ok(());
    }

    method DeactivateUser(userId: int) returns (r: Result<(), AppError>)
      requires Valid()
      modifies this
      ensures Valid()
      ensures !(1 <= userId <= |old(users)|) ==> r == Err(UserNotFound(userId)) && users == old(users)
      ensures 1 <= userId <= |old(users)| ==>
                r == Ok(()) && users == old(users)[userId - 1 := old(users)[userId - 1].(isEnabled := false)] &&
                !IsAccountNonLocked(users[userId - 1]) && !UserDetailsEnabled(users[userId - 1])
    {
      r := SetEnabled(userId, false);
    }

    method ReactivateUser(userId: int) returns (r: Result<(), AppError>)
      requires Valid()
      modifies this
      ensures Valid()
      ensures !(1 <= userId <= |old(users)|) ==> r == Err(UserNotFound(userId)) && users == old(users)
      ensures 1 <= userId <= |old(users)| ==>
                r == Ok(()) && users == old(users)[userId - 1 := old(users)[userId - 1].(isEnabled := true)] &&
                IsAccountNonLocked(users[userId - 1])
    {
      r := SetEnabled(userId, true);
    }
  }
}
