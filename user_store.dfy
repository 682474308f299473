/** The `users` table as the services query it, and `UserDetailsServiceImpl`. The
    repository's queries are derived from their names: equality on the named columns.
    A query declared to return one user fails when several rows match. */
module UserStore {
  import opened Wrappers
  import opened AppErrors
  import opened AuthEntity

  /** The rows in insertion order; the row at index i has the generated id i + 1. */
  type UserTable = seq<User>

  /** What the table's generated keys and unique columns guarantee. */
  ghost predicate WellFormed(t: UserTable)
  {
    (forall i :: 0 <= i < |t| ==> t[i].id == i + 1) &&
    (forall i, j :: 0 <= i < j < |t| ==> t[i].username != t[j].username && t[i].email != t[j].email)
  }

  /** The rows satisfying `p`, in table order. */
  function Filter(t: UserTable, p: User -> bool): (r: UserTable)
    ensures |r| <= |t|
    ensures forall i :: 0 <= i < |r| ==> r[i] in t && p(r[i])
    ensures forall i :: 0 <= i < |t| && p(t[i]) ==> t[i] in r
  {
    if |t| == 0 then []
    else
      var rest := Filter(t[1..], p);
      assert forall i :: 1 <= i < |t| ==> t[i] == t[1..][i - 1];
      if p(t[0]) then [t[0]] + rest else rest
  }

  /** Some row satisfies `p` exactly when the filtered rows are not empty. */
  lemma SomeRowIffFiltered(t: UserTable, p: User -> bool)
    ensures (exists i :: 0 <= i < |t| && p(t[i])) <==> |Filter(t, p)| > 0
  {
    var r := Filter(t, p);
    if |r| > 0 {
      assert r[0] in t && p(r[0]);
      var i :| 0 <= i < |t| && t[i] == r[0];
    }
  }

  /** A single-result query: none, the one matching row, or a failure when several match. */
  function FindUnique(t: UserTable, p: User -> bool): (r: Result<Option<User>, AppError>)
    ensures r == Ok(None) <==> forall i :: 0 <= i < |t| ==> !p(t[i])
    ensures r.Ok? && r.value.Some? ==> r.value.value in t && p(r.value.value)
  {
    var m := Filter(t, p);
    if |m| == 0 then Ok(None)
    else
      assert m[0] in m;
      if |m| == 1 then Ok(Some(m[0])) else Err(Runtime(Some("query did not return a unique result")))
  }

  /** Exactly one row matches: the query returns it. */
  lemma {:induction false} FindUniqueSingle(t: UserTable, p: User -> bool, i: nat)
    requires i < |t| && p(t[i])
    requires forall j :: 0 <= j < |t| && j != i ==> !p(t[j])
    ensures FindUnique(t, p) == Ok(Some(t[i]))
  {
    OnlyMatch(t, p, i);
  }

  lemma {:induction false} OnlyMatch(t: UserTable, p: User -> bool, i: nat)
    requires i < |t| && p(t[i])
    requires forall j :: 0 <= j < |t| && j != i ==> !p(t[j])
    ensures Filter(t, p) == [t[i]]
  {
    if i == 0 {
      NoMatch(t[1..], p);
    } else {
      OnlyMatch(t[1..], p, i - 1);
    }
  }

  lemma {:induction false} NoMatch(t: UserTable, p: User -> bool)
    requires forall j :: 0 <= j < |t| ==> !p(t[j])
    ensures Filter(t, p) == []
  {
    if |t| > 0 {
      NoMatch(t[1..], p);
    }
  }

  /** `findByUsername`: nothing exactly when no row has the username; a found row has it. */
  function FindByUsername(t: UserTable, username: string): (r: Result<Option<User>, AppError>)
    ensures r == Ok(None) <==> !ExistsByUsername(t, username)
    ensures r.Ok? && r.value.Some? ==> r.value.value in t && r.value.value.username == username
  {
    FindUnique(t, (u: User) => u.username == username)
  }

  /** `findByEmail`: nothing exactly when no row has the email; a found row has it. */
  function FindByEmail(t: UserTable, email: string): (r: Result<Option<User>, AppError>)
    ensures r == Ok(None) <==> !ExistsByEmail(t, email)
    ensures r.Ok? && r.value.Some? ==> r.value.value in t && r.value.value.email == email
  {
    FindUnique(t, (u: User) => u.email == email)
  }

  /** `findVerifiedUserByEmail`: nothing exactly when no verified row has the email; a
      found row is verified and has it. */
  function FindVerifiedByEmail(t: UserTable, email: string): (r: Result<Option<User>, AppError>)
    ensures r == Ok(None) <==> forall i :: 0 <= i < |t| ==> !(t[i].email == email && t[i].isVerified)
    ensures r.Ok? && r.value.Some? ==> r.value.value in t && r.value.value.email == email && r.value.value.isVerified
  {
    FindUnique(t, (u: User) => u.email == email && u.isVerified)
  }

  /** `findByUsernameOrEmail` and its eager-fetching variant: nothing exactly when no row
      has the username or the email; a found row has one of them. */
  function FindByUsernameOrEmail(t: UserTable, username: string, email: string): (r: Result<Option<User>, AppError>)
    ensures r == Ok(None) <==> !ExistsByUsername(t, username) && !ExistsByEmail(t, email)
    ensures r.Ok? && r.value.Some? ==> r.value.value in t && (r.value.value.username == username || r.value.value.email == email)
  {
    FindUnique(t, (u: User) => u.username == username || u.email == email)
  }

  /** `findById`: the generated key is the position plus one. */
  function FindById(t: UserTable, id: int): (r: Option<User>)
    ensures WellFormed(t) ==> (r.Some? <==> exists i :: 0 <= i < |t| && t[i].id == id)
    ensures r.Some? ==> r.value in t
    ensures WellFormed(t) && r.Some? ==> r.value.id == id
  {
    if 1 <= id <= |t| then Some(t[id - 1]) else None
  }

  /** `existsByUsername`: the count query over the username column is positive. */
  predicate ExistsByUsername(t: UserTable, username: string)
    ensures ExistsByUsername(t, username) <==> |Filter(t, (u: User) => u.username == username)| > 0
  {
    SomeRowIffFiltered(t, (u: User) => u.username == username);
    exists i :: 0 <= i < |t| && t[i].username == username
  }

  /** `existsByEmail`: the count query over the email column is positive. */
  predicate ExistsByEmail(t: UserTable, email: string)
    ensures ExistsByEmail(t, email) <==> |Filter(t, (u: User) => u.email == email)| > 0
  {
    SomeRowIffFiltered(t, (u: User) => u.email == email);
    exists i :: 0 <= i < |t| && t[i].email == email
  }

  /** `existsByLicenseNumber`: the count query over the licence column is positive. */
  predicate ExistsByLicenseNumber(t: UserTable, licenseNumber: string)
    ensures ExistsByLicenseNumber(t, licenseNumber) <==> |Filter(t, (u: User) => u.licenseNumber == Some(licenseNumber))| > 0
  {
    SomeRowIffFiltered(t, (u: User) => u.licenseNumber == Some(licenseNumber));
    exists i :: 0 <= i < |t| && t[i].licenseNumber == Some(licenseNumber)
  }

  /** In a well-formed table a lookup by username never fails and finds exactly the row
      with that username. */
  lemma FindByUsernameExact(t: UserTable, username: string)
    requires WellFormed(t)
    ensures FindByUsername(t, username).Ok?
    ensures FindByUsername(t, username).value.Some? <==> ExistsByUsername(t, username)
    ensures forall i :: 0 <= i < |t| && t[i].username == username ==> FindByUsername(t, username) == Ok(Some(t[i]))
  {
    var p := (u: User) => u.username == username;
    if i :| 0 <= i < |t| && t[i].username == username {
      FindUniqueSingle(t, p, i);
    }
  }

  /** The same for a lookup by email. */
  lemma FindByEmailExact(t: UserTable, email: string)
    requires WellFormed(t)
    ensures FindByEmail(t, email).Ok?
    ensures FindByEmail(t, email).value.Some? <==> ExistsByEmail(t, email)
    ensures forall i :: 0 <= i < |t| && t[i].email == email ==> FindByEmail(t, email) == Ok(Some(t[i]))
  {
    var p := (u: User) => u.email == email;
    if i :| 0 <= i < |t| && t[i].email == email {
      FindUniqueSingle(t, p, i);
    }
  }

  /** The same for a lookup of a verified user by email. */
  lemma FindVerifiedByEmailExact(t: UserTable, email: string)
    requires WellFormed(t)
    ensures FindVerifiedByEmail(t, email).Ok?
    ensures FindVerifiedByEmail(t, email).value.Some? <==> exists i :: 0 <= i < |t| && t[i].email == email && t[i].isVerified
    ensures forall i :: 0 <= i < |t| && t[i].email == email && t[i].isVerified ==> FindVerifiedByEmail(t, email) == Ok(Some(t[i]))
  {
    var p := (u: User) => u.email == email && u.isVerified;
    if i :| 0 <= i < |t| && t[i].email == email && t[i].isVerified {
      FindUniqueSingle(t, p, i);
    }
  }

  /** The position of the verified user with that email, or -1 when there is none, with
      what the lookup returns. */
  ghost function VerifiedIndex(t: UserTable, email: string): (i: int)
    requires WellFormed(t)
    ensures -1 <= i < |t|
    ensures i >= 0 ==> t[i].email == email && t[i].isVerified && t[i].id == i + 1 &&
                       FindVerifiedByEmail(t, email) == Ok(Some(t[i]))
    ensures i < 0 ==> FindVerifiedByEmail(t, email) == Ok(None) &&
                      forall j :: 0 <= j < |t| ==> !(t[j].email == email && t[j].isVerified)
  {
    FindVerifiedByEmailExact(t, email);
    if exists j :: 0 <= j < |t| && t[j].email == email && t[j].isVerified then
      var j :| 0 <= j < |t| && t[j].email == email && t[j].isVerified; j
    else -1
  }

  /** The position of the user with that email, or -1 when there is none, with what the
      lookup returns. */
  ghost function EmailIndex(t: UserTable, email: string): (i: int)
    requires WellFormed(t)
    ensures -1 <= i < |t|
    ensures i >= 0 ==> t[i].email == email && t[i].id == i + 1 && FindByEmail(t, email) == Ok(Some(t[i]))
    ensures i < 0 ==> FindByEmail(t, email) == Ok(None) && !ExistsByEmail(t, email)
  {
    FindByEmailExact(t, email);
    if exists j :: 0 <= j < |t| && t[j].email == email then
      var j :| 0 <= j < |t| && t[j].email == email; j
    else -1
  }

  /** The same for the user with that username. */
  ghost function UsernameIndex(t: UserTable, username: string): (i: int)
    requires WellFormed(t)
    ensures -1 <= i < |t|
    ensures i >= 0 ==> t[i].username == username && t[i].id == i + 1 && FindByUsername(t, username) == Ok(Some(t[i]))
    ensures i < 0 ==> FindByUsername(t, username) == Ok(None) && !ExistsByUsername(t, username)
  {
    FindByUsernameExact(t, username);
    if exists j :: 0 <= j < |t| && t[j].username == username then
      var j :| 0 <= j < |t| && t[j].username == username; j
    else -1
  }

  /** Appending a row with the next key and a fresh username and email keeps the table
      well formed. */
  lemma AppendKeepsWellFormed(t: UserTable, u: User)
    requires WellFormed(t) && u.id == |t| + 1
    requires !ExistsByUsername(t, u.username) && !ExistsByEmail(t, u.email)
    ensures WellFormed(t + [u])
  {
  }

  /** Saving a changed row back keeps the table well formed when its key, username and
      email stay the same. */
  lemma ReplaceKeepsWellFormed(t: UserTable, i: nat, u: User)
    requires WellFormed(t) && i < |t|
    requires u.id == t[i].id && u.username == t[i].username && u.email == t[i].email
    ensures WellFormed(t[i := u])
  {
  }

  /** `loadUserByUsername(usernameOrEmail)`: the one user whose username or email it is,
      or `UsernameNotFoundException`. */
  function LoadUserByUsername(t: UserTable, usernameOrEmail: string): (r: Result<User, AppError>)
    ensures r.Ok? ==> r.value in t && (r.value.username == usernameOrEmail || r.value.email == usernameOrEmail)
    ensures (forall i :: 0 <= i < |t| ==> t[i].username != usernameOrEmail && t[i].email != usernameOrEmail) ==>
              r == Err(UsernameNotFound("User not found with username or email: " + usernameOrEmail))
  {
    match FindByUsernameOrEmail(t, usernameOrEmail, usernameOrEmail)
    case Err(e) => Err(e)
    case Ok(None) => Err(UsernameNotFound("User not found with username or email: " + usernameOrEmail))
    case Ok(Some(u)) => Ok(u)
  }

  /** A user is loaded by its username when no other user has that text as email. */
  lemma LoadByUsername(t: UserTable, i: nat)
    requires WellFormed(t) && i < |t|
    requires forall j :: 0 <= j < |t| && j != i ==> t[j].email != t[i].username
    ensures LoadUserByUsername(t, t[i].username) == Ok(t[i])
  {
    var x := t[i].username;
    FindUniqueSingle(t, (u: User) => u.username == x || u.email == x, i);
  }
}
