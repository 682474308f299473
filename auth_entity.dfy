/** The authentication entities of the backend: `User` (a value: the service copies it,
    changes fields and saves it back), and `Role` and `Permission`, whose many-to-many
    association both sides keep in sets that `Role` updates in place. */
module AuthEntity {
  import opened Wrappers
  import opened Passwords

  class Permission {
    const name: string
    var description: Option<string>
    /** The inverse side of `role_permissions`. */
    var roles: set<Role>

    /** `Permission(name, description)`: no role holds it yet. */
    constructor (name: string, description: Option<string>)
      ensures this.name == name && this.description == description && roles == {}
    {
      this.name := name;
      this.description := description;
      roles := {};
    }
  }

  class Role {
    const name: string
    var description: Option<string>
    /** The inverse side of `user_roles`. */
    var users: set<User>
    var permissions: set<Permission>

    /** `Role(name, description)`: no users and no permissions. */
    constructor (name: string, description: Option<string>)
      ensures this.name == name && this.description == description
      ensures users == {} && permissions == {}
    {
      this.name := name;
      this.description := description;
      users := {};
      permissions := {};
    }

    /** `addPermission`: the permission joins this role's set and this role joins the
        permission's set. Both are sets, so adding twice changes nothing more. */
    method AddPermission(p: Permission)
      modifies this, p
      ensures permissions == old(permissions) + {p}
      ensures p.roles == old(p.roles) + {this}
      ensures users == old(users) && description == old(description) && p.description == old(p.description)
    {
      permissions := permissions + {p};
      p.roles := p.roles + {this};
    }

    /** `removePermission`: afterwards neither side holds the other. This is the behaviour
        with identity-based set membership; as written, the role's hash code covers its
        permission set, which the `RoleHashing` module shows breaks the second removal. */
    method RemovePermission(p: Permission)
      modifies this, p
      ensures permissions == old(permissions) - {p}
      ensures p.roles == old(p.roles) - {this}
      ensures users == old(users) && description == old(description) && p.description == old(p.description)
    {
      permissions := permissions - {p};
      p.roles := p.roles - {this};
    }
  }

  /** Calling `addPermission` twice leaves both sides as one call does. */
  method AddPermissionTwice(r: Role, p: Permission)
    modifies r, p
    ensures r.permissions == old(r.permissions) + {p} && p.roles == old(p.roles) + {r}
  {
    r.AddPermission(p);
    r.AddPermission(p);
  }

  /** Adding and removing `p` leaves the role set of every other permission as it was. */
  method AddRemoveKeepOthers(r: Role, p: Permission, q: Permission)
    requires q != p
    modifies r, p
    ensures q.roles == old(q.roles)
    ensures p !in r.permissions && r !in p.roles
  {
    r.AddPermission(p);
    assert q.roles == old(q.roles);
    r.RemovePermission(p);
  }

  /** A user row. `id` is the generated key (0 before the first save); timestamps and the
      token collections are not modelled. */
  datatype User = User(
    id: nat,
    username: string,
    email: string,
    password: PasswordHash,
    firstName: string,
    lastName: string,
    phoneNumber: Option<string>,
    isVerified: bool,
    isEnabled: bool,
    licenseNumber: Option<string>,
    medicalSpecialty: Option<string>,
    hospitalAffiliation: Option<string>,
    isHealthcareProvider: bool,
    providerVerified: bool,
    roles: set<Role>)

  /** `User.builder()` with the given identity fields: every `@Builder.Default` applies. */
  function NewUser(username: string, email: string, password: PasswordHash, firstName: string, lastName: string,
                   phoneNumber: Option<string>): (u: User)
    ensures !u.isVerified && u.isEnabled && !u.isHealthcareProvider && !u.providerVerified && u.roles == {}
    ensures u.username == username && u.email == email && u.password == password
    ensures !UserDetailsEnabled(u) && IsAccountNonLocked(u)
  {
    User(0, username, email, password, firstName, lastName, phoneNumber,
         false, true, None, None, None, false, false, {})
  }

  /** `getAuthorities`: the names of the permissions of all the user's roles. */
  function Authorities(u: User): (a: set<string>)
    reads u.roles
    ensures forall r, p :: r in u.roles && p in r.permissions ==> p.name in a
    ensures forall n :: n in a ==> exists r, p :: r in u.roles && p in r.permissions && p.name == n
  {
    set r, p | r in u.roles && p in r.permissions :: p.name
  }

  /** Role names never become authorities by themselves: a user whose roles carry no
      permissions has none. */
  lemma RolesWithoutPermissionsGrantNothing(u: User)
    requires forall r :: r in u.roles ==> r.permissions == {}
    ensures Authorities(u) == {}
  {
  }

  /** Two users with the same roles have the same authorities, however many roles share
      a permission name. */
  lemma AuthoritiesDependOnlyOnRoles(u: User, v: User)
    requires u.roles == v.roles
    ensures Authorities(u) == Authorities(v)
  {
  }

  /** `UserDetails.isEnabled()`: enabled and verified. */
  predicate UserDetailsEnabled(u: User)
  {
    u.isEnabled && u.isVerified
  }

  /** `isAccountNonLocked()`: the enabled flag alone. */
  predicate IsAccountNonLocked(u: User)
  {
    u.isEnabled
  }

  /** `isAccountNonExpired()` and `isCredentialsNonExpired()`. */
  predicate IsAccountNonExpired(u: User)
  {
    true
  }

  predicate IsCredentialsNonExpired(u: User)
  {
    true
  }

  /** How the four flags relate: an enabled account is unlocked, an unverified one is not
      enabled even when unlocked, and nothing ever expires. */
  lemma AccountFlags(u: User)
    ensures UserDetailsEnabled(u) <==> IsAccountNonLocked(u) && u.isVerified
    ensures !u.isVerified ==> !UserDetailsEnabled(u)
    ensures IsAccountNonExpired(u) && IsCredentialsNonExpired(u)
  {
  }

  /** `getFullName`: the first name, a space, the last name. */
  function FullName(u: User): (n: string)
    ensures |n| == |u.firstName| + 1 + |u.lastName|
    ensures n[..|u.firstName|] == u.firstName && n[|u.firstName|] == ' ' && n[|u.firstName| + 1..] == u.lastName
  {
    u.firstName + " " + u.lastName
  }
}
