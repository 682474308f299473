/** `Role.addPermission`/`removePermission` as the code runs them on `java.util.HashSet`.

    Lombok's `@Data` gives `Role` an `equals`/`hashCode` over id, name, description and
    the `permissions` set (only `users` is excluded), and `Permission` one over id, name and
    description. A `HashSet` files each element under the hash code it had when it was
    added and later finds it only under that same code. `addPermission` changes the role's
    permission set before adding the role to `permission.roles`, and `removePermission`
    changes it again before removing the role, so the removal looks under a different code
    and the role stays in `permission.roles`.

    Roles and permissions are values here; a role's object identity is the number `ref`.
    Hash codes are Java `int`s; `Long.hashCode` of an id is exact for ids below 2^32.
    Strings hash by their characters as UTF-16 code units, which is exact for the Basic
    Multilingual Plane. */
module RoleHashing {
  import opened Wrappers

  const TwoTo31: int := 0x8000_0000
  const TwoTo32: int := 0x1_0000_0000

  /** Two's-complement wrap-around into a Java `int`. */
  function Wrap(x: int): (r: int)
    ensures -TwoTo31 <= r < TwoTo31
  {
    (x + TwoTo31) % TwoTo32 - TwoTo31
  }

  /** Wrapping subtracts a whole number of 2^32 steps. */
  lemma WrapSteps(x: int)
    ensures Wrap(x) == x - TwoTo32 * ((x + TwoTo31) / TwoTo32)
  {
  }

  /** `String.hashCode`: h = 31 * h + c over the characters, in `int` arithmetic. */
  function StringHash(s: string): int
  {
    if |s| == 0 then 0 else Wrap(31 * StringHash(s[..|s| - 1]) + s[|s| - 1] as int)
  }

  /** Lombok's contribution of a nullable field: 43 for null. */
  function TextHash(s: Option<string>): int
  {
    match s
    case None => 43
    case Some(t) => StringHash(t)
  }

  function IdHash(id: Option<nat>): int
  {
    match id
    case None => 43
    case Some(v) => Wrap(v)
  }

  datatype PermissionValue = PermissionValue(id: Option<nat>, name: Option<string>, description: Option<string>)

  /** `Permission.hashCode()`: id, name, description (the `roles` set is excluded). */
  function PermissionHash(p: PermissionValue): int
  {
    Wrap(Wrap(Wrap(59 + IdHash(p.id)) * 59 + TextHash(p.name)) * 59 + TextHash(p.description))
  }

  /** The elements of a role's `permissions` set, each once. */
  datatype RoleValue = RoleValue(id: Option<nat>, name: Option<string>, description: Option<string>, permissions: seq<PermissionValue>)

  function HashSum(ps: seq<PermissionValue>): int
  {
    if |ps| == 0 then 0 else HashSum(ps[..|ps| - 1]) + PermissionHash(ps[|ps| - 1])
  }

  /** `AbstractSet.hashCode()`: the sum of the element hash codes, in `int` arithmetic. */
  function SetHash(ps: seq<PermissionValue>): int
  {
    Wrap(HashSum(ps))
  }

  /** The running Lombok hash of a role after id, name and description. */
  function RoleFieldsHash(r: RoleValue): int
  {
    Wrap(Wrap(Wrap(59 + IdHash(r.id)) * 59 + TextHash(r.name)) * 59 + TextHash(r.description))
  }

  /** `Role.hashCode()`: id, name, description and then the permission set. */
  function RoleHash(r: RoleValue): int
  {
    Wrap(RoleFieldsHash(r) * 59 + SetHash(r.permissions))
  }

  /** An element of a `HashSet<Role>`: the role's identity and the hash it was filed under. */
  datatype HashEntry = HashEntry(ref: nat, hash: int)

  predicate Filed(entries: seq<HashEntry>, ref: nat, hash: int)
  {
    HashEntry(ref, hash) in entries
  }

  /** `HashSet.add`: a no-op when the element is found under its current hash. */
  function HashSetAdd(entries: seq<HashEntry>, ref: nat, hash: int): seq<HashEntry>
  {
    if Filed(entries, ref, hash) then entries else entries + [HashEntry(ref, hash)]
  }

  /** `HashSet.remove`: removes the element only where it is filed under its current hash. */
  function HashSetRemove(entries: seq<HashEntry>, ref: nat, hash: int): (r: seq<HashEntry>)
    ensures !Filed(r, ref, hash)
  {
    if |entries| == 0 then []
    else if entries[0] == HashEntry(ref, hash) then HashSetRemove(entries[1..], ref, hash)
    else [entries[0]] + HashSetRemove(entries[1..], ref, hash)
  }

  function Without(ps: seq<PermissionValue>, p: PermissionValue): (r: seq<PermissionValue>)
    ensures p !in r
    ensures p !in ps ==> r == ps
  {
    if |ps| == 0 then []
    else if ps[0] == p then Without(ps[1..], p)
    else [ps[0]] + Without(ps[1..], p)
  }

  /** `addPermission(p)` as written: `permissions.add(p)`, then `p.getRoles().add(this)`
      under the role's new hash code. */
  function AddPermissionAsWritten(role: RoleValue, ref: nat, p: PermissionValue, pRoles: seq<HashEntry>): (r: (RoleValue, seq<HashEntry>))
    ensures p in r.0.permissions && forall q :: q in role.permissions ==> q in r.0.permissions
    ensures Filed(r.1, ref, RoleHash(r.0)) && forall e :: e in pRoles ==> e in r.1
  {
    var role' := if p in role.permissions then role else role.(permissions := role.permissions + [p]);
    (role', HashSetAdd(pRoles, ref, RoleHash(role')))
  }

  /** `removePermission(p)` as written: `permissions.remove(p)`, then
      `p.getRoles().remove(this)` under the role's new hash code. */
  function RemovePermissionAsWritten(role: RoleValue, ref: nat, p: PermissionValue, pRoles: seq<HashEntry>): (r: (RoleValue, seq<HashEntry>))
    ensures p !in r.0.permissions
    ensures !Filed(r.1, ref, RoleHash(r.0))
  {
    var role' := role.(permissions := Without(role.permissions, p));
    (role', HashSetRemove(pRoles, ref, RoleHash(role')))
  }

  lemma WrapAbsorbs(a: int, b: int)
    ensures Wrap(a + Wrap(b)) == Wrap(a + b)
  {
    var k := (b + TwoTo31) / TwoTo32;
    WrapSteps(b);
    var x := a + b + TwoTo31;
    assert (x - TwoTo32 * k) % TwoTo32 == x % TwoTo32 by {
      var q := x / TwoTo32;
      assert x - TwoTo32 * k == TwoTo32 * (q - k) + x % TwoTo32;
    }
  }

  /** Adding a Java `int` other than zero always changes a wrapped sum. */
  lemma WrapShifts(a: int, q: int)
    requires -TwoTo31 <= q < TwoTo31 && q != 0
    ensures Wrap(a + q) != Wrap(a)
  {
    var k1 := (a + q + TwoTo31) / TwoTo32;
    var k2 := (a + TwoTo31) / TwoTo32;
    WrapSteps(a + q);
    WrapSteps(a);
    var d := Wrap(a + q) - Wrap(a);
    assert d == q - TwoTo32 * (k1 - k2);
    if k1 - k2 >= 1 {
      assert d < 0;
    } else if k1 - k2 <= -1 {
      assert d > 0;
    } else {
      assert d == q;
    }
  }

  /** `HashSet.remove` keeps every element other than the one it looks for. */
  lemma {:induction false} RemoveKeepsOthers(entries: seq<HashEntry>, ref: nat, hash: int, e: HashEntry)
    requires e in entries && e != HashEntry(ref, hash)
    ensures e in HashSetRemove(entries, ref, hash)
  {
    if entries[0] != e {
      assert e in entries[1..];
      RemoveKeepsOthers(entries[1..], ref, hash, e);
    }
  }

  /** Adding a permission whose hash code is not zero changes the role's hash code. */
  lemma AddingChangesRoleHash(role: RoleValue, p: PermissionValue)
    requires PermissionHash(p) != 0
    ensures RoleHash(role.(permissions := role.permissions + [p])) != RoleHash(role)
  {
    var base := RoleFieldsHash(role) * 59;
    var sum := HashSum(role.permissions);
    var q := PermissionHash(p);
    var role1 := role.(permissions := role.permissions + [p]);
    assert RoleFieldsHash(role1) == RoleFieldsHash(role);
    HashSumAppend(role.permissions, p);
    RoleHashParts(role1);
    RoleHashParts(role);
    ShiftedSumsDiffer(base, sum, q);
  }

  lemma RoleHashParts(r: RoleValue)
    ensures RoleHash(r) == Wrap(RoleFieldsHash(r) * 59 + Wrap(HashSum(r.permissions)))
  {
  }

  /** Adding a non-zero Java `int` to the inner sum changes the outer wrapped sum. */
  lemma ShiftedSumsDiffer(base: int, sum: int, q: int)
    requires -TwoTo31 <= q < TwoTo31 && q != 0
    ensures Wrap(base + Wrap(sum + q)) != Wrap(base + Wrap(sum))
  {
    WrapAbsorbs(base, sum + q);
    WrapAbsorbs(base, sum);
    assert base + (sum + q) == (base + sum) + q;
    WrapShifts(base + sum, q);
  }

  lemma HashSumAppend(ps: seq<PermissionValue>, p: PermissionValue)
    ensures HashSum(ps + [p]) == HashSum(ps) + PermissionHash(p)
  {
    assert (ps + [p])[..|ps|] == ps;
  }

  /** The discrepancy: when the permission's hash code is not zero, removing it right after
      adding it leaves the role filed in `p.roles` under its stale hash, although the role no
      longer holds the permission. */
  lemma {:induction false} RemoveAfterAddLeavesRole(role: RoleValue, ref: nat, p: PermissionValue, pRoles: seq<HashEntry>)
    requires p !in role.permissions
    requires forall i :: 0 <= i < |pRoles| ==> pRoles[i].ref != ref
    requires PermissionHash(p) != 0
    ensures var (role1, roles1) := AddPermissionAsWritten(role, ref, p, pRoles);
            var (role2, roles2) := RemovePermissionAsWritten(role1, ref, p, roles1);
            p !in role2.permissions && Filed(roles2, ref, RoleHash(role1))
  {
    var (role1, roles1) := AddPermissionAsWritten(role, ref, p, pRoles);
    assert role1.permissions == role.permissions + [p];
    assert !Filed(pRoles, ref, RoleHash(role1));
    assert roles1 == pRoles + [HashEntry(ref, RoleHash(role1))];
    var (role2, roles2) := RemovePermissionAsWritten(role1, ref, p, roles1);
    assert Without(role1.permissions, p) == role.permissions by {
      WithoutAppend(role.permissions, p);
    }
    assert role2 == role;
    AddingChangesRoleHash(role, p);
    RemoveKeepsOthers(roles1, ref, RoleHash(role2), HashEntry(ref, RoleHash(role1)));
  }

  lemma {:induction false} WithoutAppend(ps: seq<PermissionValue>, p: PermissionValue)
    requires p !in ps
    ensures Without(ps + [p], p) == ps
  {
    if |ps| > 0 {
      assert (ps + [p])[1..] == ps[1..] + [p];
      WithoutAppend(ps[1..], p);
    }
  }

  /** A concrete instance: a new permission named "READ" (no id, no description) has hash
      code 148519091, so it triggers the discrepancy for every role. */
  lemma ReadPermissionHash()
    ensures PermissionHash(PermissionValue(None, Some("READ"), None)) == 148519091
  {
    assert StringHash("R") == 82;
    assert StringHash("RE") == 2611 by { assert "RE"[..1] == "R"; }
    assert StringHash("REA") == 81006 by { assert "REA"[..2] == "RE"; }
    assert StringHash("READ") == 2511254 by { assert "READ"[..3] == "REA"; }
  }
}
