/** The three job roles and the table that converts between role ids and roles. */
module Roles {
  import opened Wrappers

  datatype Role = Employee | Manager | Director
  {
    /** `id()`: the role's access level. */
    function Id(): (id: int)
      ensures 1 <= id <= 3
    {
      match this
      case Employee => 1
      case Manager => 2
      case Director => 3
    }

    /** The role's name, as shown to users and stored with permissions. */
    function RoleName(): string {
      match this
      case Employee => "Employee"
      case Manager => "Manager"
      case Director => "Director"
    }
  }

  /** `Role.values()`, in declaration order. */
  const AllRoles: seq<Role> := [Employee, Manager, Director]

  /** The contents of the static `roleMap` once the class is initialised. */
  const RoleMap: map<int, Role> := map[1 := Employee, 2 := Manager, 3 := Director]

  /**
   * The static initialiser: puts every role of `Role.values()` into an empty
   * map under its own id.
   */
  method BuildRoleMap() returns (m: map<int, Role>)
    ensures m == RoleMap
    ensures forall i :: i in m ==> m[i].Id() == i
  {
    m := map[];
    var k := 0;
    while k < |AllRoles|
      invariant 0 <= k <= |AllRoles|
      invariant m.Keys == set j | 0 <= j < k :: AllRoles[j].Id()
      invariant forall j :: 0 <= j < k ==> m[AllRoles[j].Id()] == AllRoles[j]
    {
      m := m[AllRoles[k].Id() := AllRoles[k]];
      k := k + 1;
    }
    assert m.Keys == {1, 2, 3} by {
      assert AllRoles[0].Id() == 1 && AllRoles[1].Id() == 2 && AllRoles[2].Id() == 3;
    }
  }

  /** `valueOf(roleID)`: the role with that id, or `null` when there is none. */
  function ValueOf(roleID: int): (r: Option<Role>)
    ensures r.Some? <==> 1 <= roleID <= 3
    ensures r.Some? ==> r.value.Id() == roleID
  {
    if roleID in RoleMap then Some(RoleMap[roleID]) else None
  }

  /**
   * `nameOf(roleID)`: the name of the role with that id. The lookup result is
   * dereferenced unchecked, so an id outside 1..3 fails with a null
   * dereference; the precondition keeps callers to the ids that exist.
   */
  function NameOf(roleID: int): (name: string)
    requires 1 <= roleID <= 3
    ensures exists r: Role :: r.Id() == roleID && r.RoleName() == name
  {
    RoleMap[roleID].RoleName()
  }

  /**
   * `idOf(name)`: walks the entries of `roleMap` in no particular order and
   * returns the key of the first role with that name, or 0 when no role has it.
   */
  method IdOf(roleNameToFind: string) returns (id: int)
    ensures id == 0 <==> forall r: Role :: r.RoleName() != roleNameToFind
    ensures forall r: Role :: r.RoleName() == roleNameToFind ==> id == r.Id()
  {
    var keys := RoleMap.Keys;
    while keys != {}
      invariant keys <= RoleMap.Keys
      invariant forall key :: key in RoleMap.Keys - keys ==> RoleMap[key].RoleName() != roleNameToFind
      decreases |keys|
    {
      var key :| key in keys;
      if RoleMap[key].RoleName() == roleNameToFind {
        NamesDistinct(RoleMap[key]);
        return key;
      }
      keys := keys - {key};
    }
    forall r: Role
      ensures r.RoleName() != roleNameToFind
    {
      assert r.Id() in RoleMap.Keys - keys && RoleMap[r.Id()] == r;
    }
    return 0;
  }

  /** Each role is found in `roleMap` under its own id. */
  lemma ValueOfId(r: Role)
    ensures ValueOf(r.Id()) == Some(r)
  {
  }

  /** No two roles share a name. */
  lemma NamesDistinct(r: Role)
    ensures forall s: Role :: s.RoleName() == r.RoleName() ==> s == r
  {
  }

  /** `idOf(nameOf(i)) == i`: a role id survives the trip through its name. */
  lemma NameOfRoundTrip(roleID: int)
    requires 1 <= roleID <= 3
    ensures ValueOf(roleID).Some? && ValueOf(roleID).value.RoleName() == NameOf(roleID)
    ensures forall r: Role :: r.RoleName() == NameOf(roleID) ==> r.Id() == roleID
  {
    NamesDistinct(RoleMap[roleID]);
  }
}
