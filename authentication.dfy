/**
 * The login session of the running application: who is logged in, their
 * staff number and the role they chose. Every database call is replaced by
 * its outcome, passed in by the caller.
 */
module Auth {
  import opened Wrappers
  import opened Roles

  /** The outcome of a database call: an `SQLException`, or the value it returned. */
  datatype DbResult<T> = SqlError | Returned(value: T)

  /**
   * What `getAvailableRoles` does: returns a (possibly `null`) array of role
   * names, or fails with a null dereference.
   */
  datatype AvailableRolesOutcome = Roles(names: Option<seq<string>>) | NullDereference

  /**
   * `getAvailableRoles(userID)`, given what `getHighestRoleByLogin(userID)`
   * does: `SqlError` stands for either exception it throws (a database error
   * or an unknown login), `Returned(None)` for a `null` level. An empty login
   * is refused before any lookup. Level 0 is a suspended account, level 1 an
   * employee; any other level is looked up with `nameOf` and listed before
   * "Employee", and `nameOf` dereferences `null` for a level outside 1..3
   * (`getHighestRoleByEmployee` returns 4 for a director of Human Resources).
   */
  function AvailableRoles(userID: string, highestRole: DbResult<Option<int>>): (r: AvailableRolesOutcome)
    ensures userID == [] ==> r == Roles(None)
    ensures r == Roles(None) <==> userID == [] || highestRole.SqlError? || highestRole == Returned(None)
    ensures r.NullDereference? <==>
              userID != [] && highestRole.Returned? && highestRole.value.Some? && !(0 <= highestRole.value.value <= 3)
    ensures r.Roles? && r.names.Some? ==>
              var h := highestRole.value.value;
              && r.names.value != []
              && (h == 0 <==> r.names.value == ["Suspended"])
              && (h >= 1 ==> r.names.value[0] == NameOf(h) && r.names.value[|r.names.value| - 1] == "Employee")
              && (h == 1 <==> r.names.value == ["Employee"])
              && (h >= 2 ==> |r.names.value| == 2)
              && (forall i, j :: 0 <= i < j < |r.names.value| ==> r.names.value[i] != r.names.value[j])
  {
    if userID == [] then Roles(None)
    else match highestRole
      case SqlError => Roles(None)
      case Returned(None) => Roles(None)
      case Returned(Some(h)) =>
        if h == 0 then Roles(Some(["Suspended"]))
        else if h == 1 then Roles(Some(["Employee"]))
        else if 2 <= h <= 3 then Roles(Some([NameOf(h), "Employee"]))
        else NullDereference
  }

  /** Every role name `getAvailableRoles` offers can be turned back into the level that offers it. */
  lemma AvailableRolesAreRoles(userID: string, h: int)
    requires 1 <= h <= 3
    ensures var r := AvailableRoles(userID, Returned(Some(h)));
            userID != [] ==>
              && r.Roles? && r.names.Some?
              && forall name :: name in r.names.value ==> exists role: Role :: role.RoleName() == name && role.Id() <= h
  {
    if userID != [] {
      NameOfRoundTrip(h);
      assert Employee.RoleName() == "Employee" && Employee.Id() == 1;
    }
  }

  class Authentication {
    /** The logged-in login name; `None` when nobody is logged in. */
    var user: Option<string>
    /** The logged-in employee's staff number. */
    var staffNo: Option<string>
    /** The role chosen at login. */
    var selectedRole: Option<Role>

    /** Nobody is logged in to begin with. */
    constructor ()
      ensures user == None && staffNo == None && selectedRole == None
      ensures !IsAuthenticated()
    {
      user := None;
      staffNo := None;
      selectedRole := None;
    }

    /** `isAuthenticated`: someone is logged in. */
    predicate IsAuthenticated()
      reads this
    {
      user.Some?
    }

    /**
     * `checkLogin(userID, password, authLevel)`. `storedPassword` is what
     * `getPassword` yields (`None` for no such login, or for a database error,
     * which is caught and leaves it `null`); `sessionAdded` tells whether
     * `addSession` succeeded; `staffLookup` is the outcome of
     * `getEmployeeIdByLogin`. An empty or wrong password changes nothing. On a
     * match the session is recorded, then the login and the role are stored
     * and the staff number looked up; when that lookup fails the login and
     * role stay set but the attempt still reports failure.
     */
    method CheckLogin(userID: string, password: string, authLevel: int,
                      storedPassword: Option<string>, sessionAdded: bool, staffLookup: DbResult<Option<string>>)
      returns (success: bool)
      modifies this
      ensures var matched := password != [] && storedPassword == Some(password) && sessionAdded;
              && (success <==> matched && staffLookup.Returned?)
              && (matched ==> user == Some(userID) && selectedRole == ValueOf(authLevel))
              && (!matched ==> user == old(user) && selectedRole == old(selectedRole))
              && (matched && staffLookup.Returned? ==> staffNo == staffLookup.value)
              && (!success ==> staffNo == old(staffNo))
      ensures success ==> IsAuthenticated()
    {
      if password == [] {
        return false;
      }
      var correctPassword := storedPassword;
      if correctPassword != None {
        if password == correctPassword.value {
          if !sessionAdded {
            return false;
          }
          user := Some(userID);
          selectedRole := ValueOf(authLevel);
          if staffLookup.SqlError? {
            return false;
          }
          staffNo := staffLookup.value;
          return true;
        }
      }
      return false;
    }

    /**
     * `logout`: forgets the login whether or not the session could be
     * deleted; the staff number and the selected role are kept.
     */
    method Logout()
      modifies this
      ensures user == None && staffNo == old(staffNo) && selectedRole == old(selectedRole)
      ensures !IsAuthenticated()
    {
      user := None;
    }
  }
}
