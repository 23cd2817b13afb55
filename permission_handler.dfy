/**
 * Capability strings and the tiered grant check.
 *
 * A capability string names a kind of record, an action and a scope, as in
 * `records.personaldetails.view.self`. Deciding an attempt first builds the
 * ordered list of strings that would allow it, then looks them up in three
 * grant tables in turn: grants to the actor's role level, grants to the
 * actor's department, grants to the actor's login. The grant tables and the
 * department directory are a `Directory` value: which lookups would find a
 * row, which would fail with a database error, and the department id of each
 * staff number whose lookup succeeds.
 */
module Permissions {
  import opened Wrappers
  import opened Text
  import opened RecordTypes
  import opened ActionTypes
  import opened Roles
  import opened Records

  // ---------------------------------------------------------------------
  // Generating the capability strings

  /** The kind's segment: its display name lower-cased, spaces removed. */
  function KindSegment(k: RecordType): string {
    RemoveSpaces(ToLower(k.ToString()))
  }

  /** `records.<kind>.<action>.`, the common prefix of the scoped strings. */
  function ScopeBase(k: RecordType, action: ActionType): string {
    "records." + KindSegment(k) + "." + ToLower(action.Name()) + "."
  }

  /** The value a record holds under `employeeId`, `null` when it has none. */
  function TargetEmployeeId(target: Record): Value
    reads target
    requires target.recordValues.Some?
  {
    Lookup(target.recordValues.value, "employeeId")
  }

  /**
   * `generatePermissionStrings`: the capability strings that would allow
   * `action` on `target`. Creating needs the kind's `create` capability and
   * never reads the map, which may then be `null`. Viewing and modifying need
   * one of the scoped strings below. Approving has no capability string yet.
   * `userId` and `authRole` are accepted but unused.
   */
  function GeneratePermissionStrings(userId: string, staffNo: Option<string>, authRole: Role,
                                     action: ActionType, target: Record): (perms: seq<string>)
    reads target
    requires action == View || action == Modify ==> target.recordValues.Some?
    ensures action == Create ==> perms == ["records." + ToLower(target.recordType.Name()) + ".create"]
    ensures action == Approve ==> perms == []
    ensures action == View || action == Modify ==>
              perms == ScopedStrings(ScopeBase(target.recordType, action), staffNo, TargetEmployeeId(target))
  {
    match action
    case Create =>
      KindSegmentIsLowerName(target.recordType);
      ["records." + KindSegment(target.recordType) + ".create"]
    case View | Modify =>
      var basePerm := ScopeBase(target.recordType, action);
      ScopedStrings(basePerm, staffNo, Lookup(target.recordValues.value, "employeeId"))
    case Approve =>
      []
  }

  /**
   * The strings for viewing or modifying a record whose `employeeId` is
   * `targetEmployeeId`: the `self` scope when the record belongs to the actor,
   * then the `*` scope, always, then the scope of the record's own employee
   * id when it has one.
   */
  function ScopedStrings(basePerm: string, staffNo: Option<string>, targetEmployeeId: Value): (perms: seq<string>)
    ensures 1 <= |perms| <= 3
    ensures basePerm + "*" in perms
    ensures forall p :: p in perms <==> (|| p == basePerm + "*"
                                          || (targetEmployeeId.Some? && p == basePerm + targetEmployeeId.value)
                                          || (targetEmployeeId.Some? && targetEmployeeId == staffNo && p == basePerm + "self"))
    ensures perms[0] == basePerm + "self" <==> targetEmployeeId.Some? && targetEmployeeId == staffNo
    ensures perms[|perms| - 1] == basePerm + "*" <==> targetEmployeeId.None? || targetEmployeeId == Some("*")
    ensures var self := if targetEmployeeId.Some? && targetEmployeeId == staffNo then 1 else 0;
            && |perms| == self + 1 + (if targetEmployeeId.Some? then 1 else 0)
            && (self == 1 ==> perms[0] == basePerm + "self")
            && perms[self] == basePerm + "*"
            && (targetEmployeeId.Some? ==> perms[self + 1] == basePerm + targetEmployeeId.value)
  {
    var selfPerm := if targetEmployeeId != None && targetEmployeeId == staffNo then [basePerm + "self"] else [];
    var allPerm := [basePerm + "*"];
    var directPerm := if targetEmployeeId != None then [basePerm + targetEmployeeId.value] else [];
    ScopedStringsDiffer(basePerm, targetEmployeeId);
    selfPerm + allPerm + directPerm
  }

  /**
   * The `self` and `*` scopes are different strings, and the employee-id
   * scope differs from the `*` scope unless the employee id is itself "*".
   */
  lemma ScopedStringsDiffer(base: string, id: Value)
    ensures base + "self" != base + "*"
    ensures id.Some? ==> (base + id.value == base + "*" <==> id.value == "*")
  {
    assert (base + "self")[|base|] == 's' && (base + "*")[|base|] == '*';
    if id.Some? {
      assert (base + id.value)[|base|..] == id.value;
      assert (base + "*")[|base|..] == "*";
    }
  }

  /** The kind segment is the lower-cased name of the kind's table. */
  lemma KindSegmentIsLowerName(k: RecordType)
    ensures KindSegment(k) == ToLower(k.Name())
  {
    LowerRemoveSpaces(k.ToString());
    DisplayNameWithoutSpaces(k);
  }

  /**
   * Only the actor's staff number, the action, the record's kind and the
   * record's employee id matter: the login, the role and every other value of
   * the record do not.
   */
  lemma GenerationInputs(u1: string, u2: string, staffNo: Option<string>, r1: Role, r2: Role,
                         action: ActionType, t1: Record, t2: Record)
    requires t1.recordType == t2.recordType
    requires action == View || action == Modify ==>
               t1.recordValues.Some? && t2.recordValues.Some? && TargetEmployeeId(t1) == TargetEmployeeId(t2)
    ensures GeneratePermissionStrings(u1, staffNo, r1, action, t1) == GeneratePermissionStrings(u2, staffNo, r2, action, t2)
  {
  }

  // ---------------------------------------------------------------------
  // The grant oracle

  /** The three grant tables. */
  datatype Tier =
    | RoleTier(roleLevel: int)
    | DepartmentTier(departmentId: int)
    | UserTier(userId: string)

  /** One lookup: is `permission` granted in `tier`? */
  datatype Query = Query(tier: Tier, permission: string)

  /**
   * The database as the check sees it: the lookups that find a row, the
   * lookups that fail with an `SQLException`, and the department id of every
   * staff number whose department lookup succeeds (a staff number that is not
   * a key makes that lookup fail).
   */
  datatype Directory = Directory(granted: set<Query>, failing: set<Query>, departments: map<Option<string>, int>)

  /** What a lookup returns: a row, no row, or a database error. */
  datatype Answer = Found | NotFound | Failed

  /** One call to the database, as recorded in a trace. */
  datatype Call = Check(query: Query) | DepartmentLookup(staffNo: Option<string>)

  /** The outcome of one tier: a grant found, none found, or a database error. */
  datatype TierOutcome = Hit | Miss | Fault

  function Ask(d: Directory, q: Query): Answer {
    if q in d.failing then Failed else if q in d.granted then Found else NotFound
  }

  /** The position at which a tier stops: the first lookup that does not answer "no row". */
  function StopAt(d: Directory, tier: Tier, perms: seq<string>): (n: nat)
    ensures n <= |perms|
    ensures forall j :: 0 <= j < n ==> Ask(d, Query(tier, perms[j])) == NotFound
    ensures n < |perms| ==> Ask(d, Query(tier, perms[n])) != NotFound
  {
    if perms == [] then 0
    else if Ask(d, Query(tier, perms[0])) != NotFound then 0
    else 1 + StopAt(d, tier, perms[1..])
  }

  /** The outcome of looking the strings up one after another in one tier. */
  function ScanTier(d: Directory, tier: Tier, perms: seq<string>): TierOutcome {
    var n := StopAt(d, tier, perms);
    if n == |perms| then Miss
    else if Ask(d, Query(tier, perms[n])) == Found then Hit
    else Fault
  }

  /** The lookups a tier issues: every string up to and including the one it stops at. */
  function Consulted(d: Directory, tier: Tier, perms: seq<string>): seq<Call> {
    var n := StopAt(d, tier, perms);
    var upTo := if n < |perms| then n + 1 else n;
    seq(upTo, j requires 0 <= j < upTo => Check(Query(tier, perms[j])))
  }

  /**
   * The verdict: the role tier; then, unless it decided, the department
   * lookup and the department tier; then, unless that decided, the user tier.
   * A hit allows, a database error denies, and so does a failed department
   * lookup.
   */
  function Decision(d: Directory, roleLevel: int, staffNo: Option<string>, userId: string, perms: seq<string>): bool {
    match ScanTier(d, RoleTier(roleLevel), perms)
    case Hit => true
    case Fault => false
    case Miss =>
      if staffNo !in d.departments then false
      else
        match ScanTier(d, DepartmentTier(d.departments[staffNo]), perms)
        case Hit => true
        case Fault => false
        case Miss => ScanTier(d, UserTier(userId), perms) == Hit
  }

  /** The calls the verdict makes, in order. */
  function DecisionTrace(d: Directory, roleLevel: int, staffNo: Option<string>, userId: string, perms: seq<string>): seq<Call> {
    var roleCalls := Consulted(d, RoleTier(roleLevel), perms);
    if ScanTier(d, RoleTier(roleLevel), perms) != Miss then roleCalls
    else if staffNo !in d.departments then roleCalls + [DepartmentLookup(staffNo)]
    else
      var deptTier := DepartmentTier(d.departments[staffNo]);
      var deptCalls := roleCalls + [DepartmentLookup(staffNo)] + Consulted(d, deptTier, perms);
      if ScanTier(d, deptTier, perms) != Miss then deptCalls
      else deptCalls + Consulted(d, UserTier(userId), perms)
  }

  // ---------------------------------------------------------------------
  // The check

  /**
   * One `try { for (perm : targetPerms) ... }` block of `hasPermission`:
   * looks the strings up in order and stops at the first row found or the
   * first database error.
   */
  method CheckTier(d: Directory, tier: Tier, perms: seq<string>) returns (outcome: TierOutcome, ghost calls: seq<Call>)
    ensures outcome == ScanTier(d, tier, perms)
    ensures calls == Consulted(d, tier, perms)
  {
    calls := [];
    for i := 0 to |perms|
      invariant forall j :: 0 <= j < i ==> Ask(d, Query(tier, perms[j])) == NotFound
      invariant calls == seq(i, j requires 0 <= j < i => Check(Query(tier, perms[j])))
    {
      var query := Query(tier, perms[i]);
      calls := calls + [Check(query)];
      var answer := Ask(d, query);
      if answer == Failed {
        StopAtFirst(d, tier, perms, i);
        return Fault, calls;
      }
      if answer == Found {
        StopAtFirst(d, tier, perms, i);
        return Hit, calls;
      }
    }
    StopAtFirst(d, tier, perms, |perms|);
    return Miss, calls;
  }

  /** A tier stops at the first position whose lookup does not answer "no row". */
  lemma StopAtFirst(d: Directory, tier: Tier, perms: seq<string>, i: int)
    requires 0 <= i <= |perms|
    requires forall j :: 0 <= j < i ==> Ask(d, Query(tier, perms[j])) == NotFound
    requires i < |perms| ==> Ask(d, Query(tier, perms[i])) != NotFound
    ensures StopAt(d, tier, perms) == i
  {
  }

  /**
   * `hasPermission`: generates the capability strings and checks the role
   * tier, resolves the actor's department and checks the department tier,
   * then checks the user tier. The first grant found allows; a database error
   * denies at once; so does a failed department lookup. `calls` is the trace
   * of database calls made.
   */
  method HasPermission(d: Directory, userId: string, staffNo: Option<string>, authRole: Role,
                       action: ActionType, targetRecord: Record) returns (allowed: bool, ghost calls: seq<Call>)
    requires action == View || action == Modify ==> targetRecord.recordValues.Some?
    ensures allowed == Decision(d, authRole.Id(), staffNo, userId,
                                GeneratePermissionStrings(userId, staffNo, authRole, action, targetRecord))
    ensures calls == DecisionTrace(d, authRole.Id(), staffNo, userId,
                                   GeneratePermissionStrings(userId, staffNo, authRole, action, targetRecord))
  {
    var targetPerms := GeneratePermissionStrings(userId, staffNo, authRole, action, targetRecord);
    allowed, calls := CheckTiers(d, userId, staffNo, authRole.Id(), targetPerms);
  }

  /** The three tiers of `hasPermission`, in order, over the generated strings. */
  method CheckTiers(d: Directory, userId: string, staffNo: Option<string>, roleLevel: int, targetPerms: seq<string>)
    returns (allowed: bool, ghost calls: seq<Call>)
    ensures allowed == Decision(d, roleLevel, staffNo, userId, targetPerms)
    ensures calls == DecisionTrace(d, roleLevel, staffNo, userId, targetPerms)
  {
    var outcome, tierCalls := CheckTier(d, RoleTier(roleLevel), targetPerms);
    calls := tierCalls;
    if outcome == Hit {
      return true, calls;
    } else if outcome == Fault {
      return false, calls;
    }
    calls := calls + [DepartmentLookup(staffNo)];
    if staffNo !in d.departments {
      return false, calls;
    }
    var employeeDepartment := d.departments[staffNo];
    outcome, tierCalls := CheckTier(d, DepartmentTier(employeeDepartment), targetPerms);
    calls := calls + tierCalls;
    if outcome == Hit {
      return true, calls;
    } else if outcome == Fault {
      return false, calls;
    }
    outcome, tierCalls := CheckTier(d, UserTier(userId), targetPerms);
    calls := calls + tierCalls;
    return outcome == Hit, calls;
  }

  // ---------------------------------------------------------------------
  // Properties of the verdict

  /** With no database error, a tier hits exactly when one of the strings is granted in it. */
  lemma ScanWithoutFailures(d: Directory, tier: Tier, perms: seq<string>)
    requires forall p :: p in perms ==> Query(tier, p) !in d.failing
    ensures ScanTier(d, tier, perms) != Fault
    ensures ScanTier(d, tier, perms) == Hit <==> exists p :: p in perms && Query(tier, p) in d.granted
  {
    var n := StopAt(d, tier, perms);
    if n == |perms| {
      forall p | p in perms
        ensures Query(tier, p) !in d.granted
      {
        var j :| 0 <= j < |perms| && perms[j] == p;
        assert Ask(d, Query(tier, perms[j])) == NotFound;
      }
    }
  }

  /**
   * With no database error and a resolvable department, the attempt is
   * allowed exactly when one of the strings is granted to the role, to the
   * department or to the user.
   */
  lemma AllowedIffGranted(d: Directory, roleLevel: int, staffNo: Option<string>, userId: string, perms: seq<string>)
    requires d.failing == {}
    requires staffNo in d.departments
    ensures Decision(d, roleLevel, staffNo, userId, perms) <==>
            exists p :: p in perms && (Query(RoleTier(roleLevel), p) in d.granted
                                       || Query(DepartmentTier(d.departments[staffNo]), p) in d.granted
                                       || Query(UserTier(userId), p) in d.granted)
  {
    ScanWithoutFailures(d, RoleTier(roleLevel), perms);
    ScanWithoutFailures(d, DepartmentTier(d.departments[staffNo]), perms);
    ScanWithoutFailures(d, UserTier(userId), perms);
  }

  /** An allowed attempt always rests on a grant of one of its strings in one of the three tiers. */
  lemma AllowedOnlyByGrant(d: Directory, roleLevel: int, staffNo: Option<string>, userId: string, perms: seq<string>)
    requires Decision(d, roleLevel, staffNo, userId, perms)
    ensures exists p :: p in perms && (Query(RoleTier(roleLevel), p) in d.granted
                                       || (staffNo in d.departments && Query(DepartmentTier(d.departments[staffNo]), p) in d.granted)
                                       || Query(UserTier(userId), p) in d.granted)
  {
    var roleTier := RoleTier(roleLevel);
    if ScanTier(d, roleTier, perms) == Hit {
      var n := StopAt(d, roleTier, perms);
      assert perms[n] in perms && Query(roleTier, perms[n]) in d.granted;
    } else {
      var deptTier := DepartmentTier(d.departments[staffNo]);
      if ScanTier(d, deptTier, perms) == Hit {
        var n := StopAt(d, deptTier, perms);
        assert perms[n] in perms && Query(deptTier, perms[n]) in d.granted;
      } else {
        var n := StopAt(d, UserTier(userId), perms);
        assert perms[n] in perms && Query(UserTier(userId), perms[n]) in d.granted;
      }
    }
  }

  /** More grants never turn a hit into anything else, nor a miss into a database error. */
  lemma {:induction false} ScanMonotone(d1: Directory, d2: Directory, tier: Tier, perms: seq<string>)
    requires d1.granted <= d2.granted && d1.failing == d2.failing
    ensures ScanTier(d1, tier, perms) == Hit ==> ScanTier(d2, tier, perms) == Hit
    ensures ScanTier(d1, tier, perms) == Miss ==> ScanTier(d2, tier, perms) != Fault
  {
    if perms != [] {
      var q := Query(tier, perms[0]);
      if Ask(d1, q) == NotFound && Ask(d2, q) == NotFound {
        ScanMonotone(d1, d2, tier, perms[1..]);
        ScanOfTail(d1, tier, perms);
        ScanOfTail(d2, tier, perms);
      }
    }
  }

  /** Past a first lookup that answers "no row", a tier goes on as if on the remaining strings. */
  lemma ScanOfTail(d: Directory, tier: Tier, perms: seq<string>)
    requires perms != [] && Ask(d, Query(tier, perms[0])) == NotFound
    ensures ScanTier(d, tier, perms) == ScanTier(d, tier, perms[1..])
  {
    assert StopAt(d, tier, perms) == 1 + StopAt(d, tier, perms[1..]);
  }

  /** Granting more can only turn a denial into an allowance, never the other way round. */
  lemma DecisionMonotone(d1: Directory, d2: Directory, roleLevel: int, staffNo: Option<string>, userId: string, perms: seq<string>)
    requires d1.granted <= d2.granted && d1.failing == d2.failing && d1.departments == d2.departments
    requires Decision(d1, roleLevel, staffNo, userId, perms)
    ensures Decision(d2, roleLevel, staffNo, userId, perms)
  {
    ScanMonotone(d1, d2, RoleTier(roleLevel), perms);
    if staffNo in d1.departments {
      ScanMonotone(d1, d2, DepartmentTier(d1.departments[staffNo]), perms);
    }
    ScanMonotone(d1, d2, UserTier(userId), perms);
  }

  /**
   * A database error, or a failed department lookup, denies and ends the
   * check: it is the last call made.
   */
  lemma FailureEndsCheck(d: Directory, roleLevel: int, staffNo: Option<string>, userId: string, perms: seq<string>)
    requires exists c :: c in DecisionTrace(d, roleLevel, staffNo, userId, perms) && FailedCall(d, c)
    ensures !Decision(d, roleLevel, staffNo, userId, perms)
    ensures var trace := DecisionTrace(d, roleLevel, staffNo, userId, perms);
            forall i :: 0 <= i < |trace| - 1 ==> !FailedCall(d, trace[i])
  {
    var roleTier := RoleTier(roleLevel);
    ConsultedShape(d, roleTier, perms);
    if ScanTier(d, roleTier, perms) == Miss && staffNo in d.departments {
      var deptTier := DepartmentTier(d.departments[staffNo]);
      ConsultedShape(d, deptTier, perms);
      if ScanTier(d, deptTier, perms) == Miss {
        ConsultedShape(d, UserTier(userId), perms);
      }
    }
  }

  /** A call that ends in a database error. */
  predicate FailedCall(d: Directory, c: Call) {
    match c
    case Check(q) => q in d.failing
    case DepartmentLookup(staffNo) => staffNo !in d.departments
  }

  /**
   * The calls of one tier: lookups of that tier only; none fails except
   * possibly the last, which fails exactly when the tier's outcome is a
   * database error; a tier that misses fails nowhere.
   */
  lemma ConsultedShape(d: Directory, tier: Tier, perms: seq<string>)
    ensures var calls := Consulted(d, tier, perms);
            && (forall i :: 0 <= i < |calls| ==> calls[i].Check? && calls[i].query.tier == tier)
            && (forall i :: 0 <= i < |calls| - 1 ==> calls[i].query !in d.failing)
            && (ScanTier(d, tier, perms) == Miss ==> forall i :: 0 <= i < |calls| ==> calls[i].query !in d.failing)
            && (ScanTier(d, tier, perms) == Fault <==> calls != [] && calls[|calls| - 1].query in d.failing)
  {
  }

  /**
   * The tiers are consulted in the order role, department, user, and a tier
   * that finds a grant is the last one consulted.
   */
  lemma TierOrder(d: Directory, roleLevel: int, staffNo: Option<string>, userId: string, perms: seq<string>)
    ensures var trace := DecisionTrace(d, roleLevel, staffNo, userId, perms);
            forall i, j :: 0 <= i < j < |trace| ==> Rank(trace[i]) <= Rank(trace[j])
    ensures ScanTier(d, RoleTier(roleLevel), perms) == Hit ==>
              DecisionTrace(d, roleLevel, staffNo, userId, perms) == Consulted(d, RoleTier(roleLevel), perms)
    ensures ScanTier(d, RoleTier(roleLevel), perms) == Miss && staffNo in d.departments &&
            ScanTier(d, DepartmentTier(d.departments[staffNo]), perms) == Hit ==>
              forall c :: c in DecisionTrace(d, roleLevel, staffNo, userId, perms) ==> Rank(c) <= 2
  {
    var roleTier := RoleTier(roleLevel);
    ConsultedShape(d, roleTier, perms);
    if ScanTier(d, roleTier, perms) == Miss && staffNo in d.departments {
      var deptTier := DepartmentTier(d.departments[staffNo]);
      ConsultedShape(d, deptTier, perms);
      ConsultedShape(d, UserTier(userId), perms);
    }
  }

  /** The position of a call's table in the order of the check. */
  function Rank(c: Call): int {
    match c
    case Check(Query(RoleTier(_), _)) => 0
    case DepartmentLookup(_) => 1
    case Check(Query(DepartmentTier(_), _)) => 2
    case Check(Query(UserTier(_), _)) => 3
  }

  /** Approving is never allowed: it has no capability string, so no grant can match. */
  lemma ApproveNeverAllowed(d: Directory, userId: string, staffNo: Option<string>, authRole: Role, target: Record)
    ensures !Decision(d, authRole.Id(), staffNo, userId, GeneratePermissionStrings(userId, staffNo, authRole, Approve, target))
  {
  }
}
