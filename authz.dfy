/**
 * The authorisation middleware of the API (`apps/api/middleware/authz.ts`):
 * the class and unit ids a request may touch, from the caller's unit (a
 * battalion reaches its companies and their classes, a company its own
 * classes) or, for a super admin, from every unit. The repositories are
 * inputs; a lookup that fails, or a missing `children`/`classes` list read
 * without a guard, is a thrown error, after which the request gets no ids.
 */
module Authz {
  import opened Wrappers
  import opened Units

  /** The user record: only the unit it belongs to matters here. */
  datatype UserRecord = UserRecord(unitId: Option<int>)

  /** The authenticated caller. */
  datatype AuthData = AuthData(userID: string, isSuperAdmin: bool)

  datatype ValidIds = ValidIds(classIds: seq<int>, unitIds: seq<int>)

  /** A thrown error: a failed lookup, or a property read on an undefined list. */
  type Thrown = string

  const NoIds := ValidIds([], [])

  /**
   * `getValidIdsFromUnit`, given what the lookup of the unit returned: no ids
   * for an unknown unit; otherwise the unit itself first, then for a battalion
   * its children and their classes, for a company its own classes.
   */
  function ValidIdsFromUnit(unitId: int, unit: Option<UnitRecord>): (r: Result<ValidIds, Thrown>)
    ensures unit.None? ==> r == Ok(NoIds)
    ensures r.Ok? && unit.Some? ==> |r.value.unitIds| >= 1 && r.value.unitIds[0] == unitId
  {
    if unit.None? then Ok(NoIds)
    else
      var u := unit.value;
      if u.level == Battalion then
        if u.children.None? || !ClassesLoaded(u.children.value) then Err("TypeError")
        else Ok(ValidIds(ChildClassIds(u.children.value), [unitId] + ChildIds(u.children.value)))
      else if u.level == Company then
        if u.classes.None? then Err("TypeError")
        else Ok(ValidIds(u.classes.value, [unitId]))
      else Ok(ValidIds([], [unitId]))
  }

  /**
   * A battalion reaches itself and its children, and exactly the classes of its
   * children (its own classes are not read); a company reaches itself and its
   * own classes; any other level reaches itself and no class.
   */
  lemma ValidIdsFromUnitLevels(unitId: int, u: UnitRecord)
    ensures u.level == Battalion && u.children.Some? && ClassesLoaded(u.children.value) ==>
      var r := ValidIdsFromUnit(unitId, Some(u));
      r.Ok? && r.value.unitIds == [unitId] + ChildIds(u.children.value) &&
      forall x :: x in r.value.classIds <==> exists i :: 0 <= i < |u.children.value| && x in OrNone(u.children.value[i].classes)
    ensures u.level == Company && u.classes.Some? ==>
      ValidIdsFromUnit(unitId, Some(u)) == Ok(ValidIds(u.classes.value, [unitId]))
    ensures u.level != Battalion && u.level != Company ==>
      ValidIdsFromUnit(unitId, Some(u)) == Ok(ValidIds([], [unitId]))
  {
    if u.children.Some? {
      forall x ensures x in ChildClassIds(u.children.value) <==>
        exists i :: 0 <= i < |u.children.value| && x in OrNone(u.children.value[i].classes)
      {
        InChildClassIds(u.children.value, x);
      }
    }
  }

  // ---------------------------------------------------------------------------
  // getAllValidIds
  // ---------------------------------------------------------------------------

  /** The class ids one unit contributes: its own, then each child's. */
  function UnitClassIds(u: UnitRecord): seq<int>
  {
    OrNone(u.classes) + (if u.children.Some? then ChildClassIds(u.children.value) else [])
  }

  /** The unit ids one unit contributes: its own, then its children's. */
  function UnitUnitIds(u: UnitRecord): seq<int>
  {
    [u.id] + (if u.children.Some? then ChildIds(u.children.value) else [])
  }

  /** The class ids of all units, one unit after the other. */
  function AllClassIds(units: seq<UnitRecord>): seq<int>
  {
    if units == [] then [] else AllClassIds(units[..|units| - 1]) + UnitClassIds(units[|units| - 1])
  }

  /** The unit ids of all units, one unit after the other. */
  function AllUnitIds(units: seq<UnitRecord>): seq<int>
  {
    if units == [] then [] else AllUnitIds(units[..|units| - 1]) + UnitUnitIds(units[|units| - 1])
  }

  /** The class-id loop of one unit: start from its own classes and add each child's. */
  method UnitClassIdsOf(u: UnitRecord) returns (ids: seq<int>)
    ensures ids == UnitClassIds(u)
  {
    ids := OrNone(u.classes);
    if u.children.Some? {
      var children := u.children.value;
      for i := 0 to |children|
        invariant ids == OrNone(u.classes) + ChildClassIds(children[..i])
      {
        assert children[..i + 1][..i] == children[..i];
        ids := ids + OrNone(children[i].classes);
      }
      assert children[..|children|] == children;
    }
  }

  /** `getAllValidIds`, given the units the repository returned. */
  method GetAllValidIds(units: seq<UnitRecord>) returns (ids: ValidIds)
    ensures ids == ValidIds(AllClassIds(units), AllUnitIds(units))
  {
    var classIds := [];
    var unitIds := [];
    for k := 0 to |units|
      invariant classIds == AllClassIds(units[..k]) && unitIds == AllUnitIds(units[..k])
    {
      assert units[..k + 1][..k] == units[..k];
      var own := UnitClassIdsOf(units[k]);
      classIds := classIds + own;
      unitIds := unitIds + UnitUnitIds(units[k]);
    }
    assert units[..|units|] == units;
    ids := ValidIds(classIds, unitIds);
  }

  lemma {:induction false} InAllClassIds(units: seq<UnitRecord>, x: int)
    ensures x in AllClassIds(units) <==> exists k :: 0 <= k < |units| && x in UnitClassIds(units[k])
  {
    if units != [] {
      var front := units[..|units| - 1];
      InAllClassIds(front, x);
      if x in AllClassIds(units) && x !in UnitClassIds(units[|units| - 1]) {
        var k :| 0 <= k < |front| && x in UnitClassIds(front[k]);
        assert units[k] == front[k];
      }
      if exists k :: 0 <= k < |units| && x in UnitClassIds(units[k]) {
        var k :| 0 <= k < |units| && x in UnitClassIds(units[k]);
        if k < |front| {
          assert front[k] == units[k];
        }
      }
    }
  }

  lemma {:induction false} InAllUnitIds(units: seq<UnitRecord>, x: int)
    ensures x in AllUnitIds(units) <==> exists k :: 0 <= k < |units| && x in UnitUnitIds(units[k])
  {
    if units != [] {
      var front := units[..|units| - 1];
      InAllUnitIds(front, x);
      if x in AllUnitIds(units) && x !in UnitUnitIds(units[|units| - 1]) {
        var k :| 0 <= k < |front| && x in UnitUnitIds(front[k]);
        assert units[k] == front[k];
      }
      if exists k :: 0 <= k < |units| && x in UnitUnitIds(units[k]) {
        var k :| 0 <= k < |units| && x in UnitUnitIds(units[k]);
        if k < |front| {
          assert front[k] == units[k];
        }
      }
    }
  }

  /** One of the unit's children lists the class. */
  predicate ChildHasClass(u: UnitRecord, x: int)
  {
    u.children.Some? && exists i :: 0 <= i < |u.children.value| && x in OrNone(u.children.value[i].classes)
  }

  /** The id is one of the unit's children. */
  predicate ChildHasId(u: UnitRecord, x: int)
  {
    u.children.Some? && exists i :: 0 <= i < |u.children.value| && x == u.children.value[i].id
  }

  /**
   * A super admin's class ids are exactly the units' own classes and their
   * children's classes, and the unit ids exactly the units and their children.
   */
  lemma AllValidIdsMembers(units: seq<UnitRecord>, x: int)
    ensures x in AllClassIds(units) <==>
      exists k :: 0 <= k < |units| && (x in OrNone(units[k].classes) || ChildHasClass(units[k], x))
    ensures x in AllUnitIds(units) <==>
      exists k :: 0 <= k < |units| && (x == units[k].id || ChildHasId(units[k], x))
  {
    InAllClassIds(units, x);
    InAllUnitIds(units, x);
    forall k | 0 <= k < |units| && units[k].children.Some?
      ensures x in ChildClassIds(units[k].children.value) <==>
        exists i :: 0 <= i < |units[k].children.value| && x in OrNone(units[k].children.value[i].classes)
    {
      InChildClassIds(units[k].children.value, x);
    }
  }

  // ---------------------------------------------------------------------------
  // The middleware
  // ---------------------------------------------------------------------------

  /** `user?.unitId` is truthy: present and not 0. */
  predicate HasUnit(user: Option<UserRecord>)
  {
    user.Some? && user.value.unitId.Some? && user.value.unitId.value != 0
  }

  /**
   * The ids the middleware attaches: none without auth data; every unit's for
   * a super admin; the user's unit's for a user with an id and a unit; none
   * otherwise, and none when anything on the way throws.
   */
  function AuthorizedIds(authData: Option<AuthData>, findAll: Result<seq<UnitRecord>, Thrown>,
                         findUser: string -> Result<Option<UserRecord>, Thrown>,
                         getUnit: int -> Result<Option<UnitRecord>, Thrown>): ValidIds
  {
    if authData.None? then NoIds
    else if authData.value.isSuperAdmin then
      if findAll.Err? then NoIds else ValidIds(AllClassIds(findAll.value), AllUnitIds(findAll.value))
    else if authData.value.userID != "" then
      var user := findUser(authData.value.userID);
      if user.Err? then NoIds
      else if !HasUnit(user.value) then NoIds
      else
        var unitId := user.value.value.unitId.value;
        var unit := getUnit(unitId);
        if unit.Err? then NoIds
        else
          var ids := ValidIdsFromUnit(unitId, unit.value);
          if ids.Err? then NoIds else ids.value
    else NoIds
  }

  /**
   * Without auth data, for a caller who is neither a super admin nor has an
   * id, for a user without a unit, and whenever a step throws, the request
   * gets no ids; for a user whose unit is found, the unit ids start with it.
   */
  lemma AuthorizedIdsCases(authData: Option<AuthData>, findAll: Result<seq<UnitRecord>, Thrown>,
                           findUser: string -> Result<Option<UserRecord>, Thrown>,
                           getUnit: int -> Result<Option<UnitRecord>, Thrown>)
    ensures authData.None? ==> AuthorizedIds(authData, findAll, findUser, getUnit) == NoIds
    ensures authData.Some? && authData.value.isSuperAdmin && findAll.Err? ==> AuthorizedIds(authData, findAll, findUser, getUnit) == NoIds
    ensures authData.Some? && !authData.value.isSuperAdmin && authData.value.userID == "" ==> AuthorizedIds(authData, findAll, findUser, getUnit) == NoIds
    ensures (authData.Some? && !authData.value.isSuperAdmin && authData.value.userID != "" &&
      (findUser(authData.value.userID).Err? || !HasUnit(findUser(authData.value.userID).value))) ==>
      AuthorizedIds(authData, findAll, findUser, getUnit) == NoIds
    ensures (authData.Some? && !authData.value.isSuperAdmin && authData.value.userID != "" &&
      findUser(authData.value.userID).Ok? && HasUnit(findUser(authData.value.userID).value)) ==>
      var unitId := findUser(authData.value.userID).value.value.unitId.value;
      var unit := getUnit(unitId);
      var ids := AuthorizedIds(authData, findAll, findUser, getUnit);
      (unit.Ok? && unit.value.Some? && ValidIdsFromUnit(unitId, unit.value).Ok? ==> |ids.unitIds| >= 1 && ids.unitIds[0] == unitId) &&
      (unit.Err? || ValidIdsFromUnit(unitId, unit.value).Err? ==> ids == NoIds)
  {
  }

  /** What the middleware attaches to the request. */
  class RequestData {
    var validClassIds: seq<int>
    var validUnitIds: seq<int>

    constructor()
      ensures validClassIds == [] && validUnitIds == []
    {
      validClassIds := [];
      validUnitIds := [];
    }
  }

  /** `authzMiddleware`: the request's valid ids are set before it goes on. */
  method AuthzMiddleware(req: RequestData, authData: Option<AuthData>, findAll: Result<seq<UnitRecord>, Thrown>,
                         findUser: string -> Result<Option<UserRecord>, Thrown>,
                         getUnit: int -> Result<Option<UnitRecord>, Thrown>)
    modifies req
    ensures ValidIds(req.validClassIds, req.validUnitIds) == AuthorizedIds(authData, findAll, findUser, getUnit)
  {
    if authData.None? {
      req.validClassIds := [];
      req.validUnitIds := [];
      return;
    }
    var classIds: seq<int> := [];
    var unitIds: seq<int> := [];
    var failed := false;
    if authData.value.isSuperAdmin {
      if findAll.Err? {
        failed := true;
      } else {
        var all := GetAllValidIds(findAll.value);
        classIds, unitIds := all.classIds, all.unitIds;
      }
    } else if authData.value.userID != "" {
      var user := findUser(authData.value.userID);
      if user.Err? {
        failed := true;
      } else if HasUnit(user.value) {
        var unitId := user.value.value.unitId.value;
        var unit := getUnit(unitId);
        if unit.Err? {
          failed := true;
        } else {
          var ids := ValidIdsFromUnit(unitId, unit.value);
          if ids.Err? {
            failed := true;
          } else {
            classIds, unitIds := ids.value.classIds, ids.value.unitIds;
          }
        }
      }
    }
    if failed {
      req.validClassIds := [];
      req.validUnitIds := [];
    } else {
      req.validClassIds := classIds;
      req.validUnitIds := unitIds;
    }
  }
}
