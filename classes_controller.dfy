/**
 * The authorisation and validation checks of the classes controller
 * (`apps/api/classes/controller.ts`). The unit and class repositories are
 * inputs. Some checks throw the application error; others only pass it to
 * the error handler without `throw`, and whether the request then stops
 * depends on that handler, which is outside this model: those checks are
 * modelled as the list of errors reported, beside the value the method goes
 * on to use.
 */
module ClassesController {
  import opened Wrappers
  import opened ApiErrors
  import opened Units
  import RecordUpdate

  /** The errors handed to the error handler without `throw`, in order, and what the method goes on with. */
  datatype Reported<T> = Reported(reports: seq<AppError>, value: T)

  /** `xs.every((x) => valid.includes(x))` */
  predicate AllIn(xs: seq<int>, valid: seq<int>)
  {
    forall i :: 0 <= i < |xs| ==> xs[i] in valid
  }

  /** `every`/`includes` holds exactly when every member of the list is allowed. */
  lemma AllInMembers(xs: seq<int>, valid: seq<int>)
    ensures AllIn(xs, valid) <==> forall x :: x in xs ==> x in valid
  {
    if AllIn(xs, valid) {
      forall x | x in xs ensures x in valid {
        var i :| 0 <= i < |xs| && xs[i] == x;
      }
    }
    if forall x :: x in xs ==> x in valid {
      forall i | 0 <= i < |xs| ensures xs[i] in valid {
        assert xs[i] in xs;
      }
    }
  }

  const CreateDeniedMessage: string := "You don't have permission create class in this unit"
  const InvalidUnitIdsMessage: string := "There are invalid unit ids"
  const NotCompanyMessage: string := "There are invalid unit. Class unit must be company"
  const DeleteDeniedMessage: string := "You don't have permission delete class with this classId"
  const ReadDeniedMessage: string := "You don't have permission to read one of those classes"
  const UpdateDeniedMessage: string := "You are not authorized update this unitid"
  const FindOneDeniedMessage: string := "You don't have permission to read those class"
  const MissingClassMessage: string := "Validate classId"

  /** A class to create: only the unit it goes into matters to the checks. */
  datatype ClassParam = ClassParam(name: string, unitId: int)

  function UnitIdsOf(params: seq<ClassParam>): (r: seq<int>)
    ensures |r| == |params| && forall i :: 0 <= i < |params| ==> r[i] == params[i].unitId
  {
    seq(|params|, i requires 0 <= i < |params| => params[i].unitId)
  }

  /** Some unit the repository returned is a battalion. */
  predicate SomeBattalion(units: seq<UnitRecord>)
  {
    exists i :: 0 <= i < |units| && units[i].level == Battalion
  }

  /**
   * The checks of `create`, given how the unit repository answers
   * `findByIds`: the error thrown, or `None` when the classes go on to the
   * repository. The units are looked up only once every unit id is allowed.
   */
  function CreateCheck(classParams: seq<ClassParam>, validUnitIds: seq<int>,
                       findByIds: seq<int> -> seq<UnitRecord>): (rejection: Option<AppError>)
    ensures !AllIn(UnitIdsOf(classParams), validUnitIds) ==> rejection == Some(AppError(Unauthorized, CreateDeniedMessage))
    ensures AllIn(UnitIdsOf(classParams), validUnitIds) && |findByIds(UnitIdsOf(classParams))| != |classParams| ==>
      rejection == Some(AppError(InvalidArgument, InvalidUnitIdsMessage))
    ensures (AllIn(UnitIdsOf(classParams), validUnitIds) && |findByIds(UnitIdsOf(classParams))| == |classParams| &&
      SomeBattalion(findByIds(UnitIdsOf(classParams)))) ==> rejection == Some(AppError(InvalidArgument, NotCompanyMessage))
    ensures rejection.None? <==> (AllIn(UnitIdsOf(classParams), validUnitIds) &&
      |findByIds(UnitIdsOf(classParams))| == |classParams| && !SomeBattalion(findByIds(UnitIdsOf(classParams))))
  {
    var unitIds := UnitIdsOf(classParams);
    if !AllIn(unitIds, validUnitIds) then Some(AppError(Unauthorized, CreateDeniedMessage))
    else
      var units := findByIds(unitIds);
      if |units| != |unitIds| then Some(AppError(InvalidArgument, InvalidUnitIdsMessage))
      else if SomeBattalion(units) then Some(AppError(InvalidArgument, NotCompanyMessage))
      else None
  }

  /** A class that is created went into a unit the caller may manage. */
  lemma CreatedInValidUnits(classParams: seq<ClassParam>, validUnitIds: seq<int>,
                            findByIds: seq<int> -> seq<UnitRecord>, i: int)
    requires CreateCheck(classParams, validUnitIds, findByIds).None?
    requires 0 <= i < |classParams|
    ensures classParams[i].unitId in validUnitIds
    ensures forall k :: 0 <= k < |findByIds(UnitIdsOf(classParams))| ==> findByIds(UnitIdsOf(classParams))[k].level != Battalion
  {
    assert UnitIdsOf(classParams)[i] == classParams[i].unitId;
  }

  /** The check of `delete`: the error thrown, or `None` when every class may be deleted. */
  function DeleteCheck(classIds: seq<int>, validClassIds: seq<int>): (rejection: Option<AppError>)
    ensures rejection.None? <==> forall c :: c in classIds ==> c in validClassIds
    ensures rejection.Some? ==> rejection.value == AppError(Unauthorized, DeleteDeniedMessage)
  {
    AllInMembers(classIds, validClassIds);
    if AllIn(classIds, validClassIds) then None else Some(AppError(Unauthorized, DeleteDeniedMessage))
  }

  /**
   * The check of `find`: an unauthorised error is reported when ids are
   * given and one is not allowed. Without ids, `every` is not evaluated and
   * nothing is reported.
   */
  function FindReports(ids: Option<seq<int>>, validClassIds: seq<int>): (reports: seq<AppError>)
    ensures reports == [] || reports == [AppError(Unauthorized, ReadDeniedMessage)]
    ensures reports != [] <==> ids.Some? && exists i :: 0 <= i < |ids.value| && ids.value[i] !in validClassIds
  {
    if ids.Some? && !AllIn(ids.value, validClassIds) then [AppError(Unauthorized, ReadDeniedMessage)] else []
  }

  /** The unit id a class update carries, when it carries one as a number. */
  function UnitIdField(r: RecordUpdate.UpdateRecord): Option<int>
  {
    match RecordUpdate.FieldValue(r.payload, "unitId")
    case Some(IntValue(u)) => Some(u)
    case _ => None
  }

  /** Every record's id is an allowed class and its unit id an allowed unit. */
  predicate UpdateAllowed(params: seq<RecordUpdate.UpdateRecord>, validClassIds: seq<int>, validUnitIds: seq<int>)
  {
    forall i :: 0 <= i < |params| ==>
      params[i].id in validClassIds && UnitIdField(params[i]).Some? && UnitIdField(params[i]).value in validUnitIds
  }

  /**
   * `update`: an unauthorised error is reported (not thrown) when a class id
   * or a unit id is not allowed; then the update map is built, which throws
   * for an empty request or a record left without fields.
   */
  function Update(params: seq<RecordUpdate.UpdateRecord>, validClassIds: seq<int>, validUnitIds: seq<int>)
    : (r: Reported<Result<seq<RecordUpdate.UpdateItem>, AppError>>)
    ensures r.reports == [] <==> UpdateAllowed(params, validClassIds, validUnitIds)
    ensures r.reports != [] ==> r.reports == [AppError(Unauthorized, UpdateDeniedMessage)]
    ensures params == [] ==> r.value == Err(AppError(InvalidArgument, RecordUpdate.NoIdsMessage))
    ensures r.value.Ok? <==> params != [] && RecordUpdate.AllNonEmpty(params)
    ensures r.value.Ok? ==> RecordUpdate.MappedInOrder(params, r.value.value)
    ensures params != [] && r.value.Err? ==> RecordUpdate.RejectsFirstEmpty(params, r.value.error)
  {
    RecordUpdate.BuildUpdateMapSpec(params);
    var reports := if UpdateAllowed(params, validClassIds, validUnitIds) then [] else [AppError(Unauthorized, UpdateDeniedMessage)];
    Reported(reports, RecordUpdate.BuildUpdateMap(params))
  }

  /**
   * `findOne`: an unauthorised error is reported when the id is not allowed,
   * an invalid argument when the repository found nothing, and what the
   * repository found is returned either way.
   */
  function FindOne<C>(id: int, classIds: seq<int>, classData: Option<C>): (r: Reported<Option<C>>)
    ensures r.value == classData
    ensures AppError(Unauthorized, FindOneDeniedMessage) in r.reports <==> id !in classIds
    ensures AppError(InvalidArgument, MissingClassMessage) in r.reports <==> classData.None?
    ensures |r.reports| <= 2 && (|r.reports| == 2 ==> r.reports[0].kind == Unauthorized)
  {
    var denied := if id in classIds then [] else [AppError(Unauthorized, FindOneDeniedMessage)];
    var missing := if classData.Some? then [] else [AppError(InvalidArgument, MissingClassMessage)];
    Reported(denied + missing, classData)
  }
}
