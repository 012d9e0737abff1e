/**
 * The argument checks of the students controller
 * (`apps/api/students/controller.ts`): which class ids a student query is
 * narrowed to, and the validation of an update request. The unit lookup is
 * an input; the student repository's own work is outside the model.
 */
module StudentsController {
  import opened Wrappers
  import opened ApiErrors
  import opened Units
  import RecordUpdate

  /** What `find` can throw: an application error, or a read through a relation that was not loaded. */
  datatype Thrown = Raised(error: AppError) | TypeError

  const MissingUnitMessage: string := "missing unitAlias or unitLevel"

  function UnitNotFoundMessage(unitAlias: string, unitLevel: string): string
  {
    "unit with alias: " + unitAlias + " and level: " + unitLevel + " not found"
  }

  /** `classId ? [classId] : []`: an absent id and the id 0 are falsy. */
  function ClassIdFilter(classId: Option<int>): (r: seq<int>)
    ensures r == [] <==> classId.None? || classId.value == 0
    ensures r != [] ==> r == [classId.value]
  {
    if classId.Some? && classId.value != 0 then [classId.value] else []
  }

  /**
   * The class ids `find` passes to the repository, given what the unit lookup
   * for the alias and level returned (its failure is rethrown). Both query
   * parameters are required, and the check comes before the lookup.
   */
  function FindClassIds(unitAlias: Option<string>, unitLevel: Option<string>, classId: Option<int>,
                        findUnit: Result<Option<UnitRecord>, AppError>): (r: Result<seq<int>, Thrown>)
    ensures unitAlias.None? || unitLevel.None? ==> r == Err(Raised(AppError(InvalidArgument, MissingUnitMessage)))
  {
    if unitAlias.None? || unitLevel.None? then Err(Raised(AppError(InvalidArgument, MissingUnitMessage)))
    else if findUnit.Err? then Err(Raised(findUnit.error))
    else if findUnit.value.None? then Err(Raised(AppError(NotFound, UnitNotFoundMessage(unitAlias.value, unitLevel.value))))
    else
      var u := findUnit.value.value;
      if u.level == Battalion then
        if u.children.None? || !ClassesLoaded(u.children.value) then Err(TypeError)
        else Ok(ChildClassIds(u.children.value))
      else if u.level == Company then
        if u.classes.None? then Err(TypeError)
        else Ok(u.classes.value)
      else Ok(ClassIdFilter(classId))
  }

  /**
   * With both parameters given: an unknown unit is not found; a battalion's
   * query covers exactly the classes of its companies; a company's its own
   * classes; the classId argument is used only for a unit of any other
   * level, and never changes the outcome for a battalion or a company.
   */
  lemma FindClassIdsCases(unitAlias: string, unitLevel: string, classId: Option<int>, other: Option<int>, u: UnitRecord)
    ensures FindClassIds(Some(unitAlias), Some(unitLevel), classId, Ok(None)) ==
      Err(Raised(AppError(NotFound, UnitNotFoundMessage(unitAlias, unitLevel))))
    ensures u.level == Battalion && u.children.Some? && ClassesLoaded(u.children.value) ==>
      var r := FindClassIds(Some(unitAlias), Some(unitLevel), classId, Ok(Some(u)));
      r.Ok? && forall x :: x in r.value <==> exists i :: 0 <= i < |u.children.value| && x in OrNone(u.children.value[i].classes)
    ensures u.level == Company && u.classes.Some? ==>
      FindClassIds(Some(unitAlias), Some(unitLevel), classId, Ok(Some(u))) == Ok(u.classes.value)
    ensures u.level == Battalion || u.level == Company ==>
      FindClassIds(Some(unitAlias), Some(unitLevel), classId, Ok(Some(u))) ==
      FindClassIds(Some(unitAlias), Some(unitLevel), other, Ok(Some(u)))
    ensures u.level != Battalion && u.level != Company ==>
      FindClassIds(Some(unitAlias), Some(unitLevel), classId, Ok(Some(u))) == Ok(ClassIdFilter(classId))
  {
    if u.children.Some? {
      forall x ensures x in ChildClassIds(u.children.value) <==>
        exists i :: 0 <= i < |u.children.value| && x in OrNone(u.children.value[i].classes)
      {
        InChildClassIds(u.children.value, x);
      }
    }
  }

  /** `update`: the update map, or the invalid argument thrown for an empty request or an empty record. */
  function Update(params: seq<RecordUpdate.UpdateRecord>): (r: Result<seq<RecordUpdate.UpdateItem>, AppError>)
    ensures params == [] ==> r == Err(AppError(InvalidArgument, RecordUpdate.NoIdsMessage))
    ensures r.Ok? <==> params != [] && RecordUpdate.AllNonEmpty(params)
    ensures r.Ok? ==> RecordUpdate.MappedInOrder(params, r.value)
    ensures params != [] && r.Err? ==> RecordUpdate.RejectsFirstEmpty(params, r.error)
  {
    RecordUpdate.BuildUpdateMapSpec(params);
    RecordUpdate.BuildUpdateMap(params)
  }
}
