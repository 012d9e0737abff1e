/**
 * User grade items of the Moodle grade report API and their conversion to the
 * service's Grade entity (apps/sms-api/internal/mdlapi/usrgrade.go).
 * Float fields (raw grade, weight) are only copied, so they are modelled as `real`.
 */
module UserGrades {
  import opened Wrappers
  import opened MdlJson

  /** entities.Grade: the fields ToGrade fills. */
  datatype Grade = Grade(
    id: int,
    name: Option<string>,
    kind: string,
    moduleName: Option<string>,
    gradeRaw: Option<real>,
    submittedAt: Option<int>,
    gradedAt: Option<int>,
    weightedRaw: real)

  /** The zero value of entities.Grade. */
  const ZeroGrade := Grade(0, None, "", None, None, None, None, 0.0)

  /** GradeItem: the fields ToGrade reads (nullable JSON fields are Options). */
  datatype GradeItem = GradeItem(
    id: int,
    itemName: Option<string>,
    itemType: string,
    itemModule: Option<string>,
    gradeRaw: Option<real>,
    gradeDateSubmitted: Option<int>,
    gradeDateGraded: Option<int>,
    weightedRaw: real)

  datatype UserGrade = UserGrade(courseId: int, userId: int, gradeItems: seq<GradeItem>)

  /** GradeItem.ToGrade: a field-by-field copy into the entity (the id widens to int64). */
  function ToGrade(g: GradeItem): (r: Grade)
    ensures r.id == g.id && r.name == g.itemName && r.kind == g.itemType && r.moduleName == g.itemModule
    ensures r.gradeRaw == g.gradeRaw && r.submittedAt == g.gradeDateSubmitted
    ensures r.gradedAt == g.gradeDateGraded && r.weightedRaw == g.weightedRaw
  {
    Grade(g.id, g.itemName, g.itemType, g.itemModule, g.gradeRaw, g.gradeDateSubmitted, g.gradeDateGraded, g.weightedRaw)
  }

  /** What slot i of ToGrades holds: the zero Grade for the course total item, ToGrade otherwise. */
  function SlotFor(g: GradeItem): Grade
  {
    if g.itemType == "course" then ZeroGrade else ToGrade(g)
  }

  /**
   * UserGrade.ToGrades: a slice pre-sized to the number of items; the loop skips the
   * course total item, which therefore keeps the zero Grade.
   */
  method ToGrades(e: UserGrade) returns (grades: seq<Grade>)
    ensures |grades| == |e.gradeItems|
    ensures forall i :: 0 <= i < |grades| ==>
      grades[i] == if e.gradeItems[i].itemType == "course" then ZeroGrade else ToGrade(e.gradeItems[i])
  {
    grades := seq(|e.gradeItems|, _ => ZeroGrade);
    for i := 0 to |e.gradeItems|
      invariant |grades| == |e.gradeItems|
      invariant forall j :: 0 <= j < i ==> grades[j] == SlotFor(e.gradeItems[j])
      invariant forall j :: i <= j < |grades| ==> grades[j] == ZeroGrade
    {
      var gradeItem := e.gradeItems[i];
      if gradeItem.itemType == "course" {
        continue;
      }
      grades := grades[i := ToGrade(gradeItem)];
    }
  }

  /** The value-level counterpart of ToGrades, for callers that are functions. */
  function GradesOf(e: UserGrade): (r: seq<Grade>)
    ensures |r| == |e.gradeItems|
    ensures forall i :: 0 <= i < |r| ==> r[i] == SlotFor(e.gradeItems[i])
  {
    seq(|e.gradeItems|, i requires 0 <= i < |e.gradeItems| => SlotFor(e.gradeItems[i]))
  }

  /**
   * UpdateGradesResponse.UnmarshalJSON: Moodle answers 0 for success and 1 for failure,
   * so 0 decodes to true and 1 to false; any other integer is an error that leaves the
   * receiver unchanged.
   */
  function UnmarshalUpdateResponse(receiver: bool, data: JsonInput): (r: Decoded<bool>)
    ensures data.NilData? ==> r == Decoded(receiver, None)
    ensures data == JNumber(0) ==> r == Decoded(true, None)
    ensures data == JNumber(1) ==> r == Decoded(false, None)
    ensures data.JNumber? && data.n != 0 && data.n != 1 ==>
      r == Decoded(receiver, Some("Invalid update grades response"))
    ensures r.error.Some? ==> r.value == receiver
    ensures (data.Malformed? || data.JString?) ==> r.error.Some?
  {
    if data.NilData? then Decoded(receiver, None)
    else
      match AsInt(data)
      case Err(e) => Decoded(receiver, Some(e))
      case Ok(s) =>
        if s != 0 && s != 1 then Decoded(receiver, Some("Invalid update grades response"))
        else if s == 0 then Decoded(true, None)
        else Decoded(false, None)
  }

  /** A JSON null leaves the int at its zero value, which reads as success. */
  lemma NullUpdateResponseIsSuccess(receiver: bool)
    ensures UnmarshalUpdateResponse(receiver, JNull) == Decoded(true, None)
  {
  }
}
