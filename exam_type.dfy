/**
 * ExamType of the Moodle course-grades API (apps/sms-api/internal/mdlapi/coursegrades.go):
 * an integer enum that travels over JSON as one of the strings "15P", "1T" or "Thi".
 */
module ExamTypes {
  import opened Wrappers
  import opened MdlJson

  /** Go `type ExamType int`. */
  type ExamType = int

  const Exam15M: ExamType := 0
  const Exam45M: ExamType := 1
  const ExamFinal: ExamType := 2

  const ExamTypeMap: map<ExamType, string> := map[Exam15M := "15P", Exam45M := "1T", ExamFinal := "Thi"]
  const ReverseExamTypeMap: map<string, ExamType> := map["15P" := Exam15M, "1T" := Exam45M, "Thi" := ExamFinal]

  /** String: the map lookup, with Go's zero value "" for a missing key. */
  function String(t: ExamType): (r: string)
    ensures Exam15M <= t <= ExamFinal <==> r != ""
    ensures r != "" ==> r in ReverseExamTypeMap && ReverseExamTypeMap[r] == t
  {
    if t in ExamTypeMap then ExamTypeMap[t] else ""
  }

  /** MarshalJSON: the JSON string token of String(t). */
  function Marshal(t: ExamType): (r: JsonInput)
    ensures r.JString? && (Exam15M <= t <= ExamFinal <==> r.s != "")
  {
    JString(String(t))
  }

  /**
   * UnmarshalJSON: nil data changes nothing; a decoding error, or a string other than
   * the three codes, is returned and leaves the receiver as it was.
   */
  function Unmarshal(receiver: ExamType, data: JsonInput): (r: Decoded<ExamType>)
    ensures data.NilData? ==> r == Decoded(receiver, None)
    ensures data.JString? && data.s == "15P" ==> r == Decoded(Exam15M, None)
    ensures data.JString? && data.s == "1T" ==> r == Decoded(Exam45M, None)
    ensures data.JString? && data.s == "Thi" ==> r == Decoded(ExamFinal, None)
    ensures data.JString? && data.s !in ReverseExamTypeMap ==>
      r == Decoded(receiver, Some("invalid GradeType: " + data.s))
    ensures r.error.Some? ==> r.value == receiver
    ensures r.error.None? && !data.NilData? ==> r.value in ExamTypeMap
  {
    if data.NilData? then Decoded(receiver, None)
    else
      match AsString(data)
      case Err(e) => Decoded(receiver, Some(e))
      case Ok(s) =>
        if s == "15P" then Decoded(Exam15M, None)
        else if s == "1T" then Decoded(Exam45M, None)
        else if s == "Thi" then Decoded(ExamFinal, None)
        else Decoded(receiver, Some("invalid GradeType: " + s))
  }

  /** Unmarshalling what Marshal wrote gives back each of the three exam types. */
  lemma MarshalRoundTrip(t: ExamType, receiver: ExamType)
    requires t in ExamTypeMap
    ensures Unmarshal(receiver, Marshal(t)) == Decoded(t, None)
  {
  }

  /** A value outside the enum marshals to "" and does not come back. */
  lemma MarshalOutOfRange(t: ExamType, receiver: ExamType)
    requires t !in ExamTypeMap
    ensures Marshal(t) == JString("")
    ensures Unmarshal(receiver, Marshal(t)) == Decoded(receiver, Some("invalid GradeType: "))
  {
    assert "invalid GradeType: " + "" == "invalid GradeType: ";
  }

  /** ExamTypeMap and ReverseExamTypeMap are inverse bijections on three entries. */
  lemma MapsAreInverse()
    ensures |ExamTypeMap| == |ReverseExamTypeMap| == 3
    ensures forall t :: t in ExamTypeMap ==> ExamTypeMap[t] in ReverseExamTypeMap && ReverseExamTypeMap[ExamTypeMap[t]] == t
    ensures forall s :: s in ReverseExamTypeMap ==> ReverseExamTypeMap[s] in ExamTypeMap && ExamTypeMap[ReverseExamTypeMap[s]] == s
  {
    assert ExamTypeMap.Keys == {0, 1, 2};
    assert ReverseExamTypeMap.Keys == {"15P", "1T", "Thi"};
  }
}
