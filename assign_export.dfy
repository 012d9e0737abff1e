/**
 * The assignment grade export (`assign_export_helper.php`): a header row, then
 * one row per participant with their details, submission status, grade,
 * percentage, times, grader and feedback.
 *
 * The participant list, the submission, grade, organisation, grader and
 * feedback lookups, and Moodle's formatting functions are inputs.
 */
module AssignExport {
  import opened Wrappers
  import opened Strs
  import opened ExportFormat

  const AssignHeaders: seq<string> := [
    "First name", "Last name", "ID number", "Institution", "Department", "Email", "Status",
    "Grade", "Out of", "Percentage", "Time submitted", "Time marked", "Grader", "Feedback comments"]

  datatype Participant = Participant(id: int, firstname: string, lastname: string, idnumber: Option<string>, email: string)

  datatype Submission = Submission(status: string, timemodified: int)

  /** A grade record: its id, the grade (possibly unset), who marked it and when. */
  datatype GradeRecord = GradeRecord(id: int, grade: Option<real>, grader: int, timemodified: int)

  /** A user's organisation fields, as the bulk query reads them. */
  datatype OrgData = OrgData(institution: Option<string>, department: Option<string>)

  /** The lookups `prepare_export_data` makes for a participant. */
  datatype Lookups = Lookups(
    submissionOf: int -> Option<Submission>,
    gradeOf: int -> Option<GradeRecord>,
    orgdata: map<int, OrgData>,
    graderName: int -> Option<string>,
    feedbackOf: int -> Option<string>)

  /**
   * `get_submission_status`: no submission or a new one is "No submission";
   * submitted, draft and reopened get their labels; any other status is shown as it is.
   */
  function SubmissionStatus(submission: Option<Submission>): (s: string)
    ensures submission.None? ==> s == "No submission"
    ensures submission.Some? ==>
      var st := submission.value.status;
      && (st == "submitted" ==> s == "Submitted")
      && (st == "draft" ==> s == "Draft")
      && (st == "new" ==> s == "No submission")
      && (st == "reopened" ==> s == "Reopened")
      && (st !in {"submitted", "draft", "new", "reopened"} ==> s == st)
  {
    if submission.None? then "No submission"
    else match submission.value.status
      case "submitted" => "Submitted"
      case "draft" => "Draft"
      case "new" => "No submission"
      case "reopened" => "Reopened"
      case other => other
  }

  /** `get_feedback_comments`: the feedback on a grade, "" without a grade or feedback. */
  function FeedbackComments(grade: Option<GradeRecord>, feedbackOf: int -> Option<string>): (f: string)
    ensures grade.None? ==> f == ""
    ensures grade.Some? && feedbackOf(grade.value.id).None? ==> f == ""
  {
    if grade.None? then ""
    else if feedbackOf(grade.value.id).Some? then feedbackOf(grade.value.id).value
    else ""
  }

  /** An organisation field: "" when the user has no record or the field is falsy. */
  function OrgField(org: Option<OrgData>, field: OrgData -> Option<string>): string
  {
    if org.None? then "" else OrEmpty(field(org.value))
  }

  /** The percentage cell: "" unless the grade is set and the maximum is positive. */
  function AssignPercentage(gradevalue: Option<real>, maxGrade: real, fmt: Formatters): (r: string)
    ensures r == "" <==> gradevalue.None? || maxGrade <= 0.0
    ensures r != "" ==> r[|r| - 1] == '%'
  {
    if gradevalue.Some? && maxGrade > 0.0 then fmt.number((gradevalue.value / maxGrade) * 100.0) + "%" else ""
  }

  /** Full name of the user who marked the grade; "" without a grade, a marker id or a user record. */
  function GraderName(grade: Option<GradeRecord>, graderName: int -> Option<string>): string
  {
    if grade.Some? && grade.value.grader > 0 && graderName(grade.value.grader).Some? then
      graderName(grade.value.grader).value
    else ""
  }

  /** The row of one participant. */
  function AssignRow(user: Participant, look: Lookups, maxGrade: real, fmt: Formatters): (row: seq<string>)
    ensures |row| == |AssignHeaders|
  {
    var submission := look.submissionOf(user.id);
    var grade := look.gradeOf(user.id);
    var org := if user.id in look.orgdata then Some(look.orgdata[user.id]) else None;
    var gradevalue := if grade.Some? then grade.value.grade else None;
    [user.firstname, user.lastname, OrEmpty(user.idnumber),
     OrgField(org, (o: OrgData) => o.institution), OrgField(org, (o: OrgData) => o.department), user.email,
     SubmissionStatus(submission),
     if gradevalue.Some? then fmt.number(gradevalue.value) else "-",
     fmt.number(maxGrade), AssignPercentage(gradevalue, maxGrade, fmt),
     if submission.Some? then fmt.date(submission.value.timemodified) else "-",
     if grade.Some? then fmt.date(grade.value.timemodified) else "-",
     GraderName(grade, look.graderName), FeedbackComments(grade, look.feedbackOf)]
  }

  /**
   * What each cell of a participant's row holds: empty organisation fields
   * without a record, a percentage only for a set grade and a positive
   * maximum, and no grader, feedback or marking time without a grade.
   */
  lemma AssignRowCells(user: Participant, look: Lookups, maxGrade: real, fmt: Formatters)
    ensures var row := AssignRow(user, look, maxGrade, fmt);
      var grade := look.gradeOf(user.id);
      && row[0] == user.firstname && row[1] == user.lastname && row[5] == user.email
      && (user.id !in look.orgdata ==> row[3] == "" && row[4] == "")
      && (row[9] != "" <==> grade.Some? && grade.value.grade.Some? && maxGrade > 0.0)
      && (grade.None? ==> row[7] == "-" && row[11] == "-" && row[12] == "" && row[13] == "")
      && row[6] == SubmissionStatus(look.submissionOf(user.id))
      && (look.submissionOf(user.id).None? ==> row[10] == "-")
  {
  }

  /** The rows of all participants, in the order listed. */
  function AssignRows(participants: seq<Participant>, look: Lookups, maxGrade: real, fmt: Formatters)
    : (rows: seq<seq<string>>)
    ensures |rows| == |participants|
    ensures forall k :: 0 <= k < |participants| ==> rows[k] == AssignRow(participants[k], look, maxGrade, fmt)
  {
    seq(|participants|, k requires 0 <= k < |participants| => AssignRow(participants[k], look, maxGrade, fmt))
  }

  /**
   * `prepare_export_data`: the header row, then one row per participant in
   * order — so only the header when there are none; every row is as wide as
   * the header.
   */
  method PrepareExportData(participants: seq<Participant>, look: Lookups, maxGrade: real, fmt: Formatters)
    returns (data: seq<seq<string>>)
    ensures |data| == 1 + |participants| && data[0] == AssignHeaders
    ensures data[1..] == AssignRows(participants, look, maxGrade, fmt)
    ensures forall k :: 0 <= k < |data| ==> |data[k]| == |AssignHeaders|
  {
    data := [AssignHeaders];
    if |participants| == 0 {
      return data;
    }
    for i := 0 to |participants|
      invariant |data| == 1 + i && data[0] == AssignHeaders
      invariant forall k :: 0 <= k < i ==> data[k + 1] == AssignRow(participants[k], look, maxGrade, fmt)
    {
      var row := AssignRow(participants[i], look, maxGrade, fmt);
      data := data + [row];
    }
  }
}
