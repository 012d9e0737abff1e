/**
 * The quiz grade export (`quiz_export_helper.php`): a header row, then one row
 * per attempt with the student's details, the attempt's state, grade,
 * percentage and times.
 *
 * The attempts query, Moodle's grade rescaling and its formatting functions are
 * inputs.
 */
module QuizExport {
  import opened Wrappers
  import opened Strs
  import opened ExportFormat

  const QuizHeaders: seq<string> := [
    "First name", "Last name", "ID number", "Institution", "Department", "Email", "Attempt",
    "Status", "Grade", "Out of", "Percentage", "Time started", "Time finished", "Time taken"]

  /** An attempt joined with its user, as the attempts query returns it. */
  datatype Attempt = Attempt(
    firstname: string, lastname: string, idnumber: Option<string>, institution: Option<string>,
    department: Option<string>, email: string, attempt: int, state: string,
    sumgrades: Option<real>, timestart: int, timefinish: int)

  /**
   * `get_state_display`: the label of a known state, any other state as it is;
   * so a label is shown for its state or for a state already spelt like it.
   */
  function StateDisplay(state: string): (shown: string)
    ensures shown == "In progress" <==> state in {"inprogress", "In progress"}
    ensures shown == "Overdue" <==> state in {"overdue", "Overdue"}
    ensures shown == "Finished" <==> state in {"finished", "Finished"}
    ensures shown == "Never submitted" <==> state in {"abandoned", "Never submitted"}
    ensures state !in {"inprogress", "overdue", "finished", "abandoned"} ==> shown == state
  {
    if state == "inprogress" then "In progress"
    else if state == "overdue" then "Overdue"
    else if state == "finished" then "Finished"
    else if state == "abandoned" then "Never submitted"
    else state
  }

  /** The time taken: the formatted duration when both times are set, else "". */
  function TimeTaken(a: Attempt, fmt: Formatters): (t: string)
    ensures a.timefinish <= 0 || a.timestart <= 0 ==> t == ""
  {
    if a.timefinish > 0 && a.timestart > 0 then fmt.duration(a.timefinish - a.timestart) else ""
  }

  /**
   * The percentage cell: the rescaled grade over the quiz's maximum, or 0 when
   * the maximum is not positive. A missing grade counts as 0, as PHP's `null / x` does.
   */
  function Percentage(finalgrade: Option<real>, maxGrade: real, fmt: Formatters): (p: string)
    ensures |p| > 0 && p[|p| - 1] == '%'
    ensures maxGrade <= 0.0 ==> p == "0%"
  {
    if maxGrade > 0.0 then
      fmt.number(((if finalgrade.Some? then finalgrade.value else 0.0) / maxGrade) * 100.0) + "%"
    else "0%"
  }

  /** A timestamp cell: the date when it is set, "-" otherwise. */
  function DateCell(t: int, fmt: Formatters): string
  {
    if t > 0 then fmt.date(t) else "-"
  }

  /** The row of one attempt, given its rescaled grade. */
  function QuizRow(a: Attempt, finalgrade: Option<real>, maxGrade: real, fmt: Formatters): (row: seq<string>)
    ensures |row| == |QuizHeaders|
  {
    [a.firstname, a.lastname, OrEmpty(a.idnumber), OrEmpty(a.institution), OrEmpty(a.department),
     a.email, IntToString(a.attempt), StateDisplay(a.state),
     if finalgrade.Some? then fmt.number(finalgrade.value) else "-",
     fmt.number(maxGrade), Percentage(finalgrade, maxGrade, fmt),
     DateCell(a.timestart, fmt), DateCell(a.timefinish, fmt), TimeTaken(a, fmt)]
  }

  /**
   * What each cell of an attempt's row holds: the state's label, the grade or
   * "-", a percentage of "0%" for a quiz without a positive maximum, the
   * duration only when both times are set, and "-" for an unset time.
   */
  lemma QuizRowCells(a: Attempt, finalgrade: Option<real>, maxGrade: real, fmt: Formatters)
    ensures var row := QuizRow(a, finalgrade, maxGrade, fmt);
      && row[0] == a.firstname && row[1] == a.lastname && row[5] == a.email
      && (row[2] == "" <==> a.idnumber.None? || IsFalsy(a.idnumber.value))
      && row[7] == StateDisplay(a.state)
      && (finalgrade.None? ==> row[8] == "-")
      && (maxGrade <= 0.0 ==> row[10] == "0%")
      && (maxGrade > 0.0 ==> EndsWith(row[10], "%"))
      && (!(a.timestart > 0 && a.timefinish > 0) ==> row[13] == "")
      && (a.timestart > 0 && a.timefinish > 0 ==> row[13] == fmt.duration(a.timefinish - a.timestart))
      && (a.timestart <= 0 ==> row[11] == "-")
      && (a.timefinish <= 0 ==> row[12] == "-")
  {
    var row := QuizRow(a, finalgrade, maxGrade, fmt);
    if maxGrade > 0.0 {
      var p := row[10];
      assert p[|p| - 1..] == "%";
    }
  }

  /** The rows of all attempts, in the order the query returns them. */
  function QuizRows(attempts: seq<Attempt>, rescale: Option<real> -> Option<real>, maxGrade: real, fmt: Formatters)
    : (rows: seq<seq<string>>)
    ensures |rows| == |attempts|
    ensures forall k :: 0 <= k < |attempts| ==> rows[k] == QuizRow(attempts[k], rescale(attempts[k].sumgrades), maxGrade, fmt)
  {
    seq(|attempts|, k requires 0 <= k < |attempts| => QuizRow(attempts[k], rescale(attempts[k].sumgrades), maxGrade, fmt))
  }

  /**
   * `prepare_export_data`: the header row, then one row per attempt in order;
   * every row is as wide as the header.
   */
  method PrepareExportData(attempts: seq<Attempt>, rescale: Option<real> -> Option<real>, maxGrade: real, fmt: Formatters)
    returns (data: seq<seq<string>>)
    ensures |data| == 1 + |attempts| && data[0] == QuizHeaders
    ensures data[1..] == QuizRows(attempts, rescale, maxGrade, fmt)
    ensures forall k :: 0 <= k < |data| ==> |data[k]| == |QuizHeaders|
  {
    data := [QuizHeaders];
    for i := 0 to |attempts|
      invariant |data| == 1 + i && data[0] == QuizHeaders
      invariant forall k :: 0 <= k < i ==> data[k + 1] == QuizRow(attempts[k], rescale(attempts[k].sumgrades), maxGrade, fmt)
    {
      var a := attempts[i];
      var finalgrade := rescale(a.sumgrades);
      var row := QuizRow(a, finalgrade, maxGrade, fmt);
      data := data + [row];
    }
  }
}
