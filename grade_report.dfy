/**
 * A grade item as Moodle's user grade report returns it
 * (`gradereport_user\external\user::get_grade_items`), as read by the two course
 * grade web services. Members the report may leave unset are options.
 */
module GradeReport {
  import opened Wrappers

  datatype ReportItem = ReportItem(
    id: Option<int>,
    itemname: Option<string>,
    itemtype: string,
    itemmodule: Option<string>,
    iteminstance: Option<int>,
    itemnumber: Option<int>,
    cmid: Option<int>,
    graderaw: Option<real>)

  /** `itemtype === 'mod' && in_array(itemmodule, ['quiz', 'assign'])`. */
  predicate IsGradedModule(item: ReportItem)
  {
    item.itemtype == "mod" && (item.itemmodule == Some("quiz") || item.itemmodule == Some("assign"))
  }

  /** PHP's `(int)` of a possibly null integer. */
  function IntOrZero(x: Option<int>): (r: int)
    ensures x.Some? ==> r == x.value
    ensures x.None? ==> r == 0
  {
    if x.Some? then x.value else 0
  }

  /** PHP's `(float)` of a possibly null grade. */
  function RealOrZero(x: Option<real>): (r: real)
    ensures x.Some? ==> r == x.value
    ensures x.None? ==> r == 0.0
  {
    if x.Some? then x.value else 0.0
  }
}
