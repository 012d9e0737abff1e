/**
 * The legacy template helper (`template_processor.php`): the first stored
 * template of a kind, and the variables a template may use.
 */
module TemplateProcessor {
  import opened Wrappers
  import opened OrderedMap
  import opened TemplateManager

  /** A template entry read back from a file of the listing, in the template directory. */
  predicate ListedEntry(dir: string, kind: string, listing: seq<string>, e: Pair<string, TemplateInfo>)
  {
    && e.val.filename in listing
    && e.val.path == dir + "/" + e.val.filename
    && ParseTemplateFile(kind, e.val.filename) == Some((e.key, e.val.format))
  }

  /** Every template get_templates lists is read back from a file of the listing. */
  lemma {:induction false} TemplatesOfEntries(store: TemplateStore, kind: string, listing: seq<string>)
    ensures forall e :: e in store.TemplatesOf(kind, listing) ==> ListedEntry(store.dir, kind, listing, e)
  {
    if |listing| > 0 {
      var init := listing[..|listing| - 1];
      var last := listing[|listing| - 1];
      TemplatesOfEntries(store, kind, init);
      assert listing == init + [last];
      var rest := store.TemplatesOf(kind, init);
      var t := store.TemplatesOf(kind, listing);
      forall e | e in rest ensures ListedEntry(store.dir, kind, listing, e) {
        assert ListedEntry(store.dir, kind, init, e);
      }
      match ParseTemplateFile(kind, last)
      case None =>
        assert t == rest;
      case Some((id, ext)) =>
        var info := TemplateInfo(store.TemplateName(kind, id), store.dir + "/" + last, last, ext);
        assert t == Put(rest, id, info);
        forall e | e in t ensures ListedEntry(store.dir, kind, listing, e) {
          var i :| 0 <= i < |t| && t[i] == e;
          if i < |rest| && KeyIndex(rest, id) != Some(i) {
            assert t[i] == rest[i] && rest[i] in rest;
          } else {
            assert t[i] == Pair(id, info);
          }
        }
    }
  }

  /** `get_template_path`: the path of the first template listed, or null when there is none. */
  function LegacyTemplatePath(store: TemplateStore, kind: string, listing: seq<string>): (r: Option<string>)
    reads store
    ensures r.None? <==> !store.HasTemplates(kind, listing)
  {
    var templates := store.TemplatesOf(kind, listing);
    if |templates| == 0 then None else Some(templates[0].val.path)
  }

  /** The path returned is that of a template file of the listing, in the template directory. */
  lemma LegacyTemplatePathListed(store: TemplateStore, kind: string, listing: seq<string>)
    requires LegacyTemplatePath(store, kind, listing).Some?
    ensures exists f :: (f in listing && ParseTemplateFile(kind, f).Some? &&
      LegacyTemplatePath(store, kind, listing).value == store.dir + "/" + f)
  {
    TemplatesOfEntries(store, kind, listing);
    var t := store.TemplatesOf(kind, listing);
    assert t[0] in t;
    assert ListedEntry(store.dir, kind, listing, t[0]);
  }

  /** `has_template`: whether `get_template_path` finds a path. */
  predicate HasTemplate(store: TemplateStore, kind: string, listing: seq<string>)
    reads store
  {
    LegacyTemplatePath(store, kind, listing).Some?
  }

  /** The legacy check agrees with has_templates: some file of the listing is a template. */
  lemma HasTemplateIff(store: TemplateStore, kind: string, listing: seq<string>)
    ensures HasTemplate(store, kind, listing) <==> store.HasTemplates(kind, listing)
    ensures HasTemplate(store, kind, listing) <==> exists f :: f in listing && ParseTemplateFile(kind, f).Some?
  {
    store.HasTemplatesIff(kind, listing);
  }

  type Variables = seq<Pair<string, string>>

  const CommonVariables: Variables := [
    Pair("coursename", "Course name"),
    Pair("activityname", "Activity name"),
    Pair("exportdate", "Export date"),
    Pair("exporttime", "Export time")]

  const QuizVariables: Variables := [
    Pair("firstname", "Student first name"),
    Pair("lastname", "Student last name"),
    Pair("idnumber", "Student ID number"),
    Pair("institution", "Institution"),
    Pair("department", "Department"),
    Pair("email", "Email address"),
    Pair("attempt", "Attempt number"),
    Pair("status", "Attempt status"),
    Pair("grade", "Grade received"),
    Pair("outof", "Maximum grade"),
    Pair("percentage", "Percentage score"),
    Pair("timestarted", "Time started"),
    Pair("timefinished", "Time finished"),
    Pair("timetaken", "Time taken")]

  const AssignVariables: Variables := [
    Pair("firstname", "Student first name"),
    Pair("lastname", "Student last name"),
    Pair("idnumber", "Student ID number"),
    Pair("institution", "Institution"),
    Pair("department", "Department"),
    Pair("email", "Email address"),
    Pair("status", "Submission status"),
    Pair("grade", "Grade received"),
    Pair("outof", "Maximum grade"),
    Pair("percentage", "Percentage score"),
    Pair("timesubmitted", "Time submitted"),
    Pair("timemarked", "Time graded"),
    Pair("grader", "Grader name"),
    Pair("feedback", "Feedback comments")]

  /**
   * `get_available_variables`: a quiz or an assignment offers the four common
   * variables followed by its own fourteen; any other kind offers the common
   * ones alone. No variable is offered twice.
   */
  function AvailableVariables(kind: string): (r: Variables)
    ensures |r| >= 4 && r[..4] == CommonVariables
    ensures DistinctKeys(r)
    ensures kind == "quiz" ==> r[4..] == QuizVariables
    ensures kind == "assign" ==> r[4..] == AssignVariables
    ensures kind != "quiz" && kind != "assign" ==> r == CommonVariables
  {
    if kind == "quiz" then
      QuizKeysDistinct();
      MergeDistinct(CommonVariables, QuizVariables);
      Merge(CommonVariables, QuizVariables)
    else if kind == "assign" then
      AssignKeysDistinct();
      MergeDistinct(CommonVariables, AssignVariables);
      Merge(CommonVariables, AssignVariables)
    else
      QuizKeysDistinct();
      var m := CommonVariables + QuizVariables;
      assert forall i :: 0 <= i < 4 ==> CommonVariables[i] == m[i];
      CommonVariables
  }

  /** Where a variable name stands among the common and quiz variables. */
  function QuizVariablePosition(name: string): int
  {
    if name == "coursename" then 0 else
    if name == "activityname" then 1 else
    if name == "exportdate" then 2 else
    if name == "exporttime" then 3 else
    if name == "firstname" then 4 else
    if name == "lastname" then 5 else
    if name == "idnumber" then 6 else
    if name == "institution" then 7 else
    if name == "department" then 8 else
    if name == "email" then 9 else
    if name == "attempt" then 10 else
    if name == "status" then 11 else
    if name == "grade" then 12 else
    if name == "outof" then 13 else
    if name == "percentage" then 14 else
    if name == "timestarted" then 15 else
    if name == "timefinished" then 16 else
    if name == "timetaken" then 17 else
    -1
  }

  /** No variable name is offered twice for a quiz. */
  lemma QuizKeysDistinct()
    ensures DistinctKeys(CommonVariables + QuizVariables)
  {
    var m := CommonVariables + QuizVariables;
    forall i | 0 <= i < |m| ensures QuizVariablePosition(m[i].key) == i {
      if i == 0 { assert m[0].key == "coursename"; }
      else if i == 1 { assert m[1].key == "activityname"; }
      else if i == 2 { assert m[2].key == "exportdate"; }
      else if i == 3 { assert m[3].key == "exporttime"; }
      else if i == 4 { assert m[4].key == "firstname"; }
      else if i == 5 { assert m[5].key == "lastname"; }
      else if i == 6 { assert m[6].key == "idnumber"; }
      else if i == 7 { assert m[7].key == "institution"; }
      else if i == 8 { assert m[8].key == "department"; }
      else if i == 9 { assert m[9].key == "email"; }
      else if i == 10 { assert m[10].key == "attempt"; }
      else if i == 11 { assert m[11].key == "status"; }
      else if i == 12 { assert m[12].key == "grade"; }
      else if i == 13 { assert m[13].key == "outof"; }
      else if i == 14 { assert m[14].key == "percentage"; }
      else if i == 15 { assert m[15].key == "timestarted"; }
      else if i == 16 { assert m[16].key == "timefinished"; }
    }
  }

  /** Where a variable name stands among the common and assign variables. */
  function AssignVariablePosition(name: string): int
  {
    if name == "coursename" then 0 else
    if name == "activityname" then 1 else
    if name == "exportdate" then 2 else
    if name == "exporttime" then 3 else
    if name == "firstname" then 4 else
    if name == "lastname" then 5 else
    if name == "idnumber" then 6 else
    if name == "institution" then 7 else
    if name == "department" then 8 else
    if name == "email" then 9 else
    if name == "status" then 10 else
    if name == "grade" then 11 else
    if name == "outof" then 12 else
    if name == "percentage" then 13 else
    if name == "timesubmitted" then 14 else
    if name == "timemarked" then 15 else
    if name == "grader" then 16 else
    if name == "feedback" then 17 else
    -1
  }

  /** No variable name is offered twice for a assign. */
  lemma AssignKeysDistinct()
    ensures DistinctKeys(CommonVariables + AssignVariables)
  {
    var m := CommonVariables + AssignVariables;
    forall i | 0 <= i < |m| ensures AssignVariablePosition(m[i].key) == i {
      if i == 0 { assert m[0].key == "coursename"; }
      else if i == 1 { assert m[1].key == "activityname"; }
      else if i == 2 { assert m[2].key == "exportdate"; }
      else if i == 3 { assert m[3].key == "exporttime"; }
      else if i == 4 { assert m[4].key == "firstname"; }
      else if i == 5 { assert m[5].key == "lastname"; }
      else if i == 6 { assert m[6].key == "idnumber"; }
      else if i == 7 { assert m[7].key == "institution"; }
      else if i == 8 { assert m[8].key == "department"; }
      else if i == 9 { assert m[9].key == "email"; }
      else if i == 10 { assert m[10].key == "status"; }
      else if i == 11 { assert m[11].key == "grade"; }
      else if i == 12 { assert m[12].key == "outof"; }
      else if i == 13 { assert m[13].key == "percentage"; }
      else if i == 14 { assert m[14].key == "timesubmitted"; }
      else if i == 15 { assert m[15].key == "timemarked"; }
      else if i == 16 { assert m[16].key == "grader"; }
    }
  }

}
