/**
 * The student's own grade web service
 * (packages/coursegrades/classes/external/get_student_grades.php): the courses a
 * user is enrolled in, each with its metadata and the user's quiz and assignment
 * grades, skipping courses the viewer may not see and courses whose data could not
 * be read.
 *
 * The current user, the user and enrolment queries, the capability test and
 * everything read per course (custom fields, the grade report, the custom-field
 * rows) are inputs; a per-course read that throws is an `Err` value.
 */
module StudentGrades {
  import opened Wrappers
  import opened CustomField
  import opened GradeReport

  /** The user record; a missing one makes the whole call fail (MUST_EXIST). */
  datatype User = User(username: string, firstname: string, lastname: string, email: string)

  datatype Course = Course(id: int, fullname: string, shortname: string, visible: int)

  /** One course metadata field; the value is the text the handler returns. */
  datatype MetaField = MetaField(name: string, value: string)

  /** A course custom-field value as the handler loads it; `shortname` is None when it has no field. */
  datatype FieldValue = FieldValue(shortname: Option<string>, value: string)

  /**
   * What is read inside the try block of one course. `usergrades` is None when the
   * report has no user grades; `records` are the custom-field rows of the modules.
   */
  datatype CourseInputs = CourseInputs(customfields: seq<FieldValue>, usergrades: Option<seq<ReportItem>>,
                                       records: seq<FieldRecord>)

  /** One grade of the answer; unset report members read as 0 or ''. */
  datatype GradeEntry = GradeEntry(moduleid: int, activityid: int, iteminstance: int, modulename: string,
                                   itemmodule: string, grade: Option<real>, examtype: Option<string>, itemnumber: int)

  datatype CourseGrades = CourseGrades(courseid: int, coursename: string, shortname: string, visible: int,
                                       grades: seq<GradeEntry>, metadata: seq<MetaField>)

  datatype StudentGradesOut = StudentGradesOut(userid: int, username: string, firstname: string, lastname: string,
                                               email: string, courses: seq<CourseGrades>)

  /** `if ($params['userid'] == 0) $params['userid'] = $USER->id`. */
  function TargetUser(userid: int, currentUser: int): (r: int)
    ensures userid == 0 ==> r == currentUser
    ensures userid != 0 ==> r == userid
  {
    if userid == 0 then currentUser else userid
  }

  /** A course is shown when the user looks at their own grades or the viewer has grade:viewall there. */
  predicate MayView(target: int, currentUser: int, viewall: bool)
  {
    !(target != currentUser && !viewall)
  }

  // ---------------------------------------------------------------------------
  // One course
  // ---------------------------------------------------------------------------

  /** The metadata of a course: the values that have a field, named by its short name, in order. */
  function MetadataOf(fields: seq<FieldValue>): (r: seq<MetaField>)
    ensures |r| <= |fields|
  {
    if |fields| == 0 then []
    else
      var rest := MetadataOf(fields[..|fields| - 1]);
      var f := fields[|fields| - 1];
      if f.shortname.Some? then rest + [MetaField(f.shortname.value, f.value)] else rest
  }

  /** Every metadata entry is a loaded value with its field's short name, and every value with a field gives one. */
  lemma {:induction false} MetadataOfSound(fields: seq<FieldValue>, m: MetaField)
    ensures m in MetadataOf(fields) <==> FieldValue(Some(m.name), m.value) in fields
  {
    if |fields| > 0 {
      var init := fields[..|fields| - 1];
      MetadataOfSound(init, m);
      assert fields == init + [fields[|fields| - 1]];
    }
  }

  /** The metadata loop. */
  method CollectMetadata(fields: seq<FieldValue>) returns (metadata: seq<MetaField>)
    ensures metadata == MetadataOf(fields)
  {
    metadata := [];
    for i := 0 to |fields|
      invariant metadata == MetadataOf(fields[..i])
    {
      assert fields[..i + 1][..i] == fields[..i];
      var f := fields[i];
      if f.shortname.None? {
        continue;
      }
      metadata := metadata + [MetaField(f.shortname.value, f.value)];
    }
    assert fields[..|fields|] == fields;
  }

  /** The module ids collected before the custom fields are read: graded modules with a cmid. */
  function CmidsOf(items: seq<ReportItem>): (r: seq<int>)
    ensures |r| <= |items|
  {
    if |items| == 0 then []
    else
      var rest := CmidsOf(items[..|items| - 1]);
      var item := items[|items| - 1];
      if IsGradedModule(item) && item.cmid.Some? then rest + [item.cmid.value] else rest
  }

  /** The exam type of a grade: only for a non-zero module id with an examtype custom field. */
  function ExamtypeFor(cfd: FieldData, cmid: int): (r: Option<string>)
    ensures cmid == 0 ==> r.None?
    ensures cmid != 0 ==> r == Lookup(cfd, cmid, "examtype")
  {
    if cmid != 0 && Lookup(cfd, cmid, "examtype").Some? then Lookup(cfd, cmid, "examtype") else None
  }

  /** The entry of a graded-module item. */
  function EntryOf(item: ReportItem, cfd: FieldData): (e: GradeEntry)
    ensures e.activityid == IntOrZero(item.cmid) && e.grade == item.graderaw
    ensures e.examtype == ExamtypeFor(cfd, IntOrZero(item.cmid))
  {
    var cmid := IntOrZero(item.cmid);
    GradeEntry(IntOrZero(item.id), cmid, IntOrZero(item.iteminstance),
               if item.itemname.Some? then item.itemname.value else "",
               if item.itemmodule.Some? then item.itemmodule.value else "",
               item.graderaw, ExamtypeFor(cfd, cmid), IntOrZero(item.itemnumber))
  }

  /**
   * The grades of one course, as the second loop writes them: course and
   * category items are skipped, then only quiz and assignment modules are kept.
   */
  function GradesFor(items: seq<ReportItem>, cfd: FieldData): (r: seq<GradeEntry>)
    ensures |r| <= |items|
  {
    if |items| == 0 then []
    else
      var rest := GradesFor(items[..|items| - 1], cfd);
      var item := items[|items| - 1];
      if item.itemtype == "course" || item.itemtype == "category" then rest
      else if IsGradedModule(item) then rest + [EntryOf(item, cfd)]
      else rest
  }

  /** The graded-module items of a report, in order. */
  function GradedModules(items: seq<ReportItem>): (r: seq<ReportItem>)
    ensures |r| <= |items|
    ensures forall x :: x in r ==> x in items && IsGradedModule(x)
  {
    if |items| == 0 then []
    else
      var rest := GradedModules(items[..|items| - 1]);
      var item := items[|items| - 1];
      if IsGradedModule(item) then rest + [item] else rest
  }

  /**
   * The grades are exactly the quiz and assignment modules, in report order: the
   * course/category skip removes nothing the module test would keep.
   */
  lemma {:induction false} GradesForAreGradedModules(items: seq<ReportItem>, cfd: FieldData)
    ensures var g := GradedModules(items);
      |GradesFor(items, cfd)| == |g| &&
      forall i :: 0 <= i < |g| ==> GradesFor(items, cfd)[i] == EntryOf(g[i], cfd)
  {
    if |items| > 0 {
      GradesForAreGradedModules(items[..|items| - 1], cfd);
    }
  }

  /** The second loop over the report items. */
  method CollectGrades(items: seq<ReportItem>, cfd: FieldData) returns (grades: seq<GradeEntry>)
    ensures grades == GradesFor(items, cfd)
  {
    grades := [];
    for i := 0 to |items|
      invariant grades == GradesFor(items[..i], cfd)
    {
      assert items[..i + 1][..i] == items[..i];
      var item := items[i];
      if item.itemtype == "course" || item.itemtype == "category" {
        continue;
      }
      if item.itemtype == "mod" && (item.itemmodule == Some("quiz") || item.itemmodule == Some("assign")) {
        var cmid := IntOrZero(item.cmid);
        var examtype: Option<string> := None;
        if cmid != 0 && Lookup(cfd, cmid, "examtype").Some? {
          examtype := Lookup(cfd, cmid, "examtype");
        }
        var entry := GradeEntry(IntOrZero(item.id), cmid, IntOrZero(item.iteminstance),
                                if item.itemname.Some? then item.itemname.value else "",
                                if item.itemmodule.Some? then item.itemmodule.value else "",
                                item.graderaw, examtype, IntOrZero(item.itemnumber));
        grades := grades + [entry];
      }
    }
    assert items[..|items|] == items;
  }

  /** The first loop over the report items. */
  method CollectCmids(items: seq<ReportItem>) returns (cmids: seq<int>)
    ensures cmids == CmidsOf(items)
  {
    cmids := [];
    for i := 0 to |items|
      invariant cmids == CmidsOf(items[..i])
    {
      assert items[..i + 1][..i] == items[..i];
      var item := items[i];
      if item.itemtype == "mod" && (item.itemmodule == Some("quiz") || item.itemmodule == Some("assign")) && item.cmid.Some? {
        cmids := cmids + [item.cmid.value];
      }
    }
    assert items[..|items|] == items;
  }

  /** The custom fields read for a course: none without user grades or without graded modules. */
  function CourseFieldData(inputs: CourseInputs): FieldData
  {
    var items := if inputs.usergrades.Some? then inputs.usergrades.value else [];
    if CmidsOf(items) == [] then map[] else FieldMap(KeyedByCmid(inputs.records))
  }

  /** The data of one course the viewer may see, when its reads succeed. */
  function CourseDataFor(course: Course, inputs: CourseInputs): (c: CourseGrades)
    ensures c.courseid == course.id && c.metadata == MetadataOf(inputs.customfields)
    ensures inputs.usergrades.None? ==> c.grades == []
  {
    var items := if inputs.usergrades.Some? then inputs.usergrades.value else [];
    CourseGrades(course.id, course.fullname, course.shortname, course.visible,
                 GradesFor(items, CourseFieldData(inputs)), MetadataOf(inputs.customfields))
  }

  /** The try block for one course. */
  method ProcessCourse(course: Course, inputs: CourseInputs) returns (c: CourseGrades)
    ensures c == CourseDataFor(course, inputs)
  {
    var metadata := CollectMetadata(inputs.customfields);
    var cmids: seq<int> := [];
    if inputs.usergrades.Some? {
      cmids := CollectCmids(inputs.usergrades.value);
    }
    var cfd := GetCustomFieldData(cmids, inputs.records);
    var grades: seq<GradeEntry> := [];
    if inputs.usergrades.Some? {
      grades := CollectGrades(inputs.usergrades.value, cfd);
    }
    c := CourseGrades(course.id, course.fullname, course.shortname, course.visible, grades, metadata);
  }

  // ---------------------------------------------------------------------------
  // The courses
  // ---------------------------------------------------------------------------

  /** The courses of the answer: those the viewer may see and whose reads succeed, in enrolment order. */
  function CoursesFor(courses: seq<Course>, target: int, currentUser: int, viewall: int -> bool,
                      load: int -> Result<CourseInputs, string>): (r: seq<CourseGrades>)
    ensures |r| <= |courses|
  {
    if |courses| == 0 then []
    else
      var rest := CoursesFor(courses[..|courses| - 1], target, currentUser, viewall, load);
      var course := courses[|courses| - 1];
      if MayView(target, currentUser, viewall(course.id)) && load(course.id).Ok? then
        rest + [CourseDataFor(course, load(course.id).value)]
      else rest
  }

  /** The course loop works course by course: the answer for two runs of courses is the two answers joined. */
  lemma {:induction false} CoursesForAppend(a: seq<Course>, b: seq<Course>, target: int, currentUser: int,
                                            viewall: int -> bool, load: int -> Result<CourseInputs, string>)
    ensures CoursesFor(a + b, target, currentUser, viewall, load) ==
            CoursesFor(a, target, currentUser, viewall, load) + CoursesFor(b, target, currentUser, viewall, load)
    decreases |b|
  {
    if |b| > 0 {
      assert (a + b)[..|a + b| - 1] == a + b[..|b| - 1];
      CoursesForAppend(a, b[..|b| - 1], target, currentUser, viewall, load);
    } else {
      assert a + b == a;
    }
  }

  /** A course whose reads fail drops out of the answer and nothing else does. */
  lemma FailingCourseDropsOnlyItself(a: seq<Course>, course: Course, b: seq<Course>, target: int, currentUser: int,
                                     viewall: int -> bool, load: int -> Result<CourseInputs, string>)
    requires load(course.id).Err?
    ensures CoursesFor(a + [course] + b, target, currentUser, viewall, load) ==
            CoursesFor(a, target, currentUser, viewall, load) + CoursesFor(b, target, currentUser, viewall, load)
  {
    CoursesForAppend(a + [course], b, target, currentUser, viewall, load);
    CoursesForAppend(a, [course], target, currentUser, viewall, load);
    assert [course][..0] == [];
  }

  /** A user looking at their own grades sees every course whose reads succeed. */
  lemma {:induction false} OwnCoursesAllShown(courses: seq<Course>, currentUser: int, viewall: int -> bool,
                                              load: int -> Result<CourseInputs, string>)
    requires forall c :: c in courses ==> load(c.id).Ok?
    ensures |CoursesFor(courses, currentUser, currentUser, viewall, load)| == |courses|
  {
    if |courses| > 0 {
      var init := courses[..|courses| - 1];
      assert forall c :: c in init ==> c in courses;
      OwnCoursesAllShown(init, currentUser, viewall, load);
      assert courses[|courses| - 1] in courses;
    }
  }

  /** Another user's grades are shown only for courses where the viewer has grade:viewall. */
  lemma {:induction false} OthersNeedViewall(courses: seq<Course>, target: int, currentUser: int,
                                             viewall: int -> bool, load: int -> Result<CourseInputs, string>,
                                             c: CourseGrades)
    requires target != currentUser
    requires c in CoursesFor(courses, target, currentUser, viewall, load)
    ensures exists course :: course in courses && course.id == c.courseid && viewall(course.id)
  {
    var init := courses[..|courses| - 1];
    var last := courses[|courses| - 1];
    assert courses == init + [last];
    if c in CoursesFor(init, target, currentUser, viewall, load) {
      OthersNeedViewall(init, target, currentUser, viewall, load, c);
      var course :| course in init && course.id == c.courseid && viewall(course.id);
      assert course in courses;
    } else {
      assert last in courses;
    }
  }

  /**
   * get_student_grades: the target user's record and every enrolled course the
   * viewer may see whose reads succeed; a missing user record fails the call.
   */
  method GetStudentGrades(userid: int, currentUser: int, users: int -> Option<User>, enrolled: int -> seq<Course>,
                          viewall: int -> bool, load: int -> Result<CourseInputs, string>)
    returns (r: Result<StudentGradesOut, string>)
    ensures var target := TargetUser(userid, currentUser);
      users(target).None? ==> r.Err?
    ensures var target := TargetUser(userid, currentUser);
      users(target).Some? ==>
        (r.Ok? &&
         r.value.userid == target && r.value.username == users(target).value.username &&
         r.value.courses == CoursesFor(enrolled(target), target, currentUser, viewall, load))
  {
    var target := userid;
    if target == 0 {
      target := currentUser;
    }
    var user := users(target);
    if user.None? {
      return Err("dml_missing_record_exception");
    }
    var courses := enrolled(target);
    var result := StudentGradesOut(target, user.value.username, user.value.firstname, user.value.lastname,
                                   user.value.email, []);
    for k := 0 to |courses|
      invariant result.userid == target && result.username == user.value.username
      invariant result.courses == CoursesFor(courses[..k], target, currentUser, viewall, load)
    {
      assert courses[..k + 1][..k] == courses[..k];
      var course := courses[k];
      if target != currentUser && !viewall(course.id) {
        continue;
      }
      var inputs := load(course.id);
      if inputs.Err? {
        continue;
      }
      var coursedata := ProcessCourse(course, inputs.value);
      result := result.(courses := result.courses + [coursedata]);
    }
    assert courses[..|courses|] == courses;
    return Ok(result);
  }
}
