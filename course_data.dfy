/**
 * The teacher's course-grade web service
 * (packages/coursegrades/classes/external/get_course_data.php): the graded quiz and
 * assignment modules of a course, its enrolled students, and each student's module
 * grades joined to both lists.
 *
 * The database queries, the enrolled-user lookup, the user grade report and
 * Moodle's fullname() are inputs. The custom-field reader is the shared CustomField
 * module.
 */
module CourseData {
  import opened Wrappers
  import opened OrderedMap
  import opened CustomField
  import opened GradeReport

  // ---------------------------------------------------------------------------
  // gradesData: the report rows of the graded modules, student by student
  // ---------------------------------------------------------------------------

  /** One element of `$gradesData`. */
  datatype GradeRow = GradeRow(
    userid: int,
    itemid: Option<int>,
    cmid: Option<int>,
    finalgrade: real,
    itemmodule: string,
    itemnumber: Option<int>)

  /** The row a graded-module report item gives for a student. */
  function RowOf(userid: int, item: ReportItem): GradeRow
    requires IsGradedModule(item)
  {
    GradeRow(userid, item.id, item.cmid, RealOrZero(item.graderaw), item.itemmodule.value, item.itemnumber)
  }

  /** The rows of one student's report: the graded-module items, in report order. */
  function RowsOf(userid: int, items: seq<ReportItem>): (r: seq<GradeRow>)
    ensures |r| <= |items|
  {
    if |items| == 0 then []
    else
      var rest := RowsOf(userid, items[..|items| - 1]);
      var item := items[|items| - 1];
      if IsGradedModule(item) then rest + [RowOf(userid, item)] else rest
  }

  /** Every row comes from a graded quiz or assignment item of that student's report. */
  lemma {:induction false} RowsOfOnlyGradedModules(userid: int, items: seq<ReportItem>, row: GradeRow)
    requires row in RowsOf(userid, items)
    ensures exists item :: item in items && IsGradedModule(item) && row == RowOf(userid, item)
  {
    var init := items[..|items| - 1];
    var last := items[|items| - 1];
    assert items == init + [last];
    if row in RowsOf(userid, init) {
      RowsOfOnlyGradedModules(userid, init, row);
      var item :| item in init && IsGradedModule(item) && row == RowOf(userid, item);
      assert item in items;
    } else {
      assert last in items;
    }
  }

  /** Every graded quiz or assignment item of the report gives a row. */
  lemma {:induction false} RowsOfAllGradedModules(userid: int, items: seq<ReportItem>, item: ReportItem)
    requires item in items && IsGradedModule(item)
    ensures RowOf(userid, item) in RowsOf(userid, items)
  {
    var init := items[..|items| - 1];
    assert items == init + [items[|items| - 1]];
    if item != items[|items| - 1] {
      assert item in init;
      RowsOfAllGradedModules(userid, init, item);
    }
  }

  /** An enrolled student as the query returns them; `fullname` is Moodle's fullname(). */
  datatype Student = Student(id: int, fullname: string, username: string, firstname: string, lastname: string, email: string)

  /** `$gradesData`: the rows of every student's report, students in enrolment order. */
  function GradesData(students: seq<Student>, itemsOf: int -> seq<ReportItem>): seq<GradeRow>
  {
    if |students| == 0 then []
    else
      var s := students[|students| - 1];
      GradesData(students[..|students| - 1], itemsOf) + RowsOf(s.id, itemsOf(s.id))
  }

  /** The inner foreach: one student's graded-module rows appended. */
  method AppendReportRows(acc: seq<GradeRow>, userid: int, items: seq<ReportItem>) returns (out: seq<GradeRow>)
    ensures out == acc + RowsOf(userid, items)
  {
    out := acc;
    for i := 0 to |items|
      invariant out == acc + RowsOf(userid, items[..i])
    {
      assert items[..i + 1][..i] == items[..i];
      var item := items[i];
      if item.itemtype == "mod" && (item.itemmodule == Some("quiz") || item.itemmodule == Some("assign")) {
        out := out + [GradeRow(userid, item.id, item.cmid, RealOrZero(item.graderaw), item.itemmodule.value, item.itemnumber)];
      }
    }
    assert items[..|items|] == items;
  }

  /** The outer foreach over the enrolled students. */
  method CollectGradesData(students: seq<Student>, itemsOf: int -> seq<ReportItem>) returns (gradesData: seq<GradeRow>)
    ensures gradesData == GradesData(students, itemsOf)
  {
    gradesData := [];
    for k := 0 to |students|
      invariant gradesData == GradesData(students[..k], itemsOf)
    {
      assert students[..k + 1][..k] == students[..k];
      gradesData := AppendReportRows(gradesData, students[k].id, itemsOf(students[k].id));
    }
    assert students[..|students|] == students;
  }

  // ---------------------------------------------------------------------------
  // moduleList and studentList
  // ---------------------------------------------------------------------------

  /** One row of the graded-modules query. */
  datatype ModuleRow = ModuleRow(cmid: int, gradeitemid: int, itemname: string, itemmodule: string, idnumber: string)

  /**
   * One element of `$moduleList`. The query selects no itemnumber column, so the
   * module's `itemnumber` is always null and is not a field here.
   */
  datatype ModuleInfo = ModuleInfo(id: int, cmid: int, name: string, moduleType: string, idnumber: string,
                                   examtype: Option<string>)

  /** The module entry a query row gives; the exam type is the module's examtype custom field. */
  function ModuleInfoOf(m: ModuleRow, cfd: FieldData): (r: ModuleInfo)
    ensures r.id == m.gradeitemid && r.cmid == m.cmid
    ensures r.examtype == Lookup(cfd, m.cmid, "examtype")
  {
    ModuleInfo(m.gradeitemid, m.cmid, m.itemname, m.itemmodule, m.idnumber, Lookup(cfd, m.cmid, "examtype"))
  }

  /** `$moduleList`, keyed by grade-item id; a later row with the same id replaces an earlier one in its place. */
  function ModuleMap(modules: seq<ModuleRow>, cfd: FieldData): seq<Pair<int, ModuleInfo>>
  {
    if |modules| == 0 then []
    else
      var m := modules[|modules| - 1];
      Put(ModuleMap(modules[..|modules| - 1], cfd), m.gradeitemid, ModuleInfoOf(m, cfd))
  }

  /** The module list never holds a grade item twice. */
  lemma {:induction false} ModuleMapDistinct(modules: seq<ModuleRow>, cfd: FieldData)
    ensures DistinctKeys(ModuleMap(modules, cfd))
  {
    if |modules| > 0 {
      var m := modules[|modules| - 1];
      ModuleMapDistinct(modules[..|modules| - 1], cfd);
      PutKeepsDistinct(ModuleMap(modules[..|modules| - 1], cfd), m.gradeitemid, ModuleInfoOf(m, cfd));
    }
  }

  /** The module listed under a grade-item id is the one of the last query row with that id. */
  lemma {:induction false} ModuleMapLastWins(modules: seq<ModuleRow>, cfd: FieldData, i: nat)
    requires i < |modules|
    requires forall j :: i < j < |modules| ==> modules[j].gradeitemid != modules[i].gradeitemid
    ensures Get(ModuleMap(modules, cfd), modules[i].gradeitemid) == Some(ModuleInfoOf(modules[i], cfd))
  {
    var init := modules[..|modules| - 1];
    var m := modules[|modules| - 1];
    ModuleMapDistinct(init, cfd);
    if i == |modules| - 1 {
      GetPutSame(ModuleMap(init, cfd), m.gradeitemid, ModuleInfoOf(m, cfd));
    } else {
      ModuleMapLastWins(init, cfd, i);
      GetPutOther(ModuleMap(init, cfd), m.gradeitemid, ModuleInfoOf(m, cfd), modules[i].gradeitemid);
    }
  }

  /** A grade item id is listed exactly when some query row has it. */
  lemma {:induction false} ModuleMapKeys(modules: seq<ModuleRow>, cfd: FieldData, id: int)
    ensures HasKey(ModuleMap(modules, cfd), id) <==> exists m :: m in modules && m.gradeitemid == id
  {
    if |modules| > 0 {
      var init := modules[..|modules| - 1];
      var last := modules[|modules| - 1];
      ModuleMapKeys(init, cfd, id);
      PutHasKey(ModuleMap(init, cfd), last.gradeitemid, ModuleInfoOf(last, cfd), id);
      assert modules == init + [last];
      if id != last.gradeitemid && exists m :: m in modules && m.gradeitemid == id {
        var m :| m in modules && m.gradeitemid == id;
        assert m in init;
      }
    }
  }

  /** The foreach that fills `$moduleList`. */
  method BuildModuleList(modules: seq<ModuleRow>, cfd: FieldData) returns (moduleList: seq<Pair<int, ModuleInfo>>)
    ensures moduleList == ModuleMap(modules, cfd)
  {
    moduleList := [];
    for i := 0 to |modules|
      invariant moduleList == ModuleMap(modules[..i], cfd)
    {
      assert modules[..i + 1][..i] == modules[..i];
      var m := modules[i];
      var examtype := Lookup(cfd, m.cmid, "examtype");
      moduleList := Put(moduleList, m.gradeitemid, ModuleInfo(m.gradeitemid, m.cmid, m.itemname, m.itemmodule, m.idnumber, examtype));
    }
    assert modules[..|modules|] == modules;
  }

  /**
   * One grade of a student. The grade row has no `iteminstance`, so that member
   * is always null and is not a field here; a null item number or module id reads as 0.
   */
  datatype GradeOut = GradeOut(moduleid: int, modulename: string, grade: real, examtype: Option<string>,
                               itemmodule: string, itemnumber: int, activityid: int)

  /** One element of `$studentList`. */
  datatype StudentOut = StudentOut(id: int, fullname: string, username: string, firstname: string, lastname: string,
                                   email: string, grades: seq<GradeOut>)

  /** `$studentList` before the join: every enrolled student, keyed by id, with no grades. */
  function StudentMap(students: seq<Student>): seq<Pair<int, StudentOut>>
  {
    if |students| == 0 then []
    else
      var s := students[|students| - 1];
      Put(StudentMap(students[..|students| - 1]), s.id,
          StudentOut(s.id, s.fullname, s.username, s.firstname, s.lastname, s.email, []))
  }

  /** The student list never holds a student twice, and starts with no grades. */
  lemma {:induction false} StudentMapShape(students: seq<Student>)
    ensures DistinctKeys(StudentMap(students))
    ensures forall p :: p in StudentMap(students) ==> p.val.grades == [] && p.val.id == p.key
  {
    if |students| > 0 {
      var s := students[|students| - 1];
      var init := StudentMap(students[..|students| - 1]);
      var v := StudentOut(s.id, s.fullname, s.username, s.firstname, s.lastname, s.email, []);
      StudentMapShape(students[..|students| - 1]);
      PutKeepsDistinct(init, s.id, v);
      var r := Put(init, s.id, v);
      forall p | p in r ensures p.val.grades == [] && p.val.id == p.key {
        var i :| 0 <= i < |r| && r[i] == p;
        if p != Pair(s.id, v) {
          assert i < |init| && init[i] in init;
        }
      }
    }
  }

  /** The foreach that fills `$studentList`. */
  method BuildStudentList(students: seq<Student>) returns (studentList: seq<Pair<int, StudentOut>>)
    ensures studentList == StudentMap(students)
  {
    studentList := [];
    for i := 0 to |students|
      invariant studentList == StudentMap(students[..i])
    {
      assert students[..i + 1][..i] == students[..i];
      var s := students[i];
      studentList := Put(studentList, s.id, StudentOut(s.id, s.fullname, s.username, s.firstname, s.lastname, s.email, []));
    }
    assert students[..|students|] == students;
  }

  // ---------------------------------------------------------------------------
  // The join
  // ---------------------------------------------------------------------------

  /** The exam type of a grade row: `$customfielddata[$g['cmid']]['examtype'] ?? null`. */
  function RowExamtype(cfd: FieldData, cmid: Option<int>): Option<string>
  {
    if cmid.Some? then Lookup(cfd, cmid.value, "examtype") else None
  }

  /** Whether a grade row is attached: its student and its grade item must both be listed. */
  predicate Attached(g: GradeRow, userid: int, moduleList: seq<Pair<int, ModuleInfo>>)
  {
    g.userid == userid && g.itemid.Some? && HasKey(moduleList, g.itemid.value)
  }

  /** The grade an attached row gives. */
  function GradeOf(g: GradeRow, moduleList: seq<Pair<int, ModuleInfo>>, cfd: FieldData): (r: GradeOut)
    requires g.itemid.Some? && HasKey(moduleList, g.itemid.value)
    ensures r.moduleid == g.itemid.value && r.grade == g.finalgrade
    ensures r.modulename == Get(moduleList, g.itemid.value).value.name
  {
    GradeOut(g.itemid.value, Get(moduleList, g.itemid.value).value.name, g.finalgrade,
             RowExamtype(cfd, g.cmid), g.itemmodule, IntOrZero(g.itemnumber), IntOrZero(g.cmid))
  }

  /** The grades a student ends up with: their attached rows, in `$gradesData` order. */
  function Joined(gradesData: seq<GradeRow>, userid: int, moduleList: seq<Pair<int, ModuleInfo>>, cfd: FieldData)
    : (r: seq<GradeOut>)
    ensures |r| <= |gradesData|
  {
    if |gradesData| == 0 then []
    else
      var rest := Joined(gradesData[..|gradesData| - 1], userid, moduleList, cfd);
      var g := gradesData[|gradesData| - 1];
      if Attached(g, userid, moduleList) then rest + [GradeOf(g, moduleList, cfd)] else rest
  }

  /** The join keeps order: the grades of two runs of rows are the grades of each, one after the other. */
  lemma {:induction false} JoinedAppend(a: seq<GradeRow>, b: seq<GradeRow>, userid: int,
                                        moduleList: seq<Pair<int, ModuleInfo>>, cfd: FieldData)
    ensures Joined(a + b, userid, moduleList, cfd) == Joined(a, userid, moduleList, cfd) + Joined(b, userid, moduleList, cfd)
    decreases |b|
  {
    if |b| > 0 {
      var b0 := b[..|b| - 1];
      assert (a + b)[..|a + b| - 1] == a + b0;
      JoinedAppend(a, b0, userid, moduleList, cfd);
    } else {
      assert a + b == a;
    }
  }

  /** Every grade of a student comes from a row of theirs whose grade item is listed. */
  lemma {:induction false} JoinedOnlyListed(gradesData: seq<GradeRow>, userid: int,
                                            moduleList: seq<Pair<int, ModuleInfo>>, cfd: FieldData, out: GradeOut)
    requires out in Joined(gradesData, userid, moduleList, cfd)
    ensures HasKey(moduleList, out.moduleid)
    ensures exists g :: g in gradesData && g.userid == userid && g.itemid == Some(out.moduleid)
  {
    var init := gradesData[..|gradesData| - 1];
    var last := gradesData[|gradesData| - 1];
    assert gradesData == init + [last];
    if out in Joined(init, userid, moduleList, cfd) {
      JoinedOnlyListed(init, userid, moduleList, cfd, out);
      var g :| g in init && g.userid == userid && g.itemid == Some(out.moduleid);
      assert g in gradesData;
    } else {
      assert last in gradesData;
    }
  }

  /** The join loop: each row whose student and grade item are listed is appended to that student's grades. */
  method JoinGrades(studentList0: seq<Pair<int, StudentOut>>, gradesData: seq<GradeRow>,
                    moduleList: seq<Pair<int, ModuleInfo>>, cfd: FieldData)
    returns (studentList: seq<Pair<int, StudentOut>>)
    requires DistinctKeys(studentList0)
    ensures |studentList| == |studentList0|
    ensures forall i :: 0 <= i < |studentList| ==> studentList[i].key == studentList0[i].key
    ensures forall i :: 0 <= i < |studentList| ==>
      studentList[i].val == studentList0[i].val.(grades := studentList0[i].val.grades
                                                  + Joined(gradesData, studentList0[i].key, moduleList, cfd))
  {
    studentList := studentList0;
    for k := 0 to |gradesData|
      invariant |studentList| == |studentList0|
      invariant forall i :: 0 <= i < |studentList| ==> studentList[i].key == studentList0[i].key
      invariant forall i :: 0 <= i < |studentList| ==>
        studentList[i].val == studentList0[i].val.(grades := studentList0[i].val.grades
                                                    + Joined(gradesData[..k], studentList0[i].key, moduleList, cfd))
    {
      assert gradesData[..k + 1][..k] == gradesData[..k];
      var g := gradesData[k];
      studentList := JoinRow(studentList0, studentList, gradesData[..k], g, moduleList, cfd);
    }
    assert gradesData[..|gradesData|] == gradesData;
  }

  /** One pass of the join loop. */
  method JoinRow(studentList0: seq<Pair<int, StudentOut>>, studentList: seq<Pair<int, StudentOut>>,
                 done: seq<GradeRow>, g: GradeRow, moduleList: seq<Pair<int, ModuleInfo>>, cfd: FieldData)
    returns (next: seq<Pair<int, StudentOut>>)
    requires DistinctKeys(studentList0)
    requires |studentList| == |studentList0|
    requires forall i :: 0 <= i < |studentList| ==> studentList[i].key == studentList0[i].key
    requires forall i :: 0 <= i < |studentList| ==>
      studentList[i].val == studentList0[i].val.(grades := studentList0[i].val.grades
                                                  + Joined(done, studentList0[i].key, moduleList, cfd))
    ensures |next| == |studentList0|
    ensures forall i :: 0 <= i < |next| ==> next[i].key == studentList0[i].key
    ensures forall i :: 0 <= i < |next| ==>
      next[i].val == studentList0[i].val.(grades := studentList0[i].val.grades
                                           + Joined(done + [g], studentList0[i].key, moduleList, cfd))
  {
    assert (done + [g])[..|done|] == done;
    next := studentList;
    if HasKey(studentList, g.userid) && g.itemid.Some? && HasKey(moduleList, g.itemid.value) {
      var examtype := RowExamtype(cfd, g.cmid);
      var moduleName := Get(moduleList, g.itemid.value).value.name;
      var j := KeyIndex(studentList, g.userid).value;
      var st := studentList[j].val;
      var grade := GradeOut(g.itemid.value, moduleName, g.finalgrade, examtype, g.itemmodule,
                            IntOrZero(g.itemnumber), IntOrZero(g.cmid));
      next := Put(studentList, g.userid, st.(grades := st.grades + [grade]));
      forall i | 0 <= i < |next| && i != j ensures studentList0[i].key != g.userid {
        assert studentList0[j].key == g.userid;
      }
    } else if !HasKey(studentList, g.userid) {
      forall i | 0 <= i < |next| ensures studentList0[i].key != g.userid {
        assert studentList[i] in studentList;
      }
    }
  }

  // ---------------------------------------------------------------------------
  // get_course_data
  // ---------------------------------------------------------------------------

  /** The modules and students of the answer; the course record itself is passed through. */
  datatype CourseDataOut = CourseDataOut(modules: seq<ModuleInfo>, students: seq<StudentOut>)

  /** The column of module ids handed to the custom-field reader. */
  function ModuleCmids(modules: seq<ModuleRow>): (r: seq<int>)
    ensures |r| == |modules| && forall i :: 0 <= i < |modules| ==> r[i] == modules[i].cmid
  {
    seq(|modules|, i requires 0 <= i < |modules| => modules[i].cmid)
  }

  /**
   * get_course_data: the modules in list order with their exam types, and every
   * enrolled student with the grades of their listed modules, in report order.
   * `modules` is the graded-modules answer as `get_records_sql` returns it: keyed by
   * its first column, `cmid`, so a course module with two grade items keeps only
   * the row returned last.
   */
  method GetCourseData(modules: seq<ModuleRow>, records: seq<FieldRecord>, students: seq<Student>,
                       itemsOf: int -> seq<ReportItem>)
    returns (out: CourseDataOut)
    ensures var cfd := if modules == [] then map[] else FieldMap(KeyedByCmid(records));
      var moduleList := ModuleMap(modules, cfd);
      var studentList := StudentMap(students);
      var gradesData := GradesData(students, itemsOf);
      out.modules == Values(moduleList) &&
      |out.students| == |studentList| &&
      forall i :: 0 <= i < |studentList| ==>
        out.students[i] == studentList[i].val.(grades := Joined(gradesData, studentList[i].key, moduleList, cfd))
  {
    var cfd := GetCustomFieldData(ModuleCmids(modules), records);
    var gradesData := CollectGradesData(students, itemsOf);
    var moduleList := BuildModuleList(modules, cfd);
    var studentList0 := BuildStudentList(students);
    StudentMapShape(students);
    var studentList := JoinGrades(studentList0, gradesData, moduleList, cfd);
    out := CourseDataOut(Values(moduleList), Values(studentList));
  }
}
