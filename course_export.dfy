/**
 * The course grade export (packages/customgradeexport/classes/course_export_helper.php):
 * resolving each graded activity's exam type, bucketing the activities by type, and
 * building the sheet — a header row whose exam columns grow with the number of
 * activities, then one row per enrolled student.
 *
 * The database, Moodle's course-module lookup and the user's full name are inputs.
 * Grades are exact reals: PHP's doubles and round(…, 2) are not modelled.
 */
module CourseExport {
  import opened Wrappers
  import opened Strs
  import opened CustomField
  import opened OrderedMap

  const Exam15P: string := "15P"
  const Exam1T: string := "1T"
  const ExamThi: string := "Thi"

  /** The three exam types, and so the three buckets. */
  predicate IsExamType(t: string)
  {
    t == Exam15P || t == Exam1T || t == ExamThi
  }

  // ---------------------------------------------------------------------------
  // Exam type of an activity
  // ---------------------------------------------------------------------------

  /**
   * parse_examtype_from_name: the lower-cased name is searched for the markers of
   * 15P, then of 1T, then of Thi; the first type found wins.
   */
  function ParseExamtypeFromName(itemname: string): (t: string)
    ensures var n := Lower(itemname);
      (t == Exam15P <==> Contains(n, "15p") || Contains(n, "thường xuyên")) &&
      (t == Exam1T <==> !Contains(n, "15p") && !Contains(n, "thường xuyên") &&
                        (Contains(n, "1t") || Contains(n, "định kỳ"))) &&
      (t == ExamThi <==> !Contains(n, "15p") && !Contains(n, "thường xuyên") &&
                         !Contains(n, "1t") && !Contains(n, "định kỳ") && Contains(n, "thi"))
    ensures t == "" || IsExamType(t)
  {
    var name := Lower(itemname);
    if IndexOf(name, "15p").Some? || IndexOf(name, "thường xuyên").Some? then Exam15P
    else if IndexOf(name, "1t").Some? || IndexOf(name, "định kỳ").Some? then Exam1T
    else if IndexOf(name, "thi").Some? then ExamThi
    else ""
  }

  /** The name search ignores ASCII case. */
  lemma ParseExamtypeIgnoresCase(itemname: string)
    ensures ParseExamtypeFromName(Lower(itemname)) == ParseExamtypeFromName(itemname)
  {
    LowerIdempotent(itemname);
  }

  /**
   * The type an activity is filed under: the examtype custom field when it is set
   * and truthy, otherwise the type parsed from the activity name.
   */
  function ResolveExamtype(data: FieldData, cmid: int, itemname: string): (t: string)
    ensures Lookup(data, cmid, "examtype").Some? && !IsFalsy(Lookup(data, cmid, "examtype").value) ==>
      t == Lookup(data, cmid, "examtype").value
    ensures Lookup(data, cmid, "examtype").None? ==> t == ParseExamtypeFromName(itemname)
  {
    var custom := Lookup(data, cmid, "examtype");
    var examtype := if custom.Some? then custom.value else "";
    if IsFalsy(examtype) then ParseExamtypeFromName(itemname) else examtype
  }

  /** A custom field that is set to some other text files the activity nowhere, whatever its name says. */
  lemma CustomFieldOverridesName(data: FieldData, cmid: int, itemname: string, value: string)
    requires Lookup(data, cmid, "examtype") == Some(value)
    requires !IsFalsy(value) && !IsExamType(value)
    ensures !IsExamType(ResolveExamtype(data, cmid, itemname))
  {
  }

  // ---------------------------------------------------------------------------
  // get_grade_items_by_exam_type
  // ---------------------------------------------------------------------------

  /** A course grade item of type 'mod'; `iteminstance` 0 stands for a missing instance. */
  datatype GradeItemRow = GradeItemRow(id: int, itemname: string, itemmodule: string, iteminstance: int)

  /** One entry of the item map: a course-module id and its grade item. */
  type Entry = Pair<int, GradeItemRow>

  /** The first loop: the module ids collected, and the item map they key. */
  datatype Collected = Collected(cmids: seq<int>, itemmap: seq<Entry>)

  /** The item map after the first loop, items taken in order. */
  function CollectItems(items: seq<GradeItemRow>, cmOf: GradeItemRow -> Option<int>): Collected
  {
    if |items| == 0 then Collected([], [])
    else
      var c := CollectItems(items[..|items| - 1], cmOf);
      var item := items[|items| - 1];
      if item.iteminstance != 0 && cmOf(item).Some? then
        Collected(c.cmids + [cmOf(item).value], Put(c.itemmap, cmOf(item).value, item))
      else c
  }

  lemma {:induction false} CollectItemsDistinct(items: seq<GradeItemRow>, cmOf: GradeItemRow -> Option<int>)
    ensures DistinctKeys(CollectItems(items, cmOf).itemmap)
  {
    if |items| > 0 {
      CollectItemsDistinct(items[..|items| - 1], cmOf);
      var item := items[|items| - 1];
      if item.iteminstance != 0 && cmOf(item).Some? {
        OrderedMap.PutKeepsDistinct(CollectItems(items[..|items| - 1], cmOf).itemmap, cmOf(item).value, item);
      }
    }
  }

  /** An item is only mapped if it has an instance and a course module. */
  lemma {:induction false} CollectItemsOnlyFound(items: seq<GradeItemRow>, cmOf: GradeItemRow -> Option<int>)
    ensures forall e :: e in CollectItems(items, cmOf).itemmap ==>
      e.val in items && e.val.iteminstance != 0 && cmOf(e.val) == Some(e.key)
  {
    if |items| > 0 {
      var init := items[..|items| - 1];
      CollectItemsOnlyFound(init, cmOf);
      assert forall x :: x in init ==> x in items;
    }
  }

  /** The items of the entries, in order, that `kind` files under `examtype`. */
  function BucketBy(entries: seq<Entry>, kind: Entry -> string, examtype: string): (r: seq<GradeItemRow>)
    ensures |r| <= |entries|
  {
    if |entries| == 0 then []
    else
      var rest := BucketBy(entries[..|entries| - 1], kind, examtype);
      var e := entries[|entries| - 1];
      if kind(e) == examtype then rest + [e.val] else rest
  }

  /** The type each map entry is filed under. */
  function KindOf(data: FieldData): Entry -> string
  {
    (e: Entry) => ResolveExamtype(data, e.key, e.val.itemname)
  }

  /** The items of one bucket: the mapped items, in map order, whose resolved type is `examtype`. */
  function Bucket(entries: seq<Entry>, data: FieldData, examtype: string): (r: seq<GradeItemRow>)
    ensures |r| <= |entries|
  {
    BucketBy(entries, KindOf(data), examtype)
  }

  lemma {:induction false} BucketBySound(entries: seq<Entry>, kind: Entry -> string, examtype: string, item: GradeItemRow)
    requires item in BucketBy(entries, kind, examtype)
    ensures exists e :: e in entries && e.val == item && kind(e) == examtype
  {
    var init := entries[..|entries| - 1];
    var last := entries[|entries| - 1];
    assert entries == init + [last];
    if item in BucketBy(init, kind, examtype) {
      BucketBySound(init, kind, examtype, item);
    }
  }

  lemma {:induction false} BucketByComplete(entries: seq<Entry>, kind: Entry -> string, examtype: string, e: Entry)
    requires e in entries && kind(e) == examtype
    ensures e.val in BucketBy(entries, kind, examtype)
  {
    var init := entries[..|entries| - 1];
    var last := entries[|entries| - 1];
    assert entries == init + [last];
    if e != last {
      BucketByComplete(init, kind, examtype, e);
    }
  }

  /** Every item of a bucket comes from a map entry whose resolved type is the bucket's. */
  lemma BucketSound(entries: seq<Entry>, data: FieldData, examtype: string, item: GradeItemRow)
    requires item in Bucket(entries, data, examtype)
    ensures exists e :: e in entries && e.val == item && ResolveExamtype(data, e.key, e.val.itemname) == examtype
  {
    BucketBySound(entries, KindOf(data), examtype, item);
    var e :| e in entries && e.val == item && KindOf(data)(e) == examtype;
    assert ResolveExamtype(data, e.key, e.val.itemname) == examtype;
  }

  /** Every map entry whose resolved type is the bucket's has its item in the bucket. */
  lemma BucketComplete(entries: seq<Entry>, data: FieldData, examtype: string, e: Entry)
    requires e in entries && ResolveExamtype(data, e.key, e.val.itemname) == examtype
    ensures e.val in Bucket(entries, data, examtype)
  {
    assert KindOf(data)(e) == examtype;
    BucketByComplete(entries, KindOf(data), examtype, e);
  }

  lemma {:induction false} BucketsPartition(entries: seq<Entry>, data: FieldData)
    ensures |Bucket(entries, data, Exam15P)| + |Bucket(entries, data, Exam1T)| + |Bucket(entries, data, ExamThi)| <= |entries|
  {
    if |entries| > 0 {
      BucketsPartition(entries[..|entries| - 1], data);
    }
  }

  datatype Buckets = Buckets(p15: seq<GradeItemRow>, t1: seq<GradeItemRow>, thi: seq<GradeItemRow>)

  /**
   * get_grade_items_by_exam_type: map each item with an instance to its course
   * module, read the custom fields of those modules, then file each mapped item
   * under its resolved type; items of any other type are dropped. The query result,
   * the course-module lookup and the custom-field rows are inputs.
   */
  method GradeItemsByExamType(items: seq<GradeItemRow>, cmOf: GradeItemRow -> Option<int>, records: seq<FieldRecord>)
    returns (b: Buckets, data: FieldData)
    ensures var c := CollectItems(items, cmOf);
      data == (if c.cmids == [] then map[] else FieldMap(KeyedByCmid(records))) &&
      b == Buckets(Bucket(c.itemmap, data, Exam15P), Bucket(c.itemmap, data, Exam1T), Bucket(c.itemmap, data, ExamThi))
    ensures b == ExamBuckets(items, cmOf, records)
  {
    var cmids: seq<int> := [];
    var itemmap: seq<Entry> := [];
    for i := 0 to |items|
      invariant Collected(cmids, itemmap) == CollectItems(items[..i], cmOf)
    {
      assert items[..i + 1][..i] == items[..i];
      var item := items[i];
      if item.iteminstance != 0 {
        var cm := cmOf(item);
        if cm.Some? {
          cmids := cmids + [cm.value];
          itemmap := Put(itemmap, cm.value, item);
        }
      }
    }
    assert items[..|items|] == items;
    data := GetCustomFieldData(cmids, records);
    var p15, t1, thi := [], [], [];
    for i := 0 to |itemmap|
      invariant p15 == Bucket(itemmap[..i], data, Exam15P)
      invariant t1 == Bucket(itemmap[..i], data, Exam1T)
      invariant thi == Bucket(itemmap[..i], data, ExamThi)
    {
      assert itemmap[..i + 1][..i] == itemmap[..i];
      var e := itemmap[i];
      var examtype := ResolveExamtype(data, e.key, e.val.itemname);
      if examtype == Exam15P {
        p15 := p15 + [e.val];
      } else if examtype == Exam1T {
        t1 := t1 + [e.val];
      } else if examtype == ExamThi {
        thi := thi + [e.val];
      }
    }
    assert itemmap[..|itemmap|] == itemmap;
    b := Buckets(p15, t1, thi);
  }

  // ---------------------------------------------------------------------------
  // build_headers
  // ---------------------------------------------------------------------------

  function Max(a: nat, b: nat): nat { if a >= b then a else b }

  /** `prefix . sprintf('%02d', i)` for i = 1..count. */
  function Numbered(prefix: string, count: nat): (r: seq<string>)
    ensures |r| == count
    ensures forall i :: 0 <= i < count ==> r[i] == prefix + Pad2(i + 1)
  {
    seq(count, i requires 0 <= i < count => prefix + Pad2(i + 1))
  }

  /** The header row for the given numbers of 15P and 1T activities. */
  function HeaderRow(count15P: nat, count1T: nat): (h: seq<string>)
    ensures |h| == 8 + Max(3, count15P) + Max(3, count1T)
  {
    ["TT", "Họ và tên", "Mã số"] + Numbered("15P-", Max(3, count15P)) + Numbered("1T-", Max(3, count1T))
    + ["Thi-01", "Thi-02", "TKMH", "Xếp loại", "Ghi chú"]
  }

  /**
   * The header row has three identity columns, at least three numbered columns per
   * continuous-assessment type, two exam columns and three summary columns.
   */
  lemma HeaderRowShape(count15P: nat, count1T: nat)
    ensures var h := HeaderRow(count15P, count1T);
      var n15 := Max(3, count15P);
      var n1T := Max(3, count1T);
      |h| == 8 + n15 + n1T &&
      h[..3] == ["TT", "Họ và tên", "Mã số"] &&
      h[3..3 + n15] == Numbered("15P-", n15) &&
      h[3 + n15..3 + n15 + n1T] == Numbered("1T-", n1T) &&
      h[3 + n15 + n1T..] == ["Thi-01", "Thi-02", "TKMH", "Xếp loại", "Ghi chú"]
  {
    var n15 := Max(3, count15P);
    var n1T := Max(3, count1T);
    var h := HeaderRow(count15P, count1T);
    var a := ["TT", "Họ và tên", "Mã số"];
    assert h == a + Numbered("15P-", n15) + Numbered("1T-", n1T) + ["Thi-01", "Thi-02", "TKMH", "Xếp loại", "Ghi chú"];
    assert h[..3] == a;
    assert h[3..3 + n15] == Numbered("15P-", n15);
    assert h[3 + n15..3 + n15 + n1T] == Numbered("1T-", n1T);
  }

  /** One more numbered column goes at the end. */
  lemma NumberedSnoc(prefix: string, n: nat)
    ensures Numbered(prefix, n + 1) == Numbered(prefix, n) + [prefix + Pad2(n + 1)]
  {
    assert Numbered(prefix, n + 1)[..n] == Numbered(prefix, n);
  }

  /** One numbered loop of build_headers: `for ($i = 1; $i <= $count; $i++)`. */
  method AppendNumbered(headers: seq<string>, prefix: string, count: nat) returns (out: seq<string>)
    ensures out == headers + Numbered(prefix, count)
  {
    out := headers;
    var i := 1;
    while i <= count
      invariant 1 <= i <= count + 1
      invariant out == headers + Numbered(prefix, i - 1)
    {
      NumberedSnoc(prefix, i - 1);
      out := out + [prefix + Pad2(i)];
      i := i + 1;
    }
  }

  /** build_headers: the identity columns, the numbered columns, the exam and summary columns. */
  method BuildHeaders(b: Buckets) returns (headers: seq<string>)
    ensures headers == HeaderRow(|b.p15|, |b.t1|)
  {
    headers := ["TT", "Họ và tên", "Mã số"];
    headers := AppendNumbered(headers, "15P-", Max(3, |b.p15|));
    headers := AppendNumbered(headers, "1T-", Max(3, |b.t1|));
    headers := headers + ["Thi-01", "Thi-02"];
    headers := headers + ["TKMH", "Xếp loại", "Ghi chú"];
  }

  // ---------------------------------------------------------------------------
  // Student rows
  // ---------------------------------------------------------------------------

  /** A sheet cell: a row number, a grade, or text. */
  datatype Cell = Num(n: int) | Grade(g: real) | Text(s: string)

  /** An enrolled student as the export reads it; `fullname` is Moodle's fullname(). */
  datatype StudentInfo = StudentInfo(id: int, fullname: string, idnumber: Option<string>)

  /** The final grades a student has for some items, in item order; items without one are skipped. */
  function GradesOf(userid: int, items: seq<GradeItemRow>, finalGrade: (int, int) -> Option<real>): (r: seq<real>)
    ensures |r| <= |items|
  {
    if |items| == 0 then []
    else
      var rest := GradesOf(userid, items[..|items| - 1], finalGrade);
      var g := finalGrade(items[|items| - 1].id, userid);
      if g.Some? then rest + [g.value] else rest
  }

  /** get_student_grades: one lookup per item. */
  method StudentGrades(userid: int, items: seq<GradeItemRow>, finalGrade: (int, int) -> Option<real>)
    returns (grades: seq<real>)
    ensures grades == GradesOf(userid, items, finalGrade)
  {
    grades := [];
    for i := 0 to |items|
      invariant grades == GradesOf(userid, items[..i], finalGrade)
    {
      assert items[..i + 1][..i] == items[..i];
      var g := finalGrade(items[i].id, userid);
      if g.Some? {
        grades := grades + [g.value];
      }
    }
    assert items[..|items|] == items;
  }

  /** Grades on the ten-point scale. */
  predicate OnTenScale(xs: seq<real>)
  {
    forall i :: 0 <= i < |xs| ==> 0.0 <= xs[i] <= 10.0
  }

  function Sum(xs: seq<real>): (r: real)
    ensures OnTenScale(xs) ==> 0.0 <= r <= 10.0 * |xs| as real
  {
    if |xs| == 0 then 0.0 else Sum(xs[..|xs| - 1]) + xs[|xs| - 1]
  }

  /** The mean of some grades, 0 when there are none. */
  function Average(xs: seq<real>): (r: real)
    ensures OnTenScale(xs) ==> 0.0 <= r <= 10.0
  {
    if |xs| == 0 then 0.0 else Sum(xs) / (|xs| as real)
  }

  /** calculate_tkmh: ((avg 15P + 2 avg 1T) / 3) * 0.4 + avg Thi * 0.6. */
  function Tkmh(g15P: seq<real>, g1T: seq<real>, gThi: seq<real>): (r: real)
    ensures OnTenScale(g15P) && OnTenScale(g1T) && OnTenScale(gThi) ==> 0.0 <= r <= 10.0
  {
    ((Average(g15P) + Average(g1T) * 2.0) / 3.0) * 0.4 + Average(gThi) * 0.6
  }

  /** Classification labels, worst to best. */
  function ClassRank(c: string): (r: int)
    ensures 0 <= r <= 4
    ensures r == 0 <==> c !in {"XS", "G", "Khá", "TB"}
  {
    if c == "XS" then 4 else if c == "G" then 3 else if c == "Khá" then 2 else if c == "TB" then 1 else 0
  }

  /** get_classification: the band of the score; no score, no label. */
  function GetClassification(tkmh: Option<real>): (c: string)
    ensures tkmh.None? <==> c == ""
    ensures tkmh.Some? ==>
      (c == "XS" <==> tkmh.value >= 9.0) &&
      (c == "G" <==> 8.0 <= tkmh.value < 9.0) &&
      (c == "Khá" <==> 7.0 <= tkmh.value < 8.0) &&
      (c == "TB" <==> 5.0 <= tkmh.value < 7.0) &&
      (c == "Yếu" <==> tkmh.value < 5.0)
  {
    if tkmh.None? then ""
    else if tkmh.value >= 9.0 then "XS"
    else if tkmh.value >= 8.0 then "G"
    else if tkmh.value >= 7.0 then "Khá"
    else if tkmh.value >= 5.0 then "TB"
    else "Yếu"
  }

  /** A higher score never gets a lower label. */
  lemma ClassificationMonotone(x: real, y: real)
    requires x <= y
    ensures ClassRank(GetClassification(Some(x))) <= ClassRank(GetClassification(Some(y)))
  {
  }

  /** `isset($grades[$i]) ? $grades[$i] : ''`. */
  function GradeCell(grades: seq<real>, i: nat): Cell
  {
    if i < |grades| then Grade(grades[i]) else Text("")
  }

  /** `count` cells: grade i where the student has one, '' beyond. */
  function PaddedGrades(grades: seq<real>, count: nat): (r: seq<Cell>)
    ensures |r| == count
    ensures forall i :: 0 <= i < count ==> r[i] == GradeCell(grades, i)
  {
    seq(count, i requires 0 <= i < count => GradeCell(grades, i))
  }

  /** The row build_student_row produces for a student with the given grades. */
  /**
   * A student row lines up with the header row: same length, the row number first,
   * and always a non-empty classification (the score is never null).
   */
  function StudentRow(s: StudentInfo, rowNum: int, b: Buckets, g15P: seq<real>, g1T: seq<real>, gThi: seq<real>): (row: seq<Cell>)
    ensures |row| == |HeaderRow(|b.p15|, |b.t1|)|
    ensures row[0] == Num(rowNum)
    ensures row[|row| - 2].Text? && row[|row| - 2].s != ""
  {
    var tkmh := Tkmh(g15P, g1T, gThi);
    [Num(rowNum), Text(s.fullname), Text(OrEmpty(s.idnumber))]
    + PaddedGrades(g15P, Max(3, |b.p15|)) + PaddedGrades(g1T, Max(3, |b.t1|))
    + [GradeCell(gThi, 0), GradeCell(gThi, 1)]
    + [Grade(tkmh), Text(GetClassification(Some(tkmh))), Text("")]
  }

  /** The row of a student: their three grade lists looked up, then laid out. */
  ghost function SheetRow(s: StudentInfo, rowNum: int, b: Buckets, finalGrade: (int, int) -> Option<real>): seq<Cell>
  {
    StudentRow(s, rowNum, b, GradesOf(s.id, b.p15, finalGrade), GradesOf(s.id, b.t1, finalGrade),
               GradesOf(s.id, b.thi, finalGrade))
  }

  /** build_student_row: fetch the three grade lists and append the cells column by column. */
  method BuildStudentRow(s: StudentInfo, b: Buckets, rowNum: int, finalGrade: (int, int) -> Option<real>)
    returns (row: seq<Cell>)
    ensures row == SheetRow(s, rowNum, b, finalGrade)
  {
    var head := [Num(rowNum), Text(s.fullname), Text(OrEmpty(s.idnumber))];
    var g15P := StudentGrades(s.id, b.p15, finalGrade);
    var g1T := StudentGrades(s.id, b.t1, finalGrade);
    var gThi := StudentGrades(s.id, b.thi, finalGrade);
    row := AppendPadded(head, g15P, Max(3, |b.p15|));
    row := AppendPadded(row, g1T, Max(3, |b.t1|));
    row := row + [GradeCell(gThi, 0)];
    row := row + [GradeCell(gThi, 1)];
    var tkmh := Tkmh(g15P, g1T, gThi);
    var classification := GetClassification(Some(tkmh));
    row := row + [Grade(tkmh), Text(classification), Text("")];
  }

  /** One padded loop of build_student_row. */
  method AppendPadded(row: seq<Cell>, grades: seq<real>, count: nat) returns (out: seq<Cell>)
    ensures out == row + PaddedGrades(grades, count)
  {
    out := row;
    for i := 0 to count
      invariant out == row + PaddedGrades(grades, i)
    {
      assert PaddedGrades(grades, i + 1) == PaddedGrades(grades, i) + [GradeCell(grades, i)];
      out := out + [GradeCell(grades, i)];
    }
  }

  // ---------------------------------------------------------------------------
  // prepare_export_data
  // ---------------------------------------------------------------------------

  /** Header strings as text cells. */
  function AsText(h: seq<string>): (r: seq<Cell>)
    ensures |r| == |h|
    ensures forall i :: 0 <= i < |h| ==> r[i] == Text(h[i])
  {
    seq(|h|, i requires 0 <= i < |h| => Text(h[i]))
  }

  /** The header row as sheet cells. */
  function HeaderCells(b: Buckets): (r: seq<Cell>)
    ensures |r| == |HeaderRow(|b.p15|, |b.t1|)|
  {
    AsText(HeaderRow(|b.p15|, |b.t1|))
  }

  /** The student rows of the sheet, numbered from 1 in the order given. */
  ghost function SheetRows(students: seq<StudentInfo>, b: Buckets, finalGrade: (int, int) -> Option<real>): (r: seq<seq<Cell>>)
    ensures |r| == |students|
  {
    if |students| == 0 then []
    else
      SheetRows(students[..|students| - 1], b, finalGrade)
      + [SheetRow(students[|students| - 1], |students|, b, finalGrade)]
  }

  /** Row k of the student rows belongs to the k-th student and is numbered k + 1. */
  lemma {:induction false} SheetRowsAt(students: seq<StudentInfo>, b: Buckets, finalGrade: (int, int) -> Option<real>, k: nat)
    requires k < |students|
    ensures SheetRows(students, b, finalGrade)[k] == SheetRow(students[k], k + 1, b, finalGrade)
  {
    if k < |students| - 1 {
      var init := students[..|students| - 1];
      SheetRowsAt(init, b, finalGrade, k);
    }
  }

  /** The grade items get_grade_items_by_exam_type files under each type. */
  ghost function ExamBuckets(items: seq<GradeItemRow>, cmOf: GradeItemRow -> Option<int>, records: seq<FieldRecord>): Buckets
  {
    var c := CollectItems(items, cmOf);
    var data := if c.cmids == [] then map[] else FieldMap(KeyedByCmid(records));
    Buckets(Bucket(c.itemmap, data, Exam15P), Bucket(c.itemmap, data, Exam1T), Bucket(c.itemmap, data, ExamThi))
  }

  /**
   * prepare_export_data: the header row, then build_student_row for each enrolled
   * student in the order given, numbered from 1.
   */
  method PrepareExportData(items: seq<GradeItemRow>, cmOf: GradeItemRow -> Option<int>, records: seq<FieldRecord>,
                           students: seq<StudentInfo>, finalGrade: (int, int) -> Option<real>)
    returns (data: seq<seq<Cell>>)
    ensures var b := ExamBuckets(items, cmOf, records);
      data == [HeaderCells(b)] + SheetRows(students, b, finalGrade)
  {
    var buckets, _ := GradeItemsByExamType(items, cmOf, records);
    var headers := BuildHeaders(buckets);
    data := AppendStudentRows([AsText(headers)], students, buckets, finalGrade);
  }

  /** The foreach of prepare_export_data: one row per student, numbered from 1. */
  method AppendStudentRows(init: seq<seq<Cell>>, students: seq<StudentInfo>, b: Buckets,
                           finalGrade: (int, int) -> Option<real>)
    returns (data: seq<seq<Cell>>)
    ensures data == init + SheetRows(students, b, finalGrade)
  {
    data := init;
    var rowNum := 1;
    for k := 0 to |students|
      invariant rowNum == k + 1
      invariant data == init + SheetRows(students[..k], b, finalGrade)
    {
      var row := BuildStudentRow(students[k], b, rowNum, finalGrade);
      assert students[..k + 1][..k] == students[..k];
      data := data + [row];
      rowNum := rowNum + 1;
    }
    assert students[..|students|] == students;
  }

  /** Every sheet row has as many cells as the header, and row k + 1 is numbered k + 1. */
  lemma ExportRowsAligned(b: Buckets, s: StudentInfo, k: nat, finalGrade: (int, int) -> Option<real>)
    ensures |SheetRow(s, k + 1, b, finalGrade)| == |HeaderCells(b)|
    ensures SheetRow(s, k + 1, b, finalGrade)[0] == Num(k + 1)
  {
  }
}
