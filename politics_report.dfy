/**
 * The political-quality report of the web app: a tree of units (battalions
 * with companies below them, each with classes) carrying head counts by
 * education, ethnicity, religion and political organisation, and the rows
 * the export button builds from it
 * (`apps/web/src/components/politics-quality-report/export-button.tsx`).
 *
 * A count object is a list of (key, count) pairs in the object's key order.
 */
module PoliticsReport {
  import opened Wrappers
  import opened OrderedMap

  /** A JavaScript object of counts, in key order. */
  type Counts = seq<Pair<string, int>>

  /** A unit's report; every section may be missing. */
  datatype Report = Report(
    total: Option<int>,
    educationLevel: Option<Counts>,
    ethnic: Option<Counts>,
    religion: Option<Counts>,
    politicalOrg: Option<Counts>)

  /** A node of the unit tree: a null report is None, missing lists are empty. */
  datatype Unit = Unit(name: string, report: Option<Report>, children: seq<Unit>, classes: seq<Unit>)

  /** The count under a key (the object's one property of that name), 0 when absent. */
  function ValueOf(c: Counts, k: string): int
    decreases |c|
  {
    if c == [] then 0
    else if c[|c| - 1].key == k then c[|c| - 1].val
    else ValueOf(c[..|c| - 1], k)
  }

  /** Looking a count up is reading the object's property, 0 when it has none. */
  lemma {:induction false} ValueOfGet(c: Counts, k: string)
    ensures ValueOf(c, k) == (if Get(c, k).Some? then Get(c, k).value else 0)
    decreases |c|
  {
    if c != [] && c[|c| - 1].key != k {
      ValueOfGet(c[..|c| - 1], k);
    }
  }

  /** `section?.[key] || 0`: 0 for a missing section or key. */
  function CountIn(section: Option<Counts>, k: string): int
  {
    if section.None? then 0 else ValueOf(section.value, k)
  }

  /** The sum of all counts of an object. */
  function Sum(c: Counts): int
    decreases |c|
  {
    if c == [] then 0 else Sum(c[..|c| - 1]) + c[|c| - 1].val
  }

  /** The sum of the counts of every key but "Kinh" and "Hoa". */
  function SumOther(c: Counts): int
    decreases |c|
  {
    if c == [] then 0
    else SumOther(c[..|c| - 1]) + (if c[|c| - 1].key != "Kinh" && c[|c| - 1].key != "Hoa" then c[|c| - 1].val else 0)
  }

  lemma {:induction false} ValueOfAbsent(c: Counts, k: string)
    requires forall i :: 0 <= i < |c| ==> c[i].key != k
    ensures ValueOf(c, k) == 0
    decreases |c|
  {
    if c != [] {
      ValueOfAbsent(c[..|c| - 1], k);
    }
  }

  /** The Kinh count, the Hoa count and the other counts add up to all of them. */
  lemma {:induction false} EthnicPartition(c: Counts)
    requires DistinctKeys(c)
    ensures ValueOf(c, "Kinh") + ValueOf(c, "Hoa") + SumOther(c) == Sum(c)
    decreases |c|
  {
    if c != [] {
      var front := c[..|c| - 1];
      var last := c[|c| - 1];
      assert DistinctKeys(front);
      EthnicPartition(front);
      if last.key == "Kinh" {
        ValueOfAbsent(front, "Kinh");
      } else if last.key == "Hoa" {
        ValueOfAbsent(front, "Hoa");
      }
    }
  }

  // ---------------------------------------------------------------------------
  // One exported row
  // ---------------------------------------------------------------------------

  /** The numeric columns of an exported row, in order. */
  const FieldNames: seq<string> := [
    "total", "totalColonel", "totalLieutenant", "totalProSoldierCommander", "totalProSoldier",
    "totalSoldier", "totalWorker", "kinh", "hoa", "otherEthnics", "buddhism", "christianity",
    "caodaism", "protestantism", "hoahaoism", "secondarySchool", "highSchool",
    "universityAndOthers", "postGraduate", "cpv", "hcyu", "cm", "nguy", "aboard", "male", "female"]

  const FieldCount: nat := 26

  const KinhField: nat := 7
  const HoaField: nat := 8
  const OtherEthnicsField: nat := 9
  const ChristianityField: nat := 11

  /** The columns that have no source in the report and are always 0. */
  const SourcelessFields: set<nat> := {1, 2, 3, 4, 5, 6, 23, 24, 25}

  /** An exported row: its number, its name, the numeric columns and a note. */
  datatype ExportSummary = ExportSummary(idx: int, className: string, values: seq<int>, note: string)

  /** The numeric columns of a report. */
  function ReportValues(r: Report): (v: seq<int>)
    ensures |v| == FieldCount
  {
    [if r.total.Some? then r.total.value else 0, 0, 0, 0, 0, 0, 0,
     CountIn(r.ethnic, "Kinh"), CountIn(r.ethnic, "Hoa"), if r.ethnic.Some? then SumOther(r.ethnic.value) else 0,
     CountIn(r.religion, "Phật giáo"),
     CountIn(r.religion, "Thiên chúa giáo") + CountIn(r.religion, "thiên chúa"),
     CountIn(r.religion, "Cao đài"), CountIn(r.religion, "Tin lành"), CountIn(r.religion, "hòa hảo"),
     CountIn(r.educationLevel, "Cấp II"), CountIn(r.educationLevel, "Cấp III"),
     CountIn(r.educationLevel, "TC-CĐ-ĐH"), CountIn(r.educationLevel, "Sau ĐH"),
     CountIn(r.politicalOrg, "cpv"), CountIn(r.politicalOrg, "hcyu"),
     CountIn(r.politicalOrg, "cm"), CountIn(r.politicalOrg, "nguy"),
     0, 0, 0]
  }

  /**
   * What a report's columns hold: 0 for the columns without a source, the sum
   * of both spellings for christianity, and for the ethnic columns a split of
   * all ethnic counts (none when the section is missing).
   */
  lemma ReportValuesFacts(r: Report)
    ensures forall f :: 0 <= f < FieldCount && f in SourcelessFields ==> ReportValues(r)[f] == 0
    ensures ReportValues(r)[ChristianityField] == CountIn(r.religion, "Thiên chúa giáo") + CountIn(r.religion, "thiên chúa")
    ensures r.ethnic.Some? && DistinctKeys(r.ethnic.value) ==>
      ReportValues(r)[KinhField] + ReportValues(r)[HoaField] + ReportValues(r)[OtherEthnicsField] == Sum(r.ethnic.value)
    ensures r.ethnic.None? ==>
      ReportValues(r)[KinhField] == ReportValues(r)[HoaField] == ReportValues(r)[OtherEthnicsField] == 0
  {
    var v := ReportValues(r);
    assert v[1] == v[2] == v[3] == v[4] == v[5] == v[6] == v[23] == v[24] == v[25] == 0;
    if r.ethnic.Some? && DistinctKeys(r.ethnic.value) {
      EthnicPartition(r.ethnic.value);
    }
  }

  /** `reportDataToExportData`: the row of a report, its other ethnicities added up key by key. */
  method ReportToExportData(idx: int, name: string, report: Report) returns (row: ExportSummary)
    ensures row == ExportSummary(idx, name, ReportValues(report), "")
  {
    var otherEthnics := 0;
    if report.ethnic.Some? {
      var ethnic := report.ethnic.value;
      for i := 0 to |ethnic|
        invariant otherEthnics == SumOther(ethnic[..i])
      {
        assert ethnic[..i + 1][..i] == ethnic[..i];
        if ethnic[i].key != "Kinh" && ethnic[i].key != "Hoa" {
          otherEthnics := otherEthnics + ethnic[i].val;
        }
      }
      assert ethnic[..|ethnic|] == ethnic;
    }
    var r := report;
    var total := if r.total.Some? then r.total.value else 0;
    var christianity := CountIn(r.religion, "Thiên chúa giáo") + CountIn(r.religion, "thiên chúa");
    row := ExportSummary(idx, name,
      [total, 0, 0, 0, 0, 0, 0,
       CountIn(r.ethnic, "Kinh"), CountIn(r.ethnic, "Hoa"), otherEthnics,
       CountIn(r.religion, "Phật giáo"), christianity,
       CountIn(r.religion, "Cao đài"), CountIn(r.religion, "Tin lành"), CountIn(r.religion, "hòa hảo"),
       CountIn(r.educationLevel, "Cấp II"), CountIn(r.educationLevel, "Cấp III"),
       CountIn(r.educationLevel, "TC-CĐ-ĐH"), CountIn(r.educationLevel, "Sau ĐH"),
       CountIn(r.politicalOrg, "cpv"), CountIn(r.politicalOrg, "hcyu"),
       CountIn(r.politicalOrg, "cm"), CountIn(r.politicalOrg, "nguy"),
       0, 0, 0],
      "");
  }

  // ---------------------------------------------------------------------------
  // The traversal
  // ---------------------------------------------------------------------------

  /** A node the export visits, and whether it is a class under a child unit. */
  datatype Visit = Visit(node: Unit, childClass: bool)

  function ClassVisits(classes: seq<Unit>, childClass: bool): (v: seq<Visit>)
    ensures |v| == |classes|
    ensures forall k :: 0 <= k < |classes| ==> v[k] == Visit(classes[k], childClass)
  {
    seq(|classes|, k requires 0 <= k < |classes| => Visit(classes[k], childClass))
  }

  /** Each child, followed by its classes. */
  function ChildVisits(children: seq<Unit>): seq<Visit>
    decreases |children|
  {
    if children == [] then []
    else
      var last := children[|children| - 1];
      ChildVisits(children[..|children| - 1]) + [Visit(last, false)] + ClassVisits(last.classes, true)
  }

  /** A top-level unit, then each child followed by its classes, then the unit's own classes. */
  function UnitVisits(u: Unit): (v: seq<Visit>)
    ensures |v| >= 1 && v[0] == Visit(u, false)
  {
    [Visit(u, false)] + ChildVisits(u.children) + ClassVisits(u.classes, false)
  }

  /** The visiting order over the top-level units. */
  function Visits(units: seq<Unit>): seq<Visit>
    decreases |units|
  {
    if units == [] then [] else Visits(units[..|units| - 1]) + UnitVisits(units[|units| - 1])
  }

  /** The row of a visited node with a report: classes under a child get the " - Lớp " prefix. */
  function VisitRow(idx: int, v: Visit): ExportSummary
    requires v.node.report.Some?
  {
    ExportSummary(idx, (if v.childClass then " - Lớp " else "") + v.node.name, ReportValues(v.node.report.value), "")
  }

  /** The rows of visited nodes numbered from `first` in visiting order; a node without a report gives no row. */
  function Converted(visits: seq<Visit>, first: int): (rows: seq<ExportSummary>)
    ensures |rows| <= |visits|
    decreases |visits|
  {
    if visits == [] then []
    else
      var last := visits[|visits| - 1];
      var n := |visits| - 1;
      Converted(visits[..n], first) + (if last.node.report.Some? then [VisitRow(first + n, last)] else [])
  }

  lemma {:induction false} ConvertedAppend(v1: seq<Visit>, v2: seq<Visit>, first: int)
    ensures Converted(v1 + v2, first) == Converted(v1, first) + Converted(v2, first + |v1|)
    decreases |v2|
  {
    if v2 == [] {
      assert v1 + v2 == v1;
    } else {
      var n := |v2| - 1;
      assert (v1 + v2)[..|v1 + v2| - 1] == v1 + v2[..n];
      ConvertedAppend(v1, v2[..n], first);
    }
  }

  function ReportedCount(visits: seq<Visit>): nat
    decreases |visits|
  {
    if visits == [] then 0
    else ReportedCount(visits[..|visits| - 1]) + (if visits[|visits| - 1].node.report.Some? then 1 else 0)
  }

  /**
   * One row per visited node with a report, numbered by the node's place in
   * the visiting order: the numbers rise and stay within the visits, so a node
   * without a report still uses up its number.
   */
  lemma {:induction false} ConvertedNumbers(visits: seq<Visit>, first: int)
    ensures |Converted(visits, first)| == ReportedCount(visits)
    ensures forall k :: 0 <= k < |Converted(visits, first)| ==>
      first <= Converted(visits, first)[k].idx < first + |visits|
    ensures forall j, k :: 0 <= j < k < |Converted(visits, first)| ==>
      Converted(visits, first)[j].idx < Converted(visits, first)[k].idx
    decreases |visits|
  {
    if visits != [] {
      ConvertedNumbers(visits[..|visits| - 1], first);
    }
  }

  /** `processUnit` on one node: its row, if it has a report, and the next number. */
  method ProcessNode(node: Unit, childClass: bool, result: seq<ExportSummary>, idx: int)
    returns (result': seq<ExportSummary>, idx': int)
    ensures result' == result + Converted([Visit(node, childClass)], idx) && idx' == idx + 1
  {
    var visit := Visit(node, childClass);
    assert [visit][..0] == [];
    result' := result;
    if node.report.Some? {
      var converted := ReportToExportData(idx, node.name, node.report.value);
      if childClass {
        converted := converted.(className := " - Lớp " + converted.className);
      } else {
        assert "" + node.name == node.name;
      }
      assert converted == VisitRow(idx + 0, visit);
      result' := result + [converted];
    }
    idx' := idx + 1;
  }

  /** A list of classes, in order. */
  method ProcessClasses(classes: seq<Unit>, childClass: bool, result: seq<ExportSummary>, idx: int)
    returns (result': seq<ExportSummary>, idx': int)
    ensures result' == result + Converted(ClassVisits(classes, childClass), idx)
    ensures idx' == idx + |classes|
  {
    result', idx' := result, idx;
    for i := 0 to |classes|
      invariant result' == result + Converted(ClassVisits(classes[..i], childClass), idx)
      invariant idx' == idx + i
    {
      assert ClassVisits(classes[..i + 1], childClass) == ClassVisits(classes[..i], childClass) + [Visit(classes[i], childClass)];
      ConvertedAppend(ClassVisits(classes[..i], childClass), [Visit(classes[i], childClass)], idx);
      result', idx' := ProcessNode(classes[i], childClass, result', idx');
    }
    assert classes[..|classes|] == classes;
  }

  /** A unit's children, each followed by its classes. */
  method ProcessChildren(children: seq<Unit>, result: seq<ExportSummary>, idx: int)
    returns (result': seq<ExportSummary>, idx': int)
    ensures result' == result + Converted(ChildVisits(children), idx)
    ensures idx' == idx + |ChildVisits(children)|
  {
    result', idx' := result, idx;
    for i := 0 to |children|
      invariant result' == result + Converted(ChildVisits(children[..i]), idx)
      invariant idx' == idx + |ChildVisits(children[..i])|
    {
      var child := children[i];
      var before := ChildVisits(children[..i]);
      assert children[..i + 1][..i] == children[..i];
      assert ChildVisits(children[..i + 1]) == before + [Visit(child, false)] + ClassVisits(child.classes, true);
      ConvertedAppend(before, [Visit(child, false)], idx);
      ConvertedAppend(before + [Visit(child, false)], ClassVisits(child.classes, true), idx);
      result', idx' := ProcessNode(child, false, result', idx');
      result', idx' := ProcessClasses(child.classes, true, result', idx');
    }
    assert children[..|children|] == children;
  }

  /** One top-level unit: itself, its children with their classes, then its own classes. */
  method ProcessUnit(unit: Unit, result: seq<ExportSummary>, idx: int)
    returns (result': seq<ExportSummary>, idx': int)
    ensures result' == result + Converted(UnitVisits(unit), idx)
    ensures idx' == idx + |UnitVisits(unit)|
  {
    var own := [Visit(unit, false)];
    var childVisits := ChildVisits(unit.children);
    ConvertedAppend(own, childVisits, idx);
    ConvertedAppend(own + childVisits, ClassVisits(unit.classes, false), idx);
    result', idx' := ProcessNode(unit, false, result, idx);
    result', idx' := ProcessChildren(unit.children, result', idx');
    result', idx' := ProcessClasses(unit.classes, false, result', idx');
  }

  /** `convertToPoliticsQualitySummary`: the rows of the visited nodes, numbered from 1 in visiting order. */
  method ConvertToSummary(data: seq<Unit>) returns (result: seq<ExportSummary>)
    ensures result == Converted(Visits(data), 1)
  {
    result := [];
    var idx := 1;
    for i := 0 to |data|
      invariant result == Converted(Visits(data[..i]), 1)
      invariant idx == 1 + |Visits(data[..i])|
    {
      var before := Visits(data[..i]);
      assert data[..i + 1][..i] == data[..i];
      assert Visits(data[..i + 1]) == before + UnitVisits(data[i]);
      ConvertedAppend(before, UnitVisits(data[i]), 1);
      result, idx := ProcessUnit(data[i], result, idx);
    }
    assert data[..|data|] == data;
  }

  // ---------------------------------------------------------------------------
  // The total row
  // ---------------------------------------------------------------------------

  /** The sum of one column over the top-level units that have a report. */
  function FieldSum(data: seq<Unit>, f: nat): (sum: int)
    requires f < FieldCount
    ensures (forall i :: 0 <= i < |data| ==> data[i].report.None?) ==> sum == 0
    decreases |data|
  {
    if data == [] then 0
    else
      var last := data[|data| - 1];
      FieldSum(data[..|data| - 1], f) + (if last.report.Some? then ReportValues(last.report.value)[f] else 0)
  }

  /** `calculateTotalObject`: the column sums over the top-level units with a report, children not counted twice. */
  method CalculateTotal(data: seq<Unit>) returns (total: seq<int>)
    ensures |total| == FieldCount
    ensures forall f :: 0 <= f < FieldCount ==> total[f] == FieldSum(data, f)
  {
    total := seq(FieldCount, f => 0);
    for i := 0 to |data|
      invariant |total| == FieldCount
      invariant forall f :: 0 <= f < FieldCount ==> total[f] == FieldSum(data[..i], f)
    {
      assert data[..i + 1][..i] == data[..i];
      var d := data[i];
      if d.report.Some? {
        var row := ReportToExportData(i, d.name, d.report.value);
        total := seq(FieldCount, f requires 0 <= f < FieldCount => total[f] + row.values[f]);
      }
    }
    assert data[..|data|] == data;
  }

  /** The sum of the ethnic counts of the top-level units with a report. */
  function EthnicTotal(data: seq<Unit>): int
    decreases |data|
  {
    if data == [] then 0
    else
      var last := data[|data| - 1];
      EthnicTotal(data[..|data| - 1]) +
      (if last.report.Some? && last.report.value.ethnic.Some? then Sum(last.report.value.ethnic.value) else 0)
  }

  /** In the total row too, Kinh, Hoa and the other ethnicities add up to all ethnic counts. */
  lemma {:induction false} TotalEthnicPartition(data: seq<Unit>)
    requires forall k :: 0 <= k < |data| && data[k].report.Some? && data[k].report.value.ethnic.Some? ==>
      DistinctKeys(data[k].report.value.ethnic.value)
    ensures FieldSum(data, KinhField) + FieldSum(data, HoaField) + FieldSum(data, OtherEthnicsField) == EthnicTotal(data)
    decreases |data|
  {
    if data != [] {
      TotalEthnicPartition(data[..|data| - 1]);
      var last := data[|data| - 1];
      if last.report.Some? {
        ReportValuesFacts(last.report.value);
      }
    }
  }

  // ---------------------------------------------------------------------------
  // The export button
  // ---------------------------------------------------------------------------

  /** `map((el, idx) => ({ ...el, idx: ++idx }))`: the rows numbered 1..n. */
  function Renumber(rows: seq<ExportSummary>): (r: seq<ExportSummary>)
    ensures |r| == |rows|
    ensures forall k :: 0 <= k < |rows| ==> r[k] == rows[k].(idx := k + 1)
  {
    seq(|rows|, k requires 0 <= k < |rows| => rows[k].(idx := k + 1))
  }

  /**
   * The export button's data: the visited rows renumbered 1..n consecutively,
   * with everything else as converted, and the total row.
   */
  method ExportButtonData(data: seq<Unit>) returns (rows: seq<ExportSummary>, total: seq<int>)
    ensures |rows| == |Converted(Visits(data), 1)| == ReportedCount(Visits(data))
    ensures forall k :: 0 <= k < |rows| ==>
      rows[k].idx == k + 1 && rows[k] == Converted(Visits(data), 1)[k].(idx := k + 1)
    ensures |total| == FieldCount && forall f :: 0 <= f < FieldCount ==> total[f] == FieldSum(data, f)
  {
    total := CalculateTotal(data);
    var converted := ConvertToSummary(data);
    ConvertedNumbers(Visits(data), 1);
    rows := Renumber(converted);
  }
}
