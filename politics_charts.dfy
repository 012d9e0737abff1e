/**
 * The charts of the political-quality report
 * (`apps/web/src/components/politics-quality-report/charts-section.tsx`): the
 * unit tree flattened into chart rows, the keys of a report section collected
 * over the class rows, and each key's count summed over the classes.
 */
module PoliticsCharts {
  import opened Wrappers
  import opened OrderedMap
  import opened PoliticsReport

  /** A chart row: a display name and the spread report (no sections when it is null). */
  datatype ChartRow = ChartRow(name: string, report: Option<Report>)

  /** `prefix ? `${prefix} - ${name}` : name` */
  function Prefixed(prefix: string, name: string): string
  {
    if prefix != "" then prefix + " - " + name else name
  }

  // ---------------------------------------------------------------------------
  // Flattening
  // ---------------------------------------------------------------------------

  /** `flattenClasses`: a unit's own classes named under the prefix, then its children's classes under its name. */
  function FlattenClasses(u: Unit, prefix: string): seq<ChartRow>
    decreases u, 1
  {
    seq(|u.classes|, k requires 0 <= k < |u.classes| => ChartRow(Prefixed(prefix, u.classes[k].name), u.classes[k].report))
    + ChildrenClasses(u, |u.children|)
  }

  /** The class rows of the first `n` children of a unit. */
  function ChildrenClasses(u: Unit, n: nat): seq<ChartRow>
    requires n <= |u.children|
    decreases u, 0, n
  {
    if n == 0 then [] else ChildrenClasses(u, n - 1) + FlattenClasses(u.children[n - 1], u.name)
  }

  /** The class nodes of a tree, own classes first, then each child's, recursively. */
  function ClassNodes(u: Unit): seq<Unit>
    decreases u, 1
  {
    u.classes + ChildrenClassNodes(u, |u.children|)
  }

  function ChildrenClassNodes(u: Unit, n: nat): seq<Unit>
    requires n <= |u.children|
    decreases u, 0, n
  {
    if n == 0 then [] else ChildrenClassNodes(u, n - 1) + ClassNodes(u.children[n - 1])
  }

  /** The reports of a list of chart rows. */
  function RowReports(rows: seq<ChartRow>): (r: seq<Option<Report>>)
    ensures |r| == |rows|
  {
    seq(|rows|, k requires 0 <= k < |rows| => rows[k].report)
  }

  function NodeReports(nodes: seq<Unit>): (r: seq<Option<Report>>)
    ensures |r| == |nodes|
  {
    seq(|nodes|, k requires 0 <= k < |nodes| => nodes[k].report)
  }

  lemma RowReportsAppend(a: seq<ChartRow>, b: seq<ChartRow>)
    ensures RowReports(a + b) == RowReports(a) + RowReports(b)
  {
  }

  lemma NodeReportsAppend(a: seq<Unit>, b: seq<Unit>)
    ensures NodeReports(a + b) == NodeReports(a) + NodeReports(b)
  {
  }

  /**
   * `flattenClasses` yields exactly the class nodes of the tree, in order (one
   * row per class, carrying that class's report), whatever the prefix.
   */
  lemma {:induction false} FlattenClassesExact(u: Unit, prefix: string)
    ensures RowReports(FlattenClasses(u, prefix)) == NodeReports(ClassNodes(u))
    decreases u, 1
  {
    var own := seq(|u.classes|, k requires 0 <= k < |u.classes| => ChartRow(Prefixed(prefix, u.classes[k].name), u.classes[k].report));
    RowReportsAppend(own, ChildrenClasses(u, |u.children|));
    NodeReportsAppend(u.classes, ChildrenClassNodes(u, |u.children|));
    ChildrenClassesExact(u, |u.children|);
  }

  lemma {:induction false} ChildrenClassesExact(u: Unit, n: nat)
    requires n <= |u.children|
    ensures RowReports(ChildrenClasses(u, n)) == NodeReports(ChildrenClassNodes(u, n))
    decreases u, 0, n
  {
    if n > 0 {
      ChildrenClassesExact(u, n - 1);
      FlattenClassesExact(u.children[n - 1], u.name);
      RowReportsAppend(ChildrenClasses(u, n - 1), FlattenClasses(u.children[n - 1], u.name));
      NodeReportsAppend(ChildrenClassNodes(u, n - 1), ClassNodes(u.children[n - 1]));
    }
  }

  /** `flattenReports`: the unit's own row, its classes under its name, then each child's rows under its name. */
  function FlattenReports(u: Unit, prefix: string): (rows: seq<ChartRow>)
    ensures |rows| >= 1 && rows[0] == ChartRow(Prefixed(prefix, u.name), u.report)
    decreases u, 1
  {
    [ChartRow(Prefixed(prefix, u.name), u.report)]
    + seq(|u.classes|, k requires 0 <= k < |u.classes| => ChartRow(u.name + " - " + u.classes[k].name, u.classes[k].report))
    + ChildrenReports(u, |u.children|)
  }

  function ChildrenReports(u: Unit, n: nat): seq<ChartRow>
    requires n <= |u.children|
    decreases u, 0, n
  {
    if n == 0 then [] else ChildrenReports(u, n - 1) + FlattenReports(u.children[n - 1], u.name)
  }

  /** The number of nodes of a tree: the unit, its classes, and its children's nodes. */
  function NodeCount(u: Unit): nat
    decreases u, 1
  {
    1 + |u.classes| + ChildrenNodeCount(u, |u.children|)
  }

  function ChildrenNodeCount(u: Unit, n: nat): nat
    requires n <= |u.children|
    decreases u, 0, n
  {
    if n == 0 then 0 else ChildrenNodeCount(u, n - 1) + NodeCount(u.children[n - 1])
  }

  /** `flattenReports` gives one row per unit and per class of the tree, the unit's own first. */
  lemma {:induction false} FlattenReportsCount(u: Unit, prefix: string)
    ensures |FlattenReports(u, prefix)| == NodeCount(u)
    decreases u, 1
  {
    ChildrenReportsCount(u, |u.children|);
  }

  lemma {:induction false} ChildrenReportsCount(u: Unit, n: nat)
    requires n <= |u.children|
    ensures |ChildrenReports(u, n)| == ChildrenNodeCount(u, n)
    decreases u, 0, n
  {
    if n > 0 {
      ChildrenReportsCount(u, n - 1);
      FlattenReportsCount(u.children[n - 1], u.name);
    }
  }

  /** `units.flatMap(u => flattenClasses(u))`: the class rows of all top-level units. */
  function ClassData(units: seq<Unit>): seq<ChartRow>
    decreases |units|
  {
    if units == [] then [] else ClassData(units[..|units| - 1]) + FlattenClasses(units[|units| - 1], "")
  }

  /** `units.flatMap(u => flattenReports(u))`: the rows of all units and classes. */
  function UnitData(units: seq<Unit>): seq<ChartRow>
    decreases |units|
  {
    if units == [] then [] else UnitData(units[..|units| - 1]) + FlattenReports(units[|units| - 1], "")
  }

  // ---------------------------------------------------------------------------
  // Keys and sums
  // ---------------------------------------------------------------------------

  datatype Section = EducationLevel | Religion | Ethnic | PoliticalOrg

  /** `row[key] ?? {}` */
  function SectionOf(row: ChartRow, sec: Section): Counts
  {
    if row.report.None? then []
    else
      var r := row.report.value;
      var s := match sec
        case EducationLevel => r.educationLevel
        case Religion => r.religion
        case Ethnic => r.ethnic
        case PoliticalOrg => r.politicalOrg;
      if s.None? then [] else s.value
  }

  /** `rows.flatMap(row => Object.keys(row[key] ?? {}))` */
  function AllKeys(rows: seq<ChartRow>, sec: Section): seq<string>
    decreases |rows|
  {
    if rows == [] then [] else AllKeys(rows[..|rows| - 1], sec) + Keys(SectionOf(rows[|rows| - 1], sec))
  }

  /** The first position of an element. */
  function FirstIndex(s: seq<string>, x: string): (i: nat)
    requires x in s
    ensures i < |s| && s[i] == x && forall j :: 0 <= j < i ==> s[j] != x
  {
    if s[0] == x then 0 else 1 + FirstIndex(s[1..], x)
  }

  /** `Array.from(new Set(s))`: each element once, at its first occurrence. */
  function Distinct(s: seq<string>): (r: seq<string>)
    ensures forall x :: x in r ==> x in s
    decreases |s|
  {
    if s == [] then []
    else
      var front := Distinct(s[..|s| - 1]);
      if s[|s| - 1] in s[..|s| - 1] then front else front + [s[|s| - 1]]
  }

  lemma {:induction false} FirstIndexOfPrefix(front: seq<string>, last: string, x: string)
    requires x in front
    ensures FirstIndex(front + [last], x) == FirstIndex(front, x)
  {
    var i := FirstIndex(front, x);
    var s := front + [last];
    assert s[i] == x;
    var j := FirstIndex(s, x);
    assert j <= i;
    assert front[j] == x;
  }

  /**
   * The distinct elements hold every element of the list exactly once, in the
   * order of their first occurrences.
   */
  lemma {:induction false} DistinctExact(s: seq<string>)
    ensures forall x :: x in Distinct(s) <==> x in s
    ensures forall i, j :: 0 <= i < j < |Distinct(s)| ==> Distinct(s)[i] != Distinct(s)[j]
    ensures forall i, j :: 0 <= i < j < |Distinct(s)| ==> FirstIndex(s, Distinct(s)[i]) < FirstIndex(s, Distinct(s)[j])
    decreases |s|
  {
    if s != [] {
      var n := |s| - 1;
      var front := s[..n];
      var last := s[n];
      DistinctExact(front);
      assert s == front + [last];
      var d := Distinct(front);
      forall x | x in front
        ensures FirstIndex(s, x) == FirstIndex(front, x)
      {
        FirstIndexOfPrefix(front, last, x);
      }
      if last !in front {
        assert FirstIndex(s, last) == n;
        forall i | 0 <= i < |d|
          ensures FirstIndex(s, d[i]) < n
        {
          assert d[i] in front;
        }
      }
    }
  }

  /** `collectKeys`: the section's keys over the rows, each once, in first-seen order. */
  function CollectKeys(rows: seq<ChartRow>, sec: Section): (keys: seq<string>)
    ensures forall k :: k in keys <==> k in AllKeys(rows, sec)
    ensures forall i, j :: 0 <= i < j < |keys| ==> keys[i] != keys[j]
  {
    DistinctExact(AllKeys(rows, sec));
    Distinct(AllKeys(rows, sec))
  }

  /** A key is collected exactly when some row's section has it. */
  lemma {:induction false} AllKeysExact(rows: seq<ChartRow>, sec: Section, k: string)
    ensures k in AllKeys(rows, sec) <==> exists i :: 0 <= i < |rows| && k in Keys(SectionOf(rows[i], sec))
    decreases |rows|
  {
    if rows != [] {
      var n := |rows| - 1;
      AllKeysExact(rows[..n], sec, k);
      if k in Keys(SectionOf(rows[n], sec)) {
        assert k in AllKeys(rows, sec);
      } else if k in AllKeys(rows[..n], sec) {
        var i :| 0 <= i < n && k in Keys(SectionOf(rows[..n][i], sec));
        assert rows[i] == rows[..n][i];
      }
    }
  }

  /**
   * `collectKeys` gives every key that some row's section has, each once, in
   * the order keys are first seen.
   */
  lemma CollectKeysExact(rows: seq<ChartRow>, sec: Section, k: string)
    ensures k in CollectKeys(rows, sec) <==> exists i :: 0 <= i < |rows| && k in Keys(SectionOf(rows[i], sec))
    ensures forall i, j :: 0 <= i < j < |CollectKeys(rows, sec)| ==>
      CollectKeys(rows, sec)[i] != CollectKeys(rows, sec)[j] &&
      FirstIndex(AllKeys(rows, sec), CollectKeys(rows, sec)[i]) < FirstIndex(AllKeys(rows, sec), CollectKeys(rows, sec)[j])
  {
    DistinctExact(AllKeys(rows, sec));
    AllKeysExact(rows, sec, k);
  }

  /** The sum of one key's counts over the rows. */
  function SumKey(rows: seq<ChartRow>, sec: Section, k: string): int
    decreases |rows|
  {
    if rows == [] then 0 else SumKey(rows[..|rows| - 1], sec, k) + ValueOf(SectionOf(rows[|rows| - 1], sec), k)
  }

  /** `agg[k] = (agg[k] || 0) + v` for each entry in turn. */
  function AddEntries(agg: Counts, entries: Counts): Counts
    decreases |entries|
  {
    if entries == [] then agg
    else
      var before := AddEntries(agg, entries[..|entries| - 1]);
      var e := entries[|entries| - 1];
      Put(before, e.key, ValueOf(before, e.key) + e.val)
  }

  /** The aggregate object after the given rows. */
  function Aggregated(rows: seq<ChartRow>, sec: Section): (agg: Counts)
    ensures DistinctKeys(agg)
    decreases |rows|
  {
    if rows == [] then []
    else
      var before := Aggregated(rows[..|rows| - 1], sec);
      AddEntriesDistinct(before, SectionOf(rows[|rows| - 1], sec));
      AddEntries(before, SectionOf(rows[|rows| - 1], sec))
  }

  /** Writing a key changes that key's count only. */
  lemma ValueOfPut(m: Counts, k: string, v: int, k2: string)
    requires DistinctKeys(m)
    ensures DistinctKeys(Put(m, k, v))
    ensures ValueOf(Put(m, k, v), k2) == if k2 == k then v else ValueOf(m, k2)
  {
    PutKeepsDistinct(m, k, v);
    ValueOfGet(Put(m, k, v), k2);
    ValueOfGet(m, k2);
    if k2 == k {
      GetPutSame(m, k, v);
    } else {
      GetPutOther(m, k, v, k2);
    }
  }

  /** Adding entries to an object with distinct keys keeps its keys distinct. */
  lemma {:induction false} AddEntriesDistinct(agg: Counts, entries: Counts)
    requires DistinctKeys(agg)
    ensures DistinctKeys(AddEntries(agg, entries))
    decreases |entries|
  {
    if entries != [] {
      var e := entries[|entries| - 1];
      AddEntriesDistinct(agg, entries[..|entries| - 1]);
      var before := AddEntries(agg, entries[..|entries| - 1]);
      PutKeepsDistinct(before, e.key, ValueOf(before, e.key) + e.val);
    }
  }

  /** Adding an object's entries adds its count to each key. */
  lemma {:induction false} AddEntriesValue(agg: Counts, entries: Counts, k: string)
    requires DistinctKeys(agg) && DistinctKeys(entries)
    ensures DistinctKeys(AddEntries(agg, entries))
    ensures ValueOf(AddEntries(agg, entries), k) == ValueOf(agg, k) + ValueOf(entries, k)
    decreases |entries|
  {
    AddEntriesDistinct(agg, entries);
    if entries != [] {
      var front := entries[..|entries| - 1];
      var e := entries[|entries| - 1];
      LastKeyFresh(entries);
      AddEntriesValue(agg, front, k);
      var before := AddEntries(agg, front);
      assert AddEntries(agg, entries) == Put(before, e.key, ValueOf(before, e.key) + e.val);
      AddOneEntry(before, front, e, k, ValueOf(agg, k));
      assert front + [e] == entries;
    }
  }

  /** One step of the loop: the entry's count is added under its key, and only there. */
  lemma AddOneEntry(before: Counts, front: Counts, e: Pair<string, int>, k: string, base: int)
    requires DistinctKeys(before)
    requires ValueOf(before, k) == base + ValueOf(front, k)
    requires forall i :: 0 <= i < |front| ==> front[i].key != e.key
    ensures ValueOf(Put(before, e.key, ValueOf(before, e.key) + e.val), k) == base + ValueOf(front + [e], k)
  {
    var entries := front + [e];
    assert entries[..|entries| - 1] == front;
    ValueOfPut(before, e.key, ValueOf(before, e.key) + e.val, k);
    if k == e.key {
      ValueOfAbsent(front, k);
    }
  }

  /** In an object, the front has distinct keys and none of them is the last key. */
  lemma LastKeyFresh(entries: Counts)
    requires DistinctKeys(entries) && entries != []
    ensures DistinctKeys(entries[..|entries| - 1])
    ensures forall i :: 0 <= i < |entries| - 1 ==> entries[i].key != entries[|entries| - 1].key
  {
  }

  /** Every section of the rows is a real object: no key twice. */
  ghost predicate SectionsDistinct(rows: seq<ChartRow>, sec: Section)
  {
    forall i :: 0 <= i < |rows| ==> DistinctKeys(SectionOf(rows[i], sec))
  }

  /** `aggregate(key)[k]` is the sum of the key's counts over the rows. */
  lemma {:induction false} AggregatedValue(rows: seq<ChartRow>, sec: Section, k: string)
    requires SectionsDistinct(rows, sec)
    ensures DistinctKeys(Aggregated(rows, sec))
    ensures ValueOf(Aggregated(rows, sec), k) == SumKey(rows, sec, k)
    decreases |rows|
  {
    if rows != [] {
      var front := rows[..|rows| - 1];
      assert SectionsDistinct(front, sec) by {
        forall i | 0 <= i < |front| ensures DistinctKeys(SectionOf(front[i], sec)) {
          assert front[i] == rows[i];
        }
      }
      AggregatedValue(front, sec, k);
      assert DistinctKeys(SectionOf(rows[|rows| - 1], sec));
      AddEntriesValue(Aggregated(front, sec), SectionOf(rows[|rows| - 1], sec), k);
    }
  }

  /** One row's entries, added one by one. */
  method AddRowEntries(agg: Counts, entries: Counts) returns (agg': Counts)
    ensures agg' == AddEntries(agg, entries)
  {
    agg' := agg;
    for i := 0 to |entries|
      invariant agg' == AddEntries(agg, entries[..i])
    {
      assert entries[..i + 1][..i] == entries[..i];
      var k := entries[i].key;
      agg' := Put(agg', k, ValueOf(agg', k) + entries[i].val);
    }
    assert entries[..|entries|] == entries;
  }

  /** `aggregate`: the counts of a section added up over the rows, key by key. */
  method Aggregate(rows: seq<ChartRow>, sec: Section) returns (agg: Counts)
    ensures agg == Aggregated(rows, sec)
  {
    agg := [];
    for i := 0 to |rows|
      invariant agg == Aggregated(rows[..i], sec)
    {
      assert rows[..i + 1][..i] == rows[..i];
      agg := AddRowEntries(agg, SectionOf(rows[i], sec));
    }
    assert rows[..|rows|] == rows;
  }

  // ---------------------------------------------------------------------------
  // Chart data
  // ---------------------------------------------------------------------------

  const Colors: seq<string> := [
    "#0088FE", "#00C49F", "#FFBB28", "#FF8042", "#8884D8", "#82CA9D", "#A4DE6C", "#D0ED57", "#FF6666"]

  datatype ChartEntry = ChartEntry(name: string, value: int, color: string)

  /** `politicalOrgNameMapping[name] ?? name` */
  function OrgDisplayName(key: string): (name: string)
    ensures key == "cpv" ==> name == "Đảng"
    ensures key == "hcyu" ==> name == "Đoàn"
    ensures key != "cpv" && key != "hcyu" ==> name == key
  {
    if key == "cpv" then "Đảng" else if key == "hcyu" then "Đoàn" else key
  }

  /** `keys.map((name, idx) => ...)`: each key's entry, valued from the aggregate and coloured by position. */
  method ChartEntries(keys: seq<string>, agg: Counts, sec: Section) returns (entries: seq<ChartEntry>)
    ensures |entries| == |keys|
    ensures forall i :: 0 <= i < |entries| ==>
      && entries[i].color == Colors[i % 9]
      && entries[i].name == (if sec == PoliticalOrg then OrgDisplayName(keys[i]) else keys[i])
      && entries[i].value == ValueOf(agg, keys[i])
  {
    entries := [];
    for i := 0 to |keys|
      invariant |entries| == i
      invariant forall j :: 0 <= j < i ==>
        && entries[j].color == Colors[j % 9]
        && entries[j].name == (if sec == PoliticalOrg then OrgDisplayName(keys[j]) else keys[j])
        && entries[j].value == ValueOf(agg, keys[j])
    {
      var name := if sec == PoliticalOrg then OrgDisplayName(keys[i]) else keys[i];
      entries := entries + [ChartEntry(name, ValueOf(agg, keys[i]), Colors[i % |Colors|])];
    }
  }

  /**
   * A pie chart's entries for a section over the class rows: one per collected
   * key, coloured in turn from the palette, valued at the key's sum over the
   * classes; political organisations are shown by their display names.
   */
  method SectionChart(units: seq<Unit>, sec: Section) returns (entries: seq<ChartEntry>)
    ensures var keys := CollectKeys(ClassData(units), sec);
      && |entries| == |keys|
      && forall i :: 0 <= i < |entries| ==>
           && entries[i].color == Colors[i % 9]
           && entries[i].name == (if sec == PoliticalOrg then OrgDisplayName(keys[i]) else keys[i])
           && (SectionsDistinct(ClassData(units), sec) ==> entries[i].value == SumKey(ClassData(units), sec, keys[i]))
  {
    var classData := ClassData(units);
    var keys := CollectKeys(classData, sec);
    var agg := Aggregate(classData, sec);
    entries := ChartEntries(keys, agg, sec);
    if SectionsDistinct(classData, sec) {
      forall i | 0 <= i < |entries|
        ensures entries[i].value == SumKey(classData, sec, keys[i])
      {
        AggregatedValue(classData, sec, keys[i]);
      }
    }
  }
}
