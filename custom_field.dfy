/**
 * The custom-field reader shared by the grade export and the two course-grade web
 * services: decoding one stored field value, and the per-module map of decoded
 * values keyed by field short name.
 *
 * The same decoder and map builder are written out three times, identically, in
 * packages/customgradeexport/classes/course_export_helper.php,
 * packages/coursegrades/classes/external/get_course_data.php and
 * packages/coursegrades/classes/external/get_student_grades.php; they are one
 * definition here.
 */
module CustomField {
  import opened Wrappers
  import opened Strs

  /**
   * One row of the customfield_data / customfield_field join; a module has one row
   * per custom field it sets. `options` is the `options` member of the decoded
   * configdata JSON, None when the JSON does not decode or has no such member;
   * `intvalue` is the stored integer, 0 for null.
   */
  datatype FieldRecord = FieldRecord(
    cmid: int,
    shortname: string,
    fieldType: string,
    value: Option<string>,
    intvalue: int,
    options: Option<string>)

  /** The options of a select field: the trimmed configuration text, one option per line. */
  function SelectOptions(options: string): (r: seq<string>)
    ensures |r| >= 1
    ensures forall k :: 0 <= k < |r| ==> '\n' !in r[k]
  {
    Split(Trim(options, Php), '\n')
  }

  /** The stored value of an option line "VALUE|Display text", or the whole trimmed line without a bar. */
  function OptionValue(line: string): (v: string)
    ensures '|' !in v
    ensures v == [] || (!IsPhpSpace(v[0]) && !IsPhpSpace(v[|v| - 1]))
    ensures '|' !in Trim(line, Php) ==> v == Trim(line, Php)
  {
    var option := Trim(line, Php);
    match IndexOf(option, "|")
    case Some(p) =>
      NoCharBefore(option, '|', p);
      Trim(option[..p], Php)
    case None =>
      NoCharBefore(option, '|', |option|);
      assert option[..|option|] == option;
      option
  }

  /** The decoded option at a 0-based index, if there is one. */
  function SelectedOption(options: seq<string>, index: int): (r: Option<string>)
    ensures r.Some? <==> 0 <= index < |options|
    ensures r.Some? ==> r.value == OptionValue(options[index])
  {
    if index >= 0 && index < |options| then Some(OptionValue(options[index])) else None
  }

  /**
   * decode_custom_field_value: a select field yields the option its 1-based intvalue
   * points at (None when the index is out of range or there are no options); any
   * other field yields its stored value.
   */
  function DecodeCustomFieldValue(rec: FieldRecord): (r: Option<string>)
    ensures rec.fieldType != "select" ==> r == rec.value
    ensures rec.fieldType == "select" ==>
      (r.Some? <==> rec.options.Some? && 1 <= rec.intvalue <= |SelectOptions(rec.options.value)|)
    ensures rec.fieldType == "select" && r.Some? ==>
      r.value == OptionValue(SelectOptions(rec.options.value)[rec.intvalue - 1])
  {
    if rec.fieldType != "select" then rec.value
    else if rec.options.None? then None
    else SelectedOption(SelectOptions(rec.options.value), rec.intvalue - 1)
  }

  /** Trimming a text that starts with a non-space keeps it up to any later non-space. */
  lemma TrimKeepsHead(s: string, k: nat)
    requires k < |s| && !IsPhpSpace(s[0]) && !IsPhpSpace(s[k])
    ensures |Trim(s, Php)| > k && Trim(s, Php)[..k + 1] == s[..k + 1]
  {
    TrimOfNoLeadingSpace(s);
    TrimEndKeepsHead(s, k);
  }

  lemma TrimOfNoLeadingSpace(s: string)
    requires s == [] || !IsPhpSpace(s[0])
    ensures Trim(s, Php) == TrimEnd(s, Php)
  {
    TrimStartNoSpace(s, Php);
  }

  lemma TrimEndKeepsHead(s: string, k: nat)
    requires k < |s| && !IsPhpSpace(s[k])
    ensures |TrimEnd(s, Php)| > k && TrimEnd(s, Php)[..k + 1] == s[..k + 1]
  {
    var r := TrimEnd(s, Php);
    assert r == s[..|r|];
    assert !IsSpace(s[k], Php);
  }

  /** An option line "VALUE|Display text" whose value is already trimmed decodes to that value. */
  lemma SelectOptionWithBar(before: string, after: string)
    requires '|' !in before
    requires before == [] || (!IsPhpSpace(before[0]) && !IsPhpSpace(before[|before| - 1]))
    ensures OptionValue(before + "|" + after) == before
  {
    var line := before + "|" + after;
    var k := |before|;
    assert line[k] == '|';
    assert line[0] == if k == 0 then '|' else before[0];
    TrimKeepsHead(line, k);
    var option := Trim(line, Php);
    assert option[..k + 1] == before + "|" by {
      assert line[..k + 1] == before + "|";
    }
    assert option[k] == '|';
    assert OccursAt(option, "|", k) by {
      assert option[k..k + 1] == "|";
    }
    forall j: nat | j < k ensures !OccursAt(option, "|", j) {
      assert option[j] == (before + "|")[j] == before[j];
      assert option[j..j + 1] == [before[j]];
    }
    assert IndexOf(option, "|") == Some(k);
    assert option[..k] == before by {
      assert option[..k] == (option[..k + 1])[..k];
    }
    TrimOfTrimmed(before, Php);
  }

  // ---------------------------------------------------------------------------
  // get_custom_field_data
  // ---------------------------------------------------------------------------

  /** Decoded values: module id, then field short name. PHP's null is None. */
  type FieldData = map<int, map<string, Option<string>>>

  /** The values the loop leaves behind, records taken in order, later ones overwriting. */
  function FieldMap(records: seq<FieldRecord>): FieldData
  {
    if |records| == 0 then map[]
    else
      var m := FieldMap(records[..|records| - 1]);
      var rec := records[|records| - 1];
      var inner := if rec.cmid in m then m[rec.cmid] else map[];
      m[rec.cmid := inner[rec.shortname := DecodeCustomFieldValue(rec)]]
  }

  /** Where a row about module `cmid` sits among `rows`, if one does. */
  function CmidPosition(rows: seq<FieldRecord>, cmid: int): (p: Option<nat>)
    ensures p.Some? ==> p.value < |rows| && rows[p.value].cmid == cmid
    ensures p.None? ==> forall k :: 0 <= k < |rows| ==> rows[k].cmid != cmid
  {
    if |rows| == 0 then None
    else if rows[0].cmid == cmid then Some(0)
    else match CmidPosition(rows[1..], cmid)
      case Some(q) => Some(q + 1)
      case None => None
  }

  /** No two rows are about the same module. */
  predicate DistinctCmids(rows: seq<FieldRecord>)
  {
    forall i, j :: 0 <= i < j < |rows| ==> rows[i].cmid != rows[j].cmid
  }

  /** The modules some row is about. */
  function Cmids(rows: seq<FieldRecord>): set<int>
  {
    set x | x in rows :: x.cmid
  }

  /**
   * `$DB->get_records_sql` keys its answer by the first column, here `cmid`: a later
   * row with a module id already seen replaces the earlier one in its place, so one
   * row per module survives, the last the query returned for it.
   */
  function KeyedByCmid(records: seq<FieldRecord>): (r: seq<FieldRecord>)
    ensures DistinctCmids(r)
    ensures forall k :: 0 <= k < |r| ==> r[k] in records
    ensures Cmids(r) == Cmids(records)
    decreases |records|
  {
    if |records| == 0 then []
    else
      var init := records[..|records| - 1];
      var rec := records[|records| - 1];
      var kept := KeyedByCmid(init);
      assert records == init + [rec];
      assert Cmids(records) == Cmids(init) + {rec.cmid};
      match CmidPosition(kept, rec.cmid)
      case Some(p) =>
        var r := kept[p := rec];
        assert forall k :: 0 <= k < |r| ==> r[k] in records by {
          forall k | 0 <= k < |r| ensures r[k] in records {
            if k != p { assert r[k] == kept[k] && kept[k] in init; }
          }
        }
        assert Cmids(r) == Cmids(kept) by {
          forall c | c in Cmids(kept) ensures c in Cmids(r) {
            var k :| 0 <= k < |kept| && kept[k].cmid == c;
            assert r[k].cmid == c;
          }
        }
        r
      case None =>
        assert Cmids(kept + [rec]) == Cmids(kept) + {rec.cmid};
        kept + [rec]
  }

  /**
   * get_custom_field_data as written: nothing to look up gives the empty map;
   * otherwise the query answer, keyed by module id, fills the map in order. The
   * join rows the database returns are an input.
   */
  method GetCustomFieldData(cmids: seq<int>, records: seq<FieldRecord>) returns (result: FieldData)
    ensures cmids == [] ==> result == map[]
    ensures cmids != [] ==> result == FieldMap(KeyedByCmid(records))
  {
    if |cmids| == 0 {
      return map[];
    }
    var rows := KeyedByCmid(records);
    result := map[];
    for i := 0 to |rows|
      invariant result == FieldMap(rows[..i])
    {
      var rec := rows[i];
      assert rows[..i + 1][..i] == rows[..i];
      if rec.cmid !in result {
        result := result[rec.cmid := map[]];
      }
      var decoded := DecodeCustomFieldValue(rec);
      result := result[rec.cmid := result[rec.cmid][rec.shortname := decoded]];
    }
    assert rows[..|rows|] == rows;
  }

  /**
   * get_custom_field_data as evidently intended: every join row, in order, fills
   * the map, so a module keeps all of its fields.
   */
  method GetCustomFieldDataAllFields(cmids: seq<int>, records: seq<FieldRecord>) returns (result: FieldData)
    ensures cmids == [] ==> result == map[]
    ensures cmids != [] ==> result == FieldMap(records)
  {
    if |cmids| == 0 {
      return map[];
    }
    result := map[];
    for i := 0 to |records|
      invariant result == FieldMap(records[..i])
    {
      var rec := records[i];
      assert records[..i + 1][..i] == records[..i];
      if rec.cmid !in result {
        result := result[rec.cmid := map[]];
      }
      var decoded := DecodeCustomFieldValue(rec);
      result := result[rec.cmid := result[rec.cmid][rec.shortname := decoded]];
    }
    assert records[..|records|] == records;
  }

  /** The last row the query returns for a module is the one the keyed answer keeps. */
  lemma {:induction false} KeyedByCmidKeepsLast(records: seq<FieldRecord>, i: nat)
    requires i < |records|
    requires forall j :: i < j < |records| ==> records[j].cmid != records[i].cmid
    ensures records[i] in KeyedByCmid(records)
    decreases |records|
  {
    var init := records[..|records| - 1];
    var rec := records[|records| - 1];
    var kept := KeyedByCmid(init);
    if i < |records| - 1 {
      KeyedByCmidKeepsLast(init, i);
      var q :| 0 <= q < |kept| && kept[q] == records[i];
      match CmidPosition(kept, rec.cmid)
      case Some(p) =>
        assert KeyedByCmid(records)[q] == records[i];
      case None =>
        assert KeyedByCmid(records)[q] == records[i];
    } else {
      match CmidPosition(kept, rec.cmid)
      case Some(p) =>
        assert KeyedByCmid(records)[p] == rec;
      case None =>
        assert KeyedByCmid(records)[|kept|] == rec;
    }
  }

  /** Over rows about distinct modules, each module's entry holds its one row's field. */
  lemma {:induction false} FieldMapOfDistinct(rows: seq<FieldRecord>, k: nat)
    requires DistinctCmids(rows) && k < |rows|
    ensures rows[k].cmid in FieldMap(rows)
    ensures FieldMap(rows)[rows[k].cmid] == map[rows[k].shortname := DecodeCustomFieldValue(rows[k])]
    decreases |rows|
  {
    var init := rows[..|rows| - 1];
    if k < |rows| - 1 {
      FieldMapOfDistinct(init, k);
    } else {
      FieldMapModules(init);
      assert rows[k].cmid !in FieldMap(init);
    }
  }

  /**
   * What the program as written reads for a module that has rows: exactly one field,
   * the one named by the last row the query returned for it, with that row's value.
   */
  lemma KeyedFieldMapSingle(records: seq<FieldRecord>, i: nat)
    requires i < |records|
    requires forall j :: i < j < |records| ==> records[j].cmid != records[i].cmid
    ensures records[i].cmid in FieldMap(KeyedByCmid(records))
    ensures FieldMap(KeyedByCmid(records))[records[i].cmid] ==
      map[records[i].shortname := DecodeCustomFieldValue(records[i])]
  {
    var rows := KeyedByCmid(records);
    KeyedByCmidKeepsLast(records, i);
    var k :| 0 <= k < |rows| && rows[k] == records[i];
    FieldMapOfDistinct(rows, k);
  }

  /** As written, the map still has an entry for exactly the modules that have a row. */
  lemma KeyedFieldMapModules(records: seq<FieldRecord>)
    ensures FieldMap(KeyedByCmid(records)).Keys == Cmids(records)
  {
    FieldMapModules(KeyedByCmid(records));
  }

  /**
   * Two fields on one module: the program as written returns only the second, the
   * intended map holds both.
   */
  lemma SecondFieldLost()
    ensures var examtype := FieldRecord(7, "examtype", "text", Some("THI"), 0, None);
      var weight := FieldRecord(7, "weight", "text", Some("2"), 0, None);
      "examtype" !in FieldMap(KeyedByCmid([examtype, weight]))[7] &&
      "examtype" in FieldMap([examtype, weight])[7]
  {
    var examtype := FieldRecord(7, "examtype", "text", Some("THI"), 0, None);
    var weight := FieldRecord(7, "weight", "text", Some("2"), 0, None);
    KeyedFieldMapSingle([examtype, weight], 1);
    FieldMapLastWins([examtype, weight], 0);
  }

  /** A module appears in the map exactly when some record is about it. */
  lemma {:induction false} FieldMapModules(records: seq<FieldRecord>)
    ensures FieldMap(records).Keys == Cmids(records)
  {
    if |records| > 0 {
      var init := records[..|records| - 1];
      FieldMapModules(init);
      assert records == init + [records[|records| - 1]];
    }
  }

  /** A field appears under a module exactly when some record names both. */
  lemma {:induction false} FieldMapFields(records: seq<FieldRecord>, cmid: int)
    requires cmid in FieldMap(records)
    ensures FieldMap(records)[cmid].Keys == set r | r in records && r.cmid == cmid :: r.shortname
  {
    var init := records[..|records| - 1];
    var last := records[|records| - 1];
    assert records == init + [last];
    if cmid in FieldMap(init) {
      FieldMapFields(init, cmid);
    } else {
      FieldMapModules(init);
    }
  }

  /** The value stored for a module and field is the decoding of the last record naming both. */
  lemma {:induction false} FieldMapLastWins(records: seq<FieldRecord>, i: nat)
    requires i < |records|
    requires forall j :: i < j < |records| ==>
      records[j].cmid != records[i].cmid || records[j].shortname != records[i].shortname
    ensures records[i].cmid in FieldMap(records)
    ensures records[i].shortname in FieldMap(records)[records[i].cmid]
    ensures FieldMap(records)[records[i].cmid][records[i].shortname] == DecodeCustomFieldValue(records[i])
    decreases |records|
  {
    if i < |records| - 1 {
      FieldMapLastWins(records[..|records| - 1], i);
    }
  }

  /**
   * `isset($data[$cmid][$name])` and `$data[$cmid][$name] ?? null`: a missing module,
   * a missing field and a null value all read as None.
   */
  function Lookup(data: FieldData, cmid: int, name: string): (r: Option<string>)
    ensures r.Some? ==> cmid in data && name in data[cmid] && data[cmid][name] == r
    ensures r.None? ==> cmid !in data || name !in data[cmid] || data[cmid][name].None?
  {
    if cmid in data && name in data[cmid] then data[cmid][name] else None
  }
}
