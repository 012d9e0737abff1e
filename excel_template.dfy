/**
 * Exporting through a spreadsheet template (`excel_template_processor.php`).
 * The loaded template is a worksheet whose cells are rewritten in place:
 * `${key}` variables are replaced in every text cell, the first row holding a
 * `${` placeholder is the template row, and the table is written over and below
 * it (or, without a template row, one blank row below the last row).
 *
 * Rows are numbered from 1 as in the spreadsheet, columns by index from 0
 * (column "A" is 0). A cell that was never written is blank.
 */
module ExcelTemplate {
  import opened Wrappers
  import opened Strs

  datatype CellValue = Blank | Text(s: string) | Number(n: real)

  type Row = seq<CellValue>
  type Grid = seq<Row>

  /** Row `r` of the sheet; a row past the last one is empty. */
  function RowAt(rows: Grid, r: nat): (row: Row)
    ensures 1 <= r <= |rows| ==> row == rows[r - 1]
    ensures !(1 <= r <= |rows|) ==> row == []
  {
    if 1 <= r <= |rows| then rows[r - 1] else []
  }

  /** `getHighestRow`: the last row, and 1 for an empty sheet. */
  function HighestRow(rows: Grid): (n: nat)
    ensures n >= 1 && n >= |rows|
    ensures |rows| > 0 ==> n == |rows|
  {
    if |rows| == 0 then 1 else |rows|
  }

  /** The number of columns up to `getHighestColumn` (at least column A). */
  function Width(rows: Grid): (w: nat)
    ensures w >= 1
    ensures forall i :: 0 <= i < |rows| ==> |rows[i]| <= w
    ensures w > 1 ==> exists i :: 0 <= i < |rows| && |rows[i]| == w
  {
    if |rows| == 0 then 1
    else
      var w := Width(rows[..|rows| - 1]);
      assert forall i :: 0 <= i < |rows| - 1 ==> rows[i] == rows[..|rows| - 1][i];
      if |rows[|rows| - 1]| > w then |rows[|rows| - 1]| else w
  }

  // ---------------------------------------------------------------------------
  // Column letters and the column loop of replace_variables / find_template_row
  // ---------------------------------------------------------------------------

  predicate IsColumnName(s: string)
  {
    |s| >= 1 && forall k :: 0 <= k < |s| ==> 'A' <= s[k] <= 'Z'
  }

  /** `PHPExcel_Cell::stringFromColumnIndex`: 0 is "A", 25 is "Z", 26 is "AA". */
  function ColumnName(i: nat): (r: string)
    ensures IsColumnName(r)
  {
    if i < 26 then [(65 + i) as char]
    else ColumnName(i / 26 - 1) + [(65 + i % 26) as char]
  }

  /** `PHPExcel_Cell::columnIndexFromString`, counted from 0. */
  function ColumnIndex(s: string): (i: nat)
    requires IsColumnName(s)
  {
    if |s| == 1 then s[0] as nat - 65
    else (ColumnIndex(s[..|s| - 1]) + 1) * 26 + (s[|s| - 1] as nat - 65)
  }

  /** Column letters name column indices one to one. */
  lemma {:induction false} ColumnIndexOfName(i: nat)
    ensures ColumnIndex(ColumnName(i)) == i
  {
    if i >= 26 {
      var s := ColumnName(i);
      assert s[..|s| - 1] == ColumnName(i / 26 - 1);
      ColumnIndexOfName(i / 26 - 1);
    }
  }

  /** PHP's `$col++` on a string of capital letters: the last letter steps, and "Z" carries. */
  function PhpIncrement(s: string): (r: string)
    requires IsColumnName(s)
    ensures IsColumnName(r)
  {
    var last := s[|s| - 1];
    if last < 'Z' then s[..|s| - 1] + [(last as int + 1) as char]
    else if |s| == 1 then "AA"
    else PhpIncrement(s[..|s| - 1]) + "A"
  }

  /** Incrementing a column's letters gives the next column's letters. */
  lemma {:induction false} PhpIncrementNext(i: nat)
    ensures PhpIncrement(ColumnName(i)) == ColumnName(i + 1)
  {
    if i >= 26 {
      var q := i / 26 - 1;
      assert ColumnName(i)[..|ColumnName(i)| - 1] == ColumnName(q);
      if i % 26 == 25 {
        PhpIncrementNext(q);
        assert (i + 1) / 26 - 1 == q + 1 && (i + 1) % 26 == 0;
      } else {
        assert (i + 1) / 26 == i / 26 && (i + 1) % 26 == i % 26 + 1;
      }
    }
  }

  /**
   * The columns `for ($col = 'A'; $col <= $highestCol; $col++)` visits, starting
   * at `col`; `fuel` bounds the number of steps.
   */
  function AsWrittenColumns(col: string, highest: string, fuel: nat): (r: seq<string>)
    requires IsColumnName(col)
    ensures |r| <= fuel
    decreases fuel
  {
    if fuel == 0 || !StrLe(col, highest) then []
    else [col] + AsWrittenColumns(PhpIncrement(col), highest, fuel - 1)
  }

  /**
   * With a highest column of "AB" the loop stops after column A: "B" compares
   * greater than "AB", so columns B to AB are never looked at.
   */
  lemma ColumnLoopStopsEarly()
    ensures AsWrittenColumns("A", ColumnName(27), 28) == ["A"]
  {
    assert ColumnName(27) == "AB";
    assert PhpIncrement("A") == "B";
    assert !StrLe("B", "AB");
  }

  /** With a highest column of "Z" the loop runs on past it, into column AA. */
  lemma ColumnLoopOverruns()
    ensures AsWrittenColumns("Z", ColumnName(25), 2) == ["Z", "AA"]
  {
    assert ColumnName(25) == "Z";
    assert StrLe("AA", "Z");
  }

  /** The columns of a sheet `width` wide, by letters: what the loop is meant to visit. */
  function SheetColumns(width: nat): (r: seq<string>)
    ensures |r| == width && forall i :: 0 <= i < width ==> r[i] == ColumnName(i)
  {
    seq(width, i requires 0 <= i < width => ColumnName(i))
  }

  /** Every column of the sheet is visited once: the names are pairwise different. */
  lemma SheetColumnsDistinct(width: nat)
    ensures forall i, j :: 0 <= i < j < width ==> SheetColumns(width)[i] != SheetColumns(width)[j]
  {
    forall i, j | 0 <= i < j < width ensures ColumnName(i) != ColumnName(j) {
      ColumnIndexOfName(i);
      ColumnIndexOfName(j);
    }
  }

  // ---------------------------------------------------------------------------
  // Variable replacement
  // ---------------------------------------------------------------------------

  /** The text `${key}`. */
  function Placeholder(key: string): (p: string)
    ensures |p| == |key| + 3 && p[..2] == "${"
  {
    "${" + key + "}"
  }

  /** `str_replace('${' . $key . '}', $val, $value)` for each variable in order. */
  /**
   * A text containing no `${` is left as it is by every replacement, and so
   * is a text when every value is its own placeholder.
   */
  function ReplaceVars(s: string, vars: seq<(string, string)>): (r: string)
    ensures !Contains(s, "${") ==> r == s
    ensures (forall k :: 0 <= k < |vars| ==> vars[k].1 == Placeholder(vars[k].0)) ==> r == s
    decreases |vars|
  {
    if vars == [] then s
    else
      var p := Placeholder(vars[0].0);
      PlainTextHasNoPlaceholder(s, vars[0].0);
      ReplaceVars(ReplaceAll(s, p, vars[0].1), vars[1..])
  }

  /** A text containing no `${` contains no placeholder, so `str_replace` keeps it. */
  lemma PlainTextHasNoPlaceholder(s: string, key: string)
    ensures !Contains(s, "${") ==> forall v :: ReplaceAll(s, Placeholder(key), v) == s
  {
    var p := Placeholder(key);
    if !Contains(s, "${") {
      if Contains(s, p) {
        var i :| 0 <= i <= |s| && OccursAt(s, p, i);
        assert s[i..i + 2] == p[..2];
        assert OccursAt(s, "${", i);
      }
      forall v ensures ReplaceAll(s, p, v) == s {
        ReplaceAllAbsent(s, p, v);
      }
    }
  }

  /**
   * Replacing can leave a placeholder behind even though no value contains
   * `${`: removing `${k}` from "$${k}{k}" joins its neighbours into a new `${k}`.
   */
  lemma ReplaceCanLeavePlaceholder()
    ensures ReplaceVars("$${k}{k}", [("k", "")]) == "${k}"
  {
    var s := "$${k}{k}";
    var p := Placeholder("k");
    assert p == "${k}";
    assert s == "$" + p + "{k}";
    assert s[1] != p[1];
    assert s[..|p|] != p;
    assert s[1..] == p + "{k}";
    ReplaceAllMatchFront("{k}", p, "");
    assert "{k}"[..3] != p[..3];
    assert ReplaceAll("{k}", p, "") == "{k}";
  }

  function ReplaceCell(v: CellValue, vars: seq<(string, string)>): (r: CellValue)
    ensures !v.Text? ==> r == v
    ensures v.Text? ==> r.Text?
  {
    if v.Text? then Text(ReplaceVars(v.s, vars)) else v
  }

  function ReplacedRow(row: Row, vars: seq<(string, string)>): (r: Row)
    ensures |r| == |row| && forall j :: 0 <= j < |row| ==> r[j] == ReplaceCell(row[j], vars)
  {
    seq(|row|, j requires 0 <= j < |row| => ReplaceCell(row[j], vars))
  }

  /** The sheet after `replace_variables`. */
  function Replaced(rows: Grid, vars: seq<(string, string)>): (r: Grid)
    ensures |r| == |rows| && forall i :: 0 <= i < |rows| ==> r[i] == ReplacedRow(rows[i], vars)
  {
    seq(|rows|, i requires 0 <= i < |rows| => ReplacedRow(rows[i], vars))
  }

  /**
   * Replacing keeps the sheet's shape and every number and blank cell, and only
   * text cells holding `${` can change.
   */
  lemma ReplacedKeepsPlainCells(rows: Grid, vars: seq<(string, string)>, r: nat, c: nat)
    requires 1 <= r <= |rows| && c < |rows[r - 1]|
    requires !rows[r - 1][c].Text? || !Contains(rows[r - 1][c].s, "${")
    ensures |Replaced(rows, vars)| == |rows| && |Replaced(rows, vars)[r - 1]| == |rows[r - 1]|
    ensures Replaced(rows, vars)[r - 1][c] == rows[r - 1][c]
  {
    if rows[r - 1][c].Text? {
      assert ReplaceVars(rows[r - 1][c].s, vars) == rows[r - 1][c].s;
    }
  }

  // ---------------------------------------------------------------------------
  // The template row
  // ---------------------------------------------------------------------------

  /** `is_string($value) && strpos($value, '${') !== false`. */
  predicate IsPlaceholderCell(v: CellValue)
  {
    v.Text? && Contains(v.s, "${")
  }

  predicate HasPlaceholder(row: Row)
  {
    exists c :: 0 <= c < |row| && IsPlaceholderCell(row[c])
  }

  /** The first row, from row `i + 1` on, with a placeholder cell. */
  function TemplateRowFrom(rows: Grid, i: nat): (r: Option<nat>)
    ensures r.Some? ==> i < r.value <= |rows| && HasPlaceholder(rows[r.value - 1])
    ensures r.Some? ==> forall j :: i <= j < r.value - 1 ==> !HasPlaceholder(rows[j])
    ensures r.None? ==> forall j :: i <= j < |rows| ==> !HasPlaceholder(rows[j])
    decreases |rows| - i
  {
    if i >= |rows| then None
    else if HasPlaceholder(rows[i]) then Some(i + 1)
    else TemplateRowFrom(rows, i + 1)
  }

  /** `find_template_row`: the first row holding a placeholder, if any. */
  function TemplateRow(rows: Grid): (r: Option<nat>)
    ensures r.Some? ==> 1 <= r.value <= |rows| && HasPlaceholder(rows[r.value - 1])
    ensures r.Some? ==> forall j :: 0 <= j < r.value - 1 ==> !HasPlaceholder(rows[j])
    ensures r.None? ==> forall j :: 0 <= j < |rows| ==> !HasPlaceholder(rows[j])
  {
    TemplateRowFrom(rows, 0)
  }

  // ---------------------------------------------------------------------------
  // Writing cells and rows
  // ---------------------------------------------------------------------------

  /** The sheet with at least `n` rows, new rows empty. */
  function Padded(rows: Grid, n: nat): (r: Grid)
    ensures |r| >= n && |r| >= |rows| && r[..|rows|] == rows
    ensures forall i :: |rows| <= i < |r| ==> r[i] == []
    ensures forall k :: RowAt(r, k) == RowAt(rows, k)
  {
    if |rows| >= n then rows else rows + seq(n - |rows|, _ => [])
  }

  /** `data` written from column A over `row`; the row's cells past `data` stay. */
  function Overlay(row: Row, data: Row): (r: Row)
    ensures |r| >= |data| && |r| >= |row| && r[..|data|] == data
    ensures |row| > |data| ==> r[|data|..] == row[|data|..]
  {
    data + (if |row| > |data| then row[|data|..] else [])
  }

  /** `setCellValue` at row `r`, column `c`. */
  function WithCell(rows: Grid, r: nat, c: nat, v: CellValue): (g: Grid)
    requires r >= 1
    ensures forall k :: k != r ==> RowAt(g, k) == RowAt(rows, k)
    ensures c < |RowAt(g, r)| && RowAt(g, r)[c] == v
  {
    var rs := Padded(rows, r);
    var row := rs[r - 1];
    var row' := if c < |row| then row[c := v] else row + seq(c - |row|, _ => Blank) + [v];
    rs[r - 1 := row']
  }

  /** Each cell of `data` written into row `r`; writing nothing creates no row. */
  function WithRow(rows: Grid, r: nat, data: Row): (g: Grid)
    requires r >= 1
  {
    if data == [] then rows
    else
      var rs := Padded(rows, r);
      rs[r - 1 := Overlay(rs[r - 1], data)]
  }

  /** Writing a row changes that row alone, to the data written over it. */
  lemma RowAtWithRow(rows: Grid, r: nat, data: Row, k: nat)
    requires r >= 1
    ensures RowAt(WithRow(rows, r, data), k) == if k == r then Overlay(RowAt(rows, r), data) else RowAt(rows, k)
  {
    if data == [] {
      assert Overlay(RowAt(rows, r), data) == RowAt(rows, r);
    } else {
      var rs := Padded(rows, r);
      assert RowAt(rs, r) == RowAt(rows, r);
      assert RowAt(rs, k) == RowAt(rows, k);
    }
  }

  /** Writing the next cell of a row extends the data written there by one cell. */
  lemma WithCellNext(rows: Grid, r: nat, data: Row, v: CellValue)
    requires r >= 1
    ensures WithCell(WithRow(rows, r, data), r, |data|, v) == WithRow(rows, r, data + [v])
  {
    var rs := Padded(rows, r);
    var row := rs[r - 1];
    var data' := data + [v];
    if data == [] {
      assert data' == [v];
      assert seq(0, _ => Blank) == [];
      var row' := if 0 < |row| then row[0 := v] else row + seq(0, _ => Blank) + [v];
      assert Overlay(row, data') == row';
    } else {
      var g := WithRow(rows, r, data);
      assert Padded(g, r) == g;
      var o := Overlay(row, data);
      if |row| > |data| {
        assert o[|data| := v] == Overlay(row, data');
      } else {
        assert o == data;
        assert o + seq(0, _ => Blank) + [v] == Overlay(row, data');
      }
    }
  }

  /** The rows of `table` written at `start`, `start + 1`, ... (`append_table_data`). */
  function Appended(rows: Grid, start: nat, table: seq<Row>): (g: Grid)
    requires start >= 1
    decreases |table|
  {
    if table == [] then rows
    else WithRow(Appended(rows, start, table[..|table| - 1]), start + |table| - 1, table[|table| - 1])
  }

  /** Appending one more row writes it after the rows appended before. */
  lemma AppendedLast(rows: Grid, start: nat, table: seq<Row>)
    requires start >= 1 && table != []
    ensures Appended(rows, start, table) == WithRow(Appended(rows, start, table[..|table| - 1]), start + |table| - 1, table[|table| - 1])
  {
  }

  /** Data written over an empty row is the data. */
  lemma OverlayEmpty(data: Row)
    ensures Overlay([], data) == data
  {
    assert data + [] == data;
  }

  /**
   * Appending below the last row puts table row `i` at row `start + i`, keeps
   * every row above `start` and leaves every other row empty.
   */
  lemma {:induction false} AppendedRows(rows: Grid, start: nat, table: seq<Row>, k: nat)
    requires start > |rows|
    ensures RowAt(Appended(rows, start, table), k)
         == if start <= k < start + |table| then table[k - start] else RowAt(rows, k)
    decreases |table|
  {
    if table != [] {
      var n := |table|;
      var front := table[..n - 1];
      AppendedRows(rows, start, front, k);
      AppendedLast(rows, start, table);
      RowAtWithRow(Appended(rows, start, front), start + n - 1, table[n - 1], k);
      if k == start + n - 1 {
        OverlayEmpty(table[n - 1]);
      } else if start <= k < start + n - 1 {
        assert front[k - start] == table[k - start];
      }
    }
  }

  /** `insertNewRowBefore($r, 1)`: an empty row at `r`, later rows moved down. */
  function InsertedBefore(rows: Grid, r: nat): (g: Grid)
    requires r >= 1
  {
    if r - 1 <= |rows| then rows[..r - 1] + [[]] + rows[r - 1..] else rows
  }

  /** `removeRow($r, 1)`: row `r` dropped, later rows moved up. */
  function WithoutRow(rows: Grid, r: nat): (g: Grid)
    requires r >= 1
  {
    if r - 1 < |rows| then rows[..r - 1] + rows[r..] else rows
  }

  /**
   * The data rows written from the template row `t` on: the first over the
   * template row itself, each later one into a fresh row inserted below the
   * previous one.
   */
  function Filled(rows: Grid, t: nat, dataRows: seq<Row>): (g: Grid)
    requires 1 <= t <= |rows|
  {
    if dataRows == [] then rows
    else rows[..t - 1] + [Overlay(rows[t - 1], dataRows[0])] + dataRows[1..] + rows[t..]
  }

  /** `array_slice($tableData, 1)`: the table without its header row. */
  function DataRows(table: seq<Row>): (r: seq<Row>)
    ensures |table| > 0 ==> r == table[1..]
    ensures |table| == 0 ==> r == []
  {
    if table == [] then [] else table[1..]
  }

  /** `insert_table_data` as written: the template row is removed after filling. */
  function InsertedAsWritten(rows: Grid, table: seq<Row>): (g: Grid)
    ensures TemplateRow(rows).Some? ==>
      var t := TemplateRow(rows).value;
      && |g| == |rows| - 1 + |DataRows(table)| - (if DataRows(table) == [] then 0 else 1)
      && g[..t - 1] == rows[..t - 1]
  {
    match TemplateRow(rows)
    case None => Appended(rows, HighestRow(rows) + 2, table)
    case Some(t) => WithoutRow(Filled(rows, t, DataRows(table)), t)
  }

  /**
   * With a template row, the row removed at the end is the one the first data
   * row was written into: the first data row is lost.
   */
  lemma FirstDataRowLost(rows: Grid, table: seq<Row>)
    requires TemplateRow(rows).Some? && |table| >= 2
    ensures var t := TemplateRow(rows).value;
      InsertedAsWritten(rows, table) == rows[..t - 1] + table[2..] + rows[t..]
  {
    var t := TemplateRow(rows).value;
    var d := DataRows(table);
    var f := Filled(rows, t, d);
    assert f[..t - 1] == rows[..t - 1];
    assert f[t..] == d[1..] + rows[t..];
    assert d[1..] == table[2..];
  }

  /** A one-student export through a one-row template ends with no student in it. */
  lemma OnlyStudentLost()
    ensures InsertedAsWritten([[Text("${name}")]], [[Text("Name")], [Text("Alice")]]) == []
  {
    var rows: Grid := [[Text("${name}")]];
    assert OccursAt("${name}", "${", 0);
    assert IsPlaceholderCell(rows[0][0]);
    assert TemplateRow(rows) == Some(1);
    FirstDataRowLost(rows, [[Text("Name")], [Text("Alice")]]);
  }

  /** `insert_table_data` with the template row removed only when no data row was written over it. */
  function InsertedKeepingData(rows: Grid, table: seq<Row>): (g: Grid)
    ensures TemplateRow(rows).Some? ==>
      var t := TemplateRow(rows).value;
      && |g| == |rows| - 1 + |DataRows(table)|
      && g[..t - 1] == rows[..t - 1]
  {
    match TemplateRow(rows)
    case None => Appended(rows, HighestRow(rows) + 2, table)
    case Some(t) =>
      if DataRows(table) == [] then WithoutRow(rows, t) else Filled(rows, t, DataRows(table))
  }

  /**
   * Every data row lands in the sheet: data row `k` at row `t + k` (over the
   * template row for `k == 0`), the rows above the template row stay and the
   * rows below it move down past the data.
   */
  lemma DataRowsKept(rows: Grid, table: seq<Row>, k: nat)
    requires TemplateRow(rows).Some? && |table| >= 2 && k < |table| - 1
    ensures var t := TemplateRow(rows).value;
      var g := InsertedKeepingData(rows, table);
      && |g| == |rows| + |table| - 2
      && g[..t - 1] == rows[..t - 1]
      && g[t - 1 + k][..|table[k + 1]|] == table[k + 1]
      && g[t + |table| - 2..] == rows[t..]
  {
    var t := TemplateRow(rows).value;
    var d := DataRows(table);
    var g := Filled(rows, t, d);
    assert g[..t - 1] == rows[..t - 1];
    assert g[t + |table| - 2..] == rows[t..];
    if k > 0 {
      assert g[t - 1 + k] == d[k];
    }
  }

  // ---------------------------------------------------------------------------
  // Download format
  // ---------------------------------------------------------------------------

  datatype WriterType = Excel2007 | Excel5

  /** `substr($filename, -5) === '.xlsx'` picks the writer. */
  function WriterFor(filename: string): (w: WriterType)
    ensures w == Excel2007 <==> EndsWith(filename, ".xlsx")
  {
    var tail := if |filename| >= 5 then filename[|filename| - 5..] else filename;
    if tail == ".xlsx" then Excel2007 else Excel5
  }

  function MimeTypeOf(w: WriterType): (m: string)
    ensures w == Excel2007 ==> m == "application/vnd.openxmlformats-officedocument.spreadsheetml.sheet"
    ensures w == Excel5 ==> m == "application/vnd.ms-excel"
  {
    match w
    case Excel2007 => "application/vnd.openxmlformats-officedocument.spreadsheetml.sheet"
    case Excel5 => "application/vnd.ms-excel"
  }

  /** What `send_excel_download` sends: the writer and the file's MIME type. */
  datatype Download = Download(writer: WriterType, mimeType: string, filename: string)

  function DownloadFor(filename: string): (d: Download)
    ensures d.filename == filename && d.mimeType == MimeTypeOf(d.writer)
    ensures d.writer == Excel2007 <==> EndsWith(filename, ".xlsx")
  {
    var w := WriterFor(filename);
    Download(w, MimeTypeOf(w), filename)
  }

  // ---------------------------------------------------------------------------
  // The worksheet
  // ---------------------------------------------------------------------------

  /** The active sheet of a loaded template. */
  class Worksheet {
    var rows: Grid

    constructor (initial: Grid)
      ensures rows == initial
    {
      rows := initial;
    }

    method SetCellValue(r: nat, c: nat, v: CellValue)
      requires r >= 1
      modifies this
      ensures rows == WithCell(old(rows), r, c, v)
    {
      rows := WithCell(rows, r, c, v);
    }

    method InsertNewRowBefore(r: nat)
      requires r >= 1
      modifies this
      ensures rows == InsertedBefore(old(rows), r)
    {
      rows := InsertedBefore(rows, r);
    }

    method RemoveRow(r: nat)
      requires r >= 1
      modifies this
      ensures rows == WithoutRow(old(rows), r)
    {
      rows := WithoutRow(rows, r);
    }

    /** Rewrites the text cells of row `r`, looking at the first `width` columns. */
    method ReplaceInRow(r: nat, width: nat, vars: seq<(string, string)>)
      requires 1 <= r <= |rows| && |rows[r - 1]| <= width
      modifies this
      ensures rows == old(rows)[r - 1 := ReplacedRow(old(rows)[r - 1], vars)]
    {
      ghost var rows0 := rows;
      ghost var row0 := rows[r - 1];
      for c := 0 to width
        invariant |rows| == |rows0| && |rows[r - 1]| == |row0|
        invariant forall i :: 0 <= i < |rows0| && i != r - 1 ==> rows[i] == rows0[i]
        invariant forall j :: 0 <= j < c && j < |row0| ==> rows[r - 1][j] == ReplaceCell(row0[j], vars)
        invariant forall j :: c <= j < |row0| ==> rows[r - 1][j] == row0[j]
      {
        if c < |rows[r - 1]| && rows[r - 1][c].Text? {
          var value := ReplaceVars(rows[r - 1][c].s, vars);
          rows := rows[r - 1 := rows[r - 1][c := Text(value)]];
        }
      }
      assert rows[r - 1] == ReplacedRow(row0, vars);
      assert rows == rows0[r - 1 := ReplacedRow(row0, vars)];
    }

    /** `replace_variables`: every text cell with the variables replaced in order. */
    method ReplaceVariables(vars: seq<(string, string)>)
      modifies this
      ensures rows == Replaced(old(rows), vars)
    {
      ghost var rows0 := rows;
      var highestRow := HighestRow(rows);
      var width := Width(rows);
      for r := 1 to highestRow + 1
        invariant |rows| == |rows0|
        invariant forall i :: 0 <= i < r - 1 && i < |rows0| ==> rows[i] == ReplacedRow(rows0[i], vars)
        invariant forall i :: r - 1 <= i < |rows0| ==> rows[i] == rows0[i]
      {
        if r <= |rows| {
          assert rows[r - 1] == rows0[r - 1];
          ReplaceInRow(r, width, vars);
        }
      }
      assert rows == Replaced(rows0, vars);
    }

    /** Whether row `r` has a placeholder cell among its first `width` columns. */
    method RowHasPlaceholder(r: nat, width: nat) returns (found: bool)
      requires 1 <= r <= |rows| && |rows[r - 1]| <= width
      ensures found == HasPlaceholder(rows[r - 1])
    {
      var row := rows[r - 1];
      for c := 0 to width
        invariant forall j :: 0 <= j < c && j < |row| ==> !IsPlaceholderCell(row[j])
      {
        if c < |row| && row[c].Text? && IndexOf(row[c].s, "${").Some? {
          return true;
        }
      }
      return false;
    }

    /** `find_template_row`: rows top to bottom, each row's columns left to right. */
    method FindTemplateRow() returns (found: Option<nat>)
      ensures found == TemplateRow(rows)
    {
      var highestRow := HighestRow(rows);
      var width := Width(rows);
      for r := 1 to highestRow + 1
        invariant forall j :: 0 <= j < r - 1 && j < |rows| ==> !HasPlaceholder(rows[j])
      {
        if r <= |rows| {
          var hit := RowHasPlaceholder(r, width);
          if hit {
            return Some(r);
          }
        }
      }
      return None;
    }

    /** The inner `foreach ($rowData as $cellData)`: one data row written into row `r`. */
    method WriteRow(r: nat, data: Row)
      requires r >= 1
      modifies this
      ensures rows == WithRow(old(rows), r, data)
    {
      ghost var rows0 := rows;
      for colIndex := 0 to |data|
        invariant rows == WithRow(rows0, r, data[..colIndex])
      {
        WithCellNext(rows0, r, data[..colIndex], data[colIndex]);
        SetCellValue(r, colIndex, data[colIndex]);
        assert data[..colIndex + 1] == data[..colIndex] + [data[colIndex]];
      }
      assert data[..|data|] == data;
    }

    /** `append_table_data`: the table's rows from `startRow` down. */
    method AppendTableData(table: seq<Row>, startRow: nat)
      requires startRow >= 1
      modifies this
      ensures rows == Appended(old(rows), startRow, table)
    {
      ghost var rows0 := rows;
      var currentRow := startRow;
      for i := 0 to |table|
        invariant currentRow == startRow + i
        invariant rows == Appended(rows0, startRow, table[..i])
      {
        WriteRow(currentRow, table[i]);
        assert table[..i + 1][..i] == table[..i];
        currentRow := currentRow + 1;
      }
      assert table[..|table|] == table;
    }

    /** The data rows written from the template row `t` on, inserting a row for each after the first. */
    method FillDataRows(t: nat, dataRows: seq<Row>)
      requires 1 <= t <= |rows|
      modifies this
      ensures rows == Filled(old(rows), t, dataRows)
    {
      ghost var rows0 := rows;
      var currentRow := t;
      for k := 0 to |dataRows|
        invariant currentRow == if k == 0 then t else t + k - 1
        invariant rows == Filled(rows0, t, dataRows[..k])
      {
        if k > 0 {
          FillStep(rows0, t, dataRows, k);
          InsertNewRowBefore(currentRow + 1);
          currentRow := currentRow + 1;
          RowWrittenIntoBlank(rows, currentRow, dataRows[k]);
          WriteRow(currentRow, dataRows[k]);
        } else {
          WriteRow(currentRow, dataRows[k]);
          assert rows == Filled(rows0, t, dataRows[..1]);
        }
      }
      assert dataRows[..|dataRows|] == dataRows;
    }

    /**
     * `insert_table_data` as written: after the data rows are filled in from the
     * template row, that row is removed.
     */
    method InsertTableData(table: seq<Row>)
      modifies this
      ensures rows == InsertedAsWritten(old(rows), table)
    {
      var templateRow := FindTemplateRow();
      if templateRow.None? {
        var startRow := HighestRow(rows) + 2;
        AppendTableData(table, startRow);
        return;
      }
      var t := templateRow.value;
      var dataRows := if |table| > 0 then table[1..] else [];
      FillDataRows(t, dataRows);
      RemoveRow(t);
    }

    /**
     * `insert_table_data` with the template row removed only when no data row
     * was written over it.
     */
    method InsertTableDataKeepingData(table: seq<Row>)
      modifies this
      ensures rows == InsertedKeepingData(old(rows), table)
    {
      var templateRow := FindTemplateRow();
      if templateRow.None? {
        var startRow := HighestRow(rows) + 2;
        AppendTableData(table, startRow);
        return;
      }
      var t := templateRow.value;
      var dataRows := if |table| > 0 then table[1..] else [];
      if dataRows == [] {
        RemoveRow(t);
      } else {
        FillDataRows(t, dataRows);
      }
    }

    /**
     * `export_from_template` on the loaded template, as written: fails when the
     * spreadsheet library or the template file is missing; otherwise replaces
     * the variables, writes a non-empty table with `insert_table_data` and names
     * the download.
     */
    method ExportFromTemplate(available: bool, templateExists: bool, templatePath: string,
                              vars: seq<(string, string)>, table: seq<Row>, filename: string)
      returns (r: Result<Download, string>)
      modifies this
      ensures !available ==> r == Err("PHPExcel library not available") && rows == old(rows)
      ensures available && !templateExists ==> r == Err("Template file not found: " + templatePath) && rows == old(rows)
      ensures available && templateExists ==> r == Ok(DownloadFor(filename))
      ensures available && templateExists && table == [] ==> rows == Replaced(old(rows), vars)
      ensures available && templateExists && table != [] ==>
        rows == InsertedAsWritten(Replaced(old(rows), vars), table)
    {
      if !available {
        return Err("PHPExcel library not available");
      }
      if !templateExists {
        return Err("Template file not found: " + templatePath);
      }
      ReplaceVariables(vars);
      if table != [] {
        InsertTableData(table);
      }
      return Ok(DownloadFor(filename));
    }

    /**
     * `export_from_template` with the corrected table insertion, which keeps
     * every data row; errors and download are those of the export as written.
     */
    method ExportFromTemplateKeepingData(available: bool, templateExists: bool, templatePath: string,
                                         vars: seq<(string, string)>, table: seq<Row>, filename: string)
      returns (r: Result<Download, string>)
      modifies this
      ensures !available ==> r == Err("PHPExcel library not available") && rows == old(rows)
      ensures available && !templateExists ==> r == Err("Template file not found: " + templatePath) && rows == old(rows)
      ensures available && templateExists ==> r == Ok(DownloadFor(filename))
      ensures available && templateExists && table == [] ==> rows == Replaced(old(rows), vars)
      ensures available && templateExists && table != [] ==>
        rows == InsertedKeepingData(Replaced(old(rows), vars), table)
    {
      if !available {
        return Err("PHPExcel library not available");
      }
      if !templateExists {
        return Err("Template file not found: " + templatePath);
      }
      ReplaceVariables(vars);
      if table != [] {
        InsertTableDataKeepingData(table);
      }
      return Ok(DownloadFor(filename));
    }
  }

  /** One more data row, inserted below the last one written, extends the filled block. */
  lemma FillStep(rows: Grid, t: nat, dataRows: seq<Row>, k: nat)
    requires 1 <= t <= |rows| && 0 < k < |dataRows|
    ensures var g := InsertedBefore(Filled(rows, t, dataRows[..k]), t + k);
      && t + k <= |g| && g[t + k - 1] == []
      && g[t + k - 1 := dataRows[k]] == Filled(rows, t, dataRows[..k + 1])
  {
    var d := dataRows[..k];
    var f := Filled(rows, t, d);
    var pre := rows[..t - 1] + [Overlay(rows[t - 1], dataRows[0])] + dataRows[1..k];
    assert d[1..] == dataRows[1..k];
    assert f == pre + rows[t..];
    assert |pre| == t + k - 1;
    assert f[..t + k - 1] == pre;
    assert f[t + k - 1..] == rows[t..];
    var g := InsertedBefore(f, t + k);
    assert g == pre + [[]] + rows[t..];
    assert dataRows[..k + 1][1..] == dataRows[1..k] + [dataRows[k]];
    assert g[t + k - 1 := dataRows[k]] == pre + [dataRows[k]] + rows[t..];
  }

  /** Writing a data row into the empty row just inserted at `r` makes that row the data. */
  lemma RowWrittenIntoBlank(g: Grid, r: nat, data: Row)
    requires 1 <= r <= |g| && g[r - 1] == []
    ensures WithRow(g, r, data) == g[r - 1 := data]
  {
    assert Overlay([], data) == data;
    if data == [] {
      assert g[r - 1 := data] == g;
    }
  }
}
