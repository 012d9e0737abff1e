/**
 * Word export (`docx_exporter.php`): a plain table document, or a template whose
 * `${name}` variables are set and whose table row is cloned once per data row.
 * The template library is seen through the operations applied to it.
 */
module DocxExporter {
  import opened Wrappers
  import opened Strs
  import opened OrderedMap
  import TemplateProcessor

  const MimeDocx: string := "application/vnd.openxmlformats-officedocument.wordprocessingml.document"

  /** The placeholder names of the first fourteen columns. */
  const ColumnPlaceholders: seq<string> := [
    "firstname", "lastname", "idnumber", "institution", "department", "email", "attempt",
    "status", "grade", "outof", "percentage", "timestarted", "timefinished", "timetaken"]

  /** `get_placeholder_for_column`: the fixed name of a column, or `col<index>` past them. */
  function PlaceholderForColumn(index: nat): (p: string)
    ensures |p| > 0
  {
    if index < |ColumnPlaceholders| then ColumnPlaceholders[index] else "col" + NatToString(index)
  }

  /** The name of a fixed column, spelled out. */
  lemma FixedPlaceholderName(index: nat)
    requires index < |ColumnPlaceholders|
    ensures PlaceholderForColumn(index) == ColumnPlaceholders[index]
  {
  }

  /** The fixed names sit at positions 4 to 17 of the quiz template variables. */
  lemma FixedPlaceholderPosition(index: nat)
    requires index < |ColumnPlaceholders|
    ensures TemplateProcessor.QuizVariablePosition(ColumnPlaceholders[index]) == index + 4
  {
    var p := ColumnPlaceholders;
    if index == 0 { assert p[0] == "firstname"; }
    else if index == 1 { assert p[1] == "lastname"; }
    else if index == 2 { assert p[2] == "idnumber"; }
    else if index == 3 { assert p[3] == "institution"; }
    else if index == 4 { assert p[4] == "department"; }
    else if index == 5 { assert p[5] == "email"; }
    else if index == 6 { assert p[6] == "attempt"; }
    else if index == 7 { assert p[7] == "status"; }
    else if index == 8 { assert p[8] == "grade"; }
    else if index == 9 { assert p[9] == "outof"; }
    else if index == 10 { assert p[10] == "percentage"; }
    else if index == 11 { assert p[11] == "timestarted"; }
    else if index == 12 { assert p[12] == "timefinished"; }
    else { assert p[13] == "timetaken"; }
  }

  /** No fixed name starts with 'c' or holds '#'. */
  lemma FixedPlaceholderShape(index: nat)
    requires index < |ColumnPlaceholders|
    ensures ColumnPlaceholders[index][0] != 'c'
    ensures '#' !in ColumnPlaceholders[index]
  {
    var p := ColumnPlaceholders;
    if index == 0 { assert p[0] == "firstname"; }
    else if index == 1 { assert p[1] == "lastname"; }
    else if index == 2 { assert p[2] == "idnumber"; }
    else if index == 3 { assert p[3] == "institution"; }
    else if index == 4 { assert p[4] == "department"; }
    else if index == 5 { assert p[5] == "email"; }
    else if index == 6 { assert p[6] == "attempt"; }
    else if index == 7 { assert p[7] == "status"; }
    else if index == 8 { assert p[8] == "grade"; }
    else if index == 9 { assert p[9] == "outof"; }
    else if index == 10 { assert p[10] == "percentage"; }
    else if index == 11 { assert p[11] == "timestarted"; }
    else if index == 12 { assert p[12] == "timefinished"; }
    else { assert p[13] == "timetaken"; }
  }

  /** The fixed names are the quiz template variables, in order, and none starts like `col`. */
  lemma FixedPlaceholder(index: nat)
    requires index < |ColumnPlaceholders|
    ensures TemplateProcessor.QuizVariablePosition(PlaceholderForColumn(index)) == index + 4
    ensures PlaceholderForColumn(index)[0] != 'c'
    ensures '#' !in PlaceholderForColumn(index)
  {
    FixedPlaceholderName(index);
    FixedPlaceholderPosition(index);
    FixedPlaceholderShape(index);
  }

  /** The fixed names are the keys of the quiz variables, in the same order. */
  lemma FixedPlaceholderQuizKey(index: nat)
    requires index < |ColumnPlaceholders|
    ensures |TemplateProcessor.QuizVariables| == |ColumnPlaceholders|
    ensures TemplateProcessor.QuizVariables[index].key == ColumnPlaceholders[index]
  {
    var p, q := ColumnPlaceholders, TemplateProcessor.QuizVariables;
    if index == 0 { assert p[0] == q[0].key; }
    else if index == 1 { assert p[1] == q[1].key; }
    else if index == 2 { assert p[2] == q[2].key; }
    else if index == 3 { assert p[3] == q[3].key; }
    else if index == 4 { assert p[4] == q[4].key; }
    else if index == 5 { assert p[5] == q[5].key; }
    else if index == 6 { assert p[6] == q[6].key; }
    else if index == 7 { assert p[7] == q[7].key; }
    else if index == 8 { assert p[8] == q[8].key; }
    else if index == 9 { assert p[9] == q[9].key; }
    else if index == 10 { assert p[10] == q[10].key; }
    else if index == 11 { assert p[11] == q[11].key; }
    else if index == 12 { assert p[12] == q[12].key; }
    else { assert p[13] == q[13].key; }
  }

  /** Each of the fourteen fixed placeholders is a variable the quiz template documents. */
  lemma FixedPlaceholderDocumented(index: nat)
    requires index < |ColumnPlaceholders|
    ensures HasKey(TemplateProcessor.AvailableVariables("quiz"), PlaceholderForColumn(index))
  {
    FixedPlaceholderName(index);
    FixedPlaceholderQuizKey(index);
    var vars := TemplateProcessor.AvailableVariables("quiz");
    var c, q := TemplateProcessor.CommonVariables, TemplateProcessor.QuizVariables;
    assert vars == c + q;
    assert vars[index + 4] == q[index];
    assert vars[index + 4] in vars;
  }

  /** Different columns get different placeholders. */
  lemma PlaceholderInjective(i: nat, j: nat)
    requires PlaceholderForColumn(i) == PlaceholderForColumn(j)
    ensures i == j
  {
    var n := |ColumnPlaceholders|;
    if i < n && j < n {
      FixedPlaceholder(i);
      FixedPlaceholder(j);
    } else if i < n {
      FixedPlaceholder(i);
    } else if j < n {
      FixedPlaceholder(j);
    } else {
      var a := NatToString(i);
      var b := NatToString(j);
      assert a == ("col" + a)[3..] && b == ("col" + b)[3..];
      DigitsValueOfNatToString(i);
      DigitsValueOfNatToString(j);
    }
  }

  /** No placeholder contains the `#` that separates it from a clone number. */
  lemma PlaceholderHasNoHash(index: nat)
    ensures '#' !in PlaceholderForColumn(index)
  {
    if index < |ColumnPlaceholders| {
      FixedPlaceholder(index);
    } else {
      var s := PlaceholderForColumn(index);
      forall i | 0 <= i < |s| ensures s[i] != '#' {
        if i >= 3 {
          assert s[i] == NatToString(index)[i - 3];
        }
      }
    }
  }

  // ---------------------------------------------------------------------------
  // export_table
  // ---------------------------------------------------------------------------

  /** A table cell: its text and whether it has the bold, grey header style. */
  datatype DocCell = DocCell(text: string, header: bool)

  datatype WordDocument = WordDocument(title: string, exported: string, table: seq<seq<DocCell>>, filename: string)

  /** The cells of one row, all styled as header or all as data. */
  function DocRow(rowData: seq<string>, isHeader: bool): (row: seq<DocCell>)
  {
    seq(|rowData|, c requires 0 <= c < |rowData| => DocCell(rowData[c], isHeader))
  }

  /** One table row per data row, a cell per value; the first row alone is styled as the header. */
  function DocTable(data: seq<seq<string>>): (t: seq<seq<DocCell>>)
    ensures |t| == |data|
    ensures forall r :: 0 <= r < |data| ==> |t[r]| == |data[r]|
    ensures forall r, c :: 0 <= r < |data| && 0 <= c < |data[r]| ==> t[r][c] == DocCell(data[r][c], r == 0)
    decreases |data|
  {
    if data == [] then []
    else DocTable(data[..|data| - 1]) + [DocRow(data[|data| - 1], |data| == 1)]
  }

  /** The cells of one row, styled as header or data. */
  method AddRow(rowData: seq<string>, isHeader: bool) returns (row: seq<DocCell>)
    ensures row == DocRow(rowData, isHeader)
  {
    row := [];
    for c := 0 to |rowData|
      invariant |row| == c && forall k :: 0 <= k < c ==> row[k] == DocCell(rowData[k], isHeader)
    {
      row := row + [DocCell(rowData[c], isHeader)];
    }
  }

  /**
   * `export_table`: fails without the Word library; otherwise a titled
   * document with the export time and the data as a table.
   */
  method ExportTable(available: bool, data: seq<seq<string>>, now: string, filename: string)
    returns (r: Result<WordDocument, string>)
    ensures !available ==> r == Err("PHPWord library not installed")
    ensures available ==> r == Ok(WordDocument("Grade Export Report", "Exported: " + now, DocTable(data), filename))
  {
    if !available {
      return Err("PHPWord library not installed");
    }
    var table: seq<seq<DocCell>> := [];
    var isHeader := true;
    for i := 0 to |data|
      invariant isHeader <==> i == 0
      invariant table == DocTable(data[..i])
    {
      var row := AddRow(data[i], isHeader);
      assert data[..i + 1][..i] == data[..i];
      table := table + [row];
      isHeader := false;
    }
    assert data[..|data|] == data;
    return Ok(WordDocument("Grade Export Report", "Exported: " + now, table, filename));
  }

  // ---------------------------------------------------------------------------
  // export_from_template
  // ---------------------------------------------------------------------------

  /** What is done to the loaded template: set a variable, or clone the table row of a variable. */
  datatype TemplateOp = SetValue(search: string, replace: string) | CloneRow(search: string, count: nat)

  /** `setValue($key, $value)` for each variable, in order. */
  function VariableOps(vars: seq<Pair<string, string>>): (ops: seq<TemplateOp>)
    ensures |ops| == |vars| && forall i :: 0 <= i < |vars| ==> ops[i] == SetValue(vars[i].key, vars[i].val)
  {
    seq(|vars|, i requires 0 <= i < |vars| => SetValue(vars[i].key, vars[i].val))
  }

  /** The variable of column `c` in the clone numbered `rowNum`. */
  function CellTarget(c: nat, rowNum: nat): string
  {
    PlaceholderForColumn(c) + "#" + NatToString(rowNum)
  }

  /** Different cells of different clones are different template variables. */
  lemma CellTargetInjective(c1: nat, r1: nat, c2: nat, r2: nat)
    requires CellTarget(c1, r1) == CellTarget(c2, r2)
    ensures c1 == c2 && r1 == r2
  {
    var a, b := PlaceholderForColumn(c1), PlaceholderForColumn(c2);
    var s := CellTarget(c1, r1);
    PlaceholderHasNoHash(c1);
    PlaceholderHasNoHash(c2);
    assert s[..|a|] == a && s[|a|] == '#';
    IndexOfFirstChar(s, '#', |a|);
    assert s[..|b|] == b && s[|b|] == '#';
    IndexOfFirstChar(s, '#', |b|);
    assert a == s[..|a|] == b;
    PlaceholderInjective(c1, c2);
    assert NatToString(r1) == s[|a| + 1..] == NatToString(r2);
    DigitsValueOfNatToString(r1);
    DigitsValueOfNatToString(r2);
  }

  /**
   * The values of one data row, for the first `width` header columns the row
   * has, the cell of column `c` being named `target(c, rowNum)`. The proofs
   * below hold for any naming; the template's is `CellTarget`.
   */
  function RowOpsBy(target: (nat, nat) -> string, width: nat, row: seq<string>, rowNum: nat): (ops: seq<TemplateOp>)
    decreases width
  {
    if width == 0 then []
    else if width - 1 < |row| then RowOpsBy(target, width - 1, row, rowNum) + [SetValue(target(width - 1, rowNum), row[width - 1])]
    else RowOpsBy(target, width - 1, row, rowNum)
  }

  /** The values of the data rows, the clone numbered `k + 1` taking data row `k`. */
  function FillOpsBy(target: (nat, nat) -> string, width: nat, dataRows: seq<seq<string>>): (ops: seq<TemplateOp>)
    decreases |dataRows|
  {
    if dataRows == [] then []
    else FillOpsBy(target, width, dataRows[..|dataRows| - 1]) + RowOpsBy(target, width, dataRows[|dataRows| - 1], |dataRows|)
  }

  /** The values of one data row in the template's cell names. */
  function RowOps(width: nat, row: seq<string>, rowNum: nat): (ops: seq<TemplateOp>)
  {
    RowOpsBy(CellTarget, width, row, rowNum)
  }

  /** The values of the data rows in the template's cell names. */
  function FillOps(width: nat, dataRows: seq<seq<string>>): (ops: seq<TemplateOp>)
  {
    FillOpsBy(CellTarget, width, dataRows)
  }

  /** `op` sets the cell of column `c` in clone `rowNum` to that column's value in `row`. */
  predicate RowCell(target: (nat, nat) -> string, row: seq<string>, rowNum: nat, c: nat, op: TemplateOp)
  {
    c < |row| && op == SetValue(target(c, rowNum), row[c])
  }

  /** One more header column adds that column's cell, when the row has it. */
  lemma RowOpsLast(target: (nat, nat) -> string, width: nat, row: seq<string>, rowNum: nat, op: TemplateOp)
    requires width > 0
    ensures op in RowOpsBy(target, width, row, rowNum) <==>
      op in RowOpsBy(target, width - 1, row, rowNum) || RowCell(target, row, rowNum, width - 1, op)
  {
  }

  /** The next header column adds its cell when the row has that column. */
  lemma RowOpsNext(target: (nat, nat) -> string, width: nat, row: seq<string>, rowNum: nat)
    ensures RowOpsBy(target, width + 1, row, rowNum) ==
      RowOpsBy(target, width, row, rowNum) + (if width < |row| then [SetValue(target(width, rowNum), row[width])] else [])
  {
  }

  /** A row contributes exactly the cells it has among the header's columns. */
  lemma {:induction false} RowOpsByExact(target: (nat, nat) -> string, width: nat, row: seq<string>, rowNum: nat, op: TemplateOp)
    ensures op in RowOpsBy(target, width, row, rowNum) <==> exists c: nat :: c < width && RowCell(target, row, rowNum, c, op)
    decreases width
  {
    if width > 0 {
      var w := width - 1;
      RowOpsByExact(target, w, row, rowNum, op);
      RowOpsLast(target, width, row, rowNum, op);
      if RowCell(target, row, rowNum, w, op) {
        assert w < width;
      }
      if exists c: nat :: c < width && RowCell(target, row, rowNum, c, op) {
        var c: nat :| c < width && RowCell(target, row, rowNum, c, op);
        if c < w {
          assert op in RowOpsBy(target, w, row, rowNum);
        }
      }
    }
  }

  /** A data row contributes exactly the template cells it has among the header's columns. */
  lemma RowOpsExact(width: nat, row: seq<string>, rowNum: nat, op: TemplateOp)
    ensures op in RowOps(width, row, rowNum) <==> exists c: nat :: c < width && RowCell(CellTarget, row, rowNum, c, op)
  {
    RowOpsByExact(CellTarget, width, row, rowNum, op);
  }

  /** `op` sets a cell of clone `r`, which takes data row `r - 1`. */
  predicate FillCell(target: (nat, nat) -> string, dataRows: seq<seq<string>>, r: nat, c: nat, op: TemplateOp)
  {
    1 <= r <= |dataRows| && RowCell(target, dataRows[r - 1], r, c, op)
  }

  /** Cells of the rows before the last are cells of the same clones with the last row added. */
  lemma FillCellFront(target: (nat, nat) -> string, dataRows: seq<seq<string>>, r: nat, c: nat, op: TemplateOp)
    requires dataRows != []
    ensures FillCell(target, dataRows[..|dataRows| - 1], r, c, op) <==> r < |dataRows| && FillCell(target, dataRows, r, c, op)
  {
    if 1 <= r < |dataRows| {
      assert dataRows[..|dataRows| - 1][r - 1] == dataRows[r - 1];
    }
  }

  /** One more data row adds the cells of that row's clone. */
  lemma FillOpsLast(target: (nat, nat) -> string, width: nat, dataRows: seq<seq<string>>, op: TemplateOp)
    requires dataRows != []
    ensures op in FillOpsBy(target, width, dataRows) <==>
      op in FillOpsBy(target, width, dataRows[..|dataRows| - 1]) || op in RowOpsBy(target, width, dataRows[|dataRows| - 1], |dataRows|)
  {
  }

  /** Every value filling sets is a cell of some clone. */
  lemma {:induction false} FillOpsSound(target: (nat, nat) -> string, width: nat, dataRows: seq<seq<string>>, op: TemplateOp)
    requires op in FillOpsBy(target, width, dataRows)
    ensures exists r: nat, c: nat :: c < width && FillCell(target, dataRows, r, c, op)
    decreases |dataRows|
  {
    var n := |dataRows|;
    var front := dataRows[..n - 1];
    FillOpsLast(target, width, dataRows, op);
    if op in FillOpsBy(target, width, front) {
      FillOpsSound(target, width, front, op);
      var r: nat, c: nat :| c < width && FillCell(target, front, r, c, op);
      FillCellFront(target, dataRows, r, c, op);
    } else {
      RowOpsByExact(target, width, dataRows[n - 1], n, op);
      var c: nat :| c < width && RowCell(target, dataRows[n - 1], n, c, op);
      assert FillCell(target, dataRows, n, c, op);
    }
  }

  /** Every cell of every clone is set by filling. */
  lemma {:induction false} FillOpsComplete(target: (nat, nat) -> string, width: nat, dataRows: seq<seq<string>>,
                                           r: nat, c: nat, op: TemplateOp)
    requires c < width && FillCell(target, dataRows, r, c, op)
    ensures op in FillOpsBy(target, width, dataRows)
    decreases |dataRows|
  {
    var n := |dataRows|;
    var front := dataRows[..n - 1];
    FillOpsLast(target, width, dataRows, op);
    if r < n {
      FillCellFront(target, dataRows, r, c, op);
      FillOpsComplete(target, width, front, r, c, op);
    } else {
      RowOpsByExact(target, width, dataRows[n - 1], n, op);
      assert RowCell(target, dataRows[n - 1], n, c, op);
    }
  }

  /**
   * Filling sets, for each data row `r` (numbered from 1) and each header column
   * `c` the row has, the variable `<placeholder>#r` to the row's value, and
   * nothing else.
   */
  lemma FillOpsExact(width: nat, dataRows: seq<seq<string>>, op: TemplateOp)
    ensures op in FillOps(width, dataRows) <==> exists r: nat, c: nat :: c < width && FillCell(CellTarget, dataRows, r, c, op)
  {
    if op in FillOps(width, dataRows) {
      FillOpsSound(CellTarget, width, dataRows, op);
    }
    if exists r: nat, c: nat :: c < width && FillCell(CellTarget, dataRows, r, c, op) {
      var r: nat, c: nat :| c < width && FillCell(CellTarget, dataRows, r, c, op);
      FillOpsComplete(CellTarget, width, dataRows, r, c, op);
    }
  }

  /** The row block is cloned and filled only for a table with data rows and a template that has the block. */
  function TableOps(table: seq<seq<string>>, hasRowBlock: bool): (ops: seq<TemplateOp>)
  {
    if |table| <= 1 || !hasRowBlock then []
    else [CloneRow("firstname", |table| - 1)] + FillOps(|table[0]|, table[1..])
  }

  /** Without data rows nothing is cloned or filled; with them, one clone per data row. */
  lemma TableOpsShape(table: seq<seq<string>>, hasRowBlock: bool)
    ensures |table| <= 1 ==> TableOps(table, hasRowBlock) == []
    ensures |table| > 1 && hasRowBlock ==> TableOps(table, hasRowBlock)[0] == CloneRow("firstname", |table| - 1)
    ensures forall k :: 1 <= k < |TableOps(table, hasRowBlock)| ==> TableOps(table, hasRowBlock)[k].SetValue?
  {
    if |table| > 1 && hasRowBlock {
      var ops := TableOps(table, hasRowBlock);
      forall k | 1 <= k < |ops| ensures ops[k].SetValue? {
        var op := ops[k];
        assert op in FillOps(|table[0]|, table[1..]);
        FillOpsExact(|table[0]|, table[1..], op);
      }
    }
  }

  /** The values of one data row: the inner loop over the header's columns. */
  method FillRow(header: seq<string>, row: seq<string>, rowNum: nat) returns (ops: seq<TemplateOp>)
    ensures ops == RowOps(|header|, row, rowNum)
  {
    ops := [];
    var colNum := 0;
    for headerIndex := 0 to |header|
      invariant colNum == headerIndex
      invariant ops == RowOps(headerIndex, row, rowNum)
    {
      // The placeholder of the column, '#', the clone's number.
      var cell := CellTarget(headerIndex, rowNum);
      RowOpsNext(CellTarget, headerIndex, row, rowNum);
      if colNum < |row| {
        ops := ops + [SetValue(cell, row[colNum])];
      }
      colNum := colNum + 1;
    }
  }

  /** The values of all data rows, the clone numbered `k + 1` taking data row `k`. */
  method FillTable(header: seq<string>, dataRows: seq<seq<string>>) returns (ops: seq<TemplateOp>)
    ensures ops == FillOps(|header|, dataRows)
  {
    ops := [];
    var rowNum := 1;
    for k := 0 to |dataRows|
      invariant rowNum == k + 1
      invariant ops == FillOps(|header|, dataRows[..k])
    {
      var rowOps := FillRow(header, dataRows[k], rowNum);
      assert dataRows[..k + 1][..k] == dataRows[..k];
      ops := ops + rowOps;
      rowNum := rowNum + 1;
    }
    assert dataRows[..|dataRows|] == dataRows;
  }

  /**
   * `export_from_template`: fails without the Word library or the template
   * file; otherwise sets the variables and, for a table with data rows, clones
   * the `${firstname}` row once per data row and fills the clones. A template
   * without that row makes the cloning fail, and the table is then left out.
   */
  method ExportFromTemplate(available: bool, templateExists: bool, templatePath: string,
                            vars: seq<Pair<string, string>>, table: seq<seq<string>>, hasRowBlock: bool)
    returns (r: Result<seq<TemplateOp>, string>)
    ensures !available ==> r == Err("PHPWord library not installed")
    ensures available && !templateExists ==> r == Err("Template file not found: " + templatePath)
    ensures available && templateExists ==> r == Ok(VariableOps(vars) + TableOps(table, hasRowBlock))
  {
    if !available {
      return Err("PHPWord library not installed");
    }
    if !templateExists {
      return Err("Template file not found: " + templatePath);
    }
    var ops: seq<TemplateOp> := [];
    for i := 0 to |vars|
      invariant ops == VariableOps(vars[..i])
    {
      ops := ops + [SetValue(vars[i].key, vars[i].val)];
    }
    assert vars[..|vars|] == vars;
    ghost var varOps := ops;
    if |table| > 0 && |table| > 1 {
      var dataRows := table[1..];
      if hasRowBlock {
        var filled := FillTable(table[0], dataRows);
        ops := ops + [CloneRow("firstname", |dataRows|)] + filled;
      }
    }
    assert ops == varOps + TableOps(table, hasRowBlock);
    return Ok(ops);
  }
}
