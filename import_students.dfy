/**
 * The student import dialog of the web app
 * (`apps/web/src/components/import-students-dialog.tsx`): which files it
 * accepts, how the rows of a spreadsheet become student records, the template
 * it offers for download, and the counts it reports after an import.
 *
 * Reading the workbook and `JSON.parse` are inputs: the sheet arrives as rows
 * of cell values, and the JSON parse as a function that fails with None.
 */
module ImportStudents {
  import opened Wrappers
  import opened Strs
  import opened OrderedMap
  import DateConvert

  /** A JavaScript value as the dialog sees it in a cell or a parsed JSON text. */
  datatype Value =
    | Str(s: string)
    | Num(n: int)
    | Bool(b: bool)
    | Null
    | Undefined
    | Array(items: seq<Value>)
    | Object(entries: seq<Pair<string, Value>>)

  /** A student record: one property per header, in first-assignment order. */
  type Student = seq<Pair<string, Value>>

  // ---------------------------------------------------------------------------
  // Rows of the sheet
  // ---------------------------------------------------------------------------

  /** '', null and undefined are blank cells. */
  predicate IsBlank(c: Value)
  {
    c == Str("") || c.Null? || c.Undefined?
  }

  predicate HasContent(row: seq<Value>)
  {
    exists i :: 0 <= i < |row| && !IsBlank(row[i])
  }

  /** The rows with content, in order (`filter(row => row.some(...))`). */
  function RowsWithContent(rows: seq<seq<Value>>): (kept: seq<seq<Value>>)
    ensures |kept| <= |rows|
    ensures forall r :: r in kept ==> r in rows && HasContent(r)
    decreases |rows|
  {
    if rows == [] then []
    else
      var last := rows[|rows| - 1];
      RowsWithContent(rows[..|rows| - 1]) + (if HasContent(last) then [last] else [])
  }

  /** A row is kept exactly when it has content; rows that all have content are all kept. */
  lemma {:induction false} RowsWithContentExact(rows: seq<seq<Value>>, r: seq<Value>)
    ensures r in RowsWithContent(rows) <==> r in rows && HasContent(r)
    ensures (forall k :: 0 <= k < |rows| ==> HasContent(rows[k])) ==> RowsWithContent(rows) == rows
    decreases |rows|
  {
    if rows != [] {
      var front := rows[..|rows| - 1];
      RowsWithContentExact(front, r);
      assert rows == front + [rows[|rows| - 1]];
    }
  }

  /** The data rows: from the third row on (after the two header rows), those with content. */
  function DataRows(sheet: seq<seq<Value>>): (rows: seq<seq<Value>>)
    ensures forall r :: r in rows ==> HasContent(r)
  {
    RowsWithContent(if |sheet| <= 2 then [] else sheet[2..])
  }

  /** The property name JavaScript makes of a header cell. */
  function HeaderKey(c: Value): string
  {
    match c
    case Str(s) => s
    case Num(n) => IntToString(n)
    case Bool(b) => if b then "true" else "false"
    case Null => "null"
    case Undefined => "undefined"
    case Array(_) => ""
    case Object(_) => "[object Object]"
  }

  /** The API field names of the second row (none when the sheet has no such row). */
  function HeaderRow(sheet: seq<seq<Value>>): (headers: seq<string>)
    ensures |sheet| >= 2 ==> |headers| == |sheet[1]|
  {
    if |sheet| >= 2 then seq(|sheet[1]|, i requires 0 <= i < |sheet[1]| => HeaderKey(sheet[1][i])) else []
  }

  /** `row[index] ?? ''`: the cell in the header's column, '' when absent. */
  function CellAt(row: seq<Value>, index: nat): (v: Value)
    ensures index >= |row| ==> v == Str("")
    ensures index < |row| && !row[index].Null? && !row[index].Undefined? ==> v == row[index]
    ensures !v.Null? && !v.Undefined?
  {
    if index < |row| && !row[index].Null? && !row[index].Undefined? then row[index] else Str("")
  }

  // ---------------------------------------------------------------------------
  // Field values
  // ---------------------------------------------------------------------------

  const BooleanFields: seq<string> := ["isGraduated", "isMarried"]

  const DateFields: seq<string> := ["dob", "fatherDob", "motherDob", "spouseDob", "politicalOrgOfficialDate"]

  /** The trimmed, lower-cased texts that read as yes. */
  predicate ReadsYes(normalized: string)
  {
    normalized == "có" || normalized == "true"
  }

  /** The trimmed, lower-cased texts that read as no. */
  predicate ReadsNo(normalized: string)
  {
    normalized == "không" || normalized == "false"
  }

  /**
   * A yes/no cell: a text reading "có" or "true" is true, "không" or "false"
   * is false, any other text is ''; a value that is not text is kept.
   */
  function NormalizeBoolean(v: Value): (r: Value)
    ensures !v.Str? ==> r == v
    ensures v.Str? ==> r in {Bool(true), Bool(false), Str("")}
    ensures v.Str? ==> (r == Bool(true) <==> ReadsYes(Lower(Trim(v.s, Js))))
    ensures v.Str? ==> (r == Bool(false) <==> ReadsNo(Lower(Trim(v.s, Js))))
  {
    if v.Str? then
      var normalized := Lower(Trim(v.s, Js));
      if ReadsYes(normalized) then Bool(true)
      else if ReadsNo(normalized) then Bool(false)
      else Str("")
    else v
  }

  /** The empty text reads neither as yes nor as no. */
  lemma BlankReadsNeither()
    ensures !ReadsYes(Lower(Trim("", Js))) && !ReadsNo(Lower(Trim("", Js)))
  {
    var t := Trim("", Js);
    assert |t| == 0;
    var normalized := Lower(t);
    assert normalized == [];
    assert normalized != "có" && normalized != "true";
    assert normalized != "không";
    assert normalized != "false";
  }

  /** An empty text in a yes/no column stays empty. */
  lemma NormalizeBlank(v: Value)
    requires v.Str? && |v.s| == 0
    ensures NormalizeBoolean(v) == v
  {
    assert v.s == "";
    BlankReadsNeither();
  }

  /** Normalising a yes/no cell twice is normalising it once. */
  lemma NormalizeBooleanIdempotent(v: Value)
    ensures NormalizeBoolean(NormalizeBoolean(v)) == NormalizeBoolean(v)
  {
    var r := NormalizeBoolean(v);
    if r.Str? {
      NormalizeBlank(r);
    }
  }

  /**
   * The children cell: the parsed array when the text is not blank and parses
   * to an array; an empty array otherwise.
   */
  function ChildrenInfos(v: Value, parse: string -> Option<Value>): (r: Value)
    ensures r.Array?
    ensures v.Str? && Trim(v.s, Js) != "" && parse(v.s).Some? && parse(v.s).value.Array? ==> r == parse(v.s).value
    ensures !(v.Str? && Trim(v.s, Js) != "" && parse(v.s).Some? && parse(v.s).value.Array?) ==> r == Array([])
  {
    if v.Str? && Trim(v.s, Js) != "" then
      var parsed := parse(v.s);
      if parsed.None? then Array([])
      else if !parsed.value.Array? then Array([])
      else parsed.value
    else Array([])
  }

  /** How the dialog treats a column, by its header. */
  datatype FieldKind = YesNoField | ChildrenField | DateField | PlainField

  function KindOf(header: string): (kind: FieldKind)
    ensures kind == YesNoField <==> header in BooleanFields
    ensures kind == ChildrenField <==> header == "childrenInfos"
    ensures kind == DateField <==> header in DateFields
  {
    if header in BooleanFields then YesNoField
    else if header == "childrenInfos" then ChildrenField
    else if header in DateFields then DateField
    else PlainField
  }

  /** A non-blank text in a date column, converted to ISO; any other value kept. */
  function DateValue(v: Value): Value
  {
    if v.Str? && Trim(v.s, Js) != "" then Str(DateConvert.ToIsoDate(v.s)) else v
  }

  /**
   * The value stored under a header: yes/no fields normalised, the children
   * field made an array, and a non-blank text in a date field converted to ISO.
   */
  function FieldValue(header: string, cell: Value, parse: string -> Option<Value>): Value
  {
    match KindOf(header)
    case YesNoField => NormalizeBoolean(cell)
    case ChildrenField => ChildrenInfos(cell, parse)
    case DateField => DateValue(cell)
    case PlainField => cell
  }

  // ---------------------------------------------------------------------------
  // Records
  // ---------------------------------------------------------------------------

  /** The record of a row, each header in turn assigned `value` of its header and column cell. */
  function StudentBy(headers: seq<string>, row: seq<Value>, value: (string, Value) -> Value): Student
    decreases |headers|
  {
    if headers == [] then []
    else
      var n := |headers| - 1;
      Put(StudentBy(headers[..n], row, value), headers[n], value(headers[n], CellAt(row, n)))
  }

  /** The value the dialog stores for a header and its cell. */
  function ValueOf(parse: string -> Option<Value>): (string, Value) -> Value
  {
    (header: string, cell: Value) => FieldValue(header, cell, parse)
  }

  /** The record of a row: each header in turn assigned its column's value. */
  function StudentOf(headers: seq<string>, row: seq<Value>, parse: string -> Option<Value>): (s: Student)
    decreases |headers|
  {
    if headers == [] then []
    else
      var n := |headers| - 1;
      Put(StudentOf(headers[..n], row, parse), headers[n], FieldValue(headers[n], CellAt(row, n), parse))
  }

  /** The record of a row is the one built with the dialog's value of each header and cell. */
  lemma {:induction false} StudentOfBy(headers: seq<string>, row: seq<Value>, parse: string -> Option<Value>)
    ensures StudentOf(headers, row, parse) == StudentBy(headers, row, ValueOf(parse))
    decreases |headers|
  {
    if headers != [] {
      var n := |headers| - 1;
      StudentOfBy(headers[..n], row, parse);
      assert ValueOf(parse)(headers[n], CellAt(row, n)) == FieldValue(headers[n], CellAt(row, n), parse);
    }
  }

  /** The last column holding a header. */
  function LastIndex(headers: seq<string>, k: string): (i: nat)
    requires k in headers
    ensures i < |headers| && headers[i] == k
    ensures forall j :: i < j < |headers| ==> headers[j] != k
    decreases |headers|
  {
    if headers[|headers| - 1] == k then |headers| - 1 else LastIndex(headers[..|headers| - 1], k)
  }

  lemma {:induction false} StudentByExact(headers: seq<string>, row: seq<Value>, value: (string, Value) -> Value, k: string)
    ensures DistinctKeys(StudentBy(headers, row, value))
    ensures HasKey(StudentBy(headers, row, value), k) <==> k in headers
    ensures k in headers ==> Get(StudentBy(headers, row, value), k) == Some(value(k, CellAt(row, LastIndex(headers, k))))
    decreases |headers|
  {
    if headers != [] {
      var n := |headers| - 1;
      var front := headers[..n];
      var prev := StudentBy(front, row, value);
      var v := value(headers[n], CellAt(row, n));
      StudentByExact(front, row, value, k);
      PutKeepsDistinct(prev, headers[n], v);
      PutHasKey(prev, headers[n], v, k);
      assert headers == front + [headers[n]];
      if k == headers[n] {
        GetPutSame(prev, k, v);
      } else {
        GetPutOther(prev, headers[n], v, k);
        if k in headers {
          assert k in front;
          assert LastIndex(headers, k) == LastIndex(front, k);
        }
      }
    }
  }

  /**
   * A record has a property for exactly the row's headers, each once, holding
   * the value of the last column with that header (a later duplicate header
   * overwrites an earlier one).
   */
  lemma StudentOfExact(headers: seq<string>, row: seq<Value>, parse: string -> Option<Value>, k: string)
    ensures DistinctKeys(StudentOf(headers, row, parse))
    ensures HasKey(StudentOf(headers, row, parse), k) <==> k in headers
    ensures k in headers ==>
      Get(StudentOf(headers, row, parse), k) == Some(FieldValue(k, CellAt(row, LastIndex(headers, k)), parse))
  {
    StudentOfBy(headers, row, parse);
    StudentByExact(headers, row, ValueOf(parse), k);
    if k in headers {
      assert ValueOf(parse)(k, CellAt(row, LastIndex(headers, k))) == FieldValue(k, CellAt(row, LastIndex(headers, k)), parse);
    }
  }

  /** Building one record, assigning the headers' values in column order. */
  method BuildStudent(headers: seq<string>, row: seq<Value>, parse: string -> Option<Value>) returns (student: Student)
    ensures student == StudentOf(headers, row, parse)
  {
    student := [];
    for index := 0 to |headers|
      invariant student == StudentOf(headers[..index], row, parse)
    {
      var header := headers[index];
      var value := CellAt(row, index);
      var kind := KindOf(header);
      if kind == YesNoField {
        value := NormalizeBoolean(value);
      }
      if kind == ChildrenField {
        value := ChildrenInfos(value, parse);
      }
      if kind == DateField {
        value := DateValue(value);
      }
      assert headers[..index + 1][..index] == headers[..index];
      student := Put(student, header, value);
    }
    assert headers[..|headers|] == headers;
  }

  /** One record per row, in order (`dataRows.map(...)`). */
  method BuildStudents(headers: seq<string>, dataRows: seq<seq<Value>>, parse: string -> Option<Value>)
    returns (students: seq<Student>)
    ensures |students| == |dataRows|
    ensures forall k :: 0 <= k < |students| ==> students[k] == StudentOf(headers, dataRows[k], parse)
  {
    students := [];
    for i := 0 to |dataRows|
      invariant |students| == i
      invariant forall k :: 0 <= k < i ==> students[k] == StudentOf(headers, dataRows[k], parse)
    {
      var student := BuildStudent(headers, dataRows[i], parse);
      ghost var before := students;
      students := students + [student];
      assert forall k :: 0 <= k < i ==> students[k] == before[k];
    }
  }

  /** The records of a sheet: one per data row, in order, keyed by the second row's names. */
  method ParseStudents(sheet: seq<seq<Value>>, parse: string -> Option<Value>) returns (students: seq<Student>)
    ensures |students| == |DataRows(sheet)|
    ensures forall k :: 0 <= k < |students| ==> students[k] == StudentOf(HeaderRow(sheet), DataRows(sheet)[k], parse)
  {
    var dataRows := DataRows(sheet);
    var headers := HeaderRow(sheet);
    students := BuildStudents(headers, dataRows, parse);
  }

  // ---------------------------------------------------------------------------
  // Choosing a file
  // ---------------------------------------------------------------------------

  const AcceptedTypes: seq<string> := [
    "text/csv", "application/vnd.ms-excel",
    "application/vnd.openxmlformats-officedocument.spreadsheetml.sheet"]

  const AcceptedExtensions: seq<string> := [".csv", ".xlsx", ".xls"]

  /** A file is taken for its spreadsheet MIME type or for its extension. */
  predicate FileAccepted(mimeType: string, name: string)
  {
    mimeType == "text/csv" || EndsWith(name, ".csv") ||
    mimeType == "application/vnd.ms-excel" ||
    mimeType == "application/vnd.openxmlformats-officedocument.spreadsheetml.sheet" ||
    EndsWith(name, ".xlsx") || EndsWith(name, ".xls")
  }

  /** Accepted exactly for one of the three MIME types or one of the three extensions. */
  lemma FileAcceptedIff(mimeType: string, name: string)
    ensures FileAccepted(mimeType, name) <==>
      mimeType in AcceptedTypes || exists e :: e in AcceptedExtensions && EndsWith(name, e)
  {
    if EndsWith(name, ".csv") {
      assert AcceptedExtensions[0] == ".csv";
    } else if EndsWith(name, ".xlsx") {
      assert AcceptedExtensions[1] == ".xlsx";
    } else if EndsWith(name, ".xls") {
      assert AcceptedExtensions[2] == ".xls";
    }
  }

  datatype File = File(mimeType: string, name: string)

  const WrongTypeMessage: string := "Vui lòng chọn file CSV hoặc Excel (.xlsx, .xls)"

  const ReadFailedMessage: string := "Lỗi đọc file. Vui lòng kiểm tra định dạng file."

  datatype Upload = Ready(students: seq<Student>, file: File) | Failed(message: string)

  /**
   * Selecting a file: refused without a file or of another type; a workbook
   * that cannot be read fails; otherwise the records of its first sheet are ready.
   */
  method HandleFileSelect(file: Option<File>, sheet: Option<seq<seq<Value>>>, parse: string -> Option<Value>)
    returns (upload: Upload)
    ensures (file.None? || !FileAccepted(file.value.mimeType, file.value.name)) <==> upload == Failed(WrongTypeMessage)
    ensures file.Some? && FileAccepted(file.value.mimeType, file.value.name) && sheet.None? ==> upload == Failed(ReadFailedMessage)
    ensures upload.Ready? <==> file.Some? && FileAccepted(file.value.mimeType, file.value.name) && sheet.Some?
    ensures upload.Ready? ==>
      && upload.file == file.value
      && |upload.students| == |DataRows(sheet.value)|
      && forall k :: 0 <= k < |upload.students| ==>
           upload.students[k] == StudentOf(HeaderRow(sheet.value), DataRows(sheet.value)[k], parse)
  {
    if file.Some? && FileAccepted(file.value.mimeType, file.value.name) {
      if sheet.None? {
        upload := Failed(ReadFailedMessage);
      } else {
        var students := ParseStudents(sheet.value, parse);
        upload := Ready(students, file.value);
      }
    } else {
      upload := Failed(WrongTypeMessage);
    }
  }

  // ---------------------------------------------------------------------------
  // The template
  // ---------------------------------------------------------------------------

  const ApiHeaders: seq<string> := [
    "fullName", "birthPlace", "address", "dob", "rank", "previousUnit", "previousPosition",
    "ethnic", "religion", "enlistmentPeriod", "politicalOrg", "politicalOrgOfficialDate", "cpvId",
    "educationLevel", "schoolName", "major", "isGraduated", "talent", "shortcoming",
    "policyBeneficiaryGroup", "fatherName", "fatherDob", "fatherPhoneNumber", "fatherJob",
    "motherName", "motherDob", "motherPhoneNumber", "motherJob", "isMarried", "spouseName",
    "spouseDob", "spouseJob", "spousePhoneNumber", "familySize", "familyBackground",
    "familyBirthOrder", "achievement", "disciplinaryHistory", "childrenInfos", "phone", "classId"]

  const VietnameseHeaders: seq<string> := [
    "Họ và tên", "Nơi sinh", "Địa chỉ", "Ngày sinh", "Cấp bậc", "Đơn vị cũ", "Chức vụ cũ",
    "Dân tộc", "Tôn giáo", "Thời gian nhập ngũ", "Đoàn/Đảng", "Ngày chính thức vào Đảng/Đoàn",
    "ID Đảng viên", "Trình độ học vấn", "Tên trường", "Chuyên ngành", "Đã tốt nghiệp", "Tài năng",
    "Thiếu sót", "Nhóm thụ hưởng chính sách", "Tên cha", "Ngày sinh cha", "Số điện thoại cha",
    "Nghề nghiệp cha", "Tên mẹ", "Ngày sinh mẹ", "Số điện thoại mẹ", "Nghề nghiệp mẹ",
    "Đã kết hôn", "Tên vợ/chồng", "Ngày sinh vợ/chồng", "Nghề nghiệp vợ/chồng",
    "Số điện thoại vợ/chồng", "Quy mô gia đình", "Hoàn cảnh gia đình",
    "Thứ tự sinh trong gia đình", "Thành tích", "Lịch sử kỷ luật", "Thông tin con cái",
    "Số điện thoại", "ID Lớp"]

  /** The sample student of the template, by field name. */
  const SampleStudent: map<string, Value> := map[
    "fullName" := Str("Nguyễn Văn A"), "birthPlace" := Str("Hà Nội"),
    "address" := Str("123 Đường ABC, Hà Nội"), "dob" := Str("01/01/2000"),
    "rank" := Str("Binh nhất"), "previousUnit" := Str("Đại đội 1"), "previousPosition" := Str(""),
    "ethnic" := Str("Kinh"), "religion" := Str("Không"), "enlistmentPeriod" := Str("2024"),
    "politicalOrg" := Str("hcyu"), "politicalOrgOfficialDate" := Str("26/03/2020"),
    "cpvId" := Str(""), "educationLevel" := Str("12/12"), "schoolName" := Str("THPT Hà Nội"),
    "major" := Str("Toán"), "isGraduated" := Bool(false), "talent" := Str("Văn nghệ"),
    "shortcoming" := Str("Chưa có"), "policyBeneficiaryGroup" := Str("Không"),
    "fatherName" := Str("Nguyễn Văn B"), "fatherDob" := Str("01/01/1970"),
    "fatherPhoneNumber" := Str("0912345678"), "fatherJob" := Str("Công nhân"),
    "motherName" := Str("Trần Thị C"), "motherDob" := Str("02/02/1972"),
    "motherPhoneNumber" := Str("0987654321"), "motherJob" := Str("Giáo viên"),
    "isMarried" := Bool(false), "spouseName" := Str(""), "spouseDob" := Str(""),
    "spouseJob" := Str(""), "spousePhoneNumber" := Str(""), "familySize" := Num(4),
    "familyBackground" := Str("Không"), "familyBirthOrder" := Str("Con cả"),
    "achievement" := Str("Học sinh giỏi"), "disciplinaryHistory" := Str(""),
    "childrenInfos" := Array([]), "phone" := Str("0911222333"), "classId" := Num(1)]

  /** `headers.map(h => sample[h] ?? '')`: the sample row, '' for a field the sample lacks. */
  function SampleRow(): (row: seq<Value>)
    ensures |row| == |ApiHeaders|
  {
    seq(|ApiHeaders|, i requires 0 <= i < |ApiHeaders| =>
      if ApiHeaders[i] in SampleStudent then SampleStudent[ApiHeaders[i]] else Str(""))
  }

  /** The template's rows: the Vietnamese headers, the API names, the sample student. */
  function TemplateSheet(): (sheet: seq<seq<Value>>)
    ensures |sheet| == 3
  {
    [seq(|VietnameseHeaders|, i requires 0 <= i < |VietnameseHeaders| => Str(VietnameseHeaders[i])),
     seq(|ApiHeaders|, i requires 0 <= i < |ApiHeaders| => Str(ApiHeaders[i])),
     SampleRow()]
  }

  /**
   * The template's three rows are equally wide, every API name has a sample
   * value (so no sample cell falls back to ''), and read back by the import
   * the template's names are the API names and its sample row the one data row.
   */
  lemma TemplateReadsBack()
    ensures |VietnameseHeaders| == |ApiHeaders| == |SampleRow()| == 41
    ensures forall i :: 0 <= i < |ApiHeaders| ==> ApiHeaders[i] in SampleStudent
    ensures HeaderRow(TemplateSheet()) == ApiHeaders
    ensures DataRows(TemplateSheet()) == [SampleRow()]
  {
    var sheet := TemplateSheet();
    assert SampleRow()[0] == Str("Nguyễn Văn A");
    assert HasContent(SampleRow());
    assert sheet[2..] == [SampleRow()];
    RowsWithContentExact([SampleRow()], SampleRow());
  }

  // ---------------------------------------------------------------------------
  // Import results
  // ---------------------------------------------------------------------------

  datatype RowError = RowError(row: int, message: string)

  datatype ImportResult = ImportResult(successCount: nat, errorCount: nat, totalCount: nat, errors: seq<RowError>)

  /**
   * The counts reported after sending the records: all of them succeed, or, when
   * the request fails, all of them fail with one error on row 1 carrying the
   * request's message ("Unknown error" when it has none).
   */
  function ImportOutcome(count: nat, failure: Option<string>): (r: ImportResult)
    ensures r.successCount + r.errorCount == r.totalCount == count
    ensures failure.None? ==> r.successCount == count && r.errors == []
    ensures failure.Some? ==> r.successCount == 0 && |r.errors| == 1 && r.errors[0].row == 1
    ensures failure.Some? && failure.value != "" ==> r.errors[0].message == failure.value
  {
    if failure.None? then ImportResult(count, 0, count, [])
    else ImportResult(0, count, count, [RowError(1, if failure.value != "" then failure.value else "Unknown error")])
  }
}
