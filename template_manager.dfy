/**
 * The export template store (packages/customgradeexport/classes/template_manager.php):
 * template files named `<type>_<id>.<ext>` in one directory, plus a name for each
 * (type, id) kept in the database.
 *
 * The directory is a set of file paths and the name table a map; the upload's MIME
 * type, `uniqid()`, and whether the move or unlink succeeds are inputs. A glob
 * listing is an input sequence of base names.
 */
module TemplateManager {
  import opened Wrappers
  import opened Strs
  import opened OrderedMap

  const MimeXls: string := "application/vnd.ms-excel"
  const MimeXlsx: string := "application/vnd.openxmlformats-officedocument.spreadsheetml.sheet"
  const MimeDocx: string := "application/vnd.openxmlformats-officedocument.wordprocessingml.document"

  /** PHP's UPLOAD_ERR_OK. */
  const UploadErrOk: int := 0

  /** The longest template id taken from a name. */
  const MaxIdLength: nat := 50

  /** The extensions a template may have. */
  predicate IsTemplateExt(ext: string)
  {
    ext == "xls" || ext == "xlsx" || ext == "docx"
  }

  /** The three MIME types an upload may have. */
  predicate IsAllowedMime(mime: string)
  {
    mime == MimeXls || mime == MimeXlsx || mime == MimeDocx
  }

  /** The extension a saved upload gets. */
  function ExtForMime(mime: string): (ext: string)
    requires IsAllowedMime(mime)
    ensures IsTemplateExt(ext)
    ensures mime == MimeDocx <==> ext == "docx"
    ensures mime == MimeXlsx <==> ext == "xlsx"
    ensures mime == MimeXls <==> ext == "xls"
  {
    if mime == MimeDocx then "docx" else if mime == MimeXlsx then "xlsx" else "xls"
  }

  /** A character PARAM_ALPHANUMEXT keeps: ASCII letters, digits, '_' and '-'. */
  predicate IsAlphanumExt(c: char)
  {
    'a' <= c <= 'z' || 'A' <= c <= 'Z' || '0' <= c <= '9' || c == '_' || c == '-'
  }

  /** `clean_param($name, PARAM_ALPHANUMEXT)`: every other character is removed. */
  function CleanAlphanumExt(s: string): (r: string)
    ensures |r| <= |s|
    ensures forall i :: 0 <= i < |r| ==> IsAlphanumExt(r[i])
  {
    if |s| == 0 then ""
    else
      var rest := CleanAlphanumExt(s[..|s| - 1]);
      if IsAlphanumExt(s[|s| - 1]) then rest + [s[|s| - 1]] else rest
  }

  /** Cleaning keeps exactly the allowed characters, so it changes nothing the second time. */
  lemma {:induction false} CleanAlphanumExtIdempotent(s: string)
    ensures CleanAlphanumExt(CleanAlphanumExt(s)) == CleanAlphanumExt(s)
  {
    if |s| > 0 {
      CleanAlphanumExtIdempotent(s[..|s| - 1]);
      CleanOfClean(CleanAlphanumExt(s));
    }
  }

  /** A text of allowed characters is left as it is. */
  lemma {:induction false} CleanOfClean(s: string)
    requires forall i :: 0 <= i < |s| ==> IsAlphanumExt(s[i])
    ensures CleanAlphanumExt(s) == s
  {
    if |s| > 0 {
      CleanOfClean(s[..|s| - 1]);
      assert s == s[..|s| - 1] + [s[|s| - 1]];
    }
  }

  /** PHP's `empty()` on a string. */
  predicate IsEmptyString(s: string)
  {
    s == "" || s == "0"
  }

  /** The id first tried for a name: the cleaned name cut to 50 characters, or uniqid() when that is empty. */
  function InitialId(name: string, uniq: string): (id: string)
    requires !IsEmptyString(uniq)
    ensures 0 < |id| && !IsEmptyString(id)
    ensures !IsEmptyString(uniq) && |uniq| <= MaxIdLength ==> |id| <= MaxIdLength
    ensures forall i :: 0 <= i < |id| ==> IsAlphanumExt(id[i]) || id == uniq
  {
    var cleaned := CleanAlphanumExt(name);
    var cut := if |cleaned| <= MaxIdLength then cleaned else cleaned[..MaxIdLength];
    if IsEmptyString(cut) then uniq else cut
  }

  /** The id tried after `counter` collisions: the cleaned name, uncut, with `_counter`. */
  function SuffixedId(name: string, counter: nat): (id: string)
    ensures forall i :: 0 <= i < |id| ==> IsAlphanumExt(id[i])
    ensures |id| > |CleanAlphanumExt(name)| + 1
  {
    CleanAlphanumExt(name) + "_" + NatToString(counter)
  }

  /** `$type . '_' . $templateId . '.' . $ext`. */
  function FileName(kind: string, id: string, ext: string): string
  {
    kind + "_" + id + "." + ext
  }

  /** Different counters give different ids. */
  lemma SuffixedIdInjective(name: string, i: nat, j: nat)
    requires SuffixedId(name, i) == SuffixedId(name, j)
    ensures i == j
  {
    var c := |CleanAlphanumExt(name)| + 1;
    assert NatToString(i) == SuffixedId(name, i)[c..];
    DigitsValueOfNatToString(i);
    DigitsValueOfNatToString(j);
  }

  /** A template id the store can list: non-empty and without a dot. */
  predicate IsListableId(id: string)
  {
    id != "" && '.' !in id
  }

  /**
   * The id pattern tried at the start of `s`: `<type>_`, a non-empty dot-free id,
   * a dot, and one of the three extensions to the end.
   */
  function MatchAt(kind: string, s: string): (r: Option<(string, string)>)
    ensures r.Some? ==> IsListableId(r.value.0) && IsTemplateExt(r.value.1) &&
                        s == FileName(kind, r.value.0, r.value.1)
  {
    var prefix := kind + "_";
    if !StartsWith(s, prefix) then None
    else
      var rest := s[|prefix|..];
      match IndexOf(rest, ".")
      case None => None
      case Some(p) =>
        NoCharBefore(rest, '.', p);
        var id := rest[..p];
        var ext := rest[p + 1..];
        if p > 0 && IsTemplateExt(ext) then
          assert rest == id + "." + ext;
          assert s == prefix + rest;
          Some((id, ext))
        else None
  }

  /** A name of the pattern's shape matches at its start, with exactly its id and extension. */
  lemma MatchFileName(kind: string, id: string, ext: string)
    requires IsListableId(id) && IsTemplateExt(ext)
    ensures MatchAt(kind, FileName(kind, id, ext)) == Some((id, ext))
  {
    var f := FileName(kind, id, ext);
    var prefix := kind + "_";
    assert f == prefix + (id + "." + ext);
    var rest := f[|prefix|..];
    assert rest == id + "." + ext;
    assert rest[..|id|] == id;
    IndexOfFirstChar(rest, '.', |id|);
    assert rest[|id| + 1..] == ext;
  }

  /** The file name is read as a template with this id. */
  predicate ReadsAs(kind: string, filename: string, id: string)
  {
    ParseTemplateFile(kind, filename).Some? && ParseTemplateFile(kind, filename).value.0 == id
  }

  /** The unanchored search from position `p` on: the first position where the pattern matches. */
  function MatchFrom(kind: string, filename: string, p: nat): (r: Option<(string, string)>)
    requires p <= |filename|
    ensures r.Some? ==> IsListableId(r.value.0) && IsTemplateExt(r.value.1) &&
                        EndsWith(filename, FileName(kind, r.value.0, r.value.1))
    decreases |filename| - p
  {
    match MatchAt(kind, filename[p..])
    case Some(m) =>
      assert filename[|filename| - |FileName(kind, m.0, m.1)|..] == filename[p..];
      Some(m)
    case None =>
      if p == |filename| then None else MatchFrom(kind, filename, p + 1)
  }

  /**
   * A globbed base name read back by `preg_match('/<type>_([^.]+)\.(xls|xlsx|docx)$/')`.
   * The pattern has no `^`, so it is tried at each position from the left and the
   * first match wins; the name then ends with `<type>_<id>.<ext>`.
   */
  function ParseTemplateFile(kind: string, filename: string): (r: Option<(string, string)>)
    ensures r.Some? ==> IsListableId(r.value.0) && IsTemplateExt(r.value.1) &&
                        EndsWith(filename, FileName(kind, r.value.0, r.value.1))
  {
    MatchFrom(kind, filename, 0)
  }

  lemma {:induction false} MatchFromNone(kind: string, filename: string, p: nat)
    requires p <= |filename|
    ensures MatchFrom(kind, filename, p).None? <==>
      forall q :: p <= q <= |filename| ==> MatchAt(kind, filename[q..]).None?
    decreases |filename| - p
  {
    if MatchAt(kind, filename[p..]).None? && p < |filename| {
      MatchFromNone(kind, filename, p + 1);
    }
  }

  /** A file is not read as a template exactly when the pattern matches at no position. */
  lemma ParseTemplateFileNone(kind: string, filename: string)
    ensures ParseTemplateFile(kind, filename).None? <==>
      forall q :: 0 <= q <= |filename| ==> MatchAt(kind, filename[q..]).None?
  {
    MatchFromNone(kind, filename, 0);
  }

  lemma {:induction false} MatchFromLeftmost(kind: string, filename: string, start: nat, p: nat)
    requires start <= p <= |filename|
    requires MatchAt(kind, filename[p..]).Some?
    requires forall q :: start <= q < p ==> MatchAt(kind, filename[q..]).None?
    ensures MatchFrom(kind, filename, start) == MatchAt(kind, filename[p..])
    decreases p - start
  {
    if start < p {
      MatchFromLeftmost(kind, filename, start + 1, p);
    }
  }

  /** The file is read at the leftmost position where the pattern matches. */
  lemma ParseTemplateFileLeftmost(kind: string, filename: string, p: nat)
    requires p <= |filename|
    requires MatchAt(kind, filename[p..]).Some?
    requires forall q :: 0 <= q < p ==> MatchAt(kind, filename[q..]).None?
    ensures ParseTemplateFile(kind, filename) == MatchAt(kind, filename[p..])
  {
    MatchFromLeftmost(kind, filename, 0, p);
  }

  /**
   * An id the prefix is followed by can be overtaken by a later match: the glob
   * lists "quiz_old.quiz_new.xlsx", and it is read as id "new", extension "xlsx".
   */
  lemma LaterMatchExample()
    ensures ParseTemplateFile("quiz", "quiz_old.quiz_new.xlsx") == Some(("new", "xlsx"))
  {
    var f := "quiz_old.quiz_new.xlsx";
    assert f[9..] == FileName("quiz", "new", "xlsx");
    MatchFileName("quiz", "new", "xlsx");
    forall q | 0 <= q < 9 ensures MatchAt("quiz", f[q..]).None? {
      if q == 0 {
        var rest := f[5..];
        assert rest[..3] == "old";
        IndexOfFirstChar(rest, '.', 3);
        assert rest[4..] == "quiz_new.xlsx";
      } else {
        assert f[q..][0] == f[q] != 'q';
      }
    }
    ParseTemplateFileLeftmost("quiz", f, 9);
  }

  /** A file the store writes for a listable id is listed under that id and extension. */
  lemma ParseFileName(kind: string, id: string, ext: string)
    requires IsListableId(id) && IsTemplateExt(ext)
    ensures ParseTemplateFile(kind, FileName(kind, id, ext)) == Some((id, ext))
  {
    var f := FileName(kind, id, ext);
    MatchFileName(kind, id, ext);
    assert f[0..] == f;
    ParseTemplateFileLeftmost(kind, f, 0);
  }

  /** Cleaned names have no dot, so every id the store saves can be listed. */
  lemma SavedIdsListable(name: string, uniq: string, counter: nat)
    requires !IsEmptyString(uniq) && '.' !in uniq
    ensures IsListableId(InitialId(name, uniq))
    ensures IsListableId(SuffixedId(name, counter))
  {
    var id := InitialId(name, uniq);
    if id != uniq {
      assert forall i :: 0 <= i < |id| ==> id[i] != '.';
    }
    var s := SuffixedId(name, counter);
    var c := CleanAlphanumExt(name);
    forall i | 0 <= i < |s| ensures s[i] != '.' {
      if i < |c| {
        assert s[i] == c[i];
      } else if i > |c| {
        assert s[i] == NatToString(counter)[i - |c| - 1];
      }
    }
  }

  /** get_template_format's reading of an extension. */
  function FormatOfExt(ext: string): (f: string)
    ensures f == "excel" <==> ext == "xls" || ext == "xlsx"
    ensures f == "word" <==> ext == "docx"
    ensures f == "" <==> !IsTemplateExt(ext)
  {
    if ext == "xls" || ext == "xlsx" then "excel" else if ext == "docx" then "word" else ""
  }

  /** One entry of get_templates; size and modification time are left out. */
  datatype TemplateInfo = TemplateInfo(name: string, path: string, filename: string, format: string)

  /** The outcome of an upload as the request reports it. */
  datatype Upload = Upload(error: int, mimeType: string)

  class TemplateStore {
    /** The template directory. */
    const dir: string
    /** The paths of the files in the directory. */
    var files: set<string>
    /** The template names stored in the database, by (type, template id). */
    var names: map<(string, string), string>

    constructor (dir: string, files: set<string>, names: map<(string, string), string>)
      ensures this.dir == dir && this.files == files && this.names == names
    {
      this.dir := dir;
      this.files := files;
      this.names := names;
    }

    /** The path of a file in the template directory. */
    function PathOf(kind: string, id: string, ext: string): string
    {
      dir + "/" + FileName(kind, id, ext)
    }

    /** get_template_path: the xlsx file, else the xls file, else the docx file, else none. */
    function TemplatePath(kind: string, id: string): (r: Option<string>)
      reads this
      ensures r.Some? ==> r.value in files
      ensures PathOf(kind, id, "xlsx") in files ==> r == Some(PathOf(kind, id, "xlsx"))
      ensures PathOf(kind, id, "xlsx") !in files && PathOf(kind, id, "xls") in files ==> r == Some(PathOf(kind, id, "xls"))
      ensures PathOf(kind, id, "xlsx") !in files && PathOf(kind, id, "xls") !in files ==>
        r == (if PathOf(kind, id, "docx") in files then Some(PathOf(kind, id, "docx")) else None)
    {
      if PathOf(kind, id, "xlsx") in files then Some(PathOf(kind, id, "xlsx"))
      else if PathOf(kind, id, "xls") in files then Some(PathOf(kind, id, "xls"))
      else if PathOf(kind, id, "docx") in files then Some(PathOf(kind, id, "docx"))
      else None
    }

    /** The extension of the file get_template_path finds. */
    function TemplateExt(kind: string, id: string): (ext: string)
      reads this
      ensures TemplatePath(kind, id).None? <==> ext == ""
      ensures TemplatePath(kind, id).Some? ==> IsTemplateExt(ext) && TemplatePath(kind, id).value == PathOf(kind, id, ext)
    {
      if PathOf(kind, id, "xlsx") in files then "xlsx"
      else if PathOf(kind, id, "xls") in files then "xls"
      else if PathOf(kind, id, "docx") in files then "docx"
      else ""
    }

    /** get_template_format: 'excel' or 'word' for a template found, '' for none. */
    function TemplateFormat(kind: string, id: string): (f: string)
      reads this
      ensures f == "" <==> TemplatePath(kind, id).None?
      ensures f == "excel" <==> TemplatePath(kind, id) == Some(PathOf(kind, id, "xlsx")) ||
                                TemplatePath(kind, id) == Some(PathOf(kind, id, "xls"))
    {
      FormatOfExt(TemplateExt(kind, id))
    }

    /** get_template_name: the stored name, or the id itself. */
    function TemplateName(kind: string, id: string): (n: string)
      reads this
      ensures (kind, id) in names ==> n == names[(kind, id)]
      ensures (kind, id) !in names ==> n == id
    {
      if (kind, id) in names then names[(kind, id)] else id
    }

    /** The templates map get_templates builds from a listing, later files of an id replacing earlier ones. */
    function TemplatesOf(kind: string, listing: seq<string>): seq<Pair<string, TemplateInfo>>
      reads this
    {
      if |listing| == 0 then []
      else
        var rest := TemplatesOf(kind, listing[..|listing| - 1]);
        var filename := listing[|listing| - 1];
        match ParseTemplateFile(kind, filename)
        case None => rest
        case Some((id, ext)) =>
          Put(rest, id, TemplateInfo(TemplateName(kind, id), dir + "/" + filename, filename, ext))
    }

    /** A template is listed exactly when some file of the listing reads back with its id. */
    lemma {:induction false} TemplatesOfKeys(kind: string, listing: seq<string>, id: string)
      ensures HasKey(TemplatesOf(kind, listing), id) <==>
        exists f :: f in listing && ReadsAs(kind, f, id)
    {
      if |listing| > 0 {
        var init := listing[..|listing| - 1];
        var last := listing[|listing| - 1];
        assert listing == init + [last];
        TemplatesOfKeys(kind, init, id);
        ReadsAsSnoc(kind, init, last, id);
        TemplatesOfSnocKey(kind, init, last, id);
      }
    }

    /** One more file in the listing adds its id, if it reads as a template, and keeps every earlier id. */
    lemma TemplatesOfSnocKey(kind: string, init: seq<string>, last: string, id: string)
      ensures HasKey(TemplatesOf(kind, init + [last]), id) <==>
        HasKey(TemplatesOf(kind, init), id) || ReadsAs(kind, last, id)
    {
      var listing := init + [last];
      assert listing[..|listing| - 1] == init;
      var rest := TemplatesOf(kind, init);
      var parsed := ParseTemplateFile(kind, last);
      if parsed.Some? {
        var id2, ext := parsed.value.0, parsed.value.1;
        var info := TemplateInfo(TemplateName(kind, id2), dir + "/" + last, last, ext);
        assert TemplatesOf(kind, listing) == Put(rest, id2, info);
        PutKeys(rest, id2, info);
        HasKeyIffInKeys(rest, id);
        HasKeyIffInKeys(Put(rest, id2, info), id);
      } else {
        assert TemplatesOf(kind, listing) == rest;
      }
    }

    /** Some file of a listing with one more name reads back with `id` iff some earlier one does or the new one does. */
    static lemma ReadsAsSnoc(kind: string, init: seq<string>, last: string, id: string)
      ensures (exists f :: f in init + [last] && ReadsAs(kind, f, id)) <==>
        (exists f :: f in init && ReadsAs(kind, f, id)) || ReadsAs(kind, last, id)
    {
      if ReadsAs(kind, last, id) {
        assert last in init + [last];
      }
    }

    /** get_templates: the foreach over the glob listing. */
    method GetTemplates(kind: string, listing: seq<string>) returns (templates: seq<Pair<string, TemplateInfo>>)
      ensures templates == TemplatesOf(kind, listing)
    {
      templates := [];
      for i := 0 to |listing|
        invariant templates == TemplatesOf(kind, listing[..i])
      {
        assert listing[..i + 1][..i] == listing[..i];
        var filename := listing[i];
        var parsed := ParseTemplateFile(kind, filename);
        if parsed.Some? {
          var (id, ext) := parsed.value;
          templates := Put(templates, id, TemplateInfo(TemplateName(kind, id), dir + "/" + filename, filename, ext));
        }
      }
      assert listing[..|listing|] == listing;
    }

    /** has_templates: whether get_templates finds anything. */
    function HasTemplates(kind: string, listing: seq<string>): bool
      reads this
    {
      |TemplatesOf(kind, listing)| > 0
    }

    /** There are templates exactly when some file of the listing reads back as a template. */
    lemma HasTemplatesIff(kind: string, listing: seq<string>)
      ensures HasTemplates(kind, listing) <==> exists f :: f in listing && ParseTemplateFile(kind, f).Some?
    {
      var t := TemplatesOf(kind, listing);
      if |t| > 0 {
        TemplatesOfKeys(kind, listing, t[0].key);
        assert t[0] in t;
      } else if exists f :: f in listing && ParseTemplateFile(kind, f).Some? {
        var f :| f in listing && ParseTemplateFile(kind, f).Some?;
        TemplatesOfKeys(kind, listing, ParseTemplateFile(kind, f).value.0);
      }
    }

    /** The paths `<name>_1` … `<name>_(n - 1)` would have. */
    ghost function Candidates(kind: string, name: string, ext: string, n: nat): set<string>
    {
      set j | 1 <= j < n :: PathOf(kind, SuffixedId(name, j), ext)
    }

    /** The path of counter n is none of the paths of the counters before it. */
    lemma CandidateFresh(kind: string, name: string, ext: string, n: nat)
      ensures PathOf(kind, SuffixedId(name, n), ext) !in Candidates(kind, name, ext, n)
    {
      var c := PathOf(kind, SuffixedId(name, n), ext);
      if c in Candidates(kind, name, ext, n) {
        var j :| 1 <= j < n && c == PathOf(kind, SuffixedId(name, j), ext);
        var a := SuffixedId(name, j);
        var b := SuffixedId(name, n);
        assert PathOf(kind, a, ext) == (dir + "/" + kind + "_") + a + ("." + ext);
        assert PathOf(kind, b, ext) == (dir + "/" + kind + "_") + b + ("." + ext);
        MiddleInjective(dir + "/" + kind + "_", SuffixedId(name, j), SuffixedId(name, n), "." + ext);
        SuffixedIdInjective(name, j, n);
      }
    }

    /** One more counter adds its path. */
    lemma CandidatesStep(kind: string, name: string, ext: string, n: nat)
      requires n >= 1
      ensures Candidates(kind, name, ext, n + 1) == Candidates(kind, name, ext, n) + {PathOf(kind, SuffixedId(name, n), ext)}
    {
    }

    /** Each further counter gives a path not tried before. */
    lemma {:induction false} CandidatesCount(kind: string, name: string, ext: string, n: nat)
      ensures |Candidates(kind, name, ext, n)| == if n == 0 then 0 else n - 1
    {
      if n > 1 {
        CandidatesCount(kind, name, ext, n - 1);
        CandidatesStep(kind, name, ext, n - 1);
        CandidateFresh(kind, name, ext, n - 1);
      } else {
        assert Candidates(kind, name, ext, n) == {};
      }
    }

    /**
     * The collision loop of save_template: from the initial id, try `<name>_1`,
     * `<name>_2`, … until a path is free.
     */
    method FreeId(kind: string, name: string, ext: string, initial: string) returns (id: string, ghost counter: nat)
      ensures PathOf(kind, id, ext) !in files
      ensures counter == 0 ==> id == initial
      ensures counter > 0 ==> id == SuffixedId(name, counter) && PathOf(kind, initial, ext) in files
      ensures forall j :: 1 <= j < counter ==> PathOf(kind, SuffixedId(name, j), ext) in files
    {
      id := initial;
      var destination := PathOf(kind, id, ext);
      var next := 1;
      while destination in files
        invariant next >= 1 && destination == PathOf(kind, id, ext)
        invariant next == 1 ==> id == initial
        invariant next > 1 ==> id == SuffixedId(name, next - 1) && PathOf(kind, initial, ext) in files
        invariant Candidates(kind, name, ext, next - 1) <= files
        decreases |files| + 2 - next
      {
        assert Candidates(kind, name, ext, next) <= files by {
          if next > 1 {
            CandidatesStep(kind, name, ext, next - 1);
          } else {
            assert Candidates(kind, name, ext, next) == {};
          }
        }
        CandidatesCount(kind, name, ext, next);
        SubsetCard(Candidates(kind, name, ext, next), files);
        id := SuffixedId(name, next);
        destination := PathOf(kind, id, ext);
        next := next + 1;
      }
      counter := next - 1;
      forall j | 1 <= j < counter ensures PathOf(kind, SuffixedId(name, j), ext) in files {
        assert PathOf(kind, SuffixedId(name, j), ext) in Candidates(kind, name, ext, counter);
      }
    }

    /** A subset is no larger than its superset. */
    static lemma SubsetCard(a: set<string>, b: set<string>)
      requires a <= b
      ensures |a| <= |b|
    {
      assert b == a + (b - a);
    }

    /**
     * save_template: a failed upload or a MIME type outside the three is refused;
     * otherwise the file is stored under the first free id and its name recorded.
     */
    method SaveTemplate(kind: string, name: string, upload: Upload, uniq: string, moved: bool)
      returns (r: Option<string>)
      requires !IsEmptyString(uniq)
      modifies this
      ensures upload.error != UploadErrOk || !IsAllowedMime(upload.mimeType) || !moved ==>
        r.None? && files == old(files) && names == old(names)
      ensures r.Some? ==>
        upload.error == UploadErrOk && IsAllowedMime(upload.mimeType) && moved &&
        PathOf(kind, r.value, ExtForMime(upload.mimeType)) !in old(files) &&
        files == old(files) + {PathOf(kind, r.value, ExtForMime(upload.mimeType))} &&
        names == old(names)[(kind, r.value) := name]
      ensures r.Some? ==>
        r.value == InitialId(name, uniq) ||
        (PathOf(kind, InitialId(name, uniq), ExtForMime(upload.mimeType)) in old(files) &&
         exists k :: 1 <= k && r.value == SuffixedId(name, k) &&
           forall j :: 1 <= j < k ==> PathOf(kind, SuffixedId(name, j), ExtForMime(upload.mimeType)) in old(files))
      ensures upload.error == UploadErrOk && IsAllowedMime(upload.mimeType) && moved ==> r.Some?
    {
      if upload.error != UploadErrOk {
        return None;
      }
      if !IsAllowedMime(upload.mimeType) {
        return None;
      }
      var ext := ExtForMime(upload.mimeType);
      var initial := InitialId(name, uniq);
      var id, counter := FreeId(kind, name, ext, initial);
      if !moved {
        return None;
      }
      files := files + {PathOf(kind, id, ext)};
      names := names[(kind, id) := name];
      return Some(id);
    }

    /**
     * delete_template: the file get_template_path finds is removed together with
     * the stored name; without such a file, or when unlinking fails, nothing changes.
     */
    method DeleteTemplate(kind: string, id: string, unlinked: bool) returns (ok: bool)
      modifies this
      ensures ok <==> old(TemplatePath(kind, id)).Some? && unlinked
      ensures ok ==>
        (old(TemplatePath(kind, id)).Some? &&
         files == old(files) - {old(TemplatePath(kind, id)).value} && names == old(names) - {(kind, id)})
      ensures !ok ==> files == old(files) && names == old(names)
    {
      var path := TemplatePath(kind, id);
      if path.Some? && path.value in files {
        if unlinked {
          files := files - {path.value};
          names := names - {(kind, id)};
        }
        return unlinked;
      }
      return false;
    }
  }

  /** A saved template is found again: get_template_path gives a file and get_templates lists its id. */
  lemma SavedTemplateFound(store: TemplateStore, kind: string, id: string, ext: string)
    requires IsListableId(id) && IsTemplateExt(ext)
    requires store.PathOf(kind, id, ext) in store.files
    ensures store.TemplatePath(kind, id).Some?
    ensures ParseTemplateFile(kind, FileName(kind, id, ext)) == Some((id, ext))
  {
    ParseFileName(kind, id, ext);
  }
}
