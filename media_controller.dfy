/**
 * The media helpers of the API (`apps/api/media/controller.ts`): storage
 * keys for uploads, the upload loop, the metadata of a retrieved file and
 * the check of a file URI. The object storage is an input: `PutObject` is
 * given as the key it reports for a stored key and body, or its rejection,
 * and `GetObject` as the response it returned.
 */
module MediaController {
  import opened Wrappers
  import opened Strs

  /** An uploaded file, over the buffer type. */
  datatype FileData<B> = FileData(filename: string, buffer: B)

  /** `generateStorageKey`: the user id, '-', the file name. */
  function GenerateStorageKey(userId: string, filename: string): (key: string)
    ensures |key| == |userId| + 1 + |filename|
    ensures key[..|userId|] == userId && key[|userId|] == '-' && key[|userId| + 1..] == filename
  {
    userId + "-" + filename
  }

  /** For a known user id, the file name is recovered from its key: different files get different keys. */
  lemma StorageKeyInjective(userId: string, f1: string, f2: string)
    requires GenerateStorageKey(userId, f1) == GenerateStorageKey(userId, f2)
    ensures f1 == f2
  {
    assert f1 == GenerateStorageKey(userId, f1)[|userId| + 1..];
  }

  /** The result of one `PutObject` call for a file: the reported key, or the rejection. */
  function Put<B, E>(f: FileData<B>, userId: string, putObject: (string, B) -> Result<string, E>): Result<string, E>
  {
    putObject(GenerateStorageKey(userId, f.filename), f.buffer)
  }

  /**
   * What `saveFiles` settles to: the keys the storage reported, one per file in
   * order, or the first rejection, which the loop does not catch.
   */
  function SavedUris<B, E>(files: seq<FileData<B>>, userId: string, putObject: (string, B) -> Result<string, E>)
    : (r: Result<seq<string>, E>)
    ensures r.Ok? ==> |r.value| == |files|
  {
    if files == [] then Ok([])
    else
      match SavedUris(files[..|files| - 1], userId, putObject)
      case Err(e) => Err(e)
      case Ok(uris) =>
        match Put(files[|files| - 1], userId, putObject)
        case Err(e) => Err(e)
        case Ok(key) => Ok(uris + [key])
  }

  /**
   * All files stored gives one URI per file, in input order, each the key the
   * storage reported for that file; otherwise the error is that of the first
   * file the storage rejected.
   */
  lemma {:induction false} SavedUrisSpec<B, E>(files: seq<FileData<B>>, userId: string,
                                               putObject: (string, B) -> Result<string, E>)
    ensures var r := SavedUris(files, userId, putObject);
      && (r.Ok? <==> forall i :: 0 <= i < |files| ==> Put(files[i], userId, putObject).Ok?)
      && (r.Ok? ==> forall i :: 0 <= i < |files| ==> r.value[i] == Put(files[i], userId, putObject).value)
      && (r.Err? ==>
            exists i :: 0 <= i < |files| && Put(files[i], userId, putObject) == Err(r.error) &&
              forall j :: 0 <= j < i ==> Put(files[j], userId, putObject).Ok?)
  {
    if files != [] {
      var front := files[..|files| - 1];
      SavedUrisSpec(front, userId, putObject);
      assert forall i :: 0 <= i < |front| ==> front[i] == files[i];
      var r := SavedUris(files, userId, putObject);
      if r.Err? && SavedUris(front, userId, putObject).Err? {
        var i :| 0 <= i < |front| && Put(front[i], userId, putObject) == Err(SavedUris(front, userId, putObject).error) &&
          forall j :: 0 <= j < i ==> Put(front[j], userId, putObject).Ok?;
        assert Put(files[i], userId, putObject) == Err(r.error);
      } else if r.Err? {
        assert Put(files[|files| - 1], userId, putObject) == Err(r.error);
      }
    }
  }

  /** Once a prefix of the files has been rejected, the remaining files do not change the outcome. */
  lemma {:induction false} RejectionSticks<B, E>(files: seq<FileData<B>>, userId: string,
                                                 putObject: (string, B) -> Result<string, E>, n: nat)
    requires n <= |files| && SavedUris(files[..n], userId, putObject).Err?
    ensures SavedUris(files, userId, putObject) == SavedUris(files[..n], userId, putObject)
    decreases |files| - n
  {
    if n == |files| {
      assert files[..n] == files;
    } else {
      var m := |files| - 1;
      assert files[..m][..n] == files[..n];
      RejectionSticks(files[..m], userId, putObject, n);
    }
  }

  /** The storage keys of the files, in order. */
  function KeysOf<B>(files: seq<FileData<B>>, userId: string): (keys: seq<string>)
    ensures |keys| == |files|
    ensures forall i :: 0 <= i < |files| ==> keys[i] == GenerateStorageKey(userId, files[i].filename)
  {
    if files == [] then [] else KeysOf(files[..|files| - 1], userId) + [GenerateStorageKey(userId, files[|files| - 1].filename)]
  }

  /**
   * `saveFiles`: each file is stored under its generated key in turn and the
   * reported key is collected; a rejected `PutObject` ends the loop. `sent`
   * is the keys sent to the storage: every file's when all were stored, else
   * the files up to and including the rejected one.
   */
  method SaveFiles<B, E>(files: seq<FileData<B>>, userId: string, putObject: (string, B) -> Result<string, E>)
    returns (r: Result<seq<string>, E>, sent: seq<string>)
    ensures r == SavedUris(files, userId, putObject)
    ensures r.Ok? ==> sent == KeysOf(files, userId)
    ensures r.Err? ==>
      0 < |sent| <= |files| && sent == KeysOf(files[..|sent|], userId) &&
      Put(files[|sent| - 1], userId, putObject) == Err(r.error)
  {
    var uris := [];
    sent := [];
    for i := 0 to |files|
      invariant SavedUris(files[..i], userId, putObject) == Ok(uris)
      invariant sent == KeysOf(files[..i], userId)
    {
      assert files[..i + 1][..i] == files[..i];
      var key := GenerateStorageKey(userId, files[i].filename);
      var result := putObject(key, files[i].buffer);
      sent := sent + [key];
      if result.Err? {
        RejectionSticks(files, userId, putObject, i + 1);
        return Err(result.error), sent;
      }
      uris := uris + [result.value];
    }
    assert files[..|files|] == files;
    r := Ok(uris);
  }

  const DefaultContentType: string := "application/octet-stream"

  /** The `GetObject` response, over the stream type. */
  datatype StorageObject<S> = StorageObject(body: S, contentType: Option<string>, contentLength: Option<int>)

  /** What `retrieveFile` returns. */
  datatype RetrievedFile<S> = RetrievedFile(stream: S, contentType: string, contentLength: Option<int>, etag: string)

  /** `retrieveFile`, given the storage's response for the URI. */
  function RetrieveFile<S>(fileUri: string, resp: StorageObject<S>): (r: RetrievedFile<S>)
    ensures r.stream == resp.body && r.contentLength == resp.contentLength && r.etag == fileUri
    ensures resp.contentType.None? || resp.contentType.value == "" ==> r.contentType == DefaultContentType
    ensures resp.contentType.Some? && resp.contentType.value != "" ==> r.contentType == resp.contentType.value
    ensures r.contentType != ""
  {
    var contentType := if resp.contentType.Some? && resp.contentType.value != "" then resp.contentType.value else DefaultContentType;
    RetrievedFile(resp.body, contentType, resp.contentLength, fileUri)
  }

  const UriRequiredMessage: string := "File URI is required"

  /** `validateFileUri`: the URI itself, or the error thrown when it is missing, empty or only white space. */
  function ValidateFileUri(fileUri: Option<string>): (r: Result<string, string>)
    ensures r.Ok? ==> fileUri == Some(r.value)
    ensures r.Err? ==> r.error == UriRequiredMessage
  {
    if fileUri.None? || fileUri.value == "" || Trim(fileUri.value, Js) == "" then Err(UriRequiredMessage)
    else Ok(fileUri.value)
  }

  /** A URI is accepted exactly when it is present and has a character that is not white space. */
  lemma ValidateFileUriIff(fileUri: Option<string>)
    ensures ValidateFileUri(fileUri).Ok? <==> fileUri.Some? && exists i :: 0 <= i < |fileUri.value| && !IsJsSpace(fileUri.value[i])
  {
    if fileUri.Some? {
      var s := fileUri.value;
      var a := TrimStart(s, Js);
      if Trim(s, Js) == "" {
        // Everything before the trimmed end is white space, and so is everything the start trim removed.
        assert TrimEnd(a, Js) == [];
        forall i | 0 <= i < |s| ensures IsJsSpace(s[i]) {
          if i >= |s| - |a| {
            assert s[i] == a[i - (|s| - |a|)];
          }
        }
      } else if s != "" {
        var t := Trim(s, Js);
        assert !IsJsSpace(t[0]);
        var k :| 0 <= k <= |s| && OccursAt(s, t, k);
        assert s[k] == t[0];
      }
    }
  }

  /** The caching headers of a media response. */
  datatype CacheHeaders = CacheHeaders(cacheControl: string, maxAge: nat)

  /** `getCacheHeaders`: public caching for a year of 365 days, the same age in the header text and in `maxAge`. */
  function GetCacheHeaders(): (h: CacheHeaders)
    ensures h.maxAge == 365 * 24 * 60 * 60
    ensures h.cacheControl == "public, max-age=" + NatToString(h.maxAge)
  {
    assert NatToString(3) == "3";
    assert NatToString(31) == "31";
    assert NatToString(315) == "315";
    assert NatToString(3153) == "3153";
    assert NatToString(31536) == "31536";
    assert NatToString(315360) == "315360";
    assert NatToString(3153600) == "3153600";
    assert NatToString(31536000) == "31536000";
    CacheHeaders("public, max-age=31536000", 31536000)
  }
}
