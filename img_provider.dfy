/**
 * Image data for document templates (`apps/api/students/img-provider.ts`):
 * the extension of a storage key, normalised to one of the image types the
 * templates accept, and the image record built from the provider's buffer.
 * The provider is an input: the model receives the buffer it returned.
 */
module ImgProvider {
  import opened Strs

  /** `validImgExt` */
  const ValidImgExt: seq<string> := [".png", ".gif", ".jpg", ".jpeg", ".svg"]

  const DefaultExt: string := ".png"

  /** `extractExtension`: the text after the last '.', with a dot in front, when it is a valid extension; '.png' otherwise. */
  function ExtractExtension(key: string): (ext: string)
    ensures ext in ValidImgExt
  {
    var extension := "." + LastPiece(key, '.');
    if extension !in ValidImgExt then DefaultExt else extension
  }

  /** Joined pieces end with the last piece, which follows a separator unless it is the only piece. */
  lemma {:induction false} JoinLast(parts: seq<string>, sep: char)
    requires |parts| >= 1
    ensures var j := Join(parts, sep); var last := parts[|parts| - 1];
      |last| <= |j| && j[|j| - |last|..] == last &&
      (|parts| == 1 ==> j == last) &&
      (|parts| >= 2 ==> |last| < |j| && j[|j| - |last| - 1] == sep)
    decreases |parts|
  {
    if |parts| >= 2 {
      var rest := parts[1..];
      JoinLast(rest, sep);
      assert rest[|rest| - 1] == parts[|parts| - 1];
      var j := Join(parts, sep);
      var jr := Join(rest, sep);
      assert j == parts[0] + [sep] + jr;
      var last := parts[|parts| - 1];
      assert j[|j| - |last|..] == jr[|jr| - |last|..];
      if |rest| == 1 {
        assert j[|j| - |last| - 1] == sep;
      } else {
        assert j[|j| - |last| - 1] == jr[|jr| - |last| - 1];
      }
    }
  }

  /** What follows the last separator of a text: the last piece of its split. */
  function LastPiece(s: string, sep: char): string
  {
    var parts := Split(s, sep);
    parts[|parts| - 1]
  }

  /** `last` has no separator, ends `s`, and is the whole of `s` or follows a separator. */
  predicate IsLastPiece(s: string, last: string, sep: char)
  {
    sep !in last && |last| <= |s| && s[|s| - |last|..] == last &&
    (last == s || (|last| < |s| && s[|s| - |last| - 1] == sep))
  }

  lemma TextEndsWithLast(s: string, parts: seq<string>, sep: char)
    requires |parts| >= 1 && Join(parts, sep) == s && sep !in parts[|parts| - 1]
    ensures IsLastPiece(s, parts[|parts| - 1], sep)
  {
    JoinLast(parts, sep);
  }

  /** The last piece of a split is the text after the last separator. */
  lemma SplitLast(s: string, sep: char)
    ensures IsLastPiece(s, LastPiece(s, sep), sep)
  {
    var parts := Split(s, sep);
    JoinSplit(s, sep);
    TextEndsWithLast(s, parts, sep);
    assert LastPiece(s, sep) == parts[|parts| - 1];
  }

  /** The last piece of a text split on '.' is what follows its last '.'. */
  lemma LastPieceAfterDot(a: string, b: string)
    requires '.' !in b
    ensures LastPiece(a + "." + b, '.') == b
  {
    var s := a + "." + b;
    var last := LastPiece(s, '.');
    SplitLast(s, '.');
    assert s[|s| - |b|..] == b;
    assert s[|s| - |b| - 1] == '.';
    if |last| != |b| {
      assert false;
    }
  }

  /**
   * A key with a '.' gives the text after its last '.' when that is a valid
   * lower-case extension, and '.png' otherwise (an upper-case extension
   * included).
   */
  lemma ExtractExtensionAfterDot(a: string, b: string)
    requires '.' !in b
    ensures ExtractExtension(a + "." + b) == if "." + b in ValidImgExt then "." + b else DefaultExt
  {
    LastPieceAfterDot(a, b);
  }

  /**
   * A key without a '.' is its own last piece: it gives '.png' unless the
   * whole key names a valid extension ("gif" gives ".gif").
   */
  lemma ExtractExtensionNoDot(key: string)
    requires '.' !in key
    ensures ExtractExtension(key) == if "." + key in ValidImgExt then "." + key else DefaultExt
  {
    SplitNoSeparator(key, '.');
  }

  datatype Dimensions = Dimensions(width: int, height: int)

  /** `ImageData`, over the provider's buffer type. */
  datatype ImageData<B> = ImageData(width: int, height: int, data: B, extension: string)

  /** `getImageData`, given the buffer the provider returned for the key. */
  function GetImageData<B>(imageKey: string, buffer: B, dimensions: Dimensions): (r: ImageData<B>)
    ensures r.width == dimensions.width && r.height == dimensions.height
    ensures r.data == buffer
    ensures r.extension in ValidImgExt && r.extension == ExtractExtension(imageKey)
  {
    ImageData(dimensions.width, dimensions.height, buffer, ExtractExtension(imageKey))
  }
}
