/**
 * The slices of Go's log/slog that the two logging handlers of the SMS API consume:
 * a value of one of slog's kinds, an attribute (key and value), and the levels.
 */
module Slog {
  import opened Wrappers

  /** slog.Value by kind. `VAny` carries what `%+v` prints, or None for a nil value. */
  datatype Value =
    | VAny(printed: Option<string>)
    | VBool(b: bool)
    | VDuration(nanos: int)
    | VFloat64(f: real)
    | VInt64(i: int)
    | VString(s: string)
    | VTime(unixNanos: int)
    | VUint64(u: nat)
    | VGroup(members: seq<Attr>)
    | VLogValuer(resolved: Value)

  datatype Attr = Attr(key: string, value: Value)

  /** The zero slog.Attr: empty key, nil value. */
  const EmptyAttr := Attr("", VAny(None))

  const LevelDebug: int := -4
  const LevelInfo: int := 0
  const LevelWarn: int := 4
  const LevelError: int := 8

  /** The largest int64, the bound of the uint64-to-int64 conversion. */
  const MaxInt64: nat := 0x7FFF_FFFF_FFFF_FFFF
}
