/**
 * The attribute bookkeeping of the OpenTelemetry slog handler
 * (apps/sms-api/internal/logger/otel.go): the kvBuffer that flattens slog attributes
 * into OpenTelemetry key-values, the chain of open groups, and the copy-on-write
 * WithAttrs / WithGroup.
 *
 * The group chain is a sequence whose head is the innermost ("leaf") group. Go keeps
 * it as a linked list whose tail is shared between handlers; the model can use values
 * because a group node is only ever mutated right after it has been cloned.
 */
module OtelHandler {
  import opened Wrappers
  import opened Slog

  /** log.Value: the OpenTelemetry value kinds the conversion produces. */
  datatype LogValue =
    | LString(s: string)
    | LBool(b: bool)
    | LInt64(i: int)
    | LFloat64(f: real)
    | LMap(kvs: seq<KeyValue>)

  datatype KeyValue = KeyValue(key: string, value: LogValue)

  // ---------------------------------------------------------------------------
  // convertValue and what AddAttr / AddAttrs append
  // ---------------------------------------------------------------------------

  /** convertValue: one OpenTelemetry value per slog value; groups become maps. */
  function ConvertValue(v: Value): (r: LogValue)
    ensures v.VUint64? && v.u <= MaxInt64 ==> r == LInt64(v.u)
    ensures v.VUint64? && v.u > MaxInt64 ==> r.LFloat64?
    ensures v.VGroup? ==> r == LMap(AttrsEntries(v.members))
    decreases v, 1
  {
    match v
    case VAny(p) => LString(if p.None? then "<nil>" else p.value)
    case VBool(b) => LBool(b)
    case VDuration(n) => LInt64(n)
    case VFloat64(f) => LFloat64(f)
    case VInt64(i) => LInt64(i)
    case VString(s) => LString(s)
    case VTime(t) => LInt64(t)
    case VUint64(u) => if u > MaxInt64 then LFloat64(u as real) else LInt64(u)
    case VGroup(g) => LMap(AttrsEntries(g))
    case VLogValuer(resolved) => ConvertValue(resolved)
  }

  /** The members of a group with an empty key, each converted but not flattened further. */
  function MemberEntries(members: seq<Attr>): (r: seq<KeyValue>)
    ensures |r| == |members|
    ensures forall i :: 0 <= i < |r| ==> r[i].key == members[i].key
    decreases members, 0
  {
    if |members| == 0 then []
    else [KeyValue(members[0].key, ConvertValue(members[0].value))] + MemberEntries(members[1..])
  }

  /** What AddAttr appends for one attribute. */
  function AttrEntries(a: Attr): seq<KeyValue>
    decreases a, 2
  {
    if a.key == "" && a.value.VGroup? then MemberEntries(a.value.members)
    else if a.key == "" && a.value == VAny(None) then []
    else [KeyValue(a.key, ConvertValue(a.value))]
  }

  /** What AddAttrs appends for a list of attributes: each one's entries, in order. */
  function AttrsEntries(attrs: seq<Attr>): seq<KeyValue>
    decreases attrs, 3
  {
    if |attrs| == 0 then [] else AttrEntries(attrs[0]) + AttrsEntries(attrs[1..])
  }

  /**
   * AddAttr's three cases: an empty-keyed group is inlined member by member, the
   * empty attribute is dropped, and anything else appends exactly one entry.
   */
  lemma AttrEntriesCases(a: Attr)
    ensures a.key == "" && a.value.VGroup? ==>
      |AttrEntries(a)| == |a.value.members| &&
      forall i :: 0 <= i < |a.value.members| ==> AttrEntries(a)[i].key == a.value.members[i].key
    ensures a == EmptyAttr ==> AttrEntries(a) == []
    ensures a.key != "" ==> AttrEntries(a) == [KeyValue(a.key, ConvertValue(a.value))]
  {
  }

  /** AddAttrs of a concatenation appends the two parts' entries one after the other. */
  lemma {:induction false} AttrsEntriesAppend(xs: seq<Attr>, ys: seq<Attr>)
    ensures AttrsEntries(xs + ys) == AttrsEntries(xs) + AttrsEntries(ys)
    decreases |xs|
  {
    if |xs| == 0 {
      assert xs + ys == ys;
    } else {
      assert (xs + ys)[1..] == xs[1..] + ys;
      AttrsEntriesAppend(xs[1..], ys);
    }
  }

  /** Attributes with non-empty keys map one to one onto entries with the same keys. */
  lemma {:induction false} AttrsEntriesKeyed(attrs: seq<Attr>)
    requires forall i :: 0 <= i < |attrs| ==> attrs[i].key != ""
    ensures |AttrsEntries(attrs)| == |attrs|
    ensures forall i :: 0 <= i < |attrs| ==> AttrsEntries(attrs)[i] == KeyValue(attrs[i].key, ConvertValue(attrs[i].value))
    decreases |attrs|
  {
    if |attrs| > 0 {
      AttrsEntriesKeyed(attrs[1..]);
    }
  }

  // ---------------------------------------------------------------------------
  // kvBuffer
  // ---------------------------------------------------------------------------

  class KvBuffer {
    var data: seq<KeyValue>

    /** newKVBuffer: an empty buffer (the capacity hint has no observable effect). */
    constructor ()
      ensures data == []
    {
      data := [];
    }

    /** AddAttr: append this attribute's entries; it always reports true. */
    method AddAttr(attr: Attr) returns (ok: bool)
      modifies this
      ensures ok && data == old(data) + AttrEntries(attr)
    {
      if attr.key == "" {
        if attr.value.VGroup? {
          var members := attr.value.members;
          for i := 0 to |members|
            invariant data == old(data) + MemberEntries(members[..i])
          {
            MemberEntriesSnoc(members, i);
            data := data + [KeyValue(members[i].key, ConvertValue(members[i].value))];
          }
          assert members[..|members|] == members;
          return true;
        }
        if attr.value == VAny(None) {
          return true;
        }
      }
      data := data + [KeyValue(attr.key, ConvertValue(attr.value))];
      return true;
    }

    /** AddAttrs: AddAttr for each attribute in order. */
    method AddAttrs(attrs: seq<Attr>)
      modifies this
      ensures data == old(data) + AttrsEntries(attrs)
    {
      for i := 0 to |attrs|
        invariant data == old(data) + AttrsEntries(attrs[..i])
      {
        AttrsEntriesAppend(attrs[..i], [attrs[i]]);
        assert attrs[..i + 1] == attrs[..i] + [attrs[i]];
        assert AttrsEntries([attrs[i]]) == AttrEntries(attrs[i]) by {
          assert [attrs[i]][1..] == [];
        }
        var _ := AddAttr(attrs[i]);
      }
      assert attrs[..|attrs|] == attrs;
    }

    /** Clone of a non-nil buffer: a fresh buffer with a copy of the data. */
    method Clone() returns (c: KvBuffer)
      ensures fresh(c) && c.data == data
    {
      c := new KvBuffer();
      c.data := data;
    }
  }

  lemma MemberEntriesSnoc(members: seq<Attr>, i: nat)
    requires i < |members|
    ensures MemberEntries(members[..i + 1]) ==
            MemberEntries(members[..i]) + [KeyValue(members[i].key, ConvertValue(members[i].value))]
  {
    MemberEntriesAppend(members[..i], [members[i]]);
    assert members[..i + 1] == members[..i] + [members[i]];
  }

  lemma {:induction false} MemberEntriesAppend(xs: seq<Attr>, ys: seq<Attr>)
    ensures MemberEntries(xs + ys) == MemberEntries(xs) + MemberEntries(ys)
    decreases |xs|
  {
    if |xs| == 0 {
      assert xs + ys == ys;
    } else {
      assert (xs + ys)[1..] == xs[1..] + ys;
      MemberEntriesAppend(xs[1..], ys);
    }
  }

  /** Len: a nil buffer holds nothing. */
  function Len(b: KvBuffer?): (n: nat)
    reads b
    ensures b == null ==> n == 0
    ensures b != null ==> n == |b.data|
  {
    if b == null then 0 else |b.data|
  }

  /** KeyValues: the buffer's entries followed by kvs; a nil buffer gives kvs back. */
  function KeyValues(b: KvBuffer?, kvs: seq<KeyValue>): (r: seq<KeyValue>)
    reads b
    ensures |r| == Len(b) + |kvs|
    ensures r[Len(b)..] == kvs
    ensures b != null ==> r[..Len(b)] == b.data
  {
    if b == null then kvs else b.data + kvs
  }

  /** kvBuffer.Clone with Go's nil receiver: nil stays nil. */
  method CloneBuffer(b: KvBuffer?) returns (c: KvBuffer?)
    ensures b == null ==> c == null
    ensures b != null ==> c != null && fresh(c) && c.data == b.data
  {
    if b == null {
      return null;
    }
    c := b.Clone();
  }

  // ---------------------------------------------------------------------------
  // The group chain
  // ---------------------------------------------------------------------------

  /** One open group: its name and the attributes recorded while it was the leaf. */
  datatype GroupNode = GroupNode(name: string, attrs: seq<KeyValue>)

  /** NextNonEmpty: the index of the first group, from the leaf outwards, that has attributes. */
  function NextNonEmpty(chain: seq<GroupNode>): (r: Option<nat>)
    ensures r.Some? ==>
      (r.value < |chain| && |chain[r.value].attrs| > 0 &&
       forall k :: 0 <= k < r.value ==> chain[k].attrs == [])
    ensures r.None? <==> forall k :: 0 <= k < |chain| ==> chain[k].attrs == []
  {
    if |chain| == 0 then None
    else if |chain[0].attrs| > 0 then Some(0)
    else
      match NextNonEmpty(chain[1..])
      case None => None
      case Some(i) => Some(i + 1)
  }

  /** The outer groups wrapped around `out`: each one with attributes adds a map level. */
  function Wrap(out: KeyValue, outer: seq<GroupNode>): KeyValue
    decreases |outer|
  {
    if |outer| == 0 then out
    else
      var next := if |outer[0].attrs| > 0 then KeyValue(outer[0].name, LMap(outer[0].attrs + [out])) else out;
      Wrap(next, outer[1..])
  }

  /** The group's value, built inside-out from the leaf. */
  function GroupKeyValue(chain: seq<GroupNode>, kvs: seq<KeyValue>): KeyValue
    requires |chain| > 0
  {
    Wrap(KeyValue(chain[0].name, LMap(chain[0].attrs + kvs)), chain[1..])
  }

  /** group.KeyValue: the loop that walks outwards with a reassigned pointer. */
  method KeyValueOf(chain: seq<GroupNode>, kvs: seq<KeyValue>) returns (out: KeyValue)
    requires |chain| > 0
    ensures out == GroupKeyValue(chain, kvs)
  {
    out := KeyValue(chain[0].name, LMap(chain[0].attrs + kvs));
    var i := 1;
    while i < |chain|
      invariant 1 <= i <= |chain|
      invariant Wrap(out, chain[i..]) == GroupKeyValue(chain, kvs)
    {
      assert chain[i..][1..] == chain[i + 1..];
      if |chain[i].attrs| > 0 {
        out := KeyValue(chain[i].name, LMap(chain[i].attrs + [out]));
      }
      i := i + 1;
    }
  }

  function CountNonEmpty(groups: seq<GroupNode>): nat
  {
    if |groups| == 0 then 0 else (if |groups[0].attrs| > 0 then 1 else 0) + CountNonEmpty(groups[1..])
  }

  /** Follow the last entry of a map value n times: where the next inner group sits. */
  function Inner(kv: KeyValue, n: nat): Option<KeyValue>
  {
    if n == 0 then Some(kv)
    else if kv.value.LMap? && |kv.value.kvs| > 0 then Inner(kv.value.kvs[|kv.value.kvs| - 1], n - 1)
    else None
  }

  lemma {:induction false} InnerStep(kv: KeyValue, n: nat, g: GroupNode)
    requires |g.attrs| > 0
    ensures Inner(KeyValue(g.name, LMap(g.attrs + [kv])), n + 1) == Inner(kv, n)
  {
    var m := g.attrs + [kv];
    assert m[|m| - 1] == kv;
  }

  /**
   * Each outer group with attributes adds exactly one map level, and the value it
   * wraps is always its last entry.
   */
  lemma {:induction false} WrapNesting(out: KeyValue, outer: seq<GroupNode>)
    ensures Inner(Wrap(out, outer), CountNonEmpty(outer)) == Some(out)
    decreases |outer|
  {
    if |outer| > 0 {
      var g := outer[0];
      if |g.attrs| > 0 {
        var next := KeyValue(g.name, LMap(g.attrs + [out]));
        WrapNesting(next, outer[1..]);
        InnerStep(out, 0, g);
        InnerAdd(Wrap(next, outer[1..]), CountNonEmpty(outer[1..]), 1);
      } else {
        WrapNesting(out, outer[1..]);
      }
    }
  }

  /** Descending a + b levels is descending a levels and then b more. */
  lemma {:induction false} InnerAdd(kv: KeyValue, a: nat, b: nat)
    ensures Inner(kv, a + b) == match Inner(kv, a) case Some(x) => Inner(x, b) case None => None
    decreases a
  {
    if a > 0 && kv.value.LMap? && |kv.value.kvs| > 0 {
      InnerAdd(kv.value.kvs[|kv.value.kvs| - 1], a - 1, b);
    }
  }

  /**
   * group.KeyValue puts the leaf group, holding its own attributes followed by kvs,
   * at the innermost level, below one level per outer group with attributes.
   */
  lemma KeyValueLeafInnermost(chain: seq<GroupNode>, kvs: seq<KeyValue>)
    requires |chain| > 0
    ensures Inner(GroupKeyValue(chain, kvs), CountNonEmpty(chain[1..])) ==
      Some(KeyValue(chain[0].name, LMap(chain[0].attrs + kvs)))
  {
    WrapNesting(KeyValue(chain[0].name, LMap(chain[0].attrs + kvs)), chain[1..]);
  }

  /** Outer groups without attributes are not output at all. */
  lemma {:induction false} WrapSkipsEmpty(out: KeyValue, outer: seq<GroupNode>)
    requires forall k :: 0 <= k < |outer| ==> outer[k].attrs == []
    ensures Wrap(out, outer) == out
    decreases |outer|
  {
    if |outer| > 0 {
      WrapSkipsEmpty(out, outer[1..]);
    }
  }

  /** group.AddAttrs: the attributes' entries go to this group's own buffer. */
  function GroupAddAttrs(g: GroupNode, attrs: seq<Attr>): (r: GroupNode)
    ensures r.name == g.name
    ensures |r.attrs| >= |g.attrs| && r.attrs[..|g.attrs|] == g.attrs
  {
    g.(attrs := g.attrs + AttrsEntries(attrs))
  }

  /** log.Record as convertRecord fills it; the timestamp is a number. */
  datatype LogRecord = LogRecord(timestamp: nat, body: string, severity: int, attributes: seq<KeyValue>)

  /** slog.LevelDebug is -4 and OpenTelemetry's SeverityDebug is 5. */
  const SlogLevelDebug: int := -4
  const SeverityDebug: int := 5
  const SevOffset: int := SeverityDebug - SlogLevelDebug

  // ---------------------------------------------------------------------------
  // ContextHandler: WithAttrs and WithGroup
  // ---------------------------------------------------------------------------

  class ContextHandler {
    /** Attributes recorded while no group was open (nil until the first WithAttrs). */
    var attrs: KvBuffer?
    /** The open groups, leaf first. */
    var group: seq<GroupNode>

    constructor ()
      ensures attrs == null && group == []
    {
      attrs := null;
      group := [];
    }

    /**
     * WithAttrs: a copy of the handler whose leaf group (or, with no group open, whose
     * own buffer) gains the attributes. The receiver and its buffer stay as they were:
     * the copy's buffer is a fresh clone.
     */
    method WithAttrs(newAttrs: seq<Attr>) returns (h2: ContextHandler)
      ensures fresh(h2)
      ensures unchanged(this) && (attrs != null ==> unchanged(attrs))
      ensures group != [] ==>
        h2.attrs == attrs && h2.group == [GroupAddAttrs(group[0], newAttrs)] + group[1..]
      ensures group == [] ==>
        h2.group == [] && h2.attrs != null && fresh(h2.attrs) &&
        h2.attrs.data == (if attrs == null then [] else attrs.data) + AttrsEntries(newAttrs)
    {
      h2 := new ContextHandler();
      h2.attrs, h2.group := attrs, group;
      if h2.group != [] {
        h2.group := [GroupAddAttrs(h2.group[0], newAttrs)] + h2.group[1..];
      } else {
        var buf: KvBuffer;
        if h2.attrs == null {
          buf := new KvBuffer();
        } else {
          buf := h2.attrs.Clone();
        }
        buf.AddAttrs(newAttrs);
        h2.attrs := buf;
      }
    }

    /**
     * convertRecord: the OpenTelemetry record of a slog record with this
     * handler's state. The handler's own buffered attributes come first; then
     * the record's attributes, wrapped in the open groups when there are any.
     * With groups open and no record attributes, only the groups that hold
     * attributes are output, from the first such group outwards.
     */
    function ConvertRecord(time: nat, message: string, level: int, recAttrs: seq<Attr>): (r: LogRecord)
      reads this, attrs
      ensures r.timestamp == time && r.body == message && r.severity == level + SevOffset
      ensures Len(attrs) <= |r.attributes| && r.attributes[..Len(attrs)] == KeyValues(attrs, [])
      ensures group == [] ==> r.attributes[Len(attrs)..] == AttrsEntries(recAttrs)
      ensures group != [] && recAttrs != [] ==>
        r.attributes[Len(attrs)..] == [GroupKeyValue(group, AttrsEntries(recAttrs))]
      ensures group != [] && recAttrs == [] && NextNonEmpty(group).None? ==> r.attributes == KeyValues(attrs, [])
      ensures group != [] && recAttrs == [] && NextNonEmpty(group).Some? ==>
        r.attributes[Len(attrs)..] == [GroupKeyValue(group[NextNonEmpty(group).value..], [])]
    {
      var own := KeyValues(attrs, []);
      var rest :=
        if group == [] then AttrsEntries(recAttrs)
        else if recAttrs != [] then [GroupKeyValue(group, AttrsEntries(recAttrs))]
        else match NextNonEmpty(group)
          case None => []
          case Some(i) => [GroupKeyValue(group[i..], [])];
      LogRecord(time, message, level + SevOffset, own + rest)
    }

    /** WithGroup: a copy of the handler with a new, empty leaf group in front of the chain. */
    method WithGroup(name: string) returns (h2: ContextHandler)
      ensures fresh(h2) && unchanged(this)
      ensures h2.attrs == attrs && h2.group == [GroupNode(name, [])] + group
    {
      h2 := new ContextHandler();
      h2.attrs := attrs;
      h2.group := [GroupNode(name, [])] + group;
    }
  }

  /**
   * The severity offset maps slog's four levels onto OpenTelemetry's:
   * Debug (-4), Info (0), Warn (4) and Error (8) become SeverityDebug (5),
   * SeverityInfo (9), SeverityWarn (13) and SeverityError (17).
   */
  lemma SeverityLevels(h: ContextHandler, time: nat, message: string, recAttrs: seq<Attr>)
    ensures h.ConvertRecord(time, message, -4, recAttrs).severity == 5
    ensures h.ConvertRecord(time, message, 0, recAttrs).severity == 9
    ensures h.ConvertRecord(time, message, 4, recAttrs).severity == 13
    ensures h.ConvertRecord(time, message, 8, recAttrs).severity == 17
  {
  }

  /**
   * With groups open, the record's own attributes sit innermost in the one
   * entry the groups produce, below one map level per outer group with
   * attributes.
   */
  lemma RecordAttrsInnermost(h: ContextHandler, time: nat, message: string, level: int, recAttrs: seq<Attr>)
    requires h.group != [] && recAttrs != []
    ensures var r := h.ConvertRecord(time, message, level, recAttrs);
      |r.attributes| == Len(h.attrs) + 1 &&
      Inner(r.attributes[Len(h.attrs)], CountNonEmpty(h.group[1..])) ==
        Some(KeyValue(h.group[0].name, LMap(h.group[0].attrs + AttrsEntries(recAttrs))))
  {
    KeyValueLeafInnermost(h.group, AttrsEntries(recAttrs));
  }
}
