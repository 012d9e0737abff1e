/**
 * The slog handler backed by Encore's rlog (apps/sms-api/internal/logger/rlog.go):
 * the handler value, its level gate, WithAttrs / WithGroup, the key/value argument
 * list Handle builds, the group prefixing of keys and the routing by level.
 *
 * Go copies the handler struct (`h2 := *h`) in WithAttrs and WithGroup, so the
 * handler is a value here.
 */
module RlogHandler {
  import opened Wrappers
  import opened Slog

  /** slog.HandlerOptions as far as this handler reads it. */
  datatype HandlerOptions = HandlerOptions(addSource: bool, level: Option<int>)

  datatype Handler = Handler(opts: Option<HandlerOptions>, attrs: seq<Attr>, group: string)

  /** NewRlogHandler: nil options are replaced by empty (non-nil) ones. */
  function NewRlogHandler(opts: Option<HandlerOptions>): (h: Handler)
    ensures h.opts.Some? && h.attrs == [] && h.group == ""
    ensures opts.None? ==> h.opts == Some(HandlerOptions(false, None))
    ensures opts.Some? ==> h.opts == opts
  {
    Handler(if opts.None? then Some(HandlerOptions(false, None)) else opts, [], "")
  }

  /** Enabled: without a configured level everything passes; otherwise the level must reach it. */
  function Enabled(h: Handler, level: int): (b: bool)
  {
    if h.opts.Some? && h.opts.value.level.Some? then level >= h.opts.value.level.value else true
  }

  lemma EnabledGate(h: Handler, level: int)
    ensures (h.opts.None? || h.opts.value.level.None?) ==> Enabled(h, level)
    ensures h.opts.Some? && h.opts.value.level.Some? ==>
      (Enabled(h, level) <==> level >= h.opts.value.level.value)
  {
  }

  /** A level that passes the gate lets every higher level pass too. */
  lemma EnabledMonotone(h: Handler, l1: int, l2: int)
    requires l1 <= l2 && Enabled(h, l1)
    ensures Enabled(h, l2)
  {
  }

  /** A handler made from nil options logs at every level. */
  lemma NewHandlerEnablesAll(level: int)
    ensures Enabled(NewRlogHandler(None), level)
  {
  }

  /** WithAttrs: a copy whose persistent attributes are the old ones followed by the new. */
  function WithAttrs(h: Handler, attrs: seq<Attr>): (h2: Handler)
    ensures h2.opts == h.opts && h2.group == h.group
    ensures |h2.attrs| == |h.attrs| + |attrs|
    ensures h2.attrs[..|h.attrs|] == h.attrs && h2.attrs[|h.attrs|..] == attrs
  {
    h.(attrs := h.attrs + attrs)
  }

  /** WithGroup: a copy whose group path gains the name, dot-separated after any existing path. */
  function WithGroup(h: Handler, name: string): (h2: Handler)
    ensures h2.opts == h.opts && h2.attrs == h.attrs
    ensures h.group == "" ==> h2.group == name
    ensures h.group != "" ==> h2.group == h.group + "." + name
  {
    h.(group := if h.group != "" then h.group + "." + name else name)
  }

  /** Two WithAttrs calls are one call with the concatenation. */
  lemma WithAttrsCompose(h: Handler, xs: seq<Attr>, ys: seq<Attr>)
    ensures WithAttrs(WithAttrs(h, xs), ys) == WithAttrs(h, xs + ys)
  {
    assert h.attrs + xs + ys == h.attrs + (xs + ys);
  }

  /** Two nested groups on a fresh handler give the path "outer.inner". */
  lemma WithGroupNests(opts: Option<HandlerOptions>, outer: string, inner: string)
    requires outer != ""
    ensures WithGroup(WithGroup(NewRlogHandler(opts), outer), inner).group == outer + "." + inner
  {
  }

  // ---------------------------------------------------------------------------
  // resolveValue
  // ---------------------------------------------------------------------------

  /** What resolveValue hands to rlog for each kind; a group becomes a map. */
  datatype Resolved =
    | RString(s: string)
    | RBool(b: bool)
    | RInt64(i: int)
    | RUint64(u: nat)
    | RFloat64(f: real)
    | RDuration(nanos: int)
    | RTime(unixNanos: int)
    | RMap(m: map<string, Resolved>)
    | RAny(printed: Option<string>)

  /** resolveValue: log valuers are resolved first; every other kind is unwrapped. */
  function ResolveValue(v: Value): (r: Resolved)
    ensures v.VGroup? ==> r == RMap(GroupMap(v.members))
    ensures !v.VGroup? && !v.VLogValuer? ==> !r.RMap?
    decreases v, 1
  {
    match v
    case VLogValuer(resolved) => ResolveValue(resolved)
    case VString(s) => RString(s)
    case VBool(b) => RBool(b)
    case VInt64(i) => RInt64(i)
    case VUint64(u) => RUint64(u)
    case VFloat64(f) => RFloat64(f)
    case VDuration(n) => RDuration(n)
    case VTime(t) => RTime(t)
    case VGroup(g) => RMap(GroupMap(g))
    case VAny(p) => RAny(p)
  }

  /** The map a group's members build in order: a later member overwrites an earlier same key. */
  function GroupMap(members: seq<Attr>): map<string, Resolved>
    decreases members, 0
  {
    if |members| == 0 then map[]
    else
      var last := members[|members| - 1];
      GroupMap(members[..|members| - 1])[last.key := ResolveValue(last.value)]
  }

  /** The keys of a list with one more member are the keys before and that member's. */
  lemma KeysSnoc(init: seq<Attr>, last: Attr)
    ensures (set a | a in init + [last] :: a.key) == (set a | a in init :: a.key) + {last.key}
  {
    var all := init + [last];
    var after, before := set a | a in all :: a.key, set a | a in init :: a.key;
    forall k | k in after
      ensures k in before + {last.key}
    {
      var a :| a in all && a.key == k;
      if a != last {
        assert a in init;
      }
    }
    assert last in all;
    forall k | k in before
      ensures k in after
    {
      var a :| a in init && a.key == k;
      assert a in all;
    }
  }

  /** The group map has exactly one key per distinct member key. */
  lemma {:induction false} GroupMapKeys(members: seq<Attr>)
    ensures GroupMap(members).Keys == set a | a in members :: a.key
  {
    if |members| > 0 {
      var init := members[..|members| - 1];
      var last := members[|members| - 1];
      GroupMapKeys(init);
      assert members == init + [last];
      KeysSnoc(init, last);
    }
  }

  /** Each key maps to the resolved value of the last member carrying it. */
  lemma {:induction false} GroupMapLastWins(members: seq<Attr>, i: nat)
    requires i < |members|
    requires forall j :: i < j < |members| ==> members[j].key != members[i].key
    ensures members[i].key in GroupMap(members)
    ensures GroupMap(members)[members[i].key] == ResolveValue(members[i].value)
    decreases |members|
  {
    if i < |members| - 1 {
      GroupMapLastWins(members[..|members| - 1], i);
    }
  }

  // ---------------------------------------------------------------------------
  // Handle: building the argument list
  // ---------------------------------------------------------------------------

  /** One element of the `[]any` argument list handed to rlog. */
  datatype Arg = Str(s: string) | Int(i: int) | Val(r: Resolved)

  /** Every even position (a key position) holds a string, which the prefix loop's type assertion needs. */
  ghost predicate Keyed(args: seq<Arg>)
  {
    |args| % 2 == 0 && forall i :: 0 <= i < |args| && i % 2 == 0 ==> args[i].Str?
  }

  /** The Encore request the handler inspects for trace information. */
  datatype TraceIds = TraceIds(traceId: string, spanId: string)
  datatype Request = Request(isApiCall: bool, trace: Option<TraceIds>, service: string, endpoint: string)

  /** runtime.FuncForPC's answer for the record's program counter. */
  datatype Frame = Frame(file: string, funcName: string, line: int)

  datatype Record = Record(level: int, message: string, attrs: seq<Attr>, pc: nat)

  /** A pair appended only when the value is non-empty. */
  function OptionalPair(key: string, value: string): (r: seq<Arg>)
    ensures value == "" <==> r == []
    ensures value != "" ==> r == [Str(key), Str(value)]
  {
    if value != "" then [Str(key), Str(value)] else []
  }

  /** The trace fields: only for an API call with a trace, and only the non-empty ones. */
  function TraceArgs(req: Request): (r: seq<Arg>)
    ensures |r| % 2 == 0 && |r| <= 8
    ensures !req.isApiCall || req.trace.None? ==> r == []
  {
    if req.isApiCall && req.trace.Some? then
      OptionalPair("trace_id", req.trace.value.traceId) + OptionalPair("span_id", req.trace.value.spanId)
      + OptionalPair("service", req.service) + OptionalPair("endpoint", req.endpoint)
    else []
  }

  /** An optional pair is keyed. */
  lemma PairKeyed(key: string, value: string)
    ensures Keyed(OptionalPair(key, value))
  {
  }

  /** The trace fields come as key and value pairs. */
  lemma TraceArgsKeyed(req: Request)
    ensures Keyed(TraceArgs(req))
  {
    if req.isApiCall && req.trace.Some? {
      var traceId, spanId := OptionalPair("trace_id", req.trace.value.traceId), OptionalPair("span_id", req.trace.value.spanId);
      var service, endpoint := OptionalPair("service", req.service), OptionalPair("endpoint", req.endpoint);
      PairKeyed("trace_id", req.trace.value.traceId);
      PairKeyed("span_id", req.trace.value.spanId);
      PairKeyed("service", req.service);
      PairKeyed("endpoint", req.endpoint);
      KeyedAppend(traceId, spanId);
      KeyedAppend(traceId + spanId, service);
      KeyedAppend(traceId + spanId + service, endpoint);
    }
  }

  /** Each attribute as a key position followed by its resolved value. */
  function AttrArgs(attrs: seq<Attr>): (r: seq<Arg>)
    ensures |r| == 2 * |attrs|
  {
    if |attrs| == 0 then []
    else [Str(attrs[0].key), Val(ResolveValue(attrs[0].value))] + AttrArgs(attrs[1..])
  }

  /** Attribute i sits at positions 2i (its key) and 2i + 1 (its resolved value). */
  lemma {:induction false} AttrArgsAt(attrs: seq<Attr>, i: nat)
    requires i < |attrs|
    ensures AttrArgs(attrs)[2 * i] == Str(attrs[i].key)
    ensures AttrArgs(attrs)[2 * i + 1] == Val(ResolveValue(attrs[i].value))
    decreases i
  {
    if i > 0 {
      AttrArgsAt(attrs[1..], i - 1);
    }
  }

  lemma AttrArgsKeyed(attrs: seq<Attr>)
    ensures Keyed(AttrArgs(attrs))
  {
    var r := AttrArgs(attrs);
    forall i | 0 <= i < |r| && i % 2 == 0
      ensures r[i].Str?
    {
      var k := i / 2;
      assert 2 * k == i;
      AttrArgsAt(attrs, k);
    }
  }

  lemma {:induction false} AttrArgsAppend(xs: seq<Attr>, ys: seq<Attr>)
    ensures AttrArgs(xs + ys) == AttrArgs(xs) + AttrArgs(ys)
    decreases |xs|
  {
    if |xs| > 0 {
      assert (xs + ys)[1..] == xs[1..] + ys;
      AttrArgsAppend(xs[1..], ys);
    } else {
      assert xs + ys == ys;
    }
  }

  lemma AttrArgsSnoc(attrs: seq<Attr>, i: nat)
    requires i < |attrs|
    ensures AttrArgs(attrs[..i + 1]) == AttrArgs(attrs[..i]) + [Str(attrs[i].key), Val(ResolveValue(attrs[i].value))]
  {
    assert attrs[..i + 1] == attrs[..i] + [attrs[i]];
    AttrArgsAppend(attrs[..i], [attrs[i]]);
    assert [attrs[i]][1..] == [];
  }

  /** The source triple, only when AddSource is on and the record has a program counter. */
  function SourceArgs(opts: Option<HandlerOptions>, pc: nat, frame: Frame): (r: seq<Arg>)
    ensures Keyed(r)
    ensures r != [] <==> opts.Some? && opts.value.addSource && pc != 0
  {
    if opts.Some? && opts.value.addSource && pc != 0 then
      [Str("source"), Str(frame.file), Str("line"), Int(frame.line), Str("func"), Str(frame.funcName)]
    else []
  }

  lemma EvenDifference(i: int, n: int)
    requires i % 2 == 0 && n % 2 == 0
    ensures (i - n) % 2 == 0
  {
  }

  lemma KeyedAppend(a: seq<Arg>, b: seq<Arg>)
    requires Keyed(a) && Keyed(b)
    ensures Keyed(a + b)
  {
    forall i | 0 <= i < |a + b| && i % 2 == 0
      ensures (a + b)[i].Str?
    {
      if i >= |a| {
        EvenDifference(i, |a|);
        assert (a + b)[i] == b[i - |a|];
      }
    }
  }

  /** The argument list before group prefixing: trace, persistent attributes, record attributes, source. */
  function BaseArgs(h: Handler, req: Request, r: Record, frame: Frame): (args: seq<Arg>)
    ensures |args| == |TraceArgs(req)| + 2 * |h.attrs| + 2 * |r.attrs| + |SourceArgs(h.opts, r.pc, frame)|
  {
    TraceArgs(req) + AttrArgs(h.attrs) + AttrArgs(r.attrs) + SourceArgs(h.opts, r.pc, frame)
  }

  /** Every part of the argument list is keyed, and so is the whole. */
  lemma BaseArgsKeyed(h: Handler, req: Request, r: Record, frame: Frame)
    ensures Keyed(BaseArgs(h, req, r, frame))
  {
    TraceArgsKeyed(req);
    AttrArgsKeyed(h.attrs);
    AttrArgsKeyed(r.attrs);
    KeyedAppend(TraceArgs(req), AttrArgs(h.attrs));
    KeyedAppend(TraceArgs(req) + AttrArgs(h.attrs), AttrArgs(r.attrs));
    KeyedAppend(TraceArgs(req) + AttrArgs(h.attrs) + AttrArgs(r.attrs), SourceArgs(h.opts, r.pc, frame));
  }


  /**
   * The group-prefix loop: each key position becomes "group.key"; value positions are
   * untouched.
   */
  method PrefixKeys(args: seq<Arg>, group: string) returns (out: seq<Arg>)
    requires Keyed(args)
    ensures |out| == |args|
    ensures forall i :: 0 <= i < |args| && i % 2 == 0 ==> out[i] == Str(group + "." + args[i].s)
    ensures forall i :: 0 <= i < |args| && i % 2 == 1 ==> out[i] == args[i]
  {
    out := args;
    var i := 0;
    while i < |out|
      invariant 0 <= i <= |args| + 1 && i % 2 == 0
      invariant |out| == |args|
      invariant forall k :: 0 <= k < i && k < |args| && k % 2 == 0 ==> out[k] == Str(group + "." + args[k].s)
      invariant forall k :: i <= k < |args| ==> out[k] == args[k]
      invariant forall k :: 0 <= k < |args| && k % 2 == 1 ==> out[k] == args[k]
    {
      out := out[i := Str(group + "." + out[i].s)];
      i := i + 2;
    }
  }

  /** Where rlog.Handle sends a record. */
  datatype Sink = Debug | Info | Warn | Error

  function Rank(s: Sink): nat
  {
    match s
    case Debug => 0
    case Info => 1
    case Warn => 2
    case Error => 3
  }

  /** The routing switch: the first threshold the level reaches, checked from Error down. */
  function Route(level: int): (s: Sink)
    ensures s == Error <==> level >= LevelError
    ensures s == Warn <==> LevelWarn <= level < LevelError
    ensures s == Info <==> LevelInfo <= level < LevelWarn
    ensures s == Debug <==> level < LevelInfo
  {
    if level >= LevelError then Error
    else if level >= LevelWarn then Warn
    else if level >= LevelInfo then Info
    else Debug
  }

  /** A more severe record never goes to a less severe sink. */
  lemma RouteMonotone(l1: int, l2: int)
    requires l1 <= l2
    ensures Rank(Route(l1)) <= Rank(Route(l2))
  {
  }

  datatype Emission = Emission(sink: Sink, message: string, args: seq<Arg>)

  /**
   * The arguments rlog receives: with a group path, each key position becomes
   * "group.key"; value positions are never touched.
   */
  function Grouped(group: string, args: seq<Arg>): seq<Arg>
  {
    if group == "" then args
    else
      seq(|args|, i requires 0 <= i < |args| =>
        if i % 2 == 0 && args[i].Str? then Str(group + "." + args[i].s) else args[i])
  }

  /** One range loop of Handle: a key and a resolved value appended per attribute. */
  method AppendAttrs(args: seq<Arg>, attrs: seq<Attr>) returns (out: seq<Arg>)
    ensures out == args + AttrArgs(attrs)
  {
    out := args;
    for i := 0 to |attrs|
      invariant out == args + AttrArgs(attrs[..i])
    {
      AttrArgsSnoc(attrs, i);
      out := out + [Str(attrs[i].key), Val(ResolveValue(attrs[i].value))];
    }
    assert attrs[..|attrs|] == attrs;
  }

  /** Building the argument list: trace fields, persistent attributes, record attributes, source. */
  method BuildArgs(h: Handler, req: Request, r: Record, frame: Frame) returns (args: seq<Arg>)
    ensures args == BaseArgs(h, req, r, frame)
  {
    args := TraceArgs(req);
    args := AppendAttrs(args, h.attrs);
    args := AppendAttrs(args, r.attrs);
    if h.opts.Some? && h.opts.value.addSource && r.pc != 0 {
      args := args + [Str("source"), Str(frame.file), Str("line"), Int(frame.line), Str("func"), Str(frame.funcName)];
    }
  }

  /**
   * Handle: build the arguments, prefix the keys with the group path when there is
   * one, and route by level. The request and the stack frame are inputs.
   */
  method Handle(h: Handler, req: Request, r: Record, frame: Frame) returns (e: Emission)
    ensures e.sink == Route(r.level) && e.message == r.message
    ensures e.args == Grouped(h.group, BaseArgs(h, req, r, frame))
  {
    var args := BuildArgs(h, req, r, frame);
    BaseArgsKeyed(h, req, r, frame);
    if h.group != "" {
      var base := args;
      args := PrefixKeys(base, h.group);
      assert args == Grouped(h.group, base);
    }
    e := Emission(Route(r.level), r.message, args);
  }

  /** Prefixing keeps strings at every key position. */
  lemma GroupedKeyed(group: string, args: seq<Arg>)
    requires Keyed(args)
    ensures Keyed(Grouped(group, args))
  {
  }

  /** Where attribute `j` of the record lands in the arguments: after the trace fields and the handler's attributes. */
  function RecordAttrAt(h: Handler, req: Request, j: nat): nat
  {
    |TraceArgs(req)| + 2 * |h.attrs| + 2 * j
  }

  /** Attribute `j` of a list placed after `prefix` sits at `|prefix| + 2j` and the position after it. */
  lemma AttrArgsAtOffset(prefix: seq<Arg>, attrs: seq<Attr>, rest: seq<Arg>, j: nat)
    requires j < |attrs|
    ensures |prefix| + 2 * j + 1 < |prefix + AttrArgs(attrs) + rest|
    ensures (prefix + AttrArgs(attrs) + rest)[|prefix| + 2 * j] == Str(attrs[j].key)
    ensures (prefix + AttrArgs(attrs) + rest)[|prefix| + 2 * j + 1] == Val(ResolveValue(attrs[j].value))
  {
    AttrArgsAt(attrs, j);
  }

  /** An even start moved by whole pairs stays even. */
  lemma EvenOffset(start: nat, pairs: nat, j: nat)
    requires start % 2 == 0
    ensures (start + 2 * pairs + 2 * j) % 2 == 0
  {
  }

  /** The record's attributes start at an even position: a key position. */
  lemma RecordAttrAtEven(h: Handler, req: Request, j: nat)
    ensures RecordAttrAt(h, req, j) % 2 == 0
  {
    EvenOffset(|TraceArgs(req)|, |h.attrs|, j);
  }

  /** Before prefixing, the record's attribute `j` is its key and resolved value. */
  lemma BaseRecordAttr(h: Handler, req: Request, r: Record, frame: Frame, j: nat)
    requires j < |r.attrs|
    ensures RecordAttrAt(h, req, j) + 1 < |BaseArgs(h, req, r, frame)|
    ensures BaseArgs(h, req, r, frame)[RecordAttrAt(h, req, j)] == Str(r.attrs[j].key)
    ensures BaseArgs(h, req, r, frame)[RecordAttrAt(h, req, j) + 1] == Val(ResolveValue(r.attrs[j].value))
  {
    var t := TraceArgs(req);
    var prefix := t + AttrArgs(h.attrs);
    assert BaseArgs(h, req, r, frame) == prefix + AttrArgs(r.attrs) + SourceArgs(h.opts, r.pc, frame);
    AttrArgsAtOffset(prefix, r.attrs, SourceArgs(h.opts, r.pc, frame), j);
  }

  /** With a group, the key of a pair is prefixed and its value is left alone. */
  lemma GroupedPair(group: string, args: seq<Arg>, i: nat)
    requires group != "" && i % 2 == 0 && i + 1 < |args| && args[i].Str?
    ensures |Grouped(group, args)| == |args|
    ensures Grouped(group, args)[i] == Str(group + "." + args[i].s)
    ensures Grouped(group, args)[i + 1] == args[i + 1]
  {
    assert (i + 1) % 2 == 1;
  }

  /**
   * With a group set, each of the record's own attributes arrives at rlog as
   * "group.key" followed by its resolved value.
   */
  lemma RecordKeysGrouped(h: Handler, req: Request, r: Record, frame: Frame, j: nat)
    requires h.group != "" && j < |r.attrs|
    ensures RecordAttrAt(h, req, j) + 1 < |Grouped(h.group, BaseArgs(h, req, r, frame))|
    ensures Grouped(h.group, BaseArgs(h, req, r, frame))[RecordAttrAt(h, req, j)] == Str(h.group + "." + r.attrs[j].key)
    ensures Grouped(h.group, BaseArgs(h, req, r, frame))[RecordAttrAt(h, req, j) + 1] == Val(ResolveValue(r.attrs[j].value))
  {
    var base := BaseArgs(h, req, r, frame);
    var at := RecordAttrAt(h, req, j);
    BaseRecordAttr(h, req, r, frame, j);
    RecordAttrAtEven(h, req, j);
    GroupedPair(h.group, base, at);
  }
}
