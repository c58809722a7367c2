/** Merging partial traces: each span of a payload is projected onto the fields the canonicalizer reads, then
    stored under the rule of TraceStore. */
module TraceProjection {
  import opened Prelude
  import opened Json
  import opened Numerals
  import opened TraceStore

  const ERROR := "error"
  const HTTP := "http.status_code"
  const KIND := "span.kind"
  const STATUS := "status.code"
  const MODERN := "http.response.status_code"
  const OTEL := "otel.status_code"

  predicate Relevant(key: string) {
    key == KIND || key == ERROR || key == STATUS || key == HTTP || key == MODERN || key == OTEL
  }

  /** The fixed names are pairwise different. */
  lemma TagNames()
    ensures ERROR != HTTP && ERROR != KIND && ERROR != STATUS && ERROR != MODERN && ERROR != OTEL
    ensures HTTP != KIND && HTTP != STATUS && HTTP != MODERN && HTTP != OTEL
    ensures KIND != STATUS && KIND != MODERN && KIND != OTEL
    ensures STATUS != MODERN && STATUS != OTEL && MODERN != OTEL
  {
    assert |ERROR| == 5 && |HTTP| == 16 && |KIND| == 9 && |STATUS| == 11 && |MODERN| == 25 && |OTEL| == 16;
    assert HTTP[0] != OTEL[0];
  }

  type Tags = map<string, Json>

  /** The value a relevant tag contributes; a typed string error only marks presence. */
  function TagValue(key: string, tag: map<string, Json>): Result<Json, Code> {
    var value := Get(tag, "value", Null);
    if key == ERROR && !value.Bool? then
      if Get(tag, "type", Null) == Str("string") && value.Str? then Ok(Bool(true)) else Err("TRACE_ERROR_TYPE_INVALID")
    else if key == KIND && (!value.Str? || |value.s| > 64) then Err("TRACE_KIND_INVALID")
    else Ok(value)
  }

  function TagStep(tags: Tags, tag: Json): Result<Tags, Code> {
    if !tag.Obj? then Err("TRACE_SPAN_METADATA_INVALID")
    else
      var key := Get(tag.fields, "key", Null);
      if Unhashable(key) then Err("TypeError")
      else if !key.Str? || !Relevant(key.s) then Ok(tags)
      else
        match TagValue(key.s, tag.fields)
        case Err(code) => Err(code)
        case Ok(value) =>
          if key.s in tags && !PyEq(tags[key.s], value) then Err("TRACE_ATTRIBUTE_CONFLICT")
          else Ok(tags[key.s := value])
  }

  function ReadTags(tags: seq<Json>): Result<Tags, Code> {
    if tags == [] then Ok(map[])
    else
      match ReadTags(tags[..|tags| - 1])
      case Err(code) => Err(code)
      case Ok(before) => TagStep(before, tags[|tags| - 1])
  }

  /** An HTTP status written as a non-negative integer or as decimal digits. */
  function StatusNumber(j: Json): Option<nat> {
    match j
    case Int(i) => if i >= 0 then Some(i) else None
    case Str(s) => if Numeral(s) then Some(Value(s)) else None
    case _ => None
  }

  /** The stable HTTP name is folded into the legacy one. */
  function FoldHttp(tags: Tags): Result<Tags, Code> {
    if MODERN !in tags then Ok(tags)
    else
      var modern := StatusNumber(tags[MODERN]);
      if modern.None? || !(100 <= modern.value <= 599) then Err("TRACE_HTTP_STATUS_INVALID")
      else if HTTP in tags && StatusNumber(tags[HTTP]) != modern then Err("TRACE_HTTP_STATUS_CONFLICT")
      else Ok((tags - {MODERN})[HTTP := Int(modern.value)])
  }

  /** The OpenTelemetry status is folded into the error flag. */
  function FoldStatus(tags: Tags): Result<Tags, Code> {
    if OTEL !in tags then Ok(tags)
    else
      var status := tags[OTEL];
      if status != Str("UNSET") && status != Str("OK") && status != Str("ERROR") then Err("TRACE_STATUS_CODE_INVALID")
      else
        var flagged := ERROR in tags && tags[ERROR] == Bool(true);
        Ok((tags - {OTEL})[ERROR := Bool(flagged || status == Str("ERROR"))])
  }

  function Normalize(tags: Tags): Result<Tags, Code> {
    match FoldHttp(tags)
    case Err(code) => Err(code)
    case Ok(folded) => FoldStatus(folded)
  }

  /** Appends the parent a reference names, if it is a parent reference. */
  function ParentStep(trace: string, parents: seq<Json>, ref: Json): Result<seq<Json>, Code> {
    if !ref.Obj? then Err("TRACE_REFERENCE_INVALID")
    else if Get(ref.fields, "refType", Null) != Str("CHILD_OF") then Ok(parents)
    else if Get(ref.fields, "traceID", Str(trace)) != Str(trace) then Err("TRACE_CROSS_TRACE_PARENT")
    else Ok(parents + [Get(ref.fields, "spanID", Null)])
  }

  function ReadParents(trace: string, refs: seq<Json>): Result<seq<Json>, Code> {
    if refs == [] then Ok([])
    else
      match ReadParents(trace, refs[..|refs| - 1])
      case Err(code) => Err(code)
      case Ok(before) => ParentStep(trace, before, refs[|refs| - 1])
  }

  /** At most one distinct parent, and only text. */
  function OneParent(parents: seq<Json>): Result<Option<string>, Code> {
    if parents == [] then Ok(None)
    else if forall p :: p in parents ==> p.Str? && p == parents[0] then Ok(Some(parents[0].s))
    else Err("TRACE_MULTIPLE_PARENTS")
  }

  function Service(processes: map<string, Json>, processId: Json): Result<string, Code> {
    if Unhashable(processId) then Err("TypeError")
    else if !processId.Str? || processId.s !in processes then Err("TRACE_SERVICE_IDENTITY_MISSING")
    else
      var process := processes[processId.s];
      if !process.Obj? then Err("TRACE_SERVICE_IDENTITY_MISSING")
      else
        var name := Get(process.fields, "serviceName", Null);
        if name.Str? && name.s != "" then Ok(name.s) else Err("TRACE_SERVICE_IDENTITY_MISSING")
  }

  predicate NonNegative(j: Json) {
    j.Int? && j.i >= 0
  }

  /** The two integer fields come last. */
  function Assemble(trace: string, span: map<string, Json>, service: string, tags: Tags, parent: Option<string>)
    : Result<CSpan, Code>
    requires Get(span, "spanID", Null).Str?
  {
    var start, duration := Get(span, "startTime", Null), Get(span, "duration", Null);
    if !NonNegative(start) || !NonNegative(duration) then Err("TRACE_INTEGER_INVALID")
    else Ok(CSpan(trace, Get(span, "spanID", Null).s, service, start.i, duration.i, tags, parent))
  }

  function Identified(trace: string, span: Json): bool {
    span.Obj? && Get(span.fields, "traceID", Null) == Str(trace) && Get(span.fields, "spanID", Null).Str?
  }

  /** The projection of one span of a payload, checks in the program's order. */
  function Project(trace: string, processes: map<string, Json>, span: Json): Result<CSpan, Code> {
    if !Identified(trace, span) then Err("TRACE_SPAN_IDENTITY_INVALID")
    else
      match Service(processes, Get(span.fields, "processID", Null))
      case Err(code) => Err(code)
      case Ok(service) =>
        var tags, refs := Get(span.fields, "tags", Arr([])), Get(span.fields, "references", Arr([]));
        if !tags.Arr? || !refs.Arr? then Err("TRACE_SPAN_METADATA_INVALID")
        else
          match ReadTags(tags.items)
          case Err(code) => Err(code)
          case Ok(read) =>
            match Normalize(read)
            case Err(code) => Err(code)
            case Ok(normal) =>
              match ReadParents(trace, refs.items)
              case Err(code) => Err(code)
              case Ok(parents) =>
                match OneParent(parents)
                case Err(code) => Err(code)
                case Ok(parent) => Assemble(trace, span.fields, service, normal, parent)
  }

  function SpanOp(trace: string, processes: map<string, Json>, span: Json): Op {
    match Project(trace, processes, span)
    case Ok(c) => Put(c)
    case Err(code) => Bad(code)
  }

  function SpanOps(trace: string, processes: map<string, Json>, spans: seq<Json>): (ops: seq<Op>)
    ensures |ops| == |spans|
  {
    if spans == [] then []
    else SpanOps(trace, processes, spans[..|spans| - 1]) + [SpanOp(trace, processes, spans[|spans| - 1])]
  }

  /** What one payload asks of the store. */
  function Ops(payload: Json): seq<Op> {
    if !payload.Obj? || !Get(payload.fields, "traceID", Null).Str? then [Bad("TRACE_IDENTIFIER_INVALID")]
    else
      var processes, spans := Get(payload.fields, "processes", Obj(map[])), Get(payload.fields, "spans", Arr([]));
      if !processes.Obj? || !spans.Arr? then [Bad("TRACE_PAYLOAD_INVALID")]
      else
        var trace := payload.fields["traceID"].s;
        [Touch(trace)] + SpanOps(trace, processes.fields, spans.items)
  }

  function AllOps(payloads: seq<Json>): seq<Op> {
    FlatMap(Ops, payloads)
  }

  lemma AllOpsSnoc(payloads: seq<Json>, payload: Json)
    ensures AllOps(payloads + [payload]) == AllOps(payloads) + Ops(payload)
  {
    FlatMapAppend(Ops, payloads, [payload]);
    FlatMapOne(Ops, payload);
  }
}

module TraceAccumulator {
  import opened Prelude
  import opened Json
  import opened TraceStore
  import opened TraceProjection
  import opened TraceExport

  class TraceAccumulator {
    var traces: map<string, Entry>
    var count: nat

    ghost function Contents(): State
      reads this
    {
      State(traces, count)
    }

    constructor ()
      ensures Contents() == EMPTY
    {
      traces, count := map[], 0;
    }

    method CollectTags(items: seq<Json>) returns (r: Result<Tags, Code>)
      ensures r == ReadTags(items)
    {
      var relevant: Tags := map[];
      for n := 0 to |items|
        invariant ReadTags(items[..n]) == Ok(relevant)
      {
        assert items[..n + 1][..n] == items[..n];
        var next := TagStep(relevant, items[n]);
        if next.Err? {
          TagFailureStays(items, n);
          return next;
        }
        relevant := next.value;
      }
      assert items[..|items|] == items;
      r := Ok(relevant);
    }

    method CollectParents(trace: string, refs: seq<Json>) returns (r: Result<seq<Json>, Code>)
      ensures r == ReadParents(trace, refs)
    {
      var parents: seq<Json> := [];
      for n := 0 to |refs|
        invariant ReadParents(trace, refs[..n]) == Ok(parents)
      {
        assert refs[..n + 1][..n] == refs[..n];
        var next := ParentStep(trace, parents, refs[n]);
        if next.Err? {
          ParentFailureStays(trace, refs, n);
          return next;
        }
        parents := next.value;
      }
      assert refs[..|refs|] == refs;
      r := Ok(parents);
    }

    method ProjectSpan(trace: string, processes: map<string, Json>, span: Json) returns (r: Result<CSpan, Code>)
      ensures r == Project(trace, processes, span)
    {
      if !Identified(trace, span) {
        return Err("TRACE_SPAN_IDENTITY_INVALID");
      }
      var service := Service(processes, Get(span.fields, "processID", Null));
      if service.Err? {
        return Err(service.error);
      }
      var tags, refs := Get(span.fields, "tags", Arr([])), Get(span.fields, "references", Arr([]));
      if !tags.Arr? || !refs.Arr? {
        return Err("TRACE_SPAN_METADATA_INVALID");
      }
      var read := CollectTags(tags.items);
      if read.Err? {
        return Err(read.error);
      }
      var normal := Normalize(read.value);
      if normal.Err? {
        return Err(normal.error);
      }
      var parents := CollectParents(trace, refs.items);
      if parents.Err? {
        return Err(parents.error);
      }
      var parent := OneParent(parents.value);
      if parent.Err? {
        return Err(parent.error);
      }
      r := Assemble(trace, span.fields, service.value, normal.value, parent.value);
    }

    /** Stores one projected span; on an error the store keeps what it had, except for the raised counter. */
    method Store(c: CSpan) returns (error: Option<Code>)
      requires c.trace in traces
      modifies this
      ensures (Contents(), error) == Step(old(Contents()), Put(c))
    {
      var target := traces[c.trace];
      var isNew := c.id !in target.spans;
      if !isNew && !SameSpan(target.spans[c.id], c) {
        return Some("TRACE_CONFLICTING_SPAN");
      }
      if isNew {
        count := count + 1;
        if count > MAX_SPANS || |target.spans| >= MAX_TRACE_SPANS {
          return Some("TRACE_ACCUMULATION_BUDGET");
        }
      }
      traces := traces[c.trace := Entry(target.spans[c.id := c], target.processes + {c.service})];
      error := None;
    }

    method AddSpan(trace: string, processes: map<string, Json>, span: Json) returns (error: Option<Code>)
      requires trace in traces
      modifies this
      ensures (Contents(), error) == Step(old(Contents()), SpanOp(trace, processes, span))
      ensures trace in traces
    {
      var read := ProjectSpan(trace, processes, span);
      if read.Err? {
        return Some(read.error);
      }
      ProjectedTrace(trace, processes, span);
      error := Store(read.value);
    }

    method AddSpans(trace: string, processes: map<string, Json>, spans: seq<Json>) returns (error: Option<Code>)
      requires trace in traces
      modifies this
      ensures (Contents(), error) == Run(old(Contents()), SpanOps(trace, processes, spans))
    {
      for n := 0 to |spans|
        invariant trace in traces
        invariant Run(old(Contents()), SpanOps(trace, processes, spans[..n])) == (Contents(), None)
      {
        RunSpan(old(Contents()), trace, processes, spans, n);
        error := AddSpan(trace, processes, spans[n]);
        if error.Some? {
          FailureStays(old(Contents()), trace, processes, spans, n + 1);
          return;
        }
      }
      assert spans[..|spans|] == spans;
      error := None;
    }

    /** Exports the store, one payload per trace, with the tags sorted by name. */
    method Data() returns (data: seq<Json>)
      ensures exists order :: Exports(Contents(), order, data, SORTED_TAGS)
    {
      data := [];
      ghost var order: seq<string> := [];
      var todo := traces.Keys;
      while todo != {}
        invariant todo <= traces.Keys
        invariant Enumerates(order, traces.Keys - todo)
        invariant |data| == |order|
        invariant forall i :: 0 <= i < |data| ==>
                    ExportsTrace(order[i], EntryOf(Contents(), order[i]), data[i], SORTED_TAGS)
        decreases |todo|
      {
        var trace :| trace in todo;
        todo := todo - {trace};
        var ids := Listed(traces[trace].spans.Keys);
        data := data + [EmitTrace(trace, traces[trace], ids, SORTED_TAGS)];
        order := order + [trace];
        assert ExportsTrace(trace, traces[trace], data[|data| - 1], SORTED_TAGS);
      }
      assert traces.Keys - todo == traces.Keys;
      assert Exports(Contents(), order, data, SORTED_TAGS);
    }

    method Listed(all: set<string>) returns (order: seq<string>)
      ensures Enumerates(order, all)
    {
      order := [];
      var todo := all;
      while todo != {}
        invariant todo <= all
        invariant Enumerates(order, all - todo)
        decreases |todo|
      {
        var x :| x in todo;
        todo := todo - {x};
        order := order + [x];
      }
      assert all - todo == all;
    }

    /** Adds one payload. Spans before the first error stay merged, as they do in the program. */
    method Add(payload: Json) returns (error: Option<Code>)
      modifies this
      ensures (Contents(), error) == Run(old(Contents()), Ops(payload))
    {
      RunOne(Contents(), Ops(payload));
      if !payload.Obj? || !Get(payload.fields, "traceID", Null).Str? {
        return Some("TRACE_IDENTIFIER_INVALID");
      }
      var processes, spans := Get(payload.fields, "processes", Obj(map[])), Get(payload.fields, "spans", Arr([]));
      if !processes.Obj? || !spans.Arr? {
        return Some("TRACE_PAYLOAD_INVALID");
      }
      var trace := payload.fields["traceID"].s;
      RunOne(Contents(), [Touch(trace)]);
      RunAppend(Contents(), [Touch(trace)], SpanOps(trace, processes.fields, spans.items));
      traces := traces[trace := if trace in traces then traces[trace] else Entry(map[], {})];
      error := AddSpans(trace, processes.fields, spans.items);
    }
  }

  /** Adding payloads to a fresh accumulator leaves a store that its own export reproduces. */
  lemma {:induction false} AddedIsMerged(payloads: seq<Json>)
    requires Run(EMPTY, AllOps(payloads)).1.None?
    ensures Merged(Run(EMPTY, AllOps(payloads)).0)
  {
    AddedIsNormal(payloads);
  }

  lemma {:induction false} AddedIsNormal(payloads: seq<Json>)
    ensures NormalOps(AllOps(payloads))
  {
    if payloads != [] {
      AddedIsNormal(payloads[..|payloads| - 1]);
      PayloadIsNormal(payloads[|payloads| - 1]);
    }
  }

  lemma PayloadIsNormal(payload: Json)
    ensures NormalOps(Ops(payload))
  {
    if payload.Obj? && Get(payload.fields, "traceID", Null).Str? {
      var processes, spans := Get(payload.fields, "processes", Obj(map[])), Get(payload.fields, "spans", Arr([]));
      if processes.Obj? && spans.Arr? {
        SpansAreNormal(payload.fields["traceID"].s, processes.fields, spans.items);
      }
    }
  }

  lemma {:induction false} SpansAreNormal(trace: string, processes: map<string, Json>, spans: seq<Json>)
    ensures NormalOps(SpanOps(trace, processes, spans))
  {
    if spans != [] {
      SpansAreNormal(trace, processes, spans[..|spans| - 1]);
      if Project(trace, processes, spans[|spans| - 1]).Ok? {
        ProjectIsNormal(trace, processes, spans[|spans| - 1]);
      }
    }
  }

  /** Exporting what payloads left behind and adding the export to a fresh accumulator changes nothing. */
  lemma ExportIsFixedPoint(payloads: seq<Json>, order: seq<string>, data: seq<Json>)
    requires Run(EMPTY, AllOps(payloads)).1.None?
    requires Exports(Run(EMPTY, AllOps(payloads)).0, order, data, SORTED_TAGS)
    ensures Run(EMPTY, AllOps(data)) == Run(EMPTY, AllOps(payloads))
  {
    AddedIsMerged(payloads);
    ProducerOrders();
    ReadBack(Run(EMPTY, AllOps(payloads)).0, order, data, SORTED_TAGS);
  }

  lemma RunOne(s: State, ops: seq<Op>)
    ensures |ops| == 1 ==> Run(s, ops) == Step(s, ops[0])
  {
    if |ops| == 1 {
      assert ops[..0] == [];
    }
  }

  lemma {:induction false} TagFailureStays(items: seq<Json>, n: nat)
    requires n < |items| && ReadTags(items[..n + 1]).Err?
    ensures ReadTags(items) == ReadTags(items[..n + 1])
    decreases |items|
  {
    var m := |items| - 1;
    if n < m {
      assert items[..m][..n + 1] == items[..n + 1];
      TagFailureStays(items[..m], n);
    } else {
      assert items[..n + 1] == items;
    }
  }

  lemma {:induction false} ParentFailureStays(trace: string, refs: seq<Json>, n: nat)
    requires n < |refs| && ReadParents(trace, refs[..n + 1]).Err?
    ensures ReadParents(trace, refs) == ReadParents(trace, refs[..n + 1])
    decreases |refs|
  {
    var m := |refs| - 1;
    if n < m {
      assert refs[..m][..n + 1] == refs[..n + 1];
      ParentFailureStays(trace, refs[..m], n);
    } else {
      assert refs[..n + 1] == refs;
    }
  }

  lemma {:induction false} SpanOpsSplit(trace: string, processes: map<string, Json>, a: seq<Json>, b: seq<Json>)
    ensures SpanOps(trace, processes, a + b) == SpanOps(trace, processes, a) + SpanOps(trace, processes, b)
  {
    if b == [] {
      assert a + b == a;
    } else {
      SpanOpsSplit(trace, processes, a, b[..|b| - 1]);
      assert (a + b)[..|a + b| - 1] == a + b[..|b| - 1];
    }
  }

  lemma FailureStays(s: State, trace: string, processes: map<string, Json>, spans: seq<Json>, n: nat)
    requires n <= |spans| && Run(s, SpanOps(trace, processes, spans[..n])).1.Some?
    ensures Run(s, SpanOps(trace, processes, spans)) == Run(s, SpanOps(trace, processes, spans[..n]))
  {
    assert spans == spans[..n] + spans[n..];
    SpanOpsSplit(trace, processes, spans[..n], spans[n..]);
    RunAppend(s, SpanOps(trace, processes, spans[..n]), SpanOps(trace, processes, spans[n..]));
  }

  lemma RunSpan(s: State, trace: string, processes: map<string, Json>, spans: seq<Json>, n: nat)
    requires n < |spans|
    ensures var before := Run(s, SpanOps(trace, processes, spans[..n]));
            before.1.None? ==>
              Run(s, SpanOps(trace, processes, spans[..n + 1])) == Step(before.0, SpanOp(trace, processes, spans[n]))
  {
    assert spans[..n + 1] == spans[..n] + [spans[n]];
    var ops := SpanOps(trace, processes, spans[..n]);
    var op := SpanOp(trace, processes, spans[n]);
    assert spans[..n + 1][..n] == spans[..n];
    assert SpanOps(trace, processes, spans[..n + 1]) == ops + [op];
    assert (ops + [op])[..|ops|] == ops;
  }

  lemma ProjectedTrace(trace: string, processes: map<string, Json>, span: Json)
    requires Project(trace, processes, span).Ok?
    ensures Project(trace, processes, span).value.trace == trace
  {
  }
}
