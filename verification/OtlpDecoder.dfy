/** Decoding the query service's newline-delimited OTLP/JSON stream into merged traces, all or nothing. */
module OtlpConversion {
  import opened Prelude
  import opened Json
  import opened Numerals
  import opened TraceStore
  import opened TraceProjection

  // ----- scalars -----

  /** Unsigned 64-bit integers, written as a number or as at most twenty digits. */
  function ReadUint(j: Json): Result<nat, Code> {
    var value := match j
      case Int(i) => i
      case Str(s) => if Numeral(s) && |s| <= 20 then Value(s) else -1
      case _ => -1;
    if 0 <= value < 0x1_0000_0000_0000_0000 then Ok(value) else Err("TRACE_INTEGER_INVALID")
  }

  predicate HexDigit(c: char) {
    '0' <= c <= '9' || 'a' <= c <= 'f' || 'A' <= c <= 'F'
  }

  predicate Hex(s: string, length: nat) {
    |s| == length && forall i :: 0 <= i < |s| ==> HexDigit(s[i])
  }

  predicate AllZero(s: string) {
    forall i :: 0 <= i < |s| ==> s[i] == '0'
  }

  function Lower(s: string): string {
    seq(|s|, i requires 0 <= i < |s| =>
      if 'A' <= s[i] <= 'F' then (s[i] as int + 32) as char else s[i])
  }

  function ReadId(j: Json, length: nat): Result<string, Code> {
    if !j.Str? || !Hex(j.s, length) then Err("TRACE_IDENTIFIER_INVALID")
    else if AllZero(j.s) then Err("TRACE_ZERO_IDENTIFIER")
    else Ok(Lower(j.s))
  }

  /** A missing, empty or all-zero parent means no parent. */
  function ReadParent(j: Json): Result<Option<string>, Code> {
    if j == Null || j == Str("") then Ok(None)
    else if !j.Str? || !Hex(j.s, 16) then Err("TRACE_IDENTIFIER_INVALID")
    else if AllZero(j.s) then Ok(None)
    else Ok(Some(Lower(j.s)))
  }

  // ----- attributes -----

  predicate Scalar(field: string) {
    field == "stringValue" || field == "intValue" || field == "boolValue"
  }

  function OnlyField(value: map<string, Json>): (field: string)
    requires |value| == 1
    ensures field in value
  {
    OneKey(value);
    var field :| field in value;
    field
  }

  lemma OneKey(value: map<string, Json>)
    requires |value| == 1
    ensures exists field :: field in value
    ensures forall a, b :: a in value && b in value ==> a == b
  {
    assert |value.Keys| == 1;
    var field :| field in value.Keys;
    assert value.Keys == {field} by {
      SubsetSize({field}, value.Keys);
    }
  }

  function AttributeStep(found: Tags, item: Json, wanted: set<string>): Result<Tags, Code> {
    if !item.Obj? then Err("TRACE_ATTRIBUTE_INVALID")
    else
      var key, value := Get(item.fields, "key", Null), Get(item.fields, "value", Null);
      if !key.Str? then Err("TRACE_ATTRIBUTE_KEY_INVALID")
      else if key.s !in wanted then Ok(found)
      else if !value.Obj? || |value.fields| != 1 then Err("TRACE_ATTRIBUTE_VALUE_INVALID")
      else
        var field := OnlyField(value.fields);
        var scalar := value.fields[field];
        if !Scalar(field) then Err("TRACE_ATTRIBUTE_TYPE_INVALID")
        else if key.s == ERROR && !(field == "stringValue" && scalar.Str?) && !(field == "boolValue" && scalar.Bool?) then
          Err("TRACE_ERROR_TYPE_INVALID")
        else
          var kept := if key.s == ERROR && scalar.Str? then Bool(true) else scalar;
          if key.s in found && !PyEq(found[key.s], kept) then Err("TRACE_ATTRIBUTE_CONFLICT")
          else Ok(found[key.s := kept])
  }

  function ReadAttributes(items: seq<Json>, wanted: set<string>): Result<Tags, Code> {
    if items == [] then Ok(map[])
    else
      match ReadAttributes(items[..|items| - 1], wanted)
      case Err(code) => Err(code)
      case Ok(before) => AttributeStep(before, items[|items| - 1], wanted)
  }

  function Attributes(j: Json, wanted: set<string>): Result<Tags, Code> {
    if !j.Arr? then Err("TRACE_ATTRIBUTES_INVALID") else ReadAttributes(j.items, wanted)
  }

  // ----- one span -----

  const KINDS: seq<string> := ["UNKNOWN", "INTERNAL", "SERVER", "CLIENT", "PRODUCER", "CONSUMER"]
  const KIND_PREFIX := "SPAN_KIND_"

  function ReadKind(j: Json): Result<string, Code> {
    match j
    case Int(i) => if 0 <= i < |KINDS| then Ok(KINDS[i]) else Err("TRACE_KIND_INVALID")
    case Str(s) =>
      if KIND_PREFIX <= s && s[|KIND_PREFIX|..] in KINDS then Ok(s[|KIND_PREFIX|..]) else Err("TRACE_KIND_INVALID")
    case _ => Err("TRACE_KIND_INVALID")
  }

  /** Whether the status marks an error. */
  function ReadStatus(j: Json): Result<bool, Code> {
    if !j.Obj? then Err("TRACE_STATUS_INVALID")
    else
      var code := Get(j.fields, "code", Int(0));
      if code == Int(2) || code == Str("STATUS_CODE_ERROR") then Ok(true)
      else if code == Int(0) || code == Int(1) || code == Str("STATUS_CODE_UNSET") || code == Str("STATUS_CODE_OK") then
        Ok(false)
      else Err("TRACE_STATUS_CODE_INVALID")
  }

  /** The error flag: the status, the error attribute, or a server-side HTTP status. */
  function ReadError(status: bool, found: Tags): Result<bool, Code> {
    if ERROR in found && !found[ERROR].Bool? then Err("TRACE_ERROR_TYPE_INVALID")
    else
      var flagged := status || (ERROR in found && found[ERROR] == Bool(true));
      var http := Get(found, MODERN, Get(found, HTTP, Null));
      if http == Null then Ok(flagged)
      else
        var number := StatusNumber(http);
        if number.None? || !(100 <= number.value <= 599) then Err("TRACE_HTTP_STATUS_INVALID")
        else Ok(flagged || number.value >= 500)
  }

  function SpanTags(kind: string, error: bool): Tags {
    map[KIND := Str(kind), ERROR := Bool(error)]
  }

  /** Nanoseconds become whole microseconds. */
  function Convert(service: string, span: Json): Result<CSpan, Code> {
    if !span.Obj? then Err("TRACE_SPAN_INVALID")
    else
      var f := span.fields;
      match (ReadId(Get(f, "traceId", Null), 32), ReadId(Get(f, "spanId", Null), 16))
      case (Err(code), _) => Err(code)
      case (_, Err(code)) => Err(code)
      case (Ok(trace), Ok(id)) =>
        match (ReadParent(Get(f, "parentSpanId", Null)),
               ReadUint(Get(f, "startTimeUnixNano", Null)), ReadUint(Get(f, "endTimeUnixNano", Null)))
        case (Err(code), _, _) => Err(code)
        case (_, Err(code), _) => Err(code)
        case (_, _, Err(code)) => Err(code)
        case (Ok(parent), Ok(start), Ok(end)) =>
          if end < start then Err("TRACE_NEGATIVE_DURATION")
          else
            match (ReadKind(Get(f, "kind", Int(0))), ReadStatus(Get(f, "status", Obj(map[]))),
                   Attributes(Get(f, "attributes", Arr([])), {ERROR, HTTP, MODERN}))
            case (Err(code), _, _) => Err(code)
            case (_, Err(code), _) => Err(code)
            case (_, _, Err(code)) => Err(code)
            case (Ok(kind), Ok(status), Ok(found)) =>
              match ReadError(status, found)
              case Err(code) => Err(code)
              case Ok(error) =>
                Ok(CSpan(trace, id, service, start / 1000, (end - start) / 1000, SpanTags(kind, error), parent))
  }

  // ----- groups, envelopes, lines -----

  predicate Blank(s: string) {
    forall i :: 0 <= i < |s| ==> Space(s[i])
  }

  function GroupService(group: map<string, Json>): Result<string, Code> {
    var resource := Get(group, "resource", Obj(map[]));
    if !resource.Obj? then Err("TRACE_RESOURCE_INVALID")
    else
      match Attributes(Get(resource.fields, "attributes", Arr([])), {"service.name"})
      case Err(code) => Err(code)
      case Ok(found) =>
        var name := Get(found, "service.name", Null);
        if name.Str? && !Blank(name.s) && |name.s| <= 512 then Ok(name.s) else Err("TRACE_SERVICE_IDENTITY_MISSING")
  }

  function SpanOp(service: string, span: Json): Op {
    match Convert(service, span)
    case Ok(c) => Put(c)
    case Err(code) => Bad(code)
  }

  function ScopeOps(service: string, scope: Json): seq<Op> {
    if !scope.Obj? || !Get(scope.fields, "spans", Arr([])).Arr? then [Bad("TRACE_SCOPE_INVALID")]
    else
      var spans := Get(scope.fields, "spans", Arr([])).items;
      seq(|spans|, i requires 0 <= i < |spans| => SpanOp(service, spans[i]))
  }

  function ScopesOps(service: string, scopes: seq<Json>): seq<Op> {
    if scopes == [] then [] else ScopeOps(service, scopes[0]) + ScopesOps(service, scopes[1..])
  }

  function GroupOps(group: Json): seq<Op> {
    if !group.Obj? then [Bad("TRACE_RESOURCE_INVALID")]
    else
      match GroupService(group.fields)
      case Err(code) => [Bad(code)]
      case Ok(service) =>
        var scopes := Get(group.fields, "scopeSpans", Arr([]));
        if !scopes.Arr? then [Bad("TRACE_SCOPES_INVALID")] else ScopesOps(service, scopes.items)
  }

  function GroupsOps(groups: seq<Json>): seq<Op> {
    if groups == [] then [] else GroupOps(groups[0]) + GroupsOps(groups[1..])
  }

  /** The resource groups of one envelope, which holds exactly a result. */
  function EnvelopeGroups(envelope: Json): Result<seq<Json>, Code> {
    if !envelope.Obj? || envelope.fields.Keys != {"result"} || !envelope.fields["result"].Obj? then
      Err("TRACE_STREAM_ENVELOPE_INVALID")
    else
      var result := envelope.fields["result"].fields;
      var resources := Get(result, "resourceSpans", Arr([]));
      if result != map[] && "resourceSpans" !in result then Err("TRACE_RESOURCE_SPANS_MISSING")
      else if !resources.Arr? then Err("TRACE_RESOURCE_SPANS_INVALID")
      else Ok(resources.items)
  }

  /** A line after JSON parsing; unparsable covers duplicate keys and non-finite numbers. */
  datatype Line = BlankLine | Unparsable(code: Code) | Envelope(value: Json)

  function LineOps(line: Line): seq<Op> {
    match line
    case BlankLine => []
    case Unparsable(code) => [Bad(code)]
    case Envelope(value) =>
      match EnvelopeGroups(value)
      case Err(code) => [Bad(code)]
      case Ok(groups) => GroupsOps(groups)
  }

  function LinesOps(lines: seq<Line>): seq<Op> {
    if lines == [] then [] else LineOps(lines[0]) + LinesOps(lines[1..])
  }

  predicate AnyEnvelope(lines: seq<Line>) {
    exists i :: 0 <= i < |lines| && !lines[i].BlankLine?
  }
}

module OtlpDecoder {
  import opened Prelude
  import opened Json
  import opened TraceStore
  import opened TraceProjection
  import opened TraceExport
  import C = OtlpConversion

  const MAX_PAYLOAD := 32 * 1024 * 1024

  // ----- the loops -----

  /** Stores one span; the caller discards everything on an error. */
  method Insert(s: State, c: CSpan) returns (s': State, error: Option<Code>)
    ensures error.None? <==> Step(s, Put(c)).1.None?
    ensures error.None? ==> s' == Step(s, Put(c)).0
  {
    var trace := EntryOf(s, c.trace);
    s' := s;
    if c.id in trace.spans && !SameSpan(trace.spans[c.id], c) {
      return s, Some("TRACE_CONFLICTING_SPAN");
    }
    if c.id !in trace.spans {
      s' := s'.(count := s.count + 1);
      if s'.count > MAX_SPANS {
        return s', Some("TRACE_CANONICAL_SPAN_BUDGET");
      }
      if |trace.spans| >= MAX_TRACE_SPANS {
        return s', Some("TRACE_SINGLE_TRACE_SPAN_BUDGET");
      }
    }
    s' := s'.(traces := s.traces[c.trace := Entry(trace.spans[c.id := c], trace.processes + {c.service})]);
    error := None;
  }

  /** The run over the remaining operations, from the state reached so far, is the run over all of them. */
  ghost predicate Decoded(s: State, ops: seq<Op>, s': State, error: Option<Code>) {
    && (error.None? <==> Run(s, ops).1.None?)
    && (error.None? ==> s' == Run(s, ops).0)
  }

  lemma DecodeSplit(s: State, a: seq<Op>, b: seq<Op>)
    ensures Run(s, a).1.Some? ==> Run(s, a + b).1.Some?
    ensures Run(s, a).1.None? ==> Run(s, a + b) == Run(Run(s, a).0, b)
  {
    RunAppend(s, a, b);
  }

  lemma DecodeOne(s: State, op: Op)
    ensures Run(s, [op]) == Step(s, op)
  {
    assert [op][..0] == [];
  }

  /** The first operations ran, and left this state. */
  ghost predicate Begun(s: State, ops: seq<Op>, n: nat, s': State) {
    n <= |ops| && Run(s, ops[..n]) == (s', None)
  }

  lemma BegunStep(s: State, ops: seq<Op>, n: nat, s': State)
    requires Begun(s, ops, n, s') && n < |ops|
    ensures Step(s', ops[n]).1.None? ==> Begun(s, ops, n + 1, Step(s', ops[n]).0)
    ensures Step(s', ops[n]).1.Some? ==> Run(s, ops).1.Some?
  {
    hide Step;
    assert ops[..n + 1][..n] == ops[..n];
    assert ops == ops[..n + 1] + ops[n + 1..];
    DecodeSplit(s, ops[..n + 1], ops[n + 1..]);
  }

  method DecodeScope(s: State, service: string, scope: Json) returns (s': State, error: Option<Code>)
    ensures Decoded(s, C.ScopeOps(service, scope), s', error)
  {
    s' := s;
    if !scope.Obj? || !Get(scope.fields, "spans", Arr([])).Arr? {
      DecodeOne(s, Bad("TRACE_SCOPE_INVALID"));
      return s, Some("TRACE_SCOPE_INVALID");
    }
    var spans := Get(scope.fields, "spans", Arr([])).items;
    ghost var ops := C.ScopeOps(service, scope);
    assert ops[..|spans|] == ops;
    hide C.Convert, Step;
    assert Begun(s, ops, 0, s');
    hide Run;
    for n := 0 to |spans|
      invariant Begun(s, ops, n, s')
    {
      BegunStep(s, ops, n, s');
      assert ops[n] == C.SpanOp(service, spans[n]);
      var converted := C.Convert(service, spans[n]);
      if converted.Err? {
        return s', Some(converted.error);
      }
      s', error := Insert(s', converted.value);
      if error.Some? {
        return;
      }
    }
    error := None;
  }

  method DecodeGroup(s: State, group: Json) returns (s': State, error: Option<Code>)
    ensures Decoded(s, C.GroupOps(group), s', error)
  {
    s' := s;
    if !group.Obj? {
      DecodeOne(s, Bad("TRACE_RESOURCE_INVALID"));
      return s, Some("TRACE_RESOURCE_INVALID");
    }
    var service := C.GroupService(group.fields);
    if service.Err? {
      DecodeOne(s, Bad(service.error));
      return s, Some(service.error);
    }
    var scopes := Get(group.fields, "scopeSpans", Arr([]));
    if !scopes.Arr? {
      DecodeOne(s, Bad("TRACE_SCOPES_INVALID"));
      return s, Some("TRACE_SCOPES_INVALID");
    }
    for n := 0 to |scopes.items|
      invariant Run(s, C.ScopesOps(service.value, scopes.items)) == Run(s', C.ScopesOps(service.value, scopes.items[n..]))
    {
      ghost var rest := scopes.items[n..];
      assert rest[0] == scopes.items[n] && rest[1..] == scopes.items[n + 1..];
      DecodeSplit(s', C.ScopeOps(service.value, scopes.items[n]), C.ScopesOps(service.value, rest[1..]));
      s', error := DecodeScope(s', service.value, scopes.items[n]);
      if error.Some? {
        return;
      }
    }
    error := None;
  }

  method DecodeGroups(s: State, groups: seq<Json>) returns (s': State, error: Option<Code>)
    ensures Decoded(s, C.GroupsOps(groups), s', error)
  {
    s' := s;
    for n := 0 to |groups|
      invariant Run(s, C.GroupsOps(groups)) == Run(s', C.GroupsOps(groups[n..]))
    {
      ghost var rest := groups[n..];
      assert rest[0] == groups[n] && rest[1..] == groups[n + 1..];
      DecodeSplit(s', C.GroupOps(groups[n]), C.GroupsOps(rest[1..]));
      s', error := DecodeGroup(s', groups[n]);
      if error.Some? {
        return;
      }
    }
    error := None;
  }

  method DecodeLine(s: State, line: C.Line) returns (s': State, error: Option<Code>)
    ensures Decoded(s, C.LineOps(line), s', error)
  {
    s', error := s, None;
    match line {
      case BlankLine =>
      case Unparsable(code) =>
        DecodeOne(s, Bad(code));
        error := Some(code);
      case Envelope(value) =>
        var groups := C.EnvelopeGroups(value);
        if groups.Err? {
          DecodeOne(s, Bad(groups.error));
          return s, Some(groups.error);
        }
        s', error := DecodeGroups(s, groups.value);
    }
  }

  lemma AnyEnvelopeMore(lines: seq<C.Line>, n: nat)
    requires n < |lines|
    ensures C.AnyEnvelope(lines[..n + 1]) <==> C.AnyEnvelope(lines[..n]) || !lines[n].BlankLine?
  {
    var shorter, longer := lines[..n], lines[..n + 1];
    assert longer == shorter + [lines[n]];
    assert longer[n] == lines[n];
    if i :| 0 <= i < |shorter| && !shorter[i].BlankLine? {
      assert longer[i] == shorter[i];
    }
    if i :| 0 <= i < |longer| && !longer[i].BlankLine? {
      assert i < n ==> shorter[i] == longer[i];
    }
  }

  /** What is still to be decoded decides the outcome. */
  ghost predicate Remaining(lines: seq<C.Line>, n: nat, s: State)
    requires n <= |lines|
  {
    Run(EMPTY, C.LinesOps(lines)) == Run(s, C.LinesOps(lines[n..]))
  }

  lemma RemainingStep(lines: seq<C.Line>, n: nat, s: State)
    requires n < |lines| && Remaining(lines, n, s)
    ensures Run(s, C.LineOps(lines[n])).1.None? ==> Remaining(lines, n + 1, Run(s, C.LineOps(lines[n])).0)
    ensures Run(s, C.LineOps(lines[n])).1.Some? ==> Run(EMPTY, C.LinesOps(lines)).1.Some?
  {
    assert lines[n..][0] == lines[n] && lines[n..][1..] == lines[n + 1..];
    DecodeSplit(s, C.LineOps(lines[n]), C.LinesOps(lines[n + 1..]));
  }

  method DecodeLines(lines: seq<C.Line>) returns (s: State, envelopes: nat, error: Option<Code>)
    ensures Decoded(EMPTY, C.LinesOps(lines), s, error)
    ensures error.None? ==> (envelopes > 0 <==> C.AnyEnvelope(lines))
  {
    s, envelopes := EMPTY, 0;
    assert lines[0..] == lines && Remaining(lines, 0, s);
    hide C.LineOps, C.LinesOps, Run, Remaining, C.AnyEnvelope;
    AnyEnvelopeNone(lines);
    for n := 0 to |lines|
      invariant Remaining(lines, n, s)
      invariant envelopes > 0 <==> C.AnyEnvelope(lines[..n])
    {
      AnyEnvelopeMore(lines, n);
      RemainingStep(lines, n, s);
      if !lines[n].BlankLine? {
        envelopes := envelopes + 1;
      }
      s, error := DecodeLine(s, lines[n]);
      if error.Some? {
        return;
      }
    }
    assert lines[..|lines|] == lines;
    RemainingDone(lines, s);
    error := None;
  }

  lemma AnyEnvelopeNone(lines: seq<C.Line>)
    ensures !C.AnyEnvelope(lines[..0])
  {
  }

  lemma RemainingDone(lines: seq<C.Line>, s: State)
    requires Remaining(lines, |lines|, s)
    ensures Run(EMPTY, C.LinesOps(lines)) == (s, None)
  {
    assert lines[|lines|..] == [];
  }

  /** Decodes a whole payload. It succeeds exactly when the payload is small enough, names at least one
      envelope, and every span in it can be merged; a late error leaves nothing behind. */
  method Decode(payloadLength: nat, lines: seq<C.Line>) returns (r: Result<State, Code>)
    ensures r.Ok? <==> payloadLength <= MAX_PAYLOAD && C.AnyEnvelope(lines) && Run(EMPTY, C.LinesOps(lines)).1.None?
    ensures r.Ok? ==> r.value == Run(EMPTY, C.LinesOps(lines)).0
  {
    if payloadLength > MAX_PAYLOAD {
      return Err("TRACE_RESPONSE_BUDGET");
    }
    var s, envelopes, error := DecodeLines(lines);
    if error.Some? {
      return Err(error.value);
    }
    if envelopes == 0 {
      return Err("TRACE_STREAM_EMPTY");
    }
    r := Ok(s);
  }

  // ----- decoded traces satisfy the accumulator -----

  /** A converted span carries a kind that was read and an error flag. */
  lemma ConvertTags(service: string, span: Json) returns (kind: string, error: bool)
    requires C.Convert(service, span).Ok?
    ensures C.ReadKind(Get(span.fields, "kind", Int(0))) == Ok(kind)
    ensures C.Convert(service, span).value.service == service
    ensures C.Convert(service, span).value.tags == C.SpanTags(kind, error)
  {
    hide C.ReadId, C.ReadUint, C.ReadParent, C.ReadStatus, C.Attributes, C.ReadError, C.ReadKind;
    var f := span.fields;
    kind := C.ReadKind(Get(f, "kind", Int(0))).value;
    error := C.ReadError(C.ReadStatus(Get(f, "status", Obj(map[]))).value,
                         C.Attributes(Get(f, "attributes", Arr([])), {ERROR, HTTP, MODERN}).value).value;
  }

  lemma KindIsShort(j: Json)
    requires C.ReadKind(j).Ok?
    ensures |C.ReadKind(j).value| <= 64
  {
    assert forall k :: k in C.KINDS ==> |k| <= 64;
  }

  lemma ConvertIsNormal(service: string, span: Json)
    requires C.Convert(service, span).Ok? && service != ""
    ensures NormalSpan(C.Convert(service, span).value)
  {
    var kind, error := ConvertTags(service, span);
    KindIsShort(Get(span.fields, "kind", Int(0)));
    hide C.Convert;
    TagNames();
  }

  lemma {:induction false} ScopesNormal(service: string, scopes: seq<Json>)
    requires service != ""
    ensures NormalOps(C.ScopesOps(service, scopes))
  {
    if scopes != [] {
      ScopesNormal(service, scopes[1..]);
      forall o | o in C.ScopeOps(service, scopes[0]) && o.Put?
        ensures NormalSpan(o.span)
      {
        var spans := Get(scopes[0].fields, "spans", Arr([])).items;
        var i :| 0 <= i < |spans| && o == C.SpanOp(service, spans[i]);
        ConvertIsNormal(service, spans[i]);
      }
    }
  }

  lemma {:induction false} GroupsNormal(groups: seq<Json>)
    ensures NormalOps(C.GroupsOps(groups))
  {
    if groups != [] {
      GroupsNormal(groups[1..]);
      if groups[0].Obj? {
        var service := C.GroupService(groups[0].fields);
        var scopes := Get(groups[0].fields, "scopeSpans", Arr([]));
        if service.Ok? && scopes.Arr? {
          assert service.value != "";
          ScopesNormal(service.value, scopes.items);
        }
      }
    }
  }

  lemma {:induction false} LinesNormal(lines: seq<C.Line>)
    ensures NormalOps(C.LinesOps(lines))
  {
    if lines != [] {
      LinesNormal(lines[1..]);
      if lines[0].Envelope? {
        var groups := C.EnvelopeGroups(lines[0].value);
        if groups.Ok? {
          GroupsNormal(groups.value);
        }
      }
    }
  }

  /** Everything the decoder returns, tags listed its own way, is accepted by a fresh accumulator in any
      trace and span order, and stored as the very same spans. */
  lemma DecodedIsAccepted(lines: seq<C.Line>, order: seq<string>, data: seq<Json>)
    requires Run(EMPTY, C.LinesOps(lines)).1.None?
    requires Exports(Run(EMPTY, C.LinesOps(lines)).0, order, data, DECODED_TAGS)
    ensures Run(EMPTY, AllOps(data)) == Run(EMPTY, C.LinesOps(lines))
  {
    LinesNormal(lines);
    ProducerOrders();
    var s := Run(EMPTY, C.LinesOps(lines)).0;
    assert Merged(s);
    ReadBack(s, order, data, DECODED_TAGS);
  }
}
