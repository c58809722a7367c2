/** Exporting the merged traces and reading the export back: the normal form is a fixed point. */
module TraceExport {
  import opened Prelude
  import opened Json
  import opened Sorting
  import opened TraceStore
  import opened TraceProjection

  /** The tags a projected span can still carry. */
  ghost predicate NormalTags(tags: Tags) {
    && (forall key :: key in tags ==> key == ERROR || key == HTTP || key == KIND || key == STATUS)
    && (ERROR in tags ==> tags[ERROR].Bool?)
    && (KIND in tags ==> tags[KIND].Str? && |tags[KIND].s| <= 64)
  }

  ghost predicate NormalSpan(c: CSpan) {
    c.service != "" && NormalTags(c.tags)
  }

  // ----- projection yields normal spans -----

  ghost predicate ReadableTags(tags: Tags) {
    && (forall key :: key in tags ==> Relevant(key))
    && (ERROR in tags ==> tags[ERROR].Bool?)
    && (KIND in tags ==> tags[KIND].Str? && |tags[KIND].s| <= 64)
  }

  lemma {:induction false} ReadTagsShape(items: seq<Json>)
    requires ReadTags(items).Ok?
    ensures ReadableTags(ReadTags(items).value)
  {
    if items != [] {
      ReadTagsShape(items[..|items| - 1]);
      TagNames();
    }
  }

  lemma NormalizeShape(tags: Tags)
    requires ReadableTags(tags) && Normalize(tags).Ok?
    ensures NormalTags(Normalize(tags).value)
  {
    TagNames();
    var folded := FoldHttp(tags).value;
    assert ReadableTags(folded) && MODERN !in folded;
    assert OTEL !in FoldStatus(folded).value;
  }

  lemma ProjectIsNormal(trace: string, processes: map<string, Json>, span: Json)
    requires Project(trace, processes, span).Ok?
    ensures NormalSpan(Project(trace, processes, span).value)
  {
    var tags := Get(span.fields, "tags", Arr([]));
    ReadTagsShape(tags.items);
    NormalizeShape(ReadTags(tags.items).value);
  }

  // ----- the export -----

  function TagItem(tags: Tags, key: string): seq<Json> {
    if key in tags then [Obj(map["key" := Str(key), "value" := tags[key]])] else []
  }

  /** The tags listed under the given names, in that order. */
  function TagList(tags: Tags, names: seq<string>): seq<Json> {
    if names == [] then [] else TagList(tags, names[..|names| - 1]) + TagItem(tags, names[|names| - 1])
  }

  /** An order in which a producer lists the four names a normal span can carry. The accumulator sorts them;
      the stream decoder writes the kind first. */
  ghost predicate TagOrder(names: seq<string>) {
    && (forall i, j :: 0 <= i < j < |names| ==> names[i] != names[j])
    && (forall name :: name in names <==> name == ERROR || name == HTTP || name == KIND || name == STATUS)
  }

  const SORTED_TAGS := [ERROR, HTTP, KIND, STATUS]
  const DECODED_TAGS := [KIND, ERROR, HTTP, STATUS]

  lemma ProducerOrders()
    ensures TagOrder(SORTED_TAGS) && TagOrder(DECODED_TAGS)
    ensures forall i, j :: 0 <= i < j < |SORTED_TAGS| ==> StringLeq(SORTED_TAGS[i], SORTED_TAGS[j])
  {
    TagNames();
    assert SORTED_TAGS[0][0] == 'e' && SORTED_TAGS[1][0] == 'h' && SORTED_TAGS[2][0] == 's' && SORTED_TAGS[3][0] == 's';
    assert KIND[1..][0] == 'p' && STATUS[1..][0] == 't';
  }

  function References(c: CSpan): seq<Json> {
    match c.parent
    case None => []
    case Some(p) => [Obj(map["refType" := Str("CHILD_OF"), "spanID" := Str(p), "traceID" := Str(c.trace)])]
  }

  function EmitSpan(c: CSpan, names: seq<string>): Json {
    Obj(map["traceID" := Str(c.trace), "spanID" := Str(c.id), "processID" := Str(c.service),
            "startTime" := Int(c.start), "duration" := Int(c.duration),
            "tags" := Arr(TagList(c.tags, names)), "references" := Arr(References(c))])
  }

  /** An exported span names its parent, if it has one, once, and as a span of its own trace. */
  lemma ExportedParent(c: CSpan, names: seq<string>)
    ensures var refs := EmitSpan(c, names).fields["references"];
            && refs.Arr? && |refs.items| == (if c.parent.Some? then 1 else 0)
            && forall ref: Json :: ref in refs.items ==>
                 ref.Obj? && ref.fields.Keys == {"refType", "spanID", "traceID"} && ref.fields["refType"] == Str("CHILD_OF")
                 && ref.fields["spanID"] == Str(c.parent.value) && ref.fields["traceID"] == Str(c.trace)
  {
  }

  function Processes(services: set<string>): map<string, Json> {
    map service | service in services :: Obj(map["serviceName" := Str(service)])
  }

  function Emitted(entry: Entry, order: seq<string>, names: seq<string>): seq<Json>
    requires forall id :: id in order ==> id in entry.spans
  {
    if order == [] then []
    else Emitted(entry, order[..|order| - 1], names) + [EmitSpan(entry.spans[order[|order| - 1]], names)]
  }

  /** One exported trace; `order` is the order in which its spans are listed. */
  function EmitTrace(trace: string, entry: Entry, order: seq<string>, names: seq<string>): Json
    requires forall id :: id in order ==> id in entry.spans
  {
    Obj(map["traceID" := Str(trace), "processes" := Obj(Processes(entry.processes)),
            "spans" := Arr(Emitted(entry, order, names))])
  }

  lemma SpanFieldNames()
    ensures "traceID" != "spanID" && "traceID" != "processID" && "traceID" != "startTime"
         && "traceID" != "duration" && "traceID" != "tags" && "traceID" != "references"
    ensures "spanID" != "processID" && "spanID" != "startTime" && "spanID" != "duration"
         && "spanID" != "tags" && "spanID" != "references"
    ensures "processID" != "startTime" && "processID" != "duration" && "processID" != "tags" && "processID" != "references"
    ensures "startTime" != "duration" && "startTime" != "tags" && "startTime" != "references"
    ensures "duration" != "tags" && "duration" != "references" && "tags" != "references"
    ensures "refType" != "spanID" && "refType" != "traceID" && "key" != "value" && "key" != "type" && "value" != "type"
    ensures "traceID" != "processes" && "traceID" != "spans" && "processes" != "spans"
  {
    assert |"traceID"| == 7 && |"spanID"| == 6 && |"processID"| == 9 && |"startTime"| == 9;
    assert |"duration"| == 8 && |"tags"| == 4 && |"references"| == 10 && |"refType"| == 7;
    assert "processID"[0] == 'p' && "startTime"[0] == 's' && "refType"[0] == 'r' && "traceID"[0] == 't';
    assert |"key"| == 3 && |"value"| == 5 && |"type"| == 4 && |"processes"| == 9 && |"spans"| == 5;
  }

  function Kept(tags: Tags, keys: set<string>): Tags {
    map key | key in tags && key in keys :: tags[key]
  }

  lemma ReadOneMore(items: seq<Json>, tags: Tags, keys: set<string>, key: string)
    requires ReadTags(items) == Ok(Kept(tags, keys)) && NormalTags(tags) && key !in keys && Relevant(key)
    ensures ReadTags(items + TagItem(tags, key)) == Ok(Kept(tags, keys + {key}))
  {
    SpanFieldNames();
    TagNames();
    if key in tags {
      var item := Obj(map["key" := Str(key), "value" := tags[key]]);
      assert (items + [item])[..|items|] == items;
      assert Get(item.fields, "key", Null) == Str(key) && Get(item.fields, "value", Null) == tags[key];
      assert TagValue(key, item.fields) == Ok(tags[key]);
      assert TagStep(Kept(tags, keys), item) == Ok(Kept(tags, keys)[key := tags[key]]);
      assert Kept(tags, keys)[key := tags[key]] == Kept(tags, keys + {key});
    } else {
      assert items + [] == items;
      assert Kept(tags, keys) == Kept(tags, keys + {key});
    }
  }

  lemma {:induction false} ReadSome(tags: Tags, names: seq<string>)
    requires NormalTags(tags)
    requires forall i, j :: 0 <= i < j < |names| ==> names[i] != names[j]
    requires forall name :: name in names ==> Relevant(name)
    ensures ReadTags(TagList(tags, names)) == Ok(Kept(tags, set name | name in names))
  {
    if names == [] {
      assert Kept(tags, {}) == map[];
    } else {
      var n := |names| - 1;
      assert names == names[..n] + [names[n]];
      assert forall i :: 0 <= i < n ==> names[..n][i] == names[i];
      ReadSome(tags, names[..n]);
      var before := set name | name in names[..n];
      assert names[n] !in before;
      ReadOneMore(TagList(tags, names[..n]), tags, before, names[n]);
      assert (set name | name in names) == before + {names[n]};
    }
  }

  lemma ReadTagList(tags: Tags, names: seq<string>)
    requires NormalTags(tags) && TagOrder(names)
    ensures ReadTags(TagList(tags, names)) == Ok(tags)
  {
    ReadSome(tags, names);
    assert Kept(tags, set name | name in names) == tags;
  }

  /** Normalisation is idempotent: a normal span has nothing left to fold. */
  lemma NormalizeFixed(tags: Tags)
    requires NormalTags(tags)
    ensures Normalize(tags) == Ok(tags)
  {
    TagNames();
  }

  function ParentIds(c: CSpan): seq<Json> {
    match c.parent
    case None => []
    case Some(p) => [Str(p)]
  }

  lemma ReadReferences(c: CSpan)
    ensures ReadParents(c.trace, References(c)) == Ok(ParentIds(c)) && OneParent(ParentIds(c)) == Ok(c.parent)
  {
    SpanFieldNames();
    if c.parent.Some? {
      var ref := References(c)[0];
      assert References(c)[..0] == [];
      assert Get(ref.fields, "refType", Null) == Str("CHILD_OF");
      assert Get(ref.fields, "traceID", Str(c.trace)) == Str(c.trace);
      assert Get(ref.fields, "spanID", Null) == Str(c.parent.value);
      assert ParentStep(c.trace, [], ref) == Ok([] + [Str(c.parent.value)]);
      assert [] + [Str(c.parent.value)] == [Str(c.parent.value)];
    }
  }

  lemma EmittedFields(c: CSpan, names: seq<string>)
    ensures var f := EmitSpan(c, names).fields;
            && Get(f, "traceID", Null) == Str(c.trace) && Get(f, "spanID", Null) == Str(c.id)
            && Get(f, "processID", Null) == Str(c.service)
            && Get(f, "startTime", Null) == Int(c.start) && Get(f, "duration", Null) == Int(c.duration)
            && Get(f, "tags", Arr([])) == Arr(TagList(c.tags, names)) && Get(f, "references", Arr([])) == Arr(References(c))
  {
    SpanFieldNames();
  }

  lemma ServiceFound(services: set<string>, service: string)
    requires service in services && service != ""
    ensures Service(Processes(services), Str(service)) == Ok(service)
  {
  }

  lemma ProjectFrom(trace: string, processes: map<string, Json>, span: Json, service: string,
                    items: seq<Json>, refs: seq<Json>, tags: Tags, parents: seq<Json>, parent: Option<string>)
    requires Identified(trace, span)
    requires Service(processes, Get(span.fields, "processID", Null)) == Ok(service)
    requires Get(span.fields, "tags", Arr([])) == Arr(items) && Get(span.fields, "references", Arr([])) == Arr(refs)
    requires ReadTags(items) == Ok(tags) && Normalize(tags) == Ok(tags)
    requires ReadParents(trace, refs) == Ok(parents) && OneParent(parents) == Ok(parent)
    ensures Project(trace, processes, span) == Assemble(trace, span.fields, service, tags, parent)
  {
  }

  lemma AssembleBack(c: CSpan, names: seq<string>)
    ensures Identified(c.trace, EmitSpan(c, names))
    ensures Assemble(c.trace, EmitSpan(c, names).fields, c.service, c.tags, c.parent) == Ok(c)
  {
    EmittedFields(c, names);
  }

  lemma ServiceBack(c: CSpan, services: set<string>, names: seq<string>)
    requires c.service in services && c.service != ""
    ensures Service(Processes(services), Get(EmitSpan(c, names).fields, "processID", Null)) == Ok(c.service)
  {
    EmittedFields(c, names);
    ServiceFound(services, c.service);
  }

  lemma ListsBack(c: CSpan, names: seq<string>)
    requires NormalSpan(c) && TagOrder(names)
    ensures Get(EmitSpan(c, names).fields, "tags", Arr([])) == Arr(TagList(c.tags, names))
    ensures Get(EmitSpan(c, names).fields, "references", Arr([])) == Arr(References(c))
    ensures ReadTags(TagList(c.tags, names)) == Ok(c.tags) && Normalize(c.tags) == Ok(c.tags)
  {
    EmittedFields(c, names);
    ReadTagList(c.tags, names);
    NormalizeFixed(c.tags);
  }

  /** Projecting an exported span gives the span back. */
  lemma ProjectEmitted(c: CSpan, services: set<string>, names: seq<string>)
    requires NormalSpan(c) && c.service in services && TagOrder(names)
    ensures Project(c.trace, Processes(services), EmitSpan(c, names)) == Ok(c)
  {
    AssembleBack(c, names);
    ServiceBack(c, services, names);
    ListsBack(c, names);
    ReadReferences(c);
    ProjectFrom(c.trace, Processes(services), EmitSpan(c, names), c.service, TagList(c.tags, names), References(c),
                c.tags, ParentIds(c), c.parent);
  }

  // ----- whole stores -----

  ghost predicate Enumerates<T(!new)>(order: seq<T>, all: set<T>) {
    && (forall x :: x in order <==> x in all)
    && (forall i, j :: 0 <= i < j < |order| ==> order[i] != order[j])
  }

  /** A store as the accumulator or the decoder leaves it after a successful run on projected spans. */
  ghost predicate Merged(s: State) {
    exists ops :: NormalOps(ops) && Run(EMPTY, ops) == (s, None)
  }

  ghost predicate NormalOps(ops: seq<Op>) {
    forall o :: o in ops && o.Put? ==> NormalSpan(o.span)
  }

  /** Some export of the store: its traces in some order, each with its spans in some order. */
  ghost predicate Exports(s: State, order: seq<string>, data: seq<Json>, names: seq<string>) {
    && Enumerates(order, s.traces.Keys)
    && |data| == |order|
    && forall i :: 0 <= i < |data| ==> ExportsTrace(order[i], EntryOf(s, order[i]), data[i], names)
  }

  ghost predicate ExportsTrace(trace: string, entry: Entry, payload: Json, names: seq<string>) {
    exists order :: Enumerates(order, entry.spans.Keys) && payload == EmitTrace(trace, entry, order, names)
  }

  ghost predicate KeyedEntry(trace: string, entry: Entry) {
    forall id :: id in entry.spans ==>
      var c := entry.spans[id];
      c.trace == trace && c.id == id && NormalSpan(c) && c.service in entry.processes
  }

  function PutAll(entry: Entry, order: seq<string>): seq<Op>
    requires forall id :: id in order ==> id in entry.spans
  {
    if order == [] then [] else PutAll(entry, order[..|order| - 1]) + [Put(entry.spans[order[|order| - 1]])]
  }

  lemma {:induction false} EmittedOps(trace: string, entry: Entry, order: seq<string>, names: seq<string>)
    requires TagOrder(names) && KeyedEntry(trace, entry) && forall id :: id in order ==> id in entry.spans
    ensures SpanOps(trace, Processes(entry.processes), Emitted(entry, order, names)) == PutAll(entry, order)
  {
    if order != [] {
      var n := |order| - 1;
      EmittedOps(trace, entry, order[..n], names);
      var id := order[n];
      assert id in order;
      var spans := Emitted(entry, order, names);
      assert spans[..|spans| - 1] == Emitted(entry, order[..n], names);
      ProjectEmitted(entry.spans[id], entry.processes, names);
    }
  }

  lemma {:induction false} PutAllSets(entry: Entry, order: seq<string>)
    requires forall id :: id in order ==> id in entry.spans
    ensures forall o :: o in PutAll(entry, order) <==> exists id :: id in order && o == Put(entry.spans[id])
  {
    if order != [] {
      var n := |order| - 1;
      PutAllSets(entry, order[..n]);
      assert order == order[..n] + [order[n]];
      assert forall id :: id in order <==> id in order[..n] || id == order[n];
    }
  }

  lemma OpsOfEmitted(trace: string, entry: Entry, order: seq<string>, names: seq<string>)
    requires forall id :: id in order ==> id in entry.spans
    ensures Ops(EmitTrace(trace, entry, order, names))
            == [Touch(trace)] + SpanOps(trace, Processes(entry.processes), Emitted(entry, order, names))
  {
    SpanFieldNames();
    var f := EmitTrace(trace, entry, order, names).fields;
    assert Get(f, "traceID", Null) == Str(trace);
    assert Get(f, "processes", Obj(map[])) == Obj(Processes(entry.processes));
    assert Get(f, "spans", Arr([])) == Arr(Emitted(entry, order, names));
  }

  lemma EmittedTraceOps(trace: string, entry: Entry, payload: Json, names: seq<string>)
    requires TagOrder(names) && ExportsTrace(trace, entry, payload, names) && KeyedEntry(trace, entry)
    ensures NoBad(Ops(payload))
    ensures Names(Ops(payload)) == {trace}
    ensures Puts(Ops(payload)) == SpansOf(entry)
  {
    var order :| Enumerates(order, entry.spans.Keys) && payload == EmitTrace(trace, entry, order, names);
    OpsOfEmitted(trace, entry, order, names);
    EmittedOps(trace, entry, order, names);
    PutAllContent(trace, entry, order);
  }

  lemma PutAllContent(trace: string, entry: Entry, order: seq<string>)
    requires KeyedEntry(trace, entry) && Enumerates(order, entry.spans.Keys)
    ensures var ops := [Touch(trace)] + PutAll(entry, order);
            NoBad(ops) && Names(ops) == {trace} && Puts(ops) == SpansOf(entry)
  {
    PutAllSets(entry, order);
    var puts := PutAll(entry, order);
    var ops := [Touch(trace)] + puts;
    assert forall o :: o in ops <==> o == Touch(trace) || o in puts;
    forall c
      ensures c in Puts(ops) <==> c in SpansOf(entry)
    {
      if c in SpansOf(entry) {
        var id :| id in entry.spans && entry.spans[id] == c;
        assert id in order;
        assert Put(c) in ops;
      }
      if c in Puts(ops) {
        assert Put(c) in puts;
      }
    }
    assert Touch(trace) in ops && !Touch(trace).Bad?;
    assert trace in Names(ops);
    forall o | o in ops
      ensures !o.Bad? && (if o.Put? then o.span.trace else o.trace) == trace
    {
    }
  }

  ghost function SpansOf(entry: Entry): set<CSpan> {
    set id | id in entry.spans :: entry.spans[id]
  }

  /** All spans held by the store. */
  ghost function Held(s: State): set<CSpan> {
    set trace, id | trace in s.traces && id in s.traces[trace].spans :: s.traces[trace].spans[id]
  }

  ghost predicate Keyed(s: State) {
    forall trace :: trace in s.traces ==> KeyedEntry(trace, s.traces[trace])
  }

  lemma MergedIsKeyed(s: State, ops: seq<Op>)
    requires NormalOps(ops) && Run(EMPTY, ops) == (s, None)
    ensures Keyed(s)
  {
    RunSucceedsIff(ops);
    forall trace | trace in s.traces
      ensures KeyedEntry(trace, s.traces[trace])
    {
      assert EntryFits(Puts(ops), trace, EntryOf(s, trace));
      forall id | id in s.traces[trace].spans
        ensures NormalSpan(s.traces[trace].spans[id])
      {
        assert Put(s.traces[trace].spans[id]) in ops;
      }
    }
  }

  /** The spans of the traces listed so far. */
  ghost function HeldIn(s: State, order: seq<string>): set<CSpan> {
    if order == [] then {}
    else
      HeldIn(s, order[..|order| - 1]) + SpansOf(EntryOf(s, order[|order| - 1]))
  }

  lemma {:induction false} HeldInHas(s: State, order: seq<string>, c: CSpan)
    ensures c in HeldIn(s, order) <==> exists trace :: trace in order && c in SpansOf(EntryOf(s, trace))
  {
    if order != [] {
      var n := |order| - 1;
      HeldInHas(s, order[..n], c);
      assert order == order[..n] + [order[n]];
      assert forall t :: t in order <==> t in order[..n] || t == order[n];
    }
  }

  lemma HeldInAll(s: State, order: seq<string>)
    requires Enumerates(order, s.traces.Keys)
    ensures HeldIn(s, order) == Held(s)
  {
    forall c
      ensures c in HeldIn(s, order) <==> c in Held(s)
    {
      HeldInHas(s, order, c);
      if c in HeldIn(s, order) {
        var trace :| trace in order && c in SpansOf(EntryOf(s, trace));
        assert trace in s.traces;
      }
      if c in Held(s) {
        var trace, id :| trace in s.traces && id in s.traces[trace].spans && s.traces[trace].spans[id] == c;
        assert trace in order && c in SpansOf(EntryOf(s, trace));
      }
    }
  }

  lemma AppendSets(a: seq<Op>, b: seq<Op>)
    ensures Puts(a + b) == Puts(a) + Puts(b)
    ensures Names(a + b) == Names(a) + Names(b)
    ensures NoBad(a + b) <==> NoBad(a) && NoBad(b)
  {
    assert forall o :: o in a + b <==> o in a || o in b;
  }

  lemma NothingExported(s: State, data: seq<Json>, order: seq<string>)
    ensures ExportedSets(s, AllOps(data[..0]), order[..0])
  {
    assert AllOps(data[..0]) == [];
    assert Members(order[..0]) == {};
  }

  lemma ExportedNext(s: State, order: seq<string>, data: seq<Json>, n: nat)
    requires n < |data| == |order| && ExportedSets(s, AllOps(data[..n]), order[..n])
    requires NoBad(Ops(data[n])) && Names(Ops(data[n])) == {order[n]} && Puts(Ops(data[n])) == SpansOf(EntryOf(s, order[n]))
    ensures ExportedSets(s, AllOps(data[..n + 1]), order[..n + 1])
  {
    ExportedStep(s, AllOps(data[..n]), order[..n], Ops(data[n]), order[n]);
    AllOpsSnoc(data[..n], data[n]);
    assert data[..n + 1] == data[..n] + [data[n]];
    assert order[..n + 1] == order[..n] + [order[n]];
  }

  lemma {:induction false} ExportedOps(s: State, order: seq<string>, data: seq<Json>, names: seq<string>, n: nat)
    requires TagOrder(names) && Keyed(s) && Exports(s, order, data, names) && n <= |data|
    ensures ExportedSets(s, AllOps(data[..n]), order[..n])
  {
    if n == 0 {
      NothingExported(s, data, order);
    } else {
      ExportedOps(s, order, data, names, n - 1);
      ExportedTrace(s, order, data, names, n - 1);
      ExportedNext(s, order, data, n - 1);
    }
  }

  /** Operations that put the held spans of the listed traces and name just those traces. */
  ghost predicate ExportedSets(s: State, ops: seq<Op>, order: seq<string>) {
    NoBad(ops) && Names(ops) == Members(order) && Puts(ops) == HeldIn(s, order)
  }

  lemma ExportedStep(s: State, ops: seq<Op>, order: seq<string>, more: seq<Op>, trace: string)
    requires ExportedSets(s, ops, order)
    requires NoBad(more) && Names(more) == {trace} && Puts(more) == SpansOf(EntryOf(s, trace))
    ensures ExportedSets(s, ops + more, order + [trace])
  {
    AppendSets(ops, more);
    assert (order + [trace])[..|order|] == order;
    assert Members(order + [trace]) == Members(order) + {trace};
  }

  lemma ExportedTrace(s: State, order: seq<string>, data: seq<Json>, names: seq<string>, n: nat)
    requires TagOrder(names) && Keyed(s) && Exports(s, order, data, names) && n < |data|
    ensures NoBad(Ops(data[n])) && Names(Ops(data[n])) == {order[n]}
    ensures Puts(Ops(data[n])) == SpansOf(EntryOf(s, order[n]))
  {
    assert order[n] in order;
    assert ExportsTrace(order[n], EntryOf(s, order[n]), data[n], names);
    EmittedTraceOps(order[n], EntryOf(s, order[n]), data[n], names);
  }

  lemma HeldSets(s: State, ops: seq<Op>)
    requires Run(EMPTY, ops) == (s, None) && Keyed(s)
    ensures Keys(Held(s)) == Keys(Puts(ops))
    ensures forall trace :: IdsIn(Held(s), trace) == IdsIn(Puts(ops), trace)
    ensures forall trace :: ServicesIn(Held(s), trace) == ServicesIn(Puts(ops), trace)
  {
    RunSucceedsIff(ops);
    forall c | c in Held(s)
      ensures c in Puts(ops)
    {
      assert EntryFits(Puts(ops), c.trace, EntryOf(s, c.trace));
    }
    forall c | c in Puts(ops)
      ensures Represented(Held(s), c)
    {
      assert EntryFits(Puts(ops), c.trace, EntryOf(s, c.trace));
      assert c.id in IdsIn(Puts(ops), c.trace);
      var h := EntryOf(s, c.trace).spans[c.id];
      assert SameSpan(h, c);
      assert PlainSpan(h).service == h.service && PlainSpan(c).service == c.service;
      assert h in Held(s) && Represents(h, c);
    }
    RepresentedSets(Held(s), Puts(ops));
  }

  ghost predicate Represents(h: CSpan, c: CSpan) {
    h.trace == c.trace && h.id == c.id && h.service == c.service
  }

  ghost predicate Represented(held: set<CSpan>, c: CSpan) {
    exists h :: h in held && Represents(h, c)
  }

  lemma RepresentedSets(held: set<CSpan>, puts: set<CSpan>)
    requires held <= puts && forall c :: c in puts ==> Represented(held, c)
    ensures Keys(held) == Keys(puts)
    ensures forall trace :: IdsIn(held, trace) == IdsIn(puts, trace)
    ensures forall trace :: ServicesIn(held, trace) == ServicesIn(puts, trace)
  {
    forall key | key in Keys(puts)
      ensures key in Keys(held)
    {
      var c :| c in puts && (c.trace, c.id) == key;
      var h :| h in held && Represents(h, c);
      assert (h.trace, h.id) in Keys(held);
    }
    forall trace
      ensures IdsIn(held, trace) == IdsIn(puts, trace)
      ensures ServicesIn(held, trace) == ServicesIn(puts, trace)
    {
      RepresentedIds(held, puts, trace);
    }
  }

  lemma RepresentedIds(held: set<CSpan>, puts: set<CSpan>, trace: string)
    requires held <= puts && forall c :: c in puts ==> Represented(held, c)
    ensures IdsIn(held, trace) == IdsIn(puts, trace)
    ensures ServicesIn(held, trace) == ServicesIn(puts, trace)
  {
    forall id | id in IdsIn(puts, trace)
      ensures id in IdsIn(held, trace)
    {
      var c :| c in puts && c.trace == trace && c.id == id;
      var h :| h in held && Represents(h, c);
    }
    forall service | service in ServicesIn(puts, trace)
      ensures service in ServicesIn(held, trace)
    {
      var c :| c in puts && c.trace == trace && c.service == service;
      var h :| h in held && Represents(h, c);
    }
  }

  lemma HeldOneSpelling(s: State)
    requires Keyed(s)
    ensures OneSpelling(Held(s)) && Consistent(Held(s))
  {
  }

  /** Two entries that fit the same singly-spelled spans are equal. */
  lemma FittingIsUnique(puts: set<CSpan>, trace: string, x: Entry, y: Entry)
    requires OneSpelling(puts) && EntryFits(puts, trace, x) && EntryFits(puts, trace, y)
    ensures x == y
  {
    assert x.spans == y.spans;
  }

  lemma HeldFits(s: State, ops: seq<Op>, trace: string)
    requires Run(EMPTY, ops) == (s, None) && Keyed(s)
    ensures EntryFits(Held(s), trace, EntryOf(s, trace))
  {
    RunSucceedsIff(ops);
    HeldSets(s, ops);
    assert EntryFits(Puts(ops), trace, EntryOf(s, trace));
    assert IdsIn(Held(s), trace) == IdsIn(Puts(ops), trace);
    assert ServicesIn(Held(s), trace) == ServicesIn(Puts(ops), trace);
    forall id | id in EntryOf(s, trace).spans
      ensures EntryOf(s, trace).spans[id] in Held(s)
    {
      assert trace in s.traces;
    }
  }

  /** Operations that put exactly the held spans and name exactly the held traces rebuild the store. */
  lemma Rebuilds(s: State, ops: seq<Op>, again: seq<Op>)
    requires Run(EMPTY, ops) == (s, None) && Keyed(s)
    requires NoBad(again) && Names(again) == s.traces.Keys && Puts(again) == Held(s)
    ensures Run(EMPTY, again) == (s, None)
  {
    RunSucceedsIff(ops);
    HeldSets(s, ops);
    HeldOneSpelling(s);
    forall trace
      ensures |IdsIn(Puts(again), trace)| <= MAX_TRACE_SPANS
    {
      assert IdsIn(Held(s), trace) == IdsIn(Puts(ops), trace);
      assert |IdsIn(Puts(ops), trace)| <= MAX_TRACE_SPANS;
    }
    RunSucceedsIff(again);
    var s' := Run(EMPTY, again).0;
    forall trace | trace in s.traces
      ensures s'.traces[trace] == s.traces[trace]
    {
      HeldFits(s, ops, trace);
      assert EntryFits(Puts(again), trace, EntryOf(s', trace));
      FittingIsUnique(Held(s), trace, EntryOf(s', trace), EntryOf(s, trace));
    }
    assert s'.traces == s.traces;
  }

  lemma ExportedContent(s: State, order: seq<string>, data: seq<Json>, names: seq<string>)
    requires TagOrder(names) && Keyed(s) && Exports(s, order, data, names)
    ensures NoBad(AllOps(data)) && Names(AllOps(data)) == s.traces.Keys && Puts(AllOps(data)) == Held(s)
  {
    ExportedAll(s, order, data, names);
    HeldInAll(s, order);
    assert Members(order) == s.traces.Keys;
  }

  lemma ExportedAll(s: State, order: seq<string>, data: seq<Json>, names: seq<string>)
    requires TagOrder(names) && Keyed(s) && Exports(s, order, data, names)
    ensures NoBad(AllOps(data))
    ensures Names(AllOps(data)) == Members(order)
    ensures Puts(AllOps(data)) == HeldIn(s, order)
  {
    assert data[..|data|] == data && order[..|data|] == order;
    ExportedOps(s, order, data, names, |data|);
  }

  /** Feeding an export to a fresh accumulator is accepted and rebuilds exactly the exported store, whatever
      the order of traces, spans and tags in the export. */
  lemma ReadBack(s: State, order: seq<string>, data: seq<Json>, names: seq<string>)
    requires TagOrder(names) && Merged(s) && Exports(s, order, data, names)
    ensures Run(EMPTY, AllOps(data)) == (s, None)
  {
    var ops :| NormalOps(ops) && Run(EMPTY, ops) == (s, None);
    MergedIsKeyed(s, ops);
    ExportedContent(s, order, data, names);
    Rebuilds(s, ops, AllOps(data));
  }
}
