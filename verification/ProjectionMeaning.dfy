/** What the accumulator stores for a span, in terms of the JSON it comes from: exactly which spans are projected, and to
    what. */
module ProjectionMeaning {
  import opened Prelude
  import opened Json
  import opened Numerals
  import opened TraceStore
  import opened TraceProjection
  import opened LastValues

  // ----- tags -----

  const KEYS := {"span.kind", "error", "status.code", "http.status_code", "http.response.status_code", "otel.status_code"}

  /** The tag gives the key this value: an error is a flag, or a typed message that only marks presence, and a kind is a
      text of at most 64 characters. */
  ghost predicate Tagged(tag: Json, key: string, v: Json) {
    && tag.Obj? && Get(tag.fields, "key", Null) == Str(key)
    && var value := Get(tag.fields, "value", Null);
    && (key == "error" ==> if value.Bool? then v == value
                           else value.Str? && Get(tag.fields, "type", Null) == Str("string") && v == Bool(true))
    && (key != "error" ==> v == value)
    && (key == "span.kind" ==> value.Str? && |value.s| <= 64)
  }

  ghost predicate TagFits(tag: Json) {
    && tag.Obj?
    && var key := Get(tag.fields, "key", Null);
    && !Unhashable(key) && (key.Str? && key.s in KEYS ==> Gives(Tagged, tag, key.s))
  }

  ghost predicate TagsFit(tags: seq<Json>) {
    forall i :: 0 <= i < |tags| ==> TagFits(tags[i])
  }

  lemma TaggedIsFunctional()
    ensures Functional(Tagged)
  {
  }

  lemma KeysAre(key: string)
    ensures key in KEYS <==> Relevant(key)
  {
  }

  lemma ValueIff(tag: Json, key: string, v: Json)
    requires tag.Obj? && Get(tag.fields, "key", Null) == Str(key)
    ensures TagValue(key, tag.fields) == Ok(v) <==> Tagged(tag, key, v)
  {
    TagNames();
  }

  /** What one tag does to those found so far. */
  lemma TagStepIff(found: Tags, tag: Json, front: seq<Json>)
    requires Found(Tagged, front, KEYS, found) && Agreeing(Tagged, front, KEYS)
    ensures TagStep(found, tag).Ok? <==> TagFits(tag) && Agreeing(Tagged, front + [tag], KEYS)
    ensures TagStep(found, tag).Ok? ==> Found(Tagged, front + [tag], KEYS, TagStep(found, tag).value)
  {
    hide Found, Agreeing, Functional, TagValue, Tagged, KEYS, Relevant;
    TaggedIsFunctional();
    if tag.Obj? && !Unhashable(Get(tag.fields, "key", Null)) {
      var key := Get(tag.fields, "key", Null);
      if key.Str? {
        KeysAre(key.s);
        forall v { ValueIff(tag, key.s, v); }
      }
      if key.Str? && key.s in KEYS {
        if v :| Tagged(tag, key.s, v) {
          AgreeingMore(Tagged, front, tag, KEYS, found, key.s, v);
          FoundAdds(Tagged, front, tag, KEYS, found, key.s, v);
        }
      } else {
        forall k | k in KEYS
          ensures !Gives(Tagged, tag, k)
        {
          OtherTag(tag, k);
        }
        Skips(Tagged, front, tag, KEYS, found);
      }
    }
  }

  lemma OtherTag(tag: Json, k: string)
    requires tag.Obj? && Get(tag.fields, "key", Null) != Str(k)
    ensures !Gives(Tagged, tag, k)
  {
  }

  /** Reading succeeds exactly when every tag fits and the values of one key agree, and finds the last value of each. */
  lemma {:induction false} TagsIff(tags: seq<Json>)
    ensures ReadTags(tags).Ok? <==> TagsFit(tags) && Agreeing(Tagged, tags, KEYS)
    ensures ReadTags(tags).Ok? ==> Found(Tagged, tags, KEYS, ReadTags(tags).value)
  {
    hide Tagged, KEYS, Agreeing, TagStep, TagFits;
    if tags == [] {
      FoundNothing(Tagged, KEYS);
    } else {
      var n := |tags| - 1;
      var front, tag := tags[..n], tags[n];
      assert tags == front + [tag];
      TagsIff(front);
      if Agreeing(Tagged, tags, KEYS) {
        AgreeingFront(Tagged, front, tag, KEYS);
      }
      if ReadTags(front).Ok? {
        TagStepIff(ReadTags(front).value, tag, front);
      }
    }
  }

  // ----- the two folded tags -----

  /** A number between 100 and 599, or its digits. */
  ghost predicate HttpCode(v: Json, n: int) {
    Writes(v, n) && 100 <= n <= 599
  }

  ghost predicate Writes(v: Json, n: int) {
    n >= 0 && (v == Int(n) || (v.Str? && Numeral(v.s) && Value(v.s) == n))
  }

  lemma WritesIff(v: Json, n: nat)
    ensures StatusNumber(v) == Some(n) <==> Writes(v, n)
  {
  }

  /** What the HTTP status becomes: the stable name wins, as a number, and must agree with the old name. */
  ghost predicate HttpFolds(read: Tags, tags: Tags) {
    if "http.response.status_code" in read then
      exists n :: && HttpCode(read["http.response.status_code"], n)
                  && ("http.status_code" in read ==> Writes(read["http.status_code"], n))
                  && "http.status_code" in tags && tags["http.status_code"] == Int(n)
    else SameAt(read, tags, "http.status_code")
  }

  /** What the error flag becomes: set by an OpenTelemetry status of ERROR or by the flag itself, and cleared by neither
      UNSET nor OK. */
  ghost predicate StatusFolds(read: Tags, tags: Tags) {
    if "otel.status_code" in read then
      && read["otel.status_code"] in {Str("UNSET"), Str("OK"), Str("ERROR")}
      && "error" in tags
      && tags["error"] == Bool(read["otel.status_code"] == Str("ERROR") || ("error" in read && read["error"] == Bool(true)))
    else SameAt(read, tags, "error")
  }

  ghost predicate SameAt(read: Tags, tags: Tags, key: string) {
    (key in tags <==> key in read) && (key in read ==> tags[key] == read[key])
  }

  /** The other two tags stay, the two newer names go, and there is nothing else. */
  ghost predicate Folds(read: Tags, tags: Tags) {
    && HttpFolds(read, tags) && StatusFolds(read, tags)
    && SameAt(read, tags, "span.kind") && SameAt(read, tags, "status.code")
    && tags.Keys <= {"span.kind", "error", "status.code", "http.status_code"}
  }

  lemma FoldsOnce(read: Tags, a: Tags, b: Tags)
    requires Folds(read, a) && Folds(read, b)
    ensures a == b
  {
    assert forall k :: k in a.Keys + b.Keys ==> k in {"span.kind", "error", "status.code", "http.status_code"};
    HttpOnce(read, a, b);
    assert forall k :: k in a <==> k in b;
    assert forall k :: k in a ==> a[k] == b[k];
  }

  lemma HttpOnce(read: Tags, a: Tags, b: Tags)
    requires HttpFolds(read, a) && HttpFolds(read, b)
    ensures SameAt(a, b, "http.status_code")
  {
  }

  lemma HttpFoldsIff(read: Tags)
    requires read.Keys <= KEYS
    ensures FoldHttp(read).Ok? ==> && HttpFolds(read, FoldHttp(read).value)
                                   && (forall k :: k in KEYS && k != HTTP && k != MODERN ==> SameAt(read, FoldHttp(read).value, k))
                                   && FoldHttp(read).value.Keys <= KEYS - {MODERN}
    ensures FoldHttp(read).Err? ==> forall tags :: !HttpFolds(read, tags)
  {
    TagNames();
    if MODERN in read {
      forall n: nat { WritesIff(read[MODERN], n); }
      if HTTP in read {
        forall n: nat { WritesIff(read[HTTP], n); }
      }
    }
  }

  lemma StatusFoldsIff(read: Tags)
    ensures FoldStatus(read).Ok? ==> && StatusFolds(read, FoldStatus(read).value)
                                     && (forall k :: k != ERROR && k != OTEL ==> SameAt(read, FoldStatus(read).value, k))
                                     && FoldStatus(read).value.Keys <= read.Keys + {ERROR} - {OTEL}
    ensures FoldStatus(read).Err? ==> forall tags :: !StatusFolds(read, tags)
  {
    TagNames();
  }

  lemma NormalizeFolds(read: Tags)
    requires read.Keys <= KEYS && Normalize(read).Ok?
    ensures Folds(read, Normalize(read).value)
  {
    hide FoldHttp, FoldStatus;
    TagNames();
    HttpFoldsIff(read);
    var folded := FoldHttp(read).value;
    StatusFoldsIff(folded);
    var tags := FoldStatus(folded).value;
    assert SameAt(folded, tags, HTTP) && SameAt(folded, tags, KIND) && SameAt(folded, tags, STATUS);
    assert SameAt(read, folded, ERROR) && SameAt(read, folded, OTEL) && SameAt(read, folded, KIND) && SameAt(read, folded, STATUS);
    assert KEYS == {KIND, ERROR, STATUS, HTTP, MODERN, OTEL};
  }

  lemma FoldsNormalize(read: Tags, tags: Tags)
    requires read.Keys <= KEYS && Folds(read, tags)
    ensures Normalize(read).Ok?
  {
    hide FoldHttp, FoldStatus;
    TagNames();
    HttpFoldsIff(read);
    if FoldHttp(read).Ok? {
      var folded := FoldHttp(read).value;
      StatusFoldsIff(folded);
      assert SameAt(read, folded, ERROR) && SameAt(read, folded, OTEL);
      assert StatusFolds(folded, tags) by {
        assert StatusFolds(read, tags);
      }
    }
  }

  lemma NormalizeIff(read: Tags, tags: Tags)
    requires read.Keys <= KEYS
    ensures Normalize(read) == Ok(tags) <==> Folds(read, tags)
  {
    hide Normalize, Folds;
    if Normalize(read).Ok? {
      NormalizeFolds(read);
    }
    if Folds(read, tags) {
      FoldsNormalize(read, tags);
      FoldsOnce(read, tags, Normalize(read).value);
    }
  }

  // ----- the parent -----

  predicate IsChildOf(ref: Json) {
    ref.Obj? && Get(ref.fields, "refType", Null) == Str("CHILD_OF")
  }

  ghost predicate RefFits(trace: string, ref: Json) {
    ref.Obj? && (IsChildOf(ref) ==> "traceID" in ref.fields ==> ref.fields["traceID"] == Str(trace))
  }

  ghost predicate RefsFit(trace: string, refs: seq<Json>) {
    forall i :: 0 <= i < |refs| ==> RefFits(trace, refs[i])
  }

  /** All parent references name this one, or there is none. */
  ghost predicate IsParent(refs: seq<Json>, parent: Option<string>) {
    match parent
    case None => forall i :: 0 <= i < |refs| ==> !IsChildOf(refs[i])
    case Some(id) =>
      && (exists i :: 0 <= i < |refs| && IsChildOf(refs[i]))
      && (forall i :: 0 <= i < |refs| && IsChildOf(refs[i]) ==> Get(refs[i].fields, "spanID", Null) == Str(id))
  }

  /** The list holds what the parent references name. */
  ghost predicate Parents(refs: seq<Json>, parents: seq<Json>) {
    && (forall i :: 0 <= i < |refs| && IsChildOf(refs[i]) ==> Get(refs[i].fields, "spanID", Null) in parents)
    && (forall p :: p in parents ==> exists i :: 0 <= i < |refs| && IsChildOf(refs[i]) && Get(refs[i].fields, "spanID", Null) == p)
  }

  lemma ParentsMore(refs: seq<Json>, ref: Json, parents: seq<Json>)
    requires Parents(refs, parents) && ref.Obj?
    ensures Parents(refs + [ref], if IsChildOf(ref) then parents + [Get(ref.fields, "spanID", Null)] else parents)
  {
    var all := refs + [ref];
    assert all[|refs|] == ref;
    var more := if IsChildOf(ref) then parents + [Get(ref.fields, "spanID", Null)] else parents;
    forall p | p in more
      ensures exists i :: 0 <= i < |all| && IsChildOf(all[i]) && Get(all[i].fields, "spanID", Null) == p
    {
      if p in parents {
        var i :| 0 <= i < |refs| && IsChildOf(refs[i]) && Get(refs[i].fields, "spanID", Null) == p;
        assert all[i] == refs[i];
      } else {
        assert IsChildOf(all[|refs|]);
      }
    }
    forall i | 0 <= i < |all| && IsChildOf(all[i])
      ensures Get(all[i].fields, "spanID", Null) in more
    {
      if i < |refs| {
        assert all[i] == refs[i];
      }
    }
  }

  lemma {:induction false} ParentsIff(trace: string, refs: seq<Json>)
    ensures ReadParents(trace, refs).Ok? <==> RefsFit(trace, refs)
    ensures ReadParents(trace, refs).Ok? ==> Parents(refs, ReadParents(trace, refs).value)
  {
    hide Parents;
    if refs == [] {
      NoParents();
    } else {
      var n := |refs| - 1;
      var front, ref := refs[..n], refs[n];
      assert refs == front + [ref];
      ParentsIff(trace, front);
      assert RefsFit(trace, refs) <==> RefsFit(trace, front) && RefFits(trace, ref);
      if ReadParents(trace, refs).Ok? {
        ParentsMore(front, ref, ReadParents(trace, front).value);
      }
    }
  }

  lemma NoParents()
    ensures Parents([], [])
  {
  }

  lemma ParentIff(refs: seq<Json>, parents: seq<Json>, parent: Option<string>)
    requires Parents(refs, parents)
    ensures OneParent(parents) == Ok(parent) <==> IsParent(refs, parent)
  {
    if parents != [] {
      assert parents[0] in parents;
    }
    if i :| 0 <= i < |refs| && IsChildOf(refs[i]) {
      assert Get(refs[i].fields, "spanID", Null) in parents;
    }
  }

  // ----- a whole span -----

  /** The span's process is one of the payload's, and names the service. */
  ghost predicate Serves(processes: map<string, Json>, processId: Json, service: string) {
    && service != "" && processId.Str? && processId.s in processes && processes[processId.s].Obj?
    && Get(processes[processId.s].fields, "serviceName", Null) == Str(service)
  }

  /** The span c is what these fields say, with these values read from its tags. */
  ghost predicate Says(processes: map<string, Json>, f: map<string, Json>, c: CSpan, read: Tags) {
    var tags, refs := Get(f, "tags", Arr([])), Get(f, "references", Arr([]));
    && Get(f, "traceID", Null) == Str(c.trace) && Get(f, "spanID", Null) == Str(c.id)
    && Serves(processes, Get(f, "processID", Null), c.service)
    && Get(f, "startTime", Null) == Int(c.start) && Get(f, "duration", Null) == Int(c.duration)
    && tags.Arr? && TagsFit(tags.items) && Agreeing(Tagged, tags.items, KEYS) && Found(Tagged, tags.items, KEYS, read)
    && Folds(read, c.tags)
    && refs.Arr? && RefsFit(c.trace, refs.items) && IsParent(refs.items, c.parent)
  }

  ghost predicate Means(trace: string, processes: map<string, Json>, span: Json, c: CSpan) {
    c.trace == trace && span.Obj? && exists read :: Says(processes, span.fields, c, read)
  }

  lemma FoundOnce(tags: seq<Json>, a: Tags, b: Tags)
    requires Found(Tagged, tags, KEYS, a) && Found(Tagged, tags, KEYS, b)
    ensures a == b
  {
    TaggedIsFunctional();
    hide Tagged, Functional, Found;
    forall k | k in KEYS
      ensures (k in a <==> k in b) && (k in a ==> a[k] == b[k])
    {
      if k in a {
        FoundIff(Tagged, tags, KEYS, a, k, a[k]);
        FoundIff(Tagged, tags, KEYS, b, k, a[k]);
      } else {
        FoundIff(Tagged, tags, KEYS, a, k, Null);
        FoundIff(Tagged, tags, KEYS, b, k, Null);
      }
    }
    FoundKeys(tags, a);
    FoundKeys(tags, b);
    assert a.Keys == b.Keys;
  }

  lemma FoundKeys(tags: seq<Json>, found: Tags)
    requires Found(Tagged, tags, KEYS, found)
    ensures found.Keys <= KEYS
  {
  }

  lemma ProjectMeans(trace: string, processes: map<string, Json>, span: Json)
    requires Project(trace, processes, span).Ok?
    ensures Means(trace, processes, span, Project(trace, processes, span).value)
  {
    hide ReadTags, Normalize, ReadParents, OneParent, TagsFit, Agreeing, Found, Folds, RefsFit, IsParent, Parents, Tagged, KEYS;
    var tags, refs := Get(span.fields, "tags", Arr([])).items, Get(span.fields, "references", Arr([])).items;
    var read := ReadTags(tags).value;
    TagsIff(tags);
    FoundKeys(tags, read);
    NormalizeIff(read, Normalize(read).value);
    ParentsIff(trace, refs);
    var parents := ReadParents(trace, refs).value;
    ParentIff(refs, parents, OneParent(parents).value);
    assert Says(processes, span.fields, Project(trace, processes, span).value, read);
  }

  lemma SaysProject(processes: map<string, Json>, span: Json, c: CSpan, read: Tags)
    requires span.Obj? && Says(processes, span.fields, c, read)
    ensures Project(c.trace, processes, span) == Ok(c)
  {
    hide ReadTags, Normalize, ReadParents, OneParent, TagsFit, Agreeing, Found, Folds, RefsFit, IsParent, Parents, Tagged, KEYS;
    var tags, refs := Get(span.fields, "tags", Arr([])).items, Get(span.fields, "references", Arr([])).items;
    TagsIff(tags);
    FoundOnce(tags, read, ReadTags(tags).value);
    FoundKeys(tags, read);
    NormalizeIff(read, c.tags);
    ParentsIff(c.trace, refs);
    ParentIff(refs, ReadParents(c.trace, refs).value, c.parent);
  }

  /** Exactly which spans of a payload are projected, and to what: their identity, times and service, the last value of
      each relevant tag with the two newer names folded in, and the one parent they name. */
  lemma ProjectIff(trace: string, processes: map<string, Json>, span: Json, c: CSpan)
    ensures Project(trace, processes, span) == Ok(c) <==> Means(trace, processes, span, c)
  {
    hide Project, Says;
    if Project(trace, processes, span) == Ok(c) {
      ProjectMeans(trace, processes, span);
    }
    if Means(trace, processes, span, c) {
      var read :| Says(processes, span.fields, c, read);
      SaysProject(processes, span, c, read);
    }
  }

  // ----- a whole payload -----

  ghost predicate Carries(payload: Json, trace: string, processes: map<string, Json>, spans: seq<Json>) {
    && payload.Obj? && Get(payload.fields, "traceID", Null) == Str(trace)
    && Get(payload.fields, "processes", Obj(map[])) == Obj(processes)
    && Get(payload.fields, "spans", Arr([])) == Arr(spans)
  }

  lemma {:induction false} SpanOpsAre(trace: string, processes: map<string, Json>, spans: seq<Json>, i: nat)
    requires i < |spans|
    ensures SpanOps(trace, processes, spans)[i] == SpanOp(trace, processes, spans[i])
  {
    if i < |spans| - 1 {
      SpanOpsAre(trace, processes, spans[..|spans| - 1], i);
    }
  }

  lemma SpanOpIff(trace: string, processes: map<string, Json>, span: Json)
    ensures forall c :: SpanOp(trace, processes, span) == Put(c) <==> Means(trace, processes, span, c)
    ensures SpanOp(trace, processes, span).Bad? <==> !exists c :: Means(trace, processes, span, c)
    ensures !SpanOp(trace, processes, span).Touch?
  {
    hide Project, Means;
    forall c { ProjectIff(trace, processes, span, c); }
    if Project(trace, processes, span).Ok? {
      assert Means(trace, processes, span, Project(trace, processes, span).value);
    }
  }

  /** The spans a payload asks to store are exactly those that its spans mean, all of them in its trace. */
  lemma PayloadPuts(payload: Json, trace: string, processes: map<string, Json>, spans: seq<Json>, c: CSpan)
    requires Carries(payload, trace, processes, spans)
    ensures c in Puts(Ops(payload)) <==> exists span :: span in spans && Means(trace, processes, span, c)
    ensures c in Puts(Ops(payload)) ==> c.trace == trace
    ensures Touch(trace) in Ops(payload) && forall t :: Touch(t) in Ops(payload) ==> t == trace
  {
    hide SpanOp, SpanOps, Says;
    var ops := SpanOps(trace, processes, spans);
    assert Ops(payload) == [Touch(trace)] + ops;
    forall i | 0 <= i < |spans|
      ensures ops[i] == SpanOp(trace, processes, spans[i]) && !ops[i].Touch?
    {
      SpanOpsAre(trace, processes, spans, i);
      SpanOpIff(trace, processes, spans[i]);
    }
    if Put(c) in ops {
      var i :| 0 <= i < |ops| && ops[i] == Put(c);
      SpanOpIff(trace, processes, spans[i]);
    }
    if span :| span in spans && Means(trace, processes, span, c) {
      var i :| 0 <= i < |spans| && spans[i] == span;
      SpanOpIff(trace, processes, span);
      assert ops[i] == Put(c);
    }
  }

  /** A payload is malformed exactly when it is none or one of its spans means nothing. */
  lemma PayloadReads(payload: Json)
    ensures NoBad(Ops(payload))
            <==> exists trace, processes, spans ::
                   Carries(payload, trace, processes, spans)
                   && forall span :: span in spans ==> exists c :: Means(trace, processes, span, c)
  {
    hide SpanOp, SpanOps, Means;
    if payload.Obj? && Get(payload.fields, "traceID", Null).Str? && Get(payload.fields, "processes", Obj(map[])).Obj?
       && Get(payload.fields, "spans", Arr([])).Arr? {
      var trace, processes := Get(payload.fields, "traceID", Null).s, Get(payload.fields, "processes", Obj(map[])).fields;
      var spans := Get(payload.fields, "spans", Arr([])).items;
      assert Carries(payload, trace, processes, spans);
      SpansRead(trace, processes, spans);
      var ops := SpanOps(trace, processes, spans);
      assert Ops(payload) == [Touch(trace)] + ops;
      assert forall o :: o in Ops(payload) <==> o == Touch(trace) || o in ops;
    } else {
      assert Ops(payload)[0].Bad?;
    }
  }

  lemma SpansRead(trace: string, processes: map<string, Json>, spans: seq<Json>)
    ensures NoBad(SpanOps(trace, processes, spans)) <==> forall span :: span in spans ==> exists c :: Means(trace, processes, span, c)
  {
    hide SpanOp, SpanOps, Means;
    var ops := SpanOps(trace, processes, spans);
    forall i | 0 <= i < |spans|
      ensures ops[i].Bad? <==> !exists c :: Means(trace, processes, spans[i], c)
    {
      SpanOpsAre(trace, processes, spans, i);
      SpanOpIff(trace, processes, spans[i]);
    }
    if NoBad(ops) {
      forall span | span in spans
        ensures exists c :: Means(trace, processes, span, c)
      {
        var i :| 0 <= i < |spans| && spans[i] == span;
        assert ops[i] in ops;
      }
    }
    if forall span :: span in spans ==> exists c :: Means(trace, processes, span, c) {
      forall o | o in ops
        ensures !o.Bad?
      {
        var i :| 0 <= i < |ops| && ops[i] == o;
        assert spans[i] in spans;
      }
    }
  }
}
