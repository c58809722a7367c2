/** A whole collection: search every service, merge everything found, and why the way the search was split
    cannot be seen afterwards. */
module TraceCollection {
  import opened Prelude
  import opened Json
  import opened TraceStore
  import opened TraceProjection
  import opened TraceSearch
  import Acc = TraceAccumulator

  /** A trace the backend holds: what it asks of the store when read, and when each service appears in it. */
  datatype StoredTrace = StoredTrace(content: seq<Op>, times: map<string, set<int>>)

  type Backend = World<Json, StoredTrace>

  /** The accumulator holds exactly what these payloads leave in a fresh one. */
  ghost predicate Holds(accumulator: Acc.TraceAccumulator, payloads: seq<Json>)
    reads accumulator
  {
    Run(EMPTY, AllOps(payloads)) == (accumulator.Contents(), None)
  }

  // ----- merging while collecting -----

  lemma MergeStep(done: seq<Json>, payloads: seq<Json>, n: nat)
    requires n < |payloads|
    ensures AllOps(done + payloads[..n + 1]) == AllOps(done + payloads[..n]) + Ops(payloads[n])
  {
    assert done + payloads[..n + 1] == (done + payloads[..n]) + [payloads[n]];
    AllOpsSnoc(done + payloads[..n], payloads[n]);
  }

  method Merge(accumulator: Acc.TraceAccumulator, payloads: seq<Json>, ghost done: seq<Json>)
    returns (error: Option<Code>)
    requires Holds(accumulator, done)
    modifies accumulator
    ensures error.None? ==> Holds(accumulator, done + payloads)
    ensures error.Some? ==> Run(EMPTY, AllOps(done + payloads)).1 == error
  {
    hide Run, AllOps, Ops;
    assert done + payloads[..0] == done;
    for n := 0 to |payloads|
      invariant Holds(accumulator, done + payloads[..n])
    {
      MergeStep(done, payloads, n);
      RunAppend(EMPTY, AllOps(done + payloads[..n]), Ops(payloads[n]));
      error := accumulator.Add(payloads[n]);
      if error.Some? {
        FailureStays(done, payloads, n + 1);
        return;
      }
    }
    assert payloads[..|payloads|] == payloads;
    error := None;
  }

  lemma FailureStays(done: seq<Json>, payloads: seq<Json>, n: nat)
    requires n <= |payloads| && Run(EMPTY, AllOps(done + payloads[..n])).1.Some?
    ensures Run(EMPTY, AllOps(done + payloads)) == Run(EMPTY, AllOps(done + payloads[..n]))
  {
    hide Run, Ops;
    var front, rest := done + payloads[..n], payloads[n..];
    assert done + payloads == front + rest;
    FlatMapAppend(Ops, front, rest);
    RunAppend(EMPTY, AllOps(front), AllOps(rest));
  }

  // ----- why a collection fails -----

  /** The requests of the searches so far were all answered, or only the last search stopped. */
  ghost predicate Fails(source: Source<Json>, v3: bool, remaining: int, log: seq<Asked>, from: nat, payloads: seq<Json>,
                        code: Code) {
    || Stopped(source, v3, remaining, log, from, code)
    || (Answered(source, v3, log, from, |log|) && remaining >= 0 && Run(EMPTY, AllOps(payloads)).1 == Some(code))
  }

  lemma FailsLater(source: Source<Json>, v3: bool, remaining: int, log: seq<Asked>, from: nat, next: nat,
                   payloads: seq<Json>, code: Code)
    requires from <= next <= |log| && Answered(source, v3, log, from, next) && Fails(source, v3, remaining, log, next, payloads, code)
    ensures Fails(source, v3, remaining, log, from, payloads, code)
  {
    StopsWithHalf(source, v3, remaining, log, from, next);
  }

  // ----- what is asked for -----

  /** The k-th chunk of the window: five minutes, or what is left of it. */
  ghost predicate IsChunk(a: Asked, services: seq<string>, start: real, end: real, k: nat) {
    && a.service in services && a.left == start + k as real * 300.0 && a.left < end
    && a.right == if a.left + 300.0 < end then a.left + 300.0 else end
  }

  /** Every request up to a number asks for a chunk of the window, or for half of a saturated window asked for before. */
  ghost predicate AsksChunks(source: Source<Json>, v3: bool, services: seq<string>, start: real, end: real, log: seq<Asked>,
                             to: nat) {
    && to <= |log|
    && forall n :: 0 <= n < to ==> (exists k: nat :: IsChunk(log[n], services, start, end, k)) || Halves(source, v3, log, 0, n)
  }

  lemma HalvesStays(source: Source<Json>, v3: bool, a: seq<Asked>, b: seq<Asked>, from: nat, n: nat)
    requires a <= b && n < |a| && Halves(source, v3, a, from, n)
    ensures Halves(source, v3, b, 0, n)
  {
    var m: nat :| from <= m < n && Half(a[n], a[m]) && Saturated(source, v3, a[m], m);
    assert Half(b[n], b[m]) && Saturated(source, v3, b[m], m);
  }

  /** One more chunk, searched. */
  lemma ChunkAsked(source: Source<Json>, v3: bool, services: seq<string>, start: real, end: real, before: seq<Asked>,
                   log: seq<Asked>, chunk: Asked, k: nat)
    requires before <= log && AsksChunks(source, v3, services, start, end, before, |before|)
    requires Splits(source, v3, log, |before|, chunk) && IsChunk(chunk, services, start, end, k)
    ensures AsksChunks(source, v3, services, start, end, log, |log|)
  {
    hide Saturated, Half, IsChunk;
    forall n | 0 <= n < |log|
      ensures (exists k: nat :: IsChunk(log[n], services, start, end, k)) || Halves(source, v3, log, 0, n)
    {
      if n < |before| {
        assert log[n] == before[n];
        if Halves(source, v3, before, 0, n) {
          HalvesStays(source, v3, before, log, 0, n);
        }
      } else if n > |before| {
        HalvesStays(source, v3, log, log, |before|, n);
      }
    }
  }

  /** One chunk: search it, then merge what was found. */
  method CollectChunk<T(!new)>(source: Source<Json>, v3: bool, services: seq<string>, service: string,
                               start: real, left: real, end: real, budget: Budget, accumulator: Acc.TraceAccumulator,
                               ghost w: World<Json, T>, ghost done: seq<Json>, ghost more: seq<Json>, ghost k: nat)
    returns (error: Option<Code>, right: real, ghost found: seq<Json>)
    requires start <= left < end && budget.remaining >= 0 && service in services && budget.Valid()
    requires left == start + k as real * 300.0
    requires AsksChunks(source, v3, services, start, end, budget.log, budget.issued)
    requires Holds(accumulator, done + more)
    requires Honest(source, w) ==> Reached(w, services, service, start, left, end, done, more)
    modifies budget, accumulator
    ensures left < right <= end && (right < end ==> right == start + (k + 1) as real * 300.0)
    ensures AsksChunks(source, v3, services, start, end, budget.log, budget.issued)
    ensures budget.Valid() && budget.Total() == old(budget.Total()) && old(budget.log) <= budget.log
    ensures error.Some? ==>
              Fails(source, v3, budget.remaining, budget.log, old(budget.issued), done + (more + found), error.value)
    ensures error.None? ==>
              && 0 <= budget.remaining < old(budget.remaining)
              && Answered(source, v3, budget.log, old(budget.issued), budget.issued)
              && Holds(accumulator, done + (more + found))
              && (Honest(source, w) ==> Reached(w, services, service, start, right, end, done, more + found))
  {
    hide Splits, Answered, Stopped, Reached, Complete, Genuine, Honest, Run, AllOps, Spoils, AsksChunks;
    ghost var before := budget.log;
    found := [];
    right := if left + TRACE_CHUNK_SECONDS < end then left + TRACE_CHUNK_SECONDS else end;
    var searched := JaegerInterval(source, v3, service, left, right, budget, w);
    ChunkAsked(source, v3, services, start, end, before, budget.log, Asked(service, left, right), k);
    if searched.Err? {
      return Some(searched.error), right, found;
    }
    found := searched.value;
    error := Merge(accumulator, searched.value, done + more);
    assert done + more + found == done + (more + found);
    if Honest(source, w) {
      ChunkJoins(w, services, service, start, left, right, end, done, more, found);
    }
  }

  lemma NothingReached<T(!new)>(source: Source<Json>, w: World<Json, T>, services: seq<string>, service: string, start: real,
                                end: real, done: seq<Json>, log: seq<Asked>, n: nat, v3: bool)
    requires n == |log| && (Honest(source, w) ==> GenuineFor(w, services, Micros(start), Micros(end), done))
    ensures Honest(source, w) ==> Reached(w, services, service, start, start, end, done, [])
    ensures Answered(source, v3, log, n, n)
  {
    assert done + [] == done;
  }

  /** One service over the whole window, chunk by chunk. */
  method CollectService<T(!new)>(source: Source<Json>, v3: bool, services: seq<string>, service: string,
                                 start: real, end: real, budget: Budget, accumulator: Acc.TraceAccumulator,
                                 ghost w: World<Json, T>, ghost done: seq<Json>)
    returns (error: Option<Code>, ghost more: seq<Json>)
    requires start < end && budget.remaining >= 0 && service in services && budget.Valid()
    requires AsksChunks(source, v3, services, start, end, budget.log, budget.issued)
    requires Holds(accumulator, done)
    requires Honest(source, w) ==> GenuineFor(w, services, Micros(start), Micros(end), done)
    modifies budget, accumulator
    ensures budget.Valid() && budget.Total() == old(budget.Total()) && old(budget.log) <= budget.log
    ensures AsksChunks(source, v3, services, start, end, budget.log, budget.issued)
    ensures error.Some? ==>
              Fails(source, v3, budget.remaining, budget.log, old(budget.issued), done + more, error.value)
    ensures error.None? ==>
              && budget.remaining >= 0
              && Answered(source, v3, budget.log, old(budget.issued), budget.issued)
              && Holds(accumulator, done + more)
              && (Honest(source, w) ==> Reached(w, services, service, start, end, end, done, more))
  {
    hide Splits, Answered, Stopped, Reached, Complete, Genuine, GenuineFor, Honest, Run, AllOps, Spoils, AsksChunks;
    var left := start;
    ghost var k: nat := 0;
    more := [];
    assert done + more == done;
    NothingReached(source, w, services, service, start, end, done, budget.log, budget.issued, v3);
    while left < end
      invariant start <= left <= end && budget.remaining >= 0 && budget.Total() == old(budget.Total())
      invariant left < end ==> left == start + k as real * 300.0
      invariant AsksChunks(source, v3, services, start, end, budget.log, budget.issued)
      invariant budget.Valid() && old(budget.log) <= budget.log
      invariant Answered(source, v3, budget.log, old(budget.issued), budget.issued)
      invariant Holds(accumulator, done + more)
      invariant Honest(source, w) ==> Reached(w, services, service, start, left, end, done, more)
      decreases budget.remaining
    {
      ghost var found;
      ghost var n, log := budget.issued, budget.log;
      error, left, found :=
        CollectChunk(source, v3, services, service, start, left, end, budget, accumulator, w, done, more, k);
      more, k := more + found, k + 1;
      AnsweredLonger(source, v3, log, budget.log, old(budget.issued));
      if error.Some? {
        FailsLater(source, v3, budget.remaining, budget.log, old(budget.issued), n, done + more, error.value);
        return;
      }
      StopsWithHalf(source, v3, budget.remaining, budget.log, old(budget.issued), n);
    }
    error := None;
  }

  /** The outcome of a whole collection: the merged store and, for the proof, the payloads that went into it. */
  ghost predicate Collected<T(!new)>(w: World<Json, T>, services: seq<string>, low: int, high: int,
                            payloads: seq<Json>, s: State) {
    && Run(EMPTY, AllOps(payloads)) == (s, None)
    && CompleteFor(w, services, low, high, payloads)
    && GenuineFor(w, services, low, high, payloads)
  }

  /** Collects every service under one budget. At most 128 requests are issued in all, and a collection that
      returns on an honest source has merged exactly the traces seen in the closed window. It fails on a bad window, and
      otherwise exactly when the budget is spent, when the last request cannot be answered or split, or when what was
      found does not merge. */
  method Collect<T(!new)>(source: Source<Json>, v3: bool, services: seq<string>, start: real, end: real, now: real,
                          ghost w: World<Json, T>)
    returns (r: Result<State, Code>, issued: nat, ghost payloads: seq<Json>, ghost log: seq<Asked>)
    ensures issued == |log| <= MAX_TRACE_QUERIES
    ensures !(0.0 < start < end <= now && end - start <= MAX_WINDOW_SECONDS) ==> r == Err("INVALID_INTERVAL") && log == []
    ensures r.Ok? ==> 0.0 < start < end <= now && end - start <= MAX_WINDOW_SECONDS
    ensures AsksChunks(source, v3, services, start, end, log, |log|)
    ensures r.Ok? ==> Answered(source, v3, log, 0, |log|) && Run(EMPTY, AllOps(payloads)) == (r.value, None)
    ensures r.Err? && 0.0 < start < end <= now && end - start <= MAX_WINDOW_SECONDS ==>
              exists remaining :: (remaining < 0 ==> issued == MAX_TRACE_QUERIES)
                                  && Fails(source, v3, remaining, log, 0, payloads, r.error)
    ensures r.Ok? && Honest(source, w) ==>
              Collected(w, services, Micros(start), Micros(end), payloads, r.value)
  {
    payloads, log := [], [];
    if start <= 0.0 || end <= start || end - start > MAX_WINDOW_SECONDS || end > now {
      return Err("INVALID_INTERVAL"), 0, payloads, log;
    }
    var budget := new Budget(MAX_TRACE_QUERIES);
    var accumulator := new Acc.TraceAccumulator();
    for n := 0 to |services|
      invariant budget.remaining >= 0 && budget.Total() == MAX_TRACE_QUERIES && budget.Valid() && log == budget.log
      invariant Answered(source, v3, log, 0, |log|) && AsksChunks(source, v3, services, start, end, log, |log|)
      invariant fresh(budget) && fresh(accumulator)
      invariant Holds(accumulator, payloads)
      invariant Honest(source, w) ==>
                  && CompleteFor(w, services[..n], Micros(start), Micros(end), payloads)
                  && GenuineFor(w, services, Micros(start), Micros(end), payloads)
    {
      ghost var more;
      var error;
      error, more := CollectService(source, v3, services, services[n], start, end, budget, accumulator, w, payloads);
      AnsweredLonger(source, v3, log, budget.log, 0);
      if error.Some? {
        FailsLater(source, v3, budget.remaining, budget.log, 0, |log|, payloads + more, error.value);
        return Err(error.value), budget.issued, payloads + more, budget.log;
      }
      StopsWithHalf(source, v3, budget.remaining, budget.log, 0, |log|);
      log := budget.log;
      if Honest(source, w) {
        ServiceDone(w, services, n, Micros(start), Micros(end), payloads, more);
      }
      payloads := payloads + more;
    }
    assert services[..|services|] == services;
    r, issued := Ok(State(accumulator.traces, accumulator.count)), budget.issued;
  }

  // ----- splitting is invisible -----

  /** These operations are some of those, up to repetition and Python's equality. */
  ghost predicate PartOf(part: seq<Op>, whole: seq<Op>) {
    Names(part) <= Names(whole) && Projected(Puts(part)) <= Projected(Puts(whole)) && (NoBad(whole) ==> NoBad(part))
  }

  /** A reply shows nothing that its trace does not hold; it may leave spans out, order them, number processes and
      repeat itself as it likes. */
  ghost predicate Faithful(w: Backend) {
    forall p, trace :: w.renders(p, trace) ==> PartOf(Ops(p), trace.content)
  }

  /** Between them, the replies that show this trace show all of it. */
  ghost predicate ShownWhole(w: Backend, trace: StoredTrace, payloads: seq<Json>) {
    && (forall name :: name in Names(trace.content) ==> exists p :: p in payloads && w.renders(p, trace) && name in Names(Ops(p)))
    && (forall c :: c in Projected(Puts(trace.content)) ==>
          exists p :: p in payloads && w.renders(p, trace) && c in Projected(Puts(Ops(p))))
    && ((forall p :: p in payloads && w.renders(p, trace) ==> NoBad(Ops(p))) ==> NoBad(trace.content))
  }

  ghost predicate AllShown(w: Backend, services: seq<string>, low: int, high: int, payloads: seq<Json>) {
    forall trace :: trace in WantedTraces(w, services, low, high) ==> ShownWhole(w, trace, payloads)
  }

  ghost function WantedTraces(w: Backend, services: seq<string>, low: int, high: int): set<StoredTrace> {
    set trace | trace in w.held && Wanted(w, trace, services, low, high)
  }

  /** Names and spans of a set of operation lists. */
  ghost predicate Gathers<T(!new)>(ops: seq<Op>, parts: set<T>, content: T -> seq<Op>) {
    && (NoBad(ops) <==> forall x :: x in parts ==> NoBad(content(x)))
    && (forall name :: name in Names(ops) <==> exists x :: x in parts && name in Names(content(x)))
    && (forall c :: c in Projected(Puts(ops)) <==> exists x :: x in parts && c in Projected(Puts(content(x))))
  }

  lemma NamesHas(ops: seq<Op>, name: string)
    ensures name in Names(ops) <==> exists o :: o in ops && !o.Bad? && name == if o.Put? then o.span.trace else o.trace
  {
  }

  lemma ProjectedHas(ops: seq<Op>, c: CSpan)
    ensures c in Projected(Puts(ops)) <==> exists o :: o in ops && o.Put? && c == PlainSpan(o.span)
  {
    if o :| o in ops && o.Put? && c == PlainSpan(o.span) {
      assert o.span in Puts(ops);
    }
  }

  lemma FlatMapGathers<T(!new)>(content: T -> seq<Op>, parts: seq<T>)
    ensures Gathers(FlatMap(content, parts), Members(parts), content)
  {
    var all := FlatMap(content, parts);
    forall o
      ensures o in all <==> exists x :: x in parts && o in content(x)
    {
      FlatMapHas(content, parts, o);
    }
    forall name
      ensures name in Names(all) <==> exists x :: x in parts && name in Names(content(x))
    {
      NamesHas(all, name);
      forall x { NamesHas(content(x), name); }
    }
    forall c
      ensures c in Projected(Puts(all)) <==> exists x :: x in parts && c in Projected(Puts(content(x)))
    {
      ProjectedHas(all, c);
      forall x { ProjectedHas(content(x), c); }
    }
  }

  /** Whatever the first parts hold, some of the second parts hold too. */
  ghost predicate Spread<A(!new), B(!new)>(xs: set<A>, f: A -> seq<Op>, ys: set<B>, g: B -> seq<Op>) {
    && (forall x, name :: x in xs && name in Names(f(x)) ==> exists y :: y in ys && name in Names(g(y)))
    && (forall x, c :: x in xs && c in Projected(Puts(f(x))) ==> exists y :: y in ys && c in Projected(Puts(g(y))))
    && ((forall y :: y in ys ==> NoBad(g(y))) ==> forall x :: x in xs ==> NoBad(f(x)))
  }

  lemma SpreadInside<A(!new), B(!new)>(a: seq<Op>, xs: set<A>, f: A -> seq<Op>,
                                       b: seq<Op>, ys: set<B>, g: B -> seq<Op>)
    requires Gathers(a, xs, f) && Gathers(b, ys, g) && Spread(xs, f, ys, g)
    ensures PartOf(a, b)
  {
    forall name | name in Names(a)
      ensures name in Names(b)
    {
      var x :| x in xs && name in Names(f(x));
    }
    forall c | c in Projected(Puts(a))
      ensures c in Projected(Puts(b))
    {
      var x :| x in xs && c in Projected(Puts(f(x)));
    }
  }

  /** Parts that hold the same between them gather to the same content. */
  lemma CorrespondingContent<A(!new), B(!new)>(a: seq<Op>, xs: set<A>, f: A -> seq<Op>,
                                               b: seq<Op>, ys: set<B>, g: B -> seq<Op>)
    requires Gathers(a, xs, f) && Gathers(b, ys, g)
    requires Spread(xs, f, ys, g) && Spread(ys, g, xs, f)
    ensures SameContent(a, b)
  {
    SpreadInside(a, xs, f, b, ys, g);
    SpreadInside(b, ys, g, a, xs, f);
    MutualContent(a, b);
  }

  lemma MutualContent(a: seq<Op>, b: seq<Op>)
    requires PartOf(a, b) && PartOf(b, a)
    ensures SameContent(a, b)
  {
  }

  function Content(trace: StoredTrace): seq<Op> {
    trace.content
  }

  lemma PayloadPart(w: Backend, services: seq<string>, low: int, high: int, payloads: seq<Json>, p: Json)
    returns (trace: StoredTrace)
    requires Faithful(w) && GenuineFor(w, services, low, high, payloads) && p in payloads
    ensures trace in WantedTraces(w, services, low, high) && PartOf(Ops(p), Content(trace))
  {
    assert KnownFor(w, p, services, low, high);
    trace :| trace in w.held && Wanted(w, trace, services, low, high) && w.renders(p, trace);
  }

  lemma PayloadsSpread(w: Backend, services: seq<string>, low: int, high: int, payloads: seq<Json>)
    requires Faithful(w) && GenuineFor(w, services, low, high, payloads)
    ensures Spread(Members(payloads), Ops, WantedTraces(w, services, low, high), Content)
  {
    var wanted := WantedTraces(w, services, low, high);
    forall p, name | p in Members(payloads) && name in Names(Ops(p))
      ensures exists trace :: trace in wanted && name in Names(Content(trace))
    {
      var trace := PayloadPart(w, services, low, high, payloads, p);
      assert name in Names(Content(trace));
    }
    forall p, c | p in Members(payloads) && c in Projected(Puts(Ops(p)))
      ensures exists trace :: trace in wanted && c in Projected(Puts(Content(trace)))
    {
      var trace := PayloadPart(w, services, low, high, payloads, p);
      assert c in Projected(Puts(Content(trace)));
    }
    if forall trace :: trace in wanted ==> NoBad(Content(trace)) {
      forall p | p in Members(payloads)
        ensures NoBad(Ops(p))
      {
        var trace := PayloadPart(w, services, low, high, payloads, p);
        assert NoBad(Content(trace));
      }
    }
  }

  lemma WantedSpread(w: Backend, services: seq<string>, low: int, high: int, payloads: seq<Json>)
    requires AllShown(w, services, low, high, payloads)
    ensures Spread(WantedTraces(w, services, low, high), Content, Members(payloads), Ops)
  {
    var wanted := WantedTraces(w, services, low, high);
    forall trace, name | trace in wanted && name in Names(Content(trace))
      ensures exists p :: p in Members(payloads) && name in Names(Ops(p))
    {
      assert ShownWhole(w, trace, payloads);
      var p :| p in payloads && w.renders(p, trace) && name in Names(Ops(p));
      assert p in Members(payloads);
    }
    forall trace, c | trace in wanted && c in Projected(Puts(Content(trace)))
      ensures exists p :: p in Members(payloads) && c in Projected(Puts(Ops(p)))
    {
      assert ShownWhole(w, trace, payloads);
      var p :| p in payloads && w.renders(p, trace) && c in Projected(Puts(Ops(p)));
      assert p in Members(payloads);
    }
    if forall p :: p in Members(payloads) ==> NoBad(Ops(p)) {
      forall trace | trace in wanted
        ensures NoBad(Content(trace))
      {
        assert ShownWhole(w, trace, payloads);
        assert forall p :: p in payloads ==> p in Members(payloads);
      }
    }
  }

  /** A collection's operations have the content of the wanted traces, each counted once. */
  lemma CollectedContent(w: Backend, services: seq<string>, low: int, high: int, payloads: seq<Json>, listed: seq<StoredTrace>)
    requires Faithful(w) && GenuineFor(w, services, low, high, payloads) && AllShown(w, services, low, high, payloads)
    requires Members(listed) == WantedTraces(w, services, low, high)
    ensures SameContent(AllOps(payloads), FlatMap(Content, listed))
  {
    FlatMapGathers(Ops, payloads);
    FlatMapGathers(Content, listed);
    PayloadsSpread(w, services, low, high, payloads);
    WantedSpread(w, services, low, high, payloads);
    CorrespondingContent(AllOps(payloads), Members(payloads), Ops, FlatMap(Content, listed), Members(listed), Content);
  }

  lemma {:induction false} Listing<T>(all: set<T>) returns (listed: seq<T>)
    ensures Members(listed) == all
    decreases |all|
  {
    if all == {} {
      listed := [];
    } else {
      var x :| x in all;
      var rest := Listing(all - {x});
      listed := rest + [x];
      assert Members(listed) == Members(rest) + {x};
    }
  }

  /** One thing that a trace holds: its name, a span, or a malformed entry. */
  datatype Piece = Piece(trace: StoredTrace, op: Op)

  /** These operations show that thing. */
  ghost predicate Shows(ops: seq<Op>, op: Op) {
    match op
    case Touch(name) => name in Names(ops)
    case Put(c) => PlainSpan(c) in Projected(Puts(ops))
    case Bad(_) => !NoBad(ops)
  }

  /** The same backend, seen as a store of pieces. A source that is honest about it returns, in each reply that is not
      saturated, payloads that hold between them every piece of every matching trace; each payload alone may hold any
      part of its trace. */
  ghost function InPieces(w: Backend): World<Json, Piece> {
    World(set trace, op | trace in w.held && op in trace.content :: Piece(trace, op),
          (piece: Piece) => w.times(piece.trace),
          (p: Json, piece: Piece) => w.renders(p, piece.trace) && Shows(Ops(p), piece.op))
  }

  lemma PieceIsFound(w: Backend, services: seq<string>, low: int, high: int, payloads: seq<Json>, trace: StoredTrace, op: Op)
    returns (p: Json)
    requires CompleteFor(InPieces(w), services, low, high, payloads)
    requires trace in WantedTraces(w, services, low, high) && op in trace.content
    ensures p in payloads && w.renders(p, trace) && Shows(Ops(p), op)
  {
    var pieces, piece := InPieces(w), Piece(trace, op);
    assert piece in pieces.held;
    var service :| service in services && SeenBetween(w, trace, service, low, high);
    assert SeenBetween(pieces, piece, service, low, high);
    assert Complete(pieces, service, low, high, payloads);
    p :| p in payloads && pieces.renders(p, piece);
  }

  lemma PutsName(ops: seq<Op>, c: CSpan)
    requires PlainSpan(c) in Projected(Puts(ops))
    ensures c.trace in Names(ops)
  {
    var d := ProjectedFrom(Puts(ops), PlainSpan(c));
    assert Put(d) in ops && !Put(d).Bad?;
  }

  lemma PiecesShowWhole(w: Backend, services: seq<string>, low: int, high: int, payloads: seq<Json>, trace: StoredTrace)
    requires CompleteFor(InPieces(w), services, low, high, payloads)
    requires trace in WantedTraces(w, services, low, high)
    ensures ShownWhole(w, trace, payloads)
  {
    hide InPieces, WantedTraces, CompleteFor;
    forall name | name in Names(trace.content)
      ensures exists p :: p in payloads && w.renders(p, trace) && name in Names(Ops(p))
    {
      var op :| op in trace.content && !op.Bad? && name == if op.Put? then op.span.trace else op.trace;
      var p := PieceIsFound(w, services, low, high, payloads, trace, op);
      if op.Put? {
        PutsName(Ops(p), op.span);
      }
    }
    forall c | c in Projected(Puts(trace.content))
      ensures exists p :: p in payloads && w.renders(p, trace) && c in Projected(Puts(Ops(p)))
    {
      var d := ProjectedFrom(Puts(trace.content), c);
      var p := PieceIsFound(w, services, low, high, payloads, trace, Put(d));
    }
    if !NoBad(trace.content) {
      var op :| op in trace.content && op.Bad?;
      var p := PieceIsFound(w, services, low, high, payloads, trace, op);
    }
  }

  lemma PiecesGenuine(w: Backend, services: seq<string>, low: int, high: int, payloads: seq<Json>)
    requires GenuineFor(InPieces(w), services, low, high, payloads)
    ensures GenuineFor(w, services, low, high, payloads)
  {
    forall p | p in payloads
      ensures KnownFor(w, p, services, low, high)
    {
      assert KnownFor(InPieces(w), p, services, low, high);
      var piece: Piece :| piece in InPieces(w).held && Wanted(InPieces(w), piece, services, low, high) && InPieces(w).renders(p, piece);
      var service :| service in services && SeenBetween(InPieces(w), piece, service, low, high);
      assert SeenBetween(w, piece.trace, service, low, high);
      assert piece.trace in w.held && Wanted(w, piece.trace, services, low, high);
    }
  }

  /** How the search was split, which replies were saturated, how payloads were rendered, which part of its trace each
      of them shows and in which order they arrived leaves no mark: two successful collections of one window hold the
      same store, the one that merging every wanted trace once would give. */
  lemma SplittingIsInvisible(w: Backend, services: seq<string>, low: int, high: int,
                             one: seq<Json>, s1: State, two: seq<Json>, s2: State)
    requires Faithful(w)
    requires Collected(InPieces(w), services, low, high, one, s1) && Collected(InPieces(w), services, low, high, two, s2)
    ensures SameState(s1, s2)
  {
    var listed := Listing(WantedTraces(w, services, low, high));
    GatheredContent(w, services, low, high, one, listed);
    GatheredContent(w, services, low, high, two, listed);
    Confluence(AllOps(one), AllOps(two));
  }

  lemma GatheredContent(w: Backend, services: seq<string>, low: int, high: int, payloads: seq<Json>, listed: seq<StoredTrace>)
    requires Faithful(w) && Members(listed) == WantedTraces(w, services, low, high)
    requires CompleteFor(InPieces(w), services, low, high, payloads) && GenuineFor(InPieces(w), services, low, high, payloads)
    ensures SameContent(AllOps(payloads), FlatMap(Content, listed))
  {
    hide InPieces, CompleteFor, GenuineFor, ShownWhole, SameContent;
    PiecesGenuine(w, services, low, high, payloads);
    forall trace | trace in WantedTraces(w, services, low, high)
      ensures ShownWhole(w, trace, payloads)
    {
      PiecesShowWhole(w, services, low, high, payloads, trace);
    }
    CollectedContent(w, services, low, high, payloads, listed);
  }

  lemma SameContentShows(a: seq<Op>, b: seq<Op>, op: Op)
    requires SameContent(a, b) && op in b
    ensures Shows(a, op)
  {
    if op.Put? {
      ProjectedOnTo(Puts(b), op.span);
    }
  }

  lemma AlwaysSomething(payload: Json)
    ensures Ops(payload) != []
  {
  }

  /** A source that is honest about whole traces, each shown whole by one payload, is honest about their pieces. */
  lemma WholeReplies(w: Backend, source: Source<Json>)
    requires Honest(source, w)
    requires forall p, trace :: w.renders(p, trace) ==> SameContent(Ops(p), trace.content)
    ensures Faithful(w) && Honest(source, InPieces(w))
  {
    var pieces := InPieces(w);
    forall q, n | source(q, n).Traces? && |source(q, n).payloads| < TRACE_LIMIT
      ensures forall piece: Piece :: piece in pieces.held && Matches(pieces, piece, q) ==> Found(pieces, piece, source(q, n).payloads)
      ensures forall p :: p in source(q, n).payloads ==> Explained(p, pieces, q)
    {
      var payloads := source(q, n).payloads;
      forall piece: Piece | piece in pieces.held && Matches(pieces, piece, q) {
        PieceOfFound(w, q, payloads, piece);
      }
      forall p | p in payloads {
        PieceExplains(w, q, p);
      }
    }
  }

  lemma PieceOfFound(w: Backend, q: Query, payloads: seq<Json>, piece: Piece)
    requires forall p, trace :: w.renders(p, trace) ==> SameContent(Ops(p), trace.content)
    requires forall trace :: trace in w.held && Matches(w, trace, q) ==> Found(w, trace, payloads)
    requires piece in InPieces(w).held && Matches(InPieces(w), piece, q)
    ensures Found(InPieces(w), piece, payloads)
  {
    hide SameContent, Shows;
    assert Matches(w, piece.trace, q);
    var p :| p in payloads && w.renders(p, piece.trace);
    SameContentShows(Ops(p), piece.trace.content, piece.op);
    assert InPieces(w).renders(p, piece);
  }

  lemma PieceExplains(w: Backend, q: Query, p: Json)
    requires forall p, trace :: w.renders(p, trace) ==> SameContent(Ops(p), trace.content)
    requires Explained(p, w, q)
    ensures Explained(p, InPieces(w), q)
  {
    hide SameContent, Shows;
    var trace :| trace in w.held && Matches(w, trace, q) && w.renders(p, trace);
    AlwaysSomething(p);
    SomethingOf(Ops(p), trace.content);
    var piece := Piece(trace, trace.content[0]);
    SameContentShows(Ops(p), trace.content, piece.op);
    assert piece in InPieces(w).held && Matches(InPieces(w), piece, q) && InPieces(w).renders(p, piece);
  }

  lemma SomethingOf(a: seq<Op>, b: seq<Op>)
    requires SameContent(a, b) && a != []
    ensures b != []
  {
    if !a[0].Bad? {
      assert (if a[0].Put? then a[0].span.trace else a[0].trace) in Names(a);
    } else {
      assert !NoBad(a);
    }
  }

  // ----- confluence for payloads -----

  lemma RearrangedContent(a: seq<Json>, b: seq<Json>)
    requires forall p :: p in a <==> p in b
    ensures SameContent(AllOps(a), AllOps(b))
  {
    FlatMapGathers(Ops, a);
    FlatMapGathers(Ops, b);
    assert Members(a) == Members(b);
    CorrespondingContent(AllOps(a), Members(a), Ops, AllOps(b), Members(b), Ops);
  }

  /** Payloads may be repeated and rearranged. */
  lemma RearrangedPayloads(a: seq<Json>, b: seq<Json>)
    requires forall p :: p in a <==> p in b
    ensures Run(EMPTY, AllOps(a)).1.None? <==> Run(EMPTY, AllOps(b)).1.None?
    ensures Run(EMPTY, AllOps(a)).1.None? ==> SameState(Run(EMPTY, AllOps(a)).0, Run(EMPTY, AllOps(b)).0)
  {
    RearrangedContent(a, b);
    Confluence(AllOps(a), AllOps(b));
  }

  function Partial(trace: string, processes: map<string, Json>, spans: seq<Json>): Json {
    Obj(map["traceID" := Str(trace), "processes" := Obj(processes), "spans" := Arr(spans)])
  }

  lemma PartialOps(trace: string, processes: map<string, Json>, spans: seq<Json>)
    ensures Ops(Partial(trace, processes, spans)) == [Touch(trace)] + SpanOps(trace, processes, spans)
  {
    assert |"traceID"| == 7 && |"processes"| == 9 && |"spans"| == 5;
    var f := Partial(trace, processes, spans).fields;
    assert Get(f, "traceID", Null) == Str(trace);
    assert Get(f, "processes", Obj(map[])) == Obj(processes);
    assert Get(f, "spans", Arr([])) == Arr(spans);
  }

  lemma OpsAppendSets(a: seq<Op>, b: seq<Op>)
    ensures NoBad(a + b) <==> NoBad(a) && NoBad(b)
    ensures Names(a + b) == Names(a) + Names(b)
    ensures Projected(Puts(a + b)) == Projected(Puts(a)) + Projected(Puts(b))
  {
    assert forall o :: o in a + b <==> o in a || o in b;
    assert Puts(a + b) == Puts(a) + Puts(b);
  }

  /** Naming the trace once or twice makes no difference. */
  lemma NamedTwice(trace: string, x: seq<Op>, y: seq<Op>)
    ensures SameContent([Touch(trace)] + (x + y), ([Touch(trace)] + x) + ([Touch(trace)] + y))
  {
    var touch := [Touch(trace)];
    OpsAppendSets(touch, x + y);
    OpsAppendSets(x, y);
    OpsAppendSets(touch + x, touch + y);
    OpsAppendSets(touch, x);
    OpsAppendSets(touch, y);
    assert Projected(Puts(touch)) == {};
  }

  /** The spans of two payloads, one by one, project to the same. */
  ghost predicate SameProjections(trace: string, p: map<string, Json>, a: seq<Json>, q: map<string, Json>, b: seq<Json>) {
    |a| == |b| && forall i :: 0 <= i < |a| ==> Project(trace, p, a[i]) == Project(trace, q, b[i])
  }

  lemma {:induction false} SameSpanOps(trace: string, p: map<string, Json>, a: seq<Json>, q: map<string, Json>, b: seq<Json>)
    requires SameProjections(trace, p, a, q, b)
    ensures SpanOps(trace, p, a) == SpanOps(trace, q, b)
  {
    if a != [] {
      SameSpanOps(trace, p, a[..|a| - 1], q, b[..|b| - 1]);
    }
  }

  lemma SplitContent(trace: string, whole: map<string, Json>, one: map<string, Json>, two: map<string, Json>,
                     a: seq<Json>, b: seq<Json>, a': seq<Json>, b': seq<Json>)
    requires SameProjections(trace, whole, a, one, a') && SameProjections(trace, whole, b, two, b')
    ensures SameContent(Ops(Partial(trace, whole, a + b)), Ops(Partial(trace, one, a')) + Ops(Partial(trace, two, b')))
  {
    PartialOps(trace, whole, a + b);
    PartialOps(trace, one, a');
    PartialOps(trace, two, b');
    Acc.SpanOpsSplit(trace, whole, a, b);
    SameSpanOps(trace, whole, a, one, a');
    SameSpanOps(trace, whole, b, two, b');
    NamedTwice(trace, SpanOps(trace, whole, a), SpanOps(trace, whole, b));
  }

  lemma ContentInside(before: seq<Op>, x: seq<Op>, y: seq<Op>, after: seq<Op>)
    requires SameContent(x, y)
    ensures SameContent(before + x + after, before + y + after)
  {
    OpsAppendSets(before, x);
    OpsAppendSets(before, y);
    OpsAppendSets(before + x, after);
    OpsAppendSets(before + y, after);
  }

  lemma AllOpsAround(before: seq<Json>, middle: seq<Json>, after: seq<Json>)
    ensures AllOps(before + middle + after) == AllOps(before) + AllOps(middle) + AllOps(after)
  {
    FlatMapAppend(Ops, before + middle, after);
    FlatMapAppend(Ops, before, middle);
  }

  /** Anywhere in a list of payloads, a trace may arrive whole or split into two partial payloads, each of which numbers
      its processes in its own way. */
  lemma SplitPayload(before: seq<Json>, after: seq<Json>, trace: string,
                     whole: map<string, Json>, one: map<string, Json>, two: map<string, Json>,
                     a: seq<Json>, b: seq<Json>, a': seq<Json>, b': seq<Json>)
    requires SameProjections(trace, whole, a, one, a') && SameProjections(trace, whole, b, two, b')
    ensures var joined := Run(EMPTY, AllOps(before + [Partial(trace, whole, a + b)] + after));
            var split := Run(EMPTY, AllOps(before + [Partial(trace, one, a'), Partial(trace, two, b')] + after));
            && (joined.1.None? <==> split.1.None?)
            && (joined.1.None? ==> SameState(joined.0, split.0))
  {
    var p, q, r := Partial(trace, whole, a + b), Partial(trace, one, a'), Partial(trace, two, b');
    SplitContent(trace, whole, one, two, a, b, a', b');
    hide Ops, Partial, Run;
    AllOpsAround(before, [p], after);
    AllOpsAround(before, [q, r], after);
    FlatMapOne(Ops, p);
    FlatMapOne(Ops, q);
    AllOpsSnoc([q], r);
    assert [q] + [r] == [q, r];
    ContentInside(AllOps(before), Ops(p), Ops(q) + Ops(r), AllOps(after));
    Confluence(AllOps(before + [p] + after), AllOps(before + [q, r] + after));
  }

  /** Process identifiers are local to a response: renumbering them, so that each span still names the same
      service, does not change what a span projects to. */
  lemma LocalProcessIds(trace: string, before: map<string, Json>, after: map<string, Json>, span: Json, id: Json)
    requires span.Obj?
    requires Service(before, Get(span.fields, "processID", Null)) == Service(after, id)
    ensures Project(trace, before, span) == Project(trace, after, Obj(span.fields["processID" := id]))
  {
    assert |"traceID"| == 7 && |"spanID"| == 6 && |"processID"| == 9 && |"startTime"| == 9;
    assert |"duration"| == 8 && |"tags"| == 4 && |"references"| == 10;
    assert "processID"[0] == 'p' && "startTime"[0] == 's';
    var f := span.fields["processID" := id];
    assert Get(f, "processID", Null) == id;
    assert Get(f, "traceID", Null) == Get(span.fields, "traceID", Null);
    assert Get(f, "spanID", Null) == Get(span.fields, "spanID", Null);
    assert Get(f, "startTime", Null) == Get(span.fields, "startTime", Null);
    assert Get(f, "duration", Null) == Get(span.fields, "duration", Null);
    assert Get(f, "tags", Arr([])) == Get(span.fields, "tags", Arr([]));
    assert Get(f, "references", Arr([])) == Get(span.fields, "references", Arr([]));
  }

  // ----- one span, spelled in two ways -----

  const PROCESSES: map<string, Json> := map["p1" := Obj(map["serviceName" := Str("api")])]

  function StatusTag(value: Json): Json {
    Obj(map["key" := Str(STATUS), "value" := value])
  }

  function StatusFields(value: Json): map<string, Json> {
    map["traceID" := Str("t"), "spanID" := Str("s"), "processID" := Str("p1"), "startTime" := Int(0), "duration" := Int(0),
        "tags" := Arr([StatusTag(value)])]
  }

  /** A trace of one span, whose status is this value. */
  function StatusPayload(value: Json): Json {
    Partial("t", PROCESSES, [Obj(StatusFields(value))])
  }

  function StatusSpan(value: Json): CSpan {
    CSpan("t", "s", "api", 0, 0, map[STATUS := value], None)
  }

  lemma StatusTags(value: Json)
    ensures ReadTags([StatusTag(value)]) == Ok(map[STATUS := value]) && Normalize(map[STATUS := value]) == Ok(map[STATUS := value])
  {
    TagNames();
    var f := StatusTag(value).fields;
    assert |"key"| == 3 && |"value"| == 5;
    assert Get(f, "key", Null) == Str(STATUS) && Get(f, "value", Null) == value;
    assert [StatusTag(value)][..0] == [];
    assert TagStep(map[], StatusTag(value)) == Ok(map[STATUS := value]);
  }

  lemma StatusLookups(value: Json)
    ensures var f := StatusFields(value);
            && Get(f, "traceID", Null) == Str("t") && Get(f, "spanID", Null) == Str("s")
            && Get(f, "processID", Null) == Str("p1") && Get(f, "startTime", Null) == Int(0)
            && Get(f, "duration", Null) == Int(0) && Get(f, "tags", Arr([])) == Arr([StatusTag(value)])
            && Get(f, "references", Arr([])) == Arr([])
  {
    assert |"traceID"| == 7 && |"spanID"| == 6 && |"processID"| == 9 && |"startTime"| == 9;
    assert |"duration"| == 8 && |"tags"| == 4 && |"references"| == 10;
    assert "processID"[0] == 'p' && "startTime"[0] == 's';
  }

  lemma StatusService()
    ensures Service(PROCESSES, Str("p1")) == Ok("api")
  {
    var process := PROCESSES["p1"].fields;
    assert Get(process, "serviceName", Null) == Str("api");
    assert |"api"| == 3;
  }

  lemma StatusProjects(value: Json)
    ensures Ops(StatusPayload(value)) == [Touch("t"), Put(StatusSpan(value))]
  {
    var span := Obj(StatusFields(value));
    StatusLookups(value);
    StatusService();
    StatusTags(value);
    hide StatusFields, Service, ReadTags, Normalize;
    assert ReadParents("t", []) == Ok([]) && OneParent([]) == Ok(None);
    assert Project("t", PROCESSES, span) == Ok(StatusSpan(value));
    PartialOps("t", PROCESSES, [span]);
    assert [span][..0] == [];
    assert SpanOps("t", PROCESSES, [span]) == [] + [Put(StatusSpan(value))];
  }

  lemma TwoSpellings(p: CSpan, q: CSpan)
    requires SameSpan(p, q) && p.trace == q.trace && p.id == q.id
    ensures var s := Run(EMPTY, [Touch(p.trace), Put(p), Touch(p.trace), Put(q)]);
            s.1.None? && p.trace in s.0.traces && s.0.traces[p.trace].spans == map[p.id := q]
  {
    var touch := Touch(p.trace);
    var ops := [touch, Put(p), touch, Put(q)];
    assert ops[..3] == [touch, Put(p), touch] && ops[..3][..2] == [touch, Put(p)] && ops[..2][..1] == [touch];
    assert [touch][..0] == [];
    assert map[p.id := p][q.id := q] == map[p.id := q];
    assert Run(EMPTY, [touch]) == Step(EMPTY, touch);
    assert Run(EMPTY, [touch, Put(p)]) == Step(Run(EMPTY, [touch]).0, Put(p));
    assert Run(EMPTY, ops[..3]) == Step(Run(EMPTY, [touch, Put(p)]).0, touch);
  }

  lemma StatusPair(a: Json, b: Json)
    ensures AllOps([StatusPayload(a), StatusPayload(b)])
            == [Touch("t"), Put(StatusSpan(a)), Touch("t"), Put(StatusSpan(b))]
  {
    hide Ops, StatusPayload;
    StatusProjects(a);
    StatusProjects(b);
    FlatMapOne(Ops, StatusPayload(a));
    AllOpsSnoc([StatusPayload(a)], StatusPayload(b));
    assert [StatusPayload(a)] + [StatusPayload(b)] == [StatusPayload(a), StatusPayload(b)];
  }

  lemma DifferentSpans(s: State, r: State, p: CSpan, q: CSpan)
    requires p.trace in s.traces && p.trace in r.traces && p != q
    requires s.traces[p.trace].spans == map[p.id := q] && r.traces[p.trace].spans == map[p.id := p]
    ensures s != r
  {
    assert map[p.id := q][p.id] != map[p.id := p][p.id];
  }

  /** Two payloads of one span, its status written true in one and 1 in the other, are both accepted in either order and
      leave stores that differ. */
  lemma SpelledPayloads()
    ensures var p, q := StatusPayload(Bool(true)), StatusPayload(Int(1));
            && Run(EMPTY, AllOps([p, q])).1.None? && Run(EMPTY, AllOps([q, p])).1.None?
            && Run(EMPTY, AllOps([p, q])).0 != Run(EMPTY, AllOps([q, p])).0
  {
    hide Run, AllOps, StatusPayload;
    var p, q := StatusSpan(Bool(true)), StatusSpan(Int(1));
    assert p.tags[STATUS] != q.tags[STATUS];
    StatusPair(Bool(true), Int(1));
    StatusPair(Int(1), Bool(true));
    assert PlainSpan(p).tags == map[STATUS := Int(1)] == PlainSpan(q).tags;
    TwoSpellings(p, q);
    TwoSpellings(q, p);
    DifferentSpans(Run(EMPTY, AllOps([StatusPayload(Bool(true)), StatusPayload(Int(1))])).0,
                   Run(EMPTY, AllOps([StatusPayload(Int(1)), StatusPayload(Bool(true))])).0, p, q);
  }
}
