/** Admission of canonical spans: shape checks, identifier uniqueness, budgets and the parent-cycle search. */
module SpanGraph {
  import opened Prelude

  const MAX_CANONICAL_SPANS := 50000
  const MAX_SPANS_PER_TRACE := 2048
  const MAX_TEXT := 512

  datatype Span = Span(trace: string, id: string, parent: string, service: string,
                       start: int, duration: int, kind: Option<string>)

  /** A field as it arrives: absent, of a wrong type (a number that is boolean, infinite or not a number
      counts as wrong), or present. */
  datatype Field<T> = Absent | Malformed | Given(value: T)

  datatype RawSpan =
    | NotARecord
    | RawSpan(trace: Field<string>, id: Field<string>, parent: Field<string>, service: Field<string>,
              start: Field<int>, duration: Field<int>, kind: Option<string>)

  datatype Rejection =
    | SpanBudget | SpanInvalid | IdInvalid | ParentInvalid | TimeInvalid
    | DuplicateSpan | SingleTraceBudget | ParentCycle

  // ----- one record -----

  predicate Named(f: Field<string>) {
    f.Given? && 0 < |f.value| <= MAX_TEXT
  }

  function ParentOf(f: Field<string>): string {
    if f.Given? then f.value else ""
  }

  function Read(raw: RawSpan): Result<Span, Rejection> {
    if raw.NotARecord? then Err(SpanInvalid)
    else if !Named(raw.trace) || !Named(raw.id) || !Named(raw.service) then Err(IdInvalid)
    else if raw.parent.Malformed? || |ParentOf(raw.parent)| > MAX_TEXT then Err(ParentInvalid)
    else if !raw.start.Given? || raw.start.value < 0 then Err(TimeInvalid)
    else if !raw.duration.Given? || raw.duration.value < 0 then Err(TimeInvalid)
    else Ok(Span(raw.trace.value, raw.id.value, ParentOf(raw.parent), raw.service.value,
                 raw.start.value, raw.duration.value, raw.kind))
  }

  ghost predicate Text(s: string) {
    1 <= |s| <= 512
  }

  /** A record is read exactly when its fields are well formed, and says what they say; a missing parent is the empty one. */
  lemma ReadIff(raw: RawSpan, s: Span)
    ensures Read(raw) == Ok(s)
            <==> && raw.RawSpan? && raw.trace == Given(s.trace) && raw.id == Given(s.id) && raw.service == Given(s.service)
                 && (raw.parent == Given(s.parent) || (raw.parent == Absent && s.parent == ""))
                 && raw.start == Given(s.start) && raw.duration == Given(s.duration) && raw.kind == s.kind
                 && Text(s.trace) && Text(s.id) && Text(s.service) && |s.parent| <= 512 && s.start >= 0 && s.duration >= 0
  {
  }

  ghost predicate TextField(f: Field<string>) {
    f.Given? && Text(f.value)
  }

  ghost predicate NumberField(f: Field<int>) {
    f.Given? && f.value >= 0
  }

  /** Which refusal names which defect of a record. */
  lemma ReadRefuses(raw: RawSpan, e: Rejection)
    requires Read(raw) == Err(e)
    ensures match e
            case SpanInvalid => raw.NotARecord?
            case IdInvalid => raw.RawSpan? && !(TextField(raw.trace) && TextField(raw.id) && TextField(raw.service))
            case ParentInvalid => raw.RawSpan? && !(raw.parent == Absent || (raw.parent.Given? && |raw.parent.value| <= 512))
            case TimeInvalid => raw.RawSpan? && !(NumberField(raw.start) && NumberField(raw.duration))
            case _ => false
  {
  }

  predicate Readable(raws: seq<RawSpan>) {
    forall i :: 0 <= i < |raws| ==> Read(raws[i]).Ok?
  }

  function Spans(raws: seq<RawSpan>): (spans: seq<Span>)
    requires Readable(raws)
    ensures |spans| == |raws|
    ensures forall i :: 0 <= i < |raws| ==> spans[i] == Read(raws[i]).value
  {
    if raws == [] then [] else Spans(raws[..|raws| - 1]) + [Read(raws[|raws| - 1]).value]
  }

  // ----- parent graphs -----

  type Graph = map<string, string>

  /** Identifier to parent identifier, for the spans of one trace. */
  function GraphOf(spans: seq<Span>, trace: string): Graph {
    if spans == [] then map[]
    else
      var last := spans[|spans| - 1];
      var g := GraphOf(spans[..|spans| - 1], trace);
      if last.trace == trace then g[last.id := last.parent] else g
  }

  ghost predicate Unique(spans: seq<Span>) {
    forall i, j :: 0 <= i < j < |spans| && spans[i].trace == spans[j].trace ==> spans[i].id != spans[j].id
  }

  ghost predicate WithinTraceBudget(spans: seq<Span>) {
    forall trace :: |GraphOf(spans, trace)| <= MAX_SPANS_PER_TRACE
  }

  /** Climbing n parent links from x, all of them inside the graph, leads to y. */
  ghost predicate Climbs(g: Graph, x: string, n: nat, y: string)
    decreases n
  {
    if n == 0 then x == y else x in g && Climbs(g, g[x], n - 1, y)
  }

  ghost predicate OnCycle(g: Graph, x: string) {
    exists n: nat :: n > 0 && Climbs(g, x, n, x)
  }

  ghost predicate Cyclic(g: Graph) {
    exists x :: OnCycle(g, x)
  }

  ghost predicate SomeTraceCyclic(spans: seq<Span>) {
    exists trace :: Cyclic(GraphOf(spans, trace))
  }

  lemma {:induction false} GraphKeys(spans: seq<Span>, trace: string, id: string)
    ensures id in GraphOf(spans, trace) <==> exists i :: 0 <= i < |spans| && spans[i].trace == trace && spans[i].id == id
  {
    if spans != [] {
      var n := |spans| - 1;
      GraphKeys(spans[..n], trace, id);
      if i :| 0 <= i < n && spans[..n][i].trace == trace && spans[..n][i].id == id {
        assert spans[i].trace == trace;
      }
      if i :| 0 <= i < |spans| && spans[i].trace == trace && spans[i].id == id {
        assert i < n ==> spans[..n][i].trace == trace;
      }
    }
  }

  lemma {:induction false} GraphParent(spans: seq<Span>, i: nat)
    requires i < |spans| && Unique(spans)
    ensures spans[i].id in GraphOf(spans, spans[i].trace)
    ensures GraphOf(spans, spans[i].trace)[spans[i].id] == spans[i].parent
  {
    var n := |spans| - 1;
    if i < n {
      assert Unique(spans[..n]) by {
        forall j, k | 0 <= j < k < n && spans[..n][j].trace == spans[..n][k].trace
          ensures spans[..n][j].id != spans[..n][k].id
        {
          assert spans[j].id != spans[k].id;
        }
      }
      GraphParent(spans[..n], i);
      assert spans[i].trace == spans[n].trace ==> spans[i].id != spans[n].id;
    }
  }

  lemma {:induction false} GraphGrows(spans: seq<Span>, n: nat, trace: string)
    requires n <= |spans|
    ensures GraphOf(spans[..n], trace).Keys <= GraphOf(spans, trace).Keys
  {
    if n < |spans| {
      GraphGrows(spans[..|spans| - 1], n, trace);
      assert spans[..|spans| - 1][..n] == spans[..n];
    } else {
      assert spans[..n] == spans;
    }
  }

  // ----- the cycle search -----

  /** A height that drops along every parent link that stays inside the graph: no cycle can exist. */
  ghost predicate Ranks(g: Graph, rank: map<string, nat>, upTo: set<string>) {
    forall x :: x in upTo ==>
      && x in g && x in rank
      && (g[x] in g ==> g[x] in upTo && g[x] in rank && rank[g[x]] < rank[x])
  }

  lemma {:induction false} RankedDescends(g: Graph, rank: map<string, nat>, x: string, n: nat, y: string)
    requires Ranks(g, rank, g.Keys) && x in g && y in g && Climbs(g, x, n, y)
    ensures n > 0 ==> rank[y] < rank[x]
    decreases n
  {
    if n > 1 {
      assert g[x] in g;
      RankedDescends(g, rank, g[x], n - 1, y);
    }
  }

  lemma RankedIsAcyclic(g: Graph, rank: map<string, nat>)
    requires Ranks(g, rank, g.Keys)
    ensures !Cyclic(g)
  {
    if x :| OnCycle(g, x) {
      var n: nat :| n > 0 && Climbs(g, x, n, x);
      RankedDescends(g, rank, x, n, x);
    }
  }

  /** The trail as a path: each step is a parent link and the cursor is the parent of the last step. */
  ghost predicate Trail(g: Graph, path: seq<string>, cursor: string) {
    && (forall i :: 0 <= i < |path| ==> path[i] in g)
    && (forall i :: 0 <= i < |path| - 1 ==> g[path[i]] == path[i + 1])
    && (path != [] ==> g[path[|path| - 1]] == cursor)
    && (forall i, j :: 0 <= i < j < |path| ==> path[i] != path[j])
  }

  lemma {:induction false} TrailClimbs(g: Graph, path: seq<string>, cursor: string, k: nat)
    requires Trail(g, path, cursor) && k < |path|
    ensures Climbs(g, path[k], |path| - k, cursor)
    decreases |path| - k
  {
    if k + 1 < |path| {
      TrailClimbs(g, path, cursor, k + 1);
      assert g[path[k]] == path[k + 1];
    } else {
      assert Climbs(g, cursor, 0, cursor);
    }
  }

  lemma TrailPush(g: Graph, path: seq<string>, cursor: string)
    requires Trail(g, path, cursor) && cursor in g && cursor !in path
    ensures Trail(g, path + [cursor], g[cursor])
    ensures (set x | x in path + [cursor]) == (set x | x in path) + {cursor}
  {
  }

  lemma SmallerWithout(all: set<string>, seen: set<string>, x: string)
    requires x in all && x !in seen
    ensures |all - (seen + {x})| < |all - seen|
  {
    assert all - seen == (all - (seen + {x})) + {x};
  }

  /** Ranking one more span above its ranked parent. */
  lemma RankOneMore(g: Graph, rank: map<string, nat>, visited: set<string>, last: string) returns (rank': map<string, nat>)
    requires Ranks(g, rank, visited) && last in g && last !in visited && g[last] != last
    requires g[last] !in g || g[last] in visited
    ensures Ranks(g, rank', visited + {last})
  {
    rank' := rank[last := if g[last] in visited then rank[g[last]] + 1 else 0];
  }

  lemma TrailFront(g: Graph, path: seq<string>, cursor: string)
    requires Trail(g, path, cursor) && path != []
    ensures var n := |path| - 1; Trail(g, path[..n], path[n]) && path[n] in g && g[path[n]] == cursor && path[n] !in path[..n]
  {
    var n := |path| - 1;
    assert n > 0 ==> g[path[n - 1]] == path[n - 1 + 1];
  }

  /** A finished trail that ran into ranked territory, or out of the graph, extends the ranking. */
  lemma TrailRanks(g: Graph, rank: map<string, nat>, visited: set<string>, path: seq<string>, cursor: string)
    returns (rank': map<string, nat>)
    requires Ranks(g, rank, visited) && Trail(g, path, cursor)
    requires cursor !in g || cursor in visited
    requires forall x :: x in path ==> x !in visited
    ensures Ranks(g, rank', visited + set x | x in path)
    decreases |path|
  {
    hide Ranks, Trail;
    if path == [] {
      rank' := rank;
      assert visited + (set x | x in path) == visited;
    } else {
      var n := |path| - 1;
      var last := path[n];
      TrailFront(g, path, cursor);
      assert last in path;
      var extended := RankOneMore(g, rank, visited, last);
      rank' := TrailRanks(g, extended, visited + {last}, path[..n], last);
      assert visited + {last} + (set x | x in path[..n]) == visited + set x | x in path by {
        assert path == path[..n] + [last];
      }
    }
  }

  /** One walk up from `identifier`, stopping at visited ground, at a missing parent, or on a repeat. */
  method Walk(g: Graph, identifier: string, visited: set<string>, ghost rank: map<string, nat>)
    returns (cyclic: bool, trail: set<string>, steps: nat, ghost rank': map<string, nat>)
    requires identifier in g && identifier !in visited
    requires Ranks(g, rank, visited)
    ensures cyclic ==> Cyclic(g)
    ensures !cyclic ==> identifier in trail && trail !! visited && trail <= g.Keys
    ensures !cyclic ==> Ranks(g, rank', visited + trail)
    ensures steps == |trail| <= |g|
  {
    trail := {};
    steps := 0;
    rank' := rank;
    var cursor := identifier;
    ghost var path: seq<string> := [];
    while cursor in g && cursor !in visited
      invariant Trail(g, path, cursor)
      invariant trail == set x | x in path
      invariant trail !! visited && trail <= g.Keys
      invariant steps == |trail|
      invariant path == [] ==> cursor == identifier
      invariant path != [] ==> path[0] == identifier
      decreases |g.Keys - trail|
    {
      if cursor in trail {
        ghost var k :| 0 <= k < |path| && path[k] == cursor;
        TrailClimbs(g, path, cursor, k);
        assert OnCycle(g, cursor);
        SubsetSize(trail, g.Keys);
        cyclic := true;
        return;
      }
      SmallerWithout(g.Keys, trail, cursor);
      TrailPush(g, path, cursor);
      path := path + [cursor];
      trail := trail + {cursor};
      cursor := g[cursor];
      steps := steps + 1;
    }
    SubsetSize(trail, g.Keys);
    rank' := TrailRanks(g, rank, visited, path, cursor);
    cyclic := false;
  }

  /** The search answers for every graph, and without a cycle the walks together take at most one step
      per span. */
  method HasParentCycle(g: Graph) returns (cyclic: bool, steps: nat)
    ensures cyclic <==> Cyclic(g)
    ensures !cyclic ==> steps <= |g|
  {
    var visited: set<string> := {};
    ghost var rank: map<string, nat> := map[];
    var todo := g.Keys;
    steps := 0;
    while todo != {}
      invariant todo <= g.Keys && visited <= g.Keys
      invariant g.Keys - todo <= visited
      invariant Ranks(g, rank, visited)
      invariant steps == |visited|
      decreases |todo|
    {
      var identifier :| identifier in todo;
      todo := todo - {identifier};
      if identifier in visited {
        continue;
      }
      var trail, taken;
      cyclic, trail, taken, rank := Walk(g, identifier, visited, rank);
      if cyclic {
        return;
      }
      assert |visited + trail| == |visited| + |trail|;
      visited := visited + trail;
      steps := steps + taken;
    }
    assert visited == g.Keys;
    RankedIsAcyclic(g, rank);
    cyclic := false;
  }

  // ----- admission -----

  /** Everything the program checks besides cycles. */
  ghost predicate WellShaped(raws: seq<RawSpan>) {
    && |raws| <= MAX_CANONICAL_SPANS
    && Readable(raws)
    && Unique(Spans(raws))
    && WithinTraceBudget(Spans(raws))
  }

  ghost predicate Admissible(raws: seq<RawSpan>) {
    WellShaped(raws) && !SomeTraceCyclic(Spans(raws))
  }

  ghost predicate Collected(parents: map<string, Graph>, spans: seq<Span>) {
    forall trace :: GraphOf(spans, trace) == if trace in parents then parents[trace] else map[]
  }

  lemma PrefixOf(raws: seq<RawSpan>, n: nat)
    requires n <= |raws| && Readable(raws)
    ensures Readable(raws[..n]) && Spans(raws[..n]) == Spans(raws)[..n]
  {
  }

  /** Adding a span to the graphs collected so far, and what each check then says about the whole input. */
  lemma CollectStep(raws: seq<RawSpan>, n: nat, parents: map<string, Graph>)
    requires n < |raws| && Readable(raws[..n]) && Read(raws[n]).Ok?
    requires Unique(Spans(raws[..n])) && Collected(parents, Spans(raws[..n]))
    ensures var span := Read(raws[n]).value;
            var graph := if span.trace in parents then parents[span.trace] else map[];
            && Readable(raws[..n + 1])
            && Collected(parents[span.trace := graph[span.id := span.parent]], Spans(raws[..n + 1]))
            && (span.id !in graph <==> Unique(Spans(raws[..n + 1])))
  {
    var span := Read(raws[n]).value;
    var before := Spans(raws[..n]);
    assert raws[..n + 1][..n] == raws[..n];
    assert Readable(raws[..n + 1]);
    var after := Spans(raws[..n + 1]);
    assert after == before + [span];
    assert after[..n] == before;
    GraphKeys(before, span.trace, span.id);
    forall trace
      ensures GraphOf(after, trace) == if span.trace == trace
                                       then GraphOf(before, trace)[span.id := span.parent] else GraphOf(before, trace)
    {
    }
    if span.id in GraphOf(before, span.trace) {
      var i :| 0 <= i < |before| && before[i].trace == span.trace && before[i].id == span.id;
      assert after[i].id == after[n].id;
    } else {
      forall i, j | 0 <= i < j < |after| && after[i].trace == after[j].trace
        ensures after[i].id != after[j].id
      {
        assert before[i] == after[i];
        if j < n { assert before[j] == after[j]; }
      }
    }
  }

  lemma DuplicateFails(raws: seq<RawSpan>, n: nat)
    requires n <= |raws| && Readable(raws[..n]) && !Unique(Spans(raws[..n]))
    ensures !WellShaped(raws)
  {
    if Readable(raws) {
      PrefixOf(raws, n);
      var all := Spans(raws);
      var i, j :| 0 <= i < j < n && all[..n][i].trace == all[..n][j].trace && all[..n][i].id == all[..n][j].id;
      assert all[i].id == all[j].id;
    }
  }

  lemma BudgetFails(raws: seq<RawSpan>, n: nat, trace: string)
    requires n <= |raws| && Readable(raws[..n]) && |GraphOf(Spans(raws[..n]), trace)| > MAX_SPANS_PER_TRACE
    ensures !WellShaped(raws)
  {
    if Readable(raws) {
      PrefixOf(raws, n);
      var all := Spans(raws);
      GraphGrows(all, n, trace);
      SubsetSize(GraphOf(all[..n], trace).Keys, GraphOf(all, trace).Keys);
      assert |GraphOf(all, trace)| > MAX_SPANS_PER_TRACE;
    }
  }

  lemma OverTraceBudget(spans: seq<Span>, trace: string)
    requires |GraphOf(spans, trace)| > MAX_SPANS_PER_TRACE
    ensures !WithinTraceBudget(spans)
  {
  }

  lemma CollectedAt(parents: map<string, Graph>, spans: seq<Span>, trace: string)
    requires Collected(parents, spans) && trace in parents
    ensures GraphOf(spans, trace) == parents[trace]
  {
  }

  /** The n-th record is the first that is not admitted, for this reason. */
  ghost predicate RejectedAt(raws: seq<RawSpan>, n: nat, e: Rejection) {
    && n < |raws| && Readable(raws[..n]) && Unique(Spans(raws[..n])) && WithinTraceBudget(Spans(raws[..n]))
    && if Read(raws[n]).Err? then Read(raws[n]).error == e
       else
         && Readable(raws[..n + 1])
         && ((e == DuplicateSpan && !Unique(Spans(raws[..n + 1])))
             || (e == SingleTraceBudget && Unique(Spans(raws[..n + 1])) && !WithinTraceBudget(Spans(raws[..n + 1]))))
  }

  lemma NothingCollected()
    ensures Readable([]) && Unique(Spans([])) && WithinTraceBudget(Spans([])) && Collected(map[], Spans([]))
  {
  }

  lemma BudgetStep(before: seq<Span>, span: Span)
    requires WithinTraceBudget(before)
    requires |GraphOf(before + [span], span.trace)| <= MAX_SPANS_PER_TRACE
    ensures WithinTraceBudget(before + [span])
  {
    var after := before + [span];
    assert after[..|before|] == before;
    forall trace
      ensures |GraphOf(after, trace)| <= MAX_SPANS_PER_TRACE
    {
      assert |GraphOf(before, trace)| <= MAX_SPANS_PER_TRACE;
    }
  }

  lemma ExtendSpans(raws: seq<RawSpan>, n: nat)
    requires n < |raws| && Readable(raws[..n]) && Read(raws[n]).Ok?
    ensures Readable(raws[..n + 1]) && Spans(raws[..n + 1]) == Spans(raws[..n]) + [Read(raws[n]).value]
  {
    assert raws[..n + 1][..n] == raws[..n];
  }

  /** The first pass: record checks in input order, then the parent graph of every trace. */
  method CollectParents(raws: seq<RawSpan>) returns (r: Result<map<string, Graph>, Rejection>)
    ensures r.Ok? <==> WellShaped(raws)
    ensures r.Ok? ==> Collected(r.value, Spans(raws))
    ensures r.Err? ==> r.error != ParentCycle
    ensures r.Err? ==> (r.error == SpanBudget && |raws| > MAX_CANONICAL_SPANS) || exists n :: RejectedAt(raws, n, r.error)
  {
    if |raws| > MAX_CANONICAL_SPANS {
      return Err(SpanBudget);
    }
    hide GraphOf, Unique, Collected, WithinTraceBudget;
    var parents: map<string, Graph> := map[];
    assert raws[..0] == [];
    NothingCollected();
    for n := 0 to |raws|
      invariant Readable(raws[..n])
      invariant Unique(Spans(raws[..n])) && WithinTraceBudget(Spans(raws[..n]))
      invariant Collected(parents, Spans(raws[..n]))
    {
      var read := Read(raws[n]);
      if read.Err? {
        assert !Readable(raws) && RejectedAt(raws, n, read.error);
        return Err(read.error);
      }
      var span := read.value;
      CollectStep(raws, n, parents);
      ExtendSpans(raws, n);
      var graph := if span.trace in parents then parents[span.trace] else map[];
      if span.id in graph {
        DuplicateFails(raws, n + 1);
        assert RejectedAt(raws, n, DuplicateSpan);
        return Err(DuplicateSpan);
      }
      graph := graph[span.id := span.parent];
      parents := parents[span.trace := graph];
      CollectedAt(parents, Spans(raws[..n + 1]), span.trace);
      if |graph| > MAX_SPANS_PER_TRACE {
        BudgetFails(raws, n + 1, span.trace);
        OverTraceBudget(Spans(raws[..n + 1]), span.trace);
        assert RejectedAt(raws, n, SingleTraceBudget);
        return Err(SingleTraceBudget);
      }
      BudgetStep(Spans(raws[..n]), span);
    }
    assert raws[..|raws|] == raws;
    r := Ok(parents);
  }

  /** The second pass, one graph at a time. */
  method AnyParentCycle(parents: map<string, Graph>) returns (cyclic: bool)
    ensures cyclic <==> exists trace :: trace in parents && Cyclic(parents[trace])
  {
    var todo := parents.Keys;
    while todo != {}
      invariant todo <= parents.Keys
      invariant forall trace :: trace in parents && trace !in todo ==> !Cyclic(parents[trace])
      decreases |todo|
    {
      var trace :| trace in todo;
      todo := todo - {trace};
      var steps;
      cyclic, steps := HasParentCycle(parents[trace]);
      if cyclic {
        return;
      }
    }
    cyclic := false;
  }

  lemma CollectedCycles(parents: map<string, Graph>, spans: seq<Span>)
    requires Collected(parents, spans)
    ensures SomeTraceCyclic(spans) <==> exists trace :: trace in parents && Cyclic(parents[trace])
  {
    RankedIsAcyclic(map[], map[]);
    if trace :| Cyclic(GraphOf(spans, trace)) {
      assert trace in parents;
    }
    if trace :| trace in parents && Cyclic(parents[trace]) {
      assert Cyclic(GraphOf(spans, trace));
    }
  }

  /** Admission accepts exactly the admissible inputs and returns them unchanged; the cycle error is raised
      exactly when everything else passes and some trace has a parent cycle. */
  method ValidateCanonicalSpans(raws: seq<RawSpan>) returns (r: Result<seq<Span>, Rejection>)
    ensures r.Ok? <==> Admissible(raws)
    ensures r.Ok? ==> r.value == Spans(raws)
    ensures r == Err(ParentCycle) <==> WellShaped(raws) && SomeTraceCyclic(Spans(raws))
    ensures r.Err? && r.error != ParentCycle ==>
              (r.error == SpanBudget && |raws| > MAX_CANONICAL_SPANS) || exists n :: RejectedAt(raws, n, r.error)
  {
    var collected := CollectParents(raws);
    if collected.Err? {
      return Err(collected.error);
    }
    CollectedCycles(collected.value, Spans(raws));
    var cyclic := AnyParentCycle(collected.value);
    r := if cyclic then Err(ParentCycle) else Ok(Spans(raws));
  }
}
