/** Observed waiting and exclusive time of SERVER spans: a descendant search under a shared visit budget,
    followed by the interval sweep. */
module SpanTimings {
  import opened Prelude
  import opened IntervalUnion
  import opened SpanGraph

  const MAX_VISITS := 200000

  /** The spans of one trace that name `parent` as their parent, in input order. */
  function ChildrenOf(spans: seq<Span>, trace: string, parent: string): seq<Span> {
    if spans == [] then []
    else
      var last := spans[|spans| - 1];
      var before := ChildrenOf(spans[..|spans| - 1], trace, parent);
      if last.trace == trace && last.parent == parent then before + [last] else before
  }

  lemma {:induction false} ChildrenAre(spans: seq<Span>, trace: string, parent: string, s: Span)
    ensures s in ChildrenOf(spans, trace, parent) <==> s in spans && s.trace == trace && s.parent == parent
  {
    if spans != [] {
      var n := |spans| - 1;
      ChildrenAre(spans[..n], trace, parent, s);
      assert spans == spans[..n] + [spans[n]];
    }
  }

  ghost predicate Distinct(spans: seq<Span>) {
    forall i, j :: 0 <= i < j < |spans| ==> spans[i] != spans[j]
  }

  lemma UniquePrefix(spans: seq<Span>, n: nat)
    requires n <= |spans| && Unique(spans)
    ensures Unique(spans[..n])
  {
    forall i, j | 0 <= i < j < n && spans[..n][i].trace == spans[..n][j].trace
      ensures spans[..n][i].id != spans[..n][j].id
    {
      assert spans[i].id != spans[j].id;
    }
  }

  lemma {:induction false} ChildrenDistinct(spans: seq<Span>, trace: string, parent: string)
    requires Unique(spans)
    ensures Distinct(ChildrenOf(spans, trace, parent))
  {
    if spans != [] {
      var n := |spans| - 1;
      UniquePrefix(spans, n);
      ChildrenDistinct(spans[..n], trace, parent);
      ChildrenAre(spans[..n], trace, parent, spans[n]);
      assert forall i :: 0 <= i < n ==> spans[..n][i] != spans[n];
    }
  }

  /** In a list with unique identifiers an identifier names one span of the trace. */
  lemma IdNamesOne(spans: seq<Span>, a: Span, b: Span)
    requires Unique(spans) && a in spans && b in spans && a.trace == b.trace && a.id == b.id
    ensures a == b
  {
    var i :| 0 <= i < |spans| && spans[i] == a;
    var j :| 0 <= j < |spans| && spans[j] == b;
    assert i == j;
  }

  lemma GraphHas(spans: seq<Span>, s: Span)
    requires Unique(spans) && s in spans
    ensures s.id in GraphOf(spans, s.trace) && GraphOf(spans, s.trace)[s.id] == s.parent
  {
    var i :| 0 <= i < |spans| && spans[i] == s;
    GraphParent(spans, i);
  }

  // ----- descendants -----

  /** x is a strict ancestor of y. */
  ghost predicate Below(g: Graph, y: string, x: string) {
    exists n: nat :: n > 0 && Climbs(g, y, n, x)
  }

  ghost function Descendants(spans: seq<Span>, root: Span): set<string> {
    set s | s in spans && s.trace == root.trace && Below(GraphOf(spans, root.trace), s.id, root.id) :: s.id
  }

  lemma ChildIsBelow(spans: seq<Span>, s: Span, x: string)
    requires Unique(spans) && s in spans
    requires s.parent == x || Below(GraphOf(spans, s.trace), s.parent, x)
    ensures Below(GraphOf(spans, s.trace), s.id, x)
  {
    var g := GraphOf(spans, s.trace);
    GraphHas(spans, s);
    if s.parent == x {
      assert Climbs(g, x, 0, x);
      assert Climbs(g, s.id, 1, x);
    } else {
      var n: nat :| n > 0 && Climbs(g, s.parent, n, x);
      assert Climbs(g, s.id, n + 1, x);
    }
  }

  // ----- the search -----

  datatype Descent = CyclicTrace | Exhausted | Finished(intervals: seq<Interval>)

  predicate Blocking(s: Span, service: string) {
    s.service == service && s.kind == Some("CLIENT")
  }

  function Clip(root: Span, s: Span): Interval {
    (Max(root.start, s.start), Min(root.start + root.duration, s.start + s.duration))
  }

  function WithClip(intervals: seq<Interval>, root: Span, service: string, s: Span): seq<Interval> {
    if Blocking(s, service) && Clip(root, s).0 < Clip(root, s).1 then intervals + [Clip(root, s)] else intervals
  }

  /** The microseconds of the root spent waiting on same-service CLIENT spans whose identifier is in `ids`. */
  ghost function WaitedOn(spans: seq<Span>, root: Span, service: string, ids: set<string>): set<int> {
    set t | t in Points(root.start, root.start + root.duration) && WaitsAt(spans, root, service, ids, t)
  }

  ghost predicate WaitsAt(spans: seq<Span>, root: Span, service: string, ids: set<string>, t: int) {
    exists s :: s in spans && s.trace == root.trace && s.id in ids && s.service == service && s.kind == Some("CLIENT")
             && s.start <= t < s.start + s.duration
  }

  /** The stack: distinct spans whose parents were seen; only the root may come back. */
  ghost predicate Frontier(spans: seq<Span>, root: Span, pending: seq<Span>, seen: set<string>) {
    && Distinct(pending)
    && (forall s :: s in pending ==>
          s in spans && s.trace == root.trace && s.parent in seen && (s.id in seen ==> s.id == root.id))
  }

  /** Nothing below a seen span has been dropped. */
  ghost predicate Closed(spans: seq<Span>, root: Span, pending: seq<Span>, seen: set<string>) {
    forall s :: s in spans && s.trace == root.trace && s.parent in seen ==>
      s in pending || (s.id in seen && s.id != root.id)
  }

  /** Everything seen, other than the root, is a descendant whose parent was seen. */
  ghost predicate Reached(spans: seq<Span>, root: Span, seen: set<string>) {
    && root.id in seen
    && (forall s :: s in spans && s.trace == root.trace && s.id in seen ==> s.id == root.id || s.parent in seen)
    && seen <= Descendants(spans, root) + {root.id}
  }

  ghost predicate Measured(spans: seq<Span>, root: Span, service: string, seen: set<string>, intervals: seq<Interval>) {
    && Covered(intervals) == WaitedOn(spans, root, service, seen - {root.id})
    && (forall p :: p in intervals ==> root.start <= p.0 && p.1 <= root.start + root.duration)
  }

  ghost predicate Explored(spans: seq<Span>, root: Span, service: string,
                           pending: seq<Span>, seen: set<string>, intervals: seq<Interval>) {
    && Frontier(spans, root, pending, seen)
    && Closed(spans, root, pending, seen)
    && Reached(spans, root, seen)
    && Measured(spans, root, service, seen, intervals)
  }

  lemma KidsAre(spans: seq<Span>, trace: string, id: string)
    ensures forall s :: s in ChildrenOf(spans, trace, id) <==> s in spans && s.trace == trace && s.parent == id
  {
    forall s: Span
      ensures s in ChildrenOf(spans, trace, id) <==> s in spans && s.trace == trace && s.parent == id
    {
      ChildrenAre(spans, trace, id, s);
    }
  }

  lemma ExploreStart(spans: seq<Span>, root: Span, service: string)
    requires Unique(spans)
    ensures Explored(spans, root, service, ChildrenOf(spans, root.trace, root.id), {root.id}, [])
  {
    ChildrenDistinct(spans, root.trace, root.id);
    KidsAre(spans, root.trace, root.id);
    assert {root.id} - {root.id} == {};
    assert WaitedOn(spans, root, service, {}) == {};
  }

  lemma ExploreWait(spans: seq<Span>, root: Span, service: string, seen: set<string>,
                    intervals: seq<Interval>, item: Span)
    requires Unique(spans) && item in spans && item.trace == root.trace
    requires Measured(spans, root, service, seen, intervals)
    requires item.id !in seen && root.id in seen
    ensures Measured(spans, root, service, seen + {item.id}, WithClip(intervals, root, service, item))
  {
    var ids := seen - {root.id};
    var c := Clip(root, item);
    assert seen + {item.id} - {root.id} == ids + {item.id};
    CoveredPush(intervals, c.0, c.1);
    var more := WithClip(intervals, root, service, item);
    assert Covered(more) == Covered(intervals) + if Blocking(item, service) then Points(c.0, c.1) else {};
    forall t
      ensures t in WaitedOn(spans, root, service, ids + {item.id}) <==> t in Covered(more)
    {
      if t in WaitedOn(spans, root, service, ids + {item.id}) {
        var s :| s in spans && s.trace == root.trace && s.id in ids + {item.id} && Blocking(s, service)
              && s.start <= t < s.start + s.duration;
        if s.id == item.id {
          IdNamesOne(spans, s, item);
        }
      }
    }
  }

  lemma ExplorePending(spans: seq<Span>, root: Span, pending: seq<Span>, seen: set<string>)
    requires Unique(spans) && pending != []
    requires Frontier(spans, root, pending, seen) && Reached(spans, root, seen)
    requires pending[|pending| - 1].id !in seen
    ensures var item := pending[|pending| - 1];
            Frontier(spans, root, pending[..|pending| - 1] + ChildrenOf(spans, root.trace, item.id), seen + {item.id})
  {
    var n := |pending| - 1;
    var item := pending[n];
    assert item in pending;
    var kids := ChildrenOf(spans, root.trace, item.id);
    ChildrenDistinct(spans, root.trace, item.id);
    KidsAre(spans, root.trace, item.id);
    forall s | s in pending[..n]
      ensures s.id != item.id && s in pending
    {
      var k :| 0 <= k < n && pending[k] == s;
      assert pending[k] != pending[n];
      if s.id == item.id {
        IdNamesOne(spans, s, item);
      }
    }
    assert item.parent in seen;
    forall s | s in kids
      ensures s.id in seen + {item.id} ==> s.id == root.id
    {
      if s.id == item.id {
        IdNamesOne(spans, s, item);
      }
    }
  }

  lemma ExploreReach(spans: seq<Span>, root: Span, item: Span, seen: set<string>)
    requires Unique(spans) && item in spans && item.trace == root.trace && item.parent in seen
    requires Reached(spans, root, seen)
    ensures Below(GraphOf(spans, root.trace), item.id, root.id)
    ensures item.id in Descendants(spans, root)
  {
    if item.parent != root.id {
      assert item.parent in Descendants(spans, root);
      var s :| s in spans && s.trace == root.trace && s.id == item.parent
            && Below(GraphOf(spans, root.trace), s.id, root.id);
    }
    ChildIsBelow(spans, item, root.id);
  }

  lemma ExploreClosed(spans: seq<Span>, root: Span, pending: seq<Span>, seen: set<string>)
    requires Unique(spans) && pending != []
    requires Closed(spans, root, pending, seen) && root.id in seen
    requires pending[|pending| - 1].id !in seen
    ensures var item := pending[|pending| - 1];
            Closed(spans, root, pending[..|pending| - 1] + ChildrenOf(spans, root.trace, item.id), seen + {item.id})
  {
    var n := |pending| - 1;
    assert pending == pending[..n] + [pending[n]];
    KidsAre(spans, root.trace, pending[n].id);
  }

  lemma ExploreSeen(spans: seq<Span>, root: Span, item: Span, seen: set<string>)
    requires Unique(spans) && item in spans && item.trace == root.trace && item.parent in seen
    requires Reached(spans, root, seen)
    ensures Reached(spans, root, seen + {item.id})
  {
    ExploreReach(spans, root, item, seen);
    forall s | s in spans && s.trace == root.trace && s.id == item.id
      ensures s.parent in seen
    {
      IdNamesOne(spans, s, item);
    }
  }

  /** One iteration keeps the picture. */
  lemma ExploreStep(spans: seq<Span>, root: Span, service: string,
                    pending: seq<Span>, seen: set<string>, intervals: seq<Interval>)
    requires Unique(spans) && pending != []
    requires Explored(spans, root, service, pending, seen, intervals)
    requires pending[|pending| - 1].id !in seen
    ensures var item := pending[|pending| - 1];
            Explored(spans, root, service, pending[..|pending| - 1] + ChildrenOf(spans, root.trace, item.id),
                     seen + {item.id}, WithClip(intervals, root, service, item))
  {
    var item := pending[|pending| - 1];
    assert item in pending;
    ExplorePending(spans, root, pending, seen);
    ExploreClosed(spans, root, pending, seen);
    ExploreSeen(spans, root, item, seen);
    ExploreWait(spans, root, service, seen, intervals, item);
  }

  /** A repeat can only be the root itself, and then the root is its own ancestor. */
  lemma RepeatIsRoot(spans: seq<Span>, root: Span, service: string,
                     pending: seq<Span>, seen: set<string>, intervals: seq<Interval>)
    requires Unique(spans) && pending != []
    requires Explored(spans, root, service, pending, seen, intervals)
    requires pending[|pending| - 1].id in seen
    ensures OnCycle(GraphOf(spans, root.trace), root.id)
  {
    var item := pending[|pending| - 1];
    assert item in pending;
    ExploreReach(spans, root, item, seen);
  }

  /** With nothing pending, whatever climbs to the root has been seen. */
  lemma {:induction false} SeenIsClosed(spans: seq<Span>, root: Span, service: string, seen: set<string>,
                                        intervals: seq<Interval>, y: string, n: nat)
    requires Unique(spans) && Explored(spans, root, service, [], seen, intervals)
    requires Climbs(GraphOf(spans, root.trace), y, n, root.id)
    ensures y in seen
    ensures n > 0 ==> y != root.id
    decreases n
  {
    if n > 0 {
      var g := GraphOf(spans, root.trace);
      GraphKeys(spans, root.trace, y);
      var i :| 0 <= i < |spans| && spans[i].trace == root.trace && spans[i].id == y;
      GraphParent(spans, i);
      SeenIsClosed(spans, root, service, seen, intervals, g[y], n - 1);
      assert spans[i] in spans && spans[i].parent in seen;
    }
  }

  /** What an exhausted stack means: every strict descendant was visited once and the root is not its own
      ancestor. */
  lemma ExploredAll(spans: seq<Span>, root: Span, service: string, seen: set<string>, intervals: seq<Interval>)
    requires Unique(spans) && Explored(spans, root, service, [], seen, intervals)
    ensures !OnCycle(GraphOf(spans, root.trace), root.id)
    ensures seen - {root.id} == Descendants(spans, root)
    ensures |seen| - 1 == |Descendants(spans, root)|
  {
    var g := GraphOf(spans, root.trace);
    if OnCycle(g, root.id) {
      var n: nat :| n > 0 && Climbs(g, root.id, n, root.id);
      SeenIsClosed(spans, root, service, seen, intervals, root.id, n);
    }
    forall y | y in Descendants(spans, root)
      ensures y in seen - {root.id}
    {
      var s :| s in spans && s.trace == root.trace && s.id == y && Below(g, y, root.id);
      var n: nat :| n > 0 && Climbs(g, y, n, root.id);
      SeenIsClosed(spans, root, service, seen, intervals, y, n);
    }
    assert seen == (seen - {root.id}) + {root.id};
  }

  type Index = map<(string, string), seq<Span>>

  function Lookup(children: Index, trace: string, id: string): seq<Span> {
    if (trace, id) in children then children[(trace, id)] else []
  }

  ghost predicate Indexed(children: Index, spans: seq<Span>) {
    forall trace, id :: Lookup(children, trace, id) == ChildrenOf(spans, trace, id)
  }

  ghost function Ids(spans: seq<Span>): set<string> {
    set s | s in spans :: s.id
  }

  /** The microseconds of `root` covered by a same-service CLIENT span below it. */
  ghost function Waited(spans: seq<Span>, root: Span, service: string): set<int> {
    WaitedOn(spans, root, service, Descendants(spans, root))
  }

  lemma FewerLeft(spans: seq<Span>, seen: set<string>, s: Span)
    requires s in spans && s.id !in seen
    ensures |Ids(spans) - (seen + {s.id})| < |Ids(spans) - seen|
  {
    SmallerWithout(Ids(spans), seen, s.id);
  }

  /** What a finished search says. With unique identifiers and no cycle through the root it either visited
      each strict descendant exactly once and collected exactly the blocked time, or the descendants do not
      fit in what was left of the budget; a cycle through the root is never missed while the budget lasts. */
  ghost predicate Searched(spans: seq<Span>, root: Span, service: string, visits: nat,
                           outcome: Descent, visits': nat) {
    var descendants := Descendants(spans, root);
    && visits <= visits'
    && (Unique(spans) && OnCycle(GraphOf(spans, root.trace), root.id) ==> !outcome.Finished?)
    && (Unique(spans) && !OnCycle(GraphOf(spans, root.trace), root.id) ==>
          if descendants == {} || visits + |descendants| <= MAX_VISITS then
            && outcome.Finished?
            && visits' == visits + |descendants|
            && Covered(outcome.intervals) == Waited(spans, root, service)
            && (forall p :: p in outcome.intervals ==> root.start <= p.0 && p.1 <= root.start + root.duration)
          else
            outcome.Exhausted? && visits' > MAX_VISITS)
  }

  ghost predicate Searching(spans: seq<Span>, root: Span, service: string, visits: nat,
                            pending: seq<Span>, seen: set<string>, intervals: seq<Interval>, visits': nat) {
    && (forall s :: s in pending ==> s in spans)
    && (Unique(spans) ==> Explored(spans, root, service, pending, seen, intervals))
    && visits <= visits' == visits + |seen| - 1
    && (|seen| > 1 ==> visits' <= MAX_VISITS)
  }

  lemma SearchStart(spans: seq<Span>, root: Span, service: string, visits: nat)
    ensures Searching(spans, root, service, visits, ChildrenOf(spans, root.trace, root.id), {root.id}, [], visits)
  {
    KidsAre(spans, root.trace, root.id);
    if Unique(spans) {
      ExploreStart(spans, root, service);
    }
  }

  lemma SearchStep(spans: seq<Span>, root: Span, service: string, visits: nat,
                   pending: seq<Span>, seen: set<string>, intervals: seq<Interval>, visits': nat)
    requires Searching(spans, root, service, visits, pending, seen, intervals, visits')
    requires pending != [] && pending[|pending| - 1].id !in seen && visits' < MAX_VISITS
    ensures var item := pending[|pending| - 1];
            && Searching(spans, root, service, visits,
                         pending[..|pending| - 1] + ChildrenOf(spans, root.trace, item.id),
                         seen + {item.id}, WithClip(intervals, root, service, item), visits' + 1)
            && |Ids(spans) - (seen + {item.id})| < |Ids(spans) - seen|
  {
    var item := pending[|pending| - 1];
    assert item in pending;
    FewerLeft(spans, seen, item);
    KidsAreSpans(spans, pending, root.trace, item.id);
    if Unique(spans) {
      ExploreStep(spans, root, service, pending, seen, intervals);
    }
  }

  lemma SearchOverBudget(spans: seq<Span>, root: Span, service: string, visits: nat,
                         pending: seq<Span>, seen: set<string>, intervals: seq<Interval>, visits': nat)
    requires Searching(spans, root, service, visits, pending, seen, intervals, visits')
    requires pending != [] && visits' + 1 > MAX_VISITS
    ensures Searched(spans, root, service, visits, Exhausted, visits' + 1)
  {
    if Unique(spans) && !OnCycle(GraphOf(spans, root.trace), root.id) {
      OverBudget(spans, root, service, pending, seen, intervals);
    }
  }

  lemma SearchRepeats(spans: seq<Span>, root: Span, service: string, visits: nat,
                      pending: seq<Span>, seen: set<string>, intervals: seq<Interval>, visits': nat)
    requires Searching(spans, root, service, visits, pending, seen, intervals, visits')
    requires pending != [] && pending[|pending| - 1].id in seen
    ensures Searched(spans, root, service, visits, CyclicTrace, visits' + 1)
  {
    if Unique(spans) {
      RepeatIsRoot(spans, root, service, pending, seen, intervals);
    }
  }

  lemma SearchDone(spans: seq<Span>, root: Span, service: string, visits: nat,
                   seen: set<string>, intervals: seq<Interval>, visits': nat)
    requires Searching(spans, root, service, visits, [], seen, intervals, visits')
    ensures Searched(spans, root, service, visits, Finished(intervals), visits')
  {
    if Unique(spans) {
      ExploredAll(spans, root, service, seen, intervals);
      if Descendants(spans, root) != {} {
        assert |Descendants(spans, root)| > 0;
      }
    }
  }

  /** The descendant search: a stack, a set of seen identifiers and a visit counter shared by all searches. */
  method Descend(spans: seq<Span>, children: Index, root: Span, service: string, visits: nat)
    returns (outcome: Descent, visits': nat)
    requires Indexed(children, spans)
    ensures Searched(spans, root, service, visits, outcome, visits')
  {
    var pending := Lookup(children, root.trace, root.id);
    var seen := {root.id};
    var intervals: seq<Interval> := [];
    visits' := visits;
    SearchStart(spans, root, service, visits);
    while pending != []
      invariant Searching(spans, root, service, visits, pending, seen, intervals, visits')
      decreases |Ids(spans) - seen|
    {
      var item := pending[|pending| - 1];
      if visits' + 1 > MAX_VISITS {
        SearchOverBudget(spans, root, service, visits, pending, seen, intervals, visits');
        return Exhausted, visits' + 1;
      }
      if item.id in seen {
        SearchRepeats(spans, root, service, visits, pending, seen, intervals, visits');
        return CyclicTrace, visits' + 1;
      }
      SearchStep(spans, root, service, visits, pending, seen, intervals, visits');
      visits' := visits' + 1;
      seen := seen + {item.id};
      pending := pending[..|pending| - 1] + Lookup(children, root.trace, item.id);
      intervals := WithClip(intervals, root, service, item);
    }
    SearchDone(spans, root, service, visits, seen, intervals, visits');
    outcome := Finished(intervals);
  }

  lemma KidsAreSpans(spans: seq<Span>, pending: seq<Span>, trace: string, id: string)
    requires pending != [] && forall s :: s in pending ==> s in spans
    ensures forall s :: s in pending[..|pending| - 1] + ChildrenOf(spans, trace, id) ==> s in spans
  {
    forall s | s in ChildrenOf(spans, trace, id)
      ensures s in spans
    {
      ChildrenAre(spans, trace, id, s);
    }
  }

  /** A span still on the stack is a descendant not yet counted. */
  lemma OverBudget(spans: seq<Span>, root: Span, service: string,
                   pending: seq<Span>, seen: set<string>, intervals: seq<Interval>)
    requires Unique(spans) && pending != [] && !OnCycle(GraphOf(spans, root.trace), root.id)
    requires Explored(spans, root, service, pending, seen, intervals)
    ensures Descendants(spans, root) != {}
    ensures |seen| <= |Descendants(spans, root)|
  {
    var item := pending[|pending| - 1];
    assert item in pending;
    ExploreReach(spans, root, item, seen);
    assert item.id != root.id;
    var found := seen - {root.id} + {item.id};
    assert seen == (seen - {root.id}) + {root.id};
    SubsetSize(found, Descendants(spans, root));
  }
}
