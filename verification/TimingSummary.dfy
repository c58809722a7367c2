/** The per-service timing summary: which spans are timed, how waiting is split from exclusive time, and how
    the visit budget is shared between services. */
module TimingSummary {
  import opened Prelude
  import opened Sorting
  import opened IntervalUnion
  import opened SpanGraph
  import opened SpanTimings

  // ----- quantiles -----

  /** Linear interpolation between the neighbours of a fractional position. */
  function At(ordered: seq<int>, position: real): real
    requires ordered != [] && 0.0 <= position <= (|ordered| - 1) as real
  {
    var left := position.Floor;
    var right := Min(left + 1, |ordered| - 1);
    ordered[left] as real + (ordered[right] - ordered[left]) as real * (position - left as real)
  }

  function Position(last: nat, q: real): (position: real)
    requires 0.0 <= q <= 1.0
    ensures 0.0 <= position <= last as real
  {
    Fraction(last as real, q);
    last as real * q
  }

  function Interpolate(ordered: seq<int>, q: real): real
    requires ordered != [] && 0.0 <= q <= 1.0
  {
    At(ordered, Position(|ordered| - 1, q))
  }

  function Quantile(values: seq<int>, q: real): Option<real>
    requires 0.0 <= q <= 1.0
  {
    SortKeeps(values, IntLeq);
    if values == [] then None else Some(Interpolate(Sort(values, IntLeq), q))
  }

  lemma Fraction(x: real, q: real)
    requires 0.0 <= x && 0.0 <= q <= 1.0
    ensures 0.0 <= x * q <= x
  {
    assert x - x * q == x * (1.0 - q);
  }

  lemma Between(a: int, b: int, w: real)
    requires a <= b && 0.0 <= w <= 1.0
    ensures a as real <= a as real + (b - a) as real * w <= b as real
  {
    Fraction((b - a) as real, w);
  }

  lemma AtBetween(ordered: seq<int>, position: real)
    requires ordered != [] && 0.0 <= position <= (|ordered| - 1) as real && Ascending(ordered, IntLeq)
    ensures var left := position.Floor;
            var right := Min(left + 1, |ordered| - 1);
            && ordered[left] as real <= At(ordered, position) <= ordered[right] as real
            && (position == left as real ==> At(ordered, position) == ordered[left] as real)
  {
    var left := position.Floor;
    var right := Min(left + 1, |ordered| - 1);
    assert left == right || IntLeq(ordered[left], ordered[right]);
    Between(ordered[left], ordered[right], position - left as real);
    assert (ordered[right] - ordered[left]) as real * 0.0 == 0.0;
  }

  /** A quantile lies between the two order statistics around its position, as far along as the position is, and is the
      one at it when the position is whole. */
  lemma QuantileIsBetween(values: seq<int>, q: real)
    requires values != [] && 0.0 <= q <= 1.0
    ensures var ordered, position := Sort(values, IntLeq), Position(|values| - 1, q);
            var left := position.Floor;
            var right := Min(left + 1, |values| - 1);
            && |ordered| == |values| && Ascending(ordered, IntLeq)
            && position == (|values| - 1) as real * q
            && ordered[left] as real <= Quantile(values, q).value <= ordered[right] as real
            && (position == left as real ==> Quantile(values, q).value == ordered[left] as real)
            && Quantile(values, q).value
               == ordered[left] as real + (ordered[right] - ordered[left]) as real * (position - left as real)
  {
    hide Sort, Ascending;
    SortKeeps(values, IntLeq);
    IntOrder();
    SortAscends(values, IntLeq);
    AtBetween(Sort(values, IntLeq), Position(|values| - 1, q));
  }

  /** A quantile does not depend on the order of the values. */
  lemma QuantileIgnoresOrder(a: seq<int>, b: seq<int>, q: real)
    requires 0.0 <= q <= 1.0 && multiset(a) == multiset(b)
    ensures Quantile(a, q) == Quantile(b, q)
  {
    IntOrder();
    SortIgnoresOrder(a, b, IntLeq);
    SameMembers(a, b);
  }

  // ----- what the summary promises -----

  datatype WaitState = BudgetExceeded | Decomposed | NoServerSpans

  datatype Summary = Summary(serverSelection: bool, timedSpans: nat,
                             median: Option<real>, p90: Option<real>, longest: Option<int>,
                             waitMedian: Option<real>, exclusiveMedian: Option<real>,
                             waitState: WaitState, unresolvedParents: nat)

  /** The part of an admitted list the decomposition relies on. */
  ghost predicate Sound(spans: seq<Span>) {
    && Unique(spans)
    && !SomeTraceCyclic(spans)
    && (forall s :: s in spans ==> s.duration >= 0)
  }

  lemma AdmittedIsSound(raws: seq<RawSpan>)
    requires Admissible(raws)
    ensures Sound(Spans(raws))
  {
  }

  /** How many visits the searches below these roots need. */
  ghost function Cost(spans: seq<Span>, roots: seq<Span>): nat {
    if roots == [] then 0
    else Cost(spans, roots[..|roots| - 1]) + |Descendants(spans, roots[|roots| - 1])|
  }

  lemma {:induction false} CostSplits(spans: seq<Span>, a: seq<Span>, b: seq<Span>)
    ensures Cost(spans, a + b) == Cost(spans, a) + Cost(spans, b)
  {
    if b == [] {
      assert a + b == a;
    } else {
      var n := |b| - 1;
      CostSplits(spans, a, b[..n]);
      assert (a + b)[..|a + b| - 1] == a + b[..n];
    }
  }

  /** The search below the i-th root runs past the budget: it has descendants, and counting them and
      everything before them exceeds the limit. */
  ghost predicate RunsOut(spans: seq<Span>, roots: seq<Span>, i: nat, spent: nat) {
    i < |roots| && Descendants(spans, roots[i]) != {} && spent + Cost(spans, roots[..i + 1]) > MAX_VISITS
  }

  ghost function Wait(spans: seq<Span>, root: Span): int {
    |Waited(spans, root, root.service)|
  }

  /** The exclusive microseconds: those of the span that no same-service CLIENT descendant covers. */
  ghost function Exclusive(spans: seq<Span>, root: Span): int {
    |Points(root.start, root.start + root.duration) - Waited(spans, root, root.service)|
  }

  ghost predicate Split(spans: seq<Span>, roots: seq<Span>, waits: seq<int>, exclusives: seq<int>) {
    && |waits| == |exclusives| == |roots|
    && (forall i :: 0 <= i < |roots| ==>
          waits[i] == Wait(spans, roots[i]) && exclusives[i] == Exclusive(spans, roots[i]))
  }

  lemma WaitedInside(spans: seq<Span>, root: Span, service: string, ids: set<string>)
    ensures WaitedOn(spans, root, service, ids) <= Points(root.start, root.start + root.duration)
  {
  }

  lemma PointsSplit(start: int, duration: int, part: set<int>)
    requires duration >= 0 && part <= Points(start, start + duration)
    ensures |part| + |Points(start, start + duration) - part| == duration
  {
    PointsSize(start, start + duration);
    SetSplit(Points(start, start + duration), part);
  }

  /** Waiting and exclusive time share out the duration, whatever the rest of the trace looks like. */
  lemma WaitPlusExclusive(spans: seq<Span>, root: Span)
    requires root.duration >= 0
    ensures Wait(spans, root) + Exclusive(spans, root) == root.duration
    ensures 0 <= Wait(spans, root) <= root.duration
  {
    WaitedInside(spans, root, root.service, Descendants(spans, root));
    PointsSplit(root.start, root.duration, Waited(spans, root, root.service));
  }

  /** The `min` with the duration never bites: the clipped union already fits. */
  lemma ObservedWait(spans: seq<Span>, root: Span, intervals: seq<Interval>, total: int)
    requires root.duration >= 0
    requires Covered(intervals) == Waited(spans, root, root.service)
    requires total == |Covered(intervals)|
    ensures Min(root.duration, total) == total == Wait(spans, root)
    ensures root.duration - total == Exclusive(spans, root)
  {
    WaitPlusExclusive(spans, root);
  }

  ghost predicate Spending(spans: seq<Span>, roots: seq<Span>, i: nat, spent: nat, visits: nat) {
    && i <= |roots|
    && visits == spent + Cost(spans, roots[..i])
    && (forall k :: 0 <= k < i ==> !RunsOut(spans, roots, k, spent))
  }

  lemma NoCycleThrough(spans: seq<Span>, root: Span)
    requires Sound(spans)
    ensures !OnCycle(GraphOf(spans, root.trace), root.id)
  {
    if OnCycle(GraphOf(spans, root.trace), root.id) {
      assert Cyclic(GraphOf(spans, root.trace));
    }
  }

  lemma SpendOne(spans: seq<Span>, roots: seq<Span>, i: nat, spent: nat, visits: nat, outcome: Descent, visits': nat)
    requires Sound(spans) && i < |roots| && Spending(spans, roots, i, spent, visits)
    requires Searched(spans, roots[i], roots[i].service, visits, outcome, visits')
    ensures !outcome.CyclicTrace?
    ensures outcome.Exhausted? ==> RunsOut(spans, roots, i, spent) && visits' > MAX_VISITS
    ensures outcome.Finished? ==> Spending(spans, roots, i + 1, spent, visits')
    ensures outcome.Finished? ==> Covered(outcome.intervals) == Waited(spans, roots[i], roots[i].service)
  {
    NoCycleThrough(spans, roots[i]);
    assert roots[..i + 1][..i] == roots[..i];
  }

  ghost predicate Splitting(spans: seq<Span>, servers: seq<Span>, i: nat, spent: nat, visits: nat,
                            waits: seq<int>, exclusives: seq<int>) {
    Spending(spans, servers, i, spent, visits) && Split(spans, servers[..i], waits, exclusives)
  }

  lemma SplitMore(spans: seq<Span>, roots: seq<Span>, waits: seq<int>, exclusives: seq<int>, root: Span)
    requires Split(spans, roots, waits, exclusives)
    ensures Split(spans, roots + [root], waits + [Wait(spans, root)], exclusives + [Exclusive(spans, root)])
  {
  }

  lemma SplitOne(spans: seq<Span>, roots: seq<Span>, root: Span, waits: seq<int>, exclusives: seq<int>,
                 intervals: seq<Interval>, total: int)
    requires root.duration >= 0 && Split(spans, roots, waits, exclusives)
    requires Covered(intervals) == Waited(spans, root, root.service) && total == |Covered(intervals)|
    ensures var observed := Min(root.duration, total);
            Split(spans, roots + [root], waits + [observed], exclusives + [root.duration - observed])
  {
    ObservedWait(spans, root, intervals, total);
    SplitMore(spans, roots, waits, exclusives, root);
  }

  /** What splitting the SERVER spans of one service yields on a sound list: the cycle error cannot occur,
      the budget runs out exactly when the counts say so, and otherwise every span is split exactly. */
  ghost predicate SplitAll(spans: seq<Span>, servers: seq<Span>, spent: nat, cyclic: bool, exhausted: bool,
                           waits: seq<int>, exclusives: seq<int>, visits: nat) {
    && !cyclic
    && (exhausted <==> exists i: nat :: RunsOut(spans, servers, i, spent))
    && (exhausted ==> visits > MAX_VISITS)
    && (!exhausted ==> visits == spent + Cost(spans, servers) && Split(spans, servers, waits, exclusives))
  }

  lemma SplitDone(spans: seq<Span>, servers: seq<Span>, spent: nat, visits: nat,
                  waits: seq<int>, exclusives: seq<int>)
    requires Splitting(spans, servers, |servers|, spent, visits, waits, exclusives)
    ensures SplitAll(spans, servers, spent, false, false, waits, exclusives, visits)
  {
    assert servers[..|servers|] == servers;
  }

  lemma SplitNothing(spans: seq<Span>, servers: seq<Span>, spent: nat)
    ensures Splitting(spans, servers, 0, spent, spent, [], [])
  {
  }

  method SplitServers(spans: seq<Span>, children: Index, service: string, servers: seq<Span>, spent: nat)
    returns (cyclic: bool, exhausted: bool, waits: seq<int>, exclusives: seq<int>, visits: nat)
    requires Indexed(children, spans)
    requires forall s :: s in servers ==> s in spans && s.service == service
    ensures Sound(spans) ==> SplitAll(spans, servers, spent, cyclic, exhausted, waits, exclusives, visits)
  {
    hide Split, Cost, RunsOut, Waited, Wait, Exclusive;
    cyclic, exhausted, waits, exclusives, visits := false, false, [], [], spent;
    if Sound(spans) {
      SplitNothing(spans, servers, spent);
    }
    for i := 0 to |servers|
      invariant !cyclic && !exhausted
      invariant Sound(spans) ==> Splitting(spans, servers, i, spent, visits, waits, exclusives)
    {
      var span := servers[i];
      assert span in servers;
      ghost var before := visits;
      var outcome;
      outcome, visits := Descend(spans, children, span, service, visits);
      if !outcome.Finished? {
        if Sound(spans) {
          SpendOne(spans, servers, i, spent, before, outcome, visits);
        }
        cyclic, exhausted := outcome.CyclicTrace?, outcome.Exhausted?;
        return;
      }
      var total := Union(outcome.intervals);
      var observed := Min(span.duration, total);
      if Sound(spans) {
        SpendOne(spans, servers, i, spent, before, outcome, visits);
        SplitOne(spans, servers[..i], span, waits, exclusives, outcome.intervals, total);
        assert servers[..i + 1] == servers[..i] + [span];
      }
      waits := waits + [observed];
      exclusives := exclusives + [span.duration - observed];
    }
    if Sound(spans) {
      SplitDone(spans, servers, spent, visits, waits, exclusives);
    }
  }

  // ----- the whole summary -----

  predicate Selected(s: Span, service: string, startUs: int, endUs: int) {
    s.service == service && startUs <= s.start <= endUs
  }

  function Local(spans: seq<Span>, service: string, startUs: int, endUs: int): seq<Span> {
    if spans == [] then []
    else
      var last := spans[|spans| - 1];
      var before := Local(spans[..|spans| - 1], service, startUs, endUs);
      if Selected(last, service, startUs, endUs) then before + [last] else before
  }

  function Servers(local: seq<Span>): seq<Span> {
    if local == [] then []
    else
      var before := Servers(local[..|local| - 1]);
      if local[|local| - 1].kind == Some("SERVER") then before + [local[|local| - 1]] else before
  }

  function Durations(spans: seq<Span>): (d: seq<int>)
    ensures |d| == |spans| && forall i :: 0 <= i < |spans| ==> d[i] == spans[i].duration
  {
    if spans == [] then [] else Durations(spans[..|spans| - 1]) + [spans[|spans| - 1].duration]
  }

  function Longest(values: seq<int>): (m: Option<int>)
    ensures m.None? <==> values == []
    ensures m.Some? ==> m.value in values && forall i :: 0 <= i < |values| ==> values[i] <= m.value
  {
    if values == [] then None
    else
      match Longest(values[1..])
      case None => Some(values[0])
      case Some(m) => Some(Max(values[0], m))
  }

  /** The places of the spans that name a parent which is not known. */
  ghost function Orphans(local: seq<Span>, known: set<(string, string)>): set<nat> {
    set i: nat | i < |local| && local[i].parent != "" && (local[i].trace, local[i].parent) !in known
  }

  function UnresolvedParents(local: seq<Span>, known: set<(string, string)>): nat {
    if local == [] then 0
    else
      var last := local[|local| - 1];
      UnresolvedParents(local[..|local| - 1], known)
      + if last.parent != "" && (last.trace, last.parent) !in known then 1 else 0
  }

  predicate IsServer(s: Span) {
    s.kind == Some("SERVER")
  }

  function StartsIn(service: string, startUs: int, endUs: int): Span -> bool {
    (s: Span) => s.service == service && startUs <= s.start <= endUs
  }

  /** The selected spans are exactly those of the service that start in the window, in their order. */
  lemma {:induction false} LocalIs(spans: seq<Span>, service: string, startUs: int, endUs: int)
    ensures Local(spans, service, startUs, endUs) == Filter(StartsIn(service, startUs, endUs), spans)
  {
    if spans != [] {
      LocalIs(spans[..|spans| - 1], service, startUs, endUs);
    }
  }

  /** Their SERVER spans are exactly those of that kind, in their order. */
  lemma {:induction false} ServersIs(local: seq<Span>)
    ensures Servers(local) == Filter(IsServer, local)
  {
    if local != [] {
      ServersIs(local[..|local| - 1]);
    }
  }

  lemma {:induction false} OrphansCount(local: seq<Span>, known: set<(string, string)>)
    ensures UnresolvedParents(local, known) == |Orphans(local, known)|
  {
    if local != [] {
      var n := |local| - 1;
      OrphansCount(local[..n], known);
      var orphan := local[n].parent != "" && (local[n].trace, local[n].parent) !in known;
      assert Orphans(local, known) == Orphans(local[..n], known) + if orphan then {n as nat} else {};
    } else {
      assert Orphans(local, known) == {};
    }
  }

  lemma {:induction false} LocalAre(spans: seq<Span>, service: string, startUs: int, endUs: int)
    ensures forall s :: s in Local(spans, service, startUs, endUs) ==> s in spans && s.service == service
  {
    if spans != [] {
      LocalAre(spans[..|spans| - 1], service, startUs, endUs);
    }
  }

  lemma {:induction false} ServersAre(local: seq<Span>)
    ensures forall s :: s in Servers(local) ==> s in local
  {
    if local != [] {
      ServersAre(local[..|local| - 1]);
    }
  }

  ghost function Waits(spans: seq<Span>, roots: seq<Span>): (w: seq<int>)
    ensures |w| == |roots|
    ensures forall i :: 0 <= i < |roots| ==> w[i] == Wait(spans, roots[i])
  {
    seq(|roots|, i requires 0 <= i < |roots| => Wait(spans, roots[i]))
  }

  ghost function Exclusives(spans: seq<Span>, roots: seq<Span>): (e: seq<int>)
    ensures |e| == |roots|
    ensures forall i :: 0 <= i < |roots| ==> e[i] == Exclusive(spans, roots[i])
  {
    seq(|roots|, i requires 0 <= i < |roots| => Exclusive(spans, roots[i]))
  }

  lemma SplitIs(spans: seq<Span>, roots: seq<Span>, waits: seq<int>, exclusives: seq<int>)
    requires Split(spans, roots, waits, exclusives)
    ensures waits == Waits(spans, roots) && exclusives == Exclusives(spans, roots)
  {
  }

  /** The SERVER spans of all services, in the order they are searched. */
  ghost function AllServers(spans: seq<Span>, services: seq<string>, startUs: int, endUs: int): seq<Span> {
    if services == [] then []
    else
      AllServers(spans, services[..|services| - 1], startUs, endUs)
      + Servers(Local(spans, services[|services| - 1], startUs, endUs))
  }

  /** The counter agrees with the exact count of needed visits until both are past the limit. */
  ghost predicate Tracks(visits: nat, needed: nat) {
    visits == needed || (visits > MAX_VISITS && needed > MAX_VISITS)
  }

  /** What a summary says about the durations of the timed spans. */
  ghost predicate TimesAre(timed: seq<Span>, summary: Summary) {
    var durations := seq(|timed|, i requires 0 <= i < |timed| => timed[i].duration);
    && summary.timedSpans == |timed|
    && summary.median == Quantile(durations, 0.5)
    && summary.p90 == Quantile(durations, 0.9)
    && (summary.longest.None? <==> timed == [])
    && (summary.longest.Some? ==> (exists s :: s in timed && s.duration == summary.longest.value)
                                  && forall s :: s in timed ==> s.duration <= summary.longest.value)
  }

  /** The meaning of one service's summary on a sound list, in terms of descendants and covered
      microseconds; `before` are the SERVER spans of the services handled earlier. */
  ghost predicate Describes(spans: seq<Span>, local: seq<Span>, before: seq<Span>, summary: Summary) {
    var servers := Filter(IsServer, local);
    var timed := if servers != [] then servers else local;
    var exhausted := exists i: nat :: RunsOut(spans, servers, i, Cost(spans, before));
    var decomposed := servers != [] && !exhausted;
    && summary.serverSelection == (servers != [])
    && TimesAre(timed, summary)
    && summary.waitState == (if exhausted then BudgetExceeded else if servers != [] then Decomposed else NoServerSpans)
    && summary.waitMedian == (if decomposed then Quantile(Waits(spans, servers), 0.5) else None)
    && summary.exclusiveMedian == (if decomposed then Quantile(Exclusives(spans, servers), 0.5) else None)
    && summary.unresolvedParents == |Orphans(local, set s | s in spans :: (s.trace, s.id))|
  }

  lemma SameBudget(spans: seq<Span>, servers: seq<Span>, visits: nat, needed: nat)
    requires Tracks(visits, needed)
    ensures (exists i: nat :: RunsOut(spans, servers, i, visits)) <==> exists i: nat :: RunsOut(spans, servers, i, needed)
  {
    if i: nat :| RunsOut(spans, servers, i, visits) {
      assert RunsOut(spans, servers, i, needed);
    }
    if i: nat :| RunsOut(spans, servers, i, needed) {
      assert RunsOut(spans, servers, i, visits);
    }
  }

  lemma {:induction false} CostPrefix(spans: seq<Span>, roots: seq<Span>, i: nat)
    requires i <= |roots|
    ensures Cost(spans, roots[..i]) <= Cost(spans, roots)
  {
    assert roots == roots[..i] + roots[i..];
    CostSplits(spans, roots[..i], roots[i..]);
  }

  lemma StillTracks(spans: seq<Span>, before: seq<Span>, servers: seq<Span>, spent: nat,
                    exhausted: bool, waits: seq<int>, exclusives: seq<int>, visits: nat)
    requires Tracks(spent, Cost(spans, before))
    requires SplitAll(spans, servers, spent, false, exhausted, waits, exclusives, visits)
    ensures Tracks(visits, Cost(spans, before + servers))
  {
    CostSplits(spans, before, servers);
    if exhausted {
      var i: nat :| RunsOut(spans, servers, i, spent);
      CostPrefix(spans, servers, i + 1);
    }
  }

  ghost predicate SelectedAll(selected: map<string, seq<Span>>, services: set<string>, spans: seq<Span>, startUs: int, endUs: int) {
    forall service :: service in services ==>
      service in selected && selected[service] == Local(spans, service, startUs, endUs)
  }

  lemma IndexOne(children: Index, spans: seq<Span>, span: Span)
    requires Indexed(children, spans)
    ensures Indexed(children[(span.trace, span.parent) := Lookup(children, span.trace, span.parent) + [span]], spans + [span])
  {
    var children' := children[(span.trace, span.parent) := Lookup(children, span.trace, span.parent) + [span]];
    assert (spans + [span])[..|spans|] == spans;
    forall trace, id
      ensures Lookup(children', trace, id) == ChildrenOf(spans + [span], trace, id)
    {
      assert Lookup(children, trace, id) == ChildrenOf(spans, trace, id);
    }
  }

  lemma SelectOne(selected: map<string, seq<Span>>, services: set<string>, spans: seq<Span>, span: Span, startUs: int, endUs: int)
    requires SelectedAll(selected, services, spans, startUs, endUs)
    ensures SelectedAll(if span.service in services && startUs <= span.start <= endUs
                     then selected[span.service := selected[span.service] + [span]] else selected,
                     services, spans + [span], startUs, endUs)
  {
    assert (spans + [span])[..|spans|] == spans;
  }

  /** One pass over the input: the children of every span, the spans selected per service, and the known
      identifiers. */
  method Collect(spans: seq<Span>, services: set<string>, startUs: int, endUs: int)
    returns (children: Index, selected: map<string, seq<Span>>, known: set<(string, string)>)
    ensures Indexed(children, spans)
    ensures SelectedAll(selected, services, spans, startUs, endUs)
    ensures known == set s | s in spans :: (s.trace, s.id)
  {
    children, known := map[], {};
    selected := map service | service in services :: [];
    for n := 0 to |spans|
      invariant Indexed(children, spans[..n])
      invariant SelectedAll(selected, services, spans[..n], startUs, endUs)
      invariant known == set s | s in spans[..n] :: (s.trace, s.id)
    {
      var span := spans[n];
      assert spans[..n + 1] == spans[..n] + [span];
      known := known + {(span.trace, span.id)};
      IndexOne(children, spans[..n], span);
      children := children[(span.trace, span.parent) := Lookup(children, span.trace, span.parent) + [span]];
      SelectOne(selected, services, spans[..n], span, startUs, endUs);
      if span.service in services && startUs <= span.start <= endUs {
        selected := selected[span.service := selected[span.service] + [span]];
      }
    }
    assert spans[..|spans|] == spans;
  }

  method SummarizeService(spans: seq<Span>, children: Index, service: string, local: seq<Span>,
                          known: set<(string, string)>, spent: nat, ghost before: seq<Span>)
    returns (r: Option<Summary>, visits: nat)
    requires Indexed(children, spans)
    requires forall s :: s in local ==> s in spans && s.service == service
    requires known == set s | s in spans :: (s.trace, s.id)
    requires Sound(spans) ==> Tracks(spent, Cost(spans, before))
    ensures Sound(spans) ==>
              && r.Some? && Describes(spans, local, before, r.value)
              && Tracks(visits, Cost(spans, before + Servers(local)))
  {
    var servers := Servers(local);
    ServersAre(local);
    var cyclic, exhausted, waits, exclusives;
    cyclic, exhausted, waits, exclusives, visits := SplitServers(spans, children, service, servers, spent);
    if cyclic {
      return None, visits;
    }
    if Sound(spans) {
      StillTracks(spans, before, servers, spent, exhausted, waits, exclusives, visits);
      AssembledDescribes(spans, local, before, spent, exhausted, waits, exclusives, visits, known);
    }
    r := Some(Assemble(local, servers, exhausted, waits, exclusives, known));
  }

  function Assemble(local: seq<Span>, servers: seq<Span>, exhausted: bool, waits: seq<int>, exclusives: seq<int>,
                    known: set<(string, string)>): Summary {
    var timed := if servers != [] then servers else local;
    var durations := Durations(timed);
    var decomposed := servers != [] && !exhausted;
    Summary(servers != [], |timed|, Quantile(durations, 0.5), Quantile(durations, 0.9), Longest(durations),
            if decomposed then Quantile(waits, 0.5) else None,
            if decomposed then Quantile(exclusives, 0.5) else None,
            if exhausted then BudgetExceeded else if servers != [] then Decomposed else NoServerSpans,
            UnresolvedParents(local, known))
  }

  lemma LongestIs(timed: seq<Span>)
    ensures var longest := Longest(Durations(timed));
            && (longest.None? <==> timed == [])
            && (longest.Some? ==> (exists s :: s in timed && s.duration == longest.value)
                                  && forall s :: s in timed ==> s.duration <= longest.value)
  {
    var d := Durations(timed);
    if timed != [] {
      var i :| 0 <= i < |d| && d[i] == Longest(d).value;
      assert timed[i] in timed;
      forall s | s in timed
        ensures s.duration <= Longest(d).value
      {
        var j :| 0 <= j < |timed| && timed[j] == s;
        assert d[j] == s.duration;
      }
    }
  }

  lemma AssembledTimes(local: seq<Span>, servers: seq<Span>, exhausted: bool, waits: seq<int>, exclusives: seq<int>,
                       known: set<(string, string)>)
    ensures TimesAre(if servers != [] then servers else local,
                     Assemble(local, servers, exhausted, waits, exclusives, known))
  {
    hide Quantile, Durations, Longest, UnresolvedParents;
    var timed := if servers != [] then servers else local;
    assert Durations(timed) == seq(|timed|, i requires 0 <= i < |timed| => timed[i].duration);
    LongestIs(timed);
  }

  lemma AssembledDescribes(spans: seq<Span>, local: seq<Span>, before: seq<Span>, spent: nat, exhausted: bool,
                           waits: seq<int>, exclusives: seq<int>, visits: nat, known: set<(string, string)>)
    requires Tracks(spent, Cost(spans, before))
    requires SplitAll(spans, Servers(local), spent, false, exhausted, waits, exclusives, visits)
    requires known == set s | s in spans :: (s.trace, s.id)
    ensures Describes(spans, local, before, Assemble(local, Servers(local), exhausted, waits, exclusives, known))
  {
    hide Filter, Quantile, Durations, Longest, UnresolvedParents, RunsOut, Servers, Orphans, TimesAre;
    SameBudget(spans, Servers(local), spent, Cost(spans, before));
    ServersIs(local);
    OrphansCount(local, known);
    AssembledTimes(local, Servers(local), exhausted, waits, exclusives, known);
    if !exhausted {
      SplitIs(spans, Servers(local), waits, exclusives);
    }
  }

  /** The last mention of each of the first n names has a summary that holds for its position. */
  ghost predicate InPlace<S>(names: seq<string>, n: nat, result: map<string, S>, holds: (nat, S) -> bool)
    requires n <= |names|
  {
    forall k :: 0 <= k < n && names[k] !in names[k + 1..n] ==> names[k] in result && holds(k, result[names[k]])
  }

  lemma InPlaceMore<S>(names: seq<string>, n: nat, result: map<string, S>, holds: (nat, S) -> bool, summary: S)
    requires n < |names| && InPlace(names, n, result, holds) && holds(n, summary)
    ensures InPlace(names, n + 1, result[names[n] := summary], holds)
  {
    forall k | 0 <= k < n + 1 && names[k] !in names[k + 1..n + 1]
      ensures names[k] in result[names[n] := summary] && holds(k, result[names[n] := summary][names[k]])
    {
      if k < n {
        assert names[k + 1..n + 1] == names[k + 1..n] + [names[n]];
      }
    }
  }

  /** The summaries of the first n services are in place. */
  ghost predicate Summarized(spans: seq<Span>, services: seq<string>, n: nat, startUs: int, endUs: int,
                             result: map<string, Summary>)
    requires n <= |services|
  {
    InPlace(services, n, result, (k: nat, summary: Summary) =>
      k < |services| && DescribesNth(spans, services, k, startUs, endUs, summary))
  }

  /** The k-th service is described, given what the services before it spent. */
  ghost predicate DescribesNth(spans: seq<Span>, services: seq<string>, k: nat, startUs: int, endUs: int,
                               summary: Summary)
    requires k < |services|
  {
    Describes(spans, Filter(StartsIn(services[k], startUs, endUs), spans),
              AllServers(spans, services[..k], startUs, endUs), summary)
  }

  lemma SummarizedMore(spans: seq<Span>, services: seq<string>, n: nat, startUs: int, endUs: int,
                       result: map<string, Summary>, summary: Summary)
    requires n < |services| && Summarized(spans, services, n, startUs, endUs, result)
    requires DescribesNth(spans, services, n, startUs, endUs, summary)
    ensures Summarized(spans, services, n + 1, startUs, endUs, result[services[n] := summary])
  {
    InPlaceMore(services, n, result, (k: nat, s: Summary) =>
      k < |services| && DescribesNth(spans, services, k, startUs, endUs, s), summary);
  }

  /** Summarises every service. On a sound list the cycle error never surfaces and every summary means what
      `Describes` says; the last mention of a repeated service wins. */
  method SummarizeTimings(spans: seq<Span>, services: seq<string>, startUs: int, endUs: int)
    returns (r: Option<map<string, Summary>>)
    ensures Sound(spans) ==> r.Some? && Summarized(spans, services, |services|, startUs, endUs, r.value)
  {
    var children, selected, known := Collect(spans, (set service | service in services), startUs, endUs);
    var result: map<string, Summary> := map[];
    var visits := 0;
    for n := 0 to |services|
      invariant Sound(spans) ==> Tracks(visits, Cost(spans, AllServers(spans, services[..n], startUs, endUs)))
      invariant Sound(spans) ==> Summarized(spans, services, n, startUs, endUs, result)
    {
      var service := services[n];
      LocalAre(spans, service, startUs, endUs);
      LocalIs(spans, service, startUs, endUs);
      var summary;
      ghost var before := AllServers(spans, services[..n], startUs, endUs);
      assert services[..n + 1][..n] == services[..n];
      summary, visits := SummarizeService(spans, children, service, selected[service], known, visits, before);
      if summary.None? {
        return None;
      }
      if Sound(spans) {
        SummarizedMore(spans, services, n, startUs, endUs, result, summary.value);
      }
      result := result[service := summary.value];
    }
    r := Some(result);
  }

  /** Validation, then the projection: every list that validation lets through is summarised without the cycle error,
      and every summary means what `Describes` says. */
  method ValidateThenSummarize(raws: seq<RawSpan>, services: seq<string>, startUs: int, endUs: int)
    returns (r: Result<map<string, Summary>, Rejection>)
    ensures r.Ok? <==> Admissible(raws)
    ensures r.Ok? ==> Summarized(Spans(raws), services, |services|, startUs, endUs, r.value)
  {
    var spans := ValidateCanonicalSpans(raws);
    if spans.Err? {
      return Err(spans.error);
    }
    AdmittedIsSound(raws);
    var summaries := SummarizeTimings(spans.value, services, startUs, endUs);
    r := Ok(summaries.value);
  }
}
