/** The adaptive trace search: a saturated window is halved under one request budget shared by all services,
    and everything found is merged. Times are exact reals in seconds; stored spans carry microseconds. */
module TraceSearch {
  import opened Prelude

  type Code = string

  const TRACE_LIMIT := 1000
  const MAX_TRACE_QUERIES := 128
  const TRACE_CHUNK_SECONDS := 300.0
  const MAX_WINDOW_SECONDS := 3600.0

  // ----- the source -----

  /** A search request; the newer API excludes its upper bound. */
  datatype Query = Query(service: string, low: int, high: int, exclusive: bool)

  predicate InWindow(q: Query, t: int) {
    q.low <= t && if q.exclusive then t < q.high else t <= q.high
  }

  function Micros(seconds: real): int {
    (seconds * 1000000.0).Floor
  }

  /** The whole microseconds of a time. */
  lemma MicrosAre(seconds: real)
    ensures Micros(seconds) as real / 1000000.0 <= seconds < (Micros(seconds) + 1) as real / 1000000.0
  {
  }

  function JaegerQuery(v3: bool, service: string, left: real, right: real): Query {
    if v3 then Query(service, Micros(left), Micros(right) + 1, true)
    else Query(service, Micros(left), Micros(right), false)
  }

  /** Both contracts ask for the same closed range of microseconds. */
  lemma SameWindow(v3: bool, service: string, left: real, right: real, t: int)
    ensures InWindow(JaegerQuery(v3, service, left, right), t) <==> Micros(left) <= t <= Micros(right)
  {
  }

  datatype Reply<P> = Failed(code: Code) | Traces(payloads: seq<P>)

  /** Whatever the backend answers to the n-th request. */
  type Source<!P> = (Query, int) -> Reply<P>

  ghost predicate Matches<P(!new), T(!new)>(w: World<P, T>, trace: T, q: Query) {
    q.service in w.times(trace) && exists t :: t in w.times(trace)[q.service] && InWindow(q, t)
  }

  /** What the backend holds, when each service appears in a held trace, and which payloads render it. */
  datatype World<!P(!new), !T(!new)> = World(held: set<T>, times: T -> map<string, set<int>>, renders: (P, T) -> bool)

  /** The source returns all matches whenever it returns fewer than the limit, and only matches. */
  ghost predicate Honest<P(!new), T(!new)>(source: Source<P>, w: World<P, T>) {
    forall q, n ::
      var reply := source(q, n);
      reply.Traces? && |reply.payloads| < TRACE_LIMIT ==>
        && (forall trace :: trace in w.held && Matches(w, trace, q) ==> Found(w, trace, reply.payloads))
        && (forall p :: p in reply.payloads ==> Explained(p, w, q))
  }

  ghost predicate Found<P(!new), T(!new)>(w: World<P, T>, trace: T, payloads: seq<P>) {
    exists p :: p in payloads && w.renders(p, trace)
  }

  ghost predicate Explained<P(!new), T(!new)>(payload: P, w: World<P, T>, q: Query) {
    exists trace :: trace in w.held && Matches(w, trace, q) && w.renders(payload, trace)
  }

  // ----- what a search promises -----

  ghost predicate SeenBetween<P(!new), T(!new)>(w: World<P, T>, trace: T, service: string, low: int, high: int) {
    service in w.times(trace) && exists t :: t in w.times(trace)[service] && low <= t <= high
  }

  /** Nothing seen in the closed range is missing. */
  ghost predicate Complete<P(!new), T(!new)>(w: World<P, T>, service: string, low: int, high: int, payloads: seq<P>) {
    forall trace :: trace in w.held && SeenBetween(w, trace, service, low, high) ==> Found(w, trace, payloads)
  }

  /** Nothing was made up. */
  ghost predicate Genuine<P(!new), T(!new)>(w: World<P, T>, service: string, low: int, high: int, payloads: seq<P>) {
    forall p :: p in payloads ==> Known(w, p, service, low, high)
  }

  ghost predicate Known<P(!new), T(!new)>(w: World<P, T>, p: P, service: string, low: int, high: int) {
    exists trace :: trace in w.held && SeenBetween(w, trace, service, low, high) && w.renders(p, trace)
  }

  lemma KnownWider<P(!new), T(!new)>(w: World<P, T>, p: P, service: string, l: int, r: int, low: int, high: int)
    requires Known(w, p, service, l, r) && low <= l && r <= high
    ensures Known(w, p, service, low, high)
  {
    var trace :| trace in w.held && SeenBetween(w, trace, service, l, r) && w.renders(p, trace);
    assert SeenBetween(w, trace, service, low, high);
  }

  lemma ReplyCovers<P(!new), T(!new)>(source: Source<P>, w: World<P, T>, v3: bool, service: string, left: real, right: real, n: int)
    requires Honest(source, w)
    requires var reply := source(JaegerQuery(v3, service, left, right), n);
             reply.Traces? && |reply.payloads| < TRACE_LIMIT
    ensures var payloads := source(JaegerQuery(v3, service, left, right), n).payloads;
            && Complete(w, service, Micros(left), Micros(right), payloads)
            && Genuine(w, service, Micros(left), Micros(right), payloads)
  {
    var q := JaegerQuery(v3, service, left, right);
    var payloads := source(q, n).payloads;
    forall trace | trace in w.held && SeenBetween(w, trace, service, Micros(left), Micros(right))
      ensures Found(w, trace, payloads)
    {
      SeenMatches(w, v3, service, left, right, trace);
    }
    forall p | p in payloads
      ensures Known(w, p, service, Micros(left), Micros(right))
    {
      assert Explained(p, w, q);
      var trace :| trace in w.held && Matches(w, trace, q) && w.renders(p, trace);
      SeenMatches(w, v3, service, left, right, trace);
    }
  }

  lemma SeenMatches<P(!new), T(!new)>(w: World<P, T>, v3: bool, service: string, left: real, right: real, trace: T)
    ensures SeenBetween(w, trace, service, Micros(left), Micros(right)) <==> Matches(w, trace, JaegerQuery(v3, service, left, right))
  {
    var q := JaegerQuery(v3, service, left, right);
    if SeenBetween(w, trace, service, Micros(left), Micros(right)) {
      var t :| t in w.times(trace)[service] && Micros(left) <= t <= Micros(right);
      assert InWindow(q, t);
    }
    if Matches(w, trace, q) {
      var t :| t in w.times(trace)[service] && InWindow(q, t);
      assert Micros(left) <= t <= Micros(right);
    }
  }

  lemma FoundGrows<P(!new), T(!new)>(w: World<P, T>, trace: T, a: seq<P>, b: seq<P>)
    requires Found(w, trace, a) || Found(w, trace, b)
    ensures Found(w, trace, a + b)
  {
    if Found(w, trace, a) {
      var p :| p in a && w.renders(p, trace);
      assert p in a + b;
    } else {
      var p :| p in b && w.renders(p, trace);
      assert p in a + b;
    }
  }

  lemma SeenSplits<P(!new), T(!new)>(w: World<P, T>, trace: T, service: string, low: int, middle: int, high: int)
    requires SeenBetween(w, trace, service, low, high)
    ensures SeenBetween(w, trace, service, low, middle) || SeenBetween(w, trace, service, middle, high)
  {
    var t :| t in w.times(trace)[service] && low <= t <= high;
    assert low <= t <= middle || middle <= t <= high;
  }

  /** Two adjacent closed ranges that share an endpoint lose nothing between them. */
  lemma JoinComplete<P(!new), T(!new)>(w: World<P, T>, service: string, low: int, middle: int, high: int, a: seq<P>, b: seq<P>)
    requires Complete(w, service, low, middle, a) && Complete(w, service, middle, high, b)
    ensures Complete(w, service, low, high, a + b)
  {
    forall trace | trace in w.held && SeenBetween(w, trace, service, low, high)
      ensures Found(w, trace, a + b)
    {
      SeenSplits(w, trace, service, low, middle, high);
      FoundGrows(w, trace, a, b);
    }
  }

  lemma JoinGenuine<P(!new), T(!new)>(w: World<P, T>, service: string, low: int, middle: int, high: int, a: seq<P>, b: seq<P>)
    requires low <= middle <= high
    requires Genuine(w, service, low, middle, a) && Genuine(w, service, middle, high, b)
    ensures Genuine(w, service, low, high, a + b)
  {
    forall p | p in a + b
      ensures Known(w, p, service, low, high)
    {
      if p in a {
        KnownWider(w, p, service, low, middle, low, high);
      } else {
        KnownWider(w, p, service, middle, high, low, high);
      }
    }
  }

  lemma MicrosMonotone(a: real, b: real)
    requires a <= b
    ensures Micros(a) <= Micros(b)
  {
  }

  // ----- requests and what can go wrong with them -----

  const EXCEEDED: Code := "trace search exceeded its request budget"
  const SATURATED: Code := "trace search remains saturated at one-second resolution"

  /** One request: the service and the window it was asked for. */
  datatype Asked = Asked(service: string, left: real, right: real)

  function ReplyTo<P>(source: Source<P>, v3: bool, a: Asked, n: nat): Reply<P> {
    source(JaegerQuery(v3, a.service, a.left, a.right), n)
  }

  ghost predicate Saturated<P>(source: Source<P>, v3: bool, a: Asked, n: nat) {
    ReplyTo(source, v3, a, n).Traces? && |ReplyTo(source, v3, a, n).payloads| >= TRACE_LIMIT
  }

  /** The n-th request cannot be answered, nor split: it failed, or it is saturated and no longer than a second. */
  ghost predicate Spoils<P>(source: Source<P>, v3: bool, a: Asked, n: nat) {
    ReplyTo(source, v3, a, n).Failed? || (Saturated(source, v3, a, n) && a.right - a.left <= 1.0)
  }

  /** What a request that spoils the search reports. */
  ghost predicate Reports<P>(source: Source<P>, v3: bool, a: Asked, n: nat, code: Code) {
    ReplyTo(source, v3, a, n) == Failed(code)
    || (Saturated(source, v3, a, n) && a.right - a.left <= 1.0 && code == SATURATED)
  }

  /** One window is a half of the other. */
  ghost predicate Half(part: Asked, whole: Asked) {
    && part.service == whole.service
    && ((part.left == whole.left && part.right == (whole.left + whole.right) / 2.0)
        || (part.left == (whole.left + whole.right) / 2.0 && part.right == whole.right))
  }

  /** The n-th request asks for a half of an earlier saturated window. */
  ghost predicate Halves<P>(source: Source<P>, v3: bool, log: seq<Asked>, from: nat, n: nat)
    requires n < |log|
  {
    exists m: nat :: from <= m < n && Half(log[n], log[m]) && Saturated(source, v3, log[m], m)
  }

  /** The requests of one search: the whole window first, and then only halves of saturated windows. */
  ghost predicate Splits<P>(source: Source<P>, v3: bool, log: seq<Asked>, from: nat, whole: Asked) {
    && from <= |log|
    && (from < |log| ==> log[from] == whole)
    && (forall n :: from < n < |log| ==> Halves(source, v3, log, from, n))
  }

  /** None of the requests from one number up to another spoils the search. */
  ghost predicate Answered<P>(source: Source<P>, v3: bool, log: seq<Asked>, from: nat, to: nat) {
    to <= |log| && forall n :: from <= n < to ==> !Spoils(source, v3, log[n], n)
  }

  /** Why requests stop early: the budget is spent, or the last one reports its trouble. */
  ghost predicate Stopped<P>(source: Source<P>, v3: bool, remaining: int, log: seq<Asked>, from: nat, code: Code) {
    if remaining < 0 then Answered(source, v3, log, from, |log|) && code == EXCEEDED
    else
      && from < |log| && Answered(source, v3, log, from, |log| - 1)
      && Reports(source, v3, log[|log| - 1], |log| - 1, code)
  }

  /** The two halves of a saturated window, one after the other. */
  lemma SplitsJoin<P>(source: Source<P>, v3: bool, log: seq<Asked>, from: nat, next: nat, whole: Asked, first: Asked, second: Asked)
    requires from < next <= |log| && log[from] == whole && Saturated(source, v3, whole, from)
    requires Half(first, whole) && Half(second, whole)
    requires Splits(source, v3, log[..next], from + 1, first) && Splits(source, v3, log, next, second)
    ensures Splits(source, v3, log, from, whole)
  {
    forall n | from < n < |log|
      ensures Halves(source, v3, log, from, n)
    {
      if n == from + 1 && n < next {
        assert Half(log[n], log[from]);
      } else if n < next {
        assert Halves(source, v3, log[..next], from + 1, n);
      } else if n == next {
        assert Half(log[n], log[from]);
      } else {
        assert Halves(source, v3, log, next, n);
      }
    }
  }

  lemma SplitsFirst<P>(source: Source<P>, v3: bool, log: seq<Asked>, from: nat, whole: Asked, first: Asked)
    requires from < |log| && log[from] == whole && Saturated(source, v3, whole, from) && Half(first, whole)
    requires Splits(source, v3, log, from + 1, first)
    ensures Splits(source, v3, log, from, whole)
  {
    assert log[..|log|] == log;
    forall n | from < n < |log|
      ensures Halves(source, v3, log, from, n)
    {
      if n == from + 1 {
        assert Half(log[n], log[from]);
      } else {
        assert Halves(source, v3, log, from + 1, n);
      }
    }
  }

  lemma NoRequest<P>(source: Source<P>, v3: bool, remaining: int, log: seq<Asked>, asked: Asked)
    requires remaining < 0
    ensures Splits(source, v3, log, |log|, asked) && Stopped(source, v3, remaining, log, |log|, EXCEEDED)
  {
  }

  /** What the first request of a search means for it when it is also the last. */
  lemma OneRequest<P>(source: Source<P>, v3: bool, remaining: int, log: seq<Asked>, asked: Asked)
    requires remaining >= 0
    ensures var n, more := |log|, log + [asked];
            && Splits(source, v3, more, n, asked)
            && (Answered(source, v3, more, n, n + 1) <==> !Spoils(source, v3, asked, n))
            && (forall code :: Reports(source, v3, asked, n, code) ==> Stopped(source, v3, remaining, more, n, code))
  {
  }

  lemma ReplyMeans<P>(source: Source<P>, v3: bool, asked: Asked, n: nat)
    ensures var reply := ReplyTo(source, v3, asked, n);
            && (reply.Failed? ==> Spoils(source, v3, asked, n) && Reports(source, v3, asked, n, reply.code))
            && (reply.Traces? && |reply.payloads| < TRACE_LIMIT ==> !Spoils(source, v3, asked, n))
            && (reply.Traces? && |reply.payloads| >= TRACE_LIMIT ==>
                  && Saturated(source, v3, asked, n)
                  && if asked.right - asked.left <= 1.0 then Spoils(source, v3, asked, n) && Reports(source, v3, asked, n, SATURATED)
                     else !Spoils(source, v3, asked, n))
  {
  }

  /** A search whose first half stops has stopped, and otherwise goes as its second half goes. */
  lemma StopsWithHalf<P>(source: Source<P>, v3: bool, remaining: int, log: seq<Asked>, from: nat, next: nat)
    requires from <= next <= |log| && Answered(source, v3, log, from, next)
    ensures Answered(source, v3, log, next, |log|) <==> Answered(source, v3, log, from, |log|)
    ensures forall code :: Stopped(source, v3, remaining, log, next, code) ==> Stopped(source, v3, remaining, log, from, code)
  {
  }

  lemma AnsweredLonger<P>(source: Source<P>, v3: bool, a: seq<Asked>, b: seq<Asked>, from: nat)
    requires a <= b && Answered(source, v3, a, from, |a|)
    ensures Answered(source, v3, b, from, |a|)
  {
  }

  /** The request budget shared by every search of one collection, and the requests it paid for. */
  class Budget {
    var remaining: int
    var issued: nat
    ghost var log: seq<Asked>

    constructor (limit: nat)
      ensures remaining == limit && issued == 0 && log == []
    {
      remaining, issued, log := limit, 0, [];
    }

    ghost predicate Valid()
      reads this
    {
      |log| == issued
    }

    /** Issued requests and unspent allowance always add up. */
    ghost function Total(): int
      reads this
    {
      issued + Max(remaining, 0)
    }
  }

  /** Searches one window. It stops for every source, spends at least one unit, never issues more requests
      than the budget allows, and when it returns on an honest source it has lost and invented nothing. It asks for the
      whole window and for halves of saturated ones, and returns exactly when the budget lasts and every request was
      answered or split; otherwise the last request reports its trouble. */
  method JaegerInterval<P(!new), T(!new)>(source: Source<P>, v3: bool, service: string, left: real, right: real, budget: Budget,
                        ghost w: World<P, T>)
    returns (r: Result<seq<P>, Code>)
    requires left <= right && budget.Valid()
    modifies budget
    ensures budget.remaining < old(budget.remaining)
    ensures budget.Valid() && budget.Total() == old(budget.Total())
    ensures r.Ok? && Honest(source, w) ==>
              && Complete(w, service, Micros(left), Micros(right), r.value)
              && Genuine(w, service, Micros(left), Micros(right), r.value)
    ensures old(budget.log) <= budget.log
    ensures Splits(source, v3, budget.log, old(budget.issued), Asked(service, left, right))
    ensures r.Ok? <==> budget.remaining >= 0 && Answered(source, v3, budget.log, old(budget.issued), budget.issued)
    ensures r.Err? ==> Stopped(source, v3, budget.remaining, budget.log, old(budget.issued), r.error)
    decreases Max(budget.remaining + 1, 0)
  {
    hide Complete, Genuine, Honest, Splits, Answered, Stopped, Spoils, Saturated, Reports, Half;
    ghost var n, asked := budget.issued, Asked(service, left, right);
    budget.remaining := budget.remaining - 1;
    if budget.remaining < 0 {
      NoRequest(source, v3, budget.remaining, budget.log, asked);
      return Err(EXCEEDED);
    }
    var reply := source(JaegerQuery(v3, service, left, right), budget.issued);
    OneRequest(source, v3, budget.remaining, budget.log, asked);
    ReplyMeans(source, v3, asked, n);
    budget.issued, budget.log := budget.issued + 1, budget.log + [asked];
    if reply.Failed? {
      return Err(reply.code);
    }
    if |reply.payloads| < TRACE_LIMIT {
      if Honest(source, w) {
        ReplyCovers(source, w, v3, service, left, right, n);
      }
      return Ok(reply.payloads);
    }
    if right - left <= 1.0 {
      return Err(SATURATED);
    }
    var middle := (left + right) / 2.0;
    ghost var one, two := Asked(service, left, middle), Asked(service, middle, right);
    Halved(service, left, right);
    ghost var before := budget.log;
    var first := JaegerInterval(source, v3, service, left, middle, budget, w);
    ghost var next, log := budget.issued, budget.log;
    AnsweredLonger(source, v3, before, log, n);
    StopsWithHalf(source, v3, budget.remaining, log, n, n + 1);
    if first.Err? {
      SplitsFirst(source, v3, log, n, asked, one);
      return first;
    }
    var second := JaegerInterval(source, v3, service, middle, right, budget, w);
    assert budget.log[..next] == log;
    SplitsJoin(source, v3, budget.log, n, next, asked, one, two);
    AnsweredLonger(source, v3, log, budget.log, n);
    StopsWithHalf(source, v3, budget.remaining, budget.log, n, next);
    if second.Err? {
      return second;
    }
    if Honest(source, w) {
      MicrosMonotone(left, middle);
      MicrosMonotone(middle, right);
      JoinComplete(w, service, Micros(left), Micros(middle), Micros(right), first.value, second.value);
      JoinGenuine(w, service, Micros(left), Micros(middle), Micros(right), first.value, second.value);
    }
    r := Ok(first.value + second.value);
  }

  lemma Halved(service: string, left: real, right: real)
    ensures var middle := (left + right) / 2.0;
            && Half(Asked(service, left, middle), Asked(service, left, right))
            && Half(Asked(service, middle, right), Asked(service, left, right))
  {
  }

  /** Collected for the first services, over the closed range. */
  ghost predicate CompleteFor<P(!new), T(!new)>(w: World<P, T>, services: seq<string>, low: int, high: int, payloads: seq<P>) {
    forall service :: service in services ==> Complete(w, service, low, high, payloads)
  }

  ghost predicate Wanted<P(!new), T(!new)>(w: World<P, T>, trace: T, services: seq<string>, low: int, high: int) {
    exists service :: service in services && SeenBetween(w, trace, service, low, high)
  }

  ghost predicate GenuineFor<P(!new), T(!new)>(w: World<P, T>, services: seq<string>, low: int, high: int, payloads: seq<P>) {
    forall p :: p in payloads ==> KnownFor(w, p, services, low, high)
  }

  ghost predicate KnownFor<P(!new), T(!new)>(w: World<P, T>, p: P, services: seq<string>, low: int, high: int) {
    exists trace :: trace in w.held && Wanted(w, trace, services, low, high) && w.renders(p, trace)
  }

  lemma CompleteGrows<P(!new), T(!new)>(w: World<P, T>, service: string, low: int, high: int, a: seq<P>, b: seq<P>)
    requires Complete(w, service, low, high, a) || Complete(w, service, low, high, b)
    ensures Complete(w, service, low, high, a + b)
  {
    forall trace | trace in w.held && SeenBetween(w, trace, service, low, high)
      ensures Found(w, trace, a + b)
    {
      FoundGrows(w, trace, a, b);
    }
  }

  lemma GenuineGrows<P(!new), T(!new)>(w: World<P, T>, services: seq<string>, service: string, low: int, high: int,
                     l: int, r: int, a: seq<P>, b: seq<P>)
    requires GenuineFor(w, services, low, high, a) && service in services
    requires Genuine(w, service, l, r, b) && low <= l && r <= high
    ensures GenuineFor(w, services, low, high, a + b)
  {
    forall p | p in b
      ensures KnownFor(w, p, services, low, high)
    {
      KnownWider(w, p, service, l, r, low, high);
      var trace :| trace in w.held && SeenBetween(w, trace, service, low, high) && w.renders(p, trace);
      assert Wanted(w, trace, services, low, high);
    }
  }

  /** The chunks so far cover the window up to `left`. */
  ghost predicate Reached<P(!new), T(!new)>(w: World<P, T>, services: seq<string>, service: string, start: real, left: real, end: real,
                          done: seq<P>, more: seq<P>) {
    && (start < left ==> Complete(w, service, Micros(start), Micros(left), more))
    && GenuineFor(w, services, Micros(start), Micros(end), done + more)
  }

  lemma ChunkJoins<P(!new), T(!new)>(w: World<P, T>, services: seq<string>, service: string,
                   start: real, left: real, right: real, end: real,
                   done: seq<P>, more: seq<P>, found: seq<P>)
    requires start <= left < right <= end && service in services
    requires Reached(w, services, service, start, left, end, done, more)
    requires Complete(w, service, Micros(left), Micros(right), found)
    requires Genuine(w, service, Micros(left), Micros(right), found)
    ensures Reached(w, services, service, start, right, end, done, more + found)
  {
    assert done + more + found == done + (more + found);
    MicrosMonotone(start, left);
    MicrosMonotone(left, right);
    MicrosMonotone(right, end);
    GenuineGrows(w, services, service, Micros(start), Micros(end), Micros(left), Micros(right), done + more, found);
    if start < left {
      JoinComplete(w, service, Micros(start), Micros(left), Micros(right), more, found);
    } else {
      CompleteGrows(w, service, Micros(start), Micros(right), more, found);
    }
  }

  lemma ServiceDone<P(!new), T(!new)>(w: World<P, T>, services: seq<string>, n: nat, low: int, high: int,
                    payloads: seq<P>, more: seq<P>)
    requires n < |services| && CompleteFor(w, services[..n], low, high, payloads)
    requires Complete(w, services[n], low, high, more)
    ensures CompleteFor(w, services[..n + 1], low, high, payloads + more)
  {
    forall service | service in services[..n + 1]
      ensures Complete(w, service, low, high, payloads + more)
    {
      CompleteGrows(w, service, low, high, payloads, more);
    }
  }
}
