/** The sweep that measures how many microseconds a list of half-open intervals covers. */
module IntervalUnion {
  import opened Prelude
  import opened Sorting

  type Interval = (int, int)

  /** Python's order on pairs. */
  predicate IntervalLeq(a: Interval, b: Interval) {
    a.0 < b.0 || (a.0 == b.0 && a.1 <= b.1)
  }

  ghost function Points(left: int, right: int): (points: set<int>)
    ensures forall t :: t in points <==> left <= t < right
    decreases right - left
  {
    if right <= left then {} else Points(left, right - 1) + {right - 1}
  }

  /** The microseconds covered by at least one interval. */
  ghost function Covered(s: seq<Interval>): set<int> {
    if s == [] then {} else Covered(s[..|s| - 1]) + Points(s[|s| - 1].0, s[|s| - 1].1)
  }

  lemma {:induction false} CoveredIsUnion(s: seq<Interval>, t: int)
    ensures t in Covered(s) <==> exists p :: p in s && p.0 <= t < p.1
  {
    if s != [] {
      var n := |s| - 1;
      CoveredIsUnion(s[..n], t);
      assert s == s[..n] + [s[n]];
      assert s[n] in s;
      assert forall p :: p in s <==> p in s[..n] || p == s[n];
    }
  }

  lemma {:induction false} PointsSize(left: int, right: int)
    ensures |Points(left, right)| == Max(0, right - left)
    decreases right - left
  {
    if left < right {
      PointsSize(left, right - 1);
    }
  }

  /** Coverage sees which intervals are present, not where they stand in the list. */
  lemma CoveredIgnoresOrder(a: seq<Interval>, b: seq<Interval>)
    requires multiset(a) == multiset(b)
    ensures Covered(a) == Covered(b)
  {
    SameMembers(a, b);
    forall t
      ensures t in Covered(a) <==> t in Covered(b)
    {
      CoveredIsUnion(a, t);
      CoveredIsUnion(b, t);
    }
  }

  lemma IntervalOrder()
    ensures TotalPreorder(IntervalLeq)
  {
  }

  /** What the sweep knows after a prefix of the ordered intervals: nothing it has covered reaches `end`,
      and the part of the axis from the latest left edge up to `end` is covered without a hole. */
  ghost predicate Swept(done: seq<Interval>, end: Option<int>) {
    match end
    case None => Covered(done) == {}
    case Some(e) =>
      && (forall t :: t in Covered(done) ==> t < e)
      && (forall t :: t < e && (forall p :: p in done ==> p.0 <= t) ==> t in Covered(done))
  }

  lemma CoveredPush(done: seq<Interval>, left: int, right: int)
    ensures Covered(done + [(left, right)]) == Covered(done) + Points(left, right)
  {
    assert (done + [(left, right)])[..|done|] == done;
  }

  /** Where the uncovered part of the next interval starts, and where the sweep stands after it. */
  function From(end: Option<int>, left: int): int {
    Max(left, if end.Some? then end.value else left)
  }

  function Reach(end: Option<int>, right: int): int {
    Max(if end.Some? then end.value else right, right)
  }

  lemma SweepGain(done: seq<Interval>, end: Option<int>, left: int, right: int)
    requires Swept(done, end)
    requires forall p :: p in done ==> p.0 <= left
    ensures |Covered(done + [(left, right)])| == |Covered(done)| + Max(0, right - From(end, left))
  {
    CoveredPush(done, left, right);
    var from := From(end, left);
    forall t | left <= t < from
      ensures t in Covered(done)
    {
      assert forall p :: p in done ==> p.0 <= t;
    }
    assert Covered(done) + Points(left, right) == Covered(done) + Points(from, right);
    assert Covered(done) !! Points(from, right);
    PointsSize(from, right);
  }

  lemma SweepKeeps(done: seq<Interval>, end: Option<int>, left: int, right: int)
    requires Swept(done, end) && left < right
    ensures Swept(done + [(left, right)], Some(Reach(end, right)))
  {
    var more := done + [(left, right)];
    CoveredPush(done, left, right);
    forall t | t < Reach(end, right) && (forall p :: p in more ==> p.0 <= t)
      ensures t in Covered(more)
    {
      assert more[|done|] in more;
      assert forall p :: p in done ==> p in more;
    }
  }

  lemma EmptyKeeps(done: seq<Interval>, end: Option<int>, left: int, right: int)
    requires Swept(done, end) && right <= left
    ensures Covered(done + [(left, right)]) == Covered(done)
    ensures Swept(done + [(left, right)], end)
  {
    CoveredPush(done, left, right);
    assert Covered(done + [(left, right)]) == Covered(done);
    assert forall p :: p in done ==> p in done + [(left, right)];
  }

  lemma PrefixStartsEarlier(s: seq<Interval>, i: nat)
    requires i < |s| && Ascending(s, IntervalLeq)
    ensures forall p :: p in s[..i] ==> p.0 <= s[i].0
    ensures s[..i + 1] == s[..i] + [(s[i].0, s[i].1)]
  {
    forall p | p in s[..i]
      ensures p.0 <= s[i].0
    {
      var k :| 0 <= k < i && s[k] == p;
      assert IntervalLeq(s[k], s[i]);
    }
  }

  /** The measured total is the size of the union, for intervals in any order, overlapping, nested,
      repeated, empty or reversed. */
  method Union(intervals: seq<Interval>) returns (total: int)
    ensures total == |Covered(intervals)|
  {
    var ordered := Sort(intervals, IntervalLeq);
    IntervalOrder();
    SortAscends(intervals, IntervalLeq);
    SortKeeps(intervals, IntervalLeq);
    CoveredIgnoresOrder(intervals, ordered);
    var end: Option<int> := None;
    total := 0;
    for i := 0 to |ordered|
      invariant Swept(ordered[..i], end)
      invariant total == |Covered(ordered[..i])|
    {
      var (left, right) := ordered[i];
      ghost var done := ordered[..i];
      PrefixStartsEarlier(ordered, i);
      if right <= left {
        EmptyKeeps(done, end, left, right);
        continue;
      }
      SweepGain(done, end, left, right);
      SweepKeeps(done, end, left, right);
      total := total + Max(0, right - From(end, left));
      end := Some(Reach(end, right));
    }
    assert ordered[..|ordered|] == ordered;
  }
}
