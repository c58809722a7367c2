/** Two-stage binning of metric points: at most 64 precomputed bins, merged on demand into at most 8. Arithmetic is
    on exact reals. */
module Binning {
  import opened Prelude
  import opened Sorting

  const MAX_SERIES_POINTS := 64
  const MAX_COARSE_BINS := 8

  datatype Point = Point(stamp: real, value: real)

  datatype Bin = Bin(start: real, end: real, min: real, max: real, mean: real, samples: nat)

  predicate PointLeq(a: Point, b: Point) {
    a.stamp < b.stamp || (a.stamp == b.stamp && a.value <= b.value)
  }

  // ----- grouping -----

  function Ceiling(n: nat, d: nat): nat
    requires d > 0
  {
    (n + d - 1) / d
  }

  function Width(n: nat, maximum: nat): (w: nat)
    requires maximum > 0
    ensures w > 0
  {
    Max(1, Ceiling(n, maximum))
  }

  predicate Filled<T>(groups: seq<seq<T>>) {
    forall i :: 0 <= i < |groups| ==> |groups[i]| > 0
  }

  /** Consecutive groups of the given width; the last may be shorter. */
  function Groups<T>(s: seq<T>, width: nat): (groups: seq<seq<T>>)
    requires width > 0
    ensures Filled(groups)
  {
    if s == [] then []
    else if |s| <= width then [s]
    else [s[..width]] + Groups(s[width..], width)
  }

  function Flatten<T>(groups: seq<seq<T>>): seq<T> {
    if groups == [] then [] else groups[0] + Flatten(groups[1..])
  }

  lemma {:induction false} GroupsPartition<T>(s: seq<T>, width: nat)
    requires width > 0
    ensures Flatten(Groups(s, width)) == s
  {
    if |s| > width {
      GroupsPartition(s[width..], width);
      assert Groups(s, width)[1..] == Groups(s[width..], width);
      assert s == s[..width] + s[width..];
    } else if s != [] {
      assert Flatten([s]) == s + Flatten([s][1..]);
    }
  }

  lemma CeilingStep(n: nat, d: nat)
    requires d > 0 && n >= d
    ensures Ceiling(n, d) == Ceiling(n - d, d) + 1
  {
    QuotientStep(n + d - 1, d);
  }

  lemma QuotientStep(a: nat, d: nat)
    requires d > 0 && a >= d
    ensures a / d == (a - d) / d + 1
  {
    var q := (a - d) / d;
    var r := (a - d) % d;
    assert a - d == q * d + r;
    assert a == (q + 1) * d + r;
    QuotientIs(a, d, q + 1, r);
  }

  lemma Monotone(a: int, b: int, w: nat)
    ensures a <= b ==> a * w <= b * w
  {
  }

  lemma QuotientIs(a: nat, d: nat, q: nat, r: nat)
    requires 0 <= r < d && a == q * d + r
    ensures a / d == q
  {
    var p := a / d;
    assert a == p * d + a % d;
    Monotone(p + 1, q, d);
    Monotone(q + 1, p, d);
  }

  lemma CeilingSmall(n: nat, d: nat)
    requires 0 < n <= d
    ensures Ceiling(n, d) == 1
  {
  }

  lemma {:induction false} GroupCount<T>(s: seq<T>, width: nat)
    requires width > 0
    ensures |Groups(s, width)| == Ceiling(|s|, width)
  {
    if |s| > width {
      GroupCount(s[width..], width);
      CeilingStep(|s|, width);
    } else if s != [] {
      CeilingSmall(|s|, width);
    }
  }

  lemma CeilingBound(n: nat, maximum: nat)
    requires maximum > 0
    ensures Ceiling(n, Width(n, maximum)) <= maximum
  {
    var w := Width(n, maximum);
    assert n <= Ceiling(n, maximum) * maximum;
    assert w * maximum >= n;
    assert n + w - 1 < w * maximum + w == w * (maximum + 1);
    QuotientBelow(n + w - 1, w, maximum + 1);
  }

  lemma QuotientBelow(a: nat, w: nat, m: nat)
    requires w > 0 && a < w * m
    ensures a / w < m
  {
  }

  /** Grouping under the computed width never makes more groups than allowed. */
  lemma GroupLimit<T>(s: seq<T>, maximum: nat)
    requires maximum > 0
    ensures |Groups(s, Width(|s|, maximum))| <= maximum
  {
    GroupCount(s, Width(|s|, maximum));
    CeilingBound(|s|, maximum);
  }

  // ----- one bin per group of points -----

  function Lowest(points: seq<Point>): real
    requires points != []
  {
    if |points| == 1 then points[0].value
    else if points[0].value <= Lowest(points[1..]) then points[0].value else Lowest(points[1..])
  }

  function Highest(points: seq<Point>): real
    requires points != []
  {
    if |points| == 1 then points[0].value
    else if points[0].value >= Highest(points[1..]) then points[0].value else Highest(points[1..])
  }

  function Total(points: seq<Point>): real {
    if points == [] then 0.0 else points[0].value + Total(points[1..])
  }

  function Summary(points: seq<Point>): Bin
    requires points != []
  {
    Bin(points[0].stamp, points[|points| - 1].stamp, Lowest(points), Highest(points),
        Total(points) / |points| as real, |points|)
  }

  function Summaries(groups: seq<seq<Point>>): (bins: seq<Bin>)
    requires Filled(groups)
    ensures |bins| == |groups|
  {
    seq(|groups|, i requires 0 <= i < |groups| => Summary(groups[i]))
  }

  /** The series of one metric: sort, group, summarise. */
  function Series(points: seq<Point>): seq<Bin> {
    var ordered := Sort(points, PointLeq);
    Summaries(Groups(ordered, Width(|ordered|, MAX_SERIES_POINTS)))
  }

  // ----- merging bins -----

  function Samples(bins: seq<Bin>): nat {
    if bins == [] then 0 else bins[0].samples + Samples(bins[1..])
  }

  function Weighted(bins: seq<Bin>): real {
    if bins == [] then 0.0 else bins[0].mean * bins[0].samples as real + Weighted(bins[1..])
  }

  function LowestOf(bins: seq<Bin>): real
    requires bins != []
  {
    if |bins| == 1 then bins[0].min
    else if bins[0].min <= LowestOf(bins[1..]) then bins[0].min else LowestOf(bins[1..])
  }

  function HighestOf(bins: seq<Bin>): real
    requires bins != []
  {
    if |bins| == 1 then bins[0].max
    else if bins[0].max >= HighestOf(bins[1..]) then bins[0].max else HighestOf(bins[1..])
  }

  function Merged(bins: seq<Bin>): Bin
    requires Samples(bins) > 0
  {
    Bin(bins[0].start, bins[|bins| - 1].end, LowestOf(bins), HighestOf(bins),
        Weighted(bins) / Samples(bins) as real, Samples(bins))
  }

  ghost predicate Countable(groups: seq<seq<Bin>>) {
    forall i :: 0 <= i < |groups| ==> Samples(groups[i]) > 0
  }

  function MergedAll(groups: seq<seq<Bin>>): seq<Bin>
    requires Countable(groups)
  {
    seq(|groups|, i requires 0 <= i < |groups| => Merged(groups[i]))
  }

  /** Where the n-th group starts. */
  function Offset(n: nat, width: nat): nat {
    if n == 0 then 0 else Offset(n - 1, width) + width
  }

  lemma SliceOfRest<T>(s: seq<T>, width: nat, lo: nat, hi: nat)
    requires width <= |s| && lo <= hi <= |s| - width
    ensures s[width..][lo..hi] == s[lo + width..hi + width]
  {
  }

  /** The n-th group is the slice from its offset, and there is one exactly when the offset is inside. */
  lemma {:induction false} GroupsFrom<T>(s: seq<T>, width: nat, n: nat)
    requires width > 0
    ensures n < |Groups(s, width)| <==> Offset(n, width) < |s|
    ensures n < |Groups(s, width)| ==>
              Groups(s, width)[n] == s[Offset(n, width)..Min(Offset(n, width) + width, |s|)]
  {
    if |s| > width {
      var rest := s[width..];
      assert Groups(s, width) == [s[..width]] + Groups(rest, width);
      if n > 0 {
        GroupsFrom(rest, width, n - 1);
        var lo := Offset(n - 1, width);
        if lo < |rest| {
          SliceOfRest(s, width, lo, Min(lo + width, |rest|));
        }
      } else {
        assert s[0..width] == s[..width];
      }
    } else {
      assert s[0..|s|] == s;
      assert n > 0 ==> Offset(n, width) >= width;
    }
  }

  /** Merging walks the offsets 0, width, 2 * width, ...; a group without samples has no mean. */
  method Coarsen(points: seq<Bin>, maximum: nat := MAX_COARSE_BINS) returns (r: Option<seq<Bin>>)
    requires maximum > 0
    ensures r.Some? <==> Countable(Groups(points, Width(|points|, maximum)))
    ensures r.Some? ==> r.value == MergedAll(Groups(points, Width(|points|, maximum))) && |r.value| <= maximum
  {
    var width := Width(|points|, maximum);
    ghost var groups := Groups(points, width);
    GroupLimit(points, maximum);
    var result: seq<Bin> := [];
    var offset := 0;
    ghost var n := 0;
    while offset < |points|
      invariant offset == Offset(n, width) && n <= |groups|
      invariant Countable(groups[..n]) && result == MergedAll(groups[..n])
      decreases |points| - offset
    {
      GroupsFrom(points, width, n);
      var group := points[offset..Min(offset + width, |points|)];
      assert group == groups[n];
      var count := Samples(group);
      if count == 0 {
        return None;
      }
      assert groups[..n + 1] == groups[..n] + [groups[n]];
      result := result + [Bin(group[0].start, group[|group| - 1].end, LowestOf(group), HighestOf(group),
                              Weighted(group) / count as real, count)];
      offset := offset + width;
      n := n + 1;
    }
    GroupsFrom(points, width, n);
    assert groups[..n] == groups;
    r := Some(result);
  }

  // ----- merging summaries is summarising -----

  lemma {:induction false} TotalSplits(a: seq<Point>, b: seq<Point>)
    ensures Total(a + b) == Total(a) + Total(b)
  {
    if a == [] {
      assert a + b == b;
    } else {
      TotalSplits(a[1..], b);
      assert (a + b)[1..] == a[1..] + b;
    }
  }

  function Lower(a: real, b: real): real {
    if a <= b then a else b
  }

  function Higher(a: real, b: real): real {
    if a >= b then a else b
  }

  lemma {:induction false} ExtremesSplit(a: seq<Point>, b: seq<Point>)
    requires a != [] && b != []
    ensures Lowest(a + b) == Lower(Lowest(a), Lowest(b))
    ensures Highest(a + b) == Higher(Highest(a), Highest(b))
  {
    assert (a + b)[1..] == a[1..] + b;
    if |a| == 1 {
      assert a[1..] + b == b;
    } else {
      ExtremesSplit(a[1..], b);
    }
  }

  lemma MeanTimesCount(total: real, n: nat)
    requires n > 0
    ensures (total / n as real) * n as real == total
  {
  }

  lemma {:induction false} FlattenNonEmpty(groups: seq<seq<Point>>)
    requires groups != [] && Filled(groups)
    ensures Flatten(groups) != []
    ensures Flatten(groups)[0] == groups[0][0]
    ensures Flatten(groups)[|Flatten(groups)| - 1] == groups[|groups| - 1][|groups[|groups| - 1]| - 1]
  {
    if |groups| == 1 {
      assert Flatten(groups[1..]) == [];
    } else {
      FlattenNonEmpty(groups[1..]);
    }
  }

  lemma {:induction false} SumsAgree(groups: seq<seq<Point>>)
    requires Filled(groups)
    ensures Samples(Summaries(groups)) == |Flatten(groups)|
    ensures Weighted(Summaries(groups)) == Total(Flatten(groups))
  {
    if groups != [] {
      SumsAgree(groups[1..]);
      assert Summaries(groups)[1..] == Summaries(groups[1..]);
      TotalSplits(groups[0], Flatten(groups[1..]));
      MeanTimesCount(Total(groups[0]), |groups[0]|);
    }
  }

  lemma {:induction false} ExtremesAgree(groups: seq<seq<Point>>)
    requires groups != [] && Filled(groups)
    ensures Flatten(groups) != []
    ensures LowestOf(Summaries(groups)) == Lowest(Flatten(groups))
    ensures HighestOf(Summaries(groups)) == Highest(Flatten(groups))
  {
    FlattenNonEmpty(groups);
    if |groups| == 1 {
      assert Flatten(groups[1..]) == [];
      assert Flatten(groups) == groups[0];
    } else {
      ExtremesAgree(groups[1..]);
      assert Summaries(groups)[1..] == Summaries(groups[1..]);
      ExtremesSplit(groups[0], Flatten(groups[1..]));
    }
  }

  /** A merged bin is exactly the summary of all raw points its bins cover: count, extremes, ends and mean. */
  lemma MergedIsSummary(groups: seq<seq<Point>>)
    requires groups != [] && Filled(groups)
    ensures Flatten(groups) != [] && Samples(Summaries(groups)) > 0
    ensures Merged(Summaries(groups)) == Summary(Flatten(groups))
  {
    FlattenNonEmpty(groups);
    SumsAgree(groups);
    ExtremesAgree(groups);
  }

  lemma {:induction false} FlattenSplits<T>(a: seq<seq<T>>, b: seq<seq<T>>)
    ensures Flatten(a + b) == Flatten(a) + Flatten(b)
  {
    if a == [] {
      assert a + b == b;
    } else {
      FlattenSplits(a[1..], b);
      assert (a + b)[0] == a[0] && (a + b)[1..] == a[1..] + b;
      assert a[0] + (Flatten(a[1..]) + Flatten(b)) == (a[0] + Flatten(a[1..])) + Flatten(b);
    }
  }

  /** The raw points behind each group of groups. */
  function Behind(nested: seq<seq<seq<Point>>>): seq<seq<Point>> {
    seq(|nested|, i requires 0 <= i < |nested| => Flatten(nested[i]))
  }

  lemma {:induction false} BehindPartitions(nested: seq<seq<seq<Point>>>)
    ensures Flatten(Behind(nested)) == Flatten(Flatten(nested))
  {
    if nested != [] {
      BehindPartitions(nested[1..]);
      assert Behind(nested)[1..] == Behind(nested[1..]);
      FlattenSplits(nested[0], Flatten(nested[1..]));
    }
  }

  lemma {:induction false} GroupsOfSummaries(groups: seq<seq<Point>>, width: nat, i: nat)
    requires width > 0 && Filled(groups)
    requires i < |Groups(groups, width)|
    ensures |Groups(Summaries(groups), width)| == |Groups(groups, width)|
    ensures Filled(Groups(groups, width)[i])
    ensures Groups(Summaries(groups), width)[i] == Summaries(Groups(groups, width)[i])
  {
    GroupCount(groups, width);
    GroupCount(Summaries(groups), width);
    GroupsFrom(groups, width, i);
    GroupsFrom(Summaries(groups), width, i);
  }

  /** Merging the summaries of any groups gives the summaries of consecutive slices of the groups' points. */
  lemma MergingIsExact(groups: seq<seq<Point>>, maximum: nat) returns (slices: seq<seq<Point>>)
    requires maximum > 0 && Filled(groups)
    ensures Flatten(slices) == Flatten(groups) && Filled(slices) && |slices| <= maximum
    ensures var merged := Groups(Summaries(groups), Width(|groups|, maximum));
            Countable(merged) && MergedAll(merged) == Summaries(slices)
  {
    var width := Width(|groups|, maximum);
    var nested := Groups(groups, width);
    GroupsPartition(groups, width);
    GroupLimit(groups, maximum);
    slices := Behind(nested);
    BehindPartitions(nested);
    var merged := Groups(Summaries(groups), width);
    forall i | 0 <= i < |nested|
      ensures |merged| == |nested| && slices[i] != [] && Samples(merged[i]) > 0 && Merged(merged[i]) == Summary(slices[i])
    {
      GroupsOfSummaries(groups, width, i);
      MergedIsSummary(nested[i]);
    }
    GroupCount(groups, width);
    GroupCount(Summaries(groups), width);
  }

  /** Two-stage binning is exact: the coarse bins of a series are the summaries of consecutive slices of the
      ordered raw points, and the slices together are all of the points. */
  lemma TwoStages(points: seq<Point>, maximum: nat) returns (slices: seq<seq<Point>>)
    requires maximum > 0
    ensures Flatten(slices) == Sort(points, PointLeq) && Filled(slices)
    ensures var groups := Groups(Series(points), Width(|Series(points)|, maximum));
            Countable(groups) && MergedAll(groups) == Summaries(slices)
    ensures |Series(points)| <= MAX_SERIES_POINTS && |slices| <= maximum
  {
    var ordered := Sort(points, PointLeq);
    var fine := Groups(ordered, Width(|ordered|, MAX_SERIES_POINTS));
    GroupsPartition(ordered, Width(|ordered|, MAX_SERIES_POINTS));
    GroupLimit(ordered, MAX_SERIES_POINTS);
    slices := MergingIsExact(fine, maximum);
  }

  // ----- whole bins inside a subinterval -----

  function Inside(bins: seq<Bin>, lo: real, hi: real): seq<Bin> {
    if bins == [] then []
    else (if lo <= bins[0].start && bins[0].end <= hi then [bins[0]] else []) + Inside(bins[1..], lo, hi)
  }

  function InsideGroups(groups: seq<seq<Point>>, lo: real, hi: real): (r: seq<seq<Point>>)
    requires Filled(groups)
    ensures Filled(r)
  {
    if groups == [] then []
    else
      (if lo <= groups[0][0].stamp && groups[0][|groups[0]| - 1].stamp <= hi then [groups[0]] else [])
      + InsideGroups(groups[1..], lo, hi)
  }

  ghost predicate StampsAscend(points: seq<Point>) {
    forall i, j :: 0 <= i < j < |points| ==> points[i].stamp <= points[j].stamp
  }

  lemma StampsBetween(group: seq<Point>, lo: real, hi: real)
    requires group != [] && StampsAscend(group)
    requires lo <= group[0].stamp && group[|group| - 1].stamp <= hi
    ensures forall p :: p in group ==> lo <= p.stamp <= hi
  {
    forall p | p in group
      ensures lo <= p.stamp <= hi
    {
      var i :| 0 <= i < |group| && group[i] == p;
      assert i == 0 || group[0].stamp <= group[i].stamp;
      assert i == |group| - 1 || group[i].stamp <= group[|group| - 1].stamp;
    }
  }

  /** Selecting whole bins selects whole groups of points. */
  lemma {:induction false} InsideIsExact(groups: seq<seq<Point>>, lo: real, hi: real)
    requires Filled(groups)
    ensures Inside(Summaries(groups), lo, hi) == Summaries(InsideGroups(groups, lo, hi))
  {
    if groups != [] {
      InsideIsExact(groups[1..], lo, hi);
      assert Summaries(groups)[1..] == Summaries(groups[1..]);
    }
  }

  /** No selected group has a point outside the interval, and every group wholly inside is selected. */
  lemma {:induction false} InsideIsWithin(groups: seq<seq<Point>>, lo: real, hi: real)
    requires Filled(groups) && forall g :: g in groups ==> StampsAscend(g)
    ensures forall g :: g in InsideGroups(groups, lo, hi)
                        <==> g in groups && forall p :: p in g ==> lo <= p.stamp <= hi
  {
    if groups != [] {
      var first, rest := groups[0], groups[1..];
      assert groups == [first] + rest;
      assert first in groups;
      assert forall g :: g in rest ==> g in groups;
      InsideIsWithin(rest, lo, hi);
      FirstWithin(first, lo, hi);
    }
  }

  lemma FirstWithin(group: seq<Point>, lo: real, hi: real)
    requires group != [] && StampsAscend(group)
    ensures lo <= group[0].stamp && group[|group| - 1].stamp <= hi <==> forall p :: p in group ==> lo <= p.stamp <= hi
  {
    assert group[0] in group && group[|group| - 1] in group;
    if lo <= group[0].stamp && group[|group| - 1].stamp <= hi {
      StampsBetween(group, lo, hi);
    }
  }

  lemma {:induction false} GroupsAscend(ordered: seq<Point>, width: nat)
    requires width > 0 && StampsAscend(ordered)
    ensures forall g :: g in Groups(ordered, width) ==> StampsAscend(g)
  {
    if |ordered| > width {
      GroupsAscend(ordered[width..], width);
    }
  }

  /** An interval check merges exactly the stored groups that lie wholly inside the interval, and nothing else. */
  lemma IntervalIsExact(points: seq<Point>, lo: real, hi: real, maximum: nat)
    returns (inside: seq<seq<Point>>, slices: seq<seq<Point>>)
    requires maximum > 0
    ensures var stored := Groups(Sort(points, PointLeq), Width(|points|, MAX_SERIES_POINTS));
            forall g :: g in inside <==> g in stored && forall p :: p in g ==> lo <= p.stamp <= hi
    ensures Flatten(slices) == Flatten(inside) && Filled(slices) && |slices| <= maximum
    ensures var bins := Inside(Series(points), lo, hi);
            var groups := Groups(bins, Width(|bins|, maximum));
            Countable(groups) && MergedAll(groups) == Summaries(slices)
  {
    var ordered := Sort(points, PointLeq);
    SortKeeps(points, PointLeq);
    SortedStamps(points);
    var stored := Groups(ordered, Width(|ordered|, MAX_SERIES_POINTS));
    GroupsAscend(ordered, Width(|ordered|, MAX_SERIES_POINTS));
    inside := InsideGroups(stored, lo, hi);
    InsideIsExact(stored, lo, hi);
    InsideIsWithin(stored, lo, hi);
    slices := MergingIsExact(inside, maximum);
  }

  // ----- the outbound check -----

  predicate BinSane(bin: Bin, start: real, end: real) {
    start <= bin.start <= bin.end <= end && bin.min <= bin.mean <= bin.max && bin.samples >= 1
  }

  /** What the outbound projection demands of a series. */
  ghost predicate Passes(series: seq<Bin>, start: real, end: real) {
    && |series| <= MAX_SERIES_POINTS
    && AllSane(series, start, end)
    && Chained(series)
  }

  /** The check as the projection runs it, bin by bin. */
  method CheckSeries(series: seq<Bin>, start: real, end: real) returns (ok: bool)
    ensures ok <==> Passes(series, start, end)
  {
    if |series| > MAX_SERIES_POINTS {
      return false;
    }
    var previousEnd: Option<real> := None;
    for n := 0 to |series|
      invariant forall i :: 0 <= i < n ==> BinSane(series[i], start, end)
      invariant forall i :: 0 <= i < n - 1 ==> series[i].end < series[i + 1].start
      invariant previousEnd == if n == 0 then None else Some(series[n - 1].end)
    {
      var point := series[n];
      if !BinSane(point, start, end) || (previousEnd.Some? && point.start <= previousEnd.value) {
        if n > 0 && point.start <= series[n - 1].end {
          assert !(series[n - 1].end < series[n - 1 + 1].start);
        }
        return false;
      }
      previousEnd := Some(point.end);
    }
    ok := true;
  }

  lemma {:induction false} MeanBetween(points: seq<Point>)
    requires points != []
    ensures Lowest(points) * |points| as real <= Total(points) <= Highest(points) * |points| as real
    ensures Lowest(points) <= Highest(points)
  {
    if |points| > 1 {
      var rest := points[1..];
      MeanBetween(rest);
      var n := |rest| as real;
      assert |points| as real == n + 1.0;
      Scaled(Lowest(points), Lowest(rest), n);
      Scaled(Highest(rest), Highest(points), n);
    } else {
      assert Total(points) == points[0].value + Total(points[1..]);
    }
  }

  lemma Scaled(a: real, b: real, n: real)
    requires a <= b && n >= 0.0
    ensures a * n <= b * n
    ensures a * (n + 1.0) == a * n + a
    ensures b * (n + 1.0) == b * n + b
  {
  }

  lemma QuotientBetween(low: real, total: real, high: real, n: nat)
    requires n > 0 && low * n as real <= total <= high * n as real
    ensures low <= total / n as real <= high
  {
    var m := total / n as real;
    assert m * n as real == total;
    if m < low {
      Strict(m, low, n as real);
    }
    if m > high {
      Strict(high, m, n as real);
    }
  }

  lemma Strict(a: real, b: real, n: real)
    requires a < b && n > 0.0
    ensures a * n < b * n
  {
  }

  lemma SummarySane(points: seq<Point>, start: real, end: real)
    requires points != [] && StampsAscend(points)
    requires forall p :: p in points ==> start <= p.stamp <= end
    ensures BinSane(Summary(points), start, end)
  {
    MeanBetween(points);
    QuotientBetween(Lowest(points), Total(points), Highest(points), |points|);
    assert points[0] in points && points[|points| - 1] in points;
  }

  lemma PointOrder()
    ensures TotalPreorder(PointLeq)
  {
  }

  /** No bin boundary falls between two points with the same timestamp. */
  predicate BoundariesSeparate(ordered: seq<Point>, width: nat)
    requires width > 0
  {
    |ordered| <= width
    || (ordered[width - 1].stamp < ordered[width].stamp && BoundariesSeparate(ordered[width..], width))
  }

  ghost predicate Chained(bins: seq<Bin>) {
    forall i :: 0 <= i < |bins| - 1 ==> bins[i].end < bins[i + 1].start
  }

  ghost predicate AllSane(bins: seq<Bin>, start: real, end: real) {
    forall i :: 0 <= i < |bins| ==> BinSane(bins[i], start, end)
  }

  lemma ChainedStep(bin: Bin, bins: seq<Bin>)
    requires bins != []
    ensures Chained([bin] + bins) <==> bin.end < bins[0].start && Chained(bins)
  {
    var all := [bin] + bins;
    if Chained(all) {
      assert all[0].end < all[0 + 1].start;
      forall i | 0 <= i < |bins| - 1
        ensures bins[i].end < bins[i + 1].start
      {
        assert all[i + 1].end < all[i + 1 + 1].start;
      }
    }
    if bin.end < bins[0].start && Chained(bins) {
      forall i | 0 <= i < |all| - 1
        ensures all[i].end < all[i + 1].start
      {
        if i > 0 {
          assert bins[i - 1].end < bins[i - 1 + 1].start;
        }
      }
    }
  }

  lemma {:induction false} ChainedIff(ordered: seq<Point>, width: nat)
    requires width > 0
    ensures Chained(Summaries(Groups(ordered, width))) <==> BoundariesSeparate(ordered, width)
  {
    if |ordered| > width {
      var rest := ordered[width..];
      ChainedIff(rest, width);
      var bins := Summaries(Groups(rest, width));
      assert Groups(rest, width)[0][0] == rest[0];
      assert Summaries(Groups(ordered, width)) == [Summary(ordered[..width])] + bins;
      ChainedStep(Summary(ordered[..width]), bins);
    }
  }

  lemma {:induction false} SlicesSane(ordered: seq<Point>, width: nat, start: real, end: real)
    requires width > 0 && StampsAscend(ordered)
    requires forall p :: p in ordered ==> start <= p.stamp <= end
    ensures AllSane(Summaries(Groups(ordered, width)), start, end)
  {
    if |ordered| > width {
      var rest := ordered[width..];
      SlicesSane(rest, width, start, end);
      SummarySane(ordered[..width], start, end);
      assert Summaries(Groups(ordered, width)) == [Summary(ordered[..width])] + Summaries(Groups(rest, width));
    } else if ordered != [] {
      SummarySane(ordered, start, end);
    }
  }

  lemma SortedStamps(points: seq<Point>)
    ensures StampsAscend(Sort(points, PointLeq))
    ensures forall p :: p in Sort(points, PointLeq) <==> p in points
  {
    SortKeeps(points, PointLeq);
    PointOrder();
    SortAscends(points, PointLeq);
    var ordered := Sort(points, PointLeq);
    forall i, j | 0 <= i < j < |ordered|
      ensures ordered[i].stamp <= ordered[j].stamp
    {
      assert PointLeq(ordered[i], ordered[j]);
    }
  }

  /** For in-window points the series passes the outbound check exactly when no boundary splits a timestamp. */
  lemma SeriesPassesIff(points: seq<Point>, start: real, end: real)
    requires forall p :: p in points ==> start <= p.stamp <= end
    ensures Passes(Series(points), start, end)
            <==> BoundariesSeparate(Sort(points, PointLeq), Width(|points|, MAX_SERIES_POINTS))
  {
    var ordered := Sort(points, PointLeq);
    SortKeeps(points, PointLeq);
    SortedStamps(points);
    GroupLimit(ordered, MAX_SERIES_POINTS);
    ChainedIff(ordered, Width(|ordered|, MAX_SERIES_POINTS));
    SlicesSane(ordered, Width(|ordered|, MAX_SERIES_POINTS), start, end);
  }

  /** More points of one timestamp than the series has bins never pass. */
  lemma OneStampFails(points: seq<Point>, start: real, end: real)
    requires |points| > MAX_SERIES_POINTS && forall p :: p in points ==> start <= p.stamp <= end
    requires forall i :: 0 <= i < |points| ==> points[i].stamp == points[0].stamp
    ensures !Passes(Series(points), start, end)
  {
    var ordered, width := Sort(points, PointLeq), Width(|points|, MAX_SERIES_POINTS);
    SortKeeps(points, PointLeq);
    assert width < |ordered|;
    assert ordered[width - 1] in points && ordered[width] in points;
    SeriesPassesIff(points, start, end);
  }

  /** 65 points, one a second, except that the third comes within the second one's. */
  function Doubled(): seq<Point> {
    seq(65, i requires 0 <= i => Point(if i < 2 then i as real else (i - 1) as real, 1.0))
  }

  lemma OrderedSplitFails(points: seq<Point>, start: real, end: real)
    requires Ascending(points, PointLeq) && forall p :: p in points ==> start <= p.stamp <= end
    requires var w := Width(|points|, MAX_SERIES_POINTS); w < |points| && points[w - 1].stamp == points[w].stamp
    ensures !Passes(Series(points), start, end)
  {
    PointOrder();
    SortKeeps(points, PointLeq);
    SortAscends(points, PointLeq);
    AscendingUnique(Sort(points, PointLeq), points, PointLeq);
    SeriesPassesIff(points, start, end);
  }

  /** The second and the third point have one timestamp and fall into different bins: the series of a valid list of
      points is refused. */
  lemma SplitStampExample()
    ensures forall p :: p in Doubled() ==> 0.0 <= p.stamp <= 63.0
    ensures !Passes(Series(Doubled()), 0.0, 63.0)
  {
    hide Passes, Series;
    var points := Doubled();
    assert Width(|points|, MAX_SERIES_POINTS) == 2 && points[1].stamp == points[2].stamp;
    OrderedSplitFails(points, 0.0, 63.0);
  }

  lemma {:induction false} StrictSeparates(ordered: seq<Point>, width: nat)
    requires width > 0 && forall i, j :: 0 <= i < j < |ordered| ==> ordered[i].stamp < ordered[j].stamp
    ensures BoundariesSeparate(ordered, width)
  {
    if |ordered| > width {
      StrictSeparates(ordered[width..], width);
    }
  }

  function StampOf(p: Point): real {
    p.stamp
  }

  /** Points with distinct timestamps always pass. */
  lemma DistinctStampsPass(points: seq<Point>, start: real, end: real)
    requires forall p :: p in points ==> start <= p.stamp <= end
    requires DistinctBy(points, StampOf)
    ensures Passes(Series(points), start, end)
  {
    var ordered := Sort(points, PointLeq);
    SortKeeps(points, PointLeq);
    SortedStamps(points);
    PermutedDistinct(points, ordered, StampOf);
    StrictSeparates(ordered, Width(|points|, MAX_SERIES_POINTS));
    SeriesPassesIff(points, start, end);
  }
}
