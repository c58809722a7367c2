/** What a stored series says about its points: they are ordered by time and value, cut into equal runs of the least width
    that fits, and each bin describes its run. */
module SeriesMeaning {
  import opened Prelude
  import opened Sorting
  import opened Binning

  /** Earlier points first, and of points at the same time the lower ones. */
  ghost predicate Ordered(points: seq<Point>) {
    forall i, j :: 0 <= i < j < |points| ==>
      points[i].stamp < points[j].stamp || (points[i].stamp == points[j].stamp && points[i].value <= points[j].value)
  }

  /** The least positive width that makes at most this many runs of n elements. */
  ghost predicate LeastWidth(n: nat, maximum: nat, width: nat) {
    width >= 1 && width * maximum >= n && (width == 1 || (width - 1) * maximum < n)
  }

  lemma WidthIsLeast(n: nat, maximum: nat)
    requires maximum > 0
    ensures LeastWidth(n, maximum, Width(n, maximum))
  {
    var w, q := Width(n, maximum), (n + maximum - 1) / maximum;
    var r := (n + maximum - 1) % maximum;
    assert n + maximum - 1 == q * maximum + r;
    assert q * maximum >= n && (q - 1) * maximum == q * maximum - maximum;
  }

  /** Runs of this width, the last perhaps shorter. */
  ghost predicate Runs(groups: seq<seq<Point>>, width: nat) {
    forall i :: 0 <= i < |groups| ==> if i < |groups| - 1 then |groups[i]| == width else 1 <= |groups[i]| <= width
  }

  lemma {:induction false} GroupsAreRuns(points: seq<Point>, width: nat)
    requires width > 0
    ensures Runs(Groups(points, width), width)
  {
    if |points| > width {
      GroupsAreRuns(points[width..], width);
      var rest := Groups(points[width..], width);
      assert rest != [];
      assert Groups(points, width) == [points[..width]] + rest;
    }
  }

  /** The bin says when the run starts and ends, how low and high it goes, what its mean is and how many points it has. */
  ghost predicate Describes(bin: Bin, run: seq<Point>) {
    && run != [] && bin.samples == |run|
    && bin.start == run[0].stamp && bin.end == run[|run| - 1].stamp
    && (forall i :: 0 <= i < |run| ==> bin.min <= run[i].value <= bin.max)
    && (exists i :: 0 <= i < |run| && run[i].value == bin.min)
    && (exists i :: 0 <= i < |run| && run[i].value == bin.max)
    && bin.mean * |run| as real == Total(run)
  }

  lemma {:induction false} ExtremesAre(run: seq<Point>)
    requires run != []
    ensures forall i :: 0 <= i < |run| ==> Lowest(run) <= run[i].value <= Highest(run)
    ensures exists i :: 0 <= i < |run| && run[i].value == Lowest(run)
    ensures exists i :: 0 <= i < |run| && run[i].value == Highest(run)
  {
    if |run| > 1 {
      var rest := run[1..];
      ExtremesAre(rest);
      assert forall i :: 0 <= i < |rest| ==> rest[i] == run[i + 1];
      var i :| 0 <= i < |rest| && rest[i].value == Lowest(rest);
      var j :| 0 <= j < |rest| && rest[j].value == Highest(rest);
      assert run[i + 1].value == Lowest(rest) && run[j + 1].value == Highest(rest);
      assert Lowest(run) == run[0].value || Lowest(run) == run[i + 1].value;
      assert Highest(run) == run[0].value || Highest(run) == run[j + 1].value;
      forall k | 0 <= k < |run|
        ensures Lowest(run) <= run[k].value <= Highest(run)
      {
        if k > 0 {
          assert rest[k - 1] == run[k];
        }
      }
    } else {
      assert run[0].value == Lowest(run) == Highest(run);
    }
  }

  lemma SummaryDescribes(run: seq<Point>)
    requires run != []
    ensures Describes(Summary(run), run)
  {
    ExtremesAre(run);
    MeanTimesCount(Total(run), |run|);
  }

  /** A total is the sum of its parts, down to single points. */
  lemma TotalIsSum(a: seq<Point>, b: seq<Point>, p: Point)
    ensures Total([]) == 0.0 && Total([p]) == p.value && Total(a + b) == Total(a) + Total(b)
  {
    TotalSplits(a, b);
    assert [p][1..] == [];
  }

  /** A series describes the points in order, run by run, in at most 64 bins of the least width. */
  lemma SeriesIs(points: seq<Point>)
    ensures exists ordered, runs, width ::
              && multiset(ordered) == multiset(points) && Ordered(ordered)
              && LeastWidth(|points|, 64, width) && Flatten(runs) == ordered && Runs(runs, width)
              && |Series(points)| == |runs| <= 64
              && forall i :: 0 <= i < |runs| ==> Describes(Series(points)[i], runs[i])
  {
    var ordered := Sort(points, PointLeq);
    SortKeeps(points, PointLeq);
    PointOrder();
    SortAscends(points, PointLeq);
    InOrder(ordered);
    hide Sort, Ordered, LeastWidth, Runs, Describes, PointLeq, Groups, Flatten;
    var width := Width(|ordered|, MAX_SERIES_POINTS);
    WidthIsLeast(|ordered|, MAX_SERIES_POINTS);
    var runs := Groups(ordered, width);
    GroupsPartition(ordered, width);
    GroupsAreRuns(ordered, width);
    GroupLimit(ordered, MAX_SERIES_POINTS);
    forall i | 0 <= i < |runs|
      ensures Describes(Series(points)[i], runs[i])
    {
      SummaryDescribes(runs[i]);
    }
  }

  lemma InOrder(ordered: seq<Point>)
    requires Ascending(ordered, PointLeq)
    ensures Ordered(ordered)
  {
    forall i, j | 0 <= i < j < |ordered|
      ensures ordered[i].stamp < ordered[j].stamp || (ordered[i].stamp == ordered[j].stamp && ordered[i].value <= ordered[j].value)
    {
      assert PointLeq(ordered[i], ordered[j]);
    }
  }
}
