/** The optional ranking of a projected snapshot: checked against the services, relabelled with the names that the
    projection gives without looking at it. */
module RankingHint {
  import opened Prelude
  import opened Sorting
  import opened ReportIdentity
  import opened OutboundProjection

  /** One row of a ranking; a rank that is no integer and a score that is no finite number are None. */
  datatype Row = Row(service: string, rank: Option<int>, score: Option<real>)

  datatype Refusal = RankingDiffers | Projection(problem: Problem)

  function RankOf(row: Row): int {
    match row.rank
    case Some(rank) => rank
    case None => 0
  }

  function ServiceOf(row: Row): string {
    row.service
  }

  function Ranks(rows: seq<Row>): seq<int> {
    seq(|rows|, i requires 0 <= i < |rows| => RankOf(rows[i]))
  }

  predicate RankLeq(a: Row, b: Row) {
    RankOf(a) <= RankOf(b)
  }

  function Services(rows: seq<Row>): set<string> {
    set row | row in rows :: row.service
  }

  /** As many rows as services, the same services, the ranks 1 to n, and a score in each row. */
  predicate RankingOk(ranking: seq<Row>, services: seq<string>) {
    && |ranking| == |services| && Services(ranking) == (set x | x in services)
    && (forall i :: 0 <= i < |ranking| ==> ranking[i].rank.Some? && ranking[i].score.Some?)
    && Sort(Ranks(ranking), IntLeq) == seq(|services|, i => i + 1)
  }

  function Hint(names: map<string, string>, ranking: seq<Row>): seq<Row>
    requires Services(ranking) <= names.Keys
  {
    var rows := Sort(ranking, RankLeq);
    SortKeeps(ranking, RankLeq);
    seq(|rows|, i requires 0 <= i < |rows| => assert rows[i] in ranking; rows[i].(service := names[rows[i].service]))
  }

  /** The projection of a snapshot with an optional ranking: the ranking is checked first, the names are given next, and
      the ranking is rewritten last. */
  function PrepareRanked<C, V>(services: seq<string>, facts: seq<Fact<C>>, project: Projector<C, V>, ranking: Option<seq<Row>>)
    : Result<(Prepared<V>, Option<seq<Row>>), Refusal>
  {
    if ranking.Some? && !RankingOk(ranking.value, services) then Err(RankingDiffers)
    else
      match Prepare(services, facts, project)
      case Err(p) => Err(Projection(p))
      case Ok(p) =>
        ServicesExact(services);
        Ok((p, match ranking
               case None => None
               case Some(rows) => Some(Hint(p.mapping.services, rows))))
  }

  // ----- which rankings are accepted -----

  ghost predicate Ranked(ranking: seq<Row>, k: int) {
    exists i :: 0 <= i < |ranking| && ranking[i].rank == Some(k)
  }

  ghost predicate Lists(ranking: seq<Row>, service: string) {
    exists i :: 0 <= i < |ranking| && ranking[i].service == service
  }

  function Same(x: int): int {
    x
  }

  lemma {:induction false} MembersCount(s: seq<int>)
    ensures |Members(s)| <= |s|
    ensures |Members(s)| == |s| ==> DistinctBy(s, Same)
  {
    if s != [] {
      var n := |s| - 1;
      MembersCount(s[..n]);
      assert s == s[..n] + [s[n]];
      assert Members(s) == Members(s[..n]) + {s[n]};
      if |Members(s)| == |s| {
        assert forall i :: 0 <= i < n ==> s[i] == s[..n][i] && s[i] in Members(s[..n]);
      }
    } else {
      assert Members(s) == {};
    }
  }

  function UpTo(n: nat): seq<int> {
    seq(n, i => i + 1)
  }

  lemma {:induction false} UpToMembers(n: nat)
    ensures |Members(UpTo(n))| == n
  {
    if n > 0 {
      UpToMembers(n - 1);
      assert UpTo(n) == UpTo(n - 1) + [n];
      assert Members(UpTo(n)) == Members(UpTo(n - 1)) + {n};
    } else {
      assert Members(UpTo(0)) == {};
    }
  }

  lemma SameOnce(a: seq<int>, b: seq<int>)
    requires DistinctBy(a, Same) && DistinctBy(b, Same) && Members(a) == Members(b)
    ensures multiset(a) == multiset(b)
  {
    forall x
      ensures multiset(a)[x] == multiset(b)[x]
    {
      OnceBy(a, Same, x);
      OnceBy(b, Same, x);
      assert x in a <==> x in Members(a);
      assert x in b <==> x in Members(b);
    }
  }

  /** Integers, as many as n, sort to one to n exactly when each of those is among them. */
  lemma SortsToUpTo(s: seq<int>)
    ensures Sort(s, IntLeq) == UpTo(|s|) <==> forall k :: 1 <= k <= |s| ==> k in s
  {
    var n := |s|;
    SortKeeps(s, IntLeq);
    UpToMembers(n);
    if Sort(s, IntLeq) == UpTo(n) {
      forall k | 1 <= k <= n
        ensures k in s
      {
        assert UpTo(n)[k - 1] == k;
      }
    }
    if forall k :: 1 <= k <= n ==> k in s {
      assert Members(UpTo(n)) <= Members(s);
      SubsetSize(Members(UpTo(n)), Members(s));
      MembersCount(s);
      SubsetSize(Members(UpTo(n)), Members(s));
      MembersCount(UpTo(n));
      SameOnce(s, UpTo(n));
      IntOrder();
      SortAscends(s, IntLeq);
      AscendingUnique(Sort(s, IntLeq), UpTo(n), IntLeq);
    }
  }

  /** A ranking is accepted exactly when it has a row for every service and for none else, a rank and a score in every row,
      and every rank from one to the number of services. */
  lemma RankingOkIff(ranking: seq<Row>, services: seq<string>)
    ensures RankingOk(ranking, services)
            <==> && |ranking| == |services|
                 && (forall row :: row in ranking ==> row.service in services && row.rank.Some? && row.score.Some?)
                 && (forall service :: service in services ==> Lists(ranking, service))
                 && (forall k :: 1 <= k <= |services| ==> Ranked(ranking, k))
  {
    SortsToUpTo(Ranks(ranking));
    forall k
      ensures (forall row :: row in ranking ==> row.rank.Some?) ==> (k in Ranks(ranking) <==> Ranked(ranking, k))
    {
      if k in Ranks(ranking) {
        var i :| 0 <= i < |ranking| && Ranks(ranking)[i] == k;
        assert ranking[i] in ranking;
      }
      if i :| 0 <= i < |ranking| && ranking[i].rank == Some(k) {
        assert Ranks(ranking)[i] == k;
      }
    }
    ServicesListed(ranking, services);
  }

  lemma ServicesListed(ranking: seq<Row>, services: seq<string>)
    ensures Services(ranking) == (set x | x in services)
            <==> (forall row :: row in ranking ==> row.service in services)
                 && forall service :: service in services ==> Lists(ranking, service)
  {
    forall service
      ensures service in Services(ranking) <==> Lists(ranking, service)
    {
      if i :| 0 <= i < |ranking| && ranking[i].service == service {
        assert ranking[i] in ranking;
      }
    }
    forall row | row in ranking
      ensures row.service in Services(ranking)
    {
    }
  }

  // ----- the names do not depend on the ranking -----

  /** A ranking can only be refused: with or without it, in whatever order and with whatever scores, an accepted
      snapshot goes out under the same names with the same facts. */
  lemma RankingIrrelevant<C, V>(services: seq<string>, facts: seq<Fact<C>>, project: Projector<C, V>, ranking: Option<seq<Row>>)
    ensures PrepareRanked(services, facts, project, ranking).Ok?
            <==> (ranking.Some? ==> RankingOk(ranking.value, services)) && PrepareRanked(services, facts, project, None).Ok?
    ensures PrepareRanked(services, facts, project, ranking).Ok? ==>
              PrepareRanked(services, facts, project, ranking).value.0 == PrepareRanked(services, facts, project, None).value.0
  {
  }

  // ----- what the hint says -----

  lemma {:induction false} InsertRanks(row: Row, rows: seq<Row>)
    ensures Ranks(Insert(row, rows, RankLeq)) == Insert(RankOf(row), Ranks(rows), IntLeq)
  {
    if rows == [] {
    } else if RankLeq(row, rows[0]) {
      assert Ranks([row] + rows) == [RankOf(row)] + Ranks(rows);
    } else {
      InsertRanks(row, rows[1..]);
      assert Ranks(rows)[1..] == Ranks(rows[1..]);
      assert Ranks([rows[0]] + Insert(row, rows[1..], RankLeq)) == [RankOf(rows[0])] + Ranks(Insert(row, rows[1..], RankLeq));
    }
  }

  /** Sorting the rows by rank sorts their ranks. */
  lemma {:induction false} SortRanks(rows: seq<Row>)
    ensures Ranks(Sort(rows, RankLeq)) == Sort(Ranks(rows), IntLeq)
  {
    if rows != [] {
      SortRanks(rows[1..]);
      InsertRanks(rows[0], Sort(rows[1..], RankLeq));
      assert Ranks(rows)[1..] == Ranks(rows[1..]);
    }
  }

  lemma RankAt(ranking: seq<Row>, services: seq<string>, i: nat)
    requires RankingOk(ranking, services) && i < |ranking|
    ensures |Sort(ranking, RankLeq)| == |ranking|
    ensures Sort(ranking, RankLeq)[i].rank == Some(i + 1)
  {
    SortRanks(ranking);
    SortKeeps(ranking, RankLeq);
    var rows := Sort(ranking, RankLeq);
    assert rows[i] in ranking;
    assert Ranks(rows)[i] == i + 1;
  }

  lemma ServicesSnoc(rows: seq<Row>, row: Row)
    ensures Services(rows + [row]) == Services(rows) + {row.service}
  {
  }

  lemma DistinctSnoc(rows: seq<Row>, row: Row)
    requires DistinctBy(rows, ServiceOf) && row.service !in Services(rows)
    ensures DistinctBy(rows + [row], ServiceOf)
  {
  }

  lemma {:induction false} FewServices(rows: seq<Row>)
    ensures |Services(rows)| <= |rows|
    ensures |Services(rows)| == |rows| ==> DistinctBy(rows, ServiceOf)
  {
    if rows != [] {
      hide DistinctBy, Services;
      var n := |rows| - 1;
      FewServices(rows[..n]);
      ServicesSnoc(rows[..n], rows[n]);
      assert rows == rows[..n] + [rows[n]];
      if |Services(rows)| == |rows| {
        DistinctSnoc(rows[..n], rows[n]);
      }
    } else {
      assert Services(rows) == {};
    }
  }

  lemma {:induction false} DistinctCount(xs: seq<string>)
    requires Distinct(xs)
    ensures |set x | x in xs| == |xs|
  {
    if xs != [] {
      var n := |xs| - 1;
      DistinctCount(xs[..n]);
      assert (set x | x in xs) == (set x | x in xs[..n]) + {xs[n]} by {
        assert xs == xs[..n] + [xs[n]];
      }
      assert forall i :: 0 <= i < n ==> xs[..n][i] == xs[i] && xs[i] != xs[n];
      assert xs[n] !in xs[..n];
    }
  }

  /** A ranking of distinct services ranks each of them once. */
  lemma RankedOnce(ranking: seq<Row>, services: seq<string>)
    requires RankingOk(ranking, services) && Distinct(Sort(services, StringLeq))
    ensures DistinctBy(ranking, ServiceOf) && DistinctBy(Sort(ranking, RankLeq), ServiceOf)
  {
    var listed := Sort(services, StringLeq);
    SortKeeps(services, StringLeq);
    DistinctCount(listed);
    assert (set x | x in listed) == (set x | x in services);
    FewServices(ranking);
    SortKeeps(ranking, RankLeq);
    PermutedDistinct(ranking, Sort(ranking, RankLeq), ServiceOf);
  }

  lemma HintDistinct(names: map<string, string>, ranking: seq<Row>)
    requires Services(ranking) <= names.Keys && Injective(names) && DistinctBy(Sort(ranking, RankLeq), ServiceOf)
    ensures DistinctBy(Hint(names, ranking), ServiceOf)
  {
    var rows, hint := Sort(ranking, RankLeq), Hint(names, ranking);
    SortKeeps(ranking, RankLeq);
    forall i, j | 0 <= i < j < |hint|
      ensures ServiceOf(hint[i]) != ServiceOf(hint[j])
    {
      assert rows[i] in ranking && rows[j] in ranking;
      assert ServiceOf(rows[i]) != ServiceOf(rows[j]);
    }
  }

  lemma HintServices(names: map<string, string>, ranking: seq<Row>)
    requires Services(ranking) == names.Keys
    ensures Services(Hint(names, ranking)) == names.Values
  {
    var rows, hint := Sort(ranking, RankLeq), Hint(names, ranking);
    SortKeeps(ranking, RankLeq);
    forall v | v in names.Values
      ensures v in Services(hint)
    {
      var k :| k in names && names[k] == v;
      var row :| row in ranking && row.service == k;
      assert row in rows;
      var i :| 0 <= i < |rows| && rows[i] == row;
      assert hint[i] in hint && hint[i].service == v;
    }
    forall row | row in hint
      ensures row.service in names.Values
    {
      var i :| 0 <= i < |hint| && hint[i] == row;
      assert rows[i] in ranking && rows[i].service in names;
    }
  }

  lemma HintPutBack(names: map<string, string>, ranking: seq<Row>, services: seq<string>, i: nat)
    requires RankingOk(ranking, services) && Services(ranking) <= names.Keys && Injective(names) && i < |ranking|
    ensures var hint := Hint(names, ranking);
            && |hint| == |ranking| && hint[i].rank == Some(i + 1) && hint[i].service in Reverse(names)
            && hint[i].(service := Reverse(names)[hint[i].service]) in ranking
  {
    var rows, hint := Sort(ranking, RankLeq), Hint(names, ranking);
    SortKeeps(ranking, RankLeq);
    RankAt(ranking, services, i);
    assert rows[i] in ranking && rows[i].service in Services(ranking);
    ReverseFacts(names);
    ReverseReads(names, rows[i].service);
    assert hint[i].(service := rows[i].service) == rows[i];
  }

  lemma ReverseReads(names: map<string, string>, k: string)
    requires Injective(names) && k in names
    ensures names[k] in Reverse(names) && Reverse(names)[names[k]] == k
  {
    ReverseFacts(names);
    assert names[k] in names.Values;
  }

  /** The hint lists every service once, in order of rank 1, 2, and so on, under its neutral name; put back, it is the
      ranking sorted by rank. */
  lemma HintIsRanking<C, V>(services: seq<string>, facts: seq<Fact<C>>, project: Projector<C, V>, ranking: seq<Row>)
    requires PrepareRanked(services, facts, project, Some(ranking)).Ok?
    ensures var (p, hint) := PrepareRanked(services, facts, project, Some(ranking)).value;
            && hint.Some? && |hint.value| == |services| && Injective(p.mapping.services)
            && Services(hint.value) == p.mapping.services.Values && DistinctBy(hint.value, ServiceOf)
            && forall i :: 0 <= i < |hint.value| ==>
                 && hint.value[i].rank == Some(i + 1) && hint.value[i].service in Reverse(p.mapping.services)
                 && hint.value[i].(service := Reverse(p.mapping.services)[hint.value[i].service]) in ranking
  {
    var names := Named("svc-", Sort(services, StringLeq));
    ServicesExact(services);
    RankedOnce(ranking, services);
    HintDistinct(names, ranking);
    assert Services(ranking) == names.Keys;
    HintServices(names, ranking);
    SortKeeps(ranking, RankLeq);
    hide Hint, Reverse, Sort, RankingOk;
    forall i | 0 <= i < |services|
      ensures var hint := Hint(names, ranking);
              && |hint| == |ranking| && hint[i].rank == Some(i + 1) && hint[i].service in Reverse(names)
              && hint[i].(service := Reverse(names)[hint[i].service]) in ranking
    {
      HintPutBack(names, ranking, services, i);
    }
  }

  lemma RanksDecide(ranking: seq<Row>, services: seq<string>, a: Row, b: Row)
    requires RankingOk(ranking, services) && a in ranking && b in ranking && RankOf(a) == RankOf(b)
    ensures a == b
  {
    var rows := Sort(ranking, RankLeq);
    SortKeeps(ranking, RankLeq);
    assert a in rows && b in rows;
    var i :| 0 <= i < |rows| && rows[i] == a;
    var j :| 0 <= j < |rows| && rows[j] == b;
    RankAt(ranking, services, i);
    RankAt(ranking, services, j);
  }

  lemma PermutedOk(ranking: seq<Row>, ranking': seq<Row>, services: seq<string>)
    requires RankingOk(ranking, services) && multiset(ranking') == multiset(ranking)
    ensures RankingOk(ranking', services) && Sort(ranking', RankLeq) == Sort(ranking, RankLeq)
  {
    SameMembers(ranking, ranking');
    forall a, b | a in ranking && b in ranking && RankLeq(a, b) && RankLeq(b, a)
      ensures a == b
    {
      RanksDecide(ranking, services, a, b);
    }
    SortIgnoresOrder(ranking, ranking', RankLeq);
    SortRanks(ranking);
    SortRanks(ranking');
    assert Services(ranking') == Services(ranking);
    forall i | 0 <= i < |ranking'|
      ensures ranking'[i].rank.Some? && ranking'[i].score.Some?
    {
      assert ranking'[i] in ranking;
    }
  }

  /** The order in which the ranking lists its rows does not matter. */
  lemma HintIgnoresOrder<C, V>(services: seq<string>, facts: seq<Fact<C>>, project: Projector<C, V>,
                               ranking: seq<Row>, ranking': seq<Row>)
    requires PrepareRanked(services, facts, project, Some(ranking)).Ok? && multiset(ranking') == multiset(ranking)
    ensures PrepareRanked(services, facts, project, Some(ranking')) == PrepareRanked(services, facts, project, Some(ranking))
  {
    PermutedOk(ranking, ranking', services);
    ServicesExact(services);
  }
}
