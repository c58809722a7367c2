/** Which number the outbound projection gives to what: one more than the number of names that come before it; and exactly
    which snapshots it projects. */
module OutboundNames {
  import opened Prelude
  import opened Sorting
  import opened Numerals
  import opened ReportIdentity
  import opened OutboundProjection

  /** The number, with zeros in front up to three digits. */
  ghost predicate ThreeOrMore(text: string, n: nat) {
    Numeral(text) && Value(text) == n && |text| >= 3 && (|text| > 3 ==> text == Decimal(n))
  }

  lemma ThreeDigitsIs(n: nat)
    ensures ThreeOrMore(ThreeDigits(n), n)
  {
    ThreeDigitsReadBack(n);
  }

  // ----- counting what comes before -----

  ghost function Earlier(services: seq<string>, s: string): set<string> {
    set t | t in services && t != s && StringLeq(t, s)
  }

  lemma {:induction false} PrefixCount<T>(xs: seq<T>, i: nat)
    requires NoRepeats(xs) && i <= |xs|
    ensures |Members(xs[..i])| == i
  {
    if i > 0 {
      PrefixCount(xs, i - 1);
      assert xs[..i] == xs[..i - 1] + [xs[i - 1]];
      assert Members(xs[..i]) == Members(xs[..i - 1]) + {xs[i - 1]};
      assert forall j :: 0 <= j < i - 1 ==> xs[..i - 1][j] == xs[j] && xs[j] != xs[i - 1];
      assert xs[i - 1] !in xs[..i - 1];
    } else {
      assert Members(xs[..0]) == {};
    }
  }

  lemma DistinctNoRepeats(xs: seq<string>)
    requires Distinct(xs)
    ensures NoRepeats(xs)
  {
    forall i, j | 0 <= i < |xs| && 0 <= j < |xs| && i != j
      ensures xs[i] != xs[j]
    {
      if i < j {
        assert xs[i] != xs[j];
      } else {
        assert xs[j] != xs[i];
      }
    }
  }

  lemma EarlierIsPrefix(services: seq<string>, i: nat)
    requires var listed := Sort(services, StringLeq); Distinct(listed) && i < |listed|
    ensures var listed := Sort(services, StringLeq); Earlier(services, listed[i]) == Members(listed[..i])
  {
    var listed := Sort(services, StringLeq);
    SortKeeps(services, StringLeq);
    StringOrder();
    SortAscends(services, StringLeq);
    DistinctNoRepeats(listed);
    assert forall k :: i < k < |listed| ==> StringLeq(listed[i], listed[k]);
    forall t | t in Earlier(services, listed[i])
      ensures t in listed[..i]
    {
      var j :| 0 <= j < |listed| && listed[j] == t;
      assert listed[..i][j] == t;
    }
    forall t | t in listed[..i]
      ensures t in Earlier(services, listed[i])
    {
      var j :| 0 <= j < i && listed[..i][j] == t;
      assert listed[j] == t && StringLeq(listed[j], listed[i]);
      assert t in listed;
    }
  }

  /** A service is numbered from one in the order of the names. */
  lemma ServiceNumber<C, V>(services: seq<string>, facts: seq<Fact<C>>, project: Projector<C, V>, s: string)
    requires Prepare(services, facts, project).Ok? && s in services
    ensures var m := Prepare(services, facts, project).value.mapping.services;
            && s in m && |m[s]| >= 4 && m[s][..4] == "svc-" && ThreeOrMore(m[s][4..], 1 + |Earlier(services, s)|)
  {
    var listed := Sort(services, StringLeq);
    SortKeeps(services, StringLeq);
    var i :| 0 <= i < |listed| && listed[i] == s;
    NamedAt("svc-", listed, i);
    EarlierIsPrefix(services, i);
    DistinctNoRepeats(listed);
    PrefixCount(listed, i);
    NumberReads("svc-", i);
  }

  lemma Prefixed(prefix: string, rest: string)
    ensures |prefix + rest| >= |prefix| && (prefix + rest)[..|prefix|] == prefix && (prefix + rest)[|prefix|..] == rest
  {
  }

  /** One fact before another: by service, then by kind, then by family. */
  ghost predicate Before<C>(a: Fact<C>, b: Fact<C>) {
    if a.service != b.service then StringLeq(a.service, b.service)
    else if a.kind != b.kind then StringLeq(a.kind, b.kind)
    else a.family != b.family && StringLeq(a.family, b.family)
  }

  ghost function EarlierFacts<C>(facts: seq<Fact<C>>, f: Fact<C>): set<Fact<C>> {
    set g | g in facts && Before(g, f)
  }

  lemma BeforeIff<C>(a: Fact<C>, b: Fact<C>)
    ensures Before(a, b) <==> IdentityLeq(a, b) && Identity(a) != Identity(b)
  {
  }

  lemma EarlierFactsArePrefix<C(!new)>(facts: seq<Fact<C>>, i: nat)
    requires var ordered := Sort(facts, IdentityLeq); DistinctIdentities(ordered) && i < |ordered|
    ensures var ordered := Sort(facts, IdentityLeq);
            EarlierFacts(facts, ordered[i]) == Members(ordered[..i]) && NoRepeats(ordered)
  {
    var ordered := Sort(facts, IdentityLeq);
    SortKeeps(facts, IdentityLeq);
    IdentityOrder<C>();
    SortAscends(facts, IdentityLeq);
    hide Sort, IdentityLeq, Identity, Before;
    forall k | i <= k < |ordered|
      ensures !Before(ordered[k], ordered[i])
    {
      BeforeIff(ordered[k], ordered[i]);
      OneWay(ordered[i], ordered[k]);
      assert k == i || IdentityLeq(ordered[i], ordered[k]);
    }
    forall f | f in EarlierFacts(facts, ordered[i])
      ensures f in ordered[..i]
    {
      var j :| 0 <= j < |ordered| && ordered[j] == f;
      assert ordered[..i][j] == f;
    }
    forall f | f in ordered[..i]
      ensures f in EarlierFacts(facts, ordered[i])
    {
      var j :| 0 <= j < i && ordered[..i][j] == f;
      assert ordered[j] == f && IdentityLeq(ordered[j], ordered[i]) && Identity(ordered[j]) != Identity(ordered[i]);
      BeforeIff(f, ordered[i]);
      assert f in ordered;
    }
  }

  lemma OneWay<C>(a: Fact<C>, b: Fact<C>)
    ensures IdentityLeq(a, b) && IdentityLeq(b, a) ==> Identity(a) == Identity(b)
  {
    TripleTotal(Identity(a), Identity(b));
  }

  /** An observation is numbered from one in the order of service, kind and family, and goes out under that number with its
      kind, its service's new name and its projected values. */
  lemma ObservationNumber<C(!new), V>(services: seq<string>, facts: seq<Fact<C>>, project: Projector<C, V>, f: Fact<C>)
    requires Prepare(services, facts, project).Ok? && f in facts
    ensures var p := Prepare(services, facts, project).value;
            var m, n := p.mapping.observations, |EarlierFacts(facts, f)|;
            && f.id in m && |m[f.id]| >= 4 && m[f.id][..4] == "obs-" && ThreeOrMore(m[f.id][4..], 1 + n)
            && f.service in p.mapping.services && n < |p.observations| == |facts|
            && project(f, p.mapping.services) == Some(p.observations[n].value)
            && p.observations[n] == Clean(m[f.id], p.mapping.services[f.service], f.kind, p.observations[n].value)
  {
    hide Before, IdentityLeq, Walk, Named, Numbered, ThreeOrMore, EarlierFacts, Sort;
    var ordered := Sort(facts, IdentityLeq);
    var names := Named("svc-", Sort(services, StringLeq));
    SortKeeps(facts, IdentityLeq);
    var i :| 0 <= i < |ordered| && ordered[i] == f;
    NumberAt(names, ordered, project, i);
    EarlierFactsCount(facts, i);
    NumberReads("obs-", i);
  }

  lemma EarlierFactsCount<C(!new)>(facts: seq<Fact<C>>, i: nat)
    requires var ordered := Sort(facts, IdentityLeq); DistinctIdentities(ordered) && i < |ordered|
    ensures |EarlierFacts(facts, Sort(facts, IdentityLeq)[i])| == i
  {
    EarlierFactsArePrefix(facts, i);
    PrefixCount(Sort(facts, IdentityLeq), i);
  }

  lemma NumberReads(prefix: string, i: nat)
    ensures var text := Numbered(prefix, i);
            |text| >= |prefix| && text[..|prefix|] == prefix && ThreeOrMore(text[|prefix|..], i + 1)
  {
    ThreeDigitsIs(i + 1);
    Prefixed(prefix, ThreeDigits(i + 1));
  }

  /** The i-th fact of the walk. */
  lemma NumberAt<C, V>(names: map<string, string>, ordered: seq<Fact<C>>, project: Projector<C, V>, i: nat)
    requires Walk(names, ordered, project).Ok? && i < |ordered|
    ensures var w, f := Walk(names, ordered, project).value, ordered[i];
            && DistinctIdentities(ordered)
            && f.id in w.ids && w.ids[f.id] == Numbered("obs-", i)
            && |w.clean| == |ordered| && f.service in names && project(f, names) == Some(w.clean[i].value)
            && w.clean[i] == Clean(Numbered("obs-", i), names[f.service], f.kind, w.clean[i].value)
  {
    WalkBuilds(names, ordered, project);
    hide Walk, Named, Numbered, Identity, IdentityLeq;
    var w := Walk(names, ordered, project).value;
    assert IdsOf(ordered)[i] == ordered[i].id;
    NamedAt("obs-", IdsOf(ordered), i);
    assert CleanOf(names, ordered[i], i, project, w.clean[i]);
  }

  // ----- which snapshots are projected -----

  lemma UnrepeatedAnyOrder<C>(a: seq<Fact<C>>, b: seq<Fact<C>>)
    requires multiset(a) == multiset(b) && Unrepeated(a)
    ensures Unrepeated(b)
  {
    IdentitiesBy(a);
    IdentitiesBy(b);
    PermutedDistinct(a, b, f => Identity(f));
    IdsBy(a);
    IdsBy(b);
    PermutedDistinct(a, b, (f: Fact<C>) => f.id);
  }

  lemma IdentitiesBy<C>(facts: seq<Fact<C>>)
    ensures DistinctIdentities(facts) <==> DistinctBy(facts, f => Identity(f))
  {
    if DistinctBy(facts, f => Identity(f)) {
      forall i, j | 0 <= i < |facts| && 0 <= j < |facts| && i != j
        ensures Identity(facts[i]) != Identity(facts[j])
      {
        assert i < j || j < i;
      }
    }
  }

  lemma IdsBy<C>(facts: seq<Fact<C>>)
    ensures Distinct(IdsOf(facts)) <==> DistinctBy(facts, (f: Fact<C>) => f.id)
  {
    assert forall i :: 0 <= i < |facts| ==> IdsOf(facts)[i] == facts[i].id;
  }

  lemma DistinctAnyOrder(a: seq<string>, b: seq<string>)
    requires multiset(a) == multiset(b)
    ensures Distinct(a) <==> Distinct(b)
  {
    DistinctIs(a);
    DistinctIs(b);
    if Distinct(a) {
      PermutedDistinct(a, b, x => x);
    }
    if Distinct(b) {
      PermutedDistinct(b, a, x => x);
    }
  }

  lemma DistinctIs(a: seq<string>)
    ensures Distinct(a) <==> DistinctBy(a, x => x)
  {
  }

  /** A snapshot is projected exactly when it has between one and a hundred distinct services, no identity and no identifier
      twice, and only facts of known services whose values can be projected. */
  lemma PrepareIff<C, V>(services: seq<string>, facts: seq<Fact<C>>, project: Projector<C, V>)
    ensures Prepare(services, facts, project).Ok?
            <==> && 1 <= |services| <= 100 && Distinct(services) && Unrepeated(facts)
                 && forall f :: f in facts ==>
                      f.service in services && project(f, Named("svc-", Sort(services, StringLeq))).Some?
  {
    var listed, ordered := Sort(services, StringLeq), Sort(facts, IdentityLeq);
    var names := Named("svc-", listed);
    SortKeeps(services, StringLeq);
    SortKeeps(facts, IdentityLeq);
    DistinctAnyOrder(services, listed);
    WalkIff(names, ordered, project);
    if Unrepeated(facts) {
      UnrepeatedAnyOrder(facts, ordered);
    }
    if Unrepeated(ordered) {
      UnrepeatedAnyOrder(ordered, facts);
    }
    if Distinct(listed) {
      ServicesExact(services);
      assert forall s :: s in names <==> s in Members(services);
    }
    assert forall i :: 0 <= i < |ordered| ==> ordered[i] in facts;
    hide Unrepeated, Sort, Named;
    ProjectableIs(names, facts, ordered, project);
  }

  lemma ProjectableIs<C, V>(names: map<string, string>, facts: seq<Fact<C>>, ordered: seq<Fact<C>>, project: Projector<C, V>)
    requires forall f :: f in ordered <==> f in facts
    ensures Projectable(names, ordered, project) <==> forall f :: f in facts ==> f.service in names && project(f, names).Some?
  {
    if Projectable(names, ordered, project) {
      forall f | f in facts
        ensures f.service in names && project(f, names).Some?
      {
        var i :| 0 <= i < |ordered| && ordered[i] == f;
      }
    }
    assert forall i :: 0 <= i < |ordered| ==> ordered[i] in facts;
  }
}
