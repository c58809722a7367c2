/** The outbound projection's naming, and the journey of a report: out under neutral names, relinked to the real ones,
    and out again with a follow-up question. */
module OutboundProjection {
  import opened Prelude
  import opened Sorting
  import opened Numerals
  import opened ReportIdentity

  const MAX_SERVICES := 100

  datatype Problem = InventoryInvalid | IdentityInvalid | ValueInvalid | KeyError | ReportInvalid(code: Code)

  /** A brief fact; `content` stands for all of its values. */
  datatype Fact<C> = Fact(id: string, service: string, kind: string, family: string, content: C)

  datatype Clean<V> = Clean(id: string, service: string, kind: string, value: V)

  datatype Mapping = Mapping(services: map<string, string>, observations: map<string, string>)

  datatype Prepared<V> = Prepared(services: seq<string>, observations: seq<Clean<V>>, mapping: Mapping)

  function Identity<C>(f: Fact<C>): Triple {
    (f.service, f.kind, f.family)
  }

  predicate IdentityLeq<C>(a: Fact<C>, b: Fact<C>) {
    TripleLeq(Identity(a), Identity(b))
  }

  function Numbered(prefix: string, n: nat): string {
    prefix + ThreeDigits(n + 1)
  }

  /** The n-th name becomes number n + 1. */
  function Named(prefix: string, xs: seq<string>): map<string, string> {
    if xs == [] then map[] else Named(prefix, xs[..|xs| - 1])[xs[|xs| - 1] := Numbered(prefix, |xs| - 1)]
  }

  lemma NumberedInjective(prefix: string, m: nat, n: nat)
    requires Numbered(prefix, m) == Numbered(prefix, n)
    ensures m == n
  {
    assert Numbered(prefix, m)[|prefix|..] == ThreeDigits(m + 1);
    assert Numbered(prefix, n)[|prefix|..] == ThreeDigits(n + 1);
    ThreeDigitsInjective(m + 1, n + 1);
  }

  lemma {:induction false} NamedAt(prefix: string, xs: seq<string>, i: nat)
    requires Distinct(xs) && i < |xs|
    ensures xs[i] in Named(prefix, xs) && Named(prefix, xs)[xs[i]] == Numbered(prefix, i)
  {
    var n := |xs| - 1;
    if i < n {
      NamedAt(prefix, xs[..n], i);
      assert xs[i] != xs[n];
    }
  }

  lemma {:induction false} NamedKeys(prefix: string, xs: seq<string>)
    ensures Named(prefix, xs).Keys == Members(xs)
  {
    if xs != [] {
      var n := |xs| - 1;
      NamedKeys(prefix, xs[..n]);
      assert xs == xs[..n] + [xs[n]];
      assert Members(xs) == Members(xs[..n]) + {xs[n]};
    }
  }

  /** The names are pairwise different. */
  lemma NamedInjective(prefix: string, xs: seq<string>)
    requires Distinct(xs)
    ensures Injective(Named(prefix, xs))
  {
    NamedKeys(prefix, xs);
    var m := Named(prefix, xs);
    forall a, b | a in m && b in m && m[a] == m[b]
      ensures a == b
    {
      assert a in Members(xs) && b in Members(xs);
      var i :| 0 <= i < |xs| && xs[i] == a;
      var j :| 0 <= j < |xs| && xs[j] == b;
      NamedAt(prefix, xs, i);
      NamedAt(prefix, xs, j);
      NumberedInjective(prefix, i, j);
    }
  }

  // ----- the projection -----

  datatype Walked<V> = Walked(ids: map<string, string>, identities: set<Triple>, clean: seq<Clean<V>>)

  type Projector<!C, +V> = (Fact<C>, map<string, string>) -> Option<V>

  function WalkOne<C, V>(names: map<string, string>, w: Walked<V>, f: Fact<C>, project: Projector<C, V>): Result<Walked<V>, Problem> {
    if f.service !in names || Identity(f) in w.identities || f.id in w.ids then Err(IdentityInvalid)
    else
      var identifier := Numbered("obs-", |w.ids|);
      match project(f, names)
      case None => Err(ValueInvalid)
      case Some(value) =>
        Ok(Walked(w.ids[f.id := identifier], w.identities + {Identity(f)},
                  w.clean + [Clean(identifier, names[f.service], f.kind, value)]))
  }

  function Walk<C, V>(names: map<string, string>, facts: seq<Fact<C>>, project: Projector<C, V>): Result<Walked<V>, Problem> {
    if facts == [] then Ok(Walked(map[], {}, []))
    else
      match Walk(names, facts[..|facts| - 1], project)
      case Err(p) => Err(p)
      case Ok(w) => WalkOne(names, w, facts[|facts| - 1], project)
  }

  /** Services in order, facts in order of service, kind and family. */
  function Prepare<C, V>(services: seq<string>, facts: seq<Fact<C>>, project: Projector<C, V>): Result<Prepared<V>, Problem> {
    var listed := Sort(services, StringLeq);
    if listed == [] || |listed| > MAX_SERVICES || !Distinct(listed) then Err(InventoryInvalid)
    else
      var names := Named("svc-", listed);
      match Walk(names, Sort(facts, IdentityLeq), project)
      case Err(p) => Err(p)
      case Ok(w) =>
        Ok(Prepared(seq(|listed|, i requires 0 <= i < |listed| => Numbered("svc-", i)), w.clean, Mapping(names, w.ids)))
  }

  function IdsOf<C>(facts: seq<Fact<C>>): seq<string> {
    seq(|facts|, i requires 0 <= i < |facts| => facts[i].id)
  }

  ghost predicate DistinctIdentities<C>(facts: seq<Fact<C>>) {
    forall i, j :: 0 <= i < |facts| && 0 <= j < |facts| && Identity(facts[i]) == Identity(facts[j]) ==> i == j
  }

  ghost predicate Projectable<C, V>(names: map<string, string>, facts: seq<Fact<C>>, project: Projector<C, V>) {
    forall i :: 0 <= i < |facts| ==> facts[i].service in names && project(facts[i], names).Some?
  }

  ghost function Identities<C>(facts: seq<Fact<C>>): set<Triple> {
    set f | f in facts :: Identity(f)
  }

  /** The clean fact is the n-th one, under its service's new name. */
  ghost predicate CleanOf<C, V>(names: map<string, string>, f: Fact<C>, n: nat, project: Projector<C, V>, clean: Clean<V>) {
    && f.service in names && project(f, names) == Some(clean.value)
    && clean.id == Numbered("obs-", n) && clean.service == names[f.service] && clean.kind == f.kind
  }

  ghost predicate AllClean<C, V>(names: map<string, string>, facts: seq<Fact<C>>, project: Projector<C, V>, clean: seq<Clean<V>>) {
    |clean| == |facts| && forall i :: 0 <= i < |facts| ==> CleanOf(names, facts[i], i, project, clean[i])
  }

  /** What a finished walk has built. */
  ghost predicate Built<C, V>(names: map<string, string>, facts: seq<Fact<C>>, project: Projector<C, V>, w: Walked<V>) {
    && w.ids == Named("obs-", IdsOf(facts)) && |w.ids| == |facts|
    && w.identities == Identities(facts)
    && AllClean(names, facts, project, w.clean)
  }

  lemma IdsStep<C>(facts: seq<Fact<C>>, f: Fact<C>, ids: map<string, string>)
    requires ids == Named("obs-", IdsOf(facts)) && |ids| == |facts| && f.id !in ids && Distinct(IdsOf(facts))
    ensures ids[f.id := Numbered("obs-", |ids|)] == Named("obs-", IdsOf(facts + [f]))
    ensures |ids[f.id := Numbered("obs-", |ids|)]| == |facts + [f]|
    ensures Distinct(IdsOf(facts + [f]))
  {
    var all := IdsOf(facts + [f]);
    assert all == IdsOf(facts) + [f.id];
    assert all[..|facts|] == IdsOf(facts);
    NamedKeys("obs-", IdsOf(facts));
    assert f.id !in Members(IdsOf(facts));
  }

  lemma IdentitiesStep<C>(facts: seq<Fact<C>>, f: Fact<C>)
    requires Identity(f) !in Identities(facts) && DistinctIdentities(facts)
    ensures Identities(facts + [f]) == Identities(facts) + {Identity(f)} && DistinctIdentities(facts + [f])
  {
    assert forall i :: 0 <= i < |facts| ==> facts[i] in facts && Identity(facts[i]) in Identities(facts);
  }

  /** Identities and identifiers are unrepeated. */
  ghost predicate Unrepeated<C>(facts: seq<Fact<C>>) {
    DistinctIdentities(facts) && Distinct(IdsOf(facts))
  }

  lemma CleanStep<C, V>(names: map<string, string>, facts: seq<Fact<C>>, f: Fact<C>, project: Projector<C, V>,
                        clean: seq<Clean<V>>, last: Clean<V>)
    requires AllClean(names, facts, project, clean) && CleanOf(names, f, |facts|, project, last)
    ensures AllClean(names, facts + [f], project, clean + [last])
  {
  }

  lemma BuiltStep<C, V>(names: map<string, string>, facts: seq<Fact<C>>, f: Fact<C>, project: Projector<C, V>, w: Walked<V>)
    requires Built(names, facts, project, w) && Unrepeated(facts) && WalkOne(names, w, f, project).Ok?
    ensures Built(names, facts + [f], project, WalkOne(names, w, f, project).value) && Unrepeated(facts + [f])
  {
    IdsStep(facts, f, w.ids);
    IdentitiesStep(facts, f);
    var next := WalkOne(names, w, f, project).value;
    CleanStep(names, facts, f, project, w.clean, next.clean[|w.clean|]);
  }

  lemma {:induction false} WalkBuilds<C, V>(names: map<string, string>, facts: seq<Fact<C>>, project: Projector<C, V>)
    requires Walk(names, facts, project).Ok?
    ensures Built(names, facts, project, Walk(names, facts, project).value) && Unrepeated(facts)
  {
    if facts == [] {
      assert Identities(facts) == {};
    } else {
      var n := |facts| - 1;
      WalkBuilds(names, facts[..n], project);
      assert facts == facts[..n] + [facts[n]];
      BuiltStep(names, facts[..n], facts[n], project, Walk(names, facts[..n], project).value);
    }
  }

  lemma BuiltProjectable<C, V>(names: map<string, string>, facts: seq<Fact<C>>, project: Projector<C, V>, w: Walked<V>)
    requires Built(names, facts, project, w)
    ensures Projectable(names, facts, project)
  {
    forall i | 0 <= i < |facts|
      ensures facts[i].service in names && project(facts[i], names).Some?
    {
      assert CleanOf(names, facts[i], i, project, w.clean[i]);
    }
  }

  lemma NextIsNew<C, V>(names: map<string, string>, facts: seq<Fact<C>>, f: Fact<C>, project: Projector<C, V>, w: Walked<V>)
    requires Built(names, facts, project, w) && Unrepeated(facts + [f])
    ensures Identity(f) !in w.identities && f.id !in w.ids
  {
    var all := facts + [f];
    NamedKeys("obs-", IdsOf(facts));
    forall i | 0 <= i < |facts|
      ensures facts[i].id != f.id && Identity(facts[i]) != Identity(f)
    {
      assert all[i] == facts[i] && all[|facts|] == f;
      assert IdsOf(all)[i] != IdsOf(all)[|facts|];
    }
    assert forall i :: 0 <= i < |facts| ==> IdsOf(facts)[i] == facts[i].id;
  }

  lemma UnrepeatedFront<C>(facts: seq<Fact<C>>, f: Fact<C>)
    requires Unrepeated(facts + [f])
    ensures Unrepeated(facts)
  {
    var all := facts + [f];
    assert IdsOf(all)[..|facts|] == IdsOf(facts);
    assert forall i :: 0 <= i < |facts| ==> all[i] == facts[i];
  }

  lemma {:induction false} WalkSucceeds<C, V>(names: map<string, string>, facts: seq<Fact<C>>, project: Projector<C, V>)
    requires Unrepeated(facts) && Projectable(names, facts, project)
    ensures Walk(names, facts, project).Ok?
  {
    if facts != [] {
      var n := |facts| - 1;
      assert facts == facts[..n] + [facts[n]];
      UnrepeatedFront(facts[..n], facts[n]);
      WalkSucceeds(names, facts[..n], project);
      WalkBuilds(names, facts[..n], project);
      NextIsNew(names, facts[..n], facts[n], project, Walk(names, facts[..n], project).value);
      assert facts[n].service in names && project(facts[n], names).Some?;
    }
  }

  /** The walk succeeds exactly when no identity and no identifier repeats, every service is known and every fact's
      values can be projected. */
  lemma WalkIff<C, V>(names: map<string, string>, facts: seq<Fact<C>>, project: Projector<C, V>)
    ensures Walk(names, facts, project).Ok? <==> Unrepeated(facts) && Projectable(names, facts, project)
  {
    if Walk(names, facts, project).Ok? {
      WalkBuilds(names, facts, project);
      BuiltProjectable(names, facts, project, Walk(names, facts, project).value);
    }
    if Unrepeated(facts) && Projectable(names, facts, project) {
      WalkSucceeds(names, facts, project);
    }
  }

  lemma {:induction false} WalkStaysFailed<C, V>(names: map<string, string>, facts: seq<Fact<C>>, project: Projector<C, V>, n: nat)
    requires n <= |facts| && Walk(names, facts[..n], project).Err?
    ensures Walk(names, facts, project) == Walk(names, facts[..n], project)
  {
    if n < |facts| {
      var m := |facts| - 1;
      assert facts[..m][..n] == facts[..n];
      WalkStaysFailed(names, facts[..m], project, n);
    } else {
      assert facts[..n] == facts;
    }
  }

  /** The projection's loop over the ordered facts. */
  method ProjectAll<C, V>(names: map<string, string>, facts: seq<Fact<C>>, project: Projector<C, V>)
    returns (r: Result<Walked<V>, Problem>)
    ensures r == Walk(names, facts, project)
  {
    var ids: map<string, string>, identities: set<Triple>, clean: seq<Clean<V>> := map[], {}, [];
    for n := 0 to |facts|
      invariant Walk(names, facts[..n], project) == Ok(Walked(ids, identities, clean))
    {
      assert facts[..n + 1][..n] == facts[..n];
      var fact := facts[n];
      if fact.service !in names || Identity(fact) in identities || fact.id in ids {
        WalkStaysFailed(names, facts, project, n + 1);
        return Err(IdentityInvalid);
      }
      var identifier := Numbered("obs-", |ids|);
      var value := project(fact, names);
      if value.None? {
        WalkStaysFailed(names, facts, project, n + 1);
        return Err(ValueInvalid);
      }
      identities := identities + {Identity(fact)};
      ids := ids[fact.id := identifier];
      clean := clean + [Clean(identifier, names[fact.service], fact.kind, value.value)];
    }
    assert facts[..|facts|] == facts;
    r := Ok(Walked(ids, identities, clean));
  }

  // ----- the name maps -----

  lemma IdentityOrder<C(!new)>()
    ensures TotalPreorder<Fact<C>>(IdentityLeq)
  {
    forall a: Fact<C>, b: Fact<C>
      ensures IdentityLeq(a, b) || IdentityLeq(b, a)
    {
      TripleTotal(Identity(a), Identity(b));
    }
    forall a: Fact<C>, b: Fact<C>, c: Fact<C> | IdentityLeq(a, b) && IdentityLeq(b, c)
      ensures IdentityLeq(a, c)
    {
      TripleTransitive(Identity(a), Identity(b), Identity(c));
    }
  }

  lemma IdsMembers<C>(facts: seq<Fact<C>>)
    ensures Members(IdsOf(facts)) == set f | f in facts :: f.id
  {
    assert forall i :: 0 <= i < |facts| ==> IdsOf(facts)[i] == facts[i].id && facts[i] in facts;
    forall f | f in facts
      ensures f.id in IdsOf(facts)
    {
      var i :| 0 <= i < |facts| && facts[i] == f;
      assert IdsOf(facts)[i] == f.id;
    }
  }

  lemma ServicesExact(services: seq<string>)
    requires Distinct(Sort(services, StringLeq))
    ensures Injective(Named("svc-", Sort(services, StringLeq)))
    ensures Named("svc-", Sort(services, StringLeq)).Keys == Members(services)
  {
    SortKeeps(services, StringLeq);
    NamedInjective("svc-", Sort(services, StringLeq));
    NamedKeys("svc-", Sort(services, StringLeq));
  }

  lemma ObservationsExact<C>(facts: seq<Fact<C>>)
    requires Distinct(IdsOf(Sort(facts, IdentityLeq)))
    ensures Injective(Named("obs-", IdsOf(Sort(facts, IdentityLeq))))
    ensures Named("obs-", IdsOf(Sort(facts, IdentityLeq))).Keys == set f | f in facts :: f.id
  {
    SortKeeps(facts, IdentityLeq);
    NamedInjective("obs-", IdsOf(Sort(facts, IdentityLeq)));
    NamedKeys("obs-", IdsOf(Sort(facts, IdentityLeq)));
    IdsMembers(Sort(facts, IdentityLeq));
  }

  /** Both maps are injective and name exactly the services and the facts of the snapshot. */
  lemma MapsAreExact<C, V>(services: seq<string>, facts: seq<Fact<C>>, project: Projector<C, V>)
    requires Prepare(services, facts, project).Ok?
    ensures var p := Prepare(services, facts, project).value;
            && Injective(p.mapping.services) && Injective(p.mapping.observations)
            && p.mapping.services.Keys == Members(services)
            && p.mapping.observations.Keys == (set f | f in facts :: f.id)
  {
    ServicesExact(services);
    WalkBuilds(Named("svc-", Sort(services, StringLeq)), Sort(facts, IdentityLeq), project);
    ObservationsExact(facts);
  }

  lemma NamedValues(prefix: string, xs: seq<string>)
    requires Distinct(xs)
    ensures Named(prefix, xs).Values == set i | 0 <= i < |xs| :: Numbered(prefix, i)
  {
    var m := Named(prefix, xs);
    NamedKeys(prefix, xs);
    forall v | v in m.Values
      ensures exists i :: 0 <= i < |xs| && v == Numbered(prefix, i)
    {
      var k :| k in m && m[k] == v;
      assert k in Members(xs);
      var i :| 0 <= i < |xs| && xs[i] == k;
      NamedAt(prefix, xs, i);
    }
    forall i | 0 <= i < |xs|
      ensures Numbered(prefix, i) in m.Values
    {
      NamedAt(prefix, xs, i);
      assert m[xs[i]] == Numbered(prefix, i);
    }
  }

  function CleanIds<V>(p: Prepared<V>): seq<string> {
    seq(|p.observations|, i requires 0 <= i < |p.observations| => p.observations[i].id)
  }

  /** The names the outbound catalog uses are exactly the values of the maps. */
  lemma CatalogNames<C, V>(services: seq<string>, facts: seq<Fact<C>>, project: Projector<C, V>)
    requires Prepare(services, facts, project).Ok?
    ensures var p := Prepare(services, facts, project).value;
            Members(p.services) == p.mapping.services.Values && Members(CleanIds(p)) == p.mapping.observations.Values
  {
    var p := Prepare(services, facts, project).value;
    var listed, ordered := Sort(services, StringLeq), Sort(facts, IdentityLeq);
    NamedValues("svc-", listed);
    NumberedMembers("svc-", p.services);
    WalkBuilds(Named("svc-", listed), ordered, project);
    NamedValues("obs-", IdsOf(ordered));
    forall i | 0 <= i < |ordered|
      ensures CleanIds(p)[i] == Numbered("obs-", i)
    {
      assert CleanOf(Named("svc-", listed), ordered[i], i, project, p.observations[i]);
    }
    NumberedMembers("obs-", CleanIds(p));
  }

  lemma NumberedMembers(prefix: string, s: seq<string>)
    requires forall i :: 0 <= i < |s| ==> s[i] == Numbered(prefix, i)
    ensures Members(s) == set i | 0 <= i < |s| :: Numbered(prefix, i)
  {
    forall i | 0 <= i < |s|
      ensures Numbered(prefix, i) in s
    {
      assert s[i] == Numbered(prefix, i);
    }
  }

  /** The order in which services and observations are stored does not matter. */
  lemma OrderIrrelevant<C(!new), V>(services: seq<string>, facts: seq<Fact<C>>, services': seq<string>, facts': seq<Fact<C>>,
                                    project: Projector<C, V>)
    requires Prepare(services, facts, project).Ok?
    requires multiset(services') == multiset(services) && multiset(facts') == multiset(facts)
    ensures Prepare(services', facts', project) == Prepare(services, facts, project)
  {
    var ordered := Sort(facts, IdentityLeq);
    StringOrder();
    SortIgnoresOrder(services, services', StringLeq);
    WalkBuilds(Named("svc-", Sort(services, StringLeq)), ordered, project);
    SortKeeps(facts, IdentityLeq);
    IdentityOrder<C>();
    forall x, y | x in facts && y in facts && IdentityLeq(x, y) && IdentityLeq(y, x)
      ensures x == y
    {
      TripleTotal(Identity(x), Identity(y));
      assert x in ordered && y in ordered;
      var i :| 0 <= i < |ordered| && ordered[i] == x;
      var j :| 0 <= j < |ordered| && ordered[j] == y;
      assert Identity(ordered[i]) == Identity(ordered[j]);
    }
    SortIgnoresOrder(facts, facts', IdentityLeq);
  }

  /** Neither does the level of detail: two projections of one snapshot use the same names. */
  lemma ModeIrrelevant<C, V, W>(services: seq<string>, facts: seq<Fact<C>>, brief: Projector<C, V>, detailed: Projector<C, W>)
    requires Prepare(services, facts, brief).Ok? && Prepare(services, facts, detailed).Ok?
    ensures Prepare(services, facts, brief).value.mapping == Prepare(services, facts, detailed).value.mapping
    ensures Prepare(services, facts, brief).value.services == Prepare(services, facts, detailed).value.services
    ensures CleanIds(Prepare(services, facts, brief).value) == CleanIds(Prepare(services, facts, detailed).value)
  {
    var names := Named("svc-", Sort(services, StringLeq));
    var ordered := Sort(facts, IdentityLeq);
    WalkBuilds(names, ordered, brief);
    WalkBuilds(names, ordered, detailed);
    forall i | 0 <= i < |ordered|
      ensures CleanIds(Prepare(services, facts, brief).value)[i] == CleanIds(Prepare(services, facts, detailed).value)[i]
    {
      assert CleanOf(names, ordered[i], i, brief, Prepare(services, facts, brief).value.observations[i]);
      assert CleanOf(names, ordered[i], i, detailed, Prepare(services, facts, detailed).value.observations[i]);
    }
  }

  // ----- the journey of a report -----

  /** Relinks a report to the real names. */
  function Restore(mapping: Mapping, report: Report): Result<Report, Problem>
    requires Injective(mapping.services) && Injective(mapping.observations)
  {
    var names, ids := Reverse(mapping.services), Reverse(mapping.observations);
    if Covers(names, ids, report) then Ok(Relabel(names, ids, report)) else Err(KeyError)
  }

  /** A report that is valid for the outbound catalog can be restored; the restored report is valid for the snapshot's
      own names; and relabelling it again gives back the very same report. */
  lemma RestoreRoundTrip<C, V>(services: seq<string>, facts: seq<Fact<C>>, project: Projector<C, V>, report: Report)
    requires Prepare(services, facts, project).Ok?
    requires var p := Prepare(services, facts, project).value;
             Validate(report, Members(p.services), Members(CleanIds(p))).None?
    ensures var p := Prepare(services, facts, project).value;
            && Injective(p.mapping.services) && Injective(p.mapping.observations)
            && Restore(p.mapping, report).Ok?
            && var restored := Restore(p.mapping, report).value;
            && Validate(restored, Members(services), (set f | f in facts :: f.id)).None?
            && Covers(p.mapping.services, p.mapping.observations, restored)
            && Relabel(p.mapping.services, p.mapping.observations, restored) == report
  {
    var p := Prepare(services, facts, project).value;
    MapsAreExact(services, facts, project);
    CatalogNames(services, facts, project);
    ReverseFacts(p.mapping.services);
    ReverseFacts(p.mapping.observations);
    ValidateIff(report, Members(p.services), Members(CleanIds(p)));
    RelabelKeepsValid(Reverse(p.mapping.services), Reverse(p.mapping.observations), report, Members(p.services), Members(CleanIds(p)));
    RelabelBack(p.mapping.services, p.mapping.observations, report);
    ValidateIff(Restore(p.mapping, report).value, Members(services), (set f | f in facts :: f.id));
  }

  // ----- earlier turns of a discussion -----

  /** A stored turn; its report carries the real names. */
  datatype Turn = Turn(completed: bool, report: Option<Report>, question: string, mode: string)

  datatype Said = Said(question: string, report: Report, mode: string)

  function Retell(mapping: Mapping, services: set<string>, observations: set<string>, rewrite: string -> string, turn: Turn):
    Result<seq<Said>, Problem>
  {
    if !turn.completed || turn.report.None? then Ok([])
    else if !Covers(mapping.services, mapping.observations, turn.report.value) then Err(KeyError)
    else
      var report := Relabel(mapping.services, mapping.observations, turn.report.value);
      match Validate(report, services, observations)
      case Some(code) => Err(ReportInvalid(code))
      case None => Ok([Said(rewrite(turn.question), report, turn.mode)])
  }

  function RetellAll(mapping: Mapping, services: set<string>, observations: set<string>, rewrite: string -> string,
                     turns: seq<Turn>): Result<seq<Said>, Problem>
  {
    if turns == [] then Ok([])
    else
      match RetellAll(mapping, services, observations, rewrite, turns[..|turns| - 1])
      case Err(p) => Err(p)
      case Ok(said) =>
        match Retell(mapping, services, observations, rewrite, turns[|turns| - 1])
        case Err(p) => Err(p)
        case Ok(more) => Ok(said + more)
  }

  function LastTwo<T>(s: seq<T>): (r: seq<T>)
    ensures |r| == Min(2, |s|) && forall i :: 0 <= i < |r| ==> r[i] == s[|s| - |r| + i]
  {
    if |s| <= 2 then s else s[|s| - 2..]
  }

  lemma {:induction false} RetellStaysFailed(mapping: Mapping, services: set<string>, observations: set<string>,
                                             rewrite: string -> string, turns: seq<Turn>, n: nat)
    requires n <= |turns| && RetellAll(mapping, services, observations, rewrite, turns[..n]).Err?
    ensures RetellAll(mapping, services, observations, rewrite, turns) == RetellAll(mapping, services, observations, rewrite, turns[..n])
  {
    if n < |turns| {
      var m := |turns| - 1;
      assert turns[..m][..n] == turns[..n];
      RetellStaysFailed(mapping, services, observations, rewrite, turns[..m], n);
    } else {
      assert turns[..n] == turns;
    }
  }

  /** At most the last two completed turns go out with a follow-up question. */
  method PreviousDiscussion(mapping: Mapping, services: set<string>, observations: set<string>, rewrite: string -> string,
                            turns: seq<Turn>) returns (r: Result<seq<Said>, Problem>)
    ensures var all := RetellAll(mapping, services, observations, rewrite, turns);
            r == if all.Ok? then Ok(LastTwo(all.value)) else all
  {
    hide Relabel, Covers, Validate, LastTwo;
    var result: seq<Said> := [];
    for n := 0 to |turns|
      invariant RetellAll(mapping, services, observations, rewrite, turns[..n]) == Ok(result)
    {
      assert turns[..n + 1][..n] == turns[..n];
      var turn := turns[n];
      if turn.completed && turn.report.Some? {
        if !Covers(mapping.services, mapping.observations, turn.report.value) {
          RetellStaysFailed(mapping, services, observations, rewrite, turns, n + 1);
          return Err(KeyError);
        }
        var report := Relabel(mapping.services, mapping.observations, turn.report.value);
        var complaint := Validate(report, services, observations);
        if complaint.Some? {
          RetellStaysFailed(mapping, services, observations, rewrite, turns, n + 1);
          return Err(ReportInvalid(complaint.value));
        }
        result := result + [Said(rewrite(turn.question), report, turn.mode)];
      } else {
        assert result + [] == result;
      }
    }
    assert turns[..|turns|] == turns;
    r := Ok(LastTwo(result));
  }

  /** What the provider said in a turn, before it was relinked and stored. */
  datatype Past = Past(completed: bool, said: Option<Report>, question: string, mode: string)

  function Store(mapping: Mapping, past: Past): Turn
    requires Injective(mapping.services) && Injective(mapping.observations)
  {
    Turn(past.completed,
         match past.said
         case None => None
         case Some(report) => (match Restore(mapping, report) case Ok(restored) => Some(restored) case Err(_) => None),
         past.question, past.mode)
  }

  function Recall(rewrite: string -> string, past: Past): seq<Said> {
    if past.completed && past.said.Some? then [Said(rewrite(past.question), past.said.value, past.mode)] else []
  }

  lemma RetellsOne<C, V>(services: seq<string>, facts: seq<Fact<C>>, project: Projector<C, V>,
                         rewrite: string -> string, past: Past)
    requires Prepare(services, facts, project).Ok?
    requires var p := Prepare(services, facts, project).value;
             past.said.Some? ==> Validate(past.said.value, Members(p.services), Members(CleanIds(p))).None?
    ensures var p := Prepare(services, facts, project).value;
            && Injective(p.mapping.services) && Injective(p.mapping.observations)
            && Retell(p.mapping, Members(p.services), Members(CleanIds(p)), rewrite, Store(p.mapping, past))
               == Ok(Recall(rewrite, past))
  {
    MapsAreExact(services, facts, project);
    if past.said.Some? {
      RestoreRoundTrip(services, facts, project, past.said.value);
    }
  }

  /** A follow-up repeats every earlier report exactly as the provider wrote it. */
  lemma {:induction false} DiscussionIsVerbatim<C, V>(services: seq<string>, facts: seq<Fact<C>>, project: Projector<C, V>,
                                                      rewrite: string -> string, pasts: seq<Past>)
    requires Prepare(services, facts, project).Ok?
    requires var p := Prepare(services, facts, project).value;
             forall i :: 0 <= i < |pasts| && pasts[i].said.Some?
               ==> Validate(pasts[i].said.value, Members(p.services), Members(CleanIds(p))).None?
    ensures var p := Prepare(services, facts, project).value;
            && Injective(p.mapping.services) && Injective(p.mapping.observations)
            && var turns := seq(|pasts|, i requires 0 <= i < |pasts| => Store(p.mapping, pasts[i]));
               RetellAll(p.mapping, Members(p.services), Members(CleanIds(p)), rewrite, turns)
               == Ok(FlatMap((past: Past) => Recall(rewrite, past), pasts))
  {
    hide Prepare, Retell, Recall, Validate, Store, Injective, CleanIds;
    MapsAreExact(services, facts, project);
    if pasts != [] {
      var p := Prepare(services, facts, project).value;
      var n := |pasts| - 1;
      var turns := seq(|pasts|, i requires 0 <= i < |pasts| => Store(p.mapping, pasts[i]));
      DiscussionIsVerbatim(services, facts, project, rewrite, pasts[..n]);
      assert turns[..n] == seq(n, i requires 0 <= i < n => Store(p.mapping, pasts[..n][i]));
      RetellsOne(services, facts, project, rewrite, pasts[n]);
    }
  }
}
