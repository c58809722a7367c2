/** What relabelling and validation mean: a relabelled report is the same report with its names replaced, place by place,
    and a complaint names a defect the report has. */
module ReportMeaning {
  import opened Prelude
  import opened ReportIdentity

  // ----- the same report under other names -----

  /** Place by place, each name by its new one. */
  ghost predicate Replaced(m: map<string, string>, xs: seq<string>, ys: seq<string>) {
    |xs| == |ys| && forall i :: 0 <= i < |xs| ==> xs[i] in m && ys[i] == m[xs[i]]
  }

  ghost predicate CheckReplaced(ids: map<string, string>, a: Check, b: Check) {
    a.action == b.action && a.expected == b.expected && Replaced(ids, a.evidence, b.evidence)
  }

  ghost predicate ChecksReplaced(ids: map<string, string>, a: seq<Check>, b: seq<Check>) {
    |a| == |b| && forall i :: 0 <= i < |a| ==> CheckReplaced(ids, a[i], b[i])
  }

  ghost predicate HypothesisReplaced(names: map<string, string>, ids: map<string, string>, a: Hypothesis, b: Hypothesis) {
    && a.service in names && b.service == names[a.service] && a.statement == b.statement && a.unknowns == b.unknowns
    && Replaced(ids, a.supporting, b.supporting) && Replaced(ids, a.contradicting, b.contradicting)
    && ChecksReplaced(ids, a.checks, b.checks)
  }

  ghost predicate ProposalReplaced(names: map<string, string>, ids: map<string, string>, a: Proposal, b: Proposal) {
    && a.service in names && b.service == names[a.service]
    && a.purpose == b.purpose && a.title == b.title && a.rationale == b.rationale && a.plan == b.plan
    && Replaced(ids, a.evidence, b.evidence)
  }

  ghost predicate ReportReplaced(names: map<string, string>, ids: map<string, string>, a: Report, b: Report) {
    && a.summary == b.summary && a.gaps == b.gaps && a.limitations == b.limitations
    && |a.hypotheses| == |b.hypotheses|
    && (forall i :: 0 <= i < |a.hypotheses| ==> HypothesisReplaced(names, ids, a.hypotheses[i], b.hypotheses[i]))
    && (a.proposals.Some? <==> b.proposals.Some?)
    && (a.proposals.Some? ==>
          && |a.proposals.value| == |b.proposals.value|
          && forall i :: 0 <= i < |a.proposals.value| ==> ProposalReplaced(names, ids, a.proposals.value[i], b.proposals.value[i]))
  }

  lemma RenameIff(m: map<string, string>, xs: seq<string>, ys: seq<string>)
    ensures Known(m, xs) && Rename(m, xs) == ys <==> Replaced(m, xs, ys)
  {
    if Replaced(m, xs, ys) {
      assert Rename(m, xs) == ys;
    }
  }

  lemma CheckIff(ids: map<string, string>, a: Check, b: Check)
    ensures Known(ids, a.evidence) && RelabelCheck(ids, a) == b <==> CheckReplaced(ids, a, b)
  {
    RenameIff(ids, a.evidence, b.evidence);
  }

  lemma ChecksIff(ids: map<string, string>, a: seq<Check>, b: seq<Check>)
    ensures CoversChecks(ids, a) && |a| == |b| && (forall i :: 0 <= i < |a| ==> RelabelCheck(ids, a[i]) == b[i])
            <==> ChecksReplaced(ids, a, b)
  {
    forall i | 0 <= i < |a| && |a| == |b|
      ensures Known(ids, a[i].evidence) && RelabelCheck(ids, a[i]) == b[i] <==> CheckReplaced(ids, a[i], b[i])
    {
      CheckIff(ids, a[i], b[i]);
    }
    hide RelabelCheck, CheckReplaced, Known;
  }

  lemma HypothesisIff(names: map<string, string>, ids: map<string, string>, a: Hypothesis, b: Hypothesis)
    ensures CoversHypothesis(names, ids, a) && RelabelHypothesis(names, ids, a) == b <==> HypothesisReplaced(names, ids, a, b)
  {
    hide Rename, Replaced, Known;
    RenameIff(ids, a.supporting, b.supporting);
    RenameIff(ids, a.contradicting, b.contradicting);
    ChecksIff(ids, a.checks, b.checks);
    if CoversHypothesis(names, ids, a) {
      var c := RelabelHypothesis(names, ids, a);
      assert c.checks == b.checks <==> |a.checks| == |b.checks| && forall i :: 0 <= i < |a.checks| ==> RelabelCheck(ids, a.checks[i]) == b.checks[i];
    }
  }

  lemma ProposalIff(names: map<string, string>, ids: map<string, string>, a: Proposal, b: Proposal)
    ensures CoversProposal(names, ids, a) && RelabelProposal(names, ids, a) == b <==> ProposalReplaced(names, ids, a, b)
  {
    RenameIff(ids, a.evidence, b.evidence);
  }

  /** A report can be relabelled, and this is the result, exactly when this one is the same report with every name
      replaced in its place. */
  lemma RelabelIff(names: map<string, string>, ids: map<string, string>, a: Report, b: Report)
    ensures Covers(names, ids, a) && Relabel(names, ids, a) == b <==> ReportReplaced(names, ids, a, b)
  {
    hide RelabelHypothesis, HypothesisReplaced, CoversHypothesis, RelabelProposal, ProposalReplaced, CoversProposal;
    forall i | 0 <= i < |a.hypotheses| && |a.hypotheses| == |b.hypotheses|
      ensures CoversHypothesis(names, ids, a.hypotheses[i]) && RelabelHypothesis(names, ids, a.hypotheses[i]) == b.hypotheses[i]
              <==> HypothesisReplaced(names, ids, a.hypotheses[i], b.hypotheses[i])
    {
      HypothesisIff(names, ids, a.hypotheses[i], b.hypotheses[i]);
    }
    var ps, qs := Proposals(a), Proposals(b);
    forall i | 0 <= i < |ps| && |ps| == |qs|
      ensures CoversProposal(names, ids, ps[i]) && RelabelProposal(names, ids, ps[i]) == qs[i]
              <==> ProposalReplaced(names, ids, ps[i], qs[i])
    {
      ProposalIff(names, ids, ps[i], qs[i]);
    }
    if Covers(names, ids, a) {
      var c := Relabel(names, ids, a);
      assert c.hypotheses == b.hypotheses
        <==> |a.hypotheses| == |b.hypotheses|
             && forall i :: 0 <= i < |a.hypotheses| ==> RelabelHypothesis(names, ids, a.hypotheses[i]) == b.hypotheses[i];
      assert Proposals(c) == qs <==> |ps| == |qs| && forall i :: 0 <= i < |ps| ==> RelabelProposal(names, ids, ps[i]) == qs[i];
    }
  }

  // ----- what a complaint means -----

  /** What must hold, and the complaint when it does not. */
  type Test = (bool, Code)

  function FirstFailing(tests: seq<Test>): Option<Code> {
    if tests == [] then None else if tests[0].0 then FirstFailing(tests[1..]) else Some(tests[0].1)
  }

  /** Not blank, and not too long. */
  predicate TextFine(s: string) {
    |s| <= 1200 && exists c :: c in s && !Space(c)
  }

  /** At most a dozen observations of the snapshot, none of them twice. */
  predicate RefsFine(refs: seq<string>, observations: set<string>) {
    && |refs| <= 12 && (forall x :: x in refs ==> x in observations)
    && forall i, j :: 0 <= i < |refs| && 0 <= j < |refs| && refs[i] == refs[j] ==> i == j
  }

  function TextTest(s: string): Test {
    (TextFine(s), TextInvalid)
  }

  function TextTests(texts: seq<string>): seq<Test> {
    [(|texts| <= 8, ListInvalid)] + FlatMap(s => [TextTest(s)], texts)
  }

  function CheckTests(observations: set<string>): Check -> seq<Test> {
    (c: Check) => [TextTest(c.action), TextTest(c.expected), (RefsFine(c.evidence, observations), EvidenceOutside)]
  }

  function HypothesisTests(services: set<string>, observations: set<string>): Hypothesis -> seq<Test> {
    (h: Hypothesis) =>
      [(h.service in services, ServiceOutside), TextTest(h.statement),
       (RefsFine(h.supporting, observations), EvidenceOutside), (RefsFine(h.contradicting, observations), EvidenceOutside),
       (forall x :: x in h.supporting ==> x !in h.contradicting, Conflicting),
       (|h.supporting| > 0 || |h.unknowns| > 0, Ungrounded)]
      + TextTests(h.unknowns) + [(|h.checks| <= 4, ChecksInvalid)] + FlatMap(CheckTests(observations), h.checks)
  }

  function ProposalTests(services: set<string>, observations: set<string>): Proposal -> seq<Test> {
    (p: Proposal) =>
      [(p.service in services, ServiceOutside),
       (p.purpose == "mitigation" || p.purpose == "corrective" || p.purpose == "preventive", PurposeInvalid),
       TextTest(p.title), TextTest(p.rationale), TextTest(p.plan),
       (RefsFine(p.evidence, observations), EvidenceOutside), (|p.evidence| > 0, ActionEvidence)]
  }

  /** All that is demanded of a report, in the order in which it is looked at. */
  function ReportTests(r: Report, services: set<string>, observations: set<string>): seq<Test> {
    [TextTest(r.summary)] + TextTests(r.gaps) + TextTests(r.limitations) + [(|r.hypotheses| <= 5, HypothesesInvalid)]
    + FlatMap(HypothesisTests(services, observations), r.hypotheses)
    + [(|Proposals(r)| <= 2, ActionBudget)] + FlatMap(ProposalTests(services, observations), Proposals(r))
  }

  lemma {:induction false} FirstOf(a: seq<Test>, b: seq<Test>)
    ensures FirstFailing(a + b) == First(FirstFailing(a), FirstFailing(b))
  {
    if a == [] {
      assert a + b == b;
    } else {
      FirstOf(a[1..], b);
      assert (a + b)[1..] == a[1..] + b;
    }
  }

  lemma FirstOne(ok: bool, code: Code)
    ensures FirstFailing([(ok, code)]) == Unless(ok, code)
  {
    assert [(ok, code)][1..] == [];
  }

  lemma FirstCons(ok: bool, code: Code, rest: seq<Test>)
    ensures FirstFailing([(ok, code)] + rest) == First(Unless(ok, code), FirstFailing(rest))
  {
    FirstOne(ok, code);
    FirstOf([(ok, code)], rest);
  }

  lemma TextIff(s: string)
    ensures TextOk(s) == TextFine(s)
  {
    if i :| 0 <= i < |s| && !Space(s[i]) {
      assert s[i] in s;
    }
  }

  lemma RefsIff(refs: seq<string>, observations: set<string>)
    ensures RefsOk(refs, observations) == RefsFine(refs, observations)
  {
    if RefsOk(refs, observations) {
      forall i, j | 0 <= i < |refs| && 0 <= j < |refs| && i != j
        ensures refs[i] != refs[j]
      {
        assert i < j || j < i;
      }
    }
  }

  lemma ApartIff(a: seq<string>, b: seq<string>)
    ensures ReportIdentity.Apart(a, b) <==> forall x :: x in a ==> x !in b
  {
    if forall x :: x in a ==> x !in b {
      forall i, j | 0 <= i < |a| && 0 <= j < |b|
        ensures a[i] != b[j]
      {
        assert a[i] in a;
      }
    }
  }

  lemma {:induction false} FirstText(texts: seq<string>)
    ensures FirstFailing(FlatMap(s => [TextTest(s)], texts))
            == if forall i :: 0 <= i < |texts| ==> TextOk(texts[i]) then None else Some(TextInvalid)
  {
    if texts != [] {
      hide TextOk, TextFine, FirstFailing;
      var n := |texts| - 1;
      FirstText(texts[..n]);
      TextIff(texts[n]);
      FirstOf(FlatMap(s => [TextTest(s)], texts[..n]), [TextTest(texts[n])]);
      FirstOne(TextFine(texts[n]), TextInvalid);
      assert forall i :: 0 <= i < n ==> texts[..n][i] == texts[i];
    }
  }

  lemma TextsFirst(texts: seq<string>)
    ensures TextsVerdict(texts) == FirstFailing(TextTests(texts))
  {
    hide TextOk, TextFine, FirstFailing;
    FirstText(texts);
    FirstCons(|texts| <= 8, ListInvalid, FlatMap(s => [TextTest(s)], texts));
  }

  lemma CheckFirst(c: Check, observations: set<string>)
    ensures CheckVerdict(c, observations) == FirstFailing(CheckTests(observations)(c))
  {
    TextIff(c.action);
    TextIff(c.expected);
    RefsIff(c.evidence, observations);
    hide TextOk, TextFine, RefsOk, RefsFine;
    var tests := CheckTests(observations)(c);
    assert tests[1..] == [TextTest(c.expected), (RefsFine(c.evidence, observations), EvidenceOutside)];
    assert tests[1..][1..] == [(RefsFine(c.evidence, observations), EvidenceOutside)];
    FirstOne(RefsFine(c.evidence, observations), EvidenceOutside);
  }

  lemma {:induction false} ChecksFirst(cs: seq<Check>, observations: set<string>)
    ensures ChecksVerdict(cs, observations) == FirstFailing(FlatMap(CheckTests(observations), cs))
  {
    if cs != [] {
      hide FirstFailing, CheckVerdict, CheckTests;
      ChecksFirst(cs[1..], observations);
      CheckFirst(cs[0], observations);
      Unroll(CheckTests(observations), cs);
    }
  }

  lemma Unroll<T>(tests: T -> seq<Test>, s: seq<T>)
    requires s != []
    ensures FirstFailing(FlatMap(tests, s)) == First(FirstFailing(tests(s[0])), FirstFailing(FlatMap(tests, s[1..])))
  {
    assert s == [s[0]] + s[1..];
    FlatMapAppend(tests, [s[0]], s[1..]);
    FlatMapOne(tests, s[0]);
    FirstOf(tests(s[0]), FlatMap(tests, s[1..]));
  }

  lemma HypothesisFirst(h: Hypothesis, services: set<string>, observations: set<string>)
    ensures HypothesisVerdict(h, services, observations) == FirstFailing(HypothesisTests(services, observations)(h))
  {
    TextIff(h.statement);
    RefsIff(h.supporting, observations);
    RefsIff(h.contradicting, observations);
    ApartIff(h.supporting, h.contradicting);
    TextsFirst(h.unknowns);
    ChecksFirst(h.checks, observations);
    hide TextOk, TextFine, RefsOk, RefsFine, ReportIdentity.Apart, FirstFailing, TextTests, TextsVerdict, ChecksVerdict, CheckTests;
    HypothesisTail(h, observations);
    var disjoint := forall x :: x in h.supporting ==> x !in h.contradicting;
    var tail := TextTests(h.unknowns) + ([(|h.checks| <= 4, ChecksInvalid)] + FlatMap(CheckTests(observations), h.checks));
    var e := [(|h.supporting| > 0 || |h.unknowns| > 0, Ungrounded)] + tail;
    var d := [(disjoint, Conflicting)] + e;
    var c := [(RefsFine(h.contradicting, observations), EvidenceOutside)] + d;
    var b := [(RefsFine(h.supporting, observations), EvidenceOutside)] + c;
    var a := [TextTest(h.statement)] + b;
    FirstCons(|h.supporting| > 0 || |h.unknowns| > 0, Ungrounded, tail);
    FirstCons(disjoint, Conflicting, e);
    FirstCons(RefsFine(h.contradicting, observations), EvidenceOutside, d);
    FirstCons(RefsFine(h.supporting, observations), EvidenceOutside, c);
    FirstCons(TextFine(h.statement), TextInvalid, b);
    FirstCons(h.service in services, ServiceOutside, a);
    HypothesisParts(h, services, observations);
  }

  lemma HypothesisParts(h: Hypothesis, services: set<string>, observations: set<string>)
    ensures HypothesisTests(services, observations)(h)
            == [(h.service in services, ServiceOutside)]
               + ([TextTest(h.statement)]
               + ([(RefsFine(h.supporting, observations), EvidenceOutside)]
               + ([(RefsFine(h.contradicting, observations), EvidenceOutside)]
               + ([(forall x :: x in h.supporting ==> x !in h.contradicting, Conflicting)]
               + ([(|h.supporting| > 0 || |h.unknowns| > 0, Ungrounded)]
               + (TextTests(h.unknowns)
               + ([(|h.checks| <= 4, ChecksInvalid)] + FlatMap(CheckTests(observations), h.checks))))))))
  {
    hide TextTest, RefsFine, TextTests, CheckTests;
  }

  lemma HypothesisTail(h: Hypothesis, observations: set<string>)
    ensures FirstFailing(TextTests(h.unknowns) + ([(|h.checks| <= 4, ChecksInvalid)] + FlatMap(CheckTests(observations), h.checks)))
            == First(FirstFailing(TextTests(h.unknowns)),
               First(Unless(|h.checks| <= 4, ChecksInvalid), FirstFailing(FlatMap(CheckTests(observations), h.checks))))
  {
    hide FirstFailing, TextTests, CheckTests;
    var checks := FlatMap(CheckTests(observations), h.checks);
    FirstCons(|h.checks| <= 4, ChecksInvalid, checks);
    FirstOf(TextTests(h.unknowns), [(|h.checks| <= 4, ChecksInvalid)] + checks);
  }

  lemma {:induction false} HypothesesFirst(hs: seq<Hypothesis>, services: set<string>, observations: set<string>)
    ensures HypothesesVerdict(hs, services, observations) == FirstFailing(FlatMap(HypothesisTests(services, observations), hs))
  {
    if hs != [] {
      hide FirstFailing, HypothesisVerdict, HypothesisTests;
      HypothesesFirst(hs[1..], services, observations);
      HypothesisFirst(hs[0], services, observations);
      Unroll(HypothesisTests(services, observations), hs);
    }
  }

  lemma ProposalFirst(p: Proposal, services: set<string>, observations: set<string>)
    ensures ProposalVerdict(p, services, observations) == FirstFailing(ProposalTests(services, observations)(p))
  {
    ProposalTail(p, observations);
    hide TextOk, RefsOk, FirstFailing, ProposalRest;
    var purpose := p.purpose == "mitigation" || p.purpose == "corrective" || p.purpose == "preventive";
    var rest := ProposalRest(p, observations);
    FirstCons(purpose, PurposeInvalid, rest);
    FirstCons(p.service in services, ServiceOutside, [(purpose, PurposeInvalid)] + rest);
    ProposalParts(p, services, observations);
  }

  function ProposalRest(p: Proposal, observations: set<string>): seq<Test> {
    [TextTest(p.title), TextTest(p.rationale), TextTest(p.plan),
     (RefsFine(p.evidence, observations), EvidenceOutside), (|p.evidence| > 0, ActionEvidence)]
  }

  lemma ProposalParts(p: Proposal, services: set<string>, observations: set<string>)
    ensures ProposalTests(services, observations)(p)
            == [(p.service in services, ServiceOutside)]
               + ([(p.purpose == "mitigation" || p.purpose == "corrective" || p.purpose == "preventive", PurposeInvalid)]
                  + ProposalRest(p, observations))
  {
    hide TextTest, RefsFine;
  }

  lemma ProposalTail(p: Proposal, observations: set<string>)
    ensures FirstFailing(ProposalRest(p, observations))
            == First(Unless(TextOk(p.title) && TextOk(p.rationale) && TextOk(p.plan), TextInvalid),
               First(Unless(RefsOk(p.evidence, observations), EvidenceOutside), Unless(p.evidence != [], ActionEvidence)))
  {
    TextIff(p.title);
    TextIff(p.rationale);
    TextIff(p.plan);
    RefsIff(p.evidence, observations);
    hide TextOk, TextFine, RefsOk, RefsFine;
    var all := ProposalRest(p, observations);
    FirstOne(|p.evidence| > 0, ActionEvidence);
    var evidence := [(RefsFine(p.evidence, observations), EvidenceOutside), (|p.evidence| > 0, ActionEvidence)];
    assert evidence[1..] == [(|p.evidence| > 0, ActionEvidence)];
    var plan := [TextTest(p.plan)] + evidence;
    FirstCons(TextFine(p.plan), TextInvalid, evidence);
    FirstCons(TextFine(p.rationale), TextInvalid, plan);
    FirstCons(TextFine(p.title), TextInvalid, [TextTest(p.rationale)] + plan);
    assert all == [TextTest(p.title)] + ([TextTest(p.rationale)] + plan);
  }

  lemma {:induction false} ProposalsFirst(ps: seq<Proposal>, services: set<string>, observations: set<string>)
    ensures ProposalsVerdict(ps, services, observations) == FirstFailing(FlatMap(ProposalTests(services, observations), ps))
  {
    if ps != [] {
      hide FirstFailing, ProposalVerdict, ProposalTests;
      ProposalsFirst(ps[1..], services, observations);
      ProposalFirst(ps[0], services, observations);
      Unroll(ProposalTests(services, observations), ps);
    }
  }

  /** The complaint about a report is the first of all demands that it fails, in the order of the report. */
  lemma ValidateIsFirst(r: Report, services: set<string>, observations: set<string>)
    ensures Validate(r, services, observations) == FirstFailing(ReportTests(r, services, observations))
  {
    TextIff(r.summary);
    TextsFirst(r.gaps);
    TextsFirst(r.limitations);
    HypothesesFirst(r.hypotheses, services, observations);
    ProposalsFirst(Proposals(r), services, observations);
    hide TextOk, TextFine, FirstFailing, TextTests, TextsVerdict, HypothesesVerdict, ProposalsVerdict, HypothesisTests, ProposalTests;
    var e := [(|Proposals(r)| <= 2, ActionBudget)] + FlatMap(ProposalTests(services, observations), Proposals(r));
    var d := FlatMap(HypothesisTests(services, observations), r.hypotheses) + e;
    var c := [(|r.hypotheses| <= 5, HypothesesInvalid)] + d;
    var b := TextTests(r.limitations) + c;
    var a := TextTests(r.gaps) + b;
    FirstCons(|Proposals(r)| <= 2, ActionBudget, FlatMap(ProposalTests(services, observations), Proposals(r)));
    FirstOf(FlatMap(HypothesisTests(services, observations), r.hypotheses), e);
    FirstCons(|r.hypotheses| <= 5, HypothesesInvalid, d);
    FirstOf(TextTests(r.limitations), c);
    FirstOf(TextTests(r.gaps), b);
    FirstCons(TextFine(r.summary), TextInvalid, a);
    assert ReportTests(r, services, observations) == [TextTest(r.summary)] + a;
  }
}
