/** Relabelling: the outbound catalog replaces service and observation names by neutral numbers, the report that comes
    back is relinked to the real names, and a follow-up replaces them again. */
module ReportIdentity {
  import opened Prelude
  import opened Sorting
  import opened Numerals

  datatype Check = Check(action: string, expected: string, evidence: seq<string>)

  datatype Hypothesis = Hypothesis(service: string, statement: string, supporting: seq<string>,
                                   contradicting: seq<string>, unknowns: seq<string>, checks: seq<Check>)

  datatype Proposal = Proposal(service: string, purpose: string, title: string, rationale: string, plan: string,
                               evidence: seq<string>)

  /** A stored report of the first version has no proposals. */
  datatype Report = Report(summary: string, hypotheses: seq<Hypothesis>, gaps: seq<string>, limitations: seq<string>,
                           proposals: Option<seq<Proposal>>)

  datatype Code = TextInvalid | ListInvalid | HypothesesInvalid | ServiceOutside | EvidenceOutside | Conflicting
                | Ungrounded | ChecksInvalid | ActionBudget | PurposeInvalid | ActionEvidence

  // ----- what makes a report valid -----

  predicate TextOk(s: string) {
    |s| <= 1200 && exists i :: 0 <= i < |s| && !Space(s[i])
  }

  predicate TextsOk(texts: seq<string>) {
    |texts| <= 8 && forall i :: 0 <= i < |texts| ==> TextOk(texts[i])
  }

  predicate Distinct(s: seq<string>) {
    forall i, j :: 0 <= i < j < |s| ==> s[i] != s[j]
  }

  predicate RefsOk(refs: seq<string>, observations: set<string>) {
    |refs| <= 12 && (forall i :: 0 <= i < |refs| ==> refs[i] in observations) && Distinct(refs)
  }

  predicate Apart(a: seq<string>, b: seq<string>) {
    forall i, j :: 0 <= i < |a| && 0 <= j < |b| ==> a[i] != b[j]
  }

  predicate CheckOk(c: Check, observations: set<string>) {
    TextOk(c.action) && TextOk(c.expected) && RefsOk(c.evidence, observations)
  }

  predicate HypothesisOk(h: Hypothesis, services: set<string>, observations: set<string>) {
    && h.service in services && TextOk(h.statement)
    && RefsOk(h.supporting, observations) && RefsOk(h.contradicting, observations) && Apart(h.supporting, h.contradicting)
    && (h.supporting != [] || h.unknowns != [])
    && TextsOk(h.unknowns) && |h.checks| <= 4
    && forall i :: 0 <= i < |h.checks| ==> CheckOk(h.checks[i], observations)
  }

  predicate ProposalOk(p: Proposal, services: set<string>, observations: set<string>) {
    && p.service in services && p.purpose in {"mitigation", "corrective", "preventive"}
    && TextOk(p.title) && TextOk(p.rationale) && TextOk(p.plan)
    && RefsOk(p.evidence, observations) && p.evidence != []
  }

  function Proposals(r: Report): seq<Proposal> {
    match r.proposals
    case None => []
    case Some(ps) => ps
  }

  /** Structure and references are within scope. */
  predicate Valid(r: Report, services: set<string>, observations: set<string>) {
    && TextOk(r.summary) && TextsOk(r.gaps) && TextsOk(r.limitations)
    && |r.hypotheses| <= 5 && (forall i :: 0 <= i < |r.hypotheses| ==> HypothesisOk(r.hypotheses[i], services, observations))
    && |Proposals(r)| <= 2 && (forall i :: 0 <= i < |Proposals(r)| ==> ProposalOk(Proposals(r)[i], services, observations))
  }

  // ----- the check in the program's order -----

  function TextsVerdict(texts: seq<string>): Option<Code> {
    if |texts| > 8 then Some(ListInvalid) else if TextsOk(texts) then None else Some(TextInvalid)
  }

  function First(a: Option<Code>, b: Option<Code>): Option<Code> {
    if a.Some? then a else b
  }

  function Unless(ok: bool, code: Code): Option<Code> {
    if ok then None else Some(code)
  }

  function CheckVerdict(c: Check, observations: set<string>): Option<Code> {
    First(Unless(TextOk(c.action) && TextOk(c.expected), TextInvalid), Unless(RefsOk(c.evidence, observations), EvidenceOutside))
  }

  function ChecksVerdict(cs: seq<Check>, observations: set<string>): Option<Code> {
    if cs == [] then None else First(CheckVerdict(cs[0], observations), ChecksVerdict(cs[1..], observations))
  }

  function HypothesisVerdict(h: Hypothesis, services: set<string>, observations: set<string>): Option<Code> {
    First(Unless(h.service in services, ServiceOutside),
    First(Unless(TextOk(h.statement), TextInvalid),
    First(Unless(RefsOk(h.supporting, observations) && RefsOk(h.contradicting, observations), EvidenceOutside),
    First(Unless(Apart(h.supporting, h.contradicting), Conflicting),
    First(Unless(h.supporting != [] || h.unknowns != [], Ungrounded),
    First(TextsVerdict(h.unknowns),
    First(Unless(|h.checks| <= 4, ChecksInvalid), ChecksVerdict(h.checks, observations))))))))
  }

  function HypothesesVerdict(hs: seq<Hypothesis>, services: set<string>, observations: set<string>): Option<Code> {
    if hs == [] then None
    else First(HypothesisVerdict(hs[0], services, observations), HypothesesVerdict(hs[1..], services, observations))
  }

  function ProposalVerdict(p: Proposal, services: set<string>, observations: set<string>): Option<Code> {
    First(Unless(p.service in services, ServiceOutside),
    First(Unless(p.purpose in {"mitigation", "corrective", "preventive"}, PurposeInvalid),
    First(Unless(TextOk(p.title) && TextOk(p.rationale) && TextOk(p.plan), TextInvalid),
    First(Unless(RefsOk(p.evidence, observations), EvidenceOutside), Unless(p.evidence != [], ActionEvidence)))))
  }

  function ProposalsVerdict(ps: seq<Proposal>, services: set<string>, observations: set<string>): Option<Code> {
    if ps == [] then None
    else First(ProposalVerdict(ps[0], services, observations), ProposalsVerdict(ps[1..], services, observations))
  }

  /** The first complaint about a report, if any. */
  function Validate(r: Report, services: set<string>, observations: set<string>): Option<Code> {
    First(Unless(TextOk(r.summary), TextInvalid),
    First(TextsVerdict(r.gaps),
    First(TextsVerdict(r.limitations),
    First(Unless(|r.hypotheses| <= 5, HypothesesInvalid),
    First(HypothesesVerdict(r.hypotheses, services, observations),
    First(Unless(|Proposals(r)| <= 2, ActionBudget), ProposalsVerdict(Proposals(r), services, observations)))))))
  }

  lemma {:induction false} ChecksVerdictIff(cs: seq<Check>, observations: set<string>)
    ensures ChecksVerdict(cs, observations).None? <==> forall i :: 0 <= i < |cs| ==> CheckOk(cs[i], observations)
  {
    if cs != [] {
      ChecksVerdictIff(cs[1..], observations);
      assert forall i :: 0 < i < |cs| ==> cs[i] == cs[1..][i - 1];
      assert CheckVerdict(cs[0], observations).None? <==> CheckOk(cs[0], observations);
      assert forall i :: 0 <= i < |cs[1..]| ==> cs[1..][i] == cs[i + 1];
    }
  }

  lemma {:induction false} HypothesesVerdictIff(hs: seq<Hypothesis>, services: set<string>, observations: set<string>)
    ensures HypothesesVerdict(hs, services, observations).None?
            <==> forall i :: 0 <= i < |hs| ==> HypothesisOk(hs[i], services, observations)
  {
    if hs != [] {
      HypothesesVerdictIff(hs[1..], services, observations);
      ChecksVerdictIff(hs[0].checks, observations);
      assert HypothesisVerdict(hs[0], services, observations).None? <==> HypothesisOk(hs[0], services, observations);
      assert forall i :: 0 < i < |hs| ==> hs[i] == hs[1..][i - 1];
      assert forall i :: 0 <= i < |hs[1..]| ==> hs[1..][i] == hs[i + 1];
    }
  }

  lemma {:induction false} ProposalsVerdictIff(ps: seq<Proposal>, services: set<string>, observations: set<string>)
    ensures ProposalsVerdict(ps, services, observations).None?
            <==> forall i :: 0 <= i < |ps| ==> ProposalOk(ps[i], services, observations)
  {
    if ps != [] {
      ProposalsVerdictIff(ps[1..], services, observations);
      assert ProposalVerdict(ps[0], services, observations).None? <==> ProposalOk(ps[0], services, observations);
      assert forall i :: 0 < i < |ps| ==> ps[i] == ps[1..][i - 1];
      assert forall i :: 0 <= i < |ps[1..]| ==> ps[1..][i] == ps[i + 1];
    }
  }

  /** There is no complaint exactly when the report is valid. */
  lemma ValidateIff(r: Report, services: set<string>, observations: set<string>)
    ensures Validate(r, services, observations).None? <==> Valid(r, services, observations)
  {
    HypothesesVerdictIff(r.hypotheses, services, observations);
    ProposalsVerdictIff(Proposals(r), services, observations);
  }

  // ----- relabelling a report -----

  predicate Known(m: map<string, string>, xs: seq<string>) {
    forall i :: 0 <= i < |xs| ==> xs[i] in m
  }

  function Rename(m: map<string, string>, xs: seq<string>): (r: seq<string>)
    requires Known(m, xs)
    ensures |r| == |xs|
  {
    seq(|xs|, i requires 0 <= i < |xs| => m[xs[i]])
  }

  predicate CoversChecks(ids: map<string, string>, cs: seq<Check>) {
    forall i :: 0 <= i < |cs| ==> Known(ids, cs[i].evidence)
  }

  predicate CoversHypothesis(names: map<string, string>, ids: map<string, string>, h: Hypothesis) {
    h.service in names && Known(ids, h.supporting) && Known(ids, h.contradicting) && CoversChecks(ids, h.checks)
  }

  predicate CoversProposal(names: map<string, string>, ids: map<string, string>, p: Proposal) {
    p.service in names && Known(ids, p.evidence)
  }

  /** Every name of the report can be looked up. */
  predicate Covers(names: map<string, string>, ids: map<string, string>, r: Report) {
    && (forall i :: 0 <= i < |r.hypotheses| ==> CoversHypothesis(names, ids, r.hypotheses[i]))
    && (forall i :: 0 <= i < |Proposals(r)| ==> CoversProposal(names, ids, Proposals(r)[i]))
  }

  function RelabelCheck(ids: map<string, string>, c: Check): Check
    requires Known(ids, c.evidence)
  {
    c.(evidence := Rename(ids, c.evidence))
  }

  function RelabelHypothesis(names: map<string, string>, ids: map<string, string>, h: Hypothesis): Hypothesis
    requires CoversHypothesis(names, ids, h)
  {
    h.(service := names[h.service], supporting := Rename(ids, h.supporting), contradicting := Rename(ids, h.contradicting),
       checks := seq(|h.checks|, i requires 0 <= i < |h.checks| => RelabelCheck(ids, h.checks[i])))
  }

  function RelabelProposal(names: map<string, string>, ids: map<string, string>, p: Proposal): Proposal
    requires CoversProposal(names, ids, p)
  {
    p.(service := names[p.service], evidence := Rename(ids, p.evidence))
  }

  function Relabel(names: map<string, string>, ids: map<string, string>, r: Report): Report
    requires Covers(names, ids, r)
  {
    r.(hypotheses := seq(|r.hypotheses|, i requires 0 <= i < |r.hypotheses| => RelabelHypothesis(names, ids, r.hypotheses[i])),
       proposals := match r.proposals
                    case None => None
                    case Some(ps) => Some(seq(|ps|, i requires 0 <= i < |ps| => assert ps == Proposals(r);
                                                                       RelabelProposal(names, ids, ps[i]))))
  }

  // ----- relabelling keeps validity -----

  predicate Injective(m: map<string, string>) {
    forall a, b :: a in m && b in m && m[a] == m[b] ==> a == b
  }

  lemma RenameKeeps(ids: map<string, string>, xs: seq<string>, observations: set<string>)
    requires Injective(ids) && RefsOk(xs, observations) && observations <= ids.Keys
    ensures Known(ids, xs) && RefsOk(Rename(ids, xs), ids.Values)
  {
    var ys := Rename(ids, xs);
    forall i, j | 0 <= i < j < |ys|
      ensures ys[i] != ys[j]
    {
      assert xs[i] != xs[j];
    }
  }

  lemma RenameApart(ids: map<string, string>, a: seq<string>, b: seq<string>)
    requires Injective(ids) && Known(ids, a) && Known(ids, b) && Apart(a, b)
    ensures Apart(Rename(ids, a), Rename(ids, b))
  {
    forall i, j | 0 <= i < |a| && 0 <= j < |b|
      ensures Rename(ids, a)[i] != Rename(ids, b)[j]
    {
      assert a[i] != b[j];
    }
  }

  lemma HypothesisKeeps(names: map<string, string>, ids: map<string, string>, h: Hypothesis, services: set<string>,
                        observations: set<string>)
    requires Injective(ids) && services <= names.Keys && observations <= ids.Keys && HypothesisOk(h, services, observations)
    ensures CoversHypothesis(names, ids, h)
    ensures HypothesisOk(RelabelHypothesis(names, ids, h), names.Values, ids.Values)
  {
    RenameKeeps(ids, h.supporting, observations);
    RenameKeeps(ids, h.contradicting, observations);
    RenameApart(ids, h.supporting, h.contradicting);
    forall i | 0 <= i < |h.checks|
      ensures Known(ids, h.checks[i].evidence) && RefsOk(Rename(ids, h.checks[i].evidence), ids.Values)
    {
      assert CheckOk(h.checks[i], observations);
      RenameKeeps(ids, h.checks[i].evidence, observations);
    }
  }

  lemma ProposalKeeps(names: map<string, string>, ids: map<string, string>, p: Proposal, services: set<string>,
                      observations: set<string>)
    requires Injective(ids) && services <= names.Keys && observations <= ids.Keys && ProposalOk(p, services, observations)
    ensures CoversProposal(names, ids, p)
    ensures ProposalOk(RelabelProposal(names, ids, p), names.Values, ids.Values)
  {
    RenameKeeps(ids, p.evidence, observations);
  }

  /** A valid report can be relabelled, and stays valid under the new names. */
  lemma RelabelKeepsValid(names: map<string, string>, ids: map<string, string>, r: Report, services: set<string>,
                          observations: set<string>)
    requires Injective(ids) && services <= names.Keys && observations <= ids.Keys && Valid(r, services, observations)
    ensures Covers(names, ids, r) && Valid(Relabel(names, ids, r), names.Values, ids.Values)
  {
    forall i | 0 <= i < |r.hypotheses|
      ensures CoversHypothesis(names, ids, r.hypotheses[i])
      ensures HypothesisOk(RelabelHypothesis(names, ids, r.hypotheses[i]), names.Values, ids.Values)
    {
      HypothesisKeeps(names, ids, r.hypotheses[i], services, observations);
    }
    forall i | 0 <= i < |Proposals(r)|
      ensures CoversProposal(names, ids, Proposals(r)[i])
      ensures ProposalOk(RelabelProposal(names, ids, Proposals(r)[i]), names.Values, ids.Values)
    {
      ProposalKeeps(names, ids, Proposals(r)[i], services, observations);
    }
    assert Proposals(Relabel(names, ids, r)) == seq(|Proposals(r)|, i requires 0 <= i < |Proposals(r)| => RelabelProposal(names, ids, Proposals(r)[i]));
  }

  // ----- there and back -----

  /** The dictionary read the other way round. */
  function Reverse(m: map<string, string>): map<string, string>
    requires Injective(m)
  {
    map v | v in m.Values :: KeyOf(m, v)
  }

  function KeyOf(m: map<string, string>, v: string): (k: string)
    requires Injective(m) && v in m.Values
    ensures k in m && m[k] == v
  {
    var k :| k in m && m[k] == v;
    k
  }

  lemma ReverseFacts(m: map<string, string>)
    requires Injective(m)
    ensures Reverse(m).Keys == m.Values && Reverse(m).Values == m.Keys && Injective(Reverse(m))
    ensures forall v :: v in Reverse(m) ==> Reverse(m)[v] in m && m[Reverse(m)[v]] == v
  {
    forall k | k in m
      ensures k in Reverse(m).Values
    {
      assert m[k] in Reverse(m) && Reverse(m)[m[k]] == k;
    }
  }

  lemma RenameBack(m: map<string, string>, xs: seq<string>)
    requires Injective(m) && Known(Reverse(m), xs)
    ensures Known(m, Rename(Reverse(m), xs)) && Rename(m, Rename(Reverse(m), xs)) == xs
  {
    ReverseFacts(m);
  }

  lemma HypothesisBack(names: map<string, string>, ids: map<string, string>, h: Hypothesis)
    requires Injective(names) && Injective(ids) && CoversHypothesis(Reverse(names), Reverse(ids), h)
    ensures var there := RelabelHypothesis(Reverse(names), Reverse(ids), h);
            CoversHypothesis(names, ids, there) && RelabelHypothesis(names, ids, there) == h
  {
    ReverseFacts(names);
    RenameBack(ids, h.supporting);
    RenameBack(ids, h.contradicting);
    forall i | 0 <= i < |h.checks|
      ensures var there := RelabelCheck(Reverse(ids), h.checks[i]);
              Known(ids, there.evidence) && RelabelCheck(ids, there) == h.checks[i]
    {
      RenameBack(ids, h.checks[i].evidence);
    }
    var there := RelabelHypothesis(Reverse(names), Reverse(ids), h);
    assert RelabelHypothesis(names, ids, there).checks == h.checks;
  }

  lemma ProposalBack(names: map<string, string>, ids: map<string, string>, p: Proposal)
    requires Injective(names) && Injective(ids) && CoversProposal(Reverse(names), Reverse(ids), p)
    ensures var there := RelabelProposal(Reverse(names), Reverse(ids), p);
            CoversProposal(names, ids, there) && RelabelProposal(names, ids, there) == p
  {
    ReverseFacts(names);
    RenameBack(ids, p.evidence);
  }

  /** Relabelling with the reversed maps and then with the maps gives the same report. */
  lemma RelabelBack(names: map<string, string>, ids: map<string, string>, r: Report)
    requires Injective(names) && Injective(ids) && Covers(Reverse(names), Reverse(ids), r)
    ensures var there := Relabel(Reverse(names), Reverse(ids), r);
            Covers(names, ids, there) && Relabel(names, ids, there) == r
  {
    var there := Relabel(Reverse(names), Reverse(ids), r);
    forall i | 0 <= i < |r.hypotheses|
      ensures CoversHypothesis(names, ids, there.hypotheses[i])
      ensures RelabelHypothesis(names, ids, there.hypotheses[i]) == r.hypotheses[i]
    {
      HypothesisBack(names, ids, r.hypotheses[i]);
    }
    forall i | 0 <= i < |Proposals(r)|
      ensures CoversProposal(names, ids, Proposals(there)[i])
      ensures RelabelProposal(names, ids, Proposals(there)[i]) == Proposals(r)[i]
    {
      ProposalBack(names, ids, Proposals(r)[i]);
    }
    assert Relabel(names, ids, there).hypotheses == r.hypotheses;
    assert Proposals(Relabel(names, ids, there)) == Proposals(r);
  }
}
