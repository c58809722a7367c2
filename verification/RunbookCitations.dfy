/** Runbook citations. Reports name sections of runbooks; the workflow compares identifiers. This module says for which
    corpora, behind the search tool, a cited section has been read. */
module RunbookCitations {
  import opened Prelude
  import opened ToolWorkflow

  datatype Guide = Guide(id: string, version: string, section: string, topic: string, text: string)

  const SHOWN := 3

  /** Validation lets an identifier have several versions and sections, as long as no triple repeats. */
  ghost predicate DistinctSections(corpus: seq<Guide>) {
    forall i, j :: 0 <= i < j < |corpus| ==> SectionOf(corpus[i]) != SectionOf(corpus[j])
  }

  function SectionOf(g: Guide): Section {
    Section(g.id, g.version, g.section)
  }

  function OfTopic(corpus: seq<Guide>, topic: string): seq<Guide> {
    if corpus == [] then []
    else (if corpus[0].topic == topic then [corpus[0]] else []) + OfTopic(corpus[1..], topic)
  }

  /** The search tool answers with the first three guides of a topic. */
  function Search(corpus: seq<Guide>, topic: string): seq<Guide> {
    var all := OfTopic(corpus, topic);
    if |all| <= SHOWN then all else all[..SHOWN]
  }

  function Reference(digest: string -> string, g: Guide): Runbook {
    Runbook(g.id, g.version, g.section, digest(g.text))
  }

  function Matches(corpus: seq<Guide>, digest: string -> string, topic: Option<string>): seq<Runbook> {
    match topic
    case None => []
    case Some(t) =>
      var found := Search(corpus, t);
      seq(|found|, i requires 0 <= i < |found| => Reference(digest, found[i]))
  }

  /** The gateway of this workflow searches this corpus; `topic` tells the searches from the other calls. */
  ghost predicate Searches(w: Workflow, corpus: seq<Guide>, digest: string -> string, topic: Call -> Option<string>) {
    forall c: Call :: w.answer(c).Ok? ==> w.answer(c).value.matches == Matches(corpus, digest, topic(c))
  }

  ghost predicate WasRead(s: State, x: Section) {
    exists r :: r in s.consulted && Section(r.id, r.version, r.section) == x
  }

  predicate WordChar(c: char) {
    'a' <= c <= 'z' || 'A' <= c <= 'Z' || '0' <= c <= '9' || c == '_'
  }

  /** The pattern `\brb-[A-Za-z0-9_-]+\b` finds this identifier, as a whole, where a report names it. */
  predicate Spotted(id: string) {
    && |id| > 3 && id[..3] == "rb-" && WordChar(id[|id| - 1])
    && forall i :: 3 <= i < |id| ==> WordChar(id[i]) || id[i] == '-'
  }

  predicate Inner(c: char) {
    WordChar(c) || c == '-'
  }

  lemma SpottedParts(middle: string, last: char)
    ensures var id := "rb-" + middle + [last];
            && |id| == |middle| + 4 && id[..3] == "rb-" && id[3..|id| - 1] == middle && id[|id| - 1] == last
  {
  }

  ghost predicate Parts(id: string, middle: string, last: char) {
    id == "rb-" + middle + [last] && WordChar(last) && forall i :: 0 <= i < |middle| ==> Inner(middle[i])
  }

  lemma PartsSpotted(id: string, middle: string, last: char)
    requires Parts(id, middle, last)
    ensures Spotted(id)
  {
    hide WordChar;
    SpottedParts(middle, last);
    assert forall i :: 3 <= i < |id| - 1 ==> id[i] == id[3..|id| - 1][i - 3];
  }

  /** "rb-", then word characters and hyphens, a word character last. */
  lemma SpottedIff(id: string)
    ensures Spotted(id) <==> exists middle, last :: Parts(id, middle, last)
  {
    hide WordChar;
    if Spotted(id) {
      var middle, last := id[3..|id| - 1], id[|id| - 1];
      assert id == id[..3] + middle + [last];
      assert forall i :: 0 <= i < |middle| ==> middle[i] == id[i + 3];
      assert Parts(id, middle, last);
    }
    if middle, last :| Parts(id, middle, last) {
      PartsSpotted(id, middle, last);
    }
  }

  /** The identifiers found in a report are those that the pattern finds in the sections it names, and perhaps more. */
  ghost predicate Scanned(report: Report) {
    && (forall id :: id in report.cited ==> Spotted(id))
    && (forall x :: x in report.sections && Spotted(x.id) ==> x.id in report.cited)
  }

  ghost predicate Scans(w: Workflow) {
    forall text: string :: w.read(text).Ok? ==> Scanned(w.read(text).value)
  }

  /** A completed run has read every section that its report names and the corpus holds. */
  ghost predicate CitesOnlyRead(s: State, corpus: seq<Guide>) {
    s.outcome.Completed? ==>
      forall g :: g in corpus && SectionOf(g) in s.outcome.report.sections ==> WasRead(s, SectionOf(g))
  }

  /** A completed run has read every section that its report names in the way of the pattern, be it in the corpus or
      made up. */
  ghost predicate InventsNothing(s: State) {
    s.outcome.Completed? ==>
      forall x :: x in s.outcome.report.sections && Spotted(x.id) ==> WasRead(s, x)
  }

  ghost predicate AllSpotted(corpus: seq<Guide>) {
    forall g :: g in corpus ==> Spotted(g.id)
  }

  /** No search finds a guide whose identifier the pattern would find. */
  ghost predicate NoneCitable(corpus: seq<Guide>) {
    forall g :: g in corpus && g in Search(corpus, g.topic) ==> !Spotted(g.id)
  }

  /** A search that finds one section of an identifier finds all of them. */
  ghost predicate FoundTogether(corpus: seq<Guide>) {
    forall g, h :: g in corpus && h in corpus && g.id == h.id && g in Search(corpus, g.topic) ==> h in Search(corpus, g.topic)
  }

  // ----- searching -----

  lemma {:induction false} OfTopicIff(corpus: seq<Guide>, topic: string, g: Guide)
    ensures g in OfTopic(corpus, topic) <==> g in corpus && g.topic == topic
  {
    if corpus != [] {
      OfTopicIff(corpus[1..], topic, g);
    }
  }

  function About(topic: string): Guide -> bool {
    (g: Guide) => g.topic == topic
  }

  lemma {:induction false} OfTopicIs(corpus: seq<Guide>, topic: string)
    ensures OfTopic(corpus, topic) == Filter(About(topic), corpus)
  {
    if corpus != [] {
      OfTopicIs(corpus[1..], topic);
      FilterCons(About(topic), corpus[0], corpus[1..]);
      assert corpus == [corpus[0]] + corpus[1..];
      hide Filter;
    }
  }

  /** The matches of a search refer to the guides of its topic, in the order of the corpus, as long as fewer than three come
      before: by identifier, version and section, and by the digest of the text. */
  lemma MatchAt(corpus: seq<Guide>, digest: string -> string, topic: string, i: nat)
    requires i < |corpus| && corpus[i].topic == topic
    ensures var refs, before := Matches(corpus, digest, Some(topic)), |Filter(About(topic), corpus[..i])|;
            && |refs| == Min(3, |Filter(About(topic), corpus)|)
            && (before < 3 ==>
                  && before < |refs|
                  && refs[before] == Runbook(corpus[i].id, corpus[i].version, corpus[i].section, digest(corpus[i].text)))
  {
    hide Filter, OfTopic;
    OfTopicIs(corpus, topic);
    FilterAppend(About(topic), corpus[..i], corpus[i..]);
    FilterCons(About(topic), corpus[i], corpus[i + 1..]);
    assert corpus == corpus[..i] + corpus[i..] && corpus[i..] == [corpus[i]] + corpus[i + 1..];
  }

  lemma FoundIsHeld(corpus: seq<Guide>, topic: string, g: Guide)
    requires g in Search(corpus, topic)
    ensures g in corpus && g.topic == topic
  {
    OfTopicIff(corpus, topic, g);
  }

  lemma MatchesIff(corpus: seq<Guide>, digest: string -> string, topic: string, r: Runbook)
    ensures r in Matches(corpus, digest, Some(topic)) <==> exists g :: g in Search(corpus, topic) && Reference(digest, g) == r
  {
    var found := Search(corpus, topic);
    var refs := Matches(corpus, digest, Some(topic));
    if r in refs {
      var i :| 0 <= i < |refs| && refs[i] == r;
      assert found[i] in found && Reference(digest, found[i]) == r;
    }
    if g :| g in found && Reference(digest, g) == r {
      var i :| 0 <= i < |found| && found[i] == g;
      assert refs[i] == r;
    }
  }

  // ----- every run -----

  /** What a run has consulted are matches of searches it has shown. */
  lemma ConsultedIff(w: Workflow, turns: nat -> Turn, r: Runbook)
    ensures var s := Run(w, turns);
            r in s.consulted <==> exists c :: c in s.shown && w.answer(c).Ok? && r in w.answer(c).value.matches
  {
    AlwaysInv(w, turns, w.limits.modelCalls);
    var s := Run(w, turns);
    assert r in s.consulted <==> r in Members(s.consulted);
    if r in s.consulted {
      var c :| c in s.shown && r in Answer(w, c).matches;
      assert c in s.executed;
    }
    if c :| c in s.shown && w.answer(c).Ok? && r in w.answer(c).value.matches {
      assert r in Answer(w, c).matches;
    }
  }

  /** The distinct elements of a list, in order of first occurrence. */
  ghost predicate FirstsOf(all: seq<Runbook>, firsts: seq<Runbook>) {
    && NoRepeats(firsts) && (forall x :: x in all ==> x in firsts)
    && (forall n :: 0 <= n < |firsts| ==> OccursFirst(all, firsts, n))
  }

  ghost predicate OccursFirst(all: seq<Runbook>, firsts: seq<Runbook>, n: nat)
    requires n < |firsts|
  {
    exists i :: 0 <= i < |all| && all[i] == firsts[n] && forall j :: 0 <= j < i ==> all[j] in firsts[..n]
  }

  lemma OccursStill(all: seq<Runbook>, x: Runbook, firsts: seq<Runbook>, more: seq<Runbook>, n: nat)
    requires n < |firsts| && firsts <= more && OccursFirst(all, firsts, n)
    ensures OccursFirst(all + [x], more, n)
  {
    var i :| 0 <= i < |all| && all[i] == firsts[n] && forall j :: 0 <= j < i ==> all[j] in firsts[..n];
    assert more[..n] == firsts[..n];
    assert (all + [x])[i] == more[n] && forall j :: 0 <= j < i ==> (all + [x])[j] == all[j];
  }

  lemma {:induction false} ConsultIsFirsts(all: seq<Runbook>)
    ensures FirstsOf(all, Consult([], all))
  {
    if all != [] {
      var m := |all| - 1;
      var before, firsts := Consult([], all[..m]), Consult([], all);
      ConsultIsFirsts(all[..m]);
      assert all == all[..m] + [all[m]];
      forall n | 0 <= n < |firsts|
        ensures OccursFirst(all, firsts, n)
      {
        if n < |before| {
          OccursStill(all[..m], all[m], before, firsts, n);
        } else {
          assert firsts[..n] == before && all[m] == firsts[n] && forall j :: 0 <= j < m ==> all[j] == all[..m][j];
        }
      }
    }
  }

  /** A run consults what its shown calls match, each once, in order of first occurrence. */
  lemma RunConsults(w: Workflow, turns: nat -> Turn)
    ensures FirstsOf(MatchList(w, Run(w, turns).shown), Run(w, turns).consulted)
  {
    AlwaysInv(w, turns, w.limits.modelCalls);
    ConsultIsFirsts(MatchList(w, Run(w, turns).shown));
  }

  /** A cited identifier belongs to a guide that a shown search found. */
  lemma CitedWasFound(w: Workflow, turns: nat -> Turn, corpus: seq<Guide>, digest: string -> string,
                      topic: Call -> Option<string>, id: string) returns (c: Call, g: Guide)
    requires Searches(w, corpus, digest, topic) && Run(w, turns).outcome.Completed?
    requires id in Run(w, turns).outcome.report.cited
    ensures c in Run(w, turns).shown && w.answer(c).Ok? && topic(c).Some?
    ensures g in Search(corpus, topic(c).value) && g.id == id
  {
    AlwaysInv(w, turns, w.limits.modelCalls);
    var s := Run(w, turns);
    var text :| Accepts(w, text, s.outcome.report, s.consulted);
    var i :| 0 <= i < |s.consulted| && s.consulted[i].id == id;
    var r := s.consulted[i];
    ConsultedIff(w, turns, r);
    c :| c in s.shown && w.answer(c).Ok? && r in w.answer(c).value.matches;
    MatchesIff(corpus, digest, topic(c).value, r);
    g :| g in Search(corpus, topic(c).value) && Reference(digest, g) == r;
  }

  lemma FoundWasRead(w: Workflow, turns: nat -> Turn, corpus: seq<Guide>, digest: string -> string,
                     topic: Call -> Option<string>, c: Call, g: Guide)
    requires Searches(w, corpus, digest, topic) && c in Run(w, turns).shown && w.answer(c).Ok? && topic(c).Some?
    requires g in Search(corpus, topic(c).value)
    ensures WasRead(Run(w, turns), SectionOf(g))
  {
    MatchesIff(corpus, digest, topic(c).value, Reference(digest, g));
    ConsultedIff(w, turns, Reference(digest, g));
  }

  lemma ReportIsScanned(w: Workflow, turns: nat -> Turn)
    requires Scans(w) && Run(w, turns).outcome.Completed?
    ensures Scanned(Run(w, turns).outcome.report)
  {
    AlwaysInv(w, turns, w.limits.modelCalls);
    var s := Run(w, turns);
    var text :| Accepts(w, text, s.outcome.report, s.consulted);
  }

  lemma TogetherReads(w: Workflow, turns: nat -> Turn, corpus: seq<Guide>, digest: string -> string,
                      topic: Call -> Option<string>)
    requires FoundTogether(corpus) && AllSpotted(corpus) && Searches(w, corpus, digest, topic) && Scans(w)
    ensures CitesOnlyRead(Run(w, turns), corpus)
  {
    var s := Run(w, turns);
    if s.outcome.Completed? {
      ReportIsScanned(w, turns);
      forall g | g in corpus && SectionOf(g) in s.outcome.report.sections
        ensures WasRead(s, SectionOf(g))
      {
        var c, found := CitedWasFound(w, turns, corpus, digest, topic, g.id);
        FoundIsHeld(corpus, topic(c).value, found);
        assert g in Search(corpus, found.topic);
        FoundWasRead(w, turns, corpus, digest, topic, c, g);
      }
    }
  }

  // ----- a run that cites what it has not read -----

  /** A report that names one section. */
  function Naming(text: string, x: Section): Report {
    Report(text, if Spotted(x.id) then {x.id} else {}, {x})
  }

  /** Whatever the provider writes names this section. */
  function Misled(corpus: seq<Guide>, digest: string -> string, cited: Section): Workflow {
    Workflow(Limits(4, 6, 3, 12000, 3000), (c: Call) => Ok(c.request),
             (c: Call) => Ok(Output("", Matches(corpus, digest, Some(c.request)))),
             (text: string) => Ok(Naming(text, cited)), false)
  }

  lemma MisledFits(corpus: seq<Guide>, digest: string -> string, cited: Section)
    ensures Fits(Misled(corpus, digest, cited), corpus, digest, ByRequest())
  {
  }

  function SearchThenCite(topic: string): nat -> Turn {
    n => Turn(None, 0, 0, 0, if n == 0 then Reply("", 0, 0, [Call("call", topic)], ["item"]) else Reply("report", 0, 0, [], []),
              None, None)
  }

  /** The provider answers at once. */
  function CiteAtOnce(): nat -> Turn {
    n => Turn(None, 0, 0, 0, Reply("report", 0, 0, [], []), None, None)
  }

  function ByRequest(): Call -> Option<string> {
    (c: Call) => Some(c.request)
  }

  lemma OneCall(w: Workflow, call: Call)
    requires w.sign(call).Ok? && w.answer(call).Ok?
    ensures Check(w, {}, {}, [call]) == Checked([call], [Answer(w, call)], None)
  {
    assert [call][1..] == [];
    assert Check(w, {} + {call.id}, {} + {Signature(w, call)}, []) == Checked([], [], None);
  }

  lemma OneOutput(w: Workflow, s: State, call: Call, item: string)
    requires s.outcome.Running?
    ensures var reply, output := Reply("", 0, 0, [call], [item]), Answer(w, call);
            var r := HandOver(w, s, reply, [output], None);
            && r.outcome.Running? && r.usage == s.usage.(toolSteps := s.usage.toolSteps + 1, toolCalls := s.usage.toolCalls + 1)
            && r.repairUsed == s.repairUsed && r.consulted == Consult(s.consulted, output.matches)
  {
    var continued := s.(history := s.history + ItemEntries([item]), usage := s.usage.(toolSteps := s.usage.toolSteps + 1));
    var output := Answer(w, call);
    assert [call][..0] == [];
    assert ShowAll(w, continued, [], [output]) == continued;
    assert ShowAll(w, continued, [call], [output]) == Show(w, continued, call, output);
  }

  lemma FirstSearch(w: Workflow, turns: nat -> Turn, call: Call)
    requires w.limits == Limits(4, 6, 3, 12000, 3000) && w.sign(call).Ok? && w.answer(call).Ok?
    requires turns(0) == Turn(None, 0, 0, 0, Reply("", 0, 0, [call], ["item"]), None, None)
    ensures var s := After(w, turns, 1);
            && s.outcome.Running? && s.usage.input == 0 && s.usage.output == 0 && !s.repairUsed
            && s.consulted == Consult([], Answer(w, call).matches)
  {
    var t := turns(0);
    assert After(w, turns, 0) == START;
    assert !FinalOnly(w, START.usage, false, 0, t);
    OneCall(w, call);
    var asked := Ask(w, START, 0, t);
    OneOutput(w, asked.(executed := asked.executed + [call]), call, "item");
  }

  lemma ReportNext(w: Workflow, turns: nat -> Turn, report: Report)
    requires w.limits == Limits(4, 6, 3, 12000, 3000)
    requires var s := After(w, turns, 1); s.outcome.Running? && s.usage.input == 0 && s.usage.output == 0
    requires turns(1) == Turn(None, 0, 0, 0, Reply("report", 0, 0, [], []), None, None)
    requires Accepts(w, "report", report, After(w, turns, 1).consulted)
    ensures Run(w, turns).outcome == Completed(report) && Run(w, turns).consulted == After(w, turns, 1).consulted
  {
    assert After(w, turns, 2) == Turned(w, After(w, turns, 1), 1, turns(1));
    StaysStopped(w, turns, 2, 4);
  }

  lemma MisledCites(corpus: seq<Guide>, digest: string -> string, topic: string, cited: Section)
    requires exists g :: g in Search(corpus, topic) && g.id == cited.id
    ensures var s := Run(Misled(corpus, digest, cited), SearchThenCite(topic));
            && s.outcome == Completed(Naming("report", cited))
            && s.consulted == Consult([], Matches(corpus, digest, Some(topic)))
  {
    hide After, Search;
    var w, turns := Misled(corpus, digest, cited), SearchThenCite(topic);
    FirstSearch(w, turns, Call("call", topic));
    var refs := Matches(corpus, digest, Some(topic));
    var consulted := Consult([], refs);
    var g :| g in Search(corpus, topic) && g.id == cited.id;
    MatchesIff(corpus, digest, topic, Reference(digest, g));
    ConsultMembers([], refs);
    assert Reference(digest, g) in Members(refs);
    assert Reference(digest, g) in Members(consulted);
    assert CitesRead(Naming("report", cited), consulted);
    ReportNext(w, turns, Naming("report", cited));
  }

  /** A section whose identifier the pattern does not find can be cited without any search. */
  lemma UnspottedIsCited(corpus: seq<Guide>, digest: string -> string, g: Guide)
    requires g in corpus && !Spotted(g.id)
    ensures !CitesOnlyRead(Run(Misled(corpus, digest, SectionOf(g)), CiteAtOnce()), corpus)
  {
    var w, turns := Misled(corpus, digest, SectionOf(g)), CiteAtOnce();
    AnsweredAtOnce(w, turns, Naming("report", SectionOf(g)));
    assert SectionOf(g) in Run(w, turns).outcome.report.sections;
  }

  lemma AnsweredAtOnce(w: Workflow, turns: nat -> Turn, report: Report)
    requires w.limits == Limits(4, 6, 3, 12000, 3000) && !w.discussion
    requires turns(0) == Turn(None, 0, 0, 0, Reply("report", 0, 0, [], []), None, None)
    requires w.read("report") == Ok(report) && report.cited == {}
    ensures Run(w, turns).outcome == Completed(report) && Run(w, turns).consulted == []
  {
    assert After(w, turns, 0) == START;
    assert After(w, turns, 1) == Turned(w, START, 0, turns(0));
    StaysStopped(w, turns, 1, 4);
  }

  lemma MisledReads(corpus: seq<Guide>, digest: string -> string, topic: string, cited: Section)
    requires exists g :: g in Search(corpus, topic) && g.id == cited.id
    requires WasRead(Run(Misled(corpus, digest, cited), SearchThenCite(topic)), cited)
    ensures exists g :: g in Search(corpus, topic) && SectionOf(g) == cited
  {
    var w, turns := Misled(corpus, digest, cited), SearchThenCite(topic);
    MisledCites(corpus, digest, topic, cited);
    var s := Run(w, turns);
    var r :| r in s.consulted && Section(r.id, r.version, r.section) == cited;
    ConsultMembers([], Matches(corpus, digest, Some(topic)));
    assert r in Members(s.consulted);
    MatchesIff(corpus, digest, topic, r);
  }

  lemma SameGuide(corpus: seq<Guide>, a: Guide, b: Guide)
    requires DistinctSections(corpus) && a in corpus && b in corpus && SectionOf(a) == SectionOf(b)
    ensures a == b
  {
    var i :| 0 <= i < |corpus| && corpus[i] == a;
    var j :| 0 <= j < |corpus| && corpus[j] == b;
  }

  lemma SplitIsCited(corpus: seq<Guide>, digest: string -> string, g: Guide, h: Guide)
    requires DistinctSections(corpus) && g in corpus && h in corpus && g.id == h.id
    requires g in Search(corpus, g.topic) && h !in Search(corpus, g.topic)
    ensures !CitesOnlyRead(Run(Misled(corpus, digest, SectionOf(h)), SearchThenCite(g.topic)), corpus)
  {
    var cited := SectionOf(h);
    MisledCites(corpus, digest, g.topic, cited);
    var s := Run(Misled(corpus, digest, cited), SearchThenCite(g.topic));
    assert SectionOf(h) in s.outcome.report.sections;
    if WasRead(s, cited) {
      MisledReads(corpus, digest, g.topic, cited);
      var x :| x in Search(corpus, g.topic) && SectionOf(x) == cited;
      FoundIsHeld(corpus, g.topic, x);
      SameGuide(corpus, x, h);
    }
  }

  /** A title longer than all of the corpus. */
  function Longer(corpus: seq<Guide>): string {
    if corpus == [] then "x" else corpus[0].section + Longer(corpus[1..])
  }

  lemma {:induction false} LongerIsNew(corpus: seq<Guide>)
    ensures |Longer(corpus)| > 0
    ensures forall g :: g in corpus ==> |g.section| < |Longer(corpus)|
  {
    if corpus != [] {
      LongerIsNew(corpus[1..]);
    }
  }

  lemma NoneCitableCitesNothing(w: Workflow, turns: nat -> Turn, corpus: seq<Guide>, digest: string -> string,
                                topic: Call -> Option<string>)
    requires NoneCitable(corpus) && Searches(w, corpus, digest, topic) && Scans(w)
    ensures InventsNothing(Run(w, turns))
  {
    var s := Run(w, turns);
    if s.outcome.Completed? {
      ReportIsScanned(w, turns);
      if id :| id in s.outcome.report.cited {
        var c, g := CitedWasFound(w, turns, corpus, digest, topic, id);
        FoundIsHeld(corpus, topic(c).value, g);
      }
      assert s.outcome.report.cited == {};
    }
  }

  // ----- the exact conditions -----

  ghost predicate Fits(w: Workflow, corpus: seq<Guide>, digest: string -> string, topic: Call -> Option<string>) {
    ValidLimits(w.limits) && Searches(w, corpus, digest, topic) && Scans(w)
  }

  /** Checking identifiers makes every completed run read the sections of the corpus that it names, exactly when the
      pattern finds every identifier of the corpus and no search finds one section of an identifier without the others. */
  lemma SectionsReadIff(corpus: seq<Guide>, digest: string -> string)
    requires DistinctSections(corpus)
    ensures AllSpotted(corpus) && FoundTogether(corpus)
            <==> forall w, turns, topic :: Fits(w, corpus, digest, topic) ==> CitesOnlyRead(Run(w, turns), corpus)
  {
    hide Spotted;
    if !AllSpotted(corpus) {
      var g :| g in corpus && !Spotted(g.id);
      UnspottedIsCited(corpus, digest, g);
      MisledFits(corpus, digest, SectionOf(g));
    } else if FoundTogether(corpus) {
      forall w, turns, topic | Fits(w, corpus, digest, topic)
        ensures CitesOnlyRead(Run(w, turns), corpus)
      {
        TogetherReads(w, turns, corpus, digest, topic);
      }
    } else {
      var g, h :| g in corpus && h in corpus && g.id == h.id && g in Search(corpus, g.topic) && h !in Search(corpus, g.topic);
      SplitIsCited(corpus, digest, g, h);
      MisledFits(corpus, digest, SectionOf(h));
    }
  }

  /** The check never looks at sections: made up ones are kept out exactly when no identifier that the pattern finds can
      be searched for. */
  lemma InventsNothingIff(corpus: seq<Guide>, digest: string -> string)
    ensures NoneCitable(corpus)
            <==> forall w, turns, topic :: Fits(w, corpus, digest, topic) ==> InventsNothing(Run(w, turns))
  {
    hide Spotted;
    if NoneCitable(corpus) {
      forall w, turns, topic | Fits(w, corpus, digest, topic)
        ensures InventsNothing(Run(w, turns))
      {
        NoneCitableCitesNothing(w, turns, corpus, digest, topic);
      }
    } else {
      var g :| g in corpus && g in Search(corpus, g.topic) && Spotted(g.id);
      var made := Section(g.id, g.version, Longer(corpus));
      MadeUpIsCited(corpus, digest, g);
      MisledFits(corpus, digest, made);
    }
  }

  lemma MadeUpIsCited(corpus: seq<Guide>, digest: string -> string, g: Guide)
    requires g in Search(corpus, g.topic) && Spotted(g.id)
    ensures var made := Section(g.id, g.version, Longer(corpus));
            !InventsNothing(Run(Misled(corpus, digest, made), SearchThenCite(g.topic)))
  {
    var made := Section(g.id, g.version, Longer(corpus));
    LongerIsNew(corpus);
    MisledCites(corpus, digest, g.topic, made);
    var s := Run(Misled(corpus, digest, made), SearchThenCite(g.topic));
    assert made in s.outcome.report.sections;
    if WasRead(s, made) {
      MisledReads(corpus, digest, g.topic, made);
      var h :| h in Search(corpus, g.topic) && SectionOf(h) == made;
      FoundIsHeld(corpus, g.topic, h);
    }
  }

  /** One section for every identifier is enough: then every completed run has read what it cites of the corpus. */
  lemma OneSectionEach(w: Workflow, turns: nat -> Turn, corpus: seq<Guide>, digest: string -> string,
                       topic: Call -> Option<string>)
    requires AllSpotted(corpus) && forall g, h :: g in corpus && h in corpus && g.id == h.id ==> g == h
    requires Fits(w, corpus, digest, topic)
    ensures CitesOnlyRead(Run(w, turns), corpus)
  {
    TogetherReads(w, turns, corpus, digest, topic);
  }

  /** Two sections under two topics are not: the run reads the one and cites the other. */
  lemma TwoTopicsCiteUnread(digest: string -> string, read: Guide, unread: Guide)
    requires read.id == unread.id && read.topic != unread.topic
    ensures var s := Run(Misled([read, unread], digest, SectionOf(unread)), SearchThenCite(read.topic));
            && s.outcome == Completed(Naming("report", SectionOf(unread)))
            && s.consulted == [Reference(digest, read)]
  {
    var corpus, topic := [read, unread], read.topic;
    OnlyFirst(read, unread);
    hide Run, Search, SearchThenCite, Misled;
    assert read in Search(corpus, topic);
    MisledCites(corpus, digest, topic, SectionOf(unread));
    assert Matches(corpus, digest, Some(topic)) == [Reference(digest, read)];
    assert [Reference(digest, read)][..0] == [];
  }

  lemma CitesUnreadExample(digest: string -> string)
    ensures var read := Guide("rb-cpu", "1", "load", "cpu", "...");
            var unread := Guide("rb-cpu", "1", "trend", "memory", "...");
            var s := Run(Misled([read, unread], digest, SectionOf(unread)), SearchThenCite("cpu"));
            && Spotted(unread.id) && s.outcome.Completed? && SectionOf(unread) in s.outcome.report.sections
            && !WasRead(s, SectionOf(unread))
  {
    var read := Guide("rb-cpu", "1", "load", "cpu", "...");
    var unread := Guide("rb-cpu", "1", "trend", "memory", "...");
    hide Run, SearchThenCite, Misled;
    assert read.topic[0] != unread.topic[0] && read.section[0] != unread.section[0];
    TwoTopicsCiteUnread(digest, read, unread);
  }

  lemma OnlyFirst(a: Guide, b: Guide)
    requires a.topic != b.topic
    ensures Search([a, b], a.topic) == [a]
  {
    assert [a, b][1..] == [b] && [b][1..] == [];
    assert OfTopic([b], a.topic) == [];
  }
}
