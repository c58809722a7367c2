/** What a completed run hands over when its reader is the report check: a report that is valid for the names it was
    given, and that can be put back under the real ones. */
module CompletedReports {
  import opened Prelude
  import opened ToolWorkflow
  import Identity = ReportIdentity
  import Outbound = OutboundProjection

  /** Parsing the JSON, the text of a complaint, and the runbook identifiers and sections a report names. */
  datatype Reader = Reader(parse: string -> Result<Identity.Report, string>, complain: Identity.Code -> string,
                           find: Identity.Report -> (set<string>, set<Section>))

  function ReadChecked(reader: Reader, services: set<string>, observations: set<string>, text: string): Result<Report, string> {
    match reader.parse(text)
    case Err(code) => Err(code)
    case Ok(report) =>
      match Identity.Validate(report, services, observations)
      case Some(code) => Err(reader.complain(code))
      case None =>
        var (cited, sections) := reader.find(report);
        Ok(Report(text, cited, sections))
  }

  /** The workflow reads reports like this. */
  ghost predicate ReadsWith(w: Workflow, reader: Reader, services: set<string>, observations: set<string>) {
    forall text: string :: w.read(text) == ReadChecked(reader, services, observations, text)
  }

  /** This is the report of the state's outcome, and it is valid for the names. */
  ghost predicate Delivers(s: State, reader: Reader, services: set<string>, observations: set<string>,
                           report: Identity.Report) {
    && s.outcome.Completed? && reader.parse(s.outcome.report.text) == Ok(report)
    && Identity.Valid(report, services, observations)
    && (s.outcome.report.cited, s.outcome.report.sections) == reader.find(report)
  }

  /** Whatever the provider does, the report of a completed run is valid for the services and observations it was checked
      against, and the runbook identifiers found in it were returned by executed searches. */
  lemma CompletedIsValid(w: Workflow, turns: nat -> Turn, reader: Reader, services: set<string>, observations: set<string>)
    returns (report: Identity.Report)
    requires ReadsWith(w, reader, services, observations) && Run(w, turns).outcome.Completed?
    ensures Delivers(Run(w, turns), reader, services, observations, report)
    ensures forall id :: id in reader.find(report).0 ==>
              exists c, r :: c in Run(w, turns).executed && r in Answer(w, c).matches && r.id == id
  {
    CompletedIsSound(w, turns);
    var s := Run(w, turns);
    var text :| w.read(text) == Ok(s.outcome.report);
    assert w.read(text) == ReadChecked(reader, services, observations, text);
    report := reader.parse(text).value;
    Identity.ValidateIff(report, services, observations);
  }

  /** From the snapshot to the stored report: when the workflow works on the outbound names of a snapshot, the report of
      a completed run can be restored, is valid for the snapshot's own names, and goes out again with a follow-up exactly
      as the provider wrote it. */
  lemma CompletedIsRestored<C, V>(w: Workflow, turns: nat -> Turn, reader: Reader, services: seq<string>,
                                  facts: seq<Outbound.Fact<C>>, project: Outbound.Projector<C, V>)
    returns (report: Identity.Report)
    requires Outbound.Prepare(services, facts, project).Ok?
    requires var p := Outbound.Prepare(services, facts, project).value;
             ReadsWith(w, reader, Members(p.services), Members(Outbound.CleanIds(p)))
    requires Run(w, turns).outcome.Completed?
    ensures var p := Outbound.Prepare(services, facts, project).value;
            && Delivers(Run(w, turns), reader, Members(p.services), Members(Outbound.CleanIds(p)), report)
            && Identity.Injective(p.mapping.services) && Identity.Injective(p.mapping.observations)
            && Outbound.Restore(p.mapping, report).Ok?
            && var restored := Outbound.Restore(p.mapping, report).value;
            && Identity.Valid(restored, Members(services), (set f | f in facts :: f.id))
            && Identity.Covers(p.mapping.services, p.mapping.observations, restored)
            && Identity.Relabel(p.mapping.services, p.mapping.observations, restored) == report
  {
    hide Run, ReadChecked;
    var p := Outbound.Prepare(services, facts, project).value;
    report := CompletedIsValid(w, turns, reader, Members(p.services), Members(Outbound.CleanIds(p)));
    Identity.ValidateIff(report, Members(p.services), Members(Outbound.CleanIds(p)));
    Outbound.RestoreRoundTrip(services, facts, project, report);
    var restored := Outbound.Restore(p.mapping, report).value;
    Identity.ValidateIff(restored, Members(services), (set f | f in facts :: f.id));
  }
}
