/** What a captured event writes: when it is captured at all, which rows it adds and what they hold, and what becomes of
    the table of instances. Every row of every run was written so. */
module EventRows {
  import opened Prelude
  import opened Numerals
  import opened EventOutbox

  // ----- which events are captured -----

  /** An event of a container of the installed scope, with a name for its row and a stamp the clock has reached. */
  ghost predicate Counts(config: Config, e: Event, observed: int) {
    && e.container && e.project == config.project && e.service in config.services
    && |e.instance| == 64 && (forall i :: 0 <= i < 64 ==> e.instance[i] in "0123456789abcdef")
    && (exists name :: Named(e.action, name))
    && e.stamp.Some? && 0 < e.stamp.value <= observed
  }

  lemma HexIff(s: string)
    ensures Hex(s) <==> forall i :: 0 <= i < |s| ==> s[i] in "0123456789abcdef"
  {
    forall i | 0 <= i < |s|
      ensures '0' <= s[i] <= '9' || 'a' <= s[i] <= 'f' <==> s[i] in "0123456789abcdef"
    {
      HexDigitIff(s[i]);
    }
  }

  lemma HexDigitIff(c: char)
    ensures '0' <= c <= '9' || 'a' <= c <= 'f' <==> c in "0123456789abcdef"
  {
    var digits := "0123456789abcdef";
    if '0' <= c <= '9' {
      assert digits[c as int - '0' as int] == c;
    } else if 'a' <= c <= 'f' {
      assert digits[c as int - 'a' as int + 10] == c;
    }
  }

  lemma SkippedIff(config: Config, outbox: seq<Row>, e: Event, observed: int)
    ensures Skipped(config, outbox, e, observed)
            <==> !Counts(config, e, observed)
                 || exists i :: 0 <= i < |outbox| && outbox[i].id == config.digest(Occurrence(e.instance, e.action, e.stamp.value))
  {
    HexIff(e.instance);
    if Kind(e.action).Some? {
      KindIff(e.action, Kind(e.action).value);
    }
    if name :| Named(e.action, name) {
      KindIff(e.action, name);
    }
  }

  /** An event leaves a trace exactly when it counts and no row has its digest. */
  lemma CapturedIff(config: Config, db: Db, e: Event, observed: int, inspection: Option<Inspection>)
    ensures CaptureOne(config, db, e, observed, inspection) != db
            <==> Counts(config, e, observed)
                 && forall i :: 0 <= i < |db.outbox| ==> db.outbox[i].id != config.digest(Occurrence(e.instance, e.action, e.stamp.value))
  {
    SkippedIff(config, db.outbox, e, observed);
    if !Skipped(config, db.outbox, e, observed) && Inspected(e, observed, inspection) {
      var base := Base(config, e, observed, inspection);
      AddChangesGrows(AddRow(db.outbox, base), base, Changes(Previous(Stopped(db.instances, e), e), inspection.value));
    }
  }

  // ----- what the rows hold -----

  /** A start is compared only while it is at most ten seconds old, and only when the daemon named an image by its digest
      and a memory limit of at most 2^60. */
  ghost predicate Answered(e: Event, observed: int, inspection: Option<Inspection>) {
    && e.action == "start" && e.stamp.Some? && observed <= e.stamp.value + 10_000_000_000
    && inspection.Some? && 0 <= inspection.value.memory <= 1152921504606846976
    && exists digits :: |digits| == 64 && Hex(digits) && inspection.value.image == "sha256:" + digits
  }

  lemma InspectedIff(e: Event, observed: int, inspection: Option<Inspection>)
    requires e.stamp.Some?
    ensures Inspected(e, observed, inspection) <==> Answered(e, observed, inspection)
  {
    if Inspected(e, observed, inspection) {
      var image := inspection.value.image;
      assert image == "sha256:" + image[7..];
    }
    if Answered(e, observed, inspection) {
      var digits :| |digits| == 64 && Hex(digits) && inspection.value.image == "sha256:" + digits;
      assert inspection.value.image[7..] == digits;
    }
  }

  /** A row with this name and this ending after the digest, about this event. */
  ghost predicate Holds(config: Config, e: Event, observed: int, inspection: Option<Inspection>, row: Row, name: string,
                        ending: string) {
    && e.stamp.Some? && e.stamp.value > 0
    && row.id == config.digest(Occurrence(e.instance, e.action, e.stamp.value)) + ending
    && row.stamp == Decimal(e.stamp.value) && row.service == e.service && !row.delivered
    && row.line.name == name && row.line.instance == e.instance
    && row.line.stamp == e.stamp.value && row.line.observed == observed
    && (forall n :: row.line.exitCode == Some(n) <==> Numeral(e.exitCode) && Value(e.exitCode) == n && n <= 255)
    && (forall m :: row.line.memory == Some(m) <==> Answered(e, observed, inspection) && inspection.value.memory == m)
  }

  lemma BaseHolds(config: Config, e: Event, observed: int, inspection: Option<Inspection>)
    requires Relevant(config, e)
    ensures var base := Base(config, e, observed, inspection);
            Named(e.action, base.line.name) && Holds(config, e, observed, inspection, base, base.line.name, "")
  {
    KindIff(e.action, Kind(e.action).value);
    InspectedIff(e, observed, inspection);
  }

  // ----- what a start is compared with -----

  /** The state of the instance itself, or of the only instance known for the service when that one has stopped. */
  ghost predicate Compared(instances: map<string, Instance>, e: Event, was: Instance) {
    || (e.instance in instances && was == instances[e.instance])
    || (e.instance !in instances
        && exists i :: Sole(instances, e.service, i) && was == instances[i] && was.stopped)
  }

  lemma PreviousIff(instances: map<string, Instance>, e: Event, was: Instance)
    ensures Previous(instances, e) == Some(was) <==> Compared(instances, e, was)
  {
    var others := Predecessors(instances, e.service);
    forall i
      ensures i in others && others.Keys == {i} <==> Sole(instances, e.service, i)
    {
      SoleIff(instances, e.service, i);
    }
  }

  /** The only instance known for the service. */
  ghost predicate Sole(instances: map<string, Instance>, service: string, i: string) {
    && i in instances && instances[i].service == service
    && forall j :: j in instances && instances[j].service == service ==> j == i
  }

  lemma SoleIff(instances: map<string, Instance>, service: string, i: string)
    ensures var others := Predecessors(instances, service); i in others && others.Keys == {i} <==> Sole(instances, service, i)
  {
    var others := Predecessors(instances, service);
    assert forall j :: j in others.Keys <==> j in instances && instances[j].service == service;
    if Sole(instances, service, i) {
      assert others.Keys == {i};
    }
  }

  /** The compared state has another image than the one now running. */
  ghost predicate Deployed(instances: map<string, Instance>, e: Event, observed: int, inspection: Option<Inspection>) {
    Answered(e, observed, inspection) && exists was :: Compared(instances, e, was) && was.image != inspection.value.image
  }

  ghost predicate Reconfigured(instances: map<string, Instance>, e: Event, observed: int, inspection: Option<Inspection>) {
    Answered(e, observed, inspection) && exists was :: Compared(instances, e, was) && was.memory != inspection.value.memory
  }

  /** The rows an event adds: its own, one more for a changed image, and one more for a changed memory limit. */
  ghost predicate Adds(config: Config, instances: map<string, Instance>, e: Event, observed: int,
                       inspection: Option<Inspection>, added: seq<Row>) {
    var deployed, reconfigured := Deployed(instances, e, observed, inspection), Reconfigured(instances, e, observed, inspection);
    && |added| == 1 + (if deployed then 1 else 0) + (if reconfigured then 1 else 0)
    && Named(e.action, added[0].line.name) && Holds(config, e, observed, inspection, added[0], added[0].line.name, "")
    && (deployed ==> Holds(config, e, observed, inspection, added[1], "deployment", "deployment"))
    && (reconfigured ==>
          Holds(config, e, observed, inspection, added[|added| - 1], "configuration_change", "configuration_change"))
  }

  lemma ChangesAre(instances: map<string, Instance>, e: Event, observed: int, inspection: Option<Inspection>)
    requires Answered(e, observed, inspection)
    ensures Changes(Previous(instances, e), inspection.value)
            == (if Deployed(instances, e, observed, inspection) then ["deployment"] else [])
               + (if Reconfigured(instances, e, observed, inspection) then ["configuration_change"] else [])
  {
    if Previous(instances, e).Some? {
      PreviousIff(instances, e, Previous(instances, e).value);
    }
    forall was | Compared(instances, e, was)
      ensures Previous(instances, e) == Some(was)
    {
      PreviousIff(instances, e, was);
    }
  }

  // ----- rows come with the row of their event -----

  /** Where an identifier goes on after a digest, the digest has its row. */
  ghost predicate Rooted(config: Config, outbox: seq<Row>) {
    forall o, i :: 0 <= i < |outbox| && config.digest(o) < outbox[i].id ==> Has(outbox, config.digest(o))
  }

  lemma SameRoot(config: Config, x: Occurrence, y: Occurrence, id: string)
    requires Collisionless(config) && config.digest(x) <= id && config.digest(y) <= id
    ensures x == y
  {
    var a, b := config.digest(x), config.digest(y);
    assert a == id[..|a|] && b == id[..|b|];
    assert if |a| <= |b| then a <= b else b <= a;
  }

  lemma AddRowRooted(config: Config, outbox: seq<Row>, row: Row, o: Occurrence)
    requires Collisionless(config) && Rooted(config, outbox)
    requires config.digest(o) <= row.id && Has(outbox + [row], config.digest(o))
    ensures Rooted(config, outbox + [row])
  {
    forall x, i | 0 <= i < |outbox + [row]| && config.digest(x) < (outbox + [row])[i].id
      ensures Has(outbox + [row], config.digest(x))
    {
      if i < |outbox| {
        assert outbox[i] == (outbox + [row])[i];
        HasLonger(outbox, outbox + [row], config.digest(x));
      } else {
        SameRoot(config, x, o, row.id);
      }
    }
  }

  /** An identifier that goes on after a digest without a row is new. */
  lemma FreshEnding(config: Config, outbox: seq<Row>, o: Occurrence, ending: string)
    requires Rooted(config, outbox) && !Has(outbox, config.digest(o)) && ending != ""
    ensures !Has(outbox, config.digest(o) + ending)
  {
    assert config.digest(o) < config.digest(o) + ending;
  }

  function Renamed(base: Row, name: string): Row {
    base.(id := base.id + name, line := base.line.(name := name))
  }

  lemma AddChangesAre(outbox: seq<Row>, base: Row, d: bool, c: bool)
    requires !Has(outbox, base.id + "deployment") && !Has(outbox, base.id + "configuration_change")
    ensures AddChanges(outbox, base, (if d then ["deployment"] else []) + if c then ["configuration_change"] else [])
            == outbox + (if d then [Renamed(base, "deployment")] else [])
               + if c then [Renamed(base, "configuration_change")] else []
  {
    var first := if d then ["deployment"] else [];
    var rows := outbox + if d then [Renamed(base, "deployment")] else [];
    assert AddChanges(outbox, base, first) == rows by {
      assert first != [] ==> first[..0] == [];
    }
    if c {
      assert (first + ["configuration_change"])[..|first|] == first;
      Apart(base.id);
      if d {
        AddRowOrigin(outbox, Renamed(base, "deployment"), base.id + "configuration_change");
      }
    } else {
      assert first + [] == first;
    }
  }

  lemma Apart(id: string)
    ensures id + "deployment" != id + "configuration_change"
  {
    assert |id + "deployment"| != |id + "configuration_change"|;
  }

  /** The row of the event and those of its changes. */
  function Rows(base: Row, deployed: bool, reconfigured: bool): (rows: seq<Row>)
    ensures |rows| == 1 + (if deployed then 1 else 0) + (if reconfigured then 1 else 0)
    ensures rows[0] == base && (deployed ==> rows[1] == Renamed(base, "deployment"))
    ensures reconfigured ==> rows[|rows| - 1] == Renamed(base, "configuration_change")
  {
    [base] + (if deployed then [Renamed(base, "deployment")] else [])
    + if reconfigured then [Renamed(base, "configuration_change")] else []
  }

  lemma InspectedRows(config: Config, db: Db, e: Event, observed: int, inspection: Option<Inspection>)
    requires Collisionless(config) && Rooted(config, db.outbox) && !Skipped(config, db.outbox, e, observed)
    requires Inspected(e, observed, inspection)
    ensures CaptureOne(config, db, e, observed, inspection).outbox
            == db.outbox + Rows(Base(config, e, observed, inspection), Deployed(db.instances, e, observed, inspection),
                                Reconfigured(db.instances, e, observed, inspection))
  {
    hide Rooted, Has, Changes, Previous, Registered, Answered, Inspected, Deployed, Reconfigured, Usable;
    var base := Base(config, e, observed, inspection);
    var o := Occurrence(e.instance, e.action, e.stamp.value);
    var d, c := Deployed(db.instances, e, observed, inspection), Reconfigured(db.instances, e, observed, inspection);
    InspectedIff(e, observed, inspection);
    NotDie(db.instances, e, observed, inspection);
    ChangesAre(db.instances, e, observed, inspection);
    FreshEnding(config, db.outbox, o, "deployment");
    FreshEnding(config, db.outbox, o, "configuration_change");
    NotEnding(base, db.outbox, "deployment");
    NotEnding(base, db.outbox, "configuration_change");
    AddChangesAre(db.outbox + [base], base, d, c);
    RowsAfter(db.outbox, base, d, c);
  }

  lemma RowsAfter(outbox: seq<Row>, base: Row, d: bool, c: bool)
    ensures outbox + Rows(base, d, c)
            == (outbox + [base]) + (if d then [Renamed(base, "deployment")] else [])
               + if c then [Renamed(base, "configuration_change")] else []
  {
  }

  lemma RowsAdd(config: Config, instances: map<string, Instance>, e: Event, observed: int, inspection: Option<Inspection>)
    requires Relevant(config, e)
    ensures Adds(config, instances, e, observed, inspection,
                 Rows(Base(config, e, observed, inspection), Deployed(instances, e, observed, inspection),
                      Reconfigured(instances, e, observed, inspection)))
  {
    hide Base, Holds, Named, Relevant, Deployed, Reconfigured, Rows;
    var base := Base(config, e, observed, inspection);
    BaseIs(config, e, observed, inspection);
    RenamedHolds(config, e, observed, inspection, base, "deployment");
    RenamedHolds(config, e, observed, inspection, base, "configuration_change");
  }

  /** A captured event adds its own row, and exactly the rows of the changes a start shows. */
  lemma CaptureOneAdds(config: Config, db: Db, e: Event, observed: int, inspection: Option<Inspection>)
    requires Collisionless(config) && Rooted(config, db.outbox) && !Skipped(config, db.outbox, e, observed)
    ensures var after := CaptureOne(config, db, e, observed, inspection).outbox;
            && db.outbox <= after
            && Adds(config, db.instances, e, observed, inspection, after[|db.outbox|..])
  {
    hide Adds, Rooted, Has, Changes, Previous, Registered, Answered, Inspected, AddChanges;
    var rows := Rows(Base(config, e, observed, inspection), Deployed(db.instances, e, observed, inspection),
                     Reconfigured(db.instances, e, observed, inspection));
    InspectedIff(e, observed, inspection);
    RowsAdd(config, db.instances, e, observed, inspection);
    if Inspected(e, observed, inspection) {
      InspectedRows(config, db, e, observed, inspection);
    } else {
      assert rows == [Base(config, e, observed, inspection)];
    }
    assert (db.outbox + rows)[|db.outbox|..] == rows;
  }

  lemma BaseIs(config: Config, e: Event, observed: int, inspection: Option<Inspection>)
    requires Relevant(config, e)
    ensures var base := Base(config, e, observed, inspection);
            && base.id == config.digest(Occurrence(e.instance, e.action, e.stamp.value)) == Identify(config, e)
            && Named(e.action, base.line.name) && Holds(config, e, observed, inspection, base, base.line.name, "")
  {
    BaseHolds(config, e, observed, inspection);
  }

  lemma NotDie(instances: map<string, Instance>, e: Event, observed: int, inspection: Option<Inspection>)
    requires e.stamp.Some? && Inspected(e, observed, inspection)
    ensures Stopped(instances, e) == instances
  {
  }

  lemma NotEnding(base: Row, outbox: seq<Row>, ending: string)
    requires !Has(outbox, base.id + ending) && ending != ""
    ensures !Has(outbox + [base], base.id + ending)
  {
    HasLongerIff(outbox, base, base.id + ending);
    assert |base.id + ending| > |base.id|;
  }

  lemma RenamedHolds(config: Config, e: Event, observed: int, inspection: Option<Inspection>, base: Row, name: string)
    requires Holds(config, e, observed, inspection, base, base.line.name, "")
    ensures Holds(config, e, observed, inspection, Renamed(base, name), name, name)
  {
    assert base.id + "" == base.id;
  }

  // ----- the table of instances -----

  /** What becomes of the instances: a death marks its instance, a compared start registers its own and drops the stopped
      one it replaces, and nothing else changes. */
  lemma InstancesAfter(config: Config, db: Db, e: Event, observed: int, inspection: Option<Inspection>)
    requires !Skipped(config, db.outbox, e, observed)
    ensures var before, after := db.instances, CaptureOne(config, db, e, observed, inspection).instances;
            if Answered(e, observed, inspection) then
              && e.instance in after
              && after[e.instance] == Instance(e.service, inspection.value.image, inspection.value.memory, false)
              && (forall j :: j != e.instance ==>
                    (j in after <==> j in before
                                     && !(e.instance !in before && before[j].stopped && Sole(before, e.service, j))))
              && (forall j :: j in after && j != e.instance ==> after[j] == before[j])
            else
              && after.Keys == before.Keys
              && (forall j :: j in before ==>
                    after[j] == if e.action == "die" && j == e.instance then before[j].(stopped := true) else before[j])
  {
    InspectedIff(e, observed, inspection);
    var before := db.instances;
    if Inspected(e, observed, inspection) {
      forall j | j in before
        ensures Previous(before, e) == Some(before[j]) <==> Compared(before, e, before[j])
      {
        PreviousIff(before, e, before[j]);
      }
      if Previous(before, e).Some? {
        PreviousIff(before, e, Previous(before, e).value);
      }
    }
  }

  // ----- over batches and runs -----

  lemma AddsRooted(config: Config, instances: map<string, Instance>, e: Event, observed: int,
                   inspection: Option<Inspection>, outbox: seq<Row>, added: seq<Row>)
    requires Collisionless(config) && Rooted(config, outbox)
    requires Adds(config, instances, e, observed, inspection, added)
    ensures Rooted(config, outbox + added)
  {
    hide Rooted, Has;
    var o := Occurrence(e.instance, e.action, e.stamp.value);
    assert forall i :: 0 <= i < |added| ==> config.digest(o) <= added[i].id;
    assert added[0].id == config.digest(o) && outbox + added[..0] == outbox;
    for n := 0 to |added|
      invariant Rooted(config, outbox + added[..n])
      invariant n > 0 ==> Has(outbox + added[..n], config.digest(o))
    {
      assert outbox + added[..n + 1] == (outbox + added[..n]) + [added[n]];
      HasLongerIff(outbox + added[..n], added[n], config.digest(o));
      AddRowRooted(config, outbox + added[..n], added[n], o);
    }
    assert added[..|added|] == added;
  }

  lemma CaptureOneRooted(config: Config, db: Db, e: Event, observed: int, inspection: Option<Inspection>)
    requires Collisionless(config) && Rooted(config, db.outbox)
    ensures Rooted(config, CaptureOne(config, db, e, observed, inspection).outbox)
  {
    hide Collisionless, Rooted, Adds, Skipped, AddRow, Base, Inspected;
    if !Skipped(config, db.outbox, e, observed) {
      hide CaptureOne;
      CaptureOneAdds(config, db, e, observed, inspection);
      var after := CaptureOne(config, db, e, observed, inspection).outbox;
      AddsRooted(config, db.instances, e, observed, inspection, db.outbox, after[|db.outbox|..]);
      assert db.outbox + after[|db.outbox|..] == after;
    }
  }

  lemma {:induction false} CaptureAllRooted(config: Config, db: Db, events: seq<Event>, observed: int,
                                            inspect: nat -> Option<Inspection>)
    requires Collisionless(config) && Rooted(config, db.outbox)
    ensures Rooted(config, CaptureAll(config, db, events, observed, inspect).outbox)
  {
    if events != [] {
      hide Rooted, CaptureOne;
      var n := |events| - 1;
      CaptureAllRooted(config, db, events[..n], observed, inspect);
      CaptureOneRooted(config, CaptureAll(config, db, events[..n], observed, inspect), events[n], observed, inspect(n));
    }
  }

  /** The k-th event of a batch adds this row. */
  ghost predicate AddedAt(config: Config, db: Db, events: seq<Event>, observed: int, inspect: nat -> Option<Inspection>,
                          k: nat, row: Row) {
    k < |events| && Counts(config, events[k], observed)
    && exists added :: Adds(config, CaptureAll(config, db, events[..k], observed, inspect).instances, events[k], observed,
                            inspect(k), added)
                       && row in added
  }

  /** Every row of a batch was added by one of its events, answered by its own inspection. */
  lemma {:induction false} BatchAdds(config: Config, db: Db, events: seq<Event>, observed: int,
                                     inspect: nat -> Option<Inspection>, i: nat)
    requires Collisionless(config) && Rooted(config, db.outbox)
    requires |db.outbox| <= i < |CaptureAll(config, db, events, observed, inspect).outbox|
    ensures exists k: nat :: AddedAt(config, db, events, observed, inspect, k,
                                     CaptureAll(config, db, events, observed, inspect).outbox[i])
  {
    hide Rooted, Adds, CaptureOne, Skipped, Counts;
    if events != [] {
      var n := |events| - 1;
      var before := CaptureAll(config, db, events[..n], observed, inspect);
      var row := CaptureAll(config, db, events, observed, inspect).outbox[i];
      CaptureOneGrows(config, before, events[n], observed, inspect(n));
      if i < |before.outbox| {
        BatchAdds(config, db, events[..n], observed, inspect, i);
        var k: nat :| AddedAt(config, db, events[..n], observed, inspect, k, before.outbox[i]);
        assert events[..n][..k] == events[..k];
        assert AddedAt(config, db, events, observed, inspect, k, row);
      } else {
        CaptureAllRooted(config, db, events[..n], observed, inspect);
        LastAdds(config, before, events[n], observed, inspect(n), i);
        assert AddedAt(config, db, events, observed, inspect, n, row);
      }
    }
  }

  lemma LastAdds(config: Config, db: Db, e: Event, observed: int, inspection: Option<Inspection>, i: nat)
    requires Collisionless(config) && Rooted(config, db.outbox)
    requires |db.outbox| <= i < |CaptureOne(config, db, e, observed, inspection).outbox|
    ensures Counts(config, e, observed)
    ensures exists added :: Adds(config, db.instances, e, observed, inspection, added)
                            && CaptureOne(config, db, e, observed, inspection).outbox[i] in added
  {
    hide Rooted, Adds;
    var after := CaptureOne(config, db, e, observed, inspection).outbox;
    SkippedIff(config, db.outbox, e, observed);
    CaptureOneAdds(config, db, e, observed, inspection);
    assert after[i] == after[|db.outbox|..][i - |db.outbox|];
  }

  lemma {:induction false} RunRooted(config: Config, steps: seq<Step>)
    requires Collisionless(config)
    ensures Rooted(config, Run(config, steps).db.outbox)
  {
    if steps != [] {
      hide Collisionless, Rooted, CaptureAll, Mark, Safe;
      var n := |steps| - 1;
      var s := Run(config, steps[..n]);
      RunRooted(config, steps[..n]);
      RunSafe(config, steps[..n]);
      match (s.phase, steps[n])
      case (Asked(since, until), Save(reply, observed, inspect)) =>
        CaptureFailsIff(config, s.db, reply, observed, inspect);
        CaptureAllRooted(config, s.db, reply, observed, inspect);
      case (Accepted(rows), Deliver) =>
        MarkRooted(config, s.db.outbox, Ids(rows));
      case (_, _) =>
    }
  }

  lemma MarkRooted(config: Config, outbox: seq<Row>, ids: set<string>)
    requires Rooted(config, outbox)
    ensures Rooted(config, Mark(outbox, ids))
  {
    forall o, i | 0 <= i < |outbox| && config.digest(o) < Mark(outbox, ids)[i].id
      ensures Has(Mark(outbox, ids), config.digest(o))
    {
      assert config.digest(o) < outbox[i].id;
      MarkHas(outbox, ids, config.digest(o));
    }
  }

  /** The n-th step saved the reply whose k-th event adds this row. */
  ghost predicate WrittenBy(config: Config, steps: seq<Step>, n: nat, k: nat, row: Row) {
    && n < |steps| && steps[n].Save?
    && AddedAt(config, Run(config, steps[..n]).db, steps[n].reply, steps[n].observed, steps[n].inspect, k, row)
  }

  /** Every row of every run, the delivery mark aside, was added by an event the daemon reported, when it was saved. */
  lemma {:induction false} RowsAreWritten(config: Config, steps: seq<Step>, i: nat)
    requires Collisionless(config) && i < |Run(config, steps).db.outbox|
    ensures exists n: nat, k: nat :: WrittenBy(config, steps, n, k, Run(config, steps).db.outbox[i].(delivered := false))
  {
    hide Next, AddedAt;
    if steps != [] {
      var m := |steps| - 1;
      var s := Run(config, steps[..m]);
      var row := Run(config, steps).db.outbox[i];
      RunSafe(config, steps[..m]);
      NextKeeps(config, s, steps[m]);
      if i < |s.db.outbox| {
        RowsAreWritten(config, steps[..m], i);
        var n: nat, k: nat :| WrittenBy(config, steps[..m], n, k, s.db.outbox[i].(delivered := false));
        assert steps[..m][..n] == steps[..n];
        assert WrittenBy(config, steps, n, k, row.(delivered := false));
      } else {
        RunRooted(config, steps[..m]);
        var k: nat := SaveWrites(config, s, steps[m], i);
        assert WrittenBy(config, steps, m, k, row.(delivered := false));
      }
    }
  }

  lemma SaveWrites(config: Config, s: System, step: Step, i: nat) returns (k: nat)
    requires Collisionless(config) && Safe(config, s) && Rooted(config, s.db.outbox)
    requires |s.db.outbox| <= i < |Next(config, s, step).db.outbox|
    ensures step.Save?
    ensures AddedAt(config, s.db, step.reply, step.observed, step.inspect, k, Next(config, s, step).db.outbox[i].(delivered := false))
  {
    hide AddedAt, Rooted;
    assert s.phase.Asked? && step.Save?;
    CaptureFailsIff(config, s.db, step.reply, step.observed, step.inspect);
    CaptureAllWaits(config, s.db, step.reply, step.observed, step.inspect);
    BatchAdds(config, s.db, step.reply, step.observed, step.inspect, i);
    k :| AddedAt(config, s.db, step.reply, step.observed, step.inspect, k, Next(config, s, step).db.outbox[i]);
  }

  // ----- what delivered means -----

  predicate Waits(row: Row) {
    !row.delivered
  }

  /** The rows that wait are the undelivered ones, in their order. */
  lemma {:induction false} WaitingIs(outbox: seq<Row>)
    ensures Waiting(outbox) == Filter(Waits, outbox)
  {
    if outbox != [] {
      WaitingIs(outbox[..|outbox| - 1]);
    }
  }

  /** The n-th step is a push that the log store accepted, and its rows have this identifier among them. */
  ghost predicate AcceptedAt(config: Config, steps: seq<Step>, n: nat, id: string) {
    && n < |steps| && steps[n].Push? && steps[n].accepted
    && exists row :: row in Batch(Run(config, steps[..n]).db.outbox) && row.id == id
  }

  /** Whatever is marked delivered was in a push that the log store accepted before. */
  lemma DeliveredWasAccepted(config: Config, steps: seq<Step>, row: Row)
    requires Collisionless(config) && row in Run(config, steps).db.outbox && row.delivered
    ensures exists n: nat :: AcceptedAt(config, steps, n, row.id)
  {
    RunSafe(config, steps);
    PushedWasAccepted(config, steps, row.id);
  }

  lemma {:induction false} PushedWasAccepted(config: Config, steps: seq<Step>, id: string)
    requires id in Run(config, steps).pushed
    ensures exists n: nat :: AcceptedAt(config, steps, n, id)
  {
    hide Batch, Capture;
    if steps != [] {
      var m := |steps| - 1;
      if id in Run(config, steps[..m]).pushed {
        PushedWasAccepted(config, steps[..m], id);
        var n: nat :| AcceptedAt(config, steps[..m], n, id);
        assert steps[..m][..n] == steps[..n];
        assert AcceptedAt(config, steps, n, id);
      } else {
        assert AcceptedAt(config, steps, m, id);
      }
    }
  }
}
