/** The durable outbox of daemon events: an idempotent, atomic capture over overlapping polls, and delivery that may be
    repeated but is never skipped. A crash may fall between any two transactions. */
module EventOutbox {
  import opened Prelude
  import opened Sorting
  import opened Numerals

  const SECOND := 1_000_000_000
  const START_WINDOW := 10_000_000_000
  const MAX_ROWS := 10000
  const BATCH := 100

  /** One line of the daemon's event stream; a stamp that is no integer is None. */
  datatype Event = Event(container: bool, project: string, service: string, instance: string, action: string,
                         stamp: Option<int>, exitCode: string)

  datatype Inspection = Inspection(image: string, memory: int)

  datatype Line = Line(name: string, instance: string, stamp: int, observed: int, exitCode: Option<int>,
                       memory: Option<int>)

  datatype Row = Row(id: string, stamp: string, service: string, line: Line, delivered: bool)

  datatype Instance = Instance(service: string, image: string, memory: int, stopped: bool)

  /** The three tables: the stored `until` second, the instances seen, and the outbox in insertion order. */
  datatype Db = Db(until: Option<int>, instances: map<string, Instance>, outbox: seq<Row>)

  /** What names an event. */
  datatype Occurrence = Occurrence(instance: string, action: string, stamp: int)

  /** The installed scope, and the digest of an occurrence. */
  datatype Config = Config(project: string, services: set<string>, digest: Occurrence -> string)

  /** Digests of different events differ in some place: none is another one or the beginning of another one. */
  ghost predicate Collisionless(config: Config) {
    forall x, y :: config.digest(x) <= config.digest(y) ==> x == y
  }

  // ----- which events count -----

  predicate Hex(s: string) {
    forall i :: 0 <= i < |s| ==> '0' <= s[i] <= '9' || 'a' <= s[i] <= 'f'
  }

  function Kind(action: string): Option<string> {
    if action == "oom" then Some("oom")
    else if action == "die" then Some("exit")
    else if action == "start" then Some("start")
    else if action == "restart" then Some("restart")
    else if "health_status: " <= action then Some("health_change")
    else None
  }

  /** Which name the row of an action carries. */
  ghost predicate Named(action: string, name: string) {
    || (action == "die" && name == "exit")
    || (action == "oom" && name == "oom")
    || (action == "start" && name == "start")
    || (action == "restart" && name == "restart")
    || (|action| >= 15 && action[..15] == "health_status: " && name == "health_change")
  }

  lemma KindIff(action: string, name: string)
    ensures Kind(action) == Some(name) <==> Named(action, name)
  {
    var prefix := "health_status: ";
    assert prefix <= action <==> |action| >= |prefix| && action[..|prefix|] == prefix;
    assert |action| >= 2 ==> action[..2] == [action[0], action[1]];
    assert prefix[..2] == "he";
    if |action| >= 15 && action[..15] == prefix {
      assert action[0] == action[..15][0] && action[1] == action[..15][1];
    }
  }

  /** An event of the installed scope that is worth a row. */
  predicate Relevant(config: Config, e: Event) {
    && e.container && e.project == config.project && e.service in config.services
    && |e.instance| == 64 && Hex(e.instance)
    && Kind(e.action).Some?
    && e.stamp.Some? && e.stamp.value > 0
  }

  function Identify(config: Config, e: Event): string
    requires e.stamp.Some?
  {
    config.digest(Occurrence(e.instance, e.action, e.stamp.value))
  }

  // ----- capturing one event -----

  predicate Has(outbox: seq<Row>, id: string) {
    exists i :: 0 <= i < |outbox| && outbox[i].id == id
  }

  function AddRow(outbox: seq<Row>, row: Row): seq<Row> {
    if Has(outbox, row.id) then outbox else outbox + [row]
  }

  function ExitCode(text: string): Option<int> {
    if Numeral(text) && Value(text) <= 255 then Some(Value(text)) else None
  }

  predicate Usable(inspection: Option<Inspection>) {
    && inspection.Some?
    && |inspection.value.image| == 71 && inspection.value.image[..7] == "sha256:" && Hex(inspection.value.image[7..])
    && 0 <= inspection.value.memory <= 0x1000_0000_0000_0000
  }

  function Predecessors(instances: map<string, Instance>, service: string): map<string, Instance> {
    map i | i in instances && instances[i].service == service :: instances[i]
  }

  /** The state an inspected start is compared with: the instance's own, or that of the only, stopped instance of the
      same service. */
  function Previous(instances: map<string, Instance>, e: Event): Option<Instance> {
    var others := Predecessors(instances, e.service);
    if e.instance in instances then Some(instances[e.instance])
    else if exists i :: i in others && others.Keys == {i} then
      var i :| i in others && others.Keys == {i};
      if others[i].stopped then Some(others[i]) else None
    else None
  }

  function Changes(previous: Option<Instance>, now: Inspection): seq<string> {
    match previous
    case None => []
    case Some(was) =>
      (if now.image != was.image then ["deployment"] else [])
      + (if now.memory != was.memory then ["configuration_change"] else [])
  }

  function Registered(instances: map<string, Instance>, e: Event, now: Inspection): map<string, Instance> {
    var kept := if e.instance !in instances && Previous(instances, e).Some?
                then instances - Predecessors(instances, e.service).Keys else instances;
    kept[e.instance := Instance(e.service, now.image, now.memory, false)]
  }

  function Stopped(instances: map<string, Instance>, e: Event): map<string, Instance> {
    if e.action == "die" && e.instance in instances then instances[e.instance := instances[e.instance].(stopped := true)]
    else instances
  }

  function AddChanges(outbox: seq<Row>, base: Row, changes: seq<string>): seq<Row> {
    if changes == [] then outbox
    else
      var n := |changes| - 1;
      AddRow(AddChanges(outbox, base, changes[..n]),
             base.(id := base.id + changes[n], line := base.line.(name := changes[n])))
  }

  /** The daemon was asked about this start, and its answer is usable. */
  predicate Inspected(e: Event, observed: int, inspection: Option<Inspection>)
    requires e.stamp.Some?
  {
    e.action == "start" && observed - e.stamp.value <= START_WINDOW && Usable(inspection)
  }

  function Base(config: Config, e: Event, observed: int, inspection: Option<Inspection>): Row
    requires Relevant(config, e)
  {
    Row(Identify(config, e), Decimal(e.stamp.value), e.service,
        Line(Kind(e.action).value, e.instance, e.stamp.value, observed, ExitCode(e.exitCode),
             if Inspected(e, observed, inspection) then Some(inspection.value.memory) else None), false)
  }

  /** The event is skipped: out of scope, from the future, or captured before. */
  predicate Skipped(config: Config, outbox: seq<Row>, e: Event, observed: int) {
    !Relevant(config, e) || e.stamp.value > observed || Has(outbox, Identify(config, e))
  }

  function CaptureOne(config: Config, db: Db, e: Event, observed: int, inspection: Option<Inspection>): Db {
    if Skipped(config, db.outbox, e, observed) then db
    else
      var base := Base(config, e, observed, inspection);
      var instances := Stopped(db.instances, e);
      if Inspected(e, observed, inspection) then
        var now := inspection.value;
        db.(instances := Registered(instances, e, now),
            outbox := AddChanges(AddRow(db.outbox, base), base, Changes(Previous(instances, e), now)))
      else
        db.(instances := instances, outbox := AddRow(db.outbox, base))
  }

  // ----- capturing a batch -----

  datatype Failure = LedgerLimit

  /** The batch as one transaction: too many rows anywhere undo all of it. */
  function Capture(config: Config, db: Db, events: seq<Event>, observed: int, inspect: nat -> Option<Inspection>):
    Result<Db, Failure>
  {
    if events == [] then Ok(db)
    else
      var n := |events| - 1;
      match Capture(config, db, events[..n], observed, inspect)
      case Err(f) => Err(f)
      case Ok(before) =>
        var after := CaptureOne(config, before, events[n], observed, inspect(n));
        if !Skipped(config, before.outbox, events[n], observed) && |after.outbox| > MAX_ROWS then Err(LedgerLimit)
        else Ok(after)
  }

  /** The batch without the limit. */
  function CaptureAll(config: Config, db: Db, events: seq<Event>, observed: int, inspect: nat -> Option<Inspection>): Db {
    if events == [] then db
    else
      var n := |events| - 1;
      CaptureOne(config, CaptureAll(config, db, events[..n], observed, inspect), events[n], observed, inspect(n))
  }

  lemma {:induction false} AddChangesGrows(outbox: seq<Row>, base: Row, changes: seq<string>)
    ensures outbox <= AddChanges(outbox, base, changes)
  {
    if changes != [] {
      AddChangesGrows(outbox, base, changes[..|changes| - 1]);
    }
  }

  lemma CaptureOneGrows(config: Config, db: Db, e: Event, observed: int, inspection: Option<Inspection>)
    ensures db.outbox <= CaptureOne(config, db, e, observed, inspection).outbox
    ensures CaptureOne(config, db, e, observed, inspection).until == db.until
  {
    if !Skipped(config, db.outbox, e, observed) && Inspected(e, observed, inspection) {
      var base := Base(config, e, observed, inspection);
      AddChangesGrows(AddRow(db.outbox, base), base, Changes(Previous(Stopped(db.instances, e), e), inspection.value));
    }
  }

  /** Captured rows are never removed or rewritten. */
  lemma {:induction false} CaptureAllGrows(config: Config, db: Db, events: seq<Event>, observed: int,
                                           inspect: nat -> Option<Inspection>)
    ensures db.outbox <= CaptureAll(config, db, events, observed, inspect).outbox
    ensures CaptureAll(config, db, events, observed, inspect).until == db.until
  {
    if events != [] {
      var n := |events| - 1;
      CaptureAllGrows(config, db, events[..n], observed, inspect);
      CaptureOneGrows(config, CaptureAll(config, db, events[..n], observed, inspect), events[n], observed, inspect(n));
    }
  }

  /** The transaction fails exactly when the whole batch would not fit, and otherwise does the whole batch. */
  lemma {:induction false} CaptureFailsIff(config: Config, db: Db, events: seq<Event>, observed: int,
                                           inspect: nat -> Option<Inspection>)
    requires |db.outbox| <= MAX_ROWS
    ensures Capture(config, db, events, observed, inspect)
            == var all := CaptureAll(config, db, events, observed, inspect);
               if |all.outbox| > MAX_ROWS then Err(LedgerLimit) else Ok(all)
  {
    if events != [] {
      var n := |events| - 1;
      CaptureFailsIff(config, db, events[..n], observed, inspect);
      CaptureOneGrows(config, CaptureAll(config, db, events[..n], observed, inspect), events[n], observed, inspect(n));
    }
  }

  // ----- one row per event -----

  ghost predicate UniqueIds(outbox: seq<Row>) {
    forall i, j :: 0 <= i < |outbox| && 0 <= j < |outbox| && outbox[i].id == outbox[j].id ==> i == j
  }

  /** A row either derives from another row, or its digest names its own instance, stamp and action. */
  ghost predicate RowSound(config: Config, row: Row) {
    && row.line.stamp > 0 && row.stamp == Decimal(row.line.stamp)
    && exists action :: Describes(config, row, action) || Derives(config, row, action)
  }

  ghost predicate Describes(config: Config, row: Row, action: string) {
    row.id == config.digest(Occurrence(row.line.instance, action, row.line.stamp)) && Named(action, row.line.name)
  }

  /** The row reports a change seen at a start: its name goes on after the digest of the start. */
  ghost predicate Derives(config: Config, row: Row, action: string) {
    && action == "start" && row.line.name in {"deployment", "configuration_change"}
    && row.id == config.digest(Occurrence(row.line.instance, action, row.line.stamp)) + row.line.name
  }

  ghost predicate Sound(config: Config, outbox: seq<Row>) {
    UniqueIds(outbox) && forall i :: 0 <= i < |outbox| ==> RowSound(config, outbox[i])
  }

  lemma AddRowKeeps(config: Config, outbox: seq<Row>, row: Row)
    requires Sound(config, outbox) && RowSound(config, row)
    ensures Sound(config, AddRow(outbox, row)) && Has(AddRow(outbox, row), row.id)
  {
    if !Has(outbox, row.id) {
      assert (outbox + [row])[|outbox|] == row;
    }
  }

  lemma {:induction false} AddChangesKeeps(config: Config, outbox: seq<Row>, base: Row, changes: seq<string>, action: string)
    requires Sound(config, outbox) && RowSound(config, base) && Describes(config, base, action) && action == "start"
    requires forall i :: 0 <= i < |changes| ==> changes[i] in {"deployment", "configuration_change"}
    ensures Sound(config, AddChanges(outbox, base, changes))
  {
    if changes != [] {
      var n := |changes| - 1;
      AddChangesKeeps(config, outbox, base, changes[..n], action);
      var row := base.(id := base.id + changes[n], line := base.line.(name := changes[n]));
      assert Derives(config, row, action);
      AddRowKeeps(config, AddChanges(outbox, base, changes[..n]), row);
    }
  }

  lemma HasLonger(a: seq<Row>, b: seq<Row>, id: string)
    requires a <= b && Has(a, id)
    ensures Has(b, id)
  {
    var i :| 0 <= i < |a| && a[i].id == id;
    assert b[i].id == id;
  }

  lemma BaseSound(config: Config, e: Event, observed: int, inspection: Option<Inspection>)
    requires Collisionless(config) && Relevant(config, e)
    ensures RowSound(config, Base(config, e, observed, inspection))
    ensures Describes(config, Base(config, e, observed, inspection), e.action)
  {
    KindIff(e.action, Kind(e.action).value);
    assert Describes(config, Base(config, e, observed, inspection), e.action);
  }

  lemma CaptureOneKeeps(config: Config, db: Db, e: Event, observed: int, inspection: Option<Inspection>)
    requires Collisionless(config) && Sound(config, db.outbox)
    ensures var after := CaptureOne(config, db, e, observed, inspection);
            && Sound(config, after.outbox)
            && (Relevant(config, e) && e.stamp.value <= observed ==> Has(after.outbox, Identify(config, e)))
  {
    hide RowSound, AddChanges, Registered, Previous;
    if !Skipped(config, db.outbox, e, observed) {
      var base := Base(config, e, observed, inspection);
      BaseSound(config, e, observed, inspection);
      AddRowKeeps(config, db.outbox, base);
      if Inspected(e, observed, inspection) {
        var changes := Changes(Previous(Stopped(db.instances, e), e), inspection.value);
        AddChangesKeeps(config, AddRow(db.outbox, base), base, changes, e.action);
        AddChangesGrows(AddRow(db.outbox, base), base, changes);
        HasLonger(AddRow(db.outbox, base), AddChanges(AddRow(db.outbox, base), base, changes), base.id);
      }
    }
  }

  lemma {:induction false} CaptureAllKeeps(config: Config, db: Db, events: seq<Event>, observed: int,
                                           inspect: nat -> Option<Inspection>)
    requires Collisionless(config) && Sound(config, db.outbox)
    ensures var after := CaptureAll(config, db, events, observed, inspect);
            && Sound(config, after.outbox)
            && forall e :: e in events && Relevant(config, e) && e.stamp.value <= observed ==> Has(after.outbox, Identify(config, e))
  {
    if events != [] {
      var n := |events| - 1;
      var before := CaptureAll(config, db, events[..n], observed, inspect);
      var after := CaptureAll(config, db, events, observed, inspect);
      CaptureAllKeeps(config, db, events[..n], observed, inspect);
      CaptureOneKeeps(config, before, events[n], observed, inspect(n));
      CaptureOneGrows(config, before, events[n], observed, inspect(n));
      forall e | e in events && Relevant(config, e) && e.stamp.value <= observed
        ensures Has(after.outbox, Identify(config, e))
      {
        assert events == events[..n] + [events[n]];
        if e in events[..n] {
          HasLonger(before.outbox, after.outbox, Identify(config, e));
        }
      }
    }
  }

  /** The one row that stands for an event. */
  ghost predicate Stands(config: Config, row: Row, e: Event) {
    e.stamp.Some? && row.id == Identify(config, e) && row.line.instance == e.instance
    && row.line.stamp == e.stamp.value && Named(e.action, row.line.name)
  }

  /** A captured event has exactly one base row, and that row describes it. */
  lemma CapturedOnce(config: Config, outbox: seq<Row>, e: Event)
    requires Collisionless(config) && Sound(config, outbox) && Relevant(config, e)
    ensures Has(outbox, Identify(config, e))
            <==> exists i :: 0 <= i < |outbox| && Stands(config, outbox[i], e)
                             && forall j :: 0 <= j < |outbox| && outbox[j].id == outbox[i].id ==> j == i
  {
    if i :| 0 <= i < |outbox| && outbox[i].id == Identify(config, e) {
      assert RowSound(config, outbox[i]);
      var action :| Describes(config, outbox[i], action) || Derives(config, outbox[i], action);
      assert Stands(config, outbox[i], e);
    }
  }

  lemma {:induction false} SkippedAll(config: Config, db: Db, events: seq<Event>, observed: int,
                                      inspect: nat -> Option<Inspection>)
    requires forall e :: e in events ==> Skipped(config, db.outbox, e, observed)
    ensures CaptureAll(config, db, events, observed, inspect) == db
  {
    if events != [] {
      assert events == events[..|events| - 1] + [events[|events| - 1]];
      SkippedAll(config, db, events[..|events| - 1], observed, inspect);
    }
  }

  /** Replaying events, all or some, in any order and with other inspections, changes nothing. */
  lemma ReplayChangesNothing(config: Config, db: Db, events: seq<Event>, again: seq<Event>, observed: int, observed': int,
                             inspect: nat -> Option<Inspection>, inspect': nat -> Option<Inspection>)
    requires Collisionless(config) && Sound(config, db.outbox)
    requires observed' <= observed && forall e :: e in again ==> e in events
    ensures var after := CaptureAll(config, db, events, observed, inspect);
            CaptureAll(config, after, again, observed', inspect') == after
  {
    CaptureAllKeeps(config, db, events, observed, inspect);
    SkippedAll(config, CaptureAll(config, db, events, observed, inspect), again, observed', inspect');
  }

  // ----- coverage of a window -----

  ghost predicate InWindow(e: Event, since: int, until: int) {
    e.stamp.Some? && since * SECOND <= e.stamp.value <= until * SECOND
  }

  /** Every relevant event of the log between the two seconds has its row. */
  ghost predicate Covered(config: Config, log: set<Event>, since: int, until: int, outbox: seq<Row>) {
    forall e :: e in log && Relevant(config, e) && InWindow(e, since, until) ==> Has(outbox, Identify(config, e))
  }

  /** A reply that holds the events of the window and invents none. */
  ghost predicate Honest(log: set<Event>, since: int, until: int, reply: seq<Event>) {
    && (forall e :: e in log && InWindow(e, since, until) ==> e in reply)
    && (forall e :: e in reply ==> e in log)
  }

  lemma CaptureOneOrigin(config: Config, db: Db, e: Event, observed: int, inspection: Option<Inspection>, x: Event)
    requires Collisionless(config) && x.stamp.Some?
    requires Has(CaptureOne(config, db, e, observed, inspection).outbox, Identify(config, x))
    requires !Has(db.outbox, Identify(config, x))
    ensures Relevant(config, e) && e.stamp.value <= observed && Identify(config, e) == Identify(config, x)
  {
    var id := Identify(config, x);
    if !Skipped(config, db.outbox, e, observed) {
      var base := Base(config, e, observed, inspection);
      NoBeginning(config, e, x);
      if Has(AddRow(db.outbox, base), id) {
        AddRowOrigin(db.outbox, base, id);
      } else if Inspected(e, observed, inspection) {
        AddChangesOrigin(AddRow(db.outbox, base), base, Changes(Previous(Stopped(db.instances, e), e), inspection.value), id);
      }
    }
  }

  lemma NoBeginning(config: Config, e: Event, x: Event)
    requires Collisionless(config) && e.stamp.Some? && x.stamp.Some?
    ensures Identify(config, e) <= Identify(config, x) ==> Identify(config, e) == Identify(config, x)
  {
    if Identify(config, e) <= Identify(config, x) {
      assert Occurrence(e.instance, e.action, e.stamp.value) == Occurrence(x.instance, x.action, x.stamp.value);
    }
  }

  lemma AddRowOrigin(outbox: seq<Row>, row: Row, id: string)
    ensures Has(AddRow(outbox, row), id) <==> Has(outbox, id) || row.id == id
  {
    HasLongerIff(outbox, row, id);
  }

  lemma HasLongerIff(outbox: seq<Row>, row: Row, id: string)
    ensures Has(outbox + [row], id) <==> Has(outbox, id) || row.id == id
  {
    var longer := outbox + [row];
    assert longer[|outbox|] == row;
    if Has(outbox, id) {
      HasLonger(outbox, longer, id);
    }
  }

  lemma {:induction false} AddChangesOrigin(outbox: seq<Row>, base: Row, changes: seq<string>, id: string)
    requires !(base.id < id) && forall i :: 0 <= i < |changes| ==> changes[i] != ""
    ensures Has(AddChanges(outbox, base, changes), id) <==> Has(outbox, id)
  {
    if changes != [] {
      var n := |changes| - 1;
      AddChangesOrigin(outbox, base, changes[..n], id);
      AddRowOrigin(AddChanges(outbox, base, changes[..n]),
                   base.(id := base.id + changes[n], line := base.line.(name := changes[n])), id);
    }
  }

  /** A digest is in the outbox after a batch exactly when it was there before or a captured event has it. */
  lemma {:induction false} CaptureAllIff(config: Config, db: Db, events: seq<Event>, observed: int,
                                         inspect: nat -> Option<Inspection>, x: Event)
    requires Collisionless(config) && x.stamp.Some? && Sound(config, db.outbox)
    ensures var id := Identify(config, x);
            Has(CaptureAll(config, db, events, observed, inspect).outbox, id)
            <==> Has(db.outbox, id)
                 || exists e :: e in events && Relevant(config, e) && e.stamp.value <= observed && Identify(config, e) == id
  {
    var id := Identify(config, x);
    CaptureAllKeeps(config, db, events, observed, inspect);
    CaptureAllGrows(config, db, events, observed, inspect);
    if Has(db.outbox, id) {
      HasLonger(db.outbox, CaptureAll(config, db, events, observed, inspect).outbox, id);
    }
    if events != [] {
      var n := |events| - 1;
      assert events == events[..n] + [events[n]];
      var before := CaptureAll(config, db, events[..n], observed, inspect);
      CaptureAllIff(config, db, events[..n], observed, inspect, x);
      if Has(CaptureAll(config, db, events, observed, inspect).outbox, id) && !Has(before.outbox, id) {
        CaptureOneOrigin(config, before, events[n], observed, inspect(n), x);
      }
    }
  }

  /** No event of the window is both newer than the observation clock and not captured before. */
  ghost predicate Caught(config: Config, log: set<Event>, outbox: seq<Row>, since: int, until: int, observed: int) {
    forall e :: e in log && Relevant(config, e) && InWindow(e, since, until)
                ==> e.stamp.value <= observed || Has(outbox, Identify(config, e))
  }

  /** After an honest poll its window is covered exactly when the observation clock has caught all of it: only a clock
      that steps back within the poll loses an event. */
  lemma PollCoversIff(config: Config, log: set<Event>, db: Db, since: int, until: int, reply: seq<Event>, observed: int,
                      inspect: nat -> Option<Inspection>)
    requires Collisionless(config) && Sound(config, db.outbox) && Honest(log, since, until, reply)
    ensures Covered(config, log, since, until, CaptureAll(config, db, reply, observed, inspect).outbox)
            <==> Caught(config, log, db.outbox, since, until, observed)
  {
    forall e | e in log && Relevant(config, e) && InWindow(e, since, until)
      ensures Has(CaptureAll(config, db, reply, observed, inspect).outbox, Identify(config, e))
              <==> e.stamp.value <= observed || Has(db.outbox, Identify(config, e))
    {
      CaptureAllIff(config, db, reply, observed, inspect, e);
    }
  }

  /** When the clock does not step back within the poll, it catches the window. */
  lemma SteadyCatches(config: Config, log: set<Event>, outbox: seq<Row>, since: int, until: int, observed: int)
    requires until * SECOND <= observed
    ensures Caught(config, log, outbox, since, until, observed)
  {
  }

  lemma CoveredLonger(config: Config, log: set<Event>, since: int, until: int, a: seq<Row>, b: seq<Row>)
    requires a <= b && Covered(config, log, since, until, a)
    ensures Covered(config, log, since, until, b)
  {
    forall e | e in log && Relevant(config, e) && InWindow(e, since, until)
      ensures Has(b, Identify(config, e))
    {
      HasLonger(a, b, Identify(config, e));
    }
  }

  // ----- delivery -----

  function Waiting(outbox: seq<Row>): seq<Row> {
    if outbox == [] then []
    else Waiting(outbox[..|outbox| - 1]) + (if outbox[|outbox| - 1].delivered then [] else [outbox[|outbox| - 1]])
  }

  /** Length of the stamp, then its text, then the identifier. */
  predicate RowLeq(a: Row, b: Row) {
    if |a.stamp| != |b.stamp| then |a.stamp| < |b.stamp|
    else if a.stamp != b.stamp then StringLeq(a.stamp, b.stamp)
    else StringLeq(a.id, b.id)
  }

  /** The rows of one push. */
  function Batch(outbox: seq<Row>): seq<Row> {
    var rows := Sort(Waiting(outbox), RowLeq);
    rows[..Min(BATCH, |rows|)]
  }

  function Ids(rows: seq<Row>): set<string> {
    set row | row in rows :: row.id
  }

  function MarkRow(row: Row, ids: set<string>): Row {
    if row.id in ids then row.(delivered := true) else row
  }

  function Mark(outbox: seq<Row>, ids: set<string>): seq<Row> {
    seq(|outbox|, i requires 0 <= i < |outbox| => MarkRow(outbox[i], ids))
  }

  lemma {:induction false} WaitingMembers(outbox: seq<Row>, row: Row)
    ensures row in Waiting(outbox) <==> row in outbox && !row.delivered
  {
    if outbox != [] {
      var n := |outbox| - 1;
      WaitingMembers(outbox[..n], row);
      assert outbox == outbox[..n] + [outbox[n]];
    }
  }

  lemma RowPair(a: Row, b: Row)
    ensures RowLeq(a, b) || RowLeq(b, a)
  {
    StringLeqTotal(a.stamp, b.stamp);
    StringLeqTotal(a.id, b.id);
  }

  lemma RowTriple(a: Row, b: Row, c: Row)
    requires RowLeq(a, b) && RowLeq(b, c)
    ensures RowLeq(a, c)
  {
    if |a.stamp| == |b.stamp| == |c.stamp| {
      if a.stamp != b.stamp || b.stamp != c.stamp {
        StringLeqTotal(a.stamp, b.stamp);
        StringLeqTotal(b.stamp, c.stamp);
        StringLeqTransitive(a.stamp, b.stamp, c.stamp);
      } else {
        StringLeqTransitive(a.id, b.id, c.id);
      }
    }
  }

  lemma RowOrder()
    ensures TotalPreorder(RowLeq)
  {
    forall a, b
      ensures RowLeq(a, b) || RowLeq(b, a)
    {
      RowPair(a, b);
    }
    forall a, b, c | RowLeq(a, b) && RowLeq(b, c)
      ensures RowLeq(a, c)
    {
      RowTriple(a, b, c);
    }
  }

  /** The order of the query is the order of the stamps as numbers. */
  lemma RowLeqIsNumeric(config: Config, a: Row, b: Row)
    requires RowSound(config, a) && RowSound(config, b) && RowLeq(a, b)
    ensures a.line.stamp <= b.line.stamp
  {
    LengthThenTextOrders(a.line.stamp, b.line.stamp);
    StringLeqTotal(a.stamp, b.stamp);
  }

  /** A push takes undelivered rows, and no undelivered row left behind is older than one that is taken. */
  lemma BatchIsEarliest(config: Config, outbox: seq<Row>, taken: Row, left: Row)
    requires Sound(config, outbox) && taken in Batch(outbox) && left in outbox && !left.delivered && left !in Batch(outbox)
    ensures taken in outbox && !taken.delivered && taken.line.stamp <= left.line.stamp && |Batch(outbox)| == BATCH
  {
    var rows := Sort(Waiting(outbox), RowLeq);
    SortKeeps(Waiting(outbox), RowLeq);
    RowOrder();
    SortAscends(Waiting(outbox), RowLeq);
    WaitingMembers(outbox, taken);
    WaitingMembers(outbox, left);
    var i :| 0 <= i < |Batch(outbox)| && Batch(outbox)[i] == taken;
    var j :| 0 <= j < |rows| && rows[j] == left;
    assert forall k :: 0 <= k < |Batch(outbox)| ==> Batch(outbox)[k] == rows[k] && Batch(outbox)[k] in Batch(outbox);
    assert rows[i] == taken && RowLeq(rows[i], rows[j]);
    SoundMember(config, outbox, taken);
    SoundMember(config, outbox, left);
    RowLeqIsNumeric(config, taken, left);
  }

  lemma SoundMember(config: Config, outbox: seq<Row>, row: Row)
    requires Sound(config, outbox) && row in outbox
    ensures RowSound(config, row)
  {
    var i :| 0 <= i < |outbox| && outbox[i] == row;
  }

  // ----- the whole process, with crashes -----

  /** Where the process is between two transactions; all of it is lost in a crash. */
  datatype Phase = Idle
                 | Asked(since: int, until: int)
                 | Saved(since: int, until: int)
                 | Accepted(rows: seq<Row>)

  /** The database, the rows the log store has accepted at least once, and the first second ever asked for. */
  datatype System = System(db: Db, pushed: set<string>, first: Option<int>, phase: Phase)

  datatype Step = Ask(now: int)
                | Save(reply: seq<Event>, observed: int, inspect: nat -> Option<Inspection>)
                | Advance
                | Push(accepted: bool, answered: bool)
                | Deliver
                | Crash

  const NEW := System(Db(None, map[], []), {}, None, Idle)

  function Since(db: Db, now: int): int {
    match db.until
    case Some(until) => until - 1
    case None => now - 60
  }

  function Next(config: Config, s: System, step: Step): System {
    match (s.phase, step)
    case (Idle, Ask(now)) => s.(phase := Asked(Since(s.db, now), now))
    case (Asked(since, until), Save(reply, observed, inspect)) =>
      (match Capture(config, s.db, reply, observed, inspect)
       case Ok(db) => s.(db := db, phase := Saved(since, until))
       case Err(_) => s.(phase := Idle))
    case (Saved(since, until), Advance) =>
      s.(db := s.db.(until := Some(until)), first := if s.db.until.None? then Some(since) else s.first, phase := Idle)
    case (Idle, Push(accepted, answered)) =>
      var rows := Batch(s.db.outbox);
      if rows == [] then s
      else s.(pushed := if accepted then s.pushed + Ids(rows) else s.pushed,
              phase := if accepted && answered then Accepted(rows) else Idle)
    case (Accepted(rows), Deliver) => s.(db := s.db.(outbox := Mark(s.db.outbox, Ids(rows))), phase := Idle)
    case (_, Crash) => s.(phase := Idle)
    case (_, _) => s
  }

  function Run(config: Config, steps: seq<Step>): System {
    if steps == [] then NEW else Next(config, Run(config, steps[..|steps| - 1]), steps[|steps| - 1])
  }

  ghost predicate Delivery(s: System) {
    && (forall i :: 0 <= i < |s.db.outbox| && s.db.outbox[i].delivered ==> s.db.outbox[i].id in s.pushed)
    && (s.phase.Accepted? ==> Ids(s.phase.rows) <= s.pushed)
  }

  ghost predicate Safe(config: Config, s: System) {
    Sound(config, s.db.outbox) && |s.db.outbox| <= MAX_ROWS && Delivery(s)
  }

  lemma MarkKeeps(config: Config, outbox: seq<Row>, ids: set<string>)
    requires Sound(config, outbox)
    ensures Sound(config, Mark(outbox, ids))
  {
    forall i | 0 <= i < |outbox|
      ensures RowSound(config, Mark(outbox, ids)[i])
    {
      assert RowSound(config, outbox[i]);
      var action :| Describes(config, outbox[i], action) || Derives(config, outbox[i], action);
      assert Describes(config, Mark(outbox, ids)[i], action) || Derives(config, Mark(outbox, ids)[i], action);
    }
  }

  lemma {:induction false} NewRowsWait(outbox: seq<Row>, base: Row, changes: seq<string>)
    requires !base.delivered
    ensures forall i :: |outbox| <= i < |AddChanges(outbox, base, changes)| ==> !AddChanges(outbox, base, changes)[i].delivered
  {
    AddChangesGrows(outbox, base, changes);
    if changes != [] {
      AddChangesGrows(outbox, base, changes[..|changes| - 1]);
      NewRowsWait(outbox, base, changes[..|changes| - 1]);
    }
  }

  lemma CaptureOneWaits(config: Config, db: Db, e: Event, observed: int, inspection: Option<Inspection>)
    ensures var after := CaptureOne(config, db, e, observed, inspection).outbox;
            forall i :: |db.outbox| <= i < |after| ==> !after[i].delivered
  {
    CaptureOneGrows(config, db, e, observed, inspection);
    if !Skipped(config, db.outbox, e, observed) && Inspected(e, observed, inspection) {
      var base := Base(config, e, observed, inspection);
      NewRowsWait(AddRow(db.outbox, base), base, Changes(Previous(Stopped(db.instances, e), e), inspection.value));
      AddChangesGrows(AddRow(db.outbox, base), base, Changes(Previous(Stopped(db.instances, e), e), inspection.value));
    }
  }

  /** Newly captured rows are undelivered. */
  lemma {:induction false} CaptureAllWaits(config: Config, db: Db, events: seq<Event>, observed: int,
                                           inspect: nat -> Option<Inspection>)
    ensures var after := CaptureAll(config, db, events, observed, inspect).outbox;
            forall i :: |db.outbox| <= i < |after| ==> !after[i].delivered
  {
    if events != [] {
      var n := |events| - 1;
      var before := CaptureAll(config, db, events[..n], observed, inspect);
      CaptureAllWaits(config, db, events[..n], observed, inspect);
      CaptureOneWaits(config, before, events[n], observed, inspect(n));
      CaptureOneGrows(config, before, events[n], observed, inspect(n));
      var after := CaptureOne(config, before, events[n], observed, inspect(n)).outbox;
      CaptureAllGrows(config, db, events[..n], observed, inspect);
      forall i | |db.outbox| <= i < |after|
        ensures !after[i].delivered
      {
        assert i < |before.outbox| ==> after[i] == before.outbox[i];
      }
    }
  }

  lemma NextSafe(config: Config, s: System, step: Step)
    requires Collisionless(config) && Safe(config, s)
    ensures Safe(config, Next(config, s, step))
  {
    match (s.phase, step)
    case (Asked(since, until), Save(reply, observed, inspect)) =>
      CaptureFailsIff(config, s.db, reply, observed, inspect);
      CaptureAllKeeps(config, s.db, reply, observed, inspect);
      CaptureAllGrows(config, s.db, reply, observed, inspect);
      CaptureAllWaits(config, s.db, reply, observed, inspect);
    case (Accepted(rows), Deliver) =>
      MarkKeeps(config, s.db.outbox, Ids(rows));
    case (_, _) =>
  }

  /** Across any polls, pushes and crashes: rows are unique and describe their event, the ledger stays within its
      limit, and a row is marked delivered only after the log store accepted it. */
  lemma {:induction false} RunSafe(config: Config, steps: seq<Step>)
    requires Collisionless(config)
    ensures Safe(config, Run(config, steps))
  {
    if steps != [] {
      RunSafe(config, steps[..|steps| - 1]);
      NextSafe(config, Run(config, steps[..|steps| - 1]), steps[|steps| - 1]);
    }
  }

  /** No row is ever lost: later states keep every row, and a delivered row stays delivered. */
  ghost predicate Keeps(a: seq<Row>, b: seq<Row>) {
    |a| <= |b| && forall i :: 0 <= i < |a| ==> b[i] == a[i] || b[i] == a[i].(delivered := true)
  }

  lemma NextKeeps(config: Config, s: System, step: Step)
    requires |s.db.outbox| <= MAX_ROWS
    ensures Keeps(s.db.outbox, Next(config, s, step).db.outbox)
  {
    match (s.phase, step)
    case (Asked(since, until), Save(reply, observed, inspect)) =>
      CaptureFailsIff(config, s.db, reply, observed, inspect);
      CaptureAllGrows(config, s.db, reply, observed, inspect);
    case (_, _) =>
  }

  lemma {:induction false} RunKeeps(config: Config, steps: seq<Step>, n: nat)
    requires Collisionless(config) && n <= |steps|
    ensures Keeps(Run(config, steps[..n]).db.outbox, Run(config, steps).db.outbox)
  {
    if n < |steps| {
      var m := |steps| - 1;
      RunKeeps(config, steps[..m], n);
      assert steps[..m][..n] == steps[..n];
      RunSafe(config, steps[..m]);
      NextKeeps(config, Run(config, steps[..m]), steps[m]);
    } else {
      assert steps[..n] == steps;
    }
  }

  // ----- coverage over a whole run -----

  /** The daemon answers honestly, and the clock read after its answer catches the window. */
  ghost predicate Catches(config: Config, log: set<Event>, s: System, step: Step) {
    s.phase.Asked? && step.Save? ==>
      && Honest(log, s.phase.since, s.phase.until, step.reply)
      && Caught(config, log, s.db.outbox, s.phase.since, s.phase.until, step.observed)
  }

  ghost predicate CatchingRun(config: Config, log: set<Event>, steps: seq<Step>) {
    forall n :: 0 <= n < |steps| ==> Catches(config, log, Run(config, steps[..n]), steps[n])
  }

  /** Everything from the first second asked for up to the stored one has its row. */
  ghost predicate Complete(config: Config, log: set<Event>, s: System) {
    && (s.db.until.Some? <==> s.first.Some?)
    && (s.db.until.Some? ==> Covered(config, log, s.first.value, s.db.until.value, s.db.outbox))
    && (s.phase.Saved? ==> Covered(config, log, s.phase.since, s.phase.until, s.db.outbox))
    && ((s.phase.Asked? || s.phase.Saved?) && s.db.until.Some? ==> s.phase.since == s.db.until.value - 1)
  }

  lemma WindowsJoin(config: Config, log: set<Event>, first: int, stored: int, until: int, outbox: seq<Row>)
    requires Covered(config, log, first, stored, outbox) && Covered(config, log, stored - 1, until, outbox)
    ensures Covered(config, log, first, until, outbox)
  {
    forall e | e in log && Relevant(config, e) && InWindow(e, first, until)
      ensures Has(outbox, Identify(config, e))
    {
      assert InWindow(e, first, stored) || InWindow(e, stored - 1, until);
    }
  }

  lemma MarkHas(outbox: seq<Row>, ids: set<string>, id: string)
    ensures Has(Mark(outbox, ids), id) <==> Has(outbox, id)
  {
    if i :| 0 <= i < |outbox| && outbox[i].id == id {
      assert Mark(outbox, ids)[i].id == id;
    }
    if i :| 0 <= i < |outbox| && Mark(outbox, ids)[i].id == id {
      assert outbox[i].id == id;
    }
  }

  lemma MarkCovers(config: Config, log: set<Event>, since: int, until: int, outbox: seq<Row>, ids: set<string>)
    requires Covered(config, log, since, until, outbox)
    ensures Covered(config, log, since, until, Mark(outbox, ids))
  {
    forall e | e in log && Relevant(config, e) && InWindow(e, since, until)
      ensures Has(Mark(outbox, ids), Identify(config, e))
    {
      MarkHas(outbox, ids, Identify(config, e));
    }
  }

  lemma SaveComplete(config: Config, log: set<Event>, s: System, step: Step)
    requires Collisionless(config) && Safe(config, s) && Complete(config, log, s) && Catches(config, log, s, step)
    requires s.phase.Asked? && step.Save?
    ensures Complete(config, log, Next(config, s, step))
  {
    CaptureFailsIff(config, s.db, step.reply, step.observed, step.inspect);
    CaptureAllGrows(config, s.db, step.reply, step.observed, step.inspect);
    var after := CaptureAll(config, s.db, step.reply, step.observed, step.inspect);
    PollCoversIff(config, log, s.db, s.phase.since, s.phase.until, step.reply, step.observed, step.inspect);
    if s.db.until.Some? {
      CoveredLonger(config, log, s.first.value, s.db.until.value, s.db.outbox, after.outbox);
    }
  }

  lemma NextComplete(config: Config, log: set<Event>, s: System, step: Step)
    requires Collisionless(config) && Safe(config, s) && Complete(config, log, s) && Catches(config, log, s, step)
    ensures Complete(config, log, Next(config, s, step))
  {
    match (s.phase, step)
    case (Asked(since, until), Save(_, _, _)) =>
      SaveComplete(config, log, s, step);
    case (Saved(since, until), Advance) =>
      if s.db.until.Some? {
        WindowsJoin(config, log, s.first.value, s.db.until.value, until, s.db.outbox);
      }
    case (Accepted(rows), Deliver) =>
      if s.db.until.Some? {
        MarkCovers(config, log, s.first.value, s.db.until.value, s.db.outbox, Ids(rows));
      }
    case (_, _) =>
  }

  /** Coverage: whatever crashes and failed pushes happen, every relevant event from the start of the first poll that
      was recorded to the stored second has its row. */
  lemma {:induction false} RunComplete(config: Config, log: set<Event>, steps: seq<Step>)
    requires Collisionless(config) && CatchingRun(config, log, steps)
    ensures Complete(config, log, Run(config, steps))
  {
    if steps != [] {
      var n := |steps| - 1;
      forall m | 0 <= m < n
        ensures Catches(config, log, Run(config, steps[..n][..m]), steps[..n][m])
      {
        assert steps[..n][..m] == steps[..m];
        assert Catches(config, log, Run(config, steps[..m]), steps[m]);
      }
      RunComplete(config, log, steps[..n]);
      RunSafe(config, steps[..n]);
      assert Catches(config, log, Run(config, steps[..n]), steps[n]);
      NextComplete(config, log, Run(config, steps[..n]), steps[n]);
    }
  }

  /** The daemon answers honestly and the clock does not step back while a poll is under way. */
  ghost predicate Steady(log: set<Event>, s: System, step: Step) {
    s.phase.Asked? && step.Save? ==>
      Honest(log, s.phase.since, s.phase.until, step.reply) && s.phase.until * SECOND <= step.observed
  }

  /** So coverage can only be lost by a clock that steps back within a poll. */
  lemma SteadyRunComplete(config: Config, log: set<Event>, steps: seq<Step>)
    requires Collisionless(config) && forall n :: 0 <= n < |steps| ==> Steady(log, Run(config, steps[..n]), steps[n])
    ensures Complete(config, log, Run(config, steps))
  {
    forall n | 0 <= n < |steps|
      ensures Catches(config, log, Run(config, steps[..n]), steps[n])
    {
      var s, step := Run(config, steps[..n]), steps[n];
      assert Steady(log, s, step);
      if s.phase.Asked? && step.Save? {
        SteadyCatches(config, log, s.db.outbox, s.phase.since, s.phase.until, step.observed);
      }
    }
    RunComplete(config, log, steps);
  }

  /** A recorded poll advances the stored second to the end of its window, whether or not it has covered it. */
  lemma RecordedAnyway(config: Config, log: set<Event>, s: System, now: int, reply: seq<Event>, observed: int,
                       inspect: nat -> Option<Inspection>)
    requires Collisionless(config) && Safe(config, s) && s.phase.Idle? && Honest(log, Since(s.db, now), now, reply)
    requires |CaptureAll(config, s.db, reply, observed, inspect).outbox| <= MAX_ROWS
    ensures var r := Next(config, Next(config, Next(config, s, Ask(now)), Save(reply, observed, inspect)), Advance);
            && r.db.until == Some(now)
            && (Covered(config, log, Since(s.db, now), now, r.db.outbox)
                <==> Caught(config, log, s.db.outbox, Since(s.db, now), now, observed))
  {
    CaptureFailsIff(config, s.db, reply, observed, inspect);
    PollCoversIff(config, log, s.db, Since(s.db, now), now, reply, observed, inspect);
    CaptureAllGrows(config, s.db, reply, observed, inspect);
    var asked := Next(config, s, Ask(now));
    assert asked.phase == Asked(Since(s.db, now), now);
  }

  /** Two polls that lose an event: the clock steps back in the first, the second starts after the event. */
  function LosingRun(e: Event, inspect: nat -> Option<Inspection>): seq<Step> {
    [Ask(100), Save([e], 90 * SECOND, inspect), Advance, Ask(130), Save([], 130 * SECOND, inspect), Advance]
  }

  function Oom(config: Config, service: string): Event {
    Event(true, config.project, service, seq(64, _ => 'a'), "oom", Some(95 * SECOND), "")
  }

  /** Both replies are honest and the second clock is right, yet the event is in the recorded window without a row. */
  lemma EventLostExample(config: Config, service: string, inspect: nat -> Option<Inspection>)
    requires service in config.services
    ensures var e := Oom(config, service);
            var s := Run(config, LosingRun(e, inspect));
            && Relevant(config, e) && Honest({e}, 40, 100, [e]) && Honest({e}, 99, 130, [])
            && s.first == Some(40) && s.db.until == Some(130) && InWindow(e, 40, 130)
            && s.db.outbox == [] && !Covered(config, {e}, 40, 130, s.db.outbox)
  {
    var e := Oom(config, service);
    var steps := LosingRun(e, inspect);
    FirstPollLoses(config, e, inspect);
    var s3 := System(Db(Some(100), map[], []), {}, Some(40), Idle);
    assert steps[..6] == steps && steps[..6][..5] == steps[..5] && steps[..5][..4] == steps[..4] && steps[..4][..3] == steps[..3];
    assert Run(config, steps[..3]) == s3 by {
      assert steps[..3] == [Ask(100), Save([e], 90 * SECOND, inspect), Advance];
    }
    var s4 := s3.(phase := Asked(99, 130));
    assert Run(config, steps[..4]) == s4;
    assert Run(config, steps[..5]) == s4.(phase := Saved(99, 130));
  }

  lemma FirstPollLoses(config: Config, e: Event, inspect: nat -> Option<Inspection>)
    requires Relevant(config, e) && e.stamp.value == 95 * SECOND
    ensures Run(config, [Ask(100), Save([e], 90 * SECOND, inspect), Advance])
            == System(Db(Some(100), map[], []), {}, Some(40), Idle)
  {
    var steps := [Ask(100), Save([e], 90 * SECOND, inspect), Advance];
    assert steps[..2] == [Ask(100), Save([e], 90 * SECOND, inspect)] && steps[..2][..1] == [Ask(100)] && [Ask(100)][..0] == [];
    var s1 := NEW.(phase := Asked(40, 100));
    assert Run(config, [Ask(100)]) == s1;
    assert [e][..0] == [];
    assert Capture(config, NEW.db, [e], 90 * SECOND, inspect) == Ok(NEW.db);
    assert Run(config, steps[..2]) == NEW.(phase := Saved(40, 100));
  }

  // ----- pushes get everything out -----

  function IdOf(row: Row): string {
    row.id
  }

  /** The identifiers of the rows that wait. */
  function Undelivered(outbox: seq<Row>): set<string> {
    Ids(Waiting(outbox))
  }

  lemma UndeliveredHas(outbox: seq<Row>, id: string)
    ensures id in Undelivered(outbox) <==> exists i :: 0 <= i < |outbox| && outbox[i].id == id && !outbox[i].delivered
  {
    if id in Undelivered(outbox) {
      var row :| row in Waiting(outbox) && row.id == id;
      WaitingMembers(outbox, row);
    }
    if i :| 0 <= i < |outbox| && outbox[i].id == id && !outbox[i].delivered {
      WaitingMembers(outbox, outbox[i]);
    }
  }

  lemma MarkDelivers(outbox: seq<Row>, ids: set<string>)
    ensures Undelivered(Mark(outbox, ids)) == Undelivered(outbox) - ids
  {
    var marked := Mark(outbox, ids);
    forall id
      ensures id in Undelivered(marked) <==> id in Undelivered(outbox) && id !in ids
    {
      UndeliveredHas(marked, id);
      UndeliveredHas(outbox, id);
      if i :| 0 <= i < |outbox| && outbox[i].id == id && !outbox[i].delivered {
        assert id !in ids ==> marked[i].id == id && !marked[i].delivered;
      }
      if i :| 0 <= i < |marked| && marked[i].id == id && !marked[i].delivered {
        assert outbox[i].id == id && !outbox[i].delivered;
      }
    }
  }

  lemma {:induction false} WaitingDistinct(outbox: seq<Row>)
    requires UniqueIds(outbox)
    ensures DistinctBy(Waiting(outbox), IdOf)
  {
    if outbox != [] {
      var n := |outbox| - 1;
      var before := Waiting(outbox[..n]);
      WaitingDistinct(outbox[..n]);
      forall i | 0 <= i < |before|
        ensures before[i].id != outbox[n].id
      {
        WaitingMembers(outbox[..n], before[i]);
        var j :| 0 <= j < n && outbox[..n][j] == before[i];
        assert outbox[j].id == before[i].id;
      }
    }
  }

  lemma {:induction false} IdsCount(rows: seq<Row>)
    requires DistinctBy(rows, IdOf)
    ensures |Ids(rows)| == |rows|
  {
    if rows != [] {
      var n := |rows| - 1;
      IdsCount(rows[..n]);
      assert Ids(rows) == Ids(rows[..n]) + {rows[n].id} by {
        assert rows == rows[..n] + [rows[n]];
      }
      assert forall i :: 0 <= i < n ==> rows[..n][i] == rows[i] && IdOf(rows[i]) != IdOf(rows[n]);
      assert rows[n].id !in Ids(rows[..n]);
    }
  }

  /** A push takes a hundred of the waiting rows, or all of them. */
  lemma BatchTakes(outbox: seq<Row>)
    requires UniqueIds(outbox)
    ensures Ids(Batch(outbox)) <= Undelivered(outbox) && |Ids(Batch(outbox))| == Min(BATCH, |Undelivered(outbox)|)
  {
    var waiting := Waiting(outbox);
    var rows := Sort(waiting, RowLeq);
    SortKeeps(waiting, RowLeq);
    WaitingDistinct(outbox);
    PermutedDistinct(waiting, rows, IdOf);
    IdsCount(waiting);
    IdsCount(Batch(outbox));
  }

  /** The outbox after k answered pushes. */
  function Flushed(outbox: seq<Row>, k: nat): seq<Row> {
    if k == 0 then outbox
    else
      var before := Flushed(outbox, k - 1);
      Mark(before, Ids(Batch(before)))
  }

  lemma MarkUnique(outbox: seq<Row>, ids: set<string>)
    requires UniqueIds(outbox)
    ensures UniqueIds(Mark(outbox, ids))
  {
    assert forall i :: 0 <= i < |outbox| ==> Mark(outbox, ids)[i].id == outbox[i].id;
  }

  /** Each answered push takes a hundred rows off what waits, until nothing does. */
  lemma {:induction false} FlushesDrain(outbox: seq<Row>, k: nat)
    requires UniqueIds(outbox)
    ensures UniqueIds(Flushed(outbox, k))
    ensures |Undelivered(Flushed(outbox, k))| == Max(0, |Undelivered(outbox)| - k * BATCH)
  {
    if k > 0 {
      hide Mark, Batch, Undelivered, UniqueIds;
      var before := Flushed(outbox, k - 1);
      FlushesDrain(outbox, k - 1);
      MarkUnique(before, Ids(Batch(before)));
      MarkDelivers(before, Ids(Batch(before)));
      BatchTakes(before);
      SetSplit(Undelivered(before), Ids(Batch(before)));
    }
  }

  function Pushes(k: nat): seq<Step> {
    if k == 0 then [] else Pushes(k - 1) + [Push(true, true), Deliver]
  }

  lemma PushStep(config: Config, s: System)
    requires s.phase.Idle?
    ensures var r := Next(config, Next(config, s, Push(true, true)), Deliver);
            r.phase.Idle? && r.db.outbox == Mark(s.db.outbox, Ids(Batch(s.db.outbox)))
  {
    MarkNothing(s.db.outbox);
  }

  lemma RunTwo(config: Config, steps: seq<Step>, a: Step, b: Step)
    ensures Run(config, steps + [a, b]) == Next(config, Next(config, Run(config, steps), a), b)
  {
    hide Next;
    var all := steps + [a, b];
    assert all[..|steps| + 1] == steps + [a] && (steps + [a])[..|steps|] == steps;
  }

  lemma {:induction false} PushesFlush(config: Config, steps: seq<Step>, k: nat)
    requires Run(config, steps).phase.Idle?
    ensures var s := Run(config, steps + Pushes(k));
            s.phase.Idle? && s.db.outbox == Flushed(Run(config, steps).db.outbox, k)
  {
    if k == 0 {
      assert steps + Pushes(0) == steps;
    } else {
      hide Next, Mark, Batch, Run;
      PushesFlush(config, steps, k - 1);
      assert steps + Pushes(k) == (steps + Pushes(k - 1)) + [Push(true, true), Deliver];
      RunTwo(config, steps + Pushes(k - 1), Push(true, true), Deliver);
      PushStep(config, Run(config, steps + Pushes(k - 1)));
    }
  }

  /** Progress: when the process is idle, answered pushes with no poll between them deliver everything, a hundred rows
      each; a hundred pushes are always enough. */
  lemma PushesDeliverAll(config: Config, steps: seq<Step>, k: nat)
    requires Collisionless(config) && Run(config, steps).phase.Idle?
    requires k >= 100 || |Undelivered(Run(config, steps).db.outbox)| <= k * BATCH
    ensures forall row :: row in Run(config, steps + Pushes(k)).db.outbox ==> row.delivered
    ensures Keeps(Run(config, steps).db.outbox, Run(config, steps + Pushes(k)).db.outbox)
  {
    var before, after := Run(config, steps).db.outbox, Run(config, steps + Pushes(k)).db.outbox;
    RunSafe(config, steps);
    WaitingFewer(before);
    PushesFlush(config, steps, k);
    FlushesDrain(before, k);
    assert (steps + Pushes(k))[..|steps|] == steps;
    RunKeeps(config, steps + Pushes(k), |steps|);
    forall row | row in after
      ensures row.delivered
    {
      var i :| 0 <= i < |after| && after[i] == row;
      UndeliveredHas(after, row.id);
    }
  }

  lemma WaitingFewer(outbox: seq<Row>)
    requires UniqueIds(outbox)
    ensures |Undelivered(outbox)| == |Waiting(outbox)| <= |outbox|
  {
    WaitingDistinct(outbox);
    IdsCount(Waiting(outbox));
    WaitingLength(outbox);
  }

  lemma {:induction false} WaitingLength(outbox: seq<Row>)
    ensures |Waiting(outbox)| <= |outbox|
  {
    if outbox != [] {
      WaitingLength(outbox[..|outbox| - 1]);
    }
  }

  // ----- the collector as the program runs it -----

  class Collector {
    const config: Config
    var until: Option<int>
    var instances: map<string, Instance>
    var outbox: seq<Row>

    constructor (config: Config)
      ensures this.config == config && Contents() == Db(None, map[], [])
    {
      this.config := config;
      until, instances, outbox := None, map[], [];
    }

    function Contents(): Db
      reads this
    {
      Db(until, instances, outbox)
    }

    method SaveOne(e: Event, observed: int, inspection: Option<Inspection>)
      modifies this`instances, this`outbox
      ensures Contents() == CaptureOne(config, old(Contents()), e, observed, inspection)
    {
      if Skipped(config, outbox, e, observed) {
        return;
      }
      var base := Base(config, e, observed, inspection);
      instances := Stopped(instances, e);
      outbox := AddRow(outbox, base);
      if Inspected(e, observed, inspection) {
        var changes := Changes(Previous(instances, e), inspection.value);
        instances := Registered(instances, e, inspection.value);
        outbox := AddChanges(outbox, base, changes);
      }
    }

    /** One transaction: an overfull ledger rolls every table back. */
    method SaveBatch(events: seq<Event>, observed: int, inspect: nat -> Option<Inspection>) returns (saved: bool)
      modifies this`instances, this`outbox
      ensures saved <==> Capture(config, old(Contents()), events, observed, inspect).Ok?
      ensures Contents() == if saved then Capture(config, old(Contents()), events, observed, inspect).value else old(Contents())
    {
      var instances0, outbox0 := instances, outbox;
      for n := 0 to |events|
        invariant until == old(until)
        invariant Capture(config, old(Contents()), events[..n], observed, inspect) == Ok(Contents())
      {
        assert events[..n + 1][..n] == events[..n];
        var skipped := Skipped(config, outbox, events[n], observed);
        SaveOne(events[n], observed, inspect(n));
        if !skipped && |outbox| > MAX_ROWS {
          CaptureStaysFailed(config, old(Contents()), events, observed, inspect, n + 1);
          instances, outbox := instances0, outbox0;
          return false;
        }
      }
      assert events[..|events|] == events;
      saved := true;
    }

    /** Reading, saving and advancing, each its own transaction; `read` is the daemon's reply to the window. */
    method Poll(now: int, read: (int, int) -> seq<Event>, observed: int, inspect: nat -> Option<Inspection>)
      returns (saved: bool)
      modifies this
      ensures var since := Since(old(Contents()), now);
              var r := Capture(config, old(Contents()), read(since, now), observed, inspect);
              && saved == r.Ok?
              && Contents() == if saved then r.value.(until := Some(now)) else old(Contents())
    {
      var since := Since(Contents(), now);
      saved := SaveBatch(read(since, now), observed, inspect);
      if saved {
        until := Some(now);
      }
    }

    /** One push of at most a hundred rows; they are marked only after the log store has answered. */
    method Flush(answered: bool) returns (sent: seq<Row>)
      modifies this`outbox
      ensures sent == (if answered then Batch(old(outbox)) else [])
      ensures outbox == Mark(old(outbox), Ids(sent))
    {
      sent := Batch(outbox);
      if !answered {
        sent := [];
      }
      MarkNothing(outbox);
      outbox := Mark(outbox, Ids(sent));
    }
  }

  lemma MarkNothing(outbox: seq<Row>)
    ensures Mark(outbox, {}) == outbox
  {
  }

  lemma {:induction false} CaptureStaysFailed(config: Config, db: Db, events: seq<Event>, observed: int,
                                              inspect: nat -> Option<Inspection>, n: nat)
    requires n <= |events| && Capture(config, db, events[..n], observed, inspect).Err?
    ensures Capture(config, db, events, observed, inspect).Err?
  {
    if n < |events| {
      var m := |events| - 1;
      assert events[..m][..n] == events[..n];
      CaptureStaysFailed(config, db, events[..m], observed, inspect, n);
    } else {
      assert events[..n] == events;
    }
  }

  /** An undisturbed poll is the three steps of the crash-prone process, one after the other. */
  lemma PollIsThreeSteps(config: Config, s: System, now: int, reply: seq<Event>, observed: int,
                         inspect: nat -> Option<Inspection>)
    requires s.phase.Idle?
    ensures var saved := Next(config, Next(config, s, Ask(now)), Save(reply, observed, inspect));
            var r := Capture(config, s.db, reply, observed, inspect);
            && (r.Ok? ==> Next(config, saved, Advance).db == r.value.(until := Some(now)))
            && (r.Err? ==> saved.db == s.db && saved.phase.Idle?)
  {
    var asked := Next(config, s, Ask(now));
    assert asked.phase == Asked(Since(s.db, now), now);
  }
}
