/** All interleavings of requests and deletions, one atomic step per lock block or owner-local action. */
module RequestProtocol {
  import opened Prelude
  import opened RequestCache

  /** Where an owner stands between its lock blocks. */
  datatype Stage = Computing | Computed(value: Value) | Stored(value: Value) | Returning(value: Value) | Raising(error: Error)

  datatype Outcome = Delivered(value: Value) | Raised(error: Error)

  /** A request: the owner of a flight, a request that joined one, or one that has ended. */
  datatype Request =
    | Owning(flight: nat, stage: Stage)
    | Waiting(flight: nat)
    | EndedOwner(flight: nat, outcome: Outcome)
    | EndedJoiner(flight: nat, outcome: Outcome)
    | TimedOut(flight: nat)
    | AnsweredFromCache(value: Value)
    | Refused

  /** `keys` remembers what each request asked for. */
  datatype System = System(shared: Shared, requests: map<nat, Request>, keys: map<nat, Key>)

  datatype Event =
    | Arrives(id: nat, key: Key, refresh: bool, now: int)
    | Computes(id: nat, value: Value)
    | Fails(id: nat, error: Error)
    | Stores(id: nat, now: int)
    | Delivers(id: nat, failure: Error)
    | Settles(id: nat)
    | Wakes(id: nat, failure: Error)
    | GivesUp(id: nat)
    | Deletes(result: string, now: int)

  const START := System(EMPTY, map[], map[])

  function Put(s: System, id: nat, r: Request): System {
    s.(requests := s.requests[id := r])
  }

  function WithFlight(s: System, f: nat, flight: Flight): System
    requires f < |s.shared.flights|
  {
    s.(shared := s.shared.(flights := s.shared.flights[f := flight]))
  }

  predicate Owns(s: System, id: nat) {
    id in s.requests && s.requests[id].Owning? && s.requests[id].flight < |s.shared.flights|
  }

  predicate Waits(s: System, id: nat) {
    id in s.requests && s.requests[id].Waiting? && s.requests[id].flight < |s.shared.flights|
  }

  /** What the joined record tells the request that waited on it. */
  function Answer(flight: Flight, failure: Error): Outcome
    requires flight.error.Some? || flight.payload.Some?
  {
    if flight.error.Some? then Raised(flight.error.value)
    else if flight.payload.value.deliverable then Delivered(flight.payload.value)
    else Raised(failure)
  }

  predicate Enabled(s: System, e: Event) {
    match e
    case Arrives(id, _, _, _) => id !in s.requests && (s.shared.pending.Some? ==> s.shared.pending.value < |s.shared.flights|)
    case Computes(id, _) => Owns(s, id) && s.requests[id].stage.Computing?
    case Fails(id, _) => Owns(s, id) && (s.requests[id].stage.Computing? || s.requests[id].stage.Computed?)
    case Stores(id, _) => Owns(s, id) && s.requests[id].stage.Computed?
    case Delivers(id, _) => Owns(s, id) && s.requests[id].stage.Stored?
    case Settles(id) => Owns(s, id) && (s.requests[id].stage.Returning? || s.requests[id].stage.Raising?)
    case Wakes(id, _) =>
      Waits(s, id) && s.shared.flights[s.requests[id].flight].settled
      && (s.shared.flights[s.requests[id].flight].error.Some? || s.shared.flights[s.requests[id].flight].payload.Some?)
    case GivesUp(id) => Waits(s, id) && !s.shared.flights[s.requests[id].flight].settled
    case Deletes(_, _) => true
  }

  /** The step an enabled event takes. */
  function Next(config: Config, s: System, e: Event): System
    requires Enabled(s, e)
  {
    match e
    case Arrives(id, key, refresh, now) =>
      var (shared, reply) := Enter(s.shared, key, refresh, now);
      var s1 := s.(shared := shared, keys := s.keys[id := key]);
      (match reply
       case Hit(value) => Put(s1, id, AnsweredFromCache(value))
       case Busy => Put(s1, id, Refused)
       case Join(f) => Put(s1, id, Waiting(f))
       case Own(f) => Put(s1, id, Owning(f, Computing)))
    case Computes(id, value) =>
      var f := s.requests[id].flight;
      Put(WithFlight(s, f, s.shared.flights[f].(payload := Some(value))), id, Owning(f, Computed(value)))
    case Fails(id, error) =>
      var f := s.requests[id].flight;
      Put(WithFlight(s, f, s.shared.flights[f].(error := Some(error))), id, Owning(f, Raising(error)))
    case Stores(id, now) =>
      var f, value := s.requests[id].flight, s.requests[id].stage.value;
      Put(s.(shared := Store(config, s.shared, s.shared.flights[f].key, value, now)), id, Owning(f, Stored(value)))
    case Delivers(id, failure) =>
      var f, value := s.requests[id].flight, s.requests[id].stage.value;
      if value.deliverable then Put(s, id, Owning(f, Returning(value)))
      else Put(WithFlight(s, f, s.shared.flights[f].(error := Some(failure))), id, Owning(f, Raising(failure)))
    case Settles(id) =>
      var f, stage := s.requests[id].flight, s.requests[id].stage;
      Put(s.(shared := Settle(s.shared, f)), id,
          EndedOwner(f, if stage.Returning? then Delivered(stage.value) else Raised(stage.error)))
    case Wakes(id, failure) =>
      var f := s.requests[id].flight;
      Put(s, id, EndedJoiner(f, Answer(s.shared.flights[f], failure)))
    case GivesUp(id) => Put(s, id, TimedOut(s.requests[id].flight))
    case Deletes(result, now) => s.(shared := Delete(config, s.shared, result, now))
  }

  /** A run: every event was enabled when it happened. */
  ghost predicate Run(config: Config, events: seq<Event>, s: System) {
    if events == [] then s == START
    else
      var first, last := events[..|events| - 1], events[|events| - 1];
      exists before :: Run(config, first, before) && Steps(config, before, last, s)
  }

  ghost predicate Steps(config: Config, before: System, e: Event, after: System) {
    Enabled(before, e) && after == Next(config, before, e)
  }

  // ----- the invariant -----

  ghost predicate Joins(r: Request, f: nat) {
    (r.Waiting? || r.EndedJoiner? || r.TimedOut?) && r.flight == f
  }

  ghost predicate Leads(r: Request, f: nat) {
    (r.Owning? || r.EndedOwner?) && r.flight == f
  }

  /** The record says what its owner has done so far. */
  ghost predicate StageFits(flight: Flight, stage: Stage) {
    && !flight.settled
    && match stage
       case Computing => flight.payload == None && flight.error == None
       case Computed(value) => flight.payload == Some(value) && flight.error == None
       case Stored(value) => flight.payload == Some(value) && flight.error == None
       case Returning(value) => flight.payload == Some(value) && flight.error == None && value.deliverable
       case Raising(error) => flight.error == Some(error)
  }

  /** What a settled record stands for. */
  ghost predicate Means(flight: Flight, outcome: Outcome) {
    && flight.settled
    && match outcome
       case Raised(error) => flight.error == Some(error)
       case Delivered(value) => flight.error == None && flight.payload == Some(value) && value.deliverable
  }

  ghost predicate RequestFits(s: Shared, r: Request) {
    match r
    case Owning(f, stage) => f < |s.flights| && s.pending == Some(f) && StageFits(s.flights[f], stage)
    case Waiting(f) => f < |s.flights| && s.flights[f].joined
    case TimedOut(f) => f < |s.flights| && s.flights[f].joined
    case EndedOwner(f, outcome) => f < |s.flights| && Means(s.flights[f], outcome)
    case EndedJoiner(f, outcome) => f < |s.flights| && s.flights[f].joined && Means(s.flights[f], outcome)
    case AnsweredFromCache(_) => true
    case Refused => true
  }

  /** A flight is in the air exactly while it is pending; every landed one carries an answer that can be delivered
      or an error. */
  ghost predicate FlightFits(s: Shared, f: nat)
    requires f < |s.flights|
  {
    && (s.pending == Some(f) <==> !s.flights[f].settled)
    && (s.flights[f].settled ==>
          s.flights[f].error.Some? || (s.flights[f].payload.Some? && s.flights[f].payload.value.deliverable))
  }

  ghost predicate FlightsFit(s: Shared) {
    && (s.pending.Some? ==> s.pending.value < |s.flights|)
    && forall f :: 0 <= f < |s.flights| ==> FlightFits(s, f)
  }

  ghost predicate Led(s: System) {
    s.shared.pending.Some? ==> exists id :: id in s.requests && s.requests[id].Owning?
  }

  ghost predicate AtMostOne(s: System) {
    forall a, b :: a in s.requests && b in s.requests && a != b ==>
      forall f :: 0 <= f < |s.shared.flights| ==>
        !(Leads(s.requests[a], f) && Leads(s.requests[b], f)) && !(Joins(s.requests[a], f) && Joins(s.requests[b], f))
  }

  ghost predicate Inv(config: Config, s: System) {
    && CacheInv(config, s.shared)
    && FlightsFit(s.shared)
    && (forall id :: id in s.requests ==> RequestFits(s.shared, s.requests[id]))
    && Led(s)
    && AtMostOne(s)
  }

  // ----- every step keeps it -----

  /** Only the pending record changed, and only in ways the other requests do not look at. */
  ghost predicate Gentle(a: Shared, b: Shared) {
    && |a.flights| <= |b.flights|
    && forall f :: 0 <= f < |a.flights| ==>
         && (a.flights[f].settled ==> b.flights[f] == a.flights[f])
         && (a.flights[f].joined ==> b.flights[f].joined)
  }

  lemma GentleFits(a: Shared, b: Shared, r: Request)
    requires RequestFits(a, r) && !r.Owning? && Gentle(a, b)
    ensures RequestFits(b, r)
  {
  }

  lemma OnlyOwner(config: Config, s: System, id: nat, other: nat)
    requires Inv(config, s) && Owns(s, id) && other in s.requests && other != id
    ensures !s.requests[other].Owning?
  {
    if s.requests[other].Owning? {
      var f := s.requests[id].flight;
      assert RequestFits(s.shared, s.requests[id]) && RequestFits(s.shared, s.requests[other]);
      assert Leads(s.requests[id], f) && Leads(s.requests[other], f);
    }
  }

  /** An owner's own step: the record of its flight and its own request change, nothing else. */
  lemma OwnerStep(config: Config, s: System, id: nat, flight: Flight, stage: Stage, shared: Shared)
    requires Inv(config, s) && Owns(s, id)
    requires var f := s.requests[id].flight;
             && shared.flights == s.shared.flights[f := flight]
             && shared.pending == s.shared.pending
             && flight.joined == s.shared.flights[f].joined && flight.key == s.shared.flights[f].key
    requires StageFits(flight, stage) && CacheInv(config, shared)
    ensures Inv(config, Put(s.(shared := shared), id, Owning(s.requests[id].flight, stage)))
  {
    var f := s.requests[id].flight;
    var after := Put(s.(shared := shared), id, Owning(f, stage));
    assert RequestFits(s.shared, s.requests[id]);
    forall other | other in after.requests
      ensures RequestFits(after.shared, after.requests[other])
    {
      if other != id {
        OnlyOwner(config, s, id, other);
        assert RequestFits(s.shared, s.requests[other]);
        GentleFits(s.shared, shared, s.requests[other]);
      }
    }
    forall g | 0 <= g < |shared.flights|
      ensures FlightFits(shared, g)
    {
      assert FlightFits(s.shared, g);
    }
    assert after.requests[id].Owning?;
    AtMostOneUpdated(s, after, id);
  }

  /** Changing how one request is labelled without changing which flight it leads or joins. */
  lemma AtMostOneUpdated(s: System, after: System, id: nat)
    requires AtMostOne(s) && id in s.requests && |after.shared.flights| == |s.shared.flights|
    requires after.requests.Keys == s.requests.Keys
    requires forall other :: other in s.requests && other != id ==> after.requests[other] == s.requests[other]
    requires forall f :: 0 <= f < |s.shared.flights| ==>
               && (Leads(after.requests[id], f) <==> Leads(s.requests[id], f))
               && (Joins(after.requests[id], f) <==> Joins(s.requests[id], f))
    ensures AtMostOne(after)
  {
  }

  lemma SettleKeeps(config: Config, s: System, id: nat)
    requires Inv(config, s) && Enabled(s, Settles(id))
    ensures Inv(config, Next(config, s, Settles(id)))
  {
    var f := s.requests[id].flight;
    var after := Next(config, s, Settles(id));
    assert RequestFits(s.shared, s.requests[id]);
    SameCacheInv(config, s.shared, after.shared);
    forall other | other in after.requests
      ensures RequestFits(after.shared, after.requests[other])
    {
      if other != id {
        OnlyOwner(config, s, id, other);
        assert RequestFits(s.shared, s.requests[other]);
        GentleFits(s.shared, after.shared, s.requests[other]);
      }
    }
    forall g | 0 <= g < |after.shared.flights|
      ensures FlightFits(after.shared, g)
    {
      assert FlightFits(s.shared, g);
    }
    AtMostOneUpdated(s, after, id);
  }

  lemma WaiterKeeps(config: Config, s: System, id: nat, r: Request)
    requires Inv(config, s) && Waits(s, id)
    requires Joins(r, s.requests[id].flight) && !r.Owning? && RequestFits(s.shared, r)
    ensures Inv(config, Put(s, id, r))
  {
    var after := Put(s, id, r);
    if s.shared.pending.Some? {
      var owner :| owner in s.requests && s.requests[owner].Owning?;
      assert after.requests[owner].Owning?;
    }
    AtMostOneUpdated(s, after, id);
  }

  /** A request that ends at the door leaves the flights alone. */
  lemma BystanderKeeps(config: Config, s: System, shared: Shared, keys: map<nat, Key>, id: nat, r: Request)
    requires Inv(config, s) && id !in s.requests && (r.AnsweredFromCache? || r.Refused?)
    requires CacheInv(config, shared) && shared.flights == s.shared.flights && shared.pending == s.shared.pending
    ensures Inv(config, Put(s.(shared := shared, keys := keys), id, r))
  {
    var after := Put(s.(shared := shared, keys := keys), id, r);
    forall f | 0 <= f < |shared.flights|
      ensures FlightFits(shared, f)
    {
      assert FlightFits(s.shared, f);
    }
    forall other | other in after.requests
      ensures RequestFits(shared, after.requests[other])
    {
      if other != id {
        assert RequestFits(s.shared, s.requests[other]);
      }
    }
    if shared.pending.Some? {
      var owner :| owner in s.requests && s.requests[owner].Owning?;
      assert after.requests[owner].Owning?;
    }
  }

  lemma JoinKeeps(config: Config, s: System, shared: Shared, keys: map<nat, Key>, id: nat, f: nat)
    requires Inv(config, s) && id !in s.requests && s.shared.pending == Some(f) && !s.shared.flights[f].joined
    requires CacheInv(config, shared) && shared.pending == s.shared.pending
    requires shared.flights == s.shared.flights[f := s.shared.flights[f].(joined := true)]
    ensures Inv(config, Put(s.(shared := shared, keys := keys), id, Waiting(f)))
  {
    var after := Put(s.(shared := shared, keys := keys), id, Waiting(f));
    forall g | 0 <= g < |shared.flights|
      ensures FlightFits(shared, g)
    {
      assert FlightFits(s.shared, g);
    }
    forall other | other in after.requests
      ensures RequestFits(shared, after.requests[other])
    {
      if other != id {
        assert RequestFits(s.shared, s.requests[other]);
        if !s.requests[other].Owning? {
          GentleFits(s.shared, shared, s.requests[other]);
        }
      }
    }
    var owner :| owner in s.requests && s.requests[owner].Owning?;
    assert after.requests[owner].Owning?;
    forall other | other in s.requests
      ensures !Joins(s.requests[other], f)
    {
      assert RequestFits(s.shared, s.requests[other]);
    }
  }

  lemma OwnKeeps(config: Config, s: System, shared: Shared, keys: map<nat, Key>, id: nat, key: Key)
    requires Inv(config, s) && id !in s.requests && s.shared.pending == None
    requires CacheInv(config, shared) && shared.pending == Some(|s.shared.flights|)
    requires shared.flights == s.shared.flights + [Flight(key, false, false, None, None)]
    ensures Inv(config, Put(s.(shared := shared, keys := keys), id, Owning(|s.shared.flights|, Computing)))
  {
    var f := |s.shared.flights|;
    var after := Put(s.(shared := shared, keys := keys), id, Owning(f, Computing));
    forall g | 0 <= g < |shared.flights|
      ensures FlightFits(shared, g)
    {
      if g < f {
        assert FlightFits(s.shared, g);
      }
    }
    forall other | other in s.requests
      ensures RequestFits(shared, s.requests[other]) && !Leads(s.requests[other], f) && !Joins(s.requests[other], f)
    {
      assert RequestFits(s.shared, s.requests[other]);
      GentleFits(s.shared, shared, s.requests[other]);
    }
    assert after.requests[id].Owning?;
  }

  lemma ArriveKeeps(config: Config, s: System, e: Event)
    requires Inv(config, s) && e.Arrives? && Enabled(s, e)
    ensures Inv(config, Next(config, s, e))
  {
    EnterKeepsCache(config, s.shared, e.key, e.refresh, e.now);
    var (shared, reply) := Enter(s.shared, e.key, e.refresh, e.now);
    var keys := s.keys[e.id := e.key];
    match reply
    case Hit(value) => BystanderKeeps(config, s, shared, keys, e.id, AnsweredFromCache(value));
    case Busy => BystanderKeeps(config, s, shared, keys, e.id, Refused);
    case Join(f) => JoinKeeps(config, s, shared, keys, e.id, f);
    case Own(f) => OwnKeeps(config, s, shared, keys, e.id, e.key);
  }

  lemma OwnerStepsKeep(config: Config, s: System, e: Event)
    requires Inv(config, s) && Enabled(s, e) && (e.Computes? || e.Fails? || e.Stores? || e.Delivers?)
    ensures Inv(config, Next(config, s, e))
  {
    assert RequestFits(s.shared, s.requests[e.id]);
    var f := s.requests[e.id].flight;
    var flight := s.shared.flights[f];
    match e
    case Computes(id, value) =>
      var shared := WithFlight(s, f, flight.(payload := Some(value))).shared;
      SameCacheInv(config, s.shared, shared);
      OwnerStep(config, s, id, flight.(payload := Some(value)), Computed(value), shared);
    case Fails(id, error) =>
      var shared := WithFlight(s, f, flight.(error := Some(error))).shared;
      SameCacheInv(config, s.shared, shared);
      OwnerStep(config, s, id, flight.(error := Some(error)), Raising(error), shared);
    case Stores(id, now) =>
      var value := s.requests[id].stage.value;
      StoreKeepsCache(config, s.shared, flight.key, value, now);
      assert s.shared.flights[f := flight] == s.shared.flights;
      OwnerStep(config, s, id, flight, Stored(value), Store(config, s.shared, flight.key, value, now));
    case Delivers(id, failure) =>
      var value := s.requests[id].stage.value;
      if value.deliverable {
        assert s.shared.flights[f := flight] == s.shared.flights;
        OwnerStep(config, s, id, flight, Returning(value), s.shared);
        assert s.(shared := s.shared) == s;
      } else {
        var shared := WithFlight(s, f, flight.(error := Some(failure))).shared;
        SameCacheInv(config, s.shared, shared);
        OwnerStep(config, s, id, flight.(error := Some(failure)), Raising(failure), shared);
      }
  }

  lemma DeletesKeep(config: Config, s: System, result: string, now: int)
    requires Inv(config, s)
    ensures Inv(config, Next(config, s, Deletes(result, now)))
  {
    var shared := Delete(config, s.shared, result, now);
    DeleteKeepsCache(config, s.shared, result, now);
    forall f | 0 <= f < |shared.flights|
      ensures FlightFits(shared, f)
    {
      assert FlightFits(s.shared, f);
    }
    forall id | id in s.requests
      ensures RequestFits(shared, s.requests[id])
    {
      assert RequestFits(s.shared, s.requests[id]);
    }
  }

  lemma StepKeeps(config: Config, s: System, e: Event)
    requires Inv(config, s) && Enabled(s, e)
    ensures Inv(config, Next(config, s, e))
  {
    match e
    case Arrives(_, _, _, _) => ArriveKeeps(config, s, e);
    case Computes(_, _) => OwnerStepsKeep(config, s, e);
    case Fails(_, _) => OwnerStepsKeep(config, s, e);
    case Stores(_, _) => OwnerStepsKeep(config, s, e);
    case Delivers(_, _) => OwnerStepsKeep(config, s, e);
    case Settles(id) => SettleKeeps(config, s, id);
    case Wakes(id, failure) =>
      var f := s.requests[id].flight;
      assert RequestFits(s.shared, s.requests[id]) && FlightFits(s.shared, f);
      WaiterKeeps(config, s, id, EndedJoiner(f, Answer(s.shared.flights[f], failure)));
    case GivesUp(id) =>
      assert RequestFits(s.shared, s.requests[id]);
      WaiterKeeps(config, s, id, TimedOut(s.requests[id].flight));
    case Deletes(result, now) => DeletesKeep(config, s, result, now);
  }

  /** The invariant holds in every reachable state of every interleaving. */
  lemma {:induction false} RunKeeps(config: Config, events: seq<Event>, s: System)
    requires Run(config, events, s)
    ensures Inv(config, s)
  {
    if events != [] {
      var before :| Run(config, events[..|events| - 1], before) && Steps(config, before, events[|events| - 1], s);
      RunKeeps(config, events[..|events| - 1], before);
      StepKeeps(config, before, events[|events| - 1]);
    }
  }

  // ----- what follows for callers -----

  /** At most one computation is in flight, and at most one request ever joins it. */
  lemma SingleFlight(config: Config, events: seq<Event>, s: System, a: nat, b: nat)
    requires Run(config, events, s) && a in s.requests && b in s.requests
    ensures s.requests[a].Owning? && s.requests[b].Owning? ==> a == b
    ensures forall f: nat :: Joins(s.requests[a], f) && Joins(s.requests[b], f) ==> a == b
  {
    RunKeeps(config, events, s);
    assert RequestFits(s.shared, s.requests[a]) && RequestFits(s.shared, s.requests[b]);
    if s.requests[a].Owning? && s.requests[b].Owning? && a != b {
      OnlyOwner(config, s, a, b);
    }
  }

  /** An owner and a joiner that waited long enough got the same payload or the same error. */
  lemma SameAnswer(config: Config, events: seq<Event>, s: System, owner: nat, joiner: nat)
    requires Run(config, events, s) && owner in s.requests && joiner in s.requests
    requires s.requests[owner].EndedOwner? && s.requests[joiner].EndedJoiner?
    requires s.requests[owner].flight == s.requests[joiner].flight
    ensures s.requests[owner].outcome == s.requests[joiner].outcome
  {
    RunKeeps(config, events, s);
    assert RequestFits(s.shared, s.requests[owner]) && RequestFits(s.shared, s.requests[joiner]);
  }

  /** A request is refused only while some owner is still at work; once every owner has ended, the door is open
      again, however the owners ended. */
  lemma NeverBlocked(config: Config, events: seq<Event>, s: System, key: Key, refresh: bool, now: int)
    requires Run(config, events, s)
    requires forall id :: id in s.requests ==> !s.requests[id].Owning?
    ensures s.shared.pending == None
    ensures !Enter(s.shared, key, refresh, now).1.Busy?
  {
    RunKeeps(config, events, s);
  }

  /** Owner steps until the flight is settled. */
  function Distance(stage: Stage): nat {
    match stage
    case Computing => 4
    case Computed(_) => 3
    case Stored(_) => 2
    case Returning(_) => 1
    case Raising(_) => 1
  }

  /** Every owner can always take a step. */
  lemma OwnerCanMove(config: Config, events: seq<Event>, s: System, id: nat)
    requires Run(config, events, s) && id in s.requests && s.requests[id].Owning?
    ensures exists next :: Enabled(s, next) && !next.Arrives? && !next.Deletes? && next.id == id
  {
    RunKeeps(config, events, s);
    assert RequestFits(s.shared, s.requests[id]);
    match s.requests[id].stage
    case Computing => assert Enabled(s, Fails(id, ""));
    case Computed(_) => assert Enabled(s, Stores(id, 0));
    case Stored(_) => assert Enabled(s, Delivers(id, ""));
    case Returning(_) => assert Enabled(s, Settles(id));
    case Raising(_) => assert Enabled(s, Settles(id));
  }

  /** Each of its steps brings an owner nearer to its end, and the end clears the pending record. */
  lemma OwnerProgresses(config: Config, events: seq<Event>, s: System, id: nat, e: Event)
    requires Run(config, events, s) && id in s.requests && s.requests[id].Owning?
    requires !e.Deletes? && e.id == id && Enabled(s, e)
    ensures var after := Next(config, s, e);
            if e.Settles? then after.requests[id].EndedOwner? && after.shared.pending == None
            else after.requests[id].Owning? && Distance(after.requests[id].stage) < Distance(s.requests[id].stage)
  {
    RunKeeps(config, events, s);
    assert RequestFits(s.shared, s.requests[id]);
  }

  /** The flight a request leads or joins, if any. */
  function FlightOf(r: Request): Option<nat> {
    match r
    case AnsweredFromCache(_) => None
    case Refused => None
    case _ => Some(r.flight)
  }

  ghost predicate Asked(s: Shared, r: Request, key: Key) {
    FlightOf(r).Some? ==> FlightOf(r).value < |s.flights| && s.flights[FlightOf(r).value].key == key
  }

  /** Who leads or joins a flight asked for the flight's own key. */
  ghost predicate KeysFit(s: System) {
    forall id :: id in s.requests ==> id in s.keys && Asked(s.shared, s.requests[id], s.keys[id])
  }

  ghost predicate KeysStay(a: Shared, b: Shared) {
    |a.flights| <= |b.flights| && forall f :: 0 <= f < |a.flights| ==> b.flights[f].key == a.flights[f].key
  }

  lemma FlightKeysStay(config: Config, s: System, e: Event)
    requires Enabled(s, e)
    ensures KeysStay(s.shared, Next(config, s, e).shared)
  {
  }

  /** A step other than an arrival never moves a request to another flight. */
  lemma OthersStay(config: Config, s: System, e: Event)
    requires Enabled(s, e) && !e.Arrives?
    ensures var after := Next(config, s, e);
            && after.keys == s.keys && after.requests.Keys == s.requests.Keys
            && forall id :: id in s.requests ==> FlightOf(after.requests[id]) == FlightOf(s.requests[id])
  {
  }

  lemma EnteredKey(s: Shared, key: Key, refresh: bool, now: int)
    requires s.pending.Some? ==> s.pending.value < |s.flights|
    ensures var (after, reply) := Enter(s, key, refresh, now);
            reply.Join? || reply.Own? ==> reply.flight < |after.flights| && after.flights[reply.flight].key == key
  {
  }

  lemma KeysFitPut(s: System, shared: Shared, id: nat, key: Key, r: Request)
    requires KeysFit(s) && KeysStay(s.shared, shared) && Asked(shared, r, key)
    ensures KeysFit(Put(s.(shared := shared, keys := s.keys[id := key]), id, r))
  {
  }

  lemma ArrivalKey(config: Config, s: System, e: Event)
    requires Inv(config, s) && KeysFit(s) && e.Arrives? && Enabled(s, e)
    ensures KeysFit(Next(config, s, e))
  {
    FlightKeysStay(config, s, e);
    EnteredKey(s.shared, e.key, e.refresh, e.now);
    var (shared, reply) := Enter(s.shared, e.key, e.refresh, e.now);
    match reply
    case Hit(value) => KeysFitPut(s, shared, e.id, e.key, AnsweredFromCache(value));
    case Busy => KeysFitPut(s, shared, e.id, e.key, Refused);
    case Join(f) => KeysFitPut(s, shared, e.id, e.key, Waiting(f));
    case Own(f) => KeysFitPut(s, shared, e.id, e.key, Owning(f, Computing));
  }

  /** A request joins only a flight for its own key. */
  lemma {:induction false} JoinsOwnKey(config: Config, events: seq<Event>, s: System)
    requires Run(config, events, s)
    ensures KeysFit(s)
  {
    if events != [] {
      var n := |events| - 1;
      var before :| Run(config, events[..n], before) && Steps(config, before, events[n], s);
      JoinsOwnKey(config, events[..n], before);
      RunKeeps(config, events[..n], before);
      if events[n].Arrives? {
        ArrivalKey(config, before, events[n]);
      } else {
        FlightKeysStay(config, before, events[n]);
        OthersStay(config, before, events[n]);
      }
    }
  }
}
