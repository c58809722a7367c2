/** Where answers come from: over all interleavings, whatever a request is answered with was computed for its own key. */
module RequestOrigins {
  import opened Prelude
  import opened OrderedStore
  import opened RequestCache
  import opened RequestProtocol

  /** Some request for this key has computed this value. */
  ghost predicate ComputedFor(events: seq<Event>, keys: map<nat, Key>, key: Key, v: Value) {
    exists owner :: owner in keys && keys[owner] == key && Computes(owner, v) in events
  }

  /** What the caller of a request has been given. */
  function Given(r: Request): Option<Value> {
    match r
    case AnsweredFromCache(v) => Some(v)
    case EndedOwner(_, Delivered(v)) => Some(v)
    case EndedJoiner(_, Delivered(v)) => Some(v)
    case _ => None
  }

  ghost predicate CacheComputed(events: seq<Event>, s: System) {
    forall item :: item in s.shared.cache ==> ComputedFor(events, s.keys, item.key, item.value)
  }

  ghost predicate FlightsComputed(events: seq<Event>, s: System) {
    forall f :: 0 <= f < |s.shared.flights| && s.shared.flights[f].payload.Some? ==>
      ComputedFor(events, s.keys, s.shared.flights[f].key, s.shared.flights[f].payload.value)
  }

  ghost predicate AnswersComputed(events: seq<Event>, s: System) {
    forall id :: id in s.requests && s.requests[id].AnsweredFromCache? ==>
      id in s.keys && ComputedFor(events, s.keys, s.keys[id], s.requests[id].value)
  }

  ghost predicate Origin(events: seq<Event>, s: System) {
    && s.keys.Keys == s.requests.Keys
    && CacheComputed(events, s) && FlightsComputed(events, s) && AnswersComputed(events, s)
  }

  /** Later events and later requests do not undo it. */
  lemma ComputedLater(events: seq<Event>, e: Event, keys: map<nat, Key>, keys': map<nat, Key>, key: Key, v: Value)
    requires ComputedFor(events, keys, key, v) && forall id :: id in keys ==> id in keys' && keys'[id] == keys[id]
    ensures ComputedFor(events + [e], keys', key, v)
  {
    var owner :| owner in keys && keys[owner] == key && Computes(owner, v) in events;
    assert Computes(owner, v) in events + [e];
  }

  /** No entry is new, no payload is new, and only this request's keys and state are. */
  ghost predicate OnlyArrives(s: System, after: System, e: Event)
    requires e.Arrives?
  {
    && after.keys == s.keys[e.id := e.key] && after.requests.Keys == s.requests.Keys + {e.id}
    && (forall id :: id in s.requests ==> after.requests[id] == s.requests[id])
    && AddsNothing(s.shared, after.shared)
  }

  ghost predicate SameFlight(s: Shared, after: Shared, f: nat)
    requires f < |after.flights|
  {
    f < |s.flights| && after.flights[f].payload == s.flights[f].payload && after.flights[f].key == s.flights[f].key
  }

  ghost predicate AddsNothing(s: Shared, after: Shared) {
    && (forall item :: item in after.cache ==> item in s.cache)
    && (forall f :: 0 <= f < |after.flights| && after.flights[f].payload.Some? ==> SameFlight(s, after, f))
  }

  lemma EnterAddsNothing(s: Shared, key: Key, refresh: bool, now: int)
    requires DistinctKeys(s.cache) && (s.pending.Some? ==> s.pending.value < |s.flights|)
    ensures AddsNothing(s, Enter(s, key, refresh, now).0)
  {
    EnterReplies(s, key, refresh, now);
    EnterLeaves(s, key, refresh, now);
    var (after, reply) := Enter(s, key, refresh, now);
    hide Enter, SubsequenceOf, DistinctKeys;
    assert after.flights == s.flights || reply.Own? || reply.Join?;
  }

  lemma ArrivalOnly(config: Config, s: System, e: Event)
    requires DistinctKeys(s.shared.cache) && Enabled(s, e) && e.Arrives?
    ensures OnlyArrives(s, Next(config, s, e), e)
  {
    hide Enter, AddsNothing, DistinctKeys;
    EnterAddsNothing(s.shared, e.key, e.refresh, e.now);
  }

  lemma ArrivalHit(config: Config, s: System, e: Event)
    requires DistinctKeys(s.shared.cache) && Enabled(s, e) && e.Arrives?
    ensures var r := Next(config, s, e).requests[e.id];
            r.AnsweredFromCache? ==> Held(s.shared, e.key, e.now, r.value)
  {
    var reply := Enter(s.shared, e.key, e.refresh, e.now).1;
    if reply.Hit? {
      HitIff(s.shared, e.key, e.refresh, e.now, reply.value);
    }
    hide Enter, Held;
  }

  lemma ArrivalOrigin(config: Config, events: seq<Event>, s: System, e: Event)
    requires DistinctKeys(s.shared.cache) && Origin(events, s) && Enabled(s, e) && e.Arrives?
    ensures Origin(events + [e], Next(config, s, e))
  {
    hide ComputedFor, Next, DistinctKeys;
    var after := Next(config, s, e);
    ArrivalOnly(config, s, e);
    ArrivalHit(config, s, e);
    forall key, v | ComputedFor(events, s.keys, key, v)
      ensures ComputedFor(events + [e], after.keys, key, v)
    {
      ComputedLater(events, e, s.keys, after.keys, key, v);
    }
  }

  /** A step other than an arrival: the cache gains at most what an owner stores. */
  ghost predicate OnlyStores(s: System, after: System, e: Event)
    requires Enabled(s, e) && !e.Arrives?
  {
    forall item :: item in after.shared.cache ==>
      || item in s.shared.cache
      || (e.Stores? && item.key == s.shared.flights[s.requests[e.id].flight].key && item.value == s.requests[e.id].stage.value)
  }

  lemma OtherStores(config: Config, s: System, e: Event)
    requires Enabled(s, e) && !e.Arrives?
    ensures OnlyStores(s, Next(config, s, e), e)
  {
    match e
    case Stores(id, now) => StoreGains(config, s.shared, s.shared.flights[s.requests[id].flight].key, s.requests[id].stage.value, now);
    case Deletes(result, _) => WithoutResultThins(s.shared.cache, result);
    case _ =>
  }

  lemma StoreGains(config: Config, s: Shared, key: Key, value: Value, now: int)
    ensures forall item :: item in Store(config, s, key, value, now).cache ==>
              item in s.cache || (item.key == key && item.value == value)
  {
    WithoutThins(s.cache, key);
    EvictedIsSuffix(config.limits, Without(s.cache, key) + [Item(key, now + config.ttl, value.size, value)]);
  }

  /** A payload is what an owner has just computed, and otherwise stays; flights keep their keys. */
  ghost predicate OnlyComputes(s: System, after: System, e: Event)
    requires Enabled(s, e) && !e.Arrives?
  {
    && after.keys == s.keys && after.requests.Keys == s.requests.Keys
    && (forall id :: id in s.requests && after.requests[id].AnsweredFromCache? ==> after.requests[id] == s.requests[id])
    && |after.shared.flights| == |s.shared.flights|
    && (forall f :: 0 <= f < |s.shared.flights| ==>
          || SameFlight(s.shared, after.shared, f)
          || (e.Computes? && f == s.requests[e.id].flight && after.shared.flights[f].key == s.shared.flights[f].key
              && after.shared.flights[f].payload == Some(e.value)))
  }

  lemma OtherComputes(config: Config, s: System, e: Event)
    requires Enabled(s, e) && !e.Arrives?
    ensures OnlyComputes(s, Next(config, s, e), e)
  {
  }

  /** What an owner is about to store is the payload of its flight, and its flight has its key. */
  lemma OwnerStores(config: Config, s: System, e: Event)
    requires Inv(config, s) && KeysFit(s) && Enabled(s, e) && (e.Stores? || e.Computes?)
    ensures e.id in s.keys && s.shared.flights[s.requests[e.id].flight].key == s.keys[e.id]
    ensures e.Stores? ==> s.shared.flights[s.requests[e.id].flight].payload == Some(s.requests[e.id].stage.value)
  {
    assert RequestFits(s.shared, s.requests[e.id]) && Asked(s.shared, s.requests[e.id], s.keys[e.id]);
  }

  lemma OtherOrigin(config: Config, events: seq<Event>, s: System, e: Event)
    requires Inv(config, s) && KeysFit(s) && Origin(events, s) && Enabled(s, e) && !e.Arrives?
    ensures Origin(events + [e], Next(config, s, e))
  {
    hide Inv, Next, KeysFit, ComputedFor;
    var after := Next(config, s, e);
    OtherStores(config, s, e);
    OtherComputes(config, s, e);
    if e.Stores? || e.Computes? {
      OwnerStores(config, s, e);
    }
    if e.Computes? {
      JustComputed(events, s, e);
    }
    forall key, v | ComputedFor(events, s.keys, key, v)
      ensures ComputedFor(events + [e], after.keys, key, v)
    {
      ComputedLater(events, e, s.keys, after.keys, key, v);
    }
  }

  lemma JustComputed(events: seq<Event>, s: System, e: Event)
    requires e.Computes? && e.id in s.keys
    ensures ComputedFor(events + [e], s.keys, s.keys[e.id], e.value)
  {
    assert e in events + [e] && e == Computes(e.id, e.value);
  }

  lemma InvDistinct(config: Config, s: System)
    requires Inv(config, s)
    ensures DistinctKeys(s.shared.cache)
  {
  }

  lemma {:induction false} RunOrigin(config: Config, events: seq<Event>, s: System)
    requires Run(config, events, s)
    ensures Origin(events, s)
  {
    if events != [] {
      var n := |events| - 1;
      var before :| Run(config, events[..n], before) && Steps(config, before, events[n], s);
      hide Inv, Next, Origin, KeysFit, Enabled, DistinctKeys, Run;
      RunOrigin(config, events[..n], before);
      RunKeeps(config, events[..n], before);
      JoinsOwnKey(config, events[..n], before);
      assert events == events[..n] + [events[n]];
      if events[n].Arrives? {
        InvDistinct(config, before);
        ArrivalOrigin(config, events[..n], before, events[n]);
      } else {
        OtherOrigin(config, events[..n], before, events[n]);
      }
    }
  }

  /** In every reachable state, whatever a request was answered with, from the cache, as the owner of a computation or by
      joining one, was computed by a request for the same key. */
  lemma AnswersAreOwn(config: Config, events: seq<Event>, s: System, id: nat)
    requires Run(config, events, s) && id in s.requests && Given(s.requests[id]).Some?
    ensures id in s.keys && ComputedFor(events, s.keys, s.keys[id], Given(s.requests[id]).value)
  {
    RunOrigin(config, events, s);
    RunKeeps(config, events, s);
    JoinsOwnKey(config, events, s);
    assert RequestFits(s.shared, s.requests[id]) && Asked(s.shared, s.requests[id], s.keys[id]);
  }

  // ----- where failures come from -----

  /** Some request for this key has failed with this error, while computing or while delivering. */
  ghost predicate FailedFor(events: seq<Event>, keys: map<nat, Key>, key: Key, error: Error) {
    exists owner :: owner in keys && keys[owner] == key && (Fails(owner, error) in events || Delivers(owner, error) in events)
  }

  ghost predicate FlightsFailed(events: seq<Event>, s: System) {
    forall f :: 0 <= f < |s.shared.flights| && s.shared.flights[f].error.Some? ==>
      FailedFor(events, s.keys, s.shared.flights[f].key, s.shared.flights[f].error.value)
  }

  ghost predicate SameError(s: Shared, after: Shared, f: nat)
    requires f < |after.flights|
  {
    f < |s.flights| && after.flights[f].error == s.flights[f].error && after.flights[f].key == s.flights[f].key
  }

  /** An error is what an owner has just failed with, and otherwise stays. */
  ghost predicate OnlyFails(s: System, after: System, e: Event)
    requires Enabled(s, e)
  {
    forall f :: 0 <= f < |after.shared.flights| && after.shared.flights[f].error.Some? ==>
      || SameError(s.shared, after.shared, f)
      || ((e.Fails? || e.Delivers?) && f == s.requests[e.id].flight && after.shared.flights[f].key == s.shared.flights[f].key
          && after.shared.flights[f].error.value == if e.Fails? then e.error else e.failure)
  }

  lemma EnterFails(s: Shared, key: Key, refresh: bool, now: int)
    requires s.pending.Some? ==> s.pending.value < |s.flights|
    ensures var after := Enter(s, key, refresh, now).0;
            forall f :: 0 <= f < |after.flights| && after.flights[f].error.Some? ==> SameError(s, after, f)
  {
    hide Live, Without, Find;
  }

  lemma NextFails(config: Config, s: System, e: Event)
    requires Enabled(s, e)
    ensures OnlyFails(s, Next(config, s, e), e)
  {
    if e.Arrives? {
      EnterFails(s.shared, e.key, e.refresh, e.now);
      hide Enter;
    }
  }

  lemma FailedLater(events: seq<Event>, e: Event, keys: map<nat, Key>, keys': map<nat, Key>, key: Key, error: Error)
    requires FailedFor(events, keys, key, error) && forall id :: id in keys ==> id in keys' && keys'[id] == keys[id]
    ensures FailedFor(events + [e], keys', key, error)
  {
    var owner :| owner in keys && keys[owner] == key && (Fails(owner, error) in events || Delivers(owner, error) in events);
    assert forall x :: x in events ==> x in events + [e];
  }

  lemma JustFailed(config: Config, events: seq<Event>, s: System, e: Event)
    requires Inv(config, s) && KeysFit(s) && Enabled(s, e) && (e.Fails? || e.Delivers?)
    ensures FailedFor(events + [e], s.keys, s.shared.flights[s.requests[e.id].flight].key, if e.Fails? then e.error else e.failure)
  {
    assert RequestFits(s.shared, s.requests[e.id]) && Asked(s.shared, s.requests[e.id], s.keys[e.id]);
    assert e in events + [e];
  }

  lemma KeysGrow(config: Config, s: System, e: Event)
    requires Enabled(s, e) && s.keys.Keys == s.requests.Keys
    ensures forall id :: id in s.keys ==> id in Next(config, s, e).keys && Next(config, s, e).keys[id] == s.keys[id]
    ensures e.Fails? || e.Delivers? ==> Next(config, s, e).keys == s.keys
  {
    hide Enter;
  }

  lemma NextFailed(config: Config, events: seq<Event>, s: System, e: Event)
    requires Inv(config, s) && KeysFit(s) && s.keys.Keys == s.requests.Keys && FlightsFailed(events, s) && Enabled(s, e)
    ensures FlightsFailed(events + [e], Next(config, s, e))
  {
    hide Inv, Next, KeysFit, FailedFor;
    var after := Next(config, s, e);
    NextFails(config, s, e);
    KeysGrow(config, s, e);
    if e.Fails? || e.Delivers? {
      JustFailed(config, events, s, e);
    }
    forall key, error | FailedFor(events, s.keys, key, error)
      ensures FailedFor(events + [e], after.keys, key, error)
    {
      FailedLater(events, e, s.keys, after.keys, key, error);
    }
  }

  lemma {:induction false} RunFailed(config: Config, events: seq<Event>, s: System)
    requires Run(config, events, s)
    ensures FlightsFailed(events, s)
  {
    if events != [] {
      var n := |events| - 1;
      var before :| Run(config, events[..n], before) && Steps(config, before, events[n], s);
      hide Inv, Next, Origin, KeysFit, Enabled, Run, FlightsFailed;
      RunFailed(config, events[..n], before);
      RunKeeps(config, events[..n], before);
      JoinsOwnKey(config, events[..n], before);
      RunOrigin(config, events[..n], before);
      OriginKeys(events[..n], before);
      assert events == events[..n] + [events[n]];
      NextFailed(config, events[..n], before, events[n]);
    }
  }

  lemma OriginKeys(events: seq<Event>, s: System)
    requires Origin(events, s)
    ensures s.keys.Keys == s.requests.Keys
  {
  }

  /** In every reachable state, whatever error a request has ended with is one that a request for the same key failed with. */
  lemma ErrorsAreOwn(config: Config, events: seq<Event>, s: System, id: nat, error: Error)
    requires Run(config, events, s) && id in s.requests
    requires (s.requests[id].EndedOwner? || s.requests[id].EndedJoiner?) && s.requests[id].outcome == Raised(error)
    ensures id in s.keys && FailedFor(events, s.keys, s.keys[id], error)
  {
    RunFailed(config, events, s);
    RunKeeps(config, events, s);
    JoinsOwnKey(config, events, s);
    assert RequestFits(s.shared, s.requests[id]) && Asked(s.shared, s.requests[id], s.keys[id]);
  }

  // ----- only complete results are kept -----

  /** What keeps a result out of the cache: a source that was not available, was annotated or covered too little, or an
      optional part that is empty or incomplete. */
  ghost predicate Lacks(s: Status) {
    || !s.metricsAvailable || !s.tracesAvailable || s.annotated || s.spanCount <= 0
    || s.families == map[] || (exists service :: service in s.families && s.families[service] != 4)
    || s.coverage == map[]
    || (exists service, family :: service in s.coverage && family in s.coverage[service] && s.coverage[service][family] < 0.8)
    || (s.context.Some? && Incomplete(s.context.value))
    || (s.http.Some? && (!s.http.value.0 || Incomplete(s.http.value.1)))
  }

  ghost predicate Incomplete(services: map<string, bool>) {
    services == map[] || exists service :: service in services && !services[service]
  }

  lemma UsableIff(s: Status)
    ensures Usable(s) <==> !Lacks(s)
  {
  }

  ghost predicate AllServedUsable(s: System) {
    forall id :: id in s.requests && s.requests[id].AnsweredFromCache? ==> Usable(s.requests[id].value.status)
  }

  lemma NextServed(config: Config, s: System, e: Event)
    requires Inv(config, s) && Enabled(s, e) && AllServedUsable(s)
    ensures AllServedUsable(Next(config, s, e))
  {
    hide Usable, Lacks;
    InvDistinct(config, s);
    if e.Arrives? {
      ArrivalHit(config, s, e);
      ArrivalOnly(config, s, e);
    } else {
      OtherComputes(config, s, e);
    }
    hide Next, Enter;
  }

  lemma {:induction false} RunServed(config: Config, events: seq<Event>, s: System)
    requires Run(config, events, s)
    ensures AllServedUsable(s)
  {
    if events != [] {
      var n := |events| - 1;
      var before :| Run(config, events[..n], before) && Steps(config, before, events[n], s);
      hide Inv, Next, Enabled, Run, AllServedUsable;
      RunServed(config, events[..n], before);
      RunKeeps(config, events[..n], before);
      NextServed(config, before, events[n]);
    }
  }

  /** In every reachable state, whatever is in the cache or was answered from it lacks nothing, and a computed result is
      refused by the cache exactly when it lacks something, is too large or was deleted. */
  lemma CachedIsComplete(config: Config, events: seq<Event>, s: System)
    requires Run(config, events, s)
    ensures forall item :: item in s.shared.cache ==> !Lacks(item.value.status)
    ensures forall id :: id in s.requests && s.requests[id].AnsweredFromCache? ==> !Lacks(s.requests[id].value.status)
    ensures forall value: Value :: Storable(config, s.shared, value)
              <==> && !Lacks(value.status) && value.size <= config.limits.bytes
                   && forall i :: 0 <= i < |s.shared.deleted| ==> Some(s.shared.deleted[i].id) != value.resultId
  {
    RunKeeps(config, events, s);
    RunServed(config, events, s);
    forall status { UsableIff(status); }
    hide Usable, Lacks;
  }
}
