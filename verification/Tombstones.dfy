/** Deletions racing with computations: how long the tombstone of a deleted result stands, and when it does not. */
module Tombstones {
  import opened Prelude
  import opened OrderedStore
  import opened RequestCache
  import opened RequestProtocol

  function Expiry(config: Config, now: int): int {
    now + JOIN_SECONDS + config.ttl
  }

  // ----- the line of tombstones -----

  ghost predicate OneEach(line: seq<Tombstone>) {
    forall i, j :: 0 <= i < j < |line| ==> line[i].id != line[j].id
  }

  /** One tombstone for an identifier, and at most 256 in all. */
  ghost predicate LineInv(line: seq<Tombstone>) {
    OneEach(line) && |line| <= MAX_TOMBSTONES
  }

  lemma {:induction false} UnexpiredThins(line: seq<Tombstone>, now: int)
    requires OneEach(line)
    ensures OneEach(Unexpired(line, now)) && |Unexpired(line, now)| <= |line|
    ensures forall t :: t in Unexpired(line, now) ==> t in line
  {
    if line != [] {
      var n := |line| - 1;
      UnexpiredThins(line[..n], now);
      var before := Unexpired(line[..n], now);
      forall i | 0 <= i < |before|
        ensures before[i].id != line[n].id
      {
        assert before[i] in line[..n];
      }
    }
  }

  lemma {:induction false} BuryFresh(line: seq<Tombstone>, id: string, expiry: int)
    requires !Buried(line, id)
    ensures Bury(line, id, expiry) == line + [Tombstone(id, expiry)]
  {
    if line != [] {
      assert line[0].id != id;
      assert forall i :: 0 <= i < |line[1..]| ==> line[1..][i] == line[i + 1];
      BuryFresh(line[1..], id, expiry);
    }
  }

  lemma {:induction false} BuryAgain(line: seq<Tombstone>, id: string, expiry: int, i: nat)
    requires OneEach(line) && i < |line| && line[i].id == id
    ensures Bury(line, id, expiry) == line[i := Tombstone(id, expiry)]
  {
    if i > 0 {
      assert line[0].id != id;
      BuryAgain(line[1..], id, expiry, i - 1);
    }
  }

  /** A deletion renews the tombstone in its place, or adds one at the end, where the cap may cost the first of the line
      its place. */
  lemma EntombedIs(config: Config, line: seq<Tombstone>, id: string, now: int)
    requires LineInv(line)
    ensures var u, t := Unexpired(line, now), Tombstone(id, Expiry(config, now));
            && |u| <= MAX_TOMBSTONES
            && (forall i :: 0 <= i < |u| && u[i].id == id ==> Entombed(config, line, id, now) == u[i := t])
            && (!Buried(u, id) ==>
                  Entombed(config, line, id, now) == if |u| < MAX_TOMBSTONES then u + [t] else u[1..] + [t])
  {
    var u, t := Unexpired(line, now), Tombstone(id, Expiry(config, now));
    UnexpiredThins(line, now);
    forall i | 0 <= i < |u| && u[i].id == id
      ensures Entombed(config, line, id, now) == u[i := t]
    {
      BuryAgain(u, id, Expiry(config, now), i);
    }
    if !Buried(u, id) {
      BuryFresh(u, id, Expiry(config, now));
    }
  }

  lemma EntombedKeepsLine(config: Config, line: seq<Tombstone>, id: string, now: int)
    requires LineInv(line)
    ensures LineInv(Entombed(config, line, id, now))
  {
    EntombedIs(config, line, id, now);
    UnexpiredThins(line, now);
    var u := Unexpired(line, now);
    if i :| 0 <= i < |u| && u[i].id == id {
      assert Entombed(config, line, id, now) == u[i := Tombstone(id, Expiry(config, now))];
    } else {
      assert !Buried(u, id);
    }
  }

  lemma RenewedHas(line: seq<Tombstone>, i: nat, t: Tombstone, id: string)
    requires i < |line| && line[i].id == t.id && Buried(line, id)
    ensures Buried(line[i := t], id)
  {
    var p :| 0 <= p < |line| && line[p].id == id;
    assert line[i := t][p].id == id;
  }

  lemma PushedHas(line: seq<Tombstone>, t: Tombstone, id: string)
    requires LineInv(line) && Buried(line, id) && !Buried(line, t.id)
    ensures Buried(if |line| < MAX_TOMBSTONES then line + [t] else line[1..] + [t], id)
            <==> |line| < MAX_TOMBSTONES || line[0].id != id
  {
    var p :| 0 <= p < |line| && line[p].id == id;
    if |line| < MAX_TOMBSTONES {
      assert (line + [t])[p].id == id;
    } else if p > 0 {
      assert line[0].id != id && (line[1..] + [t])[p - 1] == line[p];
    } else {
      var after := line[1..] + [t];
      assert forall i :: 0 <= i < |after| - 1 ==> after[i] == line[i + 1];
    }
  }

  /** The step condition. A tombstone that has time left survives a deletion exactly when the deleted result is buried
      already, or there is room, or the tombstone is not the first of the line. */
  lemma SurvivesDeletionIff(config: Config, s: Shared, other: string, now: int, id: string)
    requires LineInv(s.deleted) && Buried(Unexpired(s.deleted, now), id)
    ensures var u := Unexpired(s.deleted, now);
            Buried(Delete(config, s, other, now).deleted, id)
            <==> Buried(u, other) || |u| < MAX_TOMBSTONES || u[0].id != id
  {
    hide Unexpired, Entombed;
    var u, t := Unexpired(s.deleted, now), Tombstone(other, Expiry(config, now));
    EntombedIs(config, s.deleted, other, now);
    UnexpiredThins(s.deleted, now);
    if i :| 0 <= i < |u| && u[i].id == other {
      RenewedHas(u, i, t, id);
    } else {
      PushedHas(u, t, id);
    }
  }

  /** The only other result that a deletion buries is the one it deletes. */
  lemma BuriesOnly(config: Config, s: Shared, other: string, now: int, id: string)
    requires LineInv(s.deleted) && !Buried(Unexpired(s.deleted, now), id)
    ensures Buried(Delete(config, s, other, now).deleted, id) <==> id == other
  {
    var u := Unexpired(s.deleted, now);
    EntombedIs(config, s.deleted, other, now);
    BuryHas(u, other, Expiry(config, now), id);
    var after := Delete(config, s, other, now).deleted;
    if id == other {
      assert after[|after| - 1].id == id;
    } else {
      BuriedIn(after, id);
      BuriedIn(Bury(u, other, Expiry(config, now)), id);
    }
  }

  // ----- runs -----

  lemma SameTombstones(config: Config, s: System, e: Event)
    requires Enabled(s, e) && !e.Deletes?
    ensures Next(config, s, e).shared.deleted == s.shared.deleted
  {
    if e.Arrives? {
      EnterOutcome(s.shared, e.key, e.refresh, e.now);
    }
  }

  lemma StepKeepsLine(config: Config, s: System, e: Event)
    requires LineInv(s.shared.deleted) && Enabled(s, e)
    ensures LineInv(Next(config, s, e).shared.deleted)
  {
    if e.Deletes? {
      EntombedKeepsLine(config, s.shared.deleted, e.result, e.now);
    } else {
      SameTombstones(config, s, e);
    }
  }

  /** In every reachable state there is one tombstone for an identifier and at most 256 in all. */
  lemma {:induction false} RunKeepsLine(config: Config, events: seq<Event>, s: System)
    requires Run(config, events, s)
    ensures LineInv(s.shared.deleted)
  {
    if events != [] {
      var n := |events| - 1;
      var before :| Run(config, events[..n], before) && Steps(config, before, events[n], s);
      RunKeepsLine(config, events[..n], before);
      StepKeepsLine(config, before, events[n]);
    }
  }

  /** The events can happen one after the other from this state. */
  predicate Possible(config: Config, s: System, events: seq<Event>)
    decreases |events|
  {
    events == [] || (Enabled(s, events[0]) && Possible(config, Next(config, s, events[0]), events[1..]))
  }

  function After(config: Config, s: System, events: seq<Event>): System
    requires Possible(config, s, events)
    decreases |events|
  {
    if events == [] then s else After(config, Next(config, s, events[0]), events[1..])
  }

  lemma RunStep(config: Config, past: seq<Event>, s: System, e: Event)
    requires Run(config, past, s) && Enabled(s, e)
    ensures Run(config, past + [e], Next(config, s, e))
  {
    assert (past + [e])[..|past|] == past;
    assert Steps(config, s, e, Next(config, s, e));
  }

  /** Reachable states lead to reachable states. */
  lemma {:induction false} RunExtends(config: Config, past: seq<Event>, s: System, events: seq<Event>)
    requires Run(config, past, s) && Possible(config, s, events)
    ensures Run(config, past + events, After(config, s, events))
    decreases |events|
  {
    hide Run, Next, Enabled;
    if events == [] {
      assert past + events == past;
    } else {
      RunStep(config, past, s, events[0]);
      RunExtends(config, past + [events[0]], Next(config, s, events[0]), events[1..]);
      assert past + [events[0]] + events[1..] == past + events;
    }
  }

  // ----- deleted results stay gone -----

  /** What the step has to meet for the tombstone to survive it: a deletion of another result comes before the time is
      up, and does not find a full line that this tombstone heads. */
  ghost predicate Spares(s: System, e: Event, id: string) {
    e.Deletes? && e.result != id ==>
      var u := Unexpired(s.shared.deleted, e.now);
      Buried(u, id) && (Buried(u, e.result) || |u| < MAX_TOMBSTONES || u[0].id != id)
  }

  ghost predicate AllSpare(config: Config, s: System, events: seq<Event>, id: string)
    requires Possible(config, s, events)
    decreases |events|
  {
    events != [] ==> Spares(s, events[0], id) && AllSpare(config, Next(config, s, events[0]), events[1..], id)
  }

  ghost predicate StaysBuried(config: Config, s: System, events: seq<Event>, id: string)
    requires Possible(config, s, events)
    decreases |events|
  {
    Buried(s.shared.deleted, id) && (events != [] ==> StaysBuried(config, Next(config, s, events[0]), events[1..], id))
  }

  ghost predicate Holds(cache: seq<Cached>, id: string) {
    exists item :: item in cache && item.value.resultId == Some(id)
  }

  ghost predicate StaysGone(config: Config, s: System, events: seq<Event>, id: string)
    requires Possible(config, s, events)
    decreases |events|
  {
    !Holds(s.shared.cache, id) && (events != [] ==> StaysGone(config, Next(config, s, events[0]), events[1..], id))
  }

  lemma SparedIff(config: Config, s: System, e: Event, id: string)
    requires LineInv(s.shared.deleted) && Buried(s.shared.deleted, id) && Enabled(s, e)
    ensures Buried(Next(config, s, e).shared.deleted, id) <==> Spares(s, e, id)
  {
    if e.Deletes? {
      var u := Unexpired(s.shared.deleted, e.now);
      if !Buried(u, id) {
        BuriesOnly(config, s.shared, e.result, e.now, id);
      } else if e.result == id {
        SurvivesDeletionIff(config, s.shared, id, e.now, id);
      } else {
        SurvivesDeletionIff(config, s.shared, e.result, e.now, id);
      }
    } else {
      SameTombstones(config, s, e);
    }
  }

  /** A tombstone stands throughout a run exactly when every step spares it. */
  lemma {:induction false} StaysBuriedIff(config: Config, s: System, events: seq<Event>, id: string)
    requires LineInv(s.shared.deleted) && Buried(s.shared.deleted, id) && Possible(config, s, events)
    ensures StaysBuried(config, s, events, id) <==> AllSpare(config, s, events, id)
    decreases |events|
  {
    if events != [] {
      hide Next, Spares;
      var next := Next(config, s, events[0]);
      SparedIff(config, s, events[0], id);
      StepKeepsLine(config, s, events[0]);
      if Buried(next.shared.deleted, id) {
        StaysBuriedIff(config, next, events[1..], id);
      }
    }
  }

  /** While its tombstone stands, whatever else happens, the deleted result is not in the cache. */
  lemma {:induction false} DeletedStaysGone(config: Config, s: System, events: seq<Event>, id: string)
    requires Inv(config, s) && LineInv(s.shared.deleted) && Buried(s.shared.deleted, id)
    requires Possible(config, s, events) && AllSpare(config, s, events, id)
    ensures StaysGone(config, s, events, id)
    decreases |events|
  {
    if events != [] {
      hide Next, Spares, Inv;
      StepKeeps(config, s, events[0]);
      StepKeepsLine(config, s, events[0]);
      SparedIff(config, s, events[0], id);
      DeletedStaysGone(config, Next(config, s, events[0]), events[1..], id);
    }
    BuriedUncached(config, s, id);
  }

  lemma BuriedUncached(config: Config, s: System, id: string)
    requires Inv(config, s) && Buried(s.shared.deleted, id)
    ensures !Holds(s.shared.cache, id)
  {
  }

  /** An owner is about to store a result of this identifier, and nothing stops it. */
  ghost predicate Returns(config: Config, s: System, e: Event, id: string)
    requires Enabled(s, e)
  {
    e.Stores? && var value := s.requests[e.id].stage.value;
                 && value.resultId == Some(id) && Usable(value.status) && value.size <= config.limits.bytes
                 && config.limits.entries > 0 && !Buried(s.shared.deleted, id)
  }

  lemma EnterHolds(s: Shared, key: Key, refresh: bool, now: int, id: string)
    requires !Holds(s.cache, id) && (s.pending.Some? ==> s.pending.value < |s.flights|)
    ensures !Holds(Enter(s, key, refresh, now).0.cache, id)
  {
    EnterOutcome(s, key, refresh, now);
    LiveThins(s.cache, now);
    WithoutThins(Live(s.cache, now), key);
    FindFinds(Live(s.cache, now), key);
  }

  lemma KeptHolds(limits: Limits, kept: seq<Cached>, item: Cached, id: string)
    requires !Holds(kept, id) && item.size <= limits.bytes
    ensures Holds(Evicted(limits, kept + [item]), id) <==> item.value.resultId == Some(id) && limits.entries > 0
  {
    EvictedIsSuffix(limits, kept + [item]);
    NewestSurvives(limits, kept, item);
  }

  lemma StoreHolds(config: Config, s: Shared, key: Key, value: Value, now: int, id: string)
    requires !Holds(s.cache, id)
    ensures Holds(Store(config, s, key, value, now).cache, id)
            <==> value.resultId == Some(id) && Storable(config, s, value) && config.limits.entries > 0
  {
    WithoutThins(s.cache, key);
    if Storable(config, s, value) {
      KeptHolds(config.limits, Without(s.cache, key), Item(key, now + config.ttl, value.size, value), id);
    }
  }

  /** The cache after a step, in terms of the lock blocks. */
  lemma NextCache(config: Config, s: System, e: Event)
    requires Enabled(s, e)
    ensures var after := Next(config, s, e).shared.cache;
            match e
            case Arrives(_, key, refresh, now) => after == Enter(s.shared, key, refresh, now).0.cache
            case Stores(owner, now) =>
              var r := s.requests[owner];
              after == Store(config, s.shared, s.shared.flights[r.flight].key, r.stage.value, now).cache
            case Deletes(result, _) => after == WithoutResult(s.shared.cache, result)
            case _ => after == s.shared.cache
  {
  }

  /** A result that is not in the cache enters it in exactly these steps. */
  lemma EntersIff(config: Config, s: System, e: Event, id: string)
    requires !Holds(s.shared.cache, id) && Enabled(s, e)
    ensures Holds(Next(config, s, e).shared.cache, id) <==> Returns(config, s, e, id)
  {
    NextCache(config, s, e);
    hide Next, Enter, Store;
    match e
    case Arrives(_, key, refresh, now) => EnterHolds(s.shared, key, refresh, now, id);
    case Stores(owner, now) =>
      var r := s.requests[owner];
      StoreHolds(config, s.shared, s.shared.flights[r.flight].key, r.stage.value, now, id);
    case Deletes(result, _) => WithoutResultThins(s.shared.cache, result);
    case _ =>
  }

  // ----- how many deletions it takes -----

  ghost predicate StandsAt(line: seq<Tombstone>, id: string, expiry: int, n: nat, i: int) {
    0 <= i < |line| && |line| - 1 - n <= i && line[i].id == id && line[i].expiry >= expiry
  }

  /** A tombstone that has time left until its expiry, with at most n newer ones behind it. */
  ghost predicate Standing(line: seq<Tombstone>, id: string, expiry: int, n: nat) {
    exists i :: StandsAt(line, id, expiry, n, i)
  }

  lemma {:induction false} UnexpiredKeepsPlace(line: seq<Tombstone>, now: int, id: string, expiry: int, n: nat)
    requires Standing(line, id, expiry, n) && now < expiry
    ensures Standing(Unexpired(line, now), id, expiry, n)
  {
    var i :| StandsAt(line, id, expiry, n, i);
    var m := |line| - 1;
    var before := Unexpired(line[..m], now);
    if i == m {
      assert StandsAt(Unexpired(line, now), id, expiry, n, |before|);
    } else {
      assert StandsAt(line[..m], id, expiry, n - 1, i);
      UnexpiredKeepsPlace(line[..m], now, id, expiry, n - 1);
      var j :| StandsAt(before, id, expiry, n - 1, j);
      assert StandsAt(Unexpired(line, now), id, expiry, n, j);
    }
  }

  /** Any deletion: the tombstone has its full time, at the end of the line when the result was not buried before and
      otherwise where it was. */
  lemma DeletionStands(config: Config, s: Shared, id: string, now: int)
    requires LineInv(s.deleted)
    ensures var u, line := Unexpired(s.deleted, now), Delete(config, s, id, now).deleted;
            && (!Buried(u, id) ==> Standing(line, id, Expiry(config, now), 0))
            && (forall i :: 0 <= i < |u| && u[i].id == id ==> StandsAt(line, id, Expiry(config, now), |u| - 1 - i, i))
  {
    var u, line := Unexpired(s.deleted, now), Delete(config, s, id, now).deleted;
    EntombedIs(config, s.deleted, id, now);
    if !Buried(u, id) {
      assert StandsAt(line, id, Expiry(config, now), 0, |line| - 1);
    }
  }

  /** A deletion that adds a tombstone. */
  function Adds(s: System, e: Event): nat {
    if e.Deletes? && !Buried(Unexpired(s.shared.deleted, e.now), e.result) then 1 else 0
  }

  function Added(config: Config, s: System, events: seq<Event>): nat
    requires Possible(config, s, events)
    decreases |events|
  {
    if events == [] then 0 else Adds(s, events[0]) + Added(config, Next(config, s, events[0]), events[1..])
  }

  /** A deletion that comes before the time is up and does not shorten it. */
  ghost predicate Harmless(config: Config, e: Event, id: string, expiry: int) {
    e.Deletes? ==> e.now < expiry && (e.result == id ==> Expiry(config, e.now) >= expiry)
  }

  lemma PlaceAfter(config: Config, line: seq<Tombstone>, other: string, now: int, id: string, expiry: int, n: nat, i: nat)
    requires LineInv(line) && StandsAt(Unexpired(line, now), id, expiry, n, i)
    requires other == id ==> Expiry(config, now) >= expiry
    requires !Buried(Unexpired(line, now), other) ==> n + 1 < MAX_TOMBSTONES
    ensures Standing(Entombed(config, line, other, now), id, expiry,
                     n + if Buried(Unexpired(line, now), other) then 0 else 1)
  {
    hide LineInv, Entombed, Standing, StandsAt, Unexpired;
    var u, t := Unexpired(line, now), Tombstone(other, Expiry(config, now));
    EntombedIs(config, line, other, now);
    if j :| 0 <= j < |u| && u[j].id == other {
      PlaceRenewed(u, t, j, id, expiry, n, i);
    } else {
      assert !Buried(u, other);
      PlaceBehind(u, t, id, expiry, n, i);
    }
  }

  lemma PlaceRenewed(line: seq<Tombstone>, t: Tombstone, j: nat, id: string, expiry: int, n: nat, i: nat)
    requires j < |line| && line[j].id == t.id && StandsAt(line, id, expiry, n, i) && (t.id == id ==> t.expiry >= expiry)
    ensures Standing(line[j := t], id, expiry, n)
  {
    assert StandsAt(line[j := t], id, expiry, n, i);
  }

  lemma PlaceBehind(line: seq<Tombstone>, t: Tombstone, id: string, expiry: int, n: nat, i: nat)
    requires StandsAt(line, id, expiry, n, i) && |line| <= MAX_TOMBSTONES && n + 1 < MAX_TOMBSTONES
    ensures Standing(if |line| < MAX_TOMBSTONES then line + [t] else line[1..] + [t], id, expiry, n + 1)
  {
    if |line| < MAX_TOMBSTONES {
      assert StandsAt(line + [t], id, expiry, n + 1, i);
    } else {
      assert StandsAt(line[1..] + [t], id, expiry, n + 1, i - 1);
    }
  }

  lemma StandingStep(config: Config, s: System, e: Event, id: string, expiry: int, n: nat)
    requires LineInv(s.shared.deleted) && Standing(s.shared.deleted, id, expiry, n) && Enabled(s, e)
    requires Harmless(config, e, id, expiry) && n + Adds(s, e) < MAX_TOMBSTONES
    ensures Standing(Next(config, s, e).shared.deleted, id, expiry, n + Adds(s, e)) && Spares(s, e, id)
  {
    if e.Deletes? {
      var u := Unexpired(s.shared.deleted, e.now);
      UnexpiredKeepsPlace(s.shared.deleted, e.now, id, expiry, n);
      UnexpiredThins(s.shared.deleted, e.now);
      var i :| StandsAt(u, id, expiry, n, i);
      PlaceAfter(config, s.shared.deleted, e.result, e.now, id, expiry, n, i);
      assert i > 0 ==> u[0].id != id;
    } else {
      SameTombstones(config, s, e);
    }
  }

  /** Until a tombstone's time is up, and while fewer than 256 tombstones join the line behind it, every step spares it.
      Deletions of results that are buried already do not count. */
  lemma {:induction false} FewAddedSpare(config: Config, s: System, events: seq<Event>, id: string, expiry: int, n: nat)
    requires LineInv(s.shared.deleted) && Standing(s.shared.deleted, id, expiry, n) && Possible(config, s, events)
    requires forall e :: e in events ==> Harmless(config, e, id, expiry)
    requires n + Added(config, s, events) < MAX_TOMBSTONES
    ensures AllSpare(config, s, events, id)
    decreases |events|
  {
    if events != [] {
      hide Next, Spares, Harmless, Standing, Adds;
      StandingStep(config, s, events[0], id, expiry, n);
      StepKeepsLine(config, s, events[0]);
      FewAddedSpare(config, Next(config, s, events[0]), events[1..], id, expiry, n + Adds(s, events[0]));
    }
  }

  // ----- a run in which the cap forgets -----

  /** Deleting these results one after the other, all at once. */
  function DeletesOf(ids: seq<string>, now: int): seq<Event> {
    seq(|ids|, i requires 0 <= i < |ids| => Deletes(ids[i], now))
  }

  function Graves(ids: seq<string>, expiry: int): seq<Tombstone> {
    seq(|ids|, i requires 0 <= i < |ids| => Tombstone(ids[i], expiry))
  }

  ghost predicate AllFresh(line: seq<Tombstone>, ids: seq<string>) {
    && (forall i, j :: 0 <= i < j < |ids| ==> ids[i] != ids[j])
    && forall i :: 0 <= i < |ids| ==> !Buried(line, ids[i])
  }

  lemma {:induction false} NoneExpired(line: seq<Tombstone>, now: int)
    requires forall i :: 0 <= i < |line| ==> line[i].expiry > now
    ensures Unexpired(line, now) == line
  {
    if line != [] {
      NoneExpired(line[..|line| - 1], now);
    }
  }

  /** Every tombstone has time left, there is room for more by the rules, and the cache is empty. */
  ghost predicate Quiet(s: System, now: int) {
    && LineInv(s.shared.deleted) && s.shared.cache == []
    && forall i :: 0 <= i < |s.shared.deleted| ==> s.shared.deleted[i].expiry > now
  }

  lemma GraveAdded(config: Config, s: System, id: string, now: int)
    requires Quiet(s, now) && !Buried(s.shared.deleted, id) && Expiry(config, now) > now
    ensures var next := Next(config, s, Deletes(id, now));
            && next == s.(shared := s.shared.(deleted := Newest(s.shared.deleted + [Tombstone(id, Expiry(config, now))])))
            && Quiet(next, now)
  {
    hide Next, Buried, LineInv, Newest;
    var line, t := s.shared.deleted, Tombstone(id, Expiry(config, now));
    NoneExpired(line, now);
    BuryFresh(line, id, t.expiry);
    StepKeepsLine(config, s, Deletes(id, now));
    NextDeletes(config, s, id, now);
    LateNewest(line + [t], now);
  }

  lemma NextDeletes(config: Config, s: System, id: string, now: int)
    requires s.shared.cache == []
    ensures Next(config, s, Deletes(id, now))
            == s.(shared := s.shared.(deleted := Entombed(config, s.shared.deleted, id, now)))
  {
  }

  lemma LateNewest(line: seq<Tombstone>, now: int)
    requires forall i :: 0 <= i < |line| ==> line[i].expiry > now
    ensures forall i :: 0 <= i < |Newest(line)| ==> Newest(line)[i].expiry > now
  {
  }

  lemma NewestTwice(a: seq<Tombstone>, b: seq<Tombstone>)
    ensures Newest(Newest(a) + b) == Newest(a + b)
  {
  }

  lemma StillFresh(line: seq<Tombstone>, ids: seq<string>, expiry: int)
    requires ids != [] && AllFresh(line, ids)
    ensures AllFresh(Newest(line + [Tombstone(ids[0], expiry)]), ids[1..])
  {
    var after := Newest(line + [Tombstone(ids[0], expiry)]);
    forall i | 0 <= i < |ids[1..]|
      ensures !Buried(after, ids[1..][i])
    {
      assert ids[1..][i] == ids[i + 1];
      BuriedIn(after, ids[i + 1]);
      BuriedIn(line, ids[i + 1]);
    }
  }

  lemma FirstGrave(line: seq<Tombstone>, ids: seq<string>, expiry: int)
    requires ids != []
    ensures line + [Tombstone(ids[0], expiry)] + Graves(ids[1..], expiry) == line + Graves(ids, expiry)
  {
  }

  lemma {:induction false} GravesAdded(config: Config, s: System, ids: seq<string>, now: int)
    requires Quiet(s, now) && AllFresh(s.shared.deleted, ids) && Expiry(config, now) > now
    ensures Possible(config, s, DeletesOf(ids, now))
    ensures After(config, s, DeletesOf(ids, now))
            == s.(shared := s.shared.(deleted := Newest(s.shared.deleted + Graves(ids, Expiry(config, now)))))
    decreases |ids|
  {
    hide Next, Newest, Quiet, AllFresh;
    var line, expiry := s.shared.deleted, Expiry(config, now);
    if ids == [] {
      assert line + Graves(ids, expiry) == line;
      QuietIsNewest(s, now);
    } else {
      var events := DeletesOf(ids, now);
      FreshFirst(line, ids);
      GraveAdded(config, s, ids[0], now);
      StillFresh(line, ids, expiry);
      GravesAdded(config, Next(config, s, events[0]), ids[1..], now);
      assert events[1..] == DeletesOf(ids[1..], now);
      NewestTwice(line + [Tombstone(ids[0], expiry)], Graves(ids[1..], expiry));
      FirstGrave(line, ids, expiry);
    }
  }

  lemma QuietIsNewest(s: System, now: int)
    requires Quiet(s, now)
    ensures Newest(s.shared.deleted) == s.shared.deleted
  {
  }

  lemma FreshFirst(line: seq<Tombstone>, ids: seq<string>)
    requires ids != [] && AllFresh(line, ids)
    ensures !Buried(line, ids[0])
  {
  }

  function Names(n: nat): seq<string> {
    seq(n, i requires 0 <= i => seq(i, _ => 'x'))
  }

  lemma NamesAreFresh(id: string, expiry: int)
    requires id != [] && id[0] != 'x'
    ensures AllFresh([Tombstone(id, expiry)], Names(MAX_TOMBSTONES))
  {
    var names, line := Names(MAX_TOMBSTONES), [Tombstone(id, expiry)];
    forall i, j | 0 <= i < j < |names|
      ensures names[i] != names[j]
    {
      assert |names[i]| == i && |names[j]| == j;
    }
    forall i | 0 <= i < |names|
      ensures !Buried(line, names[i])
    {
      assert |names[i]| == i && (i > 0 ==> names[i][0] == 'x');
    }
  }

  const RESULT := "result"
  const QUESTION := "question"

  /** One request computes, its result is deleted, then 256 others are, and only then the request stores. */
  function Overrun(value: Value): seq<Event> {
    [Arrives(0, QUESTION, false, 0), Computes(0, value), Deletes(RESULT, 0)] + DeletesOf(Names(MAX_TOMBSTONES), 0)
    + [Stores(0, 0)]
  }

  function Flying(value: Value, line: seq<Tombstone>): System {
    System(Shared([], Some(0), [Flight(QUESTION, false, false, Some(value), None)], line),
           map[0 := Owning(0, Computed(value))], map[0 := QUESTION])
  }

  /** A request that arrives now is answered from the cache. */
  predicate Serves(s: System, key: Key, value: Value, now: int) {
    && (s.shared.pending.Some? ==> s.shared.pending.value < |s.shared.flights|)
    && Enter(s.shared, key, false, now).1 == Hit(value)
  }

  lemma FirstDeletion(config: Config, value: Value) returns (events: seq<Event>)
    ensures events == [Arrives(0, QUESTION, false, 0), Computes(0, value), Deletes(RESULT, 0)]
    ensures Run(config, events, Flying(value, [Tombstone(RESULT, Expiry(config, 0))]))
  {
    var s1 := System(Shared([], Some(0), [Flight(QUESTION, false, false, None, None)], []),
                     map[0 := Owning(0, Computing)], map[0 := QUESTION]);
    assert Next(config, START, Arrives(0, QUESTION, false, 0)) == s1;
    assert Next(config, s1, Computes(0, value)) == Flying(value, []);
    assert Next(config, Flying(value, []), Deletes(RESULT, 0)) == Flying(value, [Tombstone(RESULT, Expiry(config, 0))]);
    RunStep(config, [], START, Arrives(0, QUESTION, false, 0));
    RunStep(config, [] + [Arrives(0, QUESTION, false, 0)], s1, Computes(0, value));
    RunStep(config, [] + [Arrives(0, QUESTION, false, 0)] + [Computes(0, value)], Flying(value, []), Deletes(RESULT, 0));
    events := [] + [Arrives(0, QUESTION, false, 0)] + [Computes(0, value)] + [Deletes(RESULT, 0)];
  }

  /** The cap is a real limit: a run from the empty start in which the 257th live tombstone drops the first, and a
      request that was still computing puts the deleted result into the cache and serves it from there. */
  lemma CapForgets(config: Config, value: Value) returns (s: System)
    requires config.ttl > 0 && config.limits.entries > 0
    requires Usable(value.status) && value.size <= config.limits.bytes && value.resultId == Some(RESULT)
    ensures Run(config, Overrun(value), s) && Holds(s.shared.cache, RESULT)
    ensures Serves(s, QUESTION, value, 0)
  {
    var line := [Tombstone(RESULT, Expiry(config, 0))];
    var names := Names(MAX_TOMBSTONES);
    var events := FirstDeletion(config, value);
    var flying := Flying(value, line);
    assert Quiet(flying, 0);
    NamesAreFresh(RESULT, Expiry(config, 0));
    GravesAdded(config, flying, names, 0);
    RunExtends(config, events, flying, DeletesOf(names, 0));
    var full := After(config, flying, DeletesOf(names, 0));
    OnlyNames(config);
    assert full == Flying(value, Graves(names, Expiry(config, 0)));
    RunStep(config, events + DeletesOf(names, 0), full, Stores(0, 0));
    s := Next(config, full, Stores(0, 0));
    StoredAnyway(config, value, Graves(names, Expiry(config, 0)));
  }

  lemma OnlyNames(config: Config)
    ensures var names, expiry := Names(MAX_TOMBSTONES), Expiry(config, 0);
            && Newest([Tombstone(RESULT, expiry)] + Graves(names, expiry)) == Graves(names, expiry)
            && !Buried(Graves(names, expiry), RESULT)
  {
    var names, expiry := Names(MAX_TOMBSTONES), Expiry(config, 0);
    var line := Graves(names, expiry);
    forall i | 0 <= i < |line|
      ensures line[i].id != RESULT
    {
      assert |names[i]| == i && (i > 0 ==> names[i][0] == 'x');
    }
  }

  lemma StoredAnyway(config: Config, value: Value, line: seq<Tombstone>)
    requires config.ttl > 0 && config.limits.entries > 0 && !Buried(line, RESULT)
    requires Usable(value.status) && value.size <= config.limits.bytes && value.resultId == Some(RESULT)
    ensures var s := Next(config, Flying(value, line), Stores(0, 0));
            Holds(s.shared.cache, RESULT) && Serves(s, QUESTION, value, 0)
  {
    var item := Item(QUESTION, config.ttl, value.size, value);
    var s := Next(config, Flying(value, line), Stores(0, 0));
    StoredAlone(config, value, line);
    hide Next;
    assert item in s.shared.cache;
    OneLive(item, 0);
  }

  lemma StoredAlone(config: Config, value: Value, line: seq<Tombstone>)
    requires config.limits.entries > 0 && !Buried(line, RESULT)
    requires Usable(value.status) && value.size <= config.limits.bytes && value.resultId == Some(RESULT)
    ensures Next(config, Flying(value, line), Stores(0, 0)).shared.cache == [Item(QUESTION, config.ttl, value.size, value)]
    ensures Next(config, Flying(value, line), Stores(0, 0)).shared.flights == Flying(value, line).shared.flights
    ensures Next(config, Flying(value, line), Stores(0, 0)).shared.pending == Some(0)
  {
    hide Usable;
    var item := Item(QUESTION, config.ttl, value.size, value);
    NewestSurvives(config.limits, [], item);
    EvictedIsSuffix(config.limits, [] + [item]);
    assert Without([], QUESTION) + [item] == [] + [item];
  }

  lemma OneLive<V>(item: Item<V>, now: int)
    requires item.expiry > now
    ensures Live([item], now) == [item] && Find([item], item.key) == Some(item)
  {
    assert [item][..0] == [];
  }
}
