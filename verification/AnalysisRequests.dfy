/** Result reuse and coalescing: the shared object behind the lock, one method per lock block. */
module RequestCache {
  import opened Prelude
  import opened OrderedStore

  const JOIN_SECONDS := 140
  const MAX_TOMBSTONES := 256

  type Key = string
  type Error = string

  /** What the source reported about one collection, as far as caching cares. */
  datatype Status = Status(metricsAvailable: bool, tracesAvailable: bool, annotated: bool,
                           families: map<string, nat>, coverage: map<string, map<string, real>>, spanCount: int,
                           context: Option<map<string, bool>>, http: Option<(bool, map<string, bool>)>)

  /** A computed analysis as it is kept: its encoded size, whether its delivery envelope can be built. */
  datatype Value = Value(resultId: Option<string>, status: Status, size: nat, deliverable: bool, body: string)

  /** Only complete, fully available results may be reused. */
  predicate Usable(s: Status) {
    && s.metricsAvailable && s.tracesAvailable && !s.annotated
    && s.families != map[] && (forall service :: service in s.families ==> s.families[service] == 4)
    && s.coverage != map[]
    && (forall service, family :: service in s.coverage && family in s.coverage[service] ==>
          s.coverage[service][family] >= 0.8)
    && s.spanCount > 0
    && (s.context.Some? ==>
          s.context.value != map[] && forall service :: service in s.context.value ==> s.context.value[service])
    && (s.http.Some? ==>
          && s.http.value.0 && s.http.value.1 != map[]
          && forall service :: service in s.http.value.1 ==> s.http.value.1[service])
  }

  datatype Config = Config(ttl: int, limits: Limits)

  type Cached = Item<Value>

  /** The record an owner shares with the request that joins it. */
  datatype Flight = Flight(key: Key, joined: bool, settled: bool, payload: Option<Value>, error: Option<Error>)

  datatype Tombstone = Tombstone(id: string, expiry: int)

  datatype Shared = Shared(cache: seq<Cached>, pending: Option<nat>, flights: seq<Flight>, deleted: seq<Tombstone>)

  const EMPTY := Shared([], None, [], [])

  // ----- the ordered dictionary -----

  function WithoutResult(cache: seq<Cached>, id: string): seq<Cached> {
    if cache == [] then []
    else
      WithoutResult(cache[..|cache| - 1], id)
      + if cache[|cache| - 1].value.resultId != Some(id) then [cache[|cache| - 1]] else []
  }

  function Unexpired(deleted: seq<Tombstone>, now: int): seq<Tombstone> {
    if deleted == [] then []
    else
      Unexpired(deleted[..|deleted| - 1], now)
      + if deleted[|deleted| - 1].expiry > now then [deleted[|deleted| - 1]] else []
  }

  /** Assigning an existing key keeps its place; a new key goes last. */
  function Bury(deleted: seq<Tombstone>, id: string, expiry: int): seq<Tombstone> {
    if deleted == [] then [Tombstone(id, expiry)]
    else if deleted[0].id == id then [Tombstone(id, expiry)] + deleted[1..]
    else [deleted[0]] + Bury(deleted[1..], id, expiry)
  }

  function Newest(deleted: seq<Tombstone>): seq<Tombstone> {
    if |deleted| > MAX_TOMBSTONES then deleted[|deleted| - MAX_TOMBSTONES..] else deleted
  }

  predicate Buried(deleted: seq<Tombstone>, id: string) {
    exists i :: 0 <= i < |deleted| && deleted[i].id == id
  }

  // ----- lock blocks as state changes -----

  datatype Reply = Hit(value: Value) | Busy | Join(flight: nat) | Own(flight: nat)

  /** The first lock block of a request. */
  function Enter(s: Shared, key: Key, refresh: bool, now: int): (Shared, Reply)
    requires s.pending.Some? ==> s.pending.value < |s.flights|
  {
    var live := Live(s.cache, now);
    var cached := Find(live, key);
    if cached.Some? && !refresh then
      (s.(cache := Without(live, key) + [cached.value]), Hit(cached.value.value))
    else
      var kept := if refresh then Without(live, key) else live;
      match s.pending
      case None =>
        (s.(cache := kept, pending := Some(|s.flights|),
            flights := s.flights + [Flight(key, false, false, None, None)]), Own(|s.flights|))
      case Some(f) =>
        if s.flights[f].key != key || s.flights[f].joined then (s.(cache := kept), Busy)
        else (s.(cache := kept, flights := s.flights[f := s.flights[f].(joined := true)]), Join(f))
  }

  predicate Storable(config: Config, s: Shared, value: Value) {
    && Usable(value.status) && value.size <= config.limits.bytes
    && (value.resultId.Some? ==> !Buried(s.deleted, value.resultId.value))
  }

  /** The second lock block of an owner: insert and evict, if the result may be kept. */
  function Store(config: Config, s: Shared, key: Key, value: Value, now: int): Shared {
    if Storable(config, s, value) then
      s.(cache := Evicted(config.limits, Without(s.cache, key) + [Item(key, now + config.ttl, value.size, value)]))
    else s
  }

  /** The last lock block of an owner, run whatever happened before it. */
  function Settle(s: Shared, flight: nat): Shared
    requires flight < |s.flights|
  {
    s.(pending := None, flights := s.flights[flight := s.flights[flight].(settled := true)])
  }

  function Entombed(config: Config, deleted: seq<Tombstone>, id: string, now: int): seq<Tombstone> {
    Newest(Bury(Unexpired(deleted, now), id, now + JOIN_SECONDS + config.ttl))
  }

  function Delete(config: Config, s: Shared, id: string, now: int): Shared {
    s.(deleted := Entombed(config, s.deleted, id, now),
       cache := WithoutResult(s.cache, id))
  }

  // ----- the object -----

  class AnalysisRequests {
    const config: Config
    var cache: seq<Cached>
    var pending: Option<nat>
    var flights: seq<Flight>
    var deleted: seq<Tombstone>

    constructor (config: Config)
      ensures this.config == config && Contents() == EMPTY
    {
      this.config := config;
      cache, pending, flights, deleted := [], None, [], [];
    }

    ghost function Contents(): Shared
      reads this
    {
      Shared(cache, pending, flights, deleted)
    }

    /** A request arrives: expire, look up, then join, own or refuse. */
    method RunEnter(key: Key, refresh: bool, now: int) returns (reply: Reply)
      requires pending.Some? ==> pending.value < |flights|
      modifies this
      ensures (Contents(), reply) == Enter(old(Contents()), key, refresh, now)
    {
      cache := Live(cache, now);
      var cached := Find(cache, key);
      if cached.Some? && !refresh {
        cache := Without(cache, key) + [cached.value];
        return Hit(cached.value.value);
      }
      if refresh {
        cache := Without(cache, key);
      }
      if pending.Some? {
        var f := pending.value;
        if flights[f].key != key || flights[f].joined {
          return Busy;
        }
        flights := flights[f := flights[f].(joined := true)];
        return Join(f);
      }
      pending := Some(|flights|);
      reply := Own(|flights|);
      flights := flights + [Flight(key, false, false, None, None)];
    }

    method RunStore(key: Key, value: Value, now: int)
      modifies this
      ensures Contents() == Store(config, old(Contents()), key, value, now)
    {
      if Usable(value.status) && value.size <= config.limits.bytes
         && (value.resultId.None? || !Buried(deleted, value.resultId.value)) {
        cache := Without(cache, key) + [Item(key, now + config.ttl, value.size, value)];
        EvictOldest();
      }
    }

    method EvictOldest()
      modifies this`cache
      ensures cache == Evicted(config.limits, old(cache))
    {
      while cache != [] && (|cache| > config.limits.entries || Bytes(cache) > config.limits.bytes)
        invariant Evicted(config.limits, cache) == Evicted(config.limits, old(cache))
        decreases |cache|
      {
        cache := cache[1..];
      }
    }

    method RunSettle(flight: nat)
      requires flight < |flights|
      modifies this
      ensures Contents() == Settle(old(Contents()), flight)
    {
      pending := None;
      flights := flights[flight := flights[flight].(settled := true)];
    }

    method DeleteResult(id: string, now: int)
      modifies this
      ensures Contents() == Delete(config, old(Contents()), id, now)
    {
      deleted := Bury(Unexpired(deleted, now), id, now + JOIN_SECONDS + config.ttl);
      ghost var buried := deleted;
      while |deleted| > MAX_TOMBSTONES
        invariant Newest(deleted) == Newest(buried)
        invariant cache == old(cache) && pending == old(pending) && flights == old(flights)
        decreases |deleted|
      {
        deleted := deleted[1..];
      }
      assert deleted == Newest(buried);
      cache := WithoutResult(cache, id);
    }
  }

  // ----- what the dictionary operations keep -----

  /** Every kept result passed the usability test and none is tombstoned. */
  ghost predicate Clean(s: Shared) {
    forall item :: item in s.cache ==>
      && Usable(item.value.status)
      && (item.value.resultId.Some? ==> !Buried(s.deleted, item.value.resultId.value))
  }

  ghost predicate CacheInv(config: Config, s: Shared) {
    DistinctKeys(s.cache) && Bounded(config.limits, s.cache) && Clean(s)
  }

  lemma {:induction false} WithoutResultThins(cache: seq<Cached>, id: string)
    ensures Thinned(cache, WithoutResult(cache, id))
    ensures forall item :: item in WithoutResult(cache, id) <==> item in cache && item.value.resultId != Some(id)
  {
    if cache != [] {
      var n := |cache| - 1;
      WithoutResultThins(cache[..n], id);
      assert cache == cache[..n] + [cache[n]];
      ThinnedStep(cache[..n], WithoutResult(cache[..n], id), cache[n], cache[n].value.resultId != Some(id));
    }
  }

  lemma ThinnedCleanly(config: Config, s: Shared, cache: seq<Cached>)
    requires CacheInv(config, s) && Thinned(s.cache, cache)
    ensures CacheInv(config, s.(cache := cache))
  {
  }

  // ----- each lock block keeps the cache invariant -----

  lemma RearrangedCleanly(config: Config, s: Shared, cache: seq<Cached>)
    requires CacheInv(config, s) && DistinctKeys(cache)
    requires |cache| == |s.cache| && Bytes(cache) == Bytes(s.cache) && forall item :: item in cache <==> item in s.cache
    ensures CacheInv(config, s.(cache := cache))
  {
  }

  /** The cache after the first lock block, in each of its outcomes. */
  lemma EnterCache(config: Config, s: Shared, key: Key, refresh: bool, now: int)
    requires CacheInv(config, s)
    ensures var live := Live(s.cache, now);
            && CacheInv(config, s.(cache := live))
            && CacheInv(config, s.(cache := Without(live, key)))
            && (Find(live, key).Some? ==> CacheInv(config, s.(cache := Without(live, key) + [Find(live, key).value])))
  {
    var live := Live(s.cache, now);
    LiveThins(s.cache, now);
    ThinnedCleanly(config, s, live);
    var s1 := s.(cache := live);
    WithoutThins(live, key);
    ThinnedCleanly(config, s1, Without(live, key));
    if Find(live, key).Some? {
      MoveToEndKeeps(live, key);
      RearrangedCleanly(config, s1, Without(live, key) + [Find(live, key).value]);
    }
  }

  lemma SameCacheInv(config: Config, a: Shared, b: Shared)
    requires CacheInv(config, a) && a.cache == b.cache && a.deleted == b.deleted
    ensures CacheInv(config, b)
  {
  }

  lemma EnterOutcome(s: Shared, key: Key, refresh: bool, now: int)
    requires s.pending.Some? ==> s.pending.value < |s.flights|
    ensures var live := Live(s.cache, now);
            var after := Enter(s, key, refresh, now).0;
            && after.deleted == s.deleted
            && (after.cache == live || after.cache == Without(live, key)
                || (Find(live, key).Some? && after.cache == Without(live, key) + [Find(live, key).value]))
  {
  }

  /** There is an entry for this key with time left. */
  ghost predicate Held(s: Shared, key: Key, now: int, v: Value) {
    exists item :: item in s.cache && item.key == key && item.expiry > now && item.value == v
  }

  lemma FindsOnly(cache: seq<Cached>, item: Cached)
    requires DistinctKeys(cache) && item in cache
    ensures Find(cache, item.key) == Some(item)
  {
    FindFinds(cache, item.key);
    var found := Find(cache, item.key).value;
    var i :| 0 <= i < |cache| && cache[i] == item;
    var j :| 0 <= j < |cache| && cache[j] == found;
  }

  /** A request is answered from the cache exactly when it does not ask for a refresh and the cache holds an unexpired
      entry for its own key, and then with that entry's value. */
  lemma HitIff(s: Shared, key: Key, refresh: bool, now: int, v: Value)
    requires DistinctKeys(s.cache) && (s.pending.Some? ==> s.pending.value < |s.flights|)
    ensures Enter(s, key, refresh, now).1 == Hit(v) <==> !refresh && Held(s, key, now, v)
  {
    var live := Live(s.cache, now);
    LiveThins(s.cache, now);
    FindFinds(live, key);
    if Held(s, key, now, v) {
      var item :| item in s.cache && item.key == key && item.expiry > now && item.value == v;
      FindsOnly(live, item);
    }
  }

  /** A request that is not answered owns a new flight when none is in the air, joins the one that is when that is for
      its key and nobody has joined it, and is refused otherwise. */
  lemma EnterReplies(s: Shared, key: Key, refresh: bool, now: int)
    requires s.pending.Some? ==> s.pending.value < |s.flights|
    ensures var (after, reply) := Enter(s, key, refresh, now);
            !reply.Hit? ==>
              && (reply.Own? <==> s.pending.None?)
              && (reply.Own? ==> reply.flight == |s.flights| && after.pending == Some(reply.flight)
                                 && after.flights == s.flights + [Flight(key, false, false, None, None)])
              && (reply.Join? <==> s.pending.Some? && s.flights[s.pending.value].key == key && !s.flights[s.pending.value].joined)
              && (reply.Join? ==> s.pending == Some(reply.flight) == after.pending
                                  && after.flights == s.flights[reply.flight := s.flights[reply.flight].(joined := true)])
    ensures var (after, reply) := Enter(s, key, refresh, now);
            reply.Hit? || reply.Busy? ==> after.pending == s.pending && after.flights == s.flights
  {
  }

  lemma WithoutLive(s: Shared, key: Key, now: int)
    ensures forall item :: item in Without(Live(s.cache, now), key) <==> item in s.cache && item.expiry > now && item.key != key
    ensures SubsequenceOf(s.cache, Live(s.cache, now)) && SubsequenceOf(s.cache, Without(Live(s.cache, now), key))
  {
    var live := Live(s.cache, now);
    LiveThins(s.cache, now);
    WithoutThins(live, key);
    LiveIsSubsequence(s.cache, now);
    WithoutIsSubsequence(live, key);
    SubsequenceTwice(s.cache, live, Without(live, key));
  }

  /** What the first lock block leaves in the cache: the unexpired entries, without the one a refresh replaces, in their
      order, except that an entry that answers moves to the end. */
  lemma EnterLeaves(s: Shared, key: Key, refresh: bool, now: int)
    requires DistinctKeys(s.cache) && (s.pending.Some? ==> s.pending.value < |s.flights|)
    ensures var (after, reply) := Enter(s, key, refresh, now);
            && (forall item :: item in after.cache <==> item in s.cache && item.expiry > now && !(refresh && item.key == key))
            && (!reply.Hit? ==> SubsequenceOf(s.cache, after.cache))
            && (reply.Hit? ==> after.cache != [] && after.cache[|after.cache| - 1].key == key
                               && SubsequenceOf(s.cache, after.cache[..|after.cache| - 1]))
  {
    hide SubsequenceOf, Live, Without, Find, DistinctKeys;
    var live := Live(s.cache, now);
    LiveThins(s.cache, now);
    WithoutLive(s, key, now);
    FindFinds(live, key);
    if Find(live, key).Some? {
      MoveToEndKeeps(live, key);
      var moved := Without(live, key) + [Find(live, key).value];
      assert moved[..|moved| - 1] == Without(live, key);
    }
  }

  lemma EnterKeepsCache(config: Config, s: Shared, key: Key, refresh: bool, now: int)
    requires CacheInv(config, s) && (s.pending.Some? ==> s.pending.value < |s.flights|)
    ensures CacheInv(config, Enter(s, key, refresh, now).0)
  {
    EnterCache(config, s, key, refresh, now);
    EnterOutcome(s, key, refresh, now);
    var after := Enter(s, key, refresh, now).0;
    SameCacheInv(config, s.(cache := after.cache), after);
  }

  lemma StoredCleanly(config: Config, s: Shared, key: Key, item: Cached)
    requires CacheInv(config, s) && item.key == key && Storable(config, s, item.value)
    ensures var all := Without(s.cache, key) + [item];
            DistinctKeys(all) && Clean(s.(cache := all))
  {
    var kept := Without(s.cache, key);
    WithoutThins(s.cache, key);
    assert forall i :: 0 <= i < |kept| ==> kept[i] in kept && kept[i].key != key;
  }

  lemma StoreKeepsCache(config: Config, s: Shared, key: Key, value: Value, now: int)
    requires CacheInv(config, s)
    ensures CacheInv(config, Store(config, s, key, value, now))
  {
    if Storable(config, s, value) {
      var item := Item(key, now + config.ttl, value.size, value);
      var all := Without(s.cache, key) + [item];
      StoredCleanly(config, s, key, item);
      EvictedThins(config.limits, all);
    }
  }

  lemma BuriedOne(t: Tombstone, id: string)
    ensures Buried([t], id) <==> t.id == id
  {
    assert [t][0] == t;
  }

  lemma {:induction false} BuryHas(deleted: seq<Tombstone>, id: string, expiry: int, other: string)
    ensures Buried(Bury(deleted, id, expiry), other) <==> other == id || Buried(deleted, other)
    ensures |deleted| <= |Bury(deleted, id, expiry)| <= |deleted| + 1
  {
    if deleted != [] {
      assert deleted == [deleted[0]] + deleted[1..];
      BuriedSplit([deleted[0]], deleted[1..], other);
      BuriedOne(deleted[0], other);
      BuriedOne(Tombstone(id, expiry), other);
      if deleted[0].id == id {
        BuriedSplit([Tombstone(id, expiry)], deleted[1..], other);
      } else {
        BuryHas(deleted[1..], id, expiry, other);
        BuriedSplit([deleted[0]], Bury(deleted[1..], id, expiry), other);
      }
    } else {
      BuriedOne(Tombstone(id, expiry), other);
    }
  }

  lemma BuriedSplit(a: seq<Tombstone>, b: seq<Tombstone>, id: string)
    ensures Buried(a + b, id) <==> Buried(a, id) || Buried(b, id)
  {
    if i :| 0 <= i < |a| && a[i].id == id {
      assert (a + b)[i].id == id;
    }
    if i :| 0 <= i < |b| && b[i].id == id {
      assert (a + b)[|a| + i].id == id;
    }
    if i :| 0 <= i < |a + b| && (a + b)[i].id == id {
      assert if i < |a| then a[i].id == id else b[i - |a|].id == id;
    }
  }

  lemma {:induction false} UnexpiredHas(deleted: seq<Tombstone>, now: int)
    ensures forall t :: t in Unexpired(deleted, now) <==> t in deleted && t.expiry > now
  {
    if deleted != [] {
      var n := |deleted| - 1;
      UnexpiredHas(deleted[..n], now);
      assert deleted == deleted[..n] + [deleted[n]];
    }
  }

  lemma BuriedIn(deleted: seq<Tombstone>, id: string)
    ensures Buried(deleted, id) <==> exists t :: t in deleted && t.id == id
  {
    if t :| t in deleted && t.id == id {
      var i :| 0 <= i < |deleted| && deleted[i] == t;
    }
  }

  /** A deletion forgets tombstones only by age or by the cap; it never adds one for another result. */
  lemma DeleteBuries(config: Config, s: Shared, id: string, now: int, other: string)
    requires Buried(Delete(config, s, id, now).deleted, other) && other != id
    ensures Buried(s.deleted, other)
  {
    var unexpired := Unexpired(s.deleted, now);
    var buried := Bury(unexpired, id, now + JOIN_SECONDS + config.ttl);
    BuriedIn(Newest(buried), other);
    BuriedIn(buried, other);
    BuryHas(unexpired, id, now + JOIN_SECONDS + config.ttl, other);
    BuriedIn(unexpired, other);
    BuriedIn(s.deleted, other);
    UnexpiredHas(s.deleted, now);
  }

  lemma DeleteKeepsCache(config: Config, s: Shared, id: string, now: int)
    requires CacheInv(config, s)
    ensures CacheInv(config, Delete(config, s, id, now))
  {
    WithoutResultThins(s.cache, id);
    ThinnedCleanly(config, s, WithoutResult(s.cache, id));
    var after := Delete(config, s, id, now);
    forall item | item in after.cache && item.value.resultId.Some?
      ensures !Buried(after.deleted, item.value.resultId.value)
    {
      if Buried(after.deleted, item.value.resultId.value) {
        DeleteBuries(config, s, id, now, item.value.resultId.value);
      }
    }
  }
}
