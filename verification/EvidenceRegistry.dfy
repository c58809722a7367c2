/** The expiring catalog registry, and its agreement with a plain record of what was put and deleted. */
module EvidenceRegistry {
  import opened Prelude
  import opened OrderedStore

  type Catalog = string

  datatype Config = Config(limits: Limits, maxEntryBytes: nat, ttl: nat)

  type Entries = seq<Item<Catalog>>

  predicate Positive(config: Config) {
    config.limits.entries > 0 && config.limits.bytes > 0 && config.maxEntryBytes > 0 && config.ttl > 0
  }

  predicate Fits(config: Config, size: nat) {
    size <= config.maxEntryBytes && size <= config.limits.bytes
  }

  /** A call with the clock readings it makes. */
  datatype Call =
    | Put(id: string, size: nat, catalog: Catalog, now: int, stamp: int)
    | Get(id: string, now: int)
    | Delete(id: string)

  function After(config: Config, entries: Entries, call: Call): Entries {
    match call
    case Put(id, size, catalog, now, stamp) =>
      if Fits(config, size) then
        Evicted(config.limits, Without(Live(entries, now), id) + [Item(id, stamp + config.ttl, size, catalog)])
      else entries
    case Get(_, now) => Live(entries, now)
    case Delete(id) => Without(entries, id)
  }

  class EvidenceRegistry {
    const config: Config
    var entries: Entries

    constructor (config: Config)
      requires Positive(config)
      ensures this.config == config && entries == []
    {
      this.config := config;
      entries := [];
    }

    /** Refuses limits that are not positive. */
    static method Make(config: Config) returns (registry: EvidenceRegistry?)
      ensures registry != null <==> Positive(config)
      ensures registry != null ==> fresh(registry) && registry.config == config && registry.entries == []
    {
      registry := null;
      if Positive(config) {
        registry := new EvidenceRegistry(config);
      }
    }

    /** An oversized catalog is refused before anything changes. */
    method PutCatalog(id: string, size: nat, catalog: Catalog, now: int, stamp: int) returns (accepted: bool)
      modifies this
      ensures entries == After(config, old(entries), Put(id, size, catalog, now, stamp))
      ensures accepted <==> Fits(config, size)
    {
      if size > config.maxEntryBytes || size > config.limits.bytes {
        return false;
      }
      entries := Live(entries, now);
      entries := Without(entries, id) + [Item(id, stamp + config.ttl, size, catalog)];
      ghost var full := entries;
      while entries != [] && (|entries| > config.limits.entries || Bytes(entries) > config.limits.bytes)
        invariant Evicted(config.limits, entries) == Evicted(config.limits, full)
        decreases |entries|
      {
        entries := entries[1..];
      }
      accepted := true;
    }

    method GetCatalog(id: string, now: int) returns (r: Option<Catalog>)
      modifies this
      ensures entries == After(config, old(entries), Get(id, now))
      ensures r == match Find(entries, id) case None => None case Some(item) => Some(item.value)
    {
      entries := Live(entries, now);
      var found := Find(entries, id);
      r := if found.Some? then Some(found.value.value) else None;
    }

    method DeleteCatalog(id: string) returns (found: bool)
      modifies this
      ensures entries == After(config, old(entries), Delete(id))
      ensures found <==> Find(old(entries), id).Some?
    {
      found := Find(entries, id).Some?;
      entries := Without(entries, id);
    }
  }

  // ----- agreement with the history of calls -----

  function AfterAll(config: Config, history: seq<Call>): Entries {
    if history == [] then []
    else After(config, AfterAll(config, history[..|history| - 1]), history[|history| - 1])
  }

  predicate Accepted(config: Config, call: Call, id: string) {
    call.Put? && call.id == id && Fits(config, call.size)
  }

  /** The plain record: the last accepted put of an identifier that no delete has followed. */
  function Latest(config: Config, history: seq<Call>, id: string): Option<Item<Catalog>> {
    if history == [] then None
    else
      var last := history[|history| - 1];
      if Accepted(config, last, id) then Some(Item(id, last.stamp + config.ttl, last.size, last.catalog))
      else if last == Delete(id) then None
      else Latest(config, history[..|history| - 1], id)
  }

  /** When that put happened. */
  function When(config: Config, history: seq<Call>, id: string): int {
    if history == [] then -1
    else if Accepted(config, history[|history| - 1], id) then |history| - 1
    else When(config, history[..|history| - 1], id)
  }

  ghost predicate Agrees(config: Config, history: seq<Call>, entries: Entries) {
    forall i :: 0 <= i < |entries| ==> Latest(config, history, entries[i].key) == Some(entries[i])
  }

  /** Oldest put first. */
  ghost predicate InPutOrder(config: Config, history: seq<Call>, entries: Entries) {
    && (forall i :: 0 <= i < |entries| ==> When(config, history, entries[i].key) < |history|)
    && (forall i, j :: 0 <= i < j < |entries| ==>
          When(config, history, entries[i].key) < When(config, history, entries[j].key))
  }

  ghost predicate Inv(config: Config, history: seq<Call>, entries: Entries) {
    && DistinctKeys(entries)
    && Bounded(config.limits, entries)
    && Agrees(config, history, entries)
    && InPutOrder(config, history, entries)
  }

  lemma SubsequenceKeeps(config: Config, history: seq<Call>, before: Entries, after: Entries)
    requires Inv(config, history, before) && SubsequenceOf(before, after) && Thinned(before, after)
    ensures Inv(config, history, after)
  {
    var at: seq<nat> :| Embeds(before, after, at);
    forall i, j | 0 <= i < j < |after|
      ensures When(config, history, after[i].key) < When(config, history, after[j].key)
    {
      assert before[at[i]] == after[i] && before[at[j]] == after[j];
    }
  }

  /** A call that neither puts nor deletes what is held leaves the record of it alone. */
  lemma CallKeeps(config: Config, history: seq<Call>, call: Call, entries: Entries)
    requires Inv(config, history, entries)
    requires forall i :: 0 <= i < |entries| ==> !Accepted(config, call, entries[i].key) && call != Delete(entries[i].key)
    ensures Inv(config, history + [call], entries)
  {
    assert (history + [call])[..|history|] == history;
    forall i | 0 <= i < |entries|
      ensures Latest(config, history + [call], entries[i].key) == Latest(config, history, entries[i].key)
      ensures When(config, history + [call], entries[i].key) == When(config, history, entries[i].key)
    {
    }
  }

  lemma PutAppends(config: Config, history: seq<Call>, call: Call, kept: Entries)
    requires call.Put? && Fits(config, call.size)
    requires Inv(config, history, kept) && forall i :: 0 <= i < |kept| ==> kept[i].key != call.id
    ensures var all := kept + [Item(call.id, call.stamp + config.ttl, call.size, call.catalog)];
            && DistinctKeys(all) && Agrees(config, history + [call], all) && InPutOrder(config, history + [call], all)
  {
    CallKeeps(config, history, call, kept);
    assert (history + [call])[..|history|] == history;
    assert When(config, history + [call], call.id) == |history|;
    forall i | 0 <= i < |kept|
      ensures When(config, history + [call], kept[i].key) < |history|
    {
      assert When(config, history + [call], kept[i].key) == When(config, history, kept[i].key);
    }
  }

  lemma SuffixAgrees(config: Config, history: seq<Call>, all: Entries, k: nat)
    requires k <= |all| && DistinctKeys(all) && Agrees(config, history, all) && InPutOrder(config, history, all)
    requires Bounded(config.limits, all[k..])
    ensures Inv(config, history, all[k..])
  {
    var after := all[k..];
    forall i, j | 0 <= i < j < |after|
      ensures after[i].key != after[j].key
      ensures When(config, history, after[i].key) < When(config, history, after[j].key)
    {
      assert after[i] == all[k + i] && after[j] == all[k + j];
    }
    forall i | 0 <= i < |after|
      ensures Latest(config, history, after[i].key) == Some(after[i]) && When(config, history, after[i].key) < |history|
    {
      assert after[i] == all[k + i];
    }
  }

  /** What is left after expiry and after making room for the identifier. */
  function Kept(entries: Entries, id: string, now: int): Entries {
    Without(Live(entries, now), id)
  }

  lemma LiveKeeps(config: Config, history: seq<Call>, entries: Entries, now: int)
    requires Inv(config, history, entries)
    ensures Inv(config, history, Live(entries, now))
  {
    LiveThins(entries, now);
    LiveIsSubsequence(entries, now);
    SubsequenceKeeps(config, history, entries, Live(entries, now));
  }

  lemma WithoutKeeps(config: Config, history: seq<Call>, entries: Entries, id: string)
    requires Inv(config, history, entries)
    ensures Inv(config, history, Without(entries, id))
    ensures forall i :: 0 <= i < |Without(entries, id)| ==> Without(entries, id)[i].key != id
  {
    WithoutThins(entries, id);
    WithoutIsSubsequence(entries, id);
    SubsequenceKeeps(config, history, entries, Without(entries, id));
    var kept := Without(entries, id);
    assert forall i :: 0 <= i < |kept| ==> kept[i] in kept && kept[i].key != id;
  }

  lemma PutEvicts(config: Config, history: seq<Call>, call: Call, kept: Entries)
    requires call.Put? && Fits(config, call.size)
    requires Inv(config, history, kept) && forall i :: 0 <= i < |kept| ==> kept[i].key != call.id
    ensures Inv(config, history + [call],
                Evicted(config.limits, kept + [Item(call.id, call.stamp + config.ttl, call.size, call.catalog)]))
  {
    PutAppends(config, history, call, kept);
    var all := kept + [Item(call.id, call.stamp + config.ttl, call.size, call.catalog)];
    EvictedIsSuffix(config.limits, all);
    var k :| 0 <= k <= |all| && Evicted(config.limits, all) == all[k..];
    SuffixAgrees(config, history + [call], all, k);
  }

  lemma PutKeeps(config: Config, history: seq<Call>, entries: Entries, call: Call)
    requires Inv(config, history, entries) && call.Put?
    ensures Inv(config, history + [call], After(config, entries, call))
  {
    if Fits(config, call.size) {
      LiveKeeps(config, history, entries, call.now);
      WithoutKeeps(config, history, Live(entries, call.now), call.id);
      PutEvicts(config, history, call, Kept(entries, call.id, call.now));
    } else {
      CallKeeps(config, history, call, entries);
    }
  }

  /** Whatever the calls were: the bounds hold, every entry is the record's current put of its identifier, and
      entries stand oldest put first. */
  lemma {:induction false} RegistryAgrees(config: Config, history: seq<Call>)
    ensures Inv(config, history, AfterAll(config, history))
  {
    if history != [] {
      var n := |history| - 1;
      RegistryAgrees(config, history[..n]);
      var call, entries := history[n], AfterAll(config, history[..n]);
      assert history == history[..n] + [call];
      match call
      case Put(_, _, _, _, _) => PutKeeps(config, history[..n], entries, call);
      case Get(_, now) =>
        LiveKeeps(config, history[..n], entries, now);
        CallKeeps(config, history[..n], call, Live(entries, now));
      case Delete(id) =>
        WithoutKeeps(config, history[..n], entries, id);
        CallKeeps(config, history[..n], call, Without(entries, id));
    }
  }

  /** A lookup answers only with the last accepted, undeleted and unexpired put of that identifier. */
  lemma GetIsLatest(config: Config, history: seq<Call>, id: string, now: int)
    requires Find(After(config, AfterAll(config, history), Get(id, now)), id).Some?
    ensures var item := Find(After(config, AfterAll(config, history), Get(id, now)), id).value;
            Latest(config, history, id) == Some(item) && item.expiry > now
  {
    RegistryAgrees(config, history);
    var entries := AfterAll(config, history);
    LiveThins(entries, now);
    FindFinds(Live(entries, now), id);
    var item := Find(Live(entries, now), id).value;
    assert item in entries;
    var i :| 0 <= i < |entries| && entries[i] == item;
  }

  lemma KeptDistinct(config: Config, history: seq<Call>, id: string, now: int)
    ensures DistinctKeys(Kept(AfterAll(config, history), id, now))
    ensures forall i :: 0 <= i < |Kept(AfterAll(config, history), id, now)| ==> Kept(AfterAll(config, history), id, now)[i].key != id
  {
    var entries := AfterAll(config, history);
    RegistryAgrees(config, history);
    LiveKeeps(config, history, entries, now);
    WithoutKeeps(config, history, Live(entries, now), id);
  }

  /** When an accepted put evicts, it is for lack of room only, and the oldest puts go first: an entry that was
      live and is not replaced stays exactly when it, everything put after it and the new entry fit together. */
  lemma EvictionIsExact(config: Config, history: seq<Call>, call: Call, i: nat)
    requires call.Put? && Fits(config, call.size)
    requires i < |Kept(AfterAll(config, history), call.id, call.now)|
    ensures var kept := Kept(AfterAll(config, history), call.id, call.now);
            var added := Item(call.id, call.stamp + config.ttl, call.size, call.catalog);
            && (kept[i] in After(config, AfterAll(config, history), call)
                <==> Bounded(config.limits, kept[i..] + [added]))
            && (config.limits.entries > 0 ==> added in After(config, AfterAll(config, history), call))
  {
    var kept := Kept(AfterAll(config, history), call.id, call.now);
    KeptDistinct(config, history, call.id, call.now);
    AppendedExactly(config, kept, Item(call.id, call.stamp + config.ttl, call.size, call.catalog), i);
  }

  lemma AppendedExactly(config: Config, kept: Entries, added: Item<Catalog>, i: nat)
    requires DistinctKeys(kept) && (forall j :: 0 <= j < |kept| ==> kept[j].key != added.key) && i < |kept|
    requires Fits(config, added.size)
    ensures kept[i] in Evicted(config.limits, kept + [added]) <==> Bounded(config.limits, kept[i..] + [added])
    ensures config.limits.entries > 0 ==> added in Evicted(config.limits, kept + [added])
  {
    AppendedDistinct(kept, added);
    StaysIff(config.limits, kept + [added], i);
    assert (kept + [added])[i..] == kept[i..] + [added];
    NewestSurvives(config.limits, kept, added);
  }

  lemma AppendedDistinct(kept: Entries, added: Item<Catalog>)
    requires DistinctKeys(kept) && forall i :: 0 <= i < |kept| ==> kept[i].key != added.key
    ensures DistinctKeys(kept + [added])
  {
  }

  // ----- what is served after a put -----

  function Lookup(config: Config, entries: Entries, id: string, now: int): Option<Item<Catalog>> {
    Find(After(config, entries, Get(id, now)), id)
  }

  function Added(config: Config, call: Call): Item<Catalog>
    requires call.Put?
  {
    Item(call.id, call.stamp + config.ttl, call.size, call.catalog)
  }

  lemma {:induction false} LatestFits(config: Config, history: seq<Call>, id: string)
    ensures Latest(config, history, id).Some? ==> Fits(config, Latest(config, history, id).value.size)
  {
    if history != [] {
      LatestFits(config, history[..|history| - 1], id);
    }
  }

  lemma SameItem(entries: Entries, a: Item<Catalog>, b: Item<Catalog>)
    requires DistinctKeys(entries) && a in entries && b in entries && a.key == b.key
    ensures a == b
  {
    var i :| 0 <= i < |entries| && entries[i] == a;
    var j :| 0 <= j < |entries| && entries[j] == b;
  }

  lemma FindLive(entries: Entries, item: Item<Catalog>, now: int)
    requires DistinctKeys(entries) && item in entries
    ensures Find(Live(entries, now), item.key) == if item.expiry > now then Some(item) else None
  {
    LiveThins(entries, now);
    FindFinds(Live(entries, now), item.key);
    match Find(Live(entries, now), item.key)
    case None =>
    case Some(found) => SameItem(entries, found, item);
  }

  /** An accepted put is what its identifier is answered with, until it expires. */
  lemma AcceptedIsServed(config: Config, history: seq<Call>, call: Call, now: int)
    requires call.Put? && Fits(config, call.size) && config.limits.entries > 0
    ensures Lookup(config, AfterAll(config, history + [call]), call.id, now)
            == if now < call.stamp + config.ttl then Some(Added(config, call)) else None
  {
    hide Inv, Find, Live, Evicted, Without;
    var longer := history + [call];
    assert longer[..|history|] == history;
    RegistryDistinct(config, longer);
    NewestSurvives(config.limits, Kept(AfterAll(config, history), call.id, call.now), Added(config, call));
    FindLive(AfterAll(config, longer), Added(config, call), now);
  }

  lemma RegistryDistinct(config: Config, history: seq<Call>)
    ensures DistinctKeys(AfterAll(config, history))
  {
    RegistryAgrees(config, history);
  }

  /** A put is refused before the previous catalog is removed: afterwards its identifier is answered with the new catalog
      exactly when that fits, and otherwise with whatever it was answered with before. */
  lemma ServesNewIffFits(config: Config, history: seq<Call>, call: Call, now: int)
    requires call.Put? && config.limits.entries > 0 && now < call.stamp + config.ttl
    ensures var served := Lookup(config, AfterAll(config, history + [call]), call.id, now);
            && (served == Some(Added(config, call)) <==> Fits(config, call.size))
            && (!Fits(config, call.size) ==> served == Lookup(config, AfterAll(config, history), call.id, now))
  {
    if Fits(config, call.size) {
      AcceptedIsServed(config, history, call, now);
    } else {
      assert (history + [call])[..|history|] == history;
      if Lookup(config, AfterAll(config, history), call.id, now).Some? {
        GetIsLatest(config, history, call.id, now);
        LatestFits(config, history, call.id);
      }
    }
  }
}
