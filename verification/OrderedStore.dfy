/** The insertion-ordered, expiring, size-bounded dictionary that both the request cache and the evidence registry
    keep behind their locks. */
module OrderedStore {
  import opened Prelude

  datatype Item<V> = Item(key: string, expiry: int, size: nat, value: V)

  datatype Limits = Limits(entries: nat, bytes: nat)

  function Live<V>(cache: seq<Item<V>>, now: int): seq<Item<V>> {
    if cache == [] then []
    else Live(cache[..|cache| - 1], now) + if cache[|cache| - 1].expiry > now then [cache[|cache| - 1]] else []
  }

  function Without<V>(cache: seq<Item<V>>, key: string): seq<Item<V>> {
    if cache == [] then []
    else Without(cache[..|cache| - 1], key) + if cache[|cache| - 1].key != key then [cache[|cache| - 1]] else []
  }

  function Find<V>(cache: seq<Item<V>>, key: string): Option<Item<V>> {
    if cache == [] then None
    else if cache[|cache| - 1].key == key then Some(cache[|cache| - 1])
    else Find(cache[..|cache| - 1], key)
  }

  function Bytes<V>(cache: seq<Item<V>>): nat {
    if cache == [] then 0 else cache[0].size + Bytes(cache[1..])
  }

  /** Oldest first, until both bounds hold. */
  function Evicted<V>(limits: Limits, cache: seq<Item<V>>): seq<Item<V>> {
    if cache != [] && (|cache| > limits.entries || Bytes(cache) > limits.bytes) then Evicted(limits, cache[1..])
    else cache
  }

  // ----- what these operations keep -----

  ghost predicate DistinctKeys<V>(cache: seq<Item<V>>) {
    forall i, j :: 0 <= i < j < |cache| ==> cache[i].key != cache[j].key
  }

  ghost predicate Bounded<V>(limits: Limits, cache: seq<Item<V>>) {
    |cache| <= limits.entries && Bytes(cache) <= limits.bytes
  }

  lemma {:induction false} BytesSplit<V>(a: seq<Item<V>>, b: seq<Item<V>>)
    ensures Bytes(a + b) == Bytes(a) + Bytes(b)
  {
    if a == [] {
      assert a + b == b;
    } else {
      BytesSplit(a[1..], b);
      assert (a + b)[1..] == a[1..] + b;
    }
  }

  lemma BytesOne<V>(item: Item<V>)
    ensures Bytes([item]) == item.size
  {
    assert [item][1..] == [];
  }

  /** Keeping some items keeps the order, the bounds and the distinctness. */
  ghost predicate Thinned<V(!new)>(before: seq<Item<V>>, after: seq<Item<V>>) {
    && (forall item :: item in after ==> item in before)
    && |after| <= |before| && Bytes(after) <= Bytes(before)
    && (DistinctKeys(before) ==> DistinctKeys(after))
  }

  lemma ThinnedStep<V(!new)>(before: seq<Item<V>>, after: seq<Item<V>>, last: Item<V>, keep: bool)
    requires Thinned(before, after)
    ensures Thinned(before + [last], after + if keep then [last] else [])
  {
    var b, a := before + [last], after + if keep then [last] else [];
    BytesSplit(before, [last]);
    BytesSplit(after, if keep then [last] else []);
    BytesOne(last);
    if DistinctKeys(b) {
      forall i, j | 0 <= i < j < |before|
        ensures before[i].key != before[j].key
      {
        assert b[i].key != b[j].key;
      }
      if keep {
        forall i | 0 <= i < |after|
          ensures after[i].key != last.key
        {
          assert after[i] in before;
          var k :| 0 <= k < |before| && before[k] == after[i];
          assert b[k].key != b[|before|].key;
        }
      }
    }
  }

  lemma {:induction false} LiveThins<V(!new)>(cache: seq<Item<V>>, now: int)
    ensures Thinned(cache, Live(cache, now))
    ensures forall item :: item in Live(cache, now) <==> item in cache && item.expiry > now
  {
    if cache != [] {
      var n := |cache| - 1;
      LiveThins(cache[..n], now);
      assert cache == cache[..n] + [cache[n]];
      ThinnedStep(cache[..n], Live(cache[..n], now), cache[n], cache[n].expiry > now);
    }
  }

  lemma {:induction false} WithoutThins<V(!new)>(cache: seq<Item<V>>, key: string)
    ensures Thinned(cache, Without(cache, key))
    ensures forall item :: item in Without(cache, key) <==> item in cache && item.key != key
  {
    if cache != [] {
      var n := |cache| - 1;
      WithoutThins(cache[..n], key);
      assert cache == cache[..n] + [cache[n]];
      ThinnedStep(cache[..n], Without(cache[..n], key), cache[n], cache[n].key != key);
    }
  }

  lemma {:induction false} FindFinds<V>(cache: seq<Item<V>>, key: string)
    ensures match Find(cache, key)
            case None => forall item :: item in cache ==> item.key != key
            case Some(item) => item in cache && item.key == key
  {
    if cache != [] {
      var n := |cache| - 1;
      FindFinds(cache[..n], key);
      assert cache == cache[..n] + [cache[n]];
    }
  }

  ghost predicate Embeds<V>(before: seq<Item<V>>, after: seq<Item<V>>, at: seq<nat>) {
    && |at| == |after|
    && (forall i :: 0 <= i < |at| ==> at[i] < |before| && before[at[i]] == after[i])
    && (forall i, j :: 0 <= i < j < |at| ==> at[i] < at[j])
  }

  /** What is kept stands in the order it stood. */
  ghost predicate SubsequenceOf<V>(before: seq<Item<V>>, after: seq<Item<V>>) {
    exists at: seq<nat> :: Embeds(before, after, at)
  }

  lemma SubsequenceStep<V>(before: seq<Item<V>>, after: seq<Item<V>>, last: Item<V>, keep: bool)
    requires SubsequenceOf(before, after)
    ensures SubsequenceOf(before + [last], after + if keep then [last] else [])
  {
    var at: seq<nat> :| Embeds(before, after, at);
    var at': seq<nat> := at + if keep then [|before|] else [];
    assert Embeds(before + [last], after + if keep then [last] else [], at');
  }

  lemma {:induction false} LiveIsSubsequence<V>(entries: seq<Item<V>>, now: int)
    ensures SubsequenceOf(entries, Live(entries, now))
  {
    if entries == [] {
      assert Embeds<V>([], [], []);
    } else {
      var n := |entries| - 1;
      LiveIsSubsequence(entries[..n], now);
      SubsequenceStep(entries[..n], Live(entries[..n], now), entries[n], entries[n].expiry > now);
      assert entries == entries[..n] + [entries[n]];
    }
  }

  lemma SubsequenceTwice<V>(a: seq<Item<V>>, b: seq<Item<V>>, c: seq<Item<V>>)
    requires SubsequenceOf(a, b) && SubsequenceOf(b, c)
    ensures SubsequenceOf(a, c)
  {
    var ab: seq<nat> :| Embeds(a, b, ab);
    var bc: seq<nat> :| Embeds(b, c, bc);
    EmbedsTwice(a, b, c, ab, bc);
  }

  lemma EmbedsTwice<V>(a: seq<Item<V>>, b: seq<Item<V>>, c: seq<Item<V>>, ab: seq<nat>, bc: seq<nat>)
    requires Embeds(a, b, ab) && Embeds(b, c, bc)
    ensures SubsequenceOf(a, c)
  {
    var ac: seq<nat> := seq(|c|, i requires 0 <= i < |c| => ab[bc[i]]);
    forall i | 0 <= i < |ac|
      ensures ac[i] < |a| && a[ac[i]] == c[i]
    {
      assert b[bc[i]] == c[i];
    }
    assert Embeds(a, c, ac);
  }

  lemma {:induction false} WithoutIsSubsequence<V>(entries: seq<Item<V>>, id: string)
    ensures SubsequenceOf(entries, Without(entries, id))
  {
    if entries == [] {
      assert Embeds<V>([], [], []);
    } else {
      var n := |entries| - 1;
      WithoutIsSubsequence(entries[..n], id);
      SubsequenceStep(entries[..n], Without(entries[..n], id), entries[n], entries[n].key != id);
      assert entries == entries[..n] + [entries[n]];
    }
  }

  /** Moving the found item to the end drops nothing else and adds nothing. */
  lemma {:induction false} MoveToEndKeeps<V(!new)>(cache: seq<Item<V>>, key: string)
    requires DistinctKeys(cache) && Find(cache, key).Some?
    ensures var moved := Without(cache, key) + [Find(cache, key).value];
            && |moved| == |cache| && Bytes(moved) == Bytes(cache)
            && DistinctKeys(moved)
            && (forall item :: item in moved <==> item in cache)
  {
    var found := Find(cache, key).value;
    FindFinds(cache, key);
    WithoutThins(cache, key);
    RemovalSize(cache, key);
    BytesSplit(Without(cache, key), [found]);
    BytesOne(found);
    forall item | item in cache
      ensures item in Without(cache, key) || item == found
    {
      if item.key == key {
        var i :| 0 <= i < |cache| && cache[i] == item;
        var j :| 0 <= j < |cache| && cache[j] == found;
        assert i == j;
      }
    }
  }

  lemma {:induction false} RemovalSize<V>(cache: seq<Item<V>>, key: string)
    requires DistinctKeys(cache) && Find(cache, key).Some?
    ensures |Without(cache, key)| == |cache| - 1
    ensures Bytes(Without(cache, key)) == Bytes(cache) - Find(cache, key).value.size
  {
    var n := |cache| - 1;
    assert cache == cache[..n] + [cache[n]];
    BytesSplit(cache[..n], [cache[n]]);
    BytesOne(cache[n]);
    if cache[n].key == key {
      assert forall i :: 0 <= i < n ==> cache[i].key != key;
      NothingToRemove(cache[..n], key);
      assert Without(cache, key) == cache[..n];
    } else {
      RemovalSize(cache[..n], key);
      BytesSplit(Without(cache[..n], key), [cache[n]]);
    }
  }

  lemma {:induction false} NothingToRemove<V>(cache: seq<Item<V>>, key: string)
    requires forall i :: 0 <= i < |cache| ==> cache[i].key != key
    ensures Without(cache, key) == cache
  {
    if cache != [] {
      var n := |cache| - 1;
      NothingToRemove(cache[..n], key);
      assert cache == cache[..n] + [cache[n]];
    }
  }

  /** Eviction keeps a suffix: the oldest entries go first, and both bounds hold afterwards. */
  lemma {:induction false} EvictedIsSuffix<V>(limits: Limits, cache: seq<Item<V>>)
    ensures exists k :: 0 <= k <= |cache| && Evicted(limits, cache) == cache[k..]
    ensures Bounded(limits, Evicted(limits, cache))
  {
    if cache != [] && (|cache| > limits.entries || Bytes(cache) > limits.bytes) {
      EvictedIsSuffix(limits, cache[1..]);
      var k :| 0 <= k <= |cache| - 1 && Evicted(limits, cache[1..]) == cache[1..][k..];
      assert cache[1..][k..] == cache[k + 1..];
    } else {
      assert cache == cache[0..];
    }
  }

  /** The newest entry survives its own insertion exactly when the cache may hold anything at all. */
  lemma {:induction false} NewestSurvives<V>(limits: Limits, cache: seq<Item<V>>, item: Item<V>)
    requires item.size <= limits.bytes
    ensures item in Evicted(limits, cache + [item]) || limits.entries == 0
    ensures limits.entries == 0 ==> Evicted(limits, cache + [item]) == []
    ensures limits.entries > 0 ==>
              var after := Evicted(limits, cache + [item]); after != [] && after[|after| - 1] == item
    decreases |cache|
  {
    var all := cache + [item];
    if |all| > limits.entries || Bytes(all) > limits.bytes {
      if cache == [] {
        assert all == [item];
        assert Bytes(all[1..]) == 0;
        assert Bytes(all) == item.size;
        assert limits.entries == 0;
        assert Evicted(limits, all) == Evicted(limits, []);
      } else {
        assert all[1..] == cache[1..] + [item];
        NewestSurvives(limits, cache[1..], item);
      }
    }
  }

  lemma SuffixThins<V(!new)>(cache: seq<Item<V>>, k: nat)
    requires k <= |cache|
    ensures Thinned(cache, cache[k..])
  {
    assert cache == cache[..k] + cache[k..];
    BytesSplit(cache[..k], cache[k..]);
  }

  /** Eviction keeps the longest suffix that fits. */
  lemma {:induction false} EvictedIsLongest<V>(limits: Limits, cache: seq<Item<V>>, k: nat)
    requires k <= |cache| && Bounded(limits, cache[k..])
    ensures |cache[k..]| <= |Evicted(limits, cache)|
    decreases |cache|
  {
    assert cache[0..] == cache;
    if k > 0 && (|cache| > limits.entries || Bytes(cache) > limits.bytes) {
      assert cache[k..] == cache[1..][k - 1..];
      EvictedIsLongest(limits, cache[1..], k - 1);
    }
  }

  lemma InSuffix<V>(cache: seq<Item<V>>, i: nat, k: nat)
    requires i < |cache| && k <= |cache| && DistinctKeys(cache)
    ensures cache[i] in cache[k..] <==> k <= i
  {
    if k <= i {
      assert cache[k..][i - k] == cache[i];
    }
    if cache[i] in cache[k..] {
      var j :| 0 <= j < |cache| - k && cache[k..][j] == cache[i];
      assert cache[k + j].key == cache[i].key;
      assert k + j == i;
    }
  }

  lemma ShorterFits<V>(limits: Limits, cache: seq<Item<V>>, k: nat, i: nat)
    requires k <= i <= |cache| && Bounded(limits, cache[k..])
    ensures Bounded(limits, cache[i..])
  {
    assert cache[k..] == cache[k..i] + cache[i..];
    BytesSplit(cache[k..i], cache[i..]);
  }

  /** The entry at position i stays exactly when it and everything newer fit together. */
  lemma StaysIff<V>(limits: Limits, cache: seq<Item<V>>, i: nat)
    requires i < |cache| && DistinctKeys(cache)
    ensures cache[i] in Evicted(limits, cache) <==> Bounded(limits, cache[i..])
  {
    EvictedIsSuffix(limits, cache);
    var k :| 0 <= k <= |cache| && Evicted(limits, cache) == cache[k..];
    InSuffix(cache, i, k);
    if k <= i {
      ShorterFits(limits, cache, k, i);
    }
    if Bounded(limits, cache[i..]) {
      EvictedIsLongest(limits, cache, i);
    }
  }

  /** What eviction leaves is part of what was there, within the bounds. */
  lemma EvictedThins<V(!new)>(limits: Limits, cache: seq<Item<V>>)
    ensures Thinned(cache, Evicted(limits, cache)) && Bounded(limits, Evicted(limits, cache))
  {
    EvictedIsSuffix(limits, cache);
    var k :| 0 <= k <= |cache| && Evicted(limits, cache) == cache[k..];
    SuffixThins(cache, k);
  }
}
