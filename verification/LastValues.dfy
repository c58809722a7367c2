/** Reading key-value pairs from a list into a map, where the last value of a key is the one that stays and every value
    must equal the one before, as Python compares them. What an element gives is a relation of the caller. */
module LastValues {
  import opened Prelude
  import opened Json

  type Relation = (Json, string, Json) -> bool

  /** An element gives at most one value, to one key. */
  ghost predicate Functional(gives: Relation) {
    forall item, k, v, k', v' :: gives(item, k, v) && gives(item, k', v') ==> k == k' && v == v'
  }

  ghost predicate Gives(gives: Relation, item: Json, key: string) {
    exists v :: gives(item, key, v)
  }

  /** Values of one key agree. */
  ghost predicate Agreeing(gives: Relation, items: seq<Json>, wanted: set<string>) {
    forall i, j, k, v, w :: 0 <= i < |items| && 0 <= j < |items| && k in wanted && gives(items[i], k, v) && gives(items[j], k, w) ==>
      PyEq(v, w)
  }

  ghost predicate Mentions(gives: Relation, items: seq<Json>, key: string) {
    exists i, v :: 0 <= i < |items| && gives(items[i], key, v)
  }

  ghost predicate LastAt(gives: Relation, items: seq<Json>, key: string, v: Json, i: int) {
    && 0 <= i < |items| && gives(items[i], key, v)
    && forall j :: i < j < |items| ==> !Gives(gives, items[j], key)
  }

  /** The last value given to this key. */
  ghost predicate Last(gives: Relation, items: seq<Json>, key: string, v: Json) {
    exists i :: LastAt(gives, items, key, v, i)
  }

  /** What reading the elements has found. */
  ghost predicate Found(gives: Relation, items: seq<Json>, wanted: set<string>, found: map<string, Json>) {
    && (forall k :: k in found ==> k in wanted && Last(gives, items, k, found[k]))
    && (forall k :: k in wanted && Mentions(gives, items, k) ==> k in found)
  }

  lemma LastSame(gives: Relation, items: seq<Json>, item: Json, key: string, v: Json)
    requires Last(gives, items, key, v) && !Gives(gives, item, key)
    ensures Last(gives, items + [item], key, v)
  {
    var i :| LastAt(gives, items, key, v, i);
    assert LastAt(gives, items + [item], key, v, i);
  }

  lemma LastNew(gives: Relation, items: seq<Json>, item: Json, key: string, v: Json)
    requires gives(item, key, v)
    ensures Last(gives, items + [item], key, v)
  {
    assert LastAt(gives, items + [item], key, v, |items|);
  }

  lemma MentionsMore(gives: Relation, items: seq<Json>, item: Json, key: string)
    requires Mentions(gives, items + [item], key)
    ensures Mentions(gives, items, key) || Gives(gives, item, key)
  {
    var i, v :| 0 <= i < |items + [item]| && gives((items + [item])[i], key, v);
    if i < |items| {
      assert gives(items[i], key, v);
    }
  }

  lemma LastMentions(gives: Relation, items: seq<Json>, key: string, v: Json)
    requires Last(gives, items, key, v)
    ensures Mentions(gives, items, key)
  {
  }

  lemma LastOnce(gives: Relation, items: seq<Json>, key: string, v: Json, w: Json)
    requires Functional(gives) && Last(gives, items, key, v) && Last(gives, items, key, w)
    ensures v == w
  {
    var i :| LastAt(gives, items, key, v, i);
    var j :| LastAt(gives, items, key, w, j);
    assert Gives(gives, items[i], key) && Gives(gives, items[j], key);
  }

  lemma FoundNothing(gives: Relation, wanted: set<string>)
    ensures Found(gives, [], wanted, map[]) && Agreeing(gives, [], wanted)
  {
  }

  /** An element that gives nothing wanted changes nothing. */
  lemma Skips(gives: Relation, items: seq<Json>, item: Json, wanted: set<string>, found: map<string, Json>)
    requires Found(gives, items, wanted, found) && forall k :: k in wanted ==> !Gives(gives, item, k)
    ensures Found(gives, items + [item], wanted, found)
    ensures Agreeing(gives, items + [item], wanted) <==> Agreeing(gives, items, wanted)
  {
    FoundSkips(gives, items, item, wanted, found);
    if Agreeing(gives, items, wanted) {
      AgreeingSkips(gives, items, item, wanted);
    }
    if Agreeing(gives, items + [item], wanted) {
      AgreeingFront(gives, items, item, wanted);
    }
  }

  lemma FoundSkips(gives: Relation, items: seq<Json>, item: Json, wanted: set<string>, found: map<string, Json>)
    requires Found(gives, items, wanted, found) && forall k :: k in wanted ==> !Gives(gives, item, k)
    ensures Found(gives, items + [item], wanted, found)
  {
    hide Last, Mentions, Gives;
    forall k | k in found
      ensures Last(gives, items + [item], k, found[k])
    {
      LastSame(gives, items, item, k, found[k]);
    }
    forall k | k in wanted && Mentions(gives, items + [item], k)
      ensures k in found
    {
      MentionsMore(gives, items, item, k);
    }
  }

  lemma AgreeingSkips(gives: Relation, items: seq<Json>, item: Json, wanted: set<string>)
    requires Agreeing(gives, items, wanted) && forall k :: k in wanted ==> !Gives(gives, item, k)
    ensures Agreeing(gives, items + [item], wanted)
  {
    var all := items + [item];
    forall i, j, k, v, w | 0 <= i < |all| && 0 <= j < |all| && k in wanted && gives(all[i], k, v) && gives(all[j], k, w)
      ensures PyEq(v, w)
    {
      assert Gives(gives, all[i], k) && Gives(gives, all[j], k);
      assert i < |items| && j < |items|;
    }
  }

  lemma AgreeingFront(gives: Relation, items: seq<Json>, item: Json, wanted: set<string>)
    requires Agreeing(gives, items + [item], wanted)
    ensures Agreeing(gives, items, wanted)
  {
    var all := items + [item];
    forall i, j, k, v, w | 0 <= i < |items| && 0 <= j < |items| && k in wanted && gives(items[i], k, v) && gives(items[j], k, w)
      ensures PyEq(v, w)
    {
      assert all[i] == items[i] && all[j] == items[j];
    }
  }

  lemma OnlyKey(gives: Relation, item: Json, key: string, v: Json, k: string)
    requires Functional(gives) && gives(item, key, v) && k != key
    ensures !Gives(gives, item, k)
  {
  }

  lemma FoundAdds(gives: Relation, items: seq<Json>, item: Json, wanted: set<string>, found: map<string, Json>, key: string, v: Json)
    requires Functional(gives) && Found(gives, items, wanted, found) && gives(item, key, v) && key in wanted
    ensures Found(gives, items + [item], wanted, found[key := v])
  {
    forall k | k != key
      ensures !Gives(gives, item, k)
    {
      OnlyKey(gives, item, key, v, k);
    }
    hide Last, Mentions, Functional, Gives;
    LastNew(gives, items, item, key, v);
    forall k | k in found && k != key
      ensures Last(gives, items + [item], k, found[k])
    {
      LastSame(gives, items, item, k, found[k]);
    }
    forall k | k in wanted && k != key && Mentions(gives, items + [item], k)
      ensures k in found
    {
      MentionsMore(gives, items, item, k);
    }
  }

  /** A conflict with the last value is a conflict, and there is no other. */
  lemma AgreeingMore(gives: Relation, items: seq<Json>, item: Json, wanted: set<string>, found: map<string, Json>,
                     key: string, v: Json)
    requires Functional(gives) && Found(gives, items, wanted, found) && Agreeing(gives, items, wanted)
    requires gives(item, key, v) && key in wanted
    ensures Agreeing(gives, items + [item], wanted) <==> (key in found ==> PyEq(found[key], v))
  {
    var all := items + [item];
    assert all[|items|] == item;
    if key in found {
      var n :| LastAt(gives, items, key, found[key], n);
      assert all[n] == items[n];
    }
    if key in found ==> PyEq(found[key], v) {
      forall i, j, k, x, y | 0 <= i < |all| && 0 <= j < |all| && k in wanted && gives(all[i], k, x) && gives(all[j], k, y)
        ensures PyEq(x, y)
      {
        if k == key {
          AgreesWithNew(gives, items, item, wanted, found, key, v, i, x);
          AgreesWithNew(gives, items, item, wanted, found, key, v, j, y);
        } else {
          assert i < |items| && j < |items|;
        }
      }
    }
  }

  lemma AgreesWithNew(gives: Relation, items: seq<Json>, item: Json, wanted: set<string>, found: map<string, Json>,
                      key: string, v: Json, i: nat, x: Json)
    requires Functional(gives) && Found(gives, items, wanted, found) && Agreeing(gives, items, wanted)
    requires gives(item, key, v) && key in wanted && (key in found ==> PyEq(found[key], v))
    requires i <= |items| && gives((items + [item])[i], key, x)
    ensures PyEq(x, v)
  {
    if i < |items| {
      assert Mentions(gives, items, key);
      var n :| LastAt(gives, items, key, found[key], n);
      assert gives(items[i], key, x) && gives(items[n], key, found[key]);
      assert PyEq(x, found[key]);
    } else {
      assert gives(item, key, x);
    }
  }

  lemma FoundIff(gives: Relation, items: seq<Json>, wanted: set<string>, found: map<string, Json>, key: string, v: Json)
    requires Functional(gives) && Found(gives, items, wanted, found) && key in wanted
    ensures key in found && found[key] == v <==> Last(gives, items, key, v)
    ensures key in found <==> Mentions(gives, items, key)
  {
    if key in found {
      LastMentions(gives, items, key, found[key]);
    }
    if Last(gives, items, key, v) {
      LastMentions(gives, items, key, v);
      LastOnce(gives, items, key, v, found[key]);
    }
  }

  lemma FoundAt(gives: Relation, items: seq<Json>, wanted: set<string>, found: map<string, Json>, key: string) returns (n: nat)
    requires Found(gives, items, wanted, found) && key in found
    ensures n < |items| && gives(items[n], key, found[key])
  {
    n :| LastAt(gives, items, key, found[key], n);
  }

  lemma AgreesWithFound(gives: Relation, items: seq<Json>, wanted: set<string>, found: map<string, Json>, key: string,
                        i: nat, v: Json)
    requires Found(gives, items, wanted, found) && Agreeing(gives, items, wanted)
    requires key in wanted && i < |items| && gives(items[i], key, v)
    ensures key in found && PyEq(v, found[key])
  {
    assert Mentions(gives, items, key);
    var n := FoundAt(gives, items, wanted, found, key);
    assert gives(items[i], key, v) && gives(items[n], key, found[key]);
  }
}
