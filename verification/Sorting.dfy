/** The stable sort behind the program's calls of `sorted`, and why its result does not depend on input order. */
module Sorting {
  import opened Prelude

  ghost predicate TotalPreorder<T(!new)>(leq: (T, T) -> bool) {
    && (forall a, b :: leq(a, b) || leq(b, a))
    && (forall a, b, c :: leq(a, b) && leq(b, c) ==> leq(a, c))
  }

  ghost predicate Ascending<T>(s: seq<T>, leq: (T, T) -> bool) {
    forall i, j :: 0 <= i < j < |s| ==> leq(s[i], s[j])
  }

  /** Puts x before the first element it may precede: equal keys keep their input order. */
  function Insert<T>(x: T, s: seq<T>, leq: (T, T) -> bool): seq<T> {
    if s == [] then [x]
    else if leq(x, s[0]) then [x] + s
    else [s[0]] + Insert(x, s[1..], leq)
  }

  function Sort<T>(s: seq<T>, leq: (T, T) -> bool): seq<T> {
    if s == [] then [] else Insert(s[0], Sort(s[1..], leq), leq)
  }

  lemma {:induction false} InsertKeeps<T>(x: T, s: seq<T>, leq: (T, T) -> bool)
    ensures multiset(Insert(x, s, leq)) == multiset(s) + multiset{x}
  {
    if s != [] && !leq(x, s[0]) {
      InsertKeeps(x, s[1..], leq);
      assert s == [s[0]] + s[1..];
    }
  }

  lemma {:induction false} SortKeeps<T>(s: seq<T>, leq: (T, T) -> bool)
    ensures multiset(Sort(s, leq)) == multiset(s)
    ensures |Sort(s, leq)| == |s|
    ensures forall x :: x in Sort(s, leq) <==> x in s
  {
    if s != [] {
      SortKeeps(s[1..], leq);
      InsertKeeps(s[0], Sort(s[1..], leq), leq);
      assert s == [s[0]] + s[1..];
    }
    SameMembers(Sort(s, leq), s);
  }

  /** The elements that tie with k. */
  function Ties<T>(leq: (T, T) -> bool, k: T): T -> bool {
    (x: T) => leq(x, k) && leq(k, x)
  }

  lemma {:induction false} InsertIsStable<T(!new)>(x: T, s: seq<T>, leq: (T, T) -> bool, k: T)
    requires TotalPreorder(leq)
    ensures Filter(Ties(leq, k), Insert(x, s, leq)) == Filter(Ties(leq, k), [x] + s)
  {
    hide Filter;
    if s != [] && !leq(x, s[0]) {
      InsertIsStable(x, s[1..], leq, k);
      FilterCons(Ties(leq, k), s[0], Insert(x, s[1..], leq));
      FilterCons(Ties(leq, k), x, s);
      FilterCons(Ties(leq, k), x, s[1..]);
      FilterCons(Ties(leq, k), s[0], s[1..]);
      assert s == [s[0]] + s[1..];
    } else if s == [] {
      assert [x] + s == [x];
    }
  }

  /** Elements that tie keep their input order. */
  lemma {:induction false} SortIsStable<T(!new)>(s: seq<T>, leq: (T, T) -> bool, k: T)
    requires TotalPreorder(leq)
    ensures Filter(Ties(leq, k), Sort(s, leq)) == Filter(Ties(leq, k), s)
  {
    hide Filter, Insert;
    if s != [] {
      SortIsStable(s[1..], leq, k);
      InsertIsStable(s[0], Sort(s[1..], leq), leq, k);
      FilterCons(Ties(leq, k), s[0], Sort(s[1..], leq));
      FilterCons(Ties(leq, k), s[0], s[1..]);
      assert s == [s[0]] + s[1..];
    }
  }

  lemma SameMembers<T>(a: seq<T>, b: seq<T>)
    requires multiset(a) == multiset(b)
    ensures |a| == |b|
    ensures forall x :: x in a <==> x in b
  {
    assert |a| == |multiset(a)| == |multiset(b)| == |b|;
    forall x
      ensures x in a <==> x in b
    {
      assert x in a <==> x in multiset(a);
      assert x in b <==> x in multiset(b);
    }
  }

  lemma {:induction false} InsertAscends<T(!new)>(x: T, s: seq<T>, leq: (T, T) -> bool)
    requires TotalPreorder(leq) && Ascending(s, leq)
    ensures Ascending(Insert(x, s, leq), leq)
  {
    if s == [] {
    } else if leq(x, s[0]) {
      assert forall i :: 0 <= i < |s| ==> leq(x, s[i]);
    } else {
      var rest := Insert(x, s[1..], leq);
      InsertAscends(x, s[1..], leq);
      InsertKeeps(x, s[1..], leq);
      forall i | 0 <= i < |rest|
        ensures leq(s[0], rest[i])
      {
        assert rest[i] in multiset(rest);
        assert rest[i] == x || rest[i] in s[1..];
      }
    }
  }

  lemma {:induction false} SortAscends<T(!new)>(s: seq<T>, leq: (T, T) -> bool)
    requires TotalPreorder(leq)
    ensures Ascending(Sort(s, leq), leq)
  {
    if s != [] {
      SortAscends(s[1..], leq);
      InsertAscends(s[0], Sort(s[1..], leq), leq);
    }
  }

  /** Two ascending arrangements of the same elements are the same sequence when the order tells
      distinct elements apart. */
  lemma {:induction false} AscendingUnique<T(!new)>(a: seq<T>, b: seq<T>, leq: (T, T) -> bool)
    requires multiset(a) == multiset(b)
    requires Ascending(a, leq) && Ascending(b, leq)
    requires forall x, y :: x in a && y in a && leq(x, y) && leq(y, x) ==> x == y
    ensures a == b
  {
    SameMembers(a, b);
    if a != [] {
      FirstsAgree(a, b, leq);
      TailCounts(a);
      TailCounts(b);
      assert a == [a[0]] + a[1..] && b == [b[0]] + b[1..];
      assert Ascending(a[1..], leq) && Ascending(b[1..], leq);
      assert forall x :: x in a[1..] ==> x in a;
      AscendingUnique(a[1..], b[1..], leq);
    }
  }

  lemma TailCounts<T>(a: seq<T>)
    requires a != []
    ensures multiset(a[1..]) == multiset(a) - multiset{a[0]}
  {
    assert a == [a[0]] + a[1..];
  }

  lemma FirstsAgree<T(!new)>(a: seq<T>, b: seq<T>, leq: (T, T) -> bool)
    requires |a| > 0 && |b| > 0 && a[0] in b && b[0] in a
    requires Ascending(a, leq) && Ascending(b, leq)
    requires forall x, y :: x in a && y in a && leq(x, y) && leq(y, x) ==> x == y
    ensures a[0] == b[0]
  {
    var i :| 0 <= i < |b| && b[i] == a[0];
    var j :| 0 <= j < |a| && a[j] == b[0];
    if i != 0 && j != 0 {
      assert leq(b[0], b[i]) && leq(a[0], a[j]);
    }
  }

  /** Sorting forgets the input order. */
  lemma SortIgnoresOrder<T(!new)>(a: seq<T>, b: seq<T>, leq: (T, T) -> bool)
    requires TotalPreorder(leq)
    requires multiset(a) == multiset(b)
    requires forall x, y :: x in a && y in a && leq(x, y) && leq(y, x) ==> x == y
    ensures Sort(a, leq) == Sort(b, leq)
  {
    SortAscends(a, leq);
    SortAscends(b, leq);
    SortKeeps(a, leq);
    SortKeeps(b, leq);
    AscendingUnique(Sort(a, leq), Sort(b, leq), leq);
  }

  // ----- numbers -----

  predicate IntLeq(a: int, b: int) {
    a <= b
  }

  lemma IntOrder()
    ensures TotalPreorder(IntLeq)
  {
  }

  // ----- distinct keys -----

  ghost predicate DistinctBy<T, K>(s: seq<T>, key: T -> K) {
    forall i, j :: 0 <= i < j < |s| ==> key(s[i]) != key(s[j])
  }

  lemma {:induction false} OnceBy<T, K>(s: seq<T>, key: T -> K, x: T)
    requires DistinctBy(s, key)
    ensures multiset(s)[x] <= 1
  {
    if s != [] {
      var n := |s| - 1;
      OnceBy(s[..n], key, x);
      assert s == s[..n] + [s[n]];
      assert forall i :: 0 <= i < n ==> s[..n][i] == s[i] && key(s[i]) != key(s[n]);
      assert s[n] !in s[..n];
    }
  }

  lemma TwiceInMultiset<T>(s: seq<T>, i: nat, j: nat)
    requires i < j < |s| && s[i] == s[j]
    ensures multiset(s)[s[i]] >= 2
  {
    assert s == s[..j] + [s[j]] + s[j + 1..];
    assert s[..j][i] == s[i];
    assert s[i] in multiset(s[..j]);
  }

  /** Rearranging keeps keys distinct. */
  lemma PermutedDistinct<T, K>(a: seq<T>, b: seq<T>, key: T -> K)
    requires DistinctBy(a, key) && multiset(a) == multiset(b)
    ensures DistinctBy(b, key)
  {
    SameMembers(a, b);
    forall i, j | 0 <= i < j < |b|
      ensures key(b[i]) != key(b[j])
    {
      if b[i] == b[j] {
        TwiceInMultiset(b, i, j);
        OnceBy(a, key, b[i]);
      } else {
        assert b[i] in a && b[j] in a;
      }
    }
  }

  // ----- strings -----

  /** Lexicographic order on code points, as the program compares strings. */
  predicate StringLeq(a: string, b: string) {
    if a == [] then true
    else if b == [] then false
    else if a[0] == b[0] then StringLeq(a[1..], b[1..])
    else a[0] < b[0]
  }

  lemma {:induction false} StringLeqTransitive(a: string, b: string, c: string)
    requires StringLeq(a, b) && StringLeq(b, c)
    ensures StringLeq(a, c)
  {
    if a != [] && b != [] && c != [] && a[0] == b[0] == c[0] {
      StringLeqTransitive(a[1..], b[1..], c[1..]);
    }
  }

  lemma {:induction false} StringLeqTotal(a: string, b: string)
    ensures StringLeq(a, b) || StringLeq(b, a)
    ensures StringLeq(a, b) && StringLeq(b, a) ==> a == b
  {
    if a != [] && b != [] && a[0] == b[0] {
      StringLeqTotal(a[1..], b[1..]);
      assert a == [a[0]] + a[1..] && b == [b[0]] + b[1..];
    }
  }

  lemma StringOrder()
    ensures TotalPreorder(StringLeq)
    ensures forall a, b :: StringLeq(a, b) && StringLeq(b, a) ==> a == b
  {
    forall a, b
      ensures StringLeq(a, b) || StringLeq(b, a)
      ensures StringLeq(a, b) && StringLeq(b, a) ==> a == b
    {
      StringLeqTotal(a, b);
    }
    forall a, b, c | StringLeq(a, b) && StringLeq(b, c)
      ensures StringLeq(a, c)
    {
      StringLeqTransitive(a, b, c);
    }
  }

  type Triple = (string, string, string)

  /** Tuples of three strings compare component by component. */
  predicate TripleLeq(a: Triple, b: Triple) {
    if a.0 != b.0 then StringLeq(a.0, b.0) else if a.1 != b.1 then StringLeq(a.1, b.1) else StringLeq(a.2, b.2)
  }

  lemma TripleTotal(a: Triple, b: Triple)
    ensures TripleLeq(a, b) || TripleLeq(b, a)
    ensures TripleLeq(a, b) && TripleLeq(b, a) ==> a == b
  {
    StringLeqTotal(a.0, b.0);
    StringLeqTotal(a.1, b.1);
    StringLeqTotal(a.2, b.2);
  }

  lemma TripleTransitive(a: Triple, b: Triple, c: Triple)
    requires TripleLeq(a, b) && TripleLeq(b, c)
    ensures TripleLeq(a, c)
  {
    StringLeqTotal(a.0, b.0);
    StringLeqTotal(b.0, c.0);
    StringLeqTotal(a.1, b.1);
    StringLeqTotal(b.1, c.1);
    if a.0 != b.0 || b.0 != c.0 {
      StringLeqTransitive(a.0, b.0, c.0);
    } else if a.1 != b.1 || b.1 != c.1 {
      StringLeqTransitive(a.1, b.1, c.1);
    } else {
      StringLeqTransitive(a.2, b.2, c.2);
    }
  }
}
