/** What a compacted context looks like: which contexts are factored out and under which labels, when comparisons become
    rows, and which tables there are, in which order. */
module PromptLayout {
  import opened Prelude
  import opened Json
  import opened Sorting
  import opened Numerals
  import opened PromptContext

  /** Names in strictly ascending order. */
  ghost predicate Ordered(names: seq<string>) {
    forall i, j :: 0 <= i < j < |names| ==> StringLeq(names[i], names[j]) && names[i] != names[j]
  }

  lemma {:induction false} ListedIs(s: set<string>)
    ensures Ordered(Listed(s)) && Members(Listed(s)) == s
  {
    ListedMembers(s);
    if s != {} {
      var rest := s - {First(s)};
      ListedIs(rest);
      hide Listed, Least;
      OrderedCons(First(s), Listed(rest), s);
    }
  }

  lemma OrderedCons(x: string, names: seq<string>, s: set<string>)
    requires Ordered(names) && Least(x, s) && Members(names) == s - {x}
    ensures Ordered([x] + names)
  {
    assert forall i :: 0 <= i < |names| ==> names[i] in Members(names);
  }

  // ----- the contexts -----

  /** Of a comparison, what says how its baseline was made. */
  ghost predicate SharedPart(comparison: Fields, part: Fields) {
    && (forall k :: k in part <==> k in comparison && k in {"method", "healthy_start_unix", "healthy_end_unix", "load_comparability"})
    && (forall k :: k in part ==> part[k] == comparison[k])
  }

  lemma SharedIff(comparison: Fields, part: Fields)
    ensures Shared(comparison) == part <==> SharedPart(comparison, part)
  {
    if SharedPart(comparison, part) {
      assert Shared(comparison).Keys == part.Keys;
    }
  }

  /** The fact has a comparison with this shared part. */
  ghost predicate Uses(f: Fact, part: Fields) {
    Comparison(f).Some? && SharedPart(Comparison(f).value, part)
  }

  /** The n-th part is first used by the i-th fact. */
  ghost predicate FirstUse(facts: seq<Fact>, parts: seq<Fields>, n: nat, i: nat)
    requires n < |parts|
  {
    && i < |facts| && Uses(facts[i], parts[n])
    && forall j, part :: 0 <= j < i && Uses(facts[j], part) ==> part in parts[..n]
  }

  ghost predicate UsedFirst(facts: seq<Fact>, parts: seq<Fields>, n: nat)
    requires n < |parts|
  {
    exists i: nat :: FirstUse(facts, parts, n, i)
  }

  /** The distinct shared parts of the facts, in order of first use. */
  ghost predicate FirstUses(facts: seq<Fact>, parts: seq<Fields>) {
    && NoRepeats(parts)
    && (forall f, part :: f in facts && Uses(f, part) ==> part in parts)
    && (forall n :: 0 <= n < |parts| ==> UsedFirst(facts, parts, n))
  }

  lemma UsesOne(f: Fact, part: Fields)
    ensures Uses(f, part) <==> Comparison(f).Some? && part == Shared(Comparison(f).value)
  {
    if Comparison(f).Some? {
      SharedIff(Comparison(f).value, part);
    }
  }

  lemma FirstUseStays(facts: seq<Fact>, f: Fact, parts: seq<Fields>, more: seq<Fields>, n: nat)
    requires n < |parts| && parts <= more && UsedFirst(facts, parts, n)
    ensures UsedFirst(facts + [f], more, n)
  {
    hide Uses;
    var i: nat :| FirstUse(facts, parts, n, i);
    assert more[..n] == parts[..n];
    assert FirstUse(facts + [f], more, n, i);
  }

  lemma {:induction false} ReferencesAre(facts: seq<Fact>)
    ensures FirstUses(facts, References(facts))
  {
    if facts != [] {
      var m := |facts| - 1;
      var before, parts := References(facts[..m]), References(facts);
      ReferencesAre(facts[..m]);
      assert facts == facts[..m] + [facts[m]];
      forall part { UsesOne(facts[m], part); }
      assert parts == AddReference(before, facts[m]);
      hide Uses, References, Comparison, Shared, AddReference;
      AddedOnce(before, facts[m]);
      assert forall part :: part in before ==> part in parts;
      forall n | 0 <= n < |parts|
        ensures UsedFirst(facts, parts, n)
      {
        if n < |before| {
          FirstUseStays(facts[..m], facts[m], before, parts, n);
        } else {
          assert parts[..n] == before;
          assert FirstUse(facts, parts, n, m);
        }
      }
    }
  }

  lemma AddedOnce(parts: seq<Fields>, f: Fact)
    requires NoRepeats(parts)
    ensures NoRepeats(AddReference(parts, f)) && parts <= AddReference(parts, f) && |AddReference(parts, f)| <= |parts| + 1
    ensures Comparison(f).Some? ==> Shared(Comparison(f).value) in AddReference(parts, f)
    ensures |AddReference(parts, f)| > |parts| ==> Comparison(f).Some? && AddReference(parts, f)[|parts|] == Shared(Comparison(f).value)
  {
    if Comparison(f).Some? && Shared(Comparison(f).value) !in parts {
      assert AddReference(parts, f)[|parts|] == Shared(Comparison(f).value);
    }
  }

  /** The n-th name, counted from one. */
  function Baseline(n: nat): string {
    "baseline-" + Decimal(n)
  }

  /** The contexts are these parts, numbered from one. */
  ghost predicate Labelled(contexts: map<string, Fields>, parts: seq<Fields>) {
    && (forall n :: 1 <= n <= |parts| ==> Baseline(n) in contexts && contexts[Baseline(n)] == parts[n - 1])
    && (forall name :: name in contexts ==> exists n :: 1 <= n <= |parts| && name == Baseline(n))
  }

  lemma {:induction false} ContextsAre(parts: seq<Fields>)
    ensures Labelled(ContextsOf(parts), parts)
  {
    forall n | 1 <= n <= |parts|
      ensures Baseline(n) in ContextsOf(parts) && ContextsOf(parts)[Baseline(n)] == parts[n - 1]
    {
      ContextFound(parts, n - 1);
      assert Baseline(n) == Label(n - 1);
    }
    forall name | name in ContextsOf(parts)
      ensures exists n :: 1 <= n <= |parts| && name == Baseline(n)
    {
      ContextLabel(parts, name);
    }
  }

  lemma {:induction false} ContextLabel(parts: seq<Fields>, name: string)
    requires name in ContextsOf(parts)
    ensures exists n :: 1 <= n <= |parts| && name == Baseline(n)
  {
    var m := |parts| - 1;
    if name != Label(m) {
      ContextLabel(parts[..m], name);
    } else {
      assert name == Baseline(m + 1);
    }
  }

  /** The contexts are the distinct shared parts of the comparisons, numbered from one in order of first use. */
  lemma ContextsLayout(context: Context)
    ensures exists parts :: FirstUses(context.observations, parts) && Labelled(Compact(context).contexts, parts)
  {
    hide FirstUses, Labelled;
    ReferencesAre(context.observations);
    ContextsAre(References(context.observations));
  }

  // ----- comparison rows -----

  /** The fields of a comparison once its shared part has become a reference. */
  ghost function Rest(f: Fact): set<string> {
    match Comparison(f)
    case None => {}
    case Some(c) => c.Keys - {"method", "healthy_start_unix", "healthy_end_unix", "load_comparability"} + {"context_ref"}
  }

  /** There are comparisons, and all have the same fields. */
  ghost predicate Uniform(facts: seq<Fact>, names: set<string>) {
    && (exists f :: f in facts && Comparison(f).Some?)
    && (forall f :: f in facts && Comparison(f).Some? ==> Rest(f) == names)
  }

  lemma FactoredKeys(top: Fields, facts: seq<Fact>, i: nat)
    requires i < |facts|
    ensures Comparison(FactoredAll(top, facts)[i]).Some? <==> Comparison(facts[i]).Some?
    ensures KeysOf(FactoredAll(top, facts)[i]) == Rest(facts[i])
  {
    ReferenceKnown(facts, i);
    if Comparison(facts[i]).Some? {
      var c := Comparison(facts[i]).value;
      var d := Referring(c, Label(IndexOf(References(facts), Shared(c))));
      assert REFERENCE in d;
      assert FactoredAll(top, facts)[i].values[COMPARISON] == Obj(d);
    }
  }

  lemma {:induction false} AllKeysAre(facts: seq<Fact>, k: string)
    ensures k in AllKeys(facts) <==> exists i :: 0 <= i < |facts| && k in KeysOf(facts[i])
  {
    if facts != [] {
      hide KeysOf;
      var n := |facts| - 1;
      AllKeysAre(facts[..n], k);
      assert facts == facts[..n] + [facts[n]];
      if i :| 0 <= i < |facts| && k in KeysOf(facts[i]) {
        assert i < n ==> facts[..n][i] == facts[i];
      }
      if i :| 0 <= i < n && k in KeysOf(facts[..n][i]) {
        assert facts[i] == facts[..n][i];
      }
    }
  }

  lemma TabularIff(facts: seq<Fact>)
    ensures Tabular(facts)
            <==> && (exists i :: 0 <= i < |facts| && Comparison(facts[i]).Some?)
                 && (forall i, j :: 0 <= i < |facts| && 0 <= j < |facts| && Comparison(facts[i]).Some? && Comparison(facts[j]).Some? ==>
                       KeysOf(facts[i]) == KeysOf(facts[j]))
  {
    forall i | 0 <= i < |facts| && Comparison(facts[i]).Some?
      ensures KeysOf(facts[i]) <= AllKeys(facts)
    {
      forall k | k in KeysOf(facts[i])
        ensures k in AllKeys(facts)
      {
        AllKeysAre(facts, k);
      }
    }
    if forall i, j :: 0 <= i < |facts| && 0 <= j < |facts| && Comparison(facts[i]).Some? && Comparison(facts[j]).Some? ==>
         KeysOf(facts[i]) == KeysOf(facts[j]) {
      forall i | 0 <= i < |facts| && Comparison(facts[i]).Some?
        ensures AllKeys(facts) <= KeysOf(facts[i])
      {
        forall k | k in AllKeys(facts)
          ensures k in KeysOf(facts[i])
        {
          AllKeysAre(facts, k);
          var j :| 0 <= j < |facts| && k in KeysOf(facts[j]);
        }
      }
    }
  }

  lemma FactoredRests(top: Fields, facts: seq<Fact>)
    ensures forall i :: 0 <= i < |facts| ==>
              && (Comparison(FactoredAll(top, facts)[i]).Some? <==> Comparison(facts[i]).Some?)
              && KeysOf(FactoredAll(top, facts)[i]) == Rest(facts[i])
  {
    forall i | 0 <= i < |facts|
      ensures Comparison(FactoredAll(top, facts)[i]).Some? <==> Comparison(facts[i]).Some?
      ensures KeysOf(FactoredAll(top, facts)[i]) == Rest(facts[i])
    {
      FactoredKeys(top, facts, i);
    }
  }

  lemma UniformIsTabular(top: Fields, facts: seq<Fact>, names: set<string>)
    requires Uniform(facts, names)
    ensures Tabular(FactoredAll(top, facts)) && AllKeys(FactoredAll(top, facts)) == names
  {
    hide KeysOf, Comparison, Rest, AllKeys, Tabular, FactoredAll;
    var factored := FactoredAll(top, facts);
    FactoredRests(top, facts);
    var f :| f in facts && Comparison(f).Some?;
    var i :| 0 <= i < |facts| && facts[i] == f;
    assert forall j :: 0 <= j < |facts| ==> facts[j] in facts;
    assert Comparison(factored[i]).Some?;
    TabularIff(factored);
    ColumnsAre(factored);
  }

  lemma TabularIsUniform(top: Fields, facts: seq<Fact>)
    requires Tabular(FactoredAll(top, facts))
    ensures Uniform(facts, AllKeys(FactoredAll(top, facts)))
  {
    hide KeysOf, Comparison, Rest, AllKeys, Tabular, FactoredAll;
    var factored := FactoredAll(top, facts);
    FactoredRests(top, facts);
    ColumnsAre(factored);
    var i :| 0 <= i < |factored| && Comparison(factored[i]).Some?;
    assert facts[i] in facts;
  }

  /** Comparisons become rows exactly when all have the same fields, and then under those, in ascending order. */
  lemma ColumnsLayout(context: Context, names: seq<string>)
    ensures Compact(context).comparisonFields == Some(names)
            <==> Ordered(names) && Uniform(context.observations, Members(names))
  {
    hide AllKeys, Listed, Tabular, FactoredAll, Uniform, Ordered, Members;
    var facts, factored := context.observations, FactoredAll(context.top, context.observations);
    ListedIs(AllKeys(factored));
    if Tabular(factored) {
      TabularIsUniform(context.top, facts);
    }
    if Ordered(names) && Uniform(facts, Members(names)) {
      UniformIsTabular(context.top, facts, Members(names));
      OrderedOnce(names, Listed(AllKeys(factored)));
    }
  }

  lemma ColumnsAre(facts: seq<Fact>)
    requires Tabular(facts)
    ensures forall i :: 0 <= i < |facts| && Comparison(facts[i]).Some? ==> KeysOf(facts[i]) == AllKeys(facts)
    ensures exists i :: 0 <= i < |facts| && Comparison(facts[i]).Some?
  {
  }

  lemma {:induction false} OrderedOnce(a: seq<string>, b: seq<string>)
    requires Ordered(a) && Ordered(b) && Members(a) == Members(b)
    ensures a == b
  {
    NoMembers(a);
    NoMembers(b);
    if a != [] {
      StringLeqTotal(a[0], b[0]);
      FirstIsLeast(a, b[0]);
      FirstIsLeast(b, a[0]);
      OrderedTail(a);
      OrderedTail(b);
      OrderedOnce(a[1..], b[1..]);
      assert a == [a[0]] + a[1..] && b == [b[0]] + b[1..];
    }
  }

  lemma NoMembers(names: seq<string>)
    ensures Members(names) == {} <==> names == []
    ensures names != [] ==> names[0] in Members(names)
  {
    if names != [] {
      assert names[0] in Members(names);
    }
  }

  lemma FirstIsLeast(names: seq<string>, name: string)
    requires Ordered(names) && name in Members(names)
    ensures StringLeq(names[0], name)
  {
    var i :| 0 <= i < |names| && names[i] == name;
    StringLeqTotal(name, name);
  }

  lemma OrderedTail(names: seq<string>)
    requires Ordered(names) && names != []
    ensures Ordered(names[1..]) && Members(names[1..]) == Members(names) - {names[0]}
  {
    assert names == [names[0]] + names[1..];
    forall i | 0 <= i < |names[1..]|
      ensures names[1..][i] != names[0]
    {
      assert names[1..][i] == names[i + 1];
    }
  }

  // ----- the tables -----

  ghost predicate SameShape(a: Table, b: Table) {
    a.kind == b.kind && a.factFields == b.factFields && a.valueFields == b.valueFields
  }

  /** Columns in ascending order, and rows as wide as they are: the fields, then one cell for all values. */
  ghost predicate WellFormed(t: Table) {
    && Ordered(t.factFields) && Ordered(t.valueFields) && t.rows != []
    && forall row: seq<Json> :: row in t.rows ==>
         && |row| == |t.factFields| + 1 && row[|t.factFields|].Arr? && |row[|t.factFields|].items| == |t.valueFields|
  }

  ghost predicate Shapely(tables: seq<Table>) {
    && (forall t :: t in tables ==> WellFormed(t))
    && (forall i, j :: 0 <= i < j < |tables| ==> !SameShape(tables[i], tables[j]))
  }

  lemma RowFits(f: Fact)
    ensures WellFormed(Table(f.kind, Listed(f.fields.Keys), Listed(f.values.Keys), [Row(f)]))
    ensures forall t :: WellFormed(t) && Fits(t, f) ==> WellFormed(t.(rows := t.rows + [Row(f)]))
  {
    ListedIs(f.fields.Keys);
    ListedIs(f.values.Keys);
  }

  /** The shapes of the tables after a row is added: as before, or one more at the end. */
  ghost predicate ShapesKept(tables: seq<Table>, after: seq<Table>, f: Fact) {
    && |tables| <= |after| <= |tables| + 1
    && (forall i :: 0 <= i < |tables| ==> SameShape(tables[i], after[i]))
    && (|after| > |tables| ==> Fits(after[|tables|], f) && forall i :: 0 <= i < |tables| ==> !Fits(tables[i], f))
  }

  lemma {:induction false} AddRowFormed(tables: seq<Table>, f: Fact)
    requires forall t :: t in tables ==> WellFormed(t)
    ensures forall t :: t in AddRow(tables, f) ==> WellFormed(t)
  {
    hide WellFormed, Row, Listed;
    RowFits(f);
    if tables != [] && !Fits(tables[0], f) {
      assert forall t :: t in tables[1..] ==> t in tables;
      AddRowFormed(tables[1..], f);
    }
  }

  lemma ShapesShift(t: Table, tables: seq<Table>, after: seq<Table>, f: Fact)
    requires ShapesKept(tables, after, f) && !Fits(t, f)
    ensures ShapesKept([t] + tables, [t] + after, f)
  {
  }

  lemma {:induction false} AddRowShapes(tables: seq<Table>, f: Fact)
    ensures ShapesKept(tables, AddRow(tables, f), f)
  {
    hide Row, Listed;
    if tables != [] && !Fits(tables[0], f) {
      hide ShapesKept, Fits;
      AddRowShapes(tables[1..], f);
      ShapesShift(tables[0], tables[1..], AddRow(tables[1..], f), f);
      assert tables == [tables[0]] + tables[1..];
    }
  }

  lemma {:induction false} TablesShapely(facts: seq<Fact>)
    ensures Shapely(Tables(facts))
  {
    if facts != [] {
      hide WellFormed, AddRow;
      var n := |facts| - 1;
      var before := Tables(facts[..n]);
      TablesShapely(facts[..n]);
      AddRowFormed(before, facts[n]);
      AddRowShapes(before, facts[n]);
      forall i, j | 0 <= i < j < |Tables(facts)|
        ensures !SameShape(Tables(facts)[i], Tables(facts)[j])
      {
        assert j < |before| ==> !SameShape(before[i], before[j]);
      }
    }
  }

  lemma {:induction false} NamesTotal(a: seq<string>, b: seq<string>)
    ensures NamesLeq(a, b) || NamesLeq(b, a)
    ensures NamesLeq(a, b) && NamesLeq(b, a) ==> a == b
  {
    if a != [] && b != [] {
      StringLeqTotal(a[0], b[0]);
      NamesTotal(a[1..], b[1..]);
      assert a == [a[0]] + a[1..] && b == [b[0]] + b[1..];
    }
  }

  lemma {:induction false} NamesTransitive(a: seq<string>, b: seq<string>, c: seq<string>)
    requires NamesLeq(a, b) && NamesLeq(b, c)
    ensures NamesLeq(a, c)
  {
    if a != [] && b != [] && c != [] {
      StringLeqTotal(a[0], b[0]);
      StringLeqTotal(b[0], c[0]);
      if a[0] == b[0] == c[0] {
        NamesTransitive(a[1..], b[1..], c[1..]);
      } else {
        StringLeqTransitive(a[0], b[0], c[0]);
      }
    }
  }

  lemma TablePair(a: Table, b: Table)
    ensures TableLeq(a, b) || TableLeq(b, a)
  {
    StringLeqTotal(a.kind, b.kind);
    NamesTotal(a.factFields, b.factFields);
    NamesTotal(a.valueFields, b.valueFields);
  }

  lemma TableTriple(a: Table, b: Table, c: Table)
    requires TableLeq(a, b) && TableLeq(b, c)
    ensures TableLeq(a, c)
  {
    hide NamesLeq, StringLeq;
    StringLeqTotal(a.kind, b.kind);
    StringLeqTotal(b.kind, c.kind);
    if a.kind != b.kind || b.kind != c.kind {
      StringLeqTransitive(a.kind, b.kind, c.kind);
    } else {
      NamesTotal(a.factFields, b.factFields);
      NamesTotal(b.factFields, c.factFields);
      if a.factFields != b.factFields || b.factFields != c.factFields {
        NamesTransitive(a.factFields, b.factFields, c.factFields);
      } else {
        NamesTransitive(a.valueFields, b.valueFields, c.valueFields);
      }
    }
  }

  lemma TableOrder()
    ensures TotalPreorder(TableLeq)
  {
    forall a, b
      ensures TableLeq(a, b) || TableLeq(b, a)
    {
      TablePair(a, b);
    }
    forall a, b, c | TableLeq(a, b) && TableLeq(b, c)
      ensures TableLeq(a, c)
    {
      TableTriple(a, b, c);
    }
  }

  /** One table before another: by kind, then by the names of the fields, then by those of the values. */
  ghost predicate Before(a: Table, b: Table) {
    if a.kind != b.kind then StringLeq(a.kind, b.kind)
    else if a.factFields != b.factFields then NamesLeq(a.factFields, b.factFields)
    else a.valueFields != b.valueFields && NamesLeq(a.valueFields, b.valueFields)
  }

  type Shape = (string, seq<string>, seq<string>)

  function ShapeOf(t: Table): Shape {
    (t.kind, t.factFields, t.valueFields)
  }

  /** There is one table for each shape of facts, well formed, and the tables stand in order. */
  lemma TablesLayout(context: Context)
    ensures var tables := Compact(context).tables;
            && (forall t :: t in tables ==> WellFormed(t))
            && forall i, j :: 0 <= i < j < |tables| ==> Before(tables[i], tables[j])
  {
    hide WellFormed, Tables, LinedAll, FactoredAll, Tabular;
    var facts := FactoredAll(context.top, context.observations);
    var written := if Tabular(facts) then LinedAll(facts) else facts;
    var tables, sorted := Tables(written), Sort(Tables(written), TableLeq);
    TablesShapely(written);
    TableOrder();
    SortKeeps(tables, TableLeq);
    SortAscends(tables, TableLeq);
    ShapesApart(tables);
    PermutedDistinct(tables, sorted, ShapeOf);
    forall i, j | 0 <= i < j < |sorted|
      ensures Before(sorted[i], sorted[j])
    {
      assert TableLeq(sorted[i], sorted[j]);
      assert ShapeOf(sorted[i]) != ShapeOf(sorted[j]);
    }
  }

  lemma ShapesApart(tables: seq<Table>)
    requires Shapely(tables)
    ensures DistinctBy(tables, ShapeOf)
  {
    forall i, j | 0 <= i < j < |tables|
      ensures ShapeOf(tables[i]) != ShapeOf(tables[j])
    {
      assert !SameShape(tables[i], tables[j]);
    }
  }
}
