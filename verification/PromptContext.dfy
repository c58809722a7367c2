/** Factoring the prompt context: shared times, baseline metadata and field names are written once. The decoder that
    the encoding's own description implies is written here, and what it gives back is stated exactly. */
module PromptContext {
  import opened Prelude
  import opened Json
  import opened Sorting
  import opened Numerals

  type Fields = map<string, Json>

  /** One observation: its kind, its values, and its other fields. */
  datatype Fact = Fact(kind: string, fields: Fields, values: Fields)

  datatype Context = Context(top: Fields, observations: seq<Fact>)

  /** Observations of one shape. A row lists the fact fields, then one array with the value fields. */
  datatype Table = Table(kind: string, factFields: seq<string>, valueFields: seq<string>, rows: seq<seq<Json>>)

  datatype Compacted = Compacted(top: Fields, contexts: map<string, Fields>, comparisonFields: Option<seq<string>>,
                                 tables: seq<Table>)

  const START := "start_unix"
  const END := "end_unix"
  const COMPARISON := "baseline_comparison"
  const REFERENCE := "context_ref"
  const SHARED_KEYS := {"method", "healthy_start_unix", "healthy_end_unix", "load_comparability"}

  lemma KeyNames()
    ensures START != END && REFERENCE !in SHARED_KEYS
  {
    assert START[0] != END[0];
    assert REFERENCE[0] == 'c';
  }

  // ----- names of a record in sorted order -----

  predicate Least(x: string, s: set<string>) {
    x in s && forall y :: y in s ==> StringLeq(x, y)
  }

  lemma {:induction false} LeastExists(s: set<string>)
    requires s != {}
    ensures exists x :: Least(x, s)
  {
    StringOrder();
    var x :| x in s;
    if s == {x} {
      assert Least(x, s);
    } else {
      LeastExists(s - {x});
      var y :| Least(y, s - {x});
      assert Least(if StringLeq(x, y) then x else y, s);
    }
  }

  function First(s: set<string>): (x: string)
    requires s != {}
    ensures Least(x, s)
  {
    LeastExists(s);
    StringOrder();
    var x :| Least(x, s);
    x
  }

  /** The members of a set of names, ascending. */
  function Listed(s: set<string>): seq<string> {
    if s == {} then [] else [First(s)] + Listed(s - {First(s)})
  }

  lemma {:induction false} ListedMembers(s: set<string>)
    ensures Members(Listed(s)) == s
  {
    if s != {} {
      ListedMembers(s - {First(s)});
      assert Members(Listed(s)) == {First(s)} + Members(Listed(s - {First(s)}));
    }
  }

  function Select(names: seq<string>, record: Fields): (row: seq<Json>)
    requires Members(names) <= record.Keys
    ensures |row| == |names|
  {
    seq(|names|, i requires 0 <= i < |names| => assert names[i] in Members(names); record[names[i]])
  }

  /** Reads a row back under its header. */
  function Zip(names: seq<string>, row: seq<Json>): Fields {
    if names == [] || row == [] then map[]
    else Zip(names[1..], row[1..])[names[0] := row[0]]
  }

  lemma {:induction false} ZipSelected(names: seq<string>, record: Fields)
    requires Members(names) <= record.Keys
    ensures Zip(names, Select(names, record)) == map k | k in record && k in names :: record[k]
  {
    if names != [] {
      assert names == [names[0]] + names[1..];
      assert Members(names[1..]) <= record.Keys;
      ZipSelected(names[1..], record);
      assert Select(names, record)[1..] == Select(names[1..], record);
      assert names[0] in Members(names);
    }
  }

  /** A header that lists every name of a record loses nothing. */
  lemma ZipRestores(names: seq<string>, record: Fields)
    requires Members(names) == record.Keys
    ensures Zip(names, Select(names, record)) == record
  {
    ZipSelected(names, record);
    assert forall k :: k in record ==> k in Members(names);
  }

  // ----- times -----

  function TimeOf(record: Fields, key: string): Json {
    Get(record, key, Null)
  }

  /** Both times equal the interval's, as Python compares them. */
  predicate Inherits(top: Fields, f: Fact) {
    PyEq(TimeOf(f.fields, START), TimeOf(top, START)) && PyEq(TimeOf(f.fields, END), TimeOf(top, END))
  }

  function WithoutTimes(top: Fields, f: Fact): Fact {
    if Inherits(top, f) then f.(fields := f.fields - {START, END}) else f
  }

  // ----- comparisons -----

  /** A comparison worth factoring: a record with something in it. */
  function Comparison(f: Fact): Option<Fields> {
    if COMPARISON in f.values && f.values[COMPARISON].Obj? && f.values[COMPARISON].fields != map[]
    then Some(f.values[COMPARISON].fields) else None
  }

  function Shared(comparison: Fields): Fields {
    map k | k in comparison && k in SHARED_KEYS :: comparison[k]
  }

  function AddReference(references: seq<Fields>, f: Fact): seq<Fields> {
    match Comparison(f)
    case None => references
    case Some(c) => if Shared(c) in references then references else references + [Shared(c)]
  }

  /** The distinct shared parts, in order of first use. */
  function References(facts: seq<Fact>): seq<Fields> {
    if facts == [] then [] else AddReference(References(facts[..|facts| - 1]), facts[|facts| - 1])
  }

  function Label(n: nat): string {
    "baseline-" + Decimal(n + 1)
  }

  lemma LabelInjective(m: nat, n: nat)
    requires Label(m) == Label(n)
    ensures m == n
  {
    assert Label(m)[9..] == Decimal(m + 1) && Label(n)[9..] == Decimal(n + 1);
    DecimalInjective(m + 1, n + 1);
  }

  function IndexOf(references: seq<Fields>, x: Fields): (i: nat)
    requires x in references
    ensures i < |references| && references[i] == x
  {
    if references[0] == x then 0 else 1 + IndexOf(references[1..], x)
  }

  lemma {:induction false} IndexOfPrefix(a: seq<Fields>, b: seq<Fields>, x: Fields)
    requires x in a
    ensures IndexOf(a + b, x) == IndexOf(a, x)
  {
    if a[0] != x {
      assert (a + b)[1..] == a[1..] + b;
      IndexOfPrefix(a[1..], b, x);
    }
  }

  function Referring(c: Fields, name: string): Fields {
    (c - SHARED_KEYS)[REFERENCE := Str(name)]
  }

  /** One fact after the first pass, given the references known once it has been met. */
  function Factored(top: Fields, references: seq<Fields>, f: Fact): Fact
    requires Comparison(f).Some? ==> Shared(Comparison(f).value) in references
  {
    var g := WithoutTimes(top, f);
    match Comparison(f)
    case None => g
    case Some(c) => g.(values := g.values[COMPARISON := Obj(Referring(c, Label(IndexOf(references, Shared(c)))))])
  }

  lemma {:induction false} ReferencesKeep(facts: seq<Fact>, n: nat)
    requires n <= |facts|
    ensures References(facts[..n]) <= References(facts)
  {
    if n < |facts| {
      var m := |facts| - 1;
      ReferencesKeep(facts[..m], n);
      assert facts[..m][..n] == facts[..n];
    } else {
      assert facts[..n] == facts;
    }
  }

  lemma ReferenceKnown(facts: seq<Fact>, n: nat)
    requires n < |facts|
    ensures Comparison(facts[n]).Some? ==> Shared(Comparison(facts[n]).value) in References(facts[..n + 1])
    ensures Comparison(facts[n]).Some? ==> Shared(Comparison(facts[n]).value) in References(facts)
  {
    assert facts[..n + 1][..n] == facts[..n];
    ReferencesKeep(facts, n + 1);
  }

  function FactoredAll(top: Fields, facts: seq<Fact>): (r: seq<Fact>)
    ensures |r| == |facts|
  {
    seq(|facts|, i requires 0 <= i < |facts| => ReferenceKnown(facts, i); Factored(top, References(facts), facts[i]))
  }

  function ContextsOf(references: seq<Fields>): map<string, Fields> {
    if references == [] then map[]
    else ContextsOf(references[..|references| - 1])[Label(|references| - 1) := references[|references| - 1]]
  }

  lemma {:induction false} ContextFound(references: seq<Fields>, i: nat)
    requires i < |references|
    ensures Label(i) in ContextsOf(references) && ContextsOf(references)[Label(i)] == references[i]
  {
    var n := |references| - 1;
    if i < n {
      ContextFound(references[..n], i);
      if Label(i) == Label(n) {
        LabelInjective(i, n);
      }
    }
  }

  // ----- comparison rows -----

  function KeysOf(f: Fact): set<string> {
    match Comparison(f)
    case None => {}
    case Some(c) => c.Keys
  }

  function AllKeys(facts: seq<Fact>): set<string> {
    if facts == [] then {} else AllKeys(facts[..|facts| - 1]) + KeysOf(facts[|facts| - 1])
  }

  /** There is a comparison, and all comparisons have the same fields. */
  predicate Tabular(facts: seq<Fact>) {
    && (exists i :: 0 <= i < |facts| && Comparison(facts[i]).Some?)
    && (forall i :: 0 <= i < |facts| && Comparison(facts[i]).Some? ==> KeysOf(facts[i]) == AllKeys(facts))
  }

  function Lined(names: seq<string>, f: Fact): Fact
    requires Comparison(f).Some? ==> Members(names) == KeysOf(f)
  {
    match Comparison(f)
    case None => f
    case Some(c) => f.(values := f.values[COMPARISON := Arr(Select(names, c))])
  }

  function LinedAll(facts: seq<Fact>): (r: seq<Fact>)
    requires Tabular(facts)
    ensures |r| == |facts|
  {
    ListedMembers(AllKeys(facts));
    seq(|facts|, i requires 0 <= i < |facts| => Lined(Listed(AllKeys(facts)), facts[i]))
  }

  // ----- tables -----

  function NamesLeq(a: seq<string>, b: seq<string>): bool {
    if a == [] then true
    else if b == [] then false
    else if a[0] == b[0] then NamesLeq(a[1..], b[1..])
    else StringLeq(a[0], b[0])
  }

  /** Tables are ordered by kind, then fact fields, then value fields. */
  predicate TableLeq(a: Table, b: Table) {
    if a.kind != b.kind then StringLeq(a.kind, b.kind)
    else if a.factFields != b.factFields then NamesLeq(a.factFields, b.factFields)
    else NamesLeq(a.valueFields, b.valueFields)
  }

  function Row(f: Fact): seq<Json> {
    ListedMembers(f.fields.Keys);
    ListedMembers(f.values.Keys);
    Select(Listed(f.fields.Keys), f.fields) + [Arr(Select(Listed(f.values.Keys), f.values))]
  }

  predicate Fits(table: Table, f: Fact) {
    table.kind == f.kind && table.factFields == Listed(f.fields.Keys) && table.valueFields == Listed(f.values.Keys)
  }

  function AddRow(tables: seq<Table>, f: Fact): seq<Table> {
    if tables == [] then [Table(f.kind, Listed(f.fields.Keys), Listed(f.values.Keys), [Row(f)])]
    else if Fits(tables[0], f) then [tables[0].(rows := tables[0].rows + [Row(f)])] + tables[1..]
    else [tables[0]] + AddRow(tables[1..], f)
  }

  function Tables(facts: seq<Fact>): seq<Table> {
    if facts == [] then [] else AddRow(Tables(facts[..|facts| - 1]), facts[|facts| - 1])
  }

  // ----- the encoding -----

  function Compact(context: Context): Compacted {
    var facts := FactoredAll(context.top, context.observations);
    var contexts := ContextsOf(References(context.observations));
    if Tabular(facts) then
      Compacted(context.top, contexts, Some(Listed(AllKeys(facts))), Sort(Tables(LinedAll(facts)), TableLeq))
    else
      Compacted(context.top, contexts, None, Sort(Tables(facts), TableLeq))
  }

  // ----- the decoder -----

  function Items(j: Json): seq<Json> {
    if j.Arr? then j.items else []
  }

  function ReadRow(table: Table, row: seq<Json>): Fact {
    var n := |table.factFields|;
    Fact(table.kind, Zip(table.factFields, row), Zip(table.valueFields, if n < |row| then Items(row[n]) else []))
  }

  function ReadRows(table: Table): seq<Fact> {
    seq(|table.rows|, i requires 0 <= i < |table.rows| => ReadRow(table, table.rows[i]))
  }

  function ReadTables(tables: seq<Table>): seq<Fact> {
    if tables == [] then [] else ReadRows(tables[0]) + ReadTables(tables[1..])
  }

  function Resolved(contexts: map<string, Fields>, c: Fields): Fields {
    if REFERENCE in c && c[REFERENCE].Str? && c[REFERENCE].s in contexts
    then (c - {REFERENCE}) + contexts[c[REFERENCE].s] else c
  }

  function ReadComparison(r: Compacted, j: Json): Json {
    match j
    case Arr(items) =>
      if items != [] && r.comparisonFields.Some? then Obj(Resolved(r.contexts, Zip(r.comparisonFields.value, items)))
      else j
    case Obj(fields) => if fields != map[] then Obj(Resolved(r.contexts, fields)) else j
    case _ => j
  }

  function WithTime(top: Fields, fields: Fields, key: string): Fields {
    if key !in fields && key in top then fields[key := top[key]] else fields
  }

  function ReadFact(r: Compacted, f: Fact): Fact {
    Fact(f.kind, WithTime(r.top, WithTime(r.top, f.fields, START), END),
         if COMPARISON in f.values then f.values[COMPARISON := ReadComparison(r, f.values[COMPARISON])] else f.values)
  }

  function ReadFacts(r: Compacted, facts: seq<Fact>): seq<Fact> {
    seq(|facts|, i requires 0 <= i < |facts| => ReadFact(r, facts[i]))
  }

  function Expand(r: Compacted): Context {
    Context(r.top, ReadFacts(r, ReadTables(r.tables)))
  }

  // ----- what comes back, fact by fact -----

  /** What the source demands: the interval has both times, and a comparison that is not empty is a record. */
  predicate Shaped(context: Context) {
    && START in context.top && END in context.top
    && !context.top[START].Null? && !context.top[END].Null?
    && forall f :: f in context.observations ==> ShapedFact(f)
  }

  predicate ShapedFact(f: Fact) {
    COMPARISON in f.values ==>
      match f.values[COMPARISON]
      case Arr(items) => items == []
      case Obj(_) => true
      case Null => true
      case Bool(b) => !b
      case Int(i) => i == 0
      case Float(x) => x == 0.0
      case Str(s) => s == ""
  }

  /** The fact that decoding gives back: missing times filled in, times equal to the interval's written as the
      interval writes them, and a reference of its own dropped from a comparison. */
  function Returned(top: Fields, f: Fact): Fact {
    Fact(f.kind, WithTime(top, WithTime(top, WithoutTimes(top, f).fields, START), END),
         match Comparison(f)
         case None => f.values
         case Some(c) => f.values[COMPARISON := Obj(c - {REFERENCE})])
  }

  /** Nothing of the fact is lost: it has both times, a time equal to the interval's is spelled the same, and its
      comparison has no reference of its own. */
  predicate Restorable(top: Fields, f: Fact)
    requires START in top && END in top
  {
    && START in f.fields && END in f.fields
    && (PyEq(f.fields[START], top[START]) && PyEq(f.fields[END], top[END]) ==>
          f.fields[START] == top[START] && f.fields[END] == top[END])
    && (Comparison(f).Some? ==> REFERENCE !in Comparison(f).value)
  }

  lemma TimesReturn(top: Fields, f: Fact)
    requires START in top && END in top && !top[START].Null? && !top[END].Null?
    ensures WithTime(top, WithTime(top, WithoutTimes(top, f).fields, START), END) == f.fields
            <==> START in f.fields && END in f.fields
                 && (Inherits(top, f) ==> f.fields[START] == top[START] && f.fields[END] == top[END])
  {
    KeyNames();
    var back := WithTime(top, WithTime(top, WithoutTimes(top, f).fields, START), END);
    assert START in back && END in back;
    assert forall k :: k != START && k != END ==> (k in back <==> k in f.fields) && (k in back ==> back[k] == f.fields[k]);
  }

  /** A fact comes back unchanged exactly when it is restorable. */
  lemma ReturnedIff(top: Fields, f: Fact)
    requires START in top && END in top && !top[START].Null? && !top[END].Null?
    ensures Returned(top, f) == f <==> Restorable(top, f)
  {
    TimesReturn(top, f);
    if c: Fields :| Comparison(f) == Some(c) {
      var values := Returned(top, f).values;
      assert values == f.values <==> values[COMPARISON] == f.values[COMPARISON];
      assert c - {REFERENCE} == c <==> REFERENCE !in c;
    }
  }

  lemma ReferenceResolves(references: seq<Fields>, c: Fields)
    requires Shared(c) in references
    ensures Resolved(ContextsOf(references), Referring(c, Label(IndexOf(references, Shared(c))))) == c - {REFERENCE}
  {
    KeyNames();
    ContextFound(references, IndexOf(references, Shared(c)));
  }

  /** A factored fact reads back as the returned one. */
  lemma FactoredReadsBack(r: Compacted, references: seq<Fields>, f: Fact)
    requires ShapedFact(f) && r.contexts == ContextsOf(references)
    requires Comparison(f).Some? ==> Shared(Comparison(f).value) in references
    ensures ReadFact(r, Factored(r.top, references, f)) == Returned(r.top, f)
  {
    match Comparison(f)
    case None =>
      assert COMPARISON in f.values ==> f.values[COMPARISON := f.values[COMPARISON]] == f.values;
    case Some(c) =>
      ReferenceResolves(references, c);
      var g := Factored(r.top, references, f);
      assert REFERENCE in g.values[COMPARISON].fields;
      assert ReadFact(r, g).values == Returned(r.top, f).values;
  }

  /** Turning the comparison into a row changes nothing for the decoder. */
  lemma LinedReadsBack(r: Compacted, f: Fact)
    requires r.comparisonFields.Some?
    requires Comparison(f).Some? ==> Members(r.comparisonFields.value) == KeysOf(f)
    ensures ReadFact(r, Lined(r.comparisonFields.value, f)) == ReadFact(r, f)
  {
    if c: Fields :| Comparison(f) == Some(c) {
      var names := r.comparisonFields.value;
      ZipRestores(names, c);
      var k :| k in c;
      assert k in Members(names);
      assert Select(names, c) != [];
      assert ReadFact(r, Lined(names, f)).values == ReadFact(r, f).values;
    }
  }

  // ----- tables keep every fact -----

  lemma RowReadsBack(table: Table, f: Fact)
    requires Fits(table, f)
    ensures ReadRow(table, Row(f)) == f
  {
    ListedMembers(f.fields.Keys);
    ListedMembers(f.values.Keys);
    ZipRestores(table.factFields, f.fields);
    ZipRestores(table.valueFields, f.values);
    ZipIgnoresExtra(table.factFields, Select(table.factFields, f.fields), [Arr(Select(table.valueFields, f.values))]);
  }

  lemma {:induction false} ZipIgnoresExtra(names: seq<string>, row: seq<Json>, extra: seq<Json>)
    requires |names| == |row|
    ensures Zip(names, row + extra) == Zip(names, row)
  {
    if names != [] {
      assert (row + extra)[1..] == row[1..] + extra;
      ZipIgnoresExtra(names[1..], row[1..], extra);
    }
  }

  lemma RowAppended(table: Table, f: Fact)
    requires Fits(table, f)
    ensures ReadRows(table.(rows := table.rows + [Row(f)])) == ReadRows(table) + [f]
  {
    RowReadsBack(table, f);
  }

  lemma {:induction false} RowAdded(tables: seq<Table>, f: Fact)
    ensures multiset(ReadTables(AddRow(tables, f))) == multiset(ReadTables(tables)) + multiset{f}
  {
    if tables == [] {
      var table := Table(f.kind, Listed(f.fields.Keys), Listed(f.values.Keys), []);
      RowAppended(table, f);
      assert ReadRows(table) == [];
      assert [Row(f)] == table.rows + [Row(f)];
      assert ReadTables(AddRow(tables, f)[1..]) == [];
    } else if Fits(tables[0], f) {
      RowAppended(tables[0], f);
    } else {
      RowAdded(tables[1..], f);
    }
  }

  lemma TablesStep(facts: seq<Fact>, f: Fact)
    requires multiset(ReadTables(Tables(facts))) == multiset(facts)
    ensures multiset(ReadTables(Tables(facts + [f]))) == multiset(facts + [f])
  {
    assert (facts + [f])[..|facts|] == facts;
    assert Tables(facts + [f]) == AddRow(Tables(facts), f);
    RowAdded(Tables(facts), f);
  }

  lemma NoTables()
    ensures ReadTables(Tables([])) == []
  {
  }

  lemma {:induction false} TablesKeep(facts: seq<Fact>)
    ensures multiset(ReadTables(Tables(facts))) == multiset(facts)
  {
    hide AddRow, ReadTables, Tables;
    if facts == [] {
      NoTables();
    } else {
      var n := |facts| - 1;
      TablesKeep(facts[..n]);
      TablesStep(facts[..n], facts[n]);
      assert facts == facts[..n] + [facts[n]];
    }
  }

  lemma {:induction false} InsertReads(table: Table, tables: seq<Table>)
    ensures multiset(ReadTables(Insert(table, tables, TableLeq))) == multiset(ReadRows(table)) + multiset(ReadTables(tables))
  {
    if tables == [] {
      assert [table][1..] == [];
    } else if !TableLeq(table, tables[0]) {
      InsertReads(table, tables[1..]);
    } else {
      assert ([table] + tables)[1..] == tables;
    }
  }

  lemma {:induction false} SortReads(tables: seq<Table>)
    ensures multiset(ReadTables(Sort(tables, TableLeq))) == multiset(ReadTables(tables))
  {
    if tables != [] {
      SortReads(tables[1..]);
      InsertReads(tables[0], Sort(tables[1..], TableLeq));
    }
  }

  // ----- the round trip -----

  lemma ReadWithout(r: Compacted, facts: seq<Fact>, i: nat)
    requires i < |facts|
    ensures multiset(ReadFacts(r, facts))
            == multiset(ReadFacts(r, facts[..i] + facts[i + 1..])) + multiset{ReadFact(r, facts[i])}
  {
    var before, after := ReadFacts(r, facts[..i]), ReadFacts(r, facts[i + 1..]);
    assert ReadFacts(r, facts) == before + [ReadFact(r, facts[i])] + after;
    assert ReadFacts(r, facts[..i] + facts[i + 1..]) == before + after;
  }

  lemma WithoutOne(facts: seq<Fact>, i: nat)
    requires i < |facts|
    ensures multiset(facts[..i] + facts[i + 1..]) == multiset(facts) - multiset{facts[i]}
  {
    assert facts == facts[..i] + [facts[i]] + facts[i + 1..];
  }

  lemma {:induction false} ReadFactsPermuted(r: Compacted, a: seq<Fact>, b: seq<Fact>)
    requires multiset(a) == multiset(b)
    ensures multiset(ReadFacts(r, a)) == multiset(ReadFacts(r, b))
  {
    hide ReadFacts, ReadFact;
    SameMembers(a, b);
    if a != [] {
      assert a[0] in b;
      var i :| 0 <= i < |b| && b[i] == a[0];
      var a', b' := a[..0] + a[1..], b[..i] + b[i + 1..];
      assert multiset(a') == multiset(b') by {
        WithoutOne(a, 0);
        WithoutOne(b, i);
      }
      ReadFactsPermuted(r, a', b');
      ReadWithout(r, a, 0);
      ReadWithout(r, b, i);
    }
  }

  function ReturnedAll(top: Fields, facts: seq<Fact>): seq<Fact> {
    seq(|facts|, i requires 0 <= i < |facts| => Returned(top, facts[i]))
  }

  lemma FactoredReadBack(r: Compacted, context: Context)
    requires Shaped(context) && r.top == context.top && r.contexts == ContextsOf(References(context.observations))
    ensures ReadFacts(r, FactoredAll(context.top, context.observations)) == ReturnedAll(context.top, context.observations)
  {
    var facts := context.observations;
    forall i | 0 <= i < |facts|
      ensures ReadFact(r, FactoredAll(context.top, facts)[i]) == Returned(context.top, facts[i])
    {
      ReferenceKnown(facts, i);
      FactoredReadsBack(r, References(facts), facts[i]);
    }
  }

  lemma LinedReadBack(r: Compacted, facts: seq<Fact>)
    requires Tabular(facts) && r.comparisonFields == Some(Listed(AllKeys(facts)))
    ensures ReadFacts(r, LinedAll(facts)) == ReadFacts(r, facts)
  {
    ListedMembers(AllKeys(facts));
    forall i | 0 <= i < |facts|
      ensures ReadFact(r, LinedAll(facts)[i]) == ReadFact(r, facts[i])
    {
      LinedReadsBack(r, facts[i]);
    }
  }

  /** Decoding gives back the interval and, in some order, exactly the returned form of every observation. */
  lemma ExpandCompacted(context: Context)
    requires Shaped(context)
    ensures Expand(Compact(context)).top == context.top
    ensures multiset(Expand(Compact(context)).observations) == multiset(ReturnedAll(context.top, context.observations))
  {
    var r := Compact(context);
    var facts := FactoredAll(context.top, context.observations);
    FactoredReadBack(r, context);
    var written := if Tabular(facts) then LinedAll(facts) else facts;
    if Tabular(facts) {
      LinedReadBack(r, facts);
    }
    TablesKeep(written);
    SortReads(Tables(written));
    ReadFactsPermuted(r, ReadTables(r.tables), written);
  }

  // ----- the order of the observations -----

  function TextOf(f: Fact, key: string): string {
    if key in f.fields && f.fields[key].Str? then f.fields[key].s else ""
  }

  /** Observations are ordered by service, then kind, then identifier. */
  function SortKey(f: Fact): Triple {
    (TextOf(f, "service"), f.kind, TextOf(f, "id"))
  }

  predicate FactLeq(a: Fact, b: Fact) {
    TripleLeq(SortKey(a), SortKey(b))
  }

  ghost predicate DistinctKeys(facts: seq<Fact>) {
    forall i, j :: 0 <= i < |facts| && 0 <= j < |facts| && SortKey(facts[i]) == SortKey(facts[j]) ==> i == j
  }

  lemma FactOrder()
    ensures TotalPreorder(FactLeq)
    ensures forall a, b :: FactLeq(a, b) && FactLeq(b, a) ==> SortKey(a) == SortKey(b)
  {
    forall a, b
      ensures FactLeq(a, b) || FactLeq(b, a)
      ensures FactLeq(a, b) && FactLeq(b, a) ==> SortKey(a) == SortKey(b)
    {
      TripleTotal(SortKey(a), SortKey(b));
    }
    forall a, b, c | FactLeq(a, b) && FactLeq(b, c)
      ensures FactLeq(a, c)
    {
      TripleTransitive(SortKey(a), SortKey(b), SortKey(c));
    }
  }

  lemma ReturnedKey(top: Fields, f: Fact)
    ensures SortKey(Returned(top, f)) == SortKey(f)
  {
    KeyNames();
    assert "service" != START && "service" != END by { assert "service"[1] == 'e' && START[1] == 't' && END[1] == 'n'; }
    assert "id" != START && "id" != END;
  }

  lemma ReturnedOrdered(top: Fields, facts: seq<Fact>)
    requires Ascending(facts, FactLeq) && DistinctKeys(facts)
    ensures Ascending(ReturnedAll(top, facts), FactLeq) && DistinctKeys(ReturnedAll(top, facts))
  {
    var r := ReturnedAll(top, facts);
    forall i, j | 0 <= i < j < |r|
      ensures FactLeq(r[i], r[j])
    {
      ReturnedKey(top, facts[i]);
      ReturnedKey(top, facts[j]);
      assert FactLeq(facts[i], facts[j]);
    }
    forall i, j | 0 <= i < |r| && 0 <= j < |r| && SortKey(r[i]) == SortKey(r[j])
      ensures i == j
    {
      ReturnedKey(top, facts[i]);
      ReturnedKey(top, facts[j]);
      assert SortKey(facts[i]) == SortKey(facts[j]);
    }
  }

  lemma KeysDecide(facts: seq<Fact>, a: Fact, b: Fact)
    requires DistinctKeys(facts) && a in facts && b in facts && SortKey(a) == SortKey(b)
    ensures a == b
  {
    var i :| 0 <= i < |facts| && facts[i] == a;
    var j :| 0 <= j < |facts| && facts[j] == b;
  }

  /** Decoding and sorting again gives the returned facts in the original order. */
  lemma SortedExpansion(context: Context)
    requires Shaped(context) && Ascending(context.observations, FactLeq) && DistinctKeys(context.observations)
    ensures Sort(Expand(Compact(context)).observations, FactLeq) == ReturnedAll(context.top, context.observations)
  {
    var back := ReturnedAll(context.top, context.observations);
    var sorted := Sort(Expand(Compact(context)).observations, FactLeq);
    ExpandCompacted(context);
    ReturnedOrdered(context.top, context.observations);
    FactOrder();
    SortKeeps(Expand(Compact(context)).observations, FactLeq);
    SortAscends(Expand(Compact(context)).observations, FactLeq);
    SameMembers(sorted, back);
    forall a, b | a in sorted && b in sorted && FactLeq(a, b) && FactLeq(b, a)
      ensures a == b
    {
      KeysDecide(back, a, b);
    }
    AscendingUnique(sorted, back, FactLeq);
  }

  /** The encoding is lossless exactly when every observation is restorable. */
  lemma LosslessIff(context: Context)
    requires Shaped(context) && Ascending(context.observations, FactLeq) && DistinctKeys(context.observations)
    ensures Sort(Expand(Compact(context)).observations, FactLeq) == context.observations
            <==> forall f :: f in context.observations ==> Restorable(context.top, f)
  {
    SortedExpansion(context);
    var facts := context.observations;
    forall i | 0 <= i < |facts|
      ensures Returned(context.top, facts[i]) == facts[i] <==> Restorable(context.top, facts[i])
    {
      ReturnedIff(context.top, facts[i]);
    }
    if ReturnedAll(context.top, facts) == facts {
      forall i | 0 <= i < |facts|
        ensures Returned(context.top, facts[i]) == facts[i]
      {
        assert ReturnedAll(context.top, facts)[i] == facts[i];
      }
    }
  }

  /** Without any order, a context of restorable observations comes back as the same multiset. */
  lemma LosslessAsMultiset(context: Context)
    requires Shaped(context) && forall f :: f in context.observations ==> Restorable(context.top, f)
    ensures Expand(Compact(context)).top == context.top
    ensures multiset(Expand(Compact(context)).observations) == multiset(context.observations)
  {
    ExpandCompacted(context);
    forall i | 0 <= i < |context.observations|
      ensures Returned(context.top, context.observations[i]) == context.observations[i]
    {
      ReturnedIff(context.top, context.observations[i]);
    }
    assert ReturnedAll(context.top, context.observations) == context.observations;
  }

  /** A context that does not come back: decoding gives an observation without times the interval's. */
  lemma LossyExample(start: Json, end: Json)
    requires !start.Null? && !end.Null?
    ensures var fact := Fact("metric", map["id" := Str("a"), "service" := Str("s")], map[]);
            var context := Context(map[START := start, END := end], [fact]);
            Shaped(context) && Sort(Expand(Compact(context)).observations, FactLeq) != context.observations
  {
    var fact := Fact("metric", map["id" := Str("a"), "service" := Str("s")], map[]);
    var context := Context(map[START := start, END := end], [fact]);
    assert "service"[1] == 'e' && START[1] == 't' && |"id"| == 2 && |START| == 10;
    assert START !in fact.fields;
    assert fact in context.observations && !Restorable(context.top, fact);
    LosslessIff(context);
  }

  // ----- the encoder as the program runs it -----

  lemma IndexStable(a: seq<Fields>, b: seq<Fields>, x: Fields)
    requires a <= b && x in a
    ensures x in b && IndexOf(b, x) == IndexOf(a, x)
  {
    assert b == a + b[|a|..];
    IndexOfPrefix(a, b[|a|..], x);
  }

  lemma FactoredStable(top: Fields, early: seq<Fields>, late: seq<Fields>, f: Fact)
    requires early <= late
    requires Comparison(f).Some? ==> Shared(Comparison(f).value) in early
    ensures Comparison(f).Some? ==> Shared(Comparison(f).value) in late
    ensures Factored(top, early, f) == Factored(top, late, f)
  {
    if Comparison(f).Some? {
      IndexStable(early, late, Shared(Comparison(f).value));
    }
  }

  /** First pass on one fact: drop inherited times, move shared metadata into a reference. */
  method FactorOne(top: Fields, fact: Fact, references: seq<Fields>) returns (factored: Fact, known: seq<Fields>)
    ensures known == AddReference(references, fact)
    ensures Comparison(fact).Some? ==> Shared(Comparison(fact).value) in known
    ensures factored == Factored(top, known, fact)
  {
    factored, known := fact, references;
    if Inherits(top, fact) {
      factored := factored.(fields := factored.fields - {START, END});
    }
    var comparison := Comparison(fact);
    if comparison.Some? {
      var shared := Shared(comparison.value);
      if shared !in known {
        known := known + [shared];
      }
      var name := Label(IndexOf(known, shared));
      factored := factored.(values := factored.values[COMPARISON := Obj(Referring(comparison.value, name))]);
    }
  }

  method FactorInPlace(context: Context) returns (facts: seq<Fact>, references: seq<Fields>)
    ensures facts == FactoredAll(context.top, context.observations)
    ensures references == References(context.observations)
  {
    facts, references := context.observations, [];
    ghost var all := context.observations;
    ghost var goal := FactoredAll(context.top, all);
    for n := 0 to |facts|
      invariant |facts| == |all| && references == References(all[..n])
      invariant facts[..n] == goal[..n] && facts[n..] == all[n..]
    {
      assert facts[n] == all[n] by {
        assert facts[n..][0] == all[n..][0];
      }
      assert all[..n + 1][..n] == all[..n];
      var factored, known := FactorOne(context.top, facts[n], references);
      ReferencesKeep(all, n + 1);
      FactoredStable(context.top, known, References(all), all[n]);
      ReplacedAt(facts, goal, all, n, factored);
      facts := facts[n := factored];
      references := known;
    }
    assert all[..|all|] == all;
  }

  lemma ReplacedAt<T>(s: seq<T>, goal: seq<T>, rest: seq<T>, n: nat, x: T)
    requires n < |s| == |goal| == |rest|
    requires s[..n] == goal[..n] && s[n..] == rest[n..] && x == goal[n]
    ensures s[n := x][..n + 1] == goal[..n + 1] && s[n := x][n + 1..] == rest[n + 1..]
  {
    var r := s[n := x];
    assert r[..n] == s[..n];
    assert r[..n + 1] == r[..n] + [x] && goal[..n + 1] == goal[..n] + [x];
    assert r[n + 1..] == s[n..][1..] && rest[n + 1..] == rest[n..][1..];
  }

  method LineOne(names: seq<string>, fact: Fact) returns (lined: Fact)
    requires Comparison(fact).Some? ==> Members(names) == KeysOf(fact)
    ensures lined == Lined(names, fact)
  {
    lined := fact;
    var comparison := Comparison(fact);
    if comparison.Some? {
      lined := fact.(values := fact.values[COMPARISON := Arr(Select(names, comparison.value))]);
    }
  }

  lemma LinedAt(facts: seq<Fact>, n: nat)
    requires Tabular(facts) && n < |facts|
    ensures Comparison(facts[n]).Some? ==> Members(Listed(AllKeys(facts))) == KeysOf(facts[n])
    ensures LinedAll(facts)[n] == Lined(Listed(AllKeys(facts)), facts[n])
  {
    ListedMembers(AllKeys(facts));
  }

  /** Second pass: comparisons of one shape become rows. */
  method LineInPlace(before: seq<Fact>) returns (facts: seq<Fact>)
    requires Tabular(before)
    ensures facts == LinedAll(before)
  {
    var names := Listed(AllKeys(before));
    facts := before;
    ghost var goal := LinedAll(before);
    for n := 0 to |facts|
      invariant |facts| == |before| && facts[..n] == goal[..n] && facts[n..] == before[n..]
    {
      assert facts[n] == before[n] by {
        assert facts[n..][0] == before[n..][0];
      }
      LinedAt(before, n);
      var lined := LineOne(names, facts[n]);
      ReplacedAt(facts, goal, before, n, lined);
      facts := facts[n := lined];
    }
  }

  /** Third pass: facts of one shape share a table. */
  method Tabulate(facts: seq<Fact>) returns (tables: seq<Table>)
    ensures tables == Tables(facts)
  {
    tables := [];
    for n := 0 to |facts|
      invariant tables == Tables(facts[..n])
    {
      assert facts[..n + 1][..n] == facts[..n];
      tables := AddRow(tables, facts[n]);
    }
    assert facts[..|facts|] == facts;
  }

  /** The whole encoder. */
  method CompactContext(context: Context) returns (r: Compacted)
    ensures r == Compact(context)
  {
    var facts, references := FactorInPlace(context);
    var comparisonFields: Option<seq<string>> := None;
    if Tabular(facts) {
      comparisonFields := Some(Listed(AllKeys(facts)));
      facts := LineInPlace(facts);
    }
    var tables := Tabulate(facts);
    r := Compacted(context.top, ContextsOf(references), comparisonFields, Sort(tables, TableLeq));
  }
}
