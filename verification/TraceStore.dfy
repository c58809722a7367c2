/** The merging rule shared by the accumulator and the stream decoder, seen as a machine over operations, and
    the proof that its outcome does not depend on how the operations are arranged. */
module TraceStore {
  import opened Prelude
  import opened Json

  const MAX_SPANS := 50000
  const MAX_TRACE_SPANS := 2048

  type Code = string

  datatype CSpan = CSpan(trace: string, id: string, service: string, start: nat, duration: nat,
                         tags: map<string, Json>, parent: Option<string>)

  /** Equality as the merge tests it: the tag values are compared with Python's `==`. */
  function PlainSpan(c: CSpan): CSpan {
    c.(tags := map k | k in c.tags :: Plain(c.tags[k]))
  }

  predicate SameSpan(a: CSpan, b: CSpan) {
    PlainSpan(a) == PlainSpan(b)
  }

  datatype Entry = Entry(spans: map<string, CSpan>, processes: set<string>)

  datatype State = State(traces: map<string, Entry>, count: nat)

  const EMPTY := State(map[], 0)

  function EntryOf(s: State, trace: string): Entry {
    if trace in s.traces then s.traces[trace] else Entry(map[], {})
  }

  /** What one payload asks of the store: name a trace, store one projected span, or stop with an error. */
  datatype Op = Touch(trace: string) | Put(span: CSpan) | Bad(code: Code)

  function Stored(entry: Entry, c: CSpan): Entry {
    Entry(entry.spans[c.id := c], entry.processes + {c.service})
  }

  function Step(s: State, op: Op): (State, Option<Code>) {
    match op
    case Bad(code) => (s, Some(code))
    case Touch(trace) => (s.(traces := s.traces[trace := EntryOf(s, trace)]), None)
    case Put(c) =>
      var entry := EntryOf(s, c.trace);
      var stored := s.(traces := s.traces[c.trace := Stored(entry, c)]);
      if c.id in entry.spans then
        if SameSpan(entry.spans[c.id], c) then (stored, None) else (s, Some("TRACE_CONFLICTING_SPAN"))
      else if s.count + 1 > MAX_SPANS || |entry.spans| >= MAX_TRACE_SPANS then
        (s.(count := s.count + 1), Some("TRACE_ACCUMULATION_BUDGET"))
      else
        (stored.(count := s.count + 1), None)
  }

  /** Operations in order, stopping at the first error. */
  function Run(s: State, ops: seq<Op>): (State, Option<Code>) {
    if ops == [] then (s, None)
    else
      var (before, error) := Run(s, ops[..|ops| - 1]);
      if error.Some? then (before, error) else Step(before, ops[|ops| - 1])
  }

  lemma {:induction false} RunAppend(s: State, a: seq<Op>, b: seq<Op>)
    ensures Run(s, a + b) == if Run(s, a).1.Some? then Run(s, a) else Run(Run(s, a).0, b)
  {
    if b == [] {
      assert a + b == a;
    } else {
      RunAppend(s, a, b[..|b| - 1]);
      assert (a + b)[..|a + b| - 1] == a + b[..|b| - 1];
    }
  }

  // ----- what the operations mention, as sets -----

  ghost function Puts(ops: seq<Op>): set<CSpan> {
    set o | o in ops && o.Put? :: o.span
  }

  ghost function Names(ops: seq<Op>): set<string> {
    set o | o in ops && !o.Bad? :: if o.Put? then o.span.trace else o.trace
  }

  ghost function Keys(puts: set<CSpan>): set<(string, string)> {
    set c | c in puts :: (c.trace, c.id)
  }

  ghost function IdsIn(puts: set<CSpan>, trace: string): set<string> {
    set c | c in puts && c.trace == trace :: c.id
  }

  ghost function ServicesIn(puts: set<CSpan>, trace: string): set<string> {
    set c | c in puts && c.trace == trace :: c.service
  }

  ghost predicate NoBad(ops: seq<Op>) {
    forall o :: o in ops ==> !o.Bad?
  }

  ghost predicate Consistent(puts: set<CSpan>) {
    forall a, b :: a in puts && b in puts && a.trace == b.trace && a.id == b.id ==> SameSpan(a, b)
  }

  ghost predicate WithinBudgets(puts: set<CSpan>) {
    |Keys(puts)| <= MAX_SPANS && forall trace :: |IdsIn(puts, trace)| <= MAX_TRACE_SPANS
  }

  /** Nothing malformed, no two spans in conflict, and both budgets kept: a property of the sets alone. */
  ghost predicate Acceptable(ops: seq<Op>) {
    NoBad(ops) && Consistent(Puts(ops)) && WithinBudgets(Puts(ops))
  }

  ghost predicate EntryFits(puts: set<CSpan>, trace: string, entry: Entry) {
    && entry.spans.Keys == IdsIn(puts, trace)
    && entry.processes == ServicesIn(puts, trace)
    && forall id :: id in entry.spans ==>
         entry.spans[id] in puts && entry.spans[id].trace == trace && entry.spans[id].id == id
  }

  /** The store holds, for every mentioned trace and span, one of the spans put under that key, and nothing else. */
  ghost predicate Fits(ops: seq<Op>, s: State) {
    && s.traces.Keys == Names(ops)
    && s.count == |Keys(Puts(ops))|
    && forall trace :: EntryFits(Puts(ops), trace, EntryOf(s, trace))
  }

  lemma SnocSets(ops: seq<Op>, op: Op)
    ensures op.Put? ==> Puts(ops + [op]) == Puts(ops) + {op.span} && Names(ops + [op]) == Names(ops) + {op.span.trace}
    ensures op.Touch? ==> Puts(ops + [op]) == Puts(ops) && Names(ops + [op]) == Names(ops) + {op.trace}
    ensures op.Bad? ==> Puts(ops + [op]) == Puts(ops)
    ensures NoBad(ops + [op]) <==> NoBad(ops) && !op.Bad?
  {
    assert forall o :: o in ops + [op] <==> o in ops || o == op;
  }

  lemma InsertSets(puts: set<CSpan>, c: CSpan, trace: string)
    ensures Keys(puts + {c}) == Keys(puts) + {(c.trace, c.id)}
    ensures IdsIn(puts + {c}, trace) == IdsIn(puts, trace) + if trace == c.trace then {c.id} else {}
    ensures ServicesIn(puts + {c}, trace) == ServicesIn(puts, trace) + if trace == c.trace then {c.service} else {}
    ensures (c.trace, c.id) in Keys(puts) <==> c.id in IdsIn(puts, c.trace)
  {
    if c.id in IdsIn(puts, c.trace) {
      var d :| d in puts && d.trace == c.trace && d.id == c.id;
      assert (d.trace, d.id) in Keys(puts);
    }
  }

  /** Storing a span whose key is already present is accepted exactly when it agrees with all spans put there. */
  lemma AgreesWithAll(puts: set<CSpan>, held: CSpan, c: CSpan)
    requires Consistent(puts) && held in puts && held.trace == c.trace && held.id == c.id
    ensures SameSpan(held, c) <==> Consistent(puts + {c})
  {
  }

  lemma FreshKeepsConsistent(puts: set<CSpan>, c: CSpan)
    requires Consistent(puts) && c.id !in IdsIn(puts, c.trace)
    ensures Consistent(puts + {c})
  {
    assert forall d :: d in puts && d.trace == c.trace ==> d.id in IdsIn(puts, c.trace);
  }

  lemma StoredFits(puts: set<CSpan>, c: CSpan, entry: Entry)
    requires EntryFits(puts, c.trace, entry)
    ensures EntryFits(puts + {c}, c.trace, Stored(entry, c))
  {
    InsertSets(puts, c, c.trace);
  }

  lemma OtherFits(puts: set<CSpan>, c: CSpan, trace: string, entry: Entry)
    requires EntryFits(puts, trace, entry) && trace != c.trace
    ensures EntryFits(puts + {c}, trace, entry)
  {
    InsertSets(puts, c, trace);
  }

  lemma PutFits(ops: seq<Op>, s: State, c: CSpan, count: nat)
    requires Fits(ops, s) && count == |Keys(Puts(ops) + {c})|
    ensures Fits(ops + [Put(c)], State(s.traces[c.trace := Stored(EntryOf(s, c.trace), c)], count))
  {
    var s' := State(s.traces[c.trace := Stored(EntryOf(s, c.trace), c)], count);
    SnocSets(ops, Put(c));
    forall trace
      ensures EntryFits(Puts(ops) + {c}, trace, EntryOf(s', trace))
    {
      assert EntryFits(Puts(ops), trace, EntryOf(s, trace));
      if trace == c.trace {
        StoredFits(Puts(ops), c, EntryOf(s, trace));
      } else {
        OtherFits(Puts(ops), c, trace, EntryOf(s, trace));
      }
    }
  }

  lemma TouchFits(ops: seq<Op>, s: State, trace: string)
    requires Fits(ops, s)
    ensures Fits(ops + [Touch(trace)], s.(traces := s.traces[trace := EntryOf(s, trace)]))
  {
    var s' := s.(traces := s.traces[trace := EntryOf(s, trace)]);
    SnocSets(ops, Touch(trace));
    forall t
      ensures EntryFits(Puts(ops), t, EntryOf(s', t))
    {
      assert EntryFits(Puts(ops), t, EntryOf(s, t));
    }
  }

  lemma PrefixAcceptable(ops: seq<Op>, op: Op)
    requires Acceptable(ops + [op])
    ensures Acceptable(ops)
  {
    SnocSets(ops, op);
    if op.Put? {
      InsertSets(Puts(ops), op.span, "");
      SubsetSize(Keys(Puts(ops)), Keys(Puts(ops + [op])));
      forall trace
        ensures |IdsIn(Puts(ops), trace)| <= MAX_TRACE_SPANS
      {
        InsertSets(Puts(ops), op.span, trace);
        SubsetSize(IdsIn(Puts(ops), trace), IdsIn(Puts(ops + [op]), trace));
        assert |IdsIn(Puts(ops + [op]), trace)| <= MAX_TRACE_SPANS;
      }
    }
  }

  lemma BudgetIff(puts: set<CSpan>, c: CSpan)
    requires WithinBudgets(puts) && c.id !in IdsIn(puts, c.trace)
    ensures |Keys(puts + {c})| == |Keys(puts)| + 1
    ensures WithinBudgets(puts + {c}) <==>
              |Keys(puts)| + 1 <= MAX_SPANS && |IdsIn(puts, c.trace)| < MAX_TRACE_SPANS
  {
    InsertSets(puts, c, c.trace);
    assert |IdsIn(puts + {c}, c.trace)| == |IdsIn(puts, c.trace)| + 1;
    forall trace | trace != c.trace
      ensures |IdsIn(puts + {c}, trace)| <= MAX_TRACE_SPANS
    {
      InsertSets(puts, c, trace);
      assert |IdsIn(puts, trace)| <= MAX_TRACE_SPANS;
    }
  }

  lemma AcceptableSnoc(ops: seq<Op>, c: CSpan)
    requires NoBad(ops)
    ensures Acceptable(ops + [Put(c)]) <==> Consistent(Puts(ops) + {c}) && WithinBudgets(Puts(ops) + {c})
  {
    SnocSets(ops, Put(c));
  }

  lemma KnownKeepsBudgets(puts: set<CSpan>, c: CSpan)
    requires c.id in IdsIn(puts, c.trace) && WithinBudgets(puts)
    ensures WithinBudgets(puts + {c}) && |Keys(puts + {c})| == |Keys(puts)|
  {
    InsertSets(puts, c, c.trace);
    assert Keys(puts + {c}) == Keys(puts);
    forall trace
      ensures |IdsIn(puts + {c}, trace)| <= MAX_TRACE_SPANS
    {
      InsertSets(puts, c, trace);
      assert IdsIn(puts + {c}, trace) == IdsIn(puts, trace);
      assert |IdsIn(puts, trace)| <= MAX_TRACE_SPANS;
    }
  }

  lemma KnownAccepted(ops: seq<Op>, c: CSpan, entry: Entry)
    requires Acceptable(ops) && EntryFits(Puts(ops), c.trace, entry) && c.id in entry.spans
    ensures SameSpan(entry.spans[c.id], c) <==> Acceptable(ops + [Put(c)])
    ensures |Keys(Puts(ops) + {c})| == |Keys(Puts(ops))|
  {
    AcceptableSnoc(ops, c);
    AgreesWithAll(Puts(ops), entry.spans[c.id], c);
    KnownKeepsBudgets(Puts(ops), c);
  }

  lemma FreshAccepted(ops: seq<Op>, c: CSpan, entry: Entry)
    requires Acceptable(ops) && EntryFits(Puts(ops), c.trace, entry) && c.id !in entry.spans
    ensures |Keys(Puts(ops))| + 1 <= MAX_SPANS && |entry.spans| < MAX_TRACE_SPANS <==> Acceptable(ops + [Put(c)])
    ensures |Keys(Puts(ops) + {c})| == |Keys(Puts(ops))| + 1
  {
    AcceptableSnoc(ops, c);
    FreshKeepsConsistent(Puts(ops), c);
    BudgetIff(Puts(ops), c);
    assert |entry.spans| == |entry.spans.Keys|;
  }

  lemma PutStep(ops: seq<Op>, s: State, c: CSpan)
    requires Acceptable(ops) && Fits(ops, s)
    ensures Step(s, Put(c)).1.None? <==> Acceptable(ops + [Put(c)])
    ensures Step(s, Put(c)).1.None? ==> Fits(ops + [Put(c)], Step(s, Put(c)).0)
  {
    var entry := EntryOf(s, c.trace);
    assert EntryFits(Puts(ops), c.trace, entry);
    if c.id in entry.spans {
      KnownAccepted(ops, c, entry);
      PutFits(ops, s, c, s.count);
    } else {
      FreshAccepted(ops, c, entry);
      PutFits(ops, s, c, s.count + 1);
    }
  }

  /** A run succeeds exactly when the mentioned sets are acceptable, and then the store fits them. */
  lemma {:induction false} RunSucceedsIff(ops: seq<Op>)
    ensures Run(EMPTY, ops).1.None? <==> Acceptable(ops)
    ensures Run(EMPTY, ops).1.None? ==> Fits(ops, Run(EMPTY, ops).0)
  {
    if ops == [] {
      assert Keys(Puts(ops)) == {};
      forall trace ensures EntryFits(Puts(ops), trace, EntryOf(EMPTY, trace)) {
        assert IdsIn(Puts(ops), trace) == {};
      }
      forall trace ensures |IdsIn(Puts(ops), trace)| <= MAX_TRACE_SPANS {
        assert IdsIn(Puts(ops), trace) == {};
      }
    } else {
      var n := |ops| - 1;
      var before, op := ops[..n], ops[n];
      assert ops == before + [op];
      RunSucceedsIff(before);
      if Acceptable(ops) {
        PrefixAcceptable(before, op);
      }
      SnocSets(before, op);
      if Acceptable(before) {
        var s := Run(EMPTY, before).0;
        match op
        case Put(c) => PutStep(before, s, c);
        case Touch(trace) => TouchFits(before, s, trace);
        case Bad(_) =>
      }
    }
  }

  /** The i-th operation is the first that fails: it is malformed, in conflict with a span put before, or new and over a
      budget; what was stored before stays, and only the last raises the counter. */
  ghost predicate FailedOn(ops: seq<Op>, i: nat, s: State, code: Code) {
    && i < |ops| && Acceptable(ops[..i])
    && var puts := Puts(ops[..i]);
    match ops[i]
    case Touch(_) => false
    case Bad(bad) => code == bad && Fits(ops[..i], s)
    case Put(c) =>
      if c.id in IdsIn(puts, c.trace) then code == "TRACE_CONFLICTING_SPAN" && !Consistent(puts + {c}) && Fits(ops[..i], s)
      else
        && code == "TRACE_ACCUMULATION_BUDGET" && !WithinBudgets(puts + {c})
        && s.count == |Keys(puts)| + 1 && Fits(ops[..i], s.(count := |Keys(puts)|))
  }

  lemma PutFails(ops: seq<Op>, s: State, c: CSpan)
    requires Acceptable(ops) && Fits(ops, s) && Step(s, Put(c)).1.Some?
    ensures var (after, error) := Step(s, Put(c));
            if c.id in IdsIn(Puts(ops), c.trace) then
              error == Some("TRACE_CONFLICTING_SPAN") && !Consistent(Puts(ops) + {c}) && after == s
            else
              && error == Some("TRACE_ACCUMULATION_BUDGET") && !WithinBudgets(Puts(ops) + {c})
              && after == s.(count := |Keys(Puts(ops))| + 1)
  {
    var entry := EntryOf(s, c.trace);
    assert EntryFits(Puts(ops), c.trace, entry);
    AcceptableSnoc(ops, c);
    if c.id in entry.spans {
      KnownAccepted(ops, c, entry);
      KnownKeepsBudgets(Puts(ops), c);
    } else {
      FreshAccepted(ops, c, entry);
      FreshKeepsConsistent(Puts(ops), c);
    }
  }

  /** A run that fails does so at its first unacceptable operation. */
  lemma {:induction false} RunFailsOn(ops: seq<Op>)
    requires Run(EMPTY, ops).1.Some?
    ensures exists i: nat :: FailedOn(ops, i, Run(EMPTY, ops).0, Run(EMPTY, ops).1.value)
  {
    hide Step, Acceptable, Fits;
    var n := |ops| - 1;
    if Run(EMPTY, ops[..n]).1.Some? {
      RunFailsOn(ops[..n]);
      var i: nat :| FailedOn(ops[..n], i, Run(EMPTY, ops).0, Run(EMPTY, ops).1.value);
      assert ops[..n][..i] == ops[..i];
      assert FailedOn(ops, i, Run(EMPTY, ops).0, Run(EMPTY, ops).1.value);
    } else {
      RunSucceedsIff(ops[..n]);
      LastFails(ops[..n], Run(EMPTY, ops[..n]).0, ops[n]);
      assert ops == ops[..n] + [ops[n]];
      assert FailedOn(ops, n, Run(EMPTY, ops).0, Run(EMPTY, ops).1.value);
    }
  }

  lemma LastFails(ops: seq<Op>, s: State, op: Op)
    requires Acceptable(ops) && Fits(ops, s) && Step(s, op).1.Some?
    ensures FailedOn(ops + [op], |ops|, Step(s, op).0, Step(s, op).1.value)
  {
    assert (ops + [op])[..|ops|] == ops;
    if op.Put? {
      PutFails(ops, s, op.span);
      assert s.count == |Keys(Puts(ops))|;
      assert s.(count := |Keys(Puts(ops))|) == s;
    }
    hide Step, Acceptable, Fits;
  }

  // ----- confluence -----

  /** The spans put, with number spelling forgotten. */
  ghost function Projected(puts: set<CSpan>): set<CSpan> {
    set c | c in puts :: PlainSpan(c)
  }

  lemma ProjectedOnTo(puts: set<CSpan>, c: CSpan)
    requires c in puts
    ensures PlainSpan(c) in Projected(puts)
  {
  }

  lemma ProjectedFrom(puts: set<CSpan>, d: CSpan) returns (c: CSpan)
    requires d in Projected(puts)
    ensures c in puts && PlainSpan(c) == d && c.trace == d.trace && c.id == d.id && c.service == d.service
  {
    c :| c in puts && PlainSpan(c) == d;
  }

  lemma ProjectedPairs(puts: set<CSpan>)
    ensures Keys(Projected(puts)) == Keys(puts)
  {
    forall k | k in Keys(puts)
      ensures k in Keys(Projected(puts))
    {
      var c :| c in puts && (c.trace, c.id) == k;
      ProjectedOnTo(puts, c);
      assert (PlainSpan(c).trace, PlainSpan(c).id) == k;
    }
    forall k | k in Keys(Projected(puts))
      ensures k in Keys(puts)
    {
      var d :| d in Projected(puts) && (d.trace, d.id) == k;
      var c := ProjectedFrom(puts, d);
    }
  }

  lemma ProjectedSets(puts: set<CSpan>, trace: string)
    ensures IdsIn(Projected(puts), trace) == IdsIn(puts, trace)
    ensures ServicesIn(Projected(puts), trace) == ServicesIn(puts, trace)
  {
    forall c | c in puts && c.trace == trace
      ensures c.id in IdsIn(Projected(puts), trace) && c.service in ServicesIn(Projected(puts), trace)
    {
      ProjectedOnTo(puts, c);
      assert PlainSpan(c).trace == trace && PlainSpan(c).id == c.id && PlainSpan(c).service == c.service;
    }
    forall d | d in Projected(puts) && d.trace == trace
      ensures d.id in IdsIn(puts, trace) && d.service in ServicesIn(puts, trace)
    {
      var c := ProjectedFrom(puts, d);
    }
  }

  lemma ProjectedKeys(puts: set<CSpan>)
    ensures Keys(Projected(puts)) == Keys(puts)
    ensures forall trace :: IdsIn(Projected(puts), trace) == IdsIn(puts, trace)
    ensures forall trace :: ServicesIn(Projected(puts), trace) == ServicesIn(puts, trace)
  {
    ProjectedPairs(puts);
    forall trace
      ensures IdsIn(Projected(puts), trace) == IdsIn(puts, trace)
      ensures ServicesIn(Projected(puts), trace) == ServicesIn(puts, trace)
    {
      ProjectedSets(puts, trace);
    }
  }

  lemma SameConsistency(a: set<CSpan>, b: set<CSpan>)
    requires Projected(a) == Projected(b) && Consistent(a)
    ensures Consistent(b)
    ensures forall x, y :: x in a && y in b && x.trace == y.trace && x.id == y.id ==> SameSpan(x, y)
  {
    forall x, y | x in a && y in b && x.trace == y.trace && x.id == y.id
      ensures SameSpan(x, y)
    {
      assert PlainSpan(y) in Projected(a);
      var z :| z in a && PlainSpan(z) == PlainSpan(y);
      assert PlainSpan(z).trace == z.trace && PlainSpan(z).id == z.id;
      assert SameSpan(x, z);
    }
    forall x, y | x in b && y in b && x.trace == y.trace && x.id == y.id
      ensures SameSpan(x, y)
    {
      assert PlainSpan(x) in Projected(a);
      var z :| z in a && PlainSpan(z) == PlainSpan(x);
      assert PlainSpan(z).trace == z.trace && PlainSpan(z).id == z.id;
    }
  }

  /** Two operation lists that mention the same traces and, up to number spelling, the same spans. */
  ghost predicate SameContent(a: seq<Op>, b: seq<Op>) {
    && (NoBad(a) <==> NoBad(b))
    && Names(a) == Names(b)
    && Projected(Puts(a)) == Projected(Puts(b))
  }

  ghost predicate SameEntry(a: Entry, b: Entry) {
    && a.processes == b.processes
    && a.spans.Keys == b.spans.Keys
    && forall id :: id in a.spans ==> SameSpan(a.spans[id], b.spans[id])
  }

  ghost predicate SameState(a: State, b: State) {
    && a.count == b.count
    && a.traces.Keys == b.traces.Keys
    && forall trace :: trace in a.traces ==> SameEntry(a.traces[trace], b.traces[trace])
  }

  lemma SameAcceptance(a: seq<Op>, b: seq<Op>)
    requires SameContent(a, b) && Acceptable(a)
    ensures Acceptable(b)
  {
    ProjectedKeys(Puts(a));
    ProjectedKeys(Puts(b));
    SameConsistency(Puts(a), Puts(b));
    forall trace
      ensures |IdsIn(Puts(b), trace)| <= MAX_TRACE_SPANS
    {
      assert IdsIn(Puts(b), trace) == IdsIn(Puts(a), trace);
      assert |IdsIn(Puts(a), trace)| <= MAX_TRACE_SPANS;
    }
  }

  lemma FittingEntriesAgree(a: set<CSpan>, b: set<CSpan>, trace: string, x: Entry, y: Entry)
    requires Projected(a) == Projected(b) && Consistent(a)
    requires EntryFits(a, trace, x) && EntryFits(b, trace, y)
    ensures SameEntry(x, y)
  {
    ProjectedKeys(a);
    ProjectedKeys(b);
    SameConsistency(a, b);
    assert IdsIn(a, trace) == IdsIn(Projected(a), trace) == IdsIn(b, trace);
    assert ServicesIn(a, trace) == ServicesIn(Projected(a), trace) == ServicesIn(b, trace);
  }

  /** Order, repetition and grouping of the operations do not matter: the same content is accepted or refused
      alike, and when accepted leaves the same store. */
  lemma Confluence(a: seq<Op>, b: seq<Op>)
    requires SameContent(a, b)
    ensures Run(EMPTY, a).1.None? <==> Run(EMPTY, b).1.None?
    ensures Run(EMPTY, a).1.None? ==> SameState(Run(EMPTY, a).0, Run(EMPTY, b).0)
  {
    RunSucceedsIff(a);
    RunSucceedsIff(b);
    if Acceptable(a) {
      SameAcceptance(a, b);
      ProjectedKeys(Puts(a));
      ProjectedKeys(Puts(b));
      var sa, sb := Run(EMPTY, a).0, Run(EMPTY, b).0;
      forall trace | trace in sa.traces
        ensures SameEntry(sa.traces[trace], sb.traces[trace])
      {
        assert EntryFits(Puts(a), trace, EntryOf(sa, trace)) && EntryFits(Puts(b), trace, EntryOf(sb, trace));
        FittingEntriesAgree(Puts(a), Puts(b), trace, sa.traces[trace], sb.traces[trace]);
      }
    }
    if Acceptable(b) {
      SameAcceptance(b, a);
    }
  }

  /** No two spans put under one key are spelled differently. */
  ghost predicate OneSpelling(puts: set<CSpan>) {
    forall a, b :: a in puts && b in puts && a.trace == b.trace && a.id == b.id ==> a == b
  }

  /** With one spelling per span the stores are equal outright, not only up to Python's `==`. */
  lemma SpelledAlike(a: seq<Op>, b: seq<Op>)
    requires Puts(a) == Puts(b) && Names(a) == Names(b) && (NoBad(a) <==> NoBad(b))
    requires OneSpelling(Puts(a)) && Run(EMPTY, a).1.None?
    ensures Run(EMPTY, a) == Run(EMPTY, b)
  {
    Confluence(a, b);
    RunSucceedsIff(a);
    RunSucceedsIff(b);
    var sa, sb := Run(EMPTY, a).0, Run(EMPTY, b).0;
    forall trace | trace in sa.traces
      ensures sa.traces[trace] == sb.traces[trace]
    {
      assert SameEntry(sa.traces[trace], sb.traces[trace]);
      assert EntryFits(Puts(a), trace, EntryOf(sa, trace)) && EntryFits(Puts(b), trace, EntryOf(sb, trace));
    }
    assert sa.traces == sb.traces;
  }

  /** Without it the last spelling wins: the very same spans, put in two orders, leave two different stores. */
  lemma LastSpellingWins(ops: seq<Op>, p: CSpan, q: CSpan)
    requires Run(EMPTY, ops).1.None?
    requires p in Puts(ops) && q in Puts(ops) && p.trace == q.trace && p.id == q.id && p != q
    ensures SameContent(ops + [Put(p)], ops + [Put(q)])
    ensures Run(EMPTY, ops + [Put(p)]).1.None? && Run(EMPTY, ops + [Put(q)]).1.None?
    ensures Run(EMPTY, ops + [Put(p)]).0 != Run(EMPTY, ops + [Put(q)]).0
  {
    RunSucceedsIff(ops);
    var s := Run(EMPTY, ops).0;
    SnocSets(ops, Put(p));
    SnocSets(ops, Put(q));
    assert Put(p) in ops && Put(q) in ops;
    assert p.trace in Names(ops) by {
      assert !Put(p).Bad?;
    }
    assert Puts(ops) + {p} == Puts(ops) && Puts(ops) + {q} == Puts(ops);
    assert Names(ops) + {p.trace} == Names(ops);
    RunAppend(EMPTY, ops, [Put(p)]);
    RunAppend(EMPTY, ops, [Put(q)]);
    assert EntryFits(Puts(ops), p.trace, EntryOf(s, p.trace));
    assert Acceptable(ops + [Put(p)]) && Acceptable(ops + [Put(q)]);
    RunSucceedsIff(ops + [Put(p)]);
    RunSucceedsIff(ops + [Put(q)]);
    LastIsStored(EMPTY, ops, p);
    LastIsStored(EMPTY, ops, q);
  }

  lemma LastIsStored(s: State, ops: seq<Op>, c: CSpan)
    requires Run(s, ops + [Put(c)]).1.None?
    ensures var after := Run(s, ops + [Put(c)]).0;
            c.trace in after.traces && c.id in after.traces[c.trace].spans && after.traces[c.trace].spans[c.id] == c
  {
    assert (ops + [Put(c)])[..|ops|] == ops;
  }
}
