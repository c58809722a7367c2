/** What the decoder's spans mean, in terms of the JSON they come from: exactly which JSON spans convert, and to what. */
module OtlpMeaning {
  import opened Prelude
  import opened Json
  import opened Numerals
  import opened TraceStore
  import opened TraceProjection
  import opened OtlpConversion
  import opened LastValues

  const TWO_TO_64 := 0x1_0000_0000_0000_0000

  // ----- numbers and identifiers -----

  /** The JSON value is this number, as a number or as one to twenty digits. */
  ghost predicate Writes(j: Json, n: int) {
    j == Int(n) || (j.Str? && Numeral(j.s) && |j.s| <= 20 && n == Value(j.s))
  }

  lemma UintIff(j: Json, n: nat)
    ensures ReadUint(j) == Ok(n) <==> Writes(j, n) && n < TWO_TO_64
  {
  }

  function HexWorth(c: char): int {
    if '0' <= c <= '9' then c as int - '0' as int
    else if 'a' <= c <= 'f' then 10 + (c as int - 'a' as int)
    else if 'A' <= c <= 'F' then 10 + (c as int - 'A' as int)
    else -1
  }

  predicate Capital(c: char) {
    'A' <= c <= 'Z'
  }

  /** The identifier is the given hexadecimal text in lower case: the same digits, none of them a capital. */
  ghost predicate SameDigits(text: string, id: string) {
    |id| == |text| && forall i :: 0 <= i < |text| ==> HexWorth(text[i]) == HexWorth(id[i]) >= 0 && !Capital(id[i])
  }

  ghost predicate SomeDigit(text: string) {
    exists i :: 0 <= i < |text| && HexWorth(text[i]) > 0
  }

  /** An identifier of this length, not all zero. */
  ghost predicate Identifies(j: Json, length: nat, id: string) {
    j.Str? && |j.s| == length && SomeDigit(j.s) && SameDigits(j.s, id)
  }

  lemma LowerDigits(text: string, length: nat)
    requires Hex(text, length)
    ensures SameDigits(text, Lower(text))
    ensures SomeDigit(text) <==> !AllZero(text)
  {
    if !AllZero(text) {
      var i :| 0 <= i < |text| && text[i] != '0';
      assert HexWorth(text[i]) > 0;
    }
  }

  lemma SameDigitsOnce(text: string, a: string, b: string)
    requires SameDigits(text, a) && SameDigits(text, b)
    ensures a == b
  {
    forall i | 0 <= i < |text|
      ensures a[i] == b[i]
    {
      assert HexWorth(a[i]) == HexWorth(b[i]);
    }
  }

  lemma SameDigitsHex(text: string, id: string)
    requires SameDigits(text, id)
    ensures Hex(text, |text|)
  {
  }

  lemma IdIff(j: Json, length: nat, id: string)
    ensures ReadId(j, length) == Ok(id) <==> Identifies(j, length, id)
  {
    if j.Str? && Hex(j.s, length) {
      LowerDigits(j.s, length);
      if Identifies(j, length, id) {
        SameDigitsOnce(j.s, Lower(j.s), id);
      }
    }
    if Identifies(j, length, id) {
      SameDigitsHex(j.s, id);
    }
  }

  /** A parent is missing when it is null, empty or all zero. */
  ghost predicate IsParent(j: Json, parent: Option<string>) {
    match parent
    case None => j == Null || j == Str("") || (j.Str? && |j.s| == 16 && forall i :: 0 <= i < |j.s| ==> j.s[i] == '0')
    case Some(id) => Identifies(j, 16, id)
  }

  lemma ParentIff(j: Json, parent: Option<string>)
    ensures ReadParent(j) == Ok(parent) <==> IsParent(j, parent)
  {
    if j.Str? && Hex(j.s, 16) {
      LowerDigits(j.s, 16);
    }
    if parent.Some? {
      IdIff(j, 16, parent.value);
    }
  }

  // ----- kinds and statuses -----

  /** The six kinds, by number or by name. */
  ghost predicate IsKind(j: Json, kind: string) {
    || (kind == "UNKNOWN" && (j == Int(0) || j == Str("SPAN_KIND_UNKNOWN")))
    || (kind == "INTERNAL" && (j == Int(1) || j == Str("SPAN_KIND_INTERNAL")))
    || (kind == "SERVER" && (j == Int(2) || j == Str("SPAN_KIND_SERVER")))
    || (kind == "CLIENT" && (j == Int(3) || j == Str("SPAN_KIND_CLIENT")))
    || (kind == "PRODUCER" && (j == Int(4) || j == Str("SPAN_KIND_PRODUCER")))
    || (kind == "CONSUMER" && (j == Int(5) || j == Str("SPAN_KIND_CONSUMER")))
  }

  lemma KindNames()
    ensures KIND_PREFIX + "UNKNOWN" == "SPAN_KIND_UNKNOWN" && KIND_PREFIX + "INTERNAL" == "SPAN_KIND_INTERNAL"
    ensures KIND_PREFIX + "SERVER" == "SPAN_KIND_SERVER" && KIND_PREFIX + "CLIENT" == "SPAN_KIND_CLIENT"
    ensures KIND_PREFIX + "PRODUCER" == "SPAN_KIND_PRODUCER" && KIND_PREFIX + "CONSUMER" == "SPAN_KIND_CONSUMER"
  {
  }

  lemma Prefixed(s: string, prefix: string, rest: string)
    ensures prefix <= s && s[|prefix|..] == rest <==> s == prefix + rest
  {
    if prefix <= s {
      assert s == prefix + s[|prefix|..];
    }
  }

  lemma KindIff(j: Json, kind: string)
    ensures ReadKind(j) == Ok(kind) <==> IsKind(j, kind)
  {
    KindNames();
    if j.Str? {
      Prefixed(j.s, KIND_PREFIX, kind);
    }
  }

  ghost predicate StatusError(code: Json) {
    code == Int(2) || code == Str("STATUS_CODE_ERROR")
  }

  ghost predicate StatusFine(code: Json) {
    code == Int(0) || code == Int(1) || code == Str("STATUS_CODE_UNSET") || code == Str("STATUS_CODE_OK")
  }

  lemma StatusIff(j: Json, error: bool)
    ensures ReadStatus(j) == Ok(error)
            <==> j.Obj? && var code := Get(j.fields, "code", Int(0));
                           (StatusError(code) || StatusFine(code)) && (error <==> StatusError(code))
  {
    assert "STATUS_CODE_ERROR"[12] == 'E' && "STATUS_CODE_UNSET"[12] == 'U' && "STATUS_CODE_OK"[12] == 'O';
  }

  // ----- attributes -----

  /** The attribute's value is this one scalar under this one field. */
  ghost predicate Holds(item: Json, field: string, scalar: Json) {
    item.Obj? && Get(item.fields, "value", Null) == Obj(map[field := scalar])
  }

  /** The scalars of the contract; an error is a flag, or a message that only marks presence. */
  ghost predicate Admitted(key: string, field: string, scalar: Json) {
    && (field == "stringValue" || field == "intValue" || field == "boolValue")
    && (key == ERROR ==> (field == "stringValue" && scalar.Str?) || (field == "boolValue" && scalar.Bool?))
  }

  /** The attribute gives the key this value. */
  ghost predicate Carries(item: Json, key: string, v: Json) {
    && item.Obj? && Get(item.fields, "key", Null) == Str(key)
    && exists field, scalar :: Holds(item, field, scalar) && Admitted(key, field, scalar)
                               && v == if key == ERROR && scalar.Str? then Bool(true) else scalar
  }

  ghost predicate WellFormed(item: Json, wanted: set<string>) {
    && item.Obj? && Get(item.fields, "key", Null).Str?
    && var key := Get(item.fields, "key", Null).s;
    key in wanted ==> exists v :: Carries(item, key, v)
  }

  lemma CarriesOnce(item: Json, key: string, v: Json, key': string, v': Json)
    requires Carries(item, key, v) && Carries(item, key', v')
    ensures key == key' && v == v'
  {
    var field, scalar :| Holds(item, field, scalar) && Admitted(key, field, scalar)
                         && v == if key == ERROR && scalar.Str? then Bool(true) else scalar;
    var field', scalar' :| Holds(item, field', scalar') && Admitted(key, field', scalar')
                           && v' == if key == ERROR && scalar'.Str? then Bool(true) else scalar';
    var m := map[field := scalar];
    assert m == map[field' := scalar'] && field in m && field' in m;
    assert field == field' && m[field] == scalar;
  }

  lemma CarriesIsFunctional()
    ensures Functional(Carries)
  {
    forall item, k, v, k', v' | Carries(item, k, v) && Carries(item, k', v')
      ensures k == k' && v == v'
    {
      CarriesOnce(item, k, v, k', v');
    }
  }

  lemma OneFieldHolds(item: Json, value: map<string, Json>)
    requires item.Obj? && Get(item.fields, "value", Null) == Obj(value) && |value| == 1
    ensures Holds(item, OnlyField(value), value[OnlyField(value)])
  {
    OneKey(value);
    var field := OnlyField(value);
    assert value == map[field := value[field]];
  }

  lemma HoldsOneField(item: Json, field: string, scalar: Json)
    requires Holds(item, field, scalar)
    ensures var value := Get(item.fields, "value", Null);
            value.Obj? && |value.fields| == 1 && OnlyField(value.fields) == field && value.fields[field] == scalar
  {
    var value := Get(item.fields, "value", Null).fields;
    assert value == map[field := scalar];
    assert value.Keys == {field};
    assert OnlyField(value) in value;
  }

  /** What one attribute does to those found so far. */
  lemma StepIff(found: Tags, item: Json, wanted: set<string>, v: Json)
    requires item.Obj? && Get(item.fields, "key", Null).Str? && Get(item.fields, "key", Null).s in wanted
    ensures var key := Get(item.fields, "key", Null).s;
            && (AttributeStep(found, item, wanted).Ok?
                <==> exists x :: Carries(item, key, x) && (key in found ==> PyEq(found[key], x)))
            && (AttributeStep(found, item, wanted).Ok? && Carries(item, key, v) ==>
                  AttributeStep(found, item, wanted) == Ok(found[key := v]))
  {
    var key, value := Get(item.fields, "key", Null).s, Get(item.fields, "value", Null);
    if value.Obj? && |value.fields| == 1 {
      OneFieldHolds(item, value.fields);
      var field := OnlyField(value.fields);
      var scalar := value.fields[field];
      var kept := if key == ERROR && scalar.Str? then Bool(true) else scalar;
      if Admitted(key, field, scalar) {
        assert Carries(item, key, kept);
        if Carries(item, key, v) {
          CarriesOnce(item, key, kept, key, v);
        }
      }
    }
    forall x | Carries(item, key, x)
      ensures value.Obj? && |value.fields| == 1 && Admitted(key, OnlyField(value.fields), value.fields[OnlyField(value.fields)])
      ensures x == var scalar := value.fields[OnlyField(value.fields)]; if key == ERROR && scalar.Str? then Bool(true) else scalar
    {
      var field, scalar :| Holds(item, field, scalar) && Admitted(key, field, scalar)
                           && x == if key == ERROR && scalar.Str? then Bool(true) else scalar;
      HoldsOneField(item, field, scalar);
    }
  }

  ghost predicate AllWellFormed(items: seq<Json>, wanted: set<string>) {
    forall i :: 0 <= i < |items| ==> WellFormed(items[i], wanted)
  }

  /** Reading succeeds exactly when every attribute is well formed and values of one key agree, and finds the last value
      of each wanted key. */
  lemma {:induction false} AttributesIff(items: seq<Json>, wanted: set<string>)
    ensures ReadAttributes(items, wanted).Ok? <==> AllWellFormed(items, wanted) && Agreeing(Carries, items, wanted)
    ensures ReadAttributes(items, wanted).Ok? ==> Found(Carries, items, wanted, ReadAttributes(items, wanted).value)
  {
    if items == [] {
      FoundNothing(Carries, wanted);
    } else {
      var n := |items| - 1;
      var front, item := items[..n], items[n];
      assert items == front + [item];
      AttributesIff(front, wanted);
      WellFormedSplit(front, item, wanted);
      if Agreeing(Carries, items, wanted) {
        AgreeingFront(Carries, front, item, wanted);
      }
      if ReadAttributes(front, wanted).Ok? {
        OneMore(front, item, wanted, ReadAttributes(front, wanted).value);
      }
    }
  }

  lemma WellFormedSplit(front: seq<Json>, item: Json, wanted: set<string>)
    ensures AllWellFormed(front + [item], wanted) <==> AllWellFormed(front, wanted) && WellFormed(item, wanted)
  {
    var all := front + [item];
    assert all[|front|] == item && forall i :: 0 <= i < |front| ==> all[i] == front[i];
  }

  lemma OneMore(front: seq<Json>, item: Json, wanted: set<string>, found: Tags)
    requires Found(Carries, front, wanted, found) && Agreeing(Carries, front, wanted)
    ensures AttributeStep(found, item, wanted).Ok? <==> WellFormed(item, wanted) && Agreeing(Carries, front + [item], wanted)
    ensures AttributeStep(found, item, wanted).Ok? ==>
              Found(Carries, front + [item], wanted, AttributeStep(found, item, wanted).value)
  {
    CarriesIsFunctional();
    hide Found, Agreeing, Carries, Functional;
    if item.Obj? && Get(item.fields, "key", Null).Str? {
      var key := Get(item.fields, "key", Null).s;
      if key !in wanted {
        assert AttributeStep(found, item, wanted) == Ok(found);
        forall k | k in wanted
          ensures !Gives(Carries, item, k)
        {
          OtherKey(item, k);
        }
        Skips(Carries, front, item, wanted, found);
      } else {
        StepIff(found, item, wanted, Null);
        hide AttributeStep;
        if v :| Carries(item, key, v) {
          StepIff(found, item, wanted, v);
          AgreeingMore(Carries, front, item, wanted, found, key, v);
          FoundAdds(Carries, front, item, wanted, found, key, v);
          forall x | Carries(item, key, x)
            ensures x == v
          {
            CarriesOnce(item, key, v, key, x);
          }
        }
      }
    }
  }

  lemma OtherKey(item: Json, k: string)
    requires item.Obj? && Get(item.fields, "key", Null).Str? && Get(item.fields, "key", Null).s != k
    ensures !Gives(Carries, item, k)
  {
  }

  // ----- the error flag -----

  /** The value that decides the HTTP status: that of the stable name, or else that of the old one. */
  ghost predicate HttpValue(items: seq<Json>, v: Json) {
    Last(Carries, items, MODERN, v) || (!Mentions(Carries, items, MODERN) && Last(Carries, items, HTTP, v))
  }

  /** An HTTP status: a number, or digits, between 100 and 599. */
  ghost predicate HttpStatus(v: Json, n: int) {
    (v == Int(n) || (v.Str? && Numeral(v.s) && n == Value(v.s))) && 100 <= n <= 599
  }

  ghost predicate HttpError(items: seq<Json>) {
    exists v, n :: HttpValue(items, v) && HttpStatus(v, n) && n >= 500
  }

  ghost predicate ErrorAttribute(items: seq<Json>) {
    exists i :: 0 <= i < |items| && Carries(items[i], ERROR, Bool(true))
  }

  const WANTED := {ERROR, HTTP, MODERN}

  /** All error attributes say the same, so the last one decides. */
  lemma FlagIff(items: seq<Json>, found: Tags)
    requires Found(Carries, items, WANTED, found) && Agreeing(Carries, items, WANTED)
    ensures ERROR in found ==> found[ERROR].Bool?
    ensures ERROR in found && found[ERROR] == Bool(true) <==> ErrorAttribute(items)
  {
    hide Carries, Found, Agreeing;
    if ERROR in found {
      var n := FoundAt(Carries, items, WANTED, found, ERROR);
      FlagCarried(items[n], found[ERROR]);
    }
    if i :| 0 <= i < |items| && Carries(items[i], ERROR, Bool(true)) {
      AgreesWithFound(Carries, items, WANTED, found, ERROR, i, Bool(true));
    }
  }

  lemma FlagCarried(item: Json, v: Json)
    requires Carries(item, ERROR, v)
    ensures v.Bool?
  {
  }

  lemma HttpIff(items: seq<Json>, found: Tags, v: Json)
    requires Found(Carries, items, WANTED, found) && v != Null
    ensures Get(found, MODERN, Get(found, HTTP, Null)) == v <==> HttpValue(items, v)
  {
    CarriesIsFunctional();
    hide Found, Last, Mentions;
    TagNames();
    FoundIff(Carries, items, WANTED, found, MODERN, v);
    FoundIff(Carries, items, WANTED, found, HTTP, v);
  }

  /** No HTTP status is given, or it is null. */
  ghost predicate HttpSilent(items: seq<Json>) {
    forall v :: HttpValue(items, v) ==> v == Null
  }

  lemma HttpSilentIff(items: seq<Json>, found: Tags)
    requires Found(Carries, items, WANTED, found)
    ensures Get(found, MODERN, Get(found, HTTP, Null)) == Null <==> HttpSilent(items)
  {
    hide Found, HttpValue;
    var v := Get(found, MODERN, Get(found, HTTP, Null));
    if v != Null {
      HttpIff(items, found, v);
    } else {
      forall w | HttpValue(items, w)
        ensures w == Null
      {
        if w != Null {
          HttpIff(items, found, w);
        }
      }
    }
  }

  lemma HttpOnce(items: seq<Json>, v: Json, w: Json)
    requires HttpValue(items, v) && HttpValue(items, w)
    ensures v == w
  {
    CarriesIsFunctional();
    if Last(Carries, items, MODERN, v) {
      LastMentions(Carries, items, MODERN, v);
      LastOnce(Carries, items, MODERN, v, w);
    } else {
      if Last(Carries, items, MODERN, w) {
        LastMentions(Carries, items, MODERN, w);
      }
      LastOnce(Carries, items, HTTP, v, w);
    }
  }

  /** An HTTP status is missing, null or in range. */
  ghost predicate HttpFine(items: seq<Json>) {
    HttpSilent(items) || exists v, n :: HttpValue(items, v) && HttpStatus(v, n)
  }

  lemma ErrorIff(items: seq<Json>, found: Tags, status: bool, error: bool)
    requires Found(Carries, items, WANTED, found) && Agreeing(Carries, items, WANTED)
    ensures ReadError(status, found) == Ok(error)
            <==> HttpFine(items) && (error <==> status || ErrorAttribute(items) || HttpError(items))
  {
    FlagIff(items, found);
    HttpSilentIff(items, found);
    var http := Get(found, MODERN, Get(found, HTTP, Null));
    hide Found, Agreeing, ErrorAttribute, HttpValue;
    if http != Null {
      HttpIff(items, found, http);
      forall v, n | HttpValue(items, v) && HttpStatus(v, n)
        ensures v == http && StatusNumber(http) == Some(n)
      {
        HttpOnce(items, v, http);
      }
      if StatusNumber(http).Some? && 100 <= StatusNumber(http).value <= 599 {
        assert HttpStatus(http, StatusNumber(http).value);
      }
    } else {
      assert !HttpError(items) by {
        if v, n :| HttpValue(items, v) && HttpStatus(v, n) && n >= 500 {
          assert v == Null;
        }
      }
    }
  }

  // ----- a whole span -----

  ghost predicate IsError(status: Json, items: seq<Json>) {
    StatusError(status) || ErrorAttribute(items) || HttpError(items)
  }

  /** Everything about the span that is checked but not kept. */
  ghost predicate Acceptable(f: map<string, Json>, start: int, end: int) {
    var status, attributes := Get(f, "status", Obj(map[])), Get(f, "attributes", Arr([]));
    && Writes(Get(f, "startTimeUnixNano", Null), start) && Writes(Get(f, "endTimeUnixNano", Null), end)
    && 0 <= start <= end < TWO_TO_64
    && status.Obj? && (StatusError(Get(status.fields, "code", Int(0))) || StatusFine(Get(status.fields, "code", Int(0))))
    && attributes.Arr? && AllWellFormed(attributes.items, WANTED) && Agreeing(Carries, attributes.items, WANTED) && HttpFine(attributes.items)
  }

  /** The span c is what these fields say. Its times are the whole microseconds of the given nanoseconds. */
  ghost predicate Says(service: string, f: map<string, Json>, c: CSpan, start: int, end: int, kind: string, error: bool) {
    && Identifies(Get(f, "traceId", Null), 32, c.trace) && Identifies(Get(f, "spanId", Null), 16, c.id)
    && IsParent(Get(f, "parentSpanId", Null), c.parent) && c.service == service
    && Acceptable(f, start, end)
    && c.start * 1000 <= start < (c.start + 1) * 1000
    && c.duration * 1000 <= end - start < (c.duration + 1) * 1000
    && IsKind(Get(f, "kind", Int(0)), kind)
    && (error <==> IsError(Get(Get(f, "status", Obj(map[])).fields, "code", Int(0)), Get(f, "attributes", Arr([])).items))
    && c.tags == map["span.kind" := Str(kind), "error" := Bool(error)]
  }

  ghost predicate Means(service: string, span: Json, c: CSpan) {
    span.Obj? && exists start, end, kind, error :: Says(service, span.fields, c, start, end, kind, error)
  }

  /** The nanoseconds that a JSON value writes are one number. */
  lemma WritesOnce(j: Json, m: int, n: int)
    requires Writes(j, m) && Writes(j, n)
    ensures m == n
  {
  }

  lemma Divided(x: int, d: int)
    requires x >= 0
    ensures x / 1000 == d <==> d * 1000 <= x < (d + 1) * 1000
  {
  }

  /** What is read from the fields one by one. */
  ghost predicate Read(service: string, f: map<string, Json>, c: CSpan, start: nat, end: nat, kind: string, status: bool,
                       found: Tags, error: bool) {
    && ReadId(Get(f, "traceId", Null), 32) == Ok(c.trace) && ReadId(Get(f, "spanId", Null), 16) == Ok(c.id)
    && ReadParent(Get(f, "parentSpanId", Null)) == Ok(c.parent) && c.service == service
    && ReadUint(Get(f, "startTimeUnixNano", Null)) == Ok(start) && ReadUint(Get(f, "endTimeUnixNano", Null)) == Ok(end)
    && start <= end && c.start == start / 1000 && c.duration == (end - start) / 1000
    && ReadKind(Get(f, "kind", Int(0))) == Ok(kind) && ReadStatus(Get(f, "status", Obj(map[]))) == Ok(status)
    && Attributes(Get(f, "attributes", Arr([])), WANTED) == Ok(found) && ReadError(status, found) == Ok(error)
    && c.tags == SpanTags(kind, error)
  }

  lemma ConvertReads(service: string, span: Json, c: CSpan)
    ensures Convert(service, span) == Ok(c)
            <==> span.Obj? && exists start: nat, end: nat, kind, status, found, error ::
                                Read(service, span.fields, c, start, end, kind, status, found, error)
  {
    hide ReadId, ReadParent, ReadUint, ReadKind, ReadStatus, Attributes, ReadError, SpanTags;
    if Convert(service, span) == Ok(c) {
      var f := span.fields;
      var kind, status := ReadKind(Get(f, "kind", Int(0))).value, ReadStatus(Get(f, "status", Obj(map[]))).value;
      var found := Attributes(Get(f, "attributes", Arr([])), WANTED).value;
      assert Read(service, f, c, ReadUint(Get(f, "startTimeUnixNano", Null)).value, ReadUint(Get(f, "endTimeUnixNano", Null)).value,
                  kind, status, found, ReadError(status, found).value);
    }
  }

  lemma ReadSays(service: string, f: map<string, Json>, c: CSpan, start: nat, end: nat, kind: string, status: bool,
                 found: Tags, error: bool)
    requires Read(service, f, c, start, end, kind, status, found, error)
    ensures Says(service, f, c, start, end, kind, error)
  {
    hide ReadId, ReadParent, ReadUint, ReadKind, ReadStatus, ReadAttributes, ReadError, Writes, Identifies, IsParent, IsKind;
    hide AllWellFormed, Agreeing, HttpFine, ErrorAttribute, HttpError, Found;
    IdIff(Get(f, "traceId", Null), 32, c.trace);
    IdIff(Get(f, "spanId", Null), 16, c.id);
    ParentIff(Get(f, "parentSpanId", Null), c.parent);
    UintIff(Get(f, "startTimeUnixNano", Null), start);
    UintIff(Get(f, "endTimeUnixNano", Null), end);
    KindIff(Get(f, "kind", Int(0)), kind);
    StatusIff(Get(f, "status", Obj(map[])), status);
    var items := Get(f, "attributes", Arr([])).items;
    AttributesIff(items, WANTED);
    ErrorIff(items, found, status, error);
    Divided(start, c.start);
    Divided(end - start, c.duration);
  }

  lemma SaysRead(service: string, f: map<string, Json>, c: CSpan, start: int, end: int, kind: string, error: bool)
    requires Says(service, f, c, start, end, kind, error)
    ensures exists s: nat, e: nat, kind', status, found, error' :: Read(service, f, c, s, e, kind', status, found, error')
  {
    hide ReadId, ReadParent, ReadUint, ReadKind, ReadStatus, ReadAttributes, ReadError, Writes, Identifies, IsParent, IsKind;
    hide AllWellFormed, Agreeing, HttpFine, ErrorAttribute, HttpError, Found;
    var code := Get(Get(f, "status", Obj(map[])).fields, "code", Int(0));
    var items := Get(f, "attributes", Arr([])).items;
    IdIff(Get(f, "traceId", Null), 32, c.trace);
    IdIff(Get(f, "spanId", Null), 16, c.id);
    ParentIff(Get(f, "parentSpanId", Null), c.parent);
    UintIff(Get(f, "startTimeUnixNano", Null), start);
    UintIff(Get(f, "endTimeUnixNano", Null), end);
    KindIff(Get(f, "kind", Int(0)), kind);
    StatusIff(Get(f, "status", Obj(map[])), StatusError(code));
    AttributesIff(items, WANTED);
    var found := ReadAttributes(items, WANTED).value;
    ErrorIff(items, found, StatusError(code), error);
    Divided(start, c.start);
    Divided(end - start, c.duration);
    assert Read(service, f, c, start, end, kind, StatusError(code), found, error);
  }

  /** Exactly which JSON spans convert, and to what: identifiers in lower case, the listed kinds, whole microseconds of the
      given nanoseconds, and an error flag that is set by an error status, an error attribute or an HTTP status of 500 and
      above. */
  lemma ConvertIff(service: string, span: Json, c: CSpan)
    ensures Convert(service, span) == Ok(c) <==> Means(service, span, c)
  {
    hide Convert, Says, Read;
    ConvertReads(service, span, c);
    if Convert(service, span) == Ok(c) {
      var start: nat, end: nat, kind, status, found, error :| Read(service, span.fields, c, start, end, kind, status, found, error);
      ReadSays(service, span.fields, c, start, end, kind, status, found, error);
    }
    if Means(service, span, c) {
      var start, end, kind, error :| Says(service, span.fields, c, start, end, kind, error);
      SaysRead(service, span.fields, c, start, end, kind, error);
    }
  }

  // ----- a whole payload -----

  const NAMES := {"service.name"}

  /** The group's resource names this service, in at most 512 characters that are not all white space. */
  ghost predicate Serves(group: map<string, Json>, service: string) {
    var resource := Get(group, "resource", Obj(map[]));
    && resource.Obj?
    && var attributes := Get(resource.fields, "attributes", Arr([]));
    && attributes.Arr? && AllWellFormed(attributes.items, NAMES) && Agreeing(Carries, attributes.items, NAMES)
    && Last(Carries, attributes.items, "service.name", Str(service))
    && |service| <= 512 && exists i :: 0 <= i < |service| && !Space(service[i])
  }

  lemma GroupServiceIff(group: map<string, Json>, service: string)
    ensures GroupService(group) == Ok(service) <==> Serves(group, service)
  {
    hide Found, Agreeing, Carries, ReadAttributes, AllWellFormed, Functional, Last, Mentions;
    var resource := Get(group, "resource", Obj(map[]));
    if resource.Obj? && Get(resource.fields, "attributes", Arr([])).Arr? {
      var items := Get(resource.fields, "attributes", Arr([])).items;
      AttributesIff(items, NAMES);
      CarriesIsFunctional();
      if ReadAttributes(items, NAMES).Ok? {
        FoundIff(Carries, items, NAMES, ReadAttributes(items, NAMES).value, "service.name", Str(service));
      }
    }
  }

  /** The envelope holds exactly a result, and that holds these groups, or nothing at all. */
  ghost predicate Wraps(envelope: Json, groups: seq<Json>) {
    exists result :: envelope == Obj(map["result" := Obj(result)])
                     && if result == map[] then groups == []
                        else "resourceSpans" in result && result["resourceSpans"] == Arr(groups)
  }

  lemma EnvelopeIff(envelope: Json, groups: seq<Json>)
    ensures EnvelopeGroups(envelope) == Ok(groups) <==> Wraps(envelope, groups)
  {
    if envelope.Obj? && envelope.fields.Keys == {"result"} && envelope.fields["result"].Obj? {
      var result := envelope.fields["result"].fields;
      assert envelope.fields == map["result" := Obj(result)];
      forall other | envelope == Obj(map["result" := Obj(other)])
        ensures other == result
      {
        assert map["result" := Obj(other)]["result"] == Obj(other);
      }
    }
  }

  /** The payload has this span, in a resource group of this service. */
  ghost predicate Sends(lines: seq<Line>, service: string, span: Json) {
    exists line, groups, group, scope ::
      && line in lines && line.Envelope? && Wraps(line.value, groups) && group in groups
      && SendsIn(group, service, scope, span)
  }

  ghost predicate SendsIn(group: Json, service: string, scope: Json, span: Json) {
    && group.Obj? && Serves(group.fields, service)
    && Get(group.fields, "scopeSpans", Arr([])).Arr? && scope in Get(group.fields, "scopeSpans", Arr([])).items
    && scope.Obj? && Get(scope.fields, "spans", Arr([])).Arr? && span in Get(scope.fields, "spans", Arr([])).items
  }

  lemma ScopeHas(service: string, scope: Json, c: CSpan)
    ensures Put(c) in ScopeOps(service, scope)
            <==> scope.Obj? && Get(scope.fields, "spans", Arr([])).Arr?
                 && exists span :: span in Get(scope.fields, "spans", Arr([])).items && Convert(service, span) == Ok(c)
  {
    hide Convert;
    var ops := ScopeOps(service, scope);
    if scope.Obj? && Get(scope.fields, "spans", Arr([])).Arr? {
      var spans := Get(scope.fields, "spans", Arr([])).items;
      if Put(c) in ops {
        var i :| 0 <= i < |ops| && ops[i] == Put(c);
        assert spans[i] in spans && Convert(service, spans[i]) == Ok(c);
      }
      if span :| span in spans && Convert(service, span) == Ok(c) {
        var i :| 0 <= i < |spans| && spans[i] == span;
        assert ops[i] == Put(c);
      }
    }
  }

  lemma {:induction false} ScopesHave(service: string, scopes: seq<Json>, c: CSpan)
    ensures Put(c) in ScopesOps(service, scopes) <==> exists scope :: scope in scopes && Put(c) in ScopeOps(service, scope)
  {
    if scopes != [] {
      hide ScopeOps;
      ScopesHave(service, scopes[1..], c);
      assert scopes == [scopes[0]] + scopes[1..];
    }
  }

  lemma {:induction false} GroupsHave(groups: seq<Json>, c: CSpan)
    ensures Put(c) in GroupsOps(groups) <==> exists group :: group in groups && Put(c) in GroupOps(group)
  {
    if groups != [] {
      hide GroupOps;
      GroupsHave(groups[1..], c);
      assert groups == [groups[0]] + groups[1..];
    }
  }

  lemma {:induction false} LinesHave(lines: seq<Line>, c: CSpan)
    ensures Put(c) in LinesOps(lines) <==> exists line :: line in lines && Put(c) in LineOps(line)
  {
    if lines != [] {
      hide LineOps;
      LinesHave(lines[1..], c);
      assert lines == [lines[0]] + lines[1..];
    }
  }

  lemma GroupHas(group: Json, c: CSpan)
    ensures Put(c) in GroupOps(group)
            <==> exists service, scope, span :: SendsIn(group, service, scope, span) && Convert(service, span) == Ok(c)
  {
    hide ScopeOps, ScopesOps, Convert, GroupService, Serves;
    if group.Obj? {
      forall service { GroupServiceIff(group.fields, service); }
    }
    if group.Obj? && GroupService(group.fields).Ok? && Get(group.fields, "scopeSpans", Arr([])).Arr? {
      var service, scopes := GroupService(group.fields).value, Get(group.fields, "scopeSpans", Arr([])).items;
      ScopesHave(service, scopes, c);
      forall scope { ScopeHas(service, scope, c); }
      if Put(c) in GroupOps(group) {
        var scope :| scope in scopes && Put(c) in ScopeOps(service, scope);
        var span :| span in Get(scope.fields, "spans", Arr([])).items && Convert(service, span) == Ok(c);
        assert SendsIn(group, service, scope, span);
      }
    }
  }

  /** The spans a payload asks to store are exactly those that its spans mean: none is skipped and none is made up. */
  lemma PayloadPuts(lines: seq<Line>, c: CSpan)
    ensures c in Puts(LinesOps(lines)) <==> exists service, span :: Sends(lines, service, span) && Means(service, span, c)
  {
    hide Convert, Means, SendsIn, GroupOps, EnvelopeGroups, Wraps;
    LinesHave(lines, c);
    forall envelope, groups { EnvelopeIff(envelope, groups); }
    forall service, span { ConvertIff(service, span, c); }
    forall group { GroupHas(group, c); }
    if Put(c) in LinesOps(lines) {
      var line :| line in lines && Put(c) in LineOps(line);
      var groups := EnvelopeGroups(line.value).value;
      GroupsHave(groups, c);
      var group :| group in groups && Put(c) in GroupOps(group);
      var service, scope, span :| SendsIn(group, service, scope, span) && Convert(service, span) == Ok(c);
      assert Sends(lines, service, span) && Means(service, span, c);
    }
    if service, span :| Sends(lines, service, span) && Means(service, span, c) {
      var line, groups, group, scope :| line in lines && line.Envelope? && Wraps(line.value, groups)
                                        && group in groups && SendsIn(group, service, scope, span);
      GroupsHave(groups, c);
      assert Put(c) in GroupOps(group);
      assert Put(c) in LineOps(line);
    }
  }

  // ----- which payloads are read at all -----

  ghost predicate ScopeReads(service: string, scope: Json) {
    && scope.Obj? && Get(scope.fields, "spans", Arr([])).Arr?
    && forall span :: span in Get(scope.fields, "spans", Arr([])).items ==> exists c :: Means(service, span, c)
  }

  ghost predicate GroupReads(group: Json) {
    && group.Obj? && Get(group.fields, "scopeSpans", Arr([])).Arr?
    && exists service :: Serves(group.fields, service)
         && forall scope :: scope in Get(group.fields, "scopeSpans", Arr([])).items ==> ScopeReads(service, scope)
  }

  ghost predicate LineReads(line: Line) {
    match line
    case BlankLine => true
    case Unparsable(_) => false
    case Envelope(value) =>
      exists groups :: Wraps(value, groups) && forall group :: group in groups ==> GroupReads(group)
  }

  lemma ScopeBad(service: string, scope: Json)
    ensures NoBad(ScopeOps(service, scope)) <==> ScopeReads(service, scope)
  {
    hide Convert, Means;
    var ops := ScopeOps(service, scope);
    if scope.Obj? && Get(scope.fields, "spans", Arr([])).Arr? {
      var spans := Get(scope.fields, "spans", Arr([])).items;
      forall span, c { ConvertIff(service, span, c); }
      forall i | 0 <= i < |spans|
        ensures ops[i].Bad? <==> !exists c :: Means(service, spans[i], c)
      {
        assert ops[i] == OtlpConversion.SpanOp(service, spans[i]);
        if Convert(service, spans[i]).Ok? {
          assert Means(service, spans[i], Convert(service, spans[i]).value);
        }
      }
      if NoBad(ops) {
        forall span | span in spans
          ensures exists c :: Means(service, span, c)
        {
          var i :| 0 <= i < |spans| && spans[i] == span;
          assert ops[i] in ops;
        }
      }
      if ScopeReads(service, scope) {
        forall o | o in ops
          ensures !o.Bad?
        {
          var i :| 0 <= i < |ops| && ops[i] == o;
          assert spans[i] in spans;
        }
      }
    } else {
      assert ops[0].Bad?;
    }
  }

  lemma NoBadAppend(a: seq<Op>, b: seq<Op>)
    ensures NoBad(a + b) <==> NoBad(a) && NoBad(b)
  {
    assert forall o :: o in a + b <==> o in a || o in b;
  }

  lemma {:induction false} ScopesBad(service: string, scopes: seq<Json>)
    ensures NoBad(ScopesOps(service, scopes)) <==> forall scope :: scope in scopes ==> ScopeReads(service, scope)
  {
    if scopes != [] {
      hide ScopeOps, ScopeReads, NoBad;
      ScopesBad(service, scopes[1..]);
      ScopeBad(service, scopes[0]);
      NoBadAppend(ScopeOps(service, scopes[0]), ScopesOps(service, scopes[1..]));
      assert scopes == [scopes[0]] + scopes[1..];
    }
  }

  lemma GroupBad(group: Json)
    ensures NoBad(GroupOps(group)) <==> GroupReads(group)
  {
    hide ScopesOps, GroupService, Serves, ScopeReads;
    if group.Obj? {
      forall service { GroupServiceIff(group.fields, service); }
      var scopes := Get(group.fields, "scopeSpans", Arr([]));
      if GroupService(group.fields).Ok? && scopes.Arr? {
        ScopesBad(GroupService(group.fields).value, scopes.items);
      } else {
        assert GroupOps(group)[0].Bad?;
      }
    } else {
      assert GroupOps(group)[0].Bad?;
    }
  }

  lemma {:induction false} GroupsBad(groups: seq<Json>)
    ensures NoBad(GroupsOps(groups)) <==> forall group :: group in groups ==> GroupReads(group)
  {
    if groups != [] {
      hide GroupOps, GroupReads, NoBad;
      GroupsBad(groups[1..]);
      GroupBad(groups[0]);
      NoBadAppend(GroupOps(groups[0]), GroupsOps(groups[1..]));
      assert groups == [groups[0]] + groups[1..];
    }
  }

  lemma LineBad(line: Line)
    ensures NoBad(LineOps(line)) <==> LineReads(line)
  {
    hide GroupsOps, EnvelopeGroups, Wraps, GroupReads;
    match line
    case BlankLine =>
    case Unparsable(code) => assert LineOps(line)[0].Bad?;
    case Envelope(value) =>
      forall groups { EnvelopeIff(value, groups); }
      if EnvelopeGroups(value).Ok? {
        GroupsBad(EnvelopeGroups(value).value);
      } else {
        assert LineOps(line)[0].Bad?;
      }
  }

  /** A payload meets no malformed value exactly when each of its lines is blank or wraps groups of named services whose
      spans all mean something. */
  lemma {:induction false} PayloadReads(lines: seq<Line>)
    ensures NoBad(LinesOps(lines)) <==> forall line :: line in lines ==> LineReads(line)
  {
    if lines != [] {
      hide LineOps, LineReads, NoBad;
      PayloadReads(lines[1..]);
      LineBad(lines[0]);
      NoBadAppend(LineOps(lines[0]), LinesOps(lines[1..]));
      assert lines == [lines[0]] + lines[1..];
    }
  }
}
