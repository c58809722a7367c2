/** JSON values as Python holds them after parsing, and Python's notion of equality on them. */
module Json {
  import opened Prelude

  datatype Json =
    | Null
    | Bool(b: bool)
    | Int(i: int)
    | Float(f: real)
    | Str(s: string)
    | Arr(items: seq<Json>)
    | Obj(fields: map<string, Json>)

  /** Forgets how a number was written: True, 1 and 1.0 are one value to Python's `==`. */
  function Plain(j: Json): Json {
    match j
    case Bool(b) => Int(if b then 1 else 0)
    case Float(f) => if f == f.Floor as real then Int(f.Floor) else j
    case Arr(items) => Arr(seq(|items|, i requires 0 <= i < |items| => Plain(items[i])))
    case Obj(fields) => Obj(map k | k in fields :: Plain(fields[k]))
    case _ => j
  }

  predicate PyEq(a: Json, b: Json) {
    Plain(a) == Plain(b)
  }

  predicate Numeric(j: Json) {
    j.Bool? || j.Int? || j.Float?
  }

  function Number(j: Json): real
    requires Numeric(j)
  {
    match j
    case Bool(b) => if b then 1.0 else 0.0
    case Int(i) => i as real
    case Float(f) => f
  }

  /** Python's equality: numbers, True and False among them, by their value, lists element by element, objects key by key,
      and everything else only with itself. */
  lemma PyEqIff(a: Json, b: Json)
    ensures PyEq(a, b)
            <==> if Numeric(a) || Numeric(b) then Numeric(a) && Numeric(b) && Number(a) == Number(b)
                 else match (a, b)
                   case (Arr(s), Arr(t)) => |s| == |t| && forall i :: 0 <= i < |s| ==> PyEq(s[i], t[i])
                   case (Obj(f), Obj(g)) => f.Keys == g.Keys && forall k :: k in f ==> PyEq(f[k], g[k])
                   case (_, _) => a == b
  {
    if a.Obj? && b.Obj? {
      var f, g := Plain(a).fields, Plain(b).fields;
      assert f.Keys == a.fields.Keys && g.Keys == b.fields.Keys;
      if f.Keys == g.Keys && forall k :: k in a.fields ==> PyEq(a.fields[k], b.fields[k]) {
        assert f == g;
      }
      if f == g {
        forall k | k in a.fields
          ensures PyEq(a.fields[k], b.fields[k])
        {
          assert f[k] == g[k];
        }
      }
    }
    if a.Arr? && b.Arr? {
      var s, t := Plain(a).items, Plain(b).items;
      if s == t {
        forall i | 0 <= i < |a.items|
          ensures PyEq(a.items[i], b.items[i])
        {
          assert s[i] == t[i];
        }
      }
    }
  }

  function Get(j: map<string, Json>, key: string, default: Json): Json {
    if key in j then j[key] else default
  }

  /** Values that cannot be a dictionary key or set member. */
  predicate Unhashable(j: Json) {
    j.Arr? || j.Obj?
  }
}
