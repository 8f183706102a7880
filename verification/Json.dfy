/** JSON payloads, as far as the verifier looks into them. */
module Json {
  import opened Wrappers

  datatype Json =
    | Null
    | Bool(b: bool)
    | Num(n: real)
    | Str(s: string)
    | Arr(items: seq<Json>)
    | Obj(fields: map<string, Json>)

  /** json.dumps and json.loads; loads fails on malformed text. */
  datatype JsonCodec = JsonCodec(dumps: Json -> string, loads: string -> Option<Json>)

  /** Python compares True with 1 and False with 0. */
  function Norm(j: Json): Json {
    match j
    case Bool(b) => Num(if b then 1.0 else 0.0)
    case Arr(items) => Arr(seq(|items|, i requires 0 <= i < |items| => Norm(items[i])))
    case Obj(fields) => Obj(map k | k in fields :: Norm(fields[k]))
    case _ => j
  }

  predicate PyEq(a: Json, b: Json) {
    Norm(a) == Norm(b)
  }

  predicate Truthy(j: Json) {
    match j
    case Null => false
    case Bool(b) => b
    case Num(n) => n != 0.0
    case Str(s) => s != ""
    case Arr(items) => items != []
    case Obj(fields) => fields != map[]
  }

  /** dict.get: a missing key reads as null. */
  function Get(j: Json, key: string): Json
    requires j.Obj?
  {
    if key in j.fields then j.fields[key] else Null
  }

  function Int(n: int): Json {
    Num(n as real)
  }

  // ---------------------------------------------------------------------- what is equal

  predicate BoolFree(j: Json) {
    match j
    case Bool(_) => false
    case Arr(items) => forall i | 0 <= i < |items| :: BoolFree(items[i])
    case Obj(fields) => forall k | k in fields :: BoolFree(fields[k])
    case _ => true
  }

  lemma {:induction false} NormOfBoolFree(j: Json)
    requires BoolFree(j)
    ensures Norm(j) == j
  {
    match j
    case Arr(items) =>
      forall i | 0 <= i < |items| ensures Norm(items[i]) == items[i] { NormOfBoolFree(items[i]); }
      assert Norm(j).items == items;
    case Obj(fields) =>
      forall k | k in fields ensures Norm(fields[k]) == fields[k] { NormOfBoolFree(fields[k]); }
      assert Norm(j).fields == fields;
    case _ =>
  }

  /** Without booleans Python equality is equality. */
  lemma PyEqIsEquality(a: Json, b: Json)
    requires BoolFree(a) && BoolFree(b)
    ensures PyEq(a, b) <==> a == b
  {
    NormOfBoolFree(a);
    NormOfBoolFree(b);
  }

  /** A boolean equals itself and the number 1 or 0; nothing else crosses kinds. */
  lemma PyEqOfAtoms(a: Json, b: Json)
    ensures a.Null? ==> (PyEq(a, b) <==> b == Null)
    ensures a.Str? ==> (PyEq(a, b) <==> b == a)
    ensures a.Bool? ==> (PyEq(a, b) <==> b == a || b == Num(if a.b then 1.0 else 0.0))
    ensures a.Num? ==> (PyEq(a, b) <==> b == a || (b.Bool? && a.n == if b.b then 1.0 else 0.0))
  {
  }

  lemma PyEqOfArrays(a: Json, b: Json)
    requires a.Arr?
    ensures PyEq(a, b) <==>
              b.Arr? && |a.items| == |b.items| && forall i | 0 <= i < |a.items| :: PyEq(a.items[i], b.items[i])
  {
    if b.Arr? {
      var x, y := Norm(a).items, Norm(b).items;
      assert |x| == |a.items| && |y| == |b.items|;
      assert forall i | 0 <= i < |a.items| :: x[i] == Norm(a.items[i]);
      assert forall i | 0 <= i < |b.items| :: y[i] == Norm(b.items[i]);
      if |x| == |y| && forall i | 0 <= i < |a.items| :: PyEq(a.items[i], b.items[i]) { assert x == y; }
    }
  }

  lemma PyEqOfObjects(a: Json, b: Json)
    requires a.Obj?
    ensures PyEq(a, b) <==>
              b.Obj? && a.fields.Keys == b.fields.Keys && forall k | k in a.fields :: PyEq(a.fields[k], b.fields[k])
  {
    if b.Obj? {
      var x, y := Norm(a).fields, Norm(b).fields;
      assert x.Keys == a.fields.Keys && y.Keys == b.fields.Keys;
      assert forall k | k in a.fields :: x[k] == Norm(a.fields[k]);
      assert forall k | k in b.fields :: y[k] == Norm(b.fields[k]);
      if x.Keys == y.Keys && forall k | k in a.fields :: PyEq(a.fields[k], b.fields[k]) { assert x == y; }
    }
  }

  /** The values Python counts as false. */
  lemma TruthyMeans(j: Json)
    ensures !Truthy(j) <==> j in {Null, Bool(false), Num(0.0), Str(""), Arr([]), Obj(map[])}
  {
  }
}
