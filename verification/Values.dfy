/** Plain data values: what a contract record may hold and what a JSON document may hold.
    Floats are kept as a fraction `num / den`, so there are as many values as documents. */
module Values {

  /** `VRewritten` is any value that the conversion of fields replaces by another one: an enum member, a record, a
      mapping with keys that are not text. `VOpaque` is one it leaves alone and JSON refuses, such as a set. */
  datatype Value =
    | VNull
    | VBool(b: bool)
    | VInt(i: int)
    | VFloat(num: int, den: nat)
    | VStr(s: string)
    | VList(xs: seq<Value>)
    | VTuple(ts: seq<Value>)
    | VMap(m: map<string, Value>)
    | VRewritten(replacement: Value)
    | VOpaque(repr: string)

  /** A value that conversion has nothing to do on. */
  predicate IsPlain(v: Value) {
    match v
    case VList(xs) => forall i | 0 <= i < |xs| :: IsPlain(xs[i])
    case VTuple(_) => false
    case VMap(m) => forall k | k in m :: IsPlain(m[k])
    case VRewritten(_) => false
    case _ => true
  }

  predicate PlainMap(m: map<string, Value>) {
    forall k | k in m :: IsPlain(m[k])
  }

  /** A value whose conversion `json.dumps` writes. */
  predicate IsSerialisable(v: Value) {
    match v
    case VList(xs) => forall i | 0 <= i < |xs| :: IsSerialisable(xs[i])
    case VTuple(ts) => forall i | 0 <= i < |ts| :: IsSerialisable(ts[i])
    case VMap(m) => forall k | k in m :: IsSerialisable(m[k])
    case VRewritten(w) => IsSerialisable(w)
    case VOpaque(_) => false
    case _ => true
  }

  predicate SerialisableMap(m: map<string, Value>) {
    forall k | k in m :: IsSerialisable(m[k])
  }

  /** Members that a JSON document can hold as they are. */
  predicate JsonMap(m: map<string, Value>) {
    PlainMap(m) && SerialisableMap(m)
  }

  /** Conversion of a field to plain data: tuples become lists, recursively. */
  function Primitive(v: Value): (r: Value)
    decreases v
  {
    match v
    case VList(xs) => VList(seq(|xs|, i requires 0 <= i < |xs| => Primitive(xs[i])))
    case VTuple(ts) => VList(seq(|ts|, i requires 0 <= i < |ts| => Primitive(ts[i])))
    case VMap(m) => VMap(map k | k in m :: Primitive(m[k]))
    case VRewritten(w) => Primitive(w)
    case _ => v
  }

  function PrimitiveMap(m: map<string, Value>): (r: map<string, Value>)
    ensures VMap(r) == Primitive(VMap(m))
  {
    map k | k in m :: Primitive(m[k])
  }

  /** Conversion gives a plain value, and one that JSON refuses exactly when it refused the original. */
  lemma {:induction false} PrimitiveIsPlain(v: Value)
    ensures IsPlain(Primitive(v))
    ensures IsSerialisable(Primitive(v)) <==> IsSerialisable(v)
  {
    match v
    case VList(xs) =>
      PrimitivesArePlain(xs);
      var ys := Primitive(v).xs;
      assert forall i | 0 <= i < |xs| :: ys[i] == Primitive(xs[i]);
    case VTuple(ts) =>
      PrimitivesArePlain(ts);
      var ys := Primitive(v).xs;
      assert forall i | 0 <= i < |ts| :: ys[i] == Primitive(ts[i]);
    case VMap(m) =>
      forall k | k in m
        ensures IsPlain(Primitive(m[k])) && (IsSerialisable(Primitive(m[k])) <==> IsSerialisable(m[k]))
      {
        PrimitiveIsPlain(m[k]);
      }
      var n := Primitive(v).m;
      assert n.Keys == m.Keys && forall k | k in m :: n[k] == Primitive(m[k]);
    case VRewritten(w) => PrimitiveIsPlain(w);
    case _ =>
  }

  lemma {:induction false} PrimitivesArePlain(xs: seq<Value>)
    ensures forall i | 0 <= i < |xs| ::
              IsPlain(Primitive(xs[i])) && (IsSerialisable(Primitive(xs[i])) <==> IsSerialisable(xs[i]))
  {
    forall i | 0 <= i < |xs|
      ensures IsPlain(Primitive(xs[i])) && (IsSerialisable(Primitive(xs[i])) <==> IsSerialisable(xs[i]))
    {
      PrimitiveIsPlain(xs[i]);
    }
  }

  /** Conversion keeps exactly the values that are plain already. */
  lemma {:induction false} PrimitiveKeepsExactlyPlain(v: Value)
    ensures Primitive(v) == v <==> IsPlain(v)
  {
    match v
    case VList(xs) =>
      forall i | 0 <= i < |xs| ensures Primitive(xs[i]) == xs[i] <==> IsPlain(xs[i]) {
        PrimitiveKeepsExactlyPlain(xs[i]);
      }
      if Primitive(v) == v {
        forall i | 0 <= i < |xs| ensures IsPlain(xs[i]) { assert Primitive(v).xs[i] == Primitive(xs[i]); }
      }
    case VTuple(_) =>
    case VMap(m) =>
      forall k | k in m ensures Primitive(m[k]) == m[k] <==> IsPlain(m[k]) {
        PrimitiveKeepsExactlyPlain(m[k]);
      }
      if Primitive(v) == v {
        forall k | k in m ensures IsPlain(m[k]) { assert Primitive(v).m[k] == Primitive(m[k]); }
      }
    case VRewritten(w) => PrimitiveIsPlain(w);
    case _ =>
  }

  /** `w` is the JSON form of `v`: lists for lists and tuples, element by element in their order, mappings member by
      member, the stand-in for what is rewritten, and everything else as it is. */
  predicate IsFormOf(w: Value, v: Value)
    decreases v
  {
    match v
    case VList(xs) => w.VList? && |w.xs| == |xs| && forall i | 0 <= i < |xs| :: IsFormOf(w.xs[i], xs[i])
    case VTuple(ts) => w.VList? && |w.xs| == |ts| && forall i | 0 <= i < |ts| :: IsFormOf(w.xs[i], ts[i])
    case VMap(m) => w.VMap? && w.m.Keys == m.Keys && forall k | k in m :: IsFormOf(w.m[k], m[k])
    case VRewritten(u) => IsFormOf(w, u)
    case _ => w == v
  }

  /** Conversion gives the one value that is the form of `v`. */
  lemma {:induction false} PrimitiveIsTheForm(v: Value, w: Value)
    ensures w == Primitive(v) <==> IsFormOf(w, v)
    decreases v
  {
    match v
    case VList(xs) =>
      if w.VList? && |w.xs| == |xs| { ElementsAreForms(xs, w.xs); }
    case VTuple(ts) =>
      if w.VList? && |w.xs| == |ts| { ElementsAreForms(ts, w.xs); }
    case VMap(m) =>
      if w.VMap? && w.m.Keys == m.Keys {
        forall k | k in m ensures w.m[k] == Primitive(m[k]) <==> IsFormOf(w.m[k], m[k]) {
          PrimitiveIsTheForm(m[k], w.m[k]);
        }
        assert w == Primitive(v) <==> forall k | k in m :: w.m[k] == Primitive(m[k]) by {
          if forall k | k in m :: w.m[k] == Primitive(m[k]) { assert w.m == Primitive(v).m; }
        }
      }
    case VRewritten(u) => PrimitiveIsTheForm(u, w);
    case _ =>
  }

  lemma {:induction false} ElementsAreForms(xs: seq<Value>, ys: seq<Value>)
    requires |ys| == |xs|
    ensures var converted := seq(|xs|, i requires 0 <= i < |xs| => Primitive(xs[i]));
            ys == converted <==> forall i | 0 <= i < |xs| :: IsFormOf(ys[i], xs[i])
    decreases xs
  {
    var converted := seq(|xs|, i requires 0 <= i < |xs| => Primitive(xs[i]));
    forall i | 0 <= i < |xs| ensures ys[i] == converted[i] <==> IsFormOf(ys[i], xs[i]) {
      PrimitiveIsTheForm(xs[i], ys[i]);
    }
    if forall i | 0 <= i < |xs| :: ys[i] == converted[i] { assert ys == converted; }
  }

  lemma PrimitiveMapKeepsExactlyPlain(m: map<string, Value>)
    ensures PrimitiveMap(m) == m <==> PlainMap(m)
    ensures PlainMap(PrimitiveMap(m)) && PrimitiveMap(PrimitiveMap(m)) == PrimitiveMap(m)
    ensures SerialisableMap(PrimitiveMap(m)) <==> SerialisableMap(m)
  {
    PrimitiveKeepsExactlyPlain(VMap(m));
    PrimitiveIsPlain(VMap(m));
    PrimitiveKeepsExactlyPlain(VMap(PrimitiveMap(m)));
  }
}
