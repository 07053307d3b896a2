/** The normalisation of a JSON schema for structured output closes every object it reaches and requires all of its
    properties. It only narrows: what the normalised schema accepts, the schema accepts. */
module StrictSchema {
  import opened Wrappers
  import opened Values

  /** The `type` keyword: absent, one name, or a list of names. */
  datatype TypeKeyword = AnyType | OneType(name: string) | SomeTypes(names: set<string>)

  /** A schema object. Assertions about the instance alone (`enum`, `minimum`, ...) are one predicate. */
  datatype Schema = Schema(
    kind: TypeKeyword, properties: Properties, additional: Additional, required: Option<set<string>>, items: Items,
    anyOf: Branches, oneOf: Branches, allOf: Branches, other: Value -> bool)

  datatype Properties = NoProperties | Properties(named: map<string, Schema>)
  datatype Additional = Unrestricted | Closed | Each(schema: Schema)
  datatype Items = NoItems | Items(schema: Schema)
  datatype Branches = NoBranches | Branches(list: seq<Schema>)

  // ----- what a schema accepts -----

  function TypeName(v: Value): string {
    match v
    case VNull => "null"
    case VBool(_) => "boolean"
    case VInt(_) => "integer"
    case VFloat(_, _) => "number"
    case VStr(_) => "string"
    case VList(_) => "array"
    case VTuple(_) => "array"
    case VMap(_) => "object"
    case VRewritten(_) => ""
    case VOpaque(_) => ""
  }

  predicate HasType(v: Value, name: string) {
    TypeName(v) == name || (v.VInt? && name == "number")
  }

  predicate TypeOk(kind: TypeKeyword, v: Value) {
    match kind
    case AnyType => true
    case OneType(name) => HasType(v, name)
    case SomeTypes(names) => exists name | name in names :: HasType(v, name)
  }

  function Declared(s: Schema): set<string> {
    if s.properties.Properties? then s.properties.named.Keys else {}
  }

  predicate OnlyAt(bs: seq<bool>, i: nat)
    requires i < |bs|
  {
    bs[i] && forall j | 0 <= j < |bs| && j != i :: !bs[j]
  }

  predicate ExactlyOne(bs: seq<bool>) {
    exists i: nat | i < |bs| :: OnlyAt(bs, i)
  }

  predicate Accepts(s: Schema, v: Value)
    decreases s
  {
    && TypeOk(s.kind, v) && s.other(v)
    && (v.VMap? ==> AcceptsMembers(s, v.m))
    && (v.VList? && s.items.Items? ==> forall i | 0 <= i < |v.xs| :: Accepts(s.items.schema, v.xs[i]))
    && (s.anyOf.Branches? ==> exists i | 0 <= i < |s.anyOf.list| :: Accepts(s.anyOf.list[i], v))
    && (s.allOf.Branches? ==> forall i | 0 <= i < |s.allOf.list| :: Accepts(s.allOf.list[i], v))
    && AcceptsOne(s.oneOf, v)
  }

  predicate AcceptsOne(b: Branches, v: Value)
    decreases b
  {
    b.Branches? ==> ExactlyOne(seq(|b.list|, i requires 0 <= i < |b.list| => Accepts(b.list[i], v)))
  }

  /** `properties`, `additionalProperties` and `required` on an object. */
  predicate AcceptsMembers(s: Schema, m: map<string, Value>)
    decreases s, 0
  {
    && (s.properties.Properties? ==>
          forall k | k in s.properties.named && k in m :: Accepts(s.properties.named[k], m[k]))
    && (s.required.Some? ==> s.required.value <= m.Keys)
    && match s.additional
       case Unrestricted => true
       case Closed => m.Keys <= Declared(s)
       case Each(t) => forall k | k in m && k !in Declared(s) :: Accepts(t, m[k])
  }

  // ----- the normalisation -----

  predicate IsObject(s: Schema) {
    s.kind == OneType("object")
  }

  predicate IsArray(s: Schema) {
    s.kind == OneType("array")
  }

  function StrictBranches(b: Branches): Branches
    decreases b
  {
    match b
    case NoBranches => NoBranches
    case Branches(list) => Branches(seq(|list|, i requires 0 <= i < |list| => Strict(list[i])))
  }

  function StrictProperties(p: Properties): Properties
    decreases p
  {
    match p
    case NoProperties => Properties(map[])
    case Properties(named) => Properties(map k | k in named :: Strict(named[k]))
  }

  function Strict(s: Schema): Schema
    decreases s
  {
    var s1 :=
      if IsObject(s) then
        s.(properties := StrictProperties(s.properties), additional := Closed, required := Some(Declared(s)))
      else s;
    var s2 := if IsArray(s) && s.items.Items? then s1.(items := Items(Strict(s.items.schema))) else s1;
    s2.(anyOf := StrictBranches(s.anyOf), oneOf := StrictBranches(s.oneOf), allOf := StrictBranches(s.allOf))
  }

  lemma BranchesShape(b: Branches)
    ensures StrictBranches(b).Branches? <==> b.Branches?
    ensures b.Branches? ==>
      var list := StrictBranches(b).list;
      |list| == |b.list| && forall i | 0 <= i < |b.list| :: list[i] == Strict(b.list[i])
  {
  }

  lemma PropertiesShape(s: Schema)
    ensures StrictProperties(s.properties).Properties? && StrictProperties(s.properties).named.Keys == Declared(s)
    ensures forall k | k in Declared(s) :: StrictProperties(s.properties).named[k] == Strict(s.properties.named[k])
  {
  }

  // ----- what the normalisation reaches -----

  /** Every reached object is closed and requires exactly its declared properties. */
  predicate Sealed(s: Schema)
    decreases s
  {
    && (IsObject(s) ==>
          && s.additional.Closed? && s.properties.Properties? && s.required == Some(Declared(s))
          && SealedProperties(s.properties))
    && (IsArray(s) && s.items.Items? ==> Sealed(s.items.schema))
    && SealedBranches(s.anyOf) && SealedBranches(s.oneOf) && SealedBranches(s.allOf)
  }

  predicate SealedProperties(p: Properties)
    decreases p
  {
    p.Properties? ==> forall k | k in p.named :: Sealed(p.named[k])
  }

  predicate SealedBranches(b: Branches)
    decreases b
  {
    b.Branches? ==> forall i | 0 <= i < |b.list| :: Sealed(b.list[i])
  }

  lemma {:induction false} StrictIsSealed(s: Schema)
    ensures Sealed(Strict(s))
    decreases s, 1
  {
    PropertiesShape(s);
    if IsObject(s) && s.properties.Properties? {
      forall k | k in s.properties.named ensures Sealed(Strict(s.properties.named[k])) {
        StrictIsSealed(s.properties.named[k]);
      }
    }
    if s.items.Items? { StrictIsSealed(s.items.schema); }
    StrictBranchesAreSealed(s.anyOf);
    StrictBranchesAreSealed(s.oneOf);
    StrictBranchesAreSealed(s.allOf);
  }

  lemma {:induction false} StrictBranchesAreSealed(b: Branches)
    ensures SealedBranches(StrictBranches(b))
    decreases b, 0
  {
    if b.Branches? {
      forall i | 0 <= i < |b.list| ensures Sealed(Strict(b.list[i])) { StrictIsSealed(b.list[i]); }
    }
  }

  lemma {:induction false} SealedIsFixed(s: Schema)
    requires Sealed(s)
    ensures Strict(s) == s
    decreases s, 1
  {
    if IsObject(s) {
      forall k | k in s.properties.named ensures Strict(s.properties.named[k]) == s.properties.named[k] {
        SealedIsFixed(s.properties.named[k]);
      }
    }
    if IsArray(s) && s.items.Items? { SealedIsFixed(s.items.schema); }
    SealedBranchesAreFixed(s.anyOf);
    SealedBranchesAreFixed(s.oneOf);
    SealedBranchesAreFixed(s.allOf);
  }

  lemma {:induction false} SealedBranchesAreFixed(b: Branches)
    requires SealedBranches(b)
    ensures StrictBranches(b) == b
    decreases b, 0
  {
    if b.Branches? {
      forall i | 0 <= i < |b.list| ensures Strict(b.list[i]) == b.list[i] { SealedIsFixed(b.list[i]); }
    }
  }

  /** Main result: the schemas it leaves alone are exactly the sealed ones; so it is idempotent. */
  lemma FixedPointsAreTheSealedSchemas(s: Schema)
    ensures Strict(s) == s <==> Sealed(s)
    ensures Strict(Strict(s)) == Strict(s)
  {
    StrictIsSealed(s);
    SealedIsFixed(Strict(s));
    if Sealed(s) { SealedIsFixed(s); }
  }

  // ----- what the normalised schema accepts -----

  /** Acceptance with every object filled in: at every reached object exactly the declared members are there, and the
      values are as the schema asks, in filled form again. Types and other assertions count as they are. */
  predicate AcceptsFilled(s: Schema, v: Value)
    decreases s
  {
    && TypeOk(s.kind, v) && s.other(v)
    && (v.VMap? && IsObject(s) ==>
          && v.m.Keys == Declared(s)
          && (s.properties.Properties? ==>
                forall k | k in s.properties.named && k in v.m :: AcceptsFilled(s.properties.named[k], v.m[k])))
    && (v.VMap? && !IsObject(s) ==> AcceptsMembers(s, v.m))
    && (v.VList? && s.items.Items? ==>
          forall i | 0 <= i < |v.xs| ::
            if IsArray(s) then AcceptsFilled(s.items.schema, v.xs[i]) else Accepts(s.items.schema, v.xs[i]))
    && (s.anyOf.Branches? ==> exists i | 0 <= i < |s.anyOf.list| :: AcceptsFilled(s.anyOf.list[i], v))
    && (s.allOf.Branches? ==> forall i | 0 <= i < |s.allOf.list| :: AcceptsFilled(s.allOf.list[i], v))
    && FillsOne(s.oneOf, v)
  }

  predicate FillsOne(b: Branches, v: Value)
    decreases b
  {
    b.Branches? ==> ExactlyOne(seq(|b.list|, i requires 0 <= i < |b.list| => AcceptsFilled(b.list[i], v)))
  }

  lemma {:induction false} FilledMembers(s: Schema, m: map<string, Value>)
    ensures AcceptsMembers(Strict(s), m) <==>
      if IsObject(s) then
        && m.Keys == Declared(s)
        && (s.properties.Properties? ==>
              forall k | k in s.properties.named && k in m :: AcceptsFilled(s.properties.named[k], m[k]))
      else AcceptsMembers(s, m)
    decreases s, 0
  {
    if IsObject(s) {
      PropertiesShape(s);
      if s.properties.Properties? {
        forall k | k in s.properties.named && k in m
          ensures Accepts(Strict(s).properties.named[k], m[k]) <==> AcceptsFilled(s.properties.named[k], m[k])
        {
          StrictAcceptsTheFilled(s.properties.named[k], m[k]);
        }
      }
    }
  }

  lemma {:induction false} FilledBranches(b: Branches, v: Value)
    ensures var t := StrictBranches(b);
            && (b.Branches? <==> t.Branches?)
            && (b.Branches? ==>
                  && |t.list| == |b.list|
                  && (forall i | 0 <= i < |b.list| :: Accepts(t.list[i], v) <==> AcceptsFilled(b.list[i], v)))
            && (AcceptsOne(t, v) <==> FillsOne(b, v))
    decreases b, 0
  {
    BranchesShape(b);
    if b.Branches? {
      var t := StrictBranches(b);
      forall i | 0 <= i < |b.list| ensures Accepts(t.list[i], v) <==> AcceptsFilled(b.list[i], v) {
        StrictAcceptsTheFilled(b.list[i], v);
      }
      assert seq(|t.list|, i requires 0 <= i < |t.list| => Accepts(t.list[i], v))
          == seq(|b.list|, i requires 0 <= i < |b.list| => AcceptsFilled(b.list[i], v));
    }
  }

  /** Main result: the normalised schema accepts exactly the filled instances: nothing else is asked for and nothing is
      lost, for every schema. */
  lemma {:induction false} StrictAcceptsTheFilled(s: Schema, v: Value)
    ensures Accepts(Strict(s), v) <==> AcceptsFilled(s, v)
    decreases s, 1
  {
    hide AcceptsMembers, FillsOne, AcceptsOne, StrictBranches, StrictProperties, TypeOk;
    if v.VMap? { FilledMembers(s, v.m); }
    FilledBranches(s.anyOf, v);
    FilledBranches(s.oneOf, v);
    FilledBranches(s.allOf, v);
    if v.VList? && s.items.Items? && IsArray(s) { FilledItems(s.items.schema, v.xs); }
  }

  lemma {:induction false} FilledItems(s: Schema, xs: seq<Value>)
    ensures forall i | 0 <= i < |xs| :: Accepts(Strict(s), xs[i]) <==> AcceptsFilled(s, xs[i])
    decreases s, 2
  {
    forall i | 0 <= i < |xs| ensures Accepts(Strict(s), xs[i]) <==> AcceptsFilled(s, xs[i]) {
      StrictAcceptsTheFilled(s, xs[i]);
    }
  }

  // ----- narrowing -----

  /** The names an object requires are among the properties it declares. */
  predicate RequiredDeclared(s: Schema) {
    IsObject(s) && s.required.Some? ==> s.required.value <= Declared(s)
  }

  /** No instance is accepted by two branches of a `oneOf`. */
  ghost predicate Exclusive(b: Branches) {
    b.Branches? ==> forall v, i, j | 0 <= i < j < |b.list| :: !(Accepts(b.list[i], v) && Accepts(b.list[j], v))
  }

  /** Reached objects require declared names only, and the branches of a reached `oneOf` exclude each other. */
  ghost predicate Narrowable(s: Schema)
    decreases s, 1
  {
    RequiredDeclared(s) && Exclusive(s.oneOf) && NarrowableBelow(s)
  }

  /** The same for everything below the schema itself. */
  ghost predicate NarrowableBelow(s: Schema)
    decreases s, 0
  {
    && (IsObject(s) ==> NarrowableProperties(s.properties))
    && (IsArray(s) && s.items.Items? ==> Narrowable(s.items.schema))
    && NarrowableBranches(s.anyOf) && NarrowableBranches(s.oneOf) && NarrowableBranches(s.allOf)
  }

  ghost predicate NarrowableProperties(p: Properties)
    decreases p
  {
    p.Properties? ==> forall k | k in p.named :: Narrowable(p.named[k])
  }

  ghost predicate NarrowableBranches(b: Branches)
    decreases b
  {
    b.Branches? ==> forall i | 0 <= i < |b.list| :: Narrowable(b.list[i])
  }

  /** Everything a schema asserts except the names an object requires and `oneOf`. */
  predicate AcceptsOtherwise(s: Schema, v: Value) {
    && TypeOk(s.kind, v) && s.other(v)
    && (v.VMap? ==> AcceptsMembers(if IsObject(s) then s.(required := None) else s, v.m))
    && (v.VList? && s.items.Items? ==> forall i | 0 <= i < |v.xs| :: Accepts(s.items.schema, v.xs[i]))
    && (s.anyOf.Branches? ==> exists i | 0 <= i < |s.anyOf.list| :: Accepts(s.anyOf.list[i], v))
    && (s.allOf.Branches? ==> forall i | 0 <= i < |s.allOf.list| :: Accepts(s.allOf.list[i], v))
  }

  lemma {:induction false} NarrowsMembers(s: Schema, m: map<string, Value>)
    requires NarrowableBelow(s) && AcceptsMembers(Strict(s), m)
    ensures AcceptsMembers(if IsObject(s) then s.(required := None) else s, m)
    ensures IsObject(s) ==> m.Keys == Declared(s)
    decreases s, 0
  {
    if IsObject(s) {
      PropertiesShape(s);
      assert m.Keys == Declared(s);
      if s.properties.Properties? {
        forall k | k in s.properties.named && k in m ensures Accepts(s.properties.named[k], m[k]) {
          assert Strict(s).properties.named[k] == Strict(s.properties.named[k]);
          Narrows(s.properties.named[k], m[k]);
        }
      }
    }
  }

  lemma OneAccepts(b: Branches, v: Value) returns (i: nat)
    requires b.Branches? && AcceptsOne(b, v)
    ensures i < |b.list| && Accepts(b.list[i], v)
  {
    var bs := seq(|b.list|, i requires 0 <= i < |b.list| => Accepts(b.list[i], v));
    i :| i < |bs| && OnlyAt(bs, i);
  }

  lemma {:induction false} NarrowsBranches(s: Schema, v: Value)
    requires NarrowableBelow(s) && Accepts(Strict(s), v)
    ensures s.anyOf.Branches? ==> exists i | 0 <= i < |s.anyOf.list| :: Accepts(s.anyOf.list[i], v)
    ensures s.allOf.Branches? ==> forall i | 0 <= i < |s.allOf.list| :: Accepts(s.allOf.list[i], v)
    ensures s.oneOf.Branches? ==> exists i | 0 <= i < |s.oneOf.list| :: Accepts(s.oneOf.list[i], v)
    decreases s, 0
  {
    var t := Strict(s);
    BranchesShape(s.anyOf);
    BranchesShape(s.allOf);
    BranchesShape(s.oneOf);
    if s.oneOf.Branches? {
      var i := OneAccepts(t.oneOf, v);
      assert t.oneOf.list[i] == Strict(s.oneOf.list[i]);
      Narrows(s.oneOf.list[i], v);
    }
    if s.anyOf.Branches? {
      var i :| 0 <= i < |t.anyOf.list| && Accepts(t.anyOf.list[i], v);
      Narrows(s.anyOf.list[i], v);
    }
    if s.allOf.Branches? {
      forall i | 0 <= i < |s.allOf.list| ensures Accepts(s.allOf.list[i], v) {
        assert Accepts(t.allOf.list[i], v);
        Narrows(s.allOf.list[i], v);
      }
    }
  }

  lemma {:induction false} NarrowsOtherwise(s: Schema, v: Value)
    requires NarrowableBelow(s) && Accepts(Strict(s), v)
    ensures AcceptsOtherwise(s, v)
    ensures IsObject(s) ==> v.VMap? && v.m.Keys == Declared(s)
    ensures s.oneOf.Branches? ==> exists i | 0 <= i < |s.oneOf.list| :: Accepts(s.oneOf.list[i], v)
    decreases s, 1
  {
    NarrowsBranches(s, v);
    if v.VMap? { NarrowsMembers(s, v.m); }
    if v.VList? && s.items.Items? {
      forall i | 0 <= i < |v.xs| ensures Accepts(s.items.schema, v.xs[i]) {
        if IsArray(s) { Narrows(s.items.schema, v.xs[i]); }
      }
    }
    hide AcceptsMembers;
  }

  /** Main result: whatever the normalised schema accepts, the schema accepts. */
  lemma {:induction false} Narrows(s: Schema, v: Value)
    requires Narrowable(s) && Accepts(Strict(s), v)
    ensures Accepts(s, v)
    decreases s, 2
  {
    NarrowsOtherwise(s, v);
    OneIsEnough(s, v);
  }

  /** Where branches exclude each other, one that accepts is the only one. */
  lemma OneIsEnough(s: Schema, v: Value)
    requires AcceptsOtherwise(s, v) && RequiredDeclared(s) && Exclusive(s.oneOf)
    requires IsObject(s) ==> v.VMap? && v.m.Keys == Declared(s)
    requires s.oneOf.Branches? ==> exists i | 0 <= i < |s.oneOf.list| :: Accepts(s.oneOf.list[i], v)
    ensures Accepts(s, v)
  {
    AcceptsInParts(s, v);
    hide Accepts, AcceptsOtherwise, AcceptsOne;
    if s.oneOf.Branches? {
      var i: nat :| i < |s.oneOf.list| && Accepts(s.oneOf.list[i], v);
      WinnerDecides(s.oneOf, v, i);
    } else {
      NoneToChoose(s.oneOf, v);
    }
  }

  lemma NoneToChoose(b: Branches, v: Value)
    requires b.NoBranches?
    ensures AcceptsOne(b, v)
  {
  }

  /** Main result: for an object that requires undeclared names narrowing fails on every instance the normalised schema
      accepts; the condition on `required` is the exact one. */
  lemma NarrowsExactly(s: Schema, v: Value)
    requires IsObject(s) && Exclusive(s.oneOf) && NarrowableBelow(s) && Accepts(Strict(s), v)
    ensures Accepts(s, v) <==> RequiredDeclared(s)
  {
    hide NarrowableBelow, Strict, Exclusive;
    NarrowsOtherwise(s, v);
    AcceptsInParts(s, v);
    if RequiredDeclared(s) { OneIsEnough(s, v); }
  }

  /** Main result: at a `oneOf` narrowing holds exactly when no second branch accepts the instance in its original,
      more open form. */
  lemma OneOfNarrowsExactly(s: Schema, v: Value, winner: nat)
    requires s.oneOf.Branches? && RequiredDeclared(s) && NarrowableBelow(s) && Accepts(Strict(s), v)
    requires winner < |s.oneOf.list| && Accepts(Strict(s.oneOf.list[winner]), v)
    ensures Accepts(s, v)
      <==> forall j | 0 <= j < |s.oneOf.list| && j != winner :: !Accepts(s.oneOf.list[j], v)
  {
    hide Accepts, Strict, AcceptsOtherwise, NarrowableBelow;
    NarrowsOtherwise(s, v);
    BranchesBelow(s);
    Narrows(s.oneOf.list[winner], v);
    AcceptsInParts(s, v);
    hide AcceptsOne;
    WinnerDecides(s.oneOf, v, winner);
  }

  lemma WinnerDecides(b: Branches, v: Value, winner: nat)
    requires b.Branches? && winner < |b.list| && Accepts(b.list[winner], v)
    ensures AcceptsOne(b, v) <==> forall j | 0 <= j < |b.list| && j != winner :: !Accepts(b.list[j], v)
  {
    var bs := seq(|b.list|, i requires 0 <= i < |b.list| => Accepts(b.list[i], v));
    assert AcceptsOne(b, v) == ExactlyOne(bs);
    assert forall i | 0 <= i < |bs| :: bs[i] == Accepts(b.list[i], v);
    if ExactlyOne(bs) {
      var i: nat :| i < |bs| && OnlyAt(bs, i);
      assert i == winner;
    } else {
      assert !OnlyAt(bs, winner);
    }
  }

  lemma BranchesBelow(s: Schema)
    requires NarrowableBelow(s)
    ensures NarrowableBranches(s.oneOf)
  {
  }

  lemma AcceptsInParts(s: Schema, v: Value)
    ensures Accepts(s, v) <==>
      && AcceptsOtherwise(s, v) && AcceptsOne(s.oneOf, v)
      && (IsObject(s) && v.VMap? && s.required.Some? ==> s.required.value <= v.m.Keys)
  {
  }

  const ANYTHING := Schema(AnyType, NoProperties, Unrestricted, None, NoItems, NoBranches, NoBranches, NoBranches,
                           (v: Value) => true)
  const OPEN_OBJECT := ANYTHING.(kind := OneType("object"))
  const EITHER := ANYTHING.(oneOf := Branches([OPEN_OBJECT, ANYTHING]))
  const ONE_MEMBER := VMap(map["a" := VNull])

  lemma OpenObjectAccepts()
    ensures Accepts(OPEN_OBJECT, ONE_MEMBER) && Accepts(ANYTHING, ONE_MEMBER)
  {
  }

  lemma ClosedObjectRefuses()
    ensures !Accepts(Strict(OPEN_OBJECT), ONE_MEMBER) && Strict(ANYTHING) == ANYTHING
  {
    assert "a" in ONE_MEMBER.m;
  }

  /** A `oneOf` that the normalisation widens: closing the first branch leaves only the second one. */
  lemma OneOfCanWiden()
    ensures Accepts(Strict(EITHER), ONE_MEMBER) && !Accepts(EITHER, ONE_MEMBER)
  {
    OpenObjectAccepts();
    ClosedObjectRefuses();
    BranchesShape(EITHER.oneOf);
    var t := Strict(EITHER);
    assert t == ANYTHING.(oneOf := StrictBranches(EITHER.oneOf)) by { hide StrictBranches; }
    hide Strict, Accepts, StrictBranches, AcceptsOne;
    var b, c := EITHER.oneOf, t.oneOf;
    assert b.list[0] == OPEN_OBJECT && b.list[1] == ANYTHING && |b.list| == 2;
    assert c.list[0] == Strict(OPEN_OBJECT) && c.list[1] == ANYTHING && |c.list| == 2;
    WinnerDecides(b, ONE_MEMBER, 1);
    WinnerDecides(c, ONE_MEMBER, 1);
    AcceptsInParts(EITHER, ONE_MEMBER);
    AcceptsInParts(t, ONE_MEMBER);
  }

  const NAMELESS := OPEN_OBJECT.(required := Some({"a"}))

  /** An object that requires a name it does not declare: the empty object satisfies its closed form only. */
  lemma UndeclaredNamesAreDropped()
    ensures Accepts(Strict(NAMELESS), VMap(map[])) && !Accepts(NAMELESS, VMap(map[]))
  {
  }
}
