/** Sampling a finite domain without replacement: the proposer lists the Cartesian product, drops the excluded points,
    shuffles and takes a prefix. */
module SeededProposal {
  import opened Wrappers

  datatype Request<V> = Request(names: seq<string>, fixed: map<string, V>, values: map<string, seq<V>>,
                                excluded: set<string>, count: int, seed: int)

  datatype Proposal<V> = Proposal(points: seq<map<string, V>>, available: nat, cardinality: nat)

  predicate NoDup<T(==)>(s: seq<T>) {
    forall i, j | 0 <= i < j < |s| :: s[i] != s[j]
  }

  function NameSet(names: seq<string>): set<string> {
    set i | 0 <= i < |names| :: names[i]
  }

  /** What the proposer asks of a request. */
  predicate WellFormed<V(==)>(r: Request<V>) {
    && r.names != [] && NoDup(r.names) && r.values.Keys == NameSet(r.names)
    && 1 <= r.count <= 64 && r.seed >= 0
    && forall i | 0 <= i < |r.names| :: |r.values[r.names[i]]| >= 2
  }

  /** A point of the requested domain: an admissible value for every searched name, the fixed values elsewhere. */
  predicate InDomain<V(==)>(r: Request<V>, p: map<string, V>)
    requires r.values.Keys == NameSet(r.names)
  {
    && p.Keys == r.fixed.Keys + NameSet(r.names)
    && (forall n | n in r.values :: p[n] in r.values[n])
    && (forall k | k in r.fixed && k !in r.values :: p[k] == r.fixed[k])
  }

  ghost predicate Injective<V(!new)>(fp: map<string, V> -> string) {
    forall p, q :: fp(p) == fp(q) ==> p == q
  }

  // ----- lists of values -----

  ghost function Elements<T>(s: seq<T>): set<T> {
    set x | x in s
  }

  /** `list(dict.fromkeys(xs))`: first occurrences, in order. */
  function Dedupe<V(==)>(xs: seq<V>): seq<V> {
    if xs == [] then []
    else
      var init := Dedupe(xs[..|xs| - 1]);
      if xs[|xs| - 1] in init then init else init + [xs[|xs| - 1]]
  }

  lemma {:induction false} DedupeKeepsElements<V>(xs: seq<V>)
    ensures NoDup(Dedupe(xs)) && forall x :: x in Dedupe(xs) <==> x in xs
    decreases |xs|
  {
    if xs != [] {
      DedupeKeepsElements(xs[..|xs| - 1]);
      assert xs == xs[..|xs| - 1] + [xs[|xs| - 1]];
    }
  }

  predicate FirstAt<V(==)>(xs: seq<V>, i: nat)
    requires i < |xs|
  {
    forall m | 0 <= m < i :: xs[m] != xs[i]
  }

  /** `ds` holds the values at the positions `at` of `xs`, in order, and these are the first occurrences. */
  predicate FirstsAt<V(==)>(xs: seq<V>, ds: seq<V>, at: seq<nat>) {
    && |at| == |ds|
    && (forall j, k | 0 <= j < k < |at| :: at[j] < at[k])
    && (forall k | 0 <= k < |at| :: at[k] < |xs| && xs[at[k]] == ds[k])
    && (forall i | 0 <= i < |xs| :: i in at <==> FirstAt(xs, i))
  }

  /** Repetitions are dropped behind their first occurrence, and the order is kept. */
  lemma {:induction false} DedupeKeepsFirsts<V>(xs: seq<V>) returns (at: seq<nat>)
    ensures FirstsAt(xs, Dedupe(xs), at)
    decreases |xs|
  {
    at := [];
    if xs != [] {
      var n := |xs| - 1;
      var init, x := xs[..n], xs[n];
      var before := DedupeKeepsFirsts(init);
      DedupeKeepsElements(init);
      assert FirstAt(xs, n) <==> x !in Dedupe(init);
      at := before + if x in Dedupe(init) then [] else [n];
      forall i | 0 <= i < n ensures FirstAt(xs, i) <==> FirstAt(init, i) {}
      hide Dedupe, NoDup, FirstAt;
      var ds := Dedupe(xs);
      assert ds == Dedupe(init) + if x in Dedupe(init) then [] else [x] by { DedupeOneMore(xs); }
      forall i | 0 <= i < |xs| ensures i in at <==> FirstAt(xs, i) {
        assert i < n ==> (i in at <==> i in before);
      }
    }
  }

  lemma DedupeOneMore<V>(xs: seq<V>)
    requires xs != []
    ensures var n := |xs| - 1;
            Dedupe(xs) == Dedupe(xs[..n]) + if xs[n] in Dedupe(xs[..n]) then [] else [xs[n]]
  {
  }

  function PrependOne<V>(x: V, tails: seq<seq<V>>): seq<seq<V>> {
    seq(|tails|, i requires 0 <= i < |tails| => [x] + tails[i])
  }

  function Prepend<V>(xs: seq<V>, tails: seq<seq<V>>): seq<seq<V>> {
    if xs == [] then [] else PrependOne(xs[0], tails) + Prepend(xs[1..], tails)
  }

  /** `itertools.product(*lists)` */
  function Product<V>(lists: seq<seq<V>>): seq<seq<V>> {
    if lists == [] then [[]] else Prepend(lists[0], Product(lists[1..]))
  }

  lemma {:induction false} PrependMembers<V>(xs: seq<V>, tails: seq<seq<V>>)
    ensures forall c :: c in Prepend(xs, tails) <==> c != [] && c[0] in xs && c[1..] in tails
    decreases |xs|
  {
    if xs != [] {
      PrependMembers(xs[1..], tails);
      var one := PrependOne(xs[0], tails);
      forall c ensures c in one <==> c != [] && c[0] == xs[0] && c[1..] in tails {
        if c != [] && c[0] == xs[0] && c[1..] in tails {
          var i :| 0 <= i < |tails| && tails[i] == c[1..];
          assert one[i] == [xs[0]] + c[1..] == c;
        }
        if c in one {
          var i :| 0 <= i < |one| && one[i] == c;
          assert c[1..] == tails[i];
        }
      }
      assert forall x :: x in xs <==> x == xs[0] || x in xs[1..];
    }
  }

  lemma {:induction false} PrependNoDup<V>(xs: seq<V>, tails: seq<seq<V>>)
    requires NoDup(xs) && NoDup(tails)
    ensures NoDup(Prepend(xs, tails)) && |Prepend(xs, tails)| == |xs| * |tails|
    decreases |xs|
  {
    if xs != [] {
      PrependNoDup(xs[1..], tails);
      PrependMembers(xs[1..], tails);
      var one, more := PrependOne(xs[0], tails), Prepend(xs[1..], tails);
      assert NoDup(one) by {
        forall i, j | 0 <= i < j < |one| ensures one[i] != one[j] {
          assert one[i][1..] == tails[i] && one[j][1..] == tails[j];
        }
      }
      forall c | c in one ensures c !in more {
        var i :| 0 <= i < |one| && one[i] == c;
        assert c[0] == xs[0];
      }
      NoDupAppend(one, more);
      TimesOneMore(|xs|, |tails|);
      assert Prepend(xs, tails) == one + more;
      hide Prepend, PrependOne;
    }
  }

  lemma NoDupAppend<T>(s: seq<T>, t: seq<T>)
    requires NoDup(s) && NoDup(t) && forall x | x in s :: x !in t
    ensures NoDup(s + t)
  {
    forall i, j | 0 <= i < |s| && 0 <= j < |t| ensures s[i] != t[j] { assert s[i] in s && t[j] in t; }
  }

  lemma TimesOneMore(m: nat, n: nat)
    requires m > 0
    ensures m * n == n + (m - 1) * n
  {
  }

  /** Number of points: the product of the numbers of choices. */
  function Size<V>(lists: seq<seq<V>>): nat {
    if lists == [] then 1 else |lists[0]| * Size(lists[1..])
  }

  predicate Picks<V(==)>(c: seq<V>, lists: seq<seq<V>>) {
    |c| == |lists| && forall i | 0 <= i < |c| :: c[i] in lists[i]
  }

  /** The product lists every way of picking one value per list, each exactly once. */
  lemma {:induction false} ProductIsTheProduct<V>(lists: seq<seq<V>>)
    requires forall i | 0 <= i < |lists| :: NoDup(lists[i])
    ensures NoDup(Product(lists)) && |Product(lists)| == Size(lists)
    ensures forall c :: c in Product(lists) <==> Picks(c, lists)
    decreases |lists|
  {
    if lists != [] {
      var rest := lists[1..];
      ProductIsTheProduct(rest);
      PrependMembers(lists[0], Product(rest));
      PrependNoDup(lists[0], Product(rest));
      forall c ensures Picks(c, lists) <==> c != [] && c[0] in lists[0] && Picks(c[1..], rest) {
        if c != [] && c[0] in lists[0] && Picks(c[1..], rest) {
          forall i | 0 <= i < |c| ensures c[i] in lists[i] {
            if i > 0 { assert c[i] == c[1..][i - 1] && lists[i] == rest[i - 1]; }
          }
        }
        if Picks(c, lists) {
          forall i | 0 <= i < |c[1..]| ensures c[1..][i] in rest[i] { assert c[1..][i] == c[i + 1]; }
        }
      }
    } else {
      forall c: seq<V> ensures c in Product(lists) <==> Picks(c, lists) { assert c == [] <==> |c| == 0; }
    }
  }

  /** Position `i * n + j` holds the `i`-th value before the `j`-th tail. */
  lemma {:induction false} PrependOrder<V>(xs: seq<V>, tails: seq<seq<V>>, i: nat, j: nat)
    requires i < |xs| && j < |tails|
    ensures i * |tails| + j < |Prepend(xs, tails)| == |xs| * |tails|
    ensures Prepend(xs, tails)[i * |tails| + j] == [xs[i]] + tails[j]
    decreases |xs|
  {
    PrependLength(xs, tails);
    PrependLength(xs[1..], tails);
    TimesOneMore(|xs|, |tails|);
    if i > 0 {
      PrependOrder(xs[1..], tails, i - 1, j);
      TimesOneMore(i, |tails|);
    }
  }

  lemma {:induction false} PrependLength<V>(xs: seq<V>, tails: seq<seq<V>>)
    ensures |Prepend(xs, tails)| == |xs| * |tails|
    decreases |xs|
  {
    if xs != [] {
      PrependLength(xs[1..], tails);
      TimesOneMore(|xs|, |tails|);
    }
  }

  /** The order of the enumeration: all combinations with the first value of the first list, then those with its second
      one, and so on, so that the last list varies fastest. */
  lemma ProductOrder<V>(lists: seq<seq<V>>, i: nat, j: nat)
    requires lists != [] && i < |lists[0]| && j < |Product(lists[1..])|
    ensures i * |Product(lists[1..])| + j < |Product(lists)|
    ensures Product(lists)[i * |Product(lists[1..])| + j] == [lists[0][i]] + Product(lists[1..])[j]
  {
    PrependOrder(lists[0], Product(lists[1..]), i, j);
  }

  // ----- points -----

  /** `{**fixed, **dict(zip(names, combination))}` */
  function Point<V>(fixed: map<string, V>, names: seq<string>, c: seq<V>): map<string, V>
    requires |c| == |names|
  {
    if names == [] then fixed
    else Point(fixed, names[..|names| - 1], c[..|c| - 1])[names[|names| - 1] := c[|c| - 1]]
  }

  lemma {:induction false} PointIs<V>(fixed: map<string, V>, names: seq<string>, c: seq<V>)
    requires |c| == |names| && NoDup(names)
    ensures var p := Point(fixed, names, c);
            && p.Keys == fixed.Keys + NameSet(names)
            && (forall i | 0 <= i < |names| :: p[names[i]] == c[i])
            && (forall k | k in fixed && k !in NameSet(names) :: p[k] == fixed[k])
    decreases |names|
  {
    if names != [] {
      var init := names[..|names| - 1];
      PointIs(fixed, init, c[..|c| - 1]);
      NameSetOneMore(names);
      hide NameSet;
    }
  }

  lemma NameSetOneMore(names: seq<string>)
    requires names != []
    ensures NameSet(names) == NameSet(names[..|names| - 1]) + {names[|names| - 1]}
  {
    var init := names[..|names| - 1];
    forall n | n in NameSet(names) ensures n in NameSet(init) || n == names[|names| - 1] {
      var i :| 0 <= i < |names| && names[i] == n;
      if i < |init| { assert init[i] == n; }
    }
    forall n | n in NameSet(init) ensures n in NameSet(names) {
      var i :| 0 <= i < |init| && init[i] == n;
      assert names[i] == n;
    }
  }

  function Lists<V(==)>(r: Request<V>): seq<seq<V>>
    requires r.values.Keys == NameSet(r.names)
  {
    seq(|r.names|, i requires 0 <= i < |r.names| => Dedupe(r.values[r.names[i]]))
  }

  /** The unexcluded points among the given combinations, in order. */
  function Unseen<V>(r: Request<V>, fp: map<string, V> -> string, combos: seq<seq<V>>): seq<map<string, V>>
    requires Fit(r, combos)
  {
    if combos == [] then []
    else
      var init := Unseen(r, fp, combos[..|combos| - 1]);
      var p := Point(r.fixed, r.names, combos[|combos| - 1]);
      if fp(p) in r.excluded then init else init + [p]
  }

  predicate Fit<V>(r: Request<V>, combos: seq<seq<V>>) {
    forall i | 0 <= i < |combos| :: |combos[i]| == |r.names|
  }

  /** `p` is the point of one of the combinations. */
  ghost predicate Covers<V>(r: Request<V>, combos: seq<seq<V>>, p: map<string, V>)
    requires Fit(r, combos)
  {
    exists i :: 0 <= i < |combos| && Point(r.fixed, r.names, combos[i]) == p
  }

  lemma CoversLast<V>(r: Request<V>, combos: seq<seq<V>>, p: map<string, V>)
    requires combos != [] && Fit(r, combos)
    ensures Fit(r, combos[..|combos| - 1])
    ensures Covers(r, combos, p) <==>
      Covers(r, combos[..|combos| - 1], p) || p == Point(r.fixed, r.names, combos[|combos| - 1])
  {
    hide Point;
    var n := |combos| - 1;
    var init := combos[..n];
    if Covers(r, combos, p) {
      var i :| 0 <= i < |combos| && Point(r.fixed, r.names, combos[i]) == p;
      if i < n { assert init[i] == combos[i]; }
    }
    if Covers(r, init, p) {
      var i :| 0 <= i < |init| && Point(r.fixed, r.names, init[i]) == p;
      assert combos[i] == init[i];
    }
    assert combos[n] == combos[|combos| - 1];
  }

  lemma {:induction false} UnseenAre<V>(r: Request<V>, fp: map<string, V> -> string, combos: seq<seq<V>>)
    requires NoDup(r.names) && NoDup(combos) && Fit(r, combos)
    ensures NoDup(Unseen(r, fp, combos))
    ensures forall p :: p in Unseen(r, fp, combos) <==> fp(p) !in r.excluded && Covers(r, combos, p)
    decreases |combos|
  {
    if combos != [] {
      var n := |combos| - 1;
      var init, p := combos[..n], Point(r.fixed, r.names, combos[n]);
      CoversLast(r, combos, p);
      UnseenAre(r, fp, init);
      assert !Covers(r, init, p) by {
        forall i | 0 <= i < n ensures Point(r.fixed, r.names, init[i]) != p {
          if Point(r.fixed, r.names, init[i]) == p { PointsAreDistinct(r, combos[i], combos[n]); }
        }
      }
      hide Covers, Point;
      forall q ensures q in Unseen(r, fp, combos) <==> fp(q) !in r.excluded && Covers(r, combos, q) {
        CoversLast(r, combos, q);
      }
    }
  }

  /** `points` are the unexcluded points, at the positions `at` of the enumeration and in its order. */
  predicate UnseenAt<V(==)>(r: Request<V>, fp: map<string, V> -> string, combos: seq<seq<V>>,
                            points: seq<map<string, V>>, at: seq<nat>)
    requires Fit(r, combos)
  {
    && |at| == |points|
    && (forall j, k | 0 <= j < k < |at| :: at[j] < at[k])
    && (forall k | 0 <= k < |at| :: at[k] < |combos| && points[k] == Point(r.fixed, r.names, combos[at[k]]))
    && (forall i | 0 <= i < |combos| :: i in at <==> fp(Point(r.fixed, r.names, combos[i])) !in r.excluded)
  }

  lemma {:induction false} UnseenKeepsTheOrder<V>(r: Request<V>, fp: map<string, V> -> string, combos: seq<seq<V>>)
    returns (at: seq<nat>)
    requires Fit(r, combos)
    ensures UnseenAt(r, fp, combos, Unseen(r, fp, combos), at)
    decreases |combos|
  {
    hide Point;
    at := [];
    if combos != [] {
      var n := |combos| - 1;
      var init := combos[..n];
      var before := UnseenKeepsTheOrder(r, fp, init);
      at := before + if fp(Point(r.fixed, r.names, combos[n])) in r.excluded then [] else [n];
      forall i | 0 <= i < |combos| ensures i in at <==> fp(Point(r.fixed, r.names, combos[i])) !in r.excluded {
        assert i < n ==> init[i] == combos[i] && (i in at <==> i in before);
        assert i == n ==> i !in before;
      }
    }
  }

  lemma PointsAreDistinct<V>(r: Request<V>, c: seq<V>, d: seq<V>)
    requires |c| == |r.names| == |d| && NoDup(r.names)
    requires Point(r.fixed, r.names, c) == Point(r.fixed, r.names, d)
    ensures c == d
  {
    PointIs(r.fixed, r.names, c);
    PointIs(r.fixed, r.names, d);
    forall i | 0 <= i < |c| ensures c[i] == d[i] {
      assert Point(r.fixed, r.names, c)[r.names[i]] == c[i];
    }
  }

  lemma CombosFit<V>(r: Request<V>)
    requires r.values.Keys == NameSet(r.names)
    ensures NoDup(Product(Lists(r))) && |Product(Lists(r))| == Size(Lists(r))
    ensures Fit(r, Product(Lists(r)))
  {
    var lists, combos := Lists(r), Product(Lists(r));
    forall i | 0 <= i < |lists| ensures NoDup(lists[i]) { DedupeKeepsElements(r.values[r.names[i]]); }
    ProductIsTheProduct(lists);
    forall i | 0 <= i < |combos| ensures |combos[i]| == |r.names| {
      assert combos[i] in combos;
      assert Picks(combos[i], lists);
    }
  }

  lemma ListsAre<V>(r: Request<V>)
    requires r.values.Keys == NameSet(r.names)
    ensures forall c :: c in Product(Lists(r)) <==> Picks(c, Lists(r))
    ensures forall i, x | 0 <= i < |r.names| :: x in Lists(r)[i] <==> x in r.values[r.names[i]]
  {
    var lists := Lists(r);
    forall i | 0 <= i < |lists|
      ensures NoDup(lists[i]) && forall x :: x in lists[i] <==> x in r.values[r.names[i]]
    {
      DedupeKeepsElements(r.values[r.names[i]]);
    }
    ProductIsTheProduct(lists);
  }

  lemma DomainPointsAreCovered<V>(r: Request<V>, p: map<string, V>)
    requires r.values.Keys == NameSet(r.names) && NoDup(r.names) && InDomain(r, p) && Fit(r, Product(Lists(r)))
    ensures Covers(r, Product(Lists(r)), p)
  {
    var lists, combos := Lists(r), Product(Lists(r));
    ListsAre(r);
    hide Product, Lists, Dedupe, Point;
    var c := seq(|r.names|, i requires 0 <= i < |r.names| => p[r.names[i]]);
    forall i | 0 <= i < |c| ensures c[i] in lists[i] { assert r.names[i] in r.values; }
    assert Picks(c, lists);
    assert c in combos;
    PointIs(r.fixed, r.names, c);
    SameMap(Point(r.fixed, r.names, c), p, r);
    hide Picks, InDomain, NameSet;
    var i :| 0 <= i < |combos| && combos[i] == c;
  }

  lemma CoveredPointsAreInDomain<V>(r: Request<V>, c: seq<V>)
    requires r.values.Keys == NameSet(r.names) && NoDup(r.names) && c in Product(Lists(r)) && |c| == |r.names|
    ensures InDomain(r, Point(r.fixed, r.names, c))
  {
    ListsAre(r);
    hide Product, Lists, Dedupe, Point;
    PointIs(r.fixed, r.names, c);
    var p := Point(r.fixed, r.names, c);
    forall n | n in r.values ensures p[n] in r.values[n] {
      var i :| 0 <= i < |r.names| && r.names[i] == n;
      assert c[i] in Lists(r)[i];
    }
  }

  /** The points of the enumerated product are the points of the domain. */
  lemma PointsAreTheDomain<V>(r: Request<V>, p: map<string, V>)
    requires r.values.Keys == NameSet(r.names) && NoDup(r.names)
    ensures Fit(r, Product(Lists(r))) && (InDomain(r, p) <==> Covers(r, Product(Lists(r)), p))
  {
    CombosFit(r);
    hide Product, Lists, InDomain, Point;
    var combos := Product(Lists(r));
    if InDomain(r, p) { DomainPointsAreCovered(r, p); }
    if Covers(r, combos, p) {
      var i :| 0 <= i < |combos| && Point(r.fixed, r.names, combos[i]) == p;
      CoveredPointsAreInDomain(r, combos[i]);
    }
  }

  lemma SameMap<V>(p: map<string, V>, q: map<string, V>, r: Request<V>)
    requires p.Keys == q.Keys == r.fixed.Keys + NameSet(r.names)
    requires forall i | 0 <= i < |r.names| :: p[r.names[i]] == q[r.names[i]]
    requires forall k | k in r.fixed && k !in NameSet(r.names) :: p[k] == q[k]
    ensures p == q
  {
    forall k | k in p ensures p[k] == q[k] {
      if k in NameSet(r.names) { var i :| 0 <= i < |r.names| && r.names[i] == k; }
    }
  }

  /** Main result: the legal list is exactly the domain without the excluded points, with no repeats. */
  lemma LegalListIsExact<V>(r: Request<V>, fp: map<string, V> -> string, p: map<string, V>)
    requires r.values.Keys == NameSet(r.names) && NoDup(r.names)
    ensures Fit(r, Product(Lists(r)))
    ensures var legal := Unseen(r, fp, Product(Lists(r)));
            NoDup(legal) && (p in legal <==> InDomain(r, p) && fp(p) !in r.excluded)
  {
    CombosFit(r);
    UnseenAre(r, fp, Product(Lists(r)));
    PointsAreTheDomain(r, p);
  }

  // ----- shuffling -----

  function Exchange<T>(t: seq<T>, i: nat, j: nat): seq<T>
    requires i < |t| && j < |t|
  {
    t[i := t[j]][j := t[i]]
  }

  /** The generator picks a position at or before the one it is asked for. */
  ghost predicate PicksBelow(pick: nat -> nat) {
    forall k: nat :: pick(k) <= k
  }

  /** Positions `i` down to 1 exchanged, each with the one picked for it. */
  ghost function ShuffledFrom<T>(t: seq<T>, i: nat, pick: nat -> nat): (r: seq<T>)
    requires i < |t| && PicksBelow(pick)
    decreases i
  {
    if i == 0 then t else ShuffledFrom(Exchange(t, i, pick(i)), i - 1, pick)
  }

  ghost function Shuffled<T>(t: seq<T>, pick: nat -> nat): seq<T>
    requires PicksBelow(pick)
  {
    if t == [] then [] else ShuffledFrom(t, |t| - 1, pick)
  }

  /** `Random.shuffle`: exchanges each position, from the last, with one the generator picks at or before it. */
  method Shuffle<T>(s: seq<T>, pick: nat -> nat) returns (t: seq<T>)
    requires PicksBelow(pick)
    ensures t == Shuffled(s, pick)
  {
    t := s;
    if |s| == 0 { return; }
    var i := |s| - 1;
    while i > 0
      invariant 0 <= i < |s| && |t| == |s|
      invariant ShuffledFrom(t, i, pick) == Shuffled(s, pick)
    {
      var j := pick(i);
      t := t[i := t[j]][j := t[i]];
      i := i - 1;
    }
  }

  lemma ExchangePermutes<T>(t: seq<T>, i: nat, j: nat)
    requires i < |t| && j < |t|
    ensures multiset(Exchange(t, i, j)) == multiset(t)
  {
  }

  lemma {:induction false} ShuffledFromPermutes<T>(t: seq<T>, i: nat, pick: nat -> nat)
    requires i < |t| && PicksBelow(pick)
    ensures multiset(ShuffledFrom(t, i, pick)) == multiset(t)
    decreases i
  {
    if i > 0 {
      ExchangePermutes(t, i, pick(i));
      ShuffledFromPermutes(Exchange(t, i, pick(i)), i - 1, pick);
    }
  }

  lemma ShuffledPermutes<T>(t: seq<T>, pick: nat -> nat)
    requires PicksBelow(pick)
    ensures multiset(Shuffled(t, pick)) == multiset(t) && |Shuffled(t, pick)| == |t|
  {
    if t != [] { ShuffledFromPermutes(t, |t| - 1, pick); }
    assert |Shuffled(t, pick)| == |multiset(Shuffled(t, pick))| == |multiset(t)| == |t|;
  }

  /** Where everything behind `i` is in place already, some picks put the rest in place. */
  lemma {:induction false} SomePicksSuffice<T>(s: seq<T>, t: seq<T>, i: nat) returns (pick: nat -> nat)
    requires multiset(s) == multiset(t) && |s| == |t| && i < |s| && s[i + 1..] == t[i + 1..]
    ensures PicksBelow(pick) && ShuffledFrom(s, i, pick) == t
    decreases i
  {
    var j := FindUnplaced(s, t, i);
    PlaceOne(s, t, i, j);
    if i == 0 {
      pick := k => 0;
    } else {
      var rest := SomePicksSuffice(Exchange(s, i, j), t, i - 1);
      pick := (k: nat) => if k == i then j else rest(k);
      SamePicks(Exchange(s, i, j), i - 1, pick, rest);
    }
  }

  lemma PlaceOne<T>(s: seq<T>, t: seq<T>, i: nat, j: nat)
    requires multiset(s) == multiset(t) && |s| == |t| && i < |s| && s[i + 1..] == t[i + 1..] && j <= i && s[j] == t[i]
    ensures multiset(Exchange(s, i, j)) == multiset(t) && Exchange(s, i, j)[i..] == t[i..]
    ensures i == 0 ==> s == t
  {
    ExchangePermutes(s, i, j);
    var u := Exchange(s, i, j);
    assert forall k | i < k < |s| :: u[k] == s[k] == s[i + 1..][k - i - 1] == t[k];
  }

  /** The value wanted at `i` is among the first `i + 1`. */
  lemma FindUnplaced<T>(s: seq<T>, t: seq<T>, i: nat) returns (j: nat)
    requires multiset(s) == multiset(t) && |s| == |t| && i < |s| && s[i + 1..] == t[i + 1..]
    ensures j <= i && s[j] == t[i]
  {
    var a, b, rest := s[..i + 1], t[..i + 1], s[i + 1..];
    assert s == a + rest && t == b + rest;
    assert multiset(a) + multiset(rest) == multiset(b) + multiset(rest);
    assert multiset(a) == (multiset(a) + multiset(rest)) - multiset(rest);
    assert multiset(b) == (multiset(b) + multiset(rest)) - multiset(rest);
    assert b[i] in multiset(a);
    j :| 0 <= j < |a| && a[j] == t[i];
  }

  lemma {:induction false} SamePicks<T>(s: seq<T>, i: nat, p: nat -> nat, q: nat -> nat)
    requires i < |s| && PicksBelow(p) && PicksBelow(q) && forall k: nat | k <= i :: p(k) == q(k)
    ensures ShuffledFrom(s, i, p) == ShuffledFrom(s, i, q)
    decreases i
  {
    if i > 0 { SamePicks(Exchange(s, i, p(i)), i - 1, p, q); }
  }

  /** Main result: the shuffle gives an order of its argument's elements, and every order for some picks. */
  lemma ShuffleReachesExactlyThePermutations<T>(s: seq<T>, t: seq<T>)
    ensures multiset(t) == multiset(s) <==> exists pick :: PicksBelow(pick) && t == Shuffled(s, pick)
  {
    if multiset(t) == multiset(s) {
      assert |t| == |multiset(t)| == |multiset(s)| == |s|;
      var pick: nat -> nat := k => 0;
      if s != [] { pick := SomePicksSuffice(s, t, |s| - 1); }
      assert PicksBelow(pick) && t == Shuffled(s, pick);
    }
    forall pick | PicksBelow(pick) ensures multiset(Shuffled(s, pick)) == multiset(s) { ShuffledPermutes(s, pick); }
  }

  lemma {:induction false} ShuffledFromAppend<T>(t: seq<T>, x: T, i: nat, pick: nat -> nat)
    requires i < |t| && PicksBelow(pick)
    ensures ShuffledFrom(t + [x], i, pick) == ShuffledFrom(t, i, pick) + [x]
    decreases i
  {
    if i > 0 {
      var u := Exchange(t, i, pick(i));
      assert Exchange(t + [x], i, pick(i)) == u + [x];
      ShuffledFromAppend(u, x, i - 1, pick);
    }
  }

  /** What is left when the element at `j` is picked: the last one takes its place. */
  function Remaining<T>(s: seq<T>, j: nat): seq<T>
    requires j < |s|
  {
    var n := |s| - 1;
    if j < n then s[..n][j := s[n]] else s[..n]
  }

  lemma NothingShuffled<T>(s: seq<T>, pick: nat -> nat)
    requires s == [] && PicksBelow(pick)
    ensures Shuffled(s, pick) == []
  {
  }

  lemma RestNoDup<T>(s: seq<T>, j: nat)
    requires NoDup(s) && j < |s|
    ensures NoDup(Remaining(s, j))
  {
  }

  lemma Parted<T>(s: seq<T>, pick: nat -> nat)
    requires s != [] && PicksBelow(pick)
    ensures var n := |s| - 1; var r := Shuffled(s, pick);
            && |r| == |s| && r[n] == s[pick(n)] && r[..n] == Shuffled(Remaining(s, pick(n)), pick)
  {
    ShuffledPlacesTheLast(s, pick);
    ShuffledPermutes(s, pick);
    hide Shuffled, Remaining;
  }

  /** One exchange: the picked element goes to the end, the last one takes its place, and the rest is shuffled. */
  lemma ShuffledPlacesTheLast<T>(s: seq<T>, pick: nat -> nat)
    requires s != [] && PicksBelow(pick)
    ensures Shuffled(s, pick) == Shuffled(Remaining(s, pick(|s| - 1)), pick) + [s[pick(|s| - 1)]]
  {
    var n := |s| - 1;
    var rest := Remaining(s, pick(n));
    if n > 0 {
      assert Exchange(s, n, pick(n)) == rest + [s[pick(n)]];
      ShuffledFromAppend(rest, s[pick(n)], n - 1, pick);
    } else {
      assert s == [s[0]];
    }
  }

  /** Main result: different picks give different orders of distinct elements, so that with the result above every
      order belongs to exactly one way of picking: equally likely picks make equally likely orders. */
  lemma {:induction false} PicksAreRecoverable<T>(s: seq<T>, p: nat -> nat, q: nat -> nat)
    requires NoDup(s) && PicksBelow(p) && PicksBelow(q)
    ensures Shuffled(s, p) == Shuffled(s, q) <==> forall k: nat | k < |s| :: p(k) == q(k)
    decreases |s|
  {
    hide Shuffled;
    if s == [] {
      NothingShuffled(s, p);
      NothingShuffled(s, q);
    } else {
      var n := |s| - 1;
      Parted(s, p);
      Parted(s, q);
      if p(n) == q(n) {
        RestNoDup(s, p(n));
        PicksAreRecoverable(Remaining(s, p(n)), p, q);
      }
    }
  }

  lemma ShuffledNoDup<T>(s: seq<T>, t: seq<T>)
    requires multiset(t) == multiset(s) && NoDup(s)
    ensures NoDup(t) && |t| == |s| && forall x :: x in t <==> x in s
  {
    assert |multiset(t)| == |t| && |multiset(s)| == |s|;
    forall x ensures x in t <==> x in s { assert x in t <==> x in multiset(t); assert x in s <==> x in multiset(s); }
    forall i, j | 0 <= i < j < |t| ensures t[i] != t[j] {
      if t[i] == t[j] {
        TwiceInMultiset(t, i, j);
        OnceInMultiset(s, t[i]);
      }
    }
  }

  lemma TwiceInMultiset<T>(t: seq<T>, i: nat, j: nat)
    requires i < j < |t| && t[i] == t[j]
    ensures multiset(t)[t[i]] >= 2
  {
    assert t == t[..i] + [t[i]] + t[i + 1..j] + [t[j]] + t[j + 1..];
  }

  lemma {:induction false} OnceInMultiset<T>(s: seq<T>, x: T)
    requires NoDup(s)
    ensures multiset(s)[x] <= 1
    decreases |s|
  {
    if s != [] {
      OnceInMultiset(s[1..], x);
      assert s == [s[0]] + s[1..];
      if x == s[0] { assert x !in s[1..]; assert multiset(s[1..])[x] == 0; }
    }
  }

  // ----- the proposer -----

  /** The values of one name without repetitions: `dict.fromkeys`, entry by entry. */
  method Choices<V(==)>(raw: seq<V>) returns (choices: seq<V>)
    ensures choices == Dedupe(raw)
  {
    choices := [];
    for n := 0 to |raw|
      invariant choices == Dedupe(raw[..n])
    {
      assert raw[..n + 1][..n] == raw[..n];
      if raw[n] !in choices { choices := choices + [raw[n]]; }
    }
    assert raw[..|raw|] == raw;
  }

  /** What a proposal must be: the first points of the shuffled legal list. */
  ghost predicate Answers<V>(r: Request<V>, fp: map<string, V> -> string, legal: seq<map<string, V>>,
                             pick: nat -> nat, out: Proposal<V>)
    requires r.values.Keys == NameSet(r.names) && PicksBelow(pick)
  {
    && |Shuffled(legal, pick)| >= r.count >= 0 && out.points == Shuffled(legal, pick)[..r.count]
    && |out.points| == r.count && NoDup(out.points)
    && (forall i | 0 <= i < |out.points| :: InDomain(r, out.points[i]) && fp(out.points[i]) !in r.excluded)
    && out.available == |legal| && out.cardinality == |legal| + |r.excluded|
  }

  /** Fails exactly when the request is ill-formed or fewer than `count` legal points remain; otherwise returns the
      first `count` points of the shuffled legal list, which are distinct points of the domain, none excluded. */
  method Propose<V(==, !new)>(r: Request<V>, fp: map<string, V> -> string, pick: nat -> nat)
    returns (out: Option<Proposal<V>>)
    requires PicksBelow(pick)
    ensures WellFormed(r) ==> Fit(r, Product(Lists(r)))
    ensures out.Some? <==> WellFormed(r) && |Unseen(r, fp, Product(Lists(r)))| >= r.count
    ensures out.Some? ==> Answers(r, fp, Unseen(r, fp, Product(Lists(r))), pick, out.value)
  {
    hide Point, Product, InDomain, NoDup, Dedupe, Shuffled, PicksBelow;
    if WellFormed(r) { CombosFit(r); }
    if r.names == [] || !NoDup(r.names) || r.values.Keys != NameSet(r.names) || !(1 <= r.count <= 64) || r.seed < 0 {
      return None;
    }
    var lists: seq<seq<V>> := [];
    for n := 0 to |r.names|
      invariant |lists| == n
      invariant forall i | 0 <= i < n :: |r.values[r.names[i]]| >= 2 && lists[i] == Dedupe(r.values[r.names[i]])
    {
      var raw := r.values[r.names[n]];
      if |raw| < 2 { return None; }
      var choices := Choices(raw);
      lists := lists + [choices];
    }
    assert lists == Lists(r);
    var combos := Product(lists);
    CombosFit(r);
    hide Lists, Size;
    var legal: seq<map<string, V>> := [];
    for n := 0 to |combos|
      invariant Fit(r, combos[..n])
      invariant legal == Unseen(r, fp, combos[..n])
    {
      var parameters := Point(r.fixed, r.names, combos[n]);
      assert combos[..n + 1][..n] == combos[..n];
      if fp(parameters) !in r.excluded { legal := legal + [parameters]; }
    }
    assert combos[..|combos|] == combos;
    if |legal| < r.count { return None; }
    var shuffled := Shuffle(legal, pick);
    ShuffledPermutes(legal, pick);
    PrefixAnswers(r, fp, legal, pick);
    out := Some(Proposal(shuffled[..r.count], |legal|, |legal| + |r.excluded|));
  }

  lemma PrefixAnswers<V(!new)>(r: Request<V>, fp: map<string, V> -> string, legal: seq<map<string, V>>,
                               pick: nat -> nat)
    requires WellFormed(r) && Fit(r, Product(Lists(r))) && legal == Unseen(r, fp, Product(Lists(r)))
    requires PicksBelow(pick) && |Shuffled(legal, pick)| == |legal| >= r.count
    ensures Answers(r, fp, legal, pick,
                    Proposal(Shuffled(legal, pick)[..r.count], |legal|, |legal| + |r.excluded|))
  {
    var shuffled := Shuffled(legal, pick);
    ShuffledPermutes(legal, pick);
    hide Product, Lists, Unseen, InDomain, Shuffled;
    LegalListIsExact(r, fp, map[]);
    forall p ensures p in legal <==> InDomain(r, p) && fp(p) !in r.excluded { LegalListIsExact(r, fp, p); }
    ShuffledNoDup(legal, shuffled);
    var points := shuffled[..r.count];
    forall i | 0 <= i < |points| ensures InDomain(r, points[i]) && fp(points[i]) !in r.excluded {
      assert shuffled[i] in shuffled;
    }
  }

  lemma SameElements<T>(s: seq<T>, t: seq<T>)
    requires NoDup(s) && NoDup(t) && forall x :: x in s <==> x in t
    ensures multiset(s) == multiset(t)
  {
    forall x ensures multiset(s)[x] == multiset(t)[x] {
      OnceInMultiset(s, x);
      OnceInMultiset(t, x);
      assert x in multiset(s) <==> x in s;
      assert x in multiset(t) <==> x in t;
    }
  }

  lemma {:induction false} TheOthers<T>(s: seq<T>, taken: seq<T>) returns (rest: seq<T>)
    requires NoDup(s)
    ensures NoDup(rest) && forall x :: x in rest <==> x in s && x !in taken
    decreases |s|
  {
    rest := [];
    if s != [] {
      var more := TheOthers(s[1..], taken);
      rest := (if s[0] in taken then [] else [s[0]]) + more;
      assert forall x :: x in s <==> x == s[0] || x in s[1..];
    }
  }

  /** Main result: nothing that may be proposed is left out: every list of `count` different legal points is the answer
      for some picks. */
  lemma EveryBatchIsAnswered<V(!new)>(r: Request<V>, fp: map<string, V> -> string, points: seq<map<string, V>>)
    requires WellFormed(r) && NoDup(points) && |points| == r.count
    requires forall i | 0 <= i < |points| :: InDomain(r, points[i]) && fp(points[i]) !in r.excluded
    ensures Fit(r, Product(Lists(r)))
    ensures exists pick ::
              PicksBelow(pick) && points <= Shuffled(Unseen(r, fp, Product(Lists(r))), pick)
  {
    LegalListIsExact(r, fp, map[]);
    var legal := Unseen(r, fp, Product(Lists(r)));
    hide Product, Lists, Unseen, InDomain, WellFormed;
    forall i | 0 <= i < |points| ensures points[i] in legal { LegalListIsExact(r, fp, points[i]); }
    var rest := TheOthers(legal, points);
    NoDupAppend(points, rest);
    var order := points + rest;
    forall p ensures p in order <==> p in legal {}
    SameElements(order, legal);
    ShuffleReachesExactlyThePermutations(legal, order);
  }

  // ----- counting -----

  lemma {:induction false} NoDupSize<T>(s: seq<T>)
    requires NoDup(s)
    ensures |Elements(s)| == |s|
    decreases |s|
  {
    if s != [] {
      NoDupSize(s[1..]);
      assert s[0] !in s[1..];
      assert Elements(s) == {s[0]} + Elements(s[1..]) by { assert forall x :: x in s <==> x == s[0] || x in s[1..]; }
    }
  }

  lemma {:induction false} InjectiveImage<V(!new)>(points: set<map<string, V>>, fp: map<string, V> -> string)
    requires Injective(fp)
    ensures |set p | p in points :: fp(p)| == |points|
    decreases |points|
  {
    if points != {} {
      var p :| p in points;
      InjectiveImage(points - {p}, fp);
      assert (set q | q in points :: fp(q)) == (set q | q in points - {p} :: fp(q)) + {fp(p)};
    }
  }

  /** All points of the domain. */
  ghost function Domain<V>(r: Request<V>): set<map<string, V>>
    requires r.values.Keys == NameSet(r.names) && NoDup(r.names)
  {
    CombosFit(r);
    set i | 0 <= i < |Product(Lists(r))| :: Point(r.fixed, r.names, Product(Lists(r))[i])
  }

  lemma DomainIs<V>(r: Request<V>, p: map<string, V>)
    requires r.values.Keys == NameSet(r.names) && NoDup(r.names)
    ensures p in Domain(r) <==> InDomain(r, p)
  {
    CombosFit(r);
    PointsAreTheDomain(r, p);
    hide Product, Lists, Point, InDomain;
  }

  /** The domain has as many points as there are ways to choose. */
  lemma DomainSize<V>(r: Request<V>)
    requires r.values.Keys == NameSet(r.names) && NoDup(r.names)
    ensures |Domain(r)| == Size(Lists(r))
  {
    CombosFit(r);
    var open := r.(excluded := {});
    var combos := Product(Lists(r));
    assert Lists(open) == Lists(r);
    var fp := (p: map<string, V>) => "";
    UnseenAre(open, fp, combos);
    NoneExcluded(open, fp, combos);
    var all := Unseen(open, fp, combos);
    NoDupSize(all);
    assert Elements(all) == Domain(r) by {
      forall p ensures p in all <==> p in Domain(r) {}
    }
  }

  lemma {:induction false} NoneExcluded<V>(r: Request<V>, fp: map<string, V> -> string, combos: seq<seq<V>>)
    requires r.excluded == {} && Fit(r, combos)
    ensures |Unseen(r, fp, combos)| == |combos|
    decreases |combos|
  {
    if combos != [] { NoneExcluded(r, fp, combos[..|combos| - 1]); }
  }

  /** Every excluded fingerprint is that of a domain point. */
  ghost predicate ExcludesDomainPoints<V(!new)>(r: Request<V>, fp: map<string, V> -> string)
    requires r.values.Keys == NameSet(r.names)
  {
    forall f | f in r.excluded :: exists p :: InDomain(r, p) && fp(p) == f
  }

  /** The domain points whose fingerprint is excluded. */
  ghost function Seen<V(!new)>(r: Request<V>, fp: map<string, V> -> string): set<map<string, V>>
    requires r.values.Keys == NameSet(r.names) && NoDup(r.names)
  {
    set p | p in Domain(r) && fp(p) in r.excluded
  }

  lemma SeenImages<V(!new)>(r: Request<V>, fp: map<string, V> -> string)
    requires r.values.Keys == NameSet(r.names) && NoDup(r.names)
    ensures var images := set p | p in Seen(r, fp) :: fp(p);
            images <= r.excluded && (images == r.excluded <==> ExcludesDomainPoints(r, fp))
  {
    forall p ensures p in Domain(r) <==> InDomain(r, p) { DomainIs(r, p); }
    hide Domain, InDomain;
    var images := set p | p in Seen(r, fp) :: fp(p);
    if ExcludesDomainPoints(r, fp) {
      forall f | f in r.excluded ensures f in images {
        var p :| InDomain(r, p) && fp(p) == f;
        assert p in Seen(r, fp);
      }
    }
    if images == r.excluded {
      forall f | f in r.excluded ensures exists p :: InDomain(r, p) && fp(p) == f {
        var p :| p in Seen(r, fp) && fp(p) == f;
      }
    }
  }

  /** Main result: the reported cardinality is never below the true one, and equals it exactly when every excluded
      fingerprint is that of a domain point. */
  lemma ReportedCardinality<V(!new)>(r: Request<V>, fp: map<string, V> -> string)
    requires WellFormed(r) && Injective(fp)
    ensures Fit(r, Product(Lists(r)))
    ensures var reported := |Unseen(r, fp, Product(Lists(r)))| + |r.excluded|;
            reported >= Size(Lists(r)) && (reported == Size(Lists(r)) <==> ExcludesDomainPoints(r, fp))
  {
    CombosFit(r);
    DomainSize(r);
    SeenImages(r, fp);
    InjectiveImage(Seen(r, fp), fp);
    UnseenAre(r, fp, Product(Lists(r)));
    hide Injective, InDomain, ExcludesDomainPoints, Domain, Product, Lists, Size, Point, Unseen;
    var legal := Unseen(r, fp, Product(Lists(r)));
    NoDupSize(legal);
    forall p ensures p in legal <==> p in Domain(r) - Seen(r, fp) {
      PointsAreTheDomain(r, p);
      DomainIs(r, p);
    }
    assert Elements(legal) == Domain(r) - Seen(r, fp);
    assert |Domain(r) - Seen(r, fp)| == |Domain(r)| - |Seen(r, fp)| by { assert Seen(r, fp) <= Domain(r); }
    SubsetSize(set p | p in Seen(r, fp) :: fp(p), r.excluded);
  }

  lemma SubsetSize<T>(a: set<T>, b: set<T>)
    requires a <= b
    ensures |a| <= |b| && (|a| == |b| <==> a == b)
  {
    assert |b - a| == |b| - |a|;
    if |a| == |b| { assert b - a == {}; assert b == a + (b - a); }
  }

  // ----- a whole campaign -----

  /** Calls on one domain, each excluding at least everything proposed before it. */
  predicate Campaign<V(==)>(rounds: seq<(Request<V>, seq<map<string, V>>)>, fp: map<string, V> -> string) {
    && (forall k | 0 <= k < |rounds| ::
          && NoDup(rounds[k].1)
          && forall i | 0 <= i < |rounds[k].1| :: fp(rounds[k].1[i]) !in rounds[k].0.excluded)
    && (forall k, l | 0 <= k < l < |rounds| ::
          forall i | 0 <= i < |rounds[k].1| :: fp(rounds[k].1[i]) in rounds[l].0.excluded)
  }

  function Proposed<V>(rounds: seq<(Request<V>, seq<map<string, V>>)>): seq<map<string, V>> {
    if rounds == [] then [] else Proposed(rounds[..|rounds| - 1]) + rounds[|rounds| - 1].1
  }

  lemma {:induction false} ProposedComesFromARound<V>(rounds: seq<(Request<V>, seq<map<string, V>>)>, p: map<string, V>)
    requires p in Proposed(rounds)
    ensures exists k :: 0 <= k < |rounds| && p in rounds[k].1
    decreases |rounds|
  {
    var n := |rounds| - 1;
    if p in Proposed(rounds[..n]) {
      ProposedComesFromARound(rounds[..n], p);
      var k :| 0 <= k < n && p in rounds[..n][k].1;
      assert rounds[k] == rounds[..n][k];
    } else {
      assert p in rounds[n].1;
    }
  }

  /** Main result: over a whole campaign no point is ever proposed twice. */
  lemma {:induction false} CampaignNeverRepeats<V>(rounds: seq<(Request<V>, seq<map<string, V>>)>,
                                                  fp: map<string, V> -> string)
    requires Campaign(rounds, fp)
    ensures NoDup(Proposed(rounds))
    decreases |rounds|
  {
    if rounds != [] {
      var n := |rounds| - 1;
      var before, last := Proposed(rounds[..n]), rounds[n].1;
      assert forall k | 0 <= k < n :: rounds[..n][k] == rounds[k];
      CampaignNeverRepeats(rounds[..n], fp);
      forall i, j | 0 <= i < |before| && 0 <= j < |last| ensures before[i] != last[j] {
        assert before[i] in before;
        ProposedComesFromARound(rounds[..n], before[i]);
        var k :| 0 <= k < n && before[i] in rounds[k].1;
        var m :| 0 <= m < |rounds[k].1| && rounds[k].1[m] == before[i];
        assert fp(rounds[k].1[m]) in rounds[n].0.excluded;
      }
    }
  }

  // ----- a campaign run by the proposer itself -----

  ghost function Outside<V(!new)>(domain: set<map<string, V>>, fp: map<string, V> -> string, excluded: set<string>)
    : set<map<string, V>>
  {
    set p | p in domain && fp(p) !in excluded
  }

  /** The domain points not excluded yet. */
  ghost function Left<V(!new)>(r: Request<V>, fp: map<string, V> -> string, excluded: set<string>)
    : set<map<string, V>>
    requires r.values.Keys == NameSet(r.names) && NoDup(r.names)
  {
    Outside(Domain(r), fp, excluded)
  }

  lemma LeftIsUnseen<V(!new)>(r: Request<V>, fp: map<string, V> -> string, excluded: set<string>)
    requires WellFormed(r)
    ensures var s := r.(excluded := excluded);
            && WellFormed(s) && Fit(s, Product(Lists(s)))
            && |Unseen(s, fp, Product(Lists(s)))| == |Left(r, fp, excluded)|
  {
    var s := r.(excluded := excluded);
    CombosFit(s);
    LegalListIsExact(s, fp, map[]);
    hide Product, Lists, Unseen, InDomain, Domain;
    var legal := Unseen(s, fp, Product(Lists(s)));
    NoDupSize(legal);
    forall p ensures p in Elements(legal) <==> p in Left(r, fp, excluded) {
      LegalListIsExact(s, fp, p);
      DomainIs(r, p);
      SameDomain(r, s, p);
    }
    assert Elements(legal) == Left(r, fp, excluded);
  }

  lemma SameDomain<V>(r: Request<V>, s: Request<V>, p: map<string, V>)
    requires r.values.Keys == NameSet(r.names) && s == r.(excluded := s.excluded)
    ensures InDomain(s, p) <==> InDomain(r, p)
  {
  }

  function Fingerprints<V(==)>(points: seq<map<string, V>>, fp: map<string, V> -> string): set<string> {
    set p | p in points :: fp(p)
  }

  lemma TakingShrinks<V(!new)>(domain: set<map<string, V>>, fp: map<string, V> -> string, excluded: set<string>,
                               points: seq<map<string, V>>)
    requires points != [] && points[0] in domain && fp(points[0]) !in excluded
    ensures |Outside(domain, fp, excluded + Fingerprints(points, fp))| < |Outside(domain, fp, excluded)|
  {
    var before, after := Outside(domain, fp, excluded), Outside(domain, fp, excluded + Fingerprints(points, fp));
    assert points[0] in points && fp(points[0]) in Fingerprints(points, fp);
    assert points[0] in before && points[0] !in after && after <= before;
    SubsetSize(after, before);
  }

  lemma TakingIsExact<V(!new)>(domain: set<map<string, V>>, fp: map<string, V> -> string, excluded: set<string>,
                               points: seq<map<string, V>>)
    requires Injective(fp) && NoDup(points)
    requires forall i | 0 <= i < |points| :: points[i] in domain && fp(points[i]) !in excluded
    ensures |Outside(domain, fp, excluded)| ==
            |points| + |Outside(domain, fp, excluded + Fingerprints(points, fp))|
  {
    var before, after := Outside(domain, fp, excluded), Outside(domain, fp, excluded + Fingerprints(points, fp));
    NoDupSize(points);
    forall p | p in before - after ensures p in Elements(points) {
      var q :| q in points && fp(q) == fp(p);
      assert q == p;
    }
    forall p | p in Elements(points) ensures p in before - after {
      var i :| 0 <= i < |points| && points[i] == p;
      assert fp(p) in Fingerprints(points, fp);
    }
    assert before - after == Elements(points);
    hide Injective, Elements, Outside;
    assert after <= before && |before - after| == |before| - |after| by { OutsideLess(domain, fp, excluded, points); }
  }

  lemma OutsideLess<V(!new)>(domain: set<map<string, V>>, fp: map<string, V> -> string, excluded: set<string>,
                             points: seq<map<string, V>>)
    ensures Outside(domain, fp, excluded + Fingerprints(points, fp)) <= Outside(domain, fp, excluded)
  {
  }

  /** Proposing points takes them, and with an injective fingerprint only them, from what is left. */
  lemma ProposingTakes<V(!new)>(r: Request<V>, fp: map<string, V> -> string, excluded: set<string>,
                                points: seq<map<string, V>>)
    requires WellFormed(r) && NoDup(points) && points != []
    requires forall i | 0 <= i < |points| :: InDomain(r, points[i]) && fp(points[i]) !in excluded
    ensures |Left(r, fp, excluded + Fingerprints(points, fp))| < |Left(r, fp, excluded)|
    ensures Injective(fp) ==>
              |Left(r, fp, excluded)| == |points| + |Left(r, fp, excluded + Fingerprints(points, fp))|
  {
    forall i | 0 <= i < |points| ensures points[i] in Domain(r) { DomainIs(r, points[i]); }
    hide Domain, InDomain, Outside, Fingerprints, Injective, NoDup;
    TakingShrinks(Domain(r), fp, excluded, points);
    if Injective(fp) { TakingIsExact(Domain(r), fp, excluded, points); }
  }

  /** A whole campaign: proposals are asked for, and their fingerprints fed back, until one is refused. No point is
      proposed twice; the campaign stops only when fewer than `count` points remain; with an injective fingerprint,
      what was proposed and what remains are together what was there. */
  method RunCampaign<V(==, !new)>(r: Request<V>, fp: map<string, V> -> string, picks: nat -> nat -> nat)
    returns (proposed: seq<map<string, V>>)
    requires WellFormed(r) && forall k: nat :: PicksBelow(picks(k))
    ensures NoDup(proposed)
    ensures forall p | p in proposed :: InDomain(r, p) && fp(p) !in r.excluded
    ensures |Left(r, fp, r.excluded + Fingerprints(proposed, fp))| < r.count
    ensures Injective(fp) ==>
              |Left(r, fp, r.excluded)| == |proposed| + |Left(r, fp, r.excluded + Fingerprints(proposed, fp))|
  {
    hide Product, Lists, Unseen, InDomain, Left, PicksBelow, Injective;
    proposed := [];
    var excluded, rounds := r.excluded, 0;
    assert Fingerprints<V>([], fp) == {} && r.excluded + {} == r.excluded;
    while true
      invariant excluded == r.excluded + Fingerprints(proposed, fp) && NoDup(proposed)
      invariant forall p | p in proposed :: InDomain(r, p) && fp(p) !in r.excluded
      invariant Injective(fp) ==> |Left(r, fp, r.excluded)| == |proposed| + |Left(r, fp, excluded)|
      decreases |Left(r, fp, excluded)|
    {
      LeftIsUnseen(r, fp, excluded);
      var s := r.(excluded := excluded);
      var out := Propose(s, fp, picks(rounds));
      if out.None? { return; }
      var points := out.value.points;
      Counted(r);
      forall i | 0 <= i < |points| ensures InDomain(r, points[i]) && fp(points[i]) !in excluded {
        SameDomain(r, s, points[i]);
      }
      ProposingTakes(r, fp, excluded, points);
      forall p | p in proposed ensures p !in points { assert fp(p) in excluded; }
      NoDupAppend(proposed, points);
      FingerprintsAppend(proposed, points, fp);
      proposed, excluded, rounds := proposed + points, excluded + Fingerprints(points, fp), rounds + 1;
    }
  }

  lemma Counted<V>(r: Request<V>)
    requires WellFormed(r)
    ensures r.count >= 1
  {
  }

  lemma FingerprintsAppend<V>(a: seq<map<string, V>>, b: seq<map<string, V>>, fp: map<string, V> -> string)
    ensures Fingerprints(a + b, fp) == Fingerprints(a, fp) + Fingerprints(b, fp)
  {
    forall f | f in Fingerprints(a, fp) + Fingerprints(b, fp) ensures f in Fingerprints(a + b, fp) {
      var p :| (p in a || p in b) && fp(p) == f;
      assert p in a + b;
    }
  }
}
