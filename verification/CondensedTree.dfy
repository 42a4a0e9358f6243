/** The condensed tree of HDBSCAN* as a recursive specification over dendrogram nodes, and the
    two selection rules.  A condensed cluster is named by the dendrogram node at which it is
    born, its top. */
module CondensedTree {
  import opened Dendrogram
  import opened SetSum

  ghost predicate Ready(t: Linkage, m: nat) { t.WellFormed() && m >= 2 }

  predicate Big(t: Linkage, m: nat, v: int)
    requires 0 <= v < t.Total()
  {
    t.Size(v) >= m
  }

  /** Where a cluster that passes through `v` ends: the first node whose children are both big
      (the cluster splits) or both small (it dissolves). */
  ghost function End(t: Linkage, m: nat, v: int): (e: int)
    requires Ready(t, m) && t.Inner(v)
    ensures t.Inner(e) && e in t.Under(v)
    ensures Big(t, m, t.Left(e)) == Big(t, m, t.Right(e))
    decreases v
  {
    var l, r := t.Left(v), t.Right(v);
    if Big(t, m, l) == Big(t, m, r) then v
    else if Big(t, m, l) then End(t, m, l) else End(t, m, r)
  }

  ghost predicate HasKids(t: Linkage, m: nat, v: int)
    requires Ready(t, m) && t.Inner(v)
  {
    Big(t, m, t.Left(End(t, m, v)))
  }

  ghost function KidL(t: Linkage, m: nat, v: int): (k: int)
    requires Ready(t, m) && t.Inner(v) && HasKids(t, m, v)
    ensures t.Inner(k) && k < v
  {
    t.Left(End(t, m, v))
  }

  ghost function KidR(t: Linkage, m: nat, v: int): (k: int)
    requires Ready(t, m) && t.Inner(v) && HasKids(t, m, v)
    ensures t.Inner(k) && k < v
  {
    t.Right(End(t, m, v))
  }

  /** `points` leaving with density `gain` above their cluster's birth. */
  ghost function Mass(gain: real, points: nat): real { gain * points as real }

  /** Excess of mass collected from `v` on by a cluster born at density `birth`: every point
      counts with the density at which it leaves the cluster, less the birth density. */
  ghost function Excess(t: Linkage, m: nat, v: int, birth: real): real
    requires Ready(t, m) && t.Inner(v)
    decreases v
  {
    var l, r := t.Left(v), t.Right(v);
    var gain := t.Lambda(v) - birth;
    if Big(t, m, l) == Big(t, m, r) then Mass(gain, t.Size(v))
    else if Big(t, m, l) then Mass(gain, t.Size(r)) + Excess(t, m, l, birth)
    else Mass(gain, t.Size(l)) + Excess(t, m, r, birth)
  }

  ghost function Birth(t: Linkage, v: int): real
    requires t.WellFormed() && 0 <= v < t.Total()
  {
    if v == t.Root() then 0.0 else t.Lambda(t.Parent(v))
  }

  ghost function Stability(t: Linkage, m: nat, v: int): real
    requires Ready(t, m) && t.Inner(v)
  {
    Excess(t, m, v, Birth(t, v))
  }

  /** The condensed clusters at and below the cluster with top `v`. */
  ghost function Tops(t: Linkage, m: nat, v: int): (s: set<int>)
    requires Ready(t, m) && t.Inner(v)
    ensures v in s && forall x | x in s :: t.Inner(x) && x <= v
    decreases v
  {
    if HasKids(t, m, v) then {v} + Tops(t, m, KidL(t, m, v)) + Tops(t, m, KidR(t, m, v)) else {v}
  }

  /** Bottom-up excess of mass: the value and the clusters chosen at and below `v`. */
  ghost function Best(t: Linkage, m: nat, v: int): real
    requires Ready(t, m) && t.Inner(v)
    decreases v
  {
    if !HasKids(t, m, v) then Stability(t, m, v)
    else var sub := Best(t, m, KidL(t, m, v)) + Best(t, m, KidR(t, m, v));
         if sub > Stability(t, m, v) then sub else Stability(t, m, v)
  }

  ghost function Chosen(t: Linkage, m: nat, v: int): (s: set<int>)
    requires Ready(t, m) && t.Inner(v)
    ensures s <= Tops(t, m, v)
    decreases v
  {
    if HasKids(t, m, v) &&
       Best(t, m, KidL(t, m, v)) + Best(t, m, KidR(t, m, v)) > Stability(t, m, v)
    then Chosen(t, m, KidL(t, m, v)) + Chosen(t, m, KidR(t, m, v))
    else {v}
  }

  /** The condensed clusters at and below `v` that have no child clusters. */
  ghost function Childless(t: Linkage, m: nat, v: int): set<int>
    requires Ready(t, m) && t.Inner(v)
  {
    set x | x in Tops(t, m, v) && !HasKids(t, m, x)
  }

  /** The clusters the flat extraction keeps. */
  ghost function Selection(t: Linkage, m: nat, allowRoot: bool, leafMode: bool): (s: set<int>)
    requires Ready(t, m)
  {
    var root := t.Root();
    if leafMode then
      if allowRoot then Childless(t, m, root) else Childless(t, m, root) - {root}
    else if allowRoot then Chosen(t, m, root)
    else if HasKids(t, m, root) then
      Chosen(t, m, KidL(t, m, root)) + Chosen(t, m, KidR(t, m, root))
    else {}
  }

  /** No cluster of the set lies below another one. */
  ghost predicate Antichain(t: Linkage, s: set<int>)
    requires t.WellFormed()
  {
    && (forall x | x in s :: 0 <= x < t.Total())
    && (forall x, y | x in s && y in s && x != y :: x !in t.Under(y))
  }

  ghost function Stabilities(t: Linkage, m: nat): int -> real {
    v => if Ready(t, m) && t.Inner(v) then Stability(t, m, v) else 0.0
  }

  ghost function Weight(t: Linkage, m: nat, s: set<int>): real {
    Sum(s, Stabilities(t, m))
  }

  // ---------- structure of the condensed tree ----------

  lemma {:induction false} TopsUnder(t: Linkage, m: nat, v: int)
    requires Ready(t, m) && t.Inner(v)
    ensures Tops(t, m, v) <= t.Under(v)
    decreases v
  {
    if HasKids(t, m, v) {
      KidsUnder(t, m, v);
      TopsUnder(t, m, KidL(t, m, v));
      TopsUnder(t, m, KidR(t, m, v));
    }
  }

  lemma KidsUnder(t: Linkage, m: nat, v: int)
    requires Ready(t, m) && t.Inner(v) && HasKids(t, m, v)
    ensures t.Under(KidL(t, m, v)) <= t.Under(v) && t.Under(KidR(t, m, v)) <= t.Under(v)
    ensures t.Under(KidL(t, m, v)) !! t.Under(KidR(t, m, v))
    ensures v !in t.Under(KidL(t, m, v)) && v !in t.Under(KidR(t, m, v))
    ensures t.Parent(KidL(t, m, v)) == t.Parent(KidR(t, m, v)) == End(t, m, v)
  {
    var e := End(t, m, v);
    assert t.HasChild(e, t.Left(e)) && t.HasChild(e, t.Right(e));
    UnderTransitive(t, e, v);
    UnderTransitive(t, t.Left(e), e);
    UnderTransitive(t, t.Right(e), e);
    ChildrenDisjoint(t, e);
  }

  /** Every condensed cluster but the root's own has at least m points. */
  lemma {:induction false} TopsAreBig(t: Linkage, m: nat, v: int, x: int)
    requires Ready(t, m) && t.Inner(v) && x in Tops(t, m, v) && x != v
    ensures Big(t, m, x) && 0 <= x < t.Root()
    decreases v
  {
    var l, r := KidL(t, m, v), KidR(t, m, v);
    var k := if x in Tops(t, m, l) then l else r;
    assert t.HasChild(End(t, m, v), k);
    if x != k { TopsAreBig(t, m, k, x); }
  }

  // ---------- optimality of the bottom-up selection ----------

  lemma Scale(gain: real, k: nat)
    requires gain >= 0.0
    ensures Mass(gain, k) >= 0.0
  {
  }

  lemma {:induction false} ExcessNonNegative(t: Linkage, m: nat, v: int, birth: real)
    requires Ready(t, m) && t.Inner(v) && birth <= t.Lambda(v)
    ensures Excess(t, m, v, birth) >= 0.0
    decreases v
  {
    var l, r := t.Left(v), t.Right(v);
    var gain := t.Lambda(v) - birth;
    Scale(gain, t.Size(v));
    Scale(gain, t.Size(l));
    Scale(gain, t.Size(r));
    if Big(t, m, l) != Big(t, m, r) {
      var c := if Big(t, m, l) then l else r;
      assert t.HasChild(v, c);
      LambdaRises(t, v, c);
      ExcessNonNegative(t, m, c, birth);
    }
  }

  lemma StabilityNonNegative(t: Linkage, m: nat, v: int)
    requires Ready(t, m) && t.Inner(v)
    ensures Stability(t, m, v) >= 0.0
  {
    if v != t.Root() { LambdaRises(t, t.Parent(v), v); }
    ExcessNonNegative(t, m, v, Birth(t, v));
  }

  /** No antichain below `v` outweighs the bottom-up value of `v`. */
  lemma {:induction false} NoneBetter(t: Linkage, m: nat, v: int, a: set<int>)
    requires Ready(t, m) && t.Inner(v) && a <= Tops(t, m, v) && Antichain(t, a)
    ensures Weight(t, m, a) <= Best(t, m, v)
    decreases v
  {
    StabilityNonNegative(t, m, v);
    TopsUnder(t, m, v);
    if v in a {
      assert a == {v};
      SumRemove(a, Stabilities(t, m), v);
    } else if HasKids(t, m, v) {
      NoneBetterKids(t, m, v, a);
    } else {
      assert a == {};
    }
  }

  lemma {:induction false} NoneBetterKids(t: Linkage, m: nat, v: int, a: set<int>)
    requires Ready(t, m) && t.Inner(v) && HasKids(t, m, v) && Antichain(t, a)
    requires a <= Tops(t, m, KidL(t, m, v)) + Tops(t, m, KidR(t, m, v))
    ensures Weight(t, m, a) <= Best(t, m, KidL(t, m, v)) + Best(t, m, KidR(t, m, v))
    decreases v, 0
  {
    var l, r := KidL(t, m, v), KidR(t, m, v);
    KidsUnder(t, m, v);
    TopsUnder(t, m, l);
    TopsUnder(t, m, r);
    var al, ar := a * Tops(t, m, l), a * Tops(t, m, r);
    assert a == al + ar;
    SumUnion(al, ar, Stabilities(t, m));
    NoneBetter(t, m, l, al);
    NoneBetter(t, m, r, ar);
  }

  /** The clusters chosen below `v` are an antichain of exactly the bottom-up value. */
  lemma {:induction false} ChosenAttains(t: Linkage, m: nat, v: int)
    requires Ready(t, m) && t.Inner(v)
    ensures Antichain(t, Chosen(t, m, v)) && Weight(t, m, Chosen(t, m, v)) == Best(t, m, v)
    decreases v
  {
    if Chosen(t, m, v) == {v} {
      SumRemove({v}, Stabilities(t, m), v);
      if HasKids(t, m, v) { ChosenKidsAttain(t, m, v); }
    } else {
      ChosenKidsAttain(t, m, v);
    }
  }

  lemma {:induction false} ChosenKidsAttain(t: Linkage, m: nat, v: int)
    requires Ready(t, m) && t.Inner(v) && HasKids(t, m, v)
    ensures var s := Chosen(t, m, KidL(t, m, v)) + Chosen(t, m, KidR(t, m, v));
            && Antichain(t, s) && v !in s && s <= Tops(t, m, v)
            && Weight(t, m, s) == Best(t, m, KidL(t, m, v)) + Best(t, m, KidR(t, m, v))
    decreases v, 0
  {
    var l, r := KidL(t, m, v), KidR(t, m, v);
    ChosenAttains(t, m, l);
    ChosenAttains(t, m, r);
    KidsUnder(t, m, v);
    TopsUnder(t, m, l);
    TopsUnder(t, m, r);
    SumUnion(Chosen(t, m, l), Chosen(t, m, r), Stabilities(t, m));
    DisjointAntichains(t, Chosen(t, m, l), Chosen(t, m, r), l, r);
  }

  lemma DisjointAntichains(t: Linkage, a: set<int>, b: set<int>, l: int, r: int)
    requires t.WellFormed() && 0 <= l < t.Total() && 0 <= r < t.Total()
    requires Antichain(t, a) && Antichain(t, b) && a <= t.Under(l) && b <= t.Under(r)
    requires t.Under(l) !! t.Under(r)
    ensures Antichain(t, a + b)
  {
    forall x, y | x in a + b && y in a + b && x != y ensures x !in t.Under(y) {
      if y in a { UnderTransitive(t, y, l); } else { UnderTransitive(t, y, r); }
    }
  }

  /** Excess-of-mass selection is optimal: it is an antichain of condensed clusters, and no
      antichain (without the root when the root is forbidden) has a larger total stability. */
  lemma SelectionOptimal(t: Linkage, m: nat, allowRoot: bool, rival: set<int>)
    requires Ready(t, m)
    requires rival <= Tops(t, m, t.Root()) && Antichain(t, rival)
    requires allowRoot || t.Root() !in rival
    ensures var s := Selection(t, m, allowRoot, false);
            && s <= Tops(t, m, t.Root()) && Antichain(t, s) && (allowRoot || t.Root() !in s)
            && Weight(t, m, rival) <= Weight(t, m, s)
  {
    var root := t.Root();
    if allowRoot {
      ChosenAttains(t, m, root);
      NoneBetter(t, m, root, rival);
    } else if HasKids(t, m, root) {
      ChosenKidsAttain(t, m, root);
      NoneBetterKids(t, m, root, rival);
    } else {
      assert rival == {};
    }
  }

  /** Leaf selection is an antichain and meets every root-to-leaf path of the condensed tree
      (unless the lone root is forbidden): each cluster has a selected one below it. */
  lemma {:induction false} LeafSelectionCovers(t: Linkage, m: nat, v: int)
    requires Ready(t, m) && t.Inner(v)
    ensures exists x :: x in Childless(t, m, v)
    decreases v
  {
    if HasKids(t, m, v) {
      LeafSelectionCovers(t, m, KidL(t, m, v));
      var x :| x in Childless(t, m, KidL(t, m, v));
      assert x in Childless(t, m, v);
    } else {
      assert v in Childless(t, m, v);
    }
  }

  lemma {:induction false} LeavesAntichain(t: Linkage, m: nat, v: int)
    requires Ready(t, m) && t.Inner(v)
    ensures Antichain(t, Childless(t, m, v))
    decreases v
  {
    var s := Childless(t, m, v);
    if HasKids(t, m, v) {
      var l, r := KidL(t, m, v), KidR(t, m, v);
      var a, b := Childless(t, m, l), Childless(t, m, r);
      LeavesAntichain(t, m, l);
      LeavesAntichain(t, m, r);
      KidsUnder(t, m, v);
      TopsUnder(t, m, l);
      TopsUnder(t, m, r);
      DisjointAntichains(t, a, b, l, r);
      assert s == a + b;
    } else {
      assert s == {v};
    }
  }

  lemma SelectionAntichain(t: Linkage, m: nat, allowRoot: bool, leafMode: bool)
    requires Ready(t, m)
    ensures var s := Selection(t, m, allowRoot, leafMode);
            Antichain(t, s) && s <= Tops(t, m, t.Root())
  {
    if leafMode {
      LeavesAntichain(t, m, t.Root());
    } else {
      SelectionOptimal(t, m, allowRoot, {});
    }
  }
}
