/** What stabilities, condensed clusters and the selection are, said in heights, sizes and points. */
module StabilityLaws {
  import opened SetSum
  import opened Dendrogram
  import opened CondensedTree
  import opened Condense
  import opened CondenseLoop
  import opened CondenseMethod
  import opened ClusterIndex

  // ---------- stability point by point ----------

  /** The merge at which point p leaves the cluster that starts at v: while only one side of a merge has m
      points, the cluster goes on in that side. */
  ghost function LostAt(t: Linkage, m: nat, v: int, p: int): (x: int)
    requires Ready(t, m) && t.Inner(v)
    ensures t.Inner(x) && t.Height(x) > 0.0
    decreases v
  {
    var l, r := t.Left(v), t.Right(v);
    if t.Size(l) >= m && t.Size(r) < m && p in t.Under(l) then LostAt(t, m, l, p)
    else if t.Size(r) >= m && t.Size(l) < m && p in t.Under(r) then LostAt(t, m, r, p)
    else v
  }

  lemma {:induction false} ConstantSum(s: set<int>, f: int -> real, c: real)
    requires forall p | p in s :: f(p) == c
    ensures Sum(s, f) == Mass(c, |s|)
    decreases s
  {
    hide Mass;
    Distribute(c, 0, 0);
    if s != {} {
      SomeInt(s);
      var p :| p in s;
      SumRemove(s, f, p);
      ConstantSum(s - {p}, f, c);
      OneMass(c);
      Distribute(c, |s - {p}|, 1);
    }
  }

  lemma OneMass(c: real)
    ensures Mass(c, 1) == c
  {
  }

  /** The side that carries the cluster on past a merge, when only one has m points. */
  ghost function BigSide(t: Linkage, m: nat, v: int): int
    requires t.WellFormed() && t.Inner(v)
  {
    if t.Size(t.Left(v)) >= m then t.Left(v) else t.Right(v)
  }

  ghost function SmallOne(t: Linkage, m: nat, v: int): int
    requires t.WellFormed() && t.Inner(v)
  {
    if t.Size(t.Left(v)) >= m then t.Right(v) else t.Left(v)
  }

  lemma LostStep(t: Linkage, m: nat, v: int, p: int)
    requires Ready(t, m) && t.Inner(v) && p in t.Leaves(v)
    ensures (t.Size(t.Left(v)) >= m) == (t.Size(t.Right(v)) >= m) ==> LostAt(t, m, v, p) == v
    ensures (t.Size(t.Left(v)) >= m) != (t.Size(t.Right(v)) >= m) ==>
              LostAt(t, m, v, p) == if p in t.Leaves(BigSide(t, m, v)) then LostAt(t, m, BigSide(t, m, v), p) else v
  {
  }

  lemma ExcessStep(t: Linkage, m: nat, v: int, birth: real)
    requires Ready(t, m) && t.Inner(v)
    ensures var level := 1.0 / t.Height(v) - birth;
            Excess(t, m, v, birth) ==
            if (t.Size(t.Left(v)) >= m) == (t.Size(t.Right(v)) >= m) then Mass(level, t.Size(v))
            else Mass(level, t.Size(SmallOne(t, m, v))) + Excess(t, m, BigSide(t, m, v), birth)
  {
    hide Mass;
  }

  lemma BigIsInner(t: Linkage, m: nat, v: int)
    requires Ready(t, m) && t.Inner(v) && (t.Size(t.Left(v)) >= m) != (t.Size(t.Right(v)) >= m)
    ensures t.Inner(BigSide(t, m, v)) && BigSide(t, m, v) < v && 0 <= SmallOne(t, m, v) < v
    ensures t.Leaves(v) == t.Leaves(BigSide(t, m, v)) + t.Leaves(SmallOne(t, m, v))
    ensures t.Leaves(BigSide(t, m, v)) !! t.Leaves(SmallOne(t, m, v))
  {
    LeavesSplit(t, v);
  }

  lemma {:induction false} ExcessByPoint(t: Linkage, m: nat, v: int, birth: real, gain: int -> real)
    requires Ready(t, m) && t.Inner(v)
    requires forall p | p in t.Leaves(v) :: gain(p) == 1.0 / t.Height(LostAt(t, m, v, p)) - birth
    ensures Excess(t, m, v, birth) == Sum(t.Leaves(v), gain)
    decreases v
  {
    hide Linkage.Under, Linkage.Leaves, Mass, LostAt, Excess, BigSide, SmallOne;
    var level := 1.0 / t.Height(v) - birth;
    ExcessStep(t, m, v, birth);
    LeafCount(t, v);
    if (t.Size(t.Left(v)) >= m) == (t.Size(t.Right(v)) >= m) {
      forall p | p in t.Leaves(v) ensures gain(p) == level { LostStep(t, m, v, p); }
      ConstantSum(t.Leaves(v), gain, level);
    } else {
      var big, small := BigSide(t, m, v), SmallOne(t, m, v);
      BigIsInner(t, m, v);
      LeafCount(t, small);
      forall p | p in t.Leaves(small) ensures gain(p) == level { LostStep(t, m, v, p); }
      forall p | p in t.Leaves(big) ensures gain(p) == 1.0 / t.Height(LostAt(t, m, big, p)) - birth { LostStep(t, m, v, p); }
      ConstantSum(t.Leaves(small), gain, level);
      ExcessByPoint(t, m, big, birth, gain);
      SumUnion(t.Leaves(big), t.Leaves(small), gain);
    }
  }

  lemma LeavesSplit(t: Linkage, v: int)
    requires t.WellFormed() && t.Inner(v)
    ensures t.Leaves(v) == t.Leaves(t.Left(v)) + t.Leaves(t.Right(v)) && t.Leaves(t.Left(v)) !! t.Leaves(t.Right(v))
    ensures forall p | p in t.Leaves(t.Left(v)) :: p in t.Under(t.Left(v)) && p !in t.Under(t.Right(v))
    ensures forall p | p in t.Leaves(t.Right(v)) :: p in t.Under(t.Right(v)) && p !in t.Under(t.Left(v))
  {
    ChildrenDisjoint(t, v);
  }

  /** The stability of a cluster is the sum over its points of the inverse height at which the point leaves,
      less the inverse height of the merge that bore the cluster (nothing for the root). */
  lemma StabilityByPoint(t: Linkage, m: nat, v: int, gain: int -> real)
    requires Ready(t, m) && t.Inner(v)
    requires forall p | p in t.Leaves(v) ::
               gain(p) == 1.0 / t.Height(LostAt(t, m, v, p)) - if v == t.Root() then 0.0 else 1.0 / t.Height(t.Parent(v))
    ensures Stability(t, m, v) == Sum(t.Leaves(v), gain)
  {
    ExcessByPoint(t, m, v, Birth(t, v), gain);
  }

  // ---------- which nodes are clusters ----------

  /** The other child of x's parent. */
  ghost function Sibling(t: Linkage, x: int): (y: int)
    requires t.WellFormed() && 0 <= x < t.Root()
    ensures 0 <= y < t.Total()
  {
    var v := t.Parent(x);
    if t.Left(v) == x then t.Right(v) else t.Left(v)
  }

  /** A merge of two sides of at least m points each. */
  ghost predicate BornBig(t: Linkage, m: nat, x: int)
    requires t.WellFormed()
  {
    0 <= x < t.Root() && t.Size(x) >= m && t.Size(Sibling(t, x)) >= m
  }

  lemma {:induction false} ClusterIsBornBig(t: Linkage, m: nat, v: int, x: int)
    requires Ready(t, m) && t.Inner(v) && x in Tops(t, m, v) && x != v
    ensures BornBig(t, m, x)
    decreases v
  {
    var e := End(t, m, v);
    var l, r := KidL(t, m, v), KidR(t, m, v);
    assert t.HasChild(e, l) && t.HasChild(e, r) && t.Parent(l) == e && t.Parent(r) == e;
    if x != l && x != r {
      if x in Tops(t, m, l) { ClusterIsBornBig(t, m, l, x); } else { ClusterIsBornBig(t, m, r, x); }
    }
  }

  lemma {:induction false} BornBigIsCluster(t: Linkage, m: nat, v: int, x: int)
    requires Ready(t, m) && t.Inner(v) && x in t.Under(v) && x != v && BornBig(t, m, x)
    ensures x in Tops(t, m, v)
    decreases v
  {
    var l, r := t.Left(v), t.Right(v);
    assert t.HasChild(v, l) && t.HasChild(v, r) && t.Parent(l) == v && t.Parent(r) == v;
    var c, other := if x in t.Under(l) then l else r, if x in t.Under(l) then r else l;
    SizeMonotone(t, x, c);
    if x != c { BornBigIsCluster(t, m, c, x); }
  }

  /** A node is a condensed cluster exactly when it is the root, or it and the node it was merged with have at
      least m points each. */
  lemma ClusterIff(t: Linkage, m: nat, x: int)
    requires Ready(t, m)
    ensures x in Tops(t, m, t.Root()) <==> x == t.Root() || BornBig(t, m, x)
  {
    if x in Tops(t, m, t.Root()) && x != t.Root() { ClusterIsBornBig(t, m, t.Root(), x); }
    if BornBig(t, m, x) {
      RootCoversAll(t, x);
      BornBigIsCluster(t, m, t.Root(), x);
    }
  }

  ghost predicate NoneBelow(t: Linkage, m: nat, x: int)
    requires Ready(t, m) && 0 <= x < t.Total()
  {
    forall y | y in Tops(t, m, t.Root()) && y in t.Under(x) :: y == x
  }

  lemma ChildlessIff(t: Linkage, m: nat, x: int)
    requires Ready(t, m) && x in Tops(t, m, t.Root())
    ensures !HasKids(t, m, x) <==> NoneBelow(t, m, x)
  {
    hide HasKids, Linkage.Under, Linkage.WellFormed, BornBig;
    if HasKids(t, m, x) {
      KidIsBelow(t, m, x);
      TopsTransitive(t, m, t.Root(), x);
    } else {
      forall y | y in Tops(t, m, t.Root()) && y in t.Under(x) ensures y == x {
        if y != x {
          ClusterIff(t, m, y);
          UnderRange(t, x, y);
          BornBigIsCluster(t, m, x, y);
        }
      }
    }
  }

  lemma UnderRange(t: Linkage, x: int, y: int)
    requires t.WellFormed() && 0 <= x < t.Total() && y in t.Under(x) && y != x
    ensures 0 <= y < x
  {
  }

  lemma KidIsBelow(t: Linkage, m: nat, x: int)
    requires Ready(t, m) && t.Inner(x) && HasKids(t, m, x)
    ensures KidL(t, m, x) in Tops(t, m, x) && KidL(t, m, x) in t.Under(x) && KidL(t, m, x) != x
  {
    KidsUnder(t, m, x);
  }

  /** Leaf mode selects exactly the clusters with no other cluster below them. */
  lemma LeafIff(t: Linkage, m: nat, allowRoot: bool, x: int)
    requires Ready(t, m)
    ensures x in Selection(t, m, allowRoot, true) <==>
            x in Tops(t, m, t.Root()) && (allowRoot || x != t.Root()) && NoneBelow(t, m, x)
  {
    hide HasKids, NoneBelow;
    if x in Tops(t, m, t.Root()) { ChildlessIff(t, m, x); }
  }

  // ---------- ties ----------

  lemma {:induction false} HighestBelow(t: Linkage, m: nat, v: int, a: set<int>, x: int) returns (y: int)
    requires Ready(t, m) && t.Inner(v) && a <= Tops(t, m, v) && Antichain(t, a) && Weight(t, m, a) == Best(t, m, v) && x in a
    ensures y in Chosen(t, m, v) && x in t.Under(y)
    decreases v
  {
    TopsUnder(t, m, v);
    if Chosen(t, m, v) == {v} {
      y := v;
    } else {
      if v in a {
        assert a == {v};
        SumRemove(a, Stabilities(t, m), v);
      }
      y := HighestBelowKids(t, m, v, a, x);
    }
  }

  lemma {:induction false} HighestBelowKids(t: Linkage, m: nat, v: int, a: set<int>, x: int) returns (y: int)
    requires Ready(t, m) && t.Inner(v) && HasKids(t, m, v) && Antichain(t, a) && x in a
    requires a <= Tops(t, m, KidL(t, m, v)) + Tops(t, m, KidR(t, m, v))
    requires Weight(t, m, a) == Best(t, m, KidL(t, m, v)) + Best(t, m, KidR(t, m, v))
    ensures y in Chosen(t, m, KidL(t, m, v)) + Chosen(t, m, KidR(t, m, v)) && x in t.Under(y)
    decreases v, 0
  {
    var l, r := KidL(t, m, v), KidR(t, m, v);
    KidsUnder(t, m, v);
    TopsUnder(t, m, l);
    TopsUnder(t, m, r);
    var al, ar := a * Tops(t, m, l), a * Tops(t, m, r);
    assert a == al + ar;
    SumUnion(al, ar, Stabilities(t, m));
    NoneBetter(t, m, l, al);
    NoneBetter(t, m, r, ar);
    if x in al { y := HighestBelow(t, m, l, al, x); } else { y := HighestBelow(t, m, r, ar, x); }
  }

  /** s may be selected: clusters of the condensed tree, none below another, the root only if allowed. */
  ghost predicate Admissible(t: Linkage, m: nat, allowRoot: bool, s: set<int>)
    requires Ready(t, m)
  {
    s <= Tops(t, m, t.Root()) && Antichain(t, s) && (allowRoot || t.Root() !in s)
  }

  ghost predicate Heaviest(t: Linkage, m: nat, allowRoot: bool, s: set<int>)
    requires Ready(t, m)
  {
    Admissible(t, m, allowRoot, s) && forall a | Admissible(t, m, allowRoot, a) :: Weight(t, m, a) <= Weight(t, m, s)
  }

  /** Every cluster of a lies at or below one of s. */
  ghost predicate Below(t: Linkage, a: set<int>, s: set<int>)
    requires t.WellFormed()
  {
    forall x | x in a :: Covered(t, s, x)
  }

  ghost predicate Covered(t: Linkage, s: set<int>, x: int)
    requires t.WellFormed()
  {
    exists y :: y in s && 0 <= y < t.Total() && x in t.Under(y)
  }

  /** Among the heaviest admissible sets the selected one is the highest. */
  lemma SelectionHighest(t: Linkage, m: nat, allowRoot: bool, rival: set<int>)
    requires Ready(t, m) && Heaviest(t, m, allowRoot, rival)
    ensures var s := Selection(t, m, allowRoot, false); Heaviest(t, m, allowRoot, s) && Below(t, rival, s)
  {
    hide Best, Stability, Chosen, Linkage.Under, Linkage.WellFormed;
    var s, root := Selection(t, m, allowRoot, false), t.Root();
    SelectionOptimal(t, m, allowRoot, rival);
    forall a | Admissible(t, m, allowRoot, a) ensures Weight(t, m, a) <= Weight(t, m, s) { SelectionOptimal(t, m, allowRoot, a); }
    forall x | x in rival ensures Covered(t, s, x) {
      if allowRoot {
        ChosenAttains(t, m, root);
        var y := HighestBelow(t, m, root, rival, x);
      } else if HasKids(t, m, root) {
        ChosenKidsAttain(t, m, root);
        KidsOnly(t, m, rival);
        var y := HighestBelowKids(t, m, root, rival, x);
      } else {
        NoKidsOneTop(t, m, x);
      }
    }
  }

  lemma KidsOnly(t: Linkage, m: nat, a: set<int>)
    requires Ready(t, m) && a <= Tops(t, m, t.Root()) && t.Root() !in a && HasKids(t, m, t.Root())
    ensures a <= Tops(t, m, KidL(t, m, t.Root())) + Tops(t, m, KidR(t, m, t.Root()))
  {
  }

  lemma NoKidsOneTop(t: Linkage, m: nat, x: int)
    requires Ready(t, m) && x in Tops(t, m, t.Root()) && !HasKids(t, m, t.Root())
    ensures x == t.Root()
  {
  }

  /** That determines the selection: it is the only heaviest admissible set above all the others. */
  lemma SelectionIff(t: Linkage, m: nat, allowRoot: bool, s: set<int>)
    requires Ready(t, m)
    ensures s == Selection(t, m, allowRoot, false) <==>
            Heaviest(t, m, allowRoot, s) && forall a | Heaviest(t, m, allowRoot, a) :: Below(t, a, s)
  {
    hide Selection, Heaviest, Below;
    var best := Selection(t, m, allowRoot, false);
    SelectionIsHeaviest(t, m, allowRoot);
    forall a | Heaviest(t, m, allowRoot, a) ensures Below(t, a, best) { SelectionHighest(t, m, allowRoot, a); }
    if Heaviest(t, m, allowRoot, s) && forall a | Heaviest(t, m, allowRoot, a) :: Below(t, a, s) {
      HeaviestChains(t, m, allowRoot, s);
      HeaviestChains(t, m, allowRoot, best);
      MutuallyBelow(t, s, best);
    }
  }

  lemma SelectionIsHeaviest(t: Linkage, m: nat, allowRoot: bool)
    requires Ready(t, m)
    ensures Heaviest(t, m, allowRoot, Selection(t, m, allowRoot, false))
  {
    hide Selection, Weight;
    SelectionOptimal(t, m, allowRoot, {});
    forall a | Admissible(t, m, allowRoot, a) ensures Weight(t, m, a) <= Weight(t, m, Selection(t, m, allowRoot, false)) {
      SelectionOptimal(t, m, allowRoot, a);
    }
  }

  lemma HeaviestChains(t: Linkage, m: nat, allowRoot: bool, s: set<int>)
    requires Ready(t, m) && Heaviest(t, m, allowRoot, s)
    ensures Antichain(t, s)
  {
  }

  lemma MutuallyBelow(t: Linkage, a: set<int>, b: set<int>)
    requires t.WellFormed() && Antichain(t, a) && Antichain(t, b) && Below(t, a, b) && Below(t, b, a)
    ensures a == b
  {
    BelowIn(t, a, b);
    BelowIn(t, b, a);
    assert forall x :: x in a <==> x in b;
  }

  lemma BelowIn(t: Linkage, a: set<int>, b: set<int>)
    requires t.WellFormed() && Antichain(t, a) && Below(t, a, b) && Below(t, b, a)
    ensures forall x | x in a :: x in b
  {
    forall x | x in a ensures x in b { CoveredTwice(t, a, b, x); }
  }

  lemma CoveredTwice(t: Linkage, a: set<int>, b: set<int>, x: int)
    requires t.WellFormed() && Antichain(t, a) && Below(t, a, b) && Below(t, b, a) && x in a
    ensures x in b
  {
    hide Linkage.Under, Linkage.WellFormed, Antichain, Below, Covered;
    var y := Cover(t, a, b, x);
    var z := Cover(t, b, a, y);
    UnderTransitive(t, y, z);
    Only(t, a, x, z);
    Mutual(t, x, y);
  }

  lemma Cover(t: Linkage, a: set<int>, b: set<int>, x: int) returns (y: int)
    requires t.WellFormed() && Below(t, a, b) && x in a
    ensures y in b && 0 <= y < t.Total() && x in t.Under(y)
  {
    assert Covered(t, b, x);
    y :| y in b && 0 <= y < t.Total() && x in t.Under(y);
  }

  lemma Only(t: Linkage, a: set<int>, x: int, z: int)
    requires t.WellFormed() && Antichain(t, a) && x in a && z in a && x in t.Under(z)
    ensures x == z && 0 <= x < t.Total()
  {
  }

  lemma Mutual(t: Linkage, x: int, y: int)
    requires t.WellFormed() && 0 <= x < t.Total() && 0 <= y < t.Total() && x in t.Under(y) && y in t.Under(x)
    ensures x == y
  {
  }

  // ---------- the order of the walk ----------

  /** The walk lists a node's left child before its right one, and the children of an earlier node before those
      of a later one. */
  lemma WalkOrder(t: Linkage, u: int, w: int)
    requires t.WellFormed() && t.Inner(u)
    ensures Before(LevelOrder(t), t.Left(u), t.Right(u))
    ensures t.Inner(w) && Before(LevelOrder(t), u, w) ==> Before(LevelOrder(t), t.Right(u), t.Left(w))
  {
    hide LevelOrder, Before, Linkage.WellFormed, IsWalk, KidsOf;
    var order := LevelOrder(t);
    LevelOrderWalks(t);
    var i := PlaceOf(t, order, u);
    ChildrenAt(t, order, i);
    AreBefore(order, Reach(t, order, i), Reach(t, order, i) + 1);
    if t.Inner(w) && Before(order, u, w) { ChildrenOfBoth(t, order, u, w); }
  }

  lemma PlaceOf(t: Linkage, order: seq<int>, u: int) returns (i: nat)
    requires t.WellFormed() && IsWalk(t, t.Root(), order) && t.Inner(u)
    ensures i < |order| && order[i] == u
  {
    RootCoversAll(t, u);
    i :| 0 <= i < |order| && order[i] == u;
  }

  lemma AreBefore(order: seq<int>, a: nat, b: nat)
    requires a < b < |order|
    ensures Before(order, order[a], order[b])
  {
  }

  lemma ChildrenOfBoth(t: Linkage, order: seq<int>, u: int, w: int)
    requires order == [t.Root()] + KidsOf(t, order) && t.Inner(u) && t.Inner(w) && Before(order, u, w)
    ensures Before(order, t.Right(u), t.Left(w))
  {
    hide KidsOf, Reach;
    var a, b :| 0 <= a < b < |order| && order[a] == u && order[b] == w;
    ChildrenAt(t, order, a);
    ChildrenAt(t, order, b);
    ReachGrows(t, order, a + 1, b);
    AreBefore(order, Reach(t, order, a) + 1, Reach(t, order, b));
  }

  lemma ChildrenAt(t: Linkage, order: seq<int>, i: nat)
    requires order == [t.Root()] + KidsOf(t, order) && i < |order| && t.Inner(order[i])
    ensures Reach(t, order, i) + 2 == Reach(t, order, i + 1) <= |order|
    ensures order[Reach(t, order, i)] == t.Left(order[i]) && order[Reach(t, order, i) + 1] == t.Right(order[i])
  {
    hide Reach;
    ReachStep(t, order, i);
    var a, b := Reach(t, order, i), Reach(t, order, i + 1);
    assert order[..b] == order[..a] + [t.Left(order[i]), t.Right(order[i])];
    assert order[..b][a] == order[a] && order[..b][a + 1] == order[a + 1];
  }

  lemma {:induction false} ReachGrows(t: Linkage, order: seq<int>, i: nat, j: nat)
    requires order == [t.Root()] + KidsOf(t, order) && i <= j <= |order|
    ensures Reach(t, order, i) <= Reach(t, order, j)
    decreases j - i
  {
    hide Reach;
    if i < j {
      ReachStep(t, order, i);
      ReachGrows(t, order, i + 1, j);
    }
  }
}
