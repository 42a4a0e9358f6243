/** Measuring all distances in another unit changes no cluster and no label. */
module Scaling {
  import opened Basics
  import opened Dendrogram
  import opened CondensedTree
  import opened Condense
  import opened StabilityLaws
  import opened HdbscanExtract

  /** The same merges at heights multiplied by c. */
  ghost predicate Rescaled(t: Linkage, u: Linkage, c: real) {
    && c > 0.0 && u.n == t.n && |u.rows| == |t.rows|
    && forall i | 0 <= i < |t.rows| :: RowRescaled(t.rows[i], u.rows[i], c)
  }

  ghost predicate RowRescaled(r: LinkNode, s: LinkNode, c: real) {
    s.a == r.a && s.b == r.b && s.size == r.size && s.height == c * r.height
  }

  /** The same shape: ids, children and sizes. */
  ghost predicate SameShape(t: Linkage, u: Linkage) {
    && u.n == t.n && |u.rows| == |t.rows|
    && forall v | t.Inner(v) :: t.Left(v) == u.Left(v) && t.Right(v) == u.Right(v) && t.Size(v) == u.Size(v)
  }

  lemma ShapeOf(t: Linkage, u: Linkage, c: real)
    requires Rescaled(t, u, c)
    ensures SameShape(t, u) && forall v | t.Inner(v) :: u.Height(v) == c * t.Height(v)
  {
    forall v | t.Inner(v)
      ensures t.Left(v) == u.Left(v) && t.Right(v) == u.Right(v) && t.Size(v) == u.Size(v) && u.Height(v) == c * t.Height(v)
    {
      assert RowRescaled(t.rows[v - t.n], u.rows[v - t.n], c);
    }
  }

  lemma Order(c: real, x: real, y: real)
    requires c > 0.0 && x <= y
    ensures c * x <= c * y
  {
  }

  lemma RowStays(t: Linkage, u: Linkage, c: real, v: int)
    requires t.WellFormed() && Rescaled(t, u, c) && u.Inner(v)
    ensures u.Left(v) < v && u.Right(v) < v && u.Left(v) != u.Right(v) && u.Height(v) > 0.0
    ensures u.Size(v) == u.Size(u.Left(v)) + u.Size(u.Right(v))
  {
    ShapeOf(t, u, c);
    assert t.Inner(v);
    Positive(c, t.Height(v));
  }

  lemma HeightsStay(t: Linkage, u: Linkage, c: real, v: int, w: int)
    requires t.WellFormed() && Rescaled(t, u, c) && u.Inner(v) && u.HasChild(v, w) && u.Inner(w)
    ensures u.Height(w) <= u.Height(v)
  {
    ShapeOf(t, u, c);
    assert t.HasChild(v, w) && t.Inner(w);
    Order(c, t.Height(w), t.Height(v));
  }

  lemma ParentsStay(t: Linkage, u: Linkage, c: real)
    requires t.WellFormed() && Rescaled(t, u, c)
    ensures forall v, w, x | u.HasChild(v, x) && u.HasChild(w, x) :: v == w
    ensures forall x | 0 <= x < u.Root() :: u.HasParent(x)
  {
    ShapeOf(t, u, c);
    forall v, w, x | u.HasChild(v, x) && u.HasChild(w, x) ensures v == w { assert t.HasChild(v, x) && t.HasChild(w, x); }
    forall x | 0 <= x < u.Root() ensures u.HasParent(x) {
      assert t.HasParent(x);
      var v :| t.HasChild(v, x);
      assert u.HasChild(v, x);
    }
  }

  /** A rescaled linkage is as well formed. */
  lemma StaysWellFormed(t: Linkage, u: Linkage, c: real)
    requires t.WellFormed() && Rescaled(t, u, c)
    ensures u.WellFormed()
  {
    hide Rescaled, Linkage.HasChild, Linkage.HasParent;
    forall v | u.Inner(v)
      ensures u.Left(v) < v && u.Right(v) < v && u.Left(v) != u.Right(v) && u.Height(v) > 0.0
      ensures u.Size(v) == u.Size(u.Left(v)) + u.Size(u.Right(v))
    {
      RowStays(t, u, c, v);
    }
    forall w, v | u.Inner(v) && u.HasChild(v, w) && u.Inner(w) ensures u.Height(w) <= u.Height(v) { HeightsStay(t, u, c, v, w); }
    ParentsStay(t, u, c);
    CountsStay(t, u, c);
  }

  lemma CountsStay(t: Linkage, u: Linkage, c: real)
    requires Rescaled(t, u, c)
    ensures u.n == t.n && |u.rows| == |t.rows|
  {
  }

  // ---------- what only depends on the shape ----------

  ghost predicate Alike(t: Linkage, u: Linkage, m: nat) { Ready(t, m) && Ready(u, m) && SameShape(t, u) }

  lemma SameParent(t: Linkage, u: Linkage, m: nat, x: int)
    requires Alike(t, u, m) && 0 <= x < t.Root()
    ensures t.Parent(x) == u.Parent(x)
  {
    assert u.HasChild(u.Parent(x), x) && t.HasChild(u.Parent(x), x);
  }

  lemma {:induction false} SameUnder(t: Linkage, u: Linkage, m: nat, v: int)
    requires Alike(t, u, m) && 0 <= v < t.Total()
    ensures t.Under(v) == u.Under(v)
    decreases v
  {
    if t.Inner(v) {
      SameUnder(t, u, m, t.Left(v));
      SameUnder(t, u, m, t.Right(v));
    }
  }

  lemma {:induction false} SameEnd(t: Linkage, u: Linkage, m: nat, v: int)
    requires Alike(t, u, m) && t.Inner(v)
    ensures End(t, m, v) == End(u, m, v) && (HasKids(t, m, v) <==> HasKids(u, m, v))
    ensures HasKids(t, m, v) ==> KidL(t, m, v) == KidL(u, m, v) && KidR(t, m, v) == KidR(u, m, v)
    decreases v
  {
    var l, r := t.Left(v), t.Right(v);
    if Big(t, m, l) != Big(t, m, r) { SameEnd(t, u, m, if Big(t, m, l) then l else r); }
  }

  lemma {:induction false} SameTops(t: Linkage, u: Linkage, m: nat, v: int)
    requires Alike(t, u, m) && t.Inner(v)
    ensures Tops(t, m, v) == Tops(u, m, v)
    decreases v
  {
    SameEnd(t, u, m, v);
    if HasKids(t, m, v) {
      SameTops(t, u, m, KidL(t, m, v));
      SameTops(t, u, m, KidR(t, m, v));
    }
  }

  lemma {:induction false} SameLevels(t: Linkage, u: Linkage, m: nat, q: seq<int>)
    requires Alike(t, u, m) && InTree(t, q) && InTree(u, q)
    ensures Levels(t, q) == Levels(u, q)
    decreases SeqSum(q, NodeWeight(t))
  {
    hide Linkage.WellFormed;
    if q != [] {
      StepWeight(t, q);
      StepWeight(u, q);
      SameNext(t, u, m, q[0]);
      SameLevels(t, u, m, q[1..] + NextNodes(t, q[0]));
    }
  }

  lemma SameNext(t: Linkage, u: Linkage, m: nat, v: int)
    requires Alike(t, u, m)
    ensures NextNodes(t, v) == NextNodes(u, v)
  {
  }

  lemma SameOrder(t: Linkage, u: Linkage, m: nat)
    requires Alike(t, u, m)
    ensures LevelOrder(t) == LevelOrder(u)
  {
    SameLevels(t, u, m, [t.Root()]);
  }

  lemma SameLabelled(t: Linkage, u: Linkage, m: nat, names: seq<int>, labels: seq<int>)
    requires Alike(t, u, m)
    ensures Labelled(t, names, labels) <==> Labelled(u, names, labels)
  {
    if forall c | 0 <= c < |names| :: 0 <= names[c] < t.Total() {
      forall c | 0 <= c < |names| ensures t.Under(names[c]) == u.Under(names[c]) { SameUnder(t, u, m, names[c]); }
      if |labels| == t.n {
        forall p | 0 <= p < t.n ensures PointLabel(t, names, p, labels[p]) <==> PointLabel(u, names, p, labels[p]) {}
      }
    }
  }

  // ---------- what scales ----------

  lemma Reciprocal(c: real, h: real)
    requires c > 0.0 && h > 0.0
    ensures c * h > 0.0 && c * (1.0 / (c * h)) == 1.0 / h
  {
    Positive(c, h);
    var x := 1.0 / (c * h);
    assert x * (c * h) == 1.0;
    assert (c * x) * h == 1.0;
    assert (c * x) == 1.0 / h;
  }

  lemma LambdaScales(t: Linkage, u: Linkage, c: real, m: nat, v: int)
    requires Alike(t, u, m) && Rescaled(t, u, c) && t.Inner(v)
    ensures t.Lambda(v) == c * u.Lambda(v)
  {
    ShapeOf(t, u, c);
    Reciprocal(c, t.Height(v));
  }

  lemma BirthScales(t: Linkage, u: Linkage, c: real, m: nat, v: int)
    requires Alike(t, u, m) && Rescaled(t, u, c) && t.Inner(v)
    ensures Birth(t, v) == c * Birth(u, v)
  {
    if v != t.Root() {
      SameParent(t, u, m, v);
      LambdaScales(t, u, c, m, t.Parent(v));
    }
  }

  function Times(c: real, x: real): real { c * x }

  lemma TimesSum(c: real, x: real, y: real)
    ensures Times(c, x + y) == Times(c, x) + Times(c, y) && Times(c, x - y) == Times(c, x) - Times(c, y)
  {
  }

  lemma MassScales(c: real, g: real, h: real, n: nat)
    requires g == Times(c, h)
    ensures Mass(g, n) == Times(c, Mass(h, n))
  {
  }

  lemma SameSides(t: Linkage, u: Linkage, m: nat, v: int)
    requires Alike(t, u, m) && t.Inner(v)
    ensures u.n == t.n && u.Total() == t.Total() && t.Height(v) > 0.0 && u.Height(v) > 0.0
    ensures t.Left(v) < t.Total() && t.Right(v) < t.Total() && u.Left(v) < u.Total() && u.Right(v) < u.Total()
    ensures u.Inner(v) && t.Size(v) == u.Size(v) && BigSide(t, m, v) == BigSide(u, m, v) && SmallOne(t, m, v) == SmallOne(u, m, v)
    ensures t.Size(t.Left(v)) == u.Size(u.Left(v)) && t.Size(t.Right(v)) == u.Size(u.Right(v))
    ensures t.Size(SmallOne(t, m, v)) == u.Size(SmallOne(u, m, v))
  {
  }

  lemma {:induction false} ExcessScales(t: Linkage, u: Linkage, c: real, m: nat, v: int, b: real, d: real)
    requires Alike(t, u, m) && Rescaled(t, u, c) && t.Inner(v) && b == Times(c, d)
    ensures Excess(t, m, v, b) == Times(c, Excess(u, m, v, d))
    decreases v
  {
    hide Mass, Times, Excess, BigSide, SmallOne, Linkage.WellFormed, Linkage.Lambda, Rescaled;
    SameSides(t, u, m, v);
    LevelScales(t, u, c, m, v);
    ExcessStep(t, m, v, b);
    ExcessStep(u, m, v, d);
    var g, h := 1.0 / t.Height(v) - b, 1.0 / u.Height(v) - d;
    TimesSum(c, 1.0 / u.Height(v), d);
    MassScales(c, g, h, t.Size(v));
    if (t.Size(t.Left(v)) >= m) != (t.Size(t.Right(v)) >= m) {
      BigIsInner(t, m, v);
      var big, small := BigSide(t, m, v), SmallOne(t, m, v);
      MassScales(c, g, h, t.Size(small));
      ExcessScales(t, u, c, m, big, b, d);
      TimesSum(c, Mass(h, t.Size(small)), Excess(u, m, big, d));
    }
  }

  lemma LevelScales(t: Linkage, u: Linkage, c: real, m: nat, v: int)
    requires Alike(t, u, m) && Rescaled(t, u, c) && t.Inner(v)
    ensures t.Height(v) > 0.0 && u.Height(v) > 0.0 && 1.0 / t.Height(v) == Times(c, 1.0 / u.Height(v))
  {
    LambdaScales(t, u, c, m, v);
  }

  lemma BornScales(t: Linkage, u: Linkage, c: real, m: nat, v: int)
    requires Alike(t, u, m) && Rescaled(t, u, c) && t.Inner(v)
    ensures Birth(t, v) == Times(c, Birth(u, v))
  {
    BirthScales(t, u, c, m, v);
  }

  /** Stabilities are divided by the factor. */
  lemma StabilityScales(t: Linkage, u: Linkage, c: real, m: nat, v: int)
    requires Alike(t, u, m) && Rescaled(t, u, c) && t.Inner(v)
    ensures Stability(t, m, v) == Times(c, Stability(u, m, v))
  {
    hide Excess, Birth, Times;
    BornScales(t, u, c, m, v);
    ExcessScales(t, u, c, m, v, Birth(t, v), Birth(u, v));
  }

  lemma Greater(c: real, x: real, y: real)
    requires c > 0.0
    ensures Times(c, x) > Times(c, y) <==> x > y
  {
    if x > y { Positive(c, x - y); assert c * (x - y) == c * x - c * y; }
    if x < y { Positive(c, y - x); assert c * (y - x) == c * y - c * x; }
  }

  lemma {:induction false} BestScales(t: Linkage, u: Linkage, c: real, m: nat, v: int)
    requires Alike(t, u, m) && Rescaled(t, u, c) && t.Inner(v)
    ensures Best(t, m, v) == Times(c, Best(u, m, v)) && Chosen(t, m, v) == Chosen(u, m, v)
    decreases v
  {
    hide Stability, HasKids, KidL, KidR, Linkage.WellFormed, SameShape, Times;
    SameEnd(t, u, m, v);
    StabilityScales(t, u, c, m, v);
    if HasKids(t, m, v) {
      var l, r := KidL(t, m, v), KidR(t, m, v);
      KidsRange(t, m, v);
      BestScales(t, u, c, m, l);
      BestScales(t, u, c, m, r);
      var x := Best(u, m, l) + Best(u, m, r);
      TimesSum(c, Best(u, m, l), Best(u, m, r));
      Greater(c, x, Stability(u, m, v));
    }
  }

  lemma KidsRange(t: Linkage, m: nat, v: int)
    requires Ready(t, m) && t.Inner(v) && HasKids(t, m, v)
    ensures t.Inner(KidL(t, m, v)) && KidL(t, m, v) < v && t.Inner(KidR(t, m, v)) && KidR(t, m, v) < v
  {
  }

  lemma SameChildless(t: Linkage, u: Linkage, m: nat)
    requires Alike(t, u, m)
    ensures Childless(t, m, t.Root()) == Childless(u, m, u.Root())
  {
    SameTops(t, u, m, t.Root());
    forall x | x in Tops(t, m, t.Root()) ensures HasKids(t, m, x) <==> HasKids(u, m, x) { SameEnd(t, u, m, x); }
  }

  /** The same clusters are selected. */
  lemma SelectionStays(t: Linkage, u: Linkage, c: real, m: nat, allowRoot: bool, leafMode: bool)
    requires Alike(t, u, m) && Rescaled(t, u, c)
    ensures Selection(t, m, allowRoot, leafMode) == Selection(u, m, allowRoot, leafMode)
  {
    hide Best, Chosen, Childless, HasKids, KidL, KidR, Rescaled, Linkage.WellFormed;
    SameChildless(t, u, m);
    RootIsInner(t, u, m);
    SameEnd(t, u, m, t.Root());
    BestScales(t, u, c, m, t.Root());
    if HasKids(t, m, t.Root()) {
      KidsRange(t, m, t.Root());
      BestScales(t, u, c, m, KidL(t, m, t.Root()));
      BestScales(t, u, c, m, KidR(t, m, t.Root()));
    }
  }

  lemma RootIsInner(t: Linkage, u: Linkage, m: nat)
    requires Alike(t, u, m)
    ensures t.Inner(t.Root()) && u.Root() == t.Root()
  {
  }

  /** Multiplying every height by one positive factor leaves the flat clustering unchanged. */
  lemma ClusteringStays(t: Linkage, u: Linkage, c: real, m: nat, allowRoot: bool, leafMode: bool, labels: seq<int>)
    requires Ready(t, m) && Rescaled(t, u, c)
    ensures Ready(u, m)
    ensures FlatClustering(t, m, allowRoot, leafMode, labels) <==> FlatClustering(u, m, allowRoot, leafMode, labels)
  {
    hide Linkage.WellFormed, FlatClustering, Rescaled, SameShape;
    StaysWellFormed(t, u, c);
    ShapeOf(t, u, c);
    SameOrder(t, u, m);
    SelectionStays(t, u, c, m, allowRoot, leafMode);
    Carry(t, u, m, allowRoot, leafMode, labels);
    Carry(u, t, m, allowRoot, leafMode, labels);
  }

  lemma Carry(t: Linkage, u: Linkage, m: nat, allowRoot: bool, leafMode: bool, labels: seq<int>)
    requires Ready(t, m) && Ready(u, m) && (Alike(t, u, m) || Alike(u, t, m)) && LevelOrder(t) == LevelOrder(u)
    requires Selection(t, m, allowRoot, leafMode) == Selection(u, m, allowRoot, leafMode)
    ensures FlatClustering(t, m, allowRoot, leafMode, labels) ==> FlatClustering(u, m, allowRoot, leafMode, labels)
  {
    hide Linkage.WellFormed, LevelOrder, Selection, InOrder, Names, Labelled, SameShape;
    if FlatClustering(t, m, allowRoot, leafMode, labels) {
      var names := FlatNames(t, m, allowRoot, leafMode, labels);
      if Alike(t, u, m) { SameLabelled(t, u, m, names, labels); } else { SameLabelled(u, t, m, names, labels); }
    }
  }
}
