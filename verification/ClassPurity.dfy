/** Clustering several classes in one scan: exactly when no cluster spans two of them. */
module ClassPurity {
  import opened Dendrogram
  import opened CondensedTree
  import opened Condense
  import opened ClusterIndex
  import opened HdbscanExtract
  import opened EuclideanSplit
  import opened Growing
  import opened Seeding

  // ---------- clusters over classed points ----------

  /** Node v has points of two classes below it. */
  ghost predicate Spans(t: Linkage, cls: seq<int>, v: int)
    requires t.WellFormed() && |cls| == t.n && 0 <= v < t.Total()
  {
    exists p, q :: p in t.Leaves(v) && q in t.Leaves(v) && cls[p] != cls[q]
  }

  /** No label is carried by points of two classes. */
  ghost predicate LabelsPure(cls: seq<int>, labels: seq<int>) {
    |labels| == |cls| && forall i, j | 0 <= i < |cls| && 0 <= j < |cls| && labels[i] == labels[j] >= 0 :: cls[i] == cls[j]
  }

  ghost predicate AllTops(t: Linkage, s: set<int>)
    requires t.WellFormed()
  {
    forall x | x in s :: 0 <= x < t.Total()
  }

  ghost predicate SomeSpans(t: Linkage, cls: seq<int>, s: set<int>)
    requires t.WellFormed() && |cls| == t.n && AllTops(t, s)
  {
    exists x :: x in s && Spans(t, cls, x)
  }

  /** Labels stay within classes exactly when no selected cluster spans two. */
  lemma PureIffNoneSpans(t: Linkage, m: nat, allowRoot: bool, leafMode: bool, cls: seq<int>, labels: seq<int>)
    requires Ready(t, m) && |cls| == t.n && FlatClustering(t, m, allowRoot, leafMode, labels)
    ensures AllTops(t, Selection(t, m, allowRoot, leafMode))
    ensures LabelsPure(cls, labels) <==> !SomeSpans(t, cls, Selection(t, m, allowRoot, leafMode))
  {
    hide Selection, InOrder, LevelOrder, FlatClustering;
    SelectionAntichain(t, m, allowRoot, leafMode);
    var sel := Selection(t, m, allowRoot, leafMode);
    var names := FlatNames(t, m, allowRoot, leafMode, labels);
    if x :| x in sel && Spans(t, cls, x) {
      var c :| 0 <= c < |names| && names[c] == x;
      LabelClasses(t, m, allowRoot, leafMode, names, labels, c);
      var p, q :| p in t.Leaves(x) && q in t.Leaves(x) && cls[p] != cls[q];
      assert labels[p] == c && labels[q] == c;
    }
    forall i, j | 0 <= i < |cls| && 0 <= j < |cls| && labels[i] == labels[j] >= 0 && cls[i] != cls[j]
      ensures SomeSpans(t, cls, sel)
    {
      var c := labels[i];
      assert PointLabel(t, names, i, c) && PointLabel(t, names, j, c);
      LabelClasses(t, m, allowRoot, leafMode, names, labels, c);
      assert names[c] in names;
      assert i in t.Leaves(names[c]) && j in t.Leaves(names[c]);
    }
  }

  // ---------- the exact condition ----------

  lemma SpansUpward(t: Linkage, cls: seq<int>, x: int, y: int)
    requires t.WellFormed() && |cls| == t.n && 0 <= y < t.Total() && x in t.Under(y) && Spans(t, cls, x)
    ensures Spans(t, cls, y)
  {
    UnderTransitive(t, x, y);
    var p, q :| p in t.Leaves(x) && q in t.Leaves(x) && cls[p] != cls[q];
    assert p in t.Leaves(y) && q in t.Leaves(y);
  }

  /** A cluster that keeps itself lies at or below a chosen one. */
  lemma {:induction false} KeeperCovered(t: Linkage, m: nat, v: int, x: int) returns (y: int)
    requires Ready(t, m) && t.Inner(v) && x in Tops(t, m, v) && Keeps(t, m, x)
    ensures y in Chosen(t, m, v) && x in t.Under(y)
    decreases v
  {
    if Keeps(t, m, v) {
      TopsUnder(t, m, v);
      y := v;
    } else {
      assert x != v;
      if x in Tops(t, m, KidL(t, m, v)) { y := KeeperCovered(t, m, KidL(t, m, v), x); }
      else { y := KeeperCovered(t, m, KidR(t, m, v), x); }
    }
  }

  lemma {:induction false} ChosenKeeps(t: Linkage, m: nat, v: int, x: int)
    requires Ready(t, m) && t.Inner(v) && x in Chosen(t, m, v)
    ensures Keeps(t, m, x)
    decreases v
  {
    if !Keeps(t, m, v) {
      if x in Chosen(t, m, KidL(t, m, v)) { ChosenKeeps(t, m, KidL(t, m, v), x); }
      else { ChosenKeeps(t, m, KidR(t, m, v), x); }
    }
  }

  /** A condensed cluster that could be selected although it spans two classes: with excess of mass one
      at least as stable as the best choice below it, in leaf mode one without child clusters. */
  ghost predicate Offends(t: Linkage, m: nat, allowRoot: bool, leafMode: bool, cls: seq<int>, x: int)
    requires Ready(t, m) && |cls| == t.n
  {
    && x in Tops(t, m, t.Root()) && (allowRoot || x != t.Root()) && Spans(t, cls, x)
    && if leafMode then !HasKids(t, m, x) else Keeps(t, m, x)
  }

  lemma SelectedIffOffends(t: Linkage, m: nat, allowRoot: bool, leafMode: bool, cls: seq<int>)
    requires Ready(t, m) && |cls| == t.n
    ensures AllTops(t, Selection(t, m, allowRoot, leafMode))
    ensures SomeSpans(t, cls, Selection(t, m, allowRoot, leafMode)) <==> exists x :: Offends(t, m, allowRoot, leafMode, cls, x)
  {
    hide Spans, Keeps, Chosen;
    SelectionAntichain(t, m, allowRoot, leafMode);
    var root := t.Root();
    var sel := Selection(t, m, allowRoot, leafMode);
    if x :| x in sel && Spans(t, cls, x) {
      if !leafMode { SelectedKeeps(t, m, allowRoot, x); }
      assert Offends(t, m, allowRoot, leafMode, cls, x);
    }
    if x :| Offends(t, m, allowRoot, leafMode, cls, x) {
      if leafMode {
        assert x in sel;
      } else {
        var y := KeeperSelected(t, m, allowRoot, x);
        SpansUpward(t, cls, x, y);
      }
    }
  }

  lemma SelectedKeeps(t: Linkage, m: nat, allowRoot: bool, x: int)
    requires Ready(t, m) && x in Selection(t, m, allowRoot, false)
    ensures x in Tops(t, m, t.Root()) && (allowRoot || x != t.Root()) && Keeps(t, m, x)
  {
    hide Keeps, Chosen;
    var root := t.Root();
    SelectionAntichain(t, m, allowRoot, false);
    if allowRoot { ChosenKeeps(t, m, root, x); }
    else if x in Chosen(t, m, KidL(t, m, root)) { ChosenKeeps(t, m, KidL(t, m, root), x); }
    else { ChosenKeeps(t, m, KidR(t, m, root), x); }
  }

  lemma KeeperSelected(t: Linkage, m: nat, allowRoot: bool, x: int) returns (y: int)
    requires Ready(t, m) && x in Tops(t, m, t.Root()) && (allowRoot || x != t.Root()) && Keeps(t, m, x)
    ensures y in Selection(t, m, allowRoot, false) && 0 <= y < t.Total() && x in t.Under(y)
  {
    hide Keeps, Chosen;
    var root := t.Root();
    SelectionAntichain(t, m, allowRoot, false);
    if allowRoot { y := KeeperCovered(t, m, root, x); }
    else if x in Tops(t, m, KidL(t, m, root)) { y := KeeperCovered(t, m, KidL(t, m, root), x); }
    else { y := KeeperCovered(t, m, KidR(t, m, root), x); }
  }

  /** The labels of a pooled scan keep to the classes exactly when no cluster offends. */
  lemma PureIffNoneOffends(t: Linkage, m: nat, allowRoot: bool, leafMode: bool, cls: seq<int>, labels: seq<int>)
    requires Ready(t, m) && |cls| == t.n && FlatClustering(t, m, allowRoot, leafMode, labels)
    ensures LabelsPure(cls, labels) <==> !exists x :: Offends(t, m, allowRoot, leafMode, cls, x)
  {
    hide Offends, Selection, SomeSpans, LabelsPure, FlatClustering;
    PureIffNoneSpans(t, m, allowRoot, leafMode, cls, labels);
    SelectedIffOffends(t, m, allowRoot, leafMode, cls);
  }

  // ---------- classes far apart ----------

  /** Every class is what lies below one node, and has at least m points. */
  ghost predicate ClassSubtrees(t: Linkage, m: nat, cls: seq<int>, top: int -> int)
    requires t.WellFormed() && |cls| == t.n
  {
    forall p | 0 <= p < t.n :: SubtreeOf(t, m, cls, top, p)
  }

  ghost predicate SubtreeOf(t: Linkage, m: nat, cls: seq<int>, top: int -> int, p: int)
    requires t.WellFormed() && |cls| == t.n && 0 <= p < t.n
  {
    var v := top(cls[p]);
    0 <= v < t.Total() && t.Size(v) >= m && forall q | 0 <= q < t.n :: q in t.Under(v) <==> cls[q] == cls[p]
  }

  /** Below the subtree of a class there is only that class. */
  lemma OneClassBelow(t: Linkage, m: nat, cls: seq<int>, top: int -> int, v: int, p: int)
    requires t.WellFormed() && |cls| == t.n && 0 <= p < t.n && SubtreeOf(t, m, cls, top, p)
    requires 0 <= v < t.Total() && v in t.Under(top(cls[p]))
    ensures !Spans(t, cls, v)
  {
    UnderTransitive(t, v, top(cls[p]));
    forall q | q in t.Leaves(v) ensures cls[q] == cls[p] { assert q in t.Under(top(cls[p])); }
  }

  /** A class with a point below a spanning node lies entirely below the child that has the point. */
  lemma ClassBelowChild(t: Linkage, m: nat, cls: seq<int>, top: int -> int, v: int, child: int)
    requires Ready(t, m) && |cls| == t.n && ClassSubtrees(t, m, cls, top)
    requires 0 <= v < t.Total() && Spans(t, cls, v) && t.HasChild(v, child)
    ensures Big(t, m, child)
  {
    SomeLeaf(t, child);
    var p :| 0 <= p < t.n && p in t.Under(child);
    assert SubtreeOf(t, m, cls, top, p);
    var c := top(cls[p]);
    UnderTransitive(t, child, v);
    assert p in t.Under(c);
    if c <= v { Nested(t, p, c, v); } else { Nested(t, p, v, c); }
    if v in t.Under(c) { OneClassBelow(t, m, cls, top, v, p); }
    assert c in t.Under(v) && c != v;
    ChildrenDisjoint(t, v);
    var other := if child == t.Left(v) then t.Right(v) else t.Left(v);
    if c in t.Under(other) { UnderTransitive(t, c, other); }
    assert c in t.Under(child);
    SizeMonotone(t, c, child);
  }

  /** Classes that are subtrees of at least m points are told apart by a genuine split at every node that
      spans two of them; its stability is what the merge's density allows. */
  lemma SpanningSplits(t: Linkage, m: nat, cls: seq<int>, top: int -> int, v: int)
    requires Ready(t, m) && |cls| == t.n && ClassSubtrees(t, m, cls, top) && t.Inner(v) && Spans(t, cls, v)
    ensures HasKids(t, m, v) && KidL(t, m, v) == t.Left(v) && KidR(t, m, v) == t.Right(v)
    ensures Stability(t, m, v) == Mass(t.Lambda(v) - Birth(t, v), t.Size(v))
  {
    hide Spans, ClassSubtrees;
    assert t.HasChild(v, t.Left(v)) && t.HasChild(v, t.Right(v));
    ClassBelowChild(t, m, cls, top, v, t.Left(v));
    ClassBelowChild(t, m, cls, top, v, t.Right(v));
  }

  /** Leaf mode never mixes such classes. */
  lemma LeafModePure(t: Linkage, m: nat, allowRoot: bool, cls: seq<int>, top: int -> int, labels: seq<int>)
    requires Ready(t, m) && |cls| == t.n && ClassSubtrees(t, m, cls, top) && FlatClustering(t, m, allowRoot, true, labels)
    ensures LabelsPure(cls, labels)
  {
    hide ClassSubtrees, FlatClustering, LabelsPure, Spans;
    forall x ensures !Offends(t, m, allowRoot, true, cls, x) {
      if x in Tops(t, m, t.Root()) && Spans(t, cls, x) { SpanningSplits(t, m, cls, top, x); }
    }
    PureIffNoneOffends(t, m, allowRoot, true, cls, labels);
  }

  /** Excess of mass never mixes them if, at every merge across classes, the two sides together are worth
      more than the points below it at the density of the gap. */
  lemma GapModePure(t: Linkage, m: nat, allowRoot: bool, cls: seq<int>, top: int -> int, gap: real, labels: seq<int>)
    requires Ready(t, m) && |cls| == t.n && ClassSubtrees(t, m, cls, top) && FlatClustering(t, m, allowRoot, false, labels)
    requires gap > 0.0 && forall v | t.Inner(v) && Spans(t, cls, v) :: GapWorth(t, m, cls, gap, v)
    ensures LabelsPure(cls, labels)
  {
    hide ClassSubtrees, FlatClustering, LabelsPure, Spans, Best, Stability;
    forall x ensures !Offends(t, m, allowRoot, false, cls, x) {
      if x in Tops(t, m, t.Root()) && Spans(t, cls, x) {
        SpanningSplits(t, m, cls, top, x);
        assert GapWorth(t, m, cls, gap, x);
        GapBoundsMass(t, m, gap, x);
      }
    }
    PureIffNoneOffends(t, m, allowRoot, false, cls, labels);
  }

  ghost predicate GapWorth(t: Linkage, m: nat, cls: seq<int>, gap: real, v: int)
    requires Ready(t, m) && t.Inner(v) && gap > 0.0
  {
    && t.Height(v) >= gap && t.Inner(t.Left(v)) && t.Inner(t.Right(v))
    && Best(t, m, t.Left(v)) + Best(t, m, t.Right(v)) > Mass(1.0 / gap, t.Size(v))
  }

  lemma GapBoundsMass(t: Linkage, m: nat, gap: real, v: int)
    requires Ready(t, m) && t.Inner(v) && gap > 0.0 && t.Height(v) >= gap
    ensures Mass(t.Lambda(v) - Birth(t, v), t.Size(v)) <= Mass(1.0 / gap, t.Size(v))
  {
    var p := if v == t.Root() then v else t.Parent(v);
    assert t.Height(p) > 0.0;
    Inverse(t.Height(p), t.Height(p));
    Inverse(gap, t.Height(v));
    MassGrows(t.Lambda(v) - Birth(t, v), 1.0 / gap, t.Size(v));
  }

  lemma Inverse(a: real, b: real)
    requires 0.0 < a <= b
    ensures 0.0 < 1.0 / b <= 1.0 / a
  {
  }

  lemma MassGrows(a: real, b: real, n: nat)
    requires a <= b
    ensures Mass(a, n) <= Mass(b, n)
  {
  }

  // ---------- pooled proposals ----------

  /** Every point of a proposal of the pooled scan has the proposal's class, whenever no cluster of the
      scan's linkage offends. */
  lemma PooledProposalsPure(w: World, p: SeedParams, gidx: seq<int>, order: seq<int>, list: seq<Seed>, origin: seq<Origin>,
                            sc: Scan, t: Linkage, m: nat, allowRoot: bool, leafMode: bool, k: int, g: int)
    requires WorldOk(w) && SeededBy(w, p, ScansOf(w, p, gidx, order), list, origin) && 0 <= k < |list| && g in list[k].points
    requires ScansOf(w, p, gidx, order) == [sc]
    requires Ready(t, m) && |sc.cids| == t.n && FlatClustering(t, m, allowRoot, leafMode, sc.labels)
    requires !exists x :: Offends(t, m, allowRoot, leafMode, sc.cids, x)
    ensures OfClass(w, gidx, list[k].classId, g)
  {
    hide ScansOf, WorldOk, FlatClustering, Offends, OfClass, SeededBy;
    PureIffNoneOffends(t, m, allowRoot, leafMode, sc.cids, sc.labels);
    ShapeOfScan(w, p, gidx, order, sc);
    assert Unmixed(sc);
    ProposalsPure(w, p, gidx, order, list, origin, k, g);
  }

  lemma ShapeOfScan(w: World, p: SeedParams, gidx: seq<int>, order: seq<int>, sc: Scan)
    requires WorldOk(w) && ScansOf(w, p, gidx, order) == [sc]
    ensures ScanShape(sc)
  {
    hide ScansOf, WorldOk;
    ScansOk(w, p, gidx, order);
    assert ScanFits(w, gidx, order, [sc][0]);
  }

  // ---------- two classes in one proposal ----------

  /** One side of merge x is below the cluster size. */
  predicate SmallSide(t: Linkage, m: nat, x: int)
    requires t.Inner(x) && t.Left(x) < t.Total() && t.Right(x) < t.Total()
  {
    !Big(t, m, t.Left(x)) || !Big(t, m, t.Right(x))
  }

  ghost predicate OneCluster(t: Linkage, m: nat) { t.WellFormed() && forall x | t.Inner(x) :: SmallSide(t, m, x) }

  /** No merge joins two big nodes, so the root is the only condensed cluster. */
  lemma NeverSplits(t: Linkage, m: nat, v: int)
    requires Ready(t, m) && t.Inner(v) && OneCluster(t, m)
    ensures !HasKids(t, m, v)
  {
    assert SmallSide(t, m, End(t, m, v));
  }

  /** Then, with the root allowed, the flat clustering gives every point label 0. */
  lemma OneLabel(t: Linkage, m: nat, leafMode: bool, labels: seq<int>)
    requires Ready(t, m) && OneCluster(t, m)
    ensures FlatClustering(t, m, true, leafMode, labels) <==> labels == Const(t.n, 0)
  {
    hide OneCluster;
    NeverSplits(t, m, t.Root());
    var sel := Selection(t, m, true, leafMode);
    assert forall v :: v in sel <==> v == t.Root();
    forall p | 0 <= p < t.n ensures p in t.Under(t.Root()) { RootCoversAll(t, p); }
    if labels == Const(t.n, 0) {
      assert Names(sel, [t.Root()]) && Labelled(t, [t.Root()], labels);
    }
    if FlatClustering(t, m, true, leafMode, labels) {
      var names :| Names(sel, names) && Labelled(t, names, labels);
      assert t.Root() in names && names[0] in names && names[|names| - 1] in names;
      forall p | 0 <= p < t.n ensures labels[p] == 0 { assert PointLabel(t, names, p, labels[p]); }
      assert labels == Const(t.n, 0);
    }
  }

  /** Twelve points of one class a unit apart, four of another a unit apart, the classes a million apart. */
  function FarRow(i: nat): LinkNode {
    if i <= 10 then LinkNode(if i == 0 then 0 else 15 + i, i + 1, 1.0, i + 2)
    else if i <= 13 then LinkNode(if i == 11 then 12 else 15 + i, i + 2, 1.0, i - 9)
    else LinkNode(26, 29, 1000000.0, 16)
  }

  const FAR: Linkage := Linkage(16, seq(15, i requires i >= 0 => FarRow(i)))

  function FarParent(c: int): int {
    if c <= 0 then 16 else if c <= 11 then c + 15 else if c == 12 then 27 else if c <= 15 then c + 14
    else if c <= 25 then c + 1 else if c == 26 then 30 else if c <= 28 then c + 1 else 30
  }

  lemma FarIsWellFormed()
    ensures OneCluster(FAR, 5)
  {
    var t := FAR;
    forall u, v | t.HasChild(v, u) ensures v == FarParent(u) {}
    forall c | 0 <= c < t.Root() ensures t.HasParent(c) { assert t.HasChild(FarParent(c), c); }
  }

  function First(n: nat): (s: seq<int>)
    ensures |s| == n && forall i | 0 <= i < n :: s[i] == i
  {
    seq(n, i => i)
  }

  function From12(n: nat): (s: seq<int>)
    ensures |s| == n && forall i | 0 <= i < n :: s[i] == 12 + i
  {
    seq(n, i => 12 + i)
  }

  /** A world of those sixteen points in which the outlier filter drops nothing. */
  ghost predicate FarWorld(w: World) {
    && WorldOk(w) && w.size == 16 && (forall g :: w.classOf(g) == if g < 12 then 0 else 1)
    && forall xs, x :: x in xs ==> x in w.kept(xs)
  }

  lemma {:induction false} FarBuckets(w: World, n: nat)
    requires FarWorld(w) && n <= 16
    ensures Bucket(w, First(n), 0) == First(if n < 12 then n else 12)
    ensures Bucket(w, First(n), 1) == From12(if n < 12 then 0 else n - 12)
    decreases n
  {
    hide WorldOk;
    if n > 0 {
      FarBuckets(w, n - 1);
      assert First(n)[..n - 1] == First(n - 1);
      assert First(n)[n - 1] == n - 1 && Eligible(w, n - 1);
      if n <= 12 { assert First(n - 1) + [n - 1] == First(n); } else { assert From12(n - 13) + [n - 1] == From12(n - 12); }
    }
  }

  lemma FarPool(w: World, p: SeedParams)
    requires FarWorld(w) && p.minClassPoints <= 4
    ensures Pooled(w, p, First(16), [0, 1]) == (First(16), Const(12, 0) + Const(4, 1))
  {
    hide Keep, Bucket;
    FarBuckets(w, 16);
    var a, b := First(12), From12(4);
    KeepAll(a, w.kept(a));
    KeepAll(b, w.kept(b));
    assert Survivors(w, First(16), 0) == a && Survivors(w, First(16), 1) == b;
    assert [0, 1][..1] == [0] && [0][..0] == [];
    assert Pooled(w, p, First(16), [0]) == ([] + a, [] + Const(12, 0));
    assert [] + a == a && [] + Const(12, 0) == Const(12, 0);
    assert a + b == First(16);
  }

  function FarClasses(): seq<int> { Const(12, 0) + Const(4, 1) }

  /** The pooled scan can put two classes into one proposal: a class with fewer points than a cluster needs
      falls out of the tree at the root, the root is selected, and the proposal takes the class of its last
      point.  Point 0 has class 0 and its proposal class 1. */
  lemma PooledScanMixes(w: World, p: SeedParams, leafMode: bool, sc: Scan, list: seq<Seed>, origin: seq<Origin>)
    requires FarWorld(w) && p.singleScan && p.minPts <= 15 && p.minClassPoints <= 4
    requires ScansOf(w, p, First(16), [0, 1]) == [sc]
    requires Ready(FAR, 5) && FlatClustering(FAR, 5, true, leafMode, sc.labels)
    requires SeededBy(w, p, [sc], list, origin)
    ensures w.classOf(0) == 0 && exists k :: 0 <= k < |list| && 0 in list[k].points && list[k].classId == 1
  {
    hide Pooled, SeededBy, FlatClustering;
    FarPool(w, p);
    PooledScan(w, p, First(16), [0, 1]);
    assert sc == [sc][0];
    assert sc.gs == First(16) && sc.cids == FarClasses();
    FarIsWellFormed();
    OneLabel(FAR, 5, leafMode, sc.labels);
    var k := MixedProposal(w, p, sc, list, origin);
  }

  lemma MixedProposal(w: World, p: SeedParams, sc: Scan, list: seq<Seed>, origin: seq<Origin>) returns (k: int)
    requires SeededBy(w, p, [sc], list, origin) && sc.gs == First(16) && sc.cids == FarClasses() && sc.labels == Const(16, 0)
    ensures 0 <= k < |list| && 0 in list[k].points && list[k].classId == 1
  {
    hide SeedBuilt, PartOf;
    MembersAt(sc.gs, sc.labels, 0, 0);
    assert sc.gs[0] == 0 && sc.labels[0] == 0;
    assert 0 in Members([sc][0], 0);
    assert Held(list, origin, Origin(0, 0), 0);
    k :| 0 <= k < |list| && origin[k] == Origin(0, 0) && 0 in list[k].points;
    assert SeedOf(w, p, [sc][0], 0, list[k]);
    LastClassIs(w, p, sc, list[k]);
  }

  lemma LastClassIs(w: World, p: SeedParams, sc: Scan, s: Seed)
    requires SeedOf(w, p, sc, 0, s) && sc.cids == FarClasses() && sc.labels == Const(16, 0)
    ensures s.classId == 1
  {
    hide PartOf;
    assert sc.cids[15] == 1;
  }
}
