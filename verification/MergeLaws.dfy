/** Similarity, affinity, the merge gate and the ranking of components, in their inputs' own terms. */
module MergeLaws {
  import opened Basics
  import opened SetSum
  import opened Voxels
  import opened Affinity
  import opened ObjectStore
  import opened ObjectTally
  import opened ObjectGather
  import opened ObjectFold
  import opened ObjectMerge
  import opened ObjectCache
  import opened ObjectSmall

  // ---------- cosine ----------

  /** Changing one coordinate changes the product by that coordinate's share. */
  lemma {:induction false} DotChange(a: seq<real>, b: seq<real>, i: nat, x: real)
    requires |a| == |b| && i < |a|
    ensures Dot(a[i := x], b) == Dot(a, b) + (x - a[i]) * b[i]
    decreases |a|
  {
    var n := |a| - 1;
    if i == n {
      assert a[i := x][..n] == a[..n];
      assert (x - a[i]) * b[i] == x * b[i] - a[i] * b[i];
    } else {
      assert a[i := x][..n] == a[..n][i := x];
      DotChange(a[..n], b[..n], i, x);
    }
  }

  lemma {:induction false} DotDisjoint(a: seq<real>, b: seq<real>)
    requires |a| == |b| && forall i | 0 <= i < |a| :: a[i] == 0.0 || b[i] == 0.0
    ensures Dot(a, b) == 0.0
    decreases |a|
  {
    if a != [] { DotDisjoint(a[..|a| - 1], b[..|b| - 1]); }
  }

  lemma {:induction false} DotSymmetric(a: seq<real>, b: seq<real>)
    requires |a| == |b|
    ensures Dot(a, b) == Dot(b, a)
    decreases |a|
  {
    if a != [] { DotSymmetric(a[..|a| - 1], b[..|b| - 1]); }
  }

  lemma {:induction false} DotSelf(a: seq<real>, i: nat)
    requires i < |a| && a[i] != 0.0
    ensures Dot(a, a) > 0.0
    decreases |a|
  {
    hide Square, Dot;
    var n := |a| - 1;
    SquaresNonNegative(a[..n]);
    DotTop(a);
    SquareSign(a[n]);
    if i < n { DotSelf(a[..n], i); }
  }

  function Square(x: real): real { x * x }

  lemma DotTop(a: seq<real>)
    requires a != []
    ensures Dot(a, a) == Dot(a[..|a| - 1], a[..|a| - 1]) + Square(a[|a| - 1])
  {
  }

  lemma SquareSign(x: real)
    ensures Square(x) >= 0.0 && (x != 0.0 ==> Square(x) > 0.0)
  {
    var y := if x < 0.0 then -x else x;
    assert y * y == x * x;
    if x != 0.0 { var d := PositiveProduct(y, y); }
  }

  lemma PositiveProduct(x: real, y: real) returns (d: real)
    requires x > 0.0 && y > 0.0
    ensures d == x * y && d > 0.0
  {
    Positive(x, y);
    d := x * y;
  }

  /** A histogram is wholly similar to itself. */
  lemma SelfCosine(sqrt: real -> real, a: seq<real>, i: nat)
    requires IsSqrt(sqrt) && i < |a| && a[i] != 0.0
    ensures CosineOf(sqrt, a, a) == 1.0
  {
    hide Dot;
    DotSelf(a, i);
    var d := Dot(a, a);
    Positive(d, d);
    RootOfSquare(sqrt, d);
    Itself(d);
    assert NormProduct(a, a) == d * d;
  }

  lemma Itself(d: real)
    requires d > 0.0
    ensures Ratio(d, d) == 1.0
  {
  }

  lemma RootOfSquare(sqrt: real -> real, d: real)
    requires IsSqrt(sqrt) && d > 0.0
    ensures sqrt(d * d) == d
  {
    Positive(d, d);
    var s := sqrt(d * d);
    assert s * s == d * d;
    assert (s - d) * (s + d) == 0.0;
    NoZeroDivisor(s - d, s + d);
  }

  lemma NoZeroDivisor(x: real, y: real)
    requires x * y == 0.0 && y > 0.0
    ensures x == 0.0
  {
    assert y * x == 0.0 && y * (-x) == 0.0;
    Shrink(y, x);
    Shrink(y, -x);
  }

  /** Histograms over different classes are not similar at all. */
  lemma DisjointCosine(sqrt: real -> real, a: seq<real>, b: seq<real>)
    requires IsSqrt(sqrt) && |a| == |b| && forall i | 0 <= i < |a| :: a[i] == 0.0 || b[i] == 0.0
    ensures CosineOf(sqrt, a, b) == 0.0
  {
    DotDisjoint(a, b);
    if Dot(a, a) > 0.0 && Dot(b, b) > 0.0 {
      Positive(Dot(a, a), Dot(b, b));
      NoneOver(sqrt(NormProduct(a, b)));
    }
  }

  lemma NoneOver(s: real)
    ensures Ratio(0.0, s) == 0.0
  {
  }

  // ---------- affinity and neighbourhood ----------

  /** The affinity of an edge is the confidence-weighted mean similarity of its deposits. */
  lemma AffinityIs(radj: map<EKey, EdgeAcc>, a: int, b: int)
    requires a != b
    ensures var k := if a < b then EKey(a, b) else EKey(b, a);
            if k in radj && radj[k].conf > 0.0 then AdjOf(radj, a, b) * radj[k].conf == radj[k].simConf else AdjOf(radj, a, b) == 0.0
  {
    var k := if a < b then EKey(a, b) else EKey(b, a);
    if k in radj && radj[k].conf > 0.0 { Back(radj[k].simConf, radj[k].conf); }
  }

  lemma Back(x: real, n: real)
    requires n > 0.0
    ensures x / n * n == x
  {
  }

  /** The weight of a component: its voxels, one at least. */
  ghost function Heft(comp: seq<Comp>, x: int): real {
    if 0 <= x < |comp| && |comp[x].vox| >= 2 then |comp[x].vox| as real else 1.0
  }

  /** The neighbourhood score is the mean affinity to a over b and its other neighbours, weighted by size, the
      neighbours' weights scaled by the decay. */
  lemma RegionIs(comp: seq<Comp>, radj: map<EKey, EdgeAcc>, decay: real, a: int, b: int, ns: set<int>, w: int -> real, wa: int -> real)
    requires decay >= 0.0
    requires forall x :: x in ns <==> x != a && (EKey(b, x) in radj || EKey(x, b) in radj)
    requires forall x | x in ns :: w(x) == decay * Heft(comp, x) && wa(x) == decay * Heft(comp, x) * AdjOf(radj, a, x)
    ensures Region(comp, radj, decay, a, b) * (Heft(comp, b) + Sum(ns, w)) == Heft(comp, b) * AdjOf(radj, a, b) + Sum(ns, wa)
  {
    hide AdjOf, Neighbours, Times, Bulk, Fraction, Heft, Weight, Weighted;
    var around := Neighbours(radj, b) - {a};
    AroundIs(radj, a, b, ns);
    SumsAre(comp, radj, decay, a, ns, w, wa);
    Own(comp, radj, a, b);
    FractionIs(RegionNum(comp, radj, decay, a, b, around), RegionDen(comp, decay, b, around));
  }

  lemma AroundIs(radj: map<EKey, EdgeAcc>, a: int, b: int, ns: set<int>)
    requires forall x :: x in ns <==> x != a && (EKey(b, x) in radj || EKey(x, b) in radj)
    ensures Neighbours(radj, b) - {a} == ns
  {
    hide Neighbours;
    var around := Neighbours(radj, b) - {a};
    forall x ensures x in around <==> x in ns { IsNeighbour(radj, b, x); }
    SameElements(around, ns);
  }

  lemma SumsAre(comp: seq<Comp>, radj: map<EKey, EdgeAcc>, decay: real, a: int, ns: set<int>, w: int -> real, wa: int -> real)
    requires decay >= 0.0
    requires forall x | x in ns :: w(x) == decay * Heft(comp, x) && wa(x) == decay * Heft(comp, x) * AdjOf(radj, a, x)
    ensures Sum(ns, Weight(comp, decay)) == Sum(ns, w) >= 0.0 && Sum(ns, Weighted(comp, radj, decay, a)) == Sum(ns, wa)
  {
    hide AdjOf, Heft;
    forall x | x in ns ensures w(x) == Weight(comp, decay)(x) && wa(x) == Weighted(comp, radj, decay, a)(x) && w(x) >= 0.0 {
      OneWeight(comp, radj, decay, a, x);
    }
    SumSame(ns, Weight(comp, decay), w);
    SumSame(ns, Weighted(comp, radj, decay, a), wa);
    SumNonNegative(ns, w);
  }

  lemma OneWeight(comp: seq<Comp>, radj: map<EKey, EdgeAcc>, decay: real, a: int, x: int)
    requires decay >= 0.0
    ensures Weight(comp, decay)(x) == decay * Heft(comp, x) >= 0.0
    ensures Weighted(comp, radj, decay, a)(x) == decay * Heft(comp, x) * AdjOf(radj, a, x)
  {
    hide AdjOf;
    assert Bulk(comp, x) == Heft(comp, x);
  }

  lemma Own(comp: seq<Comp>, radj: map<EKey, EdgeAcc>, a: int, b: int)
    ensures Bulk(comp, b) == Heft(comp, b) > 0.0
    ensures Times(Bulk(comp, b), AdjOf(radj, a, b)) == Heft(comp, b) * AdjOf(radj, a, b)
  {
    hide AdjOf;
  }

  lemma FractionIs(num: real, den: real)
    requires den > 0.0
    ensures Fraction(num, den) * den == num
  {
  }

  lemma IsNeighbour(radj: map<EKey, EdgeAcc>, b: int, x: int)
    ensures x in Neighbours(radj, b) <==> EKey(b, x) in radj || EKey(x, b) in radj
  {
    if EKey(b, x) in radj { assert EKey(b, x).a == b && EKey(b, x).b == x; }
    if EKey(x, b) in radj { assert EKey(x, b).b == b && EKey(x, b).a == x; }
  }

  /** Without other neighbours the score is the direct affinity. */
  lemma LoneRegion(comp: seq<Comp>, radj: map<EKey, EdgeAcc>, decay: real, a: int, b: int)
    requires forall x | x != a :: EKey(b, x) !in radj && EKey(x, b) !in radj
    ensures Region(comp, radj, decay, a, b) == AdjOf(radj, a, b)
  {
    hide AdjOf, Neighbours, Times, Bulk, Fraction, Heft, Weight, Weighted;
    AroundIs(radj, a, b, {});
    Own(comp, radj, a, b);
    var h, x := Heft(comp, b), AdjOf(radj, a, b);
    NoneIn(Weight(comp, decay));
    NoneIn(Weighted(comp, radj, decay, a));
    FractionIs(h * x, h);
    assert RegionNum(comp, radj, decay, a, b, {}) == h * x && RegionDen(comp, decay, b, {}) == h;
    assert Region(comp, radj, decay, a, b) == Fraction(h * x, h);
    Cancel(h, Region(comp, radj, decay, a, b), x);
  }

  lemma NoneIn(f: int -> real)
    ensures Sum({}, f) == 0.0
  {
  }

  lemma Cancel(h: real, x: real, y: real)
    requires h > 0.0 && x * h == h * y
    ensures x == y
  {
    assert h * (x - y) == 0.0 && h * (y - x) == 0.0;
    Shrink(h, x - y);
    Shrink(h, y - x);
  }

  /** Two components merge exactly when their edge has the evidence, and its mean similarity and both
      neighbourhood scores reach the bar of the lower of their levels. */
  lemma GateIff(comp: seq<Comp>, radj: map<EKey, EdgeAcc>, p: Params, a: int, b: int)
    requires 0 <= a < |comp| && 0 <= b < |comp| && a != b
    ensures Gate(comp, radj, p, a, b) <==>
            var k := if a < b then EKey(a, b) else EKey(b, a);
            var level := if comp[a].support <= comp[b].support then comp[a].support else comp[b].support;
            var bar := ThresholdFor(p.mergeThresh, level);
            && k in radj && radj[k].conf >= p.minEvidence
            && AdjOf(radj, a, b) >= bar && Region(comp, radj, p.disDecay, a, b) >= bar && Region(comp, radj, p.disDecay, b, a) >= bar
  {
    hide AdjOf, Region, ThresholdFor;
  }

  // ---------- ranks ----------

  /** The component drained into the other is never the one with more voxels, and the other keeps the point
      it shows in each of its voxels. */
  lemma SmallerIsDrained(s: Store, s': Store, x: int, y: int, win: int)
    requires Unites(s, s', x, y, win) && x != y
    ensures var loser := if win == x then y else x;
            && |s.comp[loser].vox| <= |s.comp[win].vox| && (|s.comp[x].vox| == |s.comp[y].vox| ==> win == x)
            && (forall k | k in s.comp[win].vox :: k in s'.comp[win].vox && s'.comp[win].vox[k] == s.comp[win].vox[k])
            && (forall k | k in s.comp[loser].vox && k !in s.comp[win].vox ::
                  k in s'.comp[win].vox && s'.comp[win].vox[k] == s.comp[loser].vox[k])
            && s'.comp[win].ids == s.comp[win].ids + s.comp[loser].ids
            && s'.comp[win].support == s.comp[win].support + s.comp[loser].support
  {
  }

  /** The winner of a voxel has the most support of all contenders, among those the most voxels, and among
      those the lowest id. */
  lemma WinnerRanks(root: seq<int>, comp: seq<Comp>, minMerges: int, k: VKey, r: int, q: int)
    requires Wins(root, comp, minMerges, k, r) && Contends(root, comp, minMerges, k, q)
    ensures comp[q].support <= comp[r].support
    ensures comp[q].support == comp[r].support ==> |comp[q].vox| <= |comp[r].vox|
    ensures comp[q].support == comp[r].support && |comp[q].vox| == |comp[r].vox| ==> r <= q
  {
  }

  /** A best neighbour has an edge, and no edge has a higher affinity. */
  lemma BestLinkRanks(radj: map<EKey, EdgeAcc>, best: map<int, Link>, a: int, b: int)
    requires BestLinks(radj, best) && a < b && EKey(a, b) in radj
    ensures a in best && b in best && AdjOf(radj, a, b) <= best[a].adj && AdjOf(radj, a, b) <= best[b].adj
  {
    hide AdjOf, BestLink;
    NoneAbove(radj, a, best[a], EKey(a, b));
    NoneAbove(radj, b, best[b], EKey(a, b));
  }

  lemma NoneAbove(radj: map<EKey, EdgeAcc>, a: int, link: Link, k: EKey)
    requires BestLink(radj, a, link) && k in radj && (k.a == a || k.b == a)
    ensures AdjOf(radj, k.a, k.b) <= link.adj
  {
    hide AdjOf;
  }

  // ---------- published objects ----------

  /** r is a current component seen at least `minMerges` times. */
  ghost predicate SeenEnough(root: seq<int>, comp: seq<Comp>, minMerges: int, r: int) {
    0 <= r < |root| && r < |comp| && root[r] == r && comp[r].support >= minMerges
  }

  /** q comes after r by support, then by number of voxels, then by id. */
  ghost predicate Outranked(comp: seq<Comp>, r: int, q: int)
    requires 0 <= r < |comp| && 0 <= q < |comp|
  {
    || comp[q].support < comp[r].support
    || (comp[q].support == comp[r].support && |comp[q].vox| < |comp[r].vox|)
    || (comp[q].support == comp[r].support && |comp[q].vox| == |comp[r].vox| && r <= q)
  }

  /** Voxel k of component r shows the live point g, and in overlap mode every other component seen often
      enough that holds the voxel comes after r. */
  ghost predicate ShowsPoint(root: seq<int>, comp: seq<Comp>, minMerges: int, overlap: bool, view: MapView, r: int, k: VKey, g: int)
    requires 0 <= r < |comp|
  {
    && k in comp[r].vox && comp[r].vox[k] == g && 0 <= g < |view.alive| && view.alive[g]
    && (overlap ==> forall q | SeenEnough(root, comp, minMerges, q) && k in comp[q].vox :: Outranked(comp, r, q))
  }

  lemma ShowsIff(root: seq<int>, comp: seq<Comp>, minMerges: int, overlap: bool, view: MapView, r: int, g: int)
    ensures Shows(root, comp, minMerges, overlap, view, r, g) <==>
            SeenEnough(root, comp, minMerges, r) && exists k :: ShowsPoint(root, comp, minMerges, overlap, view, r, k, g)
  {
    if SeenEnough(root, comp, minMerges, r) {
      forall k ensures Live(view, g) && ShowsAt(root, comp, minMerges, overlap, r, k, g) <==>
                       ShowsPoint(root, comp, minMerges, overlap, view, r, k, g) {
        if k in comp[r].vox { WinsIff(root, comp, minMerges, k, r); }
      }
    }
  }

  lemma WinsIff(root: seq<int>, comp: seq<Comp>, minMerges: int, k: VKey, r: int)
    requires SeenEnough(root, comp, minMerges, r) && k in comp[r].vox
    ensures Wins(root, comp, minMerges, k, r) <==>
            forall q | SeenEnough(root, comp, minMerges, q) && k in comp[q].vox :: Outranked(comp, r, q)
  {
    forall q ensures Contends(root, comp, minMerges, k, q) <==> SeenEnough(root, comp, minMerges, q) && k in comp[q].vox {}
    forall q | SeenEnough(root, comp, minMerges, q) && k in comp[q].vox
      ensures Outranked(comp, r, q) <==> q == r || Better(comp, r, q) {}
  }

  /** A component is published exactly when it was seen often enough and has a live point to show. */
  lemma PublishedIff(root: seq<int>, comp: seq<Comp>, minMerges: int, overlap: bool, view: MapView, cache: seq<Obj>, r: int)
    requires CacheOk(root, comp, minMerges, overlap, view, cache)
    ensures (exists i :: 0 <= i < |cache| && cache[i].id == r) <==>
            SeenEnough(root, comp, minMerges, r) && exists k, g :: ShowsPoint(root, comp, minMerges, overlap, view, r, k, g)
  {
    hide Shows, ObjOk;
    forall g ensures Shows(root, comp, minMerges, overlap, view, r, g) <==>
                     SeenEnough(root, comp, minMerges, r) && exists k :: ShowsPoint(root, comp, minMerges, overlap, view, r, k, g) {
      ShowsIff(root, comp, minMerges, overlap, view, r, g);
    }
    if i :| 0 <= i < |cache| && cache[i].id == r {
      ShowsSome(root, comp, minMerges, overlap, view, cache[i]);
    }
    if SeenEnough(root, comp, minMerges, r) && exists k, g :: ShowsPoint(root, comp, minMerges, overlap, view, r, k, g) {
      var k, g :| ShowsPoint(root, comp, minMerges, overlap, view, r, k, g);
      assert r < |comp| && Shows(root, comp, minMerges, overlap, view, r, g);
      assert Listed(cache, r);
    }
  }

  lemma ShowsSome(root: seq<int>, comp: seq<Comp>, minMerges: int, overlap: bool, view: MapView, o: Obj)
    requires ObjOk(root, comp, minMerges, overlap, view, o)
    ensures exists g :: Shows(root, comp, minMerges, overlap, view, o.id, g)
  {
    hide Shows, Dominates;
    assert o.points[0] in o.points;
  }

  /** A published object has a class no other class outvotes and that class's kind (-1 and thing without
      votes), its component's support, and exactly the points its component shows. */
  lemma PublishedIs(root: seq<int>, comp: seq<Comp>, minMerges: int, overlap: bool, view: MapView, cache: seq<Obj>, o: Obj)
    requires CacheOk(root, comp, minMerges, overlap, view, cache) && o in cache
    ensures SeenEnough(root, comp, minMerges, o.id) && o.level == comp[o.id].support
    ensures comp[o.id].cls == map[] ==> o.classId == -1 && o.kind == Thing
    ensures comp[o.id].cls != map[] ==> o.classId in comp[o.id].cls
    ensures forall c | c in comp[o.id].cls && o.classId in comp[o.id].cls :: comp[o.id].cls[c] <= comp[o.id].cls[o.classId]
    ensures o.classId >= 0 ==> o.kind == view.kindOf(o.classId)
    ensures forall g :: g in o.points <==> exists k :: ShowsPoint(root, comp, minMerges, overlap, view, o.id, k, g)
  {
    hide Shows, ShowsPoint;
    var i :| 0 <= i < |cache| && cache[i] == o;
    assert ObjOk(root, comp, minMerges, overlap, view, o);
    assert SeenEnough(root, comp, minMerges, o.id);
    forall g ensures g in o.points <==> exists k :: ShowsPoint(root, comp, minMerges, overlap, view, o.id, k, g) {
      ShowsIff(root, comp, minMerges, overlap, view, o.id, g);
    }
  }
}
