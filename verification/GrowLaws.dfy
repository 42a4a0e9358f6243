/** Seeding and growing in their inputs' own terms: which classes are scanned, what a cache holds, when a
    superpoint fits a proposal. */
module GrowLaws {
  import opened Basics
  import opened Voxels
  import opened WorldMap
  import opened Affinity
  import opened EuclideanSplit
  import opened Growing
  import opened Seeding

  // ---------- caches ----------

  /** A cache's voxels are those of the listed points that are in the map. */
  lemma {:induction false} VoxIff(cloud: seq<P4>, v: Edge, pts: seq<int>, k: VKey)
    ensures k in VoxOf(cloud, v, pts) <==> exists g :: g in pts && 0 <= g < |cloud| && VoxelOf(cloud[g], v) == k
    decreases |pts|
  {
    hide VoxelOf;
    if pts != [] {
      var (front, g) := (pts[..|pts| - 1], pts[|pts| - 1]);
      VoxIff(cloud, v, front, k);
      assert pts == front + [g];
    }
  }

  ghost predicate Holds(b: Box, p: P4) { b.xlo <= p.x <= b.xhi && b.ylo <= p.y <= b.yhi && b.zlo <= p.z <= b.zhi }

  ghost predicate HoldsAll(b: Box, cloud: seq<P4>, pts: seq<int>) { forall g | g in pts && 0 <= g < |cloud| :: Holds(b, cloud[g]) }

  ghost predicate Within(b: Box, c: Box) {
    c.xlo <= b.xlo && b.xhi <= c.xhi && c.ylo <= b.ylo && b.yhi <= c.yhi && c.zlo <= b.zlo && b.zhi <= c.zhi
  }

  lemma HoldsSnoc(b: Box, cloud: seq<P4>, front: seq<int>, g: int)
    ensures HoldsAll(b, cloud, front + [g]) <==> HoldsAll(b, cloud, front) && (0 <= g < |cloud| ==> Holds(b, cloud[g]))
  {
    assert forall x :: x in front + [g] <==> x in front || x == g;
  }

  /** The box is the least one around the listed points that are in the map; there is none without such a
      point. */
  lemma {:induction false} BoxIsLeast(cloud: seq<P4>, pts: seq<int>)
    ensures BoxOf(cloud, pts) == None <==> forall g | g in pts :: g < 0 || g >= |cloud|
    ensures BoxOf(cloud, pts).Some? ==> HoldsAll(BoxOf(cloud, pts).v, cloud, pts)
    ensures BoxOf(cloud, pts).Some? ==> forall c | HoldsAll(c, cloud, pts) :: Within(BoxOf(cloud, pts).v, c)
    decreases |pts|
  {
    hide HoldsAll;
    if pts == [] {
      NoBox(cloud, pts);
    } else {
      var (front, g) := (pts[..|pts| - 1], pts[|pts| - 1]);
      BoxIsLeast(cloud, front);
      assert pts == front + [g];
      assert g in pts && forall x | x in front :: x in pts;
      var b := BoxOf(cloud, pts);
      if b.Some? {
        forall c ensures HoldsAll(c, cloud, pts) <==> HoldsAll(c, cloud, front) && (0 <= g < |cloud| ==> Holds(c, cloud[g])) {
          HoldsSnoc(c, cloud, front, g);
        }
        if BoxOf(cloud, front).Some? {
          if 0 <= g < |cloud| { Wider(cloud, front, BoxOf(cloud, front).v, b.v, g); }
        } else {
          assert 0 <= g < |cloud|;
          NoneHeld(cloud, front, b.v);
        }
      }
    }
  }

  lemma NoBox(cloud: seq<P4>, pts: seq<int>)
    requires pts == []
    ensures BoxOf(cloud, pts) == None
  {
  }

  lemma Wider(cloud: seq<P4>, front: seq<int>, a: Box, b: Box, g: int)
    requires 0 <= g < |cloud| && Some(b) == Stretched(Some(a), cloud[g]) && HoldsAll(a, cloud, front)
    ensures HoldsAll(b, cloud, front) && Holds(b, cloud[g])
    ensures forall c | Within(a, c) && Holds(c, cloud[g]) :: Within(b, c)
  {
    forall x | x in front && 0 <= x < |cloud| ensures Holds(b, cloud[x]) { assert Holds(a, cloud[x]); }
  }

  lemma NoneHeld(cloud: seq<P4>, front: seq<int>, b: Box)
    requires forall x | x in front :: x < 0 || x >= |cloud|
    ensures HoldsAll(b, cloud, front)
  {
  }

  // ---------- affinity ----------

  /** p lies outside the box grown by v on every side. */
  ghost predicate Outside(b: Box, p: P4, v: real) {
    p.x < b.xlo - v || p.x > b.xhi + v || p.y < b.ylo - v || p.y > b.yhi + v || p.z < b.zlo - v || p.z > b.zhi + v
  }

  /** A superpoint of another class (when classes must agree), too far from the proposal's box or without a voxel
      in common is rejected; else its affinity is the cosine of the histograms times the share of its voxels that
      the proposal holds. */
  lemma AffinityIs(sqrt: real -> real, gp: GrowParams, v: Edge, c: Cand, classId: int, s: Superpoint, shist: seq<real>, svox: set<VKey>)
    requires c.box.Some? && svox != {}
    ensures (gp.requireClass && s.classId >= 0 && s.classId != classId) || Outside(c.box.v, s.centroid, v) || svox * c.vox == {} ==>
              Aff(sqrt, gp, v, c, classId, s, shist, svox) == -1.0
    ensures !(gp.requireClass && s.classId >= 0 && s.classId != classId) && !Outside(c.box.v, s.centroid, v) && svox * c.vox != {} ==>
              Aff(sqrt, gp, v, c, classId, s, shist, svox) * |svox| as real == CosineOf(sqrt, shist, c.hist) * |svox * c.vox| as real
  {
    hide CosineOf;
    var (n, k) := (|svox|, |svox * c.vox|);
    if svox * c.vox != {} {
      assert k != 0;
      ShareTimes(CosineOf(sqrt, shist, c.hist), k as real, n as real);
    }
  }

  lemma ShareTimes(x: real, k: real, n: real)
    requires n > 0.0
    ensures x * (k * (1.0 / n)) * n == x * k
  {
    var r := 1.0 / n;
    assert r * n == 1.0;
    assert x * (k * r) * n == x * k * (r * n);
  }

  // ---------- scans ----------

  /** The points of class c that survive the filter are this frame's eligible points of that class it keeps. */
  lemma SurvivorIff(w: World, gidx: seq<int>, c: int, g: int)
    ensures g in Survivors(w, gidx, c) <==>
            g in gidx && 0 <= g < w.size && w.classOf(g) == c && c >= 0 && g in w.kept(Bucket(w, gidx, c))
  {
    hide Bucket, Keep;
    var b := Bucket(w, gidx, c);
    KeepMembers(b, w.kept(b), g);
    BucketAt(w, gidx, c, g);
  }

  /** A class is scanned on its own exactly when it has enough survivors: as many as a class needs, 16 at least,
      and more than the density estimate looks at. */
  lemma ClassScanIff(w: World, p: SeedParams, gidx: seq<int>, c: int)
    ensures ClassScan(w, p, gidx, c) != [] <==>
            var n := |Survivors(w, gidx, c)|; n >= p.minClassPoints && n >= 16 && n > p.minPts && n > 1
    ensures forall sc | sc in ClassScan(w, p, gidx, c) ::
              sc.gs == Survivors(w, gidx, c) && |sc.cids| == |sc.gs| && forall i | 0 <= i < |sc.cids| :: sc.cids[i] == c
  {
    hide Survivors;
  }

  /** g is listed with class c. */
  ghost predicate Listed(gs: seq<int>, cids: seq<int>, g: int, c: int)
    requires |gs| == |cids|
  {
    exists i :: 0 <= i < |gs| && gs[i] == g && cids[i] == c
  }

  /** The pooled scan lists the survivors of exactly the classes that have enough, each point with its class. */
  lemma {:induction false} PooledIff(w: World, p: SeedParams, gidx: seq<int>, order: seq<int>, c: int, g: int)
    ensures Listed(Pooled(w, p, gidx, order).0, Pooled(w, p, gidx, order).1, g, c) <==>
            c in order && g in Survivors(w, gidx, c) && |Survivors(w, gidx, c)| >= p.minClassPoints
    decreases |order|
  {
    hide Survivors;
    if order != [] {
      hide Listed;
      var n := |order| - 1;
      var front, d := order[..n], order[n];
      var r, mg := Pooled(w, p, gidx, front), Survivors(w, gidx, d);
      PooledIff(w, p, gidx, front, c, g);
      assert order == front + [d];
      JoinedAt(r.0, r.1, mg, Const(|mg|, d), d, c, g);
    }
  }

  lemma JoinedAt(gs: seq<int>, cids: seq<int>, mg: seq<int>, ds: seq<int>, d: int, c: int, g: int)
    requires |gs| == |cids| && |ds| == |mg| && forall i | 0 <= i < |ds| :: ds[i] == d
    ensures Listed(gs + mg, cids + ds, g, c) <==> Listed(gs, cids, g, c) || (d == c && g in mg)
  {
    if i :| 0 <= i < |gs| && gs[i] == g && cids[i] == c { assert (gs + mg)[i] == g && (cids + ds)[i] == c; }
    if d == c && g in mg {
      var i :| 0 <= i < |mg| && mg[i] == g;
      assert (gs + mg)[|gs| + i] == g && (cids + ds)[|gs| + i] == c;
    }
    if i :| 0 <= i < |gs + mg| && (gs + mg)[i] == g && (cids + ds)[i] == c {
      if i < |gs| { assert gs[i] == g && cids[i] == c; } else { assert mg[i - |gs|] == g && ds[i - |gs|] == c; }
    }
  }

  /** It runs exactly when 16 points are pooled at least, and more than the density estimate looks at. */
  lemma PooledScanIff(w: World, p: SeedParams, gidx: seq<int>, order: seq<int>)
    requires p.singleScan
    ensures ScansOf(w, p, gidx, order) != [] <==>
            var n := |Pooled(w, p, gidx, order).0|; n >= 16 && n > p.minPts && n > 1
  {
    hide Pooled;
  }

  /** The class of a label is that of the last point that has it. */
  lemma {:induction false} LastClassIs(cids: seq<int>, labels: seq<int>, l: int, i: nat)
    requires |cids| == |labels| && i < |labels| && labels[i] == l && forall j | i < j < |labels| :: labels[j] != l
    ensures LastClass(cids, labels, l) == cids[i]
    decreases |labels|
  {
    var n := |labels| - 1;
    if i < n { LastClassIs(cids[..n], labels[..n], l, i); }
  }
}
