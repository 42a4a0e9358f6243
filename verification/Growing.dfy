/** Frame proposals that claim their points and grow by annexing superpoints. */
module Growing {
  import opened Basics
  import opened Centroids
  import opened Voxels
  import opened WorldMap
  import opened Affinity

  datatype Seed = Seed(classId: int, kind: Kind, points: seq<int>, centroid: Pos, hist: seq<real>, instIds: seq<int>)

  datatype Superpoint = Superpoint(classId: int, points: seq<int>, hist: seq<real>, instIds: seq<int>, centroid: P4)

  datatype GrowParams = GrowParams(thresh: real, requireClass: bool, sweeps: int, overlap: bool, pool: PoolParams)

  datatype PoolParams = PoolParams(on: bool, k: int, decay: real)

  // ---------- ownership ----------

  function OwnerOf(owner: seq<int>, g: int): int { if 0 <= g < |owner| then owner[g] else -1 }

  function Padded(owner: seq<int>, n: nat): (r: seq<int>)
    ensures |r| == if n > |owner| then n else |owner|
    ensures forall g :: OwnerOf(r, g) == OwnerOf(owner, g)
  {
    if n <= |owner| then owner else owner + seq(n - |owner|, i => -1)
  }

  /** The owner index after claiming g for oid; a negative g claims nothing. */
  function ClaimedBy(owner: seq<int>, g: int, oid: int): (r: seq<int>)
    ensures forall x :: OwnerOf(r, x) == if x == g && g >= 0 then oid else OwnerOf(owner, x)
  {
    if g < 0 then owner else Padded(owner, g + 1)[g := oid]
  }

  /** A point is owned by proposal k exactly when it is among k's points. */
  ghost predicate Agrees(list: seq<Seed>, owner: seq<int>) {
    && (forall g :: OwnerOf(owner, g) >= -1)
    && forall g, k | g >= 0 :: OwnsIff(list, owner, g, k)
  }

  ghost predicate OwnsIff(list: seq<Seed>, owner: seq<int>, g: int, k: int) {
    (0 <= k < |list| && g in list[k].points) <==> (k >= 0 && OwnerOf(owner, g) == k)
  }

  // ---------- seeding ----------

  function ClaimedAll(owner: seq<int>, points: seq<int>, oid: int): seq<int> {
    if points == [] then owner else ClaimedBy(ClaimedAll(owner, points[..|points| - 1], oid), points[|points| - 1], oid)
  }

  lemma {:induction false} ClaimedAllAt(owner: seq<int>, points: seq<int>, oid: int, g: int)
    ensures OwnerOf(ClaimedAll(owner, points, oid), g) == if g >= 0 && g in points then oid else OwnerOf(owner, g)
    decreases |points|
  {
    if points != [] {
      var n := |points| - 1;
      ClaimedAllAt(owner, points[..n], oid, g);
      assert points == points[..n] + [points[n]];
    }
  }

  /** Appending a proposal keeps the agreement exactly when none of its points is owned yet. */
  lemma AppendAgreesIff(list: seq<Seed>, owner: seq<int>, s: Seed)
    requires Agrees(list, owner)
    ensures Agrees(list + [s], ClaimedAll(owner, s.points, |list|)) <==>
            forall g | g in s.points && g >= 0 :: OwnerOf(owner, g) == -1
  {
    var list', owner' := list + [s], ClaimedAll(owner, s.points, |list|);
    forall g ensures OwnerOf(owner', g) == if g >= 0 && g in s.points then |list| else OwnerOf(owner, g) {
      ClaimedAllAt(owner, s.points, |list|, g);
    }
    if forall g | g in s.points && g >= 0 :: OwnerOf(owner, g) == -1 {
      forall g, k | g >= 0 ensures OwnsIff(list', owner', g, k) {
        assert OwnsIff(list, owner, g, k);
        if k == |list| { assert list'[k] == s; } else if 0 <= k < |list| { assert list'[k] == list[k]; }
      }
    }
    forall g | g in s.points && g >= 0 && OwnerOf(owner, g) != -1 ensures !Agrees(list', owner') {
      var k := OwnerOf(owner, g);
      assert OwnsIff(list, owner, g, k);
      assert list'[k] == list[k] && !OwnsIff(list', owner', g, k);
    }
  }

  // ---------- footprints ----------

  predicate InCloud(cloud: seq<P4>, g: int) { 0 <= g < |cloud| }

  /** Voxels of the points that lie in the map. */
  function VoxOf(cloud: seq<P4>, v: Edge, pts: seq<int>): set<VKey> {
    if pts == [] then {}
    else var g := pts[|pts| - 1];
         VoxOf(cloud, v, pts[..|pts| - 1]) + if InCloud(cloud, g) then {VoxelOf(cloud[g], v)} else {}
  }

  datatype Box = Box(xlo: real, ylo: real, zlo: real, xhi: real, yhi: real, zhi: real)

  function Min(a: real, b: real): real { if b < a then b else a }

  function Max(a: real, b: real): real { if a < b then b else a }

  function Stretched(b: Option<Box>, p: P4): Option<Box> {
    if b.None? then Some(Box(p.x, p.y, p.z, p.x, p.y, p.z))
    else Some(Box(Min(b.v.xlo, p.x), Min(b.v.ylo, p.y), Min(b.v.zlo, p.z), Max(b.v.xhi, p.x), Max(b.v.yhi, p.y), Max(b.v.zhi, p.z)))
  }

  /** Bounding box of the points that lie in the map. */
  function BoxOf(cloud: seq<P4>, pts: seq<int>): Option<Box> {
    if pts == [] then None
    else var g := pts[|pts| - 1];
         var b := BoxOf(cloud, pts[..|pts| - 1]);
         if InCloud(cloud, g) then Stretched(b, cloud[g]) else b
  }

  // ---------- candidates and affinity ----------

  /** A proposal's cached volume, histogram at the start of growing, and box. */
  datatype Cand = Cand(oid: int, vox: set<VKey>, hist: seq<real>, box: Option<Box>)

  ghost predicate CandOk(list: seq<Seed>, cloud: seq<P4>, v: Edge, c: Cand) {
    && 0 <= c.oid < |list| && c.box.Some?
    && c.vox == VoxOf(cloud, v, list[c.oid].points) && c.box == BoxOf(cloud, list[c.oid].points)
  }

  /** The caches mirror the proposals, each proposal having at most one. */
  ghost predicate Cached(list: seq<Seed>, cloud: seq<P4>, v: Edge, cand: seq<Cand>) {
    && (forall i | 0 <= i < |cand| :: CandOk(list, cloud, v, cand[i]))
    && forall i, j | 0 <= i < j < |cand| :: cand[i].oid < cand[j].oid
  }

  predicate NearBox(b: Option<Box>, p: P4, v: real) {
    b.Some? && b.v.xlo - v <= p.x <= b.v.xhi + v && b.v.ylo - v <= p.y <= b.v.yhi + v && b.v.zlo - v <= p.z <= b.v.zhi + v
  }

  /** Class agreement, box gate, then histogram cosine times volume containment; -1 when gated out. */
  ghost function Aff(sqrt: real -> real, gp: GrowParams, v: Edge, c: Cand, classId: int, s: Superpoint, shist: seq<real>,
                     svox: set<VKey>): real
  {
    if gp.requireClass && s.classId >= 0 && s.classId != classId then -1.0
    else if !NearBox(c.box, s.centroid, v) then -1.0
    else if |svox * c.vox| == 0 then -1.0
    else CosineOf(sqrt, shist, c.hist) * Share(|svox * c.vox|, |svox|)
  }

  function Share(shared: nat, size: nat): real { if size == 0 then 0.0 else shared as real * (1.0 / size as real) }

  method AffOf(sqrt: real -> real, gp: GrowParams, v: Edge, c: Cand, classId: int, s: Superpoint, shist: seq<real>,
               svox: set<VKey>)
    returns (aff: real)
    requires IsSqrt(sqrt) && svox != {}
    ensures aff == Aff(sqrt, gp, v, c, classId, s, shist, svox)
  {
    hide CosineOf, NearBox;
    if gp.requireClass && s.classId >= 0 && s.classId != classId { return -1.0; }
    if !NearBox(c.box, s.centroid, v) { return -1.0; }
    var shared := CountShared(svox, c.vox);
    if shared == 0 { return -1.0; }
    var cos := Cosine(sqrt, shist, c.hist);
    aff := cos * Share(shared, |svox|);
  }

  lemma VoxSnoc(cloud: seq<P4>, v: Edge, pts: seq<int>, g: int)
    ensures VoxOf(cloud, v, pts + [g]) == VoxOf(cloud, v, pts) + if InCloud(cloud, g) then {VoxelOf(cloud[g], v)} else {}
    ensures BoxOf(cloud, pts + [g]) == if InCloud(cloud, g) then Stretched(BoxOf(cloud, pts), cloud[g]) else BoxOf(cloud, pts)
  {
    assert (pts + [g])[..|pts|] == pts;
  }

  method MakeCand(cloud: seq<P4>, v: Edge, oid: int, s: Seed) returns (c: Cand)
    ensures c.oid == oid && c.hist == s.hist && c.vox == VoxOf(cloud, v, s.points) && c.box == BoxOf(cloud, s.points)
  {
    hide Stretched, VoxelOf;
    var vox: set<VKey>, box := {}, None;
    for i := 0 to |s.points|
      invariant vox == VoxOf(cloud, v, s.points[..i]) && box == BoxOf(cloud, s.points[..i])
    {
      var g := s.points[i];
      VoxSnoc(cloud, v, s.points[..i], g);
      assert s.points[..i + 1] == s.points[..i] + [g];
      if !InCloud(cloud, g) { continue; }
      vox, box := vox + {VoxelOf(cloud[g], v)}, Stretched(box, cloud[g]);
    }
    assert s.points[..|s.points|] == s.points;
    c := Cand(oid, vox, s.hist, box);
  }

  /** A cache for every proposal with a point in the map. */
  method BuildCands(list: seq<Seed>, cloud: seq<P4>, v: Edge) returns (cand: seq<Cand>)
    ensures Cached(list, cloud, v, cand) && (forall i | 0 <= i < |cand| :: cand[i].hist == list[cand[i].oid].hist)
    ensures forall oid | 0 <= oid < |list| && BoxOf(cloud, list[oid].points).Some? ::
              exists i :: 0 <= i < |cand| && cand[i].oid == oid
  {
    hide VoxOf, BoxOf;
    cand := [];
    for oid := 0 to |list|
      invariant Cached(list, cloud, v, cand) && (forall i | 0 <= i < |cand| :: cand[i].hist == list[cand[i].oid].hist)
      invariant forall i | 0 <= i < |cand| :: cand[i].oid < oid
      invariant forall k | 0 <= k < oid && BoxOf(cloud, list[k].points).Some? ::
                  exists i :: 0 <= i < |cand| && cand[i].oid == k
    {
      var c := MakeCand(cloud, v, oid, list[oid]);
      if c.box.None? { continue; }
      ghost var before := cand;
      cand := cand + [c];
      forall k | 0 <= k < oid && BoxOf(cloud, list[k].points).Some? ensures exists i :: 0 <= i < |cand| && cand[i].oid == k {
        var i :| 0 <= i < |before| && before[i].oid == k;
        assert cand[i].oid == k;
      }
      assert cand[|before|].oid == oid;
    }
  }
}
