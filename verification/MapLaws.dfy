/** The map in coordinates and counts: which voxel a point has, what an index has taken in, which class wins. */
module MapLaws {
  import opened Voxels
  import opened WorldMap
  import opened Universe

  // ---------- voxels ----------

  ghost predicate InSlot(x: real, v: Edge, k: int) { k as real * v <= x < (k + 1) as real * v }

  /** A point's voxel is the cube of the grid it lies in, its lower faces included. */
  lemma VoxelIff(p: P4, v: Edge, k: VKey)
    ensures VoxelOf(p, v) == k <==> InSlot(p.x, v, k.x) && InSlot(p.y, v, k.y) && InSlot(p.z, v, k.z)
  {
    SlotIs(p.x, v, k.x);
    SlotIs(p.y, v, k.y);
    SlotIs(p.z, v, k.z);
  }

  // ---------- one observation ----------

  /** A point of a voxel not in the map is appended as it is, alive, unlabelled, without votes or colour. */
  lemma NewPoint(w: World, v: Edge, p: P4)
    requires WorldOk(w, v) && VoxelOf(p, v) !in w.vox
    ensures var (w', n) := (Observed(w, v, p), |w.points|);
            && w'.points == w.points + [p] && w'.vox == w.vox[VoxelOf(p, v) := n] && |w'.alive| == n + 1
            && w'.alive[n] && w'.count[n] == 1 && w'.flabel[n] == -1 && w'.fiid[n] == -1 && w'.votes[n] == []
            && w'.colorN[n] == 0 && w'.folded[n] == [p] && w'.hues[n] == []
            && forall j | 0 <= j < n :: SamePoint(w, w', j)
  {
    hide VoxelOf;
  }

  /** Everything about index j is as it was. */
  ghost predicate SamePoint(w: World, w': World, j: int)
    requires Parallel(w) && Parallel(w') && 0 <= j < |w.points| && j < |w'.points|
  {
    && w'.points[j] == w.points[j] && w'.count[j] == w.count[j] && w'.alive[j] == w.alive[j] && w'.flabel[j] == w.flabel[j]
    && w'.fiid[j] == w.fiid[j] && w'.votes[j] == w.votes[j] && w'.color[j] == w.color[j] && w'.colorN[j] == w.colorN[j]
    && w'.folded[j] == w.folded[j] && w'.hues[j] == w.hues[j]
  }

  ghost predicate OthersSame(w: World, w': World, i: int)
    requires Parallel(w) && Parallel(w') && |w'.points| == |w.points|
  {
    w'.vox == w.vox && forall j | 0 <= j < |w.points| && j != i :: SamePoint(w, w', j)
  }

  /** A point of a voxel whose point is dead is reborn there from scratch: nothing of the dead one remains. */
  lemma Reborn(w: World, v: Edge, p: P4)
    requires WorldOk(w, v) && VoxelOf(p, v) in w.vox && !w.alive[w.vox[VoxelOf(p, v)]]
    ensures var (w', i) := (Observed(w, v, p), w.vox[VoxelOf(p, v)]);
            && Parallel(w') && |w'.points| == |w.points| && OthersSame(w, w', i)
            && w'.points[i] == p && w'.alive[i] && w'.count[i] == 1 && w'.flabel[i] == -1 && w'.fiid[i] == -1 && w'.votes[i] == []
            && w'.colorN[i] == 0 && w'.folded[i] == [p] && w'.hues[i] == []
  {
    hide VoxelOf;
  }

  /** A point of a voxel whose point is alive is averaged in, coordinate by coordinate; labels, votes and colour
      stay. */
  lemma Refines(w: World, v: Edge, p: P4)
    requires WorldOk(w, v) && VoxelOf(p, v) in w.vox && w.alive[w.vox[VoxelOf(p, v)]]
    ensures var (w', i) := (Observed(w, v, p), w.vox[VoxelOf(p, v)]);
            && Parallel(w') && |w'.points| == |w.points| && OthersSame(w, w', i) && w'.count[i] == w.count[i] + 1
            && w'.folded[i] == w.folded[i] + [p]
            && (forall c: Coord :: (w.count[i] + 1) as real * Get(w'.points[i], c) == w.count[i] as real * Get(w.points[i], c) + Get(p, c))
            && w'.alive[i] && w'.flabel[i] == w.flabel[i] && w'.fiid[i] == w.fiid[i] && w'.votes[i] == w.votes[i]
            && w'.color[i] == w.color[i] && w'.colorN[i] == w.colorN[i] && w'.hues[i] == w.hues[i]
  {
    hide VoxelOf, Blend;
    var i := w.vox[VoxelOf(p, v)];
    forall c: Coord
      ensures (w.count[i] + 1) as real * Get(Fused(w.points[i], w.count[i], p), c) == w.count[i] as real * Get(w.points[i], c) + Get(p, c)
    {
      BlendTimes(Get(w.points[i], c), w.count[i], Get(p, c));
    }
  }

  // ---------- a cloud ----------

  /** The cloud's points of voxel k, in order. */
  function InVoxel(cloud: seq<P4>, v: Edge, k: VKey): seq<P4> {
    if cloud == [] then []
    else var p := cloud[|cloud| - 1]; InVoxel(cloud[..|cloud| - 1], v, k) + if VoxelOf(p, v) == k then [p] else []
  }

  /** What voxel k has taken in since its point was last born: nothing if it has none, or a dead one. */
  ghost function TakenIn(w: World, k: VKey): seq<P4>
    requires Parallel(w)
  {
    if k in w.vox && 0 <= w.vox[k] < |w.alive| && w.alive[w.vox[k]] then w.folded[w.vox[k]] else []
  }

  lemma OneTaken(w: World, v: Edge, p: P4, k: VKey)
    requires WorldOk(w, v)
    ensures Parallel(Observed(w, v, p))
    ensures TakenIn(Observed(w, v, p), k) == TakenIn(w, k) + if VoxelOf(p, v) == k then [p] else []
  {
    hide VoxelOf, Fused, MeanAt, TintedAt, HistOk;
    var kp := VoxelOf(p, v);
    if k in w.vox { assert VoxelOf(w.points[w.vox[k]], v) == k; }
    if kp in w.vox { assert VoxelOf(w.points[w.vox[kp]], v) == kp; }
  }

  /** Every point of a cloud is taken in, once, by its own voxel. */
  lemma {:induction false} AllTaken(w: World, v: Edge, cloud: seq<P4>, k: VKey)
    requires WorldOk(w, v)
    ensures Parallel(w) && Parallel(ObservedAll(w, v, cloud))
    ensures TakenIn(ObservedAll(w, v, cloud), k) == TakenIn(w, k) + InVoxel(cloud, v, k)
    decreases |cloud|
  {
    hide VoxelOf, WorldOk, Observed, TakenIn;
    IsParallel(w, v);
    if cloud != [] {
      var n := |cloud| - 1;
      AllTaken(w, v, cloud[..n], k);
      OneTaken(ObservedAll(w, v, cloud[..n]), v, cloud[n], k);
    }
  }

  lemma IsParallel(w: World, v: Edge)
    requires WorldOk(w, v)
    ensures Parallel(w)
  {
  }

  /** So a live point of the map is the mean of what its voxel has taken in. */
  lemma LiveIsMean(w: World, v: Edge, i: int, c: Coord)
    requires WorldOk(w, v) && 0 <= i < |w.points| && w.alive[i]
    ensures var got := TakenIn(w, VoxelOf(w.points[i], v));
            got != [] && |got| as real * Get(w.points[i], c) == SumOf(got, c)
  {
    hide VoxelOf;
    assert IndexedAt(w, v, i) && MeanAt(w, v, i);
  }

  // ---------- the nearby points ----------

  /** Within the radius, or anywhere for a radius that is not positive, and alive. */
  lemma WithinIff(w: World, center: P4, radius: real, i: nat)
    requires i < |w.points| == |w.alive|
    ensures Within(w, center, radius, i) <==>
            w.alive[i] && (radius <= 0.0 ||
              var (dx, dy, dz) := (w.points[i].x - center.x, w.points[i].y - center.y, w.points[i].z - center.z);
              dx * dx + dy * dy + dz * dz <= radius * radius)
  {
  }

  // ---------- the class of a point ----------

  /** The votes a class counts for: a stuff class with the bias. */
  ghost predicate Counts(stuff: nat -> bool, bias: real, b: Bin, x: real) {
    x == if stuff(b.id) then b.count as real * bias else b.count as real
  }

  /** No class counts for more than bin w's, and none as much has a lower id. */
  ghost predicate Leads(h: seq<Bin>, stuff: nat -> bool, bias: real, w: int) {
    0 <= w < |h| && forall j, x, y | 0 <= j < |h| && Counts(stuff, bias, h[w], x) && Counts(stuff, bias, h[j], y) ::
                      y <= x && (y == x ==> h[w].id <= h[j].id)
  }

  lemma LeadsIff(h: seq<Bin>, stuff: nat -> bool, bias: real, w: int)
    ensures Leads(h, stuff, bias, w) <==> Winner(h, stuff, bias, w)
  {
    hide Weight, Counts;
    if 0 <= w < |h| {
      forall j, x | 0 <= j < |h| ensures Counts(stuff, bias, h[j], x) <==> x == Weight(stuff, bias, h[j]) { CountsIs(stuff, bias, h[j], x); }
      if Leads(h, stuff, bias, w) {
        forall j | 0 <= j < |h| ensures Beats(stuff, bias, h[w], h[j]) {
          assert Counts(stuff, bias, h[w], Weight(stuff, bias, h[w])) && Counts(stuff, bias, h[j], Weight(stuff, bias, h[j]));
        }
      }
    }
  }

  lemma CountsIs(stuff: nat -> bool, bias: real, b: Bin, x: real)
    ensures Counts(stuff, bias, b, x) <==> x == Weight(stuff, bias, b)
  {
  }

  lemma {:induction false} LeaderOf(h: seq<Bin>, stuff: nat -> bool, bias: real, w: int, u: int)
    requires HistOk(h) && Winner(h, stuff, bias, w) && Winner(h, stuff, bias, u)
    ensures w == u
  {
    assert Beats(stuff, bias, h[w], h[u]) && Beats(stuff, bias, h[u], h[w]);
  }

  /** Class id is resolved exactly when it leads, the votes in all are enough, and its share of them is; without
      a leader, or with too few votes or too small a share, no class is. */
  lemma ResolvesIff(h: seq<Bin>, stuff: nat -> bool, bias: real, minVotes: nat, minConf: real, id: int)
    requires HistOk(h) && Resolves(h, stuff, bias, minVotes, minConf, id)
    ensures id == -1 || id >= 0
    ensures forall w | Leads(h, stuff, bias, w) ::
              id == if TotalVotes(h) >= minVotes && (minConf <= 0.0 || h[w].count as real >= minConf * TotalVotes(h) as real)
                    then h[w].id else -1
    ensures h == [] ==> id == -1
  {
    hide Winner, TotalVotes, HistOk;
    if h != [] && TotalVotes(h) >= minVotes {
      var u :| 0 <= u < |h| && Winner(h, stuff, bias, u) && id == Gated(h[u], TotalVotes(h), minConf);
      forall w | Leads(h, stuff, bias, w) ensures w == u {
        LeadsIff(h, stuff, bias, w);
        LeaderOf(h, stuff, bias, w, u);
      }
    }
  }

  /** Some class leads when there are votes. */
  lemma {:induction false} SomeLeads(h: seq<Bin>, stuff: nat -> bool, bias: real) returns (w: int)
    requires h != []
    ensures Leads(h, stuff, bias, w)
    decreases |h|
  {
    hide Weight;
    var n := |h| - 1;
    if n == 0 {
      w := 0;
    } else {
      w := SomeLeads(h[..n], stuff, bias);
      LeadsIff(h[..n], stuff, bias, w);
      assert forall j | 0 <= j < n :: h[..n][j] == h[j];
      assert forall j | 0 <= j < n :: Beats(stuff, bias, h[..n][w], h[..n][j]);
      if !Beats(stuff, bias, h[w], h[n]) { w := n; }
    }
    LeadsIff(h, stuff, bias, w);
  }
}
