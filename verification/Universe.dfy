/** The universe object: parallel per-point arrays over a voxel index that never moves. */
module Universe {
  import opened Basics
  import opened Centroids
  import opened Voxels
  import opened WorldMap

  // ---------- vocabulary ----------

  class Vocabulary {
    var names: seq<string>
    var kinds: seq<Kind>
    var ids: map<string, int>

    /** Names and ids are in bijection; the empty name has no id. */
    ghost predicate Valid() reads this {
      && |kinds| == |names|
      && (forall i | 0 <= i < |names| :: names[i] != "" && names[i] in ids && ids[names[i]] == i)
      && (forall s | s in ids :: 0 <= ids[s] < |names| && names[ids[s]] == s)
    }

    constructor ()
      ensures Valid() && names == []
    {
      names, kinds, ids := [], [], map[];
    }

    method Intern(name: string) returns (id: int)
      requires Valid()
      modifies this
      ensures Valid() && old(names) <= names && old(kinds) <= kinds
      ensures if name == "" then id == -1 && names == old(names) else 0 <= id < |names| && names[id] == name
      ensures name != "" ==> names == if name in old(ids) then old(names) else old(names) + [name]
      ensures kinds == if |names| == old(|names|) then old(kinds) else old(kinds) + [Unknown]
    {
      if name == "" { return -1; }
      if name in ids { return ids[name]; }
      id := |names|;
      names, kinds, ids := names + [name], kinds + [Unknown], ids[name := id];
    }

    /** A kind once declared is never overwritten. */
    method Declare(name: string, k: Kind) returns (id: int)
      requires Valid()
      modifies this
      ensures Valid() && old(names) <= names
      ensures name != "" ==> 0 <= id < |names| && names[id] == name
      ensures name != "" ==> kinds[id] == if id < old(|names|) && old(kinds)[id] != Unknown then old(kinds)[id] else k
      ensures forall i | 0 <= i < old(|names|) && i != id :: kinds[i] == old(kinds)[i]
    {
      id := Intern(name);
      if id >= 0 && kinds[id] == Unknown { kinds := kinds[id := k]; }
    }
  }

  function StuffAmong(kinds: seq<Kind>): nat -> bool { (c: nat) => c < |kinds| && kinds[c] == Stuff }

  // ---------- the arrays as a value ----------

  datatype Rgb = Rgb(r: real, g: real, b: real)

  const BLACK: Rgb := Rgb(0.0, 0.0, 0.0)

  function Shade(c: Rgb, k: int): real { if k == 0 then c.r else if k == 1 then c.g else c.b }

  function ShadeSum(cs: seq<Rgb>, k: int): real {
    if cs == [] then 0.0 else ShadeSum(cs[..|cs| - 1], k) + Shade(cs[|cs| - 1], k)
  }

  /** points: the map.  folded and hues are history: the points fused into each index, and the colours voted
      for it, since its last birth. */
  datatype World = World(points: seq<P4>, count: seq<nat>, alive: seq<bool>, vox: map<VKey, int>, flabel: seq<int>,
                         fiid: seq<int>, votes: seq<seq<Bin>>, color: seq<Rgb>, colorN: seq<nat>, folded: seq<seq<P4>>,
                         hues: seq<seq<Rgb>>)

  const EMPTY: World := World([], [], [], map[], [], [], [], [], [], [], [])

  ghost predicate Parallel(w: World) {
    && |w.points| == |w.count| == |w.alive| == |w.flabel| == |w.fiid| == |w.votes| == |w.color| == |w.colorN|
    && |w.folded| == |w.hues| == |w.points|
  }

  /** The voxel index is a bijection between keys and indices. */
  ghost predicate Bijective(w: World, v: Edge) {
    && (forall i | 0 <= i < |w.points| :: IndexedAt(w, v, i))
    && forall k | k in w.vox :: 0 <= w.vox[k] < |w.points| && VoxelOf(w.points[w.vox[k]], v) == k
  }

  ghost predicate IndexedAt(w: World, v: Edge, i: int)
    requires 0 <= i < |w.points|
  {
    VoxelOf(w.points[i], v) in w.vox && w.vox[VoxelOf(w.points[i], v)] == i
  }

  /** Point i is the mean of the points folded since its last birth, all of them of its voxel. */
  ghost predicate MeanAt(w: World, v: Edge, i: int)
    requires 0 <= i < |w.points| == |w.count| == |w.folded|
  {
    && |w.folded[i]| == w.count[i] >= 1 && IsMean(w.folded[i], w.points[i])
    && forall p | p in w.folded[i] :: VoxelOf(p, v) == VoxelOf(w.points[i], v)
  }

  /** Its colour is the mean of the colours voted since then, channel by channel. */
  ghost predicate TintedAt(w: World, i: int)
    requires 0 <= i < |w.color| == |w.colorN| == |w.hues|
  {
    |w.hues[i]| == w.colorN[i] && forall k | 0 <= k < 3 :: ChannelIsMean(w.hues[i], w.color[i], k)
  }

  ghost predicate ChannelIsMean(cs: seq<Rgb>, c: Rgb, k: int) { |cs| as real * Shade(c, k) == ShadeSum(cs, k) }

  ghost predicate WorldOk(w: World, v: Edge) {
    && Parallel(w) && Bijective(w, v)
    && (forall i | 0 <= i < |w.points| :: MeanAt(w, v, i) && TintedAt(w, i))
    && forall i | 0 <= i < |w.votes| :: HistOk(w.votes[i])
  }

  /** The voxel key of every index. */
  function Keys(w: World, v: Edge): (ks: seq<VKey>)
    ensures |ks| == |w.points| && forall i | 0 <= i < |ks| :: ks[i] == VoxelOf(w.points[i], v)
  {
    seq(|w.points|, i requires 0 <= i < |w.points| => VoxelOf(w.points[i], v))
  }

  /** No two indices share a voxel. */
  lemma KeysDistinct(w: World, v: Edge)
    requires WorldOk(w, v)
    ensures forall i, j | 0 <= i < j < |w.points| :: Keys(w, v)[i] != Keys(w, v)[j]
  {
    hide VoxelOf, MeanAt;
    forall i, j | 0 <= i < j < |w.points| ensures Keys(w, v)[i] != Keys(w, v)[j] {
      assert IndexedAt(w, v, i) && IndexedAt(w, v, j);
    }
  }

  /** The key the object stages compute from the reciprocal edge is the map's own, so it tells
      indices apart. */
  lemma ObjectKeysDistinct(w: World, v: Edge, i: int, j: int)
    requires WorldOk(w, v) && 0 <= i < |w.points| && 0 <= j < |w.points|
    requires VoxelAt(w.points[i], 1.0 / v) == VoxelAt(w.points[j], 1.0 / v)
    ensures i == j
  {
    hide VoxelOf, VoxelAt, MeanAt;
    SameKey(w.points[i], v);
    SameKey(w.points[j], v);
    assert IndexedAt(w, v, i) && IndexedAt(w, v, j);
  }

  // ---------- folding in a point ----------

  function Appended(w: World, k: VKey, p: P4): World {
    World(w.points + [p], w.count + [1], w.alive + [true], w.vox[k := |w.points|], w.flabel + [-1], w.fiid + [-1],
          w.votes + [[]], w.color + [BLACK], w.colorN + [0], w.folded + [[p]], w.hues + [[]])
  }

  function Revived(w: World, i: nat, p: P4): World
    requires i < |w.points| && Parallel(w)
  {
    World(w.points[i := p], w.count[i := 1], w.alive[i := true], w.vox, w.flabel[i := -1], w.fiid[i := -1],
          w.votes[i := []], w.color[i := BLACK], w.colorN[i := 0], w.folded[i := [p]], w.hues[i := []])
  }

  function Refined(w: World, i: nat, p: P4): World
    requires i < |w.points| && Parallel(w)
  {
    w.(points := w.points[i := Fused(w.points[i], w.count[i], p)], count := w.count[i := w.count[i] + 1],
       folded := w.folded[i := w.folded[i] + [p]])
  }

  /** One observation: a new voxel appends a point, a dead one is reborn, a live one refined. */
  function Observed(w: World, v: Edge, p: P4): World
    requires WorldOk(w, v)
  {
    var k := VoxelOf(p, v);
    if k !in w.vox then Appended(w, k, p)
    else if !w.alive[w.vox[k]] then Revived(w, w.vox[k], p)
    else Refined(w, w.vox[k], p)
  }

  lemma AppendedOk(w: World, v: Edge, p: P4)
    requires WorldOk(w, v) && VoxelOf(p, v) !in w.vox
    ensures WorldOk(Appended(w, VoxelOf(p, v), p), v)
  {
    hide VoxelOf, IsMean, ChannelIsMean;
    var k := VoxelOf(p, v);
    var w' := Appended(w, k, p);
    MeanOfOne(p);
    forall k ensures ChannelIsMean([], BLACK, k) { NoHue(k); }
    forall i | 0 <= i < |w'.points| ensures IndexedAt(w', v, i) && MeanAt(w', v, i) && TintedAt(w', i) {
      if i < |w.points| { assert IndexedAt(w, v, i) && MeanAt(w, v, i) && TintedAt(w, i); }
    }
  }

  /** A point replaced within its voxel keeps the index. */
  lemma SameVoxelBijective(w: World, w': World, v: Edge, i: nat)
    requires Bijective(w, v) && i < |w.points| && w'.vox == w.vox && |w'.points| == |w.points|
    requires forall j | 0 <= j < |w.points| && j != i :: w'.points[j] == w.points[j]
    requires VoxelOf(w'.points[i], v) == VoxelOf(w.points[i], v)
    ensures Bijective(w', v)
  {
    hide VoxelOf;
    forall j | 0 <= j < |w'.points| ensures IndexedAt(w', v, j) { assert IndexedAt(w, v, j); }
    forall k | k in w'.vox ensures VoxelOf(w'.points[w'.vox[k]], v) == k { assert VoxelOf(w.points[w.vox[k]], v) == k; }
  }

  lemma RevivedOk(w: World, v: Edge, i: nat, p: P4)
    requires WorldOk(w, v) && i < |w.points| && VoxelOf(p, v) == VoxelOf(w.points[i], v)
    ensures WorldOk(Revived(w, i, p), v)
  {
    hide VoxelOf, IsMean, Bijective, ChannelIsMean;
    var w' := Revived(w, i, p);
    MeanOfOne(p);
    forall k ensures ChannelIsMean([], BLACK, k) { NoHue(k); }
    SameVoxelBijective(w, w', v, i);
    forall j | 0 <= j < |w'.points| ensures MeanAt(w', v, j) && TintedAt(w', j) { assert MeanAt(w, v, j) && TintedAt(w, j); }
  }

  lemma RefinedOk(w: World, v: Edge, i: nat, p: P4)
    requires WorldOk(w, v) && i < |w.points| && VoxelOf(p, v) == VoxelOf(w.points[i], v)
    ensures WorldOk(Refined(w, i, p), v)
  {
    hide VoxelOf, IsMean, Bijective, Fused, ChannelIsMean;
    var w' := Refined(w, i, p);
    assert MeanAt(w, v, i);
    MeanMore(w.folded[i], w.points[i], p);
    FusedStays(w.points[i], w.count[i], p, v);
    SameVoxelBijective(w, w', v, i);
    forall j | 0 <= j < |w'.points| ensures MeanAt(w', v, j) && TintedAt(w', j) { assert MeanAt(w, v, j) && TintedAt(w, j); }
  }

  /** No index moves: the keys only grow at the end. */
  lemma ObservedOk(w: World, v: Edge, p: P4)
    requires WorldOk(w, v)
    ensures WorldOk(Observed(w, v, p), v) && Keys(w, v) <= Keys(Observed(w, v, p), v)
  {
    hide VoxelOf, Fused, MeanAt, HistOk;
    var k := VoxelOf(p, v);
    if k !in w.vox {
      AppendedOk(w, v, p);
    } else if !w.alive[w.vox[k]] {
      RevivedOk(w, v, w.vox[k], p);
    } else {
      RefinedOk(w, v, w.vox[k], p);
      assert MeanAt(w, v, w.vox[k]);
      FusedStays(w.points[w.vox[k]], w.count[w.vox[k]], p, v);
    }
  }

  function ObservedAll(w: World, v: Edge, cloud: seq<P4>): (r: World)
    requires WorldOk(w, v)
    ensures WorldOk(r, v)
    decreases |cloud|
  {
    if cloud == [] then w
    else var before := ObservedAll(w, v, cloud[..|cloud| - 1]);
         ObservedOk(before, v, cloud[|cloud| - 1]);
         Observed(before, v, cloud[|cloud| - 1])
  }

  function Killed(w: World, i: int): World
    requires Parallel(w)
  {
    if i < 0 || i >= |w.alive| then w
    else w.(alive := w.alive[i := false], flabel := w.flabel[i := -1], fiid := w.fiid[i := -1], votes := w.votes[i := []])
  }

  lemma SamePointsOk(w: World, w': World, v: Edge)
    requires WorldOk(w, v) && w'.points == w.points && w'.count == w.count && w'.vox == w.vox && w'.folded == w.folded
    requires w'.color == w.color && w'.colorN == w.colorN && w'.hues == w.hues
    requires Parallel(w') && forall i | 0 <= i < |w'.votes| :: HistOk(w'.votes[i])
    ensures WorldOk(w', v) && Keys(w', v) == Keys(w, v)
  {
    hide VoxelOf, IsMean, HistOk, ChannelIsMean;
    forall i | 0 <= i < |w'.points| ensures IndexedAt(w', v, i) && MeanAt(w', v, i) && TintedAt(w', i) {
      assert IndexedAt(w, v, i) && MeanAt(w, v, i) && TintedAt(w, i);
    }
  }

  // ---------- colours ----------

  /** Colour i after one more vote. */
  function Painted(w: World, i: int, c: Rgb): World
    requires Parallel(w) && 0 <= i < |w.color|
  {
    var (m, n) := (w.color[i], w.colorN[i]);
    w.(color := w.color[i := Rgb(Blend(m.r, n, c.r), Blend(m.g, n, c.g), Blend(m.b, n, c.b))], colorN := w.colorN[i := n + 1],
       hues := w.hues[i := w.hues[i] + [c]])
  }

  lemma ChannelMore(cs: seq<Rgb>, m: Rgb, c: Rgb, k: int, m': Rgb)
    requires ChannelIsMean(cs, m, k) && Shade(m', k) == Blend(Shade(m, k), |cs|, Shade(c, k))
    ensures ChannelIsMean(cs + [c], m', k)
  {
    hide Blend;
    BlendTimes(Shade(m, k), |cs|, Shade(c, k));
    assert (cs + [c])[..|cs|] == cs;
  }

  lemma PaintedOk(w: World, v: Edge, i: int, c: Rgb)
    requires WorldOk(w, v) && 0 <= i < |w.color|
    ensures WorldOk(Painted(w, i, c), v) && Keys(Painted(w, i, c), v) == Keys(w, v)
  {
    hide VoxelOf, IsMean, HistOk, ChannelIsMean, Blend;
    var w' := Painted(w, i, c);
    forall j | 0 <= j < |w'.points| ensures IndexedAt(w', v, j) && MeanAt(w', v, j) && TintedAt(w', j) {
      assert IndexedAt(w, v, j) && MeanAt(w, v, j) && TintedAt(w, j);
      if j == i {
        forall k | 0 <= k < 3 ensures ChannelIsMean(w'.hues[i], w'.color[i], k) { ChannelMore(w.hues[i], w.color[i], c, k, w'.color[i]); }
      }
    }
  }

  lemma VoteKeeps(w: World, v: Edge)
    requires WorldOk(w, v)
    ensures Parallel(w)
  {
  }

  lemma NoHue(k: int)
    ensures ChannelIsMean([], BLACK, k)
  {
  }

  /** A point's colour is the mean of the colours voted since its last birth, none voted as often as none. */
  lemma ColorIsMean(w: World, v: Edge, i: int)
    requires WorldOk(w, v) && 0 <= i < |w.points|
    ensures w.colorN[i] == |w.hues[i]|
    ensures |w.hues[i]| as real * w.color[i].r == ShadeSum(w.hues[i], 0)
    ensures |w.hues[i]| as real * w.color[i].g == ShadeSum(w.hues[i], 1)
    ensures |w.hues[i]| as real * w.color[i].b == ShadeSum(w.hues[i], 2)
  {
    assert TintedAt(w, i);
    assert ChannelIsMean(w.hues[i], w.color[i], 0) && ChannelIsMean(w.hues[i], w.color[i], 1) && ChannelIsMean(w.hues[i], w.color[i], 2);
  }

  /** Indices of the live points below n within the radius of the centre, in order. */
  function Nearby(w: World, center: P4, radius: real, n: nat): seq<int>
    requires n <= |w.points| == |w.alive|
  {
    if n == 0 then []
    else Nearby(w, center, radius, n - 1) + if Within(w, center, radius, n - 1) then [n - 1] else []
  }

  predicate Within(w: World, center: P4, radius: real, i: nat)
    requires i < |w.points| == |w.alive|
  {
    w.alive[i] && (radius <= 0.0 || Dist2(w.points[i], center) <= radius * radius)
  }

  lemma {:induction false} NearbyIff(w: World, center: P4, radius: real, n: nat)
    requires n <= |w.points| == |w.alive|
    ensures forall i :: i in Nearby(w, center, radius, n) <==> 0 <= i < n && Within(w, center, radius, i)
    ensures forall j, k | 0 <= j < k < |Nearby(w, center, radius, n)| ::
              Nearby(w, center, radius, n)[j] < Nearby(w, center, radius, n)[k]
    decreases n
  {
    hide Within;
    if n > 0 {
      NearbyIff(w, center, radius, n - 1);
      var near := Nearby(w, center, radius, n - 1);
      forall j | 0 <= j < |near| ensures near[j] < n - 1 { assert near[j] in near; }
    }
  }

  // ---------- views ----------

  /** A world-from-camera matrix, row by row. */
  type Matrix = m: seq<real> | |m| == 16 witness seq(16, i => 0.0)

  datatype View = View(pose: Matrix, t: int, ref: string, robot: Pos)

  /** Where the robot was: as told, or where the camera stood. */
  function RobotAt(pose: Matrix, told: Option<Pos>): Pos {
    match told case Some(p) => p case None => Pos(pose[3], pose[7], pose[11])
  }

  // ---------- the object ----------

  class Universe {
    const voxel: Edge
    var w: World
    var sem: Vocabulary
    var voting: bool
    var stuffBias: real
    var minVotes: nat
    var minConf: real
    var views: seq<View>
    var lastRobot: Pos

    ghost predicate Valid() reads this, sem {
      WorldOk(w, voxel) && sem.Valid() && stuffBias >= 1.0 && minVotes >= 1 && 0.0 <= minConf <= 1.0
    }

    constructor (voxelSize: real)
      ensures Valid() && fresh(sem) && w == EMPTY && voxel == if voxelSize > 0.0 then voxelSize else 0.05
      ensures views == [] && lastRobot == Pos(0.0, 0.0, 0.0)
    {
      voxel := if voxelSize > 0.0 then voxelSize else 0.05;
      w := EMPTY;
      sem := new Vocabulary();
      voting, stuffBias, minVotes, minConf := false, 1.0, 1, 0.0;
      views, lastRobot := [], Pos(0.0, 0.0, 0.0);
    }

    method SetVoting(on: bool, bias: real, votes: int, conf: real)
      requires Valid()
      modifies this`voting, this`stuffBias, this`minVotes, this`minConf
      ensures Valid() && voting == on
      ensures stuffBias == (if bias >= 1.0 then bias else 1.0) && minVotes == (if votes > 1 then votes else 1)
      ensures minConf == if conf < 0.0 then 0.0 else if conf > 1.0 then 1.0 else conf
    {
      voting, stuffBias, minVotes := on, if bias >= 1.0 then bias else 1.0, if votes > 1 then votes else 1;
      minConf := if conf < 0.0 then 0.0 else if conf > 1.0 then 1.0 else conf;
    }

    /** Fold every point of the cloud into its voxel and record the view. */
    method Integrate(cloud: seq<P4>, pose: Matrix, t: int, ref: string, told: Option<Pos>) returns (id: nat)
      requires Valid()
      modifies this`w, this`views, this`lastRobot
      ensures Valid() && w == ObservedAll(old(w), voxel, cloud) && Keys(old(w), voxel) <= Keys(w, voxel)
      ensures lastRobot == RobotAt(pose, told) && views == old(views) + [View(pose, t, ref, RobotAt(pose, told))]
      ensures id == |views| - 1 && lastRobot == if told.Some? then told.v else Pos(pose[3], pose[7], pose[11])
    {
      hide WorldOk, VoxelOf, Observed;
      lastRobot := RobotAt(pose, told);
      for j := 0 to |cloud|
        invariant WorldOk(w, voxel) && w == ObservedAll(old(w), voxel, cloud[..j]) && Keys(old(w), voxel) <= Keys(w, voxel)
        invariant lastRobot == RobotAt(pose, told) && views == old(views)
      {
        assert cloud[..j + 1][..j] == cloud[..j];
        ObservedOk(w, voxel, cloud[j]);
        Observe(cloud[j]);
      }
      assert cloud[..|cloud|] == cloud;
      id := AddView(pose, t, ref, told);
    }

    method AddView(pose: Matrix, t: int, ref: string, told: Option<Pos>) returns (id: nat)
      modifies this`views
      ensures views == old(views) + [View(pose, t, ref, RobotAt(pose, told))] && id == |old(views)|
    {
      views := views + [View(pose, t, ref, RobotAt(pose, told))];
      id := |views| - 1;
    }

    /** Fold one point into its voxel, array by array. */
    method Observe(p: P4)
      requires WorldOk(w, voxel)
      modifies this`w
      ensures w == Observed(old(w), voxel, p)
    {
      var k := VoxelOf(p, voxel);
      if k !in w.vox {
        w := w.(points := w.points + [p], vox := w.vox[k := |w.points|]);
        w := w.(count := w.count + [1], alive := w.alive + [true], flabel := w.flabel + [-1], fiid := w.fiid + [-1]);
        w := w.(votes := w.votes + [[]], color := w.color + [BLACK], colorN := w.colorN + [0], folded := w.folded + [[p]],
               hues := w.hues + [[]]);
      } else {
        var i := w.vox[k];
        if !w.alive[i] {
          w := w.(points := w.points[i := p], count := w.count[i := 1], flabel := w.flabel[i := -1], fiid := w.fiid[i := -1]);
          w := w.(votes := w.votes[i := []], color := w.color[i := BLACK], colorN := w.colorN[i := 0], alive := w.alive[i := true]);
          w := w.(folded := w.folded[i := [p]], hues := w.hues[i := []]);
        } else {
          w := w.(points := w.points[i := Fused(w.points[i], w.count[i], p)], folded := w.folded[i := w.folded[i] + [p]]);
          w := w.(count := w.count[i := w.count[i] + 1]);
        }
      }
    }

    /** Tombstone a point: its index, its place and its history stay. */
    method KillPoint(i: int)
      requires Valid()
      modifies this`w
      ensures Valid() && w == Killed(old(w), i) && Keys(w, voxel) == Keys(old(w), voxel)
      ensures 0 <= i < |w.alive| ==> !w.alive[i] && w.flabel[i] == -1 && w.fiid[i] == -1 && w.votes[i] == []
      ensures forall j | 0 <= j < |w.alive| && j != i ::
                w.alive[j] == old(w).alive[j] && w.flabel[j] == old(w).flabel[j] && w.fiid[j] == old(w).fiid[j] && w.votes[j] == old(w).votes[j]
      ensures w.(alive := old(w).alive, flabel := old(w).flabel, fiid := old(w).fiid, votes := old(w).votes) == old(w)
    {
      hide VoxelOf, MeanAt, Bijective;
      SamePointsOk(w, Killed(w, i), voxel);
      if i < 0 || i >= |w.alive| { return; }
      w := w.(alive := w.alive[i := false], flabel := w.flabel[i := -1], fiid := w.fiid[i := -1], votes := w.votes[i := []]);
    }

    /** Reset every point to unlabelled. */
    method ClearFrameLabels()
      requires Valid()
      modifies this`w
      ensures Valid() && Keys(w, voxel) == Keys(old(w), voxel)
      ensures forall i | 0 <= i < |w.points| :: w.flabel[i] == -1 && w.fiid[i] == -1
      ensures w.(flabel := old(w).flabel, fiid := old(w).fiid) == old(w)
    {
      hide VoxelOf, MeanAt, Bijective;
      var w' := w.(flabel := seq(|w.points|, i => -1), fiid := seq(|w.points|, i => -1));
      SamePointsOk(w, w', voxel);
      w := w';
    }

    /** Record a class and instance for a point: a vote in voting mode, a label otherwise. */
    method SetFrameLabel(i: int, name: string, instance: int)
      requires Valid()
      modifies this`w, sem
      ensures Valid() && Keys(w, voxel) == Keys(old(w), voxel) && old(sem.names) <= sem.names && old(sem.kinds) <= sem.kinds
      ensures i < 0 || i >= |old(w).flabel| || name == "" ==> w == old(w)
      ensures 0 <= i < |old(w).flabel| && name != "" ==>
                exists cid :: 0 <= cid < |sem.names| && sem.names[cid] == name && Labelled(old(w), w, voting, i, cid, instance)
    {
      hide VoxelOf, MeanAt, Bijective;
      if i < 0 || i >= |w.flabel| { return; }
      var cid := sem.Intern(name);
      if cid < 0 { return; }
      var w' := w.(fiid := w.fiid[i := instance]);
      if voting {
        var h := CastVote(w'.votes[i], cid);
        w' := w'.(votes := w'.votes[i := h]);
      } else {
        w' := w'.(flabel := w'.flabel[i := cid]);
      }
      SamePointsOk(w, w', voxel);
      w := w';
    }

    /** Fold one colour into a point's mean. */
    method VoteColor(i: int, c: Rgb)
      requires Valid()
      modifies this`w
      ensures Valid() && Keys(w, voxel) == Keys(old(w), voxel)
      ensures w == if 0 <= i < |old(w).color| then Painted(old(w), i, c) else old(w)
    {
      hide WorldOk, Blend;
      VoteKeeps(w, voxel);
      if i < 0 || i >= |w.color| { return; }
      PaintedOk(w, voxel, i, c);
      var (m, n) := (w.color[i], w.colorN[i]);
      w := w.(color := w.color[i := Rgb(Blend(m.r, n, c.r), Blend(m.g, n, c.g), Blend(m.b, n, c.b))],
              colorN := w.colorN[i := n + 1], hues := w.hues[i := w.hues[i] + [c]]);
    }

    /** The mean colour of a point that has one. */
    method PointColor(i: int) returns (c: Option<Rgb>)
      requires Valid()
      ensures c == if 0 <= i < |w.color| && w.colorN[i] > 0 then Some(w.color[i]) else None
    {
      if i < 0 || i >= |w.color| || w.colorN[i] == 0 { return None; }
      c := Some(w.color[i]);
    }

    /** The class of a point: the frame label, or the resolved vote. */
    method PointClassId(i: int) returns (id: int)
      requires Valid()
      ensures i < 0 || i >= |w.flabel| ==> id == -1
      ensures 0 <= i < |w.flabel| && !voting ==> id == w.flabel[i]
      ensures 0 <= i < |w.flabel| && voting ==>
                Resolves(w.votes[i], StuffAmong(sem.kinds), stuffBias, minVotes, minConf, id)
    {
      hide VoxelOf, MeanAt, Bijective, Resolves;
      if i < 0 || i >= |w.flabel| { return -1; }
      if !voting { return w.flabel[i]; }
      id := ResolveClass(w.votes[i], StuffAmong(sem.kinds), stuffBias, minVotes, minConf);
    }

    /** The live points around a centre, with their map indices. */
    method Local(center: P4, radius: real) returns (out: seq<P4>, idx: seq<int>)
      requires Valid()
      ensures idx == Nearby(w, center, radius, |w.points|) && |out| == |idx|
      ensures forall j | 0 <= j < |idx| :: 0 <= idx[j] < |w.points| && out[j] == w.points[idx[j]]
    {
      hide VoxelOf, MeanAt, Bijective, Within;
      out, idx := [], [];
      for i := 0 to |w.points|
        invariant idx == Nearby(w, center, radius, i) && |out| == |idx|
        invariant forall j | 0 <= j < |idx| :: 0 <= idx[j] < i && out[j] == w.points[idx[j]]
      {
        if Within(w, center, radius, i) { out, idx := out + [w.points[i]], idx + [i]; }
      }
    }
  }

  /** The instance is stored; the class is voted for, or becomes the label; nothing else changes. */
  ghost predicate Labelled(w: World, w': World, voting: bool, i: int, cid: nat, instance: int)
  {
    && w' == w.(flabel := w'.flabel, fiid := w'.fiid, votes := w'.votes)
    && 0 <= i < |w.flabel| == |w.fiid| == |w.votes| && |w'.votes| == |w.votes|
    && w'.fiid == w.fiid[i := instance]
    && (if voting
        then w'.flabel == w.flabel && (forall j | 0 <= j < |w.votes| && j != i :: w'.votes[j] == w.votes[j])
             && forall id: nat :: VotesFor(w'.votes[i], id) ==
                  if id == cid % 0x10000 && VotesFor(w.votes[i], id) < 0xffff then VotesFor(w.votes[i], id) + 1
                  else VotesFor(w.votes[i], id)
        else w'.flabel == w.flabel[i := cid] && w'.votes == w.votes)
  }

  lemma ObservedKeys(w: World, v: Edge, p: P4)
    requires WorldOk(w, v)
    ensures Observed(w, v, p).vox.Keys == w.vox.Keys + {VoxelOf(p, v)}
  {
    hide VoxelOf, MeanAt, Bijective;
  }

  /** After a frame the map holds exactly the voxels it held and those of the frame's points. */
  lemma {:induction false} VoxelsAfter(w: World, v: Edge, cloud: seq<P4>, k: VKey)
    requires WorldOk(w, v)
    ensures k in ObservedAll(w, v, cloud).vox <==> k in w.vox || exists p :: p in cloud && VoxelOf(p, v) == k
    decreases |cloud|
  {
    hide VoxelOf, WorldOk, Observed;
    if cloud != [] {
      var n := |cloud| - 1;
      VoxelsAfter(w, v, cloud[..n], k);
      ObservedKeys(ObservedAll(w, v, cloud[..n]), v, cloud[n]);
      assert cloud == cloud[..n] + [cloud[n]];
      assert cloud[n] in cloud;
      assert forall p | p in cloud[..n] :: p in cloud;
    }
  }
}
