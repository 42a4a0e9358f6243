/** Attaching the signs read to the objects that hold them: each sign picks its best object, each
    object keeps its strongest sign. */
module SignAnnotate {
  import opened Voxels
  import opened SignGate

  const STRIDE: int := 10

  datatype View = View(id: int, points: nat, vox: set<VKey>)

  function Overlap(a: set<VKey>, b: set<VKey>): nat { |a * b| }

  /** Walk the smaller set. */
  method OverlapCount(a: set<VKey>, b: set<VKey>) returns (n: nat)
    ensures n == Overlap(a, b)
  {
    var small, big := if |a| <= |b| then a else b, if |a| <= |b| then b else a;
    assert small * big == a * b;
    n := CountShared(small, big);
  }

  /** Object i holds more of the footprint than j, or as much with more points, or came first. */
  predicate Ahead(f: Footprint, objs: seq<View>, i: int, j: int)
    requires 0 <= i < |objs| && 0 <= j < |objs|
  {
    var oi, oj := Overlap(f, objs[i].vox), Overlap(f, objs[j].vox);
    oi > oj || (oi == oj && (objs[i].points > objs[j].points || (objs[i].points == objs[j].points && i <= j)))
  }

  /** The object that holds most of the footprint; -1 when none touches it. */
  ghost predicate IsBest(f: Footprint, objs: seq<View>, best: int) {
    if best == -1 then forall j | 0 <= j < |objs| :: Overlap(f, objs[j].vox) == 0
    else && 0 <= best < |objs| && Overlap(f, objs[best].vox) > 0
         && forall j | 0 <= j < |objs| :: Ahead(f, objs, best, j)
  }

  lemma BestUnique(f: Footprint, objs: seq<View>, a: int, b: int)
    requires IsBest(f, objs, a) && IsBest(f, objs, b)
    ensures a == b
  {
    hide Overlap;
    if a != -1 && b != -1 { assert Ahead(f, objs, a, b) && Ahead(f, objs, b, a); }
  }

  method BestObject(f: Footprint, objs: seq<View>) returns (best: int, bestOv: nat)
    ensures IsBest(f, objs, best) && (best >= 0 ==> bestOv == Overlap(f, objs[best].vox))
  {
    hide Overlap;
    best, bestOv := -1, 0;
    var bestPts := 0;
    for i := 0 to |objs|
      invariant best == -1 ==> bestOv == 0 && bestPts == 0 && forall j | 0 <= j < i :: Overlap(f, objs[j].vox) == 0
      invariant best != -1 ==> 0 <= best < i && bestOv == Overlap(f, objs[best].vox) > 0 && bestPts == objs[best].points
      invariant best != -1 ==> forall j | 0 <= j < i :: Ahead(f, objs, best, j)
      invariant best >= -1
    {
      var ov := OverlapCount(f, objs[i].vox);
      if ov == 0 { continue; }
      var pts := objs[i].points;
      ghost var before := best;
      if ov > bestOv || (ov == bestOv && pts > bestPts) { best, bestOv, bestPts := i, ov, pts; }
      forall j | 0 <= j < i + 1 ensures Ahead(f, objs, best, j) {
        if before != -1 && j < i { assert Ahead(f, objs, before, j); }
      }
    }
  }

  /** Sign j picks the object with this id, sharing ov voxels. */
  ghost predicate Picks(signs: seq<ReadSign>, objs: seq<View>, j: int, id: int, ov: nat) {
    && 0 <= j < |signs|
    && exists b :: 0 <= b < |objs| && IsBest(signs[j].footprint, objs, b) && objs[b].id == id
                   && ov == Overlap(signs[j].footprint, objs[b].vox)
  }

  lemma PicksOnce(signs: seq<ReadSign>, objs: seq<View>, j: int, id: int, ov: nat, other: int, ow: nat)
    requires Picks(signs, objs, j, id, ov) && Picks(signs, objs, j, other, ow)
    ensures id == other && ov == ow
  {
    hide Overlap, IsBest;
    var b :| 0 <= b < |objs| && IsBest(signs[j].footprint, objs, b) && objs[b].id == id && ov == Overlap(signs[j].footprint, objs[b].vox);
    var c :| 0 <= c < |objs| && IsBest(signs[j].footprint, objs, c) && objs[c].id == other && ow == Overlap(signs[j].footprint, objs[c].vox);
    BestUnique(signs[j].footprint, objs, b, c);
  }

  function TextOf(signs: seq<ReadSign>, j: int): string { if 0 <= j < |signs| then signs[j].text else "" }

  /** Among the first n signs, j is the strongest to pick id, the first of equally strong ones. */
  ghost predicate Holds(signs: seq<ReadSign>, objs: seq<View>, n: int, id: int, j: int, ov: nat) {
    && j < n && Picks(signs, objs, j, id, ov)
    && forall k, ow: nat | k < n && Picks(signs, objs, k, id, ow) :: ow < ov || (ow == ov && j <= k)
  }

  /** The mapping after n signs: every picked object carries the text of its strongest sign. */
  ghost predicate Attached(signs: seq<ReadSign>, objs: seq<View>, n: int, out: map<int, string>, claimed: map<int, nat>) {
    && claimed.Keys == out.Keys
    && (forall id | id in out :: exists j :: Holds(signs, objs, n, id, j, claimed[id]) && out[id] == TextOf(signs, j))
    && (forall k, id, ow: nat | k < n && Picks(signs, objs, k, id, ow) :: id in out)
  }

  /** What annotate promises: an object is annotated exactly when some sign picks it, with the text
      of the strongest of those. */
  ghost predicate Annotated(signs: seq<ReadSign>, objs: seq<View>, out: map<int, string>) {
    exists claimed :: Attached(signs, objs, |signs|, out, claimed)
  }

  lemma AttachSkip(signs: seq<ReadSign>, objs: seq<View>, n: int, out: map<int, string>, claimed: map<int, nat>)
    requires 0 <= n < |signs| && Attached(signs, objs, n, out, claimed) && IsBest(signs[n].footprint, objs, -1)
    ensures Attached(signs, objs, n + 1, out, claimed)
  {
    hide IsBest, Picks;
    forall id, ow: nat ensures !Picks(signs, objs, n, id, ow) { NoPick(signs, objs, n, id, ow); }
    forall id | id in out ensures exists j :: Holds(signs, objs, n + 1, id, j, claimed[id]) && out[id] == TextOf(signs, j) {
      var j :| Holds(signs, objs, n, id, j, claimed[id]) && out[id] == TextOf(signs, j);
      assert Holds(signs, objs, n + 1, id, j, claimed[id]);
    }
  }

  lemma NoPick(signs: seq<ReadSign>, objs: seq<View>, j: int, id: int, ov: nat)
    requires 0 <= j < |signs| && IsBest(signs[j].footprint, objs, -1)
    ensures !Picks(signs, objs, j, id, ov)
  {
    hide Overlap;
    forall b | 0 <= b < |objs| ensures !IsBest(signs[j].footprint, objs, b) {
      assert Overlap(signs[j].footprint, objs[b].vox) == 0;
    }
  }

  lemma AttachMore(signs: seq<ReadSign>, objs: seq<View>, n: int, out: map<int, string>, claimed: map<int, nat>, oid: int,
                   ov: nat, out': map<int, string>, claimed': map<int, nat>)
    requires 0 <= n < |signs| && Attached(signs, objs, n, out, claimed) && Picks(signs, objs, n, oid, ov)
    requires if oid !in claimed || ov > claimed[oid]
             then out' == out[oid := signs[n].text] && claimed' == claimed[oid := ov]
             else out' == out && claimed' == claimed
    ensures Attached(signs, objs, n + 1, out', claimed')
  {
    hide Picks;
    forall id | id in out' ensures exists j :: Holds(signs, objs, n + 1, id, j, claimed'[id]) && out'[id] == TextOf(signs, j) {
      forall ow: nat | Picks(signs, objs, n, id, ow) ensures id == oid && ow == ov { PicksOnce(signs, objs, n, oid, ov, id, ow); }
      if id == oid && (oid !in claimed || ov > claimed[oid]) {
        forall k, ow: nat | k < n && Picks(signs, objs, k, oid, ow) ensures ow < ov {
          assert oid in out;
          var j :| Holds(signs, objs, n, oid, j, claimed[oid]) && out[oid] == TextOf(signs, j);
        }
        assert Holds(signs, objs, n + 1, id, n, claimed'[id]) && out'[id] == TextOf(signs, n);
      } else {
        var j :| Holds(signs, objs, n, id, j, claimed[id]) && out[id] == TextOf(signs, j);
        assert Holds(signs, objs, n + 1, id, j, claimed'[id]) && out'[id] == TextOf(signs, j);
      }
    }
    forall k, id, ow: nat | k < n + 1 && Picks(signs, objs, k, id, ow) ensures id in out' {
      if k == n { PicksOnce(signs, objs, n, oid, ov, id, ow); }
    }
  }

  method Match(signs: seq<ReadSign>, objs: seq<View>) returns (out: map<int, string>)
    ensures Annotated(signs, objs, out)
  {
    hide IsBest, Overlap, Attached;
    out := map[];
    var claimed: map<int, nat> := map[];
    NothingAttached(signs, objs);
    for n := 0 to |signs|
      invariant Attached(signs, objs, n, out, claimed)
    {
      var best, ov := BestObject(signs[n].footprint, objs);
      BestInRange(signs[n].footprint, objs, best);
      if best < 0 {
        AttachSkip(signs, objs, n, out, claimed);
      } else {
        var oid := objs[best].id;
        ghost var out0, claimed0 := out, claimed;
        assert Picks(signs, objs, n, oid, ov);
        if oid !in claimed || ov > claimed[oid] {
          claimed, out := claimed[oid := ov], out[oid := signs[n].text];
        }
        AttachMore(signs, objs, n, out0, claimed0, oid, ov, out, claimed);
      }
    }
  }

  lemma BestInRange(f: Footprint, objs: seq<View>, best: int)
    requires IsBest(f, objs, best)
    ensures best == -1 || 0 <= best < |objs|
  {
  }

  lemma NothingAttached(signs: seq<ReadSign>, objs: seq<View>)
    ensures Attached(signs, objs, 0, map[], map[])
  {
    hide IsBest;
  }

  /** The cache in front of the matching. */
  /** A sign's object shares the most voxels with it, among those shows the most points, and is the first of
      those; a sign without one shares no voxel with any object. */
  lemma BestRanks(f: Footprint, objs: seq<View>, best: int, j: int)
    requires IsBest(f, objs, best) && 0 <= j < |objs|
    ensures best == -1 ==> f * objs[j].vox == {}
    ensures best != -1 ==>
              && 0 <= best < |objs| && |f * objs[j].vox| <= |f * objs[best].vox|
              && (|f * objs[j].vox| == |f * objs[best].vox| ==> objs[j].points <= objs[best].points)
              && (|f * objs[j].vox| == |f * objs[best].vox| && objs[j].points == objs[best].points ==> best <= j)
  {
    if best == -1 {
      assert f * objs[j].vox == {};
    } else {
      assert Ahead(f, objs, best, j);
    }
  }

  class Annotator {
    var cached: map<int, string>
    var cachedGen: int
    var calls: nat

    constructor ()
      ensures cached == map[] && cachedGen == -1 && calls == 0
    {
      cached, cachedGen, calls := map[], -1, 0;
    }

    /** Recomputed when a sign is new or every STRIDE calls; otherwise the last mapping again. */
    method Annotate(signs: seq<ReadSign>, objs: seq<View>) returns (out: map<int, string>)
      modifies this
      ensures signs == [] ==> out == map[] && cached == old(cached) && calls == old(calls)
      ensures signs != [] && |signs| == old(cachedGen) && old(calls) + 1 < 10 ==>
                out == old(cached) && cached == old(cached) && cachedGen == old(cachedGen) && calls == old(calls) + 1
      ensures signs != [] && !(|signs| == old(cachedGen) && old(calls) + 1 < 10) ==>
                Annotated(signs, objs, out) && cached == out && cachedGen == |signs| && calls == 0
    {
      if signs == [] { return map[]; }
      if |signs| == cachedGen {
        calls := calls + 1;
        if calls < STRIDE { return cached; }
      }
      cachedGen, calls := |signs|, 0;
      out := Match(signs, objs);
      cached := out;
    }
  }
}
