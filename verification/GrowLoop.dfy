/** The proposal store: seeding a frame's proposals and growing them, in place. */
module GrowLoop {
  import opened Basics
  import opened Centroids
  import opened Voxels
  import opened WorldMap
  import opened Growing
  import opened Growth
  import opened NeighborPool
  import opened Affinity
  import opened Seeding
  import opened SortedInts

  // ---------- the store ----------

  class ObjectSeeds {
    var list: seq<Seed>
    var owner: seq<int>
    var version: nat

    constructor ()
      ensures list == [] && owner == [] && Agrees(list, owner)
    {
      list, owner, version := [], [], 0;
    }

    method Claim(g: int, oid: int)
      modifies this`owner
      ensures owner == ClaimedBy(old(owner), g, oid)
    {
      if g < 0 { return; }
      if g >= |owner| { owner := owner + seq(g + 1 - |owner|, i => -1); }
      owner := owner[g := oid];
    }

    /** Wipe last frame's proposals and claims. */
    method Reset()
      modifies this
      ensures list == [] && Agrees(list, owner) && version == old(version) + 1
      ensures forall g :: OwnerOf(owner, g) == -1
    {
      version := version + 1;
      list, owner := [], seq(|owner|, i => -1);
    }

    /** Append a proposal and claim its points. */
    method AppendSeed(s: Seed)
      modifies this`list, this`owner
      ensures if s.points == [] then list == old(list) && owner == old(owner)
              else list == old(list) + [s] && owner == ClaimedAll(old(owner), s.points, |old(list)|)
    {
      if s.points == [] { return; }
      for i := 0 to |s.points|
        invariant list == old(list) && owner == ClaimedAll(old(owner), s.points[..i], |list|)
      {
        assert s.points[..i + 1][..i] == s.points[..i];
        Claim(s.points[i], |list|);
      }
      assert s.points[..|s.points|] == s.points;
      list := list + [s];
    }

    /** Append one proposal per part of a label's points. */
    method AppendParts(w: World, ghost p: SeedParams, ghost sc: Scan, ghost l: int, c: int, parts: seq<seq<int>>)
      returns (ghost added: seq<Seed>)
      requires ScanShape(sc) && l >= 0 && c == LastClass(sc.cids, sc.labels, l) && LatestOwns(list, owner)
      requires forall k | 0 <= k < |parts| :: parts[k] != [] && PartOf(w.near, p.splitOn, Members(sc, l), parts[k])
      modifies this`list, this`owner
      ensures list == old(list) + added && PartsSeeded(w, p, sc, l, parts, added) && LatestOwns(list, owner)
    {
      hide LatestOwns, SeedBuilt, PartOf, ClaimedAll, Members;
      added := [];
      for k := 0 to |parts|
        invariant |added| == k && list == old(list) + added && LatestOwns(list, owner)
        invariant forall j | 0 <= j < k :: added[j].points == parts[j] && SeedOf(w, p, sc, l, added[j])
      {
        if parts[k] == [] { continue; }
        var s := MakeSeed(w, c, parts[k]);
        LatestMore(list, owner, s);
        AppendSeed(s);
        added := added + [s];
        assert list == old(list) + added;
      }
    }

    /** Append the proposals of one clustering run. */
    method AppendScan(w: World, p: SeedParams, sc: Scan, ghost scans: seq<Scan>, ghost origin0: seq<Origin>)
      returns (ghost origin: seq<Origin>)
      requires WorldOk(w) && ScanShape(sc) && SeededBy(w, p, scans, list, origin0) && LatestOwns(list, owner)
      modifies this`list, this`owner
      ensures SeededBy(w, p, scans + [sc], list, origin) && LatestOwns(list, owner)
    {
      hide SeededBy, Pending, LatestOwns, PartsSeeded, PartsOk, PartOf, EuclideanSplit.Components;
      var k := LabelBound(sc.labels);
      var members, memCid := Group(sc, k);
      ghost var all := scans + [sc];
      origin := origin0;
      PendingStart(w, p, scans, sc, list, origin);
      for l := 0 to k
        invariant Pending(w, p, all, l, list, origin) && LatestOwns(list, owner)
      {
        ghost var before := list;
        var parts: seq<seq<int>> := [];
        if members[l] != [] {
          parts := EuclideanSplit.Split(w.near, members[l], p.splitOn);
          SplitParts(w.near, p.splitOn, members[l], parts);
        } else {
          NoParts(members[l]);
        }
        ghost var added := AppendParts(w, p, sc, l, memCid[l], parts);
        ghost var origin1 := origin + seq(|added|, i => Origin(|scans|, l));
        PendingMore(w, p, all, l, before, origin, parts, added, origin1);
        origin := origin1;
      }
      PendingDone(w, p, all, k, list, origin);
    }

    /** Cluster one class's points and append their proposals. */
    method ScanClass(w: World, p: SeedParams, ghost gidx: seq<int>, c: int, b: seq<int>, ghost scans: seq<Scan>,
                     ghost origin0: seq<Origin>)
      returns (ghost origin: seq<Origin>)
      requires WorldOk(w) && b == Bucket(w, gidx, c) && SeededBy(w, p, scans, list, origin0) && LatestOwns(list, owner)
      modifies this`list, this`owner
      ensures SeededBy(w, p, scans + ClassScan(w, p, gidx, c), list, origin) && LatestOwns(list, owner)
    {
      hide SeededBy, LatestOwns;
      origin := origin0;
      var mg := EuclideanSplit.Keep(b, w.kept(b));
      assert scans + [] == scans;
      if |mg| < p.minClassPoints || !Clusterable(p, |mg|) { return; }
      var cids := Const(|mg|, c);
      origin := AppendScan(w, p, Scan(mg, cids, w.labelsOf(mg, cids)), scans, origin);
    }

    /** One clustering run over all classes. */
    method ScanPooled(w: World, p: SeedParams, ghost gidx: seq<int>, byClass: map<int, seq<int>>, order: seq<int>)
      returns (ghost origin: seq<Origin>)
      requires WorldOk(w) && p.singleScan && SeededBy(w, p, [], list, []) && LatestOwns(list, owner)
      requires forall c :: c in order ==> c in byClass && byClass[c] == Bucket(w, gidx, c)
      modifies this`list, this`owner
      ensures SeededBy(w, p, ScansOf(w, p, gidx, order), list, origin) && LatestOwns(list, owner)
    {
      hide SeededBy, LatestOwns, ScansOf, Bucket;
      origin := [];
      var gs, cids := PoolAll(w, p, gidx, byClass, order);
      PooledScan(w, p, gidx, order);
      if !Clusterable(p, |gs|) { return; }
      var sc := Scan(gs, cids, w.labelsOf(gs, cids));
      origin := AppendScan(w, p, sc, [], origin);
      assert [] + [sc] == [sc];
    }

    /** One clustering run per class, in ascending order. */
    method ScanEach(w: World, p: SeedParams, ghost gidx: seq<int>, byClass: map<int, seq<int>>, order: seq<int>)
      returns (ghost origin: seq<Origin>)
      requires WorldOk(w) && !p.singleScan && SeededBy(w, p, [], list, []) && LatestOwns(list, owner)
      requires forall c :: c in order ==> c in byClass && byClass[c] == Bucket(w, gidx, c)
      modifies this`list, this`owner
      ensures SeededBy(w, p, ScansOf(w, p, gidx, order), list, origin) && LatestOwns(list, owner)
    {
      hide SeededBy, LatestOwns, ScansOf, WorldOk, Bucket;
      origin := [];
      NoScans(w, p, gidx);
      for i := 0 to |order|
        invariant SeededBy(w, p, ScansOf(w, p, gidx, order[..i]), list, origin) && LatestOwns(list, owner)
      {
        assert order[i] in order;
        ScansMore(w, p, gidx, order, i);
        origin := ScanClass(w, p, gidx, order[i], byClass[order[i]], ScansOf(w, p, gidx, order[..i]), origin);
      }
      assert order[..|order|] == order;
    }

    /** Re-propose this frame's points from scratch.  The proposals are the connected components of every
        label's points, and each point ends up owned by the proposal holding it exactly when no scan lists a
        point under two labels, which distinct input points guarantee. */
    method SeedFromIndices(w: World, p: SeedParams, gidx: seq<int>) returns (ghost order: seq<int>, ghost origin: seq<Origin>)
      requires WorldOk(w)
      modifies this
      ensures version == old(version) + 1
      ensures RisingInts(order) && forall c :: c in order <==> exists g :: OfClass(w, gidx, c, g)
      ensures SeededBy(w, p, ScansOf(w, p, gidx, order), list, origin)
      ensures Agrees(list, owner) <==> LabelledOnce(ScansOf(w, p, gidx, order))
      ensures Distinct(gidx) ==> Agrees(list, owner)
    {
      hide SeededBy, LatestOwns, ScansOf, Agrees, Apart, LabelledOnce, WorldOk, Distinct, OfClass, Bucket, RisingInts, OwnerOf;
      Reset();
      NoneSeeded(w, p, owner);
      var byClass, asc := ByClass(w, p, gidx, owner);
      OrderCovers(w, gidx, asc);
      order := asc;
      if p.singleScan {
        origin := ScanPooled(w, p, gidx, byClass, asc);
      } else {
        origin := ScanEach(w, p, gidx, byClass, asc);
      }
      SeededInMap(w, p, gidx, asc, list, origin);
      AgreesIffApart(list, owner);
      RisingDistinct(asc);
      ApartIffLabelledOnce(w, p, gidx, asc, list, origin);
      if Distinct(gidx) { DistinctLabelledOnce(w, p, gidx, asc); }
    }

    ghost function Now(cand: seq<Cand>, annexed: seq<set<int>>, dirty: set<int>): Snap
      reads this
    {
      Snap(list, owner, cand, annexed, dirty)
    }

    function OwnerAt(g: int): int reads this { OwnerOf(owner, g) }

    /** Add a superpoint's points to a proposal: the unowned ones, or all of them in overlap mode. */
    method Annex(e: Field, cand0: seq<Cand>, annexed0: seq<set<int>>, dirty0: set<int>, ci: int, si: int)
      returns (cand: seq<Cand>, annexed: seq<set<int>>, dirty: set<int>, did: bool)
      requires InRange(Now(cand0, annexed0, dirty0), ci) && 0 <= si < |e.sps|
      modifies this`list, this`owner
      ensures Now(cand, annexed, dirty) == AnnexedInto(e, old(Now(cand0, annexed0, dirty0)), ci, si)
      ensures e.sps[si].points != [] ==> (did <==> Now(cand, annexed, dirty) != old(Now(cand0, annexed0, dirty0)))
    {
      hide OwnerOf, VoxelOf, Stretched, InCloud, ClaimedBy;
      cand, annexed, dirty, did := cand0, annexed0, dirty0, false;
      if e.gp.overlap {
        if si in annexed0[ci] { return; }
        annexed := annexed[ci := annexed[ci] + {si}];
      }
      var pts, oid := e.sps[si].points, cand0[ci].oid;
      ghost var st1 := Now(cand, annexed, dirty);
      for i := 0 to |pts|
        invariant Now(cand, annexed, dirty) == PointsAnnexed(e, st1, ci, pts[..i]) && InRange(Now(cand, annexed, dirty), ci)
        invariant cand[ci].oid == oid && annexed == st1.annexed && dirty == dirty0
        invariant did <==> list != st1.list
      {
        var g := pts[i];
        assert pts[..i + 1][..i] == pts[..i];
        if !e.gp.overlap && OwnerAt(g) != -1 { continue; }
        PointsMove(e, st1, ci, pts[..i]);
        LongerYet(st1.list, list, oid, g);
        if !e.gp.overlap { Claim(g, oid); }
        list := WithPoint(list, oid, g);
        cand := cand[ci := CandWith(e.cloud, e.v, cand[ci], g)];
        did := true;
      }
      assert pts[..|pts|] == pts;
      PointsMove(e, st1, ci, pts);
      NoneFreeCases(e.gp.overlap, st1.owner, pts);
      if did {
        NotedLonger(st1.list, Now(cand, annexed, dirty), oid, e.sps[si].instIds);
        list := list[oid := list[oid].(instIds := list[oid].instIds + e.sps[si].instIds)];
        dirty := dirty + {oid};
      }
    }

    /** The last of the best candidates at or above the bar; -1 without one. */
    method PickBest(e: Field, cand: seq<Cand>, ghost annexed: seq<set<int>>, ghost dirty: set<int>, si: int, svox: set<VKey>)
      returns (best: int)
      requires FieldOk(e) && 0 <= si < |e.sps| && svox != {} && svox == VoxOf(e.cloud, e.v, e.sps[si].points)
      requires AllInRange(Now(cand, annexed, dirty))
      ensures best == BestAmong(e, Now(cand, annexed, dirty), si, |cand|)
    {
      hide Aff;
      ghost var st := Now(cand, annexed, dirty);
      best := -1;
      var bestAff := e.gp.thresh;
      for ci := 0 to |cand|
        invariant best == BestAmong(e, st, si, ci) && bestAff == BarAfter(e, st, si, best)
      {
        assert InRange(st, ci);
        var aff := AffOf(e.sqrt, e.gp, e.v, cand[ci], list[cand[ci].oid].classId, e.sps[si], e.shists[si], svox);
        assert aff == AffAt(e, st, ci, si);
        if aff >= bestAff { bestAff, best := aff, ci; }
      }
    }

    /** Offer one superpoint to every candidate at the bar (overlap mode). */
    method OfferAll(e: Field, cand0: seq<Cand>, annexed0: seq<set<int>>, dirty0: set<int>, si: int, svox: set<VKey>)
      returns (cand: seq<Cand>, annexed: seq<set<int>>, dirty: set<int>, changed: bool)
      requires FieldOk(e) && AllInRange(Now(cand0, annexed0, dirty0)) && 0 <= si < |e.sps| && e.gp.overlap
      requires svox != {} && svox == VoxOf(e.cloud, e.v, e.sps[si].points)
      modifies this`list, this`owner
      ensures Now(cand, annexed, dirty) == Offered(e, old(Now(cand0, annexed0, dirty0)), si, |cand0|)
      ensures changed <==> Now(cand, annexed, dirty) != old(Now(cand0, annexed0, dirty0))
    {
      hide Aff, AnnexedInto, VoxOf, Moves;
      SomePoint(e.cloud, e.v, e.sps[si].points);
      ghost var st := Now(cand0, annexed0, dirty0);
      cand, annexed, dirty, changed := cand0, annexed0, dirty0, false;
      for ci := 0 to |cand0|
        invariant AllInRange(Now(cand, annexed, dirty)) && |cand| == |cand0|
        invariant Now(cand, annexed, dirty) == Offered(e, st, si, ci)
        invariant changed <==> Now(cand, annexed, dirty) != st
      {
        ghost var t := Now(cand, annexed, dirty);
        assert InRange(t, ci);
        var aff := AffOf(e.sqrt, e.gp, e.v, cand[ci], list[cand[ci].oid].classId, e.sps[si], e.shists[si], svox);
        assert aff == AffAt(e, t, ci, si);
        if aff >= e.gp.thresh {
          OfferedMoves(e, st, si, ci);
          AnnexMoves(e, t, ci, si);
          MovesTwice(st, t, AnnexedInto(e, t, ci, si));
          InRangeAfter(e, t, ci, si);
          var did;
          cand, annexed, dirty, did := Annex(e, cand, annexed, dirty, ci, si);
          changed := changed || did;
        }
      }
    }

    /** Offer one superpoint to the proposals. */
    method Visit(e: Field, cand0: seq<Cand>, annexed0: seq<set<int>>, dirty0: set<int>, si: int)
      returns (cand: seq<Cand>, annexed: seq<set<int>>, dirty: set<int>, changed: bool)
      requires FieldOk(e) && AllInRange(Now(cand0, annexed0, dirty0)) && 0 <= si < |e.sps|
      modifies this`list, this`owner
      ensures Now(cand, annexed, dirty) == Visited(e, old(Now(cand0, annexed0, dirty0)), si)
      ensures changed <==> Now(cand, annexed, dirty) != old(Now(cand0, annexed0, dirty0))
    {
      hide AllInRange, AnnexedInto, VoxOf, FieldOk, HasFree, Offered, BestAmong, Growable;
      ghost var st := Now(cand0, annexed0, dirty0);
      cand, annexed, dirty, changed := cand0, annexed0, dirty0, false;
      if !Growable(e.sps[si]) { return; }
      var svox, free := FootprintOf(e.cloud, e.v, owner, e.sps[si]);
      if svox == {} { return; }
      if e.gp.overlap {
        cand, annexed, dirty, changed := OfferAll(e, cand0, annexed0, dirty0, si, svox);
        return;
      }
      if !free { return; }
      var best := PickBest(e, cand0, annexed0, dirty0, si, svox);
      if best >= 0 {
        RangeAt(st, best);
        SomePoint(e.cloud, e.v, e.sps[si].points);
        cand, annexed, dirty, changed := Annex(e, cand0, annexed0, dirty0, best, si);
      }
    }

    /** One sweep over the superpoints. */
    method Sweep(e: Field, cand0: seq<Cand>, annexed0: seq<set<int>>, dirty0: set<int>)
      returns (cand: seq<Cand>, annexed: seq<set<int>>, dirty: set<int>, changed: bool)
      requires FieldOk(e) && AllInRange(Now(cand0, annexed0, dirty0))
      modifies this`list, this`owner
      ensures Now(cand, annexed, dirty) == Swept(e, old(Now(cand0, annexed0, dirty0)), |e.sps|)
      ensures changed <==> Now(cand, annexed, dirty) != old(Now(cand0, annexed0, dirty0))
    {
      hide AllInRange, FieldOk, Visited, Moves, Settled;
      ghost var st := Now(cand0, annexed0, dirty0);
      cand, annexed, dirty, changed := cand0, annexed0, dirty0, false;
      for si := 0 to |e.sps|
        invariant AllInRange(Now(cand, annexed, dirty)) && Now(cand, annexed, dirty) == Swept(e, st, si)
        invariant changed <==> Now(cand, annexed, dirty) != st
      {
        ghost var t := Now(cand, annexed, dirty);
        SweepFixedIff(e, st, si);
        VisitFixedIff(e, t, si);
        MovesTwice(st, t, Visited(e, t, si));
        var c;
        cand, annexed, dirty, c := Visit(e, cand, annexed, dirty, si);
        changed := changed || c;
      }
    }

    /** Grow the proposals by annexing superpoints, compared by their pooled histograms. */
    method GrowLocal(sqrt: real -> real, gp: GrowParams, v: Edge, cloud: seq<P4>, sps: seq<Superpoint>, w: World)
      returns (ghost e: Field, ghost start: Snap, ghost converged: bool)
      requires IsSqrt(sqrt)
      modifies this
      ensures AllPooled(sps, gp.pool, e.shists) && e == Field(sqrt, gp, v, cloud, sps, e.shists)
      ensures start.list == old(list) && start.owner == old(owner) && StartOk(e, start)
      ensures var t := GrownBy(e, start, Sweeps(gp));
              && owner == t.owner && Refreshed(t, gp.overlap, w, list)
              && version == old(version) + (if t != start then 1 else 0)
              && Grown(old(list), old(owner), t.list, owner, gp.overlap)
      ensures !gp.overlap && Agrees(old(list), old(owner)) ==> Agrees(list, owner)
      ensures converged <==> Converged(e, start, Sweeps(gp))
      ensures converged ==> AllSettled(e, GrownBy(e, start, Sweeps(gp)))
    {
      hide AllPooled, StartOk, GrownBy, Refreshed, Grown, Agrees, Converged, AllSettled, IsSqrt;
      var shists := PoolAllHists(sps, gp.pool);
      PooledSize(sps, gp.pool, shists);
      var f := Field(sqrt, gp, v, cloud, sps, shists);
      e := f;
      start, converged := GrowWith(f, w);
    }

    /** The same with the histograms to compare by, for at most the given number of sweeps. */
    method GrowWith(e: Field, w: World) returns (ghost start: Snap, ghost converged: bool)
      requires FieldOk(e)
      modifies this
      ensures start.list == old(list) && start.owner == old(owner) && StartOk(e, start)
      ensures var t := GrownBy(e, start, Sweeps(e.gp));
              && owner == t.owner && Refreshed(t, e.gp.overlap, w, list)
              && version == old(version) + (if t != start then 1 else 0)
              && Grown(old(list), old(owner), t.list, owner, e.gp.overlap)
      ensures !e.gp.overlap && Agrees(old(list), old(owner)) ==> Agrees(list, owner)
      ensures converged <==> Converged(e, start, Sweeps(e.gp))
      ensures converged ==> AllSettled(e, GrownBy(e, start, Sweeps(e.gp)))
    {
      hide FieldOk, Swept, Grown, Agrees, Cached, BoxOf, Refreshed, Settled;
      converged := false;
      ghost var list0, owner0 := list, owner;
      if list == [] || |e.sps| == 0 || e.cloud == [] {
        start := Snap(list, owner, [], [], {});
        IdleStart(e, start);
        IdleGrows(e, start, Sweeps(e.gp));
        GrownEnds(e, list0, owner0, start, Sweeps(e.gp), w, list);
        converged := true;
        return;
      }
      var cand := BuildCands(list, e.cloud, e.v);
      var annexed: seq<set<int>> := seq(|cand|, i => {});
      start := Now(cand, annexed, {});
      StartSound(e, start);
      if cand == [] {
        IdleGrows(e, start, Sweeps(e.gp));
        GrownEnds(e, list0, owner0, start, Sweeps(e.gp), w, list);
        converged := true;
        return;
      }
      var dirty: set<int> := {};
      var changed, sweep := false, 0;
      ghost var k: nat := Sweeps(e.gp);
      while sweep < (if e.gp.sweeps > 1 then e.gp.sweeps else 1)
        invariant AllInRange(Now(cand, annexed, dirty)) && version == old(version)
        invariant 0 <= sweep && k + sweep == Sweeps(e.gp)
        invariant GrownBy(e, start, Sweeps(e.gp)) == GrownBy(e, Now(cand, annexed, dirty), k) && !converged
        invariant Converged(e, start, Sweeps(e.gp)) <==> Converged(e, Now(cand, annexed, dirty), k)
        invariant Moves(start, Now(cand, annexed, dirty)) && (changed <==> Now(cand, annexed, dirty) != start)
      {
        ghost var st := Now(cand, annexed, dirty);
        SweepFixedIff(e, st, |e.sps|);
        MovesTwice(start, st, Swept(e, st, |e.sps|));
        var c;
        cand, annexed, dirty, c := Sweep(e, cand, annexed, dirty);
        if !c { k, converged := 0, true; break; }
        changed, sweep, k := true, sweep + 1, k - 1;
      }
      ghost var t := Now(cand, annexed, dirty);
      SettledIffConverged(e, start, Sweeps(e.gp));
      list := Refresh(list, dirty, e.gp.overlap, w, t);
      GrownEnds(e, list0, owner0, start, Sweeps(e.gp), w, list);
      if changed { version := version + 1; }
    }
  }

  lemma RangeAt(st: Snap, ci: int)
    requires AllInRange(st) && 0 <= ci < |st.cand|
    ensures InRange(st, ci)
  {
  }

  lemma LongerYet(list0: seq<Seed>, list: seq<Seed>, oid: int, g: int)
    requires 0 <= oid < |list| && (list == list0 || Longer(list0, list))
    ensures WithPoint(list, oid, g) != list0
  {
    var list' := WithPoint(list, oid, g);
    if list == list0 {
      assert |list'[oid].points| > |list0[oid].points|;
    } else {
      var k :| 0 <= k < |list0| && k < |list| && |list0[k].points| < |list[k].points|;
      assert |list'[k].points| > |list0[k].points|;
    }
  }

  // ---------- start and end ----------

  /** Where growing starts: one cache per proposal with a point in the map, nothing annexed yet. */
  ghost predicate StartOk(e: Field, st: Snap) {
    && AllInRange(st) && Cached(st.list, e.cloud, e.v, st.cand) && st.dirty == {}
    && (forall i | 0 <= i < |st.annexed| :: st.annexed[i] == {})
    && (forall i | 0 <= i < |st.cand| && 0 <= st.cand[i].oid < |st.list| :: st.cand[i].hist == st.list[st.cand[i].oid].hist)
    && (e.sps != [] ==> forall k | 0 <= k < |st.list| && BoxOf(e.cloud, st.list[k].points).Some? ::
          exists i :: 0 <= i < |st.cand| && st.cand[i].oid == k)
  }

  lemma StartSound(e: Field, st: Snap)
    requires Cached(st.list, e.cloud, e.v, st.cand) && |st.annexed| == |st.cand|
    ensures Sound(e, st.list, st.owner, st) && AllInRange(st)
  {
    SoundInRange(e, st.list, st.owner, st);
  }

  lemma {:induction false} NoBox(cloud: seq<P4>, pts: seq<int>)
    requires cloud == []
    ensures BoxOf(cloud, pts).None?
    decreases |pts|
  {
    if pts != [] { NoBox(cloud, pts[..|pts| - 1]); }
  }

  lemma IdleStart(e: Field, st: Snap)
    requires st.cand == [] && st.annexed == [] && st.dirty == {} && (st.list == [] || e.sps == [] || e.cloud == [])
    ensures StartOk(e, st)
  {
    if e.cloud == [] {
      forall k | 0 <= k < |st.list| ensures BoxOf(e.cloud, st.list[k].points).None? { NoBox(e.cloud, st.list[k].points); }
    }
  }

  /** Without candidates, or without superpoints, growing changes nothing. */
  lemma IdleGrows(e: Field, st: Snap, k: nat)
    requires FieldOk(e) && AllInRange(st) && (st.cand == [] || e.sps == [])
    ensures GrownBy(e, st, k) == st && (k > 0 ==> Converged(e, st, k))
    ensures AllSettled(e, st)
  {
    forall si | 0 <= si < |e.sps| ensures Settled(e, st, si) {}
    SweepFixedIff(e, st, |e.sps|);
  }

  lemma PooledSize(sps: seq<Superpoint>, pp: PoolParams, shists: seq<seq<real>>)
    requires AllPooled(sps, pp, shists)
    ensures |shists| == |sps|
  {
  }

  /** What holds when growing ends. */
  lemma GrownEnds(e: Field, list0: seq<Seed>, owner0: seq<int>, start: Snap, k: nat, w: World, list: seq<Seed>)
    requires FieldOk(e) && AllInRange(start) && Cached(start.list, e.cloud, e.v, start.cand) && |start.annexed| == |start.cand|
    requires start.list == list0 && start.owner == owner0
    ensures var t := GrownBy(e, start, k);
            && Grown(list0, owner0, t.list, t.owner, e.gp.overlap)
            && (t == start && start.dirty == {} && list == list0 ==> Refreshed(t, e.gp.overlap, w, list))
            && (Refreshed(t, e.gp.overlap, w, list) && !e.gp.overlap && Agrees(list0, owner0) ==> Agrees(list, t.owner))
  {
    hide Agrees, Cached;
    StartSound(e, start);
    GrowingKeeps(e, list0, owner0, start, k);
    var t := GrownBy(e, start, k);
    if Refreshed(t, e.gp.overlap, w, list) && !e.gp.overlap && Agrees(list0, owner0) {
      AgreesOfRefreshed(t, w, list);
    }
  }

  /** The listed points that are in the map. */
  function InMap(w: World, pts: seq<int>): seq<int> {
    if pts == [] then []
    else var g := pts[|pts| - 1]; InMap(w, pts[..|pts| - 1]) + if 0 <= g < w.size then [g] else []
  }

  /** How many of the listed points have class c. */
  function CountOf(w: World, pts: seq<int>, c: int): nat {
    if pts == [] then 0 else CountOf(w, pts[..|pts| - 1], c) + if w.classOf(pts[|pts| - 1]) == c then 1 else 0
  }

  /** The histogram counts the points of every class. */
  ghost predicate Recounted(w: World, pts: seq<int>, h: seq<real>) {
    |h| == w.vocab && forall c | 0 <= c < w.vocab :: h[c] == CountOf(w, pts, c) as real
  }

  method HistOf(w: World, pts: seq<int>) returns (h: seq<real>)
    ensures Recounted(w, pts, h)
  {
    h := seq(w.vocab, i => 0.0);
    for i := 0 to |pts|
      invariant Recounted(w, pts[..i], h)
    {
      assert pts[..i + 1][..i] == pts[..i];
      var c := w.classOf(pts[i]);
      if 0 <= c < w.vocab { h := h[c := h[c] + 1.0]; }
    }
    assert pts[..|pts|] == pts;
  }

  /** The histogram a proposal starts with is the recount of its points exactly when they all have its class,
      as far as classes are in the vocabulary. */
  lemma SpikeIffPure(w: World, c: int, pts: seq<int>)
    requires 0 <= c < w.vocab && forall g | g in pts :: 0 <= w.classOf(g) < w.vocab
    ensures Recounted(w, pts, Spike(w.vocab, c, |pts|)) <==> forall g | g in pts :: w.classOf(g) == c
  {
    AllCounted(w, c, pts);
    forall d | 0 <= d < w.vocab && d != c && forall g | g in pts :: w.classOf(g) == c ensures CountOf(w, pts, d) == 0 {
      NoneCounted(w, d, pts);
    }
  }

  lemma {:induction false} AllCounted(w: World, c: int, pts: seq<int>)
    ensures CountOf(w, pts, c) <= |pts|
    ensures CountOf(w, pts, c) == |pts| <==> forall g | g in pts :: w.classOf(g) == c
    decreases |pts|
  {
    if pts != [] {
      var n := |pts| - 1;
      var init, last := pts[..n], pts[n];
      AllCounted(w, c, init);
      assert forall g :: g in pts <==> g in init || g == last;
    }
  }

  lemma {:induction false} NoneCounted(w: World, d: int, pts: seq<int>)
    requires forall g | g in pts :: w.classOf(g) != d
    ensures CountOf(w, pts, d) == 0
    decreases |pts|
  {
    if pts != [] {
      var n := |pts| - 1;
      var init, last := pts[..n], pts[n];
      assert last in pts && pts == init + [last];
      forall g | g in init ensures w.classOf(g) != d { assert g in pts; }
      NoneCounted(w, d, init);
      assert CountOf(w, pts, d) == CountOf(w, init, d);
    }
  }

  /** Proposals that grew: same class, members kept (each once, ascending, in overlap mode), histogram and
      centroid recomputed, instance ids each once, ascending.  The others stay as they were. */
  ghost predicate Refreshed(t: Snap, overlap: bool, w: World, list: seq<Seed>) {
    |list| == |t.list| && forall k | 0 <= k < |list| ::
      if k in t.dirty then RefreshedOne(t.list[k], overlap, w, list[k]) else list[k] == t.list[k]
  }

  ghost predicate RefreshedOne(s: Seed, overlap: bool, w: World, r: Seed) {
    && r.classId == s.classId && r.kind == s.kind && Recounted(w, r.points, r.hist)
    && (var known := InMap(w, r.points); if known == [] then r.centroid == s.centroid else Centered(w.at, known, r.centroid))
    && (if overlap then RisingInts(r.points) && forall g :: g in r.points <==> g in s.points else r.points == s.points)
    && RisingInts(r.instIds) && forall y :: y in r.instIds <==> y in s.instIds
  }

  lemma AgreesOfRefreshed(t: Snap, w: World, list: seq<Seed>)
    requires Refreshed(t, false, w, list) && Agrees(t.list, t.owner)
    ensures Agrees(list, t.owner)
  {
    forall g, k | g >= 0 ensures OwnsIff(list, t.owner, g, k) {
      assert OwnsIff(t.list, t.owner, g, k);
      if 0 <= k < |list| { assert list[k].points == t.list[k].points; }
    }
  }

  method KnownPoints(w: World, pts: seq<int>) returns (known: seq<int>)
    ensures known == InMap(w, pts)
  {
    known := [];
    for i := 0 to |pts|
      invariant known == InMap(w, pts[..i])
    {
      assert pts[..i + 1][..i] == pts[..i];
      if 0 <= pts[i] < w.size { known := known + [pts[i]]; }
    }
    assert pts[..|pts|] == pts;
  }

  /** Recompute the proposals that grew, dropping duplicate members in overlap mode. */
  method Refresh(grown: seq<Seed>, dirty: set<int>, overlap: bool, w: World, ghost t: Snap)
    returns (list: seq<Seed>)
    requires t.list == grown && t.dirty == dirty
    ensures Refreshed(t, overlap, w, list)
  {
    hide RisingInts;
    list := grown;
    for k := 0 to |grown|
      invariant |list| == |grown| && forall i | k <= i < |grown| :: list[i] == grown[i]
      invariant forall i | 0 <= i < k ::
                  if i in dirty then RefreshedOne(grown[i], overlap, w, list[i]) else list[i] == grown[i]
    {
      if k !in dirty { continue; }
      var s := grown[k];
      var points := s.points;
      if overlap { points := SortUnique(points); }
      var ids := SortUnique(s.instIds);
      var hist := HistOf(w, points);
      var centroid := s.centroid;
      var known := KnownPoints(w, points);
      if known != [] { centroid := CentroidOf(w.at, known); }
      list := list[k := s.(points := points, centroid := centroid, hist := hist, instIds := ids)];
    }
  }

  /** Voxels of a superpoint, and whether one of its points in the map is unowned. */
  method FootprintOf(cloud: seq<P4>, v: Edge, owner: seq<int>, s: Superpoint) returns (svox: set<VKey>, free: bool)
    ensures svox == VoxOf(cloud, v, s.points) && free == HasFree(cloud, owner, s)
  {
    hide VoxelOf, OwnerOf;
    svox, free := {}, false;
    for i := 0 to |s.points|
      invariant svox == VoxOf(cloud, v, s.points[..i])
      invariant free <==> exists g :: g in s.points[..i] && InCloud(cloud, g) && OwnerOf(owner, g) == -1
    {
      var g := s.points[i];
      VoxSnoc(cloud, v, s.points[..i], g);
      assert s.points[..i + 1] == s.points[..i] + [g];
      assert g in s.points[..i + 1];
      if !InCloud(cloud, g) { continue; }
      svox := svox + {VoxelOf(cloud[g], v)};
      if OwnerOf(owner, g) == -1 { free := true; }
    }
    assert s.points[..|s.points|] == s.points;
  }
}
