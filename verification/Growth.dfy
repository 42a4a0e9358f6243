/** Growing as a function of the proposals' state: what one superpoint, one sweep and all sweeps do,
    and what they keep. */
module Growth {
  import opened WorldMap
  import opened Affinity
  import opened Growing
  import opened SetSum

  /** What growing reads: the map, the superpoints, and the histograms they are compared with. */
  datatype Field = Field(sqrt: real -> real, gp: GrowParams, v: Edge, cloud: seq<P4>, sps: seq<Superpoint>,
                         shists: seq<seq<real>>)

  /** The proposals, the owner index, the caches, the superpoints each candidate annexed (overlap
      mode), and the proposals that changed. */
  datatype Snap = Snap(list: seq<Seed>, owner: seq<int>, cand: seq<Cand>, annexed: seq<set<int>>, dirty: set<int>)

  ghost predicate FieldOk(e: Field) { IsSqrt(e.sqrt) && |e.shists| == |e.sps| }

  // ---------- one superpoint ----------

  predicate InRange(st: Snap, ci: int) { 0 <= ci < |st.cand| && ci < |st.annexed| && 0 <= st.cand[ci].oid < |st.list| }

  function WithPoint(list: seq<Seed>, oid: int, g: int): seq<Seed>
    requires 0 <= oid < |list|
  {
    list[oid := list[oid].(points := list[oid].points + [g])]
  }

  function CandWith(cloud: seq<P4>, v: Edge, c: Cand, g: int): Cand {
    if InCloud(cloud, g) then c.(vox := c.vox + {VoxelOf(cloud[g], v)}, box := Stretched(c.box, cloud[g])) else c
  }

  /** One point of a superpoint offered to candidate ci: owned points are never taken. */
  function PointAnnexed(e: Field, st: Snap, ci: int, g: int): Snap
    requires InRange(st, ci)
  {
    var oid := st.cand[ci].oid;
    if !e.gp.overlap && OwnerOf(st.owner, g) != -1 then st
    else st.(list := WithPoint(st.list, oid, g), owner := if e.gp.overlap then st.owner else ClaimedBy(st.owner, g, oid),
             cand := st.cand[ci := CandWith(e.cloud, e.v, st.cand[ci], g)])
  }

  function PointsAnnexed(e: Field, st: Snap, ci: int, pts: seq<int>): (t: Snap)
    requires InRange(st, ci)
    ensures InRange(t, ci) && t.cand[ci].oid == st.cand[ci].oid && |t.list| == |st.list| && |t.cand| == |st.cand|
    ensures t.annexed == st.annexed && t.dirty == st.dirty
    decreases |pts|
  {
    if pts == [] then st else PointAnnexed(e, PointsAnnexed(e, st, ci, pts[..|pts| - 1]), ci, pts[|pts| - 1])
  }

  /** Superpoint si annexed into candidate ci: its unowned points, or all of them once in overlap mode. */
  function AnnexedInto(e: Field, st: Snap, ci: int, si: int): (t: Snap)
    requires InRange(st, ci) && 0 <= si < |e.sps|
    ensures |t.list| == |st.list| && |t.cand| == |st.cand| && |t.annexed| == |st.annexed|
  {
    if e.gp.overlap && si in st.annexed[ci] then st
    else
      var st1 := if e.gp.overlap then st.(annexed := st.annexed[ci := st.annexed[ci] + {si}]) else st;
      var t := PointsAnnexed(e, st1, ci, e.sps[si].points);
      if t.list == st1.list then t else Noted(t, t.cand[ci].oid, e.sps[si].instIds)
  }

  /** A grown proposal takes the superpoint's instance ids and is marked for refreshing. */
  function Noted(t: Snap, oid: int, ids: seq<int>): Snap
    requires 0 <= oid < |t.list|
  {
    t.(list := t.list[oid := t.list[oid].(instIds := t.list[oid].instIds + ids)], dirty := t.dirty + {oid})
  }

  /** Affinity of superpoint si to candidate ci. */
  ghost function AffAt(e: Field, st: Snap, ci: int, si: int): real
    requires FieldOk(e) && InRange(st, ci) && 0 <= si < |e.sps|
  {
    Aff(e.sqrt, e.gp, e.v, st.cand[ci], st.list[st.cand[ci].oid].classId, e.sps[si], e.shists[si],
        VoxOf(e.cloud, e.v, e.sps[si].points))
  }

  /** Dominant-thing superpoints with a histogram grow. */
  predicate Growable(s: Superpoint) { s.classId >= 0 && s.hist != [] }

  /** A point of the superpoint lies in the map and is unowned. */
  predicate HasFree(cloud: seq<P4>, owner: seq<int>, s: Superpoint) {
    exists g :: g in s.points && InCloud(cloud, g) && OwnerOf(owner, g) == -1
  }

  ghost predicate AllInRange(st: Snap) { |st.annexed| == |st.cand| && forall ci | 0 <= ci < |st.cand| :: InRange(st, ci) }

  /** Overlap mode: every one of the first n candidates at the bar annexes the superpoint. */
  ghost function Offered(e: Field, st: Snap, si: int, n: nat): (t: Snap)
    requires FieldOk(e) && AllInRange(st) && 0 <= si < |e.sps| && n <= |st.cand|
    ensures AllInRange(t) && |t.list| == |st.list| && |t.cand| == |st.cand|
    decreases n
  {
    if n == 0 then st
    else var t := Offered(e, st, si, n - 1);
         if AffAt(e, t, n - 1, si) >= e.gp.thresh then InRangeAfter(e, t, n - 1, si); AnnexedInto(e, t, n - 1, si) else t
  }

  lemma InRangeAfter(e: Field, st: Snap, ci: int, si: int)
    requires AllInRange(st) && 0 <= ci < |st.cand| && 0 <= si < |e.sps|
    ensures AllInRange(AnnexedInto(e, st, ci, si))
    ensures forall j | 0 <= j < |st.cand| :: AnnexedInto(e, st, ci, si).cand[j].oid == st.cand[j].oid
  {
    hide PointsAnnexed;
    assert InRange(st, ci);
    OthersAfter(e, st, ci, si);
    var t := AnnexedInto(e, st, ci, si);
    forall j | 0 <= j < |st.cand| ensures InRange(t, j) && t.cand[j].oid == st.cand[j].oid { assert InRange(st, j); }
  }

  /** Annexing leaves the other candidates and proposals alone. */
  lemma OthersAfter(e: Field, st: Snap, ci: int, si: int)
    requires InRange(st, ci) && 0 <= si < |e.sps|
    ensures var t := AnnexedInto(e, st, ci, si);
            && (forall j | 0 <= j < |st.cand| && j != ci :: t.cand[j] == st.cand[j])
            && (forall j | 0 <= j < |st.annexed| && j != ci :: t.annexed[j] == st.annexed[j])
            && (forall k | 0 <= k < |st.list| && k != st.cand[ci].oid :: t.list[k] == st.list[k])
            && t.cand[ci].oid == st.cand[ci].oid && t.list[st.cand[ci].oid].classId == st.list[st.cand[ci].oid].classId
  {
    hide PointsAnnexed;
    if !e.gp.overlap || si !in st.annexed[ci] {
      var st1 := if e.gp.overlap then st.(annexed := st.annexed[ci := st.annexed[ci] + {si}]) else st;
      OthersSame(e, st1, ci, e.sps[si].points);
    }
  }

  lemma {:induction false} OthersSame(e: Field, st: Snap, ci: int, pts: seq<int>)
    requires InRange(st, ci)
    ensures var t := PointsAnnexed(e, st, ci, pts);
            && (forall j | 0 <= j < |st.cand| && j != ci :: t.cand[j] == st.cand[j])
            && (forall k | 0 <= k < |st.list| && k != st.cand[ci].oid :: t.list[k] == st.list[k])
            && t.list[st.cand[ci].oid].classId == st.list[st.cand[ci].oid].classId
    decreases |pts|
  {
    if pts != [] { OthersSame(e, st, ci, pts[..|pts| - 1]); }
  }

  /** Exclusive mode: the last of the best of the first n candidates at the bar; -1 without one. */
  ghost function BestAmong(e: Field, st: Snap, si: int, n: nat): (b: int)
    requires FieldOk(e) && AllInRange(st) && 0 <= si < |e.sps| && n <= |st.cand|
    ensures -1 <= b < n
    decreases n
  {
    if n == 0 then -1
    else var b := BestAmong(e, st, si, n - 1);
         if AffAt(e, st, n - 1, si) >= BarAfter(e, st, si, b) then n - 1 else b
  }

  ghost function BarAfter(e: Field, st: Snap, si: int, b: int): real
    requires FieldOk(e) && AllInRange(st) && 0 <= si < |e.sps| && -1 <= b < |st.cand|
  {
    if b < 0 then e.gp.thresh else AffAt(e, st, b, si)
  }

  /** The candidate reaches the bar, no other has a higher affinity, no later one as high. */
  ghost predicate IsBestCand(e: Field, st: Snap, si: int, n: nat, b: int)
    requires FieldOk(e) && AllInRange(st) && 0 <= si < |e.sps| && 0 <= b < n <= |st.cand|
  {
    && AffAt(e, st, b, si) >= e.gp.thresh
    && forall k | 0 <= k < n ::
         AffAt(e, st, k, si) <= AffAt(e, st, b, si) && (k > b ==> AffAt(e, st, k, si) < AffAt(e, st, b, si))
  }

  lemma {:induction false} BestIsBest(e: Field, st: Snap, si: int, n: nat)
    requires FieldOk(e) && AllInRange(st) && 0 <= si < |e.sps| && n <= |st.cand|
    ensures var b := BestAmong(e, st, si, n);
            if b >= 0 then IsBestCand(e, st, si, n, b) else forall k | 0 <= k < n :: AffAt(e, st, k, si) < e.gp.thresh
    decreases n
  {
    hide AffAt, FieldOk;
    if n > 0 { BestIsBest(e, st, si, n - 1); }
  }

  /** Superpoint si offered to the proposals. */
  ghost function Visited(e: Field, st: Snap, si: int): (t: Snap)
    requires FieldOk(e) && AllInRange(st) && 0 <= si < |e.sps|
    ensures AllInRange(t) && |t.list| == |st.list| && |t.cand| == |st.cand|
  {
    var s := e.sps[si];
    if !Growable(s) || VoxOf(e.cloud, e.v, s.points) == {} then st
    else if e.gp.overlap then Offered(e, st, si, |st.cand|)
    else if !HasFree(e.cloud, st.owner, s) then st
    else var b := BestAmong(e, st, si, |st.cand|);
         if b < 0 then st else InRangeAfter(e, st, b, si); AnnexedInto(e, st, b, si)
  }

  // ---------- sweeps ----------

  ghost function Swept(e: Field, st: Snap, n: nat): (t: Snap)
    requires FieldOk(e) && AllInRange(st) && n <= |e.sps|
    ensures AllInRange(t) && |t.list| == |st.list| && |t.cand| == |st.cand|
    decreases n
  {
    if n == 0 then st else Visited(e, Swept(e, st, n - 1), n - 1)
  }

  /** At most k sweeps, stopping after one that changes nothing. */
  ghost function GrownBy(e: Field, st: Snap, k: nat): (t: Snap)
    requires FieldOk(e) && AllInRange(st)
    ensures AllInRange(t) && |t.list| == |st.list| && |t.cand| == |st.cand|
    decreases k
  {
    if k == 0 then st
    else var t := Swept(e, st, |e.sps|);
         if t == st then st else GrownBy(e, t, k - 1)
  }

  function Sweeps(gp: GrowParams): nat { if gp.sweeps > 1 then gp.sweeps else 1 }

  // ---------- what growing keeps ----------

  /** Growing so far: proposals only gain points, owned points keep their owner, and ownership agrees
      with membership if it did before. */
  ghost predicate Grown(list0: seq<Seed>, owner0: seq<int>, list: seq<Seed>, owner: seq<int>, overlap: bool) {
    && |list| == |list0|
    && (forall k | 0 <= k < |list| :: list0[k].points <= list[k].points && list[k].classId == list0[k].classId)
    && (forall g | OwnerOf(owner0, g) >= 0 :: OwnerOf(owner, g) == OwnerOf(owner0, g))
    && (overlap ==> owner == owner0)
    && (!overlap && Agrees(list0, owner0) ==> Agrees(list, owner))
  }

  /** The state is one growing can reach from list0 and owner0: caches mirror the proposals. */
  ghost predicate Sound(e: Field, list0: seq<Seed>, owner0: seq<int>, st: Snap) {
    && Cached(st.list, e.cloud, e.v, st.cand) && |st.annexed| == |st.cand|
    && Grown(list0, owner0, st.list, st.owner, e.gp.overlap)
  }

  lemma SoundInRange(e: Field, list0: seq<Seed>, owner0: seq<int>, st: Snap)
    requires Sound(e, list0, owner0, st)
    ensures AllInRange(st)
  {
    forall ci | 0 <= ci < |st.cand| ensures InRange(st, ci) { assert CandOk(st.list, e.cloud, e.v, st.cand[ci]); }
  }

  lemma CachedAfter(list: seq<Seed>, cloud: seq<P4>, v: Edge, cand: seq<Cand>, ci: int, g: int)
    requires Cached(list, cloud, v, cand) && 0 <= ci < |cand|
    ensures 0 <= cand[ci].oid < |list|
    ensures Cached(WithPoint(list, cand[ci].oid, g), cloud, v, cand[ci := CandWith(cloud, v, cand[ci], g)])
  {
    hide VoxOf, BoxOf, VoxelOf;
    assert CandOk(list, cloud, v, cand[ci]);
    var oid := cand[ci].oid;
    var list', cand' := WithPoint(list, oid, g), cand[ci := CandWith(cloud, v, cand[ci], g)];
    VoxSnoc(cloud, v, list[oid].points, g);
    forall i | 0 <= i < |cand'| ensures CandOk(list', cloud, v, cand'[i]) {
      assert CandOk(list, cloud, v, cand[i]);
      if i != ci { assert cand[i].oid != oid; }
    }
  }

  lemma AgreesAfter(list: seq<Seed>, owner: seq<int>, oid: int, g: int)
    requires Agrees(list, owner) && 0 <= oid < |list| && OwnerOf(owner, g) == -1
    ensures Agrees(WithPoint(list, oid, g), ClaimedBy(owner, g, oid))
  {
    hide Padded;
    var list', owner' := WithPoint(list, oid, g), ClaimedBy(owner, g, oid);
    forall x, k | x >= 0 ensures OwnsIff(list', owner', x, k) {
      assert OwnsIff(list, owner, x, k);
      assert OwnerOf(owner', x) == if x == g then oid else OwnerOf(owner, x);
    }
  }

  lemma ClaimedByAt(owner: seq<int>, g: int, oid: int)
    ensures forall x :: OwnerOf(ClaimedBy(owner, g, oid), x) == if x == g && g >= 0 then oid else OwnerOf(owner, x)
  {
  }

  lemma GrownAfter(list0: seq<Seed>, owner0: seq<int>, list: seq<Seed>, owner: seq<int>, overlap: bool, oid: int, g: int)
    requires Grown(list0, owner0, list, owner, overlap) && 0 <= oid < |list|
    requires !overlap ==> OwnerOf(owner, g) == -1
    ensures Grown(list0, owner0, WithPoint(list, oid, g), if overlap then owner else ClaimedBy(owner, g, oid), overlap)
  {
    hide Agrees, ClaimedBy;
    if !overlap {
      if Agrees(list0, owner0) { AgreesAfter(list, owner, oid, g); }
      ClaimedByAt(owner, g, oid);
    }
  }

  lemma {:induction false} PointsKeep(e: Field, list0: seq<Seed>, owner0: seq<int>, st: Snap, ci: int, pts: seq<int>)
    requires Sound(e, list0, owner0, st) && InRange(st, ci)
    ensures Sound(e, list0, owner0, PointsAnnexed(e, st, ci, pts))
    decreases |pts|
  {
    hide Cached, Grown, CandWith, WithPoint;
    if pts != [] {
      PointsKeep(e, list0, owner0, st, ci, pts[..|pts| - 1]);
      var t, g := PointsAnnexed(e, st, ci, pts[..|pts| - 1]), pts[|pts| - 1];
      if e.gp.overlap || OwnerOf(t.owner, g) == -1 {
        CachedAfter(t.list, e.cloud, e.v, t.cand, ci, g);
        GrownAfter(list0, owner0, t.list, t.owner, e.gp.overlap, t.cand[ci].oid, g);
      }
    }
  }

  lemma NotedKeeps(e: Field, list0: seq<Seed>, owner0: seq<int>, t: Snap, oid: int, ids: seq<int>)
    requires Sound(e, list0, owner0, t) && 0 <= oid < |t.list|
    ensures Sound(e, list0, owner0, Noted(t, oid, ids))
  {
    hide VoxOf, BoxOf;
    var u := Noted(t, oid, ids);
    forall i | 0 <= i < |u.cand| ensures CandOk(u.list, e.cloud, e.v, u.cand[i]) {
      assert CandOk(t.list, e.cloud, e.v, t.cand[i]);
    }
    if Agrees(t.list, t.owner) {
      forall g, k | g >= 0 ensures OwnsIff(u.list, u.owner, g, k) { assert OwnsIff(t.list, t.owner, g, k); }
    }
  }

  lemma AnnexKeeps(e: Field, list0: seq<Seed>, owner0: seq<int>, st: Snap, ci: int, si: int)
    requires Sound(e, list0, owner0, st) && InRange(st, ci) && 0 <= si < |e.sps|
    ensures Sound(e, list0, owner0, AnnexedInto(e, st, ci, si))
  {
    hide Cached, Grown, Noted, PointsAnnexed;
    var st1 := if e.gp.overlap then st.(annexed := st.annexed[ci := st.annexed[ci] + {si}]) else st;
    PointsKeep(e, list0, owner0, st1, ci, e.sps[si].points);
    var t := PointsAnnexed(e, st1, ci, e.sps[si].points);
    NotedKeeps(e, list0, owner0, t, t.cand[ci].oid, e.sps[si].instIds);
  }

  lemma {:induction false} OfferedKeeps(e: Field, list0: seq<Seed>, owner0: seq<int>, st: Snap, si: int, n: nat)
    requires FieldOk(e) && AllInRange(st) && Sound(e, list0, owner0, st) && 0 <= si < |e.sps| && n <= |st.cand|
    ensures Sound(e, list0, owner0, Offered(e, st, si, n))
    decreases n
  {
    hide Sound, AnnexedInto, AffAt;
    if n > 0 {
      OfferedKeeps(e, list0, owner0, st, si, n - 1);
      AnnexKeeps(e, list0, owner0, Offered(e, st, si, n - 1), n - 1, si);
    }
  }

  lemma VisitedKeeps(e: Field, list0: seq<Seed>, owner0: seq<int>, st: Snap, si: int)
    requires FieldOk(e) && AllInRange(st) && Sound(e, list0, owner0, st) && 0 <= si < |e.sps|
    ensures Sound(e, list0, owner0, Visited(e, st, si))
  {
    hide Sound, AnnexedInto, Offered, BestAmong, VoxOf;
    OfferedKeeps(e, list0, owner0, st, si, |st.cand|);
    var b := BestAmong(e, st, si, |st.cand|);
    if b >= 0 { AnnexKeeps(e, list0, owner0, st, b, si); }
  }

  lemma {:induction false} SweptKeeps(e: Field, list0: seq<Seed>, owner0: seq<int>, st: Snap, n: nat)
    requires FieldOk(e) && AllInRange(st) && Sound(e, list0, owner0, st) && n <= |e.sps|
    ensures Sound(e, list0, owner0, Swept(e, st, n))
    decreases n
  {
    hide Sound, Visited, AllInRange;
    if n > 0 {
      SweptKeeps(e, list0, owner0, st, n - 1);
      VisitedKeeps(e, list0, owner0, Swept(e, st, n - 1), n - 1);
    }
  }

  /** After any number of sweeps points were only gained, none was stolen, and ownership agrees. */
  lemma {:induction false} GrowingKeeps(e: Field, list0: seq<Seed>, owner0: seq<int>, st: Snap, k: nat)
    requires FieldOk(e) && AllInRange(st) && Sound(e, list0, owner0, st)
    ensures Sound(e, list0, owner0, GrownBy(e, st, k))
    decreases k
  {
    hide Sound, Swept, AllInRange;
    if k > 0 {
      SweptKeeps(e, list0, owner0, st, |e.sps|);
      var t := Swept(e, st, |e.sps|);
      if t != st { GrowingKeeps(e, list0, owner0, t, k - 1); }
    }
  }

  // ---------- progress ----------

  /** No proposal has fewer points, and one has more. */
  ghost predicate Longer(list: seq<Seed>, list': seq<Seed>) { NoShorter(list, list') && SomeLonger(list, list') }

  ghost predicate NoShorter(list: seq<Seed>, list': seq<Seed>) {
    |list| == |list'| && forall k | 0 <= k < |list| :: |list[k].points| <= |list'[k].points|
  }

  ghost predicate SomeLonger(list: seq<Seed>, list': seq<Seed>) {
    exists k :: 0 <= k < |list| && k < |list'| && |list[k].points| < |list'[k].points|
  }

  ghost predicate Moves(st: Snap, st': Snap) { st' == st || Longer(st.list, st'.list) }

  lemma MovesTwice(a: Snap, b: Snap, c: Snap)
    requires Moves(a, b) && Moves(b, c)
    ensures Moves(a, c) && (c == a ==> b == a)
  {
    if b != a && c != b {
      var k :| 0 <= k < |a.list| && k < |b.list| && |a.list[k].points| < |b.list[k].points|;
      assert |a.list[k].points| < |c.list[k].points|;
    }
  }

  /** No point of the list can be annexed. */
  ghost predicate NoneFree(overlap: bool, owner: seq<int>, pts: seq<int>) {
    forall i | 0 <= i < |pts| :: !overlap && OwnerOf(owner, pts[i]) != -1
  }

  lemma NoneFreeSnoc(overlap: bool, owner: seq<int>, pts: seq<int>)
    requires pts != []
    ensures NoneFree(overlap, owner, pts) <==>
            NoneFree(overlap, owner, pts[..|pts| - 1]) && !overlap && OwnerOf(owner, pts[|pts| - 1]) != -1
  {
    if NoneFree(overlap, owner, pts) {
      assert !overlap && OwnerOf(owner, pts[|pts| - 1]) != -1;
    }
  }

  lemma NoneFreeCases(overlap: bool, owner: seq<int>, pts: seq<int>)
    ensures pts == [] ==> NoneFree(overlap, owner, pts)
    ensures pts != [] && overlap ==> !NoneFree(overlap, owner, pts)
  {
    if pts != [] && NoneFree(overlap, owner, pts) { assert OwnerOf(owner, pts[0]) != -1; }
  }

  /** Points are added exactly when one is unowned, or always in overlap mode. */
  lemma {:induction false} PointsMove(e: Field, st: Snap, ci: int, pts: seq<int>)
    requires InRange(st, ci)
    ensures Moves(st, PointsAnnexed(e, st, ci, pts))
    ensures PointsAnnexed(e, st, ci, pts) == st <==> NoneFree(e.gp.overlap, st.owner, pts)
    decreases |pts|
  {
    hide CandWith, ClaimedBy, OwnerOf, PointAnnexed, Moves, NoneFree;
    StaysPut(st);
    NoneFreeCases(e.gp.overlap, st.owner, pts);
    if pts != [] {
      var front, g := pts[..|pts| - 1], pts[|pts| - 1];
      PointsMove(e, st, ci, front);
      var t := PointsAnnexed(e, st, ci, front);
      PointMoves(e, t, ci, g);
      MovesTwice(st, t, PointAnnexed(e, t, ci, g));
      NoneFreeSnoc(e.gp.overlap, st.owner, pts);
    }
  }

  lemma PointMoves(e: Field, st: Snap, ci: int, g: int)
    requires InRange(st, ci)
    ensures Moves(st, PointAnnexed(e, st, ci, g))
    ensures PointAnnexed(e, st, ci, g) == st <==> !e.gp.overlap && OwnerOf(st.owner, g) != -1
  {
    hide CandWith, ClaimedBy, OwnerOf;
    var oid := st.cand[ci].oid;
    var t := PointAnnexed(e, st, ci, g);
    if e.gp.overlap || OwnerOf(st.owner, g) == -1 {
      assert |st.list[oid].points| < |t.list[oid].points|;
    }
  }

  lemma AnnexMoves(e: Field, st: Snap, ci: int, si: int)
    requires InRange(st, ci) && 0 <= si < |e.sps| && e.sps[si].points != []
    ensures Moves(st, AnnexedInto(e, st, ci, si))
    ensures AnnexedInto(e, st, ci, si) == st <==>
            if e.gp.overlap then si in st.annexed[ci] else NoneFree(false, st.owner, e.sps[si].points)
  {
    hide PointAnnexed, PointsAnnexed, OwnerOf;
    if !e.gp.overlap || si !in st.annexed[ci] {
      var st1 := if e.gp.overlap then st.(annexed := st.annexed[ci := st.annexed[ci] + {si}]) else st;
      var pts := e.sps[si].points;
      PointsMove(e, st1, ci, pts);
      NoneFreeCases(e.gp.overlap, st1.owner, pts);
      var t := PointsAnnexed(e, st1, ci, pts);
      if t != st1 {
        NotedLonger(st1.list, t, t.cand[ci].oid, e.sps[si].instIds);
        assert AnnexedInto(e, st, ci, si) == Noted(t, t.cand[ci].oid, e.sps[si].instIds);
      }
    }
  }

  lemma NotedLonger(list: seq<Seed>, t: Snap, oid: int, ids: seq<int>)
    requires Longer(list, t.list) && 0 <= oid < |t.list|
    ensures list != t.list && Longer(list, Noted(t, oid, ids).list)
  {
    var k :| 0 <= k < |list| && k < |t.list| && |list[k].points| < |t.list[k].points|;
    assert |list[k].points| < |Noted(t, oid, ids).list[k].points|;
  }

  // ---------- when nothing is left to do ----------

  /** Nothing is left to do for superpoint si: it cannot grow, has no free point (exclusive mode), or no
      candidate reaches the bar that has not annexed it already. */
  ghost predicate Settled(e: Field, st: Snap, si: int)
    requires FieldOk(e) && AllInRange(st) && 0 <= si < |e.sps|
  {
    var s := e.sps[si];
    Growable(s) && VoxOf(e.cloud, e.v, s.points) != {} && (e.gp.overlap || HasFree(e.cloud, st.owner, s)) ==>
      forall ci | 0 <= ci < |st.cand| :: AffAt(e, st, ci, si) < e.gp.thresh || (e.gp.overlap && si in st.annexed[ci])
  }

  lemma {:induction false} SomePoint(cloud: seq<P4>, v: Edge, pts: seq<int>)
    requires VoxOf(cloud, v, pts) != {}
    ensures pts != []
  {
  }

  lemma {:induction false} OfferedMoves(e: Field, st: Snap, si: int, n: nat)
    requires FieldOk(e) && AllInRange(st) && 0 <= si < |e.sps| && n <= |st.cand| && e.gp.overlap && e.sps[si].points != []
    ensures Moves(st, Offered(e, st, si, n))
    ensures Offered(e, st, si, n) == st <==>
            forall ci | 0 <= ci < n :: AffAt(e, st, ci, si) < e.gp.thresh || si in st.annexed[ci]
    decreases n
  {
    hide AnnexedInto, AffAt, FieldOk;
    if n > 0 {
      OfferedMoves(e, st, si, n - 1);
      var t := Offered(e, st, si, n - 1);
      AnnexMoves(e, t, n - 1, si);
      MovesTwice(st, t, Offered(e, st, si, n));
    }
  }

  /** A visit changes nothing exactly when the superpoint is settled. */
  lemma VisitFixedIff(e: Field, st: Snap, si: int)
    requires FieldOk(e) && AllInRange(st) && 0 <= si < |e.sps|
    ensures Moves(st, Visited(e, st, si))
    ensures Visited(e, st, si) == st <==> Settled(e, st, si)
  {
    hide AnnexedInto, Offered, BestAmong, AffAt, FieldOk, OwnerOf, InCloud;
    var s := e.sps[si];
    if Growable(s) && VoxOf(e.cloud, e.v, s.points) != {} {
      SomePoint(e.cloud, e.v, s.points);
      if e.gp.overlap {
        OfferedMoves(e, st, si, |st.cand|);
      } else if HasFree(e.cloud, st.owner, s) {
        BestIsBest(e, st, si, |st.cand|);
        var b := BestAmong(e, st, si, |st.cand|);
        if b >= 0 { AnnexMoves(e, st, b, si); }
      }
    }
  }

  lemma {:induction false} SweepFixedIff(e: Field, st: Snap, n: nat)
    requires FieldOk(e) && AllInRange(st) && n <= |e.sps|
    ensures Moves(st, Swept(e, st, n))
    ensures Swept(e, st, n) == st <==> forall si | 0 <= si < n :: Settled(e, st, si)
    decreases n
  {
    hide Visited, Settled, Moves, AllInRange, FieldOk;
    if n > 0 {
      SweepFixedIff(e, st, n - 1);
      var t := Swept(e, st, n - 1);
      VisitFixedIff(e, t, n - 1);
      MovesTwice(st, t, Visited(e, t, n - 1));
    } else {
      StaysPut(st);
    }
  }

  lemma StaysPut(st: Snap)
    ensures Moves(st, st)
  {
  }

  /** All k sweeps, whether or not anything changes. */
  ghost function Repeated(e: Field, st: Snap, k: nat): (t: Snap)
    requires FieldOk(e) && AllInRange(st)
    ensures AllInRange(t)
    decreases k
  {
    if k == 0 then st else Repeated(e, Swept(e, st, |e.sps|), k - 1)
  }

  /** One of the first k sweeps changes nothing, so the sweeping stops there. */
  ghost predicate Converged(e: Field, st: Snap, k: nat)
    requires FieldOk(e) && AllInRange(st)
    decreases k
  {
    k > 0 && (Swept(e, st, |e.sps|) == st || Converged(e, Swept(e, st, |e.sps|), k - 1))
  }

  lemma {:induction false} RepeatedStays(e: Field, st: Snap, k: nat)
    requires FieldOk(e) && AllInRange(st) && Swept(e, st, |e.sps|) == st
    ensures Repeated(e, st, k) == st
    decreases k
  {
    if k > 0 { RepeatedStays(e, st, k - 1); }
  }

  /** Stopping early loses nothing: the outcome is that of all k sweeps. */
  lemma {:induction false} EarlyStopIsHarmless(e: Field, st: Snap, k: nat)
    requires FieldOk(e) && AllInRange(st)
    ensures GrownBy(e, st, k) == Repeated(e, st, k)
    decreases k
  {
    hide Swept, AllInRange, FieldOk;
    if k > 0 {
      var t := Swept(e, st, |e.sps|);
      if t == st { RepeatedStays(e, st, k - 1); } else { EarlyStopIsHarmless(e, t, k - 1); }
    }
  }

  /** Sweep j+1 changes nothing. */
  ghost predicate IdleAfter(e: Field, st: Snap, j: nat)
    requires FieldOk(e) && AllInRange(st)
  {
    Repeated(e, st, j + 1) == Repeated(e, st, j)
  }

  lemma IdleShift(e: Field, st: Snap, j: nat)
    requires FieldOk(e) && AllInRange(st)
    ensures IdleAfter(e, st, 0) <==> Swept(e, st, |e.sps|) == st
    ensures IdleAfter(e, st, j + 1) <==> IdleAfter(e, Swept(e, st, |e.sps|), j)
  {
    hide Swept, AllInRange, FieldOk;
    assert Repeated(e, st, 0) == st && Repeated(e, st, 1) == Repeated(e, Swept(e, st, |e.sps|), 0);
  }

  /** The sweeping stops by itself exactly when one of the k sweeps changes nothing. */
  lemma {:induction false} ConvergedIff(e: Field, st: Snap, k: nat)
    requires FieldOk(e) && AllInRange(st)
    ensures Converged(e, st, k) <==> exists j: nat :: j < k && IdleAfter(e, st, j)
    decreases k
  {
    hide Swept, AllInRange, FieldOk, Repeated, IdleAfter;
    if k > 0 {
      var t := Swept(e, st, |e.sps|);
      ConvergedIff(e, t, k - 1);
      IdleShift(e, st, 0);
      if Converged(e, t, k - 1) {
        var j: nat :| j < k - 1 && IdleAfter(e, t, j);
        IdleShift(e, st, j);
      }
      if j: nat :| 0 < j < k && IdleAfter(e, st, j) { IdleShift(e, st, j - 1); }
    }
  }

  ghost predicate AllSettled(e: Field, st: Snap)
    requires FieldOk(e) && AllInRange(st)
  {
    forall si | 0 <= si < |e.sps| :: Settled(e, st, si)
  }

  /** Nothing is left to do after at most k sweeps exactly when one more sweep would be idle; in particular
      whenever the sweeping stopped by itself. */
  lemma {:induction false} SettledIffConverged(e: Field, st: Snap, k: nat)
    requires FieldOk(e) && AllInRange(st)
    ensures AllSettled(e, GrownBy(e, st, k)) <==> Converged(e, st, k + 1)
    ensures Converged(e, st, k) ==> Converged(e, st, k + 1)
    decreases k
  {
    hide Settled, Swept, AllInRange, FieldOk;
    var t := Swept(e, st, |e.sps|);
    SweepFixedIff(e, st, |e.sps|);
    if t == st {
      assert GrownBy(e, st, k) == st;
    } else if k > 0 {
      SettledIffConverged(e, t, k - 1);
      assert GrownBy(e, st, k) == GrownBy(e, t, k - 1);
    }
  }

  // ---------- how many sweeps suffice ----------

  /** Map points nobody owns. */
  ghost function FreePoints(cloud: seq<P4>, owner: seq<int>): set<int> { set g | 0 <= g < |cloud| && OwnerOf(owner, g) == -1 }

  /** Superpoints below m that are not in taken. */
  ghost function Open(taken: set<int>, m: nat): set<int> { set si | 0 <= si < m && si !in taken }

  /** Pairs of a candidate and a superpoint it has not annexed. */
  ghost function OpenPairs(annexed: seq<set<int>>, m: nat): nat {
    if annexed == [] then 0 else OpenPairs(annexed[..|annexed| - 1], m) + |Open(annexed[|annexed| - 1], m)|
  }

  /** What changing sweeps use up: unowned map points, or pairs not annexed in overlap mode. */
  ghost function Remaining(e: Field, st: Snap): nat {
    if e.gp.overlap then OpenPairs(st.annexed, |e.sps|) else |FreePoints(e.cloud, st.owner)|
  }

  ghost predicate UsesUp(e: Field, st: Snap, st': Snap) {
    Remaining(e, st') <= Remaining(e, st) && (st' != st ==> Remaining(e, st') < Remaining(e, st))
  }

  lemma UsesUpTwice(e: Field, a: Snap, b: Snap, c: Snap)
    requires UsesUp(e, a, b) && UsesUp(e, b, c)
    ensures UsesUp(e, a, c)
  {
  }

  lemma ProperSubsetSize<T(!new)>(a: set<T>, b: set<T>, x: T)
    requires a <= b && x in b && x !in a
    ensures |a| < |b|
  {
    SubsetSize(a, b - {x});
  }

  lemma {:induction false} OpenPairsUpdate(annexed: seq<set<int>>, m: nat, ci: int, taken: set<int>)
    requires 0 <= ci < |annexed|
    ensures OpenPairs(annexed[ci := taken], m) == OpenPairs(annexed, m) - |Open(annexed[ci], m)| + |Open(taken, m)|
    decreases |annexed|
  {
    var n := |annexed| - 1;
    if ci < n {
      OpenPairsUpdate(annexed[..n], m, ci, taken);
      assert annexed[ci := taken][..n] == annexed[..n][ci := taken];
    } else {
      assert annexed[ci := taken][..n] == annexed[..n];
    }
  }

  /** Once in a superpoint annexed exclusively, a map point is owned; owned points stay owned. */
  lemma {:induction false} PointsOwned(e: Field, st: Snap, ci: int, pts: seq<int>, g: int)
    requires InRange(st, ci) && !e.gp.overlap && g >= 0
    ensures OwnerOf(PointsAnnexed(e, st, ci, pts).owner, g) == -1 <==> OwnerOf(st.owner, g) == -1 && g !in pts
    decreases |pts|
  {
    hide CandWith, WithPoint, OwnerOf, ClaimedBy;
    if pts != [] {
      var front, x := pts[..|pts| - 1], pts[|pts| - 1];
      PointsOwned(e, st, ci, front, g);
      var t := PointsAnnexed(e, st, ci, front);
      ClaimedByAt(t.owner, x, t.cand[ci].oid);
      assert pts == front + [x];
    }
  }

  /** Annexing a superpoint with an unowned map point uses up that point. */
  lemma ExclusiveUsesUp(e: Field, st: Snap, ci: int, si: int)
    requires InRange(st, ci) && 0 <= si < |e.sps| && !e.gp.overlap && HasFree(e.cloud, st.owner, e.sps[si])
    ensures UsesUp(e, st, AnnexedInto(e, st, ci, si))
  {
    hide PointsAnnexed, OwnerOf;
    var pts := e.sps[si].points;
    var t := PointsAnnexed(e, st, ci, pts);
    assert AnnexedInto(e, st, ci, si).owner == t.owner;
    var was, now := FreePoints(e.cloud, st.owner), FreePoints(e.cloud, t.owner);
    forall g | g in now ensures g in was { PointsOwned(e, st, ci, pts, g); }
    var g :| g in pts && InCloud(e.cloud, g) && OwnerOf(st.owner, g) == -1;
    PointsOwned(e, st, ci, pts, g);
    ProperSubsetSize(now, was, g);
  }

  /** Annexing in overlap mode uses up the pair. */
  lemma OverlapUsesUp(e: Field, st: Snap, ci: int, si: int)
    requires InRange(st, ci) && 0 <= si < |e.sps| && e.gp.overlap
    ensures UsesUp(e, st, AnnexedInto(e, st, ci, si))
  {
    hide PointsAnnexed, OpenPairs;
    if si !in st.annexed[ci] {
      var taken := st.annexed[ci] + {si};
      assert AnnexedInto(e, st, ci, si).annexed == st.annexed[ci := taken];
      OpenPairsUpdate(st.annexed, |e.sps|, ci, taken);
      ProperSubsetSize(Open(taken, |e.sps|), Open(st.annexed[ci], |e.sps|), si);
    }
  }

  lemma {:induction false} OfferedUsesUp(e: Field, st: Snap, si: int, n: nat)
    requires FieldOk(e) && AllInRange(st) && 0 <= si < |e.sps| && n <= |st.cand| && e.gp.overlap
    ensures UsesUp(e, st, Offered(e, st, si, n))
    decreases n
  {
    hide AnnexedInto, AffAt, UsesUp, FieldOk;
    UsesNothing(e, st);
    if n > 0 {
      OfferedUsesUp(e, st, si, n - 1);
      var t := Offered(e, st, si, n - 1);
      OverlapUsesUp(e, t, n - 1, si);
      if Offered(e, st, si, n) != t { UsesUpTwice(e, st, t, AnnexedInto(e, t, n - 1, si)); }
    }
  }

  lemma UsesNothing(e: Field, st: Snap)
    ensures UsesUp(e, st, st)
  {
  }

  lemma {:induction false} SweepUsesUp(e: Field, st: Snap, n: nat)
    requires FieldOk(e) && AllInRange(st) && n <= |e.sps|
    ensures UsesUp(e, st, Swept(e, st, n))
    decreases n
  {
    hide Visited, UsesUp, AllInRange, FieldOk;
    UsesNothing(e, st);
    if n > 0 {
      SweepUsesUp(e, st, n - 1);
      VisitUsesUp(e, Swept(e, st, n - 1), n - 1);
      UsesUpTwice(e, st, Swept(e, st, n - 1), Swept(e, st, n));
    }
  }

  lemma VisitUsesUp(e: Field, st: Snap, si: int)
    requires FieldOk(e) && AllInRange(st) && 0 <= si < |e.sps|
    ensures UsesUp(e, st, Visited(e, st, si))
  {
    hide AnnexedInto, Offered, BestAmong, UsesUp, FieldOk, VoxOf, HasFree;
    UsesNothing(e, st);
    if e.gp.overlap { OfferedUsesUp(e, st, si, |st.cand|); }
    var b := BestAmong(e, st, si, |st.cand|);
    if !e.gp.overlap && HasFree(e.cloud, st.owner, e.sps[si]) && b >= 0 { ExclusiveUsesUp(e, st, b, si); }
  }

  lemma {:induction false} StopsWithin(e: Field, st: Snap, k: nat)
    requires FieldOk(e) && AllInRange(st) && k > Remaining(e, st)
    ensures Converged(e, st, k)
    decreases k
  {
    hide Swept, AllInRange, FieldOk, Remaining;
    var t := Swept(e, st, |e.sps|);
    SweepUsesUp(e, st, |e.sps|);
    if t != st { StopsWithin(e, t, k - 1); }
  }

  lemma {:induction false} OpenPairsBound(annexed: seq<set<int>>, m: nat)
    ensures OpenPairs(annexed, m) <= |annexed| * m
    decreases |annexed|
  {
    if annexed != [] {
      var n := |annexed| - 1;
      OpenPairsBound(annexed[..n], m);
      FirstInts(m);
      SubsetSize(Open(annexed[n], m), Open({}, m));
      assert |annexed| * m == n * m + m;
    }
  }

  lemma {:induction false} FirstInts(m: nat)
    ensures |Open({}, m)| == m
    decreases m
  {
    if m > 0 {
      FirstInts(m - 1);
      assert Open({}, m) == Open({}, m - 1) + {m - 1};
    } else {
      assert Open({}, 0) == {};
    }
  }

  /** More sweeps than map points, or in overlap mode than pairs of candidate and superpoint, always
      suffice: the sweeping stops by itself and nothing is left to do. */
  lemma SweepsSuffice(e: Field, st: Snap, k: nat)
    requires FieldOk(e) && AllInRange(st)
    requires k > if e.gp.overlap then |st.cand| * |e.sps| else |e.cloud|
    ensures Converged(e, st, k) && AllSettled(e, GrownBy(e, st, k))
  {
    hide Settled, OpenPairs;
    if e.gp.overlap {
      OpenPairsBound(st.annexed, |e.sps|);
    } else {
      FirstInts(|e.cloud|);
      assert FreePoints(e.cloud, st.owner) <= Open({}, |e.cloud|);
      SubsetSize(FreePoints(e.cloud, st.owner), Open({}, |e.cloud|));
    }
    StopsWithin(e, st, k);
    SettledIffConverged(e, st, k);
  }

  // ---------- overlap mode: who annexes ----------

  /** Candidate ci, not yet reached by the visit, is as it was. */
  lemma {:induction false} Untouched(e: Field, st: Snap, list0: seq<Seed>, owner0: seq<int>, si: int, n: nat, ci: int)
    requires FieldOk(e) && AllInRange(st) && Sound(e, list0, owner0, st) && 0 <= si < |e.sps| && n <= ci < |st.cand|
    ensures var t := Offered(e, st, si, n);
            t.cand[ci] == st.cand[ci] && t.annexed[ci] == st.annexed[ci] && t.list[t.cand[ci].oid] == st.list[st.cand[ci].oid]
    decreases n
  {
    hide AffAt, FieldOk, Grown, AnnexedInto, VoxOf, BoxOf;
    if n > 0 {
      Untouched(e, st, list0, owner0, si, n - 1, ci);
      var t := Offered(e, st, si, n - 1);
      OfferedKeeps(e, list0, owner0, st, si, n - 1);
      assert t.cand[n - 1].oid < t.cand[ci].oid && InRange(t, n - 1) && InRange(t, ci);
      OthersAfter(e, t, n - 1, si);
    }
  }

  /** A visit judges every candidate by its affinity before the visit: whatever the others annexed,
      candidate n-1 annexes the superpoint exactly when it reaches the bar and has not done so. */
  lemma OfferedJudges(e: Field, st: Snap, list0: seq<Seed>, owner0: seq<int>, si: int, n: nat)
    requires FieldOk(e) && AllInRange(st) && Sound(e, list0, owner0, st) && 0 <= si < |e.sps| && 0 < n <= |st.cand|
    requires e.gp.overlap && e.sps[si].points != []
    ensures var t := Offered(e, st, si, n - 1);
            Offered(e, st, si, n) != t <==> AffAt(e, st, n - 1, si) >= e.gp.thresh && si !in st.annexed[n - 1]
  {
    hide FieldOk, CandOk, Grown, AnnexedInto;
    Untouched(e, st, list0, owner0, si, n - 1, n - 1);
    AnnexMoves(e, Offered(e, st, si, n - 1), n - 1, si);
  }
}
