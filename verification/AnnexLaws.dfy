/** What one visit to a superpoint does, in terms of points, owners and affinities. */
module AnnexLaws {
  import opened Basics
  import opened Growing
  import opened Growth

  // ---------- the points that are taken ----------

  /** tail holds exactly the points of pts that may be taken; without negative indices each unowned one
      once, in overlap mode all of them in order. */
  ghost predicate Taken(overlap: bool, owner: seq<int>, pts: seq<int>, tail: seq<int>) {
    && (forall g :: g in tail <==> MayTake(overlap, owner, pts, g))
    && (overlap ==> tail == pts)
    && (!overlap && (forall g | g in pts :: g >= 0) ==> Distinct(tail))
  }

  ghost predicate MayTake(overlap: bool, owner: seq<int>, pts: seq<int>, g: int) {
    g in pts && (overlap || OwnerOf(owner, g) == -1)
  }

  /** The proposal owns what it took; in overlap mode owners are left alone. */
  ghost predicate Owned(overlap: bool, owner: seq<int>, owner': seq<int>, tail: seq<int>, oid: int) {
    if overlap then owner' == owner
    else forall g :: OwnerOf(owner', g) == if g >= 0 && g in tail then oid else OwnerOf(owner, g)
  }

  lemma {:induction false} PointsTaken(e: Field, st: Snap, ci: int, pts: seq<int>) returns (tail: seq<int>)
    requires InRange(st, ci)
    ensures var (t, oid) := (PointsAnnexed(e, st, ci, pts), st.cand[ci].oid);
            && Taken(e.gp.overlap, st.owner, pts, tail) && Owned(e.gp.overlap, st.owner, t.owner, tail, oid)
            && t.list == st.list[oid := st.list[oid].(points := st.list[oid].points + tail)]
    decreases |pts|
  {
    hide CandWith, OwnerOf, ClaimedBy;
    var oid := st.cand[ci].oid;
    if pts == [] {
      tail := [];
      assert st.list[oid].points + [] == st.list[oid].points;
    } else {
      var (front, g) := (pts[..|pts| - 1], pts[|pts| - 1]);
      var before := PointsTaken(e, st, ci, front);
      var t := PointsAnnexed(e, st, ci, front);
      var refused := !e.gp.overlap && OwnerOf(t.owner, g) != -1;
      tail := if refused then before else before + [g];
      assert (st.list[oid].points + before) + [g] == st.list[oid].points + (before + [g]);
      OwnedMore(e.gp.overlap, st.owner, t.owner, before, oid, g);
      TakenMore(e.gp.overlap, st.owner, t.owner, front, before, oid, g);
      assert front + [g] == pts;
    }
  }

  lemma OwnedMore(overlap: bool, owner: seq<int>, owner': seq<int>, tail: seq<int>, oid: int, g: int)
    requires Owned(overlap, owner, owner', tail, oid)
    ensures !overlap ==> Owned(overlap, owner, ClaimedBy(owner', g, oid), tail + [g], oid)
    ensures overlap ==> Owned(overlap, owner, owner', tail + [g], oid)
  {
    hide OwnerOf;
    if !overlap {
      var now := ClaimedBy(owner', g, oid);
      ClaimedByAt(owner', g, oid);
      forall x ensures OwnerOf(now, x) == if x >= 0 && x in tail + [g] then oid else OwnerOf(owner, x) {
        assert x in tail + [g] <==> x in tail || x == g;
      }
    }
  }

  lemma TakenMore(overlap: bool, owner: seq<int>, owner': seq<int>, pts: seq<int>, tail: seq<int>, oid: int, g: int)
    requires Taken(overlap, owner, pts, tail) && Owned(overlap, owner, owner', tail, oid) && oid >= 0
    ensures Taken(overlap, owner, pts + [g], if !overlap && OwnerOf(owner', g) != -1 then tail else tail + [g])
  {
    var more := if !overlap && OwnerOf(owner', g) != -1 then tail else tail + [g];
    forall x ensures x in more <==> MayTake(overlap, owner, pts + [g], x) {
      assert x in tail + [g] <==> x in tail || x == g;
      assert x in pts + [g] <==> x in pts || x == g;
      NegativeUnowned(owner, x);
      assert x in tail <==> MayTake(overlap, owner, pts, x);
    }
    if !overlap && forall x | x in pts + [g] :: x >= 0 {
      assert g in pts + [g] && forall x | x in pts :: x in pts + [g];
      if more != tail { assert g !in tail; }
    }
  }

  lemma NegativeUnowned(owner: seq<int>, x: int)
    ensures x < 0 ==> OwnerOf(owner, x) == -1
  {
  }

  // ---------- one superpoint into one proposal ----------

  /** t is st after candidate ci's proposal took the points in tail, and with them, if there are any, the
      superpoint's instance ids and the mark for refreshing. */
  ghost predicate Gains(e: Field, st: Snap, t: Snap, ci: int, si: int, tail: seq<int>)
    requires InRange(st, ci) && 0 <= si < |e.sps|
  {
    var (oid, was) := (st.cand[ci].oid, st.list[st.cand[ci].oid]);
    && Taken(e.gp.overlap, st.owner, e.sps[si].points, tail) && Owned(e.gp.overlap, st.owner, t.owner, tail, oid)
    && (tail == [] ==> t.list == st.list && t.dirty == st.dirty)
    && (tail != [] ==> t.dirty == st.dirty + {oid})
    && (tail != [] ==>
          t.list == st.list[oid := was.(points := was.points + tail, instIds := was.instIds + e.sps[si].instIds)])
  }

  lemma AnnexGains(e: Field, st: Snap, ci: int, si: int) returns (tail: seq<int>)
    requires InRange(st, ci) && 0 <= si < |e.sps| && (e.gp.overlap ==> si !in st.annexed[ci])
    ensures Gains(e, st, AnnexedInto(e, st, ci, si), ci, si, tail)
  {
    hide PointsAnnexed, Taken, Owned;
    var st1 := if e.gp.overlap then st.(annexed := st.annexed[ci := st.annexed[ci] + {si}]) else st;
    tail := PointsTaken(e, st1, ci, e.sps[si].points);
    var (t, oid) := (PointsAnnexed(e, st1, ci, e.sps[si].points), st.cand[ci].oid);
    assert t.list[oid].points == st.list[oid].points + tail;
    if tail == [] {
      assert st.list[oid].points + [] == st.list[oid].points;
      assert t.list == st.list;
    } else {
      assert |t.list[oid].points| > |st.list[oid].points|;
    }
  }

  // ---------- one visit ----------

  /** What a superpoint needs to be visited at all: a class, a histogram, a point in the map, and in
      exclusive mode one that nobody owns. */
  ghost predicate Eligible(e: Field, st: Snap, s: Superpoint) {
    && s.classId >= 0 && s.hist != []
    && exists g :: g in s.points && 0 <= g < |e.cloud| && (e.gp.overlap || OwnerOf(st.owner, g) == -1)
  }

  lemma {:induction false} SomeVoxel(e: Field, pts: seq<int>)
    ensures VoxOf(e.cloud, e.v, pts) == {} <==> forall g | g in pts :: g < 0 || g >= |e.cloud|
    decreases |pts|
  {
    hide WorldMap.VoxelOf;
    if pts != [] {
      var (front, g) := (pts[..|pts| - 1], pts[|pts| - 1]);
      SomeVoxel(e, front);
      assert pts == front + [g];
      assert forall x :: x in pts <==> x in front || x == g;
      if InCloud(e.cloud, g) {
        HasOne(VoxOf(e.cloud, e.v, pts), WorldMap.VoxelOf(e.cloud[g], e.v));
        assert g in pts && 0 <= g < |e.cloud|;
      } else {
        assert VoxOf(e.cloud, e.v, pts) == VoxOf(e.cloud, e.v, front);
      }
    }
  }

  lemma HasOne<T>(s: set<T>, x: T)
    requires x in s
    ensures s != {}
  {
  }

  /** A superpoint that lacks one of these is passed over. */
  lemma PassedOver(e: Field, st: Snap, si: int)
    requires FieldOk(e) && AllInRange(st) && 0 <= si < |e.sps| && !Eligible(e, st, e.sps[si])
    ensures Visited(e, st, si) == st
  {
    hide FieldOk, AllInRange, Offered, BestAmong, AnnexedInto, VoxOf;
    SomeVoxel(e, e.sps[si].points);
  }

  /** Exclusive mode: the last of the candidates of highest affinity at the bar gains every point that
      nobody owned; without a candidate at the bar nothing happens. */
  lemma ExclusiveVisit(e: Field, st: Snap, si: int, ci: int) returns (tail: seq<int>)
    requires FieldOk(e) && AllInRange(st) && 0 <= si < |e.sps| && !e.gp.overlap && Eligible(e, st, e.sps[si])
    ensures (forall k | 0 <= k < |st.cand| :: AffAt(e, st, k, si) < e.gp.thresh) ==> Visited(e, st, si) == st
    ensures 0 <= ci < |st.cand| && AffAt(e, st, ci, si) >= e.gp.thresh &&
            (forall k | 0 <= k < ci :: AffAt(e, st, k, si) <= AffAt(e, st, ci, si)) &&
            (forall k | ci < k < |st.cand| :: AffAt(e, st, k, si) < AffAt(e, st, ci, si)) ==>
            Gains(e, st, Visited(e, st, si), ci, si, tail) && tail != []
  {
    hide FieldOk, AffAt, BestAmong, AnnexedInto, VoxOf, Gains;
    tail := [];
    SomeVoxel(e, e.sps[si].points);
    BestIsBest(e, st, si, |st.cand|);
    var b := BestAmong(e, st, si, |st.cand|);
    if b >= 0 {
      assert InRange(st, b);
      tail := AnnexGains(e, st, b, si);
      SomethingTaken(e, st, b, si, tail);
    }
  }

  lemma SomethingTaken(e: Field, st: Snap, ci: int, si: int, tail: seq<int>)
    requires InRange(st, ci) && 0 <= si < |e.sps| && Eligible(e, st, e.sps[si])
    requires Gains(e, st, AnnexedInto(e, st, ci, si), ci, si, tail)
    ensures tail != []
  {
    hide AnnexedInto, Owned;
    var g :| g in e.sps[si].points && 0 <= g < |e.cloud| && (e.gp.overlap || OwnerOf(st.owner, g) == -1);
    assert MayTake(e.gp.overlap, st.owner, e.sps[si].points, g);
  }

  // ---------- which proposals are refreshed ----------

  /** From a to b the proposals that grew were marked, and no others. */
  ghost predicate Marked(a: Snap, b: Snap) {
    && |a.list| == |b.list| && (forall k | 0 <= k < |a.list| :: GrewIffMarked(a, b, k))
    && forall k | k < 0 || k >= |a.list| :: k in b.dirty <==> k in a.dirty
  }

  ghost predicate GrewIffMarked(a: Snap, b: Snap, k: int)
    requires 0 <= k < |a.list| == |b.list|
  {
    && |a.list[k].points| <= |b.list[k].points|
    && (k in b.dirty <==> k in a.dirty || |a.list[k].points| < |b.list[k].points|)
  }

  lemma MarkedTwice(a: Snap, b: Snap, c: Snap)
    requires Marked(a, b) && Marked(b, c)
    ensures Marked(a, c)
  {
    forall k | 0 <= k < |a.list| ensures GrewIffMarked(a, c, k) { assert GrewIffMarked(a, b, k) && GrewIffMarked(b, c, k); }
  }

  lemma GainsMark(e: Field, st: Snap, t: Snap, ci: int, si: int, tail: seq<int>)
    requires InRange(st, ci) && 0 <= si < |e.sps| && Gains(e, st, t, ci, si, tail)
    ensures Marked(st, t)
  {
    hide Taken, Owned;
    var oid := st.cand[ci].oid;
    if tail != [] {
      assert |t.list[oid].points| > |st.list[oid].points|;
      forall k | 0 <= k < |st.list| ensures GrewIffMarked(st, t, k) {}
    }
  }

  lemma AnnexMarks(e: Field, st: Snap, ci: int, si: int)
    requires InRange(st, ci) && 0 <= si < |e.sps|
    ensures Marked(st, AnnexedInto(e, st, ci, si))
  {
    hide PointsAnnexed, Gains;
    if !e.gp.overlap || si !in st.annexed[ci] {
      var tail := AnnexGains(e, st, ci, si);
      GainsMark(e, st, AnnexedInto(e, st, ci, si), ci, si, tail);
    }
  }

  lemma {:induction false} OfferMarks(e: Field, st: Snap, si: int, n: nat)
    requires FieldOk(e) && AllInRange(st) && 0 <= si < |e.sps| && n <= |st.cand|
    ensures Marked(st, Offered(e, st, si, n))
    decreases n
  {
    hide FieldOk, AffAt, AnnexedInto, Marked;
    if n == 0 {
      NoneMarked(st);
    } else {
      OfferMarks(e, st, si, n - 1);
      var t := Offered(e, st, si, n - 1);
      if AffAt(e, t, n - 1, si) >= e.gp.thresh {
        assert InRange(t, n - 1);
        AnnexMarks(e, t, n - 1, si);
        MarkedTwice(st, t, AnnexedInto(e, t, n - 1, si));
      }
    }
  }

  lemma NoneMarked(st: Snap)
    ensures Marked(st, st)
  {
  }

  lemma VisitMarks(e: Field, st: Snap, si: int)
    requires FieldOk(e) && AllInRange(st) && 0 <= si < |e.sps|
    ensures Marked(st, Visited(e, st, si))
  {
    hide FieldOk, Offered, BestAmong, AnnexedInto, VoxOf, HasFree, Marked;
    NoneMarked(st);
    OfferMarks(e, st, si, |st.cand|);
    var b := BestAmong(e, st, si, |st.cand|);
    if b >= 0 {
      assert InRange(st, b);
      AnnexMarks(e, st, b, si);
    }
  }

  lemma {:induction false} SweepMarks(e: Field, st: Snap, n: nat)
    requires FieldOk(e) && AllInRange(st) && n <= |e.sps|
    ensures Marked(st, Swept(e, st, n))
    decreases n
  {
    hide FieldOk, AllInRange, Visited, Marked;
    NoneMarked(st);
    if n > 0 {
      SweepMarks(e, st, n - 1);
      var t := Swept(e, st, n - 1);
      VisitMarks(e, t, n - 1);
      MarkedTwice(st, t, Visited(e, t, n - 1));
    }
  }

  /** Exactly the proposals that gained a point in some sweep are marked for refreshing. */
  lemma {:induction false} GrowingMarks(e: Field, st: Snap, k: nat)
    requires FieldOk(e) && AllInRange(st)
    ensures Marked(st, GrownBy(e, st, k))
    decreases k
  {
    hide FieldOk, AllInRange, Swept, Marked;
    NoneMarked(st);
    if k > 0 {
      var t := Swept(e, st, |e.sps|);
      SweepMarks(e, st, |e.sps|);
      if t != st {
        GrowingMarks(e, t, k - 1);
        MarkedTwice(st, t, GrownBy(e, t, k - 1));
      }
    }
  }
}
