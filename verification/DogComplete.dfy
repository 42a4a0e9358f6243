/** Completeness of a replay: with sorted streams, a scan on each side of every chosen image, and
    room for the images between two scans, every chosen image is emitted, once and in order, with a
    scan nearest to it in the whole recording; and exactly when that scan is the earliest of them. */
module DogComplete {
  import opened Basics
  import opened PoseInterp
  import opened DogStream
  import opened DogReplay

  // ---------- what is asked of a recording ----------

  ghost predicate SortedRecording(rec: Recording) {
    && (forall i, j | 0 <= i <= j < |rec.scans| :: rec.scans[i].t <= rec.scans[j].t)
    && InOrder(rec.images)
  }

  /** Scan j is pushed. */
  ghost predicate IsPushed(rec: Recording, pl: Plan, j: int) {
    pl.lo <= j < |rec.scans| && rec.scans[j].t <= pl.hi
  }

  /** A pushed scan not after the first chosen image, and one not before the last. */
  ghost predicate Surrounded(rec: Recording, pl: Plan)
    requires PlanOk(rec, pl)
  {
    && IsPushed(rec, pl, pl.lo) && rec.scans[pl.lo].t <= rec.images[pl.start].t
    && exists j :: IsPushed(rec, pl, j) && CoversAll(rec, pl, j)
  }

  ghost predicate CoversAll(rec: Recording, pl: Plan, j: int)
    requires PlanOk(rec, pl) && 0 <= j < |rec.scans|
  {
    forall k | pl.start <= k < pl.end && Chosen(pl, k) :: rec.images[k].t <= rec.scans[j].t
  }

  /** Chosen images below ki strictly between two times. */
  function Between(rec: Recording, pl: Plan, a: int, b: int, ki: nat): nat
    requires PlanOk(rec, pl) && ki <= pl.end
  {
    if ki <= pl.start then 0
    else Between(rec, pl, a, b, ki - 1) + if Chosen(pl, ki - 1) && a < rec.images[ki - 1].t < b then 1 else 0
  }

  /** The queue has room for the chosen images between any two consecutive scans. */
  ghost predicate Roomy(rec: Recording, pl: Plan, lim: Limits)
    requires PlanOk(rec, pl)
  {
    forall j | 0 < j < |rec.scans| :: Between(rec, pl, rec.scans[j - 1].t, rec.scans[j].t, pl.end) <= lim.pending
  }

  // ---------- the scan an image gets ----------

  /** How many scans are not after t. */
  function UpTo(scans: seq<Scan>, t: int): (n: nat)
    ensures n <= |scans|
  {
    if scans == [] then 0 else if scans[|scans| - 1].t <= t then |scans| else UpTo(scans[..|scans| - 1], t)
  }

  /** How many scans of the recording come no later than the one that lets an image at t be placed: those
      up to t when one is at t, else the next one too. */
  function PlacedAt(scans: seq<Scan>, t: int): nat {
    var n := UpTo(scans, t);
    if n > 0 && scans[n - 1].t == t then n else n + 1
  }

  /** The first of them still in the ring. */
  function RingStart(rec: Recording, pl: Plan, lim: Limits, t: int): nat {
    var y := PlacedAt(rec.scans, t);
    if y <= pl.lo + lim.ring then pl.lo else y - lim.ring
  }

  /** An image at t meets a ring that holds a scan on either side of it. */
  ghost predicate Placeable(rec: Recording, pl: Plan, lim: Limits, t: int) {
    var x, y := RingStart(rec, pl, lim, t), PlacedAt(rec.scans, t);
    && x < y <= |rec.scans| && t <= rec.scans[y - 1].t
    && (t < rec.scans[y - 1].t ==> x < y - 1 && rec.scans[y - 2].t < t)
  }

  /** The scan the ring yields then, as an index into the recording. */
  function Given(rec: Recording, pl: Plan, lim: Limits, t: int): int {
    var x, y := RingStart(rec, pl, lim, t), PlacedAt(rec.scans, t);
    if x < y <= |rec.scans| then x + NearestScan(rec.scans[x..y], t) else -1
  }

  /** The image was emitted with its own bracketing pose and the scan the ring yields. */
  ghost predicate Delivered(rec: Recording, pl: Plan, lim: Limits, img: Image, fate: Fate) {
    && fate.Emitted? && FrameOk(fate.f, img) && Placeable(rec, pl, lim, img.t)
    && Gets(rec, pl, lim, img.t, fate.f.scan)
  }

  ghost predicate Gets(rec: Recording, pl: Plan, lim: Limits, t: int, scan: Option<Scan>) {
    var g := Given(rec, pl, lim, t);
    0 <= g < |rec.scans| && scan == Some(rec.scans[g])
  }

  ghost predicate AllDelivered(rec: Recording, pl: Plan, lim: Limits, st: Stream) {
    |st.fates| <= |st.fed| && forall i | 0 <= i < |st.fates| :: Delivered(rec, pl, lim, st.fed[i], st.fates[i])
  }

  /** Scan g is at the least distance from t. */
  ghost predicate AsNearAsAny(rec: Recording, t: int, g: int) {
    0 <= g < |rec.scans| && forall i | 0 <= i < |rec.scans| :: Abs(rec.scans[g].t - t) <= Abs(rec.scans[i].t - t)
  }

  /** The nearest of a ring with a scan on either side of t is as near as any scan of the recording. */
  lemma RingNearest(rec: Recording, x: nat, y: nat, a: nat, t: int)
    requires SortedRecording(rec) && x <= a < y <= |rec.scans| && rec.scans[a].t <= t <= rec.scans[y - 1].t
    ensures AsNearAsAny(rec, t, x + NearestScan(rec.scans[x..y], t))
  {
    hide NearestScan;
    var ring := rec.scans[x..y];
    NearestIsNearest(ring, t);
    var g := x + NearestScan(ring, t);
    assert ring[g - x] == rec.scans[g];
    assert ring[a - x] == rec.scans[a] && ring[y - 1 - x] == rec.scans[y - 1];
    forall i | 0 <= i < |rec.scans| ensures Abs(rec.scans[g].t - t) <= Abs(rec.scans[i].t - t) {
      if i < x {
        assert rec.scans[i].t <= rec.scans[a].t <= t;
      } else if i < y {
        assert ring[i - x] == rec.scans[i];
      } else {
        assert t <= rec.scans[y - 1].t <= rec.scans[i].t;
      }
    }
  }

  /** Nearest in the ring is nearest in the whole recording. */
  lemma GivenIsNearest(rec: Recording, pl: Plan, lim: Limits, t: int)
    requires SortedRecording(rec) && Placeable(rec, pl, lim, t)
    ensures AsNearAsAny(rec, t, Given(rec, pl, lim, t))
  {
    hide RingStart, PlacedAt, SortedRecording, AsNearAsAny, NearestScan;
    var x, y := RingStart(rec, pl, lim, t), PlacedAt(rec.scans, t);
    RingNearest(rec, x, y, if t < rec.scans[y - 1].t then y - 2 else y - 1, t);
  }

  /** The tie rule over the whole recording, the earlier of two equally near scans, holds exactly when the
      earliest nearest scan is still in the ring as the image is placed. */
  lemma TieRuleIff(rec: Recording, pl: Plan, lim: Limits, t: int)
    requires SortedRecording(rec) && Placeable(rec, pl, lim, t)
    ensures IsNearest(rec.scans, t, Given(rec, pl, lim, t)) <==> NearestScan(rec.scans, t) >= RingStart(rec, pl, lim, t)
  {
    hide RingStart, PlacedAt, Placeable;
    GivenIsNearest(rec, pl, lim, t);
    NearestIsNearest(rec.scans, t);
    var first, g := NearestScan(rec.scans, t), Given(rec, pl, lim, t);
    GivenIsFirst(rec, pl, lim, t);
    assert first <= g;
    if first >= RingStart(rec, pl, lim, t) { assert Abs(rec.scans[first].t - t) <= Abs(rec.scans[g].t - t); }
    if IsNearest(rec.scans, t, g) { assert g == first; }
  }

  /** No earlier scan of the ring is as near. */
  lemma GivenIsFirst(rec: Recording, pl: Plan, lim: Limits, t: int)
    requires Placeable(rec, pl, lim, t)
    ensures var x, g := RingStart(rec, pl, lim, t), Given(rec, pl, lim, t);
            x <= g < |rec.scans| && forall i | x <= i < g :: Abs(rec.scans[g].t - t) < Abs(rec.scans[i].t - t)
  {
    hide RingStart, PlacedAt;
    var x, y := RingStart(rec, pl, lim, t), PlacedAt(rec.scans, t);
    var ring := rec.scans[x..y];
    NearestIsNearest(ring, t);
    var g := Given(rec, pl, lim, t);
    assert ring[g - x] == rec.scans[g];
    forall i | x <= i < g ensures Abs(rec.scans[g].t - t) < Abs(rec.scans[i].t - t) { assert ring[i - x] == rec.scans[i]; }
  }

  lemma {:induction false} UpToIs(scans: seq<Scan>, t: int, n: nat)
    requires n <= |scans| && (n > 0 ==> scans[n - 1].t <= t) && forall i | n <= i < |scans| :: scans[i].t > t
    ensures UpTo(scans, t) == n
    decreases |scans|
  {
    if n < |scans| { UpToIs(scans[..|scans| - 1], t, n); }
  }

  // ---------- the state along the walk ----------

  /** The merge order so far: scans before the next image, consumed images before the next scan. */
  ghost predicate Merged(rec: Recording, pl: Plan, si: nat, ki: nat)
    requires PlanOk(rec, pl)
  {
    && pl.lo <= si <= |rec.scans| && pl.start <= ki <= pl.end
    && (si > pl.lo && ki < pl.end ==> rec.scans[si - 1].t <= rec.images[ki].t)
    && (HaveScan(rec, pl, si) ==> forall k | pl.start <= k < ki :: rec.images[k].t < rec.scans[si].t)
    && (si == pl.lo ==> ki == pl.start)
    && (si > pl.lo ==> rec.scans[si - 1].t <= pl.hi)
  }

  ghost predicate OnTrack(rec: Recording, pl: Plan, lim: Limits, st: Stream, si: nat, ki: nat)
    requires PlanOk(rec, pl)
  {
    && Merged(rec, pl, si, ki) && StreamOk(st, lim)
    && st.fed == Selected(rec, pl, ki)
    && st.scans == Newest(rec.scans[pl.lo..si], lim.ring)
    && (if si == pl.lo then st == FRESH else st.buf != [] && st.buf[|st.buf| - 1].t == rec.scans[si - 1].t)
    && AllDelivered(rec, pl, lim, st)
  }

  lemma {:induction false} SelectedFrom(rec: Recording, pl: Plan, ki: nat, i: int)
    requires PlanOk(rec, pl) && pl.start <= ki <= pl.end && 0 <= i < |Selected(rec, pl, ki)|
    ensures exists k :: pl.start <= k < ki && Chosen(pl, k) && rec.images[k] == Selected(rec, pl, ki)[i]
    decreases ki
  {
    if ki > pl.start && i < |Selected(rec, pl, ki - 1)| {
      SelectedFrom(rec, pl, ki - 1, i);
      var k :| pl.start <= k < ki - 1 && Chosen(pl, k) && rec.images[k] == Selected(rec, pl, ki - 1)[i];
      assert pl.start <= k < ki && rec.images[k] == Selected(rec, pl, ki)[i];
    } else if ki > pl.start {
      assert Chosen(pl, ki - 1) && rec.images[ki - 1] == Selected(rec, pl, ki)[i];
    }
  }

  lemma {:induction false} SelectedInOrder(rec: Recording, pl: Plan, ki: nat)
    requires SortedRecording(rec) && PlanOk(rec, pl) && pl.start <= ki <= pl.end
    ensures InOrder(Selected(rec, pl, ki))
    ensures forall i | 0 <= i < |Selected(rec, pl, ki)| && ki < pl.end :: Selected(rec, pl, ki)[i].t <= rec.images[ki].t
    decreases ki
  {
    if ki > pl.start {
      SelectedInOrder(rec, pl, ki - 1);
      forall i | 0 <= i < |Selected(rec, pl, ki)| && ki < pl.end ensures Selected(rec, pl, ki)[i].t <= rec.images[ki].t {
        SelectedFrom(rec, pl, ki, i);
      }
    }
  }

  lemma {:induction false} SuffixCounted(rec: Recording, pl: Plan, a: int, b: int, ki: nat, m: nat)
    requires PlanOk(rec, pl) && pl.start <= ki <= pl.end && m <= |Selected(rec, pl, ki)|
    requires forall i | |Selected(rec, pl, ki)| - m <= i < |Selected(rec, pl, ki)| :: a < Selected(rec, pl, ki)[i].t < b
    ensures m <= Between(rec, pl, a, b, ki)
    decreases ki
  {
    if ki > pl.start && m > 0 {
      var sel, less := Selected(rec, pl, ki), Selected(rec, pl, ki - 1);
      if Chosen(pl, ki - 1) {
        assert sel[|sel| - 1] == rec.images[ki - 1];
        forall i | |less| - (m - 1) <= i < |less| ensures a < less[i].t < b { assert sel[i] == less[i]; }
        SuffixCounted(rec, pl, a, b, ki - 1, m - 1);
      } else {
        assert sel == less;
        SuffixCounted(rec, pl, a, b, ki - 1, m);
      }
    }
  }

  lemma {:induction false} BetweenGrows(rec: Recording, pl: Plan, a: int, b: int, ki: nat, kj: nat)
    requires PlanOk(rec, pl) && ki <= kj <= pl.end
    ensures Between(rec, pl, a, b, ki) <= Between(rec, pl, a, b, kj)
    decreases kj
  {
    if ki < kj { BetweenGrows(rec, pl, a, b, ki, kj - 1); }
  }

  lemma NewestOfMore<T>(s: seq<T>, n: nat, x: T)
    requires n >= 1
    ensures Newest(Newest(s, n) + [x], n) == Newest(s + [x], n)
  {
  }

  /** Waiting images are newer than the last scan and older than the next one. */
  lemma PendingBetween(rec: Recording, pl: Plan, lim: Limits, st: Stream, si: nat, ki: nat, i: int)
    requires SortedRecording(rec) && PlanOk(rec, pl) && OnTrack(rec, pl, lim, st, si, ki) && 0 <= i < |st.pending|
    ensures si > pl.lo && rec.scans[si - 1].t < st.pending[i].t
    ensures HaveScan(rec, pl, si) ==> st.pending[i].t < rec.scans[si].t
    ensures exists k :: pl.start <= k < ki && Chosen(pl, k) && rec.images[k] == st.pending[i]
  {
    hide AllDelivered;
    assert si > pl.lo;
    SelectedInOrder(rec, pl, ki);
    assert st.pending[0] == st.fed[|st.fates|] && st.pending[i] == st.fed[|st.fates| + i];
    SelectedFrom(rec, pl, ki, |st.fates| + i);
  }

  /** All waiting images can be placed: they leave, each delivered. */
  lemma {:induction false} DrainDelivers(rec: Recording, pl: Plan, lim: Limits, st: Stream)
    requires Rising(st.buf) && HistoryOk(st) && AllDelivered(rec, pl, lim, st)
    requires forall p | p in st.pending :: Ready(rec, pl, lim, st, p)
    ensures Drained(st, false).pending == [] && AllDelivered(rec, pl, lim, Drained(st, false))
    decreases |st.pending|
  {
    hide Verdict, Gets, FrameOk, ScanFor, Placeable;
    if st.pending != [] {
      var img := st.pending[0];
      assert img in st.pending;
      VerdictOk(st.buf, st.scans, img, false);
      var fate := Verdict(st.buf, st.scans, img, false).v;
      var next := Leaves(st, fate);
      LeavesOk(st, fate);
      assert img == st.fed[|st.fates|];
      forall i | 0 <= i < |next.fates| ensures Delivered(rec, pl, lim, next.fed[i], next.fates[i]) {
        if i < |st.fates| { assert Delivered(rec, pl, lim, st.fed[i], st.fates[i]) && next.fates[i] == st.fates[i]; }
      }
      forall p | p in next.pending ensures p in st.pending && Ready(rec, pl, lim, next, p) { assert Ready(rec, pl, lim, st, p); }
      DrainDelivers(rec, pl, lim, next);
    }
  }

  /** The image can be placed, and the ring is the one it is to meet. */
  ghost predicate Ready(rec: Recording, pl: Plan, lim: Limits, st: Stream, p: Image) {
    && st.buf != [] && st.buf[0].t <= p.t <= st.buf[|st.buf| - 1].t
    && Placeable(rec, pl, lim, p.t) && Gets(rec, pl, lim, p.t, ScanFor(st.scans, p.t))
  }

  /** The ring after scan y-1 is the one an image placed by that scan meets. */
  lemma RingGives(rec: Recording, pl: Plan, lim: Limits, scans: seq<Scan>, y: nat, t: int)
    requires SortedRecording(rec) && pl.lo < y <= |rec.scans| && lim.ring >= 2
    requires scans == Newest(rec.scans[pl.lo..y], lim.ring)
    requires if t == rec.scans[y - 1].t then y == |rec.scans| || t < rec.scans[y].t
             else y - 1 > pl.lo && rec.scans[y - 2].t < t < rec.scans[y - 1].t
    ensures Placeable(rec, pl, lim, t) && Gets(rec, pl, lim, t, ScanFor(scans, t))
  {
    hide PlacedAt, NearestScan, SortedRecording, Newest;
    PlacedIs(rec, y, t);
    var x := RingStart(rec, pl, lim, t);
    NewestFrom(rec.scans, pl.lo, y, lim.ring);
    assert scans == rec.scans[x..y];
  }

  lemma NewestFrom<T>(s: seq<T>, lo: nat, y: nat, n: nat)
    requires lo < y <= |s|
    ensures Newest(s[lo..y], n) == s[if y <= lo + n then lo else y - n..y]
  {
  }

  lemma PlacedIs(rec: Recording, y: nat, t: int)
    requires SortedRecording(rec) && 0 < y <= |rec.scans|
    requires if t == rec.scans[y - 1].t then y == |rec.scans| || t < rec.scans[y].t
             else y > 1 && rec.scans[y - 2].t < t < rec.scans[y - 1].t
    ensures PlacedAt(rec.scans, t) == y
  {
    hide UpTo;
    UpToIs(rec.scans, t, if t == rec.scans[y - 1].t then y else y - 1);
  }

  // ---------- one scan ----------

  lemma ScanOnTrack(rec: Recording, pl: Plan, lim: Limits, st: Stream, si: nat, ki: nat)
    requires RecordingOk(rec) && SortedRecording(rec) && PlanOk(rec, pl) && LimitsOk(lim) && lim.ring >= 2
    requires OnTrack(rec, pl, lim, st, si, ki) && HaveScan(rec, pl, si)
    requires ki >= pl.end || rec.scans[si].t <= rec.images[ki].t
    ensures OnTrack(rec, pl, lim, ScanPushed(st, lim, rec.scans[si], rec.poses[si]), si + 1, ki)
  {
    hide AllDelivered, Drained, StreamOk, Pushed, Merged, HistoryOk, HeadWaits, Newest, Rising;
    MergedScan(rec, pl, si, ki);
    LastBefore(rec, pl, lim, st, si, ki);
    var s := rec.scans[si];
    var buf := Pushed(st.buf, lim.poses, Sample(s.t, rec.poses[si]));
    var scans := Newest(st.scans + [s], lim.ring);
    var mid := st.(buf := buf, scans := scans);
    StreamParts(st, lim);
    StepOk(st, lim, OfScan(s, rec.poses[si]));
    PushedRising(st.buf, lim.poses, Sample(s.t, rec.poses[si]));
    NewestOfMore(rec.scans[pl.lo..si], lim.ring, s);
    assert rec.scans[pl.lo..si] + [s] == rec.scans[pl.lo..si + 1];
    LastIsNew(st.buf, lim.poses, Sample(s.t, rec.poses[si]));
    HistoryParts(st, mid);
    DrainedOk(mid, false);
    MidDelivered(rec, pl, lim, st, mid, si, ki);
    DrainDelivers(rec, pl, lim, mid);
  }

  lemma MergedScan(rec: Recording, pl: Plan, si: nat, ki: nat)
    requires SortedRecording(rec) && PlanOk(rec, pl) && Merged(rec, pl, si, ki) && HaveScan(rec, pl, si)
    requires ki >= pl.end || rec.scans[si].t <= rec.images[ki].t
    ensures Merged(rec, pl, si + 1, ki) && pl.lo <= si
  {
  }

  lemma LastBefore(rec: Recording, pl: Plan, lim: Limits, st: Stream, si: nat, ki: nat)
    requires SortedRecording(rec) && PlanOk(rec, pl) && OnTrack(rec, pl, lim, st, si, ki) && HaveScan(rec, pl, si)
    ensures st.buf != [] ==> st.buf[|st.buf| - 1].t <= rec.scans[si].t && si > pl.lo
  {
    hide StreamOk, AllDelivered;
  }

  lemma StreamParts(st: Stream, lim: Limits)
    requires StreamOk(st, lim)
    ensures Rising(st.buf) && HistoryOk(st) && HeadWaits(st) && |st.buf| <= lim.poses && |st.pending| <= lim.pending
  {
  }

  lemma HistoryParts(st: Stream, st': Stream)
    requires HistoryOk(st) && st'.pending == st.pending && st'.fed == st.fed && st'.fates == st.fates
    ensures HistoryOk(st')
  {
  }

  lemma LastIsNew(buf: seq<Sample>, max: nat, s: Sample)
    requires Rising(buf) && max >= 2 && (buf != [] ==> s.t >= buf[|buf| - 1].t)
    ensures var b := Pushed(buf, max, s); b != [] && b[|b| - 1].t == s.t && (buf != [] ==> b[0].t <= buf[|buf| - 1].t)
  {
    if buf != [] { LastStays(buf, max, s); }
  }

  /** The state with the new pose and scan, before draining, can place all that waits. */
  lemma MidDelivered(rec: Recording, pl: Plan, lim: Limits, st: Stream, mid: Stream, si: nat, ki: nat)
    requires RecordingOk(rec) && SortedRecording(rec) && PlanOk(rec, pl) && LimitsOk(lim) && lim.ring >= 2
    requires OnTrack(rec, pl, lim, st, si, ki) && HaveScan(rec, pl, si)
    requires mid.fed == st.fed && mid.fates == st.fates && mid.pending == st.pending
    requires mid.scans == Newest(rec.scans[pl.lo..si + 1], lim.ring)
    requires mid.buf != [] && mid.buf[|mid.buf| - 1].t == rec.scans[si].t
    requires si > pl.lo ==> mid.buf[0].t <= rec.scans[si - 1].t
    ensures AllDelivered(rec, pl, lim, mid)
    ensures forall p | p in mid.pending :: Ready(rec, pl, lim, mid, p)
  {
    hide Gets, ScanFor, StreamOk, Delivered, Placeable;
    forall p | p in mid.pending ensures Ready(rec, pl, lim, mid, p) {
      var i :| 0 <= i < |st.pending| && st.pending[i] == p;
      PendingBetween(rec, pl, lim, st, si, ki, i);
      RingGives(rec, pl, lim, mid.scans, si + 1, p.t);
    }
  }

  // ---------- one image ----------

  /** Room is left for the image: what waits lies in one gap between scans. */
  lemma RoomLeft(rec: Recording, pl: Plan, lim: Limits, st: Stream, si: nat, ki: nat)
    requires SortedRecording(rec) && PlanOk(rec, pl) && Surrounded(rec, pl) && Roomy(rec, pl, lim) && LimitsOk(lim)
    requires OnTrack(rec, pl, lim, st, si, ki) && ki < pl.end && Chosen(pl, ki)
    requires si > pl.lo && rec.scans[si - 1].t < rec.images[ki].t
    requires HaveScan(rec, pl, si) ==> rec.images[ki].t < rec.scans[si].t
    ensures |st.pending| < lim.pending
  {
    hide AllDelivered, StreamOk;
    NextScan(rec, pl, si, ki);
    var a, b, m := rec.scans[si - 1].t, rec.scans[si].t, |st.pending|;
    var sel, more := Selected(rec, pl, ki), Selected(rec, pl, ki + 1);
    HistoryOf(st, lim);
    assert more == sel + [rec.images[ki]];
    forall i | |more| - (m + 1) <= i < |more| ensures a < more[i].t < b {
      if i < |sel| {
        PendingBetween(rec, pl, lim, st, si, ki, i - |st.fates|);
        assert more[i] == st.pending[i - |st.fates|];
      }
    }
    SuffixCounted(rec, pl, a, b, ki + 1, m + 1);
    BetweenGrows(rec, pl, a, b, ki + 1, pl.end);
  }

  lemma HistoryOf(st: Stream, lim: Limits)
    requires StreamOk(st, lim)
    ensures |st.fates| + |st.pending| == |st.fed| && st.pending == st.fed[|st.fates|..]
  {
  }

  /** A chosen image newer than the last pushed scan has another scan to come. */
  lemma NextScan(rec: Recording, pl: Plan, si: nat, ki: nat)
    requires SortedRecording(rec) && PlanOk(rec, pl) && Surrounded(rec, pl) && pl.lo < si <= |rec.scans|
    requires pl.start <= ki < pl.end && Chosen(pl, ki) && rec.scans[si - 1].t < rec.images[ki].t
    ensures HaveScan(rec, pl, si)
  {
    var j :| IsPushed(rec, pl, j) && CoversAll(rec, pl, j);
    assert rec.images[ki].t <= rec.scans[j].t;
    assert j >= si;
  }

  /** Nothing is pushed before the first scan. */
  lemma ScanFirst(rec: Recording, pl: Plan, lim: Limits, st: Stream, si: nat, ki: nat)
    requires PlanOk(rec, pl) && Surrounded(rec, pl) && OnTrack(rec, pl, lim, st, si, ki)
    requires ki < pl.end && (HaveScan(rec, pl, si) ==> rec.images[ki].t < rec.scans[si].t)
    ensures si > pl.lo && rec.scans[si - 1].t <= rec.images[ki].t
  {
    hide AllDelivered, StreamOk;
  }

  lemma ImageOnTrack(rec: Recording, pl: Plan, lim: Limits, st: Stream, si: nat, ki: nat)
    requires RecordingOk(rec) && SortedRecording(rec) && PlanOk(rec, pl) && LimitsOk(lim) && lim.ring >= 2
    requires Surrounded(rec, pl) && Roomy(rec, pl, lim) && OnTrack(rec, pl, lim, st, si, ki)
    requires ki < pl.end && Chosen(pl, ki) && (HaveScan(rec, pl, si) ==> rec.images[ki].t < rec.scans[si].t)
    ensures OnTrack(rec, pl, lim, ImagePushed(st, lim, rec.images[ki]), si, ki + 1)
  {
    hide AllDelivered, Drained, StreamOk, Surrounded, Roomy, Queued, HistoryOk, HeadWaits;
    var img := rec.images[ki];
    ScanFirst(rec, pl, lim, st, si, ki);
    StepOk(st, lim, OfImage(img));
    if img.t > rec.scans[si - 1].t { LaterImage(rec, pl, lim, st, si, ki); }
    else { ImageAtScan(rec, pl, lim, st, si, ki); }
  }

  /** The image is newer than the last scan: it waits. */
  lemma LaterImage(rec: Recording, pl: Plan, lim: Limits, st: Stream, si: nat, ki: nat)
    requires SortedRecording(rec) && PlanOk(rec, pl) && LimitsOk(lim) && Surrounded(rec, pl) && Roomy(rec, pl, lim)
    requires OnTrack(rec, pl, lim, st, si, ki) && ki < pl.end && Chosen(pl, ki)
    requires si > pl.lo && rec.scans[si - 1].t < rec.images[ki].t && (HaveScan(rec, pl, si) ==> rec.images[ki].t < rec.scans[si].t)
    ensures var z := ImagePushed(st, lim, rec.images[ki]);
            z.fed == st.fed + [rec.images[ki]] && z.buf == st.buf && z.scans == st.scans && AllDelivered(rec, pl, lim, z)
  {
    hide AllDelivered, Drained, StreamOk, Surrounded, Roomy;
    StreamParts(st, lim);
    RoomLeft(rec, pl, lim, st, si, ki);
    var mid := Queued(st, lim, rec.images[ki]);
    HeadStays(mid);
    SameFates(rec, pl, lim, st, mid);
  }

  /** The image has the last scan's time: nothing waits before it and it leaves at once. */
  lemma ImageAtScan(rec: Recording, pl: Plan, lim: Limits, st: Stream, si: nat, ki: nat)
    requires SortedRecording(rec) && PlanOk(rec, pl) && LimitsOk(lim)
    requires OnTrack(rec, pl, lim, st, si, ki) && ki < pl.end && Chosen(pl, ki)
    requires si > pl.lo && rec.scans[si - 1].t == rec.images[ki].t && lim.ring >= 2
    requires HaveScan(rec, pl, si) ==> rec.images[ki].t < rec.scans[si].t
    ensures var z := ImagePushed(st, lim, rec.images[ki]);
            z.fed == st.fed + [rec.images[ki]] && z.buf == st.buf && z.scans == st.scans && AllDelivered(rec, pl, lim, z)
  {
    hide AllDelivered, Drained, StreamOk, ScanFor, Gets, Placeable, Queued, HistoryOk, HeadWaits, Newest, SortedRecording;
    StreamParts(st, lim);
    NoneWaits(rec, pl, lim, st, si, ki);
    var mid := Queued(st, lim, rec.images[ki]);
    QueuedOk(st, lim, rec.images[ki]);
    QueuedAlone(st, lim, rec.images[ki]);
    SameFates(rec, pl, lim, st, mid);
    ExactScan(rec, pl, lim, st, si, ki);
    DrainedOk(mid, false);
    DrainDelivers(rec, pl, lim, mid);
  }

  lemma QueuedAlone(st: Stream, lim: Limits, img: Image)
    requires st.pending == []
    ensures Queued(st, lim, img) == st.(pending := [img], fed := st.fed + [img])
  {
    assert [] + [img] == [img];
  }

  lemma SameFates(rec: Recording, pl: Plan, lim: Limits, st: Stream, st': Stream)
    requires AllDelivered(rec, pl, lim, st) && st'.fates == st.fates && st.fed <= st'.fed
    ensures AllDelivered(rec, pl, lim, st')
  {
    hide Delivered;
  }

  lemma NoneWaits(rec: Recording, pl: Plan, lim: Limits, st: Stream, si: nat, ki: nat)
    requires SortedRecording(rec) && PlanOk(rec, pl) && OnTrack(rec, pl, lim, st, si, ki)
    requires ki < pl.end && si > pl.lo && rec.images[ki].t <= rec.scans[si - 1].t
    ensures st.pending == []
  {
    hide AllDelivered, StreamOk;
    if st.pending != [] {
      PendingBetween(rec, pl, lim, st, si, ki, 0);
      assert false;
    }
  }

  /** An image at the very time of the last scan meets the present ring. */
  lemma ExactScan(rec: Recording, pl: Plan, lim: Limits, st: Stream, si: nat, ki: nat)
    requires SortedRecording(rec) && PlanOk(rec, pl) && OnTrack(rec, pl, lim, st, si, ki) && lim.ring >= 2
    requires ki < pl.end && si > pl.lo && rec.scans[si - 1].t == rec.images[ki].t
    requires HaveScan(rec, pl, si) ==> rec.images[ki].t < rec.scans[si].t
    ensures var t := rec.images[ki].t; Placeable(rec, pl, lim, t) && Gets(rec, pl, lim, t, ScanFor(st.scans, t))
  {
    hide ScanFor, Gets, Placeable, StreamOk, AllDelivered;
    RingGives(rec, pl, lim, st.scans, si, rec.images[ki].t);
  }

  lemma SkipOnTrack(rec: Recording, pl: Plan, lim: Limits, st: Stream, si: nat, ki: nat)
    requires SortedRecording(rec) && PlanOk(rec, pl) && Surrounded(rec, pl) && OnTrack(rec, pl, lim, st, si, ki)
    requires ki < pl.end && !Chosen(pl, ki) && (HaveScan(rec, pl, si) ==> rec.images[ki].t < rec.scans[si].t)
    ensures OnTrack(rec, pl, lim, st, si, ki + 1)
  {
    hide AllDelivered, StreamOk;
    ScanFirst(rec, pl, lim, st, si, ki);
  }

  // ---------- the whole replay ----------

  ghost predicate Complete(rec: Recording, pl: Plan, lim: Limits, st: Stream)
    requires PlanOk(rec, pl)
  {
    st.pending == [] && st.fed == Selected(rec, pl, pl.end) && |st.fates| == |st.fed| && AllDelivered(rec, pl, lim, st)
  }

  lemma WalkEnds(rec: Recording, pl: Plan, lim: Limits, st: Stream, si: nat)
    requires SortedRecording(rec) && PlanOk(rec, pl) && Surrounded(rec, pl) && OnTrack(rec, pl, lim, st, si, pl.end)
    requires !HaveScan(rec, pl, si)
    ensures Complete(rec, pl, lim, st)
  {
    hide AllDelivered, StreamOk;
    HistoryOf(st, lim);
    if st.pending != [] {
      PendingBetween(rec, pl, lim, st, si, pl.end, 0);
      var k :| pl.start <= k < pl.end && Chosen(pl, k) && rec.images[k] == st.pending[0];
      NextScan(rec, pl, si, k);
      assert false;
    }
  }

  lemma {:induction false} WalkDelivers(rec: Recording, pl: Plan, lim: Limits, st: Stream, si: nat, ki: nat)
    requires RecordingOk(rec) && SortedRecording(rec) && PlanOk(rec, pl) && LimitsOk(lim) && lim.ring >= 2
    requires Surrounded(rec, pl) && Roomy(rec, pl, lim) && OnTrack(rec, pl, lim, st, si, ki)
    ensures Complete(rec, pl, lim, Play(st, lim, Walk(rec, pl, si, ki)))
    decreases |rec.scans| - si + pl.end - ki
  {
    hide OnTrack, Complete, Step, Surrounded, Roomy, SortedRecording, Chosen;
    TrackRange(rec, pl, lim, st, si, ki);
    if !HaveScan(rec, pl, si) && ki >= pl.end {
      WalkEnds(rec, pl, lim, st, si);
    } else if HaveScan(rec, pl, si) && (ki >= pl.end || rec.scans[si].t <= rec.images[ki].t) {
      var e := OfScan(rec.scans[si], rec.poses[si]);
      ScanOnTrack(rec, pl, lim, st, si, ki);
      StepIs(st, lim, e);
      WalkDelivers(rec, pl, lim, Step(st, lim, e), si + 1, ki);
      PlayMore(st, lim, e, Walk(rec, pl, si + 1, ki));
    } else if Chosen(pl, ki) {
      var e := OfImage(rec.images[ki]);
      ImageOnTrack(rec, pl, lim, st, si, ki);
      StepIs(st, lim, e);
      WalkDelivers(rec, pl, lim, Step(st, lim, e), si, ki + 1);
      PlayMore(st, lim, e, Walk(rec, pl, si, ki + 1));
    } else {
      SkipOnTrack(rec, pl, lim, st, si, ki);
      WalkDelivers(rec, pl, lim, st, si, ki + 1);
      assert [] + Walk(rec, pl, si, ki + 1) == Walk(rec, pl, si, ki + 1);
    }
  }

  lemma TrackRange(rec: Recording, pl: Plan, lim: Limits, st: Stream, si: nat, ki: nat)
    requires PlanOk(rec, pl) && OnTrack(rec, pl, lim, st, si, ki)
    ensures pl.lo <= si <= |rec.scans| && pl.start <= ki <= pl.end
  {
  }

  /** The replay of a whole recording into a fresh stream. */
  lemma ReplayComplete(rec: Recording, pl: Plan, lim: Limits)
    requires RecordingOk(rec) && SortedRecording(rec) && PlanOk(rec, pl) && LimitsOk(lim) && lim.ring >= 2
    requires Surrounded(rec, pl) && Roomy(rec, pl, lim)
    ensures Complete(rec, pl, lim, Drained(Play(FRESH, lim, Walk(rec, pl, pl.lo, pl.start)), true))
  {
    hide Surrounded, Roomy, Walk, Play;
    assert rec.scans[pl.lo..pl.lo] == [];
    WalkDelivers(rec, pl, lim, FRESH, pl.lo, pl.start);
  }

  /** What completeness says of the i-th selected image: it was emitted in its turn, with poses around it
      and a scan no other is nearer than; and that scan is the earliest of the nearest exactly when the
      earliest is still in the ring as the image is placed. */
  lemma CompleteMeans(rec: Recording, pl: Plan, lim: Limits, st: Stream, i: nat)
    requires SortedRecording(rec) && PlanOk(rec, pl) && Complete(rec, pl, lim, st) && i < |Selected(rec, pl, pl.end)|
    ensures |st.fates| == |Selected(rec, pl, pl.end)| && st.fates[i].Emitted?
    ensures var img, f := Selected(rec, pl, pl.end)[i], st.fates[i].f;
            var g := Given(rec, pl, lim, img.t);
            && FrameOk(f, img) && AsNearAsAny(rec, img.t, g) && f.scan == Some(rec.scans[g])
            && (IsNearest(rec.scans, img.t, g) <==> NearestScan(rec.scans, img.t) >= RingStart(rec, pl, lim, img.t))
  {
    hide Placeable, Given, RingStart, IsNearest, NearestScan, SortedRecording, FrameOk, AsNearAsAny;
    assert Delivered(rec, pl, lim, st.fed[i], st.fates[i]);
    var t := st.fed[i].t;
    GivenIsNearest(rec, pl, lim, t);
    TieRuleIff(rec, pl, lim, t);
  }

  /** When no two scans share a time the tie rule always holds. */
  lemma DistinctTimesKeepTheTie(rec: Recording, pl: Plan, lim: Limits, t: int)
    requires SortedRecording(rec) && Placeable(rec, pl, lim, t)
    requires forall i, j | 0 <= i < j < |rec.scans| :: rec.scans[i].t < rec.scans[j].t
    ensures NearestScan(rec.scans, t) >= RingStart(rec, pl, lim, t)
  {
    hide PlacedAt;
    var x, y := RingStart(rec, pl, lim, t), PlacedAt(rec.scans, t);
    NearestIsNearest(rec.scans, t);
    var a := if t < rec.scans[y - 1].t then y - 2 else y - 1;
    forall i | 0 <= i < x ensures Abs(rec.scans[a].t - t) < Abs(rec.scans[i].t - t) {
      assert rec.scans[i].t < rec.scans[a].t <= t;
    }
  }

  /** The guard band never cuts the nearest scan off: what a plan skips is farther than its first scan. */
  lemma GuardKeepsTheTie(rec: Recording, startImage: int, maxImages: int, stride: int, t: int)
    requires SortedRecording(rec) && !Idle(rec, startImage, maxImages, stride)
    requires var pl := PlanFor(rec, startImage, maxImages, stride);
             PlanOk(rec, pl) && pl.lo < |rec.scans| && rec.scans[pl.lo].t <= rec.images[pl.start].t <= t
    ensures NearestScan(rec.scans, t) >= PlanFor(rec, startImage, maxImages, stride).lo
  {
    var pl := PlanFor(rec, startImage, maxImages, stride);
    BandStarts(rec, rec.images[pl.start].t - GUARD_NS, 0);
    NearestIsNearest(rec.scans, t);
    forall i | 0 <= i < pl.lo ensures Abs(rec.scans[pl.lo].t - t) < Abs(rec.scans[i].t - t) {
      assert rec.scans[i].t < rec.scans[pl.lo].t <= t;
    }
  }

  lemma {:induction false} BandStarts(rec: Recording, from: int, i: nat)
    requires i <= |rec.scans|
    ensures forall j | i <= j < FirstScan(rec, from, i) :: rec.scans[j].t < from
    ensures FirstScan(rec, from, i) < |rec.scans| ==> rec.scans[FirstScan(rec, from, i)].t >= from
    decreases |rec.scans| - i
  {
    if i < |rec.scans| && rec.scans[i].t < from { BandStarts(rec, from, i + 1); }
  }

  /** A replay that breaks the tie rule: three scans and an image at one time, a ring of two.  The image
      is emitted with the second scan though the first is as near. */
  lemma EqualTimesLoseTheTie(rec: Recording, pose: Pose, lim: Limits)
    requires rec == Recording([Scan(0, 0), Scan(0, 1), Scan(0, 2)], [pose, pose, pose], [Image(0, 0)])
    requires LimitsOk(lim) && lim.ring == 2
    ensures var pl := PlanFor(rec, 0, -1, 1);
            PlanOk(rec, pl) && NearestScan(rec.scans, 0) == 0 &&
            var st := Drained(Play(FRESH, lim, Walk(rec, pl, pl.lo, pl.start)), true);
            |st.fates| == 1 && st.fates[0].Emitted? && st.fates[0].f.scan == Some(Scan(0, 1))
  {
    hide Walk, Play, Drained, Complete;
    var pl := PlanFor(rec, 0, -1, 1);
    BandStarts(rec, -GUARD_NS, 0);
    assert pl == Plan(0, 1, 1, 0, GUARD_NS);
    assert Selected(rec, pl, 1) == [Image(0, 0)] by { assert Chosen(pl, 0) && Selected(rec, pl, 0) == []; }
    assert IsPushed(rec, pl, 0) && CoversAll(rec, pl, 0);
    forall j | 0 < j < 3 ensures Between(rec, pl, rec.scans[j - 1].t, rec.scans[j].t, 1) == 0 {
      assert Between(rec, pl, rec.scans[j - 1].t, rec.scans[j].t, 0) == 0;
    }
    ReplayComplete(rec, pl, lim);
    var st := Drained(Play(FRESH, lim, Walk(rec, pl, pl.lo, pl.start)), true);
    CompleteMeans(rec, pl, lim, st, 0);
    PlacedIs(rec, 3, 0);
    GivenHere(rec, pl, lim);
  }

  lemma GivenHere(rec: Recording, pl: Plan, lim: Limits)
    requires rec.scans == [Scan(0, 0), Scan(0, 1), Scan(0, 2)] && pl.lo == 0 && lim.ring == 2 && PlacedAt(rec.scans, 0) == 3
    ensures Given(rec, pl, lim, 0) == 1 && NearestScan(rec.scans, 0) == 0
  {
    hide PlacedAt;
    var ring := rec.scans[1..3];
    assert ring == [Scan(0, 1), Scan(0, 2)];
    NearestIsNearest(ring, 0);
    NearestIsNearest(rec.scans, 0);
    assert Abs(ring[0].t - 0) == 0 && Abs(rec.scans[0].t - 0) == 0;
  }

  // ---------- the order of the pushes ----------

  function TimeOf(e: Event): int { match e case OfScan(s, _) => s.t case OfImage(i) => i.t case OfFlush => 0 }

  /** The event is one of the scans from si on, or one of the images from ki on. */
  ghost predicate StillToCome(rec: Recording, pl: Plan, si: nat, ki: nat, e: Event) {
    (exists j: nat :: ComingScan(rec, pl, si, j, e)) || (exists k: nat :: ComingImage(rec, pl, ki, k, e))
  }

  ghost predicate ComingScan(rec: Recording, pl: Plan, si: nat, j: nat, e: Event) {
    si <= j && HaveScan(rec, pl, j) && e.OfScan? && e.scan == rec.scans[j]
  }

  ghost predicate ComingImage(rec: Recording, pl: Plan, ki: nat, k: nat, e: Event) {
    ki <= k < pl.end && k < |rec.images| && e.OfImage? && e.img == rec.images[k]
  }

  lemma Later(rec: Recording, pl: Plan, si: nat, ki: nat, sj: nat, kj: nat, e: Event)
    requires StillToCome(rec, pl, sj, kj, e) && si <= sj && ki <= kj
    ensures StillToCome(rec, pl, si, ki, e)
  {
    if j: nat :| ComingScan(rec, pl, sj, j, e) { assert ComingScan(rec, pl, si, j, e); }
    if k: nat :| ComingImage(rec, pl, kj, k, e) { assert ComingImage(rec, pl, ki, k, e); }
  }

  lemma {:induction false} WalkEvents(rec: Recording, pl: Plan, si: nat, ki: nat, b: nat)
    requires RecordingOk(rec) && PlanOk(rec, pl) && si <= |rec.scans| && pl.start <= ki <= pl.end && b < |Walk(rec, pl, si, ki)|
    ensures StillToCome(rec, pl, si, ki, Walk(rec, pl, si, ki)[b])
    decreases |rec.scans| - si + pl.end - ki
  {
    hide StillToCome, Chosen;
    var w := Walk(rec, pl, si, ki);
    if HaveScan(rec, pl, si) && (ki >= pl.end || rec.scans[si].t <= rec.images[ki].t) {
      if b == 0 {
        IsScan(rec, pl, si, ki, w[0]);
      } else {
        WalkEvents(rec, pl, si + 1, ki, b - 1);
        Later(rec, pl, si, ki, si + 1, ki, w[b]);
      }
    } else if Chosen(pl, ki) {
      if b == 0 {
        IsImage(rec, pl, si, ki, w[0]);
      } else {
        WalkEvents(rec, pl, si, ki + 1, b - 1);
        Later(rec, pl, si, ki, si, ki + 1, w[b]);
      }
    } else {
      assert [] + Walk(rec, pl, si, ki + 1) == Walk(rec, pl, si, ki + 1);
      WalkEvents(rec, pl, si, ki + 1, b);
      Later(rec, pl, si, ki, si, ki + 1, w[b]);
    }
  }

  lemma IsScan(rec: Recording, pl: Plan, si: nat, ki: nat, e: Event)
    requires HaveScan(rec, pl, si) && e.OfScan? && e.scan == rec.scans[si]
    ensures StillToCome(rec, pl, si, ki, e)
  {
    assert ComingScan(rec, pl, si, si, e);
  }

  lemma IsImage(rec: Recording, pl: Plan, si: nat, ki: nat, e: Event)
    requires ki < pl.end && ki < |rec.images| && e.OfImage? && e.img == rec.images[ki]
    ensures StillToCome(rec, pl, si, ki, e)
  {
    assert ComingImage(rec, pl, ki, ki, e);
  }

  ghost predicate InTime(a: Event, b: Event) { TimeOf(a) <= TimeOf(b) && (TimeOf(a) == TimeOf(b) && b.OfScan? ==> a.OfScan?) }

  lemma FirstIsEarliest(rec: Recording, pl: Plan, si: nat, ki: nat, a: Event, e: Event)
    requires SortedRecording(rec) && PlanOk(rec, pl) && StillToCome(rec, pl, si, ki, e)
    requires if HaveScan(rec, pl, si) && (ki >= pl.end || rec.scans[si].t <= rec.images[ki].t) then a.OfScan? && a.scan == rec.scans[si]
             else ki < pl.end && a.OfImage? && a.img == rec.images[ki]
    ensures InTime(a, e)
  {
    if j: nat :| ComingScan(rec, pl, si, j, e) {
      assert rec.scans[si].t <= rec.scans[j].t;
    } else {
      var k: nat :| ComingImage(rec, pl, ki, k, e);
      assert rec.images[ki].t <= rec.images[k].t;
    }
  }

  /** Pushes are in order of time, and at one time scans come before images. */
  lemma {:induction false} PushedInTime(rec: Recording, pl: Plan, si: nat, ki: nat, a: nat, b: nat)
    requires RecordingOk(rec) && SortedRecording(rec) && PlanOk(rec, pl) && si <= |rec.scans| && pl.start <= ki <= pl.end
    requires a < b < |Walk(rec, pl, si, ki)|
    ensures InTime(Walk(rec, pl, si, ki)[a], Walk(rec, pl, si, ki)[b])
    decreases |rec.scans| - si + pl.end - ki
  {
    hide StillToCome, Chosen, InTime, SortedRecording;
    var w := Walk(rec, pl, si, ki);
    if HaveScan(rec, pl, si) && (ki >= pl.end || rec.scans[si].t <= rec.images[ki].t) {
      if a == 0 {
        WalkEvents(rec, pl, si, ki, b);
        FirstIsEarliest(rec, pl, si, ki, w[0], w[b]);
      } else {
        PushedInTime(rec, pl, si + 1, ki, a - 1, b - 1);
      }
    } else if Chosen(pl, ki) {
      if a == 0 {
        WalkEvents(rec, pl, si, ki, b);
        FirstIsEarliest(rec, pl, si, ki, w[0], w[b]);
      } else {
        PushedInTime(rec, pl, si, ki + 1, a - 1, b - 1);
      }
    } else {
      assert [] + Walk(rec, pl, si, ki + 1) == Walk(rec, pl, si, ki + 1);
      PushedInTime(rec, pl, si, ki + 1, a, b);
    }
  }
}
