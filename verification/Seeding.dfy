/** What a seeding pass makes of this frame's points. */
module Seeding {
  import opened Basics
  import opened Centroids
  import opened EuclideanSplit
  import opened Growing
  import opened SortedInts

  datatype SeedParams = SeedParams(minPts: int, minClassPoints: int, singleScan: bool, overlap: bool, splitOn: bool)

  /** The map and the clustering as seeding sees them: thing class (-1 without one) and instance id of a
      point, positions, the outlier filter's survivors, a cluster label per scanned point (negative for noise), and
      nearness at the split radius. */
  datatype World = World(size: nat, classOf: int -> int, instOf: int -> int, at: int -> Pos, vocab: nat, kept: seq<int> -> set<int>,
                         labelsOf: (seq<int>, seq<int>) -> seq<int>, near: (int, int) -> bool)

  /** One clustering run: points, their classes, their labels. */
  datatype Scan = Scan(gs: seq<int>, cids: seq<int>, labels: seq<int>)

  const SMALLEST_INPUT := 16

  ghost predicate WorldOk(w: World) {
    (forall gs, cids :: |w.labelsOf(gs, cids)| == |gs|) && IsNearness(w.near)
  }

  // ---------- buckets and scans ----------

  predicate Eligible(w: World, g: int) { 0 <= g < w.size && w.classOf(g) >= 0 }

  /** This frame's points of class c. */
  function Bucket(w: World, gidx: seq<int>, c: int): seq<int> {
    if gidx == [] then []
    else var g := gidx[|gidx| - 1];
         Bucket(w, gidx[..|gidx| - 1], c) + if Eligible(w, g) && w.classOf(g) == c then [g] else []
  }

  function Survivors(w: World, gidx: seq<int>, c: int): seq<int> {
    var b := Bucket(w, gidx, c);
    Keep(b, w.kept(b))
  }

  /** Enough points for the density estimate and for the clustering to run at all. */
  predicate Clusterable(p: SeedParams, n: nat) { n > Least(p) && n >= SMALLEST_INPUT }

  function Least(p: SeedParams): int { if p.minPts > 1 then p.minPts else 1 }

  function Const(n: nat, c: int): seq<int> { seq(n, i => c) }

  /** Points and classes of a scan over several classes, the sparse classes dropped. */
  function Pooled(w: World, p: SeedParams, gidx: seq<int>, order: seq<int>): (r: (seq<int>, seq<int>))
    ensures |r.0| == |r.1|
  {
    if order == [] then ([], [])
    else var c := order[|order| - 1];
         var r := Pooled(w, p, gidx, order[..|order| - 1]);
         var mg := Survivors(w, gidx, c);
         if |mg| < p.minClassPoints then r else (r.0 + mg, r.1 + Const(|mg|, c))
  }

  /** The scans of a pass over the given classes: one for all of them, or one for each. */
  function ScansOf(w: World, p: SeedParams, gidx: seq<int>, order: seq<int>): seq<Scan> {
    if p.singleScan then
      var r := Pooled(w, p, gidx, order);
      if Clusterable(p, |r.0|) then [Scan(r.0, r.1, w.labelsOf(r.0, r.1))] else []
    else if order == [] then []
    else ScansOf(w, p, gidx, order[..|order| - 1]) + ClassScan(w, p, gidx, order[|order| - 1])
  }

  function ClassScan(w: World, p: SeedParams, gidx: seq<int>, c: int): (r: seq<Scan>)
    ensures |r| <= 1
  {
    var mg := Survivors(w, gidx, c);
    if |mg| < p.minClassPoints || !Clusterable(p, |mg|) then []
    else [Scan(mg, Const(|mg|, c), w.labelsOf(mg, Const(|mg|, c)))]
  }

  // ---------- proposals of a scan ----------

  predicate ScanShape(sc: Scan) { |sc.gs| == |sc.cids| == |sc.labels| }

  /** Points labelled l. */
  function Members(sc: Scan, l: int): seq<int>
    requires ScanShape(sc)
  {
    MembersOf(sc.gs, sc.labels, l)
  }

  function MembersOf(gs: seq<int>, labels: seq<int>, l: int): seq<int>
    requires |gs| == |labels|
  {
    if gs == [] then []
    else var n := |gs| - 1;
         MembersOf(gs[..n], labels[..n], l) + if labels[n] == l then [gs[n]] else []
  }

  /** Class of the last point labelled l, -1 without one. */
  function LastClass(cids: seq<int>, labels: seq<int>, l: int): int
    requires |cids| == |labels|
  {
    if cids == [] then -1
    else var n := |cids| - 1; if labels[n] == l then cids[n] else LastClass(cids[..n], labels[..n], l)
  }

  /** A histogram with all its weight on one class. */
  function Spike(vocab: nat, c: int, n: nat): (h: seq<real>) { seq(vocab, i => if i == c then n as real else 0.0) }

  ghost predicate SeedBuilt(w: World, c: int, s: Seed) {
    && s.classId == c && s.kind == Thing && s.points != [] && Centered(w.at, s.points, s.centroid)
    && s.hist == Spike(w.vocab, c, |s.points|) && RisingInts(s.instIds)
    && forall y :: y in s.instIds <==> IdOn(w, s.points, y)
  }

  /** Some member carries instance id y. */
  ghost predicate IdOn(w: World, members: seq<int>, y: int) { y >= 0 && exists g :: g in members && w.instOf(g) == y }

  /** pts is one of the components of ms, or all of ms when splitting is off. */
  ghost predicate PartOf(near: (int, int) -> bool, on: bool, ms: seq<int>, pts: seq<int>) {
    if on then
      && pts == Keep(ms, Points(pts))
      && forall g, h | g in pts && h in ms :: h in pts <==> Connected(near, Points(ms), g, h)
    else pts == ms
  }

  /** s was cut from the points labelled l. */
  ghost predicate SeedOf(w: World, p: SeedParams, sc: Scan, l: int, s: Seed) {
    && ScanShape(sc) && l >= 0
    && SeedBuilt(w, LastClass(sc.cids, sc.labels, l), s) && PartOf(w.near, p.splitOn, Members(sc, l), s.points)
  }

  /** The scan and label a proposal comes from. */
  datatype Origin = Origin(scan: int, lab: int)

  /** The proposals of all scans, the last one handled for the labels below lab only. */
  ghost predicate Pending(w: World, p: SeedParams, scans: seq<Scan>, lab: int, list: seq<Seed>, origin: seq<Origin>) {
    && |origin| == |list| && (forall i | 0 <= i < |scans| :: ScanShape(scans[i]))
    && (forall k | 0 <= k < |list| :: FromOrigin(w, p, scans, lab, list[k], origin[k]))
    && (forall i, l, g | 0 <= i < |scans| && 0 <= l && Handled(scans, lab, i, l) && g in Members(scans[i], l) ::
          Held(list, origin, Origin(i, l), g))
    && forall j, k | 0 <= j < k < |list| && origin[j] == origin[k] :: Separate(list[j].points, list[k].points)
  }

  predicate Handled(scans: seq<Scan>, lab: int, i: int, l: int) { i < |scans| - 1 || l < lab }

  ghost predicate FromOrigin(w: World, p: SeedParams, scans: seq<Scan>, lab: int, s: Seed, o: Origin) {
    0 <= o.scan < |scans| && Handled(scans, lab, o.scan, o.lab) && SeedOf(w, p, scans[o.scan], o.lab, s)
  }

  ghost predicate Held(list: seq<Seed>, origin: seq<Origin>, o: Origin, g: int) {
    exists k :: 0 <= k < |list| && k < |origin| && origin[k] == o && g in list[k].points
  }

  ghost predicate Separate(xs: seq<int>, ys: seq<int>) { forall g | g in xs :: g !in ys }

  /** Every proposal is a component of one label's points of one scan, and every labelled point is in one. */
  ghost predicate SeededBy(w: World, p: SeedParams, scans: seq<Scan>, list: seq<Seed>, origin: seq<Origin>) {
    && |origin| == |list| && (forall i | 0 <= i < |scans| :: ScanShape(scans[i]))
    && (forall k | 0 <= k < |list| ::
          0 <= origin[k].scan < |scans| && SeedOf(w, p, scans[origin[k].scan], origin[k].lab, list[k]))
    && (forall i, l, g | 0 <= i < |scans| && 0 <= l && g in Members(scans[i], l) :: Held(list, origin, Origin(i, l), g))
    && forall j, k | 0 <= j < k < |list| && origin[j] == origin[k] :: Separate(list[j].points, list[k].points)
  }

  /** No two proposals share a point. */
  ghost predicate Apart(list: seq<Seed>) { forall j, k | 0 <= j < k < |list| :: Separate(list[j].points, list[k].points) }

  // ---------- list lemmas ----------

  lemma {:induction false} MembersAt(gs: seq<int>, labels: seq<int>, l: int, g: int)
    requires |gs| == |labels|
    ensures g in MembersOf(gs, labels, l) <==> exists i :: 0 <= i < |gs| && gs[i] == g && labels[i] == l
    decreases |gs|
  {
    if gs != [] {
      var n := |gs| - 1;
      MembersAt(gs[..n], labels[..n], l, g);
      if g in MembersOf(gs[..n], labels[..n], l) {
        var i :| 0 <= i < n && gs[..n][i] == g && labels[..n][i] == l;
        assert gs[i] == g && labels[i] == l;
      }
      if i :| 0 <= i < |gs| && gs[i] == g && labels[i] == l {
        if i < n { assert gs[..n][i] == g && labels[..n][i] == l; }
      }
    }
  }

  lemma {:induction false} BucketAt(w: World, gidx: seq<int>, c: int, g: int)
    ensures g in Bucket(w, gidx, c) <==> g in gidx && Eligible(w, g) && w.classOf(g) == c
    decreases |gidx|
  {
    if gidx != [] {
      BucketAt(w, gidx[..|gidx| - 1], c, g);
      assert gidx == gidx[..|gidx| - 1] + [gidx[|gidx| - 1]];
    }
  }

  lemma {:induction false} BucketDistinct(w: World, gidx: seq<int>, c: int)
    requires Distinct(gidx)
    ensures Distinct(Bucket(w, gidx, c))
    decreases |gidx|
  {
    if gidx != [] {
      var n := |gidx| - 1;
      BucketDistinct(w, gidx[..n], c);
      BucketAt(w, gidx[..n], c, gidx[n]);
    }
  }

  lemma {:induction false} KeepDistinct(xs: seq<int>, s: set<int>)
    requires Distinct(xs)
    ensures Distinct(Keep(xs, s))
    decreases |xs|
  {
    if xs != [] {
      var n := |xs| - 1;
      KeepDistinct(xs[..n], s);
      KeepMembers(xs[..n], s, xs[n]);
    }
  }

  ghost predicate OfClass(w: World, gidx: seq<int>, c: int, g: int) { g in gidx && Eligible(w, g) && w.classOf(g) == c }

  lemma SurvivorsOk(w: World, gidx: seq<int>, c: int)
    ensures forall j | 0 <= j < |Survivors(w, gidx, c)| :: OfClass(w, gidx, c, Survivors(w, gidx, c)[j])
    ensures Distinct(gidx) ==> Distinct(Survivors(w, gidx, c))
  {
    hide Distinct, Keep, Bucket;
    var b := Bucket(w, gidx, c);
    var mg := Survivors(w, gidx, c);
    forall j | 0 <= j < |mg| ensures OfClass(w, gidx, c, mg[j]) {
      assert mg[j] in mg;
      KeepMembers(b, w.kept(b), mg[j]);
      BucketAt(w, gidx, c, mg[j]);
    }
    if Distinct(gidx) {
      BucketDistinct(w, gidx, c);
      KeepDistinct(b, w.kept(b));
    }
  }

  // ---------- the scans are made of distinct eligible points ----------

  /** The points of a scan are this frame's, each with its own class, one of the given ones. */
  ghost predicate ScanOk(w: World, gidx: seq<int>, order: seq<int>, gs: seq<int>, cids: seq<int>) {
    && |gs| == |cids|
    && (forall j | 0 <= j < |gs| :: OfClass(w, gidx, cids[j], gs[j]) && cids[j] in order)
    && (Distinct(gidx) && Distinct(order) ==> Distinct(gs))
  }

  lemma DistinctFront(xs: seq<int>)
    requires Distinct(xs) && xs != []
    ensures Distinct(xs[..|xs| - 1]) && xs[|xs| - 1] !in xs[..|xs| - 1]
  {
  }

  lemma PooledMore(w: World, gidx: seq<int>, order: seq<int>, c: int, gs: seq<int>, cids: seq<int>, mg: seq<int>)
    requires ScanOk(w, gidx, order, gs, cids) && (Distinct(gidx) ==> Distinct(mg))
    requires forall j | 0 <= j < |mg| :: OfClass(w, gidx, c, mg[j])
    ensures ScanOk(w, gidx, order + [c], gs + mg, cids + Const(|mg|, c))
    ensures ScanOk(w, gidx, order + [c], gs, cids)
  {
    if Distinct(order + [c]) {
      DistinctFront(order + [c]);
      assert (order + [c])[..|order|] == order;
    }
  }

  lemma {:induction false} PooledOk(w: World, p: SeedParams, gidx: seq<int>, order: seq<int>)
    ensures var r := Pooled(w, p, gidx, order); ScanOk(w, gidx, order, r.0, r.1)
    decreases |order|
  {
    hide ScanOk, Survivors;
    if order != [] {
      var n := |order| - 1;
      var c, front := order[n], order[..n];
      var r := Pooled(w, p, gidx, front);
      PooledOk(w, p, gidx, front);
      SurvivorsOk(w, gidx, c);
      PooledMore(w, gidx, front, c, r.0, r.1, Survivors(w, gidx, c));
      assert order == front + [c];
    } else {
      NothingScanned(w, gidx);
    }
  }

  lemma NothingScanned(w: World, gidx: seq<int>)
    ensures ScanOk(w, gidx, [], [], [])
  {
  }

  ghost predicate ScanFits(w: World, gidx: seq<int>, order: seq<int>, sc: Scan) {
    ScanShape(sc) && ScanOk(w, gidx, order, sc.gs, sc.cids)
  }

  lemma ClassScanOk(w: World, p: SeedParams, gidx: seq<int>, order: seq<int>, c: int)
    requires WorldOk(w)
    ensures var r := ClassScan(w, p, gidx, c);
            forall i | 0 <= i < |r| :: ScanFits(w, gidx, order + [c], r[i]) && forall j | 0 <= j < |r[i].cids| :: r[i].cids[j] == c
  {
    hide Survivors, OfClass;
    SurvivorsOk(w, gidx, c);
  }

  lemma WiderFits(w: World, gidx: seq<int>, order: seq<int>, c: int, sc: Scan)
    requires ScanFits(w, gidx, order, sc)
    ensures ScanFits(w, gidx, order + [c], sc)
  {
    PooledMore(w, gidx, order, c, sc.gs, sc.cids, []);
  }

  lemma OtherClass(w: World, gidx: seq<int>, front: seq<int>, c: int, sc: Scan, last: Scan, g: int)
    requires ScanFits(w, gidx, front, sc) && ScanFits(w, gidx, front + [c], last) && c !in front && g in sc.gs
    requires forall j | 0 <= j < |last.cids| :: last.cids[j] == c
    ensures g !in last.gs
  {
    var i :| 0 <= i < |sc.gs| && sc.gs[i] == g;
    assert OfClass(w, gidx, sc.cids[i], g) && sc.cids[i] in front;
    forall j | 0 <= j < |last.gs| ensures last.gs[j] != g { assert OfClass(w, gidx, last.cids[j], last.gs[j]); }
  }

  /** Scans have the shape of labelled lists, and with distinct points and classes no point is in two
      scans or twice in one. */
  ghost predicate AllFit(w: World, gidx: seq<int>, order: seq<int>, scans: seq<Scan>) {
    && (forall i | 0 <= i < |scans| :: ScanFits(w, gidx, order, scans[i]))
    && (Distinct(order) ==> forall i, j, g | 0 <= i < j < |scans| && g in scans[i].gs :: g !in scans[j].gs)
  }

  lemma AllFitMore(w: World, gidx: seq<int>, front: seq<int>, c: int, scans: seq<Scan>, last: seq<Scan>)
    requires AllFit(w, gidx, front, scans) && |last| <= 1
    requires forall i | 0 <= i < |last| :: ScanFits(w, gidx, front + [c], last[i]) && forall j | 0 <= j < |last[i].cids| :: last[i].cids[j] == c
    ensures AllFit(w, gidx, front + [c], scans + last)
  {
    hide ScanFits;
    var all := scans + last;
    forall i | 0 <= i < |all| ensures ScanFits(w, gidx, front + [c], all[i]) {
      if i < |scans| { WiderFits(w, gidx, front, c, scans[i]); }
    }
    if Distinct(front + [c]) {
      DistinctFront(front + [c]);
      assert (front + [c])[..|front|] == front;
      forall i, j, g | 0 <= i < j < |all| && g in all[i].gs ensures g !in all[j].gs {
        if j == |scans| { OtherClass(w, gidx, front, c, scans[i], last[0], g); }
      }
    }
  }

  lemma {:induction false} ScansOk(w: World, p: SeedParams, gidx: seq<int>, order: seq<int>)
    requires WorldOk(w)
    ensures AllFit(w, gidx, order, ScansOf(w, p, gidx, order))
    decreases |order|
  {
    hide Pooled, ClassScan, OfClass, ScanOk, Distinct;
    if p.singleScan {
      PooledOk(w, p, gidx, order);
    } else if order != [] {
      var c, front := order[|order| - 1], order[..|order| - 1];
      assert order == front + [c];
      ScansOk(w, p, gidx, front);
      ClassScanOk(w, p, gidx, front, c);
      AllFitMore(w, gidx, front, c, ScansOf(w, p, gidx, front), ClassScan(w, p, gidx, c));
    }
  }

  // ---------- scanning label by label ----------

  lemma PendingStart(w: World, p: SeedParams, scans: seq<Scan>, sc: Scan, list: seq<Seed>, origin: seq<Origin>)
    requires SeededBy(w, p, scans, list, origin) && ScanShape(sc)
    ensures Pending(w, p, scans + [sc], 0, list, origin)
  {
    hide SeedOf, Held, Separate, Members;
  }

  lemma PendingDone(w: World, p: SeedParams, scans: seq<Scan>, lab: int, list: seq<Seed>, origin: seq<Origin>)
    requires Pending(w, p, scans, lab, list, origin) && scans != []
    requires var labels := scans[|scans| - 1].labels; forall i | 0 <= i < |labels| :: labels[i] < lab
    ensures SeededBy(w, p, scans, list, origin)
  {
    hide SeedOf, Held, Separate;
    forall i, l, g | 0 <= i < |scans| && 0 <= l && g in Members(scans[i], l) ensures Held(list, origin, Origin(i, l), g) {
      MembersAt(scans[i].gs, scans[i].labels, l, g);
      assert Handled(scans, lab, i, l);
    }
  }

  /** The proposals of one label: one per part, in order. */
  ghost predicate PartsSeeded(w: World, p: SeedParams, sc: Scan, l: int, parts: seq<seq<int>>, added: seq<Seed>) {
    |added| == |parts| && forall k | 0 <= k < |parts| :: added[k].points == parts[k] && SeedOf(w, p, sc, l, added[k])
  }

  ghost predicate PartsOk(ms: seq<int>, parts: seq<seq<int>>) {
    && (forall g | g in ms :: exists k :: 0 <= k < |parts| && g in parts[k])
    && forall j, k | 0 <= j < k < |parts| :: Separate(parts[j], parts[k])
  }

  lemma PendingMore(w: World, p: SeedParams, scans: seq<Scan>, lab: int, list: seq<Seed>, origin: seq<Origin>,
                    parts: seq<seq<int>>, added: seq<Seed>, origin': seq<Origin>)
    requires Pending(w, p, scans, lab, list, origin) && scans != [] && lab >= 0
    requires var sc := scans[|scans| - 1]; PartsSeeded(w, p, sc, lab, parts, added) && PartsOk(Members(sc, lab), parts)
    requires origin' == origin + seq(|added|, i => Origin(|scans| - 1, lab))
    ensures Pending(w, p, scans, lab + 1, list + added, origin')
  {
    hide SeedOf, Members, Separate;
    var n, list' := |list|, list + added;
    forall k | 0 <= k < |list'| ensures FromOrigin(w, p, scans, lab + 1, list'[k], origin'[k]) {
      if k < n { assert FromOrigin(w, p, scans, lab, list[k], origin[k]); } else { assert list'[k] == added[k - n]; }
    }
    forall i, l, g | 0 <= i < |scans| && 0 <= l && Handled(scans, lab + 1, i, l) && g in Members(scans[i], l)
      ensures Held(list', origin', Origin(i, l), g)
    {
      if Handled(scans, lab, i, l) {
        assert Held(list, origin, Origin(i, l), g);
        var k :| 0 <= k < n && origin[k] == Origin(i, l) && g in list[k].points;
        assert list'[k] == list[k] && origin'[k] == origin[k];
      } else {
        var k :| 0 <= k < |parts| && g in parts[k];
        assert list'[n + k] == added[k] && origin'[n + k] == Origin(i, l);
      }
    }
    forall k | 0 <= k < n ensures origin[k] != Origin(|scans| - 1, lab) {
      assert FromOrigin(w, p, scans, lab, list[k], origin[k]);
    }
    forall j, k | 0 <= j < k < |list'| && origin'[j] == origin'[k] ensures Separate(list'[j].points, list'[k].points) {
      if k < n {
        assert list'[j] == list[j] && list'[k] == list[k] && origin[j] == origin[k];
      } else if j >= n {
        assert Separate(parts[j - n], parts[k - n]);
      }
    }
  }

  /** What splitting returns is what a label's proposals need. */
  lemma SplitParts(near: (int, int) -> bool, on: bool, ms: seq<int>, parts: seq<seq<int>>)
    requires IsNearness(near) && ms != []
    requires if on && |ms| > 1 then Components(near, ms, parts) else parts == [ms]
    ensures PartsOk(ms, parts) && forall k | 0 <= k < |parts| :: parts[k] != [] && PartOf(near, on, ms, parts[k])
  {
    if on && |ms| > 1 {
      hide Connected, Keep;
      forall j, k | 0 <= j < k < |parts| ensures Separate(parts[j], parts[k]) {}
    } else {
      assert parts[0] == ms;
      if on { OnePart(near, ms); }
    }
  }

  lemma OnePart(near: (int, int) -> bool, ms: seq<int>)
    requires IsNearness(near) && |ms| == 1
    ensures PartOf(near, true, ms, ms)
  {
    NearConnected(near, Points(ms), ms[0], ms[0]);
    assert ms[..0] == [] && ms == [ms[0]];
  }

  // ---------- distinct points give disjoint proposals ----------

  ghost predicate LabelledAt(sc: Scan, l: int, g: int) {
    ScanShape(sc) && exists i :: 0 <= i < |sc.gs| && sc.gs[i] == g && sc.labels[i] == l
  }

  lemma SeedInScan(w: World, p: SeedParams, sc: Scan, l: int, s: Seed, g: int)
    requires SeedOf(w, p, sc, l, s) && g in s.points
    ensures LabelledAt(sc, l, g)
  {
    var ms := Members(sc, l);
    KeepMembers(ms, Points(s.points), g);
    MembersAt(sc.gs, sc.labels, l, g);
  }

  lemma OneOrigin(scans: seq<Scan>, o: Origin, o': Origin, g: int)
    requires 0 <= o.scan < |scans| && 0 <= o'.scan < |scans| && o.lab >= 0 && o'.lab >= 0 && LabelledOnce(scans)
    requires forall i, j, x | 0 <= i < j < |scans| && x in scans[i].gs :: x !in scans[j].gs
    requires LabelledAt(scans[o.scan], o.lab, g) && LabelledAt(scans[o'.scan], o'.lab, g)
    ensures o == o'
  {
    assert g in scans[o.scan].gs && g in scans[o'.scan].gs;
  }

  /** No point of a scan is listed under two cluster labels. */
  ghost predicate LabelledOnce(scans: seq<Scan>) {
    forall i, l, l', g | 0 <= i < |scans| && l >= 0 && l' >= 0 && LabelledAt(scans[i], l, g) && LabelledAt(scans[i], l', g) :: l == l'
  }

  /** No point is proposed twice exactly when no scan lists one under two labels. */
  lemma ApartIffLabelledOnce(w: World, p: SeedParams, gidx: seq<int>, order: seq<int>, list: seq<Seed>, origin: seq<Origin>)
    requires WorldOk(w) && Distinct(order) && SeededBy(w, p, ScansOf(w, p, gidx, order), list, origin)
    ensures Apart(list) <==> LabelledOnce(ScansOf(w, p, gidx, order))
  {
    hide ScansOf, WorldOk, ScanFits, LabelledAt, PartOf, SeedBuilt;
    var scans := ScansOf(w, p, gidx, order);
    ScansOk(w, p, gidx, order);
    if LabelledOnce(scans) {
      forall j, k | 0 <= j < k < |list| ensures Separate(list[j].points, list[k].points) {
        var oj, ok := origin[j], origin[k];
        if oj != ok {
          forall g | g in list[j].points ensures g !in list[k].points {
            SeedInScan(w, p, scans[oj.scan], oj.lab, list[j], g);
            if g in list[k].points {
              SeedInScan(w, p, scans[ok.scan], ok.lab, list[k], g);
              OneOrigin(scans, oj, ok, g);
            }
          }
        }
      }
    }
    if Apart(list) {
      forall i, l, l', g | 0 <= i < |scans| && l >= 0 && l' >= 0 && LabelledAt(scans[i], l, g) && LabelledAt(scans[i], l', g)
        ensures l == l'
      {
        var k := HolderOf(w, p, scans, list, origin, i, l, g);
        var k' := HolderOf(w, p, scans, list, origin, i, l', g);
        assert k < k' ==> Separate(list[k].points, list[k'].points);
        assert k' < k ==> Separate(list[k'].points, list[k].points);
      }
    }
  }

  lemma HolderOf(w: World, p: SeedParams, scans: seq<Scan>, list: seq<Seed>, origin: seq<Origin>, i: int, l: int, g: int)
    returns (k: int)
    requires SeededBy(w, p, scans, list, origin) && 0 <= i < |scans| && l >= 0 && LabelledAt(scans[i], l, g)
    ensures 0 <= k < |list| && origin[k] == Origin(i, l) && g in list[k].points
  {
    hide SeedOf;
    MembersAt(scans[i].gs, scans[i].labels, l, g);
    assert g in Members(scans[i], l);
    assert Held(list, origin, Origin(i, l), g);
    k :| 0 <= k < |list| && origin[k] == Origin(i, l) && g in list[k].points;
  }

  /** Without duplicates among this frame's points no scan lists one twice. */
  lemma DistinctLabelledOnce(w: World, p: SeedParams, gidx: seq<int>, order: seq<int>)
    requires WorldOk(w) && Distinct(gidx) && Distinct(order)
    ensures LabelledOnce(ScansOf(w, p, gidx, order))
  {
    hide ScansOf, WorldOk;
    ScansOk(w, p, gidx, order);
  }

  /** Without duplicates among this frame's points no point is proposed twice. */
  lemma SeededApart(w: World, p: SeedParams, gidx: seq<int>, order: seq<int>, list: seq<Seed>, origin: seq<Origin>)
    requires WorldOk(w) && Distinct(gidx) && Distinct(order) && SeededBy(w, p, ScansOf(w, p, gidx, order), list, origin)
    ensures Apart(list)
  {
    DistinctLabelledOnce(w, p, gidx, order);
    ApartIffLabelledOnce(w, p, gidx, order, list, origin);
  }

  // ---------- ownership after a pass ----------

  /** The last proposal holding g, -1 without one. */
  function LastHolder(list: seq<Seed>, g: int): (k: int)
    ensures -1 <= k < |list| && (k >= 0 ==> g in list[k].points)
    ensures forall j | k < j < |list| :: g !in list[j].points
  {
    if list == [] then -1 else var n := |list| - 1; if g in list[n].points then n else LastHolder(list[..n], g)
  }

  ghost predicate LatestOwns(list: seq<Seed>, owner: seq<int>) {
    forall g :: OwnerOf(owner, g) == if g >= 0 then LastHolder(list, g) else -1
  }

  lemma LatestMore(list: seq<Seed>, owner: seq<int>, s: Seed)
    requires LatestOwns(list, owner)
    ensures LatestOwns(list + [s], ClaimedAll(owner, s.points, |list|))
  {
    assert (list + [s])[..|list|] == list;
    forall g
      ensures OwnerOf(ClaimedAll(owner, s.points, |list|), g) == if g >= 0 then LastHolder(list + [s], g) else -1
    {
      ClaimedAllAt(owner, s.points, |list|, g);
    }
  }

  /** After seeding, ownership agrees with membership exactly when no two proposals share a point. */
  lemma AgreesIffApart(list: seq<Seed>, owner: seq<int>)
    requires LatestOwns(list, owner) && forall k, g | 0 <= k < |list| && g in list[k].points :: g >= 0
    ensures Agrees(list, owner) <==> Apart(list)
  {
    if Apart(list) {
      forall g, k | g >= 0 ensures OwnsIff(list, owner, g, k) {
        var last := LastHolder(list, g);
        if 0 <= k < last { assert Separate(list[k].points, list[last].points); }
      }
    }
    if Agrees(list, owner) {
      forall j, k, g | 0 <= j < k < |list| && g in list[j].points ensures g !in list[k].points {
        assert OwnsIff(list, owner, g, j) && OwnsIff(list, owner, g, k);
      }
    }
  }

  lemma {:induction false} KeepAll(xs: seq<int>, s: set<int>)
    requires forall x | x in xs :: x in s
    ensures Keep(xs, s) == xs
    decreases |xs|
  {
    if xs != [] {
      var n := |xs| - 1;
      var (init, last) := (xs[..n], xs[n]);
      assert last in xs;
      KeepAll(init, s);
      assert Keep(xs, s) == Keep(init, s) + [last] && xs == init + [last];
    }
  }

  /** A world whose point 0 is of class 0, with nothing filtered out and positions labelled 0, 1, 0, 1 ... */
  ghost predicate AlternatingWorld(w: World) {
    && WorldOk(w) && w.size > 0 && w.classOf(0) == 0 && (forall xs, x :: x in xs ==> x in w.kept(xs))
    && forall gs, cids, i | 0 <= i < |gs| :: w.labelsOf(gs, cids)[i] == i % 2
  }

  lemma {:induction false} BucketOfCopies(w: World, n: nat)
    requires w.size > 0 && w.classOf(0) == 0
    ensures Bucket(w, Const(n, 0), 0) == Const(n, 0)
    decreases n
  {
    if n > 0 {
      BucketOfCopies(w, n - 1);
      assert Const(n, 0)[..n - 1] == Const(n - 1, 0);
    }
  }

  /** Sixteen copies of one point, labelled alternately, are proposed twice: ownership and membership then
      disagree. */
  lemma DuplicatesDisagree(w: World, p: SeedParams, list: seq<Seed>, origin: seq<Origin>, owner: seq<int>)
    requires AlternatingWorld(w) && !p.singleScan && p.minPts < SMALLEST_INPUT && p.minClassPoints <= SMALLEST_INPUT
    requires SeededBy(w, p, ScansOf(w, p, Const(SMALLEST_INPUT, 0), [0]), list, origin) && LatestOwns(list, owner)
    ensures !Agrees(list, owner)
  {
    hide SeededBy, LatestOwns, Agrees, Keep, Bucket;
    var gs := Const(SMALLEST_INPUT, 0);
    BucketOfCopies(w, SMALLEST_INPUT);
    KeepAll(gs, w.kept(gs));
    assert Survivors(w, gs, 0) == gs;
    NoScans(w, p, gs);
    ScansMore(w, p, gs, [0], 0);
    assert [0][..1] == [0] && [0][..0] == [];
    var scans := ScansOf(w, p, gs, [0]);
    var sc := scans[0];
    assert sc.gs[0] == 0 && sc.labels[0] == 0 && sc.gs[1] == 0 && sc.labels[1] == 1;
    assert LabelledAt(sc, 0, 0) && LabelledAt(sc, 1, 0);
    assert !LabelledOnce(scans);
    ApartIffLabelledOnce(w, p, gs, [0], list, origin);
    SeededInMap(w, p, gs, [0], list, origin);
    AgreesIffApart(list, owner);
  }

  // ---------- grouping by label ----------

  /** One more than the highest label, at least 0. */
  method LabelBound(labels: seq<int>) returns (k: int)
    ensures k >= 0 && forall i | 0 <= i < |labels| :: labels[i] < k
    ensures k > 0 ==> k - 1 in labels
  {
    k := 0;
    for i := 0 to |labels|
      invariant k >= 0 && (forall j | 0 <= j < i :: labels[j] < k) && (k > 0 ==> k - 1 in labels)
    {
      if labels[i] + 1 > k { k := labels[i] + 1; }
    }
  }

  /** The points and the class of every label. */
  method Group(sc: Scan, k: nat) returns (members: seq<seq<int>>, memCid: seq<int>)
    requires ScanShape(sc) && forall i | 0 <= i < |sc.labels| :: sc.labels[i] < k
    ensures |members| == |memCid| == k
    ensures forall l | 0 <= l < k :: members[l] == Members(sc, l) && memCid[l] == LastClass(sc.cids, sc.labels, l)
  {
    members, memCid := seq(k, i => []), seq(k, i => -1);
    for j := 0 to |sc.gs|
      invariant |members| == |memCid| == k
      invariant forall l | 0 <= l < k :: members[l] == MembersOf(sc.gs[..j], sc.labels[..j], l)
      invariant forall l | 0 <= l < k :: memCid[l] == LastClass(sc.cids[..j], sc.labels[..j], l)
    {
      var l := sc.labels[j];
      assert sc.gs[..j + 1][..j] == sc.gs[..j] && sc.labels[..j + 1][..j] == sc.labels[..j] && sc.cids[..j + 1][..j] == sc.cids[..j];
      if l >= 0 {
        members := members[l := members[l] + [sc.gs[j]]];
        memCid := memCid[l := sc.cids[j]];
      }
    }
    assert sc.gs[..|sc.gs|] == sc.gs && sc.labels[..|sc.gs|] == sc.labels && sc.cids[..|sc.gs|] == sc.cids;
  }

  lemma IdsMore(w: World, ids: seq<int>, ids': seq<int>, members: seq<int>, g: int)
    requires forall y :: y in ids <==> IdOn(w, members, y)
    requires ids' == if w.instOf(g) >= 0 then ids + [w.instOf(g)] else ids
    ensures forall y :: y in ids' <==> IdOn(w, members + [g], y)
  {
    forall y ensures y in ids' <==> IdOn(w, members + [g], y) {
      if IdOn(w, members, y) {
        var x :| x in members && w.instOf(x) == y;
        assert x in members + [g];
      }
      if y >= 0 && y == w.instOf(g) { assert g in members + [g]; }
    }
  }

  /** A proposal with one class, its members' centroid, and their instance ids sorted without duplicates. */
  method MakeSeed(w: World, c: int, members: seq<int>) returns (s: Seed)
    requires members != []
    ensures s.points == members && SeedBuilt(w, c, s)
  {
    var ids: seq<int> := [];
    for i := 0 to |members|
      invariant forall y :: y in ids <==> IdOn(w, members[..i], y)
    {
      var iid := w.instOf(members[i]);
      ghost var before := ids;
      if iid >= 0 { ids := ids + [iid]; }
      IdsMore(w, before, ids, members[..i], members[i]);
      assert members[..i + 1] == members[..i] + [members[i]];
    }
    assert members[..|members|] == members;
    var sorted := SortUnique(ids);
    var centroid := CentroidOf(w.at, members);
    s := Seed(c, Thing, members, centroid, Spike(w.vocab, c, |members|), sorted);
  }

  ghost predicate Bucketed(w: World, gidx: seq<int>, byClass: map<int, seq<int>>) {
    forall c :: if c in byClass then byClass[c] == Bucket(w, gidx, c) != [] else Bucket(w, gidx, c) == []
  }

  lemma BucketSnoc(w: World, gidx: seq<int>, g: int, c: int)
    ensures Bucket(w, gidx + [g], c) == Bucket(w, gidx, c) + if Eligible(w, g) && w.classOf(g) == c then [g] else []
  {
    assert (gidx + [g])[..|gidx|] == gidx;
  }

  lemma BucketedMore(w: World, gidx: seq<int>, g: int, byClass: map<int, seq<int>>, byClass': map<int, seq<int>>)
    requires Bucketed(w, gidx, byClass)
    requires if Eligible(w, g)
             then var c := w.classOf(g); byClass' == byClass[c := (if c in byClass then byClass[c] else []) + [g]]
             else byClass' == byClass
    ensures Bucketed(w, gidx + [g], byClass')
  {
    hide Bucket;
    forall c ensures if c in byClass' then byClass'[c] == Bucket(w, gidx + [g], c) != [] else Bucket(w, gidx + [g], c) == [] {
      BucketSnoc(w, gidx, g, c);
      assert if c in byClass then byClass[c] == Bucket(w, gidx, c) != [] else Bucket(w, gidx, c) == [];
    }
  }

  lemma NoneBucketed(w: World)
    ensures Bucketed(w, [], map[])
  {
  }

  /** This frame's points by class, and the classes in ascending order. */
  method ByClass(w: World, p: SeedParams, gidx: seq<int>, owner: seq<int>)
    returns (byClass: map<int, seq<int>>, order: seq<int>)
    requires forall g :: OwnerOf(owner, g) == -1
    ensures RisingInts(order) && (forall c :: c in order <==> c in byClass) && Bucketed(w, gidx, byClass)
  {
    hide Bucketed, OwnerOf, RisingInts;
    byClass := map[];
    var met: seq<int> := [];
    NoneBucketed(w);
    for i := 0 to |gidx|
      invariant (forall c :: c in met <==> c in byClass) && Bucketed(w, gidx[..i], byClass)
    {
      var g := gidx[i];
      ghost var before := byClass;
      assert gidx[..i + 1] == gidx[..i] + [g];
      if 0 <= g < w.size && (p.overlap || OwnerOf(owner, g) < 0) && w.classOf(g) >= 0 {
        var c := w.classOf(g);
        byClass := byClass[c := (if c in byClass then byClass[c] else []) + [g]];
        met := met + [c];
      }
      BucketedMore(w, gidx[..i], g, before, byClass);
    }
    assert gidx[..|gidx|] == gidx;
    order := SortUnique(met);
  }

  /** All classes' points in one list, the sparse classes dropped. */
  method PoolAll(w: World, p: SeedParams, ghost gidx: seq<int>, byClass: map<int, seq<int>>, order: seq<int>)
    returns (gs: seq<int>, cids: seq<int>)
    requires forall c :: c in order ==> c in byClass && byClass[c] == Bucket(w, gidx, c)
    ensures (gs, cids) == Pooled(w, p, gidx, order)
  {
    gs, cids := [], [];
    for i := 0 to |order|
      invariant (gs, cids) == Pooled(w, p, gidx, order[..i])
    {
      assert order[..i + 1][..i] == order[..i];
      var c := order[i];
      var mg := Keep(byClass[c], w.kept(byClass[c]));
      if |mg| < p.minClassPoints { continue; }
      gs, cids := gs + mg, cids + Const(|mg|, c);
    }
    assert order[..|order|] == order;
  }

  // ---------- assembling a pass ----------

  lemma NoParts(ms: seq<int>)
    requires ms == []
    ensures PartsOk(ms, [])
  {
  }

  lemma NoneSeeded(w: World, p: SeedParams, owner: seq<int>)
    requires forall g :: OwnerOf(owner, g) == -1
    ensures SeededBy(w, p, [], [], []) && LatestOwns([], owner)
  {
  }

  lemma NoScans(w: World, p: SeedParams, gidx: seq<int>)
    requires !p.singleScan
    ensures ScansOf(w, p, gidx, []) == []
  {
  }

  lemma PooledScan(w: World, p: SeedParams, gidx: seq<int>, order: seq<int>)
    requires p.singleScan
    ensures var r := Pooled(w, p, gidx, order);
            ScansOf(w, p, gidx, order) == if Clusterable(p, |r.0|) then [Scan(r.0, r.1, w.labelsOf(r.0, r.1))] else []
  {
  }

  lemma ScansMore(w: World, p: SeedParams, gidx: seq<int>, order: seq<int>, i: nat)
    requires !p.singleScan && i < |order|
    ensures ScansOf(w, p, gidx, order[..i + 1]) == ScansOf(w, p, gidx, order[..i]) + ClassScan(w, p, gidx, order[i])
  {
    assert order[..i + 1][..i] == order[..i];
  }

  lemma OrderCovers(w: World, gidx: seq<int>, order: seq<int>)
    requires forall c :: c in order <==> Bucket(w, gidx, c) != []
    ensures forall c :: c in order <==> exists g :: OfClass(w, gidx, c, g)
  {
    forall c ensures c in order <==> exists g :: OfClass(w, gidx, c, g) {
      forall g ensures g in Bucket(w, gidx, c) <==> OfClass(w, gidx, c, g) { BucketAt(w, gidx, c, g); }
      var b := Bucket(w, gidx, c);
      if b != [] { assert OfClass(w, gidx, c, b[0]); }
      if g :| OfClass(w, gidx, c, g) { assert g in b; }
    }
  }

  lemma RisingDistinct(xs: seq<int>)
    requires RisingInts(xs)
    ensures Distinct(xs)
  {
  }

  /** Proposals hold map indices. */
  lemma SeededInMap(w: World, p: SeedParams, gidx: seq<int>, order: seq<int>, list: seq<Seed>, origin: seq<Origin>)
    requires WorldOk(w) && SeededBy(w, p, ScansOf(w, p, gidx, order), list, origin)
    ensures forall k, g | 0 <= k < |list| && g in list[k].points :: 0 <= g < w.size
  {
    hide ScansOf, SeedOf, WorldOk;
    var scans := ScansOf(w, p, gidx, order);
    ScansOk(w, p, gidx, order);
    forall k, g | 0 <= k < |list| && g in list[k].points ensures 0 <= g < w.size {
      SeedInScan(w, p, scans[origin[k].scan], origin[k].lab, list[k], g);
      assert ScanFits(w, gidx, order, scans[origin[k].scan]);
    }
  }

  // ---------- one class per proposal ----------

  lemma {:induction false} LastClassAt(cids: seq<int>, labels: seq<int>, l: int)
    requires |cids| == |labels| && l in labels
    ensures exists i :: 0 <= i < |labels| && labels[i] == l && cids[i] == LastClass(cids, labels, l)
    decreases |labels|
  {
    var n := |labels| - 1;
    if labels[n] != l {
      assert labels == labels[..n] + [labels[n]];
      LastClassAt(cids[..n], labels[..n], l);
      var i :| 0 <= i < n && labels[..n][i] == l && cids[..n][i] == LastClass(cids, labels, l);
      assert labels[i] == l && cids[i] == LastClass(cids, labels, l);
    }
  }

  /** No cluster spans two classes. */
  ghost predicate Unmixed(sc: Scan) {
    ScanShape(sc) &&
    forall i, j | 0 <= i < |sc.gs| && 0 <= j < |sc.gs| && sc.labels[i] == sc.labels[j] >= 0 :: sc.cids[i] == sc.cids[j]
  }

  ghost predicate AllUnmixed(scans: seq<Scan>) { forall i | 0 <= i < |scans| :: Unmixed(scans[i]) }

  lemma ClassScanUnmixed(w: World, p: SeedParams, gidx: seq<int>, c: int, scans: seq<Scan>)
    requires WorldOk(w) && AllUnmixed(scans)
    ensures AllUnmixed(scans + ClassScan(w, p, gidx, c))
  {
    hide Survivors;
  }

  lemma {:induction false} PerClassUnmixed(w: World, p: SeedParams, gidx: seq<int>, order: seq<int>)
    requires WorldOk(w) && !p.singleScan
    ensures AllUnmixed(ScansOf(w, p, gidx, order))
    decreases |order|
  {
    hide ClassScan, Unmixed;
    if order != [] {
      PerClassUnmixed(w, p, gidx, order[..|order| - 1]);
      ClassScanUnmixed(w, p, gidx, order[|order| - 1], ScansOf(w, p, gidx, order[..|order| - 1]));
    }
  }

  /** Every point of a proposal has the proposal's class, provided no cluster of the pooled scan spans two
      classes; the per-class scans need no such proviso. */
  lemma ProposalsPure(w: World, p: SeedParams, gidx: seq<int>, order: seq<int>, list: seq<Seed>, origin: seq<Origin>, k: int, g: int)
    requires WorldOk(w) && SeededBy(w, p, ScansOf(w, p, gidx, order), list, origin) && 0 <= k < |list| && g in list[k].points
    requires p.singleScan ==> AllUnmixed(ScansOf(w, p, gidx, order))
    ensures OfClass(w, gidx, list[k].classId, g)
  {
    hide ScansOf, WorldOk;
    var scans := ScansOf(w, p, gidx, order);
    ScansOk(w, p, gidx, order);
    if !p.singleScan { PerClassUnmixed(w, p, gidx, order); }
    var o := origin[k];
    var sc := scans[o.scan];
    assert Unmixed(sc) && ScanFits(w, gidx, order, sc);
    SeedInScan(w, p, sc, o.lab, list[k], g);
    var i :| 0 <= i < |sc.gs| && sc.gs[i] == g && sc.labels[i] == o.lab;
    LastClassAt(sc.cids, sc.labels, o.lab);
  }
}
