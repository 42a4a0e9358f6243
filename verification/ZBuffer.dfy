/** The splatted depth buffer: what each cell holds, that no order or interleaving of the writes
    matters, and which points are visible. */
module ZBuffer {
  import opened Division

  datatype Point = Point(x: real, y: real, z: real)

  /** Rows of the projection: first and second pixel coordinate, and depth. */
  datatype Row = Row(x: real, y: real, z: real, w: real)

  datatype Camera = Camera(a: Row, b: Row, c: Row, width: nat, height: nat)

  /** Splat radius: at most rMax, sized to footprint / depth when the footprint is positive. */
  datatype Splat = Splat(rMax: nat, min: int, footprint: real)

  /** Clamping between the bounds is defined. */
  ghost predicate SplatOk(sp: Splat) { sp.footprint > 0.0 ==> sp.min <= sp.rMax }

  function Apply(r: Row, p: Point): real { r.x * p.x + r.y * p.y + r.z * p.z + r.w }

  /** A point's pixel, or why it has none. */
  datatype Pixel = OffFrame(depth: real) | Pixel(u: int, v: int, depth: real)

  function Round(x: real): int { (x + 0.5).Floor }

  function Project(cam: Camera, p: Point): Pixel {
    var c := Apply(cam.c, p);
    if c <= 0.0 then OffFrame(c)
    else var u, v := Round(Apply(cam.a, p) / c), Round(Apply(cam.b, p) / c);
         if 0 <= u < cam.width && 0 <= v < cam.height then Pixel(u, v, c) else OffFrame(c)
  }

  function Radius(sp: Splat, depth: real): int
    requires depth > 0.0
  {
    if sp.footprint > 0.0 then
      var r := Round(sp.footprint / depth);
      if r < sp.min then sp.min else if r > sp.rMax then sp.rMax else r
    else sp.rMax
  }

  lemma RadiusNonNegative(sp: Splat, depth: real)
    requires SplatOk(sp) && depth > 0.0
    ensures 0 <= Radius(sp, depth) <= sp.rMax
  {
    if sp.footprint > 0.0 { PositiveRatio(sp.footprint, depth); }
  }

  /** The kernel's radius: the lower bound first, then the cap. */
  function KernelRadius(sp: Splat, depth: real): int
    requires depth > 0.0
  {
    if sp.footprint > 0.0 then
      var r := Round(sp.footprint / depth);
      var low := if r < sp.min then sp.min else r;
      if low > sp.rMax then sp.rMax else low
    else sp.rMax
  }

  /** The kernel's radius is the clamped one when clamping is defined; otherwise it is the cap, below the lower
      bound it was to keep. */
  lemma KernelRadiusIs(sp: Splat, depth: real)
    requires depth > 0.0
    ensures if SplatOk(sp) then KernelRadius(sp, depth) == Radius(sp, depth) else KernelRadius(sp, depth) == sp.rMax < sp.min
  {
  }

  lemma PositiveRatio(x: real, y: real)
    requires x > 0.0 && y > 0.0
    ensures x / y > 0.0
  {
  }

  /** Nearest depth so far. */
  datatype Cell = Clear | Depth(d: real)

  function Lower(cell: Cell, d: real): Cell { if cell.Clear? || d < cell.d then Depth(d) else cell }

  /** The point's clipped window covers pixel (x, y). */
  predicate Covers(px: Pixel, sp: Splat, x: int, y: int)
    requires px.Pixel? ==> px.depth > 0.0
  {
    px.Pixel? && var r := Radius(sp, px.depth); px.u - r <= x <= px.u + r && px.v - r <= y <= px.v + r
  }

  ghost predicate Depths(pxs: seq<Pixel>) { forall i | 0 <= i < |pxs| && pxs[i].Pixel? :: pxs[i].depth > 0.0 }

  ghost predicate Hits(pxs: seq<Pixel>, sp: Splat, x: int, y: int, i: int)
    requires Depths(pxs)
  {
    0 <= i < |pxs| && Covers(pxs[i], sp, x, y)
  }

  /** The cell holds the least depth of the in-frame points whose window covers (x, y). */
  ghost predicate Nearest(pxs: seq<Pixel>, sp: Splat, x: int, y: int, cell: Cell)
    requires Depths(pxs)
  {
    match cell
    case Clear => forall i :: !Hits(pxs, sp, x, y, i)
    case Depth(d) => (exists i :: Hits(pxs, sp, x, y, i) && pxs[i].depth == d)
                     && forall i | Hits(pxs, sp, x, y, i) :: d <= pxs[i].depth
  }

  lemma NearestUnique(pxs: seq<Pixel>, sp: Splat, x: int, y: int, one: Cell, other: Cell)
    requires Depths(pxs) && Nearest(pxs, sp, x, y, one) && Nearest(pxs, sp, x, y, other)
    ensures one == other
  {
    hide Covers;
  }

  /** qxs lists the same points in another order. */
  ghost predicate Reordered(pxs: seq<Pixel>, qxs: seq<Pixel>) { multiset(pxs) == multiset(qxs) }

  /** The buffer does not depend on the order of the points. */
  lemma OrderFree(pxs: seq<Pixel>, qxs: seq<Pixel>, sp: Splat, x: int, y: int, cell: Cell)
    requires Depths(pxs) && Depths(qxs) && Reordered(pxs, qxs) && Nearest(pxs, sp, x, y, cell)
    ensures Nearest(qxs, sp, x, y, cell)
  {
    hide Covers;
    forall i | Hits(qxs, sp, x, y, i) ensures exists j :: Hits(pxs, sp, x, y, j) && pxs[j] == qxs[i] {
      assert qxs[i] in multiset(qxs);
      assert qxs[i] in multiset(pxs);
      var j :| 0 <= j < |pxs| && pxs[j] == qxs[i];
      assert Hits(pxs, sp, x, y, j);
    }
    forall i | Hits(pxs, sp, x, y, i) ensures exists j :: Hits(qxs, sp, x, y, j) && qxs[j] == pxs[i] {
      assert pxs[i] in multiset(pxs);
      assert pxs[i] in multiset(qxs);
      var j :| 0 <= j < |qxs| && qxs[j] == pxs[i];
      assert Hits(qxs, sp, x, y, j);
    }
  }

  // ---------- one point more ----------

  lemma NearestNone(sp: Splat, x: int, y: int)
    ensures Depths([]) && Nearest([], sp, x, y, Clear)
  {
  }

  lemma NearestMore(pxs: seq<Pixel>, px: Pixel, sp: Splat, x: int, y: int, cell: Cell)
    requires Depths(pxs) && (px.Pixel? ==> px.depth > 0.0) && Nearest(pxs, sp, x, y, cell)
    ensures Depths(pxs + [px])
    ensures Nearest(pxs + [px], sp, x, y, if Covers(px, sp, x, y) then Lower(cell, px.depth) else cell)
  {
    hide Covers;
    var all := pxs + [px];
    assert all[|pxs|] == px;
    forall i ensures Hits(all, sp, x, y, i) <==> Hits(pxs, sp, x, y, i) || (i == |pxs| && Covers(px, sp, x, y)) {
      if 0 <= i < |pxs| { assert all[i] == pxs[i]; }
    }
    if Covers(px, sp, x, y) {
      assert Hits(all, sp, x, y, |pxs|);
    }
    if cell.Depth? {
      var i :| Hits(pxs, sp, x, y, i) && pxs[i].depth == cell.d;
      assert Hits(all, sp, x, y, i) && all[i] == pxs[i];
    }
  }

  // ---------- the CPU passes ----------

  /** Every cell of the buffer holds its nearest depth. */
  ghost predicate BufferOk(zbuf: array2<Cell>, pxs: seq<Pixel>, sp: Splat)
    requires Depths(pxs)
    reads zbuf
  {
    forall y, x | 0 <= y < zbuf.Length0 && 0 <= x < zbuf.Length1 :: Nearest(pxs, sp, x, y, zbuf[y, x])
  }

  /** Cells of rows below vv, and of row vv below column uu, have taken in the point. */
  ghost predicate Taken(px: Pixel, sp: Splat, x: int, y: int, uu: int, vv: int)
    requires px.Pixel? ==> px.depth > 0.0
  {
    Covers(px, sp, x, y) && (y < vv || (y == vv && x < uu))
  }

  ghost predicate SplattedTo(zbuf: array2<Cell>, was: seq<seq<Cell>>, px: Pixel, sp: Splat, uu: int, vv: int)
    requires px.Pixel? && px.depth > 0.0
    requires |was| == zbuf.Length0 && forall y | 0 <= y < |was| :: |was[y]| == zbuf.Length1
    reads zbuf
  {
    forall y, x | 0 <= y < zbuf.Length0 && 0 <= x < zbuf.Length1 ::
      zbuf[y, x] == if Taken(px, sp, x, y, uu, vv) then Lower(was[y][x], px.depth) else was[y][x]
  }

  ghost function Grid(zbuf: array2<Cell>): (g: seq<seq<Cell>>)
    reads zbuf
    ensures |g| == zbuf.Length0 && forall y | 0 <= y < |g| :: |g[y]| == zbuf.Length1
    ensures forall y, x | 0 <= y < |g| && 0 <= x < zbuf.Length1 :: g[y][x] == zbuf[y, x]
  {
    seq(zbuf.Length0, y requires 0 <= y < zbuf.Length0 reads zbuf =>
      seq(zbuf.Length1, x requires 0 <= x < zbuf.Length1 reads zbuf => zbuf[y, x]))
  }

  /** Lower every cell of the point's clipped window. */
  method SplatPoint(zbuf: array2<Cell>, px: Pixel, sp: Splat)
    requires px.Pixel? && px.depth > 0.0 && SplatOk(sp)
    requires 0 <= px.u < zbuf.Length1 && 0 <= px.v < zbuf.Length0
    modifies zbuf
    ensures forall y, x | 0 <= y < zbuf.Length0 && 0 <= x < zbuf.Length1 ::
              zbuf[y, x] == if Covers(px, sp, x, y) then Lower(old(zbuf[y, x]), px.depth) else old(zbuf[y, x])
  {
    ghost var was := Grid(zbuf);
    var r := Radius(sp, px.depth);
    RadiusNonNegative(sp, px.depth);
    var w, h := zbuf.Length1, zbuf.Length0;
    var u0, u1 := if px.u - r > 0 then px.u - r else 0, if px.u + r < w - 1 then px.u + r else w - 1;
    var v0, v1 := if px.v - r > 0 then px.v - r else 0, if px.v + r < h - 1 then px.v + r else h - 1;
    var vv := v0;
    while vv <= v1
      invariant v0 <= vv <= v1 + 1 && SplattedTo(zbuf, was, px, sp, 0, vv)
    {
      var uu := u0;
      while uu <= u1
        invariant u0 <= uu <= u1 + 1 && SplattedTo(zbuf, was, px, sp, uu, vv)
      {
        if zbuf[vv, uu].Clear? || px.depth < zbuf[vv, uu].d { zbuf[vv, uu] := Depth(px.depth); }
        uu := uu + 1;
      }
      vv := vv + 1;
    }
  }

  method ProjectAll(cam: Camera, sp: Splat, points: seq<Point>, zbuf: array2<Cell>) returns (pxs: seq<Pixel>)
    requires SplatOk(sp) && zbuf.Length1 == cam.width && zbuf.Length0 == cam.height
    requires forall y, x | 0 <= y < cam.height && 0 <= x < cam.width :: zbuf[y, x] == Clear
    modifies zbuf
    ensures |pxs| == |points| && forall i | 0 <= i < |pxs| :: pxs[i] == Project(cam, points[i])
    ensures Depths(pxs) && BufferOk(zbuf, pxs, sp)
  {
    hide Project, Covers, Nearest;
    pxs := [];
    forall y, x | 0 <= y < cam.height && 0 <= x < cam.width ensures Nearest([], sp, x, y, zbuf[y, x]) { NearestNone(sp, x, y); }
    for i := 0 to |points|
      invariant |pxs| == i && forall k | 0 <= k < i :: pxs[k] == Project(cam, points[k])
      invariant Depths(pxs) && BufferOk(zbuf, pxs, sp)
    {
      var px := Project(cam, points[i]);
      InFrame(cam, points[i]);
      ghost var was := Grid(zbuf);
      if px.Pixel? { SplatPoint(zbuf, px, sp); }
      forall y, x | 0 <= y < zbuf.Length0 && 0 <= x < zbuf.Length1 ensures Nearest(pxs + [px], sp, x, y, zbuf[y, x]) {
        NearestMore(pxs, px, sp, x, y, was[y][x]);
        NotCovered(px, sp, x, y);
      }
      MoreDepths(pxs, px);
      pxs := pxs + [px];
    }
  }

  lemma InFrame(cam: Camera, p: Point)
    ensures Project(cam, p).Pixel? ==>
              0 <= Project(cam, p).u < cam.width && 0 <= Project(cam, p).v < cam.height && Project(cam, p).depth > 0.0
  {
  }

  lemma NotCovered(px: Pixel, sp: Splat, x: int, y: int)
    requires px.Pixel? ==> px.depth > 0.0
    ensures px.OffFrame? ==> !Covers(px, sp, x, y)
  {
  }

  lemma MoreDepths(pxs: seq<Pixel>, px: Pixel)
    requires Depths(pxs) && (px.Pixel? ==> px.depth > 0.0)
    ensures Depths(pxs + [px])
  {
  }

  function AbsReal(x: real): real { if x >= 0.0 then x else -x }

  /** The pixel's depth lies within tau of the nearest depth there. */
  ghost predicate Seen(pxs: seq<Pixel>, sp: Splat, tau: real, px: Pixel)
    requires Depths(pxs)
  {
    px.Pixel? && exists d :: Nearest(pxs, sp, px.u, px.v, Depth(d)) && AbsReal(px.depth - d) <= tau
  }

  ghost predicate Visible(pxs: seq<Pixel>, sp: Splat, tau: real, i: int)
    requires Depths(pxs) && 0 <= i < |pxs|
  {
    Seen(pxs, sp, tau, pxs[i])
  }

  /** A point's own splat reaches its own pixel, so that cell is never clear. */
  lemma OwnCell(pxs: seq<Pixel>, sp: Splat, i: int, cell: Cell)
    requires Depths(pxs) && SplatOk(sp) && 0 <= i < |pxs| && pxs[i].Pixel?
    requires Nearest(pxs, sp, pxs[i].u, pxs[i].v, cell)
    ensures cell.Depth? && cell.d <= pxs[i].depth
  {
    RadiusNonNegative(sp, pxs[i].depth);
    assert Hits(pxs, sp, pxs[i].u, pxs[i].v, i);
  }

  /** For a non-negative tolerance a nearest in-frame point is always visible. */
  lemma NearestPointVisible(pxs: seq<Pixel>, sp: Splat, tau: real, i: int, cell: Cell)
    requires Depths(pxs) && SplatOk(sp) && tau >= 0.0 && 0 <= i < |pxs| && pxs[i].Pixel?
    requires forall j | 0 <= j < |pxs| && pxs[j].Pixel? :: pxs[i].depth <= pxs[j].depth
    requires Nearest(pxs, sp, pxs[i].u, pxs[i].v, cell)
    ensures Visible(pxs, sp, tau, i)
  {
    OwnCell(pxs, sp, i, cell);
    var j :| Hits(pxs, sp, pxs[i].u, pxs[i].v, j) && pxs[j].depth == cell.d;
    assert pxs[i].depth - cell.d == 0.0;
  }

  datatype Match = Match(u: int, v: int, ok: int)

  function NumVisible(vis: seq<bool>): nat { if vis == [] then 0 else NumVisible(vis[..|vis| - 1]) + if vis[|vis| - 1] then 1 else 0 }

  /** Both passes: pixels, visibility, correspondences and the number of visible points. */
  method ProjectPointsToPixels(cam: Camera, sp: Splat, points: seq<Point>, tau: real)
    returns (pxs: seq<Pixel>, visible: seq<bool>, corr: seq<Match>, count: nat)
    requires SplatOk(sp)
    ensures |pxs| == |points| && forall i | 0 <= i < |pxs| :: pxs[i] == Project(cam, points[i])
    ensures Depths(pxs) && |visible| == |corr| == |pxs|
    ensures forall i | 0 <= i < |pxs| :: visible[i] <==> Visible(pxs, sp, tau, i)
    ensures forall i | 0 <= i < |pxs| ::
              corr[i] == if visible[i] && pxs[i].Pixel? then Match(pxs[i].u, pxs[i].v, 1) else Match(-1, -1, 0)
    ensures count == NumVisible(visible)
  {
    hide Project, Nearest;
    var zbuf := new Cell[cam.height, cam.width]((_, _) => Clear);
    pxs := ProjectAll(cam, sp, points, zbuf);
    visible, corr, count := [], [], 0;
    for i := 0 to |points|
      invariant |visible| == |corr| == i && BufferOk(zbuf, pxs, sp)
      invariant forall k | 0 <= k < i :: visible[k] <==> Visible(pxs, sp, tau, k)
      invariant forall k | 0 <= k < i :: corr[k] == if visible[k] && pxs[k].Pixel? then Match(pxs[k].u, pxs[k].v, 1) else Match(-1, -1, 0)
      invariant count == NumVisible(visible)
    {
      var seen := false;
      if pxs[i].Pixel? {
        InFrame(cam, points[i]);
        var cell := zbuf[pxs[i].v, pxs[i].u];
        OwnCell(pxs, sp, i, cell);
        seen := AbsReal(pxs[i].depth - cell.d) <= tau;
        VisibleBy(pxs, sp, tau, i, cell);
      }
      assert (visible + [seen])[..|visible|] == visible;
      visible, corr := visible + [seen], corr + [if seen then Match(pxs[i].u, pxs[i].v, 1) else Match(-1, -1, 0)];
      if seen { count := count + 1; }
    }
  }

  /** The pixels found visible, in order. */
  function Passed(pxs: seq<Pixel>, vis: seq<bool>): (r: seq<Pixel>)
    requires |vis| == |pxs|
    ensures |r| == NumVisible(vis)
  {
    if pxs == [] then []
    else var n := |pxs| - 1; Passed(pxs[..n], vis[..n]) + if vis[n] then [pxs[n]] else []
  }

  lemma {:induction false} PassedCounts(all: seq<Pixel>, sp: Splat, tau: real, pxs: seq<Pixel>, vis: seq<bool>, px: Pixel)
    requires Depths(all) && |vis| == |pxs| && forall i | 0 <= i < |pxs| :: vis[i] <==> Seen(all, sp, tau, pxs[i])
    ensures multiset(Passed(pxs, vis))[px] == if Seen(all, sp, tau, px) then multiset(pxs)[px] else 0
    decreases |pxs|
  {
    hide Seen;
    if pxs != [] {
      var n := |pxs| - 1;
      PassedCounts(all, sp, tau, pxs[..n], vis[..n], px);
      assert pxs == pxs[..n] + [pxs[n]];
    }
  }

  /** Reordering the points changes neither which are visible nor how many. */
  lemma VisibleOrderFree(pxs: seq<Pixel>, qxs: seq<Pixel>, sp: Splat, tau: real, vis: seq<bool>, wis: seq<bool>)
    requires Depths(pxs) && Depths(qxs) && Reordered(pxs, qxs) && |vis| == |pxs| && |wis| == |qxs|
    requires forall i | 0 <= i < |pxs| :: vis[i] <==> Visible(pxs, sp, tau, i)
    requires forall i | 0 <= i < |qxs| :: wis[i] <==> Visible(qxs, sp, tau, i)
    ensures multiset(Passed(pxs, vis)) == multiset(Passed(qxs, wis)) && NumVisible(vis) == NumVisible(wis)
  {
    hide Seen, Passed, NumVisible, Reordered;
    var a, b := Passed(pxs, vis), Passed(qxs, wis);
    forall px ensures multiset(a)[px] == multiset(b)[px] {
      PassedCounts(pxs, sp, tau, pxs, vis, px);
      PassedCounts(qxs, sp, tau, qxs, wis, px);
      SeenOrderFree(pxs, qxs, sp, tau, px);
      SameMany(pxs, qxs, px);
    }
    SameBag(a, b);
  }

  lemma SameMany(pxs: seq<Pixel>, qxs: seq<Pixel>, px: Pixel)
    requires Reordered(pxs, qxs)
    ensures multiset(pxs)[px] == multiset(qxs)[px]
  {
  }

  lemma SameBag(xs: seq<Pixel>, ys: seq<Pixel>)
    requires forall px :: multiset(xs)[px] == multiset(ys)[px]
    ensures multiset(xs) == multiset(ys) && |xs| == |ys|
  {
    assert multiset(xs) == multiset(ys);
    assert |multiset(xs)| == |xs| && |multiset(ys)| == |ys|;
  }

  lemma SeenOrderFree(pxs: seq<Pixel>, qxs: seq<Pixel>, sp: Splat, tau: real, px: Pixel)
    requires Depths(pxs) && Depths(qxs) && Reordered(pxs, qxs)
    ensures Seen(pxs, sp, tau, px) <==> Seen(qxs, sp, tau, px)
  {
    hide Nearest;
    if px.Pixel? {
      forall d ensures Nearest(pxs, sp, px.u, px.v, Depth(d)) <==> Nearest(qxs, sp, px.u, px.v, Depth(d)) {
        if Nearest(pxs, sp, px.u, px.v, Depth(d)) { OrderFree(pxs, qxs, sp, px.u, px.v, Depth(d)); }
        if Nearest(qxs, sp, px.u, px.v, Depth(d)) { OrderFree(qxs, pxs, sp, px.u, px.v, Depth(d)); }
      }
    }
  }

  lemma VisibleBy(pxs: seq<Pixel>, sp: Splat, tau: real, i: int, cell: Cell)
    requires Depths(pxs) && 0 <= i < |pxs| && pxs[i].Pixel? && cell.Depth?
    requires Nearest(pxs, sp, pxs[i].u, pxs[i].v, cell)
    ensures Visible(pxs, sp, tau, i) <==> AbsReal(pxs[i].depth - cell.d) <= tau
  {
    hide Nearest;
    forall d | Nearest(pxs, sp, pxs[i].u, pxs[i].v, Depth(d)) ensures d == cell.d {
      NearestUnique(pxs, sp, pxs[i].u, pxs[i].v, Depth(d), cell);
    }
  }

  // ---------- the GPU kernels: any interleaving of atomic minimums ----------

  /** One thread per point; done[i] counts the cells thread i has lowered, row by row. */
  datatype Kernel = Kernel(zbuf: map<(int, int), Cell>, done: seq<nat>)

  /** A point's clipped window: corner, width and height. */
  datatype Window = Window(u0: int, v0: int, w: nat, h: nat)

  function WindowOf(px: Pixel, sp: Splat, width: nat, height: nat): Window
    requires px.Pixel? ==> px.depth > 0.0
  {
    if px.OffFrame? then Window(0, 0, 0, 0)
    else var r := KernelRadius(sp, px.depth);
         var u0, u1 := if px.u - r > 0 then px.u - r else 0, if px.u + r < width - 1 then px.u + r else width - 1;
         var v0, v1 := if px.v - r > 0 then px.v - r else 0, if px.v + r < height - 1 then px.v + r else height - 1;
         Window(u0, v0, if u1 < u0 then 0 else u1 - u0 + 1, if v1 < v0 then 0 else v1 - v0 + 1)
  }

  function Size(win: Window): nat { win.w * win.h }

  /** The k-th cell of a window in row order. */
  function CellAt(win: Window, k: nat): (int, int)
    requires win.w > 0
  {
    (win.u0 + k % win.w, win.v0 + k / win.w)
  }

  ghost predicate Fits(s: Kernel, pxs: seq<Pixel>, width: nat, height: nat) {
    |s.done| == |pxs| && forall x, y | 0 <= x < width && 0 <= y < height :: (x, y) in s.zbuf
  }

  ghost predicate Start(s: Kernel, pxs: seq<Pixel>, width: nat, height: nat) {
    && Fits(s, pxs, width, height)
    && (forall i | 0 <= i < |pxs| :: s.done[i] == 0)
    && forall c | c in s.zbuf :: s.zbuf[c] == Clear
  }

  /** Thread i performs its next atomic minimum. */
  ghost predicate ThreadStep(s: Kernel, s': Kernel, pxs: seq<Pixel>, sp: Splat, width: nat, height: nat, i: int)
    requires Depths(pxs)
  {
    && 0 <= i < |pxs| == |s.done| && pxs[i].Pixel?
    && var win := WindowOf(pxs[i], sp, width, height);
       && win.w > 0 && s.done[i] < Size(win)
       && var c := CellAt(win, s.done[i]);
          c in s.zbuf && s' == Kernel(s.zbuf[c := Lower(s.zbuf[c], pxs[i].depth)], s.done[i := s.done[i] + 1])
  }

  ghost predicate KernelStep(s: Kernel, s': Kernel, pxs: seq<Pixel>, sp: Splat, width: nat, height: nat)
    requires Depths(pxs)
  {
    exists i :: ThreadStep(s, s', pxs, sp, width, height, i)
  }

  /** A run of the project kernel: any thread may move next, at every step. */
  ghost predicate Schedule(run: seq<Kernel>, pxs: seq<Pixel>, sp: Splat, width: nat, height: nat)
    requires Depths(pxs)
  {
    && run != [] && Start(run[0], pxs, width, height)
    && forall k | 0 < k < |run| :: KernelStep(run[k - 1], run[k], pxs, sp, width, height)
  }

  /** Every thread has finished its window. */
  ghost predicate Finished(s: Kernel, pxs: seq<Pixel>, sp: Splat, width: nat, height: nat)
    requires Depths(pxs)
  {
    |s.done| == |pxs| && forall i | 0 <= i < |pxs| :: s.done[i] == Size(WindowOf(pxs[i], sp, width, height))
  }

  /** Thread i has already lowered cell (x, y). */
  ghost predicate HasHit(s: Kernel, pxs: seq<Pixel>, sp: Splat, width: nat, height: nat, x: int, y: int, i: int)
    requires Depths(pxs)
  {
    && 0 <= i < |pxs| == |s.done| && pxs[i].Pixel?
    && exists k: nat :: HitsAt(WindowOf(pxs[i], sp, width, height), s.done[i], x, y, k)
  }

  ghost predicate HitsAt(win: Window, done: nat, x: int, y: int, k: nat) {
    win.w > 0 && k < done && k < Size(win) && CellAt(win, k) == (x, y)
  }

  /** The cell is the least depth among the threads that have hit it. */
  ghost predicate CellSoFar(s: Kernel, pxs: seq<Pixel>, sp: Splat, width: nat, height: nat, x: int, y: int)
    requires Depths(pxs)
  {
    (x, y) in s.zbuf &&
    match s.zbuf[(x, y)]
    case Clear => forall i :: !HasHit(s, pxs, sp, width, height, x, y, i)
    case Depth(d) => (exists i :: HasHit(s, pxs, sp, width, height, x, y, i) && pxs[i].depth == d)
                     && forall i | HasHit(s, pxs, sp, width, height, x, y, i) :: d <= pxs[i].depth
  }

  ghost predicate KernelInv(s: Kernel, pxs: seq<Pixel>, sp: Splat, width: nat, height: nat)
    requires Depths(pxs)
  {
    Fits(s, pxs, width, height) && forall x, y | 0 <= x < width && 0 <= y < height :: CellSoFar(s, pxs, sp, width, height, x, y)
  }

  lemma StartInv(s: Kernel, pxs: seq<Pixel>, sp: Splat, width: nat, height: nat)
    requires Depths(pxs) && Start(s, pxs, width, height)
    ensures KernelInv(s, pxs, sp, width, height)
  {
    hide WindowOf, Size, CellAt;
  }

  /** One more hit of thread i, at the cell of its step. */
  lemma HitMore(s: Kernel, s': Kernel, pxs: seq<Pixel>, sp: Splat, width: nat, height: nat, i: int, x: int, y: int, j: int)
    requires Depths(pxs) && ThreadStep(s, s', pxs, sp, width, height, i)
    ensures HasHit(s', pxs, sp, width, height, x, y, j) <==>
            HasHit(s, pxs, sp, width, height, x, y, j)
            || (j == i && CellAt(WindowOf(pxs[i], sp, width, height), s.done[i]) == (x, y))
  {
    hide WindowOf, Size, CellAt;
    var win := WindowOf(pxs[i], sp, width, height);
    if j == i {
      if CellAt(win, s.done[i]) == (x, y) { assert HitsAt(win, s'.done[i], x, y, s.done[i]); }
      if HasHit(s, pxs, sp, width, height, x, y, i) {
        var k: nat :| HitsAt(win, s.done[i], x, y, k);
        assert HitsAt(win, s'.done[i], x, y, k);
      }
      if HasHit(s', pxs, sp, width, height, x, y, i) {
        var k: nat :| HitsAt(win, s'.done[i], x, y, k);
        if k < s.done[i] { assert HitsAt(win, s.done[i], x, y, k); }
      }
    } else if 0 <= j < |pxs| {
      assert s'.done[j] == s.done[j];
    }
  }

  lemma StepInv(s: Kernel, s': Kernel, pxs: seq<Pixel>, sp: Splat, width: nat, height: nat)
    requires Depths(pxs) && KernelInv(s, pxs, sp, width, height) && KernelStep(s, s', pxs, sp, width, height)
    ensures KernelInv(s', pxs, sp, width, height)
  {
    hide WindowOf, Size, CellAt, HasHit;
    var i :| ThreadStep(s, s', pxs, sp, width, height, i);
    forall x, y | 0 <= x < width && 0 <= y < height ensures CellSoFar(s', pxs, sp, width, height, x, y) {
      assert CellSoFar(s, pxs, sp, width, height, x, y);
      forall j ensures HasHit(s', pxs, sp, width, height, x, y, j) <==>
                       HasHit(s, pxs, sp, width, height, x, y, j)
                       || (j == i && CellAt(WindowOf(pxs[i], sp, width, height), s.done[i]) == (x, y))
      {
        HitMore(s, s', pxs, sp, width, height, i, x, y, j);
      }
    }
  }

  lemma {:induction false} ScheduleInv(run: seq<Kernel>, pxs: seq<Pixel>, sp: Splat, width: nat, height: nat)
    requires Depths(pxs) && Schedule(run, pxs, sp, width, height)
    ensures KernelInv(run[|run| - 1], pxs, sp, width, height)
    decreases |run|
  {
    hide KernelInv, KernelStep, Start;
    var n := |run| - 1;
    if n == 0 {
      StartInv(run[0], pxs, sp, width, height);
    } else {
      ScheduleInv(run[..n], pxs, sp, width, height);
      StepInv(run[n - 1], run[n], pxs, sp, width, height);
    }
  }

  // ---------- windows ----------

  lemma InWindow(px: Pixel, sp: Splat, width: nat, height: nat, x: int, y: int)
    requires SplatOk(sp) && px.Pixel? && px.depth > 0.0 && 0 <= x < width && 0 <= y < height
    ensures var win := WindowOf(px, sp, width, height);
            Covers(px, sp, x, y) <==> win.u0 <= x < win.u0 + win.w && win.v0 <= y < win.v0 + win.h
  {
    hide Radius, KernelRadius, SplatOk;
    KernelRadiusIs(sp, px.depth);
  }

  /** The cells of a window, row by row, are exactly its cells. */
  lemma RowOrder(win: Window, x: int, y: int)
    requires win.w > 0
    ensures win.u0 <= x < win.u0 + win.w && win.v0 <= y < win.v0 + win.h <==>
            exists k: nat :: k < Size(win) && CellAt(win, k) == (x, y)
  {
    if win.u0 <= x < win.u0 + win.w && win.v0 <= y < win.v0 + win.h {
      var q, r := y - win.v0, x - win.u0;
      Index(q, r, win.w, win.h);
      assert CellAt(win, q * win.w + r) == (x, y);
    }
    if exists k: nat :: k < Size(win) && CellAt(win, k) == (x, y) {
      var k: nat :| k < Size(win) && CellAt(win, k) == (x, y);
      Rows(k, win.w, win.h);
    }
  }

  lemma Index(q: nat, r: nat, w: nat, h: nat)
    requires r < w && q < h
    ensures q * w + r < w * h && (q * w + r) / w == q && (q * w + r) % w == r
  {
    Gap(h, q, w);
    RemainderIs(q * w + r, w, q, r);
    QuotientIs(q * w + r, w, q, r);
  }

  lemma Rows(k: nat, w: nat, h: nat)
    requires w > 0 && k < w * h
    ensures 0 <= k / w < h && 0 <= k % w < w
  {
    Division.Quotient(k, w);
    Gap(k / w + 1, h, w);
    assert (k / w + 1) * w == k / w * w + w;
  }

  lemma FinishedHits(s: Kernel, pxs: seq<Pixel>, sp: Splat, width: nat, height: nat, x: int, y: int, i: int)
    requires Depths(pxs) && SplatOk(sp) && Finished(s, pxs, sp, width, height) && 0 <= x < width && 0 <= y < height
    ensures HasHit(s, pxs, sp, width, height, x, y, i) <==> Hits(pxs, sp, x, y, i)
  {
    hide WindowOf, Size, CellAt, Radius, Covers;
    if 0 <= i < |pxs| && pxs[i].Pixel? {
      var win := WindowOf(pxs[i], sp, width, height);
      InWindow(pxs[i], sp, width, height, x, y);
      if win.w > 0 { RowOrder(win, x, y); }
      if Hits(pxs, sp, x, y, i) {
        var k: nat :| k < Size(win) && CellAt(win, k) == (x, y);
        assert HitsAt(win, s.done[i], x, y, k);
      }
    }
    if 0 <= i < |pxs| && pxs[i].OffFrame? { NotCovered(pxs[i], sp, x, y); }
  }

  /** Whatever the interleaving, the finished kernel leaves in every cell the nearest covering depth:
      the very buffer the CPU passes leave. */
  lemma InterleavingFree(run: seq<Kernel>, pxs: seq<Pixel>, sp: Splat, width: nat, height: nat, x: int, y: int)
    requires Depths(pxs) && SplatOk(sp) && Schedule(run, pxs, sp, width, height) && 0 <= x < width && 0 <= y < height
    requires Finished(run[|run| - 1], pxs, sp, width, height)
    ensures (x, y) in run[|run| - 1].zbuf && Nearest(pxs, sp, x, y, run[|run| - 1].zbuf[(x, y)])
  {
    hide HasHit, Hits, Finished, KernelStep, Start;
    ScheduleInv(run, pxs, sp, width, height);
    var s := run[|run| - 1];
    assert CellSoFar(s, pxs, sp, width, height, x, y);
    forall i ensures HasHit(s, pxs, sp, width, height, x, y, i) <==> Hits(pxs, sp, x, y, i) {
      FinishedHits(s, pxs, sp, width, height, x, y, i);
    }
  }

  // ---------- every interleaving comes to an end ----------

  ghost predicate AllInFrame(pxs: seq<Pixel>, width: nat, height: nat) {
    forall i | 0 <= i < |pxs| && pxs[i].Pixel? :: 0 <= pxs[i].u < width && 0 <= pxs[i].v < height
  }

  /** No thread ever leaves the buffer. */
  lemma WindowInFrame(px: Pixel, sp: Splat, width: nat, height: nat, k: nat)
    requires px.Pixel? && px.depth > 0.0 && 0 <= px.u < width && 0 <= px.v < height
    requires k < Size(WindowOf(px, sp, width, height))
    ensures var win := WindowOf(px, sp, width, height);
            win.w > 0 && 0 <= CellAt(win, k).0 < width && 0 <= CellAt(win, k).1 < height
  {
    hide KernelRadius;
    var win := WindowOf(px, sp, width, height);
    SomeWidth(win.w, win.h);
    Rows(k, win.w, win.h);
  }

  lemma SomeWidth(w: nat, h: nat)
    requires w * h > 0
    ensures w > 0
  {
  }

  ghost predicate WithinWork(s: Kernel, pxs: seq<Pixel>, sp: Splat, width: nat, height: nat)
    requires Depths(pxs)
  {
    |s.done| == |pxs| && forall i | 0 <= i < |pxs| :: s.done[i] <= Size(WindowOf(pxs[i], sp, width, height))
  }

  function Sum(ns: seq<nat>): nat { if ns == [] then 0 else Sum(ns[..|ns| - 1]) + ns[|ns| - 1] }

  lemma {:induction false} SumMore(ns: seq<nat>, i: nat)
    requires i < |ns|
    ensures Sum(ns[i := ns[i] + 1]) == Sum(ns) + 1
    decreases |ns|
  {
    var n := |ns| - 1;
    if i == n {
      assert ns[i := ns[i] + 1][..n] == ns[..n];
    } else {
      assert ns[i := ns[i] + 1][..n] == ns[..n][i := ns[i] + 1];
      SumMore(ns[..n], i);
    }
  }

  lemma {:induction false} SumAtMost(ns: seq<nat>, ms: seq<nat>)
    requires |ns| == |ms| && forall i | 0 <= i < |ns| :: ns[i] <= ms[i]
    ensures Sum(ns) <= Sum(ms) && (Sum(ns) == Sum(ms) <==> ns == ms)
    decreases |ns|
  {
    if ns != [] {
      var n := |ns| - 1;
      SumAtMost(ns[..n], ms[..n]);
      assert ns == ns[..n] + [ns[n]] && ms == ms[..n] + [ms[n]];
    }
  }

  lemma {:induction false} NoneDone(ns: seq<nat>)
    requires forall i | 0 <= i < |ns| :: ns[i] == 0
    ensures Sum(ns) == 0
    decreases |ns|
  {
    if ns != [] { NoneDone(ns[..|ns| - 1]); }
  }

  ghost function Cells(pxs: seq<Pixel>, sp: Splat, width: nat, height: nat): (r: seq<nat>)
    requires Depths(pxs)
    ensures |r| == |pxs| && forall i | 0 <= i < |pxs| :: r[i] == Size(WindowOf(pxs[i], sp, width, height))
  {
    seq(|pxs|, i requires 0 <= i < |pxs| => Size(WindowOf(pxs[i], sp, width, height)))
  }

  lemma {:induction false} WorkDone(run: seq<Kernel>, pxs: seq<Pixel>, sp: Splat, width: nat, height: nat)
    requires Depths(pxs) && Schedule(run, pxs, sp, width, height)
    ensures WithinWork(run[|run| - 1], pxs, sp, width, height) && Sum(run[|run| - 1].done) == |run| - 1
    decreases |run|
  {
    hide WindowOf, Size, CellAt;
    var n := |run| - 1;
    if n == 0 {
      NoneDone(run[0].done);
    } else {
      WorkDone(run[..n], pxs, sp, width, height);
      var (s, s') := (run[n - 1], run[n]);
      assert s == run[..n][n - 1] && KernelStep(s, s', pxs, sp, width, height);
      var i :| ThreadStep(s, s', pxs, sp, width, height, i);
      SumMore(s.done, i);
    }
  }

  /** No interleaving takes more steps than the windows have cells, and it has finished exactly when it has
      taken that many. */
  lemma FinishedIff(run: seq<Kernel>, pxs: seq<Pixel>, sp: Splat, width: nat, height: nat)
    requires Depths(pxs) && Schedule(run, pxs, sp, width, height)
    ensures |run| - 1 <= Sum(Cells(pxs, sp, width, height))
    ensures Finished(run[|run| - 1], pxs, sp, width, height) <==> |run| - 1 == Sum(Cells(pxs, sp, width, height))
  {
    hide WindowOf, Size, Schedule;
    WorkDone(run, pxs, sp, width, height);
    SumAtMost(run[|run| - 1].done, Cells(pxs, sp, width, height));
  }

  /** Until it has finished, some thread can always move. */
  lemma NeverStuck(run: seq<Kernel>, pxs: seq<Pixel>, sp: Splat, width: nat, height: nat) returns (s': Kernel)
    requires Depths(pxs) && AllInFrame(pxs, width, height) && Schedule(run, pxs, sp, width, height)
    requires !Finished(run[|run| - 1], pxs, sp, width, height)
    ensures Schedule(run + [s'], pxs, sp, width, height)
  {
    hide WindowOf, CellAt, CellSoFar, Lower, Start;
    var s := run[|run| - 1];
    WorkDone(run, pxs, sp, width, height);
    ScheduleInv(run, pxs, sp, width, height);
    var i :| 0 <= i < |pxs| && s.done[i] < Size(WindowOf(pxs[i], sp, width, height));
    OnScreen(pxs[i], sp, width, height);
    WindowInFrame(pxs[i], sp, width, height, s.done[i]);
    var c := CellAt(WindowOf(pxs[i], sp, width, height), s.done[i]);
    s' := Kernel(s.zbuf[c := Lower(s.zbuf[c], pxs[i].depth)], s.done[i := s.done[i] + 1]);
    assert ThreadStep(s, s', pxs, sp, width, height, i);
    var longer := run + [s'];
    forall k | 0 < k < |longer| ensures KernelStep(longer[k - 1], longer[k], pxs, sp, width, height) {
      if k < |run| { assert longer[k - 1] == run[k - 1] && longer[k] == run[k]; }
    }
  }

  lemma OnScreen(px: Pixel, sp: Splat, width: nat, height: nat)
    requires px.Pixel? ==> px.depth > 0.0
    ensures px.OffFrame? ==> Size(WindowOf(px, sp, width, height)) == 0
  {
  }

  /** What the visibility kernel decides for a pixel. */
  ghost predicate KernelSees(zbuf: map<(int, int), Cell>, tau: real, px: Pixel) {
    && px.Pixel? && (px.u, px.v) in zbuf
    && var cell := zbuf[(px.u, px.v)]; cell.Depth? && AbsReal(px.depth - cell.d) <= tau
  }

  /** After any finished interleaving the visibility kernel passes exactly the points the CPU finds visible. */
  lemma KernelsAgree(run: seq<Kernel>, cam: Camera, points: seq<Point>, pxs: seq<Pixel>, sp: Splat, tau: real, i: int)
    requires |pxs| == |points| && forall k | 0 <= k < |pxs| :: pxs[k] == Project(cam, points[k])
    requires Depths(pxs) && SplatOk(sp) && Schedule(run, pxs, sp, cam.width, cam.height) && 0 <= i < |pxs|
    requires Finished(run[|run| - 1], pxs, sp, cam.width, cam.height)
    ensures KernelSees(run[|run| - 1].zbuf, tau, pxs[i]) <==> Visible(pxs, sp, tau, i)
  {
    hide Project, KernelStep, Start, Finished, Nearest, SplatOk;
    if pxs[i].Pixel? {
      InFrame(cam, points[i]);
      InterleavingFree(run, pxs, sp, cam.width, cam.height, pxs[i].u, pxs[i].v);
      var cell := run[|run| - 1].zbuf[(pxs[i].u, pxs[i].v)];
      OwnCell(pxs, sp, i, cell);
      VisibleBy(pxs, sp, tau, i, cell);
    }
  }
}
