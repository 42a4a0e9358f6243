/** The published polygon and centroid in coordinates. */
module HullLaws {
  import opened Plane
  import opened ConvexHull
  import opened RoomObjects

  /** Twice the signed area of the triangle from the edge a, b to q: positive when q lies to the left. */
  ghost predicate AreaIs(a: Pt, b: Pt, q: Pt, x: real) { x == (b.x - a.x) * (q.y - a.y) - (b.y - a.y) * (q.x - a.x) }

  /** Seen from each edge of the polygon, counter-clockwise, no point lies to the right. */
  lemma NoneOutside(h: seq<Pt>, pts: seq<Pt>, j: nat, q: Pt, x: real)
    requires Encloses(h, pts) && j < |h| && q in pts && AreaIs(h[j], if j + 1 < |h| then h[j + 1] else h[0], q, x)
    ensures x >= 0.0
  {
    hide Cross, AreaIs;
    AreaOf(h[j], Next(h, j), q, x);
    assert Cross(h[j], Next(h, j), q) >= 0.0;
  }

  /** Every corner of a polygon of three or more is a strict left turn. */
  lemma CornersTurnLeft(h: seq<Pt>, j: nat, x: real)
    requires StrictlyConvex(h) && j < |h|
    requires var k := if j + 1 < |h| then j + 1 else 0; AreaIs(h[j], h[k], if k + 1 < |h| then h[k + 1] else h[0], x)
    ensures |h| >= 3 && x > 0.0
  {
    hide Cross, AreaIs;
    var k := if j + 1 < |h| then j + 1 else 0;
    AreaOf(h[j], h[k], Next(h, k), x);
    assert Cross(h[j], Next(h, j), Next(h, k)) > 0.0;
  }

  /** Points all on one line give its two ends, or the one point. */
  lemma CollinearIff(pts: seq<Pt>)
    ensures Collinear(pts) <==> forall a, b, c, x | a in pts && b in pts && c in pts && AreaIs(a, b, c, x) :: x == 0.0
  {
    hide Cross;
    forall a, b, c, x ensures AreaIs(a, b, c, x) <==> x == Cross(a, b, c) { AreaOf(a, b, c, x); }
    if forall a, b, c, x | a in pts && b in pts && c in pts && AreaIs(a, b, c, x) :: x == 0.0 {
      forall a, b, c | a in pts && b in pts && c in pts ensures Cross(a, b, c) == 0.0 { assert AreaIs(a, b, c, Cross(a, b, c)); }
    }
  }

  lemma AreaOf(a: Pt, b: Pt, c: Pt, x: real)
    ensures AreaIs(a, b, c, x) <==> x == Cross(a, b, c)
  {
  }

  lemma {:induction false} SumMoves(pts: seq<Pt>, i: nat, p: Pt)
    requires i < |pts|
    ensures SumX(pts[i := p]) == SumX(pts) + p.x - pts[i].x && SumY(pts[i := p]) == SumY(pts) + p.y - pts[i].y
    decreases |pts|
  {
    var n := |pts| - 1;
    if i == n {
      assert pts[i := p][..n] == pts[..n];
    } else {
      assert pts[i := p][..n] == pts[..n][i := p];
      SumMoves(pts[..n], i, p);
    }
  }

  /** Moving one of n points moves the centroid by an n-th of the way. */
  lemma CentroidMoves(pts: seq<Pt>, c: Pt, i: nat, p: Pt, c': Pt)
    requires i < |pts| && IsCentroid(pts, c) && IsCentroid(pts[i := p], c')
    ensures |pts| as real * (c'.x - c.x) == p.x - pts[i].x && |pts| as real * (c'.y - c.y) == p.y - pts[i].y
  {
    SumMoves(pts, i, p);
    var n := |pts| as real;
    assert n * (c'.x - c.x) == n * c'.x - n * c.x && n * (c'.y - c.y) == n * c'.y - n * c.y;
  }

  /** A single point is its own centroid. */
  lemma CentroidOfOne(p: Pt, c: Pt)
    ensures IsCentroid([p], c) <==> c == p
  {
    assert [p][..0] == [] && SumX([p]) == SumX([]) + p.x == p.x && SumY([p]) == SumY([]) + p.y == p.y;
    assert 1.0 * c.x == c.x && 1.0 * c.y == c.y;
  }
}
