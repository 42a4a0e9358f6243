/** Which pixel a point has, which pixels its splat reaches and which points are visible, in coordinates. */
module PixelLaws {
  import opened Basics
  import opened ZBuffer

  /** n is the integer nearest to x / c, a half rounded up. */
  ghost predicate NearestTo(x: real, c: real, n: int) {
    2.0 * x - c < 2.0 * n as real * c <= 2.0 * x + c
  }

  lemma RoundIs(x: real, c: real, n: int)
    requires c > 0.0
    ensures NearestTo(x, c, n) <==> n == Round(x / c)
  {
    var q := x / c;
    assert q * c == x;
    var f := n as real;
    Compare(f, q + 0.5, c);
    Compare(q + 0.5, f + 1.0, c);
    Compare(q + 0.5, f, c);
    Compare(f + 1.0, q + 0.5, c);
    assert (q + 0.5) * c == x + c / 2.0;
    assert (f + 1.0) * c == f * c + c;
    assert n == (q + 0.5).Floor <==> f <= q + 0.5 < f + 1.0;
  }

  lemma Compare(a: real, b: real, c: real)
    requires c > 0.0
    ensures a <= b ==> a * c <= b * c
    ensures a < b ==> a * c < b * c
  {
    if a < b { Positive(b - a, c); assert (b - a) * c == b * c - a * c; }
  }

  /** The three products of a point with the rows of the projection. */
  ghost predicate Products(cam: Camera, p: Point, A: real, B: real, C: real) {
    && A == cam.a.x * p.x + cam.a.y * p.y + cam.a.z * p.z + cam.a.w
    && B == cam.b.x * p.x + cam.b.y * p.y + cam.b.z * p.z + cam.b.w
    && C == cam.c.x * p.x + cam.c.y * p.y + cam.c.z * p.z + cam.c.w
  }

  /** (u, v) is the pixel of the frame nearest to (A / C, B / C), in front of the camera. */
  ghost predicate ProjectsTo(cam: Camera, A: real, B: real, C: real, u: int, v: int) {
    C > 0.0 && 0 <= u < cam.width && 0 <= v < cam.height && NearestTo(A, C, u) && NearestTo(B, C, v)
  }

  /** A point has pixel (u, v), at its depth, exactly when that is the pixel of the frame nearest to its
      projection. */
  lemma PixelIff(cam: Camera, p: Point, A: real, B: real, C: real, u: int, v: int)
    requires Products(cam, p, A, B, C)
    ensures Project(cam, p).depth == C
    ensures ProjectsTo(cam, A, B, C, u, v) <==> Project(cam, p).Pixel? && Project(cam, p).u == u && Project(cam, p).v == v
  {
    hide NearestTo, Round, Apply, Products;
    ProductsAre(cam, p, A, B, C);
    if C > 0.0 {
      RoundIs(A, C, u);
      RoundIs(B, C, v);
    }
  }

  lemma ProductsAre(cam: Camera, p: Point, A: real, B: real, C: real)
    requires Products(cam, p, A, B, C)
    ensures A == Apply(cam.a, p) && B == Apply(cam.b, p) && C == Apply(cam.c, p)
  {
  }

  /** It is off the frame exactly when there is no such pixel. */
  lemma OffFrameIff(cam: Camera, p: Point, A: real, B: real, C: real)
    requires Products(cam, p, A, B, C)
    ensures Project(cam, p).OffFrame? <==> forall u, v :: !ProjectsTo(cam, A, B, C, u, v)
  {
    hide ProjectsTo, Project, Products;
    forall u, v ensures Project(cam, p).OffFrame? ==> !ProjectsTo(cam, A, B, C, u, v) { PixelIff(cam, p, A, B, C, u, v); }
    if Project(cam, p).Pixel? { PixelIff(cam, p, A, B, C, Project(cam, p).u, Project(cam, p).v); }
  }

  /** The radius is the whole number nearest to footprint over depth, kept between the bounds; without a
      footprint it is the upper bound. */
  lemma RadiusIs(sp: Splat, depth: real, n: int)
    requires depth > 0.0 && SplatOk(sp)
    ensures sp.footprint <= 0.0 ==> Radius(sp, depth) == sp.rMax
    ensures sp.footprint > 0.0 && NearestTo(sp.footprint, depth, n) ==>
              && sp.min <= Radius(sp, depth) <= sp.rMax
              && (sp.min <= n <= sp.rMax ==> Radius(sp, depth) == n)
              && (n < sp.min ==> Radius(sp, depth) == sp.min) && (n > sp.rMax ==> Radius(sp, depth) == sp.rMax)
    ensures sp.footprint > 0.0 ==> exists k :: NearestTo(sp.footprint, depth, k)
  {
    hide NearestTo, Round;
    if sp.footprint > 0.0 {
      RoundIs(sp.footprint, depth, n);
      RoundIs(sp.footprint, depth, Round(sp.footprint / depth));
    }
  }

  /** Point j is drawn over pixel (x, y): its own pixel is within its radius in both directions. */
  ghost predicate DrawnOver(pxs: seq<Pixel>, sp: Splat, x: int, y: int, j: int)
    requires Depths(pxs)
  {
    && 0 <= j < |pxs| && pxs[j].Pixel?
    && var r := Radius(sp, pxs[j].depth);
       x - pxs[j].u <= r && pxs[j].u - x <= r && y - pxs[j].v <= r && pxs[j].v - y <= r
  }

  lemma DrawnIff(pxs: seq<Pixel>, sp: Splat, x: int, y: int, j: int)
    requires Depths(pxs)
    ensures DrawnOver(pxs, sp, x, y, j) <==> Hits(pxs, sp, x, y, j)
  {
    hide Radius;
  }

  /** A point of the frame is visible exactly when no point drawn over its pixel is nearer by more than the
      tolerance. */
  lemma VisibleIff(pxs: seq<Pixel>, sp: Splat, tau: real, i: int, cell: Cell)
    requires Depths(pxs) && SplatOk(sp) && 0 <= i < |pxs| && pxs[i].Pixel?
    requires Nearest(pxs, sp, pxs[i].u, pxs[i].v, cell)
    ensures Visible(pxs, sp, tau, i) <==> forall j | DrawnOver(pxs, sp, pxs[i].u, pxs[i].v, j) :: pxs[i].depth - pxs[j].depth <= tau
  {
    hide DrawnOver, Covers;
    OwnCell(pxs, sp, i, cell);
    VisibleBy(pxs, sp, tau, i, cell);
    var x, y := pxs[i].u, pxs[i].v;
    forall j ensures DrawnOver(pxs, sp, x, y, j) <==> Hits(pxs, sp, x, y, j) { DrawnIff(pxs, sp, x, y, j); }
    var k :| Hits(pxs, sp, x, y, k) && pxs[k].depth == cell.d;
    assert DrawnOver(pxs, sp, x, y, k);
  }
}
