/** Means of point positions. */
module Centroids {
  import opened Basics

  datatype Pos = Pos(x: real, y: real, z: real)

  function Plus(a: Pos, b: Pos): Pos { Pos(a.x + b.x, a.y + b.y, a.z + b.z) }

  function Times(n: real, p: Pos): Pos { Pos(n * p.x, n * p.y, n * p.z) }

  /** Sum of the positions of the listed points. */
  function SumAt(at: int -> Pos, pts: seq<int>): Pos {
    if pts == [] then Pos(0.0, 0.0, 0.0) else Plus(SumAt(at, pts[..|pts| - 1]), at(pts[|pts| - 1]))
  }

  ghost predicate Centered(at: int -> Pos, pts: seq<int>, c: Pos) { Times(|pts| as real, c) == SumAt(at, pts) }

  method CentroidOf(at: int -> Pos, pts: seq<int>) returns (c: Pos)
    requires pts != []
    ensures Centered(at, pts, c)
  {
    var s := Pos(0.0, 0.0, 0.0);
    for i := 0 to |pts|
      invariant s == SumAt(at, pts[..i])
    {
      assert pts[..i + 1][..i] == pts[..i];
      s := Plus(s, at(pts[i]));
    }
    assert pts[..|pts|] == pts;
    var n := |pts| as real;
    c := Pos(s.x / n, s.y / n, s.z / n);
    TimesBack(s.x, n);
    TimesBack(s.y, n);
    TimesBack(s.z, n);
  }

  lemma TimesBack(x: real, n: real)
    requires n > 0.0
    ensures n * (x / n) == x
  {
  }

  ghost predicate InBox(p: Pos, lo: Pos, hi: Pos) { lo.x <= p.x <= hi.x && lo.y <= p.y <= hi.y && lo.z <= p.z <= hi.z }

  /** A box around the points holds their centroid. */
  lemma CentroidInBox(at: int -> Pos, pts: seq<int>, c: Pos, lo: Pos, hi: Pos)
    requires pts != [] && Centered(at, pts, c) && forall g | g in pts :: InBox(at(g), lo, hi)
    ensures InBox(c, lo, hi)
  {
    SumInBox(at, pts, lo, hi);
    BoxShrinks(|pts| as real, c, lo, hi);
  }

  lemma BoxShrinks(n: real, p: Pos, lo: Pos, hi: Pos)
    requires n > 0.0 && InBox(Times(n, p), Times(n, lo), Times(n, hi))
    ensures InBox(p, lo, hi)
  {
    Cancel(n, lo.x, p.x, hi.x);
    Cancel(n, lo.y, p.y, hi.y);
    Cancel(n, lo.z, p.z, hi.z);
  }

  lemma {:induction false} SumShifts(at: int -> Pos, pts: seq<int>, i: nat, g: int)
    requires i < |pts|
    ensures Plus(SumAt(at, pts[i := g]), at(pts[i])) == Plus(SumAt(at, pts), at(g))
    decreases |pts|
  {
    var n := |pts| - 1;
    if i == n {
      assert pts[i := g][..n] == pts[..n];
    } else {
      assert pts[i := g][..n] == pts[..n][i := g];
      SumShifts(at, pts[..n], i, g);
    }
  }

  /** Replacing one of n points moves the centroid by an n-th of the way. */
  lemma CentroidShifts(at: int -> Pos, pts: seq<int>, c: Pos, i: nat, g: int, c': Pos)
    requires i < |pts| && Centered(at, pts, c) && Centered(at, pts[i := g], c')
    ensures |pts| as real * (c'.x - c.x) == at(g).x - at(pts[i]).x
    ensures |pts| as real * (c'.y - c.y) == at(g).y - at(pts[i]).y
    ensures |pts| as real * (c'.z - c.z) == at(g).z - at(pts[i]).z
  {
    SumShifts(at, pts, i, g);
    var n := |pts| as real;
    assert n * (c'.x - c.x) == n * c'.x - n * c.x && n * (c'.y - c.y) == n * c'.y - n * c.y && n * (c'.z - c.z) == n * c'.z - n * c.z;
  }

  lemma {:induction false} SumInBox(at: int -> Pos, pts: seq<int>, lo: Pos, hi: Pos)
    requires forall g | g in pts :: InBox(at(g), lo, hi)
    ensures InBox(SumAt(at, pts), Times(|pts| as real, lo), Times(|pts| as real, hi))
    decreases |pts|
  {
    hide Times;
    TimesNone(lo);
    TimesNone(hi);
    if pts != [] {
      var k := |pts| - 1;
      forall g | g in pts[..k] ensures InBox(at(g), lo, hi) { assert g in pts; }
      SumInBox(at, pts[..k], lo, hi);
      var g := pts[k];
      assert g in pts;
      TimesMore(k, lo);
      TimesMore(k, hi);
      BoxPlus(SumAt(at, pts[..k]), Times(k as real, lo), Times(k as real, hi), at(g), lo, hi);
    }
  }

  lemma TimesNone(p: Pos)
    ensures Times(0.0, p) == Pos(0.0, 0.0, 0.0)
  {
  }

  lemma TimesMore(k: nat, p: Pos)
    ensures Times((k + 1) as real, p) == Plus(Times(k as real, p), p)
  {
  }

  lemma BoxPlus(p: Pos, lo: Pos, hi: Pos, q: Pos, lo': Pos, hi': Pos)
    requires InBox(p, lo, hi) && InBox(q, lo', hi')
    ensures InBox(Plus(p, q), Plus(lo, lo'), Plus(hi, hi'))
  {
  }

  lemma Cancel(n: real, a: real, b: real, c: real)
    requires n > 0.0 && n * a <= n * b <= n * c
    ensures a <= b <= c
  {
    assert n * (b - a) == n * b - n * a && n * (c - b) == n * c - n * b;
    Shrink(n, b - a);
    Shrink(n, c - b);
  }
}
