/** Points of the overhead plane: turns, the lexicographic order, and how they interact. */
module Plane {

  datatype Pt = Pt(x: real, y: real)

  function Sub(a: Pt, b: Pt): Pt { Pt(a.x - b.x, a.y - b.y) }

  function Neg(v: Pt): Pt { Pt(-v.x, -v.y) }

  function Det(u: Pt, v: Pt): real { u.x * v.y - u.y * v.x }

  /** Positive for a counter-clockwise turn at O from A to B. */
  function Cross(O: Pt, A: Pt, B: Pt): real { Det(Sub(A, O), Sub(B, O)) }

  predicate LexPos(v: Pt) { v.x > 0.0 || (v.x == 0.0 && v.y > 0.0) }

  predicate Ahead(up: bool, v: Pt) { if up then LexPos(v) else LexPos(Neg(v)) }

  /** a comes before b in the sweep: by x, then y; reversed when up is false. */
  predicate Before(up: bool, a: Pt, b: Pt) { Ahead(up, Sub(b, a)) }

  predicate NotBehind(up: bool, v: Pt) { v == Pt(0.0, 0.0) || Ahead(up, v) }

  lemma Trichotomy(up: bool, a: Pt, b: Pt)
    ensures a == b || Before(up, a, b) || Before(up, b, a)
  {
  }

  lemma NotBoth(up: bool, a: Pt, b: Pt)
    ensures !(Before(up, a, b) && Before(up, b, a)) && !Before(up, a, a)
  {
  }

  lemma BeforeTwice(up: bool, a: Pt, b: Pt, c: Pt)
    requires Before(up, a, b) && Before(up, b, c)
    ensures Before(up, a, c)
  {
  }

  // ---------- determinants of vectors in one half-plane ----------

  /** v is a combination of u and w weighted by the determinants. */
  lemma Combination(u: Pt, v: Pt, w: Pt)
    ensures Det(u, w) * v.x == Det(u, v) * w.x + Det(v, w) * u.x
    ensures Det(u, w) * v.y == Det(u, v) * w.y + Det(v, w) * u.y
  {
  }

  lemma Product(a: real, b: real)
    requires a >= 0.0 && b >= 0.0
    ensures a * b >= 0.0 && (a > 0.0 && b > 0.0 ==> a * b > 0.0)
  {
  }

  lemma Divide(d: real, v: real)
    requires v > 0.0
    ensures d * v >= 0.0 ==> d >= 0.0
    ensures d * v > 0.0 ==> d > 0.0
    ensures d * v == 0.0 ==> d == 0.0
  {
    if d < 0.0 { Product(-d, v); assert d * v == -((-d) * v); }
  }

  lemma SweepUp(u: Pt, v: Pt, w: Pt)
    requires (u == Pt(0.0, 0.0) || LexPos(u)) && LexPos(v) && (w == Pt(0.0, 0.0) || LexPos(w))
    requires Det(u, v) >= 0.0 && Det(v, w) >= 0.0
    ensures Det(u, w) >= 0.0
  {
    Combination(u, v, w);
    if v.x > 0.0 {
      Product(Det(u, v), w.x);
      Product(Det(v, w), u.x);
      Divide(Det(u, w), v.x);
    } else {
      assert Det(v, w) == -(v.y * w.x);
      if w.x > 0.0 { Product(v.y, w.x); }
      Product(u.x, w.y);
    }
  }

  /** Nothing in the half-plane lies to the left of its vertical boundary, nor the boundary to the
      right of anything. */
  lemma Vertical(v: Pt, w: Pt)
    requires LexPos(v) && LexPos(w)
    ensures v.x == 0.0 ==> Det(v, w) <= 0.0 && Det(w, v) >= 0.0
    ensures v.x == 0.0 && w.x > 0.0 ==> Det(v, w) < 0.0
  {
    if v.x == 0.0 { Product(v.y, w.x); }
  }

  lemma SweepUpStrictly(u: Pt, v: Pt, w: Pt)
    requires LexPos(u) && LexPos(v) && LexPos(w) && Det(u, v) > 0.0 && Det(v, w) > 0.0
    ensures Det(u, w) > 0.0
  {
    Combination(u, v, w);
    Vertical(v, w);
    Vertical(u, v);
    Product(Det(u, v), w.x);
    Product(Det(v, w), u.x);
    Divide(Det(u, w), v.x);
  }

  lemma DetSwap(u: Pt, v: Pt)
    ensures Det(v, u) == -Det(u, v)
  {
  }

  lemma NegDet(u: Pt, v: Pt)
    ensures Det(Neg(u), Neg(v)) == Det(u, v)
  {
  }

  /** Turning left from u to v and from v to w, within a half-plane, is turning left from u to w. */
  lemma Sweep(up: bool, u: Pt, v: Pt, w: Pt)
    requires NotBehind(up, u) && Ahead(up, v) && NotBehind(up, w) && Det(u, v) >= 0.0 && Det(v, w) >= 0.0
    ensures Det(u, w) >= 0.0
  {
    hide Det;
    if up {
      SweepUp(u, v, w);
    } else {
      NegDet(u, v);
      NegDet(v, w);
      NegDet(u, w);
      SweepUp(Neg(u), Neg(v), Neg(w));
    }
  }

  lemma SweepStrictly(up: bool, u: Pt, v: Pt, w: Pt)
    requires Ahead(up, u) && Ahead(up, v) && Ahead(up, w) && Det(u, v) > 0.0 && Det(v, w) > 0.0
    ensures Det(u, w) > 0.0
  {
    hide Det;
    if up {
      SweepUpStrictly(u, v, w);
    } else {
      NegDet(u, v);
      NegDet(v, w);
      NegDet(u, w);
      SweepUpStrictly(Neg(u), Neg(v), Neg(w));
    }
  }

  /** Vectors parallel to a common nonzero vector are parallel. */
  lemma Parallel(a: Pt, x: Pt, y: Pt)
    requires a != Pt(0.0, 0.0) && Det(a, x) == 0.0 && Det(a, y) == 0.0
    ensures Det(x, y) == 0.0
  {
    Combination(x, a, y);
    assert Det(x, a) == -Det(a, x);
    assert Det(x, y) * a.x == 0.0 && Det(x, y) * a.y == 0.0;
    if a.x > 0.0 { Divide(Det(x, y), a.x); }
    else if a.x < 0.0 { assert Det(x, y) * (-a.x) == 0.0; Divide(Det(x, y), -a.x); }
    else if a.y > 0.0 { Divide(Det(x, y), a.y); }
    else { assert Det(x, y) * (-a.y) == 0.0; Divide(Det(x, y), -a.y); }
  }

  // ---------- turns of points in sweep order ----------

  lemma CrossAlong(A: Pt, B: Pt, C: Pt)
    ensures Cross(A, B, C) == Det(Sub(B, A), Sub(C, B))
    ensures Cross(A, B, C) == Det(Sub(B, C), Sub(B, A))
    ensures Cross(A, B, C) == Cross(B, C, A)
    ensures Cross(A, B, C) == -Cross(B, A, C)
  {
  }

  lemma CrossSelf(A: Pt, B: Pt)
    ensures Cross(A, B, A) == 0.0 && Cross(A, B, B) == 0.0 && Cross(A, A, B) == 0.0
  {
  }

  lemma CrossBeyond(A: Pt, B: Pt, C: Pt, T: Pt)
    ensures Cross(A, B, T) == Cross(A, B, C) + Det(Sub(B, A), Sub(T, C))
  {
  }

  /** The turn A, B, T seen from edge A->B, with B->C->T turning left as well. */
  lemma LeftOfEarlier(up: bool, A: Pt, B: Pt, C: Pt, T: Pt)
    requires Before(up, A, B) && Before(up, B, C) && Before(up, C, T)
    requires Cross(A, B, C) > 0.0 && Cross(B, C, T) > 0.0
    ensures Cross(A, B, T) > 0.0
  {
    hide Cross, Det;
    CrossAlong(A, B, C);
    CrossAlong(B, C, T);
    SweepStrictly(up, Sub(B, A), Sub(C, B), Sub(T, C));
    CrossBeyond(A, B, C, T);
  }

  /** K' is dropped between K and T: what lies ahead of K stays left of K->T. */
  lemma LeftAfterPop(up: bool, K: Pt, D: Pt, T: Pt, Q: Pt)
    requires Before(up, K, D) && Before(up, K, T) && (Q == K || Before(up, K, Q))
    requires Cross(K, D, T) <= 0.0 && Cross(K, D, Q) >= 0.0
    ensures Cross(K, T, Q) >= 0.0
  {
    hide Det;
    DetSwap(Sub(D, K), Sub(T, K));
    Sweep(up, Sub(T, K), Sub(D, K), Sub(Q, K));
  }

  /** What lies behind K and left of E->K stays left of K->T after a left turn at K. */
  lemma LeftBehind(up: bool, E: Pt, K: Pt, T: Pt, Q: Pt)
    requires Before(up, E, K) && Before(up, K, T) && Before(up, Q, K)
    requires Cross(E, K, T) > 0.0 && Cross(E, K, Q) >= 0.0
    ensures Cross(K, T, Q) >= 0.0
  {
    hide Cross, Det;
    CrossAlong(E, K, T);
    CrossAlong(E, K, Q);
    Sweep(up, Sub(K, Q), Sub(K, E), Sub(T, K));
    CrossAlong(Q, K, T);
  }

  lemma SweepOntoStrictly(u: Pt, v: Pt, w: Pt)
    requires LexPos(u) && LexPos(v) && LexPos(w) && Det(u, v) >= 0.0 && Det(v, w) > 0.0
    ensures Det(u, w) > 0.0
  {
    Combination(u, v, w);
    Vertical(v, w);
    Vertical(u, v);
    Product(Det(u, v), w.x);
    Product(Det(v, w), u.x);
    Divide(Det(u, w), v.x);
  }

  /** A lower-chain corner A, X, B and an upper-chain edge X->D cannot both have everything on
      their left: B would lie to the right of X->D. */
  lemma CornerApart(A: Pt, X: Pt, B: Pt, D: Pt)
    requires Before(true, A, X) && Before(true, X, B) && Before(true, D, X)
    requires Cross(A, X, B) > 0.0 && Cross(A, X, D) >= 0.0
    ensures Cross(X, D, B) < 0.0
  {
    hide Cross, Det;
    CrossAlong(A, X, B);
    CrossAlong(A, X, D);
    SweepOntoStrictly(Sub(X, D), Sub(X, A), Sub(B, X));
    CrossAlong(D, X, B);
    CrossAlong(X, D, B);
  }

  /** Two edges meeting at Z from one side, both with q on their left, along one line: q is on it. */
  lemma StraightCorner(up: bool, A: Pt, Z: Pt, B: Pt, q: Pt)
    requires Before(up, A, Z) && Before(up, B, Z) && Cross(A, Z, B) == 0.0
    requires Cross(A, Z, q) >= 0.0 && Cross(Z, B, q) >= 0.0
    ensures Cross(A, Z, q) == 0.0
  {
    hide Cross, Det;
    var a, b, x := Sub(Z, A), Sub(Z, B), Sub(q, Z);
    CrossAlong(A, Z, B);
    CrossAlong(A, Z, q);
    CrossAlong(B, Z, q);
    CrossAlong(Z, B, q);
    Combination(b, a, x);
    DetSwap(a, b);
    ZeroScale(up, a, b, Det(b, x), Det(a, x));
  }

  lemma ZeroScale(up: bool, a: Pt, b: Pt, r: real, t: real)
    requires Ahead(up, a) && Ahead(up, b) && r <= 0.0 && t >= 0.0
    requires r * a.x == t * b.x && r * a.y == t * b.y
    ensures t == 0.0
  {
    Scaled(if up then a else Neg(a), r);
    Scaled(if up then b else Neg(b), t);
  }

  lemma Scaled(a: Pt, r: real)
    requires LexPos(a)
    ensures r <= 0.0 ==> r * a.x < 0.0 || (r * a.x == 0.0 && r * a.y <= 0.0)
    ensures r > 0.0 ==> r * a.x > 0.0 || (r * a.x == 0.0 && r * a.y > 0.0)
  {
    if r <= 0.0 {
      Product(-r, a.x);
      if a.x == 0.0 { Product(-r, a.y); }
    } else {
      Product(r, a.x);
      if a.x == 0.0 { Product(r, a.y); }
    }
  }

  /** Points on the line through two distinct points are in line with each other. */
  lemma OneLine(A: Pt, Z: Pt, p: Pt, q: Pt, r: Pt)
    requires A != Z && Cross(A, Z, p) == 0.0 && Cross(A, Z, q) == 0.0 && Cross(A, Z, r) == 0.0
    ensures Cross(p, q, r) == 0.0
  {
    hide Det;
    DetDifference(Sub(Z, A), Sub(q, A), Sub(p, A));
    DetDifference(Sub(Z, A), Sub(r, A), Sub(p, A));
    Parallel(Sub(Z, A), Sub(q, p), Sub(r, p));
  }

  lemma DetDifference(u: Pt, v: Pt, w: Pt)
    ensures Det(u, Sub(v, w)) == Det(u, v) - Det(u, w)
  {
  }
}
