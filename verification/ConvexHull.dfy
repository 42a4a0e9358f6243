/** Monotone-chain convex hull over an in-place buffer. */
module ConvexHull {
  import opened Plane

  // ---------- sorted points ----------

  /** Strictly rising in sweep order. */
  ghost predicate Sorted(up: bool, s: seq<Pt>) { forall i, j | 0 <= i < j < |s| :: Before(up, s[i], s[j]) }

  /** p put in its place, unless it is there already. */
  function InsertPoint(s: seq<Pt>, p: Pt): seq<Pt> {
    if s == [] then [p]
    else if p == s[0] then s
    else if Before(true, p, s[0]) then [p] + s
    else [s[0]] + InsertPoint(s[1..], p)
  }

  lemma {:induction false} InsertSorted(s: seq<Pt>, p: Pt)
    requires Sorted(true, s)
    ensures Sorted(true, InsertPoint(s, p))
    ensures forall x :: x in InsertPoint(s, p) <==> x == p || x in s
    decreases |s|
  {
    hide Before;
    if s == [] {
    } else if p == s[0] {
    } else if Before(true, p, s[0]) {
      forall j | 0 < j < |s| ensures Before(true, p, s[j]) { BeforeTwice(true, p, s[0], s[j]); }
    } else {
      InsertSorted(s[1..], p);
      Trichotomy(true, p, s[0]);
      var rest := InsertPoint(s[1..], p);
      forall j | 0 <= j < |rest| ensures Before(true, s[0], rest[j]) {
        assert rest[j] in rest;
        if rest[j] != p { var i :| 0 <= i < |s[1..]| && s[1..][i] == rest[j]; }
      }
      assert s == [s[0]] + s[1..];
    }
  }

  /** The points in lexicographic order, each once. */
  method SortUnique(pts: seq<Pt>) returns (s: seq<Pt>)
    ensures Sorted(true, s) && forall x :: x in s <==> x in pts
  {
    s := [];
    for i := 0 to |pts|
      invariant Sorted(true, s) && forall x :: x in s <==> x in pts[..i]
    {
      assert pts[..i + 1] == pts[..i] + [pts[i]];
      InsertSorted(s, pts[i]);
      s := InsertPoint(s, pts[i]);
    }
    assert pts[..|pts|] == pts;
  }

  // ---------- chains ----------

  /** Turns strictly left at every inner vertex. */
  ghost predicate TurnsLeft(c: seq<Pt>) { forall j | 0 <= j < |c| - 2 :: LeftAt(c, j) }

  ghost predicate LeftAt(c: seq<Pt>, j: int)
    requires 0 <= j < |c| - 2
  {
    Cross(c[j], c[j + 1], c[j + 2]) > 0.0
  }

  /** Edge j has every point of s on it or to its left. */
  ghost predicate EdgeSees(c: seq<Pt>, j: int, s: seq<Pt>)
    requires 0 <= j < |c| - 1
  {
    forall q | q in s :: Cross(c[j], c[j + 1], q) >= 0.0
  }

  ghost predicate Sees(c: seq<Pt>, s: seq<Pt>) { forall j | 0 <= j < |c| - 1 :: EdgeSees(c, j, s) }

  /** A sorted, left-turning chain through points of s, from its first to its last, with all of s on
      or left of every edge. */
  ghost predicate HullChain(up: bool, c: seq<Pt>, s: seq<Pt>) {
    && c != [] && s != [] && Sorted(up, c) && Sorted(up, s)
    && (forall p | p in c :: p in s)
    && c[0] == s[0] && c[|c| - 1] == s[|s| - 1]
    && TurnsLeft(c) && Sees(c, s)
  }

  /** t comes after every point of s. */
  ghost predicate Last(up: bool, s: seq<Pt>, t: Pt) { forall q | q in s :: Before(up, q, t) }

  /** The top of the chain may be dropped: it does not turn left towards t. */
  ghost predicate Popped(c: seq<Pt>, m: int, t: Pt)
    requires 1 <= m <= |c|
  {
    m < |c| ==> Cross(c[m - 1], c[m], t) <= 0.0
  }

  /** Popping stops at m: the base, or a left turn towards t. */
  ghost predicate Stopped(c: seq<Pt>, m: int, t: Pt)
    requires 1 <= m <= |c|
  {
    m >= 2 ==> Cross(c[m - 2], c[m - 1], t) > 0.0
  }

  /** Once the last kept edge turns left to t, all earlier ones do. */
  lemma {:induction false} EarlierTurn(up: bool, c: seq<Pt>, m: int, t: Pt, j: int)
    requires Sorted(up, c) && TurnsLeft(c) && 0 <= j <= m - 2 < |c| - 1 && Last(up, c, t) && Stopped(c, m, t)
    ensures Cross(c[j], c[j + 1], t) > 0.0
    decreases m - j
  {
    hide Cross, Before;
    if j < m - 2 {
      EarlierTurn(up, c, m, t, j + 1);
      assert LeftAt(c, j);
      assert c[j + 2] in c;
      LeftOfEarlier(up, c[j], c[j + 1], c[j + 2], t);
    }
  }

  /** The new edge has every processed point on it or to its left. */
  lemma NewEdgeSees(up: bool, c: seq<Pt>, s: seq<Pt>, m: int, t: Pt, q: Pt)
    requires HullChain(up, c, s) && Last(up, s, t) && 1 <= m <= |c| && Popped(c, m, t) && Stopped(c, m, t) && q in s
    ensures Cross(c[m - 1], t, q) >= 0.0
  {
    hide Cross, Before, TurnsLeft;
    var K := c[m - 1];
    assert K in c && K in s;
    Trichotomy(up, q, K);
    NotBoth(up, q, K);
    FirstAndLast(up, s, q);
    if q == K {
      CrossSelf(K, t);
    } else if Before(up, K, q) {
      assert EdgeSees(c, m - 1, s);
      LeftAfterPop(up, K, c[m], t, q);
    } else {
      assert EdgeSees(c, m - 2, s);
      LeftBehind(up, c[m - 2], K, t, q);
    }
  }

  lemma FirstAndLast(up: bool, s: seq<Pt>, q: Pt)
    requires Sorted(up, s) && q in s
    ensures q == s[0] || Before(up, s[0], q)
    ensures q == s[|s| - 1] || Before(up, q, s[|s| - 1])
  {
  }

  /** Popping and pushing one point keeps the hull chain. */
  lemma ChainExtended(up: bool, c: seq<Pt>, s: seq<Pt>, m: int, t: Pt)
    requires HullChain(up, c, s) && Last(up, s, t) && 1 <= m <= |c| && Popped(c, m, t) && Stopped(c, m, t)
    ensures HullChain(up, c[..m] + [t], s + [t])
  {
    hide Cross, Before;
    var c', s' := c[..m] + [t], s + [t];
    forall p | p in c' ensures p in s' { if p != t { assert p in c; } }
    forall j | 0 <= j < |c'| - 2 ensures LeftAt(c', j) { if j < m - 2 { assert LeftAt(c, j); } }
    forall j | 0 <= j < |c'| - 1 ensures EdgeSees(c', j, s') {
      if j == m - 1 {
        CrossSelf(c[m - 1], t);
        forall q | q in s ensures Cross(c[m - 1], t, q) >= 0.0 { NewEdgeSees(up, c, s, m, t, q); }
      } else {
        assert EdgeSees(c, j, s);
        forall q | q in c ensures Before(up, q, t) {}
        EarlierTurn(up, c, m, t, j);
      }
    }
  }

  /** Drop what does not turn left towards t, then append t; the chain starts at hull[base]. */
  method Push(hull: array<Pt>, base: int, m0: int, t: Pt, ghost up: bool, ghost s: seq<Pt>) returns (m: int)
    requires 0 <= base < m0 < hull.Length
    requires HullChain(up, hull[base..m0], s) && Last(up, s, t)
    modifies hull
    ensures base + 1 < m <= m0 + 1
    ensures HullChain(up, hull[base..m], s + [t])
    ensures hull[..base + 1] == old(hull[..base + 1])
  {
    hide Before, HullChain, Cross;
    ghost var c := hull[base..m0];
    m := m0;
    while m >= base + 2 && Cross(hull[m - 2], hull[m - 1], t) <= 0.0
      invariant base + 1 <= m <= m0 && hull[base..m0] == c && hull[..base + 1] == old(hull[..base + 1])
      invariant Popped(c, m - base, t)
    {
      assert hull[m - 2] == c[m - base - 2] && hull[m - 1] == c[m - base - 1];
      m := m - 1;
    }
    assert m >= base + 2 ==> hull[m - 2] == c[m - base - 2] && hull[m - 1] == c[m - base - 1];
    ChainExtended(up, c, s, m - base, t);
    assert hull[base..m] == c[..m - base];
    hull[m] := t;
    m := m + 1;
    assert hull[base..m] == c[..m - base - 1] + [t];
  }

  // ---------- the hull ----------

  /** All points lie on one line. */
  ghost predicate Collinear(s: seq<Pt>) {
    forall a, b, c | a in s && b in s && c in s :: Cross(a, b, c) == 0.0
  }

  function Next(h: seq<Pt>, j: int): Pt
    requires 0 <= j < |h|
  {
    if j + 1 < |h| then h[j + 1] else h[0]
  }

  /** Every edge of the closed polygon has all points on it or to its left. */
  ghost predicate Encloses(h: seq<Pt>, pts: seq<Pt>) {
    forall j, q | 0 <= j < |h| && q in pts :: Cross(h[j], Next(h, j), q) >= 0.0
  }

  /** Every cyclic triple of vertices turns strictly left. */
  ghost predicate StrictlyConvex(h: seq<Pt>) {
    && |h| >= 3
    && (forall i, j | 0 <= i < j < |h| :: h[i] != h[j])
    && forall j | 0 <= j < |h| :: Cross(h[j], Next(h, j), Next(h, if j + 1 < |h| then j + 1 else 0)) > 0.0
  }

  /** The points' first and last in lexicographic order, and nothing else. */
  ghost predicate Extremes(h: seq<Pt>, pts: seq<Pt>) {
    && |h| <= 2 && (h == [] <==> pts == []) && (|h| == 2 ==> h[0] != h[1])
    && forall q | q in pts :: NotBehind(true, Sub(q, h[0])) && NotBehind(true, Sub(h[|h| - 1], q))
  }

  // ---------- closing the two chains ----------

  function Reversed(s: seq<Pt>): (r: seq<Pt>)
    ensures |r| == |s| && forall i | 0 <= i < |r| :: r[i] == s[|s| - 1 - i]
  {
    seq(|s|, i requires 0 <= i < |s| => s[|s| - 1 - i])
  }

  lemma ReversedAt(s: seq<Pt>)
    ensures |Reversed(s)| == |s| && forall i | 0 <= i < |s| :: Reversed(s)[|s| - 1 - i] == s[i]
  {
  }

  lemma ReversedSorted(s: seq<Pt>)
    requires Sorted(true, s)
    ensures Sorted(false, Reversed(s)) && forall p :: p in Reversed(s) <==> p in s
  {
    hide Cross;
    var r := Reversed(s);
    forall p | p in s ensures p in r { var i :| 0 <= i < |s| && s[i] == p; assert r[|s| - 1 - i] == p; }
    forall i, j | 0 <= i < j < |r| ensures Before(false, r[i], r[j]) {
      assert Before(true, s[|s| - 1 - j], s[|s| - 1 - i]);
      BeforeBackwards(r[j], r[i]);
    }
  }

  lemma BeforeBackwards(a: Pt, b: Pt)
    ensures Before(true, a, b) <==> Before(false, b, a)
  {
  }

  /** Lower chain, then upper chain without its ends. */
  function Closed(lo: seq<Pt>, hi: seq<Pt>): seq<Pt>
    requires |hi| >= 2
  {
    lo + hi[1..|hi| - 1]
  }

  ghost predicate TwoChains(lo: seq<Pt>, hi: seq<Pt>, s: seq<Pt>) {
    |s| >= 2 && HullChain(true, lo, s) && HullChain(false, hi, Reversed(s))
  }

  lemma ChainEnds(lo: seq<Pt>, hi: seq<Pt>, s: seq<Pt>)
    requires TwoChains(lo, hi, s)
    ensures |lo| >= 2 && |hi| >= 2 && lo[0] == hi[|hi| - 1] == s[0] && lo[|lo| - 1] == hi[0] == s[|s| - 1]
    ensures forall p | p in lo || p in hi :: p in s
    ensures Sorted(true, s) && Sees(lo, s) && Sees(hi, s) && Sorted(true, lo) && Sorted(false, hi) && TurnsLeft(lo) && TurnsLeft(hi)
  {
    hide Cross, Before;
    ReversedSorted(s);
    assert Before(true, s[0], s[|s| - 1]);
    NotBoth(true, s[0], s[|s| - 1]);
    forall j | 0 <= j < |hi| - 1 ensures EdgeSees(hi, j, s) { assert EdgeSees(hi, j, Reversed(s)); }
  }

  /** The edge leaving vertex j of the closed polygon lies in one of the chains. */
  lemma EdgeOf(lo: seq<Pt>, hi: seq<Pt>, s: seq<Pt>, j: int)
    requires TwoChains(lo, hi, s) && |hi| >= 2 && 0 <= j < |Closed(lo, hi)|
    ensures var h := Closed(lo, hi);
            if j < |lo| - 1 then h[j] == lo[j] && Next(h, j) == lo[j + 1]
            else j - (|lo| - 1) < |hi| - 1 && h[j] == hi[j - (|lo| - 1)] && Next(h, j) == hi[j - (|lo| - 1) + 1]
  {
    hide HullChain;
    ChainEnds(lo, hi, s);
  }

  lemma ClosedEncloses(lo: seq<Pt>, hi: seq<Pt>, s: seq<Pt>)
    requires TwoChains(lo, hi, s) && |hi| >= 2
    ensures Encloses(Closed(lo, hi), s) && forall p | p in Closed(lo, hi) :: p in s
  {
    hide Cross, HullChain;
    ChainEnds(lo, hi, s);
    var h := Closed(lo, hi);
    forall j, q | 0 <= j < |h| && q in s ensures Cross(h[j], Next(h, j), q) >= 0.0 {
      EdgeOf(lo, hi, s, j);
      assert if j < |lo| - 1 then EdgeSees(lo, j, s) else EdgeSees(hi, j - (|lo| - 1), s);
    }
  }

  /** A turn is zero only where all points are in line. */
  lemma CornerTurns(up: bool, A: Pt, Z: Pt, B: Pt, s: seq<Pt>)
    requires Before(up, A, Z) && Before(up, B, Z) && A in s && B in s && Z in s
    requires forall q | q in s :: Cross(A, Z, q) >= 0.0
    requires forall q | q in s :: Cross(Z, B, q) >= 0.0
    ensures Cross(A, Z, B) > 0.0 || Collinear(s)
  {
    hide Cross, Before;
    NotBoth(up, A, Z);
    if Cross(A, Z, B) == 0.0 {
      forall q | q in s ensures Cross(A, Z, q) == 0.0 { StraightCorner(up, A, Z, B, q); }
      forall a, b, c | a in s && b in s && c in s ensures Cross(a, b, c) == 0.0 { OneLine(A, Z, a, b, c); }
    }
  }

  /** The chains share only their ends. */
  lemma ChainsApart(lo: seq<Pt>, hi: seq<Pt>, s: seq<Pt>, i: int, j: int)
    requires TwoChains(lo, hi, s) && 0 <= i < |lo| && 1 <= j < |hi| - 1
    ensures lo[i] != hi[j]
  {
    hide Cross, Before, HullChain;
    ChainEnds(lo, hi, s);
    if lo[i] == hi[j] {
      assert Before(false, hi[0], hi[j]) && Before(false, hi[j], hi[|hi| - 1]);
      BeforeBackwards(hi[j], hi[0]);
      BeforeBackwards(hi[j + 1], hi[j]);
      NotBoth(true, lo[i], lo[0]);
      NotBoth(true, lo[i], lo[|lo| - 1]);
      BeforeBackwards(hi[|hi| - 1], hi[j]);
      assert 0 < i < |lo| - 1;
      assert LeftAt(lo, i - 1) && EdgeSees(lo, i - 1, s) && EdgeSees(hi, j, s);
      assert lo[i + 1] in lo && hi[j + 1] in hi;
      CornerApart(lo[i - 1], lo[i], lo[i + 1], hi[j + 1]);
      assert false;
    }
  }

  lemma TurnNotCollinear(up: bool, c: seq<Pt>, s: seq<Pt>)
    requires |c| >= 3 && TurnsLeft(c) && forall p | p in c :: p in s
    ensures !Collinear(s)
  {
    hide Cross;
    assert LeftAt(c, 0) && c[0] in c && c[1] in c && c[2] in c;
  }

  lemma ClosedDistinct(lo: seq<Pt>, hi: seq<Pt>, s: seq<Pt>)
    requires TwoChains(lo, hi, s) && |hi| >= 2
    ensures var h := Closed(lo, hi); forall i, j | 0 <= i < j < |h| :: h[i] != h[j]
  {
    hide Cross, Before, HullChain;
    ChainEnds(lo, hi, s);
    var h := Closed(lo, hi);
    forall i, j | 0 <= i < j < |h| ensures h[i] != h[j] {
      if j < |lo| {
        assert Before(true, lo[i], lo[j]);
        NotBoth(true, lo[i], lo[j]);
      } else if i >= |lo| {
        assert Before(false, hi[i - |lo| + 1], hi[j - |lo| + 1]);
        NotBoth(false, hi[i - |lo| + 1], hi[j - |lo| + 1]);
      } else {
        ChainsApart(lo, hi, s, i, j - |lo| + 1);
      }
    }
  }

  function After(h: seq<Pt>, j: int): int
    requires 0 <= j < |h|
  {
    if j + 1 < |h| then j + 1 else 0
  }

  /** The chains joined turn strictly left at every corner unless the points are collinear. */
  lemma ClosedTurn(lo: seq<Pt>, hi: seq<Pt>, s: seq<Pt>, j: int)
    requires TwoChains(lo, hi, s) && |hi| >= 2 && 0 <= j < |Closed(lo, hi)|
    ensures var h := Closed(lo, hi); Cross(h[j], Next(h, j), Next(h, After(h, j))) > 0.0 || Collinear(s)
  {
    hide Cross, Before, HullChain, Collinear;
    ChainEnds(lo, hi, s);
    var h, m := Closed(lo, hi), |lo| - 1;
    EdgeOf(lo, hi, s, j);
    EdgeOf(lo, hi, s, After(h, j));
    if j < m - 1 {
      assert LeftAt(lo, j);
    } else if j == m - 1 {
      BeforeBackwards(hi[1], hi[0]);
      assert EdgeSees(lo, j, s) && EdgeSees(hi, 0, s) && Before(true, lo[j], lo[m]) && Before(false, hi[0], hi[1]);
      assert lo[j] in lo && hi[1] in hi && lo[m] in lo;
      CornerTurns(true, lo[j], lo[m], hi[1], s);
    } else if j - m < |hi| - 2 {
      assert LeftAt(hi, j - m);
    } else {
      var k := |hi| - 2;
      BeforeBackwards(lo[0], lo[1]);
      assert EdgeSees(hi, k, s) && EdgeSees(lo, 0, s) && Before(false, hi[k], hi[k + 1]) && Before(true, lo[0], lo[1]);
      assert hi[k] in hi && lo[1] in lo && lo[0] in lo;
      CornerTurns(false, hi[k], lo[0], lo[1], s);
    }
  }

  /** A polygon of distinct corners, at least two, that turns left at each of them is strictly convex. */
  lemma TurningIsConvex(h: seq<Pt>)
    requires |h| >= 2 && forall i, j | 0 <= i < j < |h| :: h[i] != h[j]
    requires forall j | 0 <= j < |h| :: Cross(h[j], Next(h, j), Next(h, After(h, j))) > 0.0
    ensures StrictlyConvex(h)
  {
    hide Cross;
    if |h| == 2 {
      TwoDoNotTurn(h);
      assert false;
    }
  }

  lemma TwoDoNotTurn(h: seq<Pt>)
    requires |h| == 2
    ensures Cross(h[0], Next(h, 0), Next(h, After(h, 0))) == 0.0
  {
    CrossSelf(h[0], h[1]);
  }

  lemma ClosedCollinear(lo: seq<Pt>, hi: seq<Pt>, s: seq<Pt>)
    requires TwoChains(lo, hi, s) && |hi| >= 2 && Collinear(s)
    ensures Extremes(Closed(lo, hi), s)
  {
    hide Cross, HullChain, Collinear, Before;
    ChainEnds(lo, hi, s);
    if |lo| >= 3 { TurnNotCollinear(true, lo, s); }
    if |hi| >= 3 { TurnNotCollinear(false, hi, s); }
    assert Closed(lo, hi) == [s[0], s[|s| - 1]];
    SortedExtremes(s, s[0], s[|s| - 1]);
  }

  lemma SortedExtremes(s: seq<Pt>, a: Pt, z: Pt)
    requires |s| >= 1 && Sorted(true, s) && a == s[0] && z == s[|s| - 1]
    ensures forall q | q in s :: NotBehind(true, Sub(q, a)) && NotBehind(true, Sub(z, q))
    ensures |s| >= 2 ==> a != z
  {
    if |s| >= 2 { assert Before(true, a, z); NotBoth(true, a, z); }
    forall q | q in s ensures NotBehind(true, Sub(q, a)) && NotBehind(true, Sub(z, q)) { FirstAndLast(true, s, q); }
  }

  lemma SameMembers(s: seq<Pt>, pts: seq<Pt>, h: seq<Pt>)
    requires forall x :: x in s <==> x in pts
    ensures Collinear(s) <==> Collinear(pts)
    ensures Encloses(h, s) <==> Encloses(h, pts)
    ensures Extremes(h, s) <==> Extremes(h, pts)
  {
    hide Cross, NotBehind;
    assert s == [] <==> pts == [] by {
      if s != [] { assert s[0] in s; }
      if pts != [] { assert pts[0] in pts; }
    }
  }

  lemma FewPoints(s: seq<Pt>)
    requires Sorted(true, s) && |s| < 3
    ensures Encloses(s, s) && Collinear(s) && Extremes(s, s)
  {
    hide Det, Before, Sorted;
    forall a, b ensures Cross(a, b, a) == 0.0 && Cross(a, b, b) == 0.0 && Cross(a, a, b) == 0.0 { CrossSelf(a, b); }
    if s != [] { SortedExtremes(s, s[0], s[|s| - 1]); }
  }

  lemma OnePoint(up: bool, p: Pt)
    ensures HullChain(up, [p], [p])
  {
  }

  lemma NextIsLast(up: bool, s: seq<Pt>, i: int)
    requires Sorted(up, s) && 0 < i < |s|
    ensures Last(up, s[..i], s[i])
  {
    hide Before;
  }

  /** First pass, left to right. */
  method LowerHull(hull: array<Pt>, s: seq<Pt>) returns (m: int)
    requires Sorted(true, s) && |s| >= 1 && hull.Length > |s|
    modifies hull
    ensures 1 <= m <= |s| && HullChain(true, hull[0..m], s)
  {
    hide Before, HullChain, Cross, Sorted, Last;
    hull[0] := s[0];
    m := 1;
    OnePoint(true, s[0]);
    assert hull[0..m] == [s[0]] == s[..1];
    for i := 1 to |s|
      invariant 1 <= m <= i && HullChain(true, hull[0..m], s[..i])
    {
      NextIsLast(true, s, i);
      assert s[..i + 1] == s[..i] + [s[i]];
      m := Push(hull, 0, m, s[i], true, s[..i]);
    }
    assert s[..|s|] == s;
  }

  /** Second pass, right to left, on top of the first: its chain starts at hull[base]. */
  method UpperHull(hull: array<Pt>, base: int, s: seq<Pt>) returns (m: int)
    requires Sorted(true, s) && |s| >= 1 && 0 <= base && base + |s| < hull.Length && hull[base] == s[|s| - 1]
    modifies hull
    ensures base + 1 <= m <= base + |s| && HullChain(false, hull[base..m], Reversed(s))
    ensures hull[..base + 1] == old(hull[..base + 1])
  {
    hide Before, HullChain, Cross, Sorted, Last, Reversed;
    ghost var r, n := Reversed(s), |s|;
    m := base + 1;
    ReversedSorted(s);
    ReversedAt(s);
    OnePoint(false, r[0]);
    assert hull[base..m] == [r[0]] == r[..1];
    var i := |s| - 1;
    while i > 0
      invariant 0 <= i < n && base + 1 <= m <= base + n - i && hull[..base + 1] == old(hull[..base + 1])
      invariant HullChain(false, hull[base..m], r[..n - i])
    {
      i := i - 1;
      NextIsLast(false, r, n - 1 - i);
      assert r[..n - i] == r[..n - 1 - i] + [r[n - 1 - i]];
      m := Push(hull, base, m, s[i], false, r[..n - 1 - i]);
    }
    assert r[..n] == r;
  }

  /** No point has a smaller x, and none of the same x a smaller y. */
  ghost predicate Leftmost(p: Pt, pts: seq<Pt>) { forall q | q in pts :: p.x < q.x || (p.x == q.x && p.y <= q.y) }

  lemma FirstIsLeftmost(s: seq<Pt>, pts: seq<Pt>)
    requires Sorted(true, s) && forall x :: x in s <==> x in pts
    ensures pts != [] ==> s != [] && Leftmost(s[0], pts)
  {
    if pts != [] {
      assert pts[0] in s;
      forall q | q in pts ensures s[0].x < q.x || (s[0].x == q.x && s[0].y <= q.y) {
        var k :| 0 <= k < |s| && s[k] == q;
        if k > 0 { assert Before(true, s[0], s[k]); }
      }
    }
  }

  lemma ClosedStarts(lo: seq<Pt>, hi: seq<Pt>, s: seq<Pt>)
    requires TwoChains(lo, hi, s) && |hi| >= 2
    ensures Closed(lo, hi) != [] && Closed(lo, hi)[0] == s[0]
  {
    hide Sees, TurnsLeft, Sorted;
  }

  /** The convex hull of the points, counter-clockwise from the lexicographically smallest. */
  method ConvexHull2D(pts: seq<Pt>) returns (h: seq<Pt>)
    ensures forall p | p in h :: p in pts
    ensures Encloses(h, pts)
    ensures if Collinear(pts) then Extremes(h, pts) else StrictlyConvex(h)
    ensures pts != [] ==> h != [] && Leftmost(h[0], pts)
  {
    hide Before, HullChain, Cross, Sorted, Collinear, Encloses, Extremes, StrictlyConvex, Sees, TurnsLeft, Leftmost;
    var s := SortUnique(pts);
    var n := |s|;
    FirstIsLeftmost(s, pts);
    if n < 3 {
      FewPoints(s);
      SameMembers(s, pts, s);
      return s;
    }
    var hull := new Pt[2 * n](i => Pt(0.0, 0.0));
    var m := LowerHull(hull, s);
    ghost var lo := hull[0..m];
    var base := m - 1;
    ChainTop(lo, s);
    m := UpperHull(hull, base, s);
    ghost var hi := hull[base..m];
    ChainEnds(lo, hi, s);
    h := hull[..m - 1];
    assert h == Closed(lo, hi);
    ClosedStarts(lo, hi, s);
    ClosedIsHull(lo, hi, s);
    if !Collinear(s) {
      forall j | 0 <= j < |h| ensures Cross(h[j], Next(h, j), Next(h, After(h, j))) > 0.0 { ClosedTurn(lo, hi, s, j); }
      ClosedDistinct(lo, hi, s);
      TurningIsConvex(h);
    }
    SameMembers(s, pts, h);
  }

  /** The chains joined enclose every point, and are the two extremes when the points are collinear. */
  lemma ClosedIsHull(lo: seq<Pt>, hi: seq<Pt>, s: seq<Pt>)
    requires TwoChains(lo, hi, s) && |hi| >= 2
    ensures Encloses(Closed(lo, hi), s) && forall p | p in Closed(lo, hi) :: p in s
    ensures Collinear(s) ==> Extremes(Closed(lo, hi), s)
  {
    hide Cross, TwoChains, Collinear, Extremes, Encloses;
    ClosedEncloses(lo, hi, s);
    if Collinear(s) { ClosedCollinear(lo, hi, s); }
  }

  lemma ChainTop(c: seq<Pt>, s: seq<Pt>)
    requires HullChain(true, c, s)
    ensures c != [] && s != [] && c[|c| - 1] == s[|s| - 1]
  {
  }
}
