/** Statistical outlier removal by mean distance to the k nearest neighbours. */
module Outliers {
  import opened Plane
  import opened Affinity

  function Dist(sqrt: real -> real, p: Pt, q: Pt): real {
    sqrt((p.x - q.x) * (p.x - q.x) + (p.y - q.y) * (p.y - q.y))
  }

  /** Distances from point i to every point. */
  function Row(sqrt: real -> real, pts: seq<Pt>, i: int): (d: seq<real>)
    requires 0 <= i < |pts|
    ensures |d| == |pts| && forall j | 0 <= j < |d| :: d[j] == Dist(sqrt, pts[i], pts[j])
  {
    seq(|pts|, j requires 0 <= j < |pts| => Dist(sqrt, pts[i], pts[j]))
  }

  function InsertReal(s: seq<real>, x: real): seq<real> {
    if s == [] || x <= s[0] then [x] + s else [s[0]] + InsertReal(s[1..], x)
  }

  function SortReals(s: seq<real>): seq<real> {
    if s == [] then [] else InsertReal(SortReals(s[..|s| - 1]), s[|s| - 1])
  }

  ghost predicate Rising(s: seq<real>) { forall i, j | 0 <= i <= j < |s| :: s[i] <= s[j] }

  lemma {:induction false} InsertRising(s: seq<real>, x: real)
    requires Rising(s)
    ensures Rising(InsertReal(s, x)) && multiset(InsertReal(s, x)) == multiset(s) + multiset{x}
    decreases |s|
  {
    if s != [] && x > s[0] {
      InsertRising(s[1..], x);
      var rest := InsertReal(s[1..], x);
      assert s == [s[0]] + s[1..];
      forall j | 0 <= j < |rest| ensures s[0] <= rest[j] {
        assert rest[j] in multiset(rest);
        if rest[j] != x { assert rest[j] in multiset(s[1..]); }
      }
    }
  }

  lemma {:induction false} SortedReals(s: seq<real>)
    ensures Rising(SortReals(s)) && multiset(SortReals(s)) == multiset(s) && |SortReals(s)| == |s|
    decreases |s|
  {
    if s != [] {
      SortedReals(s[..|s| - 1]);
      InsertRising(SortReals(s[..|s| - 1]), s[|s| - 1]);
      assert s == s[..|s| - 1] + [s[|s| - 1]];
    }
    assert |multiset(SortReals(s))| == |multiset(s)|;
  }

  function Total(s: seq<real>): real { if s == [] then 0.0 else Total(s[..|s| - 1]) + s[|s| - 1] }

  /** Mean distance to the k nearest others: the smallest distance is the point's own. */
  function MeanKnn(sqrt: real -> real, pts: seq<Pt>, k: int, i: int): real
    requires 0 <= i < |pts| && 1 <= k < |pts|
  {
    SortedReals(Row(sqrt, pts, i));
    Total(SortReals(Row(sqrt, pts, i))[1..k + 1]) / k as real
  }

  /** The distance left out is the point's distance to itself, zero. */
  lemma SelfIsNearest(sqrt: real -> real, pts: seq<Pt>, i: int)
    requires IsSqrt(sqrt) && 0 <= i < |pts|
    ensures |SortReals(Row(sqrt, pts, i))| == |pts| && SortReals(Row(sqrt, pts, i))[0] == 0.0
  {
    hide SortReals, Dist, IsSqrt;
    var d := Row(sqrt, pts, i);
    SortedReals(d);
    OwnDistance(sqrt, pts[i]);
    forall j | 0 <= j < |d| ensures d[j] >= 0.0 { DistNonNegative(sqrt, pts[i], pts[j]); }
    SmallestFirst(d, SortReals(d), i);
  }

  lemma SmallestFirst(d: seq<real>, t: seq<real>, i: int)
    requires Rising(t) && multiset(t) == multiset(d) && |t| == |d| && 0 <= i < |d| && d[i] == 0.0
    requires forall j | 0 <= j < |d| :: d[j] >= 0.0
    ensures t[0] == 0.0
  {
    assert d[i] in multiset(d);
    assert 0.0 in multiset(t);
    assert t[0] in multiset(t);
    assert t[0] in multiset(d);
  }

  lemma NoRoot(r: real)
    requires r >= 0.0 && r * r == 0.0
    ensures r == 0.0
  {
    if r > 0.0 { Divide(r, r); }
  }

  lemma OwnDistance(sqrt: real -> real, p: Pt)
    requires IsSqrt(sqrt)
    ensures Dist(sqrt, p, p) == 0.0
  {
    var z := (p.x - p.x) * (p.x - p.x) + (p.y - p.y) * (p.y - p.y);
    assert z == 0.0;
    var r := sqrt(z);
    assert r >= 0.0 && r * r == z;
    NoRoot(r);
  }

  lemma DistNonNegative(sqrt: real -> real, p: Pt, q: Pt)
    requires IsSqrt(sqrt)
    ensures Dist(sqrt, p, q) >= 0.0
  {
    SumOfSquares(p.x - q.x, p.y - q.y);
  }

  lemma SumOfSquares(x: real, y: real)
    ensures x * x + y * y >= 0.0
  {
  }

  /** Squared deviations summed. */
  function Spread(s: seq<real>, mean: real): real {
    if s == [] then 0.0 else Spread(s[..|s| - 1], mean) + (s[|s| - 1] - mean) * (s[|s| - 1] - mean)
  }

  function Mean(s: seq<real>): real
    requires s != []
  {
    Total(s) / |s| as real
  }

  function Threshold(sqrt: real -> real, s: seq<real>, alpha: real): real
    requires s != []
  {
    Mean(s) + alpha * sqrt(Spread(s, Mean(s)) / |s| as real)
  }

  function Knns(sqrt: real -> real, pts: seq<Pt>, k: int): (s: seq<real>)
    requires 1 <= k < |pts|
    ensures |s| == |pts| && forall i | 0 <= i < |s| :: s[i] == MeanKnn(sqrt, pts, k, i)
  {
    seq(|pts|, i requires 0 <= i < |pts| => MeanKnn(sqrt, pts, k, i))
  }

  /** The points whose score stays within the bound, in order. */
  function Within(pts: seq<Pt>, score: seq<real>, bound: real): seq<Pt>
    requires |pts| == |score|
  {
    if pts == [] then []
    else var n := |pts| - 1;
         Within(pts[..n], score[..n], bound) + if score[n] <= bound then [pts[n]] else []
  }

  function Kept(sqrt: real -> real, pts: seq<Pt>, k: int, alpha: real): seq<Pt> {
    if k < 1 || |pts| <= k + 1 then pts
    else Within(pts, Knns(sqrt, pts, k), Threshold(sqrt, Knns(sqrt, pts, k), alpha))
  }

  /** Every point's mean distance to its k nearest neighbours. */
  method KnnScores(sqrt: real -> real, pts: seq<Pt>, k: int) returns (knn: seq<real>)
    requires 1 <= k < |pts|
    ensures knn == Knns(sqrt, pts, k)
  {
    hide Total, Dist, SortReals;
    knn := [];
    for i := 0 to |pts|
      invariant |knn| == i && forall x | 0 <= x < i :: knn[x] == MeanKnn(sqrt, pts, k, x)
    {
      var d: seq<real> := [];
      for j := 0 to |pts|
        invariant |d| == j && forall x | 0 <= x < j :: d[x] == Dist(sqrt, pts[i], pts[x])
      {
        d := d + [Dist(sqrt, pts[i], pts[j])];
      }
      assert d == Row(sqrt, pts, i);
      SortedReals(d);
      d := SortReals(d);
      var s := SumOf(d[1..k + 1]);
      knn := knn + [s / k as real];
    }
  }

  method SumOf(s: seq<real>) returns (sum: real)
    ensures sum == Total(s)
  {
    sum := 0.0;
    for i := 0 to |s|
      invariant sum == Total(s[..i])
    {
      assert s[..i + 1][..i] == s[..i];
      sum := sum + s[i];
    }
    assert s[..|s|] == s;
  }

  method SpreadOf(s: seq<real>, mean: real) returns (spread: real)
    ensures spread == Spread(s, mean)
  {
    spread := 0.0;
    for i := 0 to |s|
      invariant spread == Spread(s[..i], mean)
    {
      assert s[..i + 1][..i] == s[..i];
      spread := spread + (s[i] - mean) * (s[i] - mean);
    }
    assert s[..|s|] == s;
  }

  method StatisticalOutlierRemoval(sqrt: real -> real, pts: seq<Pt>, k: int, alpha: real) returns (kept: seq<Pt>)
    ensures kept == Kept(sqrt, pts, k, alpha)
  {
    hide Within, Spread, Total, MeanKnn;
    var n := |pts|;
    if k < 1 || n <= k + 1 { return pts; }
    var knn := KnnScores(sqrt, pts, k);
    var sum := SumOf(knn);
    var mean := sum / n as real;
    var spread := SpreadOf(knn, mean);
    var bound := mean + alpha * sqrt(spread / n as real);
    assert bound == Threshold(sqrt, knn, alpha);
    kept := [];
    WithinStart(pts[..0], knn[..0], bound);
    for i := 0 to n
      invariant kept == Within(pts[..i], knn[..i], bound)
    {
      WithinSnoc(pts, knn, bound, i);
      if knn[i] <= bound { kept := kept + [pts[i]]; }
    }
    assert pts[..n] == pts && knn[..n] == knn;
  }

  lemma WithinStart(pts: seq<Pt>, score: seq<real>, bound: real)
    requires pts == [] && score == []
    ensures Within(pts, score, bound) == []
  {
  }

  lemma WithinSnoc(pts: seq<Pt>, score: seq<real>, bound: real, i: int)
    requires |pts| == |score| && 0 <= i < |pts|
    ensures Within(pts[..i + 1], score[..i + 1], bound) ==
            Within(pts[..i], score[..i], bound) + if score[i] <= bound then [pts[i]] else []
  {
    assert pts[..i + 1][..i] == pts[..i] && score[..i + 1][..i] == score[..i];
  }

  // ---------- what is kept ----------

  lemma {:induction false} WithinIff(pts: seq<Pt>, score: seq<real>, bound: real, p: Pt)
    requires |pts| == |score|
    ensures p in Within(pts, score, bound) <==> exists i :: 0 <= i < |pts| && pts[i] == p && score[i] <= bound
    decreases |pts|
  {
    if pts != [] {
      var n := |pts| - 1;
      WithinIff(pts[..n], score[..n], bound, p);
      if p in Within(pts[..n], score[..n], bound) {
        var i :| 0 <= i < n && pts[..n][i] == p && score[..n][i] <= bound;
        assert pts[i] == p && score[i] <= bound;
      }
      if exists i :: 0 <= i < |pts| && pts[i] == p && score[i] <= bound {
        var i :| 0 <= i < |pts| && pts[i] == p && score[i] <= bound;
        if i < n { assert pts[..n][i] == p && score[..n][i] <= bound; }
      }
    }
  }

  /** Scores all above a bound sum to more than the bound times their number. */
  lemma {:induction false} TotalAbove(s: seq<real>, bound: real)
    requires forall i | 0 <= i < |s| :: s[i] > bound
    ensures Total(s) >= |s| as real * bound && (s != [] ==> Total(s) > |s| as real * bound)
    decreases |s|
  {
    if s != [] {
      var n := |s| - 1;
      forall i | 0 <= i < n ensures s[..n][i] > bound {}
      TotalAbove(s[..n], bound);
      assert |s| as real * bound == n as real * bound + bound;
    }
  }

  lemma SomeAtMostMean(s: seq<real>)
    requires s != []
    ensures exists i :: 0 <= i < |s| && s[i] <= Mean(s)
  {
    hide Total;
    if forall i | 0 <= i < |s| :: s[i] > Mean(s) {
      TotalAbove(s, Mean(s));
      MeanTimes(s);
      assert false;
    }
  }

  lemma MeanTimes(s: seq<real>)
    requires s != []
    ensures |s| as real * Mean(s) == Total(s)
  {
  }

  lemma {:induction false} SpreadNonNegative(s: seq<real>, mean: real)
    ensures Spread(s, mean) >= 0.0
    decreases |s|
  {
    if s != [] {
      SpreadNonNegative(s[..|s| - 1], mean);
      SumOfSquares(s[|s| - 1] - mean, 0.0);
    }
  }

  /** With a non-negative alpha the bound is no lower than the mean, so not every point is dropped. */
  lemma KeepsSome(sqrt: real -> real, pts: seq<Pt>, k: int, alpha: real)
    requires IsSqrt(sqrt) && alpha >= 0.0 && pts != []
    ensures Kept(sqrt, pts, k, alpha) != []
  {
    hide Within, Spread, Total, MeanKnn, Mean;
    if k >= 1 && |pts| > k + 1 {
      var s := Knns(sqrt, pts, k);
      SomeAtMostMean(s);
      var i :| 0 <= i < |s| && s[i] <= Mean(s);
      SpreadNonNegative(s, Mean(s));
      RatioNonNegative(Spread(s, Mean(s)), |s|);
      Product(alpha, sqrt(Spread(s, Mean(s)) / |s| as real));
      WithinIff(pts, s, Threshold(sqrt, s, alpha), pts[i]);
    }
  }

  lemma RatioNonNegative(x: real, n: nat)
    requires x >= 0.0 && n > 0
    ensures x / n as real >= 0.0
  {
  }

  /** Only input points are kept. */
  lemma KeepsInputs(sqrt: real -> real, pts: seq<Pt>, k: int, alpha: real, p: Pt)
    requires p in Kept(sqrt, pts, k, alpha)
    ensures p in pts
  {
    hide Within, Threshold, MeanKnn;
    if k >= 1 && |pts| > k + 1 {
      WithinIff(pts, Knns(sqrt, pts, k), Threshold(sqrt, Knns(sqrt, pts, k), alpha), p);
    }
  }
}
