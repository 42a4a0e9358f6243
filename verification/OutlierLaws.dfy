/** Which points the outlier filter keeps, said in coordinates, distances and sums. */
module OutlierLaws {
  import opened Basics
  import opened Plane
  import opened Affinity
  import opened Outliers

  // ---------- distance ----------

  /** The non-negative number whose square is the sum of the squared coordinate differences. */
  ghost predicate IsDistance(p: Pt, q: Pt, d: real) {
    d >= 0.0 && d * d == (p.x - q.x) * (p.x - q.x) + (p.y - q.y) * (p.y - q.y)
  }

  lemma DistanceIff(sqrt: real -> real, p: Pt, q: Pt, d: real)
    requires IsSqrt(sqrt)
    ensures IsDistance(p, q, d) <==> d == Dist(sqrt, p, q)
  {
    var z := (p.x - q.x) * (p.x - q.x) + (p.y - q.y) * (p.y - q.y);
    SumOfSquares(p.x - q.x, p.y - q.y);
    var r := sqrt(z);
    assert r >= 0.0 && r * r == z;
    if d >= 0.0 && d * d == z { SameRoot(d, r); }
  }

  lemma SameRoot(a: real, b: real)
    requires a >= 0.0 && b >= 0.0 && a * a == b * b
    ensures a == b
  {
    BySquares(a, b);
    BySquares(b, a);
  }

  // ---------- sums over chosen indices ----------

  ghost predicate InRange(js: seq<int>, n: nat) { forall a | 0 <= a < |js| :: 0 <= js[a] < n }

  /** Values of d at the listed indices. */
  ghost function At(d: seq<real>, js: seq<int>): (r: seq<real>)
    requires InRange(js, |d|)
    ensures |r| == |js| && forall a | 0 <= a < |r| :: r[a] == d[js[a]]
  {
    seq(|js|, a requires 0 <= a < |js| => d[js[a]])
  }

  /** What of x lies below c, as a non-positive number. */
  function Short(x: real, c: real): real { if x < c then x - c else 0.0 }

  function Shorts(d: seq<real>, c: real): real {
    if d == [] then 0.0 else Shorts(d[..|d| - 1], c) + Short(d[|d| - 1], c)
  }

  lemma {:induction false} InsertShorts(s: seq<real>, x: real, c: real)
    ensures Shorts(InsertReal(s, x), c) == Shorts(s, c) + Short(x, c)
    decreases |s|
  {
    if s == [] || x <= s[0] {
      FrontShorts([x] + s, c);
      assert ([x] + s)[1..] == s;
    } else {
      InsertShorts(s[1..], x, c);
      FrontShorts(s, c);
      FrontShorts([s[0]] + InsertReal(s[1..], x), c);
    }
  }

  lemma {:induction false} FrontShorts(s: seq<real>, c: real)
    requires s != []
    ensures Shorts(s, c) == Short(s[0], c) + Shorts(s[1..], c)
    decreases |s|
  {
    if |s| > 1 {
      FrontShorts(s[..|s| - 1], c);
      assert s[..|s| - 1][1..] == s[1..][..|s| - 2];
    }
  }

  lemma {:induction false} SortShorts(d: seq<real>, c: real)
    ensures Shorts(SortReals(d), c) == Shorts(d, c)
    decreases |d|
  {
    if d != [] {
      SortShorts(d[..|d| - 1], c);
      InsertShorts(SortReals(d[..|d| - 1]), d[|d| - 1], c);
    }
  }

  /** The n smallest of a sorted list fall short of the n-th by what all do. */
  lemma {:induction false} SortedShorts(t: seq<real>, n: nat, c: real)
    requires Rising(t) && 1 <= n <= |t| && c == t[n - 1]
    ensures Shorts(t, c) == Total(t[..n]) - n as real * c
    decreases |t|
  {
    if |t| > n {
      var u := t[..|t| - 1];
      SortedShorts(u, n, c);
      assert u[..n] == t[..n];
    } else {
      assert t[..n] == t;
      AllShort(t, c);
    }
  }

  lemma {:induction false} AllShort(t: seq<real>, c: real)
    requires forall m | 0 <= m < |t| :: t[m] <= c
    ensures Shorts(t, c) == Total(t) - |t| as real * c
    decreases |t|
  {
    if t != [] {
      AllShort(t[..|t| - 1], c);
      OneLess(|t|, c);
    }
  }

  lemma OneLess(n: nat, c: real)
    requires n >= 1
    ensures n as real * c == (n - 1) as real * c + c
  {
  }

  /** What the listed values exceed c by, in all. */
  ghost function Surplus(d: seq<real>, js: seq<int>, c: real): real
    requires InRange(js, |d|)
  {
    Total(At(d, js)) - |js| as real * c
  }

  /** Distinct indices take no more of the shortfall than there is. */
  lemma {:induction false} ChosenShorts(d: seq<real>, js: seq<int>, c: real)
    requires InRange(js, |d|) && Distinct(js)
    ensures Surplus(d, js, c) >= Shorts(d, c)
    decreases |d|
  {
    hide Distinct, Surplus;
    if d == [] {
      NoneListed(d, js, c);
    } else {
      var n := |d| - 1;
      if n in js {
        var a :| 0 <= a < |js| && js[a] == n;
        var js' := js[..a] + js[a + 1..];
        WithoutOne(d, js, a);
        ChosenShorts(d[..n], js', c);
        SurplusDrops(d, js, js', c);
        SameSurplus(d, js', c);
      } else {
        StillInRange(d, js);
        ChosenShorts(d[..n], js, c);
        SameSurplus(d, js, c);
      }
    }
  }

  lemma NoneListed(d: seq<real>, js: seq<int>, c: real)
    requires d == [] && InRange(js, |d|)
    ensures Surplus(d, js, c) >= Shorts(d, c)
  {
    RangeHas(js, |d|);
  }

  lemma RangeHas(js: seq<int>, n: nat)
    requires InRange(js, n)
    ensures js == [] || n > 0
  {
    if js != [] { assert 0 <= js[0] < n; }
  }

  lemma StillInRange(d: seq<real>, js: seq<int>)
    requires d != [] && InRange(js, |d|) && |d| - 1 !in js
    ensures InRange(js, |d| - 1)
  {
  }

  lemma SameSurplus(d: seq<real>, js: seq<int>, c: real)
    requires d != [] && InRange(js, |d| - 1) && InRange(js, |d|)
    ensures Surplus(d[..|d| - 1], js, c) == Surplus(d, js, c)
  {
    assert At(d[..|d| - 1], js) == At(d, js);
  }

  lemma SurplusDrops(d: seq<real>, js: seq<int>, js': seq<int>, c: real)
    requires d != [] && InRange(js, |d|) && InRange(js', |d|) && |js'| == |js| - 1
    requires Total(At(d, js)) == Total(At(d, js')) + d[|d| - 1]
    ensures Surplus(d, js, c) == Surplus(d, js', c) + d[|d| - 1] - c
  {
    OneLess(|js|, c);
  }

  lemma WithoutOne(d: seq<real>, js: seq<int>, a: nat)
    requires d != [] && InRange(js, |d|) && Distinct(js) && a < |js| && js[a] == |d| - 1
    ensures var js' := js[..a] + js[a + 1..];
            InRange(js', |d| - 1) && Distinct(js') && InRange(js', |d|) && |js'| == |js| - 1
            && Total(At(d, js)) == Total(At(d, js')) + d[js[a]]
  {
    var js' := js[..a] + js[a + 1..];
    forall b | 0 <= b < |js'| ensures 0 <= js'[b] < |d| - 1 { assert js'[b] == js[if b < a then b else b + 1]; }
    DropTotal(At(d, js), a);
    assert At(d, js') == At(d, js)[..a] + At(d, js)[a + 1..];
  }

  lemma {:induction false} DropTotal(s: seq<real>, a: nat)
    requires a < |s|
    ensures Total(s) == Total(s[..a] + s[a + 1..]) + s[a]
    decreases |s|
  {
    var n := |s| - 1;
    if a == n {
      assert s[..a] + s[a + 1..] == s[..n];
    } else {
      DropTotal(s[..n], a);
      var r := s[..a] + s[a + 1..];
      assert r[..|r| - 1] == s[..n][..a] + s[..n][a + 1..];
    }
  }

  /** No n distinct places of a list sum to less than its n smallest values. */
  lemma SmallestSum(d: seq<real>, js: seq<int>)
    requires InRange(js, |d|) && Distinct(js) && 1 <= |js| <= |d|
    ensures |SortReals(d)| == |d| && Total(At(d, js)) >= Total(SortReals(d)[..|js|])
  {
    hide Total, Shorts, SortReals, Distinct;
    SortedReals(d);
    var t, n := SortReals(d), |js|;
    var c := t[n - 1];
    SortShorts(d, c);
    SortedShorts(t, n, c);
    ChosenShorts(d, js, c);
  }

  // ---------- the order that sorts ----------

  /** p lists every place of d once, by rising value. */
  ghost predicate Sorts(d: seq<real>, p: seq<int>) {
    |p| == |d| && InRange(p, |d|) && Distinct(p) && SortReals(d) == At(d, p)
  }

  lemma {:induction false} SortingOrder(d: seq<real>) returns (p: seq<int>)
    ensures Sorts(d, p)
    decreases |d|
  {
    if d == [] {
      p := [];
    } else {
      var n := |d| - 1;
      var q := SortingOrder(d[..n]);
      assert At(d, q) == At(d[..n], q);
      p := InsertPlace(d, q, n);
    }
  }

  lemma {:induction false} InsertPlace(d: seq<real>, q: seq<int>, n: nat) returns (p: seq<int>)
    requires n < |d| && InRange(q, n) && InRange(q, |d|) && Distinct(q)
    ensures |p| == |q| + 1 && InRange(p, |d|) && Distinct(p) && At(d, p) == InsertReal(At(d, q), d[n])
    ensures forall x :: x in p <==> x in q || x == n
    decreases |q|
  {
    hide Distinct;
    var s := At(d, q);
    if q == [] || d[n] <= s[0] {
      p := [n] + q;
      NotListed(q, n);
      ConsDistinct(n, q);
      assert At(d, p) == [d[n]] + s;
    } else {
      var x, rest := q[0], q[1..];
      assert At(d, rest) == s[1..] && q == [x] + rest;
      TailDistinct(q);
      var r := InsertPlace(d, rest, n);
      p := [x] + r;
      assert At(d, p) == [d[x]] + At(d, r);
      ConsDistinct(x, r);
    }
  }

  lemma NotListed(q: seq<int>, n: nat)
    requires InRange(q, n)
    ensures n !in q
  {
  }

  lemma TailDistinct(q: seq<int>)
    requires q != [] && Distinct(q)
    ensures Distinct(q[1..]) && q[0] !in q[1..]
  {
  }

  lemma ConsDistinct(x: int, r: seq<int>)
    requires Distinct(r) && x !in r
    ensures Distinct([x] + r)
  {
    forall a, b | 0 <= a < b < |r| + 1 ensures ([x] + r)[a] != ([x] + r)[b] {
      if a == 0 { assert r[b - 1] in r; } else { assert r[a - 1] != r[b - 1]; }
    }
  }

  /** Every place is listed. */
  lemma {:induction false} AllListed(p: seq<int>, n: nat, i: nat)
    requires |p| == n && InRange(p, n) && Distinct(p) && i < n
    ensures i in p
    decreases n
  {
    if i !in p {
      var js := seq(n, a requires 0 <= a < n => if p[a] == n - 1 then i else p[a]);
      FewerPlaces(p, n, i, js);
      TooMany(js, n - 1);
    }
  }

  lemma FewerPlaces(p: seq<int>, n: nat, i: nat, js: seq<int>)
    requires |p| == n == |js| && InRange(p, n) && Distinct(p) && i < n && i !in p
    requires forall a | 0 <= a < n :: js[a] == if p[a] == n - 1 then i else p[a]
    ensures InRange(js, n - 1) && Distinct(js)
  {
    forall a | 0 <= a < n ensures 0 <= js[a] < n - 1 { assert p[a] in p; }
    forall a, b | 0 <= a < b < n ensures js[a] != js[b] { assert p[a] in p && p[b] in p && p[a] != p[b]; }
  }

  /** n places have no more than n distinct ones among them. */
  lemma {:induction false} TooMany(js: seq<int>, n: nat)
    requires InRange(js, n) && Distinct(js)
    ensures |js| <= n
    decreases n
  {
    RangeHas(js, n);
    if n > 0 {
      if n - 1 in js {
        var a :| 0 <= a < |js| && js[a] == n - 1;
        var rest := js[..a] + js[a + 1..];
        forall b | 0 <= b < |rest| ensures 0 <= rest[b] < n - 1 { assert rest[b] == js[if b < a then b else b + 1]; }
        TooMany(rest, n - 1);
      } else {
        TooMany(js, n - 1);
      }
    }
  }

  // ---------- the score ----------

  /** k distinct places other than i. */
  ghost predicate Others(js: seq<int>, n: nat, i: int, k: nat) { |js| == k && InRange(js, n) && Distinct(js) && i !in js }

  /** ds are the distances from point i to the listed ones. */
  ghost predicate DistancesTo(pts: seq<Pt>, i: int, js: seq<int>, ds: seq<real>)
    requires 0 <= i < |pts| && InRange(js, |pts|)
  {
    |ds| == |js| && forall a | 0 <= a < |js| :: IsDistance(pts[i], pts[js[a]], ds[a])
  }

  lemma DistancesAt(sqrt: real -> real, pts: seq<Pt>, i: int, js: seq<int>, ds: seq<real>)
    requires IsSqrt(sqrt) && 0 <= i < |pts| && InRange(js, |pts|)
    ensures DistancesTo(pts, i, js, ds) <==> ds == At(Row(sqrt, pts, i), js)
  {
    hide IsDistance, Dist, IsSqrt;
    var d := At(Row(sqrt, pts, i), js);
    if |ds| == |js| {
      forall a | 0 <= a < |js| ensures IsDistance(pts[i], pts[js[a]], ds[a]) <==> ds[a] == d[a] { DistanceIff(sqrt, pts[i], pts[js[a]], ds[a]); }
    }
  }

  lemma ScoreTimes(sqrt: real -> real, pts: seq<Pt>, k: int, i: int)
    requires 0 <= i < |pts| && 1 <= k < |pts|
    ensures |SortReals(Row(sqrt, pts, i))| == |pts|
    ensures MeanKnn(sqrt, pts, k, i) * k as real == Total(SortReals(Row(sqrt, pts, i))[1..k + 1])
  {
    hide Total, SortReals, Row;
    SortedReals(Row(sqrt, pts, i));
    Over(Total(SortReals(Row(sqrt, pts, i))[1..k + 1]), k as real);
  }

  lemma Over(x: real, n: real)
    requires n > 0.0
    ensures x / n * n == x
  {
  }

  lemma {:induction false} FrontTotal(s: seq<real>)
    requires s != []
    ensures Total(s) == s[0] + Total(s[1..])
    decreases |s|
  {
    if |s| > 1 {
      FrontTotal(s[..|s| - 1]);
      assert s[..|s| - 1][1..] == s[1..][..|s| - 2];
    }
  }

  /** A point's score times k is at most the sum of its distances to any k other points. */
  lemma ScoreIsLeast(sqrt: real -> real, pts: seq<Pt>, k: int, i: int, js: seq<int>, ds: seq<real>)
    requires IsSqrt(sqrt) && 0 <= i < |pts| && 1 <= k < |pts| && Others(js, |pts|, i, k) && DistancesTo(pts, i, js, ds)
    ensures MeanKnn(sqrt, pts, k, i) * k as real <= Total(ds)
  {
    hide Total, SortReals, Row, MeanKnn, IsSqrt, Dist, IsDistance;
    var d := Row(sqrt, pts, i);
    var all := js + [i];
    ScoreTimes(sqrt, pts, k, i);
    DistancesAt(sqrt, pts, i, js, ds);
    SnocDistinct(js, i, |pts|);
    SmallestSum(d, all);
    SelfIsNearest(sqrt, pts, i);
    OwnRow(sqrt, pts, i);
    assert At(d, all) == ds + [0.0];
    SnocTotal(ds, 0.0);
    var t := SortReals(d)[..k + 1];
    FrontTotal(t);
    assert t[1..] == SortReals(d)[1..k + 1];
  }

  lemma OwnRow(sqrt: real -> real, pts: seq<Pt>, i: int)
    requires IsSqrt(sqrt) && 0 <= i < |pts|
    ensures Row(sqrt, pts, i)[i] == 0.0
  {
    OwnDistance(sqrt, pts[i]);
  }

  lemma SnocDistinct(js: seq<int>, i: int, n: nat)
    requires InRange(js, n) && Distinct(js) && i !in js && 0 <= i < n
    ensures InRange(js + [i], n) && Distinct(js + [i])
  {
    forall a, b | 0 <= a < b < |js| + 1 ensures (js + [i])[a] != (js + [i])[b] { assert js[a] in js; }
  }

  lemma SnocTotal(s: seq<real>, x: real)
    ensures Total(s + [x]) == Total(s) + x
  {
    assert (s + [x])[..|s|] == s;
  }

  /** And some k other points have that sum of distances. */
  lemma ScoreAttained(sqrt: real -> real, pts: seq<Pt>, k: int, i: int) returns (js: seq<int>, ds: seq<real>)
    requires IsSqrt(sqrt) && 0 <= i < |pts| && 1 <= k < |pts|
    ensures Others(js, |pts|, i, k) && DistancesTo(pts, i, js, ds) && MeanKnn(sqrt, pts, k, i) * k as real == Total(ds)
  {
    hide Total, SortReals, Row, MeanKnn, IsSqrt, Dist, IsDistance;
    var d := Row(sqrt, pts, i);
    ScoreTimes(sqrt, pts, k, i);
    SelfIsNearest(sqrt, pts, i);
    OwnRow(sqrt, pts, i);
    SortedReals(d);
    var p := SortingOrder(d);
    AllListed(p, |pts|, i);
    var m :| 0 <= m < |p| && p[m] == i;
    js := PickOthers(d, p, m, i, k);
    ds := At(d, js);
    DistancesAt(sqrt, pts, i, js, ds);
  }

  lemma PickOthers(d: seq<real>, p: seq<int>, m: nat, i: int, k: nat) returns (js: seq<int>)
    requires Sorts(d, p) && Rising(SortReals(d)) && m < |p| && p[m] == i && d[i] == 0.0 && SortReals(d)[0] == 0.0 && 1 <= k < |d|
    ensures Others(js, |d|, i, k) && Total(At(d, js)) == Total(SortReals(d)[1..k + 1])
  {
    hide Total, SortReals;
    var t := SortReals(d);
    assert At(d, p) == t;
    if m <= k {
      var front := p[..k + 1];
      js := front[..m] + front[m + 1..];
      forall b | 0 <= b < |js| ensures js[b] == p[if b < m then b else b + 1] {}
      DropTotal(t[..k + 1], m);
      FrontTotal(t[..k + 1]);
      assert At(d, js) == t[..k + 1][..m] + t[..k + 1][m + 1..];
      assert t[..k + 1][1..] == t[1..k + 1];
    } else {
      js := p[1..k + 1];
      assert At(d, js) == t[1..k + 1];
    }
  }

  // ---------- what is kept ----------

  /** The flagged points, in order. */
  function Picked(pts: seq<Pt>, flags: seq<bool>): seq<Pt>
    requires |flags| == |pts|
  {
    if pts == [] then []
    else var n := |pts| - 1; Picked(pts[..n], flags[..n]) + if flags[n] then [pts[n]] else []
  }

  lemma {:induction false} WithinIsPicked(pts: seq<Pt>, score: seq<real>, bound: real, flags: seq<bool>)
    requires |pts| == |score| == |flags| && forall i | 0 <= i < |pts| :: flags[i] <==> score[i] <= bound
    ensures Within(pts, score, bound) == Picked(pts, flags)
    decreases |pts|
  {
    if pts != [] {
      var n := |pts| - 1;
      WithinIsPicked(pts[..n], score[..n], bound, flags[..n]);
    }
  }

  lemma {:induction false} SpreadIs(s: seq<real>, mean: real, squares: seq<real>)
    requires |squares| == |s| && forall i | 0 <= i < |s| :: squares[i] == (s[i] - mean) * (s[i] - mean)
    ensures Spread(s, mean) == Total(squares)
    decreases |s|
  {
    if s != [] { SpreadIs(s[..|s| - 1], mean, squares[..|s| - 1]); }
  }

  /** The mean of the scores and their deviation, whose square times their number is the sum of the squared
      differences from the mean. */
  ghost predicate Measured(score: seq<real>, mean: real, dev: real, squares: seq<real>) {
    && |squares| == |score| && mean * |score| as real == Total(score)
    && (forall i | 0 <= i < |score| :: squares[i] == (score[i] - mean) * (score[i] - mean))
    && dev >= 0.0 && dev * dev * |score| as real == Total(squares)
  }

  ghost predicate Flagged(score: seq<real>, most: real, flags: seq<bool>) {
    |flags| == |score| && forall i | 0 <= i < |score| :: flags[i] <==> score[i] <= most
  }

  /** The points kept, in order, are those whose score is at most the mean plus alpha deviations. */
  lemma KeptIs(sqrt: real -> real, pts: seq<Pt>, k: int, alpha: real, score: seq<real>, mean: real, dev: real, squares: seq<real>,
               flags: seq<bool>)
    requires IsSqrt(sqrt) && 1 <= k && |pts| > k + 1 && |score| == |pts|
    requires forall i | 0 <= i < |pts| :: score[i] == MeanKnn(sqrt, pts, k, i)
    requires Measured(score, mean, dev, squares) && Flagged(score, mean + alpha * dev, flags)
    ensures |flags| == |pts| && Kept(sqrt, pts, k, alpha) == Picked(pts, flags)
  {
    hide Total, Spread, Within, MeanKnn, IsSqrt, Picked, Threshold, Measured;
    assert score == Knns(sqrt, pts, k);
    BoundIs(sqrt, score, alpha, mean, dev, squares);
    WithinIsPicked(pts, score, Threshold(sqrt, score, alpha), flags);
  }

  lemma BoundIs(sqrt: real -> real, score: seq<real>, alpha: real, mean: real, dev: real, squares: seq<real>)
    requires IsSqrt(sqrt) && score != [] && Measured(score, mean, dev, squares)
    ensures Threshold(sqrt, score, alpha) == mean + alpha * dev
  {
    hide Total, Spread, IsSqrt, Mean;
    MeanTimes(score);
    Unique(mean, Mean(score), |score| as real, Total(score));
    SpreadIs(score, mean, squares);
    DeviationIs(sqrt, dev, Spread(score, mean), |score| as real);
  }

  lemma Unique(x: real, y: real, n: real, z: real)
    requires n > 0.0 && x * n == z && n * y == z
    ensures x == y
  {
    assert n * (x - y) == 0.0 && n * (y - x) == 0.0;
    Shrink(n, x - y);
    Shrink(n, y - x);
  }

  lemma DeviationIs(sqrt: real -> real, dev: real, spread: real, n: real)
    requires IsSqrt(sqrt) && dev >= 0.0 && n > 0.0 && dev * dev * n == spread
    ensures sqrt(spread / n) == dev
  {
    var z := spread / n;
    Over(spread, n);
    Unique(dev * dev, z, n, spread);
    RootsAgree(dev, z, sqrt(z));
  }

  lemma RootsAgree(dev: real, z: real, r: real)
    requires dev >= 0.0 && dev * dev == z && (z >= 0.0 ==> r >= 0.0 && r * r == z)
    ensures r == dev
  {
    SquareNonNegative(dev);
    SameRoot(dev, r);
  }

  lemma SquareNonNegative(x: real)
    requires x >= 0.0
    ensures x * x >= 0.0
  {
  }

  /** Too few points, or no neighbours asked for: all are kept. */
  lemma FewAreKept(sqrt: real -> real, pts: seq<Pt>, k: int, alpha: real)
    ensures k < 1 || |pts| <= k + 1 ==> Kept(sqrt, pts, k, alpha) == pts
  {
  }
}
