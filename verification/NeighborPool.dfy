/** Superpoint histograms smoothed with those of the nearest superpoints. */
module NeighborPool {
  import opened WorldMap
  import opened Affinity
  import opened Growing

  function Gap(sps: seq<Superpoint>, i: int, j: int): real
    requires 0 <= i < |sps| && 0 <= j < |sps|
  {
    Dist2(sps[i].centroid, sps[j].centroid)
  }

  /** Superpoint a is nearer to i than b, the earlier of two as near. */
  predicate Nearer(sps: seq<Superpoint>, i: int, a: int, b: int)
    requires 0 <= i < |sps| && 0 <= a < |sps| && 0 <= b < |sps|
  {
    Gap(sps, i, a) < Gap(sps, i, b) || (Gap(sps, i, a) == Gap(sps, i, b) && a < b)
  }

  /** j may be pooled into i. */
  predicate Poolable(sps: seq<Superpoint>, i: int, j: int)
    requires 0 <= i < |sps|
  {
    0 <= j < |sps| && j != i && |sps[j].hist| == |sps[i].hist|
  }

  ghost predicate AllPoolable(sps: seq<Superpoint>, i: int, ns: seq<int>)
    requires 0 <= i < |sps|
  {
    forall a | 0 <= a < |ns| :: Poolable(sps, i, ns[a])
  }

  ghost predicate Nearing(sps: seq<Superpoint>, i: int, ns: seq<int>)
    requires 0 <= i < |sps| && AllPoolable(sps, i, ns)
  {
    forall a, b | 0 <= a < b < |ns| :: Nearer(sps, i, ns[a], ns[b])
  }

  /** The k nearest superpoints that can be pooled into i, all of them if there are fewer, by distance. */
  ghost predicate Nearest(sps: seq<Superpoint>, i: int, k: nat, ns: seq<int>)
    requires 0 <= i < |sps|
  {
    && AllPoolable(sps, i, ns) && Nearing(sps, i, ns) && |ns| <= k
    && forall j | Poolable(sps, i, j) && j !in ns :: |ns| == k && Farther(sps, i, ns, j)
  }

  ghost predicate Farther(sps: seq<Superpoint>, i: int, ns: seq<int>, j: int)
    requires 0 <= i < |sps| && AllPoolable(sps, i, ns) && 0 <= j < |sps|
  {
    forall a | 0 <= a < |ns| :: Nearer(sps, i, ns[a], j)
  }

  lemma Nearness(sps: seq<Superpoint>, i: int, a: int, b: int)
    requires 0 <= i < |sps| && 0 <= a < |sps| && 0 <= b < |sps|
    ensures Nearer(sps, i, a, b) ==> a != b && !Nearer(sps, i, b, a)
  {
  }

  /** There is only one such list. */
  lemma {:induction false} NearestUnique(sps: seq<Superpoint>, i: int, k: nat, xs: seq<int>, ys: seq<int>)
    requires 0 <= i < |sps| && Nearest(sps, i, k, xs) && Nearest(sps, i, k, ys)
    ensures xs == ys
  {
    hide Nearer;
    var n := SamePrefix(xs, ys);
    if n < |xs| { Leader(sps, i, k, xs, ys, n); }
    if n < |ys| { Leader(sps, i, k, ys, xs, n); }
  }

  /** How long the two lists agree. */
  lemma SamePrefix(xs: seq<int>, ys: seq<int>) returns (n: nat)
    ensures n <= |xs| && n <= |ys| && xs[..n] == ys[..n]
    ensures n < |xs| && n < |ys| ==> xs[n] != ys[n]
  {
    n := 0;
    while n < |xs| && n < |ys| && xs[n] == ys[n]
      invariant n <= |xs| && n <= |ys| && xs[..n] == ys[..n]
    {
      assert xs[..n + 1] == xs[..n] + [xs[n]] && ys[..n + 1] == ys[..n] + [ys[n]];
      n := n + 1;
    }
  }

  /** Where one list goes on, the other goes on with the same superpoint. */
  lemma Leader(sps: seq<Superpoint>, i: int, k: nat, xs: seq<int>, ys: seq<int>, n: nat)
    requires 0 <= i < |sps| && Nearest(sps, i, k, xs) && Nearest(sps, i, k, ys)
    requires n < |xs| && n <= |ys| && xs[..n] == ys[..n]
    ensures n < |ys| && xs[n] == ys[n]
  {
    hide Nearer;
    Ahead(sps, i, k, xs, ys, n);
    if n < |ys| {
      Ahead(sps, i, k, ys, xs, n);
      Nearness(sps, i, ys[n], xs[n]);
    }
  }

  lemma Ahead(sps: seq<Superpoint>, i: int, k: nat, xs: seq<int>, ys: seq<int>, n: nat)
    requires 0 <= i < |sps| && Nearest(sps, i, k, xs) && Nearest(sps, i, k, ys)
    requires n < |xs| && n <= |ys| && xs[..n] == ys[..n]
    ensures n < |ys| && (ys[n] == xs[n] || Nearer(sps, i, ys[n], xs[n]))
  {
    hide Nearer;
    var x := xs[n];
    if x in ys {
      var b :| 0 <= b < |ys| && ys[b] == x;
      if b < n {
        assert xs[..n][b] == ys[..n][b];
        Nearness(sps, i, xs[b], x);
      }
    } else {
      assert Farther(sps, i, ys, x);
    }
  }

  // ---------- collecting ----------

  function Inserted(sps: seq<Superpoint>, i: int, ns: seq<int>, j: int): seq<int>
    requires 0 <= i < |sps| && 0 <= j < |sps| && forall a | 0 <= a < |ns| :: 0 <= ns[a] < |sps|
  {
    if ns == [] || Nearer(sps, i, j, ns[0]) then [j] + ns else [ns[0]] + Inserted(sps, i, ns[1..], j)
  }

  lemma {:induction false} InsertedOk(sps: seq<Superpoint>, i: int, ns: seq<int>, j: int)
    requires 0 <= i < |sps| && AllPoolable(sps, i, ns) && Nearing(sps, i, ns) && Poolable(sps, i, j) && j !in ns
    ensures AllPoolable(sps, i, Inserted(sps, i, ns, j)) && Nearing(sps, i, Inserted(sps, i, ns, j))
    ensures forall x :: x in Inserted(sps, i, ns, j) <==> x == j || x in ns
    decreases |ns|
  {
    if ns != [] {
      assert ns == [ns[0]] + ns[1..];
      if !Nearer(sps, i, j, ns[0]) {
        InsertedOk(sps, i, ns[1..], j);
        var rest := Inserted(sps, i, ns[1..], j);
        forall b | 0 <= b < |rest| ensures Nearer(sps, i, ns[0], rest[b]) { assert rest[b] in rest; }
      }
    }
  }

  /** All superpoints that can be pooled into i, by distance. */
  method ByDistance(sps: seq<Superpoint>, i: int) returns (ns: seq<int>)
    requires 0 <= i < |sps|
    ensures AllPoolable(sps, i, ns) && Nearing(sps, i, ns) && forall j :: j in ns <==> Poolable(sps, i, j)
  {
    hide Nearing, Nearer;
    ns := [];
    assert Nearing(sps, i, []) by { NearingNone(sps, i); }
    for j := 0 to |sps|
      invariant AllPoolable(sps, i, ns) && Nearing(sps, i, ns)
      invariant forall x :: x in ns <==> Poolable(sps, i, x) && x < j
    {
      if j != i && |sps[j].hist| == |sps[i].hist| {
        InsertedOk(sps, i, ns, j);
        ns := Inserted(sps, i, ns, j);
      }
    }
  }

  lemma NearingNone(sps: seq<Superpoint>, i: int)
    requires 0 <= i < |sps|
    ensures Nearing(sps, i, [])
  {
  }

  lemma FirstAreNearest(sps: seq<Superpoint>, i: int, ns: seq<int>, k: nat)
    requires 0 <= i < |sps| && AllPoolable(sps, i, ns) && Nearing(sps, i, ns) && forall j :: j in ns <==> Poolable(sps, i, j)
    ensures Nearest(sps, i, k, if k < |ns| then ns[..k] else ns)
  {
    hide Nearer;
    if k < |ns| {
      forall a | 0 <= a < k ensures ns[a] in ns[..k] { assert ns[..k][a] == ns[a]; }
      forall j | Poolable(sps, i, j) && j !in ns[..k] ensures Farther(sps, i, ns[..k], j) {
        var b :| 0 <= b < |ns| && ns[b] == j;
      }
    }
  }

  // ---------- pooling ----------

  function Added(h: seq<real>, decay: real, g: seq<real>): (r: seq<real>)
    requires |g| == |h|
    ensures |r| == |h|
  {
    seq(|h|, c requires 0 <= c < |h| => h[c] + decay * g[c])
  }

  function PooledOver(sps: seq<Superpoint>, i: int, decay: real, ns: seq<int>): (r: seq<real>)
    requires 0 <= i < |sps| && AllPoolable(sps, i, ns)
    ensures |r| == |sps[i].hist|
  {
    if ns == [] then sps[i].hist
    else Added(PooledOver(sps, i, decay, ns[..|ns| - 1]), decay, sps[ns[|ns| - 1]].hist)
  }

  /** Total weight of class c over the listed superpoints. */
  function WeightAt(sps: seq<Superpoint>, i: int, ns: seq<int>, c: int): real
    requires 0 <= i < |sps| && AllPoolable(sps, i, ns) && 0 <= c < |sps[i].hist|
  {
    if ns == [] then 0.0 else WeightAt(sps, i, ns[..|ns| - 1], c) + sps[ns[|ns| - 1]].hist[c]
  }

  /** A superpoint's own weight and the decayed weight of the others. */
  lemma {:induction false} PooledAt(sps: seq<Superpoint>, i: int, decay: real, ns: seq<int>, c: int)
    requires 0 <= i < |sps| && AllPoolable(sps, i, ns) && 0 <= c < |sps[i].hist|
    ensures PooledOver(sps, i, decay, ns)[c] == sps[i].hist[c] + decay * WeightAt(sps, i, ns, c)
    decreases |ns|
  {
    if ns != [] { PooledAt(sps, i, decay, ns[..|ns| - 1], c); }
  }

  /** The histogram superpoint i is compared by. */
  ghost predicate PooledFor(sps: seq<Superpoint>, pp: PoolParams, i: int, h: seq<real>)
    requires 0 <= i < |sps|
  {
    if !pp.on || sps[i].hist == [] then h == sps[i].hist
    else exists ns :: PooledBy(sps, i, AtLeastZero(pp.k), pp.decay, ns, h)
  }

  ghost predicate PooledBy(sps: seq<Superpoint>, i: int, k: nat, decay: real, ns: seq<int>, h: seq<real>)
    requires 0 <= i < |sps|
  {
    Nearest(sps, i, k, ns) && h == PooledOver(sps, i, decay, ns)
  }

  function AtLeastZero(k: int): nat { if k > 0 then k else 0 }

  ghost predicate AllPooled(sps: seq<Superpoint>, pp: PoolParams, shists: seq<seq<real>>) {
    |shists| == |sps| && forall i | 0 <= i < |sps| :: PooledFor(sps, pp, i, shists[i])
  }

  /** The pooled histograms are a function of the superpoints. */
  lemma PooledUnique(sps: seq<Superpoint>, pp: PoolParams, one: seq<seq<real>>, other: seq<seq<real>>)
    requires AllPooled(sps, pp, one) && AllPooled(sps, pp, other)
    ensures one == other
  {
    forall i | 0 <= i < |sps| ensures one[i] == other[i] {
      assert PooledFor(sps, pp, i, one[i]) && PooledFor(sps, pp, i, other[i]);
      if pp.on && sps[i].hist != [] {
        var xs :| PooledBy(sps, i, AtLeastZero(pp.k), pp.decay, xs, one[i]);
        var ys :| PooledBy(sps, i, AtLeastZero(pp.k), pp.decay, ys, other[i]);
        NearestUnique(sps, i, AtLeastZero(pp.k), xs, ys);
      }
    }
  }

  /** Pooling keeps weights non-negative, so that the cosine stays in the unit interval. */
  lemma PooledNonNegative(sps: seq<Superpoint>, pp: PoolParams, i: int, h: seq<real>)
    requires 0 <= i < |sps| && pp.decay >= 0.0 && (forall j | 0 <= j < |sps| :: NonNegative(sps[j].hist)) && PooledFor(sps, pp, i, h)
    ensures NonNegative(h)
  {
    hide Nearing, Nearer;
    if pp.on && sps[i].hist != [] {
      var ns :| PooledBy(sps, i, AtLeastZero(pp.k), pp.decay, ns, h);
      OverNonNegative(sps, i, pp.decay, ns);
    }
  }

  lemma {:induction false} OverNonNegative(sps: seq<Superpoint>, i: int, decay: real, ns: seq<int>)
    requires 0 <= i < |sps| && decay >= 0.0 && (forall j | 0 <= j < |sps| :: NonNegative(sps[j].hist)) && AllPoolable(sps, i, ns)
    ensures NonNegative(PooledOver(sps, i, decay, ns))
    decreases |ns|
  {
    if ns != [] {
      var n := |ns| - 1;
      OverNonNegative(sps, i, decay, ns[..n]);
      assert Poolable(sps, i, ns[n]);
      AddedNonNegative(PooledOver(sps, i, decay, ns[..n]), decay, sps[ns[n]].hist);
    }
  }

  lemma AddedNonNegative(h: seq<real>, decay: real, g: seq<real>)
    requires |g| == |h| && decay >= 0.0 && NonNegative(h) && NonNegative(g)
    ensures NonNegative(Added(h, decay, g))
  {
    forall c | 0 <= c < |h| ensures Added(h, decay, g)[c] >= 0.0 { Grow(decay, g[c]); }
  }

  method PoolOne(sps: seq<Superpoint>, i: int, k: int, decay: real) returns (h: seq<real>)
    requires 0 <= i < |sps|
    ensures exists ns :: PooledBy(sps, i, AtLeastZero(k), decay, ns, h)
  {
    hide Nearing, Nearer;
    var all := ByDistance(sps, i);
    var n := AtLeastZero(k);
    FirstAreNearest(sps, i, all, n);
    var ns := if n < |all| then all[..n] else all;
    h := sps[i].hist;
    for t := 0 to |ns|
      invariant AllPoolable(sps, i, ns[..t]) && h == PooledOver(sps, i, decay, ns[..t])
    {
      assert ns[..t + 1][..t] == ns[..t];
      OnePoolable(sps, i, ns, t);
      h := Added(h, decay, sps[ns[t]].hist);
    }
    assert ns[..|ns|] == ns;
    assert PooledBy(sps, i, n, decay, ns, h);
  }

  lemma OnePoolable(sps: seq<Superpoint>, i: int, ns: seq<int>, t: nat)
    requires 0 <= i < |sps| && AllPoolable(sps, i, ns) && t < |ns|
    ensures Poolable(sps, i, ns[t]) && AllPoolable(sps, i, ns[..t + 1])
    ensures 0 <= ns[t] < |sps| && |sps[ns[t]].hist| == |sps[i].hist|
  {
  }

  /** Smooth every superpoint's histogram with those of its nearest neighbours, if asked to. */
  method PoolAllHists(sps: seq<Superpoint>, pp: PoolParams) returns (shists: seq<seq<real>>)
    ensures AllPooled(sps, pp, shists)
  {
    hide Nearest, PooledBy;
    shists := [];
    for i := 0 to |sps|
      invariant |shists| == i && forall j | 0 <= j < i :: PooledFor(sps, pp, j, shists[j])
    {
      var h := sps[i].hist;
      if pp.on && h != [] { h := PoolOne(sps, i, pp.k, pp.decay); }
      shists := shists + [h];
    }
  }

  // ---------- distance in coordinates ----------

  ghost predicate IsSquaredGap(a: P4, b: P4, d: real) {
    var (x, y, z) := (a.x - b.x, a.y - b.y, a.z - b.z); d == x * x + y * y + z * z
  }

  /** One superpoint is nearer than another exactly when its squared distance is less, or the same and it
      comes first. */
  lemma NearerIff(sps: seq<Superpoint>, i: int, a: int, b: int, da: real, db: real)
    requires 0 <= i < |sps| && 0 <= a < |sps| && 0 <= b < |sps|
    requires IsSquaredGap(sps[i].centroid, sps[a].centroid, da) && IsSquaredGap(sps[i].centroid, sps[b].centroid, db)
    ensures Nearer(sps, i, a, b) <==> da < db || (da == db && a < b)
  {
    GapIs(sps, i, a, da);
    GapIs(sps, i, b, db);
  }

  lemma GapIs(sps: seq<Superpoint>, i: int, j: int, d: real)
    requires 0 <= i < |sps| && 0 <= j < |sps|
    ensures IsSquaredGap(sps[i].centroid, sps[j].centroid, d) <==> d == Gap(sps, i, j)
  {
  }
}
