/** The persistent world: one point per voxel, fused in place, never moved or erased. */
module WorldMap {
  import opened Basics
  import opened Voxels

  datatype Coord = X | Y | Z | Intensity

  datatype P4 = P4(x: real, y: real, z: real, i: real)

  function Get(p: P4, c: Coord): real {
    match c case X => p.x case Y => p.y case Z => p.z case Intensity => p.i
  }

  /** A voxel edge length. */
  type Edge = x: real | x > 0.0 witness 1.0

  function Slot(x: real, v: Edge): int { (x / v).Floor }

  function VoxelOf(p: P4, v: Edge): VKey { VKey(Slot(p.x, v), Slot(p.y, v), Slot(p.z, v)) }

  /** The same key from the reciprocal edge, as the object stages compute it. */
  function VoxelAt(p: P4, inv: real): VKey { VKey((p.x * inv).Floor, (p.y * inv).Floor, (p.z * inv).Floor) }

  lemma SameKey(p: P4, v: Edge)
    ensures VoxelAt(p, 1.0 / v) == VoxelOf(p, v)
  {
    Reciprocal(p.x, v);
    Reciprocal(p.y, v);
    Reciprocal(p.z, v);
  }

  lemma Reciprocal(x: real, v: Edge)
    ensures x * (1.0 / v) == x / v
  {
  }

  /** Slot k is the half-open interval [k*v, (k+1)*v). */
  lemma SlotIs(x: real, v: Edge, k: int)
    ensures Slot(x, v) == k <==> k as real * v <= x < (k + 1) as real * v
  {
    var q := x / v;
    Ratio(x, v);
    Bounds(k as real, (k + 1) as real, q, v, x);
    assert k as real <= q < (k + 1) as real <==> q.Floor == k;
  }

  lemma Bounds(lo: real, hi: real, q: real, v: real, x: real)
    requires v > 0.0 && q * v == x
    ensures lo <= q < hi <==> lo * v <= x < hi * v
  {
    Scale(lo, q, v);
    Scale(q, hi, v);
    Scale(hi, q, v);
    Scale(q, lo, v);
  }

  lemma Ratio(x: real, v: real)
    requires v > 0.0
    ensures x / v * v == x
  {
  }

  lemma Scale(a: real, b: real, v: real)
    requires v > 0.0
    ensures (a <= b ==> a * v <= b * v) && (a < b ==> a * v < b * v)
  {
    if a < b { Positive(b - a, v); assert (b - a) * v == b * v - a * v; }
  }

  function Dist2(a: P4, b: P4): real {
    (a.x - b.x) * (a.x - b.x) + (a.y - b.y) * (a.y - b.y) + (a.z - b.z) * (a.z - b.z)
  }

  // ---------- running means ----------

  function SumOf(s: seq<P4>, c: Coord): real { if s == [] then 0.0 else SumOf(s[..|s| - 1], c) + Get(s[|s| - 1], c) }

  /** m is the mean of s, coordinate by coordinate. */
  ghost predicate IsMean(s: seq<P4>, m: P4) { forall c: Coord :: |s| as real * Get(m, c) == SumOf(s, c) }

  function Blend(m: real, n: nat, p: real): real { (m * n as real + p) / (n + 1) as real }

  /** Fold p into the mean of n points. */
  function Fused(m: P4, n: nat, p: P4): P4 {
    P4(Blend(m.x, n, p.x), Blend(m.y, n, p.y), Blend(m.z, n, p.z), Blend(m.i, n, p.i))
  }

  lemma BlendTimes(m: real, n: nat, p: real)
    ensures (n + 1) as real * Blend(m, n, p) == n as real * m + p
  {
  }

  lemma MeanMore(s: seq<P4>, m: P4, p: P4)
    requires IsMean(s, m)
    ensures IsMean(s + [p], Fused(m, |s|, p))
  {
    hide Blend;
    var m' := Fused(m, |s|, p);
    assert (s + [p])[..|s|] == s;
    forall c: Coord ensures (|s| + 1) as real * Get(m', c) == SumOf(s + [p], c) {
      assert |s| as real * Get(m, c) == SumOf(s, c);
      BlendTimes(Get(m, c), |s|, Get(p, c));
      assert Get(m', c) == Blend(Get(m, c), |s|, Get(p, c));
    }
  }

  lemma MeanOfOne(p: P4)
    ensures IsMean([p], p)
  {
    assert [p][..0] == [];
  }

  lemma BlendBetween(m: real, n: nat, p: real, lo: real, hi: real)
    requires lo <= m < hi && lo <= p < hi
    ensures lo <= Blend(m, n, p) < hi
  {
    var b, k := Blend(m, n, p), (n + 1) as real;
    BlendTimes(m, n, p);
    Grow(n as real, m - lo);
    Grow(n as real, hi - m);
    assert k * (b - lo) == n as real * (m - lo) + (p - lo);
    assert k * (hi - b) == n as real * (hi - m) + (hi - p);
    Shrink(k, b - lo);
    Shrink(k, hi - b);
  }

  lemma Grow(n: real, x: real)
    requires n >= 0.0 && x >= 0.0
    ensures n * x >= 0.0
  {
  }

  /** The mean of points of one voxel lies in that voxel. */
  lemma FusedStays(m: P4, n: nat, p: P4, v: Edge)
    requires VoxelOf(m, v) == VoxelOf(p, v)
    ensures VoxelOf(Fused(m, n, p), v) == VoxelOf(p, v)
  {
    hide Slot, Blend;
    StaysInSlot(m.x, n, p.x, v);
    StaysInSlot(m.y, n, p.y, v);
    StaysInSlot(m.z, n, p.z, v);
  }

  lemma StaysInSlot(m: real, n: nat, p: real, v: Edge)
    requires Slot(m, v) == Slot(p, v)
    ensures Slot(Blend(m, n, p), v) == Slot(p, v)
  {
    hide Slot, Blend;
    var k := Slot(p, v);
    SlotIs(m, v, k);
    SlotIs(p, v, k);
    BlendBetween(m, n, p, k as real * v, (k + 1) as real * v);
    SlotIs(Blend(m, n, p), v, k);
  }

  // ---------- votes ----------

  const SATURATED: int := 0xffff

  datatype Bin = Bin(id: nat, count: nat)

  /** A histogram lists each class once, with a positive 16-bit count. */
  ghost predicate HistOk(h: seq<Bin>) {
    && (forall i, j | 0 <= i < j < |h| :: h[i].id != h[j].id)
    && forall i | 0 <= i < |h| :: 0 < h[i].count <= SATURATED && h[i].id <= SATURATED
  }

  function VotesFor(h: seq<Bin>, id: nat): nat {
    if h == [] then 0 else if h[|h| - 1].id == id then h[|h| - 1].count else VotesFor(h[..|h| - 1], id)
  }

  lemma {:induction false} VotesAt(h: seq<Bin>, id: nat)
    requires HistOk(h)
    ensures forall i | 0 <= i < |h| && h[i].id == id :: VotesFor(h, id) == h[i].count
    ensures (forall i | 0 <= i < |h| :: h[i].id != id) ==> VotesFor(h, id) == 0
    decreases |h|
  {
    if h != [] {
      VotesAt(h[..|h| - 1], id);
      assert forall i | 0 <= i < |h| - 1 :: h[..|h| - 1][i] == h[i];
    }
  }

  /** One vote for the class, saturating; the class id is cut to 16 bits. */
  method CastVote(h: seq<Bin>, cid: nat) returns (r: seq<Bin>)
    requires HistOk(h)
    ensures HistOk(r)
    ensures forall id: nat :: VotesFor(r, id) ==
              if id == cid % 0x10000 && VotesFor(h, id) < 0xffff then VotesFor(h, id) + 1 else VotesFor(h, id)
  {
    hide VotesFor;
    var id := cid % 0x10000;
    var i := 0;
    while i < |h|
      invariant 0 <= i <= |h| && forall j | 0 <= j < i :: h[j].id != id
    {
      if h[i].id == id {
        r := if h[i].count < SATURATED then h[i := Bin(id, h[i].count + 1)] else h;
        forall x: nat ensures VotesFor(r, x) ==
                              if x == id && VotesFor(h, x) < SATURATED then VotesFor(h, x) + 1 else VotesFor(h, x)
        {
          SameElsewhere(h, r, i, x);
        }
        return;
      }
      i := i + 1;
    }
    r := h + [Bin(id, 1)];
    forall x: nat ensures VotesFor(r, x) == if x == id && VotesFor(h, x) < SATURATED then VotesFor(h, x) + 1 else VotesFor(h, x) {
      Appended(h, Bin(id, 1), x);
      VotesAt(h, x);
    }
  }

  lemma Appended(h: seq<Bin>, b: Bin, x: nat)
    ensures VotesFor(h + [b], x) == if x == b.id then b.count else VotesFor(h, x)
  {
    assert (h + [b])[..|h|] == h;
  }

  lemma SameElsewhere(h: seq<Bin>, r: seq<Bin>, i: int, x: nat)
    requires HistOk(h) && HistOk(r) && 0 <= i < |h| && |r| == |h| && r[i].id == h[i].id
    requires forall j | 0 <= j < |h| && j != i :: r[j] == h[j]
    ensures VotesFor(h, h[i].id) == h[i].count && VotesFor(r, r[i].id) == r[i].count
    ensures x != h[i].id ==> VotesFor(r, x) == VotesFor(h, x)
  {
    hide VotesFor;
    VotesAt(h, h[i].id);
    VotesAt(r, r[i].id);
    if x != h[i].id {
      VotesAt(h, x);
      VotesAt(r, x);
      if exists j :: 0 <= j < |h| && h[j].id == x {
        var j :| 0 <= j < |h| && h[j].id == x;
        assert r[j] == h[j];
      } else {
        forall j | 0 <= j < |r| ensures r[j].id != x { if j != i { assert r[j] == h[j]; } }
      }
    }
  }

  /** Votes weighted by the class kind. */
  function Weight(stuff: nat -> bool, bias: real, b: Bin): real { if stuff(b.id) then b.count as real * bias else b.count as real }

  function TotalVotes(h: seq<Bin>): nat { if h == [] then 0 else TotalVotes(h[..|h| - 1]) + h[|h| - 1].count }

  /** a is at least as heavy as b, and has the lower id when equally heavy. */
  ghost predicate Beats(stuff: nat -> bool, bias: real, a: Bin, b: Bin) {
    Weight(stuff, bias, b) < Weight(stuff, bias, a) || (Weight(stuff, bias, b) == Weight(stuff, bias, a) && a.id <= b.id)
  }

  lemma BeatsOrder(stuff: nat -> bool, bias: real, a: Bin, b: Bin, c: Bin)
    ensures Beats(stuff, bias, a, b) && Beats(stuff, bias, b, c) ==> Beats(stuff, bias, a, c)
    ensures Beats(stuff, bias, a, b) && Beats(stuff, bias, b, a) ==> a.id == b.id
  {
  }

  /** The heaviest class, the lowest id among equals. */
  ghost predicate Winner(h: seq<Bin>, stuff: nat -> bool, bias: real, w: int) {
    0 <= w < |h| && forall j | 0 <= j < |h| :: Beats(stuff, bias, h[w], h[j])
  }

  lemma WinnerMore(h: seq<Bin>, stuff: nat -> bool, bias: real, i: nat, best: int)
    requires i < |h| && (i > 0 ==> best < i && Winner(h[..i], stuff, bias, best)) && (i == 0 ==> best == -1)
    ensures var w, x := Weight(stuff, bias, h[i]), if i > 0 then Weight(stuff, bias, h[best]) else 0.0;
            w > 0.0 ==>
              Winner(h[..i + 1], stuff, bias, if w > x || (w == x && (best < 0 || h[i].id < h[best].id)) then i else best)
  {
    hide Weight;
    var top := if i == 0 || !Beats(stuff, bias, h[best], h[i]) then i else best;
    if i > 0 {
      forall j | 0 <= j < i ensures Beats(stuff, bias, h[top], h[j]) {
        assert h[..i][j] == h[j];
        assert Beats(stuff, bias, h[..i][best], h[..i][j]);
        BeatsOrder(stuff, bias, h[i], h[best], h[j]);
      }
    }
  }

  /** The class a histogram resolves to: the winner, gated by total votes and its share. */
  ghost predicate Resolves(h: seq<Bin>, stuff: nat -> bool, bias: real, minVotes: nat, minConf: real, id: int) {
    if h == [] || TotalVotes(h) < minVotes then id == -1
    else exists w :: 0 <= w < |h| && Winner(h, stuff, bias, w) && id == Gated(h[w], TotalVotes(h), minConf)
  }

  /** The class unless its share of the votes is below minConf. */
  function Gated(b: Bin, total: nat, minConf: real): int {
    if minConf > 0.0 && b.count as real < minConf * total as real then -1 else b.id
  }

  method ResolveClass(h: seq<Bin>, stuff: nat -> bool, bias: real, minVotes: nat, minConf: real) returns (id: int)
    requires HistOk(h) && bias >= 1.0 && minVotes >= 1
    ensures Resolves(h, stuff, bias, minVotes, minConf, id)
  {
    hide Weight, Winner, Gated, TotalVotes;
    TotalNone(h[..0]);
    var best, bestW, total := -1, 0.0, 0;
    for i := 0 to |h|
      invariant total == TotalVotes(h[..i])
      invariant if i == 0 then best == -1 && bestW == 0.0
                else 0 <= best < i && bestW == Weight(stuff, bias, h[best]) && Winner(h[..i], stuff, bias, best)
    {
      TotalSnoc(h, i);
      WeightPositive(stuff, bias, h[i]);
      WinnerMore(h, stuff, bias, i, best);
      total := total + h[i].count;
      var w := Weight(stuff, bias, h[i]);
      if w > bestW || (w == bestW && (best < 0 || h[i].id < h[best].id)) { best, bestW := i, w; }
    }
    assert h[..|h|] == h;
    if best < 0 || total < minVotes { return -1; }
    id := Gated(h[best], total, minConf);
  }

  lemma TotalNone(h: seq<Bin>)
    requires h == []
    ensures TotalVotes(h) == 0
  {
  }

  lemma TotalSnoc(h: seq<Bin>, i: nat)
    requires i < |h|
    ensures TotalVotes(h[..i + 1]) == TotalVotes(h[..i]) + h[i].count
  {
    assert h[..i + 1][..i] == h[..i];
  }

  lemma WeightPositive(stuff: nat -> bool, bias: real, b: Bin)
    requires b.count > 0 && bias >= 1.0
    ensures Weight(stuff, bias, b) > 0.0
  {
    Positive(b.count as real, bias);
  }

  lemma WinnerUnique(h: seq<Bin>, stuff: nat -> bool, bias: real, v: int, w: int)
    requires HistOk(h) && Winner(h, stuff, bias, v) && Winner(h, stuff, bias, w)
    ensures v == w
  {
    hide Beats;
    assert Beats(stuff, bias, h[v], h[w]) && Beats(stuff, bias, h[w], h[v]);
    BeatsOrder(stuff, bias, h[v], h[w], h[v]);
  }

  lemma TotalOfReordered(h: seq<Bin>, g: seq<Bin>)
    requires multiset(h) == multiset(g)
    ensures TotalVotes(h) == TotalVotes(g)
    decreases |h|
  {
    if h == [] {
      assert |multiset(g)| == 0;
    } else {
      var n, b := |h| - 1, h[|h| - 1];
      assert b in multiset(g);
      var k :| 0 <= k < |g| && g[k] == b;
      var rest := g[..k] + g[k + 1..];
      assert g == g[..k] + [b] + g[k + 1..];
      assert h == h[..n] + [b];
      assert multiset(rest) == multiset(g) - multiset{b};
      assert multiset(h[..n]) == multiset(h) - multiset{b};
      TotalOfReordered(h[..n], rest);
      TotalWithout(g, k);
    }
  }

  lemma {:induction false} TotalWithout(g: seq<Bin>, k: nat)
    requires k < |g|
    ensures TotalVotes(g) == TotalVotes(g[..k] + g[k + 1..]) + g[k].count
    decreases |g|
  {
    var n := |g| - 1;
    if k == n {
      assert g[..k] + g[k + 1..] == g[..n];
    } else {
      var rest := g[..k] + g[k + 1..];
      assert g[..n][..k] + g[..n][k + 1..] == rest[..|rest| - 1];
      TotalWithout(g[..n], k);
    }
  }

  /** The resolved class does not depend on the order in which classes were first seen. */
  lemma ResolveOrderFree(h: seq<Bin>, g: seq<Bin>, stuff: nat -> bool, bias: real, minVotes: nat, minConf: real, a: int, b: int)
    requires HistOk(h) && HistOk(g) && multiset(h) == multiset(g)
    requires Resolves(h, stuff, bias, minVotes, minConf, a) && Resolves(g, stuff, bias, minVotes, minConf, b)
    ensures a == b
  {
    hide Beats, TotalVotes, Winner, Gated;
    assert |multiset(h)| == |multiset(g)|;
    TotalOfReordered(h, g);
    if h != [] && TotalVotes(h) >= minVotes {
      var v :| 0 <= v < |h| && Winner(h, stuff, bias, v) && a == Gated(h[v], TotalVotes(h), minConf);
      var w :| 0 <= w < |g| && Winner(g, stuff, bias, w) && b == Gated(g[w], TotalVotes(g), minConf);
      SameWinner(h, g, stuff, bias, v, w);
    }
  }

  lemma SameWinner(h: seq<Bin>, g: seq<Bin>, stuff: nat -> bool, bias: real, v: int, w: int)
    requires HistOk(g) && multiset(h) == multiset(g) && Winner(h, stuff, bias, v) && Winner(g, stuff, bias, w)
    ensures 0 <= v < |h| && 0 <= w < |g| && h[v] == g[w]
  {
    hide Beats;
    assert h[v] in multiset(h);
    assert h[v] in multiset(g);
    var x :| 0 <= x < |g| && g[x] == h[v];
    forall j | 0 <= j < |g| ensures Beats(stuff, bias, g[x], g[j]) {
      assert g[j] in multiset(g);
      assert g[j] in multiset(h);
    }
    WinnerUnique(g, stuff, bias, x, w);
  }
}
