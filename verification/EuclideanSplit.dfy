/** Splitting a point list into the connected components of a nearness relation. */
module EuclideanSplit {
  import opened SetSum
  import opened UnionForest

  function Points(xs: seq<int>): set<int> { set x | x in xs }

  /** The entries that lie in s, in order. */
  function Keep(xs: seq<int>, s: set<int>): seq<int> {
    if xs == [] then []
    else Keep(xs[..|xs| - 1], s) + if xs[|xs| - 1] in s then [xs[|xs| - 1]] else []
  }

  // ---------- connectivity ----------

  /** A non-empty walk inside s whose steps are near. */
  ghost predicate Chain(near: (int, int) -> bool, s: set<int>, p: seq<int>) {
    && p != [] && (forall k | 0 <= k < |p| :: p[k] in s)
    && forall k | 0 <= k < |p| - 1 :: near(p[k], p[k + 1])
  }

  ghost predicate Connected(near: (int, int) -> bool, s: set<int>, g: int, h: int) {
    exists p :: Chain(near, s, p) && p[0] == g && p[|p| - 1] == h
  }

  /** Every point is near itself and nearness has no direction. */
  ghost predicate IsNearness(near: (int, int) -> bool) {
    (forall g :: near(g, g)) && forall g, h :: near(g, h) == near(h, g)
  }

  lemma NearConnected(near: (int, int) -> bool, s: set<int>, g: int, h: int)
    requires g in s && h in s && near(g, h)
    ensures Connected(near, s, g, h)
  {
    assert Chain(near, s, [g, h]);
  }

  lemma {:induction false} ChainBack(near: (int, int) -> bool, s: set<int>, p: seq<int>) returns (q: seq<int>)
    requires IsNearness(near) && Chain(near, s, p)
    ensures Chain(near, s, q) && q[0] == p[|p| - 1] && q[|q| - 1] == p[0]
    decreases |p|
  {
    if |p| == 1 { return p; }
    assert Chain(near, s, p[1..]);
    var q0 := ChainBack(near, s, p[1..]);
    q := q0 + [p[0]];
  }

  lemma ConnectedBack(near: (int, int) -> bool, s: set<int>, g: int, h: int)
    requires IsNearness(near) && Connected(near, s, g, h)
    ensures Connected(near, s, h, g)
  {
    var p :| Chain(near, s, p) && p[0] == g && p[|p| - 1] == h;
    var q := ChainBack(near, s, p);
  }

  lemma ConnectedOn(near: (int, int) -> bool, s: set<int>, g: int, h: int, e: int)
    requires Connected(near, s, g, h) && Connected(near, s, h, e)
    ensures Connected(near, s, g, e)
  {
    var p :| Chain(near, s, p) && p[0] == g && p[|p| - 1] == h;
    var q :| Chain(near, s, q) && q[0] == h && q[|q| - 1] == e;
    var r := p + q[1..];
    assert forall k | |p| <= k < |r| :: r[k] == q[k - |p| + 1];
    assert Chain(near, s, r);
  }

  // ---------- the components ----------

  /** The parts are non-empty and disjoint, list the entries they hold in input order, cover the input,
      and two entries share a part exactly when a chain of near entries joins them. */
  ghost predicate Components(near: (int, int) -> bool, idx: seq<int>, out: seq<seq<int>>) {
    && (forall k | 0 <= k < |out| :: out[k] != [] && out[k] == Keep(idx, Points(out[k])))
    && (forall g | g in idx :: exists k :: 0 <= k < |out| && g in out[k])
    && (forall j, k, g | 0 <= j < |out| && 0 <= k < |out| && g in out[j] && g in out[k] :: j == k)
    && forall k, g, h | 0 <= k < |out| && g in out[k] && h in idx ::
         h in out[k] <==> Connected(near, Points(idx), g, h)
  }

  lemma {:induction false} KeepMembers(xs: seq<int>, s: set<int>, g: int)
    ensures g in Keep(xs, s) <==> g in xs && g in s
    decreases |xs|
  {
    if xs != [] {
      KeepMembers(xs[..|xs| - 1], s, g);
      assert xs == xs[..|xs| - 1] + [xs[|xs| - 1]];
    }
  }

  lemma SamePart(near: (int, int) -> bool, idx: seq<int>, out: seq<seq<int>>, out': seq<seq<int>>, k: int, j: int, g: int)
    requires Components(near, idx, out) && Components(near, idx, out')
    requires 0 <= k < |out| && 0 <= j < |out'| && g in out[k] && g in out'[j]
    ensures out[k] == out'[j]
  {
    hide Connected;
    forall h ensures h in Points(out[k]) <==> h in Points(out'[j]) {
      KeepMembers(idx, Points(out[k]), h);
      KeepMembers(idx, Points(out'[j]), h);
    }
    assert Points(out[k]) == Points(out'[j]);
  }

  /** The parts do not depend on the order in which points, neighbours or components are met. */
  lemma ComponentsUnique(near: (int, int) -> bool, idx: seq<int>, out: seq<seq<int>>, out': seq<seq<int>>)
    requires Components(near, idx, out) && Components(near, idx, out')
    ensures forall part :: part in out ==> part in out'
  {
    hide Connected, Keep;
    forall k | 0 <= k < |out| ensures out[k] in out' {
      var g := out[k][0];
      KeepMembers(idx, Points(out[k]), g);
      assert g in out[k] && g in idx;
      var j :| 0 <= j < |out'| && g in out'[j];
      SamePart(near, idx, out, out', k, j, g);
    }
  }

  // ---------- the union-find over positions ----------

  /** Every position is joined to its root, and the listed positions to all their neighbours. */
  ghost predicate Joined(near: (int, int) -> bool, idx: seq<int>, root: seq<int>) {
    && |root| == |idx|
    && forall x | 0 <= x < |idx| :: 0 <= root[x] < |idx| && Connected(near, Points(idx), idx[x], idx[root[x]])
  }

  lemma JoinedMore(near: (int, int) -> bool, idx: seq<int>, root: seq<int>, root': seq<int>, i: int, nb: int)
    requires IsNearness(near) && Joined(near, idx, root) && 0 <= i < |idx| && 0 <= nb < |idx| && near(idx[i], idx[nb])
    requires |root'| == |root|
    requires forall x | 0 <= x < |root| :: root'[x] == if root[x] == root[i] then root[nb] else root[x]
    ensures Joined(near, idx, root')
  {
    var s := Points(idx);
    NearConnected(near, s, idx[i], idx[nb]);
    ConnectedOn(near, s, idx[i], idx[nb], idx[root[nb]]);
    ConnectedBack(near, s, idx[i], idx[root[i]]);
    ConnectedOn(near, s, idx[root[i]], idx[i], idx[root[nb]]);
    forall x | 0 <= x < |idx| ensures 0 <= root'[x] < |idx| && Connected(near, s, idx[x], idx[root'[x]]) {
      if root[x] == root[i] { ConnectedOn(near, s, idx[x], idx[root[i]], idx[root[nb]]); }
    }
  }

  ghost predicate AllNearJoined(near: (int, int) -> bool, idx: seq<int>, root: seq<int>) {
    |root| == |idx| && forall x, y | 0 <= x < |idx| && 0 <= y < |idx| && near(idx[x], idx[y]) :: root[x] == root[y]
  }

  lemma {:induction false} ChainSameRoot(near: (int, int) -> bool, idx: seq<int>, root: seq<int>, p: seq<int>, x: int, y: int)
    requires IsNearness(near) && AllNearJoined(near, idx, root) && Chain(near, Points(idx), p)
    requires 0 <= x < |idx| && 0 <= y < |idx| && idx[x] == p[0] && idx[y] == p[|p| - 1]
    ensures root[x] == root[y]
    decreases |p|
  {
    if |p| > 1 {
      assert p[1] in Points(idx);
      var z :| 0 <= z < |idx| && idx[z] == p[1];
      assert near(p[0], p[0 + 1]) && Chain(near, Points(idx), p[1..]);
      ChainSameRoot(near, idx, root, p[1..], z, y);
    }
  }

  lemma SameRootIffConnected(near: (int, int) -> bool, idx: seq<int>, root: seq<int>, x: int, y: int)
    requires IsNearness(near) && Joined(near, idx, root) && AllNearJoined(near, idx, root)
    requires 0 <= x < |idx| && 0 <= y < |idx|
    ensures root[x] == root[y] <==> Connected(near, Points(idx), idx[x], idx[y])
  {
    var s := Points(idx);
    if root[x] == root[y] {
      ConnectedBack(near, s, idx[y], idx[root[y]]);
      ConnectedOn(near, s, idx[x], idx[root[x]], idx[y]);
    }
    if Connected(near, s, idx[x], idx[y]) {
      var p :| Chain(near, s, p) && p[0] == idx[x] && p[|p| - 1] == idx[y];
      ChainSameRoot(near, idx, root, p, x, y);
    }
  }

  // ---------- collecting the parts ----------

  /** Entries at the positions whose root is r. */
  function OfRoot(idx: seq<int>, root: seq<int>, r: int): seq<int>
    requires |root| >= |idx|
  {
    if idx == [] then []
    else OfRoot(idx[..|idx| - 1], root, r) + if root[|idx| - 1] == r then [idx[|idx| - 1]] else []
  }

  lemma {:induction false} OfRootMembers(idx: seq<int>, root: seq<int>, r: int, g: int)
    requires |root| >= |idx|
    ensures g in OfRoot(idx, root, r) <==> exists x :: 0 <= x < |idx| && root[x] == r && idx[x] == g
    decreases |idx|
  {
    if idx != [] {
      var n := |idx| - 1;
      OfRootMembers(idx[..n], root, r, g);
      if g in OfRoot(idx[..n], root, r) {
        var x :| 0 <= x < n && root[x] == r && idx[..n][x] == g;
        assert idx[x] == g;
      }
      if x :| 0 <= x < |idx| && root[x] == r && idx[x] == g {
        if x < n { assert idx[..n][x] == g; }
      }
    }
  }

  lemma {:induction false} OfRootIsKeep(idx: seq<int>, root: seq<int>, r: int, s: set<int>)
    requires |root| >= |idx| && forall x | 0 <= x < |idx| :: root[x] == r <==> idx[x] in s
    ensures OfRoot(idx, root, r) == Keep(idx, s)
    decreases |idx|
  {
    if idx != [] { OfRootIsKeep(idx[..|idx| - 1], root, r, s); }
  }

  lemma PartIsKeep(near: (int, int) -> bool, idx: seq<int>, root: seq<int>, r: int)
    requires IsNearness(near) && AllNearJoined(near, idx, root)
    ensures OfRoot(idx, root, r) == Keep(idx, Points(OfRoot(idx, root, r)))
  {
    var part := OfRoot(idx, root, r);
    forall x | 0 <= x < |idx| ensures root[x] == r <==> idx[x] in Points(part) {
      OfRootMembers(idx, root, r, idx[x]);
      if idx[x] in part {
        var y :| 0 <= y < |idx| && root[y] == r && idx[y] == idx[x];
        assert near(idx[x], idx[y]);
      }
    }
    OfRootIsKeep(idx, root, r, Points(part));
  }

  ghost predicate CollectedOk(idx: seq<int>, root: seq<int>, comps: map<int, seq<int>>)
    requires |root| >= |idx|
  {
    && (forall r | r in comps :: comps[r] == OfRoot(idx, root, r) && comps[r] != [])
    && forall x | 0 <= x < |idx| :: root[x] in comps
  }

  lemma CollectedMore(idx: seq<int>, root: seq<int>, comps: map<int, seq<int>>, comps': map<int, seq<int>>, g: int)
    requires |root| >= |idx| + 1 && CollectedOk(idx, root, comps)
    requires var r := root[|idx|]; comps' == comps[r := (if r in comps then comps[r] else []) + [g]]
    ensures CollectedOk(idx + [g], root, comps')
  {
    var r0 := root[|idx|];
    assert (idx + [g])[..|idx|] == idx;
    forall r | r in comps' ensures comps'[r] == OfRoot(idx + [g], root, r) && comps'[r] != [] {
      if r == r0 && r !in comps { EmptyRoot(idx, root, r); }
    }
  }

  lemma {:induction false} EmptyRoot(idx: seq<int>, root: seq<int>, r: int)
    requires |root| >= |idx| && forall x | 0 <= x < |idx| :: root[x] != r
    ensures OfRoot(idx, root, r) == []
    decreases |idx|
  {
    if idx != [] { EmptyRoot(idx[..|idx| - 1], root, r); }
  }

  lemma PartsAreComponents(near: (int, int) -> bool, idx: seq<int>, root: seq<int>, comps: map<int, seq<int>>, keys: seq<int>,
                           out: seq<seq<int>>)
    requires IsNearness(near) && Joined(near, idx, root) && AllNearJoined(near, idx, root) && CollectedOk(idx, root, comps)
    requires |keys| == |out| && (forall k | 0 <= k < |keys| :: keys[k] in comps && out[k] == comps[keys[k]])
    requires (forall j, k | 0 <= j < k < |keys| :: keys[j] != keys[k]) && forall r | r in comps :: r in keys
    ensures Components(near, idx, out)
  {
    forall k | 0 <= k < |out| ensures out[k] != [] && out[k] == Keep(idx, Points(out[k])) {
      PartIsKeep(near, idx, root, keys[k]);
    }
    forall k, x | 0 <= k < |out| && 0 <= x < |idx| ensures idx[x] in out[k] <==> root[x] == keys[k] {
      OfRootMembers(idx, root, keys[k], idx[x]);
      if idx[x] in out[k] {
        var y :| 0 <= y < |idx| && root[y] == keys[k] && idx[y] == idx[x];
        assert near(idx[x], idx[y]);
      }
    }
    forall g | g in idx ensures exists k :: 0 <= k < |out| && g in out[k] {
      var x :| 0 <= x < |idx| && idx[x] == g;
      var k :| 0 <= k < |keys| && keys[k] == root[x];
      assert idx[x] in out[k];
    }
    forall k, g | 0 <= k < |out| && g in out[k] ensures exists x :: 0 <= x < |idx| && idx[x] == g && root[x] == keys[k] {
      OfRootMembers(idx, root, keys[k], g);
    }
    forall k, g, h | 0 <= k < |out| && g in out[k] && h in idx
      ensures h in out[k] <==> Connected(near, Points(idx), g, h)
    {
      var x :| 0 <= x < |idx| && idx[x] == g && root[x] == keys[k];
      var y :| 0 <= y < |idx| && idx[y] == h;
      SameRootIffConnected(near, idx, root, x, y);
      assert idx[y] in out[k] <==> root[y] == keys[k];
    }
    forall j, k, g | 0 <= j < |out| && 0 <= k < |out| && g in out[j] && g in out[k] ensures j == k {
      var x :| 0 <= x < |idx| && idx[x] == g && root[x] == keys[j];
      assert idx[x] in out[k] <==> root[x] == keys[k];
    }
  }

  // ---------- the algorithm ----------

  method Find(parent: array<int>, ghost root: seq<int>, ghost depth: seq<nat>, a0: int) returns (a: int)
    requires Forest(parent[..], root, depth) && 0 <= a0 < parent.Length
    modifies parent
    ensures Forest(parent[..], root, depth) && a == root[a0]
  {
    a := a0;
    while parent[a] != a
      invariant 0 <= a < parent.Length && Forest(parent[..], root, depth) && root[a] == root[a0]
      decreases depth[a]
    {
      Halved(parent[..], root, depth, a);
      assert NodeOk(parent[..], root, depth, a);
      assert NodeOk(parent[..], root, depth, parent[a]);
      ghost var halved := parent[..][a := parent[parent[a]]];
      parent[a] := parent[parent[a]];
      assert parent[..] == halved;
      a := parent[a];
    }
    assert NodeOk(parent[..], root, depth, a);
  }

  /** Join the sets of positions i and nb. */
  method Join(parent: array<int>, ghost root: seq<int>, ghost depth: seq<nat>, i: int, nb: int)
    returns (ghost root': seq<int>, ghost depth': seq<nat>)
    requires Forest(parent[..], root, depth) && 0 <= i < parent.Length && 0 <= nb < parent.Length
    modifies parent
    ensures Forest(parent[..], root', depth')
    ensures forall x | 0 <= x < parent.Length :: root'[x] == if root[x] == root[i] then root[nb] else root[x]
  {
    var ra := Find(parent, root, depth, i);
    var rb := Find(parent, root, depth, nb);
    assert NodeOk(parent[..], root, depth, i) && NodeOk(parent[..], root, depth, nb);
    if ra != rb {
      root' := seq(|root|, x requires 0 <= x < |root| => if root[x] == ra then rb else root[x]);
      depth' := seq(|root|, x requires 0 <= x < |root| && |depth| == |root| =>
        if root[x] == ra then depth[x] + depth[if 0 <= rb < |depth| then rb else 0] + 1 else depth[x]);
      Linked(parent[..], root, depth, root', depth', rb, ra);
      ghost var linked := parent[..][ra := rb];
      parent[ra] := rb;
      assert parent[..] == linked;
    } else {
      root', depth' := root, depth;
    }
  }

  /** Join every position with all its neighbours, met in any order. */
  method JoinNear(near: (int, int) -> bool, idx: seq<int>, parent: array<int>)
    returns (ghost root: seq<int>, ghost depth: seq<nat>)
    requires IsNearness(near) && parent.Length == |idx| && forall x | 0 <= x < |idx| :: parent[x] == x
    modifies parent
    ensures Forest(parent[..], root, depth) && Joined(near, idx, root) && AllNearJoined(near, idx, root)
  {
    hide Forest, Joined, IsNearness;
    var m := |idx|;
    root, depth := seq(m, i => i), seq(m, i => 0);
    StartForest(parent[..], root, depth);
    StartJoined(near, idx, root);
    ForestSizes(parent[..], root, depth);
    for i := 0 to m
      invariant Forest(parent[..], root, depth) && Joined(near, idx, root) && |root| == m
      invariant forall x, y | 0 <= x < i && 0 <= y < m && near(idx[x], idx[y]) :: root[x] == root[y]
    {
      var nbr := set nb | 0 <= nb < m && near(idx[i], idx[nb]);
      ghost var all := nbr;
      while nbr != {}
        invariant Forest(parent[..], root, depth) && Joined(near, idx, root) && |root| == m && nbr <= all
        invariant forall x, y | 0 <= x < i && 0 <= y < m && near(idx[x], idx[y]) :: root[x] == root[y]
        invariant forall y | y in all - nbr :: root[i] == root[y]
        decreases |nbr|
      {
        var nb :| nb in nbr;
        ghost var root0 := root;
        root, depth := Join(parent, root, depth, i, nb);
        ForestSizes(parent[..], root, depth);
        JoinedMore(near, idx, root0, root, i, nb);
        nbr := nbr - {nb};
      }
      forall y | 0 <= y < m && near(idx[i], idx[y]) ensures root[i] == root[y] { assert y in all - nbr; }
    }
  }

  /** Bucket the entries by root. */
  method Collect(idx: seq<int>, parent: array<int>, ghost root: seq<int>, ghost depth: seq<nat>)
    returns (comps: map<int, seq<int>>)
    requires Forest(parent[..], root, depth) && parent.Length == |idx| == |root|
    modifies parent
    ensures CollectedOk(idx, root, comps)
  {
    hide Forest, CollectedOk;
    comps := map[];
    NoneCollected(root);
    for i := 0 to |idx|
      invariant Forest(parent[..], root, depth) && CollectedOk(idx[..i], root, comps)
    {
      var r := Find(parent, root, depth, i);
      ghost var before := comps;
      comps := comps[r := (if r in comps then comps[r] else []) + [idx[i]]];
      CollectedMore(idx[..i], root, before, comps, idx[i]);
      assert idx[..i] + [idx[i]] == idx[..i + 1];
    }
    assert idx[..|idx|] == idx;
  }

  /** Split idx into the components of nearness; the input unchanged when switched off or trivial. */
  method Split(near: (int, int) -> bool, idx: seq<int>, on: bool) returns (out: seq<seq<int>>)
    requires IsNearness(near)
    ensures !on || |idx| <= 1 ==> out == [idx]
    ensures on && |idx| > 1 ==> Components(near, idx, out)
  {
    hide Forest, Joined, AllNearJoined, CollectedOk, Components, IsNearness;
    var m := |idx|;
    if !on || m <= 1 { return [idx]; }
    var parent := new int[m](i => i);
    ghost var root, depth := JoinNear(near, idx, parent);
    ForestSizes(parent[..], root, depth);
    var comps := Collect(idx, parent, root, depth);
    out := [];
    var left := comps.Keys;
    ghost var keys: seq<int> := [];
    while left != {}
      invariant left <= comps.Keys && |keys| == |out|
      invariant forall k | 0 <= k < |keys| :: keys[k] in comps && keys[k] !in left && out[k] == comps[keys[k]]
      invariant (forall j, k | 0 <= j < k < |keys| :: keys[j] != keys[k]) && forall r | r in comps :: r in left || r in keys
      decreases |left|
    {
      SomeInt(left);
      var r :| r in left;
      out, keys, left := out + [comps[r]], keys + [r], left - {r};
    }
    PartsAreComponents(near, idx, root, comps, keys, out);
  }

  lemma NoneCollected(root: seq<int>)
    ensures CollectedOk([], root, map[])
  {
  }

  lemma StartForest(parent: seq<int>, root: seq<int>, depth: seq<nat>)
    requires |parent| == |root| == |depth| && forall x | 0 <= x < |parent| :: parent[x] == x && root[x] == x
    ensures Forest(parent, root, depth)
  {
  }

  lemma ForestSizes(parent: seq<int>, root: seq<int>, depth: seq<nat>)
    requires Forest(parent, root, depth)
    ensures |parent| == |root| == |depth|
  {
  }

  lemma StartJoined(near: (int, int) -> bool, idx: seq<int>, root: seq<int>)
    requires IsNearness(near) && |root| == |idx| && forall x | 0 <= x < |idx| :: root[x] == x
    ensures Joined(near, idx, root)
  {
    forall x | 0 <= x < |idx| ensures Connected(near, Points(idx), idx[x], idx[root[x]]) {
      NearConnected(near, Points(idx), idx[x], idx[x]);
    }
  }
}
