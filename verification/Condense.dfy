/** Phase one of flat extraction: condensing the dendrogram into rows, in the order of a
    breadth-first walk. */
module Condense {
  import opened Basics
  import opened Dendrogram

  /** Cluster `parent` loses `child`, a point or a child cluster, at density `level`.
      Cluster ids start at n. */
  datatype CRow = CRow(parent: int, child: int, level: real, size: nat)

  ghost function SeqSum(q: seq<int>, w: int -> nat): nat {
    if q == [] then 0 else w(q[0]) + SeqSum(q[1..], w)
  }

  lemma {:induction false} SeqSumAppend(q: seq<int>, r: seq<int>, w: int -> nat)
    ensures SeqSum(q + r, w) == SeqSum(q, w) + SeqSum(r, w)
  {
    if q == [] {
      assert q + r == r;
    } else {
      assert (q + r)[1..] == q[1..] + r;
      SeqSumAppend(q[1..], r, w);
    }
  }

  lemma {:induction false} DistinctCount(s: seq<int>, elems: set<int>)
    requires Distinct(s) && forall x :: x in s <==> x in elems
    ensures |s| == |elems|
  {
    if s == [] {
      assert forall x :: x in elems <==> x in {};
    } else {
      var last := s[|s| - 1];
      var rest := s[..|s| - 1];
      forall x ensures x in rest <==> x in elems - {last} {
        assert x in s <==> x in rest || x == last;
      }
      DistinctCount(rest, elems - {last});
    }
  }

  // ---------- breadth-first walk ----------

  /** Every node below `start` exactly once, each after its parent. */
  ghost predicate IsWalk(t: Linkage, start: int, order: seq<int>)
    requires t.WellFormed() && 0 <= start < t.Total()
  {
    && order != [] && order[0] == start && Distinct(order)
    && (forall x :: x in order <==> x in t.Under(start))
    && (forall j | 0 < j < |order| :: ParentIn(t, order[j], order[..j]))
  }

  ghost predicate ParentIn(t: Linkage, x: int, s: seq<int>)
    requires t.WellFormed()
  {
    0 <= x < t.Root() && t.Parent(x) in s
  }

  ghost predicate ChildrenIn(t: Linkage, x: int, s: seq<int>) {
    t.Inner(x) ==> t.Left(x) in s && t.Right(x) in s
  }

  lemma {:induction false} ClosedCovers(t: Linkage, start: int, s: seq<int>, v: int)
    requires t.WellFormed() && 0 <= v < t.Total() && v in s
    requires forall x | x in s :: ChildrenIn(t, x, s)
    ensures forall x | x in t.Under(v) :: x in s
    decreases v
  {
    assert ChildrenIn(t, v, s);
    if t.Inner(v) {
      ClosedCovers(t, start, s, t.Left(v));
      ClosedCovers(t, start, s, t.Right(v));
    }
  }

  ghost function NodeWeight(t: Linkage): int -> nat {
    v => if 0 <= v < t.Total() && t.Size(v) >= 1 then 2 * t.Size(v) - 1 else 0
  }

  /** The walk so far, `order`, and the nodes waiting in the queue. */
  ghost predicate BfsInv(t: Linkage, start: int, order: seq<int>, q: seq<int>)
    requires t.WellFormed() && 0 <= start < t.Total()
  {
    && order + q != [] && (order + q)[0] == start && Distinct(order + q)
    && (forall x | x in order + q :: x in t.Under(start))
    && (forall x | x in order :: ChildrenIn(t, x, order + q))
    && (forall j | 0 < j < |order| :: ParentIn(t, order[j], order[..j]))
    && (forall x | x in q && x != start :: ParentIn(t, x, order))
  }

  function NextNodes(t: Linkage, v: int): seq<int> {
    if t.Inner(v) then [t.Left(v), t.Right(v)] else []
  }

  lemma ChildrenAreNew(t: Linkage, start: int, order: seq<int>, q: seq<int>)
    requires t.WellFormed() && 0 <= start < t.Total()
    requires q != [] && BfsInv(t, start, order, q) && t.Inner(q[0])
    ensures t.Left(q[0]) !in order + q && t.Right(q[0]) !in order + q
  {
    var node, all := q[0], order + q;
    assert all[|order|] == node && node in t.Under(start);
    forall i | 0 <= i < |order| ensures order[i] != node { assert all[i] != all[|order|]; }
    forall x | x in all && x != start ensures ParentIn(t, x, order) {
      if x !in q {
        var j :| 0 <= j < |order| && order[j] == x;
        assert all[j] == x;
        assert ParentIn(t, order[j], order[..j]);
      }
    }
    assert t.HasChild(node, t.Left(node)) && t.HasChild(node, t.Right(node));
    assert t.Parent(t.Left(node)) == node && t.Parent(t.Right(node)) == node;
  }

  ghost predicate InTree(t: Linkage, q: seq<int>) { forall x | x in q :: 0 <= x < t.Total() }

  lemma StepWeight(t: Linkage, q: seq<int>)
    requires t.WellFormed() && q != [] && InTree(t, q)
    ensures 0 <= q[0] < t.Total() && InTree(t, q[1..] + NextNodes(t, q[0]))
    ensures SeqSum(q[1..] + NextNodes(t, q[0]), NodeWeight(t)) < SeqSum(q, NodeWeight(t))
  {
    var node, kids := q[0], NextNodes(t, q[0]);
    assert node in q;
    forall x | x in q[1..] + kids ensures 0 <= x < t.Total() {
      if x !in kids { assert x in q; }
    }
    LeafCount(t, node);
    SeqSumAppend(q[1..], kids, NodeWeight(t));
    if t.Inner(node) {
      var l, r := t.Left(node), t.Right(node);
      LeafCount(t, l);
      LeafCount(t, r);
      assert kids[1..] == [r];
      assert SeqSum([r], NodeWeight(t)) == NodeWeight(t)(r);
    }
  }

  lemma BfsStep(t: Linkage, start: int, order: seq<int>, q: seq<int>)
    requires t.WellFormed() && 0 <= start < t.Total() && q != [] && BfsInv(t, start, order, q)
    ensures BfsInv(t, start, order + [q[0]], q[1..] + NextNodes(t, q[0]))
  {
    var node, kids, all := q[0], NextNodes(t, q[0]), order + q;
    var order', q' := order + [node], q[1..] + kids;
    var all' := order' + q';
    assert all' == all + kids;
    assert all[|order|] == node && node in t.Under(start);
    if t.Inner(node) {
      var l, r := t.Left(node), t.Right(node);
      assert t.HasChild(node, l) && t.HasChild(node, r);
      ChildrenAreNew(t, start, order, q);
      UnderTransitive(t, node, start);
      assert kids == [l, r];
      assert ParentIn(t, l, order') && ParentIn(t, r, order');
    }
    assert Distinct(all');
    forall x | x in order' ensures ChildrenIn(t, x, all') {
      if x in order { assert ChildrenIn(t, x, all); }
    }
    forall j | 0 < j < |order'| ensures ParentIn(t, order'[j], order'[..j]) {
      assert order'[..j] == order[..j];
      if j == |order| { assert order'[..j] == order && all[0] != all[j]; }
    }
    forall x | x in q' && x != start ensures ParentIn(t, x, order') {
      if x in q { assert ParentIn(t, x, order); }
    }
  }

  // ---------- the order of the walk ----------

  /** The queue's nodes, then their children level by level, left before right. */
  ghost function Levels(t: Linkage, q: seq<int>): seq<int>
    requires t.WellFormed() && InTree(t, q)
    decreases SeqSum(q, NodeWeight(t))
  {
    if q == [] then [] else StepWeight(t, q); [q[0]] + Levels(t, q[1..] + NextNodes(t, q[0]))
  }

  lemma LevelsStep(t: Linkage, order: seq<int>, q: seq<int>)
    requires t.WellFormed() && q != [] && InTree(t, q) && InTree(t, q[1..] + NextNodes(t, q[0]))
    ensures order + [q[0]] + Levels(t, q[1..] + NextNodes(t, q[0])) == order + Levels(t, q)
  {
    hide Linkage.WellFormed, NextNodes;
  }

  /** The whole tree, level by level. */
  ghost function LevelOrder(t: Linkage): seq<int>
    requires t.WellFormed()
  {
    Levels(t, [t.Root()])
  }

  /** The children of the listed nodes, in order. */
  ghost function KidsOf(t: Linkage, s: seq<int>): seq<int> {
    if s == [] then [] else KidsOf(t, s[..|s| - 1]) + NextNodes(t, s[|s| - 1])
  }

  lemma KidsStep(t: Linkage, start: int, order: seq<int>, q: seq<int>)
    requires q != [] && order + q == [start] + KidsOf(t, order)
    ensures order + [q[0]] + (q[1..] + NextNodes(t, q[0])) == [start] + KidsOf(t, order + [q[0]])
  {
    assert (order + [q[0]])[..|order|] == order && [q[0]] + q[1..] == q;
    assert order + [q[0]] + (q[1..] + NextNodes(t, q[0])) == order + q + NextNodes(t, q[0]);
  }

  /** The level order visits every node below its start once, each after its parent, and lists the start and
      then the children of what it lists, in order. */
  lemma {:induction false} LevelsWalk(t: Linkage, start: int, order: seq<int>, q: seq<int>)
    requires t.WellFormed() && 0 <= start < t.Total() && InTree(t, q)
    requires BfsInv(t, start, order, q) && order + q == [start] + KidsOf(t, order)
    ensures IsWalk(t, start, order + Levels(t, q))
    ensures order + Levels(t, q) == [start] + KidsOf(t, order + Levels(t, q))
    decreases SeqSum(q, NodeWeight(t))
  {
    hide BfsInv, IsWalk, Linkage.WellFormed;
    if q == [] {
      assert order + [] == order;
      WalkEnds(t, start, order);
    } else {
      StepWeight(t, q);
      BfsStep(t, start, order, q);
      KidsStep(t, start, order, q);
      var q' := q[1..] + NextNodes(t, q[0]);
      LevelsWalk(t, start, order + [q[0]], q');
      LevelsStep(t, order, q);
    }
  }

  lemma WalkEnds(t: Linkage, start: int, order: seq<int>)
    requires t.WellFormed() && 0 <= start < t.Total() && BfsInv(t, start, order, [])
    ensures IsWalk(t, start, order)
  {
    assert order + [] == order;
    ClosedCovers(t, start, order, start);
  }

  lemma LevelOrderWalks(t: Linkage)
    requires t.WellFormed()
    ensures IsWalk(t, t.Root(), LevelOrder(t)) && LevelOrder(t) == [t.Root()] + KidsOf(t, LevelOrder(t))
  {
    LevelsWalk(t, t.Root(), [], [t.Root()]);
    assert [] + LevelOrder(t) == LevelOrder(t);
  }

  /** x is listed before y. */
  ghost predicate Before(order: seq<int>, x: int, y: int) {
    exists a, b :: 0 <= a < b < |order| && order[a] == x && order[b] == y
  }

  /** s is listed in the order of the walk. */
  ghost predicate InOrder(order: seq<int>, s: seq<int>) { forall i, j | 0 <= i < j < |s| :: Before(order, s[i], s[j]) }

  lemma BeforeIsStrict(order: seq<int>, x: int, y: int)
    requires Distinct(order) && Before(order, x, y)
    ensures x != y && !Before(order, y, x)
  {
  }

  /** The order leaves only one way to list a set. */
  lemma {:induction false} OneListing(order: seq<int>, xs: seq<int>, ys: seq<int>)
    requires Distinct(order) && InOrder(order, xs) && InOrder(order, ys) && forall v :: v in xs <==> v in ys
    ensures xs == ys
    decreases |xs|
  {
    hide Before, Distinct;
    EmptyOrFirst(ys);
    if xs != [] {
      var n := |xs| - 1;
      assert xs[n] in xs && xs[n] in ys;
      var m := |ys| - 1;
      assert ys[m] in ys && ys[m] in xs;
      if xs[n] != ys[m] {
        var i :| 0 <= i < |xs| && xs[i] == ys[m];
        var j :| 0 <= j < |ys| && ys[j] == xs[n];
        BeforeIsStrict(order, ys[m], xs[n]);
      }
      forall v ensures v in xs[..n] <==> v in ys[..m] {
        FrontMembers(order, xs, v);
        FrontMembers(order, ys, v);
      }
      OneListing(order, xs[..n], ys[..m]);
      assert xs == xs[..n] + [xs[n]] && ys == ys[..m] + [ys[m]];
    }
  }

  lemma EmptyOrFirst(xs: seq<int>)
    ensures xs == [] || xs[0] in xs
  {
  }

  lemma FrontMembers(order: seq<int>, xs: seq<int>, v: int)
    requires Distinct(order) && InOrder(order, xs) && xs != []
    ensures v in xs[..|xs| - 1] <==> v in xs && v != xs[|xs| - 1]
  {
    hide Before, Distinct;
    var n := |xs| - 1;
    if v in xs[..n] {
      var i :| 0 <= i < n && xs[i] == v;
      BeforeIsStrict(order, v, xs[n]);
    }
  }

  lemma BfsStarts(t: Linkage, start: int)
    requires t.WellFormed() && 0 <= start < t.Total()
    ensures BfsInv(t, start, [], [start])
  {
  }

  method BfsHierarchy(t: Linkage, start: int) returns (order: seq<int>)
    requires t.WellFormed() && 0 <= start < t.Total()
    ensures IsWalk(t, start, order) && order == Levels(t, [start])
  {
    hide BfsInv, IsWalk, Linkage.WellFormed, NodeWeight, SeqSum;
    order := [];
    var q := [start];
    BfsStarts(t, start);
    while q != []
      invariant BfsInv(t, start, order, q) && InTree(t, q) && order + Levels(t, q) == Levels(t, [start])
      decreases SeqSum(q, NodeWeight(t))
    {
      BfsStep(t, start, order, q);
      StepWeight(t, q);
      LevelsStep(t, order, q);
      var node := q[0];
      q := q[1..];
      order := order + [node];
      if t.Inner(node) {
        ghost var q0 := q;
        q := q + [t.Left(node)];
        q := q + [t.Right(node)];
        assert q == q0 + NextNodes(t, node);
      } else {
        assert q == q + NextNodes(t, node);
      }
    }
    assert order + [] == order;
    WalkEnds(t, start, order);
  }
}
