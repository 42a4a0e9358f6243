/** The condensing loop, with what its row list means. */
module CondensedRows {
  import opened Basics
  import opened Dendrogram
  import opened CondensedTree
  import opened Condense

  /** Excess of mass credited to a cluster by the rows so far. */
  ghost function Acc(cond: seq<CRow>, cluster: int, birth: real): real {
    if cond == [] then 0.0
    else var r := cond[|cond| - 1];
         Acc(cond[..|cond| - 1], cluster, birth)
         + if r.parent == cluster then Mass(r.level - birth, r.size) else 0.0
  }

  /** The child clusters of a cluster, in row order. */
  ghost function KidIds(cond: seq<CRow>, n: nat, cluster: int): seq<int> {
    if cond == [] then []
    else var r := cond[|cond| - 1];
         KidIds(cond[..|cond| - 1], n, cluster)
         + if r.parent == cluster && r.child >= n then [r.child] else []
  }

  ghost predicate HasRow(cond: seq<CRow>, child: int) {
    exists i :: 0 <= i < |cond| && cond[i].child == child
  }

  ghost predicate OneRowEach(cond: seq<CRow>) {
    forall i, j | 0 <= i < j < |cond| :: cond[i].child != cond[j].child
  }

  /** Point `p` belongs to the cluster with top `v` and to none of its child clusters. */
  ghost predicate ShedFrom(t: Linkage, m: nat, v: int, p: int)
    requires Ready(t, m) && t.Inner(v)
  {
    p in t.Under(v) && (HasKids(t, m, v) ==> p !in t.Under(End(t, m, v)))
  }

  /** Cluster k is a child of cluster par[k] in the condensed tree. */
  ghost predicate BornFrom(t: Linkage, m: nat, tops: seq<int>, par: seq<int>, k: int)
    requires Ready(t, m) && |tops| == |par| && 0 < k < |tops|
  {
    && 0 <= par[k] < k && t.Inner(tops[k]) && t.Inner(tops[par[k]]) && tops[k] < t.Root()
    && HasKids(t, m, tops[par[k]])
    && tops[k] in {KidL(t, m, tops[par[k]]), KidR(t, m, tops[par[k]])}
  }

  ghost predicate RowOk(t: Linkage, m: nat, tops: seq<int>, par: seq<int>, r: CRow)
    requires Ready(t, m) && |tops| == |par| && AllInner(t, tops)
  {
    var k, j := r.parent - t.n, r.child - t.n;
    && 0 <= k < |tops| && 0 <= r.child
    && if j < 0 then r.size == 1 && ShedFrom(t, m, tops[k], r.child)
       else 0 < j < |tops| && par[j] == k && r.level == Birth(t, tops[j]) && r.size == t.Size(tops[j])
  }

  /** The rows list the children of cluster k, left before right. */
  ghost predicate KidsListed(t: Linkage, m: nat, cond: seq<CRow>, tops: seq<int>, par: seq<int>, k: int)
    requires Ready(t, m) && |tops| == |par| && 0 <= k < |tops| && t.Inner(tops[k])
  {
    var ids := KidIds(cond, t.n, t.n + k);
    if HasKids(t, m, tops[k]) then
      && |ids| == 2
      && IsKid(t, tops, par, k, ids[0], KidL(t, m, tops[k]))
      && IsKid(t, tops, par, k, ids[1], KidR(t, m, tops[k]))
    else ids == []
  }

  ghost predicate IsKid(t: Linkage, tops: seq<int>, par: seq<int>, k: int, id: int, v: int)
    requires |tops| == |par|
  {
    var j := id - t.n;
    0 <= k < j < |tops| && tops[j] == v && par[j] == k
  }

  ghost predicate AllInner(t: Linkage, tops: seq<int>) { forall k | 0 <= k < |tops| :: t.Inner(tops[k]) }

  /** A numbering of condensed clusters from the root down: cluster n+k has top tops[k]. */
  ghost predicate Numbered(t: Linkage, m: nat, tops: seq<int>, par: seq<int>)
    requires Ready(t, m)
  {
    && |tops| == |par| >= 1 && tops[0] == t.Root() && Distinct(tops)
    && AllInner(t, tops)
    && (forall k | 0 < k < |tops| :: BornFrom(t, m, tops, par, k))
  }

  /** What condensing delivers. */
  ghost predicate Condensed(t: Linkage, m: nat, cond: seq<CRow>, tops: seq<int>, par: seq<int>)
    requires Ready(t, m)
  {
    && Numbered(t, m, tops, par)
    && (forall i | 0 <= i < |cond| :: RowOk(t, m, tops, par, cond[i]))
    && OneRowEach(cond)
    && (forall p | 0 <= p < t.n :: HasRow(cond, p))
    && (forall c | t.n < c < t.n + |tops| :: HasRow(cond, c))
    && (forall k | 0 <= k < |tops| ::
          && Acc(cond, t.n + k, Birth(t, tops[k])) == Stability(t, m, tops[k])
          && KidsListed(t, m, cond, tops, par, k))
  }

  // ---------- the loop state ----------

  ghost predicate Alive(t: Linkage, m: nat, v: int)
    requires 0 <= v < t.Total()
  {
    v == t.Root() || Big(t, m, v)
  }

  ghost predicate Reached(t: Linkage, done: set<int>, v: int)
    requires t.WellFormed() && 0 <= v < t.Total()
  {
    v == t.Root() || t.Parent(v) in done
  }

  /** Node v is next in line on the cluster with top `top`. */
  ghost predicate OnChain(t: Linkage, m: nat, done: set<int>, top: int, v: int)
    requires Ready(t, m) && t.Inner(top)
  {
    t.Inner(v) && v !in done && Reached(t, done, v) && v in t.Under(top) && End(t, m, v) == End(t, m, top)
  }

  ghost predicate Carries(t: Linkage, m: nat, done: set<int>, relabel: seq<int>, tops: seq<int>, cur: seq<int>, k: int)
    requires Ready(t, m) && |relabel| == t.Total() && 0 <= k < |tops| == |cur| && t.Inner(tops[k])
  {
    cur[k] != -1 ==> OnChain(t, m, done, tops[k], cur[k]) && relabel[cur[k]] == t.n + k
  }

  ghost predicate Claimed(t: Linkage, m: nat, done: set<int>, relabel: seq<int>, cur: seq<int>, v: int)
    requires Ready(t, m) && |relabel| == t.Total() && 0 <= v < t.Total()
  {
    t.Inner(v) && v !in done && Alive(t, m, v) && Reached(t, done, v) ==>
      t.n <= relabel[v] < t.n + |cur| && cur[relabel[v] - t.n] == v
  }

  /** done: the processed nodes; cur[k]: the node that will carry on cluster n+k, or -1. */
  ghost predicate Frontier(t: Linkage, m: nat, done: set<int>, relabel: seq<int>, tops: seq<int>, cur: seq<int>)
    requires Ready(t, m) && AllInner(t, tops)
  {
    && |relabel| == t.Total() && |cur| == |tops|
    && (forall x | x in done :: 0 <= x < t.Total() && Reached(t, done, x))
    && (forall k | 0 <= k < |tops| && tops[k] != t.Root() :: BornIn(t, m, done, tops[k]))
    && (forall k | 0 <= k < |tops| :: Carries(t, m, done, relabel, tops, cur, k))
    && (forall v | 0 <= v < t.Total() :: Claimed(t, m, done, relabel, cur, v))
  }

  ghost predicate BornIn(t: Linkage, m: nat, done: set<int>, top: int)
    requires t.WellFormed()
  {
    0 <= top < t.Root() && t.Parent(top) in done && Big(t, m, top)
  }

  ghost predicate Ignoring(t: Linkage, m: nat, done: set<int>, ignore: seq<bool>)
    requires Ready(t, m)
  {
    && |ignore| == t.Total()
    && (forall v | 0 <= v < t.Total() && ignore[v] && Alive(t, m, v) :: v in done)
    && (forall v | t.Inner(v) && ignore[v] :: ignore[t.Left(v)] && ignore[t.Right(v)])
    && (forall v | 0 <= v < t.Root() && !Big(t, m, v) && t.Parent(v) in done :: ignore[v])
    && (forall v | 0 <= v < t.Root() && ignore[v] && v !in done :: t.Parent(v) in done || ignore[t.Parent(v)])
  }

  ghost predicate Rows(t: Linkage, m: nat, ignore: seq<bool>, cond: seq<CRow>,
                       tops: seq<int>, par: seq<int>)
    requires Ready(t, m) && |ignore| == t.Total() && Numbered(t, m, tops, par)
  {
    && (forall i | 0 <= i < |cond| :: RowOk(t, m, tops, par, cond[i]))
    && (forall i | 0 <= i < |cond| && cond[i].child < t.n :: ignore[cond[i].child])
    && OneRowEach(cond)
    && (forall p | 0 <= p < t.n && ignore[p] :: HasRow(cond, p))
    && (forall c | t.n < c < t.n + |tops| :: HasRow(cond, c))
  }

  /** Per cluster: credited mass plus the mass still to come is its stability, and its children
      are listed exactly when it has split. */
  ghost predicate Credit(t: Linkage, m: nat, cond: seq<CRow>, tops: seq<int>, par: seq<int>, cur: seq<int>, k: int)
    requires Ready(t, m) && |tops| == |par| == |cur| && 0 <= k < |tops| && t.Inner(tops[k])
    requires cur[k] == -1 || t.Inner(cur[k])
  {
    var b := Birth(t, tops[k]);
    && Acc(cond, t.n + k, b) + (if cur[k] == -1 then 0.0 else Excess(t, m, cur[k], b)) == Stability(t, m, tops[k])
    && if cur[k] == -1 then KidsListed(t, m, cond, tops, par, k) else KidIds(cond, t.n, t.n + k) == []
  }

  ghost predicate Credits(t: Linkage, m: nat, cond: seq<CRow>, tops: seq<int>, par: seq<int>, cur: seq<int>)
    requires Ready(t, m)
  {
    && |tops| == |par| == |cur| && AllInner(t, tops)
    && (forall k | 0 <= k < |tops| :: cur[k] == -1 || t.Inner(cur[k]))
    && (forall k | 0 <= k < |tops| :: Credit(t, m, cond, tops, par, cur, k))
  }

  // ---------- points falling out ----------

  /** `add` has one row for each point among `nodes`. */
  ghost predicate ShedsOf(t: Linkage, nodes: seq<int>, cluster: int, level: real, add: seq<CRow>) {
    && OneRowEach(add)
    && (forall i | 0 <= i < |add| ::
          add[i] == CRow(cluster, add[i].child, level, 1) && add[i].child in nodes && add[i].child < t.n)
    && (forall p | p in nodes && p < t.n :: HasRow(add, p))
  }

  lemma ShedOne(t: Linkage, nodes: seq<int>, cluster: int, level: real, add: seq<CRow>, p: int)
    requires ShedsOf(t, nodes, cluster, level, add) && p !in nodes
    ensures p < t.n ==> ShedsOf(t, nodes + [p], cluster, level, add + [CRow(cluster, p, level, 1)])
    ensures p >= t.n ==> ShedsOf(t, nodes + [p], cluster, level, add)
  {
    var add' := add + [CRow(cluster, p, level, 1)];
    assert add'[|add|].child == p;
    forall x | HasRow(add, x) ensures HasRow(add', x) {
      var j :| 0 <= j < |add| && add[j].child == x;
      assert add'[j].child == x;
    }
  }

  /** `add` sheds every point below `sub` exactly once. */
  ghost predicate Sheds(t: Linkage, sub: int, cluster: int, level: real, add: seq<CRow>)
    requires t.WellFormed() && 0 <= sub < t.Total()
  {
    && |add| == t.Size(sub) && OneRowEach(add)
    && (forall i | 0 <= i < |add| ::
          add[i] == CRow(cluster, add[i].child, level, 1) && add[i].child in t.Leaves(sub))
    && (forall p | p in t.Leaves(sub) :: HasRow(add, p))
  }

  ghost function Children(cond: seq<CRow>): (s: seq<int>)
    ensures |s| == |cond| && forall i | 0 <= i < |s| :: s[i] == cond[i].child
  {
    if cond == [] then [] else Children(cond[..|cond| - 1]) + [cond[|cond| - 1].child]
  }

  lemma WholeWalkSheds(t: Linkage, sub: int, order: seq<int>, cluster: int, level: real, add: seq<CRow>)
    requires t.WellFormed() && 0 <= sub < t.Total() && IsWalk(t, sub, order)
    requires ShedsOf(t, order, cluster, level, add)
    ensures Sheds(t, sub, cluster, level, add)
  {
    var kids := Children(add);
    forall x ensures x in kids <==> x in t.Leaves(sub) {
      if x in t.Leaves(sub) {
        assert HasRow(add, x);
        var j :| 0 <= j < |add| && add[j].child == x;
        assert kids[j] == x;
      }
    }
    DistinctCount(kids, t.Leaves(sub));
    LeafCount(t, sub);
  }

  method ShedNodes(t: Linkage, order: seq<int>, cluster: int, level: real, ignore0: seq<bool>, cond0: seq<CRow>)
    returns (ignore: seq<bool>, cond: seq<CRow>)
    requires Distinct(order) && |ignore0| == t.Total() && forall i | 0 <= i < |order| :: 0 <= order[i] < t.Total()
    ensures |ignore| == t.Total() && forall x | 0 <= x < t.Total() :: ignore[x] == (ignore0[x] || x in order)
    ensures cond0 <= cond && ShedsOf(t, order, cluster, level, cond[|cond0|..])
  {
    ignore, cond := ignore0, cond0;
    ghost var add := [];
    for i := 0 to |order|
      invariant |ignore| == t.Total()
      invariant forall x | 0 <= x < t.Total() :: ignore[x] == (ignore0[x] || x in order[..i])
      invariant cond == cond0 + add && ShedsOf(t, order[..i], cluster, level, add)
    {
      var node := order[i];
      assert order[..i + 1] == order[..i] + [node] && node !in order[..i];
      ShedOne(t, order[..i], cluster, level, add, node);
      if node < t.n {
        cond := cond + [CRow(cluster, node, level, 1)];
        add := add + [CRow(cluster, node, level, 1)];
      }
      ignore := ignore[node := true];
    }
    assert order[..|order|] == order && cond[|cond0|..] == add;
  }

  method FallOut(t: Linkage, sub: int, cluster: int, level: real, ignore0: seq<bool>, cond0: seq<CRow>)
    returns (ignore: seq<bool>, cond: seq<CRow>)
    requires t.WellFormed() && 0 <= sub < t.Total() && |ignore0| == t.Total()
    ensures |ignore| == t.Total() && forall x | 0 <= x < t.Total() :: ignore[x] == (ignore0[x] || x in t.Under(sub))
    ensures cond0 <= cond && Sheds(t, sub, cluster, level, cond[|cond0|..])
  {
    var order := BfsHierarchy(t, sub);
    forall i | 0 <= i < |order| ensures 0 <= order[i] < t.Total() { assert order[i] in t.Under(sub); }
    ignore, cond := ShedNodes(t, order, cluster, level, ignore0, cond0);
    WholeWalkSheds(t, sub, order, cluster, level, cond[|cond0|..]);
  }
}
