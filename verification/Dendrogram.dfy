/** The input of flat-cluster extraction: a SciPy-style linkage.

    Points are the nodes 0..n-1.  Row i merges two earlier nodes into node n+i at distance
    `height`; `size` is the number of points below the new node.  The last row is the root. */
module Dendrogram {

  datatype LinkNode = LinkNode(a: nat, b: nat, height: real, size: nat)

  datatype Linkage = Linkage(n: nat, rows: seq<LinkNode>) {

    function Total(): nat { n + |rows| }

    function Root(): int { Total() - 1 }

    predicate Inner(v: int) { n <= v < Total() }

    function Left(v: int): nat requires Inner(v) { rows[v - n].a }

    function Right(v: int): nat requires Inner(v) { rows[v - n].b }

    function Height(v: int): real requires Inner(v) { rows[v - n].height }

    function Size(v: int): nat requires 0 <= v < Total() { if v < n then 1 else rows[v - n].size }

    predicate HasChild(v: int, c: int) { Inner(v) && (Left(v) == c || Right(v) == c) }

    /** What the dendrogram builder delivers: n-1 rows, children before parents, every node but
        the root a child of exactly one row, true sizes, positive distances that do not
        decrease towards the root. */
    ghost predicate WellFormed() {
      && n >= 2 && |rows| == n - 1
      && (forall v | Inner(v) ::
            && Left(v) < v && Right(v) < v && Left(v) != Right(v) && Height(v) > 0.0
            && Size(v) == Size(Left(v)) + Size(Right(v)))
      && (forall u, v | Inner(v) && HasChild(v, u) && Inner(u) :: Height(u) <= Height(v))
      && (forall u, v, c | HasChild(u, c) && HasChild(v, c) :: u == v)
      && (forall c | 0 <= c < Root() :: HasParent(c))
    }

    ghost predicate HasParent(c: int) { exists v :: HasChild(v, c) }

    /** Density level of a merge. */
    function Lambda(v: int): (r: real)
      requires Inner(v) && Height(v) > 0.0
    {
      1.0 / Height(v)
    }

    ghost function Parent(c: int): (v: int)
      requires WellFormed() && 0 <= c < Root()
      ensures HasChild(v, c) && c < v <= Root()
    {
      assert HasParent(c);
      var v :| HasChild(v, c); v
    }

    /** All node ids in the subtree of `v`, `v` included. */
    ghost function Under(v: int): (s: set<int>)
      requires WellFormed() && 0 <= v < Total()
      ensures v in s && forall x | x in s :: 0 <= x <= v
      decreases v
    {
      if Inner(v) then {v} + Under(Left(v)) + Under(Right(v)) else {v}
    }

    /** The points below `v`. */
    ghost function Leaves(v: int): set<int>
      requires WellFormed() && 0 <= v < Total()
    {
      set x | x in Under(v) && x < n
    }
  }

  lemma {:induction false} UnderTransitive(t: Linkage, x: int, v: int)
    requires t.WellFormed() && 0 <= v < t.Total() && x in t.Under(v)
    ensures t.Under(x) <= t.Under(v)
    decreases v
  {
    if x != v {
      if x in t.Under(t.Left(v)) { UnderTransitive(t, x, t.Left(v)); }
      else { UnderTransitive(t, x, t.Right(v)); }
    }
  }

  /** A proper descendant's parent is still a descendant. */
  lemma {:induction false} UnderParent(t: Linkage, x: int, v: int)
    requires t.WellFormed() && 0 <= v < t.Total() && x in t.Under(v) && x != v
    ensures x < t.Root() && t.Parent(x) in t.Under(v)
    decreases v
  {
    var c := if x in t.Under(t.Left(v)) then t.Left(v) else t.Right(v);
    assert t.HasChild(v, c);
    if x == c {
      assert t.Parent(c) == v;
    } else {
      UnderParent(t, x, c);
      UnderTransitive(t, c, v);
    }
  }

  /** Two subtrees that share a node are nested. */
  lemma {:induction false} Nested(t: Linkage, x: int, u: int, v: int)
    requires t.WellFormed() && 0 <= u <= v < t.Total() && x in t.Under(u) && x in t.Under(v)
    ensures u in t.Under(v)
    decreases u - x
  {
    if x != u && x != v {
      UnderParent(t, x, u);
      UnderParent(t, x, v);
      Nested(t, t.Parent(x), u, v);
    }
  }

  /** The two children of a node have disjoint subtrees, neither containing the node. */
  lemma ChildrenDisjoint(t: Linkage, v: int)
    requires t.WellFormed() && t.Inner(v)
    ensures t.Under(t.Left(v)) !! t.Under(t.Right(v))
    ensures v !in t.Under(t.Left(v)) && v !in t.Under(t.Right(v))
  {
    var l, r := t.Left(v), t.Right(v);
    assert t.HasChild(v, l) && t.HasChild(v, r);
    var lo, hi := if l < r then l else r, if l < r then r else l;
    if x :| x in t.Under(lo) && x in t.Under(hi) {
      Nested(t, x, lo, hi);
      UnderParent(t, lo, hi);
      assert false;
    }
  }

  lemma {:induction false} LeafCount(t: Linkage, v: int)
    requires t.WellFormed() && 0 <= v < t.Total()
    ensures |t.Leaves(v)| == t.Size(v) >= 1
    decreases v
  {
    if t.Inner(v) {
      LeafCount(t, t.Left(v));
      LeafCount(t, t.Right(v));
      ChildrenDisjoint(t, v);
      assert t.Leaves(v) == t.Leaves(t.Left(v)) + t.Leaves(t.Right(v));
    } else {
      assert t.Leaves(v) == {v};
    }
  }

  lemma {:induction false} SizeMonotone(t: Linkage, x: int, v: int)
    requires t.WellFormed() && 0 <= v < t.Total() && x in t.Under(v)
    ensures 0 <= x < t.Total() && t.Size(x) <= t.Size(v)
    decreases v
  {
    if x != v { SizeMonotone(t, x, if x in t.Under(t.Left(v)) then t.Left(v) else t.Right(v)); }
  }

  lemma {:induction false} RootCoversAll(t: Linkage, x: int)
    requires t.WellFormed() && 0 <= x < t.Total()
    ensures x in t.Under(t.Root())
    decreases t.Root() - x
  {
    if x < t.Root() {
      var p := t.Parent(x);
      RootCoversAll(t, p);
      UnderTransitive(t, p, t.Root());
    }
  }

  /** Density only rises towards the points. */
  lemma LambdaRises(t: Linkage, v: int, c: int)
    requires t.WellFormed() && t.HasChild(v, c) && t.Inner(c)
    ensures 0.0 < t.Lambda(v) <= t.Lambda(c)
  {
    var h, k := t.Height(v), t.Height(c);
    assert 0.0 < k <= h;
    assert 1.0 / k - 1.0 / h == (h - k) / (k * h);
  }
}
