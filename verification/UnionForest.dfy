/** Union-find forests with an explicit root and depth for every id. */
module UnionForest {

  /** parent is a forest whose roots are given by root; depth falls along every parent step. */
  ghost predicate Forest(parent: seq<int>, root: seq<int>, depth: seq<nat>) {
    && |parent| == |root| == |depth|
    && forall x | 0 <= x < |parent| :: NodeOk(parent, root, depth, x)
  }

  ghost predicate NodeOk(parent: seq<int>, root: seq<int>, depth: seq<nat>, x: int)
    requires |parent| == |root| == |depth| && 0 <= x < |parent|
  {
    && 0 <= parent[x] < |parent| && 0 <= root[x] < |root|
    && root[root[x]] == root[x] && root[parent[x]] == root[x]
    && (parent[x] == x <==> root[x] == x)
    && (parent[x] != x ==> depth[parent[x]] < depth[x])
  }

  lemma {:induction false} AboveRoot(parent: seq<int>, root: seq<int>, depth: seq<nat>, x: int)
    requires Forest(parent, root, depth) && 0 <= x < |parent| && root[x] != x
    ensures 0 <= root[x] < |root| && depth[root[x]] < depth[x]
    decreases depth[x]
  {
    assert NodeOk(parent, root, depth, x) && NodeOk(parent, root, depth, parent[x]);
    if root[parent[x]] != parent[x] { AboveRoot(parent, root, depth, parent[x]); }
  }

  /** Pointing an id straight at its root keeps the forest. */
  lemma Compressed(parent: seq<int>, root: seq<int>, depth: seq<nat>, x: int)
    requires Forest(parent, root, depth) && 0 <= x < |parent|
    ensures 0 <= root[x] < |parent| && Forest(parent[x := root[x]], root, depth)
  {
    assert NodeOk(parent, root, depth, x);
    var parent' := parent[x := root[x]];
    if root[x] != x { AboveRoot(parent, root, depth, x); }
    forall y | 0 <= y < |parent| ensures NodeOk(parent', root, depth, y) { assert NodeOk(parent, root, depth, y); }
  }

  /** Hanging root b below root a: b's ids move to a, one step deeper. */
  lemma Linked(parent: seq<int>, root: seq<int>, depth: seq<nat>, root': seq<int>, depth': seq<nat>, a: int, b: int)
    requires Forest(parent, root, depth) && 0 <= a < |parent| && 0 <= b < |parent| && a != b && root[a] == a && root[b] == b
    requires |root'| == |depth'| == |root|
    requires forall x | 0 <= x < |root| :: root'[x] == if root[x] == b then a else root[x]
    requires forall x | 0 <= x < |root| :: depth'[x] == if root[x] == b then depth[x] + depth[a] + 1 else depth[x]
    ensures Forest(parent[b := a], root', depth')
  {
    var parent' := parent[b := a];
    forall x | 0 <= x < |parent| ensures NodeOk(parent', root', depth', x) {
      assert NodeOk(parent, root, depth, x) && NodeOk(parent, root, depth, a);
      assert NodeOk(parent, root, depth, parent[x]) && NodeOk(parent, root, depth, root[x]);
    }
  }

  /** Path halving: pointing an id at its grandparent keeps the forest. */
  lemma Halved(parent: seq<int>, root: seq<int>, depth: seq<nat>, x: int)
    requires Forest(parent, root, depth) && 0 <= x < |parent|
    ensures 0 <= parent[x] < |parent| && 0 <= parent[parent[x]] < |parent|
    ensures Forest(parent[x := parent[parent[x]]], root, depth)
    ensures parent[x] != x ==> depth[parent[parent[x]]] < depth[x]
  {
    assert NodeOk(parent, root, depth, x) && NodeOk(parent, root, depth, parent[x]);
    var parent' := parent[x := parent[parent[x]]];
    assert NodeOk(parent, root, depth, parent[parent[x]]);
    forall y | 0 <= y < |parent| ensures NodeOk(parent', root, depth, y) { assert NodeOk(parent, root, depth, y); }
  }

  lemma Extended(parent: seq<int>, root: seq<int>, depth: seq<nat>)
    requires Forest(parent, root, depth)
    ensures Forest(parent + [|parent|], root + [|root|], depth + [0])
  {
    forall x | 0 <= x < |parent| + 1
      ensures NodeOk(parent + [|parent|], root + [|root|], depth + [0], x)
    {
      if x < |parent| { assert NodeOk(parent, root, depth, x); }
    }
  }
}
