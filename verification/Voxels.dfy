/** Integer voxel keys, the volume unit shared by the object stages. */
module Voxels {

  datatype VKey = VKey(x: int, y: int, z: int)

  /** A set of voxel keys is empty exactly when it has no member. */
  lemma SomeKey(s: set<VKey>)
    requires s != {}
    ensures exists k :: k in s
  {
  }

  /** Count the keys of a that are in b, one by one. */
  method CountShared(a: set<VKey>, b: set<VKey>) returns (n: nat)
    ensures n == |a * b|
  {
    n := 0;
    var todo := a;
    assert (a - todo) * b == {};
    while todo != {}
      invariant todo <= a && n == |(a - todo) * b|
    {
      SomeKey(todo);
      var k :| k in todo;
      CountOne(a, b, todo, k);
      if k in b { n := n + 1; }
      todo := todo - {k};
    }
    assert (a - todo) * b == a * b;
  }

  lemma CountOne(a: set<VKey>, b: set<VKey>, todo: set<VKey>, k: VKey)
    requires todo <= a && k in todo
    ensures |(a - (todo - {k})) * b| == |(a - todo) * b| + if k in b then 1 else 0
  {
    if k in b { assert (a - (todo - {k})) * b == (a - todo) * b + {k}; }
    else { assert (a - (todo - {k})) * b == (a - todo) * b; }
  }
}
