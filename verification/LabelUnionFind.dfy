/** The union-find used for labelling: the larger id is attached below the smaller. */
module LabelUnionFind {

  ghost predicate Descending(p: seq<int>) { forall i | 0 <= i < |p| :: 0 <= p[i] <= i }

  /** The representative of x. */
  ghost function Rep(p: seq<int>, x: int): (r: int)
    requires Descending(p) && 0 <= x < |p|
    ensures 0 <= r <= x && p[r] == r
    decreases x
  {
    if p[x] == x then x else Rep(p, p[x])
  }

  /** Path halving moves no element to another set. */
  lemma {:induction false} HalvingKeepsReps(p: seq<int>, x: int, y: int)
    requires Descending(p) && 0 <= x < |p| && 0 <= y < |p|
    ensures Descending(p[x := p[p[x]]]) && Rep(p[x := p[p[x]]], y) == Rep(p, y)
    decreases y
  {
    var p' := p[x := p[p[x]]];
    if p[y] != y {
      HalvingKeepsReps(p, x, p[y]);
      if y == x && p[p[x]] != p[x] { HalvingKeepsReps(p, x, p[p[x]]); }
    }
  }

  lemma {:induction false} LinkingMergesReps(p: seq<int>, a: int, b: int, y: int)
    requires Descending(p) && 0 <= b < a < |p| && p[a] == a && p[b] == b && 0 <= y < |p|
    ensures Descending(p[a := b]) && Rep(p[a := b], y) == if Rep(p, y) == a then b else Rep(p, y)
    decreases y
  {
    if p[y] != y { LinkingMergesReps(p, a, b, p[y]); }
  }

  class UF {
    var p: seq<int>

    ghost predicate Valid() reads this { Descending(p) }

    constructor (m: nat)
      ensures Valid() && |p| == m && forall i | 0 <= i < m :: Rep(p, i) == i
    {
      p := seq(m, i => i);
    }

    method Find(x0: int) returns (r: int)
      requires Valid() && 0 <= x0 < |p|
      modifies this
      ensures Valid() && |p| == old(|p|) && r == Rep(old(p), x0)
      ensures forall y | 0 <= y < |p| :: Rep(p, y) == Rep(old(p), y)
    {
      var x := x0;
      while p[x] != x
        invariant Valid() && |p| == old(|p|) && 0 <= x < |p| && Rep(p, x) == Rep(old(p), x0)
        invariant forall y | 0 <= y < |p| :: Rep(p, y) == Rep(old(p), y)
        decreases x
      {
        ghost var before := p;
        forall y | 0 <= y < |p| ensures Descending(p[x := p[p[x]]]) && Rep(p[x := p[p[x]]], y) == Rep(p, y) {
          HalvingKeepsReps(p, x, y);
        }
        p := p[x := p[p[x]]];
        assert p[x] < x;
        assert Rep(p, x) == Rep(before, x);
        x := p[x];
      }
      r := x;
    }

    method Unite(child: int, parent: int)
      requires Valid() && 0 <= child < |p| && 0 <= parent < |p|
      modifies this
      ensures Valid() && |p| == old(|p|)
      ensures var a, b := Rep(old(p), child), Rep(old(p), parent);
              var low, high := if a < b then a else b, if a < b then b else a;
              forall y | 0 <= y < |p| :: Rep(p, y) == if Rep(old(p), y) == high then low else Rep(old(p), y)
    {
      var a := Find(child);
      var b := Find(parent);
      if a == b { return; }
      if a < b { a, b := b, a; }
      assert Rep(p, child) in {a, b} && Rep(p, parent) in {a, b};
      forall y | 0 <= y < |p| ensures Descending(p[a := b]) && Rep(p[a := b], y) == if Rep(p, y) == a then b else Rep(p, y) {
        LinkingMergesReps(p, a, b, y);
      }
      p := p[a := b];
    }
  }
}
