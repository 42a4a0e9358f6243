/** The evidence-gated merges between established components, on store values: the adjacency
    snapshot, the neighbourhood score, the gate, and the least coarsening the merges produce. */
module ObjectMerge {
  import opened SetSum
  import opened Affinity
  import opened ObjectStore
  import opened ObjectSteps
  import opened ObjectTally
  import opened ObjectGather
  import opened ObjectFold

  // ---------- collapsing edges onto roots ----------

  lemma CollapsedNothing(root: seq<int>)
    requires Roots(root)
    ensures Collapsed(root, map[], map[])
  {
    var none: map<EKey, EdgeAcc> := map[];
    assert none.Keys == {};
  }

  /** One edge more: internal edges vanish, others add to the edge between their roots. */
  function CollapseOne(root: seq<int>, to: map<EKey, EdgeAcc>, k: EKey, acc: EdgeAcc): map<EKey, EdgeAcc>
    requires 0 <= k.a < |root| && 0 <= k.b < |root|
  {
    var a, b := root[k.a], root[k.b];
    if a == b then to else to[Ekey(a, b) := AddAcc(EdgeAt(to, Ekey(a, b)), acc)]
  }

  lemma CollapsedTotals(root: seq<int>, from: map<EKey, EdgeAcc>, to: map<EKey, EdgeAcc>, k: EKey, acc: EdgeAcc,
                        g: int -> int, u: int, v: int, part: Part)
    requires Roots(root) && Collapsed(root, from, to) && k !in from && EdgeOk(root, k, acc) && Coarser(g, root) && u != v
    ensures EdgeTotal(CollapseOne(root, to, k, acc), g, u, v, part) == EdgeTotal(from[k := acc], g, u, v, part)
  {
    var a, b := root[k.a], root[k.b];
    assert g(k.a) == g(a) && g(k.b) == g(b);
    assert EdgeTotal(to, g, u, v, part) == EdgeTotal(from, g, u, v, part);
    TotalAfterUpdate(from, k, acc, g, u, v, part);
    if a != b {
      var e := Ekey(a, b);
      TotalAfterUpdate(to, e, AddAcc(EdgeAt(to, e), acc), g, u, v, part);
    }
  }

  lemma CollapsedMore(root: seq<int>, from: map<EKey, EdgeAcc>, to: map<EKey, EdgeAcc>, k: EKey, acc: EdgeAcc)
    requires Roots(root) && Collapsed(root, from, to) && k !in from && EdgeOk(root, k, acc)
    ensures Collapsed(root, from[k := acc], CollapseOne(root, to, k, acc))
  {
    hide EdgeTotal;
    var from', to' := from[k := acc], CollapseOne(root, to, k, acc);
    forall x | x in to' ensures EdgeOk(root, x, to'[x]) { assert x in to ==> EdgeOk(root, x, to[x]); }
    forall x | x in to' ensures HasEdge(root, from', x.a, x.b) {
      if x in to {
        assert HasEdge(root, from, x.a, x.b);
        var e :| e in from && ResolvesTo(root, e, x.a, x.b);
        assert e in from';
      } else {
        assert k in from' && ResolvesTo(root, k, x.a, x.b);
      }
    }
    forall g: int -> int, u, v, part | Coarser(g, root) && u != v
      ensures EdgeTotal(to', g, u, v, part) == EdgeTotal(from', g, u, v, part)
    {
      CollapsedTotals(root, from, to, k, acc, g, u, v, part);
    }
  }

  /** The snapshot does not depend on the order in which edges are collapsed. */
  lemma CollapsedUnique(root: seq<int>, from: map<EKey, EdgeAcc>, to: map<EKey, EdgeAcc>, to': map<EKey, EdgeAcc>)
    requires Roots(root) && Collapsed(root, from, to) && Collapsed(root, from, to') && EdgesOk(root, from)
    ensures to == to'
  {
    forall k | k in to ensures k in to' && to[k] == to'[k] { CollapsedSame(root, from, to, to', k); }
    forall k | k in to' ensures k in to { CollapsedSame(root, from, to', to, k); }
  }

  lemma CollapsedSame(root: seq<int>, from: map<EKey, EdgeAcc>, to: map<EKey, EdgeAcc>, to': map<EKey, EdgeAcc>, k: EKey)
    requires Roots(root) && Collapsed(root, from, to) && Collapsed(root, from, to') && EdgesOk(root, from) && k in to
    ensures k in to' && to[k] == to'[k]
  {
    hide EdgeTotal;
    assert EdgeOk(root, k, to[k]) && HasEdge(root, from, k.a, k.b);
    var e :| e in from && ResolvesTo(root, e, k.a, k.b);
    assert Ekey(root[e.a], root[e.b]) in to';
    CollapsedValue(root, from, to, k.a, k.b, SimConf);
    CollapsedValue(root, from, to, k.a, k.b, Conf);
    CollapsedValue(root, from, to', k.a, k.b, SimConf);
    CollapsedValue(root, from, to', k.a, k.b, Conf);
  }

  // ---------- the neighbourhood score ----------

  ghost predicate SnapshotOk(n: nat, radj: map<EKey, EdgeAcc>) {
    forall k | k in radj :: 0 <= k.a < k.b < n && 0.0 <= radj[k].simConf <= radj[k].conf && 0.0 < radj[k].conf
  }

  /** Accumulated affinity of two components, 0 without an edge. */
  function AdjOf(radj: map<EKey, EdgeAcc>, a: int, b: int): real {
    if a == b || Ekey(a, b) !in radj || radj[Ekey(a, b)].conf <= 0.0 then 0.0
    else radj[Ekey(a, b)].simConf / radj[Ekey(a, b)].conf
  }

  lemma QuotientBound(x: real, y: real)
    requires 0.0 <= x <= y && 0.0 < y
    ensures 0.0 <= x / y <= 1.0
  {
  }

  lemma AdjBounded(n: nat, radj: map<EKey, EdgeAcc>, a: int, b: int)
    requires SnapshotOk(n, radj)
    ensures 0.0 <= AdjOf(radj, a, b) <= 1.0
  {
    var k := Ekey(a, b);
    if k in radj { QuotientBound(radj[k].simConf, radj[k].conf); }
  }

  ghost function Neighbours(radj: map<EKey, EdgeAcc>, b: int): set<int> {
    (set k | k in radj && k.a == b :: k.b) + (set k | k in radj && k.b == b :: k.a)
  }

  function Bulk(comp: seq<Comp>, x: int): real {
    if 0 <= x < |comp| && |comp[x].vox| > 1 then |comp[x].vox| as real else 1.0
  }

  ghost function Weight(comp: seq<Comp>, decay: real): int -> real { x => Times(decay, Bulk(comp, x)) }

  ghost function Weighted(comp: seq<Comp>, radj: map<EKey, EdgeAcc>, decay: real, a: int): int -> real {
    x => Times(Times(decay, Bulk(comp, x)), AdjOf(radj, a, x))
  }

  ghost function RegionNum(comp: seq<Comp>, radj: map<EKey, EdgeAcc>, decay: real, a: int, b: int, around: set<int>): real {
    Times(Bulk(comp, b), AdjOf(radj, a, b)) + Sum(around, Weighted(comp, radj, decay, a))
  }

  ghost function RegionDen(comp: seq<Comp>, decay: real, b: int, around: set<int>): real {
    Bulk(comp, b) + Sum(around, Weight(comp, decay))
  }

  function Fraction(num: real, den: real): real { if den > 0.0 then num / den else 0.0 }

  /** Mean affinity of a to b and, decayed, to b's other neighbours, weighted by voxel count. */
  ghost function Region(comp: seq<Comp>, radj: map<EKey, EdgeAcc>, decay: real, a: int, b: int): real {
    var around := Neighbours(radj, b) - {a};
    Fraction(RegionNum(comp, radj, decay, a, b, around), RegionDen(comp, decay, b, around))
  }

  lemma {:induction false} SumAtMost(s: set<int>, f: int -> real, g: int -> real)
    requires forall x | x in s :: 0.0 <= f(x) <= g(x)
    ensures 0.0 <= Sum(s, f) <= Sum(s, g)
    decreases s
  {
    if s == {} {
      SumZero(s, f);
      SumZero(s, g);
    } else {
      SomeInt(s);
      var x :| x in s;
      SumRemove(s, f, x);
      SumRemove(s, g, x);
      SumAtMost(s - {x}, f, g);
    }
  }

  /** The neighbourhood score is an average of affinities, so it lies in [0, 1]. */
  lemma RegionBounded(comp: seq<Comp>, radj: map<EKey, EdgeAcc>, decay: real, a: int, b: int)
    requires SnapshotOk(|comp|, radj) && decay >= 0.0
    ensures 0.0 <= Region(comp, radj, decay, a, b) <= 1.0
  {
    hide AdjOf, Times, Bulk, Neighbours, SnapshotOk;
    var around := Neighbours(radj, b) - {a};
    var f, g := Weighted(comp, radj, decay, a), Weight(comp, decay);
    forall x | x in around ensures 0.0 <= f(x) <= g(x) {
      AdjBounded(|comp|, radj, a, x);
      BulkPositive(comp, x, decay);
      WeightedBound(AdjOf(radj, a, x), Times(decay, Bulk(comp, x)));
    }
    SumAtMost(around, f, g);
    AdjBounded(|comp|, radj, a, b);
    BulkPositive(comp, b, decay);
    WeightedBound(AdjOf(radj, a, b), Bulk(comp, b));
    QuotientBound(RegionNum(comp, radj, decay, a, b, around), RegionDen(comp, decay, b, around));
  }

  lemma BulkPositive(comp: seq<Comp>, x: int, decay: real)
    requires decay >= 0.0
    ensures Bulk(comp, x) >= 1.0 && Times(decay, Bulk(comp, x)) >= 0.0
  {
    MulMono(0.0, decay, Bulk(comp, x));
  }

  lemma WeightedBound(adj: real, w: real)
    requires 0.0 <= adj <= 1.0 && w >= 0.0
    ensures 0.0 <= Times(w, adj) <= w
  {
    TimesBound(adj, w);
    assert Times(w, adj) == Times(adj, w);
  }

  /** Every component's neighbours, each listed once. */
  ghost predicate ListsNeighbours(radj: map<EKey, EdgeAcc>, nbr: map<int, seq<int>>) {
    && (forall b | b in nbr :: Lists(nbr[b], Neighbours(radj, b)))
    && (forall b | b !in nbr :: NoNeighbour(radj, b))
  }

  ghost predicate NoNeighbour(radj: map<EKey, EdgeAcc>, b: int) { forall k | k in radj :: k.a != b && k.b != b }

  ghost predicate Lists(xs: seq<int>, s: set<int>) {
    && (forall i, j | 0 <= i < j < |xs| :: xs[i] != xs[j])
    && (forall x :: x in xs <==> x in s)
  }

  method RegionOf(comp: seq<Comp>, radj: map<EKey, EdgeAcc>, nbr: map<int, seq<int>>, decay: real, a: int, b: int)
    returns (r: real)
    requires ListsNeighbours(radj, nbr)
    ensures r == Region(comp, radj, decay, a, b)
  {
    hide AdjOf, Times, Bulk, Neighbours, NoNeighbour;
    var num, den := Times(Bulk(comp, b), AdjOf(radj, a, b)), Bulk(comp, b);
    ghost var f, g := Weighted(comp, radj, decay, a), Weight(comp, decay);
    ghost var around: set<int> := {};
    SumZero(around, f);
    SumZero(around, g);
    if b in nbr {
      for i := 0 to |nbr[b]|
        invariant num == RegionNum(comp, radj, decay, a, b, around) && den == RegionDen(comp, decay, b, around)
        invariant forall x :: x in around <==> x in nbr[b][..i] && x != a
      {
        var k := nbr[b][i];
        assert nbr[b][..i + 1] == nbr[b][..i] + [k];
        if k != a {
          assert k !in nbr[b][..i];
          AddTerm(around, k, f);
          AddTerm(around, k, g);
          around := around + {k};
          var w := Times(decay, Bulk(comp, k));
          num, den := num + Times(w, AdjOf(radj, a, k)), den + w;
        }
      }
      assert nbr[b][..|nbr[b]|] == nbr[b];
      SameInts(around, Neighbours(radj, b) - {a});
    } else {
      NoNeighbours(radj, b);
      SameInts(around, Neighbours(radj, b) - {a});
    }
    r := Fraction(num, den);
  }

  lemma NoNeighbours(radj: map<EKey, EdgeAcc>, b: int)
    requires NoNeighbour(radj, b)
    ensures forall x :: x !in Neighbours(radj, b)
  {
  }

  lemma AddTerm(s: set<int>, x: int, f: int -> real)
    requires x !in s
    ensures Sum(s + {x}, f) == Sum(s, f) + f(x)
  {
    SumRemove(s + {x}, f, x);
    assert s + {x} - {x} == s;
  }

  lemma SameInts(s: set<int>, t: set<int>)
    requires forall x :: x in s <==> x in t
    ensures s == t
  {
    assert forall x :: x in s <==> x in t;
  }

  method NeighbourLists(radj: map<EKey, EdgeAcc>) returns (nbr: map<int, seq<int>>)
    requires forall k | k in radj :: k.a < k.b
    ensures ListsNeighbours(radj, nbr)
  {
    hide Lists, NoNeighbour, Neighbours;
    nbr := map[];
    var todo := radj.Keys;
    ghost var seen: map<EKey, EdgeAcc> := map[];
    NothingListed();
    while todo != {}
      invariant todo <= radj.Keys && seen == map k | k in radj.Keys - todo :: radj[k]
      invariant ListsNeighbours(seen, nbr)
    {
      var k :| k in todo;
      var at, bt := ListAt(nbr, k.a) + [k.b], ListAt(nbr, k.b) + [k.a];
      ListedMore(seen, nbr, k, radj[k]);
      nbr := nbr[k.a := at][k.b := bt];
      todo, seen := todo - {k}, seen[k := radj[k]];
    }
    assert seen == radj;
  }

  function ListAt(nbr: map<int, seq<int>>, x: int): seq<int> { if x in nbr then nbr[x] else [] }

  lemma NothingListed()
    ensures ListsNeighbours(map[], map[])
  {
  }

  lemma ListedMore(radj: map<EKey, EdgeAcc>, nbr: map<int, seq<int>>, k: EKey, acc: EdgeAcc)
    requires ListsNeighbours(radj, nbr) && k !in radj && k.a < k.b && forall x | x in radj :: x.a < x.b
    ensures ListsNeighbours(radj[k := acc], nbr[k.a := ListAt(nbr, k.a) + [k.b]][k.b := ListAt(nbr, k.b) + [k.a]])
  {
    hide Lists;
    var radj', nbr' := radj[k := acc], nbr[k.a := ListAt(nbr, k.a) + [k.b]][k.b := ListAt(nbr, k.b) + [k.a]];
    forall b ensures if b in nbr' then Lists(nbr'[b], Neighbours(radj', b)) else NoNeighbour(radj', b) {
      NeighboursMore(radj, k, acc, b);
      ListedAt(radj, nbr, b);
      if b == k.a { ListSnoc(ListAt(nbr, b), Neighbours(radj, b), k.b); }
      else if b == k.b { ListSnoc(ListAt(nbr, b), Neighbours(radj, b), k.a); }
    }
  }

  lemma ListedAt(radj: map<EKey, EdgeAcc>, nbr: map<int, seq<int>>, b: int)
    requires ListsNeighbours(radj, nbr)
    ensures Lists(ListAt(nbr, b), Neighbours(radj, b))
    ensures b !in nbr ==> NoNeighbour(radj, b)
  {
  }

  lemma ListSnoc(xs: seq<int>, s: set<int>, x: int)
    requires Lists(xs, s) && x !in s
    ensures Lists(xs + [x], s + {x})
  {
  }

  lemma NeighboursMore(radj: map<EKey, EdgeAcc>, k: EKey, acc: EdgeAcc, b: int)
    requires k !in radj && k.a < k.b && forall x | x in radj :: x.a < x.b
    ensures b == k.a ==> k.b !in Neighbours(radj, b) && Neighbours(radj[k := acc], b) == Neighbours(radj, b) + {k.b}
    ensures b == k.b ==> k.a !in Neighbours(radj, b) && Neighbours(radj[k := acc], b) == Neighbours(radj, b) + {k.a}
    ensures b != k.a && b != k.b ==> Neighbours(radj[k := acc], b) == Neighbours(radj, b)
  {
    forall x ensures x in Neighbours(radj[k := acc], b) <==>
                     x in Neighbours(radj, b) || (b == k.a && x == k.b) || (b == k.b && x == k.a)
    {
      NeighbourIff(radj[k := acc], b, x);
      NeighbourIff(radj, b, x);
    }
    NeighbourIff(radj, b, k.a);
    NeighbourIff(radj, b, k.b);
    if b != k.a && b != k.b { SameInts(Neighbours(radj[k := acc], b), Neighbours(radj, b)); }
  }

  lemma NeighbourIff(radj: map<EKey, EdgeAcc>, b: int, x: int)
    requires forall k | k in radj :: k.a < k.b
    ensures x in Neighbours(radj, b) <==> Ekey(b, x) in radj && b != x
  {
    assert x in Neighbours(radj, b) <==> (EKey(b, x) in radj || EKey(x, b) in radj);
  }

  // ---------- the gate ----------

  function Bar(comp: seq<Comp>, p: Params, a: int, b: int): real
    requires 0 <= a < |comp| && 0 <= b < |comp|
  {
    ThresholdFor(p.mergeThresh, if comp[a].support < comp[b].support then comp[a].support else comp[b].support)
  }

  /** Enough evidence, an affinity over the bar, and a neighbourhood that agrees from both sides. */
  ghost predicate Gate(comp: seq<Comp>, radj: map<EKey, EdgeAcc>, p: Params, a: int, b: int) {
    && 0 <= a < |comp| && 0 <= b < |comp| && a != b && Ekey(a, b) in radj
    && radj[Ekey(a, b)].conf >= p.minEvidence
    && AdjOf(radj, a, b) >= Bar(comp, p, a, b)
    && Region(comp, radj, p.disDecay, a, b) >= Bar(comp, p, a, b)
    && Region(comp, radj, p.disDecay, b, a) >= Bar(comp, p, a, b)
  }

  lemma GateSymmetric(comp: seq<Comp>, radj: map<EKey, EdgeAcc>, p: Params, a: int, b: int)
    ensures Gate(comp, radj, p, a, b) <==> Gate(comp, radj, p, b, a)
  {
    hide Region, ThresholdFor;
  }

  method GateOf(comp: seq<Comp>, radj: map<EKey, EdgeAcc>, nbr: map<int, seq<int>>, p: Params, a: int, b: int)
    returns (open: bool)
    requires 0 <= a < |comp| && 0 <= b < |comp| && a != b && ListsNeighbours(radj, nbr)
    ensures open == Gate(comp, radj, p, a, b)
  {
    hide Region, ListsNeighbours, ThresholdFor;
    if Ekey(a, b) !in radj || radj[Ekey(a, b)].conf < p.minEvidence { return false; }
    var bar := Bar(comp, p, a, b);
    if AdjOf(radj, a, b) < bar { return false; }
    var ab := RegionOf(comp, radj, nbr, p.disDecay, a, b);
    if ab < bar { return false; }
    var ba := RegionOf(comp, radj, nbr, p.disDecay, b, a);
    open := ba >= bar;
  }

  /** The touched edge k passes the gate between its current roots. */
  ghost predicate Passes(root: seq<int>, comp: seq<Comp>, radj: map<EKey, EdgeAcc>, p: Params, k: EKey)
    requires 0 <= k.a < |root| && 0 <= k.b < |root|
  {
    Gate(comp, radj, p, root[k.a], root[k.b])
  }

  ghost predicate KeysIn(ks: seq<EKey>, n: nat) { forall k | k in ks :: 0 <= k.a < n && 0 <= k.b < n }

  ghost predicate HasPair(pairs: seq<EKey>, a: int, b: int) { EKey(a, b) in pairs || EKey(b, a) in pairs }

  /** The chosen merges are the root pairs of the touched edges that pass the gate. */
  ghost predicate Chosen(root: seq<int>, comp: seq<Comp>, radj: map<EKey, EdgeAcc>, p: Params, touched: seq<EKey>,
                         merges: seq<EKey>)
    requires KeysIn(touched, |root|)
  {
    && (forall m | m in merges :: FromTouched(root, comp, radj, p, touched, m))
    && (forall k | k in touched && Passes(root, comp, radj, p, k) :: HasPair(merges, root[k.a], root[k.b]))
  }

  ghost predicate FromTouched(root: seq<int>, comp: seq<Comp>, radj: map<EKey, EdgeAcc>, p: Params, touched: seq<EKey>,
                              m: EKey)
    requires KeysIn(touched, |root|)
  {
    exists k :: k in touched && m == EKey(root[k.a], root[k.b]) && Passes(root, comp, radj, p, k)
  }

  /** The root pairs of `seen` have been judged. */
  ghost predicate Judged(comp: seq<Comp>, radj: map<EKey, EdgeAcc>, p: Params, seen: set<EKey>, merges: seq<EKey>) {
    forall k | k in seen && Gate(comp, radj, p, k.a, k.b) :: HasPair(merges, k.a, k.b)
  }

  lemma JudgedPair(comp: seq<Comp>, radj: map<EKey, EdgeAcc>, p: Params, seen: set<EKey>, merges: seq<EKey>, a: int, b: int)
    requires Judged(comp, radj, p, seen, merges) && Ekey(a, b) in seen && Gate(comp, radj, p, a, b)
    ensures HasPair(merges, a, b)
  {
    hide Gate;
    GateSymmetric(comp, radj, p, a, b);
  }

  lemma JudgedMore(comp: seq<Comp>, radj: map<EKey, EdgeAcc>, p: Params, seen: set<EKey>, merges: seq<EKey>, a: int, b: int,
                   merges': seq<EKey>)
    requires Judged(comp, radj, p, seen, merges)
    requires merges' == if Gate(comp, radj, p, a, b) then merges + [EKey(a, b)] else merges
    ensures Judged(comp, radj, p, seen + {Ekey(a, b)}, merges')
  {
    hide Gate;
    GateSymmetric(comp, radj, p, a, b);
    assert Gate(comp, radj, p, a, b) ==> EKey(a, b) in merges';
    forall k | k in seen && Gate(comp, radj, p, k.a, k.b) ensures HasPair(merges', k.a, k.b) {
      assert HasPair(merges, k.a, k.b);
    }
  }

  lemma NothingChosen(root: seq<int>, comp: seq<Comp>, radj: map<EKey, EdgeAcc>, p: Params)
    ensures Chosen(root, comp, radj, p, [], []) && Judged(comp, radj, p, {}, [])
  {
  }

  lemma GateDistinct(comp: seq<Comp>, radj: map<EKey, EdgeAcc>, p: Params, a: int, b: int)
    requires Gate(comp, radj, p, a, b)
    ensures a != b
  {
  }

  ghost predicate SamePairs(ps: seq<EKey>, qs: seq<EKey>) {
    (forall m | m in ps :: HasPair(qs, m.a, m.b)) && (forall m | m in qs :: HasPair(ps, m.a, m.b))
  }

  /** Whatever the order of the touched edges, the same pairs are merged. */
  lemma ChosenSame(root: seq<int>, comp: seq<Comp>, radj: map<EKey, EdgeAcc>, p: Params, touched: seq<EKey>,
                   touched': seq<EKey>, merges: seq<EKey>, merges': seq<EKey>)
    requires KeysIn(touched, |root|) && KeysIn(touched', |root|) && forall k :: k in touched <==> k in touched'
    requires Chosen(root, comp, radj, p, touched, merges) && Chosen(root, comp, radj, p, touched', merges')
    ensures SamePairs(merges, merges')
  {
    hide Passes;
    forall m | m in merges ensures HasPair(merges', m.a, m.b) { assert FromTouched(root, comp, radj, p, touched, m); }
    forall m | m in merges' ensures HasPair(merges, m.a, m.b) { assert FromTouched(root, comp, radj, p, touched', m); }
  }

  lemma ChosenSnoc(root: seq<int>, comp: seq<Comp>, radj: map<EKey, EdgeAcc>, p: Params, touched: seq<EKey>, k: EKey,
                   merges: seq<EKey>, merges': seq<EKey>)
    requires KeysIn(touched, |root|) && 0 <= k.a < |root| && 0 <= k.b < |root|
    requires Chosen(root, comp, radj, p, touched, merges)
    requires if Passes(root, comp, radj, p, k)
             then merges' == merges + [EKey(root[k.a], root[k.b])] || (merges' == merges && HasPair(merges, root[k.a], root[k.b]))
             else merges' == merges
    ensures KeysIn(touched + [k], |root|) && Chosen(root, comp, radj, p, touched + [k], merges')
  {
    hide Passes;
    var all := touched + [k];
    assert k in all;
    forall m | m in merges' ensures FromTouched(root, comp, radj, p, all, m) {
      if m in merges {
        assert FromTouched(root, comp, radj, p, touched, m);
        var x :| x in touched && m == EKey(root[x.a], root[x.b]) && Passes(root, comp, radj, p, x);
        assert x in all;
      }
    }
    forall x | x in all && Passes(root, comp, radj, p, x) ensures HasPair(merges', root[x.a], root[x.b]) {
      assert x in touched ==> HasPair(merges, root[x.a], root[x.b]);
    }
  }

  // ---------- least coarsening ----------

  ghost predicate Joins(g: int -> int, pairs: seq<EKey>) { forall m | m in pairs :: g(m.a) == g(m.b) }

  ghost predicate CoarserThroughout(root: seq<int>, pairs: seq<EKey>, root': seq<int>) {
    forall g: int -> int | Coarser(g, root) && Joins(g, pairs) :: Coarser(g, root')
  }

  /** root' joins the ids of every pair and nothing that root and the pairs do not force together. */
  ghost predicate LeastMerge(root: seq<int>, pairs: seq<EKey>, root': seq<int>) {
    && Roots(root) && Roots(root') && |root'| == |root|
    && Coarsened(root, root')
    && Joins(ByRoot(root'), pairs)
    && CoarserThroughout(root, pairs, root')
  }

  /** Two results of the same merges, applied in any order, group the ids alike. */
  lemma LeastMergeUnique(root: seq<int>, pairs: seq<EKey>, pairs': seq<EKey>, r1: seq<int>, r2: seq<int>, x: int, y: int)
    requires LeastMerge(root, pairs, r1) && LeastMerge(root, pairs', r2)
    requires SamePairs(pairs, pairs')
    requires 0 <= x < |root| && 0 <= y < |root|
    ensures r1[x] == r1[y] <==> r2[x] == r2[y]
  {
    LeastMergeFiner(root, pairs, pairs', r1, r2, x, y);
    LeastMergeFiner(root, pairs', pairs, r2, r1, x, y);
  }

  lemma LeastMergeFiner(root: seq<int>, pairs: seq<EKey>, pairs': seq<EKey>, r1: seq<int>, r2: seq<int>, x: int, y: int)
    requires LeastMerge(root, pairs, r1) && LeastMerge(root, pairs', r2)
    requires SamePairs(pairs, pairs')
    requires 0 <= x < |root| && 0 <= y < |root|
    ensures r1[x] == r1[y] ==> r2[x] == r2[y]
  {
    var g := ByRoot(r2);
    CoarsenedGroups(root, r2);
    forall m | m in pairs ensures g(m.a) == g(m.b) { assert HasPair(pairs', m.a, m.b); }
    assert Joins(g, pairs);
    assert Coarser(g, r1);
    assert g(x) == g(r1[x]) && g(y) == g(r1[y]);
  }

  lemma CoarsenedGroups(root: seq<int>, root': seq<int>)
    requires Roots(root) && |root'| == |root| && Coarsened(root, root')
    ensures Coarser(ByRoot(root'), root)
  {
    forall x | 0 <= x < |root| ensures root'[x] == root'[root[x]] { assert root[x] == root[root[x]]; }
  }

  lemma LeastNothing(root: seq<int>)
    requires Roots(root)
    ensures LeastMerge(root, [], root)
  {
  }

  /** One more merge: the winner and loser are the roots of the pair's ends, or nothing to do. */
  lemma LeastMore(root: seq<int>, pairs: seq<EKey>, root1: seq<int>, m: EKey, root2: seq<int>, win: int, lose: int)
    requires LeastMerge(root, pairs, root1) && 0 <= m.a < |root| && 0 <= m.b < |root|
    requires if root1[m.a] == root1[m.b] then root2 == root1
             else (win == root1[m.a] && lose == root1[m.b]) || (win == root1[m.b] && lose == root1[m.a])
    requires root1[m.a] != root1[m.b] ==> root2 == Redirect(root1, lose, win)
    ensures LeastMerge(root, pairs + [m], root2)
  {
    hide CoarserThroughout;
    LeastMoreThroughout(root, pairs, root1, m, root2, win, lose);
    forall x | x in pairs + [m] ensures ByRoot(root2)(x.a) == ByRoot(root2)(x.b) {
      if x in pairs { assert ByRoot(root1)(x.a) == ByRoot(root1)(x.b); }
    }
  }

  lemma LeastMoreThroughout(root: seq<int>, pairs: seq<EKey>, root1: seq<int>, m: EKey, root2: seq<int>, win: int, lose: int)
    requires LeastMerge(root, pairs, root1) && 0 <= m.a < |root| && 0 <= m.b < |root|
    requires if root1[m.a] == root1[m.b] then root2 == root1
             else (win == root1[m.a] && lose == root1[m.b]) || (win == root1[m.b] && lose == root1[m.a])
    requires root1[m.a] != root1[m.b] ==> root2 == Redirect(root1, lose, win)
    ensures CoarserThroughout(root, pairs + [m], root2)
  {
    forall g: int -> int | Coarser(g, root) && Joins(g, pairs + [m]) ensures Coarser(g, root2) {
      forall x | x in pairs ensures g(x.a) == g(x.b) { assert x in pairs + [m]; }
      assert m in pairs + [m];
      assert Joins(g, pairs) && Coarser(g, root1) && g(m.a) == g(m.b);
      assert g(m.a) == g(root1[m.a]) && g(m.b) == g(root1[m.b]);
      forall x | 0 <= x < |root2| ensures g(x) == g(root2[x]) { assert g(x) == g(root1[x]); }
    }
  }

  // ---------- merges follow edges ----------

  ghost predicate Respects(g: int -> int, edges: map<EKey, EdgeAcc>) { forall k | k in edges :: g(k.a) == g(k.b) }

  /** Ids are grouped only along chains of edges. */
  ghost predicate AlongEdges(root: seq<int>, edges: map<EKey, EdgeAcc>, root': seq<int>) {
    forall g: int -> int | Coarser(g, root) && Respects(g, edges) :: Coarser(g, root')
  }

  lemma HasEdgeRespects(root: seq<int>, edges: map<EKey, EdgeAcc>, a: int, b: int, g: int -> int)
    requires HasEdge(root, edges, a, b) && Coarser(g, root) && Respects(g, edges)
    ensures g(a) == g(b)
  {
    var k :| k in edges && ResolvesTo(root, k, a, b);
    assert g(k.a) == g(root[k.a]) && g(k.b) == g(root[k.b]);
  }

  lemma LeastAlongEdges(root: seq<int>, edges: map<EKey, EdgeAcc>, pairs: seq<EKey>, root': seq<int>)
    requires LeastMerge(root, pairs, root') && forall m | m in pairs :: HasEdge(root, edges, m.a, m.b)
    ensures AlongEdges(root, edges, root')
  {
    forall g: int -> int | Coarser(g, root) && Respects(g, edges) ensures Coarser(g, root') {
      forall m | m in pairs ensures g(m.a) == g(m.b) { HasEdgeRespects(root, edges, m.a, m.b, g); }
    }
  }

  lemma AlongMore(root: seq<int>, edges: map<EKey, EdgeAcc>, root1: seq<int>, k: EKey, win: int, lose: int)
    requires AlongEdges(root, edges, root1) && |root1| == |root| && Roots(root1)
    requires k in edges && 0 <= k.a < |root| && 0 <= k.b < |root|
    requires (win == root1[k.a] && lose == root1[k.b]) || (win == root1[k.b] && lose == root1[k.a])
    ensures AlongEdges(root, edges, Redirect(root1, lose, win))
  {
    var root2 := Redirect(root1, lose, win);
    forall g: int -> int | Coarser(g, root) && Respects(g, edges) ensures Coarser(g, root2) {
      assert Coarser(g, root1);
      assert g(k.a) == g(root1[k.a]) && g(k.b) == g(root1[k.b]);
      forall z | 0 <= z < |root2| ensures g(z) == g(root2[z]) { assert g(z) == g(root1[z]); }
    }
  }

  // ---------- purity of merges along edges ----------

  ghost function TheClass(c: Comp): int { if OneClass(c) then var x :| x >= 0 && c.cls.Keys == {x}; x else -1 }

  lemma TheClassOf(c: Comp, d: Comp)
    requires OneClass(c) && OneClass(d)
    ensures TheClass(c) in c.cls && (forall x | x in c.cls :: x == TheClass(c))
    ensures c.cls.Keys == d.cls.Keys <==> TheClass(c) == TheClass(d)
  {
    var x :| x >= 0 && c.cls.Keys == {x} && TheClass(c) == x;
    var y :| y >= 0 && d.cls.Keys == {y} && TheClass(d) == y;
    assert x in c.cls.Keys && y in d.cls.Keys;
  }

  ghost function ClassLabel(s: Store): int -> int {
    x => if 0 <= x < |s.root| && 0 <= s.root[x] < |s.comp| then TheClass(s.comp[s.root[x]]) else x
  }

  lemma LabelRespected(s: Store)
    requires Pure(s)
    ensures Coarser(ClassLabel(s), s.root) && Respects(ClassLabel(s), s.edges)
  {
    hide OneClass, TheClass;
    var g := ClassLabel(s);
    forall k | k in s.edges ensures g(k.a) == g(k.b) {
      assert SameClass(s, k) && IsRoot(s.root, s.root[k.a]) && IsRoot(s.root, s.root[k.b]);
      TheClassOf(s.comp[s.root[k.a]], s.comp[s.root[k.b]]);
    }
  }

  /** Components merged only along edges of a pure store leave it pure. */
  lemma PureAlong(s: Store, s': Store)
    requires Pure(s) && Gathered(s, s') && AlongEdges(s.root, s.edges, s'.root)
    ensures Pure(s')
  {
    hide GatheredInto, SameSums, TheClass, OneClass, ClassLabel;
    var g := ClassLabel(s);
    LabelRespected(s);
    assert Coarser(g, s'.root);
    forall r | IsRoot(s'.root, r) ensures OneClass(s'.comp[r]) && s'.comp[r].cls.Keys == s.comp[r].cls.Keys {
      assert GatheredInto(s, s', r);
      KeptClass(s, s', r);
    }
    forall k | k in s'.edges ensures SameClass(s', k) {
      assert SameClass(s, k);
      KeptRoot(s, s', k.a);
      KeptRoot(s, s', k.b);
      assert IsRoot(s'.root, s'.root[k.a]) && IsRoot(s'.root, s'.root[k.b]);
    }
  }

  lemma KeptClass(s: Store, s': Store, r: int)
    requires Pure(s) && Gathered(s, s') && Coarser(ClassLabel(s), s'.root) && IsRoot(s'.root, r) && GatheredInto(s, s', r)
    ensures OneClass(s'.comp[r]) && s'.comp[r].cls.Keys == s.comp[r].cls.Keys
  {
    hide TheClass, OneClass, SameSums, SameClass;
    var g := ClassLabel(s);
    forall c | c in s'.comp[r].cls.Keys ensures c in s.comp[r].cls.Keys {
      assert GathersClass(s, s'.root, c, r);
      var x :| IsRoot(s.root, x) && s'.root[x] == r && c in s.comp[x].cls;
      assert g(x) == g(s'.root[x]);
      TheClassOf(s.comp[x], s.comp[r]);
    }
    forall c | c in s.comp[r].cls.Keys ensures c in s'.comp[r].cls.Keys {
      assert IsRoot(s.root, r) && s'.root[r] == r;
      assert GathersClass(s, s'.root, c, r);
    }
    SameInts(s'.comp[r].cls.Keys, s.comp[r].cls.Keys);
    SameOneClass(s.comp[r], s'.comp[r]);
  }

  lemma SameOneClass(c: Comp, d: Comp)
    requires OneClass(c) && d.cls.Keys == c.cls.Keys
    ensures OneClass(d)
  {
    var x :| x >= 0 && c.cls.Keys == {x};
    assert d.cls.Keys == {x};
  }

  /** The component an id ends up in has the class of the one it was in. */
  lemma KeptRoot(s: Store, s': Store, x: int)
    requires Pure(s) && Gathered(s, s') && Coarser(ClassLabel(s), s'.root) && 0 <= x < |s.root|
    ensures 0 <= s'.root[x] < |s.comp| && s.comp[s'.root[x]].cls.Keys == s.comp[s.root[x]].cls.Keys
  {
    hide TheClass, OneClass, SameSums, SameClass;
    var g, r := ClassLabel(s), s'.root[x];
    assert IsRoot(s'.root, r);
    assert GatheredInto(s, s', r);
    assert g(x) == g(r) && IsRoot(s.root, s.root[x]) && IsRoot(s.root, r);
    TheClassOf(s.comp[s.root[x]], s.comp[r]);
  }

  lemma SnapshotFrom(root: seq<int>, from: map<EKey, EdgeAcc>, to: map<EKey, EdgeAcc>)
    requires Collapsed(root, from, to)
    ensures SnapshotOk(|root|, to) && forall k | k in to :: k.a < k.b
  {
    forall k | k in to ensures EdgeOk(root, k, to[k]) {}
  }

  /** Chosen merges link distinct roots that share an edge. */
  lemma ChosenLinked(root: seq<int>, comp: seq<Comp>, edges: map<EKey, EdgeAcc>, radj: map<EKey, EdgeAcc>, p: Params,
                     touched: seq<EKey>, merges: seq<EKey>)
    requires Roots(root) && KeysIn(touched, |root|) && Chosen(root, comp, radj, p, touched, merges)
    requires Collapsed(root, edges, radj)
    ensures forall m | m in merges :: IsRoot(root, m.a) && IsRoot(root, m.b) && m.a != m.b && HasEdge(root, edges, m.a, m.b)
  {
    hide Region, ThresholdFor, EdgeTotal;
    forall m | m in merges
      ensures IsRoot(root, m.a) && IsRoot(root, m.b) && m.a != m.b && HasEdge(root, edges, m.a, m.b)
    {
      assert FromTouched(root, comp, radj, p, touched, m);
      var e := Ekey(m.a, m.b);
      assert HasEdge(root, edges, e.a, e.b);
      var k :| k in edges && ResolvesTo(root, k, e.a, e.b);
      assert ResolvesTo(root, k, m.a, m.b);
    }
  }

  lemma NoneChosen(root: seq<int>, comp: seq<Comp>, radj: map<EKey, EdgeAcc>, p: Params, touched: seq<EKey>)
    requires KeysIn(touched, |root|) && radj == map[]
    ensures Chosen(root, comp, radj, p, touched, [])
  {
  }

  /** The components were gathered by exactly the given merges. */
  ghost predicate MergedBy(s0: Store, s: Store, pairs: seq<EKey>) {
    Gathered(s0, s) && LeastMerge(s0.root, pairs, s.root)
  }

  lemma MergedByNothing(s: Store)
    requires |s.comp| == |s.root| && Roots(s.root)
    ensures MergedBy(s, s, [])
  {
    hide Gathered, LeastMerge;
    GatheredSelf(s);
    LeastNothing(s.root);
  }

  lemma MergedByMore(s0: Store, s: Store, s': Store, pairs: seq<EKey>, m: EKey, win: int)
    requires MergedBy(s0, s, pairs) && 0 <= m.a < |s.root| && 0 <= m.b < |s.root| && |s.root| == |s.comp|
    requires Unites(s, s', s.root[m.a], s.root[m.b], win)
    ensures MergedBy(s0, s', pairs + [m]) && |s'.root| == |s.root|
  {
    hide Gathered, LeastMerge, Folded;
    var x, y := s.root[m.a], s.root[m.b];
    GatheredShape(s0, s);
    var lose := if win == x then y else x;
    if x != y { GatheredMerge(s0, s, win, lose); }
    LeastMore(s0.root, pairs, s.root, m, s'.root, win, lose);
  }

  /** The first merge already changes the grouping. */
  lemma MergedByChanges(s0: Store, s: Store, pairs: seq<EKey>)
    requires MergedBy(s0, s, pairs) && pairs != [] && IsRoot(s0.root, pairs[0].a) && IsRoot(s0.root, pairs[0].b)
    requires pairs[0].a != pairs[0].b
    ensures s.root != s0.root
  {
    hide Gathered;
    GatheredShape(s0, s);
    var g := ByRoot(s.root);
    assert g(pairs[0].a) == g(pairs[0].b);
  }

  lemma MergedAlong(s0: Store, s: Store, pairs: seq<EKey>)
    requires MergedBy(s0, s, pairs) && forall m | m in pairs :: HasEdge(s0.root, s0.edges, m.a, m.b)
    ensures Gathered(s0, s) && AlongEdges(s0.root, s0.edges, s.root) && s.edges == s0.edges
  {
    hide HasEdge, LeastMerge;
    LeastAlongEdges(s0.root, s0.edges, pairs, s.root);
  }

  lemma PairsIn(root: seq<int>, pairs: seq<EKey>, edges: map<EKey, EdgeAcc>)
    requires forall m | m in pairs :: IsRoot(root, m.a) && IsRoot(root, m.b) && m.a != m.b && HasEdge(root, edges, m.a, m.b)
    ensures KeysIn(pairs, |root|)
  {
  }
}
