/** Absorbing small components into their best neighbours, on store values. */
module ObjectSmall {
  import opened Voxels
  import opened ObjectStore
  import opened ObjectSteps
  import opened ObjectGather
  import opened ObjectMerge

  datatype Link = Link(to: int, adj: real)

  // ---------- best neighbours ----------

  /** No neighbour of a has a higher affinity than the link. */
  ghost predicate BestLink(radj: map<EKey, EdgeAcc>, a: int, link: Link) {
    && a != link.to && Ekey(a, link.to) in radj && link.adj == AdjOf(radj, a, link.to)
    && forall k | k in radj && (k.a == a || k.b == a) :: AdjOf(radj, k.a, k.b) <= link.adj
  }

  ghost predicate BestLinks(radj: map<EKey, EdgeAcc>, best: map<int, Link>) {
    && (forall a | a in best :: BestLink(radj, a, best[a]))
    && (forall k | k in radj :: k.a in best && k.b in best)
  }

  function Improve(best: map<int, Link>, a: int, link: Link): map<int, Link> {
    if a !in best || link.adj > best[a].adj then best[a := link] else best
  }

  /** Adding key k leaves the other affinities alone. */
  lemma AdjElsewhere(radj: map<EKey, EdgeAcc>, k: EKey, acc: EdgeAcc, a: int, b: int)
    requires k.a < k.b && Ekey(a, b) != k
    ensures AdjOf(radj[k := acc], a, b) == AdjOf(radj, a, b)
  {
  }

  lemma BestLinkKept(radj: map<EKey, EdgeAcc>, k: EKey, acc: EdgeAcc, a: int, link: Link)
    requires BestLink(radj, a, link) && k !in radj && k.a < k.b && forall x | x in radj :: x.a < x.b
    requires (k.a == a || k.b == a) ==> AdjOf(radj[k := acc], k.a, k.b) <= link.adj
    ensures BestLink(radj[k := acc], a, link)
  {
    hide AdjOf;
    AdjElsewhere(radj, k, acc, a, link.to);
    forall x | x in radj ensures AdjOf(radj[k := acc], x.a, x.b) == AdjOf(radj, x.a, x.b) {
      AdjElsewhere(radj, k, acc, x.a, x.b);
    }
  }

  lemma LinkAt(radj: map<EKey, EdgeAcc>, best: map<int, Link>, a: int)
    requires BestLinks(radj, best)
    ensures if a in best then BestLink(radj, a, best[a]) else NoNeighbour(radj, a)
  {
    hide BestLink;
  }

  lemma BestLinkNew(radj: map<EKey, EdgeAcc>, best: map<int, Link>, k: EKey, acc: EdgeAcc, a: int, to: int)
    requires BestLinks(radj, best) && k !in radj && k.a < k.b && forall x | x in radj :: x.a < x.b
    requires a != to && Ekey(a, to) == k
    requires a in best ==> best[a].adj <= AdjOf(radj[k := acc], k.a, k.b)
    ensures BestLink(radj[k := acc], a, Link(to, AdjOf(radj[k := acc], k.a, k.b)))
  {
    hide AdjOf, BestLinks;
    var v := AdjOf(radj[k := acc], k.a, k.b);
    AdjEither(radj[k := acc], a, to);
    LinkAt(radj, best, a);
    forall x | x in radj && (x.a == a || x.b == a) ensures AdjOf(radj[k := acc], x.a, x.b) <= v {
      AdjElsewhere(radj, k, acc, x.a, x.b);
    }
  }

  lemma AdjEither(radj: map<EKey, EdgeAcc>, a: int, b: int)
    ensures AdjOf(radj, a, b) == AdjOf(radj, Ekey(a, b).a, Ekey(a, b).b)
  {
  }

  lemma BestLinksMore(radj: map<EKey, EdgeAcc>, best: map<int, Link>, k: EKey, acc: EdgeAcc, best': map<int, Link>)
    requires BestLinks(radj, best) && k !in radj && k.a < k.b && forall x | x in radj :: x.a < x.b
    requires var v := AdjOf(radj[k := acc], k.a, k.b);
             best' == Improve(Improve(best, k.a, Link(k.b, v)), k.b, Link(k.a, v))
    ensures BestLinks(radj[k := acc], best')
  {
    hide BestLink, AdjOf;
    var v := AdjOf(radj[k := acc], k.a, k.b);
    forall a | a in best' ensures BestLink(radj[k := acc], a, best'[a]) {
      if a in best && best'[a] == best[a] && (k.a == a || k.b == a ==> v <= best[a].adj) {
        BestLinkKept(radj, k, acc, a, best[a]);
      } else {
        BestLinkNew(radj, best, k, acc, a, if a == k.a then k.b else k.a);
      }
    }
  }

  /** For every component with an edge, a neighbour of highest affinity. */
  method BestNeighbours(radj: map<EKey, EdgeAcc>) returns (best: map<int, Link>)
    requires forall k | k in radj :: k.a < k.b
    ensures BestLinks(radj, best)
  {
    hide BestLink, AdjOf;
    best := map[];
    var todo := radj.Keys;
    ghost var seen: map<EKey, EdgeAcc> := map[];
    while todo != {}
      invariant todo <= radj.Keys && seen == (map k | k in radj.Keys - todo :: radj[k]) && BestLinks(seen, best)
    {
      var k :| k in todo;
      ghost var best0 := best;
      var v := AdjOf(radj, k.a, k.b);
      AdjOfOne(radj, seen[k := radj[k]], k);
      best := Improve(best, k.a, Link(k.b, v));
      best := Improve(best, k.b, Link(k.a, v));
      BestLinksMore(seen, best0, k, radj[k], best);
      todo, seen := todo - {k}, seen[k := radj[k]];
    }
    assert seen == radj;
  }

  lemma AdjOfOne(radj: map<EKey, EdgeAcc>, part: map<EKey, EdgeAcc>, k: EKey)
    requires k in radj && k in part && part[k] == radj[k] && k.a < k.b
    ensures AdjOf(part, k.a, k.b) == AdjOf(radj, k.a, k.b)
  {
  }

  // ---------- counting roots ----------

  ghost function RootSet(root: seq<int>): set<int> { set r | 0 <= r < |root| && root[r] == r }

  ghost function NumRoots(root: seq<int>): nat { |RootSet(root)| }

  lemma OneRootLess(root: seq<int>, win: int, lose: int)
    requires Roots(root) && IsRoot(root, win) && IsRoot(root, lose) && win != lose
    ensures NumRoots(Redirect(root, lose, win)) == NumRoots(root) - 1
  {
    var root' := Redirect(root, lose, win);
    var s, t := RootSet(root'), RootSet(root) - {lose};
    forall r ensures r in s <==> r in t {}
    SameInts(s, t);
  }

  // ---------- one absorption ----------

  /** No edge links r to another root. */
  ghost predicate Isolated(root: seq<int>, edges: map<EKey, EdgeAcc>, r: int) {
    forall b | IsRoot(root, b) && b != r :: !HasEdge(root, edges, r, b)
  }

  /** A root with an edge to another root has a best neighbour. */
  lemma IsolatedWithoutLink(root: seq<int>, edges: map<EKey, EdgeAcc>, radj: map<EKey, EdgeAcc>, best: map<int, Link>, r: int)
    requires Roots(root) && Collapsed(root, edges, radj) && BestLinks(radj, best) && r !in best && IsRoot(root, r)
    requires EdgesOk(root, edges)
    ensures Isolated(root, edges, r)
  {
    hide Collapsed, BestLinks, EdgesOk;
    forall b, k | IsRoot(root, b) && b != r && k in edges ensures !ResolvesTo(root, k, r, b) {
      NoLinkAt(root, edges, radj, best, r, k, b);
    }
  }

  lemma NoLinkAt(root: seq<int>, edges: map<EKey, EdgeAcc>, radj: map<EKey, EdgeAcc>, best: map<int, Link>, r: int, k: EKey, b: int)
    requires Collapsed(root, edges, radj) && BestLinks(radj, best) && r !in best
    requires EdgesOk(root, edges) && k in edges && b != r
    ensures !ResolvesTo(root, k, r, b)
  {
    hide EdgeTotal, BestLink;
    assert EdgeOk(root, k, edges[k]);
    var x, y := root[k.a], root[k.b];
    if x != y { assert Ekey(x, y) in radj; }
  }

  /** The link of a root stands for an edge between it and another root. */
  lemma LinkHasEdge(root: seq<int>, edges: map<EKey, EdgeAcc>, radj: map<EKey, EdgeAcc>, best: map<int, Link>, r: int)
    requires Collapsed(root, edges, radj) && BestLinks(radj, best) && r in best
    ensures IsRoot(root, r) && IsRoot(root, best[r].to) && r != best[r].to
    ensures HasEdge(root, edges, r, best[r].to)
  {
    hide Collapsed, AdjOf, BestLinks, HasEdge;
    LinkAt(radj, best, r);
    var e := Ekey(r, best[r].to);
    SnapshotKey(root, edges, radj, e);
    EitherEnd(root, edges, r, best[r].to);
  }

  lemma EitherEnd(root: seq<int>, edges: map<EKey, EdgeAcc>, a: int, b: int)
    requires HasEdge(root, edges, Ekey(a, b).a, Ekey(a, b).b)
    ensures HasEdge(root, edges, a, b)
  {
    var k :| k in edges && ResolvesTo(root, k, Ekey(a, b).a, Ekey(a, b).b);
    assert ResolvesTo(root, k, a, b);
  }

  lemma SnapshotKey(root: seq<int>, edges: map<EKey, EdgeAcc>, radj: map<EKey, EdgeAcc>, e: EKey)
    requires Collapsed(root, edges, radj) && e in radj
    ensures IsRoot(root, e.a) && IsRoot(root, e.b) && HasEdge(root, edges, e.a, e.b)
  {
  }

  /** Components gathered along edges, the edge store and the rest untouched. */
  ghost predicate Absorbed(s0: Store, s: Store) {
    Gathered(s0, s) && AlongEdges(s0.root, s0.edges, s.root)
  }

  lemma AbsorbedSelf(s: Store)
    requires |s.comp| == |s.root| && Roots(s.root)
    ensures Absorbed(s, s)
  {
    hide Gathered;
    GatheredSelf(s);
  }

  lemma AbsorbedShape(s0: Store, s: Store)
    requires Absorbed(s0, s)
    ensures |s.root| == |s0.root| == |s.comp| == |s0.comp| && s.edges == s0.edges && Coarsened(s0.root, s.root)
    ensures Roots(s.root) && Roots(s0.root)
  {
  }

  lemma CoarsenedMore(root0: seq<int>, root: seq<int>, win: int, lose: int)
    requires Coarsened(root0, root)
    ensures Coarsened(root0, Redirect(root, lose, win))
  {
  }

  /** id drained together with the component its neighbour is in now. */
  lemma AbsorbedMore(s0: Store, sweep: seq<int>, s: Store, s': Store, id: int, to: int, win: int)
    requires Absorbed(s0, s) && |s.root| == |sweep| && Roots(sweep) && Coarsened(sweep, s.root)
    requires IsRoot(s.root, id) && 0 <= to < |s.root| && s.root[to] != id && HasEdge(sweep, s0.edges, id, to)
    requires IsRoot(sweep, id) && IsRoot(sweep, to)
    requires Unites(s, s', id, s.root[to], win)
    ensures Absorbed(s0, s') && Coarsened(sweep, s'.root) && NumRoots(s'.root) < NumRoots(s.root)
    ensures |s'.root| == |s.root|
  {
    hide Gathered, AlongEdges, Folded, NumRoots;
    AbsorbedShape(s0, s);
    var lose := if win == id then s.root[to] else id;
    GatheredMerge(s0, s, win, lose);
    var k :| k in s0.edges && ResolvesTo(sweep, k, id, to);
    assert sweep[k.a] == sweep[sweep[k.a]] && sweep[k.b] == sweep[sweep[k.b]];
    AlongMore(s0.root, s0.edges, s.root, k, win, lose);
    CoarsenedMore(sweep, s.root, win, lose);
    OneRootLess(s.root, win, lose);
  }

  /** Every voxel held before is held after, and none is new. */
  lemma FootprintKept(s: Store, s': Store, k: VKey)
    requires Gathered(s, s')
    ensures Held(s, k) <==> Held(s', k)
  {
    hide SameSums, Coarser;
    if Held(s, k) {
      var x :| IsRoot(s.root, x) && x < |s.comp| && k in s.comp[x].vox;
      var r := s'.root[x];
      assert IsRoot(s'.root, r) && GatheredInto(s, s', r);
      assert Gathers(s, s'.root, k, r);
    }
    if Held(s', k) {
      var r :| IsRoot(s'.root, r) && r < |s'.comp| && k in s'.comp[r].vox;
      assert GatheredInto(s, s', r);
      assert Gathers(s, s'.root, k, r);
    }
  }

  ghost predicate Held(s: Store, k: VKey) { exists r :: IsRoot(s.root, r) && r < |s.comp| && k in s.comp[r].vox }

  lemma AbsorbedEdges(s0: Store, s: Store)
    requires Absorbed(s0, s)
    ensures s.edges == s0.edges
  {
  }

  lemma AbsorbedParts(s0: Store, s: Store)
    requires Absorbed(s0, s)
    ensures Gathered(s0, s) && AlongEdges(s0.root, s0.edges, s.root)
    ensures Pure(s0) ==> Pure(s)
  {
    hide Gathered, AlongEdges, Pure;
    if Pure(s0) { PureAlong(s0, s); }
  }

  lemma CoarsenedSelf(root: seq<int>)
    ensures Coarsened(root, root)
  {
  }
}
