/** The persistent component layer of object consolidation, as values: component footprints,
    the two ownership indexes, the evidence graph with the log of all deposits, and the
    invariant that ties them together. */
module ObjectStore {
  import opened SetSum
  import opened Voxels

  /** A component's footprint (voxel to representative map index), class votes, instance ids
      and support. */
  datatype Comp = Comp(vox: map<VKey, int>, cls: map<int, int>, ids: set<int>, support: int)

  datatype EKey = EKey(a: int, b: int)

  /** Running sums of similarity times confidence, and of confidence. */
  datatype EdgeAcc = EdgeAcc(simConf: real, conf: real)

  /** One deposit of evidence between two component ids. */
  datatype Deposit = Deposit(key: EKey, acc: EdgeAcc)

  /** root: the union-find root of every id.  owner: per map index, the id that claimed it, or -1
      (exclusive mode).  boxes: per voxel, the ids that claimed it (overlap mode).
      log and homed are history: all deposits ever made, proposals given a home. */
  datatype Store = Store(root: seq<int>, comp: seq<Comp>, owner: seq<int>, boxes: map<VKey, seq<int>>,
                         edges: map<EKey, EdgeAcc>, log: seq<Deposit>, homed: nat)

  const EMPTY: Comp := Comp(map[], map[], {}, 0)
  const ZERO: EdgeAcc := EdgeAcc(0.0, 0.0)

  function Ekey(a: int, b: int): EKey { if a > b then EKey(b, a) else EKey(a, b) }

  function AddAcc(x: EdgeAcc, y: EdgeAcc): EdgeAcc { EdgeAcc(x.simConf + y.simConf, x.conf + y.conf) }

  function Votes(cls: map<int, int>, c: int): int { if c in cls then cls[c] else 0 }

  function EdgeAt(edges: map<EKey, EdgeAcc>, k: EKey): EdgeAcc { if k in edges then edges[k] else ZERO }

  function LeavesAt(boxes: map<VKey, seq<int>>, k: VKey): seq<int> { if k in boxes then boxes[k] else [] }

  // ---------- invariant ----------

  ghost predicate Roots(root: seq<int>) {
    forall x | 0 <= x < |root| :: 0 <= root[x] < |root| && root[root[x]] == root[x]
  }

  ghost predicate IsRoot(root: seq<int>, r: int) { 0 <= r < |root| && root[r] == r }

  /** Some id listed for the voxel resolves to r. */
  ghost predicate Resolves(root: seq<int>, leaves: seq<int>, r: int) {
    exists i :: 0 <= i < |leaves| && 0 <= leaves[i] < |root| && root[leaves[i]] == r
  }

  /** Some map point of voxel k is owned by r. */
  ghost predicate Owned(root: seq<int>, owner: seq<int>, world: seq<VKey>, k: VKey, r: int) {
    exists g :: 0 <= g < |owner| && OwnsPoint(root, owner, world, g, k, r)
  }

  ghost predicate OwnsPoint(root: seq<int>, owner: seq<int>, world: seq<VKey>, g: int, k: VKey, r: int)
    requires 0 <= g < |owner|
  {
    g < |world| && world[g] == k && 0 <= owner[g] < |root| && root[owner[g]] == r
  }

  /** What the ownership index says: root r contains voxel k. */
  ghost predicate Holder(s: Store, world: seq<VKey>, overlap: bool, k: VKey, r: int) {
    if overlap then Resolves(s.root, LeavesAt(s.boxes, k), r) else Owned(s.root, s.owner, world, k, r)
  }

  ghost predicate IndexOk(s: Store, world: seq<VKey>, overlap: bool)
    requires |s.comp| == |s.root|
  {
    forall k: VKey, r | IsRoot(s.root, r) :: Holder(s, world, overlap, k, r) <==> k in s.comp[r].vox
  }

  ghost predicate CompOk(c: Comp, world: seq<VKey>) {
    && (forall k | k in c.vox :: 0 <= c.vox[k] < |world| && world[c.vox[k]] == k)
    && (forall x | x in c.cls :: c.cls[x] > 0)
    && c.support >= 0
  }

  ghost predicate InRange(leaves: seq<int>, n: nat) { forall i | 0 <= i < |leaves| :: 0 <= leaves[i] < n }

  ghost predicate Shape(s: Store, world: seq<VKey>) {
    && Roots(s.root) && |s.comp| == |s.root|
    && (forall x | 0 <= x < |s.root| :: CompOk(s.comp[x], world) && (s.root[x] != x ==> s.comp[x] == EMPTY))
    && (forall g | 0 <= g < |s.owner| :: -1 <= s.owner[g] < |s.root| && (s.owner[g] >= 0 ==> g < |world|))
    && (forall k | k in s.boxes :: InRange(s.boxes[k], |s.root|))
  }

  ghost function TotalSupport(comp: seq<Comp>): int {
    if comp == [] then 0 else TotalSupport(comp[..|comp| - 1]) + comp[|comp| - 1].support
  }

  // ---------- evidence ----------

  datatype Part = SimConf | Conf

  function Val(acc: EdgeAcc, part: Part): real { if part.SimConf? then acc.simConf else acc.conf }

  /** Under the grouping g, the pair of ids links groups u and v. */
  predicate Links(g: int -> int, k: EKey, u: int, v: int) {
    (g(k.a) == u && g(k.b) == v) || (g(k.a) == v && g(k.b) == u)
  }

  ghost function LinkWeight(edges: map<EKey, EdgeAcc>, g: int -> int, u: int, v: int, part: Part): EKey -> real {
    k => if k in edges && Links(g, k, u, v) then Val(edges[k], part) else 0.0
  }

  /** Evidence between groups u and v held by the edge store. */
  ghost function EdgeTotal(edges: map<EKey, EdgeAcc>, g: int -> int, u: int, v: int, part: Part): real {
    Sum(edges.Keys, LinkWeight(edges, g, u, v, part))
  }

  /** Evidence between groups u and v ever deposited. */
  ghost function LogTotal(log: seq<Deposit>, g: int -> int, u: int, v: int, part: Part): real {
    if log == [] then 0.0
    else var d := log[|log| - 1];
         LogTotal(log[..|log| - 1], g, u, v, part) + if Links(g, d.key, u, v) then Val(d.acc, part) else 0.0
  }

  /** g puts ids with one root into one group. */
  ghost predicate Coarser(g: int -> int, root: seq<int>) {
    forall x | 0 <= x < |root| :: g(x) == g(root[x])
  }

  ghost predicate Conserved(edges: map<EKey, EdgeAcc>, log: seq<Deposit>, g: int -> int, u: int, v: int) {
    && EdgeTotal(edges, g, u, v, SimConf) == LogTotal(log, g, u, v, SimConf)
    && EdgeTotal(edges, g, u, v, Conf) == LogTotal(log, g, u, v, Conf)
  }

  ghost predicate EdgeOk(root: seq<int>, k: EKey, e: EdgeAcc) {
    0 <= k.a < k.b < |root| && 0.0 <= e.simConf <= e.conf && 0.0 < e.conf
  }

  ghost predicate EdgesOk(root: seq<int>, edges: map<EKey, EdgeAcc>) {
    forall k | k in edges :: EdgeOk(root, k, edges[k])
  }

  /** Between any two groups of any grouping of whole components, the edge store holds exactly
      what was ever deposited. */
  ghost predicate Evidence(s: Store) {
    && EdgesOk(s.root, s.edges)
    && forall g: int -> int, u, v | Coarser(g, s.root) && u != v :: Conserved(s.edges, s.log, g, u, v)
  }

  ghost predicate Inv(s: Store, world: seq<VKey>, overlap: bool) {
    && Shape(s, world) && IndexOk(s, world, overlap) && Evidence(s) && TotalSupport(s.comp) == s.homed
  }

  // ---------- evidence: basic steps ----------

  lemma TotalAfterUpdate(edges: map<EKey, EdgeAcc>, k: EKey, e: EdgeAcc, g: int -> int, u: int, v: int, part: Part)
    ensures EdgeTotal(edges[k := e], g, u, v, part) ==
            EdgeTotal(edges, g, u, v, part)
            + if Links(g, k, u, v) then Val(e, part) - Val(EdgeAt(edges, k), part) else 0.0
  {
    var w, w', edges' := LinkWeight(edges, g, u, v, part), LinkWeight(edges[k := e], g, u, v, part), edges[k := e];
    SumRemove(edges'.Keys, w', k);
    assert edges'.Keys - {k} == edges.Keys - {k};
    SumSame(edges.Keys - {k}, w, w');
    if k in edges { SumRemove(edges.Keys, w, k); } else { assert edges.Keys - {k} == edges.Keys; }
  }

  ghost function Deposited(s: Store, d: Deposit): Store {
    s.(edges := s.edges[d.key := AddAcc(EdgeAt(s.edges, d.key), d.acc)], log := s.log + [d])
  }

  lemma EvidenceAfterDeposit(s: Store, d: Deposit)
    requires Evidence(s) && EdgeOk(s.root, d.key, d.acc)
    ensures Evidence(Deposited(s, d))
  {
    var s' := Deposited(s, d);
    assert s'.log[..|s'.log| - 1] == s.log;
    forall g: int -> int, u, v | Coarser(g, s.root) && u != v ensures Conserved(s'.edges, s'.log, g, u, v) {
      assert Conserved(s.edges, s.log, g, u, v);
      TotalAfterUpdate(s.edges, d.key, s'.edges[d.key], g, u, v, SimConf);
      TotalAfterUpdate(s.edges, d.key, s'.edges[d.key], g, u, v, Conf);
    }
  }

  /** Merging components only coarsens the grouping, so the evidence stays conserved. */
  lemma EvidenceAfterCoarsening(s: Store, root': seq<int>)
    requires Evidence(s) && |root'| >= |s.root| && Roots(root')
    requires forall x | 0 <= x < |s.root| :: 0 <= s.root[x] < |s.root| && root'[x] == root'[s.root[x]]
    ensures Evidence(s.(root := root'))
  {
    forall k | k in s.edges ensures EdgeOk(root', k, s.edges[k]) { assert EdgeOk(s.root, k, s.edges[k]); }
    forall g: int -> int, u, v | Coarser(g, root') && u != v ensures Conserved(s.edges, s.log, g, u, v) {
      forall x | 0 <= x < |s.root| ensures g(x) == g(s.root[x]) {
        assert g(x) == g(root'[x]) && g(s.root[x]) == g(root'[s.root[x]]);
      }
    }
  }

  /** The grouping by current roots. */
  ghost function ByRoot(root: seq<int>): int -> int {
    x => if 0 <= x < |root| then root[x] else x
  }

  lemma ByRootCoarser(root: seq<int>)
    requires Roots(root)
    ensures Coarser(ByRoot(root), root)
  {
  }

  /** Evidence between two roots: what the edges resolving to the pair hold is what was ever
      deposited between ids now in the two components. */
  lemma EvidenceConserved(s: Store, world: seq<VKey>, overlap: bool, u: int, v: int)
    requires Inv(s, world, overlap) && u != v
    ensures Conserved(s.edges, s.log, ByRoot(s.root), u, v)
  {
    ByRootCoarser(s.root);
  }

  /** `to` is the edge map `from` restated between roots, with internal edges dropped. */
  ghost predicate Collapsed(root: seq<int>, from: map<EKey, EdgeAcc>, to: map<EKey, EdgeAcc>) {
    && EdgesOk(root, to)
    && (forall k | k in to :: IsRoot(root, k.a) && IsRoot(root, k.b))
    && (forall k | k in from && 0 <= k.a < |root| && 0 <= k.b < |root| && root[k.a] != root[k.b] ::
          Ekey(root[k.a], root[k.b]) in to)
    && (forall k | k in to :: HasEdge(root, from, k.a, k.b))
    && (forall g: int -> int, u, v, part | Coarser(g, root) && u != v ::
          EdgeTotal(to, g, u, v, part) == EdgeTotal(from, g, u, v, part))
  }

  /** Some edge links the two roots. */
  ghost predicate HasEdge(root: seq<int>, edges: map<EKey, EdgeAcc>, a: int, b: int) {
    exists k :: k in edges && ResolvesTo(root, k, a, b)
  }

  ghost predicate ResolvesTo(root: seq<int>, k: EKey, a: int, b: int) {
    0 <= k.a < |root| && 0 <= k.b < |root| && Ekey(root[k.a], root[k.b]) == Ekey(a, b)
  }

  lemma EvidenceAfterCompaction(s: Store, to: map<EKey, EdgeAcc>)
    requires Evidence(s) && Collapsed(s.root, s.edges, to)
    ensures Evidence(s.(edges := to))
  {
    forall g: int -> int, u, v | Coarser(g, s.root) && u != v ensures Conserved(to, s.log, g, u, v) {
      assert Conserved(s.edges, s.log, g, u, v);
    }
  }

  /** Only one key links two given roots in a collapsed map, so its value is the pair's total. */
  lemma CollapsedValue(root: seq<int>, from: map<EKey, EdgeAcc>, to: map<EKey, EdgeAcc>, a: int, b: int, part: Part)
    requires Roots(root) && Collapsed(root, from, to) && a != b
    ensures Val(EdgeAt(to, Ekey(a, b)), part) == EdgeTotal(from, ByRoot(root), a, b, part)
  {
    var g, k := ByRoot(root), Ekey(a, b);
    ByRootCoarser(root);
    var w := LinkWeight(to, g, a, b, part);
    assert EdgeTotal(to, g, a, b, part) == EdgeTotal(from, g, a, b, part);
    forall x | x in to.Keys - {k} ensures w(x) == 0.0 { assert EdgeOk(root, x, to[x]); }
    SumZero(to.Keys - {k}, w);
    if k in to { SumRemove(to.Keys, w, k); } else { assert to.Keys - {k} == to.Keys; }
  }

  // ---------- support ----------

  lemma {:induction false} SupportUpdate(comp: seq<Comp>, x: int, c: Comp)
    requires 0 <= x < |comp|
    ensures TotalSupport(comp[x := c]) == TotalSupport(comp) - comp[x].support + c.support
    decreases |comp|
  {
    var n := |comp| - 1;
    if x == n {
      assert comp[x := c][..n] == comp[..n];
    } else {
      assert comp[x := c][..n] == comp[..n][x := c];
      SupportUpdate(comp[..n], x, c);
    }
  }

  lemma SupportGrow(comp: seq<Comp>)
    ensures TotalSupport(comp + [EMPTY]) == TotalSupport(comp)
  {
    assert (comp + [EMPTY])[..|comp|] == comp;
  }

  // ---------- merging ----------

  function AddVotes(x: map<int, int>, y: map<int, int>): map<int, int> {
    map c | c in x.Keys + y.Keys :: Votes(x, c) + Votes(y, c)
  }

  /** B folded into A; A's representatives win. */
  function Folded(A: Comp, B: Comp): Comp {
    Comp(B.vox + A.vox, AddVotes(A.cls, B.cls), A.ids + B.ids, A.support + B.support)
  }

  function Redirect(root: seq<int>, b: int, a: int): (r: seq<int>)
    ensures |r| == |root| && forall x | 0 <= x < |r| :: r[x] == if root[x] == b then a else root[x]
  {
    seq(|root|, x requires 0 <= x < |root| => if root[x] == b then a else root[x])
  }

  /** Root b drained into root a. */
  function Merged(s: Store, a: int, b: int): Store
    requires 0 <= a < |s.comp| && 0 <= b < |s.comp| && a != b
  {
    s.(root := Redirect(s.root, b, a), comp := s.comp[a := Folded(s.comp[a], s.comp[b])][b := EMPTY])
  }

  lemma ResolvesAfterRedirect(root: seq<int>, leaves: seq<int>, a: int, b: int, r: int)
    requires IsRoot(root, a) && IsRoot(root, b) && a != b && r != b
    ensures Resolves(Redirect(root, b, a), leaves, r) <==>
            Resolves(root, leaves, r) || (r == a && Resolves(root, leaves, b))
  {
  }

  lemma OwnedAfterRedirect(root: seq<int>, owner: seq<int>, world: seq<VKey>, k: VKey, a: int, b: int, r: int)
    requires IsRoot(root, a) && IsRoot(root, b) && a != b && r != b
    ensures Owned(Redirect(root, b, a), owner, world, k, r) <==>
            Owned(root, owner, world, k, r) || (r == a && Owned(root, owner, world, k, b))
  {
    var root' := Redirect(root, b, a);
    forall g | 0 <= g < |owner|
      ensures OwnsPoint(root', owner, world, g, k, r) <==>
              OwnsPoint(root, owner, world, g, k, r) || (r == a && OwnsPoint(root, owner, world, g, k, b)) {}
  }

  lemma InvMerged(s: Store, world: seq<VKey>, overlap: bool, a: int, b: int)
    requires Inv(s, world, overlap) && IsRoot(s.root, a) && IsRoot(s.root, b) && a != b
    ensures Inv(Merged(s, a, b), world, overlap)
  {
    hide Shape, IndexOk, Evidence, TotalSupport, Folded;
    RootsOf(s, world);
    ShapeMerged(s, world, a, b);
    IndexMerged(s, world, overlap, a, b);
    var s' := Merged(s, a, b);
    EvidenceAfterCoarsening(s, s'.root);
    EvidenceSameRest(s.(root := s'.root), s');
    SupportUpdate(s.comp, a, Folded(s.comp[a], s.comp[b]));
    SupportUpdate(s.comp[a := Folded(s.comp[a], s.comp[b])], b, EMPTY);
    FoldedSupport(s.comp[a], s.comp[b]);
  }

  lemma FoldedSupport(A: Comp, B: Comp)
    ensures Folded(A, B).support == A.support + B.support
  {
  }

  lemma RootsOf(s: Store, world: seq<VKey>)
    requires Shape(s, world)
    ensures Roots(s.root) && |s.comp| == |s.root|
  {
  }

  lemma IndexMerged(s: Store, world: seq<VKey>, overlap: bool, a: int, b: int)
    requires Roots(s.root) && |s.comp| == |s.root| && IndexOk(s, world, overlap)
    requires IsRoot(s.root, a) && IsRoot(s.root, b) && a != b
    ensures IndexOk(Merged(s, a, b), world, overlap)
  {
    hide Resolves, Owned, AddVotes, Roots;
    var s' := Merged(s, a, b);
    forall k: VKey, r | IsRoot(s'.root, r) ensures Holder(s', world, overlap, k, r) <==> k in s'.comp[r].vox {
      assert r != b && IsRoot(s.root, r);
      assert Holder(s, world, overlap, k, r) <==> k in s.comp[r].vox;
      assert Holder(s, world, overlap, k, b) <==> k in s.comp[b].vox;
      ResolvesAfterRedirect(s.root, LeavesAt(s.boxes, k), a, b, r);
      OwnedAfterRedirect(s.root, s.owner, world, k, a, b, r);
    }
  }

  lemma EvidenceSameRest(s: Store, s': Store)
    requires Evidence(s) && s'.root == s.root && s'.edges == s.edges && s'.log == s.log
    ensures Evidence(s')
  {
  }

  lemma ShapeMerged(s: Store, world: seq<VKey>, a: int, b: int)
    requires Shape(s, world) && IsRoot(s.root, a) && IsRoot(s.root, b) && a != b
    ensures Shape(Merged(s, a, b), world)
  {
    var s' := Merged(s, a, b);
    forall x | 0 <= x < |s'.root| ensures CompOk(s'.comp[x], world) && (s'.root[x] != x ==> s'.comp[x] == EMPTY) {
      assert CompOk(s.comp[x], world) && CompOk(s.comp[a], world) && CompOk(s.comp[b], world);
    }
  }

  // ---------- a new component ----------

  function Grown(s: Store): Store { s.(root := s.root + [|s.root|], comp := s.comp + [EMPTY]) }

  lemma HolderGrown(s: Store, world: seq<VKey>, overlap: bool, k: VKey, r: int)
    requires Shape(s, world) && 0 <= r <= |s.root|
    ensures Holder(Grown(s), world, overlap, k, r) <==> Holder(s, world, overlap, k, r)
    ensures r == |s.root| ==> !Holder(s, world, overlap, k, r)
  {
    assert InRange(LeavesAt(s.boxes, k), |s.root|);
    forall g | 0 <= g < |s.owner|
      ensures OwnsPoint(Grown(s).root, s.owner, world, g, k, r) <==> OwnsPoint(s.root, s.owner, world, g, k, r) {}
  }

  lemma InvGrown(s: Store, world: seq<VKey>, overlap: bool)
    requires Inv(s, world, overlap)
    ensures Inv(Grown(s), world, overlap)
  {
    hide Evidence;
    var s', n := Grown(s), |s.root|;
    assert Shape(s', world) by {
      forall x | 0 <= x < |s'.root| ensures CompOk(s'.comp[x], world) { if x < n { assert CompOk(s.comp[x], world); } }
    }
    forall k: VKey, r | IsRoot(s'.root, r) ensures Holder(s', world, overlap, k, r) <==> k in s'.comp[r].vox {
      assert InRange(LeavesAt(s.boxes, k), n);
      if r < n { assert Holder(s, world, overlap, k, r) <==> k in s.comp[r].vox; }
      HolderGrown(s, world, overlap, k, r);
    }
    EvidenceAfterCoarsening(s, s'.root);
    EvidenceSameRest(s.(root := s'.root), s');
    SupportGrow(s.comp);
  }

  // ---------- support ----------

  /** Support summed over the roots. */
  ghost function RootSupport(comp: seq<Comp>, root: seq<int>): int
    requires |comp| <= |root|
  {
    if comp == [] then 0
    else var n := |comp| - 1; RootSupport(comp[..n], root) + if root[n] == n then comp[n].support else 0
  }

  lemma {:induction false} RootsHoldAll(comp: seq<Comp>, root: seq<int>)
    requires |comp| <= |root| && forall x | 0 <= x < |comp| && root[x] != x :: comp[x] == EMPTY
    ensures RootSupport(comp, root) == TotalSupport(comp)
    decreases |comp|
  {
    if comp != [] { RootsHoldAll(comp[..|comp| - 1], root); }
  }

  /** The roots' support adds up to the number of proposals given a home. */
  lemma SupportIsHomed(s: Store, world: seq<VKey>, overlap: bool)
    requires Inv(s, world, overlap)
    ensures |s.comp| <= |s.root| && RootSupport(s.comp, s.root) == s.homed
  {
    RootsHoldAll(s.comp, s.root);
  }
}
