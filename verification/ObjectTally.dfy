/** What one proposal means to the component store: its voxels, the class guard, and the tally of
    voxels it shares with every component, with the lemmas that carry the counting loops. */
module ObjectTally {
  import opened Basics
  import opened SetSum
  import opened Voxels
  import opened ObjectStore
  import opened ObjectSteps
  import opened UnionForest

  datatype Params = Params(mergeThresh: seq<real>, minMerges: int, requireClass: bool, globalContext: bool,
                           minEvidence: real, disDecay: real, useSemantic: bool, useContainment: bool,
                           smallSegMin: int)

  /** One per-frame proposal: member map indices, class, instance ids, class histogram. */
  datatype Proposal = Proposal(points: seq<int>, classId: int, instIds: seq<int>, hist: seq<real>)

  datatype View = Everything | Seen(keys: set<VKey>)

  /** The union bar for a component with `level` observations: the level-th entry, clamped. */
  function ThresholdFor(thresh: seq<real>, level: int): real {
    if thresh == [] then 0.3
    else thresh[if level - 1 < 0 then 0 else if level - 1 >= |thresh| then |thresh| - 1 else level - 1]
  }

  // ---------- class majority ----------

  /** cc has the most votes; -1 without votes. */
  ghost predicate Dominates(cls: map<int, int>, cc: int) {
    if cls == map[] then cc == -1 else cc in cls && forall d | d in cls :: cls[d] <= cls[cc]
  }

  predicate Agrees(guarded: bool, cc: int, classId: int) { !guarded || !(cc >= 0 && cc != classId) }

  /** The verdict of the class guard, for some way of breaking ties among the majority classes. */
  ghost predicate Verdict(cls: map<int, int>, guarded: bool, classId: int, pass: bool) {
    exists cc :: Dominates(cls, cc) && pass == Agrees(guarded, cc, classId)
  }

  method Majority(cls: map<int, int>) returns (cc: int)
    requires forall c | c in cls :: cls[c] > 0
    ensures Dominates(cls, cc)
  {
    cc := -1;
    var best, todo := -1, cls.Keys;
    while todo != {}
      invariant todo <= cls.Keys
      invariant todo == cls.Keys ==> best == -1 && cc == -1
      invariant todo != cls.Keys ==> cc in cls.Keys && best == cls[cc]
      invariant forall c | c in cls.Keys - todo :: cls[c] <= best
    {
      SomeInt(todo);
      var c :| c in todo;
      if cls[c] > best { best, cc := cls[c], c; }
      todo := todo - {c};
    }
    if cls.Keys != {} { SomeInt(cls.Keys); }
  }

  // ---------- voxels of a proposal ----------

  /** The first listed map index that lies in voxel k; -1 without one. */
  function FirstPoint(points: seq<int>, cloud: seq<VKey>, k: VKey): (g: int)
    ensures g == -1 || (g in points && 0 <= g < |cloud| && cloud[g] == k)
  {
    if points == [] then -1
    else
      var front, g := points[..|points| - 1], points[|points| - 1];
      if FirstPoint(front, cloud, k) >= 0 then FirstPoint(front, cloud, k)
      else if 0 <= g < |cloud| && cloud[g] == k then g else -1
  }

  /** pv: per voxel the proposal occupies, the first map index it lists there. */
  ghost predicate Deduped(pv: map<VKey, int>, points: seq<int>, cloud: seq<VKey>) {
    && (forall k | k in pv :: 0 <= pv[k] < |cloud| && cloud[pv[k]] == k && pv[k] in points)
    && (forall g | g in points && 0 <= g < |cloud| :: cloud[g] in pv)
    && (forall k | k in pv :: pv[k] == FirstPoint(points, cloud, k))
  }

  lemma NoneDeduped(cloud: seq<VKey>)
    ensures Deduped(map[], [], cloud)
  {
  }

  lemma DedupedMore(pv: map<VKey, int>, points: seq<int>, cloud: seq<VKey>, g: int)
    requires Deduped(pv, points, cloud)
    ensures Deduped(if 0 <= g < |cloud| && cloud[g] !in pv then pv[cloud[g] := g] else pv, points + [g], cloud)
  {
    assert (points + [g])[..|points|] == points;
  }

  method DedupVoxels(points: seq<int>, cloud: seq<VKey>) returns (pv: map<VKey, int>, maxg: int)
    ensures Deduped(pv, points, cloud) && maxg >= -1
    ensures forall k | k in pv :: pv[k] <= maxg
  {
    hide Deduped;
    pv, maxg := map[], -1;
    NoneDeduped(cloud);
    for i := 0 to |points|
      invariant Deduped(pv, points[..i], cloud) && maxg >= -1
      invariant forall k | k in pv :: pv[k] <= maxg
    {
      var gi := points[i];
      DedupedMore(pv, points[..i], cloud, gi);
      assert points[..i + 1] == points[..i] + [gi];
      if 0 <= gi < |cloud| {
        if cloud[gi] !in pv { pv := pv[cloud[gi] := gi]; }
        if gi > maxg { maxg := gi; }
      }
    }
    assert points[..|points|] == points;
  }

  // ---------- what a tally means ----------

  /** For every root the class guard lets through, the true number of shared voxels. */
  ghost predicate Tallied(s: Store, pv: map<VKey, int>, guarded: bool, classId: int, shared: map<int, int>)
    requires |s.comp| == |s.root|
  {
    && (forall r | r in shared :: IsRoot(s.root, r) && shared[r] == SharedVoxels(pv, s.comp[r]) > 0
                                  && Verdict(s.comp[r].cls, guarded, classId, true))
    && (forall r | IsRoot(s.root, r) && SharedVoxels(pv, s.comp[r]) > 0 && r !in shared ::
          Verdict(s.comp[r].cls, guarded, classId, false))
  }

  /** Voxels the proposal brings to its home: unowned ones, or all of them in overlap mode. */
  ghost predicate FreshFor(s: Store, overlap: bool, pv: map<VKey, int>, news: map<VKey, int>) {
    && (forall k | k in news :: k in pv && news[k] == pv[k])
    && (forall k | k in pv :: k in news <==> overlap || !(0 <= pv[k] < |s.owner| && s.owner[pv[k]] >= 0))
  }

  // ---------- reading the store ----------

  lemma EmptyStore(overlap: bool)
    ensures Inv(Store([], [], [], map[], map[], [], 0), [], overlap)
  {
    var none: map<EKey, EdgeAcc> := map[];
    assert none.Keys == {};
    forall g: int -> int, u, v | u != v ensures Conserved(none, [], g, u, v) {
      SumZero({}, LinkWeight(none, g, u, v, SimConf));
      SumZero({}, LinkWeight(none, g, u, v, Conf));
    }
  }

  lemma CompsMatchRoots(s: Store, world: seq<VKey>, overlap: bool)
    requires Inv(s, world, overlap)
    ensures |s.comp| == |s.root| && Roots(s.root)
  {
  }

  lemma ForestSize(parent: seq<int>, root: seq<int>, depth: seq<nat>)
    requires Forest(parent, root, depth)
    ensures |parent| == |root| == |depth|
  {
  }

  lemma RootByParent(parent: seq<int>, root: seq<int>, depth: seq<nat>, x: int)
    requires Forest(parent, root, depth) && 0 <= x < |parent|
    ensures parent[x] == x <==> root[x] == x
  {
    assert NodeOk(parent, root, depth, x);
  }

  lemma OwnerInRange(s: Store, world: seq<VKey>, overlap: bool, g: int)
    requires Inv(s, world, overlap) && 0 <= g < |s.owner|
    ensures -1 <= s.owner[g] < |s.root|
  {
  }

  lemma LeavesInRange(s: Store, world: seq<VKey>, overlap: bool, k: VKey)
    requires Inv(s, world, overlap)
    ensures InRange(LeavesAt(s.boxes, k), |s.root|)
  {
  }

  lemma EdgesIn(s: Store, world: seq<VKey>, overlap: bool)
    requires Inv(s, world, overlap)
    ensures EdgesOk(s.root, s.edges)
  {
  }

  lemma EdgeEnds(root: seq<int>, edges: map<EKey, EdgeAcc>, k: EKey)
    requires EdgesOk(root, edges) && k in edges
    ensures 0 <= k.a < k.b < |root| && EdgeOk(root, k, edges[k])
  {
  }

  lemma PositiveVotesOf(s: Store, world: seq<VKey>, overlap: bool, r: int)
    requires Inv(s, world, overlap) && 0 <= r < |s.comp|
    ensures forall c | c in s.comp[r].cls :: s.comp[r].cls[c] > 0
  {
    assert CompOk(s.comp[r], world);
  }

  ghost predicate VotesPositive(comp: seq<Comp>) {
    forall r, c | 0 <= r < |comp| && c in comp[r].cls :: comp[r].cls[c] > 0
  }

  lemma PositiveVotes(s: Store, world: seq<VKey>, overlap: bool)
    requires Inv(s, world, overlap)
    ensures VotesPositive(s.comp)
  {
    forall r, c | 0 <= r < |s.comp| && c in s.comp[r].cls ensures s.comp[r].cls[c] > 0 {
      assert CompOk(s.comp[r], world);
    }
  }

  /** In exclusive mode only the owner of a voxel's one map point can hold the voxel. */
  lemma OwnerIsOnlyHolder(s: Store, world: seq<VKey>, k: VKey, g: int, r: int)
    requires Inv(s, world, false) && Distinct(world) && 0 <= g < |world| && world[g] == k && g < |s.owner|
    ensures 0 <= s.owner[g] ==> s.owner[g] < |s.root|
    ensures IsRoot(s.root, r) && r < |s.comp| && k in s.comp[r].vox <==>
            s.owner[g] >= 0 && r == s.root[s.owner[g]]
  {
    hide Evidence, TotalSupport, CompOk;
    if s.owner[g] >= 0 && r == s.root[s.owner[g]] { assert OwnsPoint(s.root, s.owner, world, g, k, r); }
    if IsRoot(s.root, r) {
      assert Holder(s, world, false, k, r) <==> k in s.comp[r].vox;
      if k in s.comp[r].vox {
        var x :| 0 <= x < |s.owner| && OwnsPoint(s.root, s.owner, world, x, k, r);
        assert x == g;
      }
    }
  }

  lemma HolderIff(s: Store, world: seq<VKey>, k: VKey, r: int)
    requires Inv(s, world, true)
    ensures IsRoot(s.root, r) && r < |s.comp| && k in s.comp[r].vox <==> Resolves(s.root, LeavesAt(s.boxes, k), r)
  {
    hide Evidence, TotalSupport, CompOk;
    if Resolves(s.root, LeavesAt(s.boxes, k), r) { assert IsRoot(s.root, r); }
    if IsRoot(s.root, r) { assert Holder(s, world, true, k, r) <==> k in s.comp[r].vox; }
  }

  lemma ResolvesSnoc(root: seq<int>, leaves: seq<int>, leaf: int, r: int)
    requires 0 <= leaf < |root|
    ensures Resolves(root, leaves + [leaf], r) <==> Resolves(root, leaves, r) || root[leaf] == r
  {
    var all := leaves + [leaf];
    assert all[|leaves|] == leaf;
    if Resolves(root, leaves, r) {
      var i :| 0 <= i < |leaves| && 0 <= leaves[i] < |root| && root[leaves[i]] == r;
      assert all[i] == leaves[i];
    }
  }

  ghost function Deeper(root: seq<int>, depth: seq<nat>, a: int, b: int): (d: seq<nat>)
    requires |root| == |depth| && 0 <= a < |depth|
    ensures |d| == |depth| && forall x | 0 <= x < |d| :: d[x] == if root[x] == b then depth[x] + depth[a] + 1 else depth[x]
  {
    seq(|depth|, x requires 0 <= x < |depth| => if root[x] == b then depth[x] + depth[a] + 1 else depth[x])
  }

  lemma LinkedRoots(parent: seq<int>, root: seq<int>, depth: seq<nat>, a: int, b: int)
    requires Forest(parent, root, depth) && IsRoot(root, a) && IsRoot(root, b) && a != b && |root| == |depth| == |parent|
    ensures Forest(parent[b := a], Redirect(root, b, a), Deeper(root, depth, a, b))
  {
    Linked(parent, root, depth, Redirect(root, b, a), Deeper(root, depth, a, b), a, b);
  }

  /** B's voxels, votes, ids and support added to A's. */
  method Drain(A: Comp, B: Comp) returns (C: Comp)
    ensures C == Folded(A, B)
  {
    var vox := MergeVoxels(A.vox, B.vox);
    var cls := MergeVotes(A.cls, B.cls);
    C := Comp(vox, cls, A.ids + B.ids, A.support + B.support);
  }

  /** B's voxels added to A's; on a shared voxel A's representative stays. */
  method MergeVoxels(a: map<VKey, int>, b: map<VKey, int>) returns (vox: map<VKey, int>)
    ensures vox == b + a
  {
    vox := a;
    var todo := b.Keys;
    while todo != {}
      invariant todo <= b.Keys
      invariant vox == (map k | k in b.Keys - todo :: b[k]) + a
    {
      SomeKey(todo);
      var k :| k in todo;
      if k !in vox { vox := vox[k := b[k]]; }
      todo := todo - {k};
    }
    assert vox == b + a;
  }

  method MergeVotes(a: map<int, int>, b: map<int, int>) returns (cls: map<int, int>)
    ensures cls == AddVotes(a, b)
  {
    cls := a;
    var todo := b.Keys;
    while todo != {}
      invariant todo <= b.Keys && cls.Keys == a.Keys + (b.Keys - todo)
      invariant forall c | c in cls :: cls[c] == Votes(a, c) + if c in todo then 0 else Votes(b, c)
    {
      SomeInt(todo);
      var c :| c in todo;
      cls := cls[c := Votes(cls, c) + b[c]];
      todo := todo - {c};
    }
    assert cls == AddVotes(a, b);
  }

  // ---------- counting shared voxels ----------

  ghost function Count(done: set<VKey>, c: Comp): nat { |done * c.vox.Keys| }

  /** verdict: the guard's answer for every root met so far; shared: counts for those let through. */
  ghost predicate CountOk(s: Store, done: set<VKey>, guarded: bool, classId: int,
                          verdict: map<int, bool>, shared: map<int, int>, r: int)
    requires |s.comp| == |s.root|
  {
    && (r in verdict ==> IsRoot(s.root, r) && Verdict(s.comp[r].cls, guarded, classId, verdict[r]))
    && (r in shared <==> r in verdict && verdict[r])
    && (r in shared ==> shared[r] == Count(done, s.comp[r]) > 0)
    && (IsRoot(s.root, r) && Count(done, s.comp[r]) > 0 ==> r in verdict)
  }

  ghost predicate Counted(s: Store, done: set<VKey>, guarded: bool, classId: int, verdict: map<int, bool>, shared: map<int, int>)
    requires |s.comp| == |s.root|
  {
    forall r :: CountOk(s, done, guarded, classId, verdict, shared, r)
  }

  lemma CountNothing(s: Store, guarded: bool, classId: int)
    requires |s.comp| == |s.root|
    ensures Counted(s, {}, guarded, classId, map[], map[])
  {
    forall r | 0 <= r < |s.comp| ensures Count({}, s.comp[r]) == 0 {
      var none: set<VKey> := {};
      assert none * s.comp[r].vox.Keys == {};
    }
  }

  /** Voxel k has been counted for the roots in `part` only. */
  ghost predicate CountedUpTo(s: Store, done: set<VKey>, k: VKey, part: seq<int>, guarded: bool, classId: int,
                              verdict: map<int, bool>, shared: map<int, int>)
    requires |s.comp| == |s.root|
  {
    forall r :: CountOk(s, if r in part then done + {k} else done, guarded, classId, verdict, shared, r)
  }

  lemma CountBegin(s: Store, done: set<VKey>, k: VKey, guarded: bool, classId: int, verdict: map<int, bool>, shared: map<int, int>)
    requires |s.comp| == |s.root| && Counted(s, done, guarded, classId, verdict, shared)
    ensures CountedUpTo(s, done, k, [], guarded, classId, verdict, shared)
  {
    forall r ensures CountOk(s, if r in [] then done + {k} else done, guarded, classId, verdict, shared, r) {
      assert CountOk(s, done, guarded, classId, verdict, shared, r);
    }
  }

  lemma CountUp(done: set<VKey>, k: VKey, c: Comp)
    requires k !in done
    ensures Count(done + {k}, c) == Count(done, c) + if k in c.vox then 1 else 0
  {
    if k in c.vox { assert (done + {k}) * c.vox.Keys == (done * c.vox.Keys) + {k}; }
    else { assert (done + {k}) * c.vox.Keys == done * c.vox.Keys; }
  }

  lemma CountOne(s: Store, done: set<VKey>, k: VKey, part: seq<int>, r: int, guarded: bool, classId: int,
                 verdict: map<int, bool>, shared: map<int, int>, verdict': map<int, bool>, shared': map<int, int>)
    requires |s.comp| == |s.root| && k !in done && r !in part && IsRoot(s.root, r) && k in s.comp[r].vox
    requires CountedUpTo(s, done, k, part, guarded, classId, verdict, shared)
    requires r in verdict' && Verdict(s.comp[r].cls, guarded, classId, verdict'[r])
    requires if r in verdict then verdict' == verdict else verdict' == verdict[r := verdict'[r]]
    requires shared' == if verdict'[r] then shared[r := Votes(shared, r) + 1] else shared
    ensures CountedUpTo(s, done, k, part + [r], guarded, classId, verdict', shared')
  {
    hide Verdict, Count, CountOk;
    CountSelf(s, done, k, part, r, guarded, classId, verdict, shared, verdict', shared');
    forall x ensures CountOk(s, if x in part + [r] then done + {k} else done, guarded, classId, verdict', shared', x) {
      assert CountOk(s, if x in part then done + {k} else done, guarded, classId, verdict, shared, x);
      if x != r {
        CountOther(s, if x in part then done + {k} else done, guarded, classId, verdict, shared, verdict', shared', x);
        assert x in part + [r] <==> x in part;
      }
    }
  }

  lemma CountOther(s: Store, done: set<VKey>, guarded: bool, classId: int, verdict: map<int, bool>, shared: map<int, int>,
                   verdict': map<int, bool>, shared': map<int, int>, x: int)
    requires |s.comp| == |s.root| && CountOk(s, done, guarded, classId, verdict, shared, x)
    requires (x in verdict' <==> x in verdict) && (x in verdict ==> verdict'[x] == verdict[x])
    requires (x in shared' <==> x in shared) && (x in shared ==> shared'[x] == shared[x])
    ensures CountOk(s, done, guarded, classId, verdict', shared', x)
  {
  }

  lemma CountSelf(s: Store, done: set<VKey>, k: VKey, part: seq<int>, r: int, guarded: bool, classId: int,
                  verdict: map<int, bool>, shared: map<int, int>, verdict': map<int, bool>, shared': map<int, int>)
    requires |s.comp| == |s.root| && k !in done && r !in part && IsRoot(s.root, r) && k in s.comp[r].vox
    requires CountedUpTo(s, done, k, part, guarded, classId, verdict, shared)
    requires r in verdict' && Verdict(s.comp[r].cls, guarded, classId, verdict'[r])
    requires if r in verdict then verdict' == verdict else verdict' == verdict[r := verdict'[r]]
    requires shared' == if verdict'[r] then shared[r := Votes(shared, r) + 1] else shared
    ensures CountOk(s, done + {k}, guarded, classId, verdict', shared', r)
  {
    hide Verdict, Count;
    CountUp(done, k, s.comp[r]);
    assert CountOk(s, if r in part then done + {k} else done, guarded, classId, verdict, shared, r);
  }

  lemma CountEnd(s: Store, done: set<VKey>, k: VKey, roots: seq<int>, guarded: bool, classId: int,
                 verdict: map<int, bool>, shared: map<int, int>)
    requires |s.comp| == |s.root| && k !in done && CountedUpTo(s, done, k, roots, guarded, classId, verdict, shared)
    requires forall r :: r in roots <==> IsRoot(s.root, r) && k in s.comp[r].vox
    ensures Counted(s, done + {k}, guarded, classId, verdict, shared)
  {
    hide Verdict;
    forall r ensures CountOk(s, done + {k}, guarded, classId, verdict, shared, r) {
      assert CountOk(s, if r in roots then done + {k} else done, guarded, classId, verdict, shared, r);
      if IsRoot(s.root, r) { CountUp(done, k, s.comp[r]); }
    }
  }

  lemma CountDone(s: Store, pv: map<VKey, int>, guarded: bool, classId: int, verdict: map<int, bool>, shared: map<int, int>)
    requires |s.comp| == |s.root| && Counted(s, pv.Keys, guarded, classId, verdict, shared)
    ensures Tallied(s, pv, guarded, classId, shared)
  {
    hide Verdict;
    forall r ensures CountOk(s, pv.Keys, guarded, classId, verdict, shared, r) {}
    forall r | r in shared
      ensures IsRoot(s.root, r) && shared[r] == SharedVoxels(pv, s.comp[r]) > 0 && Verdict(s.comp[r].cls, guarded, classId, true)
    {
      assert CountOk(s, pv.Keys, guarded, classId, verdict, shared, r);
    }
    forall r | IsRoot(s.root, r) && SharedVoxels(pv, s.comp[r]) > 0 && r !in shared
      ensures Verdict(s.comp[r].cls, guarded, classId, false)
    {
      assert CountOk(s, pv.Keys, guarded, classId, verdict, shared, r);
    }
  }

  /** Count voxel k for each of its holders, asking the class guard once per root. */
  method CountVoxel(ghost s: Store, comp: seq<Comp>, ghost done: set<VKey>, ghost k: VKey, roots: seq<int>,
                    guarded: bool, classId: int, verdict0: map<int, bool>, shared0: map<int, int>)
    returns (verdict: map<int, bool>, shared: map<int, int>)
    requires comp == s.comp && |comp| == |s.root| && VotesPositive(comp)
    requires k !in done && Counted(s, done, guarded, classId, verdict0, shared0)
    requires forall i, j | 0 <= i < j < |roots| :: roots[i] != roots[j]
    requires forall r :: r in roots <==> IsRoot(s.root, r) && k in comp[r].vox
    ensures Counted(s, done + {k}, guarded, classId, verdict, shared)
  {
    hide Verdict, Dominates, CountedUpTo, Counted;
    verdict, shared := verdict0, shared0;
    CountBegin(s, done, k, guarded, classId, verdict, shared);
    for i := 0 to |roots|
      invariant CountedUpTo(s, done, k, roots[..i], guarded, classId, verdict, shared)
    {
      var r := roots[i];
      assert roots[..i + 1] == roots[..i] + [r] && r in roots && r !in roots[..i];
      ghost var verdict1, shared1 := verdict, shared;
      if r !in verdict {
        var cc := Majority(comp[r].cls);
        verdict := verdict[r := Agrees(guarded, cc, classId)];
        VerdictBy(comp[r].cls, guarded, classId, cc);
      } else {
        CountKnown(s, done, k, roots[..i], r, guarded, classId, verdict, shared);
      }
      if verdict[r] { shared := shared[r := Votes(shared, r) + 1]; }
      CountOne(s, done, k, roots[..i], r, guarded, classId, verdict1, shared1, verdict, shared);
    }
    assert roots[..|roots|] == roots;
    CountEnd(s, done, k, roots, guarded, classId, verdict, shared);
  }

  lemma CountKnown(s: Store, done: set<VKey>, k: VKey, part: seq<int>, r: int, guarded: bool, classId: int,
                   verdict: map<int, bool>, shared: map<int, int>)
    requires |s.comp| == |s.root| && CountedUpTo(s, done, k, part, guarded, classId, verdict, shared) && r in verdict
    ensures IsRoot(s.root, r) && Verdict(s.comp[r].cls, guarded, classId, verdict[r])
  {
    assert CountOk(s, if r in part then done + {k} else done, guarded, classId, verdict, shared, r);
  }

  lemma VerdictBy(cls: map<int, int>, guarded: bool, classId: int, cc: int)
    requires Dominates(cls, cc)
    ensures Verdict(cls, guarded, classId, Agrees(guarded, cc, classId))
  {
  }
}
