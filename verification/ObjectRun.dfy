/** Whole frames: what folding in a list of proposals keeps. */
module ObjectRun {
  import opened Voxels
  import opened ObjectStore
  import opened ObjectSteps
  import opened ObjectTally
  import opened ObjectGather
  import opened ObjectFold
  import opened ObjectMerge

  // ---------- one proposal ----------

  /** Points once owned keep their owner. */
  ghost predicate KeepsOwners(owner: seq<int>, owner': seq<int>) {
    |owner| <= |owner'| && forall g | 0 <= g < |owner| && owner[g] >= 0 :: owner'[g] == owner[g]
  }

  /** What every fold-in keeps: ids that share a root go on sharing one, no deposit is lost, and no
      owned point is stolen. */
  ghost predicate Keeps(s: Store, s': Store) {
    Coarsened(s.root, s'.root) && s.log <= s'.log && KeepsOwners(s.owner, s'.owner)
  }

  lemma KeepsTwice(s: Store, t: Store, u: Store)
    requires Keeps(s, t) && Keeps(t, u)
    ensures Keeps(s, u)
  {
  }

  lemma OwnedNotTaken(s: Store, world: seq<VKey>, news: map<VKey, int>, g: int)
    requires Claimable(s, world, false, news) && 0 <= g < |s.owner| && s.owner[g] >= 0
    ensures !Takes(world, news, g)
  {
  }

  lemma ClaimedOwners(s: Store, s': Store, world: seq<VKey>, overlap: bool, r: int, news: map<VKey, int>)
    requires 0 <= r < |s.comp| && Claimed(s, s', world, overlap, r, news) && Claimable(s, world, overlap, news)
    requires overlap ==> s'.owner == s.owner
    ensures KeepsOwners(s.owner, s'.owner)
  {
    forall g | 0 <= g < |s.owner| && s.owner[g] >= 0 ensures s'.owner[g] == s.owner[g] {
      if !overlap { OwnedNotTaken(s, world, news, g); }
    }
  }

  /** Whether a proposal with these voxels found a home. */
  ghost predicate Housed(f: Fold) { f.pv != map[] && f.home >= 0 }

  lemma DepositsKeep(e: Scene, p: Params, prop: Proposal, vis0: map<int, real>, vis: map<int, real>, touched: seq<EKey>,
                     f: Fold)
    requires Deposits(e, p, prop, vis0, vis, touched, f)
    ensures f.deposited.root == f.housed.root && f.deposited.comp == f.housed.comp && f.deposited.owner == f.housed.owner
    ensures f.housed.log <= f.deposited.log && f.deposited.homed == f.housed.homed
  {
    hide Made;
    if p.globalContext && f.rep >= 0 {
      MadeKeeps(f.housed, f.deposited, e, p, prop, f.pv, vis0, f.shared.Keys, f.rep, touched, vis, f.ds);
    }
  }

  lemma StartKeeps(s: Store, s': Store, world: seq<VKey>, overlap: bool, e: Scene, p: Params, prop: Proposal,
                   vis0: map<int, real>, vis: map<int, real>, touched: seq<EKey>, f: Fold)
    requires |s.comp| == |s.root| && Roots(s.root) && (forall g | 0 <= g < |s.owner| :: s.owner[g] >= -1)
    requires FoldedIn(s, s', world, overlap, e, p, prop, vis0, vis, touched, f) && f.pv != map[]
    ensures Resized(s, f.start) && Claimable(f.start, world, overlap, f.news)
    ensures Coarsened(s.root, f.housed.root) && f.housed.owner == f.start.owner && f.housed.log == s.log && f.housed.homed == s.homed
    ensures f.home >= 0 ==> IsRoot(f.housed.root, f.home)
    ensures overlap ==> f.home >= 0
    ensures forall r | r in f.shared :: IsRoot(s.root, r)
  {
    hide Deposits, JoinsHome, HomeOpened, Verdict, SharedVoxels, NodeFor;
    HomeOpenedKeeps(f.start, f.housed, p, |f.pv|, f.shared, f.news != map[], f.home);
    StartClaimable(s, f.start, world, overlap, prop.points, f.pv, f.news);
    if overlap { HousedInOverlap(f, p, |f.pv|); }
  }

  lemma HousedInOverlap(f: Fold, p: Params, np: int)
    requires HomeOpened(f.start, f.housed, p, np, f.shared, f.news != map[], f.home) && f.news != map[]
    requires |f.start.comp| == |f.start.root|
    ensures f.home >= 0
  {
    hide Gathered, UnitedInto, HighestContainment, Containment, ThresholdFor;
  }

  lemma StartClaimable(s: Store, start: Store, world: seq<VKey>, overlap: bool, points: seq<int>, pv: map<VKey, int>,
                       news: map<VKey, int>)
    requires Resized(s, start) && (forall g | 0 <= g < |s.owner| :: s.owner[g] >= -1)
    requires Deduped(pv, points, world) && FreshFor(start, overlap, pv, news) && pv != map[]
    requires forall k | k in pv :: pv[k] < |start.owner|
    ensures Claimable(start, world, overlap, news)
    ensures overlap ==> news != map[]
  {
    forall k | k in news ensures ClaimableAt(start, world, overlap, k, news[k]) {
      assert k in pv && news[k] == pv[k];
    }
    if overlap {
      assert pv.Keys != {};
      SomeKey(pv.Keys);
      var k :| k in pv.Keys;
      assert k in news;
    }
  }

  lemma FoldedKeeps(s: Store, s': Store, world: seq<VKey>, overlap: bool, e: Scene, p: Params, prop: Proposal,
                    vis0: map<int, real>, vis: map<int, real>, touched: seq<EKey>, f: Fold)
    requires |s.comp| == |s.root| && Roots(s.root) && (forall g | 0 <= g < |s.owner| :: s.owner[g] >= -1)
    requires FoldedIn(s, s', world, overlap, e, p, prop, vis0, vis, touched, f)
    ensures Keeps(s, s') && s'.homed == s.homed + if Housed(f) then 1 else 0
    ensures overlap && f.pv != map[] ==> Housed(f)
  {
    hide Deduped, Tallied, FreshFor, HomeOpened, Deposits, Claimable, Coarsened, NodeFor, Roots;
    if f.pv == map[] { CoarsenedSame(s.root); return; }
    StartKeeps(s, s', world, overlap, e, p, prop, vis0, vis, touched, f);
    DepositsKeep(e, p, prop, vis0, vis, touched, f);
    ResizedOwners(s, f.start);
    if f.home >= 0 {
      ClaimableSame(f.start, f.deposited, world, overlap, f.news);
      ClaimedOwners(f.deposited, f.claimed, world, overlap, f.home, f.news);
      ClaimedKeeps(f.deposited, f.claimed, world, overlap, f.home, f.news);
      OwnersThrough(s.owner, f.start.owner, s'.owner);
    }
  }

  lemma OwnersThrough(a: seq<int>, b: seq<int>, c: seq<int>)
    requires KeepsOwners(a, b) && KeepsOwners(b, c)
    ensures KeepsOwners(a, c)
  {
  }

  lemma ResizedOwners(s: Store, s': Store)
    requires Resized(s, s')
    ensures KeepsOwners(s.owner, s'.owner)
  {
  }

  lemma CoarsenedSame(root: seq<int>)
    ensures Coarsened(root, root)
  {
  }

  /** The touched edges link existing ids. */
  lemma FoldedTouches(s: Store, s': Store, world: seq<VKey>, overlap: bool, e: Scene, p: Params, prop: Proposal,
                      vis0: map<int, real>, vis: map<int, real>, touched: seq<EKey>, f: Fold)
    requires |s.comp| == |s.root| && Roots(s.root) && (forall g | 0 <= g < |s.owner| :: s.owner[g] >= -1)
    requires FoldedIn(s, s', world, overlap, e, p, prop, vis0, vis, touched, f)
    ensures KeysIn(touched, |s'.root|)
  {
    hide Deduped, Tallied, FreshFor, HomeOpened, Claimable, DepositFor, Claimed, Roots, VisCached, Resized;
    if f.pv == map[] || !p.globalContext || f.rep < 0 { return; }
    StartKeeps(s, s', world, overlap, e, p, prop, vis0, vis, touched, f);
    DepositsKeep(e, p, prop, vis0, vis, touched, f);
    if f.home >= 0 { ClaimedKeeps(f.deposited, f.claimed, world, overlap, f.home, f.news); }
    assert 0 <= f.rep < |s'.root|;
    forall i | 0 <= i < |touched| ensures 0 <= touched[i].a < |s'.root| && 0 <= touched[i].b < |s'.root| {
      assert DepositOf(f.housed, e, p, prop, f.pv, vis0, f.shared.Keys, f.rep, f.ds[i]);
      var c :| c in f.shared.Keys && 0 <= c < |f.housed.comp| && c != f.rep
               && DepositFor(f.housed, e, p, prop, f.pv, vis0, f.rep, c, f.ds[i]);
      DepositKey(f.housed, e, p, prop, f.pv, vis0, f.rep, c, f.ds[i]);
      assert IsRoot(s.root, c);
    }
  }

  // ---------- one frame ----------

  /** One proposal of the frame: the states around it, and what it did. */
  datatype Step = Step(before: Store, after: Store, vis0: map<int, real>, vis: map<int, real>, touched: seq<EKey>, f: Fold)

  ghost predicate StepOk(world: seq<VKey>, overlap: bool, e: Scene, p: Params, prop: Proposal, t: Step) {
    FoldedIn(t.before, t.after, world, overlap, e, p, prop, t.vis0, t.vis, t.touched, t.f)
  }

  /** The proposals folded in one after the other, starting in s with an empty ratio cache. */
  ghost predicate RunOk(s: Store, s': Store, world: seq<VKey>, overlap: bool, e: Scene, p: Params, props: seq<Proposal>,
                        run: seq<Step>)
  {
    && |run| == |props|
    && (forall i | 0 <= i < |run| :: StepOk(world, overlap, e, p, props[i], run[i]))
    && (forall i | 0 < i < |run| :: run[i].before == run[i - 1].after && run[i].vis0 == run[i - 1].vis)
    && (run != [] ==> run[0].before == s && run[0].vis0 == map[] && s' == run[|run| - 1].after)
    && (run == [] ==> s' == s)
  }

  ghost function LastVis(run: seq<Step>): map<int, real> { if run == [] then map[] else run[|run| - 1].vis }

  lemma RunMore(s: Store, mid: Store, s': Store, world: seq<VKey>, overlap: bool, e: Scene, p: Params,
                props: seq<Proposal>, run: seq<Step>, prop: Proposal, t: Step)
    requires RunOk(s, mid, world, overlap, e, p, props, run) && StepOk(world, overlap, e, p, prop, t)
    requires t.before == mid && t.after == s' && t.vis0 == LastVis(run)
    ensures RunOk(s, s', world, overlap, e, p, props + [prop], run + [t]) && LastVis(run + [t]) == t.vis
  {
    hide StepOk;
  }

  /** All edges touched during a run. */
  ghost function Touches(run: seq<Step>): seq<EKey> {
    if run == [] then [] else Touches(run[..|run| - 1]) + run[|run| - 1].touched
  }

  lemma TouchesMore(run: seq<Step>, t: Step)
    ensures Touches(run + [t]) == Touches(run) + t.touched
  {
    assert (run + [t])[..|run|] == run;
  }

  /** How many proposals of the run occupy a voxel of the map, and how many found a home. */
  ghost function Occupying(run: seq<Step>): nat {
    if run == [] then 0 else Occupying(run[..|run| - 1]) + if run[|run| - 1].f.pv != map[] then 1 else 0
  }

  lemma OccupyingMore(run: seq<Step>, t: Step)
    ensures Occupying(run + [t]) == Occupying(run) + if t.f.pv != map[] then 1 else 0
  {
    assert (run + [t])[..|run|] == run;
  }

  ghost predicate AnyHoused(run: seq<Step>) { exists i :: 0 <= i < |run| && Housed(run[i].f) }

  lemma HousedMore(run: seq<Step>, t: Step)
    ensures AnyHoused(run + [t]) <==> AnyHoused(run) || Housed(t.f)
  {
    var all := run + [t];
    assert all[|run|] == t;
    if AnyHoused(run) {
      var i :| 0 <= i < |run| && Housed(run[i].f);
      assert all[i] == run[i];
    }
  }

  lemma KeysWiden(ks: seq<EKey>, n: nat, more: seq<EKey>, m: nat)
    requires KeysIn(ks, n) && n <= m && KeysIn(more, m)
    ensures KeysIn(ks + more, m)
  {
  }

  // ---------- the frame's closing merges ----------

  /** The touched pairs that pass the gate merged, then the edge store recompacted. */
  ghost predicate Resolved(s: Store, s': Store, p: Params, touched: seq<EKey>, radj: map<EKey, EdgeAcc>, merges: seq<EKey>,
                           mid: Store, merged: bool)
  {
    && |s.comp| == |s.root| && KeysIn(touched, |s.root|)
    && Collapsed(s.root, s.edges, radj) && Chosen(s.root, s.comp, radj, p, touched, merges)
    && MergedBy(s, mid, merges) && (merged <==> merges != [])
    && if merged then Collapsed(mid.root, mid.edges, s'.edges) && s' == mid.(edges := s'.edges) else s' == mid == s
  }

  lemma ResolvedKeeps(s: Store, s': Store, p: Params, touched: seq<EKey>, radj: map<EKey, EdgeAcc>, merges: seq<EKey>,
                      mid: Store, merged: bool)
    requires Resolved(s, s', p, touched, radj, merges, mid, merged)
    ensures Keeps(s, s') && s'.homed == s.homed
    ensures LeastMerge(s.root, merges, s'.root)
    ensures if merged then s'.root != s.root else s' == s
    ensures ResolvedBy(s, s', p, touched)
  {
    hide Collapsed, Chosen, LeastMerge, GatheredInto, SameSums, Coarser;
    if merged { ResolvedChanges(s, mid, p, touched, radj, merges); }
  }

  ghost predicate ResolvedBy(s: Store, s': Store, p: Params, touched: seq<EKey>) {
    exists radj, merges, mid, merged :: Resolved(s, s', p, touched, radj, merges, mid, merged)
  }

  lemma ResolvedChanges(s: Store, mid: Store, p: Params, touched: seq<EKey>, radj: map<EKey, EdgeAcc>, merges: seq<EKey>)
    requires |s.comp| == |s.root| && KeysIn(touched, |s.root|) && Collapsed(s.root, s.edges, radj)
    requires Chosen(s.root, s.comp, radj, p, touched, merges) && MergedBy(s, mid, merges) && merges != []
    ensures mid.root != s.root
  {
    hide Collapsed, Chosen, MergedBy, HasEdge;
    MergedRoots(s, mid, merges);
    ChosenLinked(s.root, s.comp, s.edges, radj, p, touched, merges);
    assert merges[0] in merges;
    MergedByChanges(s, mid, merges);
  }

  lemma MergedRoots(s: Store, mid: Store, merges: seq<EKey>)
    requires MergedBy(s, mid, merges)
    ensures Roots(s.root)
  {
  }

  /** The grouping a frame ends with does not depend on the order in which edges were touched,
      collapsed or merged. */
  lemma ResolveOrderFree(s: Store, t: Store, u: Store, p: Params, touched: seq<EKey>, touched': seq<EKey>,
                         radj: map<EKey, EdgeAcc>, radj': map<EKey, EdgeAcc>, merges: seq<EKey>, merges': seq<EKey>,
                         mid: Store, mid': Store, merged: bool, merged': bool, x: int, y: int)
    requires Resolved(s, t, p, touched, radj, merges, mid, merged)
    requires Resolved(s, u, p, touched', radj', merges', mid', merged')
    requires (forall k :: k in touched <==> k in touched') && Roots(s.root) && EdgesOk(s.root, s.edges)
    requires 0 <= x < |s.root| && 0 <= y < |s.root|
    ensures |t.root| == |u.root| == |s.root| && (t.root[x] == t.root[y] <==> u.root[x] == u.root[y])
  {
    hide Collapsed, Chosen, MergedBy, LeastMerge, EdgesOk, SamePairs;
    CollapsedUnique(s.root, s.edges, radj, radj');
    ChosenSame(s.root, s.comp, radj, p, touched, touched', merges, merges');
    ResolvedKeeps(s, t, p, touched, radj, merges, mid, merged);
    ResolvedKeeps(s, u, p, touched', radj', merges', mid', merged');
    LeastSize(s.root, merges, t.root);
    LeastSize(s.root, merges', u.root);
    LeastMergeUnique(s.root, merges, merges', t.root, u.root, x, y);
  }

  lemma LeastSize(root: seq<int>, pairs: seq<EKey>, root': seq<int>)
    requires LeastMerge(root, pairs, root')
    ensures |root'| == |root|
  {
  }

  lemma NotResolved(s: Store)
    ensures Keeps(s, s)
  {
  }

  lemma RunNothing(s: Store, world: seq<VKey>, overlap: bool, e: Scene, p: Params)
    ensures RunOk(s, s, world, overlap, e, p, [], [])
  {
  }

  lemma KeepsSize(s: Store, s': Store)
    requires Keeps(s, s')
    ensures |s.root| <= |s'.root|
  {
  }

  lemma HousedIff(f: Fold)
    ensures Housed(f) <==> f.pv != map[] && f.home >= 0
  {
  }
}
