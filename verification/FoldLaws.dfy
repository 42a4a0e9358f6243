/** What folding in a proposal means in counts of voxels and votes. */
module FoldLaws {
  import opened SetSum
  import opened Voxels
  import opened ObjectStore
  import opened ObjectSteps
  import opened ObjectTally
  import opened ObjectGather
  import opened ObjectFold
  import opened ObjectRun

  // ---------- containment ----------

  /** Over each footprint the containment accounts for at least the shared voxels, and over one of them for
      exactly those. */
  lemma ContainmentIs(shared: nat, np: nat, csize: nat)
    requires np >= 1 && csize >= 1
    ensures var x := Containment(shared, np, csize);
            && x * np as real >= shared as real && x * csize as real >= shared as real
            && (x * np as real == shared as real || x * csize as real == shared as real)
  {
    var x := Containment(shared, np, csize);
    var least, most := if np < csize then np else csize, if np < csize then csize else np;
    OverAndBack(shared as real, least as real);
    NotLess(x, least as real, most as real);
  }

  lemma OverAndBack(x: real, n: real)
    requires n > 0.0
    ensures x / n * n == x && (x >= 0.0 ==> x / n >= 0.0)
  {
  }

  lemma NotLess(x: real, a: real, b: real)
    requires x >= 0.0 && a <= b
    ensures x * a <= x * b
  {
  }

  /** Containment is whole exactly when one footprint lies in the other. */
  lemma WholeIff(pv: map<VKey, int>, c: Comp)
    requires pv != map[] && c.vox != map[]
    ensures Containment(SharedVoxels(pv, c), |pv|, |c.vox|) == 1.0 <==> pv.Keys <= c.vox.Keys || c.vox.Keys <= pv.Keys
  {
    var a, b := pv.Keys, c.vox.Keys;
    SizeOfMap(pv);
    SizeOfMap(c.vox);
    SubsetSize(a * b, a);
    SubsetSize(a * b, b);
    var n, x := |a * b|, Containment(SharedVoxels(pv, c), |pv|, |c.vox|);
    var least := if |a| < |b| then |a| else |b|;
    WholeRatio(n, least);
    if a <= b { assert a * b == a; SubsetSize(a, b); }
    if b <= a { assert a * b == b; SubsetSize(b, a); }
    if x == 1.0 {
      assert n == least;
      if least == |a| { FullSubset(a * b, a); } else { FullSubset(a * b, b); }
    }
  }

  lemma SizeOfMap(m: map<VKey, int>)
    requires m != map[]
    ensures |m| == |m.Keys| >= 1
  {
    assert m.Keys != {};
  }

  lemma WholeRatio(n: nat, k: nat)
    requires k >= 1
    ensures n as real / k as real == 1.0 <==> n == k
  {
    OverAndBack(n as real, k as real);
  }

  lemma FullSubset(a: set<VKey>, b: set<VKey>)
    requires a <= b && |a| == |b|
    ensures a == b
  {
    assert b == a + (b - a);
    assert |b| == |a| + |b - a|;
  }

  /** The containment every level asks for is at most whole. */
  ghost predicate BarsBelowOne(thresh: seq<real>) { forall i | 0 <= i < |thresh| :: thresh[i] <= 1.0 }

  /** The bar of a level: the first one up to level 1, the last one from the last level on, 0.3 without any. */
  lemma LevelBar(thresh: seq<real>, level: int)
    ensures thresh == [] ==> ThresholdFor(thresh, level) == 0.3
    ensures thresh != [] && level <= 1 ==> ThresholdFor(thresh, level) == thresh[0]
    ensures thresh != [] && level >= |thresh| ==> ThresholdFor(thresh, level) == thresh[|thresh| - 1]
    ensures 1 <= level <= |thresh| ==> ThresholdFor(thresh, level) == thresh[level - 1]
    ensures BarsBelowOne(thresh) ==> ThresholdFor(thresh, level) <= 1.0
  {
  }

  /** Whatever class the votes elect, the guard lets it through. */
  ghost predicate GuardPasses(cls: map<int, int>, guarded: bool, classId: int) {
    forall cc | Dominates(cls, cc) :: guarded ==> cc < 0 || cc == classId
  }

  /** A proposal that lies wholly in a component, or holds one wholly, is a match for it at every level. */
  lemma WholeIsTarget(s: Store, pv: map<VKey, int>, thresh: seq<real>, guarded: bool, classId: int, shared: map<int, int>, r: int)
    requires |s.comp| == |s.root| && Tallied(s, pv, guarded, classId, shared) && IsRoot(s.root, r)
    requires pv != map[] && s.comp[r].vox != map[]
    requires pv.Keys <= s.comp[r].vox.Keys || s.comp[r].vox.Keys <= pv.Keys
    requires GuardPasses(s.comp[r].cls, guarded, classId) && BarsBelowOne(thresh)
    ensures Clears(s.comp, thresh, shared, |pv|, r)
  {
    hide Containment, ThresholdFor;
    var c := s.comp[r];
    WholeIff(pv, c);
    LevelBar(thresh, c.support);
    SizeOfMap(pv);
    SizeOfMap(c.vox);
    assert pv.Keys * c.vox.Keys == if pv.Keys <= c.vox.Keys then pv.Keys else c.vox.Keys;
    assert SharedVoxels(pv, c) > 0;
    assert !Verdict(c.cls, guarded, classId, false);
  }

  /** So no new component is opened for it. */
  lemma WholeOpensNone(s: Store, s': Store, p: Params, pv: map<VKey, int>, guarded: bool, classId: int, shared: map<int, int>,
                       unowned: bool, home: int, r: int)
    requires |s.comp| == |s.root| && Tallied(s, pv, guarded, classId, shared) && IsRoot(s.root, r)
    requires pv != map[] && s.comp[r].vox != map[]
    requires pv.Keys <= s.comp[r].vox.Keys || s.comp[r].vox.Keys <= pv.Keys
    requires GuardPasses(s.comp[r].cls, guarded, classId) && BarsBelowOne(p.mergeThresh)
    requires HomeOpened(s, s', p, |pv|, shared, unowned, home)
    ensures 0 <= home < |s.root| && |s'.root| == |s.root|
  {
    hide Clears, GatheredInto, Tallied;
    WholeIsTarget(s, pv, p.mergeThresh, guarded, classId, shared, r);
    assert AnyClears(s.comp, p.mergeThresh, shared, |pv|);
    ClearsInRange(s.comp, p.mergeThresh, shared, |pv|, home);
  }

  lemma ClearsInRange(comp: seq<Comp>, thresh: seq<real>, shared: map<int, int>, np: int, r: int)
    requires Clears(comp, thresh, shared, np, r)
    ensures 0 <= r < |comp|
  {
  }

  /** A match in numbers: the shared voxels reach the bar's share of the smaller footprint. */
  lemma ClearsIff(comp: seq<Comp>, thresh: seq<real>, shared: map<int, int>, np: nat, r: int)
    requires r in shared && 0 <= r < |comp| && np >= 1 && |comp[r].vox| >= 1
    ensures Clears(comp, thresh, shared, np, r) <==>
            var least := if np < |comp[r].vox| then np else |comp[r].vox|;
            shared[r] as real >= ThresholdFor(thresh, comp[r].support) * least as real
  {
    hide ThresholdFor;
    var least := if np < |comp[r].vox| then np else |comp[r].vox|;
    AtLeast(shared[r] as real, least as real, ThresholdFor(thresh, comp[r].support));
  }

  lemma AtLeast(x: real, n: real, bar: real)
    requires n > 0.0
    ensures x / n >= bar <==> x >= bar * n
  {
    OverAndBack(x, n);
    if x / n >= bar { Scaled(bar, x / n, n); } else { ScaledLess(x / n, bar, n); }
  }

  lemma Scaled(a: real, b: real, n: real)
    requires a <= b && n > 0.0
    ensures a * n <= b * n
  {
  }

  lemma ScaledLess(a: real, b: real, n: real)
    requires a < b && n > 0.0
    ensures a * n < b * n
  {
  }

  // ---------- deposits ----------

  /** The visible ratio is the share of the footprint in view, whole without a view or a footprint. */
  lemma VisibleShare(keys: set<VKey>, view: View)
    ensures view.Everything? || keys == {} ==> VisRatio(keys, view) == 1.0
    ensures view.Seen? ==> VisRatio(keys, view) * |keys| as real == |keys * view.keys| as real
  {
    if view.Seen? && keys != {} {
      SomeMember(keys);
      OverAndBack(|keys * view.keys| as real, |keys| as real);
    }
  }

  /** The confidence of a deposit is the visible share of the proposal times that of the component. */
  lemma ConfidenceIs(comp: Comp, pv: map<VKey, int>, view: View, vis: map<int, real>, c: int)
    requires c !in vis
    ensures DepositConf(comp, pv, view, vis, c) == VisRatio(pv.Keys, view) * VisRatio(comp.vox.Keys, view)
  {
    hide VisRatio, Times;
    VisibleShare(comp.vox.Keys, view);
    TimesIs(VisRatio(pv.Keys, view), VisRatio(comp.vox.Keys, view));
  }

  lemma TimesIs(x: real, y: real)
    ensures Times(x, y) == x * y
  {
  }

  /** The similarity part of a deposit is similarity times containment times confidence. */
  lemma DepositIs(s: Store, e: Scene, p: Params, prop: Proposal, pv: map<VKey, int>, vis: map<int, real>, rep: int, c: int, d: Deposit)
    returns (sim: real)
    requires 0 <= c < |s.comp| && DepositFor(s, e, p, prop, pv, vis, rep, c, d)
    ensures (d.key.a == rep && d.key.b == c) || (d.key.a == c && d.key.b == rep)
    ensures Similarity(e.sqrt, p.useSemantic, prop.hist, s.comp[c].cls, e.ncls, sim)
    ensures var cont := if p.useContainment then Containment(SharedVoxels(pv, s.comp[c]), |pv|, |s.comp[c].vox|) else 1.0;
            d.acc.simConf == sim * cont * d.acc.conf
  {
    hide Containment, Similarity, Product, DepositConf;
    sim :| Similarity(e.sqrt, p.useSemantic, prop.hist, s.comp[c].cls, e.ncls, sim)
           && d.acc.simConf == Product(sim, DepositCont(p, pv, s.comp[c]), d.acc.conf);
    ProductIs(sim, DepositCont(p, pv, s.comp[c]), d.acc.conf);
  }

  lemma ProductIs(x: real, y: real, z: real)
    ensures Product(x, y, z) == x * y * z
  {
  }

  // ---------- the first point of a voxel ----------

  /** The point that stands for a voxel is the first one listed that lies in it. */
  lemma {:induction false} FirstPointIs(points: seq<int>, cloud: seq<VKey>, k: VKey)
    ensures var g := FirstPoint(points, cloud, k);
            if g == -1 then forall i | 0 <= i < |points| && 0 <= points[i] < |cloud| :: cloud[points[i]] != k
            else exists i :: 0 <= i < |points| && points[i] == g && 0 <= g < |cloud| && cloud[g] == k
                             && forall j | 0 <= j < i && 0 <= points[j] < |cloud| :: cloud[points[j]] != k
    decreases |points|
  {
    if points != [] {
      var front := points[..|points| - 1];
      FirstPointIs(front, cloud, k);
      assert forall i | 0 <= i < |front| :: front[i] == points[i];
      var f := FirstPoint(front, cloud, k);
      if f >= 0 {
        var i :| 0 <= i < |front| && front[i] == f && 0 <= f < |cloud| && cloud[f] == k
                 && forall j | 0 <= j < i && 0 <= front[j] < |cloud| :: cloud[front[j]] != k;
        assert points[i] == f;
      } else if FirstPoint(points, cloud, k) >= 0 {
        assert points[|points| - 1] == FirstPoint(points, cloud, k);
      }
    }
  }

  // ---------- votes ----------

  /** All votes for class c. */
  ghost function ClassVotes(s: Store, c: int): int { GroupSum(s.comp, x => 0, 0, Tally.VotesFor(c)) }

  /** Votes for class c the folded proposals should have left: one per voxel of every housed proposal of it. */
  ghost function VotesCast(run: seq<Step>, props: seq<Proposal>, c: int): int
    requires |run| == |props|
  {
    if run == [] then 0
    else var n := |run| - 1;
         VotesCast(run[..n], props[..n], c) + if Housed(run[n].f) && props[n].classId == c then |run[n].f.pv| else 0
  }

  lemma GatheredVotes(s: Store, s': Store, c: int)
    requires Gathered(s, s')
    ensures ClassVotes(s', c) == ClassVotes(s, c)
  {
    assert Coarser(x => 0, s'.root);
    assert SameSums(s, s', x => 0, 0, Tally.VotesFor(c));
  }

  lemma HomedVotes(s: Store, s': Store, p: Params, np: int, shared: map<int, int>, unowned: bool, home: int, c: int)
    requires HomeOpened(s, s', p, np, shared, unowned, home)
    ensures ClassVotes(s', c) == ClassVotes(s, c)
  {
    hide Clears, HighestContainment, UnitedInto, Gathered;
    if s' == Grown(s) {
      assert Grown(s).comp[..|s.comp|] == s.comp;
      FoldedMeasure(EMPTY, EMPTY, Tally.VotesFor(c));
    } else if s' != s {
      GatheredVotes(s, s', c);
    }
  }

  lemma {:induction false} DepositsKeepComps(s: Store, ds: seq<Deposit>)
    ensures DepositAll(s, ds).comp == s.comp
    decreases |ds|
  {
    if ds != [] { DepositsKeepComps(s, ds[..|ds| - 1]); }
  }

  lemma JoinedVotes(s: Store, s': Store, world: seq<VKey>, overlap: bool, p: Params, prop: Proposal, f: Fold, c: int)
    requires f.home >= 0 && f.home < |f.deposited.comp| && f.home < |f.claimed.comp|
    requires Claimed(f.deposited, f.claimed, world, overlap, f.home, f.news)
    requires s' == Joined(f.claimed, f.home, prop.classId, |f.pv|, IdsOf(prop, overlap || p.globalContext))
    ensures ClassVotes(s', c) == ClassVotes(f.deposited, c) + if prop.classId == c then |f.pv| else 0
  {
    var r := f.home;
    GroupSumUpdate(f.deposited.comp, r, f.claimed.comp[r], x => 0, 0, Tally.VotesFor(c));
    GroupSumUpdate(f.claimed.comp, r, s'.comp[r], x => 0, 0, Tally.VotesFor(c));
  }

  lemma FoldVotes(s: Store, s': Store, world: seq<VKey>, overlap: bool, e: Scene, p: Params, prop: Proposal,
                  vis0: map<int, real>, vis: map<int, real>, touched: seq<EKey>, f: Fold, c: int)
    requires FoldedIn(s, s', world, overlap, e, p, prop, vis0, vis, touched, f)
    ensures ClassVotes(s', c) == ClassVotes(s, c) + if Housed(f) && prop.classId == c then |f.pv| else 0
  {
    hide Deduped, Tallied, FreshFor, HomeOpened, DepositsOk, VisCached, KeysOf, Claimed, Joined, IdsOf, NodeFor;
    if f.pv != map[] {
      HomedVotes(f.start, f.housed, p, |f.pv|, f.shared, f.news != map[], f.home, c);
      DepositsKeepComps(f.housed, f.ds);
      if f.home >= 0 { JoinedVotes(s, s', world, overlap, p, prop, f, c); }
    }
  }

  /** The home of a proposal gains its non-negative instance ids (in overlap mode or with global context),
      one vote per voxel for its class and one unit of support, and keeps every other component as it is. */
  lemma HomeGains(s: Store, s': Store, world: seq<VKey>, overlap: bool, e: Scene, p: Params, prop: Proposal,
                  vis0: map<int, real>, vis: map<int, real>, touched: seq<EKey>, f: Fold, x: int)
    requires FoldedIn(s, s', world, overlap, e, p, prop, vis0, vis, touched, f) && Housed(f)
    ensures 0 <= f.home < |s'.comp| == |f.claimed.comp| && s'.homed == f.claimed.homed + 1
    ensures var (was, now) := (f.claimed.comp[f.home], s'.comp[f.home]);
            && (x in now.ids <==> x in was.ids || (x >= 0 && x in prop.instIds && (overlap || p.globalContext)))
            && Votes(now.cls, x) == Votes(was.cls, x) + (if x == prop.classId then |f.pv| else 0)
            && now.support == was.support + 1 && now.vox == was.vox
    ensures forall r | 0 <= r < |s'.comp| && r != f.home :: s'.comp[r] == f.claimed.comp[r]
  {
    hide Deduped, Tallied, FreshFor, HomeOpened, DepositsOk, VisCached, KeysOf, Claimed, NodeFor;
  }

  /** Over a frame the votes for a class grow by the voxels of its housed proposals, and by nothing else. */
  lemma {:induction false} VotesAdded(s: Store, s': Store, world: seq<VKey>, overlap: bool, e: Scene, p: Params,
                                      props: seq<Proposal>, run: seq<Step>, c: int)
    requires RunOk(s, s', world, overlap, e, p, props, run)
    ensures ClassVotes(s', c) == ClassVotes(s, c) + VotesCast(run, props, c)
    decreases |run|
  {
    hide FoldedIn, Housed, ClassVotes;
    if run != [] {
      var n := |run| - 1;
      var t := run[n];
      assert StepOk(world, overlap, e, p, props[n], t);
      FoldVotes(t.before, t.after, world, overlap, e, p, props[n], t.vis0, t.vis, t.touched, t.f, c);
      assert RunOk(s, t.before, world, overlap, e, p, props[..n], run[..n]);
      VotesAdded(s, t.before, world, overlap, e, p, props[..n], run[..n], c);
    }
  }
}
