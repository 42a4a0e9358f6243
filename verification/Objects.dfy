/** The persistent object layer: a union-find over components, updated in place. */
module Objects {
  import opened Basics
  import opened SetSum
  import opened Voxels
  import opened UnionForest
  import opened Affinity
  import opened ObjectStore
  import opened ObjectSteps
  import opened ObjectTally
  import opened ObjectGather
  import opened ObjectFold
  import opened ObjectMerge
  import opened ObjectSmall
  import opened ObjectCache
  import opened ObjectRun

  class Objects {
    var parent: seq<int>
    var comp: seq<Comp>
    var ptOwner: seq<int>
    var ptVox: map<VKey, seq<int>>
    var edges: map<EKey, EdgeAcc>
    var version: nat
    var totalObs: nat
    var cache: seq<Obj>
    ghost var root: seq<int>
    ghost var depth: seq<nat>
    ghost var log: seq<Deposit>
    ghost var homed: nat
    ghost var world: seq<VKey>
    const overlap: bool

    ghost function S(): Store reads this { Store(root, comp, ptOwner, ptVox, edges, log, homed) }

    ghost predicate Valid() reads this {
      Forest(parent, root, depth) && Inv(S(), world, overlap)
    }

    constructor (overlapSets: bool)
      ensures Valid() && S() == Store([], [], [], map[], map[], [], 0) && world == [] && overlap == overlapSets
      ensures version == 0 && totalObs == 0
    {
      parent, comp, ptOwner, ptVox, edges, version, totalObs := [], [], [], map[], map[], 0, 0;
      cache, root, depth, log, homed, world, overlap := [], [], [], [], 0, [], overlapSets;
      new;
      EmptyStore(overlap);
    }

    // ---------- union-find ----------

    method Find(c0: int) returns (r: int)
      requires Forest(parent, root, depth) && 0 <= c0 < |parent|
      modifies this`parent
      ensures Forest(parent, root, depth) && r == root[c0] && IsRoot(root, r)
    {
      r := c0;
      assert NodeOk(parent, root, depth, c0);
      while parent[r] != r
        invariant 0 <= r < |parent| && root[r] == root[c0]
        decreases depth[r]
      {
        assert NodeOk(parent, root, depth, r);
        r := parent[r];
        assert NodeOk(parent, root, depth, r);
      }
      assert NodeOk(parent, root, depth, r);
      var c := c0;
      while parent[c] != r
        invariant Forest(parent, root, depth) && 0 <= c < |parent| && root[c] == r && root[r] == r
        decreases depth[c]
      {
        assert NodeOk(parent, root, depth, c);
        Compressed(parent, root, depth, c);
        var n := parent[c];
        assert NodeOk(parent, root, depth, n);
        parent := parent[c := r];
        c := n;
      }
    }

    method NewComp() returns (id: int)
      requires Valid()
      modifies this`parent, this`comp, this`root, this`depth
      ensures Valid() && S() == Grown(old(S())) && id == old(|root|)
    {
      Extended(parent, root, depth);
      InvGrown(S(), world, overlap);
      id := |parent|;
      parent, comp := parent + [id], comp + [EMPTY];
      root, depth := root + [id], depth + [0];
    }

    /** Drain the component with fewer voxels into the other one. */
    method Unite(a0: int, b0: int) returns (a: int)
      requires Valid() && 0 <= a0 < |parent| && 0 <= b0 < |parent|
      modifies this`parent, this`comp, this`root, this`depth
      ensures Valid() && IsRoot(root, a)
      ensures Unites(old(S()), S(), old(root[a0]), old(root[b0]), a)
    {
      hide Inv, Forest, Folded;
      ForestSize(parent, root, depth);
      CompsMatchRoots(S(), world, overlap);
      a := Find(a0);
      var b := Find(b0);
      if a == b { return; }
      if |comp[a].vox| < |comp[b].vox| { a, b := b, a; }
      var A := Drain(comp[a], comp[b]);
      InvMerged(S(), world, overlap, a, b);
      LinkedRoots(parent, root, depth, a, b);
      comp := comp[a := A][b := EMPTY];
      parent := parent[b := a];
      root, depth := Redirect(root, b, a), Deeper(root, depth, a, b);
    }

    // ---------- locating overlapped components ----------

    /** The roots whose footprint holds voxel k, each once. */
    method Holders(k: VKey, gid: int) returns (roots: seq<int>, owned: bool)
      requires Valid() && 0 <= gid < |world| && world[gid] == k && gid < |ptOwner| && (!overlap ==> Distinct(world))
      modifies this`parent
      ensures Valid()
      ensures forall i, j | 0 <= i < j < |roots| :: roots[i] != roots[j]
      ensures forall r :: r in roots <==> IsRoot(root, r) && r < |comp| && k in comp[r].vox
      ensures !overlap ==> owned == (ptOwner[gid] >= 0)
    {
      hide Inv;
      roots, owned := [], false;
      CompsMatchRoots(S(), world, overlap);
      if !overlap {
        var ow := ptOwner[gid];
        if ow >= 0 {
          owned := true;
          OwnerInRange(S(), world, overlap, gid);
          var r := Find(ow);
          roots := [r];
        }
        forall r ensures r in roots <==> IsRoot(root, r) && k in comp[r].vox {
          OwnerIsOnlyHolder(S(), world, k, gid, r);
        }
      } else if k in ptVox {
        LeavesInRange(S(), world, overlap, k);
        for i := 0 to |ptVox[k]|
          invariant Forest(parent, root, depth)
          invariant forall x, y | 0 <= x < y < |roots| :: roots[x] != roots[y]
          invariant forall r :: r in roots <==> Resolves(root, ptVox[k][..i], r)
        {
          ghost var roots0 := roots;
          var r := Find(ptVox[k][i]);
          assert ptVox[k][..i + 1] == ptVox[k][..i] + [ptVox[k][i]];
          if r !in roots { roots := roots + [r]; }
          forall x ensures x in roots <==> Resolves(root, ptVox[k][..i + 1], x) {
            ResolvesSnoc(root, ptVox[k][..i], ptVox[k][i], x);
            assert x in roots <==> x in roots0 || x == r;
          }
        }
        assert ptVox[k][..|ptVox[k]|] == ptVox[k];
        forall r ensures r in roots <==> IsRoot(root, r) && k in comp[r].vox { HolderIff(S(), world, k, r); }
      } else {
        forall r ensures r in roots <==> IsRoot(root, r) && k in comp[r].vox { HolderIff(S(), world, k, r); }
      }
    }

    /** Tally the voxels shared with every component the class guard lets through, and collect
        the voxels for the home component. */
    method Tally(pv: map<VKey, int>, guarded: bool, classId: int) returns (shared: map<int, int>, news: map<VKey, int>)
      requires Valid() && (!overlap ==> Distinct(world))
      requires forall k | k in pv :: 0 <= pv[k] < |world| && world[pv[k]] == k && pv[k] < |ptOwner|
      modifies this`parent
      ensures Valid() && |comp| == |root| && Tallied(S(), pv, guarded, classId, shared) && FreshFor(S(), overlap, pv, news)
    {
      hide Inv, Forest, Counted, Tallied, Distinct, VotesPositive;
      CompsMatchRoots(S(), world, overlap);
      CountNothing(S(), guarded, classId);
      shared, news := map[], map[];
      var verdict: map<int, bool> := map[];
      var todo := pv.Keys;
      assert pv.Keys - todo == {};
      while todo != {}
        invariant Valid() && todo <= pv.Keys
        invariant Counted(S(), pv.Keys - todo, guarded, classId, verdict, shared)
        invariant forall k | k in news :: k in pv.Keys - todo && news[k] == pv[k]
        invariant forall k | k in pv.Keys - todo :: k in news <==> overlap || !(ptOwner[pv[k]] >= 0)
      {
        SomeKey(todo);
        var k :| k in todo;
        var roots, owned := Holders(k, pv[k]);
        if overlap || !owned { news := news[k := pv[k]]; }
        ghost var done := pv.Keys - todo;
        PositiveVotes(S(), world, overlap);
        verdict, shared := CountVoxel(S(), comp, done, k, roots, guarded, classId, verdict, shared);
        assert pv.Keys - (todo - {k}) == done + {k};
        todo := todo - {k};
      }
      assert pv.Keys - {} == pv.Keys;
      CountDone(S(), pv, guarded, classId, verdict, shared);
    }

    // ---------- choosing the home ----------

    /** Union one more target into the home. */
    method JoinOne(home0: int, t: int, ghost s0: Store, ghost T: set<int>, ghost c: int) returns (home: int)
      requires Valid() && United(s0, S(), T, home0) && IsRoot(s0.root, t)
      requires |s0.root| == |s0.comp| == |comp| == |root|
      modifies this`parent, this`comp, this`root, this`depth
      ensures Valid() && United(s0, S(), T + {t}, home) && |comp| == |root| == |s0.comp|
      ensures 0 <= home0 < old(|comp|) && 0 <= home < |comp|
      ensures old(Pure(S()) && comp[home0].cls.Keys == {c}) && s0.comp[t].cls.Keys == {c} ==>
                Pure(S()) && comp[home].cls.Keys == {c}
    {
      hide Inv, Forest, United, Gathered, Pure, Unites;
      ForestSize(parent, root, depth);
      UnitedRoot(s0, S(), T, home0);
      home := home0;
      if t == home {
        assert T + {t} == T;
      } else {
        ghost var s := S();
        home := Unite(home, t);
        CompsMatchRoots(S(), world, overlap);
        UnitedStep(s0, s, S(), T, home0, t, home, c);
      }
    }

    /** Union every merge target into one component. */
    method JoinTargets(targets: seq<int>, primary: int, ghost c: int) returns (home: int)
      requires Valid() && primary in targets && forall i | 0 <= i < |targets| :: IsRoot(root, targets[i])
      modifies this`parent, this`comp, this`root, this`depth
      ensures Valid() && United(old(S()), S(), (set t | t in targets), home)
      ensures old(Pure(S())) && (forall t | t in targets && t < old(|comp|) :: old(comp)[t].cls.Keys == {c}) ==>
                Pure(S()) && home < |comp| && comp[home].cls.Keys == {c}
    {
      hide Inv, Forest, United, Gathered, Pure, Unites;
      CompsMatchRoots(S(), world, overlap);
      ghost var s0, T := S(), {primary};
      ghost var pure := Pure(s0) && forall t | t in targets && t < |comp| :: comp[t].cls.Keys == {c};
      home := primary;
      UnitedAlone(s0, primary);
      for i := 0 to |targets|
        invariant Valid() && United(s0, S(), T, home)
        invariant forall t :: t in T <==> t == primary || t in targets[..i]
        invariant |comp| == |root| == |s0.comp| == |s0.root| && 0 <= home < |comp|
        invariant pure ==> Pure(S()) && comp[home].cls.Keys == {c}
      {
        assert targets[..i + 1] == targets[..i] + [targets[i]] && targets[i] in targets;
        home := JoinOne(home, targets[i], s0, T, c);
        T := T + {targets[i]};
      }
      assert targets[..|targets|] == targets;
      SameMembers(T, targets);
    }

    // ---------- claiming voxels ----------

    /** Some listed id of voxel k resolves to r. */
    method HasLeaf(k: VKey, r: int) returns (present: bool)
      requires Forest(parent, root, depth) && InRange(LeavesAt(ptVox, k), |root|)
      modifies this`parent
      ensures Forest(parent, root, depth) && present == Resolves(root, LeavesAt(ptVox, k), r)
    {
      present := false;
      if k !in ptVox { return; }
      for i := 0 to |ptVox[k]|
        invariant Forest(parent, root, depth) && !Resolves(root, ptVox[k][..i], r)
      {
        var f := Find(ptVox[k][i]);
        assert ptVox[k][..i + 1] == ptVox[k][..i] + [ptVox[k][i]];
        ResolvesSnoc(root, ptVox[k][..i], ptVox[k][i], r);
        if f == r { return true; }
      }
      assert ptVox[k][..|ptVox[k]|] == ptVox[k];
    }

    method ClaimVoxel(r: int, k: VKey, g: int)
      requires Valid() && IsRoot(root, r) && ClaimableAt(S(), world, overlap, k, g) && (!overlap ==> Distinct(world))
      modifies this`parent, this`comp, this`ptOwner, this`ptVox
      ensures Valid() && r < old(|comp|) && S() == ClaimedOne(old(S()), overlap, r, k, g)
      ensures !overlap ==> k !in old(comp)[r].vox
    {
      hide Inv, Forest, Resolves, Distinct;
      CompsMatchRoots(S(), world, overlap);
      InvClaimedOne(S(), world, overlap, r, k, g);
      LeavesInRange(S(), world, overlap, k);
      if !overlap { UnownedIsUnheld(S(), world, r, k, g); }
      var isNew := k !in comp[r].vox;
      if isNew { comp := comp[r := comp[r].(vox := comp[r].vox[k := g])]; }
      if !overlap {
        if isNew { ptOwner := ptOwner[g := r]; }
      } else {
        var present := HasLeaf(k, r);
        if !present { ptVox := ptVox[k := LeavesAt(ptVox, k) + [r]]; }
      }
    }

    /** Add voxels to a component's footprint. */
    method ClaimVoxels(r: int, news: map<VKey, int>)
      requires Valid() && IsRoot(root, r) && Claimable(S(), world, overlap, news) && (!overlap ==> Distinct(world))
      modifies this`parent, this`comp, this`ptOwner, this`ptVox
      ensures Valid() && r < old(|comp|) && Claimed(old(S()), S(), world, overlap, r, news)
    {
      hide Inv, Forest, Claimed, ClaimableAt, ClaimedOne, Distinct;
      CompsMatchRoots(S(), world, overlap);
      ghost var s0 := S();
      ghost var taken: map<VKey, int> := map[];
      ClaimedNothing(s0, world, overlap, r);
      var todo := news.Keys;
      while todo != {}
        invariant Valid() && Claimed(s0, S(), world, overlap, r, taken) && root == s0.root
        invariant taken == map k | k in news.Keys - todo :: news[k]
        invariant todo <= news.Keys
      {
        SomeKey(todo);
        var k :| k in todo;
        ghost var s := S();
        StillClaimable(s0, s, world, overlap, r, taken, k, news[k]);
        ClaimVoxel(r, k, news[k]);
        ClaimedMore(s0, s, world, overlap, r, taken, k, news[k]);
        todo, taken := todo - {k}, taken[k := news[k]];
      }
      assert taken == news;
    }

    // ---------- depositing evidence ----------

    /** Add evidence to an edge. */
    method AddEvidence(rep: int, c: int, acc: EdgeAcc) returns (k: EKey)
      requires Valid() && 0 <= rep < |root| && 0 <= c < |root| && c != rep && 0.0 <= acc.simConf <= acc.conf && 0.0 < acc.conf
      modifies this`edges, this`log
      ensures Valid() && k == Ekey(rep, c) && S() == Deposited(old(S()), Deposit(k, acc))
    {
      hide Inv, Forest, Ekey;
      k := Ekey(rep, c);
      DepositLegal(S(), rep, c, acc);
      InvDeposited(S(), world, overlap, Deposit(k, acc));
      edges := edges[k := AddAcc(EdgeAt(edges, k), acc)];
      log := log + [Deposit(k, acc)];
    }

    /** Deposit evidence between node rep and every other component the proposal overlaps. */
    method MakeDeposits(e: Scene, p: Params, prop: Proposal, pv: map<VKey, int>, shared: map<int, int>, rep: int,
                        vis0: map<int, real>)
      returns (touched: seq<EKey>, vis: map<int, real>, ghost ds: seq<Deposit>)
      requires Valid() && IsRoot(root, rep) && IsSqrt(e.sqrt) && NonNegative(prop.hist) && VisOk(vis0)
      requires TrueCounts(S(), pv, shared)
      modifies this`edges, this`log
      ensures Valid() && Made(old(S()), S(), e, p, prop, pv, vis0, shared.Keys, rep, touched, vis, ds)
    {
      hide Inv, Forest, IsSqrt, NonNegative, VisRatio, Made, DepositSim, Deposited, VotesPositive, TrueCounts, DepositConf, VisOf;
      CompsMatchRoots(S(), world, overlap);
      touched, vis, ds := [], vis0, [];
      var visP := VisibleRatio(pv.Keys, e.view);
      ghost var s0 := S();
      MadeNothing(s0, e, p, prop, pv, vis0, rep);
      var todo := shared.Keys;
      ghost var among: set<int> := {};
      while todo != {}
        invariant Valid() && Made(s0, S(), e, p, prop, pv, vis0, among, rep, touched, vis, ds) && root == s0.root && comp == s0.comp
        invariant todo <= shared.Keys && among !! todo && forall c :: c in shared.Keys <==> c in among || c in todo
      {
        SomeInt(todo);
        var c :| c in todo;
        MadeKeeps(s0, S(), e, p, prop, pv, vis0, among, rep, touched, vis, ds);
        CountedTruly(s0, pv, shared, c);
        if c == rep {
          MadeSkip(s0, S(), e, p, prop, pv, vis0, among, rep, touched, vis, ds, c);
        } else {
          PositiveVotesOf(s0, world, overlap, c);
          ghost var s, vis1 := S(), vis;
          var acc;
          acc, vis := DepositValue(comp[c], e, p, prop, pv, shared[c], visP, vis, c);
          MadeMore(s0, s, e, p, prop, pv, vis0, among, rep, touched, vis1, ds, c, acc, vis);
          if acc.conf > 0.0 {
            var k := AddEvidence(rep, c, acc);
            touched, ds := touched + [k], ds + [Deposit(k, acc)];
          }
        }
        todo, among := todo - {c}, among + {c};
      }
      SameKeys(shared, among);
    }

    // ---------- one proposal ----------

    /** The component the proposal joins: the cleared ones, a new one, or none (-1). */
    method OpenHome(p: Params, np: int, shared: map<int, int>, unowned: bool, ghost classId: int) returns (home: int)
      requires Valid() && np > 0 && forall r | r in shared :: IsRoot(root, r) && r < |comp| && shared[r] > 0
      modifies this`parent, this`comp, this`root, this`depth
      ensures Valid() && HomeOpened(old(S()), S(), p, np, shared, unowned, home)
      ensures old(Pure(S())) && classId >= 0 && home >= 0 && ClassedAs(old(comp), shared.Keys, classId) ==>
                PureWith(S(), home, classId)
    {
      hide Inv, Forest, United, Gathered, Pure, PureWith, UnitedInto, Clears;
      ghost var s0 := S();
      CompsMatchRoots(s0, world, overlap);
      var targets, primary := Targets(comp, p.mergeThresh, shared, np);
      TargetsCleared(comp, p.mergeThresh, shared, np, targets, primary);
      if targets != [] {
        home := primary;
        if !p.globalContext {
          home := JoinTargets(targets, primary, classId);
          UnitedOpens(s0, S(), p.mergeThresh, np, shared, targets, home);
          UnitedRoot(s0, S(), (set t | t in targets), home);
        }
        if Pure(S()) && home < |comp| && comp[home].cls.Keys == {classId} && classId >= 0 { PureWithHome(S(), home, classId); }
      } else if unowned {
        home := NewComp();
        if Pure(s0) && classId >= 0 { PureWithNew(s0, classId); }
      } else {
        home := -1;
      }
    }

    /** The home takes the proposal's voxels, votes, ids and one unit of support. */
    method JoinHome(home: int, news: map<VKey, int>, classId: int, np: int, ids: set<int>) returns (ghost claimed: Store)
      requires Valid() && IsRoot(root, home) && np > 0
      requires Claimable(S(), world, overlap, news) && (!overlap ==> Distinct(world))
      modifies this`parent, this`comp, this`ptOwner, this`ptVox, this`homed
      ensures Valid() && home < old(|comp|) && Claimed(old(S()), claimed, world, overlap, home, news)
      ensures home < |claimed.comp| && S() == Joined(claimed, home, classId, np, ids)
      ensures old(PureWith(S(), home, classId)) ==> Pure(S())
    {
      hide Inv, Forest, Claimed, Claimable, Distinct, Voted, Pure, PureWith;
      ghost var s0 := S();
      ClaimVoxels(home, news);
      claimed := S();
      CompsMatchRoots(claimed, world, overlap);
      ClaimedKeeps(s0, claimed, world, overlap, home, news);
      InvJoined(claimed, world, overlap, home, classId, np, ids);
      if PureWith(s0, home, classId) {
        PureWithClaimed(s0, claimed, world, overlap, home, classId, news);
        PureAfterJoin(claimed, home, classId, np, ids);
      }
      comp := comp[home := Voted(comp[home], classId, np, ids)];
      homed := homed + 1;
    }

    /** Grow the owner index to cover point maxg. */
    method GrowOwners(maxg: int)
      requires Valid() && maxg >= -1
      modifies this`ptOwner
      ensures Valid() && Resized(old(S()), S()) && maxg < |ptOwner|
    {
      hide Inv, Forest;
      if |ptOwner| <= maxg {
        var more := seq(maxg + 1 - |ptOwner|, i => -1);
        InvResized(S(), world, overlap, ptOwner + more);
        ptOwner := ptOwner + more;
      }
    }

    /** With global context, deposit evidence from the home, or from the most overlapped component. */
    method DepositEvidence(e: Scene, p: Params, prop: Proposal, pv: map<VKey, int>, shared: map<int, int>, home: int,
                      vis0: map<int, real>)
      returns (touched: seq<EKey>, vis: map<int, real>, ghost rep: int, ghost ds: seq<Deposit>)
      requires Valid() && IsSqrt(e.sqrt) && NonNegative(prop.hist) && VisOk(vis0)
      requires TrueCounts(S(), pv, shared) && (home >= 0 ==> IsRoot(root, home))
      modifies this`edges, this`log
      ensures Valid() && NodeFor(shared, home, rep) && VisOk(vis)
      ensures if rep < 0 then S() == old(S()) && touched == [] && vis == vis0 && ds == []
              else Made(old(S()), S(), e, p, prop, pv, vis0, shared.Keys, rep, touched, vis, ds)
      ensures prop.classId >= 0 && old(ClassedAs(comp, shared.Keys, prop.classId)) ==>
                if home >= 0 then old(PureWith(S(), home, prop.classId)) ==> PureWith(S(), home, prop.classId)
                else old(Pure(S())) ==> Pure(S())
    {
      hide Inv, Forest, IsSqrt, NonNegative, Made, SharedVoxels, TrueCounts, ClassedAs, Pure, PureWith;
      TrueCountsPositive(S(), pv, shared);
      ghost var s0 := S();
      var node := home;
      if home < 0 { node := MostShared(shared); }
      touched, vis, rep, ds := [], vis0, node, [];
      if node >= 0 {
        touched, vis, ds := MakeDeposits(e, p, prop, pv, shared, node, vis0);
        MadeKeeps(s0, S(), e, p, prop, pv, vis0, shared.Keys, rep, touched, vis, ds);
        if ClassedAs(s0.comp, shared.Keys, prop.classId) && prop.classId >= 0 {
          if home < 0 && Pure(s0) { NodePure(s0, shared, rep, pv, prop.classId); }
          if PureWith(s0, node, prop.classId) {
            MadePure(s0, S(), e, p, prop, pv, vis0, shared, rep, touched, vis, ds, prop.classId);
            if home < 0 && Pure(s0) { PureWithVotes(S(), node, prop.classId); }
          }
        }
      }
    }

    /** Open a home for a tallied proposal, deposit its evidence and let it join. */
    method Settle(e: Scene, p: Params, prop: Proposal, pv: map<VKey, int>, shared: map<int, int>, news: map<VKey, int>,
                  vis0: map<int, real>)
      returns (touched: seq<EKey>, vis: map<int, real>, joined: bool, ghost f: Fold)
      requires Valid() && (!overlap ==> Distinct(world)) && IsSqrt(e.sqrt) && NonNegative(prop.hist) && VisOk(vis0)
      requires pv != map[] && TrueCounts(S(), pv, shared) && Claimable(S(), world, overlap, news)
      modifies this`parent, this`comp, this`ptOwner, this`ptVox, this`edges, this`root, this`depth, this`log, this`homed
      ensures Valid() && VisOk(vis) && f.pv == pv && f.shared == shared && f.news == news && f.start == old(S())
      ensures HomeOpened(f.start, f.housed, p, |pv|, shared, news != map[], f.home)
      ensures p.globalContext ==> NodeFor(shared, f.home, f.rep)
      ensures Deposits(e, p, prop, vis0, vis, touched, f) && JoinsHome(S(), world, overlap, p, prop, f)
      ensures joined <==> f.home >= 0
      ensures !joined ==> root == old(root) && comp == old(comp) && homed == old(homed)
      ensures old(Pure(S())) && prop.classId >= 0 && old(ClassedAs(comp, shared.Keys, prop.classId)) ==> Pure(S())
    {
      hide Inv, Forest, IsSqrt, NonNegative, HomeOpened, Made, Claimed, Pure, PureWith, Claimable, Distinct, TrueCounts,
        ClassedAs, Joined, NodeFor;
      ghost var start := S();
      CompsMatchRoots(start, world, overlap);
      TrueCountsPositive(start, pv, shared);
      var home := OpenHome(p, |pv|, shared, news != map[], prop.classId);
      ghost var housed := S();
      HomeOpenedKeeps(start, housed, p, |pv|, shared, news != map[], home);
      touched, vis := [], vis0;
      ghost var rep: int, ds: seq<Deposit> := -1, [];
      if p.globalContext {
        CountsAfterOpening(start, housed, p, |pv|, shared, news != map[], home, pv);
        touched, vis, rep, ds := DepositEvidence(e, p, prop, pv, shared, home, vis0);
      }
      f := Fold(pv, shared, news, home, rep, start, housed, S(), S(), ds);
      joined := home >= 0;
      if joined {
        ClaimableSame(start, S(), world, overlap, news);
        ghost var claimed := JoinHome(home, news, prop.classId, |pv|, IdsOf(prop, overlap || p.globalContext));
        f := f.(claimed := claimed);
      }
    }

    /** Fold one proposal into the component layer. */
    method FoldIn(cloud: seq<VKey>, e: Scene, p: Params, prop: Proposal, vis0: map<int, real>)
      returns (touched: seq<EKey>, vis: map<int, real>, changed: bool, ghost f: Fold)
      requires Valid() && cloud == world && (!overlap ==> Distinct(world))
      requires IsSqrt(e.sqrt) && NonNegative(prop.hist) && VisOk(vis0)
      modifies this`parent, this`comp, this`ptOwner, this`ptVox, this`edges, this`root, this`depth, this`log, this`homed, this`totalObs
      ensures Valid() && VisOk(vis)
      ensures FoldedIn(old(S()), S(), world, overlap, e, p, prop, vis0, vis, touched, f)
      ensures changed <==> f.pv != map[] && f.home >= 0
      ensures !changed ==> root == old(root) && comp == old(comp) && homed == old(homed)
      ensures totalObs == old(totalObs) + if f.pv == map[] then 0 else 1
      ensures p.requireClass && prop.classId >= 0 && old(Pure(S())) ==> Pure(S())
    {
      hide Inv, Forest, IsSqrt, NonNegative, Deduped, Tallied, FreshFor, HomeOpened, Deposits, JoinsHome, Pure, Claimable,
        Distinct, TrueCounts, ClassedAs, NodeFor;
      var pv, maxg := DedupVoxels(prop.points, cloud);
      touched, vis, changed := [], vis0, false;
      f := Fold(pv, map[], map[], -1, -1, S(), S(), S(), S(), []);
      if pv == map[] { return; }
      ghost var s0 := S();
      totalObs := totalObs + 1;
      GrowOwners(maxg);
      ghost var start := S();
      DedupedIn(pv, prop.points, cloud);
      CompsMatchRoots(start, world, overlap);
      OwnersOk(start, world, overlap);
      var guarded := p.requireClass && prop.classId >= 0;
      var shared, news := Tally(pv, guarded, prop.classId);
      TalliedTrue(start, pv, guarded, prop.classId, shared);
      FreshClaimable(start, world, overlap, pv, news);
      ResizedPure(s0, start);
      touched, vis, changed, f := Settle(e, p, prop, pv, shared, news, vis0);
    }

    // ---------- gated merges ----------

    /** The edge store restated between current roots. */
    method Collapse() returns (to: map<EKey, EdgeAcc>)
      requires Valid()
      modifies this`parent
      ensures Valid() && Collapsed(root, edges, to)
    {
      hide Inv, Collapsed, EdgeOk;
      CompsMatchRoots(S(), world, overlap);
      EdgesIn(S(), world, overlap);
      to := map[];
      CollapsedNothing(root);
      var todo := edges.Keys;
      ghost var seen: map<EKey, EdgeAcc> := map[];
      while todo != {}
        invariant Forest(parent, root, depth) && todo <= edges.Keys
        invariant seen == (map k | k in edges.Keys - todo :: edges[k]) && Collapsed(root, seen, to)
      {
        var k :| k in todo;
        EdgeEnds(root, edges, k);
        var a := Find(k.a);
        var b := Find(k.b);
        CollapsedMore(root, seen, to, k, edges[k]);
        if a != b { to := to[Ekey(a, b) := AddAcc(EdgeAt(to, Ekey(a, b)), edges[k])]; }
        todo, seen := todo - {k}, seen[k := edges[k]];
      }
      assert seen == edges;
    }

    /** Judge every touched root pair once against the snapshot. */
    method GatedPairs(touched: seq<EKey>, radj: map<EKey, EdgeAcc>, nbr: map<int, seq<int>>, p: Params)
      returns (merges: seq<EKey>)
      requires Valid() && KeysIn(touched, |root|) && ListsNeighbours(radj, nbr)
      modifies this`parent
      ensures Valid() && Chosen(root, comp, radj, p, touched, merges)
    {
      hide Inv, Gate, ListsNeighbours, Judged, Chosen, Ekey;
      CompsMatchRoots(S(), world, overlap);
      merges := [];
      var seen: set<EKey> := {};
      NothingChosen(root, comp, radj, p);
      for i := 0 to |touched|
        invariant Forest(parent, root, depth)
        invariant KeysIn(touched[..i], |root|) && Chosen(root, comp, radj, p, touched[..i], merges)
        invariant Judged(comp, radj, p, seen, merges)
      {
        var k := touched[i];
        assert k in touched && touched[..i + 1] == touched[..i] + [k];
        var a := Find(k.a);
        var b := Find(k.b);
        ghost var merges0 := merges;
        if Gate(comp, radj, p, a, b) {
          GateDistinct(comp, radj, p, a, b);
          if Ekey(a, b) in seen { JudgedPair(comp, radj, p, seen, merges, a, b); }
        }
        if a != b && Ekey(a, b) !in seen {
          var open := GateOf(comp, radj, nbr, p, a, b);
          if open { merges := merges + [EKey(a, b)]; }
          JudgedMore(comp, radj, p, seen, merges0, a, b, merges);
          seen := seen + {Ekey(a, b)};
        }
        ChosenSnoc(root, comp, radj, p, touched[..i], k, merges0, merges);
      }
      assert touched[..|touched|] == touched;
    }

    /** Apply the chosen merges. */
    method ApplyMerges(merges: seq<EKey>) returns (merged: bool)
      requires Valid() && KeysIn(merges, |root|)
      modifies this`parent, this`comp, this`root, this`depth
      ensures Valid() && MergedBy(old(S()), S(), merges)
      ensures !merged ==> S() == old(S())
      ensures merges == [] ==> !merged
      ensures merges != [] && IsRoot(old(root), merges[0].a) && IsRoot(old(root), merges[0].b) && merges[0].a != merges[0].b ==>
                merged
    {
      hide Inv, Forest, MergedBy, Merged;
      ghost var s0 := S();
      CompsMatchRoots(s0, world, overlap);
      MergedByNothing(s0);
      merged := false;
      for i := 0 to |merges|
        invariant Valid() && MergedBy(s0, S(), merges[..i]) && |root| == |comp| == |s0.root|
        invariant (!merged ==> S() == s0) && (i == 0 ==> !merged)
      {
        var m := merges[i];
        assert m in merges && merges[..i + 1] == merges[..i] + [m];
        ForestSize(parent, root, depth);
        ghost var s := S();
        var a := Find(m.a);
        var b := Find(m.b);
        ghost var win := a;
        if a != b {
          win := Unite(m.a, m.b);
          merged := true;
        }
        CompsMatchRoots(S(), world, overlap);
        MergedByMore(s0, s, S(), merges[..i], m, win);
      }
      assert merges[..|merges|] == merges;
      if merges != [] && IsRoot(s0.root, merges[0].a) && IsRoot(s0.root, merges[0].b) && merges[0].a != merges[0].b {
        MergedByChanges(s0, S(), merges);
      }
    }

    /** Collapse, judge the touched pairs, merge, and recompact the edge store if anything merged. */
    method ResolveMerges(touched: seq<EKey>, p: Params)
      returns (merged: bool, ghost radj: map<EKey, EdgeAcc>, ghost merges: seq<EKey>, ghost mid: Store)
      requires Valid() && KeysIn(touched, |root|)
      modifies this`parent, this`comp, this`edges, this`root, this`depth
      ensures Valid() && Resolved(old(S()), S(), p, touched, radj, merges, mid, merged)
      ensures old(Pure(S())) ==> Pure(S())
    {
      hide Inv, Forest, Collapsed, Chosen, MergedBy, ListsNeighbours, Pure, KeysIn, SnapshotOk, HasEdge;
      ghost var s0 := S();
      CompsMatchRoots(s0, world, overlap);
      MergedByNothing(s0);
      merged, merges, mid := false, [], s0;
      var snapshot := Collapse();
      radj := snapshot;
      if snapshot == map[] {
        NoneChosen(root, comp, radj, p, touched);
        return;
      }
      SnapshotFrom(root, edges, snapshot);
      var nbr := NeighbourLists(snapshot);
      var pairs := GatedPairs(touched, snapshot, nbr, p);
      merges := pairs;
      ChosenLinked(root, comp, edges, radj, p, touched, merges);
      PairsIn(root, merges, edges);
      assert pairs != [] ==> pairs[0] in pairs;
      merged := ApplyMerges(pairs);
      mid := S();
      MergedAlong(s0, mid, merges);
      if merged {
        var to := Collapse();
        InvCompacted(S(), world, overlap, to);
        if Pure(s0) {
          PureAlong(s0, mid);
          PureCompacted(mid, to);
        }
        edges := to;
      }
    }

    // ---------- small components ----------

    /** Absorb one small root into its best neighbour's current component. */
    method AbsorbOne(id: int, to: int, ghost s0: Store, ghost sweep: seq<int>) returns (ok: bool)
      requires Valid() && Absorbed(s0, S()) && |root| == |sweep| && Roots(sweep) && Coarsened(sweep, root)
      requires IsRoot(root, id) && IsRoot(sweep, id) && IsRoot(sweep, to) && HasEdge(sweep, s0.edges, id, to)
      modifies this`parent, this`comp, this`root, this`depth
      ensures Valid() && Absorbed(s0, S()) && |root| == |sweep| && Coarsened(sweep, root)
      ensures ok <==> old(root)[to] != id
      ensures if ok then NumRoots(root) < NumRoots(old(root)) else S() == old(S())
    {
      hide Inv, Forest, Absorbed, Coarsened, HasEdge, NumRoots, Merged;
      ForestSize(parent, root, depth);
      ghost var s := S();
      var tgt := Find(to);
      ok := tgt != id;
      if ok {
        CompsMatchRoots(s, world, overlap);
        ghost var win := Unite(id, tgt);
        AbsorbedMore(s0, sweep, s, S(), id, to, win);
      }
    }

    /** One sweep: absorb every small root that has a neighbour. */
    method SmallSweep(smallMin: int, ghost s0: Store) returns (progress: bool)
      requires Valid() && Absorbed(s0, S())
      modifies this`parent, this`comp, this`root, this`depth
      ensures Valid() && Absorbed(s0, S()) && |comp| == |root|
      ensures progress ==> NumRoots(root) < NumRoots(old(root))
      ensures !progress ==> S() == old(S())
      ensures !progress ==> forall r | IsRoot(root, r) && comp[r].support < smallMin :: Isolated(root, edges, r)
    {
      hide Inv, Forest, Absorbed, Coarsened, HasEdge, NumRoots, Isolated, BestLinks, Collapsed, EdgesOk;
      ghost var s1 := S();
      CompsMatchRoots(s1, world, overlap);
      EdgesIn(s1, world, overlap);
      ForestSize(parent, root, depth);
      var radj := Collapse();
      SnapshotFrom(root, edges, radj);
      var best := BestNeighbours(radj);
      progress := false;
      CoarsenedSelf(root);
      ForestSize(parent, root, depth);
      for id := 0 to |comp|
        invariant Valid() && Absorbed(s0, S()) && edges == s1.edges
        invariant |comp| == |root| == |parent| == |s1.root| && Coarsened(s1.root, root)
        invariant progress ==> NumRoots(root) < NumRoots(s1.root)
        invariant !progress ==> S() == s1
        invariant !progress ==> forall r | 0 <= r < id && IsRoot(root, r) && comp[r].support < smallMin :: r !in best
      {
        ForestSize(parent, root, depth);
        RootByParent(parent, root, depth, id);
        if parent[id] == id && comp[id].support < smallMin && id in best {
          LinkHasEdge(s1.root, s1.edges, radj, best, id);
          AbsorbedEdges(s0, S());
          var ok := AbsorbOne(id, best[id].to, s0, s1.root);
          if ok { progress := true; }
          CompsMatchRoots(S(), world, overlap);
          ForestSize(parent, root, depth);
          AbsorbedEdges(s0, S());
        }
      }
      if !progress {
        forall r | IsRoot(root, r) && comp[r].support < smallMin ensures Isolated(root, edges, r) {
          IsolatedWithoutLink(root, edges, radj, best, r);
        }
      }
    }

    /** Rebuild the published objects. */
    method RebuildCache(view: MapView, p: Params)
      requires Valid()
      modifies this`cache
      ensures CacheOk(root, comp, p.minMerges, overlap, view, cache)
    {
      hide Inv, Forest, CacheOk, OwnVoxels, VotesPositive;
      CompsMatchRoots(S(), world, overlap);
      PositiveVotes(S(), world, overlap);
      ForestSize(parent, root, depth);
      forall x | 0 <= x < |parent| ensures parent[x] == x <==> root[x] == x { RootByParent(parent, root, depth, x); }
      forall r | 0 <= r < |comp| ensures OwnVoxels(comp[r]) { VoxelsOwn(S(), world, overlap, r); }
      cache := BuildCache(parent, root, comp, p.minMerges, overlap, view);
    }

    /** Absorb small components until none has a neighbour left. */
    method MergeSmallComps(view: MapView, p: Params)
      requires Valid()
      modifies this`parent, this`comp, this`root, this`depth, this`version, this`cache
      ensures Valid() && Gathered(old(S()), S()) && |comp| == |root|
      ensures AlongEdges(old(root), old(edges), root)
      ensures old(Pure(S())) ==> Pure(S())
      ensures p.globalContext && p.smallSegMin > 0 ==>
                forall r | IsRoot(root, r) && comp[r].support < p.smallSegMin :: Isolated(root, edges, r)
      ensures if root == old(root) then S() == old(S()) && cache == old(cache) && version == old(version)
              else version == old(version) + 1 && CacheOk(root, comp, p.minMerges, overlap, view, cache)
    {
      hide Inv, Forest, Absorbed, NumRoots, Isolated, Pure, CacheOk, AlongEdges, Gathered;
      ghost var s0 := S();
      CompsMatchRoots(s0, world, overlap);
      AbsorbedSelf(s0);
      AbsorbedParts(s0, s0);
      if !p.globalContext || p.smallSegMin <= 0 { return; }
      var merged, progress := false, true;
      while progress
        invariant Valid() && Absorbed(s0, S()) && |comp| == |root| && version == old(version) && cache == old(cache)
        invariant if merged then NumRoots(root) < NumRoots(s0.root) else S() == s0
        invariant !progress ==> forall r | IsRoot(root, r) && comp[r].support < p.smallSegMin :: Isolated(root, edges, r)
        decreases NumRoots(root), progress
      {
        progress := SmallSweep(p.smallSegMin, s0);
        if progress { merged := true; }
      }
      AbsorbedParts(s0, S());
      if merged {
        version := version + 1;
        RebuildCache(view, p);
      }
    }

    // ---------- a frame ----------

    /** In overlap mode every counted proposal has been given a home. */
    ghost predicate AllHomed() reads this { overlap ==> homed == totalObs }

    /** Fold in the frame's proposals one by one. */
    method FoldAll(cloud: seq<VKey>, e: Scene, p: Params, props: seq<Proposal>)
      returns (touched: seq<EKey>, changed: bool, ghost run: seq<Step>)
      requires Valid() && AllHomed() && cloud == world && (!overlap ==> Distinct(world))
      requires IsSqrt(e.sqrt) && forall i | 0 <= i < |props| :: NonNegative(props[i].hist)
      modifies this`parent, this`comp, this`ptOwner, this`ptVox, this`edges, this`root, this`depth, this`log, this`homed, this`totalObs
      ensures Valid() && AllHomed() && KeysIn(touched, |root|) && touched == Touches(run)
      ensures RunOk(old(S()), S(), world, overlap, e, p, props, run) && Keeps(old(S()), S())
      ensures changed <==> AnyHoused(run)
      ensures !changed ==> root == old(root) && comp == old(comp) && homed == old(homed)
      ensures totalObs == old(totalObs) + Occupying(run)
      ensures p.requireClass && (forall i | 0 <= i < |props| :: props[i].classId >= 0) && old(Pure(S())) ==> Pure(S())
    {
      hide Inv, Forest, IsSqrt, NonNegative, FoldedIn, Pure, Distinct, Keeps, RunOk, Housed;
      ghost var s0 := S();
      NotResolved(s0);
      touched, changed, run := [], false, [];
      var vis: map<int, real> := map[];
      RunNothing(s0, world, overlap, e, p);
      for i := 0 to |props|
        invariant Valid() && AllHomed() && VisOk(vis) && KeysIn(touched, |root|) && touched == Touches(run)
        invariant RunOk(s0, S(), world, overlap, e, p, props[..i], run) && vis == LastVis(run) && Keeps(s0, S())
        invariant changed <==> AnyHoused(run)
        invariant !changed ==> root == old(root) && comp == old(comp) && homed == old(homed)
        invariant totalObs == old(totalObs) + Occupying(run)
        invariant p.requireClass && (forall j | 0 <= j < |props| :: props[j].classId >= 0) && Pure(s0) ==> Pure(S())
      {
        assert props[..i + 1] == props[..i] + [props[i]];
        ghost var s, vis0 := S(), vis;
        CompsMatchRoots(s, world, overlap);
        OwnersOk(s, world, overlap);
        var more, c;
        ghost var f;
        more, vis, c, f := FoldIn(cloud, e, p, props[i], vis);
        FoldedKeeps(s, S(), world, overlap, e, p, props[i], vis0, vis, more, f);
        FoldedTouches(s, S(), world, overlap, e, p, props[i], vis0, vis, more, f);
        KeepsTwice(s0, s, S());
        KeepsSize(s, S());
        ghost var t := Step(s, S(), vis0, vis, more, f);
        RunMore(s0, s, S(), world, overlap, e, p, props[..i], run, props[i], t);
        TouchesMore(run, t);
        OccupyingMore(run, t);
        HousedMore(run, t);
        HousedIff(f);
        KeysWiden(touched, |s.root|, more, |root|);
        touched, changed, run := touched + more, changed || c, run + [t];
      }
      assert props[..|props|] == props;
    }

    /** Merge what the frame's evidence allows and republish the objects if anything changed. */
    method FinishFrame(touched: seq<EKey>, changed0: bool, view: MapView, p: Params)
      requires Valid() && KeysIn(touched, |root|)
      modifies this`parent, this`comp, this`edges, this`root, this`depth, this`version, this`cache
      ensures Valid() && Keeps(old(S()), S()) && homed == old(homed)
      ensures if p.globalContext && touched != [] then ResolvedBy(old(S()), S(), p, touched) else S() == old(S())
      ensures if changed0 || root != old(root) then version == old(version) + 1 && CacheOk(root, comp, p.minMerges, overlap, view, cache)
              else version == old(version) && cache == old(cache) && S() == old(S())
      ensures old(Pure(S())) ==> Pure(S())
    {
      hide Inv, Forest, Pure, Keeps, CacheOk, Resolved, KeysIn;
      NotResolved(S());
      var changed := changed0;
      if p.globalContext && touched != [] {
        ghost var s := S();
        var merged;
        ghost var radj, merges, last;
        merged, radj, merges, last := ResolveMerges(touched, p);
        ResolvedKeeps(s, S(), p, touched, radj, merges, last, merged);
        changed := merged || changed;
      }
      if changed {
        version := version + 1;
        RebuildCache(view, p);
      }
    }

    /** Fold a frame's proposals into the component layer, merge what the evidence allows, and
        republish the objects. */
    method Consolidate(cloud: seq<VKey>, view: MapView, props: seq<Proposal>, p: Params, e: Scene)
      returns (ghost mid: Store, ghost run: seq<Step>)
      requires Valid() && AllHomed() && world <= cloud && (!overlap ==> Distinct(cloud))
      requires IsSqrt(e.sqrt) && forall i | 0 <= i < |props| :: NonNegative(props[i].hist)
      modifies this
      ensures Valid() && AllHomed() && Keeps(old(S()), S())
      ensures cloud == [] || props == [] ==>
                S() == old(S()) && world == old(world) && version == old(version) && cache == old(cache) && totalObs == old(totalObs)
      ensures cloud != [] && props != [] ==>
                world == cloud && RunOk(old(S()), mid, cloud, overlap, e, p, props, run) && totalObs == old(totalObs) + Occupying(run)
      ensures cloud != [] && props != [] ==>
                if p.globalContext && Touches(run) != [] then ResolvedBy(mid, S(), p, Touches(run)) else S() == mid
      ensures cloud != [] && props != [] ==>
                if AnyHoused(run) || root != mid.root
                then version == old(version) + 1 && CacheOk(root, comp, p.minMerges, overlap, view, cache)
                else version == old(version) && cache == old(cache) && root == old(root) && comp == old(comp)
      ensures p.requireClass && (forall i | 0 <= i < |props| :: props[i].classId >= 0) && old(Pure(S())) ==> Pure(S())
    {
      hide Inv, Forest, IsSqrt, NonNegative, Pure, Distinct, Keeps, RunOk, CacheOk, ResolvedBy, KeysIn, AnyHoused;
      mid, run := S(), [];
      NotResolved(S());
      if cloud == [] || props == [] { return; }
      InvWorldGrown(S(), world, cloud, overlap);
      world := cloud;
      var touched, changed;
      touched, changed, run := FoldAll(cloud, e, p, props);
      mid := S();
      FinishFrame(touched, changed, view, p);
      KeepsTwice(old(S()), mid, S());
    }
  }
}
