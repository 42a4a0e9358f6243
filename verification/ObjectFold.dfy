/** What one proposal does to the component layer, on store values: merge targets, claimed voxels,
    deposited evidence, and the whole fold-in. */
module ObjectFold {
  import opened Basics
  import opened SetSum
  import opened Voxels
  import opened Affinity
  import opened ObjectStore
  import opened ObjectSteps
  import opened ObjectTally
  import opened ObjectGather

  // ---------- merge targets ----------

  ghost predicate Clears(comp: seq<Comp>, thresh: seq<real>, shared: map<int, int>, np: int, r: int) {
    && r in shared && 0 <= r < |comp|
    && Containment(shared[r], np, |comp[r].vox|) >= ThresholdFor(thresh, comp[r].support)
  }

  ghost predicate BestAmong(comp: seq<Comp>, shared: map<int, int>, np: int, targets: seq<int>, primary: int)
  {
    if targets == [] then primary == -1
    else primary in targets && primary in shared && 0 <= primary < |comp| && forall r | r in targets ::
           r in shared && 0 <= r < |comp| &&
           Containment(shared[r], np, |comp[r].vox|) <= Containment(shared[primary], np, |comp[primary].vox|)
  }

  /** The components whose containment clears their level bar, and the one with the highest. */
  method Targets(comp: seq<Comp>, thresh: seq<real>, shared: map<int, int>, np: int) returns (targets: seq<int>, primary: int)
    requires np > 0 && forall r | r in shared :: 0 <= r < |comp| && shared[r] > 0
    ensures forall r :: r in targets <==> Clears(comp, thresh, shared, np, r)
    ensures forall i, j | 0 <= i < j < |targets| :: targets[i] != targets[j]
    ensures BestAmong(comp, shared, np, targets, primary)
  {
    hide Containment, ThresholdFor;
    targets, primary := [], -1;
    var best, todo := -1.0, shared.Keys;
    while todo != {}
      invariant todo <= shared.Keys
      invariant forall r :: r in targets <==> r !in todo && Clears(comp, thresh, shared, np, r)
      invariant forall i, j | 0 <= i < j < |targets| :: targets[i] != targets[j]
      invariant BestAmong(comp, shared, np, targets, primary)
      invariant best == if targets == [] then -1.0 else Containment(shared[primary], np, |comp[primary].vox|)
    {
      SomeInt(todo);
      var r :| r in todo;
      var cont := Containment(shared[r], np, |comp[r].vox|);
      ContainmentPositive(shared[r], np, |comp[r].vox|);
      if cont >= ThresholdFor(thresh, comp[r].support) {
        targets := targets + [r];
        if cont > best { best, primary := cont, r; }
      }
      todo := todo - {r};
    }
  }

  lemma ContainmentPositive(shared: int, np: int, csize: int)
    requires shared > 0
    ensures Containment(shared, np, csize) > 0.0
  {
  }

  // ---------- claiming voxels ----------

  /** All voxels of news added to root r's footprint; nothing already owned changes hands. */
  ghost predicate Claimed(s: Store, s': Store, world: seq<VKey>, overlap: bool, r: int, news: map<VKey, int>)
    requires 0 <= r < |s.comp|
  {
    && s'.root == s.root && s'.edges == s.edges && s'.log == s.log && s'.homed == s.homed
    && s'.comp == s.comp[r := s.comp[r].(vox := news + s.comp[r].vox)]
    && |s'.owner| == |s.owner|
    && (overlap ==> s'.owner == s.owner)
    && (!overlap ==> s'.boxes == s.boxes && forall g | 0 <= g < |s.owner| ::
                       s'.owner[g] == if Takes(world, news, g) then r else s.owner[g])
  }

  /** g is the point news brings for its voxel. */
  ghost predicate Takes(world: seq<VKey>, news: map<VKey, int>, g: int) {
    0 <= g < |world| && world[g] in news && news[world[g]] == g
  }

  lemma ClaimedNothing(s: Store, world: seq<VKey>, overlap: bool, r: int)
    requires 0 <= r < |s.comp|
    ensures Claimed(s, s, world, overlap, r, map[])
  {
    var none: map<VKey, int> := map[];
    assert none + s.comp[r].vox == s.comp[r].vox;
  }

  lemma ClaimedMore(s0: Store, s: Store, world: seq<VKey>, overlap: bool, r: int, news: map<VKey, int>, k: VKey, g: int)
    requires 0 <= r < |s0.comp| && Claimed(s0, s, world, overlap, r, news) && k !in news
    requires 0 <= g < |world| && world[g] == k && (overlap || (g < |s.owner| && k !in s.comp[r].vox))
    ensures Claimed(s0, ClaimedOne(s, overlap, r, k, g), world, overlap, r, news[k := g])
  {
    hide Resolves;
    var vox := s0.comp[r].vox;
    assert s.comp[r].vox == news + vox;
    if k in vox { assert news[k := g] + vox == news + vox; }
    else { assert news[k := g] + vox == (news + vox)[k := g]; }
    forall x | !overlap && 0 <= x < |s0.owner|
      ensures Takes(world, news[k := g], x) <==> Takes(world, news, x) || x == g {}
  }

  /** The voxels of news can be claimed: their points lie in the map and, in exclusive mode, no
      one owns them. */
  ghost predicate Claimable(s: Store, world: seq<VKey>, overlap: bool, news: map<VKey, int>) {
    forall k | k in news :: ClaimableAt(s, world, overlap, k, news[k])
  }

  ghost predicate ClaimableAt(s: Store, world: seq<VKey>, overlap: bool, k: VKey, g: int) {
    0 <= g < |world| && world[g] == k && (overlap || (g < |s.owner| && s.owner[g] == -1))
  }

  lemma StillClaimable(s0: Store, s: Store, world: seq<VKey>, overlap: bool, r: int, taken: map<VKey, int>, k: VKey, g: int)
    requires 0 <= r < |s0.comp| && Claimed(s0, s, world, overlap, r, taken) && k !in taken
    requires ClaimableAt(s0, world, overlap, k, g)
    ensures ClaimableAt(s, world, overlap, k, g)
  {
  }

  lemma UnownedIsUnheld(s: Store, world: seq<VKey>, r: int, k: VKey, g: int)
    requires Inv(s, world, false) && Distinct(world) && ClaimableAt(s, world, false, k, g) && IsRoot(s.root, r) && r < |s.comp|
    ensures k !in s.comp[r].vox
  {
    OwnerIsOnlyHolder(s, world, k, g, r);
  }

  // ---------- deposits ----------

  ghost function DepositAll(s: Store, ds: seq<Deposit>): Store {
    if ds == [] then s else Deposited(DepositAll(s, ds[..|ds| - 1]), ds[|ds| - 1])
  }

  lemma {:induction false} DepositAllKeeps(s: Store, ds: seq<Deposit>)
    ensures DepositAll(s, ds).log == s.log + ds
    ensures DepositAll(s, ds).(edges := s.edges, log := s.log) == s
    decreases |ds|
  {
    if ds != [] {
      DepositAllKeeps(s, ds[..|ds| - 1]);
      assert ds == ds[..|ds| - 1] + [ds[|ds| - 1]];
    }
  }

  /** The share of a footprint that lies in the view. */
  function VisRatio(keys: set<VKey>, view: View): (v: real)
    ensures 0.0 <= v <= 1.0
  {
    if view.Everything? || keys == {} then 1.0
    else SubsetSize(keys * view.keys, keys); SomeMember(keys);
         RatioAtMostOne(|keys * view.keys|, |keys|);
         |keys * view.keys| as real / |keys| as real
  }

  lemma SomeMember(keys: set<VKey>)
    requires keys != {}
    ensures |keys| >= 1
  {
  }

  /** Votes per class as a vector of ncls entries. */
  function ClassVector(cls: map<int, int>, ncls: nat): (v: seq<real>)
    ensures |v| == ncls && forall i | 0 <= i < ncls :: v[i] == Votes(cls, i) as real
  {
    seq(ncls, i => Votes(cls, i) as real)
  }

  /** sim is the semantic similarity of histogram and component: 1 when the term is off or the
      histogram does not fit, else the cosine (0 for a null vector). */
  ghost predicate Similarity(sqrt: real -> real, on: bool, hist: seq<real>, cls: map<int, int>, ncls: nat, sim: real) {
    if !on || hist == [] || |hist| != ncls then sim == 1.0
    else var ch := ClassVector(cls, ncls);
         if Dot(hist, hist) <= 0.0 || Dot(ch, ch) <= 0.0 then sim == 0.0
         else sim * sqrt(NormProduct(hist, ch)) == Dot(hist, ch)
  }

  method Similar(sqrt: real -> real, on: bool, hist: seq<real>, cls: map<int, int>, ncls: nat) returns (sim: real)
    requires IsSqrt(sqrt) && NonNegative(hist) && forall c | c in cls :: cls[c] > 0
    ensures Similarity(sqrt, on, hist, cls, ncls, sim) && 0.0 <= sim <= 1.0
  {
    hide Dot, IsSqrt, NormProduct;
    sim := 1.0;
    if on && hist != [] && |hist| == ncls {
      sim := Cosine(sqrt, hist, ClassVector(cls, ncls));
    }
  }

  /** What the fold-in reads of its surroundings: an exact square root, the number of classes and
      the frame's view. */
  datatype Scene = Scene(sqrt: real -> real, ncls: nat, view: View)

  /** What a proposal deposits between its node rep and component c. */
  ghost predicate DepositFor(s: Store, e: Scene, p: Params, prop: Proposal, pv: map<VKey, int>, vis: map<int, real>,
                             rep: int, c: int, d: Deposit)
    requires 0 <= c < |s.comp|
  {
    && d.key == Ekey(rep, c)
    && d.acc.conf == DepositConf(s.comp[c], pv, e.view, vis, c) > 0.0
    && DepositSim(s.comp[c], e, p, prop, pv, d.acc)
  }

  ghost predicate DepositSim(comp: Comp, e: Scene, p: Params, prop: Proposal, pv: map<VKey, int>, acc: EdgeAcc) {
    exists sim :: Similarity(e.sqrt, p.useSemantic, prop.hist, comp.cls, e.ncls, sim)
                  && acc.simConf == Product(sim, DepositCont(p, pv, comp), acc.conf)
  }

  ghost predicate DepositOf(s: Store, e: Scene, p: Params, prop: Proposal, pv: map<VKey, int>, vis: map<int, real>,
                            among: set<int>, rep: int, d: Deposit)
  {
    exists c :: c in among && 0 <= c < |s.comp| && c != rep && DepositFor(s, e, p, prop, pv, vis, rep, c, d)
  }

  ghost predicate HasDeposit(ds: seq<Deposit>, k: EKey) { exists i :: 0 <= i < |ds| && ds[i].key == k }

  /** One deposit for every component of `among` other than rep whose confidence is positive. */
  ghost predicate DepositsOk(s: Store, e: Scene, p: Params, prop: Proposal, pv: map<VKey, int>, vis: map<int, real>,
                             among: set<int>, rep: int, ds: seq<Deposit>)
  {
    && (forall i | 0 <= i < |ds| :: DepositOf(s, e, p, prop, pv, vis, among, rep, ds[i]))
    && (forall i, j | 0 <= i < j < |ds| :: ds[i].key != ds[j].key)
    && (forall c | c in among && 0 <= c < |s.comp| && c != rep && DepositConf(s.comp[c], pv, e.view, vis, c) > 0.0 ::
          HasDeposit(ds, Ekey(rep, c)))
  }

  lemma NoDeposits(s: Store, e: Scene, p: Params, prop: Proposal, pv: map<VKey, int>, vis: map<int, real>, rep: int)
    ensures DepositsOk(s, e, p, prop, pv, vis, {}, rep, [])
  {
    hide DepositOf, DepositConf;
  }

  /** Component c handled: by one more deposit d, or by none when it is rep or unseen. */
  lemma DepositsMore(s: Store, e: Scene, p: Params, prop: Proposal, pv: map<VKey, int>, vis: map<int, real>,
                     among: set<int>, rep: int, ds: seq<Deposit>, c: int, d: Deposit)
    requires DepositsOk(s, e, p, prop, pv, vis, among, rep, ds) && c !in among && 0 <= c < |s.comp| && c != rep
    requires DepositFor(s, e, p, prop, pv, vis, rep, c, d)
    ensures DepositsOk(s, e, p, prop, pv, vis, among + {c}, rep, ds + [d])
  {
    hide DepositFor, DepositConf, Ekey;
    var ds' := ds + [d];
    forall i | 0 <= i < |ds'| ensures DepositOf(s, e, p, prop, pv, vis, among + {c}, rep, ds'[i]) {
      if i < |ds| {
        assert ds'[i] == ds[i];
        OneOfMore(s, e, p, prop, pv, vis, among, rep, ds[i], c);
      } else {
        assert c in among + {c};
      }
    }
    forall x | x in among + {c} && 0 <= x < |s.comp| && x != rep && DepositConf(s.comp[x], pv, e.view, vis, x) > 0.0
      ensures HasDeposit(ds', Ekey(rep, x))
    {
      if x == c {
        DepositKey(s, e, p, prop, pv, vis, rep, c, d);
        assert ds'[|ds|] == d;
      } else {
        assert HasDeposit(ds, Ekey(rep, x));
        var i :| 0 <= i < |ds| && ds[i].key == Ekey(rep, x);
        assert ds'[i] == ds[i];
      }
    }
    forall i | 0 <= i < |ds| ensures ds[i].key != d.key { OtherKey(s, e, p, prop, pv, vis, among, rep, ds[i], c, d); }
  }

  lemma DepositKey(s: Store, e: Scene, p: Params, prop: Proposal, pv: map<VKey, int>, vis: map<int, real>,
                   rep: int, c: int, d: Deposit)
    requires 0 <= c < |s.comp| && DepositFor(s, e, p, prop, pv, vis, rep, c, d)
    ensures d.key == Ekey(rep, c)
  {
  }

  lemma OneOfMore(s: Store, e: Scene, p: Params, prop: Proposal, pv: map<VKey, int>, vis: map<int, real>,
                  among: set<int>, rep: int, d: Deposit, c: int)
    requires DepositOf(s, e, p, prop, pv, vis, among, rep, d)
    ensures DepositOf(s, e, p, prop, pv, vis, among + {c}, rep, d)
  {
    hide DepositFor;
    var x :| x in among && 0 <= x < |s.comp| && x != rep && DepositFor(s, e, p, prop, pv, vis, rep, x, d);
    assert x in among + {c};
  }

  lemma OtherKey(s: Store, e: Scene, p: Params, prop: Proposal, pv: map<VKey, int>, vis: map<int, real>,
                 among: set<int>, rep: int, d0: Deposit, c: int, d: Deposit)
    requires DepositOf(s, e, p, prop, pv, vis, among, rep, d0) && c !in among && 0 <= c < |s.comp|
    requires DepositFor(s, e, p, prop, pv, vis, rep, c, d)
    ensures d0.key != d.key
  {
    hide DepositFor;
    var x :| x in among && 0 <= x < |s.comp| && x != rep && DepositFor(s, e, p, prop, pv, vis, rep, x, d0);
    DepositKey(s, e, p, prop, pv, vis, rep, x, d0);
    DepositKey(s, e, p, prop, pv, vis, rep, c, d);
  }

  lemma DepositsSkip(s: Store, e: Scene, p: Params, prop: Proposal, pv: map<VKey, int>, vis: map<int, real>,
                     among: set<int>, rep: int, ds: seq<Deposit>, c: int)
    requires DepositsOk(s, e, p, prop, pv, vis, among, rep, ds)
    requires 0 <= c < |s.comp| && (c == rep || !(DepositConf(s.comp[c], pv, e.view, vis, c) > 0.0))
    ensures DepositsOk(s, e, p, prop, pv, vis, among + {c}, rep, ds)
  {
    hide DepositFor, DepositConf;
    forall i | 0 <= i < |ds| ensures DepositOf(s, e, p, prop, pv, vis, among + {c}, rep, ds[i]) {
      OneOfMore(s, e, p, prop, pv, vis, among, rep, ds[i], c);
    }
  }

  function Product(x: real, y: real, z: real): real { Times(Times(x, y), z) }

  function Times(x: real, y: real): real { x * y }

  lemma TimesBound(x: real, y: real)
    requires 0.0 <= x <= 1.0 && 0.0 <= y
    ensures 0.0 <= Times(x, y) <= y
  {
    MulMono(0.0, x, y);
    MulMono(x, 1.0, y);
  }

  function DepositCont(p: Params, pv: map<VKey, int>, c: Comp): real {
    if p.useContainment then Containment(SharedVoxels(pv, c), |pv|, |c.vox|) else 1.0
  }

  /** Visible ratios of proposal and component multiplied; a component met earlier in the frame
      keeps the ratio computed then. */
  function DepositConf(comp: Comp, pv: map<VKey, int>, view: View, vis: map<int, real>, c: int): real {
    Times(VisRatio(pv.Keys, view), VisOf(comp, view, vis, c))
  }

  function VisOf(comp: Comp, view: View, vis: map<int, real>, c: int): real {
    if view.Everything? then 1.0 else if c in vis then vis[c] else VisRatio(comp.vox.Keys, view)
  }

  ghost predicate VisOk(vis: map<int, real>) { forall c | c in vis :: 0.0 <= vis[c] <= 1.0 }

  lemma ProductBound(sim: real, cont: real, conf: real)
    requires 0.0 <= sim <= 1.0 && 0.0 <= cont <= 1.0 && 0.0 < conf
    ensures 0.0 <= Product(sim, cont, conf) <= conf
  {
    hide Times;
    TimesBound(sim, cont);
    TimesBound(Times(sim, cont), conf);
  }

  // ---------- the whole effect of one proposal ----------

  ghost predicate AnyClears(comp: seq<Comp>, thresh: seq<real>, shared: map<int, int>, np: int) {
    exists r :: Clears(comp, thresh, shared, np, r)
  }

  /** How a proposal gets its home: without global context all cleared components become one,
      with it the best of them stays as it is; failing those, a new component. */
  ghost predicate HomeOpened(s: Store, s': Store, p: Params, np: int, shared: map<int, int>, unowned: bool, home: int) {
    if AnyClears(s.comp, p.mergeThresh, shared, np) then
      Clears(s.comp, p.mergeThresh, shared, np, home) &&
      if p.globalContext then s' == s && HighestContainment(s.comp, p.mergeThresh, shared, np, home)
      else Gathered(s, s') && UnitedInto(s, s', p.mergeThresh, np, shared, home)
    else if unowned then s' == Grown(s) && home == |s.root|
    else s' == s && home == -1
  }

  /** Exactly the cleared components went into home. */
  ghost predicate UnitedInto(s: Store, s': Store, thresh: seq<real>, np: int, shared: map<int, int>, home: int)
    requires |s.root| == |s'.root|
  {
    forall x | 0 <= x < |s.root| ::
      s'.root[x] == if Clears(s.comp, thresh, shared, np, s.root[x]) then home else s.root[x]
  }

  ghost predicate HighestContainment(comp: seq<Comp>, thresh: seq<real>, shared: map<int, int>, np: int, home: int)
    requires home in shared && 0 <= home < |comp|
  {
    forall r | Clears(comp, thresh, shared, np, r) ::
      Containment(shared[r], np, |comp[r].vox|) <= Containment(shared[home], np, |comp[home].vox|)
  }

  /** The node deposits hang on: the home, else the component sharing most voxels. */
  ghost predicate NodeFor(shared: map<int, int>, home: int, rep: int) {
    if home >= 0 then rep == home
    else if shared.Keys == {} then rep == -1
    else rep in shared && forall r | r in shared :: shared[r] <= shared[rep]
  }

  /** Count the voxels of a footprint that lie in the view. */
  method VisibleRatio(keys: set<VKey>, view: View) returns (v: real)
    ensures v == VisRatio(keys, view)
  {
    hide VisRatio;
    if view.Everything? || keys == {} { VisTrivial(keys, view); return 1.0; }
    var seen := CountShared(keys, view.keys);
    SomeMember(keys);
    VisCounted(keys, view);
    v := seen as real / |keys| as real;
  }

  lemma VisTrivial(keys: set<VKey>, view: View)
    requires view.Everything? || keys == {}
    ensures VisRatio(keys, view) == 1.0
  {
  }

  lemma VisCounted(keys: set<VKey>, view: View)
    requires view.Seen? && keys != {} && |keys| >= 1
    ensures VisRatio(keys, view) == |keys * view.keys| as real / |keys| as real
  {
  }

  /** The evidence between a proposal and one component it overlaps, caching the component's
      visible ratio for the rest of the frame. */
  method DepositValue(comp: Comp, e: Scene, p: Params, prop: Proposal, pv: map<VKey, int>, n: int, visP: real,
                      vis0: map<int, real>, c: int)
    returns (acc: EdgeAcc, vis: map<int, real>)
    requires IsSqrt(e.sqrt) && NonNegative(prop.hist) && VisOk(vis0) && forall x | x in comp.cls :: comp.cls[x] > 0
    requires n == SharedVoxels(pv, comp) && visP == VisRatio(pv.Keys, e.view)
    ensures acc.conf == DepositConf(comp, pv, e.view, vis0, c) && DepositSim(comp, e, p, prop, pv, acc)
    ensures 0.0 < acc.conf ==> 0.0 <= acc.simConf <= acc.conf
    ensures vis == (if e.view.Everything? then vis0 else vis0[c := VisOf(comp, e.view, vis0, c)]) && VisOk(vis)
  {
    hide IsSqrt, NonNegative, Similarity, Product, Times, Containment, SharedVoxels, VisRatio;
    vis := vis0;
    var sim := Similar(e.sqrt, p.useSemantic, prop.hist, comp.cls, e.ncls);
    var cont := 1.0;
    if p.useContainment { cont := Containment(n, |pv|, |comp.vox|); }
    ContainmentAtMostOne(pv, comp);
    var visC := 1.0;
    if e.view.Seen? {
      if c in vis {
        visC := vis[c];
        assert vis[c := visC] == vis;
      } else {
        visC := VisibleRatio(comp.vox.Keys, e.view);
        vis := vis[c := visC];
      }
    }
    acc := EdgeAcc(Product(sim, cont, Times(visP, visC)), Times(visP, visC));
    if 0.0 < acc.conf { ProductBound(sim, cont, acc.conf); }
  }

  /** The tallied counts are true counts of shared voxels. */
  ghost predicate TrueCounts(s: Store, pv: map<VKey, int>, shared: map<int, int>) {
    forall r | r in shared :: IsRoot(s.root, r) && r < |s.comp| && shared[r] == SharedVoxels(pv, s.comp[r]) > 0
  }

  lemma TrueCountsPositive(s: Store, pv: map<VKey, int>, shared: map<int, int>)
    requires TrueCounts(s, pv, shared)
    ensures forall r | r in shared :: IsRoot(s.root, r) && r < |s.comp| && shared[r] > 0 && r >= 0
  {
  }

  lemma CountedTruly(s: Store, pv: map<VKey, int>, shared: map<int, int>, r: int)
    requires TrueCounts(s, pv, shared) && r in shared
    ensures IsRoot(s.root, r) && r < |s.comp| && shared[r] == SharedVoxels(pv, s.comp[r]) > 0
  {
  }

  /** The cache adds ratios of components of `among` to vis0. */
  ghost predicate VisCached(comp: seq<Comp>, view: View, vis0: map<int, real>, among: set<int>, vis: map<int, real>) {
    && VisOk(vis)
    && (forall c | c in vis0 :: c in vis && vis[c] == vis0[c])
    && (forall c | c in vis && c !in vis0 :: c in among && 0 <= c < |comp| && vis[c] == VisRatio(comp[c].vox.Keys, view))
  }

  lemma VisCachedMore(comp: seq<Comp>, view: View, vis0: map<int, real>, among: set<int>, vis: map<int, real>, c: int)
    requires VisCached(comp, view, vis0, among, vis) && 0 <= c < |comp| && c !in among
    ensures DepositConfSame(comp[c], view, vis0, vis, c)
    ensures var v := VisOf(comp[c], view, vis0, c);
            VisCached(comp, view, vis0, among + {c}, if view.Everything? then vis else vis[c := v])
  {
  }

  ghost predicate DepositConfSame(comp: Comp, view: View, vis0: map<int, real>, vis: map<int, real>, c: int) {
    VisOf(comp, view, vis, c) == VisOf(comp, view, vis0, c)
  }

  lemma VisCachedWider(comp: seq<Comp>, view: View, vis0: map<int, real>, among: set<int>, vis: map<int, real>, c: int)
    requires VisCached(comp, view, vis0, among, vis)
    ensures VisCached(comp, view, vis0, among + {c}, vis)
  {
  }

  lemma NothingCached(comp: seq<Comp>, view: View, vis0: map<int, real>)
    requires VisOk(vis0)
    ensures VisCached(comp, view, vis0, {}, vis0)
  {
  }

  lemma SameKeys(shared: map<int, int>, among: set<int>)
    requires forall c :: c in shared.Keys <==> c in among
    ensures among == shared.Keys
  {
    var keys := shared.Keys;
    assert forall c :: c in among <==> c in keys;
  }

  ghost predicate KeysOf(ds: seq<Deposit>, touched: seq<EKey>) {
    |touched| == |ds| && forall i | 0 <= i < |ds| :: touched[i] == ds[i].key
  }

  /** The deposits between rep and the components of `among` have been made, and nothing else. */
  ghost predicate Made(s0: Store, s: Store, e: Scene, p: Params, prop: Proposal, pv: map<VKey, int>, vis0: map<int, real>,
                       among: set<int>, rep: int, touched: seq<EKey>, vis: map<int, real>, ds: seq<Deposit>)
  {
    && s == DepositAll(s0, ds) && KeysOf(ds, touched)
    && DepositsOk(s0, e, p, prop, pv, vis0, among, rep, ds) && VisCached(s0.comp, e.view, vis0, among, vis)
  }

  lemma MadeNothing(s0: Store, e: Scene, p: Params, prop: Proposal, pv: map<VKey, int>, vis0: map<int, real>, rep: int)
    requires VisOk(vis0)
    ensures Made(s0, s0, e, p, prop, pv, vis0, {}, rep, [], vis0, [])
  {
    hide DepositsOk, VisCached;
    NoDeposits(s0, e, p, prop, pv, vis0, rep);
    NothingCached(s0.comp, e.view, vis0);
  }

  lemma MadeKeeps(s0: Store, s: Store, e: Scene, p: Params, prop: Proposal, pv: map<VKey, int>, vis0: map<int, real>,
                  among: set<int>, rep: int, touched: seq<EKey>, vis: map<int, real>, ds: seq<Deposit>)
    requires Made(s0, s, e, p, prop, pv, vis0, among, rep, touched, vis, ds)
    ensures s.root == s0.root && s.comp == s0.comp && s.owner == s0.owner && s.boxes == s0.boxes && s.homed == s0.homed
    ensures s.log == s0.log + ds && VisOk(vis) && |touched| == |ds|
  {
    hide DepositsOk;
    DepositAllKeeps(s0, ds);
  }

  lemma MadeSkip(s0: Store, s: Store, e: Scene, p: Params, prop: Proposal, pv: map<VKey, int>, vis0: map<int, real>,
                 among: set<int>, rep: int, touched: seq<EKey>, vis: map<int, real>, ds: seq<Deposit>, c: int)
    requires Made(s0, s, e, p, prop, pv, vis0, among, rep, touched, vis, ds) && 0 <= c < |s0.comp| && c == rep
    ensures Made(s0, s, e, p, prop, pv, vis0, among + {c}, rep, touched, vis, ds)
  {
    hide DepositsOk, VisCached;
    DepositsSkip(s0, e, p, prop, pv, vis0, among, rep, ds, c);
    VisCachedWider(s0.comp, e.view, vis0, among, vis, c);
  }

  /** Component c handled, with a deposit exactly when its confidence is positive. */
  lemma MadeMore(s0: Store, s: Store, e: Scene, p: Params, prop: Proposal, pv: map<VKey, int>, vis0: map<int, real>,
                 among: set<int>, rep: int, touched: seq<EKey>, vis: map<int, real>, ds: seq<Deposit>, c: int,
                 acc: EdgeAcc, vis': map<int, real>)
    requires Made(s0, s, e, p, prop, pv, vis0, among, rep, touched, vis, ds)
    requires 0 <= c < |s0.comp| && c != rep && c !in among
    requires acc.conf == DepositConf(s0.comp[c], pv, e.view, vis, c) && DepositSim(s0.comp[c], e, p, prop, pv, acc)
    requires vis' == if e.view.Everything? then vis else vis[c := VisOf(s0.comp[c], e.view, vis, c)]
    ensures var d := Deposit(Ekey(rep, c), acc);
            if acc.conf > 0.0
            then Made(s0, Deposited(s, d), e, p, prop, pv, vis0, among + {c}, rep, touched + [d.key], vis', ds + [d])
            else Made(s0, s, e, p, prop, pv, vis0, among + {c}, rep, touched, vis', ds)
  {
    hide DepositsOk, VisCached, DepositSim, Deposited, VisRatio, Ekey, VisOf;
    var d := Deposit(Ekey(rep, c), acc);
    VisCachedMore(s0.comp, e.view, vis0, among, vis, c);
    SameConf(s0.comp[c], pv, e.view, vis0, vis, c);
    if acc.conf > 0.0 {
      DepositsMore(s0, e, p, prop, pv, vis0, among, rep, ds, c, d);
      DepositAllSnoc(s0, ds, d);
    } else {
      DepositsSkip(s0, e, p, prop, pv, vis0, among, rep, ds, c);
    }
  }

  lemma SameConf(comp: Comp, pv: map<VKey, int>, view: View, vis0: map<int, real>, vis: map<int, real>, c: int)
    requires DepositConfSame(comp, view, vis0, vis, c)
    ensures DepositConf(comp, pv, view, vis, c) == DepositConf(comp, pv, view, vis0, c)
    ensures VisOf(comp, view, vis, c) == VisOf(comp, view, vis0, c)
  {
  }

  lemma DepositLegal(s: Store, rep: int, c: int, acc: EdgeAcc)
    requires 0 <= rep < |s.root| && 0 <= c < |s.root| && c != rep && 0.0 <= acc.simConf <= acc.conf && 0.0 < acc.conf
    ensures EdgeOk(s.root, Ekey(rep, c), acc)
  {
  }

  lemma DepositAllSnoc(s: Store, ds: seq<Deposit>, d: Deposit)
    ensures DepositAll(s, ds + [d]) == Deposited(DepositAll(s, ds), d)
  {
    assert (ds + [d])[..|ds|] == ds;
  }

  // ---------- purity while a proposal joins ----------

  /** The class a component counts as: c for the one a proposal of class c is joining. */
  ghost function ClassesOf(s: Store, r: int, c: int, x: int): set<int>
    requires 0 <= x < |s.comp|
  {
    if x == r then {c} else s.comp[x].cls.Keys
  }

  ghost predicate LinksOneClass(s: Store, r: int, c: int, k: EKey)
    requires |s.comp| == |s.root| && Roots(s.root)
  {
    0 <= k.a < |s.root| && 0 <= k.b < |s.root| && ClassesOf(s, r, c, s.root[k.a]) == ClassesOf(s, r, c, s.root[k.b])
  }

  /** Pure, once root r holds its first vote for class c. */
  ghost predicate PureWith(s: Store, r: int, c: int) {
    && |s.comp| == |s.root| && Roots(s.root) && IsRoot(s.root, r) && c >= 0 && s.comp[r].cls.Keys <= {c}
    && (forall x | IsRoot(s.root, x) && x != r :: OneClass(s.comp[x]))
    && (forall k | k in s.edges :: LinksOneClass(s, r, c, k))
  }

  lemma PureWithHome(s: Store, r: int, c: int)
    requires Pure(s) && IsRoot(s.root, r) && s.comp[r].cls.Keys == {c} && c >= 0
    ensures PureWith(s, r, c)
  {
    forall k | k in s.edges ensures LinksOneClass(s, r, c, k) { assert SameClass(s, k); }
  }

  lemma PureWithNew(s: Store, c: int)
    requires Pure(s) && c >= 0
    ensures PureWith(Grown(s), |s.root|, c)
  {
    var s' := Grown(s);
    forall x | IsRoot(s'.root, x) && x != |s.root| ensures OneClass(s'.comp[x]) { assert IsRoot(s.root, x); }
    forall k | k in s'.edges ensures LinksOneClass(s', |s.root|, c, k) { assert SameClass(s, k); }
  }

  lemma {:induction false} PureWithDeposits(s: Store, r: int, c: int, ds: seq<Deposit>)
    requires PureWith(s, r, c)
    requires forall i | 0 <= i < |ds| :: LinksOneClass(s, r, c, ds[i].key)
    ensures PureWith(DepositAll(s, ds), r, c)
    decreases |ds|
  {
    if ds != [] {
      var ds0 := ds[..|ds| - 1];
      forall i | 0 <= i < |ds0| ensures LinksOneClass(s, r, c, ds0[i].key) { assert ds0[i] == ds[i]; }
      PureWithDeposits(s, r, c, ds0);
      var s0 := DepositAll(s, ds0);
      DepositAllKeeps(s, ds0);
      var s' := DepositAll(s, ds);
      assert s0.root == s.root && s0.comp == s.comp && s'.root == s.root && s'.comp == s.comp;
      forall k | k in s'.edges ensures LinksOneClass(s', r, c, k) {
        assert k in s0.edges || k == ds[|ds| - 1].key;
        assert k in s0.edges ==> LinksOneClass(s0, r, c, k);
      }
    }
  }

  lemma PureWithClaimed(s: Store, s': Store, world: seq<VKey>, overlap: bool, r: int, c: int, news: map<VKey, int>)
    requires PureWith(s, r, c) && Claimed(s, s', world, overlap, r, news)
    ensures PureWith(s', r, c)
  {
    forall x | IsRoot(s'.root, x) && x != r ensures OneClass(s'.comp[x]) { assert OneClass(s.comp[x]); }
    forall k | k in s'.edges ensures LinksOneClass(s', r, c, k) { assert LinksOneClass(s, r, c, k); }
  }

  lemma PureAfterJoin(s: Store, r: int, c: int, np: int, ids: set<int>)
    requires PureWith(s, r, c)
    ensures Pure(Joined(s, r, c, np, ids))
  {
    var s' := Joined(s, r, c, np, ids);
    assert s'.comp[r].cls.Keys == {c};
    assert OneClass(s'.comp[r]);
    forall x | IsRoot(s'.root, x) ensures OneClass(s'.comp[x]) { if x != r { assert OneClass(s.comp[x]); } }
    forall k | k in s'.edges ensures SameClass(s', k) { assert LinksOneClass(s, r, c, k); }
  }

  /** The class guard lets a pure component through only for its own class. */
  lemma GuardMeansClass(s: Store, r: int, classId: int)
    requires Pure(s) && IsRoot(s.root, r) && classId >= 0 && Verdict(s.comp[r].cls, true, classId, true)
    ensures s.comp[r].cls.Keys == {classId}
  {
    assert OneClass(s.comp[r]);
    var x :| x >= 0 && s.comp[r].cls.Keys == {x};
    assert x in s.comp[r].cls;
    var cc :| Dominates(s.comp[r].cls, cc) && Agrees(true, cc, classId);
    assert cc in s.comp[r].cls.Keys;
  }

  // ---------- consequences of opening a home ----------

  lemma HomeOpenedKeeps(s: Store, s': Store, p: Params, np: int, shared: map<int, int>, unowned: bool, home: int)
    requires |s.comp| == |s.root| && Roots(s.root) && HomeOpened(s, s', p, np, shared, unowned, home)
    requires forall r | r in shared :: IsRoot(s.root, r)
    ensures s'.owner == s.owner && s'.boxes == s.boxes && s'.edges == s.edges && s'.log == s.log && s'.homed == s.homed
    ensures Coarsened(s.root, s'.root)
    ensures home >= 0 ==> IsRoot(s'.root, home)
    ensures home < 0 ==> s' == s
    ensures home < 0 && p.globalContext ==> !unowned
  {
    hide Containment, ThresholdFor;
    if AnyClears(s.comp, p.mergeThresh, shared, np) && !p.globalContext { GatheredRest(s, s'); }
  }

  lemma GatheredRest(s: Store, s': Store)
    requires Gathered(s, s')
    ensures s'.owner == s.owner && s'.boxes == s.boxes && s'.edges == s.edges && s'.log == s.log && s'.homed == s.homed
    ensures Coarsened(s.root, s'.root)
  {
  }

  lemma CountsAfterOpening(s: Store, s': Store, p: Params, np: int, shared: map<int, int>, unowned: bool, home: int,
                           pv: map<VKey, int>)
    requires |s.comp| == |s.root| && HomeOpened(s, s', p, np, shared, unowned, home) && p.globalContext
    requires TrueCounts(s, pv, shared)
    ensures TrueCounts(s', pv, shared)
    ensures forall c | ClassedAs(s.comp, shared.Keys, c) :: ClassedAs(s'.comp, shared.Keys, c)
  {
    hide Containment, ThresholdFor, SharedVoxels, HighestContainment, Clears;
  }

  ghost predicate ClassedAs(comp: seq<Comp>, rs: set<int>, classId: int) {
    forall r | r in rs && 0 <= r < |comp| :: comp[r].cls.Keys == {classId}
  }

  lemma TargetsCleared(comp: seq<Comp>, thresh: seq<real>, shared: map<int, int>, np: int, targets: seq<int>, primary: int)
    requires forall r :: r in targets <==> Clears(comp, thresh, shared, np, r)
    requires BestAmong(comp, shared, np, targets, primary)
    ensures forall r | r in targets :: r in shared
    ensures targets == [] ==> !AnyClears(comp, thresh, shared, np)
    ensures targets != [] ==> AnyClears(comp, thresh, shared, np) && primary in targets && primary in shared
                              && Clears(comp, thresh, shared, np, primary)
                              && HighestContainment(comp, thresh, shared, np, primary)
  {
    hide Containment, ThresholdFor;
  }

  lemma UnitedOpens(s: Store, s': Store, thresh: seq<real>, np: int, shared: map<int, int>, targets: seq<int>, home: int)
    requires forall r :: r in targets <==> Clears(s.comp, thresh, shared, np, r)
    requires United(s, s', (set t | t in targets), home)
    ensures AnyClears(s.comp, thresh, shared, np) && Clears(s.comp, thresh, shared, np, home)
    ensures Gathered(s, s') && UnitedInto(s, s', thresh, np, shared, home)
  {
    hide Clears, Gathered;
    GatheredShape(s, s');
    var T := set t | t in targets;
    assert home in T && home in targets;
  }

  /** The component sharing most voxels with the proposal. */
  method MostShared(shared: map<int, int>) returns (rep: int)
    requires forall r | r in shared :: shared[r] > 0 && r >= 0
    ensures NodeFor(shared, -1, rep)
  {
    rep := -1;
    var most, todo := -1, shared.Keys;
    while todo != {}
      invariant todo <= shared.Keys
      invariant todo == shared.Keys ==> rep == -1 && most == -1
      invariant todo != shared.Keys ==> rep in shared && most == shared[rep]
      invariant forall r | r in shared.Keys - todo :: shared[r] <= most
    {
      SomeInt(todo);
      var r :| r in todo;
      if shared[r] > most { most, rep := shared[r], r; }
      todo := todo - {r};
    }
    if shared.Keys != {} { SomeInt(shared.Keys); }
  }

  /** Everything one proposal does to the store, step by step. */
  datatype Fold = Fold(pv: map<VKey, int>, shared: map<int, int>, news: map<VKey, int>, home: int, rep: int,
                       start: Store, housed: Store, deposited: Store, claimed: Store, ds: seq<Deposit>)

  /** The owner index extended with unowned points. */
  ghost predicate Resized(s: Store, s': Store) {
    && s' == s.(owner := s'.owner) && s.owner <= s'.owner
    && forall g | |s.owner| <= g < |s'.owner| :: s'.owner[g] == -1
  }

  function IdsOf(prop: Proposal, keep: bool): (ids: set<int>)
    ensures !keep ==> forall i :: i !in ids
    ensures keep ==> forall i :: i in ids <==> i in prop.instIds && i >= 0
  {
    set i | i in prop.instIds && i >= 0 && keep
  }

  ghost predicate Deposits(e: Scene, p: Params, prop: Proposal, vis0: map<int, real>, vis: map<int, real>,
                           touched: seq<EKey>, f: Fold)
  {
    if !p.globalContext || f.rep < 0 then f.deposited == f.housed && touched == [] && vis == vis0 && f.ds == []
    else Made(f.housed, f.deposited, e, p, prop, f.pv, vis0, f.shared.Keys, f.rep, touched, vis, f.ds)
  }

  ghost predicate JoinsHome(s': Store, world: seq<VKey>, overlap: bool, p: Params, prop: Proposal, f: Fold) {
    if f.home < 0 then s' == f.deposited
    else && f.home < |f.deposited.comp| && f.home < |f.claimed.comp|
         && Claimed(f.deposited, f.claimed, world, overlap, f.home, f.news)
         && s' == Joined(f.claimed, f.home, prop.classId, |f.pv|, IdsOf(prop, overlap || p.globalContext))
  }

  /** The effect of folding in one proposal: dedup, tally, home, deposits, join. */
  ghost predicate FoldedIn(s: Store, s': Store, world: seq<VKey>, overlap: bool, e: Scene, p: Params, prop: Proposal,
                           vis0: map<int, real>, vis: map<int, real>, touched: seq<EKey>, f: Fold)
  {
    && Deduped(f.pv, prop.points, world)
    && if f.pv == map[] then s' == s && vis == vis0 && touched == []
       else && Resized(s, f.start) && |f.start.comp| == |f.start.root|
            && (forall k | k in f.pv :: f.pv[k] < |f.start.owner|)
            && Tallied(f.start, f.pv, p.requireClass && prop.classId >= 0, prop.classId, f.shared)
            && FreshFor(f.start, overlap, f.pv, f.news)
            && HomeOpened(f.start, f.housed, p, |f.pv|, f.shared, f.news != map[], f.home)
            && (p.globalContext ==> NodeFor(f.shared, f.home, f.rep))
            && Deposits(e, p, prop, vis0, vis, touched, f)
            && JoinsHome(s', world, overlap, p, prop, f)
  }

  lemma TalliedTrue(s: Store, pv: map<VKey, int>, guarded: bool, classId: int, shared: map<int, int>)
    requires |s.comp| == |s.root| && Tallied(s, pv, guarded, classId, shared)
    ensures TrueCounts(s, pv, shared)
    ensures forall r | r in shared :: IsRoot(s.root, r) && r < |s.comp| && shared[r] > 0
    ensures Pure(s) && guarded && classId >= 0 ==> ClassedAs(s.comp, shared.Keys, classId)
  {
    hide Verdict, Pure;
    if Pure(s) && guarded && classId >= 0 {
      forall r | r in shared.Keys && 0 <= r < |s.comp| ensures s.comp[r].cls.Keys == {classId} { GuardMeansClass(s, r, classId); }
    }
  }

  /** In overlap mode every proposal with a voxel finds a home. */
  lemma FreshClaimable(s: Store, world: seq<VKey>, overlap: bool, pv: map<VKey, int>, news: map<VKey, int>)
    requires FreshFor(s, overlap, pv, news) && forall g | 0 <= g < |s.owner| :: s.owner[g] >= -1
    requires forall k | k in pv :: 0 <= pv[k] < |world| && world[pv[k]] == k && pv[k] < |s.owner|
    ensures Claimable(s, world, overlap, news)
    ensures overlap && pv != map[] ==> news != map[]
  {
    if overlap && pv != map[] {
      assert pv.Keys != {};
      SomeKey(pv.Keys);
      var k :| k in pv.Keys;
      assert k in news;
    }
  }

  lemma ClaimableSame(s: Store, s': Store, world: seq<VKey>, overlap: bool, news: map<VKey, int>)
    requires Claimable(s, world, overlap, news) && s'.owner == s.owner
    ensures Claimable(s', world, overlap, news)
  {
    forall k | k in news ensures ClaimableAt(s', world, overlap, k, news[k]) {
      assert ClaimableAt(s, world, overlap, k, news[k]);
    }
  }

  lemma ClaimedKeeps(s: Store, s': Store, world: seq<VKey>, overlap: bool, r: int, news: map<VKey, int>)
    requires 0 <= r < |s.comp| && Claimed(s, s', world, overlap, r, news)
    ensures s'.root == s.root && |s'.comp| == |s.comp| && s'.log == s.log && s'.edges == s.edges && s'.homed == s.homed
    ensures |s'.owner| == |s.owner|
  {
  }

  lemma DedupedIn(pv: map<VKey, int>, points: seq<int>, cloud: seq<VKey>)
    requires Deduped(pv, points, cloud)
    ensures forall k | k in pv :: 0 <= pv[k] < |cloud| && cloud[pv[k]] == k
  {
  }

  lemma OwnersOk(s: Store, world: seq<VKey>, overlap: bool)
    requires Inv(s, world, overlap)
    ensures forall g | 0 <= g < |s.owner| :: s.owner[g] >= -1
  {
  }

  lemma ResizedPure(s: Store, s': Store)
    requires Resized(s, s')
    ensures s'.root == s.root && s'.comp == s.comp && s'.edges == s.edges && s'.log == s.log && s'.homed == s.homed
    ensures Pure(s) ==> Pure(s')
  {
    if Pure(s) {
      forall k | k in s'.edges ensures SameClass(s', k) { assert SameClass(s, k); }
    }
  }

  /** Deposits among components of one class keep the store pure. */
  lemma MadePure(s0: Store, s: Store, e: Scene, p: Params, prop: Proposal, pv: map<VKey, int>, vis0: map<int, real>,
                 shared: map<int, int>, rep: int, touched: seq<EKey>, vis: map<int, real>, ds: seq<Deposit>, c: int)
    requires Made(s0, s, e, p, prop, pv, vis0, shared.Keys, rep, touched, vis, ds)
    requires PureWith(s0, rep, c) && TrueCounts(s0, pv, shared) && ClassedAs(s0.comp, shared.Keys, c)
    ensures PureWith(s, rep, c)
  {
    hide DepositSim, DepositConf, VisCached, SharedVoxels, OneClass;
    forall i | 0 <= i < |ds| ensures LinksOneClass(s0, rep, c, ds[i].key) {
      assert DepositOf(s0, e, p, prop, pv, vis0, shared.Keys, rep, ds[i]);
      var x :| x in shared.Keys && 0 <= x < |s0.comp| && x != rep && DepositFor(s0, e, p, prop, pv, vis0, rep, x, ds[i]);
      CountedTruly(s0, pv, shared, x);
      assert s0.comp[x].cls.Keys == {c};
    }
    PureWithDeposits(s0, rep, c, ds);
  }

  lemma PureWithVotes(s: Store, r: int, c: int)
    requires PureWith(s, r, c) && s.comp[r].cls.Keys == {c}
    ensures Pure(s)
  {
    assert OneClass(s.comp[r]);
    forall x | IsRoot(s.root, x) ensures OneClass(s.comp[x]) { if x != r { assert OneClass(s.comp[x]); } }
    forall k | k in s.edges ensures SameClass(s, k) { assert LinksOneClass(s, r, c, k); }
  }

  /** A proposal without a home leaves a pure store pure: its node already holds its class. */
  lemma NodePure(s0: Store, shared: map<int, int>, rep: int, pv: map<VKey, int>, c: int)
    requires NodeFor(shared, -1, rep) && TrueCounts(s0, pv, shared) && ClassedAs(s0.comp, shared.Keys, c)
    requires Pure(s0) && c >= 0 && rep >= 0
    ensures PureWith(s0, rep, c) && rep < |s0.comp| && s0.comp[rep].cls.Keys == {c}
  {
    hide SharedVoxels;
    CountedTruly(s0, pv, shared, rep);
    assert s0.comp[rep].cls.Keys == {c};
    PureWithHome(s0, rep, c);
  }
}
