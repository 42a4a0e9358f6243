/** Components drained into one another: what any sequence of unions keeps. */
module ObjectGather {
  import opened Voxels
  import opened ObjectStore
  import opened ObjectSteps

  // ---------- uniting components ----------

  datatype Tally = Support | VotesFor(c: int)

  function Measure(c: Comp, t: Tally): int { if t.Support? then c.support else Votes(c.cls, t.c) }

  /** The measure summed over the ids in group u. */
  ghost function GroupSum(comp: seq<Comp>, g: int -> int, u: int, t: Tally): int {
    if comp == [] then 0
    else var n := |comp| - 1;
         GroupSum(comp[..n], g, u, t) + if g(n) == u then Measure(comp[n], t) else 0
  }

  lemma {:induction false} GroupSumUpdate(comp: seq<Comp>, x: int, c: Comp, g: int -> int, u: int, t: Tally)
    requires 0 <= x < |comp|
    ensures GroupSum(comp[x := c], g, u, t) ==
            GroupSum(comp, g, u, t) + if g(x) == u then Measure(c, t) - Measure(comp[x], t) else 0
    decreases |comp|
  {
    var n := |comp| - 1;
    if x == n {
      assert comp[x := c][..n] == comp[..n];
    } else {
      assert comp[x := c][..n] == comp[..n][x := c];
      GroupSumUpdate(comp[..n], x, c, g, u, t);
    }
  }

  lemma FoldedMeasure(A: Comp, B: Comp, t: Tally)
    ensures Measure(Folded(A, B), t) == Measure(A, t) + Measure(B, t) && Measure(EMPTY, t) == 0
  {
  }

  /** Some root of s that now belongs to r held voxel k. */
  ghost predicate Gathers(s: Store, root': seq<int>, k: VKey, r: int)
    requires |s.comp| == |s.root| == |root'|
  {
    exists x :: IsRoot(s.root, x) && root'[x] == r && k in s.comp[x].vox
  }

  /** Some root of s that now belongs to r held votes for class c. */
  ghost predicate GathersClass(s: Store, root': seq<int>, c: int, r: int)
    requires |s.comp| == |s.root| == |root'|
  {
    exists x :: IsRoot(s.root, x) && root'[x] == r && c in s.comp[x].cls
  }

  /** No other root of s was drained into r. */
  ghost predicate Alone(root: seq<int>, root': seq<int>, r: int)
    requires |root| == |root'|
  {
    forall x | IsRoot(root, x) && root'[x] == r :: x == r
  }

  ghost predicate GatheredInto(s: Store, s': Store, r: int)
    requires |s.comp| == |s.root| == |s'.root| == |s'.comp| && IsRoot(s'.root, r)
  {
    && IsRoot(s.root, r)
    && (forall k: VKey :: k in s'.comp[r].vox <==> Gathers(s, s'.root, k, r))
    && (forall c :: c in s'.comp[r].cls <==> GathersClass(s, s'.root, c, r))
    && (Alone(s.root, s'.root, r) ==> s'.comp[r] == s.comp[r])
  }

  ghost predicate SameSums(s: Store, s': Store, g: int -> int, u: int, t: Tally) {
    GroupSum(s'.comp, g, u, t) == GroupSum(s.comp, g, u, t)
  }

  ghost predicate Coarsened(root: seq<int>, root': seq<int>) {
    && |root| <= |root'|
    && forall x, y | 0 <= x < |root| && 0 <= y < |root| && root[x] == root[y] :: root'[x] == root'[y]
  }

  /** s' arises from s by draining components into one another: every surviving component holds
      exactly the voxels, the votes and the support of the components drained into it. */
  ghost predicate Gathered(s: Store, s': Store) {
    && |s.comp| == |s.root| == |s'.root| == |s'.comp| && Roots(s.root) && Roots(s'.root)
    && Coarsened(s.root, s'.root)
    && (forall r | IsRoot(s'.root, r) :: GatheredInto(s, s', r))
    && (forall g: int -> int, u, t | Coarser(g, s'.root) :: SameSums(s, s', g, u, t))
    && s'.(root := s.root, comp := s.comp) == s
  }

  lemma GatheredSelf(s: Store)
    requires |s.comp| == |s.root| && Roots(s.root)
    ensures Gathered(s, s)
  {
    forall r, k: VKey | IsRoot(s.root, r) ensures k in s.comp[r].vox <==> Gathers(s, s.root, k, r) {
      if k in s.comp[r].vox { assert IsRoot(s.root, r) && s.root[r] == r; }
    }
    forall r, c | IsRoot(s.root, r) ensures c in s.comp[r].cls <==> GathersClass(s, s.root, c, r) {
      if c in s.comp[r].cls { assert IsRoot(s.root, r) && s.root[r] == r; }
    }
  }

  lemma CoarserAfterMerge(s: Store, g: int -> int, a: int, b: int)
    requires |s.comp| == |s.root| && Roots(s.root) && IsRoot(s.root, a) && IsRoot(s.root, b) && a != b
    requires Coarser(g, Merged(s, a, b).root)
    ensures Coarser(g, s.root) && g(a) == g(b)
  {
    var root' := Merged(s, a, b).root;
    assert g(b) == g(root'[b]);
    forall x | 0 <= x < |s.root| ensures g(x) == g(s.root[x]) { assert g(x) == g(root'[x]); }
  }

  lemma SumsAfterMerge(s0: Store, s: Store, a: int, b: int)
    requires Gathered(s0, s) && IsRoot(s.root, a) && IsRoot(s.root, b) && a != b
    ensures forall g: int -> int, u, t | Coarser(g, Merged(s, a, b).root) :: SameSums(s0, Merged(s, a, b), g, u, t)
  {
    hide GatheredInto, Folded, GroupSum;
    var s' := Merged(s, a, b);
    forall g: int -> int, u, t | Coarser(g, s'.root) ensures SameSums(s0, s', g, u, t) {
      CoarserAfterMerge(s, g, a, b);
      assert SameSums(s0, s, g, u, t);
      FoldedMeasure(s.comp[a], s.comp[b], t);
      GroupSumUpdate(s.comp, a, Folded(s.comp[a], s.comp[b]), g, u, t);
      GroupSumUpdate(s.comp[a := Folded(s.comp[a], s.comp[b])], b, EMPTY, g, u, t);
    }
  }

  lemma IntoAfterMerge(s0: Store, s: Store, a: int, b: int, r: int)
    requires Gathered(s0, s) && IsRoot(s.root, a) && IsRoot(s.root, b) && a != b
    requires IsRoot(Merged(s, a, b).root, r)
    ensures GatheredInto(s0, Merged(s, a, b), r)
  {
    hide SameSums, Votes;
    var s' := Merged(s, a, b);
    assert r != b && IsRoot(s.root, r);
    assert GatheredInto(s0, s, r) && GatheredInto(s0, s, a) && GatheredInto(s0, s, b);
    forall k: VKey ensures k in s'.comp[r].vox <==> Gathers(s0, s'.root, k, r) {
      assert Gathers(s0, s'.root, k, r) <==> Gathers(s0, s.root, k, r) || (r == a && Gathers(s0, s.root, k, b));
    }
    forall c ensures c in s'.comp[r].cls <==> GathersClass(s0, s'.root, c, r) {
      assert GathersClass(s0, s'.root, c, r) <==> GathersClass(s0, s.root, c, r) || (r == a && GathersClass(s0, s.root, c, b));
    }
    assert IsRoot(s0.root, b) && s'.root[b] == a;
    if Alone(s0.root, s'.root, r) {
      assert r != a;
      assert Alone(s0.root, s.root, r);
    }
  }

  lemma GatheredMerge(s0: Store, s: Store, a: int, b: int)
    requires Gathered(s0, s) && IsRoot(s.root, a) && IsRoot(s.root, b) && a != b
    ensures Gathered(s0, Merged(s, a, b))
  {
    hide GatheredInto, SameSums, Coarser, Folded;
    SumsAfterMerge(s0, s, a, b);
    forall r | IsRoot(Merged(s, a, b).root, r) ensures GatheredInto(s0, Merged(s, a, b), r) {
      IntoAfterMerge(s0, s, a, b, r);
    }
  }

  /** In a store whose absorbed ids are empty, a component's own measure is its group's sum. */
  lemma {:induction false} OwnSum(comp: seq<Comp>, root: seq<int>, r: int, t: Tally)
    requires Roots(root) && |comp| <= |root| && IsRoot(root, r)
    requires forall x | 0 <= x < |comp| && root[x] != x :: comp[x] == EMPTY
    ensures GroupSum(comp, ByRoot(root), r, t) == if r < |comp| then Measure(comp[r], t) else 0
    decreases |comp|
  {
    if comp != [] { OwnSum(comp[..|comp| - 1], root, r, t); }
  }

  /** After any merges, a component's support and votes are those of the components drained into
      it, added up. */
  lemma GatheredTotals(s: Store, s': Store, world: seq<VKey>, r: int, t: Tally)
    requires Gathered(s, s') && Shape(s', world) && IsRoot(s'.root, r)
    ensures Measure(s'.comp[r], t) == GroupSum(s.comp, ByRoot(s'.root), r, t)
  {
    OwnSum(s'.comp, s'.root, r, t);
    ByRootCoarser(s'.root);
    assert SameSums(s, s', ByRoot(s'.root), r, t);
  }

  /** The components of T, and no others, went into home. */
  ghost predicate United(s0: Store, s: Store, T: set<int>, home: int) {
    && Gathered(s0, s) && home in T && IsRoot(s.root, home)
    && (forall t | t in T :: IsRoot(s0.root, t))
    && (forall x | 0 <= x < |s0.root| :: s.root[x] == if s0.root[x] in T then home else s0.root[x])
  }

  lemma UnitedOutside(s0: Store, s: Store, T: set<int>, home: int, t: int)
    requires United(s0, s, T, home) && IsRoot(s0.root, t) && t !in T
    ensures IsRoot(s.root, t) && t != home && s.comp[t] == s0.comp[t]
  {
    assert GatheredInto(s0, s, t);
  }

  lemma UnitedMerge(s0: Store, s: Store, T: set<int>, home: int, t: int, win: int, lose: int)
    requires United(s0, s, T, home) && IsRoot(s0.root, t) && t !in T && IsRoot(s.root, t) && t != home
    requires (win == home && lose == t) || (win == t && lose == home)
    ensures United(s0, Merged(s, win, lose), T + {t}, win)
  {
    hide Gathered, Folded;
    GatheredShape(s0, s);
    GatheredMerge(s0, s, win, lose);
  }

  lemma GatheredShape(s0: Store, s: Store)
    requires Gathered(s0, s)
    ensures |s0.comp| == |s0.root| == |s.root| == |s.comp| && Roots(s0.root) && Roots(s.root)
  {
  }

  lemma OneClassMerged(s: Store, a: int, b: int, c: int)
    requires Pure(s) && IsRoot(s.root, a) && IsRoot(s.root, b) && a != b
    requires s.comp[a].cls.Keys == {c} && s.comp[b].cls.Keys == {c}
    ensures Pure(Merged(s, a, b)) && Merged(s, a, b).comp[a].cls.Keys == {c}
  {
    PureMerged(s, a, b);
    assert Merged(s, a, b).comp[a].cls.Keys == s.comp[a].cls.Keys;
  }

  /** Uniting the components of roots x and y: the one with fewer voxels is drained into the other. */
  ghost predicate Unites(s: Store, s': Store, x: int, y: int, win: int) {
    && |s.comp| == |s.root| && IsRoot(s.root, x) && IsRoot(s.root, y)
    && if x == y then s' == s && win == x
       else win == (if |s.comp[x].vox| < |s.comp[y].vox| then y else x) && s' == Merged(s, win, if win == x then y else x)
  }

  lemma UnitedStep(s0: Store, s: Store, s': Store, T: set<int>, home: int, t: int, home': int, c: int)
    requires United(s0, s, T, home) && IsRoot(s0.root, t) && t != home && |s.root| == |s0.root| == |s.comp| == |s0.comp|
    requires Unites(s, s', home, s.root[t], home')
    ensures United(s0, s', T + {t}, home') && |s'.comp| == |s.comp|
    ensures Pure(s) && s.comp[home].cls.Keys == {c} && s0.comp[t].cls.Keys == {c} ==>
              Pure(s') && s'.comp[home'].cls.Keys == {c}
  {
    hide Gathered, Pure, Merged;
    if t in T {
      assert T + {t} == T && s.root[t] == home;
    } else {
      UnitedOutside(s0, s, T, home, t);
      var lose := if home' == home then t else home;
      UnitedMerge(s0, s, T, home, t, home', lose);
      MergedSize(s, home', lose);
      if Pure(s) && s.comp[home].cls.Keys == {c} && s0.comp[t].cls.Keys == {c} { OneClassMerged(s, home', lose, c); }
    }
  }

  lemma MergedSize(s: Store, a: int, b: int)
    requires 0 <= a < |s.comp| && 0 <= b < |s.comp| && a != b
    ensures |Merged(s, a, b).comp| == |s.comp| && |Merged(s, a, b).root| == |s.root|
  {
  }

  lemma SameMembers(T: set<int>, targets: seq<int>)
    requires forall t :: t in T <==> t in targets
    ensures T == set t | t in targets
  {
    var T' := set t | t in targets;
    assert forall t :: t in T <==> t in T';
  }

  lemma UnitedRoot(s0: Store, s: Store, T: set<int>, home: int)
    requires United(s0, s, T, home)
    ensures IsRoot(s.root, home) && home in T
  {
  }

  lemma UnitedAlone(s: Store, t: int)
    requires |s.comp| == |s.root| && Roots(s.root) && IsRoot(s.root, t)
    ensures United(s, s, {t}, t)
  {
    hide Gathered;
    GatheredSelf(s);
  }
}
