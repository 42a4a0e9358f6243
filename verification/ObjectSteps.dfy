/** Single steps of the fold-in on store values, and class purity. */
module ObjectSteps {
  import opened SetSum
  import opened Voxels
  import opened ObjectStore

  // ---------- claiming a voxel ----------

  ghost function ClaimedOne(s: Store, overlap: bool, r: int, k: VKey, g: int): Store
    requires 0 <= r < |s.comp| && (overlap || 0 <= g < |s.owner|)
  {
    var isNew := k !in s.comp[r].vox;
    s.(comp := if isNew then s.comp[r := s.comp[r].(vox := s.comp[r].vox[k := g])] else s.comp,
       owner := if !overlap && isNew then s.owner[g := r] else s.owner,
       boxes := if overlap && !Resolves(s.root, LeavesAt(s.boxes, k), r)
                then s.boxes[k := LeavesAt(s.boxes, k) + [r]] else s.boxes)
  }

  lemma InvClaimedOne(s: Store, world: seq<VKey>, overlap: bool, r: int, k: VKey, g: int)
    requires Inv(s, world, overlap) && IsRoot(s.root, r) && 0 <= g < |world| && world[g] == k
    requires !overlap ==> g < |s.owner| && s.owner[g] == -1
    ensures Inv(ClaimedOne(s, overlap, r, k, g), world, overlap)
  {
    hide Shape, IndexOk, Evidence, TotalSupport;
    RootsOf(s, world);
    ShapeClaimed(s, world, overlap, r, k, g);
    if overlap { IndexClaimedOverlap(s, world, r, k, g); } else { IndexClaimedExclusive(s, world, r, k, g); }
    var s' := ClaimedOne(s, overlap, r, k, g);
    EvidenceSameRest(s, s');
    if k !in s.comp[r].vox { SupportUpdate(s.comp, r, s'.comp[r]); }
  }

  lemma ShapeClaimed(s: Store, world: seq<VKey>, overlap: bool, r: int, k: VKey, g: int)
    requires Shape(s, world) && IsRoot(s.root, r) && 0 <= g < |world| && world[g] == k && (overlap || g < |s.owner|)
    ensures Shape(ClaimedOne(s, overlap, r, k, g), world)
  {
    hide Resolves;
    var s' := ClaimedOne(s, overlap, r, k, g);
    forall x | 0 <= x < |s'.root| ensures CompOk(s'.comp[x], world) && (s'.root[x] != x ==> s'.comp[x] == EMPTY) {
      assert CompOk(s.comp[x], world);
    }
    forall k' | k' in s'.boxes ensures InRange(s'.boxes[k'], |s'.root|) {
      assert k' in s.boxes ==> InRange(s.boxes[k'], |s.root|);
    }
  }

  lemma IndexClaimedOverlap(s: Store, world: seq<VKey>, r: int, k: VKey, g: int)
    requires |s.comp| == |s.root| && Roots(s.root) && IndexOk(s, world, true) && IsRoot(s.root, r)
    ensures IndexOk(ClaimedOne(s, true, r, k, g), world, true)
  {
    hide Owned, Roots;
    var s' := ClaimedOne(s, true, r, k, g);
    forall k': VKey, r' | IsRoot(s'.root, r') ensures Holder(s', world, true, k', r') <==> k' in s'.comp[r'].vox {
      assert Holder(s, world, true, k', r') <==> k' in s.comp[r'].vox;
      ResolvesAppend(s.root, LeavesAt(s.boxes, k), r, r');
    }
  }

  lemma ResolvesAppend(root: seq<int>, leaves: seq<int>, r: int, r': int)
    requires IsRoot(root, r)
    ensures Resolves(root, leaves + [r], r') <==> Resolves(root, leaves, r') || r' == r
  {
    var all := leaves + [r];
    assert all[|leaves|] == r;
    if Resolves(root, leaves, r') {
      var i :| 0 <= i < |leaves| && 0 <= leaves[i] < |root| && root[leaves[i]] == r';
      assert all[i] == leaves[i];
    }
  }

  lemma IndexClaimedExclusive(s: Store, world: seq<VKey>, r: int, k: VKey, g: int)
    requires |s.comp| == |s.root| && IndexOk(s, world, false) && IsRoot(s.root, r)
    requires 0 <= g < |world| && world[g] == k && g < |s.owner| && s.owner[g] == -1
    ensures IndexOk(ClaimedOne(s, false, r, k, g), world, false)
  {
    var s' := ClaimedOne(s, false, r, k, g);
    if k !in s.comp[r].vox {
      forall k': VKey, r' | IsRoot(s'.root, r') ensures Holder(s', world, false, k', r') <==> k' in s'.comp[r'].vox {
        assert Holder(s, world, false, k', r') <==> k' in s.comp[r'].vox;
        forall x | 0 <= x < |s.owner|
          ensures OwnsPoint(s.root, s'.owner, world, x, k', r')
                  <==> OwnsPoint(s.root, s.owner, world, x, k', r') || (x == g && k' == k && r' == r) {}
        if k' == k && r' == r { assert OwnsPoint(s.root, s'.owner, world, g, k, r); }
      }
    }
  }

  // ---------- growing the owner index, extending the map ----------

  lemma InvResized(s: Store, world: seq<VKey>, overlap: bool, owner': seq<int>)
    requires Inv(s, world, overlap) && s.owner <= owner' && forall g | |s.owner| <= g < |owner'| :: owner'[g] == -1
    ensures Inv(s.(owner := owner'), world, overlap)
  {
    hide Evidence, TotalSupport, Resolves, CompOk;
    var s' := s.(owner := owner');
    EvidenceSameRest(s, s');
    forall k: VKey, r | IsRoot(s.root, r) ensures Holder(s', world, overlap, k, r) <==> k in s'.comp[r].vox {
      assert Holder(s, world, overlap, k, r) <==> k in s.comp[r].vox;
      forall g | 0 <= g < |s.owner|
        ensures OwnsPoint(s.root, owner', world, g, k, r) <==> OwnsPoint(s.root, s.owner, world, g, k, r) {}
    }
  }

  lemma InvWorldGrown(s: Store, world: seq<VKey>, world': seq<VKey>, overlap: bool)
    requires Inv(s, world, overlap) && world <= world'
    ensures Inv(s, world', overlap)
  {
    hide Evidence, TotalSupport, Resolves;
    forall x | 0 <= x < |s.root| ensures CompOk(s.comp[x], world') { assert CompOk(s.comp[x], world); }
    forall k: VKey, r | IsRoot(s.root, r) ensures Holder(s, world', overlap, k, r) <==> k in s.comp[r].vox {
      assert Holder(s, world, overlap, k, r) <==> k in s.comp[r].vox;
      forall g | 0 <= g < |s.owner|
        ensures OwnsPoint(s.root, s.owner, world', g, k, r) <==> OwnsPoint(s.root, s.owner, world, g, k, r) {}
    }
  }

  // ---------- one observation joins a component ----------

  function Voted(c: Comp, classId: int, np: int, ids: set<int>): Comp {
    Comp(c.vox, c.cls[classId := Votes(c.cls, classId) + np], c.ids + ids, c.support + 1)
  }

  function Joined(s: Store, r: int, classId: int, np: int, ids: set<int>): Store
    requires 0 <= r < |s.comp|
  {
    s.(comp := s.comp[r := Voted(s.comp[r], classId, np, ids)], homed := s.homed + 1)
  }

  lemma InvJoined(s: Store, world: seq<VKey>, overlap: bool, r: int, classId: int, np: int, ids: set<int>)
    requires Inv(s, world, overlap) && IsRoot(s.root, r) && np > 0
    ensures Inv(Joined(s, r, classId, np, ids), world, overlap)
  {
    hide Evidence, TotalSupport, Resolves, Owned;
    var s' := Joined(s, r, classId, np, ids);
    EvidenceSameRest(s, s');
    SupportUpdate(s.comp, r, s'.comp[r]);
    forall x | 0 <= x < |s.root| ensures CompOk(s'.comp[x], world) { assert CompOk(s.comp[x], world); }
    forall k: VKey, x | IsRoot(s.root, x) ensures Holder(s', world, overlap, k, x) <==> k in s'.comp[x].vox {
      assert Holder(s, world, overlap, k, x) <==> k in s.comp[x].vox;
    }
  }

  lemma InvDeposited(s: Store, world: seq<VKey>, overlap: bool, d: Deposit)
    requires Inv(s, world, overlap) && EdgeOk(s.root, d.key, d.acc)
    ensures Inv(Deposited(s, d), world, overlap)
  {
    hide Evidence, TotalSupport, Resolves, Owned, CompOk;
    EvidenceAfterDeposit(s, d);
    var s' := Deposited(s, d);
    forall k: VKey, x | IsRoot(s.root, x) ensures Holder(s', world, overlap, k, x) <==> k in s'.comp[x].vox {
      assert Holder(s, world, overlap, k, x) <==> k in s.comp[x].vox;
    }
  }

  lemma InvCompacted(s: Store, world: seq<VKey>, overlap: bool, to: map<EKey, EdgeAcc>)
    requires Inv(s, world, overlap) && Collapsed(s.root, s.edges, to)
    ensures Inv(s.(edges := to), world, overlap)
  {
    hide Evidence, TotalSupport, Resolves, Owned, CompOk, Collapsed;
    EvidenceAfterCompaction(s, to);
    var s' := s.(edges := to);
    forall k: VKey, x | IsRoot(s.root, x) ensures Holder(s', world, overlap, k, x) <==> k in s'.comp[x].vox {
      assert Holder(s, world, overlap, k, x) <==> k in s.comp[x].vox;
    }
  }

  // ---------- shared voxels ----------

  function SharedVoxels(pv: map<VKey, int>, c: Comp): nat { |pv.Keys * c.vox.Keys| }

  /** The containment ratio of a proposal of np voxels sharing `shared` with a component of csize. */
  function Containment(shared: int, np: int, csize: int): real {
    var least := if np < csize then np else csize;
    shared as real / (if least < 1 then 1 else least) as real
  }

  /** A true count of shared voxels never gives a containment above one. */
  lemma ContainmentAtMostOne(pv: map<VKey, int>, c: Comp)
    ensures 0.0 <= Containment(SharedVoxels(pv, c), |pv|, |c.vox|) <= 1.0
  {
    SubsetSize(pv.Keys * c.vox.Keys, pv.Keys);
    SubsetSize(pv.Keys * c.vox.Keys, c.vox.Keys);
    var n, least := SharedVoxels(pv, c), if |pv| < |c.vox| then |pv| else |c.vox|;
    assert n <= least && |pv| == |pv.Keys| && |c.vox| == |c.vox.Keys|;
    RatioAtMostOne(n, if least < 1 then 1 else least);
  }

  lemma RatioAtMostOne(n: nat, d: nat)
    requires n <= d && d >= 1
    ensures 0.0 <= n as real / d as real <= 1.0
  {
  }

  // ---------- class purity ----------

  /** Votes for exactly one class. */
  ghost predicate OneClass(c: Comp) { exists x :: x >= 0 && c.cls.Keys == {x} }

  /** Every component holds votes for exactly one class, and every edge joins two components of
      one class. */
  ghost predicate Pure(s: Store) {
    && |s.comp| == |s.root| && Roots(s.root)
    && (forall r | IsRoot(s.root, r) :: OneClass(s.comp[r]))
    && (forall k | k in s.edges :: SameClass(s, k))
  }

  ghost predicate SameClass(s: Store, k: EKey)
    requires |s.comp| == |s.root| && Roots(s.root)
  {
    0 <= k.a < |s.root| && 0 <= k.b < |s.root| && s.comp[s.root[k.a]].cls.Keys == s.comp[s.root[k.b]].cls.Keys
  }

  lemma PureMerged(s: Store, a: int, b: int)
    requires Pure(s) && IsRoot(s.root, a) && IsRoot(s.root, b) && a != b
    requires s.comp[a].cls.Keys == s.comp[b].cls.Keys
    ensures Pure(Merged(s, a, b))
  {
    var s' := Merged(s, a, b);
    assert s'.comp[a].cls.Keys == s.comp[a].cls.Keys;
    forall r | IsRoot(s'.root, r) ensures OneClass(s'.comp[r]) { assert OneClass(s.comp[r]); }
    forall k | k in s'.edges ensures SameClass(s', k) { assert SameClass(s, k); }
  }

  lemma PureJoined(s: Store, r: int, classId: int, np: int, ids: set<int>)
    requires Pure(s) && IsRoot(s.root, r) && s.comp[r].cls.Keys == {classId}
    ensures Pure(Joined(s, r, classId, np, ids))
  {
    var s' := Joined(s, r, classId, np, ids);
    assert s'.comp[r].cls.Keys == {classId};
    forall x | IsRoot(s'.root, x) ensures OneClass(s'.comp[x]) { assert OneClass(s.comp[x]); }
    forall k | k in s'.edges ensures SameClass(s', k) { assert SameClass(s, k); }
  }

  lemma PureCompacted(s: Store, to: map<EKey, EdgeAcc>)
    requires Pure(s) && Collapsed(s.root, s.edges, to)
    ensures Pure(s.(edges := to))
  {
    var s' := s.(edges := to);
    forall k | k in to ensures SameClass(s', k) {
      assert HasEdge(s.root, s.edges, k.a, k.b) && EdgeOk(s.root, k, to[k]);
      var e :| e in s.edges && ResolvesTo(s.root, e, k.a, k.b);
      assert SameClass(s, e);
    }
  }

  /** Linked roots of a pure store have one class. */
  lemma LinkedRootsSameClass(s: Store, a: int, b: int)
    requires Pure(s) && IsRoot(s.root, a) && IsRoot(s.root, b) && HasEdge(s.root, s.edges, a, b)
    ensures s.comp[a].cls.Keys == s.comp[b].cls.Keys
  {
    var e :| e in s.edges && ResolvesTo(s.root, e, a, b);
    assert SameClass(s, e);
  }
}
