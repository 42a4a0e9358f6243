/** Phases two and three of flat extraction: stabilities, child lists, cluster selection. */
module ClusterSelect {
  import opened Basics
  import opened Dendrogram
  import opened CondensedTree
  import opened Condense
  import opened CondensedRows
  import opened ClusterIndex

  /** kids[k] lists the child clusters of cluster k, left before right. */
  ghost predicate Lists(t: Linkage, m: nat, tops: seq<int>, par: seq<int>, kids: seq<seq<int>>)
    requires Ready(t, m) && |tops| == |par| && AllInner(t, tops)
  {
    |kids| == |tops| && forall k | 0 <= k < |tops| :: ListOk(t, m, tops, par, kids[k], k)
  }

  ghost predicate ListOk(t: Linkage, m: nat, tops: seq<int>, par: seq<int>, ids: seq<int>, k: int)
    requires Ready(t, m) && |tops| == |par| && 0 <= k < |tops| && t.Inner(tops[k])
  {
    if HasKids(t, m, tops[k]) then
      && |ids| == 2
      && IsKid(t, tops, par, k, ids[0], KidL(t, m, tops[k]))
      && IsKid(t, tops, par, k, ids[1], KidR(t, m, tops[k]))
    else ids == []
  }

  lemma RowChild(t: Linkage, m: nat, cond: seq<CRow>, tops: seq<int>, par: seq<int>, i: int)
    requires Ready(t, m) && Condensed(t, m, cond, tops, par) && 0 <= i < |cond|
    ensures 0 <= cond[i].parent - t.n < |tops| && 0 <= cond[i].child < t.n + |tops|
    ensures cond[i].child >= t.n ==> 0 < cond[i].child - t.n && cond[i].level == Birth(t, tops[cond[i].child - t.n])
  {
    hide Linkage.WellFormed, Distinct, BornFrom, ShedFrom, KidsListed, Acc, Stability, OneRowEach, HasRow, Birth;
    assert RowOk(t, m, tops, par, cond[i]);
  }

  lemma LastRow(cond: seq<CRow>, r: CRow, c: int)
    requires HasRow(cond + [r], c)
    ensures HasRow(cond, c) || c == r.child
  {
    var j :| 0 <= j < |cond + [r]| && (cond + [r])[j].child == c;
    if j < |cond| { assert cond[j].child == c; }
  }

  lemma MassIs(gain: real, points: nat)
    ensures Mass(gain, points) == gain * points as real
  {
  }

  method Births(t: Linkage, m: nat, cond: seq<CRow>, count: nat, ghost tops: seq<int>, ghost par: seq<int>)
    returns (births: seq<real>)
    requires Ready(t, m) && Condensed(t, m, cond, tops, par) && count == |tops|
    ensures |births| == |tops| && forall k | 0 <= k < |tops| :: births[k] == Birth(t, tops[k])
  {
    hide Linkage.WellFormed, RowOk, Distinct, BornFrom, KidsListed, Stability, Acc, OneRowEach;
    births := seq(count, _ => 0.0);
    for i := 0 to |cond|
      invariant |births| == count && births[0] == 0.0
      invariant forall c | t.n < c < t.n + count && HasRow(cond[..i], c) :: births[c - t.n] == Birth(t, tops[c - t.n])
    {
      RowChild(t, m, cond, tops, par, i);
      assert cond[..i + 1] == cond[..i] + [cond[i]];
      ghost var births0 := births;
      if cond[i].child >= t.n { births := births[cond[i].child - t.n := cond[i].level]; }
      ghost var rows := cond[..i + 1];
      forall c | t.n < c < t.n + count && HasRow(rows, c) ensures births[c - t.n] == Birth(t, tops[c - t.n]) {
        LastRow(cond[..i], cond[i], c);
        if c != cond[i].child { assert births0[c - t.n] == Birth(t, tops[c - t.n]); }
      }
    }
    assert cond[..|cond|] == cond;
    forall k | 0 < k < |tops| ensures births[k] == Birth(t, tops[k]) { assert HasRow(cond, t.n + k); }
  }

  method ClusterStabilities(t: Linkage, m: nat, cond: seq<CRow>, births: seq<real>, ghost tops: seq<int>, ghost par: seq<int>)
    returns (stability: seq<real>)
    requires Ready(t, m) && Condensed(t, m, cond, tops, par)
    requires |births| == |tops| && forall k | 0 <= k < |tops| :: births[k] == Birth(t, tops[k])
    ensures |stability| == |tops| && forall k | 0 <= k < |tops| :: stability[k] == Stability(t, m, tops[k])
  {
    hide Linkage.WellFormed, RowOk, Distinct, BornFrom, KidsListed, Stability, OneRowEach, HasRow, Mass;
    stability := seq(|births|, _ => 0.0);
    for i := 0 to |cond|
      invariant |stability| == |births|
      invariant forall k | 0 <= k < |births| :: stability[k] == Acc(cond[..i], t.n + k, births[k])
    {
      RowChild(t, m, cond, tops, par, i);
      assert cond[..i + 1][..i] == cond[..i];
      var c, k := cond[i], cond[i].parent - t.n;
      stability := stability[k := stability[k] + (c.level - births[k]) * c.size as real];
      MassIs(c.level - births[k], c.size);
    }
    assert cond[..|cond|] == cond;
  }

  method ChildClusters(t: Linkage, m: nat, cond: seq<CRow>, count: nat, ghost tops: seq<int>, ghost par: seq<int>)
    returns (kids: seq<seq<int>>)
    requires Ready(t, m) && Condensed(t, m, cond, tops, par) && count == |tops|
    ensures Lists(t, m, tops, par, kids)
  {
    hide Linkage.WellFormed, RowOk, Numbered, Stability, OneRowEach, HasRow, Acc, HasKids, KidsListed, Lists;
    kids := seq(count, _ => []);
    for i := 0 to |cond|
      invariant |kids| == count
      invariant forall k | 0 <= k < count :: kids[k] == KidIds(cond[..i], t.n, t.n + k)
    {
      RowChild(t, m, cond, tops, par, i);
      assert cond[..i + 1][..i] == cond[..i];
      var c, k := cond[i], cond[i].parent - t.n;
      if c.child >= t.n { kids := kids[k := kids[k] + [c.child]]; }
    }
    assert cond[..|cond|] == cond;
    ListsFromRows(t, m, cond, tops, par, kids);
  }

  lemma ListsFromRows(t: Linkage, m: nat, cond: seq<CRow>, tops: seq<int>, par: seq<int>, kids: seq<seq<int>>)
    requires Ready(t, m) && Condensed(t, m, cond, tops, par) && |kids| == |tops|
    requires forall k | 0 <= k < |kids| :: kids[k] == KidIds(cond, t.n, t.n + k)
    ensures Lists(t, m, tops, par, kids)
  {
    hide Linkage.WellFormed, RowOk, Distinct, BornFrom, Stability, OneRowEach, HasRow, Acc, KidsListed, ListOk;
    forall k | 0 <= k < |tops| ensures ListOk(t, m, tops, par, kids[k], k) {
      ListFromRows(t, m, cond, tops, par, kids[k], k);
    }
  }

  lemma ListFromRows(t: Linkage, m: nat, cond: seq<CRow>, tops: seq<int>, par: seq<int>, ids: seq<int>, k: int)
    requires Ready(t, m) && |tops| == |par| && 0 <= k < |tops| && t.Inner(tops[k])
    requires KidsListed(t, m, cond, tops, par, k) && ids == KidIds(cond, t.n, t.n + k)
    ensures ListOk(t, m, tops, par, ids, k)
  {
  }

  /** Leaf mode: keep the clusters without children; the root only if allowed. */
  method SelectLeaves(t: Linkage, m: nat, kids: seq<seq<int>>, allowRoot: bool, ghost tops: seq<int>, ghost par: seq<int>)
    returns (isCluster: seq<bool>)
    requires Ready(t, m) && Indexed(t, m, tops, par) && Lists(t, m, tops, par, kids)
    ensures |isCluster| == |tops|
    ensures forall k | 0 <= k < |tops| :: isCluster[k] <==> tops[k] in Selection(t, m, allowRoot, true)
  {
    isCluster := seq(|kids|, _ => true);
    for k := 0 to |kids|
      invariant |isCluster| == |kids|
      invariant forall j | 0 <= j < k :: isCluster[j] <==> kids[j] == []
    {
      isCluster := isCluster[k := |kids[k]| == 0];
    }
    if !allowRoot { isCluster := isCluster[0 := false]; }
    forall k | 0 <= k < |tops| ensures isCluster[k] <==> tops[k] in Selection(t, m, allowRoot, true) {
      LeafIff(t, m, tops, par, kids, allowRoot, k);
    }
  }

  lemma LeafIff(t: Linkage, m: nat, tops: seq<int>, par: seq<int>, kids: seq<seq<int>>, allowRoot: bool, k: int)
    requires Ready(t, m) && Indexed(t, m, tops, par) && Lists(t, m, tops, par, kids) && 0 <= k < |tops|
    ensures tops[k] in Selection(t, m, allowRoot, true) <==> kids[k] == [] && (allowRoot || k != 0)
  {
    hide Linkage.WellFormed, BornFrom, KidsPresent, HasKids;
    if k > 0 {
      RootAbove(par, k);
      AncTops(t, m, tops, par, 0, k);
    }
    assert ListOk(t, m, tops, par, kids[k], k);
  }

  // ---------- excess of mass ----------

  function Pow3(k: nat): (r: nat)
    ensures r >= 1
  {
    if k == 0 then 1 else 3 * Pow3(k - 1)
  }

  lemma {:induction false} Pow3Grows(a: nat, b: nat)
    requires a < b
    ensures 3 * Pow3(a) <= Pow3(b)
  {
    if a + 1 < b { Pow3Grows(a, b - 1); }
  }

  ghost function IdWeight(n: nat, count: nat): int -> nat {
    id => if n <= id < n + count then Pow3(n + count - id) else 0
  }

  ghost predicate ListShape(n: nat, par: seq<int>, ids: seq<int>, k: int) {
    |ids| <= 2 && forall i | 0 <= i < |ids| :: 0 <= k < ids[i] - n < |par| && par[ids[i] - n] == k
  }

  /** Every child list, in cluster numbers, agrees with `par`. */
  ghost predicate ListsMatch(n: nat, par: seq<int>, kids: seq<seq<int>>) {
    && ParentsFirst(par) && |kids| == |par|
    && (forall k | 0 <= k < |kids| :: ListShape(n, par, kids[k], k))
    && (forall x | 0 < x < |par| :: n + x in kids[par[x]])
  }

  lemma ListsAgree(t: Linkage, m: nat, tops: seq<int>, par: seq<int>, kids: seq<seq<int>>)
    requires Ready(t, m) && Indexed(t, m, tops, par) && Lists(t, m, tops, par, kids)
    ensures ListsMatch(t.n, par, kids)
  {
    hide Linkage.WellFormed, ListOk, BornFrom, Distinct, KidsPresent;
    forall k | 0 <= k < |kids| ensures ListShape(t.n, par, kids[k], k) {
      ListOkShape(t, m, tops, par, kids[k], k);
    }
    forall x | 0 < x < |par| ensures t.n + x in kids[par[x]] { ListedUnderParent(t, m, tops, par, kids, x); }
  }

  lemma ListOkShape(t: Linkage, m: nat, tops: seq<int>, par: seq<int>, ids: seq<int>, k: int)
    requires Ready(t, m) && |tops| == |par| && 0 <= k < |tops| && t.Inner(tops[k]) && ListOk(t, m, tops, par, ids, k)
    ensures ListShape(t.n, par, ids, k)
  {
    hide Linkage.WellFormed, HasKids, KidL, KidR;
  }

  lemma ListedUnderParent(t: Linkage, m: nat, tops: seq<int>, par: seq<int>, kids: seq<seq<int>>, x: int)
    requires Ready(t, m) && Indexed(t, m, tops, par) && Lists(t, m, tops, par, kids) && 0 < x < |par|
    ensures t.n + x in kids[par[x]]
  {
    hide Linkage.WellFormed, HasKids, BornFrom, KidsPresent;
    HasKidsIfParent(t, m, tops, par, x);
    var ids := kids[par[x]];
    assert ListOk(t, m, tops, par, ids, par[x]);
    var l, r := ChildNumbers(t, m, tops, par, par[x]);
    assert ids[0] == t.n + l && ids[1] == t.n + r;
    assert ids[0] in ids && ids[1] in ids;
  }

  ghost predicate Waiting(par: seq<int>, n: nat, q: seq<int>, x: int)
    requires ParentsFirst(par) && 0 <= x < |par|
  {
    exists i :: 0 <= i < |q| && (q[i] - n == x || Anc(par, q[i] - n, x))
  }

  lemma WaitingStep(n: nat, par: seq<int>, ks: seq<int>, q: seq<int>, x: int)
    requires ParentsFirst(par) && q != [] && 0 <= x < |par|
    requires forall c | 0 < c < |par| && par[c] == q[0] - n :: n + c in ks
    requires Waiting(par, n, q, x) && x != q[0] - n
    ensures Waiting(par, n, q[1..] + ks, x)
  {
    hide Anc;
    var q' := q[1..] + ks;
    var i :| 0 <= i < |q| && (q[i] - n == x || Anc(par, q[i] - n, x));
    if i > 0 {
      assert q'[i - 1] == q[i];
    } else {
      var c := AncFirstStep(par, q[0] - n, x);
      var j :| 0 <= j < |ks| && ks[j] == n + c;
      assert q'[|q| - 1 + j] - n == c;
    }
  }

  lemma SumShort(ks: seq<int>, w: int -> nat)
    requires |ks| <= 2
    ensures SeqSum(ks, w) == (if |ks| >= 1 then w(ks[0]) else 0) + (if |ks| == 2 then w(ks[1]) else 0)
  {
    if |ks| == 2 { assert ks[1..] == [ks[1]] && [ks[1]][1..] == []; }
    if |ks| == 1 { assert ks[1..] == []; }
  }

  lemma DropWeight(n: nat, count: nat, ks: seq<int>, q: seq<int>)
    requires q != [] && n <= q[0] < n + count && |ks| <= 2
    requires forall id | id in ks :: q[0] < id < n + count
    ensures SeqSum(q[1..] + ks, IdWeight(n, count)) < SeqSum(q, IdWeight(n, count))
  {
    hide SeqSum, Pow3, IdWeight;
    var w, d := IdWeight(n, count), q[0];
    SumHead(q, w);
    SeqSumAppend(q[1..], ks, w);
    SumShort(ks, w);
    if |ks| >= 1 { assert ks[0] in ks; LowerWeight(n, count, d, ks[0]); }
    if |ks| == 2 { assert ks[1] in ks; LowerWeight(n, count, d, ks[1]); }
    LowerWeight(n, count, d, n + count);
  }

  lemma SumHead(q: seq<int>, w: int -> nat)
    requires q != []
    ensures SeqSum(q, w) == w(q[0]) + SeqSum(q[1..], w)
  {
  }

  lemma LowerWeight(n: nat, count: nat, d: int, c: int)
    requires n <= d < n + count && d < c <= n + count
    ensures 3 * IdWeight(n, count)(c) <= IdWeight(n, count)(d) && IdWeight(n, count)(d) >= 1
  {
    Pow3Grows(n + count - c, n + count - d);
  }

  /** Ids still to be visited are proper descendants of cluster k; descendants not waiting below
      one of them are already deselected. */
  ghost predicate Dropping(n: nat, k: int, keep: seq<bool>, par: seq<int>, q: seq<int>, isCluster: seq<bool>)
    requires ParentsFirst(par) && |keep| == |par|
  {
    && |isCluster| == |par|
    && (forall i | 0 <= i < |q| :: 0 <= q[i] - n < |par| && Anc(par, k, q[i] - n))
    && (forall x | 0 <= x < |par| :: DroppedSoFar(n, k, keep, par, q, isCluster, x))
  }

  ghost predicate DroppedSoFar(n: nat, k: int, keep: seq<bool>, par: seq<int>, q: seq<int>, isCluster: seq<bool>, x: int)
    requires ParentsFirst(par) && |keep| == |par| == |isCluster| && 0 <= x < |par|
  {
    && (isCluster[x] == keep[x] || (!isCluster[x] && Anc(par, k, x)))
    && (Anc(par, k, x) && isCluster[x] ==> Waiting(par, n, q, x))
  }

  lemma MatchShape(n: nat, par: seq<int>, kids: seq<seq<int>>)
    requires ListsMatch(n, par, kids)
    ensures |kids| == |par| && ParentsFirst(par)
  {
  }

  lemma MatchAll(n: nat, par: seq<int>, kids: seq<seq<int>>, d: int)
    requires ListsMatch(n, par, kids) && 0 <= d < |par|
    ensures forall c | 0 < c < |par| && par[c] == d :: n + c in kids[d]
  {
  }

  lemma DropStart(n: nat, kids: seq<seq<int>>, k: nat, keep: seq<bool>, par: seq<int>)
    requires ListsMatch(n, par, kids) && k < |par| == |keep|
    ensures Dropping(n, k, keep, par, kids[k], keep)
  {
    assert ListShape(n, par, kids[k], k);
    forall x | 0 <= x < |par| && Anc(par, k, x) ensures Waiting(par, n, kids[k], x) {
      var c := AncFirstStep(par, k, x);
      var j :| 0 <= j < |kids[k]| && kids[k][j] == n + c;
    }
  }

  lemma DropStep(n: nat, kids: seq<seq<int>>, k: nat, keep: seq<bool>, par: seq<int>, q: seq<int>, isCluster: seq<bool>)
    requires ListsMatch(n, par, kids) && k < |par| == |keep| && q != [] && Dropping(n, k, keep, par, q, isCluster)
    ensures 0 <= q[0] - n < |par| == |isCluster|
    ensures forall i | 0 <= i < |q| :: 0 <= q[i] - n < |par| && Anc(par, k, q[i] - n)
    ensures Dropping(n, k, keep, par, q[1..] + kids[q[0] - n], isCluster[q[0] - n := false])
  {
    hide ListsMatch, Anc, Waiting;
    MatchShape(n, par, kids);
    MatchAll(n, par, kids, q[0] - n);
    DropQueue(n, kids, k, par, q, kids[q[0] - n]);
    var d, q', isCl' := q[0] - n, q[1..] + kids[q[0] - n], isCluster[q[0] - n := false];
    forall x | 0 <= x < |par| ensures DroppedSoFar(n, k, keep, par, q', isCl', x) {
      assert DroppedSoFar(n, k, keep, par, q, isCluster, x);
      if x != d && Waiting(par, n, q, x) { WaitingStep(n, par, kids[d], q, x); }
    }
  }

  lemma DropQueue(n: nat, kids: seq<seq<int>>, k: nat, par: seq<int>, q: seq<int>, ks: seq<int>)
    requires ListsMatch(n, par, kids) && q != []
    requires forall i | 0 <= i < |q| :: 0 <= q[i] - n < |par| && Anc(par, k, q[i] - n)
    requires ks == kids[q[0] - n]
    ensures ParentsFirst(par) && |kids| == |par|
    ensures var q' := q[1..] + ks;
            forall i | 0 <= i < |q'| :: 0 <= q'[i] - n < |par| && Anc(par, k, q'[i] - n)
    ensures |ks| <= 2 && forall id | id in ks :: q[0] < id < n + |par|
  {
    assert ListShape(n, par, ks, q[0] - n);
    var q' := q[1..] + ks;
    forall i | 0 <= i < |q'| ensures 0 <= q'[i] - n < |par| && Anc(par, k, q'[i] - n) {
      if i < |q| - 1 { assert q'[i] == q[i + 1]; } else { assert q'[i] == ks[i - (|q| - 1)]; }
    }
  }

  lemma DropDone(n: nat, k: nat, keep: seq<bool>, par: seq<int>, isCluster: seq<bool>)
    requires ParentsFirst(par) && |keep| == |par| && Dropping(n, k, keep, par, [], isCluster)
    ensures |isCluster| == |par| && forall x | 0 <= x < |par| :: isCluster[x] <==> keep[x] && !Anc(par, k, x)
  {
    forall x | 0 <= x < |par| ensures isCluster[x] <==> keep[x] && !Anc(par, k, x) {
      assert DroppedSoFar(n, k, keep, par, [], isCluster, x);
    }
  }

  /** Deselect every proper descendant of cluster k, and nothing else. */
  method DropDescendants(n: nat, kids: seq<seq<int>>, k: nat, keep: seq<bool>, ghost par: seq<int>)
    returns (isCluster: seq<bool>)
    requires ListsMatch(n, par, kids) && k < |par| == |keep|
    ensures |isCluster| == |par|
    ensures forall x | 0 <= x < |par| :: isCluster[x] <==> keep[x] && !Anc(par, k, x)
  {
    hide Dropping, ListsMatch, Anc, SeqSum;
    assert |kids| == |par| && ParentsFirst(par) by { MatchShape(n, par, kids); }
    isCluster := keep;
    var q := [];
    for i := 0 to |kids[k]|
      invariant q == kids[k][..i]
    {
      q := q + [kids[k][i]];
    }
    DropStart(n, kids, k, keep, par);
    assert kids[k][..|kids[k]|] == kids[k];
    while q != []
      invariant |isCluster| == |par| && Dropping(n, k, keep, par, q, isCluster)
      decreases SeqSum(q, IdWeight(n, |par|))
    {
      DropStep(n, kids, k, keep, par, q, isCluster);
      DropQueue(n, kids, k, par, q, kids[q[0] - n]);
      var d := q[0];
      DropWeight(n, |par|, kids[d - n], q);
      ghost var rest := q[1..];
      q := q[1..];
      isCluster := isCluster[d - n := false];
      for i := 0 to |kids[d - n]|
        invariant q == rest + kids[d - n][..i]
      {
        q := q + [kids[d - n][i]];
      }
      assert kids[d - n][..|kids[d - n]|] == kids[d - n];
    }
    DropDone(n, k, keep, par, isCluster);
  }

  /** The state of the bottom-up loop when clusters numbered lo and up are settled. */
  ghost predicate Settled(t: Linkage, m: nat, tops: seq<int>, par: seq<int>, lo: int,
                          stability: seq<real>, isCluster: seq<bool>)
    requires Ready(t, m) && Indexed(t, m, tops, par)
  {
    && |stability| == |isCluster| == |tops|
    && (forall x | 0 <= x < |tops| ::
          stability[x] == if x >= lo then Best(t, m, tops[x]) else Stability(t, m, tops[x]))
    && (forall x | 0 <= x < |tops| ::
          isCluster[x] <==> x < lo || (Keeps(t, m, tops[x]) && Uncovered(t, m, tops, par, lo, x)))
  }

  lemma SettleOne(t: Linkage, m: nat, tops: seq<int>, par: seq<int>, k: int,
                  stab: seq<real>, stab': seq<real>, isCl: seq<bool>, isCl': seq<bool>)
    requires Ready(t, m) && Indexed(t, m, tops, par) && 0 <= k < |tops| && Settled(t, m, tops, par, k + 1, stab, isCl)
    requires |stab'| == |isCl'| == |tops|
    requires forall x | 0 <= x < |tops| && x != k :: stab'[x] == stab[x]
    requires stab'[k] == Best(t, m, tops[k])
    requires Keeps(t, m, tops[k]) ==> forall x | 0 <= x < |tops| :: isCl'[x] <==> isCl[x] && !Anc(par, k, x)
    requires !Keeps(t, m, tops[k]) ==> forall x | 0 <= x < |tops| :: isCl'[x] <==> isCl[x] && x != k
    ensures Settled(t, m, tops, par, k, stab', isCl')
  {
    hide Linkage.WellFormed, Keeps, Best, Stability, BornFrom, KidsPresent, Distinct;
    forall x | 0 <= x < |tops|
      ensures isCl'[x] <==> x < k || (Keeps(t, m, tops[x]) && Uncovered(t, m, tops, par, k, x))
    {
      UncoveredStep(t, m, tops, par, k, x);
    }
  }

  lemma UncoveredStep(t: Linkage, m: nat, tops: seq<int>, par: seq<int>, k: int, x: int)
    requires Ready(t, m) && |tops| == |par| && AllInner(t, tops) && ParentsFirst(par) && 0 <= x < |tops| && 0 <= k < |tops|
    ensures Uncovered(t, m, tops, par, k, x) <==>
            Uncovered(t, m, tops, par, k + 1, x) && !(Anc(par, k, x) && Keeps(t, m, tops[k]))
  {
    hide Linkage.WellFormed, Keeps;
  }

  /** Stability collected from the children of cluster k, once they are settled. */
  lemma ChildSum(t: Linkage, m: nat, tops: seq<int>, par: seq<int>, kids: seq<seq<int>>, k: int,
                 stab: seq<real>, isCl: seq<bool>)
    requires Ready(t, m) && Indexed(t, m, tops, par) && Lists(t, m, tops, par, kids) && 0 <= k < |tops|
    requires Settled(t, m, tops, par, k + 1, stab, isCl)
    ensures HasKids(t, m, tops[k]) ==>
              && |kids[k]| == 2 && 0 <= kids[k][0] - t.n < |stab| && 0 <= kids[k][1] - t.n < |stab|
              && stab[kids[k][0] - t.n] == Best(t, m, KidL(t, m, tops[k]))
              && stab[kids[k][1] - t.n] == Best(t, m, KidR(t, m, tops[k]))
    ensures !HasKids(t, m, tops[k]) ==> kids[k] == []
    ensures stab[k] == Stability(t, m, tops[k]) && stab[k] >= 0.0
  {
    hide Linkage.WellFormed, Keeps, Best, Stability, BornFrom, KidsPresent, HasKids, Distinct;
    assert ListOk(t, m, tops, par, kids[k], k);
    StabilityNonNegative(t, m, tops[k]);
  }

  lemma BestCases(t: Linkage, m: nat, v: int, sub: real)
    requires Ready(t, m) && t.Inner(v)
    requires HasKids(t, m, v) ==> sub == Best(t, m, KidL(t, m, v)) + Best(t, m, KidR(t, m, v))
    requires !HasKids(t, m, v) ==> sub == 0.0
    ensures sub > Stability(t, m, v) ==> Best(t, m, v) == sub && !Keeps(t, m, v)
    ensures sub <= Stability(t, m, v) ==> Best(t, m, v) == Stability(t, m, v) && Keeps(t, m, v)
  {
    StabilityNonNegative(t, m, v);
  }

  lemma EomIff(t: Linkage, m: nat, tops: seq<int>, par: seq<int>, allowRoot: bool, x: int)
    requires Ready(t, m) && Indexed(t, m, tops, par) && 0 <= x < |tops|
    ensures tops[x] in Selection(t, m, allowRoot, false) <==>
            (allowRoot || x != 0) && Keeps(t, m, tops[x])
            && Uncovered(t, m, tops, par, if allowRoot then 0 else 1, x)
  {
    hide Linkage.WellFormed, Keeps, Best, Stability, BornFrom, KidsPresent, HasKids, Distinct, Tops, Chosen;
    if x > 0 { RootAbove(par, x); }
    if allowRoot {
      ChosenIff(t, m, tops, par, 0, x);
    } else if HasKids(t, m, tops[0]) {
      ChosenKidsIff(t, m, tops, par, 0, x);
    } else if x > 0 {
      var c := AncFirstStep(par, 0, x);
      HasKidsIfParent(t, m, tops, par, c);
    }
  }

  /** Excess-of-mass mode: from the highest number down, a cluster is kept when it is at least as
      stable as its kept descendants together. */
  method SelectEom(t: Linkage, m: nat, kids: seq<seq<int>>, stability: seq<real>, allowRoot: bool,
                   ghost tops: seq<int>, ghost par: seq<int>)
    returns (isCluster: seq<bool>)
    requires Ready(t, m) && Indexed(t, m, tops, par) && Lists(t, m, tops, par, kids)
    requires |stability| == |tops| && forall k | 0 <= k < |tops| :: stability[k] == Stability(t, m, tops[k])
    ensures |isCluster| == |tops|
    ensures forall k | 0 <= k < |tops| :: isCluster[k] <==> tops[k] in Selection(t, m, allowRoot, false)
  {
    hide Linkage.WellFormed, Keeps, Best, Stability, BornFrom, KidsPresent, Distinct, ListOk, Selection, HasKids, Uncovered, KidL, KidR;
    ListsAgree(t, m, tops, par, kids);
    var stab := stability;
    isCluster := seq(|kids|, _ => true);
    var cluster := |kids|;
    while cluster > 0 && (allowRoot || cluster > 1)
      invariant 0 <= cluster <= |kids| && (!allowRoot ==> cluster >= 1)
      invariant Settled(t, m, tops, par, cluster, stab, isCluster)
    {
      cluster := cluster - 1;
      ghost var stab0, isCl0 := stab, isCluster;
      var k, sub := cluster, 0.0;
      ChildSum(t, m, tops, par, kids, k, stab, isCluster);
      for i := 0 to |kids[k]|
        invariant i == 0 ==> sub == 0.0
        invariant i == 1 ==> sub == stab[kids[k][0] - t.n]
        invariant i == 2 ==> sub == stab[kids[k][0] - t.n] + stab[kids[k][1] - t.n]
      {
        sub := sub + stab[kids[k][i] - t.n];
      }
      BestCases(t, m, tops[k], sub);
      if sub > stab[k] {
        isCluster := isCluster[k := false];
        stab := stab[k := sub];
      } else {
        isCluster := DropDescendants(t.n, kids, k, isCluster, par);
      }
      SettleOne(t, m, tops, par, k, stab0, stab, isCl0, isCluster);
    }
    if !allowRoot { isCluster := isCluster[0 := false]; }
    forall x | 0 <= x < |tops| ensures isCluster[x] <==> tops[x] in Selection(t, m, allowRoot, false) {
      EomIff(t, m, tops, par, allowRoot, x);
    }
  }
}
