/** Why each step of the condensing loop keeps the loop's invariants. */
module CondenseLoop {
  import opened Dendrogram
  import opened CondensedTree
  import opened Condense
  import opened CondensedRows

  /** Node v is processed next and carries on cluster n+k. */
  ghost predicate AtNode(t: Linkage, m: nat, done: set<int>, relabel: seq<int>,
                         tops: seq<int>, cur: seq<int>, v: int, k: int)
    requires Ready(t, m) && AllInner(t, tops)
  {
    && Frontier(t, m, done, relabel, tops, cur)
    && t.Inner(v) && v !in done && Alive(t, m, v) && Reached(t, done, v)
    && k == relabel[v] - t.n && 0 <= k < |tops| && cur[k] == v
  }

  lemma Arrive(t: Linkage, m: nat, done: set<int>, relabel: seq<int>,
               tops: seq<int>, cur: seq<int>, v: int)
    requires Ready(t, m) && AllInner(t, tops) && Frontier(t, m, done, relabel, tops, cur)
    requires t.Inner(v) && v !in done && Alive(t, m, v) && Reached(t, done, v)
    ensures AtNode(t, m, done, relabel, tops, cur, v, relabel[v] - t.n)
  {
    hide Linkage.WellFormed, Linkage.Under, End, Carries, BornIn;
    assert Claimed(t, m, done, relabel, cur, v);
  }

  lemma AtNodeFacts(t: Linkage, m: nat, done: set<int>, relabel: seq<int>,
                    tops: seq<int>, cur: seq<int>, v: int, k: int)
    requires Ready(t, m) && AllInner(t, tops) && AtNode(t, m, done, relabel, tops, cur, v, k)
    ensures OnChain(t, m, done, tops[k], v)
    ensures t.HasChild(v, t.Left(v)) && t.HasChild(v, t.Right(v))
    ensures t.Left(v) < t.Root() && t.Right(v) < t.Root()
    ensures t.Parent(t.Left(v)) == v && t.Parent(t.Right(v)) == v
    ensures t.Left(v) !in done && t.Right(v) !in done
    ensures t.Left(v) !in tops && t.Right(v) !in tops
  {
    assert Carries(t, m, done, relabel, tops, cur, k);
    assert t.HasChild(v, t.Left(v)) && t.HasChild(v, t.Right(v));
    forall j | 0 <= j < |tops| ensures tops[j] != t.Left(v) && tops[j] != t.Right(v) {
      if tops[j] != t.Root() { assert BornIn(t, m, done, tops[j]); }
    }
  }

  // ---------- frontier ----------

  /** A node is newly reached only if its parent was just processed. */
  lemma ReachedStep(t: Linkage, done: set<int>, v: int, x: int)
    requires t.WellFormed() && t.Inner(v) && 0 <= x < t.Total() && Reached(t, done + {v}, x)
    ensures Reached(t, done, x) || x == t.Left(v) || x == t.Right(v)
  {
  }

  lemma FrontierSkip(t: Linkage, m: nat, done: set<int>, relabel: seq<int>, tops: seq<int>, cur: seq<int>, v: int)
    requires Ready(t, m) && AllInner(t, tops) && Frontier(t, m, done, relabel, tops, cur)
    requires 0 <= v < t.Total() && Reached(t, done, v) && !Alive(t, m, v)
    ensures Frontier(t, m, done + {v}, relabel, tops, cur)
  {
    assert t.Inner(v) ==> !Big(t, m, t.Left(v)) && !Big(t, m, t.Right(v)) && t.Left(v) < t.Root() && t.Right(v) < t.Root();
    forall k | 0 <= k < |tops| ensures cur[k] != v {
      assert Carries(t, m, done, relabel, tops, cur, k);
      if tops[k] != t.Root() { assert BornIn(t, m, done, tops[k]); }
      if cur[k] != -1 { ChainAlive(t, m, done, tops[k], cur[k]); }
    }
    hide Mass, Linkage.WellFormed, End, Linkage.Under;
    forall k | 0 <= k < |tops| ensures Carries(t, m, done + {v}, relabel, tops, cur, k) {
      assert Carries(t, m, done, relabel, tops, cur, k);
    }
    forall x | 0 <= x < t.Total() ensures Claimed(t, m, done + {v}, relabel, cur, x) {
      assert Claimed(t, m, done, relabel, cur, x);
      if t.Inner(v) && Reached(t, done + {v}, x) { ReachedStep(t, done, v, x); }
    }
    forall k | 0 <= k < |tops| && tops[k] != t.Root() ensures BornIn(t, m, done + {v}, tops[k]) {
      assert BornIn(t, m, done, tops[k]);
    }
  }

  /** Every node that carries on a cluster is big, or the root. */
  lemma ChainAlive(t: Linkage, m: nat, done: set<int>, top: int, v: int)
    requires Ready(t, m) && t.Inner(top) && Alive(t, m, top) && OnChain(t, m, done, top, v)
    ensures Alive(t, m, v)
  {
    if v != top { ChainBig(t, m, top, v); }
  }

  /** A proper descendant with the same end lies on the chain of big children. */
  lemma {:induction false} ChainBig(t: Linkage, m: nat, top: int, v: int)
    requires Ready(t, m) && t.Inner(top) && t.Inner(v) && v in t.Under(top) && v != top
    requires End(t, m, v) == End(t, m, top)
    ensures Big(t, m, v)
    decreases top
  {
    var l, r := t.Left(top), t.Right(top);
    ChildrenDisjoint(t, top);
    var c := if v in t.Under(l) then l else r;
    UnderTransitive(t, v, c);
    assert End(t, m, top) in t.Under(c) && End(t, m, top) != top;
    assert Big(t, m, c);
    if v != c { ChainBig(t, m, c, v); }
  }

  /** Entries of clusters other than the one being carried on do not change. */
  lemma CarriesStep(t: Linkage, m: nat, done: set<int>, relabel: seq<int>, relabel': seq<int>,
                    tops: seq<int>, tops': seq<int>, cur: seq<int>, cur': seq<int>, v: int, j: int)
    requires Ready(t, m) && |relabel| == |relabel'| == t.Total() && t.Inner(v) && v !in done
    requires 0 <= j < |tops| == |cur| && |tops'| == |cur'| >= |tops| && t.Inner(tops[j]) && tops'[j] == tops[j]
    requires cur'[j] == cur[j] != v
    requires forall x | 0 <= x < t.Total() && x != t.Left(v) && x != t.Right(v) :: relabel'[x] == relabel[x]
    requires t.Parent(t.Left(v)) == t.Parent(t.Right(v)) == v && t.Left(v) < t.Root() && t.Right(v) < t.Root()
    requires Carries(t, m, done, relabel, tops, cur, j)
    ensures Carries(t, m, done + {v}, relabel', tops', cur', j)
  {
    hide Mass, Linkage.WellFormed, End, Linkage.Under;
  }

  /** So do the claims on nodes other than the children of the processed node. */
  lemma ClaimedStep(t: Linkage, m: nat, done: set<int>, relabel: seq<int>, relabel': seq<int>,
                    cur: seq<int>, cur': seq<int>, v: int, x: int)
    requires Ready(t, m) && |relabel| == |relabel'| == t.Total() && t.Inner(v) && 0 <= x < t.Total()
    requires x == t.Left(v) || x == t.Right(v) ==> Claimed(t, m, done + {v}, relabel', cur', x)
    requires x != t.Left(v) && x != t.Right(v) ==> relabel'[x] == relabel[x]
    requires |cur'| >= |cur| && forall j | 0 <= j < |cur| && cur[j] != v :: cur'[j] == cur[j]
    requires Claimed(t, m, done, relabel, cur, x)
    ensures Claimed(t, m, done + {v}, relabel', cur', x)
  {
    hide Mass, Linkage.WellFormed;
    if Reached(t, done + {v}, x) { ReachedStep(t, done, v, x); }
  }

  lemma SplitChildren(t: Linkage, m: nat, v: int)
    requires Ready(t, m) && t.Inner(v) && t.Left(v) < t.Total() && t.Right(v) < t.Total()
    ensures t.Left(v) != v && t.Right(v) != v && t.Left(v) != t.Right(v)
    ensures Big(t, m, t.Left(v)) ==> t.Inner(t.Left(v)) && t.Left(v) in t.Under(t.Left(v)) && t.Left(v) in t.Under(v)
    ensures Big(t, m, t.Right(v)) ==> t.Inner(t.Right(v)) && t.Right(v) in t.Under(t.Right(v)) && t.Right(v) in t.Under(v)
  {
  }

  lemma FrontierSplit(t: Linkage, m: nat, done: set<int>, relabel: seq<int>, relabel': seq<int>,
                      tops: seq<int>, tops': seq<int>, cur: seq<int>, cur': seq<int>, v: int, k: int)
    requires Ready(t, m) && AllInner(t, tops) && AtNode(t, m, done, relabel, tops, cur, v, k)
    requires Big(t, m, t.Left(v)) && Big(t, m, t.Right(v))
    requires relabel' == relabel[t.Left(v) := t.n + |tops|][t.Right(v) := t.n + |tops| + 1]
    requires tops' == tops + [t.Left(v), t.Right(v)] && cur' == cur[k := -1] + [t.Left(v), t.Right(v)]
    ensures AllInner(t, tops') && Frontier(t, m, done + {v}, relabel', tops', cur')
  {
    hide Mass, Linkage.WellFormed, End, Linkage.Under;
    AtNodeFacts(t, m, done, relabel, tops, cur, v, k);
    var l, r, K, done' := t.Left(v), t.Right(v), |tops|, done + {v};
    SplitChildren(t, m, v);
    forall j | 0 <= j < |tops'| ensures Carries(t, m, done', relabel', tops', cur', j) {
      if j < K && j != k {
        assert Carries(t, m, done, relabel, tops, cur, j);
        CarriesStep(t, m, done, relabel, relabel', tops, tops', cur, cur', v, j);
      }
    }
    forall x | 0 <= x < t.Total() ensures Claimed(t, m, done', relabel', cur', x) {
      assert Claimed(t, m, done, relabel, cur, x);
      ClaimedStep(t, m, done, relabel, relabel', cur, cur', v, x);
    }
    forall j | 0 <= j < |tops'| && tops'[j] != t.Root() ensures BornIn(t, m, done', tops'[j]) {
      if j < K { assert BornIn(t, m, done, tops[j]); }
    }
  }

  lemma NumberedSplit(t: Linkage, m: nat, tops: seq<int>, par: seq<int>, v: int, k: int)
    requires Ready(t, m) && Numbered(t, m, tops, par) && 0 <= k < |tops|
    requires t.Inner(v) && End(t, m, tops[k]) == v && Big(t, m, t.Left(v)) && Big(t, m, t.Right(v))
    requires t.Left(v) !in tops && t.Right(v) !in tops
    ensures Numbered(t, m, tops + [t.Left(v), t.Right(v)], par + [k, k])
  {
    var tops', par' := tops + [t.Left(v), t.Right(v)], par + [k, k];
    forall j | 0 < j < |tops'| ensures BornFrom(t, m, tops', par', j) {
      if j < |tops| { assert BornFrom(t, m, tops, par, j); }
    }
  }

  lemma FrontierDissolve(t: Linkage, m: nat, done: set<int>, relabel: seq<int>,
                         tops: seq<int>, cur: seq<int>, v: int, k: int)
    requires Ready(t, m) && AllInner(t, tops) && AtNode(t, m, done, relabel, tops, cur, v, k)
    requires !Big(t, m, t.Left(v)) && !Big(t, m, t.Right(v))
    ensures Frontier(t, m, done + {v}, relabel, tops, cur[k := -1])
  {
    AtNodeFacts(t, m, done, relabel, tops, cur, v, k);
    var done', cur' := done + {v}, cur[k := -1];
    hide Mass, Linkage.WellFormed, End, Linkage.Under;
    forall j | 0 <= j < |tops| ensures Carries(t, m, done', relabel, tops, cur', j) {
      assert Carries(t, m, done, relabel, tops, cur, j);
      if j != k { CarriesStep(t, m, done, relabel, relabel, tops, tops, cur, cur', v, j); }
    }
    forall x | 0 <= x < t.Total() ensures Claimed(t, m, done', relabel, cur', x) {
      assert Claimed(t, m, done, relabel, cur, x);
      ClaimedStep(t, m, done, relabel, relabel, cur, cur', v, x);
    }
    forall j | 0 <= j < |tops| && tops[j] != t.Root() ensures BornIn(t, m, done', tops[j]) { assert BornIn(t, m, done, tops[j]); }
  }

  lemma ChainContinues(t: Linkage, m: nat, done: set<int>, top: int, v: int, b: int)
    requires Ready(t, m) && t.Inner(top) && t.Inner(v) && OnChain(t, m, done, top, v)
    requires Big(t, m, t.Left(v)) != Big(t, m, t.Right(v)) && b !in done && b != v
    requires b == if Big(t, m, t.Left(v)) then t.Left(v) else t.Right(v)
    ensures OnChain(t, m, done + {v}, top, b)
  {
    UnderTransitive(t, v, top);
    assert t.HasChild(v, b) && t.Parent(b) == v && b in t.Under(b) && b in t.Under(v);
  }

  lemma FrontierContinue(t: Linkage, m: nat, done: set<int>, relabel: seq<int>,
                         tops: seq<int>, cur: seq<int>, v: int, k: int, b: int)
    requires Ready(t, m) && AllInner(t, tops) && AtNode(t, m, done, relabel, tops, cur, v, k)
    requires Big(t, m, t.Left(v)) != Big(t, m, t.Right(v))
    requires b == if Big(t, m, t.Left(v)) then t.Left(v) else t.Right(v)
    ensures Frontier(t, m, done + {v}, relabel[b := relabel[v]], tops, cur[k := b])
  {
    hide Mass, Linkage.WellFormed, End, Linkage.Under, OnChain;
    AtNodeFacts(t, m, done, relabel, tops, cur, v, k);
    var done', relabel', cur' := done + {v}, relabel[b := relabel[v]], cur[k := b];
    SplitChildren(t, m, v);
    ChainContinues(t, m, done, tops[k], v, b);
    forall j | 0 <= j < |tops| ensures Carries(t, m, done', relabel', tops, cur', j) {
      if j != k {
        assert Carries(t, m, done, relabel, tops, cur, j);
        CarriesStep(t, m, done, relabel, relabel', tops, tops, cur, cur', v, j);
      }
    }
    forall x | 0 <= x < t.Total() ensures Claimed(t, m, done', relabel', cur', x) {
      assert Claimed(t, m, done, relabel, cur, x);
      ClaimedStep(t, m, done, relabel, relabel', cur, cur', v, x);
    }
    forall j | 0 <= j < |tops| && tops[j] != t.Root() ensures BornIn(t, m, done', tops[j]) { assert BornIn(t, m, done, tops[j]); }
  }

  // ---------- ignored nodes ----------

  /** Marking `marked` while processing v, where the small children of v are marked. */
  lemma IgnoringStep(t: Linkage, m: nat, done: set<int>, ignore: seq<bool>, ignore': seq<bool>, v: int, marked: set<int>)
    requires Ready(t, m) && Ignoring(t, m, done, ignore) && 0 <= v < t.Total() && |ignore'| == t.Total()
    requires forall x | 0 <= x < t.Total() :: ignore'[x] == (ignore[x] || x in marked)
    requires forall x | x in marked :: 0 <= x < t.Total() && (x == v || !Alive(t, m, x))
    requires forall x | x in marked && t.Inner(x) :: t.Left(x) in marked && t.Right(x) in marked
    requires forall x | x in marked && x != v :: x < t.Root() && (t.Parent(x) == v || t.Parent(x) in marked)
    requires t.Inner(v) ==> forall c | t.HasChild(v, c) && !Big(t, m, c) :: c in marked || ignore[c]
    ensures Ignoring(t, m, done + {v}, ignore')
  {
    forall x | 0 <= x < t.Root() && !Big(t, m, x) && t.Parent(x) in done + {v} ensures ignore'[x] {
      if t.Parent(x) == v { assert t.HasChild(v, x); }
    }
  }

  lemma MarkSmall(t: Linkage, m: nat, s: int)
    requires Ready(t, m) && 0 <= s < t.Root() && !Big(t, m, s)
    ensures forall x | x in t.Under(s) :: x < t.Root() && !Alive(t, m, x)
  {
    forall x | x in t.Under(s) ensures x < t.Root() && !Alive(t, m, x) { SizeMonotone(t, x, s); }
  }

  lemma UnderClosed(t: Linkage, s: int)
    requires t.WellFormed() && 0 <= s < t.Total()
    ensures forall x | x in t.Under(s) && t.Inner(x) :: t.Left(x) in t.Under(s) && t.Right(x) in t.Under(s)
    ensures forall x | x in t.Under(s) && x != s :: x < t.Root() && t.Parent(x) in t.Under(s)
  {
    forall x | x in t.Under(s) && t.Inner(x) ensures t.Left(x) in t.Under(s) && t.Right(x) in t.Under(s) {
      UnderTransitive(t, x, s);
      assert t.Left(x) in t.Under(x) && t.Right(x) in t.Under(x);
    }
    forall x | x in t.Under(s) && x != s ensures x < t.Root() && t.Parent(x) in t.Under(s) { UnderParent(t, x, s); }
  }

  /** Nothing below an unprocessed living node is ignored yet. */
  lemma {:induction false} NotYetIgnored(t: Linkage, m: nat, done: set<int>, ignore: seq<bool>, v: int, x: int)
    requires Ready(t, m) && Ignoring(t, m, done, ignore) && 0 <= v < t.Total() && x in t.Under(v)
    requires v !in done && Alive(t, m, v)
    requires forall y | y in done :: 0 <= y < t.Total() && Reached(t, done, y)
    ensures x !in done && !ignore[x]
    decreases v - x
  {
    if x != v {
      UnderParent(t, x, v);
      NotYetIgnored(t, m, done, ignore, v, t.Parent(x));
    }
  }

  // ---------- rows ----------

  lemma HasRowAppend(cond: seq<CRow>, add: seq<CRow>, c: int)
    ensures HasRow(cond + add, c) <==> HasRow(cond, c) || HasRow(add, c)
  {
    if HasRow(cond, c) {
      var i :| 0 <= i < |cond| && cond[i].child == c;
      assert (cond + add)[i].child == c;
    }
    if HasRow(add, c) {
      var i :| 0 <= i < |add| && add[i].child == c;
      assert (cond + add)[|cond| + i].child == c;
    }
  }

  lemma RowsShed(t: Linkage, m: nat, ignore: seq<bool>, ignore': seq<bool>, cond: seq<CRow>, add: seq<CRow>,
                 tops: seq<int>, par: seq<int>, k: int, sub: int, level: real)
    requires Ready(t, m) && |ignore| == |ignore'| == t.Total() && Numbered(t, m, tops, par)
    requires Rows(t, m, ignore, cond, tops, par) && 0 <= k < |tops| && 0 <= sub < t.Total()
    requires Sheds(t, sub, t.n + k, level, add)
    requires forall p | p in t.Leaves(sub) :: !ignore[p] && ShedFrom(t, m, tops[k], p)
    requires forall x | 0 <= x < t.Total() :: ignore'[x] == (ignore[x] || x in t.Under(sub))
    ensures Rows(t, m, ignore', cond + add, tops, par)
  {
    var cond' := cond + add;
    forall i | 0 <= i < |cond'| ensures RowOk(t, m, tops, par, cond'[i]) && (cond'[i].child < t.n ==> ignore'[cond'[i].child]) {
      if i < |cond| { assert RowOk(t, m, tops, par, cond[i]); }
      else { assert add[i - |cond|].child in t.Leaves(sub); }
    }
    forall i, j | 0 <= i < j < |cond'| ensures cond'[i].child != cond'[j].child {
      if i < |cond| <= j { assert add[j - |cond|].child in t.Leaves(sub); }
      if |cond| <= i { assert add[i - |cond|].child != add[j - |cond|].child; }
    }
    forall p | 0 <= p < t.n && ignore'[p] ensures HasRow(cond', p) {
      HasRowAppend(cond, add, p);
      if !ignore[p] { assert p in t.Leaves(sub); }
    }
    forall c | t.n < c < t.n + |tops| ensures HasRow(cond', c) { HasRowAppend(cond, add, c); }
  }

  lemma RowOkExtend(t: Linkage, m: nat, tops: seq<int>, par: seq<int>, tops': seq<int>, par': seq<int>, r: CRow)
    requires Ready(t, m) && |tops| == |par| && |tops'| == |par'| && AllInner(t, tops) && AllInner(t, tops')
    requires tops <= tops' && par <= par' && RowOk(t, m, tops, par, r)
    ensures RowOk(t, m, tops', par', r)
  {
  }

  lemma RowsSplit(t: Linkage, m: nat, ignore: seq<bool>, cond: seq<CRow>, add: seq<CRow>, tops: seq<int>, tops': seq<int>,
                  par: seq<int>, par': seq<int>, v: int, k: int)
    requires Ready(t, m) && |ignore| == t.Total() && Numbered(t, m, tops, par) && Numbered(t, m, tops', par')
    requires Rows(t, m, ignore, cond, tops, par) && 0 <= k < |tops| && t.Inner(v)
    requires tops' == tops + [t.Left(v), t.Right(v)] && par' == par + [k, k]
    requires add == SplitRows(t, v, t.n + k, t.n + |tops|)
    ensures Rows(t, m, ignore, cond + add, tops', par')
  {
    RowsOk(t, m, cond, add, tops, tops', par, par', v, k);
    hide Mass, Linkage.WellFormed, BornFrom, RowOk, HasRow;
    RowsPresent(t, ignore, cond, add, |tops|);
  }

  lemma RowsOk(t: Linkage, m: nat, cond: seq<CRow>, add: seq<CRow>, tops: seq<int>, tops': seq<int>,
               par: seq<int>, par': seq<int>, v: int, k: int)
    requires Ready(t, m) && |tops| == |par| && AllInner(t, tops) && AllInner(t, tops') && OneRowEach(cond)
    requires 0 <= k < |tops| && t.Inner(v)
    requires forall i | 0 <= i < |cond| :: RowOk(t, m, tops, par, cond[i])
    requires tops' == tops + [t.Left(v), t.Right(v)] && par' == par + [k, k]
    requires add == SplitRows(t, v, t.n + k, t.n + |tops|)
    ensures forall i | 0 <= i < |cond + add| :: RowOk(t, m, tops', par', (cond + add)[i])
    ensures OneRowEach(cond + add)
  {
    var l, r := t.Left(v), t.Right(v);
    assert t.HasChild(v, l) && t.HasChild(v, r) && t.Parent(l) == v && t.Parent(r) == v;
    assert RowOk(t, m, tops', par', add[0]) && RowOk(t, m, tops', par', add[1]);
    hide Mass, Linkage.WellFormed, ShedFrom, Birth, Linkage.Lambda;
    forall i | 0 <= i < |cond| ensures RowOk(t, m, tops', par', cond[i]) && cond[i].child < t.n + |tops| {
      assert RowOk(t, m, tops, par, cond[i]);
      RowOkExtend(t, m, tops, par, tops', par', cond[i]);
    }
    hide RowOk;
  }

  lemma RowsPresent(t: Linkage, ignore: seq<bool>, cond: seq<CRow>, add: seq<CRow>, count: nat)
    requires |ignore| == t.Total() && |add| == 2 && add[0].child == t.n + count && add[1].child == t.n + count + 1
    requires forall p | 0 <= p < t.n && ignore[p] :: HasRow(cond, p)
    requires forall c | t.n < c < t.n + count :: HasRow(cond, c)
    ensures forall p | 0 <= p < t.n && ignore[p] :: HasRow(cond + add, p)
    ensures forall c | t.n < c < t.n + count + 2 :: HasRow(cond + add, c)
  {
    forall c | HasRow(cond, c) || c == t.n + count || c == t.n + count + 1 ensures HasRow(cond + add, c) {
      HasRowAppend(cond, add, c);
    }
  }

  function SplitRows(t: Linkage, v: int, cluster: int, next: int): seq<CRow>
    requires t.Inner(v) && t.Height(v) > 0.0 && t.Left(v) < t.Total() && t.Right(v) < t.Total()
  {
    [CRow(cluster, next, t.Lambda(v), t.Size(t.Left(v))), CRow(cluster, next + 1, t.Lambda(v), t.Size(t.Right(v)))]
  }

  // ---------- credit ----------

  lemma Distribute(gain: real, a: nat, b: nat)
    ensures Mass(gain, a) + Mass(gain, b) == Mass(gain, a + b) && Mass(gain, 0) == 0.0
  {
  }

  lemma {:induction false} AccShed(n: nat, cond: seq<CRow>, add: seq<CRow>, cluster: int, level: real, c: int, birth: real)
    requires forall i | 0 <= i < |add| :: add[i].parent == cluster && add[i].level == level && add[i].size == 1 && add[i].child < n
    ensures Acc(cond + add, c, birth) == Acc(cond, c, birth) + if c == cluster then Mass(level - birth, |add|) else 0.0
    ensures KidIds(cond + add, n, c) == KidIds(cond, n, c)
    decreases |add|
  {
    hide Mass;
    Distribute(level - birth, 0, 0);
    if add == [] {
      assert cond + add == cond;
    } else {
      var rest := add[..|add| - 1];
      assert (cond + add)[..|cond + add| - 1] == cond + rest;
      AccShed(n, cond, rest, cluster, level, c, birth);
      Distribute(level - birth, |rest|, 1);
    }
  }

  lemma AccShedOther(n: nat, cond: seq<CRow>, add: seq<CRow>, cluster: int, level: real, c: int, birth: real)
    requires forall i | 0 <= i < |add| :: add[i].parent == cluster && add[i].level == level && add[i].size == 1 && add[i].child < n
    requires c != cluster
    ensures Acc(cond + add, c, birth) == Acc(cond, c, birth) && KidIds(cond + add, n, c) == KidIds(cond, n, c)
  {
    AccShed(n, cond, add, cluster, level, c, birth);
  }

  lemma AccTwo(n: nat, cond: seq<CRow>, x: CRow, y: CRow, c: int, birth: real)
    ensures Acc(cond + [x, y], c, birth) == Acc(cond, c, birth)
            + (if x.parent == c then Mass(x.level - birth, x.size) else 0.0)
            + (if y.parent == c then Mass(y.level - birth, y.size) else 0.0)
    ensures KidIds(cond + [x, y], n, c) == KidIds(cond, n, c)
            + (if x.parent == c && x.child >= n then [x.child] else [])
            + (if y.parent == c && y.child >= n then [y.child] else [])
  {
    var all := cond + [x, y];
    assert all[..|all| - 1] == cond + [x] && (cond + [x])[..|cond|] == cond;
  }

  lemma {:induction false} NoRows(n: nat, cond: seq<CRow>, c: int, birth: real)
    requires forall i | 0 <= i < |cond| :: cond[i].parent != c
    ensures Acc(cond, c, birth) == 0.0 && KidIds(cond, n, c) == []
    decreases |cond|
  {
    if cond != [] { NoRows(n, cond[..|cond| - 1], c, birth); }
  }

  lemma KidsStay(t: Linkage, m: nat, cond: seq<CRow>, cond': seq<CRow>, tops: seq<int>, tops': seq<int>,
                 par: seq<int>, par': seq<int>, k: int)
    requires Ready(t, m) && |tops| == |par| && |tops'| == |par'| && 0 <= k < |tops| && t.Inner(tops[k])
    requires tops <= tops' && par <= par'
    requires KidsListed(t, m, cond, tops, par, k) && KidIds(cond', t.n, t.n + k) == KidIds(cond, t.n, t.n + k)
    ensures KidsListed(t, m, cond', tops', par', k)
  {
  }

  /** A cluster with no new rows keeps its credit. */
  lemma CreditKeep(t: Linkage, m: nat, cond: seq<CRow>, cond': seq<CRow>, tops: seq<int>, tops': seq<int>,
                   par: seq<int>, par': seq<int>, cur: seq<int>, cur': seq<int>, j: int)
    requires Ready(t, m) && |tops| == |par| == |cur| && 0 <= j < |tops| && t.Inner(tops[j]) && (cur[j] == -1 || t.Inner(cur[j]))
    requires |tops'| == |par'| == |cur'| && tops <= tops' && par <= par' && cur'[j] == cur[j]
    requires Credit(t, m, cond, tops, par, cur, j)
    requires Acc(cond', t.n + j, Birth(t, tops[j])) == Acc(cond, t.n + j, Birth(t, tops[j]))
    requires KidIds(cond', t.n, t.n + j) == KidIds(cond, t.n, t.n + j)
    ensures Credit(t, m, cond', tops', par', cur', j)
  {
    hide Mass, Linkage.WellFormed, Stability, Excess, HasKids, Birth;
    if cur[j] == -1 { KidsStay(t, m, cond, cond', tops, tops', par, par', j); }
  }

  lemma CreditsShed(t: Linkage, m: nat, cond: seq<CRow>, add: seq<CRow>, tops: seq<int>, par: seq<int>,
                    cur: seq<int>, cur': seq<int>, v: int, k: int, sub: int, next: int)
    requires Ready(t, m) && Credits(t, m, cond, tops, par, cur) && 0 <= k < |tops| && cur[k] == v && t.Inner(v)
    requires 0 <= sub < t.Total() && t.Height(v) > 0.0 && Sheds(t, sub, t.n + k, t.Lambda(v), add)
    requires (next == -1 || t.Inner(next)) && cur' == cur[k := next]
    requires Excess(t, m, v, Birth(t, tops[k])) == Mass(t.Lambda(v) - Birth(t, tops[k]), t.Size(sub))
                             + if next == -1 then 0.0 else Excess(t, m, next, Birth(t, tops[k]))
    requires next == -1 ==> !HasKids(t, m, tops[k])
    ensures Credits(t, m, cond + add, tops, par, cur')
  {
    hide Mass, Linkage.WellFormed, Excess, HasKids, Birth, Linkage.Lambda, Sheds, Credit, Linkage.Leaves;
    var level := t.Lambda(v);
    ShedRows(t, sub, t.n + k, level, add);
    CreditShedAt(t, m, cond, add, tops, par, cur, cur', v, k, next, level);
    forall j | 0 <= j < |tops| && j != k ensures Credit(t, m, cond + add, tops, par, cur', j) {
      CreditShedOther(t, m, cond, add, tops, par, cur, cur', k, j, level);
    }
  }

  lemma ShedRows(t: Linkage, sub: int, cluster: int, level: real, add: seq<CRow>)
    requires t.WellFormed() && 0 <= sub < t.Total() && Sheds(t, sub, cluster, level, add)
    ensures forall i | 0 <= i < |add| :: add[i].parent == cluster && add[i].level == level && add[i].size == 1 && add[i].child < t.n
    ensures |add| == t.Size(sub)
  {
  }

  lemma CreditShedAt(t: Linkage, m: nat, cond: seq<CRow>, add: seq<CRow>, tops: seq<int>, par: seq<int>,
                     cur: seq<int>, cur': seq<int>, v: int, k: int, next: int, level: real)
    requires Ready(t, m) && |tops| == |par| == |cur| == |cur'| && 0 <= k < |tops| && t.Inner(tops[k])
    requires cur[k] == v && t.Inner(v) && (next == -1 || t.Inner(next)) && cur'[k] == next
    requires Credit(t, m, cond, tops, par, cur, k)
    requires forall i | 0 <= i < |add| :: add[i].parent == t.n + k && add[i].level == level && add[i].size == 1 && add[i].child < t.n
    requires Excess(t, m, v, Birth(t, tops[k])) == Mass(level - Birth(t, tops[k]), |add|)
                             + if next == -1 then 0.0 else Excess(t, m, next, Birth(t, tops[k]))
    requires next == -1 ==> !HasKids(t, m, tops[k])
    ensures Credit(t, m, cond + add, tops, par, cur', k)
  {
    hide Mass, Linkage.WellFormed, Excess, HasKids, Birth, Stability;
    AccShed(t.n, cond, add, t.n + k, level, t.n + k, Birth(t, tops[k]));
  }

  lemma CreditShedOther(t: Linkage, m: nat, cond: seq<CRow>, add: seq<CRow>, tops: seq<int>, par: seq<int>,
                        cur: seq<int>, cur': seq<int>, k: int, j: int, level: real)
    requires Ready(t, m) && |tops| == |par| == |cur| == |cur'| && 0 <= j < |tops| && t.Inner(tops[j]) && j != k
    requires (cur[j] == -1 || t.Inner(cur[j])) && cur'[j] == cur[j] && Credit(t, m, cond, tops, par, cur, j)
    requires forall i | 0 <= i < |add| :: add[i].parent == t.n + k && add[i].level == level && add[i].size == 1 && add[i].child < t.n
    ensures Credit(t, m, cond + add, tops, par, cur', j)
  {
    hide Credit, Linkage.WellFormed, Birth;
    AccShedOther(t.n, cond, add, t.n + k, level, t.n + j, Birth(t, tops[j]));
    CreditKeep(t, m, cond, cond + add, tops, tops, par, par, cur, cur', j);
  }

  lemma SplitMass(t: Linkage, m: nat, cond: seq<CRow>, add: seq<CRow>, v: int, k: int, next: int, b: real)
    requires Ready(t, m) && t.Inner(v) && Big(t, m, t.Left(v)) && Big(t, m, t.Right(v))
    requires t.Height(v) > 0.0 && t.Left(v) < t.Total() && t.Right(v) < t.Total() && next >= t.n
    requires add == SplitRows(t, v, t.n + k, next)
    ensures Acc(cond + add, t.n + k, b) == Acc(cond, t.n + k, b) + Excess(t, m, v, b)
    ensures KidIds(cond + add, t.n, t.n + k) == KidIds(cond, t.n, t.n + k) + [next, next + 1]
  {
    assert add == [add[0], add[1]];
    ExcessAtSplit(t, m, v, b);
    hide Mass, Linkage.WellFormed, Linkage.Lambda, Excess;
    AccTwo(t.n, cond, add[0], add[1], t.n + k, b);
  }

  /** The cluster that splits: fully credited, both children listed. */
  lemma CreditParent(t: Linkage, m: nat, cond: seq<CRow>, add: seq<CRow>, tops: seq<int>, tops': seq<int>,
                     par: seq<int>, par': seq<int>, cur: seq<int>, cur': seq<int>, v: int, k: int)
    requires Ready(t, m) && |tops| == |par| == |cur| && 0 <= k < |tops| && t.Inner(tops[k]) && cur[k] == v && t.Inner(v)
    requires Credit(t, m, cond, tops, par, cur, k)
    requires End(t, m, tops[k]) == v && Big(t, m, t.Left(v)) && Big(t, m, t.Right(v))
    requires tops' == tops + [t.Left(v), t.Right(v)] && par' == par + [k, k] && cur' == cur[k := -1] + [t.Left(v), t.Right(v)]
    requires add == SplitRows(t, v, t.n + k, t.n + |tops|)
    ensures Credit(t, m, cond + add, tops', par', cur', k)
  {
    SplitMass(t, m, cond, add, v, k, t.n + |tops|, Birth(t, tops[k]));
    hide Mass, Linkage.WellFormed, Linkage.Lambda, Birth, Excess, Stability, End, SplitRows;
    assert KidsListed(t, m, cond + add, tops', par', k);
  }

  lemma ExcessAtSplit(t: Linkage, m: nat, v: int, b: real)
    requires Ready(t, m) && t.Inner(v) && Big(t, m, t.Left(v)) && Big(t, m, t.Right(v))
    ensures Excess(t, m, v, b) == Mass(t.Lambda(v) - b, t.Size(t.Left(v))) + Mass(t.Lambda(v) - b, t.Size(t.Right(v)))
  {
    hide Linkage.Lambda, Mass;
    Distribute(t.Lambda(v) - b, t.Size(t.Left(v)), t.Size(t.Right(v)));
  }

  /** A newborn cluster: nothing credited yet. */
  lemma CreditNew(t: Linkage, m: nat, cond: seq<CRow>, add: seq<CRow>, tops': seq<int>, par': seq<int>, cur': seq<int>, k: int, j: int)
    requires Ready(t, m) && |tops'| == |par'| == |cur'| && 0 <= j < |tops'| && t.Inner(tops'[j]) && cur'[j] == tops'[j] && j != k
    requires forall i | 0 <= i < |cond| :: cond[i].parent != t.n + j
    requires |add| == 2 && add[0].parent == add[1].parent == t.n + k
    ensures Credit(t, m, cond + add, tops', par', cur', j)
  {
    hide Mass, Linkage.WellFormed, Excess, HasKids, Birth;
    assert add == [add[0], add[1]];
    AccTwo(t.n, cond, add[0], add[1], t.n + j, Birth(t, tops'[j]));
    NoRows(t.n, cond, t.n + j, Birth(t, tops'[j]));
  }

  lemma CreditsSplit(t: Linkage, m: nat, cond: seq<CRow>, add: seq<CRow>, tops: seq<int>, tops': seq<int>,
                     par: seq<int>, par': seq<int>, cur: seq<int>, cur': seq<int>, v: int, k: int)
    requires Ready(t, m) && Credits(t, m, cond, tops, par, cur) && 0 <= k < |tops| && cur[k] == v && t.Inner(v)
    requires End(t, m, tops[k]) == v && Big(t, m, t.Left(v)) && Big(t, m, t.Right(v)) && AllInner(t, tops')
    requires forall i | 0 <= i < |cond| :: cond[i].parent < t.n + |tops|
    requires tops' == tops + [t.Left(v), t.Right(v)] && par' == par + [k, k] && cur' == cur[k := -1] + [t.Left(v), t.Right(v)]
    requires add == SplitRows(t, v, t.n + k, t.n + |tops|)
    ensures Credits(t, m, cond + add, tops', par', cur')
  {
    hide Mass, Linkage.WellFormed, End, Big;
    assert tops'[|tops|] == t.Left(v) && tops'[|tops| + 1] == t.Right(v);
    forall j | 0 <= j < |tops'| ensures Credit(t, m, cond + add, tops', par', cur', j) {
      if j == k {
        assert Credit(t, m, cond, tops, par, cur, k);
        CreditParent(t, m, cond, add, tops, tops', par, par', cur, cur', v, k);
      } else if j < |tops| {
        assert Credit(t, m, cond, tops, par, cur, j);
        assert add == [add[0], add[1]];
        AccTwo(t.n, cond, add[0], add[1], t.n + j, Birth(t, tops[j]));
        CreditKeep(t, m, cond, cond + add, tops, tops', par, par', cur, cur', j);
      } else {
        CreditNew(t, m, cond, add, tops', par', cur', k, j);
      }
    }
  }
}
