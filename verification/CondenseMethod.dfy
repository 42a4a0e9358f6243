/** The condensing loop itself. */
module CondenseMethod {
  import opened Basics
  import opened Dendrogram
  import opened CondensedTree
  import opened Condense
  import opened CondensedRows
  import opened CondenseLoop

  /** The loop's variables; tops, par and cur are bookkeeping for the proof. */
  datatype Build = Build(relabel: seq<int>, ignore: seq<bool>, cond: seq<CRow>,
                         tops: seq<int>, par: seq<int>, cur: seq<int>)

  ghost predicate LoopInv(t: Linkage, m: nat, done: set<int>, b: Build)
    requires Ready(t, m)
  {
    && Numbered(t, m, b.tops, b.par)
    && Frontier(t, m, done, b.relabel, b.tops, b.cur)
    && Ignoring(t, m, done, b.ignore)
    && Rows(t, m, b.ignore, b.cond, b.tops, b.par)
    && Credits(t, m, b.cond, b.tops, b.par, b.cur)
  }

  ghost predicate Next(t: Linkage, m: nat, done: set<int>, b: Build, v: int, k: int)
    requires Ready(t, m)
  {
    LoopInv(t, m, done, b) && AtNode(t, m, done, b.relabel, b.tops, b.cur, v, k)
  }

  lemma Initial(t: Linkage, m: nat, relabel: seq<int>, ignore: seq<bool>)
    requires Ready(t, m) && |relabel| == |ignore| == t.Total() && relabel[t.Root()] == t.n
    requires forall v | 0 <= v < t.Total() :: !ignore[v]
    ensures LoopInv(t, m, {}, Build(relabel, ignore, [], [t.Root()], [0], [t.Root()]))
  {
    var b := Build(relabel, ignore, [], [t.Root()], [0], [t.Root()]);
    assert Carries(t, m, {}, relabel, b.tops, b.cur, 0);
    assert KidIds([], t.n, t.n) == [];
    assert Credit(t, m, [], b.tops, b.par, b.cur, 0);
  }

  lemma StepSkip(t: Linkage, m: nat, done: set<int>, b: Build, v: int)
    requires Ready(t, m) && LoopInv(t, m, done, b) && 0 <= v < t.Total() && v !in done && Reached(t, done, v)
    requires t.Inner(v) ==> b.ignore[v]
    ensures LoopInv(t, m, done + {v}, b)
  {
    FrontierSkip(t, m, done, b.relabel, b.tops, b.cur, v);
    IgnoringStep(t, m, done, b.ignore, b.ignore, v, {});
  }

  lemma NextFacts(t: Linkage, m: nat, done: set<int>, b: Build, v: int, k: int)
    requires Ready(t, m) && Next(t, m, done, b, v, k)
    ensures AllInner(t, b.tops) && |b.tops| == |b.par| == |b.cur| && |b.relabel| == |b.ignore| == t.Total() && 0 <= k < |b.tops|
    ensures t.Left(v) < v && t.Right(v) < v && t.Left(v) != t.Right(v)
    ensures t.Left(v) < t.Root() && t.Right(v) < t.Root() && t.Height(v) > 0.0 && t.Inner(v) && b.cur[k] == v
  {
  }

  lemma ChainFacts(t: Linkage, m: nat, done: set<int>, top: int, v: int)
    requires Ready(t, m) && t.Inner(top) && OnChain(t, m, done, top, v)
    ensures t.Inner(v) && v in t.Under(top) && End(t, m, v) == End(t, m, top)
  {
  }

  lemma SplitMarks(t: Linkage, m: nat, done: set<int>, ignore: seq<bool>, v: int)
    requires Ready(t, m) && Ignoring(t, m, done, ignore) && t.Inner(v)
    requires t.Left(v) < t.Total() && t.Right(v) < t.Total() && Big(t, m, t.Left(v)) && Big(t, m, t.Right(v))
    ensures Ignoring(t, m, done + {v}, ignore)
  {
    IgnoringStep(t, m, done, ignore, ignore, v, {});
  }

  lemma StepSplit(t: Linkage, m: nat, done: set<int>, b: Build, b': Build, v: int, k: int)
    requires Ready(t, m) && Next(t, m, done, b, v, k)
    requires Big(t, m, t.Left(v)) && Big(t, m, t.Right(v))
    requires b' == Build(b.relabel[t.Left(v) := t.n + |b.tops|][t.Right(v) := t.n + |b.tops| + 1], b.ignore,
                         b.cond + SplitRows(t, v, t.n + k, t.n + |b.tops|),
                         b.tops + [t.Left(v), t.Right(v)], b.par + [k, k], b.cur[k := -1] + [t.Left(v), t.Right(v)])
    ensures LoopInv(t, m, done + {v}, b')
  {
    hide Frontier, Ignoring, Rows, Credits, Numbered, Linkage.WellFormed, Linkage.Under, OnChain, End;
    NextFacts(t, m, done, b, v, k);
    AtNodeFacts(t, m, done, b.relabel, b.tops, b.cur, v, k);
    ChainFacts(t, m, done, b.tops[k], v);
    FrontierSplit(t, m, done, b.relabel, b'.relabel, b.tops, b'.tops, b.cur, b'.cur, v, k);
    SplitMarks(t, m, done, b.ignore, v);
    RowsAndCreditsSplit(t, m, b.ignore, b.cond, SplitRows(t, v, t.n + k, t.n + |b.tops|),
                        b.tops, b'.tops, b.par, b'.par, b.cur, b'.cur, v, k);
  }

  lemma RowsAndCreditsSplit(t: Linkage, m: nat, ignore: seq<bool>, cond: seq<CRow>, add: seq<CRow>, tops: seq<int>, tops': seq<int>,
                            par: seq<int>, par': seq<int>, cur: seq<int>, cur': seq<int>, v: int, k: int)
    requires Ready(t, m) && |ignore| == t.Total() && Numbered(t, m, tops, par) && Rows(t, m, ignore, cond, tops, par)
    requires Credits(t, m, cond, tops, par, cur) && 0 <= k < |tops| && t.Inner(v) && cur[k] == v
    requires End(t, m, v) == End(t, m, tops[k]) && Big(t, m, t.Left(v)) && Big(t, m, t.Right(v))
    requires t.Left(v) !in tops && t.Right(v) !in tops
    requires tops' == tops + [t.Left(v), t.Right(v)] && par' == par + [k, k] && cur' == cur[k := -1] + [t.Left(v), t.Right(v)]
    requires add == SplitRows(t, v, t.n + k, t.n + |tops|)
    ensures Numbered(t, m, tops', par') && Rows(t, m, ignore, cond + add, tops', par')
    ensures Credits(t, m, cond + add, tops', par', cur')
  {
    hide Linkage.WellFormed, Credit, Distinct, BornFrom, ShedFrom, Birth;
    assert End(t, m, v) == v;
    NumberedSplit(t, m, tops, par, v, k);
    forall i | 0 <= i < |cond| ensures cond[i].parent < t.n + |tops| { assert RowOk(t, m, tops, par, cond[i]); }
    RowsSplit(t, m, ignore, cond, add, tops, tops', par, par', v, k);
    CreditsSplit(t, m, cond, add, tops, tops', par, par', cur, cur', v, k);
  }

  /** Points below `sub` fall out of cluster k at node v, and `next` (or nothing) carries it on. */
  lemma ShedPoints(t: Linkage, m: nat, done: set<int>, b: Build, v: int, k: int, sub: int, ignore': seq<bool>, add: seq<CRow>)
    requires Ready(t, m) && Next(t, m, done, b, v, k) && |ignore'| == t.Total()
    requires 0 <= sub < t.Total() && sub in t.Under(v) && Sheds(t, sub, t.n + k, t.Lambda(v), add)
    requires HasKids(t, m, v) ==> t.Under(sub) !! t.Under(End(t, m, v))
    requires forall x | 0 <= x < t.Total() :: ignore'[x] == (b.ignore[x] || x in t.Under(sub))
    ensures Rows(t, m, ignore', b.cond + add, b.tops, b.par)
  {
    AtNodeFacts(t, m, done, b.relabel, b.tops, b.cur, v, k);
    UnderTransitive(t, sub, v);
    UnderTransitive(t, v, b.tops[k]);
    forall p | p in t.Leaves(sub) ensures !b.ignore[p] && ShedFrom(t, m, b.tops[k], p) {
      NotYetIgnored(t, m, done, b.ignore, v, p);
    }
    RowsShed(t, m, b.ignore, ignore', b.cond, add, b.tops, b.par, k, sub, t.Lambda(v));
  }

  lemma DissolveFacts(t: Linkage, m: nat, v: int, top: int, birth: real)
    requires Ready(t, m) && t.Inner(v) && t.Inner(top) && End(t, m, v) == End(t, m, top)
    requires !Big(t, m, t.Left(v)) && !Big(t, m, t.Right(v))
    ensures v in t.Under(v) && !HasKids(t, m, v) && !HasKids(t, m, top)
    ensures Excess(t, m, v, birth) == Mass(t.Lambda(v) - birth, t.Size(v))
  {
    hide Mass, Linkage.Lambda, Linkage.Under, End;
    EndsHere(t, m, v);
  }

  lemma EndsHere(t: Linkage, m: nat, v: int)
    requires Ready(t, m) && t.Inner(v) && Big(t, m, t.Left(v)) == Big(t, m, t.Right(v))
    ensures End(t, m, v) == v
  {
  }

  lemma StepDissolve(t: Linkage, m: nat, done: set<int>, b: Build, b': Build, v: int, k: int, add: seq<CRow>)
    requires Ready(t, m) && Next(t, m, done, b, v, k) && |b'.ignore| == t.Total()
    requires !Big(t, m, t.Left(v)) && !Big(t, m, t.Right(v))
    requires Sheds(t, v, t.n + k, t.Lambda(v), add)
    requires forall x | 0 <= x < t.Total() :: b'.ignore[x] == (b.ignore[x] || x in t.Under(v))
    requires b' == Build(b.relabel, b'.ignore, b.cond + add, b.tops, b.par, b.cur[k := -1])
    ensures LoopInv(t, m, done + {v}, b')
  {
    hide Frontier, Ignoring, Rows, Credits, Numbered, Linkage.WellFormed, Sheds, HasKids, Excess, Mass, OnChain, End;
    NextFacts(t, m, done, b, v, k);
    AtNodeFacts(t, m, done, b.relabel, b.tops, b.cur, v, k);
    ChainFacts(t, m, done, b.tops[k], v);
    DissolveFacts(t, m, v, b.tops[k], Birth(t, b.tops[k]));
    FrontierDissolve(t, m, done, b.relabel, b.tops, b.cur, v, k);
    ShedPoints(t, m, done, b, v, k, v, b'.ignore, add);
    DissolveMarks(t, m, done, b.ignore, b'.ignore, v);
    CreditsShed(t, m, b.cond, add, b.tops, b.par, b.cur, b'.cur, v, k, v, -1);
  }

  lemma DissolveMarks(t: Linkage, m: nat, done: set<int>, ignore: seq<bool>, ignore': seq<bool>, v: int)
    requires Ready(t, m) && Ignoring(t, m, done, ignore) && t.Inner(v) && |ignore'| == t.Total()
    requires !Big(t, m, t.Left(v)) && !Big(t, m, t.Right(v))
    requires forall x | 0 <= x < t.Total() :: ignore'[x] == (ignore[x] || x in t.Under(v))
    ensures Ignoring(t, m, done + {v}, ignore')
  {
    UnderClosed(t, v);
    MarkSmall(t, m, t.Left(v));
    MarkSmall(t, m, t.Right(v));
    IgnoringStep(t, m, done, ignore, ignore', v, t.Under(v));
  }

  lemma ContinueMarks(t: Linkage, m: nat, done: set<int>, ignore: seq<bool>, ignore': seq<bool>, v: int, big: int, small: int)
    requires Ready(t, m) && Ignoring(t, m, done, ignore) && t.Inner(v) && |ignore'| == t.Total()
    requires (big == t.Left(v) && small == t.Right(v)) || (big == t.Right(v) && small == t.Left(v))
    requires Big(t, m, big) && !Big(t, m, small)
    requires forall x | 0 <= x < t.Total() :: ignore'[x] == (ignore[x] || x in t.Under(small))
    ensures Ignoring(t, m, done + {v}, ignore')
  {
    assert t.HasChild(v, small) && t.Parent(small) == v;
    UnderClosed(t, small);
    MarkSmall(t, m, small);
    IgnoringStep(t, m, done, ignore, ignore', v, t.Under(small));
  }

  lemma ContinueFacts(t: Linkage, m: nat, v: int, big: int, small: int, birth: real)
    requires Ready(t, m) && t.Inner(v)
    requires (big == t.Left(v) && small == t.Right(v)) || (big == t.Right(v) && small == t.Left(v))
    requires Big(t, m, big) && !Big(t, m, small)
    ensures t.Inner(big) && small in t.Under(v)
    ensures HasKids(t, m, v) ==> t.Under(small) !! t.Under(End(t, m, v))
    ensures Excess(t, m, v, birth) == Mass(t.Lambda(v) - birth, t.Size(small)) + Excess(t, m, big, birth)
  {
    ChildrenDisjoint(t, v);
    assert t.Inner(big) && End(t, m, v) == End(t, m, big);
    UnderTransitive(t, End(t, m, v), big);
    assert small in t.Under(small);
  }

  lemma StepContinue(t: Linkage, m: nat, done: set<int>, b: Build, b': Build, v: int, k: int, big: int, small: int, add: seq<CRow>)
    requires Ready(t, m) && Next(t, m, done, b, v, k) && |b'.ignore| == t.Total()
    requires (big == t.Left(v) && small == t.Right(v)) || (big == t.Right(v) && small == t.Left(v))
    requires Big(t, m, big) && !Big(t, m, small)
    requires Sheds(t, small, t.n + k, t.Lambda(v), add)
    requires forall x | 0 <= x < t.Total() :: b'.ignore[x] == (b.ignore[x] || x in t.Under(small))
    requires b' == Build(b.relabel[big := b.relabel[v]], b'.ignore, b.cond + add, b.tops, b.par, b.cur[k := big])
    ensures LoopInv(t, m, done + {v}, b')
  {
    hide Frontier, Ignoring, Rows, Credits, Numbered, Linkage.WellFormed, Sheds, HasKids, Excess, Mass, OnChain, End;
    NextFacts(t, m, done, b, v, k);
    AtNodeFacts(t, m, done, b.relabel, b.tops, b.cur, v, k);
    ContinueFacts(t, m, v, big, small, Birth(t, b.tops[k]));
    FrontierContinue(t, m, done, b.relabel, b.tops, b.cur, v, k, big);
    ContinueMarks(t, m, done, b.ignore, b'.ignore, v, big, small);
    ShedPoints(t, m, done, b, v, k, small, b'.ignore, add);
    CreditsShed(t, m, b.cond, add, b.tops, b.par, b.cur, b'.cur, v, k, small, big);
  }

  lemma AllIgnored(t: Linkage, m: nat, done: set<int>, ignore: seq<bool>)
    requires Ready(t, m) && Ignoring(t, m, done, ignore) && forall x :: x in done <==> 0 <= x < t.Total()
    ensures forall p | 0 <= p < t.n :: ignore[p]
  {
    forall p | 0 <= p < t.n ensures ignore[p] { assert t.Parent(p) in done && !Big(t, m, p); }
  }

  lemma AllCredited(t: Linkage, m: nat, done: set<int>, b: Build)
    requires Ready(t, m) && |b.tops| == |b.par| && AllInner(t, b.tops)
    requires Frontier(t, m, done, b.relabel, b.tops, b.cur) && Credits(t, m, b.cond, b.tops, b.par, b.cur)
    requires forall x | t.Inner(x) :: x in done
    ensures forall k | 0 <= k < |b.tops| ::
      && Acc(b.cond, t.n + k, Birth(t, b.tops[k])) == Stability(t, m, b.tops[k])
      && KidsListed(t, m, b.cond, b.tops, b.par, k)
  {
    hide Linkage.WellFormed, KidsListed, Stability, Birth, Excess, End, Linkage.Under;
    forall k | 0 <= k < |b.tops|
      ensures Acc(b.cond, t.n + k, Birth(t, b.tops[k])) == Stability(t, m, b.tops[k]) && KidsListed(t, m, b.cond, b.tops, b.par, k)
    {
      assert Carries(t, m, done, b.relabel, b.tops, b.cur, k);
      assert Credit(t, m, b.cond, b.tops, b.par, b.cur, k);
    }
  }

  lemma Finished(t: Linkage, m: nat, done: set<int>, b: Build)
    requires Ready(t, m) && LoopInv(t, m, done, b) && forall x :: x in done <==> 0 <= x < t.Total()
    ensures Condensed(t, m, b.cond, b.tops, b.par)
  {
    hide Linkage.WellFormed, Ignoring, Frontier, Credits, Distinct, BornFrom, RowOk, OneRowEach, HasRow, KidsListed;
    AllIgnored(t, m, done, b.ignore);
    AllCredited(t, m, done, b);
  }

  // ---------- the order of the cluster ids ----------

  /** How far into the walk the children of its first i nodes reach. */
  ghost function Reach(t: Linkage, order: seq<int>, i: nat): nat
    requires i <= |order|
  {
    1 + |KidsOf(t, order[..i])|
  }

  /** The clusters so far are children of the first i nodes of the walk, listed in its order. */
  ghost predicate Placed(t: Linkage, order: seq<int>, i: nat, tops: seq<int>) {
    && i <= |order| && order == [t.Root()] + KidsOf(t, order) && Reach(t, order, i) <= |order|
    && InOrder(order[..Reach(t, order, i)], tops) && forall v | v in tops :: v in order[..Reach(t, order, i)]
  }

  lemma {:induction false} KidsPrefix(t: Linkage, s: seq<int>, i: nat)
    requires i <= |s|
    ensures KidsOf(t, s[..i]) <= KidsOf(t, s)
    decreases |s|
  {
    if i == |s| {
      assert s[..i] == s;
    } else {
      KidsPrefix(t, s[..|s| - 1], i);
      assert s[..|s| - 1][..i] == s[..i];
    }
  }

  lemma PlacedFirst(t: Linkage, order: seq<int>)
    requires order == [t.Root()] + KidsOf(t, order)
    ensures Placed(t, order, 0, [t.Root()])
  {
    assert order[..0] == [] && order[..1] == [t.Root()];
  }

  lemma ReachStep(t: Linkage, order: seq<int>, i: nat)
    requires order == [t.Root()] + KidsOf(t, order) && i < |order|
    ensures Reach(t, order, i) + |NextNodes(t, order[i])| == Reach(t, order, i + 1) <= |order|
    ensures order[..Reach(t, order, i + 1)] == order[..Reach(t, order, i)] + NextNodes(t, order[i])
  {
    var kids := KidsOf(t, order[..i]);
    assert order[..i + 1][..i] == order[..i];
    assert KidsOf(t, order[..i + 1]) == kids + NextNodes(t, order[i]);
    KidsPrefix(t, order, i + 1);
    KidsPrefix(t, order, i);
    assert order[..Reach(t, order, i + 1)] == [t.Root()] + KidsOf(t, order[..i + 1]);
    assert order[..Reach(t, order, i)] == [t.Root()] + kids;
  }

  lemma PlacedStep(t: Linkage, order: seq<int>, i: nat, tops: seq<int>, tops': seq<int>)
    requires Placed(t, order, i, tops) && i < |order|
    requires tops' == tops || (t.Inner(order[i]) && tops' == tops + [t.Left(order[i]), t.Right(order[i])])
    ensures Placed(t, order, i + 1, tops')
  {
    hide InOrder, Reach;
    ReachStep(t, order, i);
    var seen, kids := order[..Reach(t, order, i)], NextNodes(t, order[i]);
    if tops' == tops { OrderedMore(seen, tops, kids, []); assert tops + [] == tops; } else { OrderedMore(seen, tops, kids, kids); }
  }

  lemma OrderedMore(seen: seq<int>, s: seq<int>, kids: seq<int>, more: seq<int>)
    requires InOrder(seen, s) && (forall v | v in s :: v in seen) && (more == [] || (more == kids && |kids| <= 2))
    ensures InOrder(seen + kids, s + more) && forall v | v in s + more :: v in seen + kids
  {
    var all, s' := seen + kids, s + more;
    forall i, j | 0 <= i < j < |s'| ensures Before(all, s'[i], s'[j]) {
      if j < |s| {
        assert Before(seen, s[i], s[j]);
        var a, b :| 0 <= a < b < |seen| && seen[a] == s[i] && seen[b] == s[j];
        assert all[a] == s[i] && all[b] == s[j];
      } else {
        assert all[|seen| + j - |s|] == s'[j];
        if i < |s| {
          assert s[i] in seen;
          var a :| 0 <= a < |seen| && seen[a] == s[i];
          assert all[a] == s'[i];
        } else {
          assert all[|seen| + i - |s|] == s'[i];
        }
      }
    }
  }

  lemma PlacedInOrder(t: Linkage, order: seq<int>, tops: seq<int>)
    requires Placed(t, order, |order|, tops)
    ensures InOrder(order, tops)
  {
    assert order[..|order|] == order;
    assert order[..Reach(t, order, |order|)] == order;
  }

  /** What one step makes of the loop's variables; no cluster is added unless the node splits. */
  ghost predicate Stepped(t: Linkage, m: nat, done: set<int>, b: Build, b': Build, v: int)
    requires Ready(t, m) && t.Inner(v)
  {
    LoopInv(t, m, done + {v}, b') && (b'.tops == b.tops || b'.tops == b.tops + [t.Left(v), t.Right(v)])
  }

  /** One node that no earlier row shed: split its cluster, dissolve it, or carry it on in the big child. */
  method CondenseNode(t: Linkage, m: nat, node: int, relabel0: seq<int>, ignore0: seq<bool>, cond0: seq<CRow>, nextLabel0: int,
                      ghost done: set<int>, ghost b: Build, ghost k: int)
    returns (relabel: seq<int>, ignore: seq<bool>, cond: seq<CRow>, nextLabel: int, ghost b': Build)
    requires Ready(t, m) && t.Inner(node) && Next(t, m, done, b, node, k)
    requires |b.relabel| == |b.ignore| == t.Total() && k == b.relabel[node] - t.n
    requires relabel0 == b.relabel && ignore0 == b.ignore && cond0 == b.cond && nextLabel0 == t.n + |b.tops|
    ensures relabel == b'.relabel && ignore == b'.ignore && cond == b'.cond && nextLabel == t.n + |b'.tops|
    ensures Stepped(t, m, done, b, b', node)
    ensures |relabel| == |ignore| == t.Total()
  {
    hide LoopInv, Next, Linkage.WellFormed, Sheds, Linkage.Lambda, Linkage.Under;
    relabel, ignore, cond, nextLabel := relabel0, ignore0, cond0, nextLabel0;
    NextFacts(t, m, done, b, node, k);
    ghost var tops, par, cur := b.tops, b.par, b.cur;
    var left, right := t.Left(node), t.Right(node);
    var level := t.Lambda(node);
    var leftBig, rightBig := Big(t, m, left), Big(t, m, right);
    if leftBig && rightBig {
      relabel := relabel[left := nextLabel];
      cond := cond + [CRow(relabel[node], relabel[left], level, t.Size(left))];
      relabel := relabel[right := nextLabel + 1];
      cond := cond + [CRow(relabel[node], relabel[right], level, t.Size(right))];
      nextLabel := nextLabel + 2;
      tops, par, cur := tops + [left, right], par + [k, k], cur[k := -1] + [left, right];
      assert cond == b.cond + SplitRows(t, node, t.n + k, t.n + |b.tops|);
      b' := Build(relabel, ignore, cond, tops, par, cur);
      StepSplit(t, m, done, b, b', node, k);
    } else if !leftBig && !rightBig {
      ignore, cond := FallOut(t, node, relabel[node], level, ignore, cond);
      cur := cur[k := -1];
      b' := Build(relabel, ignore, cond, tops, par, cur);
      StepDissolve(t, m, done, b, b', node, k, cond[|b.cond|..]);
    } else if !leftBig {
      relabel := relabel[right := relabel[node]];
      ignore, cond := FallOut(t, left, relabel[node], level, ignore, cond);
      cur := cur[k := right];
      b' := Build(relabel, ignore, cond, tops, par, cur);
      StepContinue(t, m, done, b, b', node, k, right, left, cond[|b.cond|..]);
    } else {
      relabel := relabel[left := relabel[node]];
      ignore, cond := FallOut(t, right, relabel[node], level, ignore, cond);
      cur := cur[k := left];
      b' := Build(relabel, ignore, cond, tops, par, cur);
      StepContinue(t, m, done, b, b', node, k, left, right, cond[|b.cond|..]);
    }
  }

  /** Condense the dendrogram: one pass over the breadth-first order, skipping what an earlier row shed. */
  method CondenseTree(t: Linkage, m: nat) returns (cond: seq<CRow>, count: nat, ghost tops: seq<int>, ghost par: seq<int>)
    requires Ready(t, m)
    ensures Condensed(t, m, cond, tops, par) && count == |tops| && InOrder(LevelOrder(t), tops)
  {
    hide LoopInv, Next, Linkage.WellFormed, Condensed, IsWalk, Placed, InOrder, Levels, KidsOf;
    RootInRange(t);
    var relabel := seq(t.Total(), _ => -1);
    var ignore := seq(t.Total(), _ => false);
    relabel := relabel[t.Root() := t.n];
    var nextLabel := t.n + 1;
    cond := [];
    ghost var b := Build(relabel, ignore, cond, [t.Root()], [0], [t.Root()]);
    ghost var done := {};
    Initial(t, m, relabel, ignore);
    var order := BfsHierarchy(t, t.Root());
    WalkInRange(t, order);
    LevelOrderWalks(t);
    PlacedFirst(t, order);
    for i := 0 to |order|
      invariant forall x :: x in done <==> x in order[..i]
      invariant LoopInv(t, m, done, b) && Placed(t, order, i, b.tops)
      invariant relabel == b.relabel && ignore == b.ignore && cond == b.cond && nextLabel == t.n + |b.tops|
      invariant |relabel| == |ignore| == t.Total()
      invariant forall j | 0 <= j < |order| :: 0 <= order[j] < t.Total()
    {
      var node := order[i];
      WalkStep(t, order, i, done);
      ghost var b0 := b;
      if node < t.n || ignore[node] {
        StepSkip(t, m, done, b, node);
      } else {
        NextNode(t, m, done, b, node);
        relabel, ignore, cond, nextLabel, b := CondenseNode(t, m, node, relabel, ignore, cond, nextLabel, done, b, relabel[node] - t.n);
      }
      PlacedStep(t, order, i, b0.tops, b.tops);
      done := done + {node};
      assert order[..i + 1] == order[..i] + [node];
    }
    assert order[..|order|] == order;
    tops, par := b.tops, b.par;
    PlacedInOrder(t, order, tops);
    Finished(t, m, done, b);
    count := nextLabel - t.n;
  }

  lemma RootInRange(t: Linkage)
    requires t.WellFormed()
    ensures t.n <= t.Root() < t.Total()
  {
  }

  lemma WalkInRange(t: Linkage, order: seq<int>)
    requires t.WellFormed() && IsWalk(t, t.Root(), order)
    ensures forall j | 0 <= j < |order| :: 0 <= order[j] < t.Total()
    ensures forall x :: x in order <==> 0 <= x < t.Total()
  {
    forall j | 0 <= j < |order| ensures 0 <= order[j] < t.Total() { assert order[j] in t.Under(t.Root()); }
    forall x | 0 <= x < t.Total() ensures x in order { RootCoversAll(t, x); }
  }

  lemma WalkStep(t: Linkage, order: seq<int>, i: nat, done: set<int>)
    requires t.WellFormed() && IsWalk(t, t.Root(), order) && i < |order|
    requires forall x :: x in done <==> x in order[..i]
    ensures 0 <= order[i] < t.Total() && order[i] !in done && Reached(t, done, order[i])
  {
    assert order[i] in t.Under(t.Root());
    if i > 0 { assert ParentIn(t, order[i], order[..i]); }
  }

  lemma NextNode(t: Linkage, m: nat, done: set<int>, b: Build, v: int)
    requires Ready(t, m) && LoopInv(t, m, done, b) && t.Inner(v) && v !in done && Reached(t, done, v) && !b.ignore[v]
    ensures Next(t, m, done, b, v, b.relabel[v] - t.n)
    ensures 0 <= b.relabel[v] - t.n < |b.tops| == |b.par| == |b.cur|
    ensures t.Left(v) < v && t.Right(v) < v && t.Left(v) != t.Right(v) && t.Height(v) > 0.0
  {
    Arrive(t, m, done, b.relabel, b.tops, b.cur, v);
  }
}
