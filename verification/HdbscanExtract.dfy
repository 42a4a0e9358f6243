/** Flat cluster labels from a linkage: condensing, selection and labelling put together. */
module HdbscanExtract {
  import opened Basics
  import opened Dendrogram
  import opened CondensedTree
  import opened Condense
  import opened CondensedRows
  import opened CondenseMethod
  import opened ClusterIndex
  import opened ClusterSelect
  import opened LabelUnionFind

  // ---------- what a labelling means ----------

  /** names lists the selected clusters without repetition. */
  ghost predicate Names(selected: set<int>, names: seq<int>) {
    Distinct(names) && forall v :: v in names <==> v in selected
  }

  /** Point p carries the number of the cluster it lies below, or -1 below none. */
  ghost predicate PointLabel(t: Linkage, names: seq<int>, p: int, l: int)
    requires t.WellFormed() && forall c | 0 <= c < |names| :: 0 <= names[c] < t.Total()
  {
    if l == -1 then forall c | 0 <= c < |names| :: p !in t.Under(names[c])
    else 0 <= l < |names| && p in t.Under(names[l])
  }

  ghost predicate Labelled(t: Linkage, names: seq<int>, labels: seq<int>)
    requires t.WellFormed()
  {
    && (forall c | 0 <= c < |names| :: 0 <= names[c] < t.Total())
    && |labels| == t.n && forall p | 0 <= p < t.n :: PointLabel(t, names, p, labels[p])
  }

  /** The labels describe exactly the clusters selected by the recursive specification, numbered in the order
      in which a level-by-level walk of the dendrogram meets them. */
  ghost predicate FlatClustering(t: Linkage, m: nat, allowRoot: bool, leafMode: bool, labels: seq<int>)
    requires Ready(t, m)
  {
    exists names :: Names(Selection(t, m, allowRoot, leafMode), names) && InOrder(LevelOrder(t), names) && Labelled(t, names, labels)
  }

  lemma FlatNames(t: Linkage, m: nat, allowRoot: bool, leafMode: bool, labels: seq<int>) returns (names: seq<int>)
    requires Ready(t, m) && FlatClustering(t, m, allowRoot, leafMode, labels)
    ensures Names(Selection(t, m, allowRoot, leafMode), names) && InOrder(LevelOrder(t), names) && Labelled(t, names, labels)
  {
    hide Selection, InOrder, Names, Labelled, LevelOrder;
    names :| Names(Selection(t, m, allowRoot, leafMode), names) && InOrder(LevelOrder(t), names) && Labelled(t, names, labels);
  }

  /** A linkage has exactly one such labelling at most: the labels are a function of it. */
  lemma LabelsDetermined(t: Linkage, m: nat, allowRoot: bool, leafMode: bool, one: seq<int>, other: seq<int>)
    requires Ready(t, m) && FlatClustering(t, m, allowRoot, leafMode, one) && FlatClustering(t, m, allowRoot, leafMode, other)
    ensures one == other
  {
    hide Linkage.WellFormed, Selection, Labelled, InOrder, LevelOrder, IsWalk, FlatClustering;
    var names := FlatNames(t, m, allowRoot, leafMode, one);
    var names' := FlatNames(t, m, allowRoot, leafMode, other);
    OrderDistinct(t);
    OneListing(LevelOrder(t), names, names');
    LabelledAlike(t, m, allowRoot, leafMode, names, one, other);
  }

  lemma OrderDistinct(t: Linkage)
    requires t.WellFormed()
    ensures Distinct(LevelOrder(t))
  {
    LevelOrderWalks(t);
  }

  lemma LabelledAlike(t: Linkage, m: nat, allowRoot: bool, leafMode: bool, names: seq<int>, one: seq<int>, other: seq<int>)
    requires Ready(t, m) && Names(Selection(t, m, allowRoot, leafMode), names) && Labelled(t, names, one) && Labelled(t, names, other)
    ensures one == other
  {
    hide Linkage.WellFormed, Selection, Names;
    forall p | 0 <= p < t.n ensures one[p] == other[p] {
      assert PointLabel(t, names, p, one[p]) && PointLabel(t, names, p, other[p]);
      if one[p] != -1 { LabelClasses(t, m, allowRoot, leafMode, names, other, one[p]); }
    }
  }

  /** Each label class is exactly the leaf set of one dendrogram node; every label is used. */
  lemma LabelClasses(t: Linkage, m: nat, allowRoot: bool, leafMode: bool, names: seq<int>, labels: seq<int>, c: int)
    requires Ready(t, m) && Names(Selection(t, m, allowRoot, leafMode), names) && Labelled(t, names, labels)
    requires 0 <= c < |names|
    ensures forall p | 0 <= p < t.n :: labels[p] == c <==> p in t.Leaves(names[c])
    ensures exists p :: 0 <= p < t.n && labels[p] == c
    ensures |t.Leaves(names[c])| >= if t.n >= m then m else t.n
  {
    hide Selection;
    SelectionAntichain(t, m, allowRoot, leafMode);
    assert names[c] in names;
    forall p | 0 <= p < t.n && p in t.Under(names[c]) ensures labels[p] == c {
      assert PointLabel(t, names, p, labels[p]);
      var l := labels[p];
      assert names[l] in names;
      if l != c { SharedPoint(t, p, names[l], names[c]); }
    }
    forall p | 0 <= p < t.n && labels[p] == c ensures p in t.Under(names[c]) { assert PointLabel(t, names, p, labels[p]); }
    LeafCount(t, names[c]);
    SomeLeaf(t, names[c]);
    if names[c] != t.Root() { TopsAreBig(t, m, t.Root(), names[c]); } else { LeafCount(t, t.Root()); RootHoldsAll(t); }
  }

  lemma SharedPoint(t: Linkage, p: int, u: int, v: int)
    requires t.WellFormed() && 0 <= u < t.Total() && 0 <= v < t.Total() && p in t.Under(u) && p in t.Under(v)
    ensures u in t.Under(v) || v in t.Under(u)
  {
    if u <= v { Nested(t, p, u, v); } else { Nested(t, p, v, u); }
  }

  lemma {:induction false} SomeLeaf(t: Linkage, v: int)
    requires t.WellFormed() && 0 <= v < t.Total()
    ensures exists p :: 0 <= p < t.n && p in t.Under(v)
    decreases v
  {
    if t.Inner(v) {
      SomeLeaf(t, t.Left(v));
      var p :| 0 <= p < t.n && p in t.Under(t.Left(v));
      assert p in t.Under(v);
    } else {
      assert v in t.Under(v);
    }
  }

  lemma RootHoldsAll(t: Linkage)
    requires t.WellFormed()
    ensures |t.Leaves(t.Root())| == t.n
  {
    forall p | 0 <= p < t.n ensures p in t.Under(t.Root()) { RootCoversAll(t, p); }
    assert t.Leaves(t.Root()) == Upto(t.n);
  }

  ghost function Upto(n: nat): (s: set<int>)
    ensures |s| == n && forall x :: x in s <==> 0 <= x < n
  {
    if n == 0 then {} else Upto(n - 1) + {n - 1}
  }

  // ---------- collapsing unselected clusters into their parents ----------

  /** The first selected cluster, or the root, on the way up from k through processed rows. */
  ghost function Home(par: seq<int>, keep: seq<bool>, n: nat, rows: seq<CRow>, k: int): (h: int)
    requires ParentsFirst(par) && |keep| == |par| && 0 <= k < |par|
    ensures 0 <= h <= k
    decreases k
  {
    if k == 0 || keep[k] || !HasRow(rows, n + k) then k else Home(par, keep, n, rows, par[k])
  }

  lemma {:induction false} HomeStep(par: seq<int>, keep: seq<bool>, n: nat, rows: seq<CRow>, r: CRow, k: int, x: int)
    requires ParentsFirst(par) && |keep| == |par| && 0 < k < |par| && r.child == n + k && !keep[k] && !HasRow(rows, n + k)
    requires 0 <= x < |par|
    ensures Home(par, keep, n, rows + [r], x) ==
            if Home(par, keep, n, rows, x) == k then Home(par, keep, n, rows, par[k]) else Home(par, keep, n, rows, x)
    decreases x
  {
    RowsGrow(rows, r, n + x);
    if x > 0 && !keep[x] && HasRow(rows + [r], n + x) { HomeStep(par, keep, n, rows, r, k, par[x]); }
  }

  /** Rows of points and of selected clusters leave every home as it was. */
  lemma {:induction false} HomeSame(par: seq<int>, keep: seq<bool>, n: nat, rows: seq<CRow>, r: CRow, x: int)
    requires ParentsFirst(par) && |keep| == |par| && 0 <= x < |par|
    requires r.child <= n || r.child >= n + |par| || keep[r.child - n]
    ensures Home(par, keep, n, rows + [r], x) == Home(par, keep, n, rows, x)
    decreases x
  {
    RowsGrow(rows, r, n + x);
    if x > 0 { HomeSame(par, keep, n, rows, r, par[x]); }
  }

  lemma RowsGrow(rows: seq<CRow>, r: CRow, c: int)
    ensures HasRow(rows + [r], c) <==> HasRow(rows, c) || c == r.child
  {
    if HasRow(rows, c) {
      var j :| 0 <= j < |rows| && rows[j].child == c;
      assert (rows + [r])[j].child == c;
    }
    assert (rows + [r])[|rows|].child == r.child;
    if HasRow(rows + [r], c) { LastRow(rows, r, c); }
  }

  /** With all rows in, the home is the nearest selected ancestor: selected or the root, and no
      selected cluster lies strictly between. */
  lemma {:induction false} HomeNearest(par: seq<int>, keep: seq<bool>, n: nat, rows: seq<CRow>, k: int)
    requires ParentsFirst(par) && |keep| == |par| && 0 <= k < |par|
    requires forall c | n < c < n + |par| :: HasRow(rows, c)
    ensures var h := Home(par, keep, n, rows, k);
            && (h == 0 || keep[h]) && (h == k || Anc(par, h, k))
            && forall y | 0 <= y < |par| && keep[y] && (y == k || Anc(par, y, k)) :: y <= h
    decreases k
  {
    if k > 0 && !keep[k] {
      assert HasRow(rows, n + k);
      HomeNearest(par, keep, n, rows, par[k]);
    }
  }

  /** Processed rows have been united as Home says. */
  ghost predicate Collapsed(n: nat, par: seq<int>, keep: seq<bool>, rows: seq<CRow>, p: seq<int>)
    requires ParentsFirst(par) && |keep| == |par|
  {
    && |p| == n + |par| && Descending(p)
    && forall c | n <= c < n + |par| :: Rep(p, c) == n + Home(par, keep, n, rows, c - n)
  }

  lemma CollapseStart(n: nat, par: seq<int>, keep: seq<bool>, p: seq<int>)
    requires ParentsFirst(par) && |keep| == |par| && |p| == n + |par| && Descending(p)
    requires forall i | 0 <= i < |p| :: Rep(p, i) == i
    ensures Collapsed(n, par, keep, [], p)
  {
    forall c | n <= c < n + |par| ensures Rep(p, c) == n + Home(par, keep, n, [], c - n) {}
  }

  lemma CollapseKeep(n: nat, par: seq<int>, keep: seq<bool>, rows: seq<CRow>, p: seq<int>, r: CRow)
    requires ParentsFirst(par) && |keep| == |par| && Collapsed(n, par, keep, rows, p)
    requires r.child <= n || r.child >= n + |par| || keep[r.child - n]
    ensures Collapsed(n, par, keep, rows + [r], p)
  {
    hide Home;
    forall c | n <= c < n + |par| ensures Rep(p, c) == n + Home(par, keep, n, rows + [r], c - n) {
      HomeSame(par, keep, n, rows, r, c - n);
    }
  }

  lemma CollapseUnite(n: nat, par: seq<int>, keep: seq<bool>, rows: seq<CRow>, p: seq<int>, p': seq<int>, r: CRow, k: int)
    requires ParentsFirst(par) && |keep| == |par| && Collapsed(n, par, keep, rows, p) && |p'| == |p| && Descending(p')
    requires 0 < k < |par| && r.child == n + k && r.parent == n + par[k] && !keep[k] && !HasRow(rows, n + k)
    requires var a, b := Rep(p, r.child), Rep(p, r.parent);
             var low, high := if a < b then a else b, if a < b then b else a;
             forall y | 0 <= y < |p| :: Rep(p', y) == if Rep(p, y) == high then low else Rep(p, y)
    ensures Collapsed(n, par, keep, rows + [r], p')
  {
    hide Home, HasRow, Descending;
    HomeOfNew(par, keep, n, rows, k);
    assert Rep(p, n + k) == n + k && Rep(p, n + par[k]) == n + Home(par, keep, n, rows, par[k]);
    forall c | n <= c < n + |par| ensures Rep(p', c) == n + Home(par, keep, n, rows + [r], c - n) {
      HomeStep(par, keep, n, rows, r, k, c - n);
    }
  }

  method Collapse(t: Linkage, m: nat, cond: seq<CRow>, keep: seq<bool>, ghost tops: seq<int>, ghost par: seq<int>)
    returns (uf: UF)
    requires Ready(t, m) && Condensed(t, m, cond, tops, par) && ParentsFirst(par) && |keep| == |tops| == |par|
    ensures fresh(uf) && Collapsed(t.n, par, keep, cond, uf.p)
  {
    hide Linkage.WellFormed, Condensed, Home, Descending, Collapsed, HasRow;
    CondensedShape(t, m, cond, tops, par);
    uf := new UF(t.n + |keep|);
    CollapseStart(t.n, par, keep, uf.p);
    for i := 0 to |cond|
      invariant fresh(uf) && uf.Valid() && |uf.p| == t.n + |par| && Collapsed(t.n, par, keep, cond[..i], uf.p)
    {
      var c := cond[i];
      RowFacts(t, m, cond, tops, par, i);
      assert cond[..i + 1] == cond[..i] + [c];
      if c.child >= t.n && !keep[c.child - t.n] {
        ghost var before := uf.p;
        uf.Unite(c.child, c.parent);
        CollapseUnite(t.n, par, keep, cond[..i], before, uf.p, c, c.child - t.n);
      } else {
        CollapseKeep(t.n, par, keep, cond[..i], uf.p, c);
      }
    }
    assert cond[..|cond|] == cond;
  }

  lemma CondensedShape(t: Linkage, m: nat, cond: seq<CRow>, tops: seq<int>, par: seq<int>)
    requires Ready(t, m) && Condensed(t, m, cond, tops, par)
    ensures |tops| == |par| >= 1 && AllInner(t, tops)
    ensures forall c | t.n < c < t.n + |par| :: HasRow(cond, c)
  {
  }

  lemma HomeOfNew(par: seq<int>, keep: seq<bool>, n: nat, rows: seq<CRow>, k: int)
    requires ParentsFirst(par) && |keep| == |par| && 0 < k < |par| && !HasRow(rows, n + k)
    ensures Home(par, keep, n, rows, k) == k && Home(par, keep, n, rows, par[k]) < k
  {
  }

  lemma RowFacts(t: Linkage, m: nat, cond: seq<CRow>, tops: seq<int>, par: seq<int>, i: int)
    requires Ready(t, m) && Condensed(t, m, cond, tops, par) && 0 <= i < |cond| && AllInner(t, tops) && |tops| == |par|
    ensures 0 <= cond[i].parent - t.n < |par| && 0 <= cond[i].child < t.n + |par| && cond[i].child != t.n
    ensures cond[i].child >= t.n ==> par[cond[i].child - t.n] == cond[i].parent - t.n
    ensures cond[i].child < t.n ==> ShedFrom(t, m, tops[cond[i].parent - t.n], cond[i].child)
    ensures !HasRow(cond[..i], cond[i].child)
  {
    hide Linkage.WellFormed, ShedFrom, Birth, Distinct, BornFrom, KidsListed, Acc, Stability, HasRow, OneRowEach;
    assert RowOk(t, m, tops, par, cond[i]);
    RowNew(cond, i);
  }

  lemma RowNew(cond: seq<CRow>, i: int)
    requires 0 <= i < |cond| && OneRowEach(cond)
    ensures !HasRow(cond[..i], cond[i].child)
  {
    forall j | 0 <= j < |cond[..i]| ensures cond[..i][j].child != cond[i].child { assert cond[..i][j] == cond[j]; }
  }

  // ---------- the label of a point ----------

  /** Of two clusters holding a point, the one that sheds it lies below the other. */
  lemma {:induction false} ShedderIsDeepest(t: Linkage, m: nat, v: int, y: int, k: int, p: int)
    requires Ready(t, m) && t.Inner(v) && y in Tops(t, m, v) && k in Tops(t, m, v)
    requires p in t.Under(y) && ShedFrom(t, m, k, p)
    ensures k in Tops(t, m, y)
    decreases v
  {
    if y != v {
      var l, r, e := KidL(t, m, v), KidR(t, m, v), End(t, m, v);
      KidsUnder(t, m, v);
      var c := if y in Tops(t, m, l) then l else r;
      TopsUnder(t, m, c);
      UnderTransitive(t, y, c);
      assert p in t.Under(c) && t.HasChild(e, c) && p in t.Under(e);
      assert k != v;
      var d := if k in Tops(t, m, l) then l else r;
      TopsUnder(t, m, d);
      UnderTransitive(t, k, d);
      ShedderIsDeepest(t, m, c, y, k, p);
    }
  }

  /** A point shed by cluster k lies below the home of k; if that home is not selected, the point
      lies below no selected cluster. */
  lemma PointHome(t: Linkage, m: nat, tops: seq<int>, par: seq<int>, cond: seq<CRow>, keep: seq<bool>, k: int, p: int)
    requires Ready(t, m) && Indexed(t, m, tops, par) && |keep| == |tops| && 0 <= k < |tops|
    requires forall c | t.n < c < t.n + |par| :: HasRow(cond, c)
    requires ShedFrom(t, m, tops[k], p)
    ensures var h := Home(par, keep, t.n, cond, k);
            && p in t.Under(tops[h])
            && (!keep[h] ==> forall y | 0 <= y < |tops| && keep[y] :: p !in t.Under(tops[y]))
  {
    hide Linkage.WellFormed, Home, HasKids, BornFrom, KidsPresent, Distinct, Tops;
    var h := Home(par, keep, t.n, cond, k);
    HomeNearest(par, keep, t.n, cond, k);
    if h != k { BelowAncestor(t, m, tops, par, h, k, p); }
    if !keep[h] {
      forall y | 0 <= y < |tops| && keep[y] ensures p !in t.Under(tops[y]) {
        if p in t.Under(tops[y]) { HolderAbove(t, m, tops, par, y, k, p); }
      }
    }
  }

  lemma BelowAncestor(t: Linkage, m: nat, tops: seq<int>, par: seq<int>, h: int, k: int, p: int)
    requires Ready(t, m) && Indexed(t, m, tops, par) && 0 <= h < |tops| && 0 <= k < |tops| && Anc(par, h, k)
    requires p in t.Under(tops[k])
    ensures p in t.Under(tops[h])
  {
    AncTops(t, m, tops, par, h, k);
    TopsUnder(t, m, tops[h]);
    UnderTransitive(t, tops[k], tops[h]);
  }

  lemma HolderAbove(t: Linkage, m: nat, tops: seq<int>, par: seq<int>, y: int, k: int, p: int)
    requires Ready(t, m) && Indexed(t, m, tops, par) && 0 <= y < |tops| && 0 <= k < |tops|
    requires p in t.Under(tops[y]) && ShedFrom(t, m, tops[k], p)
    ensures y == k || Anc(par, y, k)
  {
    hide Linkage.WellFormed, HasKids, BornFrom, KidsPresent, Tops;
    TopOfRoot(t, m, tops, par, y);
    TopOfRoot(t, m, tops, par, k);
    ShedderIsDeepest(t, m, t.Root(), tops[y], tops[k], p);
    var j := TopIndex(t, m, tops, par, y, tops[k]);
  }

  lemma TopOfRoot(t: Linkage, m: nat, tops: seq<int>, par: seq<int>, y: int)
    requires Ready(t, m) && Indexed(t, m, tops, par) && 0 <= y < |tops|
    ensures tops[y] in Tops(t, m, t.Root())
  {
    if y > 0 { RootAbove(par, y); AncTops(t, m, tops, par, 0, y); }
  }

  // ---------- the extraction ----------

  /** Every kept cluster has a number, and every number below |names| is one cluster's. */
  ghost predicate Numbering(tops: seq<int>, keep: seq<bool>, compact: seq<int>, names: seq<int>) {
    && |tops| == |keep| == |compact|
    && (forall k | 0 <= k < |keep| && keep[k] :: 0 <= compact[k] < |names| && names[compact[k]] == tops[k])
    && (forall v | v in names :: KeptTop(tops, keep, v))
  }

  ghost predicate KeptTop(tops: seq<int>, keep: seq<bool>, v: int)
    requires |tops| == |keep|
  {
    exists k :: 0 <= k < |keep| && keep[k] && tops[k] == v
  }

  /** The numbering of the clusters below `cluster`; number c is that of cluster from[c]. */
  ghost predicate NumberedTo(tops: seq<int>, keep: seq<bool>, compact: seq<int>, names: seq<int>, from: seq<int>, cluster: int) {
    && |tops| == |keep| == |compact| && |from| == |names|
    && (forall k | 0 <= k < |keep| && k < cluster && keep[k] :: 0 <= compact[k] < |names| && from[compact[k]] == k)
    && (forall k | 0 <= k < |keep| && (k >= cluster || !keep[k]) :: compact[k] == -1)
    && (forall c | 0 <= c < |names| :: 0 <= from[c] < |keep| && from[c] < cluster && keep[from[c]] && tops[from[c]] == names[c])
    && forall c, d | 0 <= c < d < |from| :: from[c] < from[d]
  }

  lemma NumberOne(tops: seq<int>, keep: seq<bool>, compact: seq<int>, names: seq<int>, from: seq<int>, cluster: nat)
    requires NumberedTo(tops, keep, compact, names, from, cluster) && cluster < |keep|
    ensures if keep[cluster]
            then NumberedTo(tops, keep, compact[cluster := |names|], names + [tops[cluster]], from + [cluster], cluster + 1)
            else NumberedTo(tops, keep, compact, names, from, cluster + 1)
  {
  }

  lemma NumberedAll(tops: seq<int>, keep: seq<bool>, compact: seq<int>, names: seq<int>, from: seq<int>, order: seq<int>)
    requires NumberedTo(tops, keep, compact, names, from, |keep|) && Distinct(tops) && InOrder(order, tops)
    ensures Distinct(names) && Numbering(tops, keep, compact, names) && InOrder(order, names)
    ensures forall i, j | 0 <= i < j < |keep| && keep[i] && keep[j] :: compact[i] < compact[j]
  {
    hide InOrder;
    InOrderPart(order, tops, from, names);
    forall v | v in names ensures KeptTop(tops, keep, v) {
      var c :| 0 <= c < |names| && names[c] == v;
      assert keep[from[c]] && tops[from[c]] == v;
    }
    forall i, j | 0 <= i < j < |keep| && keep[i] && keep[j] ensures compact[i] < compact[j] {
      assert from[compact[i]] == i && from[compact[j]] == j;
    }
  }

  /** Labels 0..K-1 for the selected clusters, ascending by cluster id. */
  method Compact(keep: seq<bool>, ghost tops: seq<int>, ghost order: seq<int>) returns (compact: seq<int>, ghost names: seq<int>)
    requires |tops| == |keep| && Distinct(tops) && InOrder(order, tops)
    ensures Distinct(names) && Numbering(tops, keep, compact, names) && InOrder(order, names)
    ensures forall i, j | 0 <= i < j < |keep| && keep[i] && keep[j] :: compact[i] < compact[j]
    ensures forall k | 0 <= k < |keep| && !keep[k] :: compact[k] == -1
  {
    compact := seq(|keep|, _ => -1);
    names := [];
    ghost var from := [];
    var K := 0;
    for cluster := 0 to |keep|
      invariant K == |names| && NumberedTo(tops, keep, compact, names, from, cluster)
    {
      NumberOne(tops, keep, compact, names, from, cluster);
      if keep[cluster] {
        from := from + [cluster];
        compact := compact[cluster := K];
        names := names + [tops[cluster]];
        K := K + 1;
      }
    }
    NumberedAll(tops, keep, compact, names, from, order);
  }

  lemma InOrderPart(order: seq<int>, tops: seq<int>, from: seq<int>, names: seq<int>)
    requires InOrder(order, tops) && |from| == |names|
    requires forall c | 0 <= c < |names| :: 0 <= from[c] < |tops| && tops[from[c]] == names[c]
    requires forall c, d | 0 <= c < d < |from| :: from[c] < from[d]
    ensures InOrder(order, names)
  {
  }

  lemma LabelFor(t: Linkage, m: nat, tops: seq<int>, par: seq<int>, cond: seq<CRow>, keep: seq<bool>,
                 compact: seq<int>, names: seq<int>, k: int, p: int)
    requires Ready(t, m) && Indexed(t, m, tops, par) && |keep| == |tops| && 0 <= k < |tops|
    requires forall c | t.n < c < t.n + |par| :: HasRow(cond, c)
    requires ShedFrom(t, m, tops[k], p) && Numbering(tops, keep, compact, names)
    requires forall c | 0 <= c < |names| :: 0 <= names[c] < t.Total()
    ensures var h := Home(par, keep, t.n, cond, k);
            PointLabel(t, names, p, if keep[h] then compact[h] else -1)
  {
    hide Linkage.WellFormed, Home, HasKids, BornFrom, KidsPresent, Distinct, ShedFrom, HasRow;
    PointHome(t, m, tops, par, cond, keep, k, p);
    var h := Home(par, keep, t.n, cond, k);
    if !keep[h] {
      forall c | 0 <= c < |names| ensures p !in t.Under(names[c]) {
        assert names[c] in names && KeptTop(tops, keep, names[c]);
        var y :| 0 <= y < |keep| && keep[y] && tops[y] == names[c];
      }
    }
  }

  method LabelPoints(t: Linkage, m: nat, cond: seq<CRow>, keep: seq<bool>, compact: seq<int>, uf: UF,
                     ghost tops: seq<int>, ghost par: seq<int>, ghost names: seq<int>)
    returns (labels: seq<int>)
    requires Ready(t, m) && Condensed(t, m, cond, tops, par) && Indexed(t, m, tops, par)
    requires |keep| == |tops| && Collapsed(t.n, par, keep, cond, uf.p) && Numbering(tops, keep, compact, names)
    requires forall c | 0 <= c < |names| :: 0 <= names[c] < t.Total()
    modifies uf
    ensures Labelled(t, names, labels)
  {
    hide Linkage.WellFormed, Condensed, Indexed, Home, Descending, HasRow, PointLabel, ShedFrom, Numbering, Numbered;
    CondensedShape(t, m, cond, tops, par);
    assert ParentsFirst(par) by { IndexedShape(t, m, tops, par); }
    assert |compact| == |keep| by { NumberingShape(tops, keep, compact, names); }
    ghost var start := uf.p;
    labels := seq(t.n, _ => -1);
    forall p ensures !HasRow(cond[..0], p) { NoRow(p); }
    for i := 0 to |cond|
      invariant |uf.p| == |start| && uf.Valid() && forall y | 0 <= y < |start| :: Rep(uf.p, y) == Rep(start, y)
      invariant |labels| == t.n
      invariant forall p | 0 <= p < t.n && HasRow(cond[..i], p) :: PointLabel(t, names, p, labels[p])
      invariant forall p | 0 <= p < t.n && !HasRow(cond[..i], p) :: labels[p] == -1
    {
      ghost var labels0, rows, rows' := labels, cond[..i], cond[..i + 1];
      var c := cond[i];
      RowFacts(t, m, cond, tops, par, i);
      assert rows' == rows + [c];
      if c.child < t.n {
        var resolved := uf.Find(c.parent);
        LabelFor(t, m, tops, par, cond, keep, compact, names, c.parent - t.n, c.child);
        assert resolved == t.n + Home(par, keep, t.n, cond, c.parent - t.n);
        if keep[resolved - t.n] { labels := labels[c.child := compact[resolved - t.n]]; }
      }
      forall p | 0 <= p < t.n
        ensures HasRow(rows', p) ==> PointLabel(t, names, p, labels[p])
        ensures !HasRow(rows', p) ==> labels[p] == -1
      {
        RowsGrow(rows, c, p);
        if p != c.child { assert labels[p] == labels0[p]; }
      }
    }
    assert cond[..|cond|] == cond;
    forall p | 0 <= p < t.n ensures PointLabel(t, names, p, labels[p]) { PointRows(t, m, cond, tops, par, p); }
  }

  lemma NoRow(p: int)
    ensures !HasRow([], p)
  {
  }

  lemma PointRows(t: Linkage, m: nat, cond: seq<CRow>, tops: seq<int>, par: seq<int>, p: int)
    requires Ready(t, m) && Condensed(t, m, cond, tops, par) && 0 <= p < t.n
    ensures HasRow(cond, p)
  {
  }

  lemma IndexedShape(t: Linkage, m: nat, tops: seq<int>, par: seq<int>)
    requires Ready(t, m) && Indexed(t, m, tops, par)
    ensures ParentsFirst(par) && |tops| == |par| >= 1 && Distinct(tops) && AllInner(t, tops)
  {
  }

  lemma NumberingShape(tops: seq<int>, keep: seq<bool>, compact: seq<int>, names: seq<int>)
    requires Numbering(tops, keep, compact, names)
    ensures |compact| == |keep|
  {
  }

  lemma SelectedNames(t: Linkage, m: nat, allowRoot: bool, leafMode: bool, tops: seq<int>, par: seq<int>,
                      keep: seq<bool>, compact: seq<int>, names: seq<int>)
    requires Ready(t, m) && Indexed(t, m, tops, par) && |keep| == |tops| && Distinct(names)
    requires forall k | 0 <= k < |tops| :: keep[k] <==> tops[k] in Selection(t, m, allowRoot, leafMode)
    requires Numbering(tops, keep, compact, names)
    ensures Names(Selection(t, m, allowRoot, leafMode), names)
    ensures forall c | 0 <= c < |names| :: 0 <= names[c] < t.Total()
  {
    hide Linkage.WellFormed, Selection, BornFrom, KidsPresent, HasKids;
    SelectionAntichain(t, m, allowRoot, leafMode);
    forall v | v in Selection(t, m, allowRoot, leafMode) ensures v in names {
      var j := TopIndex(t, m, tops, par, 0, v);
      assert names[compact[j]] == v;
    }
    forall v | v in names ensures v in Selection(t, m, allowRoot, leafMode) { assert KeptTop(tops, keep, v); }
    forall c | 0 <= c < |names| ensures 0 <= names[c] < t.Total() { assert names[c] in names; }
  }

  method ExtractFlatClusters(linkage: seq<LinkNode>, n: int, minClusterSize: int, allowSingleCluster: bool, leafSelection: bool)
    returns (labels: seq<int>)
    requires n <= 0 || linkage == [] || Linkage(n, linkage).WellFormed()
    ensures n <= 0 ==> labels == []
    ensures n > 0 && linkage == [] ==> labels == seq(n, _ => -1)
    ensures n > 0 && linkage != [] ==>
              var m := if minClusterSize < 2 then 2 else minClusterSize;
              FlatClustering(Linkage(n, linkage), m, allowSingleCluster, leafSelection, labels)
  {
    if n <= 0 { return []; }
    labels := seq(n, _ => -1);
    if linkage == [] { return; }
    hide Linkage.WellFormed, Condensed, Indexed, Selection, FlatClustering, Collapsed, Labelled, Numbering, InOrder, LevelOrder;
    var m := if minClusterSize < 2 then 2 else minClusterSize;
    var t := Linkage(n, linkage);
    var cond, count, tops, par := CondenseTree(t, m);
    CondensedIndexed(t, m, cond, tops, par);
    IndexedShape(t, m, tops, par);
    var births := Births(t, m, cond, count, tops, par);
    var stability := ClusterStabilities(t, m, cond, births, tops, par);
    var kids := ChildClusters(t, m, cond, count, tops, par);
    var keep;
    if leafSelection {
      keep := SelectLeaves(t, m, kids, allowSingleCluster, tops, par);
    } else {
      keep := SelectEom(t, m, kids, stability, allowSingleCluster, tops, par);
    }
    var compact, names := Compact(keep, tops, LevelOrder(t));
    SelectedNames(t, m, allowSingleCluster, leafSelection, tops, par, keep, compact, names);
    var uf := Collapse(t, m, cond, keep, tops, par);
    labels := LabelPoints(t, m, cond, keep, compact, uf, tops, par, names);
    Conclude(t, m, allowSingleCluster, leafSelection, names, labels);
  }

  lemma Conclude(t: Linkage, m: nat, allowRoot: bool, leafMode: bool, names: seq<int>, labels: seq<int>)
    requires Ready(t, m) && Names(Selection(t, m, allowRoot, leafMode), names) && Labelled(t, names, labels)
    requires InOrder(LevelOrder(t), names)
    ensures FlatClustering(t, m, allowRoot, leafMode, labels)
  {
  }
}
