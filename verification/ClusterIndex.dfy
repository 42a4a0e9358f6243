/** The condensed tree over cluster numbers: ancestors through `par`, and what bottom-up
    selection means in those terms. */
module ClusterIndex {
  import opened Basics
  import opened Dendrogram
  import opened CondensedTree
  import opened Condense
  import opened CondensedRows

  ghost predicate ParentsFirst(par: seq<int>) { forall x | 0 < x < |par| :: 0 <= par[x] < x }

  /** Cluster y is a proper ancestor of cluster x. */
  ghost predicate Anc(par: seq<int>, y: int, x: int)
    requires ParentsFirst(par) && 0 <= x < |par|
    ensures Anc(par, y, x) ==> 0 <= y < x
    decreases x
  {
    x > 0 && (par[x] == y || Anc(par, y, par[x]))
  }

  lemma {:induction false} AncTransitive(par: seq<int>, z: int, y: int, x: int)
    requires ParentsFirst(par) && 0 <= y < |par| && 0 <= x < |par| && Anc(par, z, y) && Anc(par, y, x)
    ensures Anc(par, z, x)
    decreases x
  {
    if par[x] != y { AncTransitive(par, z, y, par[x]); }
  }

  lemma {:induction false} AncLinear(par: seq<int>, y: int, z: int, x: int)
    requires ParentsFirst(par) && 0 <= x < |par| && Anc(par, y, x) && Anc(par, z, x) && y < z
    ensures Anc(par, y, z)
    decreases x
  {
    if par[x] != z { AncLinear(par, y, z, par[x]); }
  }

  /** The step from an ancestor towards a descendant goes through a child. */
  lemma {:induction false} AncFirstStep(par: seq<int>, y: int, x: int) returns (c: int)
    requires ParentsFirst(par) && 0 <= x < |par| && Anc(par, y, x)
    ensures 0 < c < |par| && par[c] == y && (c == x || Anc(par, c, x))
    decreases x
  {
    if par[x] == y { c := x; } else { c := AncFirstStep(par, y, par[x]); }
  }

  lemma {:induction false} RootAbove(par: seq<int>, x: int)
    requires ParentsFirst(par) && 0 < x < |par|
    ensures Anc(par, 0, x)
    decreases x
  {
    if par[x] != 0 { RootAbove(par, par[x]); }
  }

  /** tops and par number the condensed tree completely. */
  ghost predicate Indexed(t: Linkage, m: nat, tops: seq<int>, par: seq<int>)
    requires Ready(t, m)
  {
    && Numbered(t, m, tops, par) && ParentsFirst(par)
    && forall k | 0 <= k < |tops| && HasKids(t, m, tops[k]) :: KidsPresent(t, m, tops, par, k)
  }

  ghost predicate KidsPresent(t: Linkage, m: nat, tops: seq<int>, par: seq<int>, k: int)
    requires Ready(t, m) && |tops| == |par| && 0 <= k < |tops| && t.Inner(tops[k]) && HasKids(t, m, tops[k])
  {
    && (exists a :: IsKid(t, tops, par, k, a, KidL(t, m, tops[k])))
    && (exists b :: IsKid(t, tops, par, k, b, KidR(t, m, tops[k])))
  }

  lemma CondensedIndexed(t: Linkage, m: nat, cond: seq<CRow>, tops: seq<int>, par: seq<int>)
    requires Ready(t, m) && Condensed(t, m, cond, tops, par)
    ensures Indexed(t, m, tops, par)
  {
    hide Linkage.WellFormed, RowOk, BornFrom, Distinct, Stability, Acc, OneRowEach, HasRow, End, HasKids, KidsPresent, KidsListed;
    NumberedParents(t, m, tops, par);
    forall k | 0 <= k < |tops| && HasKids(t, m, tops[k]) ensures KidsPresent(t, m, tops, par, k) {
      ListedPresent(t, m, cond, tops, par, k);
    }
  }

  lemma NumberedParents(t: Linkage, m: nat, tops: seq<int>, par: seq<int>)
    requires Ready(t, m) && Numbered(t, m, tops, par)
    ensures ParentsFirst(par)
  {
    hide Linkage.WellFormed, HasKids, Distinct;
    forall x | 0 < x < |par| ensures 0 <= par[x] < x { assert BornFrom(t, m, tops, par, x); }
  }

  lemma ListedPresent(t: Linkage, m: nat, cond: seq<CRow>, tops: seq<int>, par: seq<int>, k: int)
    requires Ready(t, m) && |tops| == |par| && 0 <= k < |tops| && t.Inner(tops[k]) && HasKids(t, m, tops[k])
    requires KidsListed(t, m, cond, tops, par, k)
    ensures KidsPresent(t, m, tops, par, k)
  {
    hide Linkage.WellFormed, HasKids, KidL, KidR;
    var ids := KidIds(cond, t.n, t.n + k);
    assert IsKid(t, tops, par, k, ids[0], KidL(t, m, tops[k]));
    assert IsKid(t, tops, par, k, ids[1], KidR(t, m, tops[k]));
  }

  /** The two children of a cluster, by number. */
  lemma ChildNumbers(t: Linkage, m: nat, tops: seq<int>, par: seq<int>, k: int) returns (l: int, r: int)
    requires Ready(t, m) && Indexed(t, m, tops, par) && 0 <= k < |tops| && HasKids(t, m, tops[k])
    ensures k < l < |tops| && k < r < |tops| && par[l] == par[r] == k && l != r
    ensures tops[l] == KidL(t, m, tops[k]) && tops[r] == KidR(t, m, tops[k])
    ensures forall c | 0 < c < |tops| && par[c] == k :: c == l || c == r
  {
    hide Linkage.WellFormed, HasKids, End;
    assert KidsPresent(t, m, tops, par, k);
    var a :| IsKid(t, tops, par, k, a, KidL(t, m, tops[k]));
    var b :| IsKid(t, tops, par, k, b, KidR(t, m, tops[k]));
    l, r := a - t.n, b - t.n;
    KidsUnder(t, m, tops[k]);
    assert tops[l] in t.Under(tops[l]);
    forall c | 0 < c < |tops| && par[c] == k ensures c == l || c == r { assert BornFrom(t, m, tops, par, c); }
  }

  lemma HasKidsIfParent(t: Linkage, m: nat, tops: seq<int>, par: seq<int>, c: int)
    requires Ready(t, m) && Indexed(t, m, tops, par) && 0 < c < |tops|
    ensures HasKids(t, m, tops[par[c]]) && tops[c] < tops[par[c]]
  {
    assert BornFrom(t, m, tops, par, c);
  }

  lemma {:induction false} TopsTransitive(t: Linkage, m: nat, v: int, w: int)
    requires Ready(t, m) && t.Inner(v) && w in Tops(t, m, v)
    ensures Tops(t, m, w) <= Tops(t, m, v)
    decreases v
  {
    if w != v { TopsTransitive(t, m, if w in Tops(t, m, KidL(t, m, v)) then KidL(t, m, v) else KidR(t, m, v), w); }
  }

  /** Descendant numbers are condensed descendants. */
  lemma {:induction false} AncTops(t: Linkage, m: nat, tops: seq<int>, par: seq<int>, y: int, x: int)
    requires Ready(t, m) && Indexed(t, m, tops, par) && 0 <= x < |tops| && Anc(par, y, x)
    ensures tops[x] in Tops(t, m, tops[y])
    decreases x
  {
    HasKidsIfParent(t, m, tops, par, x);
    assert BornFrom(t, m, tops, par, x);
    assert tops[x] in Tops(t, m, tops[x]) && tops[x] in Tops(t, m, tops[par[x]]);
    if par[x] != y {
      AncTops(t, m, tops, par, y, par[x]);
      TopsTransitive(t, m, tops[y], tops[par[x]]);
    }
  }

  /** Every condensed descendant has a descendant number. */
  lemma {:induction false} TopIndex(t: Linkage, m: nat, tops: seq<int>, par: seq<int>, k: int, v: int) returns (j: int)
    requires Ready(t, m) && Indexed(t, m, tops, par) && 0 <= k < |tops| && v in Tops(t, m, tops[k])
    ensures 0 <= j < |tops| && tops[j] == v && (j == k || Anc(par, k, j))
    decreases tops[k]
  {
    if v == tops[k] {
      j := k;
    } else {
      var l, r := ChildNumbers(t, m, tops, par, k);
      var c := if v in Tops(t, m, tops[l]) then l else r;
      j := TopIndex(t, m, tops, par, c, v);
      if j != c { AncTransitive(par, k, c, j); }
    }
  }

  // ---------- which clusters the bottom-up rule keeps ----------

  /** Cluster k is at least as stable as the best choice below it. */
  ghost predicate Keeps(t: Linkage, m: nat, v: int)
    requires Ready(t, m) && t.Inner(v)
  {
    HasKids(t, m, v) ==> Best(t, m, KidL(t, m, v)) + Best(t, m, KidR(t, m, v)) <= Stability(t, m, v)
  }

  /** No keeping cluster numbered at least `lo` lies above x. */
  ghost predicate Uncovered(t: Linkage, m: nat, tops: seq<int>, par: seq<int>, lo: int, x: int)
    requires Ready(t, m) && |tops| == |par| && AllInner(t, tops) && ParentsFirst(par) && 0 <= x < |tops|
  {
    forall y | lo <= y < |tops| && Anc(par, y, x) :: 0 <= y && !Keeps(t, m, tops[y])
  }

  /** Below cluster i, the recursive choice keeps x exactly when x keeps itself and no cluster
      from i down to x keeps itself. */
  lemma {:induction false} ChosenIff(t: Linkage, m: nat, tops: seq<int>, par: seq<int>, i: int, x: int)
    requires Ready(t, m) && Indexed(t, m, tops, par) && 0 <= i < |tops| && 0 <= x < |tops| && (x == i || Anc(par, i, x))
    ensures tops[x] in Chosen(t, m, tops[i]) <==>
            Keeps(t, m, tops[x]) && (forall y | i <= y < |tops| && Anc(par, y, x) :: !Keeps(t, m, tops[y]))
    decreases tops[i], 1
  {
    hide Linkage.WellFormed, BornFrom, KidsPresent, Tops;
    if !Keeps(t, m, tops[i]) { ChosenKidsIff(t, m, tops, par, i, x); }
  }

  lemma {:induction false} ChosenKidsIff(t: Linkage, m: nat, tops: seq<int>, par: seq<int>, i: int, x: int)
    requires Ready(t, m) && Indexed(t, m, tops, par) && 0 <= i < |tops| && 0 <= x < |tops| && (x == i || Anc(par, i, x))
    requires HasKids(t, m, tops[i])
    ensures var s := Chosen(t, m, KidL(t, m, tops[i])) + Chosen(t, m, KidR(t, m, tops[i]));
            tops[x] in s <==>
            x != i && Keeps(t, m, tops[x]) && (forall y | i < y < |tops| && Anc(par, y, x) :: !Keeps(t, m, tops[y]))
    decreases tops[i], 0
  {
    hide Linkage.WellFormed, HasKids, Keeps, Tops, Chosen, Best, BornFrom, KidsPresent, Anc;
    var l, r := ChildNumbers(t, m, tops, par, i);
    SidesSeparate(t, m, tops[i]);
    if x != i {
      var c := AncFirstStep(par, i, x);
      ChosenIff(t, m, tops, par, c, x);
      if x != c { AncTops(t, m, tops, par, c, x); }
      forall y | i < y < |tops| && Anc(par, y, x) ensures c <= y {
        if y < c {
          if x != c { AncLinear(par, y, c, x); }
          AncParent(par, y, c);
        }
      }
    }
  }

  lemma AncParent(par: seq<int>, y: int, c: int)
    requires ParentsFirst(par) && 0 < c < |par| && Anc(par, y, c)
    ensures y <= par[c]
  {
  }

  /** What is chosen on one side of a split is no descendant of the other side, nor the parent. */
  lemma SidesSeparate(t: Linkage, m: nat, v: int)
    requires Ready(t, m) && t.Inner(v) && HasKids(t, m, v)
    ensures v !in Chosen(t, m, KidL(t, m, v)) + Chosen(t, m, KidR(t, m, v))
    ensures Tops(t, m, KidL(t, m, v)) !! Chosen(t, m, KidR(t, m, v))
    ensures Tops(t, m, KidR(t, m, v)) !! Chosen(t, m, KidL(t, m, v))
  {
    KidsUnder(t, m, v);
    TopsUnder(t, m, KidL(t, m, v));
    TopsUnder(t, m, KidR(t, m, v));
  }
}
