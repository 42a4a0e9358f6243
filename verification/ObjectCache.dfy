/** The published objects, synthesised from the component layer. */
module ObjectCache {
  import opened Basics
  import opened Centroids
  import opened Voxels
  import opened ObjectStore
  import opened ObjectTally

  /** One published object: the component's root, majority class and its kind, live points, their centroid,
      and support. */
  datatype Obj = Obj(id: int, classId: int, kind: Kind, points: seq<int>, centroid: Pos, level: int)

  /** The map as publishing sees it: liveness and position of a point, kind of a class. */
  datatype MapView = MapView(alive: seq<bool>, at: int -> Pos, kindOf: int -> Kind)

  predicate Live(view: MapView, g: int) { 0 <= g < |view.alive| && view.alive[g] }

  /** Kind of an object's class; an object without votes counts as a thing. */
  function ObjKind(view: MapView, classId: int): Kind { if classId >= 0 then view.kindOf(classId) else Thing }

  predicate Promoted(root: seq<int>, comp: seq<Comp>, minMerges: int, r: int) {
    0 <= r < |root| && root[r] == r && r < |comp| && comp[r].support >= minMerges
  }

  /** Component a is a stronger owner than b: more support, then more voxels, then the lower id. */
  predicate Better(comp: seq<Comp>, a: int, b: int)
    requires 0 <= a < |comp| && 0 <= b < |comp|
  {
    if comp[a].support != comp[b].support then comp[a].support > comp[b].support
    else if |comp[a].vox| != |comp[b].vox| then |comp[a].vox| > |comp[b].vox|
    else a < b
  }

  ghost predicate Contends(root: seq<int>, comp: seq<Comp>, minMerges: int, k: VKey, q: int) {
    Promoted(root, comp, minMerges, q) && k in comp[q].vox
  }

  /** r is the strongest promoted holder of voxel k. */
  ghost predicate Wins(root: seq<int>, comp: seq<Comp>, minMerges: int, k: VKey, r: int) {
    && Contends(root, comp, minMerges, k, r)
    && forall q | Contends(root, comp, minMerges, k, q) && q != r :: Better(comp, r, q)
  }

  /** Point g belongs to the object of root r. */
  ghost predicate Shows(root: seq<int>, comp: seq<Comp>, minMerges: int, overlap: bool, view: MapView, r: int, g: int) {
    && Live(view, g) && Promoted(root, comp, minMerges, r)
    && exists k :: ShowsAt(root, comp, minMerges, overlap, r, k, g)
  }

  ghost predicate ShowsAt(root: seq<int>, comp: seq<Comp>, minMerges: int, overlap: bool, r: int, k: VKey, g: int)
    requires 0 <= r < |comp|
  {
    k in comp[r].vox && comp[r].vox[k] == g && (overlap ==> Wins(root, comp, minMerges, k, r))
  }

  ghost predicate ObjOk(root: seq<int>, comp: seq<Comp>, minMerges: int, overlap: bool, view: MapView, o: Obj) {
    && Promoted(root, comp, minMerges, o.id) && o.level == comp[o.id].support && Dominates(comp[o.id].cls, o.classId)
    && o.kind == ObjKind(view, o.classId) && Centered(view.at, o.points, o.centroid)
    && o.points != [] && (forall i, j | 0 <= i < j < |o.points| :: o.points[i] != o.points[j])
    && forall g :: g in o.points <==> Shows(root, comp, minMerges, overlap, view, o.id, g)
  }

  ghost predicate Listed(cache: seq<Obj>, r: int) { exists i :: 0 <= i < |cache| && cache[i].id == r }

  /** The list holds one object for every promoted component with a point to show, by rising id. */
  ghost predicate CacheOk(root: seq<int>, comp: seq<Comp>, minMerges: int, overlap: bool, view: MapView, cache: seq<Obj>) {
    CacheUpTo(root, comp, minMerges, overlap, view, cache, |comp|)
  }

  ghost predicate CacheUpTo(root: seq<int>, comp: seq<Comp>, minMerges: int, overlap: bool, view: MapView, cache: seq<Obj>,
                            n: int)
  {
    && (forall i | 0 <= i < |cache| :: ObjOk(root, comp, minMerges, overlap, view, cache[i]) && cache[i].id < n)
    && (forall i, j | 0 <= i < j < |cache| :: cache[i].id < cache[j].id)
    && (forall r, g | r < n && Shows(root, comp, minMerges, overlap, view, r, g) :: Listed(cache, r))
  }

  // ---------- disjointness ----------

  lemma OneWinner(root: seq<int>, comp: seq<Comp>, minMerges: int, k: VKey, r: int, q: int)
    requires Wins(root, comp, minMerges, k, r) && Wins(root, comp, minMerges, k, q)
    ensures r == q
  {
  }

  /** The strongest of the holders below n, if there is one. */
  ghost predicate WinsBelow(root: seq<int>, comp: seq<Comp>, minMerges: int, k: VKey, n: int, r: int) {
    && Contends(root, comp, minMerges, k, r) && r < n
    && forall q | Contends(root, comp, minMerges, k, q) && q != r && q < n :: Better(comp, r, q)
  }

  lemma {:induction false} WinnerBelow(root: seq<int>, comp: seq<Comp>, minMerges: int, k: VKey, n: nat, q: int)
    requires Contends(root, comp, minMerges, k, q) && q < n
    ensures exists r :: WinsBelow(root, comp, minMerges, k, n, r)
  {
    if exists p :: Contends(root, comp, minMerges, k, p) && p < n - 1 {
      var p :| Contends(root, comp, minMerges, k, p) && p < n - 1;
      WinnerBelow(root, comp, minMerges, k, n - 1, p);
      var r :| WinsBelow(root, comp, minMerges, k, n - 1, r);
      var top := if Contends(root, comp, minMerges, k, n - 1) && Better(comp, n - 1, r) then n - 1 else r;
      assert WinsBelow(root, comp, minMerges, k, n, top);
    } else {
      assert q == n - 1;
      assert WinsBelow(root, comp, minMerges, k, n, q);
    }
  }

  /** Every voxel of a promoted component is attributed to exactly one root: the strongest. */
  lemma ExactlyOneWinner(root: seq<int>, comp: seq<Comp>, minMerges: int, k: VKey, q: int)
    requires Contends(root, comp, minMerges, k, q)
    ensures exists r :: Wins(root, comp, minMerges, k, r) && forall x | Wins(root, comp, minMerges, k, x) :: x == r
  {
    WinnerBelow(root, comp, minMerges, k, |comp|, q);
    var r :| WinsBelow(root, comp, minMerges, k, |comp|, r);
    assert Wins(root, comp, minMerges, k, r);
    forall x | Wins(root, comp, minMerges, k, x) ensures x == r { OneWinner(root, comp, minMerges, k, x, r); }
  }

  /** No point index appears in two published objects. */
  lemma DisjointObjects(s: Store, world: seq<VKey>, overlap: bool, minMerges: int, view: MapView, cache: seq<Obj>,
                        i: int, j: int, g: int)
    requires Inv(s, world, overlap) && (!overlap ==> Distinct(world))
    requires CacheOk(s.root, s.comp, minMerges, overlap, view, cache)
    requires 0 <= i < |cache| && 0 <= j < |cache| && g in cache[i].points && g in cache[j].points
    ensures i == j
  {
    hide Evidence, TotalSupport, IndexOk, Wins, Dominates;
    var p, q := cache[i].id, cache[j].id;
    assert ObjOk(s.root, s.comp, minMerges, overlap, view, cache[i]);
    assert ObjOk(s.root, s.comp, minMerges, overlap, view, cache[j]);
    assert Shows(s.root, s.comp, minMerges, overlap, view, p, g) && Shows(s.root, s.comp, minMerges, overlap, view, q, g);
    var k :| ShowsAt(s.root, s.comp, minMerges, overlap, p, k, g);
    var l :| ShowsAt(s.root, s.comp, minMerges, overlap, q, l, g);
    assert CompOk(s.comp[p], world) && CompOk(s.comp[q], world);
    assert world[g] == k && world[g] == l;
    if overlap { OneWinner(s.root, s.comp, minMerges, k, p, q); }
    else { OneHolder(s, world, k, p, q); }
  }

  /** In exclusive mode a voxel lies in at most one component. */
  lemma OneHolder(s: Store, world: seq<VKey>, k: VKey, p: int, q: int)
    requires Inv(s, world, false) && Distinct(world) && IsRoot(s.root, p) && IsRoot(s.root, q) && |s.comp| == |s.root|
    requires k in s.comp[p].vox && k in s.comp[q].vox
    ensures p == q
  {
    hide Evidence, TotalSupport, Shape;
    assert Holder(s, world, false, k, p) && Holder(s, world, false, k, q);
    var x :| 0 <= x < |s.owner| && OwnsPoint(s.root, s.owner, world, x, k, p);
    var y :| 0 <= y < |s.owner| && OwnsPoint(s.root, s.owner, world, y, k, q);
    assert x == y;
  }

  // ---------- building the list ----------

  /** win: the strongest promoted holder, among ids below n, of every voxel such an id holds. */
  ghost predicate WinOk(root: seq<int>, comp: seq<Comp>, minMerges: int, n: int, win: map<VKey, int>) {
    && (forall k | k in win :: WinsBelow(root, comp, minMerges, k, n, win[k]))
    && (forall k: VKey, q | Contends(root, comp, minMerges, k, q) && q < n :: k in win)
  }

  function Stronger(comp: seq<Comp>, win: map<VKey, int>, k: VKey, id: int): map<VKey, int>
    requires 0 <= id < |comp| && forall x | x in win :: 0 <= win[x] < |comp|
  {
    if k !in win || Better(comp, id, win[k]) then win[k := id] else win
  }

  /** win updated by id for the voxels in `done`. */
  ghost predicate WinPart(root: seq<int>, comp: seq<Comp>, minMerges: int, id: int, done: set<VKey>, win0: map<VKey, int>,
                          win: map<VKey, int>)
    requires 0 <= id < |comp| && forall x | x in win0 :: 0 <= win0[x] < |comp|
  {
    && win.Keys == win0.Keys + done
    && (forall k | k in win && k !in done :: win[k] == win0[k])
    && (forall k | k in win && k in done :: win[k] == if k in win0 && !Better(comp, id, win0[k]) then win0[k] else id)
  }

  method Winners(parent: seq<int>, ghost root: seq<int>, comp: seq<Comp>, minMerges: int) returns (win: map<VKey, int>)
    requires |parent| == |root| == |comp| && forall x | 0 <= x < |parent| :: parent[x] == x <==> root[x] == x
    ensures WinOk(root, comp, minMerges, |comp|, win)
  {
    hide WinOk, Better, WinPart;
    win := map[];
    NoWinners(root, comp, minMerges);
    for id := 0 to |comp|
      invariant WinOk(root, comp, minMerges, id, win)
    {
      if parent[id] != id || comp[id].support < minMerges {
        WinSkip(root, comp, minMerges, id, win);
        continue;
      }
      ghost var win0 := win;
      WinnersInRange(root, comp, minMerges, id, win0);
      WinPartNone(root, comp, minMerges, id, win0);
      var todo := comp[id].vox.Keys;
      ghost var done: set<VKey> := {};
      while todo != {}
        invariant todo <= comp[id].vox.Keys && done == comp[id].vox.Keys - todo
        invariant WinPart(root, comp, minMerges, id, done, win0, win) && forall x | x in win :: 0 <= win[x] < |comp|
      {
        SomeKey(todo);
        var k :| k in todo;
        WinPartMore(root, comp, minMerges, id, done, win0, win, k);
        win := Stronger(comp, win, k, id);
        todo, done := todo - {k}, done + {k};
      }
      assert done == comp[id].vox.Keys;
      WinNext(root, comp, minMerges, id, win0, win);
    }
  }

  lemma NoWinners(root: seq<int>, comp: seq<Comp>, minMerges: int)
    ensures WinOk(root, comp, minMerges, 0, map[])
  {
  }

  lemma WinnersInRange(root: seq<int>, comp: seq<Comp>, minMerges: int, n: int, win: map<VKey, int>)
    requires WinOk(root, comp, minMerges, n, win)
    ensures forall x | x in win :: 0 <= win[x] < |comp|
  {
  }

  lemma WinSkip(root: seq<int>, comp: seq<Comp>, minMerges: int, id: int, win: map<VKey, int>)
    requires WinOk(root, comp, minMerges, id, win) && !Promoted(root, comp, minMerges, id)
    ensures WinOk(root, comp, minMerges, id + 1, win)
  {
    hide Better;
    forall k | k in win ensures WinsBelow(root, comp, minMerges, k, id + 1, win[k]) {
      assert WinsBelow(root, comp, minMerges, k, id, win[k]);
    }
  }

  lemma WinPartNone(root: seq<int>, comp: seq<Comp>, minMerges: int, id: int, win0: map<VKey, int>)
    requires 0 <= id < |comp| && forall x | x in win0 :: 0 <= win0[x] < |comp|
    ensures WinPart(root, comp, minMerges, id, {}, win0, win0)
  {
  }

  lemma WinPartMore(root: seq<int>, comp: seq<Comp>, minMerges: int, id: int, done: set<VKey>, win0: map<VKey, int>,
                    win: map<VKey, int>, k: VKey)
    requires 0 <= id < |comp| && (forall x | x in win0 :: 0 <= win0[x] < |comp|) && (forall x | x in win :: 0 <= win[x] < |comp|)
    requires WinPart(root, comp, minMerges, id, done, win0, win) && k !in done
    ensures WinPart(root, comp, minMerges, id, done + {k}, win0, Stronger(comp, win, k, id))
    ensures forall x | x in Stronger(comp, win, k, id) :: 0 <= Stronger(comp, win, k, id)[x] < |comp|
  {
    hide Better;
  }

  lemma WinNext(root: seq<int>, comp: seq<Comp>, minMerges: int, id: int, win0: map<VKey, int>, win: map<VKey, int>)
    requires WinOk(root, comp, minMerges, id, win0) && Promoted(root, comp, minMerges, id)
    requires forall x | x in win0 :: 0 <= win0[x] < |comp|
    requires WinPart(root, comp, minMerges, id, comp[id].vox.Keys, win0, win)
    ensures WinOk(root, comp, minMerges, id + 1, win)
  {
    forall k | k in win ensures WinsBelow(root, comp, minMerges, k, id + 1, win[k]) {
      if k in win0 { assert WinsBelow(root, comp, minMerges, k, id, win0[k]); }
      else { assert Contends(root, comp, minMerges, k, id); }
    }
    forall k: VKey, q | Contends(root, comp, minMerges, k, q) && q < id + 1 ensures k in win {
      if q < id { assert k in win0; }
    }
  }

  lemma WinnerIs(root: seq<int>, comp: seq<Comp>, minMerges: int, win: map<VKey, int>, k: VKey, r: int)
    requires WinOk(root, comp, minMerges, |comp|, win)
    ensures Wins(root, comp, minMerges, k, r) <==> k in win && win[k] == r
  {
    if k in win {
      assert WinsBelow(root, comp, minMerges, k, |comp|, win[k]);
      assert Wins(root, comp, minMerges, k, win[k]);
      if Wins(root, comp, minMerges, k, r) { OneWinner(root, comp, minMerges, k, r, win[k]); }
    }
  }

  /** xs: the points shown by the voxels in `done`. */
  ghost predicate PointsOf(root: seq<int>, comp: seq<Comp>, minMerges: int, overlap: bool, view: MapView, r: int,
                           done: set<VKey>, xs: seq<int>)
    requires 0 <= r < |comp|
  {
    && (forall i, j | 0 <= i < j < |xs| :: xs[i] != xs[j])
    && forall g :: g in xs <==> Live(view, g) && ShownBy(root, comp, minMerges, overlap, r, done, g)
  }

  ghost predicate ShownBy(root: seq<int>, comp: seq<Comp>, minMerges: int, overlap: bool, r: int, done: set<VKey>, g: int)
    requires 0 <= r < |comp|
  {
    exists k :: k in done && ShowsAt(root, comp, minMerges, overlap, r, k, g)
  }

  ghost predicate OwnVoxels(c: Comp) { forall k, l | k in c.vox && l in c.vox && c.vox[k] == c.vox[l] :: k == l }

  lemma VoxelsOwn(s: Store, world: seq<VKey>, overlap: bool, r: int)
    requires Inv(s, world, overlap) && 0 <= r < |s.comp|
    ensures OwnVoxels(s.comp[r])
  {
    assert CompOk(s.comp[r], world);
  }

  method LivePoints(ghost root: seq<int>, comp: seq<Comp>, minMerges: int, overlap: bool, view: MapView, r: int,
                    win: map<VKey, int>)
    returns (points: seq<int>)
    requires Promoted(root, comp, minMerges, r) && OwnVoxels(comp[r])
    requires overlap ==> WinOk(root, comp, minMerges, |comp|, win)
    ensures PointsOf(root, comp, minMerges, overlap, view, r, comp[r].vox.Keys, points)
  {
    hide ShowsAt, WinOk, Wins, OwnVoxels;
    points := [];
    var todo := comp[r].vox.Keys;
    assert comp[r].vox.Keys - todo == {};
    while todo != {}
      invariant todo <= comp[r].vox.Keys
      invariant PointsOf(root, comp, minMerges, overlap, view, r, comp[r].vox.Keys - todo, points)
    {
      SomeKey(todo);
      var k :| k in todo;
      var gid := comp[r].vox[k];
      ghost var done := comp[r].vox.Keys - todo;
      if overlap { WinnerIs(root, comp, minMerges, win, k, r); }
      PointsMore(root, comp, minMerges, overlap, view, r, done, points, k);
      if (!overlap || (k in win && win[k] == r)) && Live(view, gid) {
        points := points + [gid];
      }
      assert done + {k} == comp[r].vox.Keys - (todo - {k});
      todo := todo - {k};
    }
    assert comp[r].vox.Keys - todo == comp[r].vox.Keys;
  }

  lemma PointsMore(root: seq<int>, comp: seq<Comp>, minMerges: int, overlap: bool, view: MapView, r: int,
                   done: set<VKey>, xs: seq<int>, k: VKey)
    requires 0 <= r < |comp| && OwnVoxels(comp[r]) && k in comp[r].vox && k !in done && done <= comp[r].vox.Keys
    requires PointsOf(root, comp, minMerges, overlap, view, r, done, xs)
    ensures var g := comp[r].vox[k];
            PointsOf(root, comp, minMerges, overlap, view, r, done + {k},
                     if (overlap ==> Wins(root, comp, minMerges, k, r)) && Live(view, g) then xs + [g] else xs)
  {
    hide Wins;
    var g := comp[r].vox[k];
    assert g !in xs;
    forall x ensures ShownBy(root, comp, minMerges, overlap, r, done + {k}, x) <==>
                     ShownBy(root, comp, minMerges, overlap, r, done, x)
                     || ShowsAt(root, comp, minMerges, overlap, r, k, x)
    {
      if ShowsAt(root, comp, minMerges, overlap, r, k, x) { assert k in done + {k}; }
      if ShownBy(root, comp, minMerges, overlap, r, done, x) {
        var l :| l in done && ShowsAt(root, comp, minMerges, overlap, r, l, x);
        assert l in done + {k};
      }
    }
  }

  method BuildCache(parent: seq<int>, ghost root: seq<int>, comp: seq<Comp>, minMerges: int, overlap: bool, view: MapView)
    returns (cache: seq<Obj>)
    requires |parent| == |root| == |comp| && forall x | 0 <= x < |parent| :: parent[x] == x <==> root[x] == x
    requires VotesPositive(comp) && forall r | 0 <= r < |comp| :: OwnVoxels(comp[r])
    ensures CacheOk(root, comp, minMerges, overlap, view, cache)
  {
    hide WinOk, OwnVoxels, PointsOf, ObjOk, Dominates, Shows, Centered;
    cache := [];
    var win: map<VKey, int> := map[];
    if overlap { win := Winners(parent, root, comp, minMerges); }
    NothingShown(root, comp, minMerges, overlap, view);
    for id := 0 to |comp|
      invariant CacheUpTo(root, comp, minMerges, overlap, view, cache, id)
    {
      ghost var cache0 := cache;
      if parent[id] == id && comp[id].support >= minMerges {
        var classId := Majority(comp[id].cls);
        var points := LivePoints(root, comp, minMerges, overlap, view, id, win);
        var o := Obj(id, classId, ObjKind(view, classId), points, Pos(0.0, 0.0, 0.0), comp[id].support);
        if points != [] {
          var c := CentroidOf(view.at, points);
          o := o.(centroid := c);
          cache := cache + [o];
        }
        CacheMore(root, comp, minMerges, overlap, view, cache0, o);
      } else {
        CacheSkip(root, comp, minMerges, overlap, view, cache0, id);
      }
    }
  }

  lemma NothingShown(root: seq<int>, comp: seq<Comp>, minMerges: int, overlap: bool, view: MapView)
    ensures CacheUpTo(root, comp, minMerges, overlap, view, [], 0)
  {
  }

  lemma CacheSkip(root: seq<int>, comp: seq<Comp>, minMerges: int, overlap: bool, view: MapView, cache: seq<Obj>, id: int)
    requires CacheUpTo(root, comp, minMerges, overlap, view, cache, id) && !Promoted(root, comp, minMerges, id)
    ensures CacheUpTo(root, comp, minMerges, overlap, view, cache, id + 1)
  {
    hide ObjOk, ShowsAt;
  }

  lemma CacheMore(root: seq<int>, comp: seq<Comp>, minMerges: int, overlap: bool, view: MapView, cache: seq<Obj>, o: Obj)
    requires CacheUpTo(root, comp, minMerges, overlap, view, cache, o.id) && Promoted(root, comp, minMerges, o.id)
    requires Dominates(comp[o.id].cls, o.classId) && o.level == comp[o.id].support && o.kind == ObjKind(view, o.classId)
    requires PointsOf(root, comp, minMerges, overlap, view, o.id, comp[o.id].vox.Keys, o.points)
    requires o.points != [] ==> Centered(view.at, o.points, o.centroid)
    ensures CacheUpTo(root, comp, minMerges, overlap, view, if o.points == [] then cache else cache + [o], o.id + 1)
  {
    hide Dominates, ObjOk, Centered;
    var id, points := o.id, o.points;
    var cache' := if points == [] then cache else cache + [o];
    ObjFrom(root, comp, minMerges, overlap, view, o);
    forall r, g | r < id + 1 && Shows(root, comp, minMerges, overlap, view, r, g) ensures Listed(cache', r) {
      if r < id {
        assert Listed(cache, r);
        var i :| 0 <= i < |cache| && cache[i].id == r;
        assert cache'[i] == cache[i];
      } else {
        assert g in points;
        assert cache'[|cache|] == o;
      }
    }
  }

  lemma ObjFrom(root: seq<int>, comp: seq<Comp>, minMerges: int, overlap: bool, view: MapView, o: Obj)
    requires Promoted(root, comp, minMerges, o.id) && o.level == comp[o.id].support && Dominates(comp[o.id].cls, o.classId)
    requires PointsOf(root, comp, minMerges, overlap, view, o.id, comp[o.id].vox.Keys, o.points)
    requires o.kind == ObjKind(view, o.classId) && (o.points != [] ==> Centered(view.at, o.points, o.centroid))
    ensures forall g :: g in o.points <==> Shows(root, comp, minMerges, overlap, view, o.id, g)
    ensures o.points != [] ==> ObjOk(root, comp, minMerges, overlap, view, o)
  {
    hide Dominates, Wins, Centered;
    forall g ensures g in o.points <==> Shows(root, comp, minMerges, overlap, view, o.id, g) {
      if Shows(root, comp, minMerges, overlap, view, o.id, g) {
        var k :| ShowsAt(root, comp, minMerges, overlap, o.id, k, g);
        assert ShownBy(root, comp, minMerges, overlap, o.id, comp[o.id].vox.Keys, g);
      }
    }
  }
}
