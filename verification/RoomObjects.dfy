/** Publishing room objects: stray points dropped, hull and centroid, and the delta of what changed. */
module RoomObjects {
  import opened Plane
  import opened ConvexHull
  import opened Affinity
  import opened Outliers

  // ---------- centroid ----------

  function SumX(pts: seq<Pt>): real { if pts == [] then 0.0 else SumX(pts[..|pts| - 1]) + pts[|pts| - 1].x }

  function SumY(pts: seq<Pt>): real { if pts == [] then 0.0 else SumY(pts[..|pts| - 1]) + pts[|pts| - 1].y }

  /** The mean of the points, the origin for none. */
  ghost predicate IsCentroid(pts: seq<Pt>, c: Pt) {
    if pts == [] then c == Pt(0.0, 0.0)
    else |pts| as real * c.x == SumX(pts) && |pts| as real * c.y == SumY(pts)
  }

  method Centroid2D(pts: seq<Pt>) returns (c: Pt)
    ensures IsCentroid(pts, c)
  {
    if pts == [] { return Pt(0.0, 0.0); }
    var sx, sy := 0.0, 0.0;
    assert pts[..0] == [];
    for i := 0 to |pts|
      invariant sx == SumX(pts[..i]) && sy == SumY(pts[..i])
    {
      assert pts[..i + 1][..i] == pts[..i];
      sx, sy := sx + pts[i].x, sy + pts[i].y;
    }
    assert pts[..|pts|] == pts;
    c := Pt(sx / |pts| as real, sy / |pts| as real);
    DivideBack(sx, |pts|);
    DivideBack(sy, |pts|);
  }

  lemma DivideBack(s: real, n: nat)
    requires n > 0
    ensures n as real * (s / n as real) == s
  {
  }

  function Affine(a: real, b: real, c: real, p: Pt): real { a + b * p.x + c * p.y }

  /** The affine function summed over n points with these coordinate sums. */
  function AffineTotal(n: real, a: real, b: real, c: real, sx: real, sy: real): real { n * a + b * sx + c * sy }

  lemma {:induction false} AffineSum(pts: seq<Pt>, a: real, b: real, c: real)
    requires forall p | p in pts :: Affine(a, b, c, p) >= 0.0
    ensures AffineTotal(|pts| as real, a, b, c, SumX(pts), SumY(pts)) >= 0.0
    decreases |pts|
  {
    hide Affine, AffineTotal;
    if pts == [] {
      AffineNone(a, b, c);
    } else {
      var n := |pts| - 1;
      assert forall p | p in pts[..n] :: p in pts;
      AffineSum(pts[..n], a, b, c);
      assert pts[n] in pts;
      AffineStep(n, a, b, c, SumX(pts[..n]), SumY(pts[..n]), pts[n]);
    }
  }

  lemma AffineNone(a: real, b: real, c: real)
    ensures AffineTotal(0.0, a, b, c, 0.0, 0.0) == 0.0
  {
  }

  lemma AffineStep(n: nat, a: real, b: real, c: real, sx: real, sy: real, p: Pt)
    requires AffineTotal(n as real, a, b, c, sx, sy) >= 0.0 && Affine(a, b, c, p) >= 0.0
    ensures AffineTotal((n + 1) as real, a, b, c, sx + p.x, sy + p.y) >= 0.0
  {
    assert (n + 1) as real * a == n as real * a + a;
    assert b * (sx + p.x) == b * sx + b * p.x;
    assert c * (sy + p.y) == c * sy + c * p.y;
  }

  /** A half-plane that holds all points holds their mean. */
  lemma MeanInHalfPlane(pts: seq<Pt>, m: Pt, a: real, b: real, c: real)
    requires pts != [] && IsCentroid(pts, m) && forall p | p in pts :: Affine(a, b, c, p) >= 0.0
    ensures Affine(a, b, c, m) >= 0.0
  {
    hide Affine, AffineTotal;
    AffineSum(pts, a, b, c);
    AffineMean(|pts| as real, a, b, c, SumX(pts), SumY(pts), m);
  }

  lemma AffineMean(n: real, a: real, b: real, c: real, sx: real, sy: real, m: Pt)
    requires n > 0.0 && n * m.x == sx && n * m.y == sy && AffineTotal(n, a, b, c, sx, sy) >= 0.0
    ensures Affine(a, b, c, m) >= 0.0
  {
    assert n * Affine(a, b, c, m) == n * a + b * (n * m.x) + c * (n * m.y);
    Divide(Affine(a, b, c, m), n);
  }

  // ---------- the centroid lies in the polygon ----------

  function Inner(u: Pt, v: Pt): real { u.x * v.x + u.y * v.y }

  /** c lies on the segment from a to z. */
  ghost predicate OnSegment(a: Pt, z: Pt, c: Pt) {
    && Cross(a, z, c) == 0.0 && 0.0 <= Inner(Sub(c, a), Sub(z, a)) <= Inner(Sub(z, a), Sub(z, a))
    && (a == z ==> c == a)
  }

  /** c lies in the closed polygon: inside or on the border, on the segment when it has two
      corners, on the point when it has one. */
  ghost predicate Inside(h: seq<Pt>, c: Pt) {
    && h != []
    && (forall j | 0 <= j < |h| :: Cross(h[j], Next(h, j), c) >= 0.0)
    && (|h| <= 2 ==> OnSegment(h[0], h[|h| - 1], c))
  }

  /** The turn at A and B as an affine function of the third point. */
  function Offset(A: Pt, B: Pt): real { -((A.y - B.y) * A.x) - (B.x - A.x) * A.y }

  lemma CrossAffine(A: Pt, B: Pt, p: Pt)
    ensures Cross(A, B, p) == Affine(Offset(A, B), A.y - B.y, B.x - A.x, p)
  {
  }

  lemma LeftMean(pts: seq<Pt>, m: Pt, A: Pt, B: Pt)
    requires pts != [] && IsCentroid(pts, m) && forall p | p in pts :: Cross(A, B, p) >= 0.0
    ensures Cross(A, B, m) >= 0.0
  {
    hide Cross, Affine, IsCentroid, Offset;
    forall p | p in pts ensures Affine(Offset(A, B), A.y - B.y, B.x - A.x, p) >= 0.0 { CrossAffine(A, B, p); }
    MeanInHalfPlane(pts, m, Offset(A, B), A.y - B.y, B.x - A.x);
    CrossAffine(A, B, m);
  }

  lemma DotAffine(a: Pt, v: Pt, p: Pt)
    ensures Inner(Sub(p, a), v) == Affine(-(v.x * a.x) - v.y * a.y, v.x, v.y, p)
  {
  }

  lemma DotMean(pts: seq<Pt>, m: Pt, a: Pt, v: Pt)
    requires pts != [] && IsCentroid(pts, m) && forall p | p in pts :: Inner(Sub(p, a), v) >= 0.0
    ensures Inner(Sub(m, a), v) >= 0.0
  {
    hide Inner, Affine, IsCentroid;
    forall p | p in pts ensures Affine(-(v.x * a.x) - v.y * a.y, v.x, v.y, p) >= 0.0 { DotAffine(a, v, p); }
    MeanInHalfPlane(pts, m, -(v.x * a.x) - v.y * a.y, v.x, v.y);
    DotAffine(a, v, m);
  }

  /** Of two vectors along one line, both in the half-plane, each points the way of the other. */
  lemma AlongLine(b: Pt, q: Pt)
    requires NotBehind(true, b) && NotBehind(true, q) && Det(b, q) == 0.0
    ensures Inner(q, b) >= 0.0
  {
    if b.x > 0.0 {
      assert b.x * q.y == b.y * q.x;
      assert b.x * Inner(q, b) == q.x * (b.x * b.x) + b.y * (b.x * q.y);
      assert b.x * Inner(q, b) == q.x * (b.x * b.x + b.y * b.y);
      Product(b.x, b.x);
      SquareNonNegative(b.y);
      Product(q.x, b.x * b.x + b.y * b.y);
      Divide(Inner(q, b), b.x);
    } else {
      assert b.x == 0.0 && Det(b, q) == -(b.y * q.x);
      if b.y > 0.0 { Divide(q.x, b.y); Product(q.y, b.y); }
    }
  }

  lemma SquareNonNegative(x: real)
    ensures x * x >= 0.0
  {
    if x < 0.0 { Product(-x, -x); }
  }

  lemma SegmentMean(pts: seq<Pt>, m: Pt, a: Pt, z: Pt)
    requires pts != [] && IsCentroid(pts, m)
    requires forall q | q in pts :: Cross(a, z, q) == 0.0 && NotBehind(true, Sub(q, a)) && NotBehind(true, Sub(z, q))
    ensures OnSegment(a, z, m)
  {
    hide Cross, Inner, IsCentroid, NotBehind, Sub;
    LineMean(pts, m, a, z);
    var v := Sub(z, a);
    forall q | q in pts ensures Inner(Sub(q, a), v) >= 0.0 && Inner(Sub(q, z), Neg(v)) >= 0.0 { BetweenEnds(a, z, q); }
    DotMean(pts, m, a, v);
    DotMean(pts, m, z, Neg(v));
    DotEnds(a, z, m);
    if a == z { PointMean(pts, m, a); }
  }

  lemma LineMean(pts: seq<Pt>, m: Pt, a: Pt, z: Pt)
    requires pts != [] && IsCentroid(pts, m) && forall q | q in pts :: Cross(a, z, q) == 0.0
    ensures Cross(a, z, m) == 0.0
  {
    hide Cross, IsCentroid;
    LeftMean(pts, m, a, z);
    forall q | q in pts ensures Cross(z, a, q) >= 0.0 { CrossAlong(a, z, q); }
    LeftMean(pts, m, z, a);
    CrossAlong(a, z, m);
  }

  lemma BetweenEnds(a: Pt, z: Pt, q: Pt)
    requires Cross(a, z, q) == 0.0 && NotBehind(true, Sub(q, a)) && NotBehind(true, Sub(z, q))
    ensures Inner(Sub(q, a), Sub(z, a)) >= 0.0 && Inner(Sub(q, z), Neg(Sub(z, a))) >= 0.0
  {
    hide Det, Inner, NotBehind, Sub;
    NotBehindTwice(a, q, z);
    OnLine(a, z, q);
    AlongLine(Sub(z, a), Sub(q, a));
    AlongLine(Sub(z, a), Sub(z, q));
    DotNeg(a, z, q);
  }

  lemma OnLine(a: Pt, z: Pt, q: Pt)
    requires Cross(a, z, q) == 0.0
    ensures Det(Sub(z, a), Sub(q, a)) == 0.0 && Det(Sub(z, a), Sub(z, q)) == 0.0
  {
    hide Det;
    DetDifference(Sub(z, a), Sub(z, a), Sub(q, a));
    DetSelf(Sub(z, a));
    assert Sub(Sub(z, a), Sub(q, a)) == Sub(z, q);
  }

  lemma NotBehindTwice(a: Pt, q: Pt, z: Pt)
    requires NotBehind(true, Sub(q, a)) && NotBehind(true, Sub(z, q))
    ensures NotBehind(true, Sub(z, a))
  {
  }

  lemma DetSelf(v: Pt)
    ensures Det(v, v) == 0.0
  {
  }

  lemma DotNeg(a: Pt, z: Pt, q: Pt)
    ensures Inner(Sub(q, z), Neg(Sub(z, a))) == Inner(Sub(z, q), Sub(z, a))
  {
  }

  lemma DotEnds(a: Pt, z: Pt, m: Pt)
    ensures Inner(Sub(m, z), Neg(Sub(z, a))) == Inner(Sub(z, a), Sub(z, a)) - Inner(Sub(m, a), Sub(z, a))
  {
  }

  /** The mean of copies of one point is the point. */
  lemma PointMean(pts: seq<Pt>, m: Pt, a: Pt)
    requires pts != [] && IsCentroid(pts, m)
    requires forall q | q in pts :: NotBehind(true, Sub(q, a)) && NotBehind(true, Sub(a, q))
    ensures m == a
  {
    hide IsCentroid, Inner;
    forall q | q in pts ensures q == a {}
    DotAxes(a, a);
    DotMean(pts, m, a, Pt(1.0, 0.0));
    DotMean(pts, m, a, Pt(-1.0, 0.0));
    DotMean(pts, m, a, Pt(0.0, 1.0));
    DotMean(pts, m, a, Pt(0.0, -1.0));
    DotAxes(m, a);
  }

  lemma DotAxes(m: Pt, a: Pt)
    ensures Inner(Sub(m, a), Pt(1.0, 0.0)) == m.x - a.x && Inner(Sub(m, a), Pt(-1.0, 0.0)) == a.x - m.x
    ensures Inner(Sub(m, a), Pt(0.0, 1.0)) == m.y - a.y && Inner(Sub(m, a), Pt(0.0, -1.0)) == a.y - m.y
  {
  }

  /** The centroid of a nonempty point set lies in its hull. */
  lemma CentroidInside(pts: seq<Pt>, h: seq<Pt>, m: Pt)
    requires pts != [] && IsCentroid(pts, m) && Encloses(h, pts)
    requires if Collinear(pts) then Extremes(h, pts) else StrictlyConvex(h)
    requires forall p | p in h :: p in pts
    ensures Inside(h, m)
  {
    hide Cross, IsCentroid, OnSegment, NotBehind;
    forall j | 0 <= j < |h| ensures Cross(h[j], Next(h, j), m) >= 0.0 { LeftMean(pts, m, h[j], Next(h, j)); }
    if |h| <= 2 {
      forall q | q in pts ensures Cross(h[0], h[|h| - 1], q) == 0.0 { assert h[0] in h && h[|h| - 1] in h; }
      SegmentMean(pts, m, h[0], h[|h| - 1]);
    }
  }

  // ---------- a published object ----------

  datatype Triple = Triple(x: real, y: real, z: real)

  /** The null id has vehicle 0 and time 0. */
  datatype NodeId = NodeId(vehicleId: Vehicle, ident: Tick)

  type Vehicle = v: nat | v < 0x10000

  type Tick = x: int | -0x8000_0000_0000_0000 <= x < 0x8000_0000_0000_0000

  type ObjectNumber = x: int | -0x8000_0000 <= x < 0x8000_0000

  datatype RoomObject = RoomObject(objectId: NodeId, roomId: NodeId, text: string, directionContent: string,
                                   centroid: Pt, polygon: seq<Pt>)

  /** Overhead projection: the height is dropped. */
  function ProjectToXY(member: seq<Triple>): (r: seq<Pt>)
    ensures |r| == |member| && forall i | 0 <= i < |r| :: r[i] == Pt(member[i].x, member[i].y)
  {
    seq(|member|, i requires 0 <= i < |member| => Pt(member[i].x, member[i].y))
  }

  /** The published polygon and centroid describe the points that survive outlier removal. */
  method BuildRoomObject(sqrt: real -> real, vehicleId: Vehicle, objectId: ObjectNumber, text: string, member: seq<Triple>, k: int, alpha: real)
    returns (o: RoomObject)
    requires IsSqrt(sqrt)
    ensures o.objectId == NodeId(vehicleId, objectId) && Packable(o.objectId) && o.roomId == NodeId(0, 0)
    ensures o.text == text && o.directionContent == ""
    ensures var clean := Kept(sqrt, ProjectToXY(member), k, alpha);
            && (forall p | p in o.polygon :: p in clean)
            && Encloses(o.polygon, clean) && IsCentroid(clean, o.centroid)
            && (if Collinear(clean) then Extremes(o.polygon, clean) else StrictlyConvex(o.polygon))
            && (clean != [] ==> Inside(o.polygon, o.centroid))
    ensures member != [] && alpha >= 0.0 ==> Inside(o.polygon, o.centroid)
    ensures forall p | p in o.polygon :: exists q :: q in member && p == Pt(q.x, q.y)
  {
    hide Kept, Encloses, Collinear, Extremes, StrictlyConvex, Inside, IsCentroid, IsSqrt;
    var flat := ProjectToXY(member);
    var clean := StatisticalOutlierRemoval(sqrt, flat, k, alpha);
    var polygon := ConvexHull2D(clean);
    var centroid := Centroid2D(clean);
    if clean != [] { CentroidInside(clean, polygon, centroid); }
    if flat != [] && alpha >= 0.0 { KeepsSome(sqrt, flat, k, alpha); }
    forall p | p in polygon ensures exists q :: q in member && p == Pt(q.x, q.y) {
      KeepsInputs(sqrt, flat, k, alpha, p);
      var i :| 0 <= i < |flat| && flat[i] == p;
      assert member[i] in member;
    }
    o := RoomObject(NodeId(vehicleId, objectId), NodeId(0, 0), text, "", centroid, polygon);
  }

  // ---------- ids as keys ----------

  const LOW := 0x1_0000_0000_0000

  function Pow2(n: nat): nat { if n == 0 then 1 else 2 * Pow2(n - 1) }

  /** Exclusive or of the lowest n bits. */
  function Xor(a: nat, b: nat, n: nat): nat {
    if n == 0 then 0 else 2 * Xor(a / 2, b / 2, n - 1) + (a + b) % 2
  }

  lemma {:induction false} XorCancels(a: nat, b: nat, c: nat, n: nat)
    requires a < Pow2(n) && b < Pow2(n) && Xor(a, c, n) == Xor(b, c, n)
    ensures a == b
    decreases n
  {
    if n > 0 { XorCancels(a / 2, b / 2, c / 2, n - 1); }
  }

  /** The 64-bit key of an id: the vehicle over bits 48 to 63, exclusive-or the tick count. */
  function NodeKey(id: NodeId): nat { Xor(id.vehicleId, High(id.ident), 16) * LOW + Low(id.ident) }

  /** Bits 48 to 63 and bits 0 to 47 of a tick count. */
  function High(x: Tick): nat { x / LOW % 0x10000 }

  function Low(x: Tick): (r: nat)
    ensures r < LOW
  {
    x % LOW
  }

  /** Two ids share a key exactly when the low bits of their ticks agree and vehicle and high bits combine
      alike. */
  lemma SameKeyIff(a: NodeId, b: NodeId)
    ensures NodeKey(a) == NodeKey(b) <==>
            Low(a.ident) == Low(b.ident) && Xor(a.vehicleId, High(a.ident), 16) == Xor(b.vehicleId, High(b.ident), 16)
  {
    hide Xor, High, Low;
    if NodeKey(a) == NodeKey(b) {
      Digits(Xor(a.vehicleId, High(a.ident), 16), Low(a.ident), Xor(b.vehicleId, High(b.ident), 16), Low(b.ident));
    }
  }

  lemma Digits(x: nat, l: nat, y: nat, k: nat)
    requires l < LOW && k < LOW && x * LOW + l == y * LOW + k
    ensures x == y && l == k
  {
  }

  lemma SixteenBits()
    ensures Pow2(16) == 0x10000
  {
    assert Pow2(4) == 16 && Pow2(8) == 256 && Pow2(12) == 4096;
  }

  /** No two ids of the set share a key. */
  ghost predicate Injective(ids: set<NodeId>) {
    forall a, b | a in ids && b in ids && NodeKey(a) == NodeKey(b) :: a == b
  }

  /** The ids one vehicle makes never share a key. */
  lemma OneVehicleInjective(ids: set<NodeId>, vehicle: Vehicle)
    requires forall id | id in ids :: id.vehicleId == vehicle
    ensures Injective(ids)
  {
    hide NodeKey, Xor, High, Low;
    forall a, b | a in ids && b in ids && NodeKey(a) == NodeKey(b) ensures a == b {
      SameKeyIff(a, b);
      XorSwap(vehicle, High(a.ident), 16);
      XorSwap(vehicle, High(b.ident), 16);
      SixteenBits();
      HighBound(a.ident);
      HighBound(b.ident);
      XorCancels(High(a.ident), High(b.ident), vehicle, 16);
      BitsDecide(a.ident, b.ident);
    }
  }

  lemma HighBound(x: Tick)
    ensures High(x) < 0x10000
  {
  }

  lemma BitsDecide(x: Tick, y: Tick)
    requires High(x) == High(y) && Low(x) == Low(y)
    ensures x == y
  {
  }

  /** The tick count fits 48 bits with its sign; those made from an object number do. */
  predicate Packable(id: NodeId) { -LOW <= 2 * id.ident < LOW }

  /** Nor do ids made from object numbers, of whatever vehicles. */
  lemma PackableInjective(ids: set<NodeId>)
    requires forall id | id in ids :: Packable(id)
    ensures Injective(ids)
  {
    hide NodeKey, Packable;
    forall a, b | a in ids && b in ids && NodeKey(a) == NodeKey(b) ensures a == b { KeyIffSame(a, b); }
  }

  lemma KeyIffSame(a: NodeId, b: NodeId)
    requires Packable(a) && Packable(b)
    ensures NodeKey(a) == NodeKey(b) <==> a == b
  {
    hide Xor, NodeKey;
    SameKeyIff(a, b);
    if NodeKey(a) == NodeKey(b) {
      LowDecides(a.ident, b.ident);
      SixteenBits();
      XorCancels(a.vehicleId, b.vehicleId, High(a.ident), 16);
    }
  }

  lemma LowDecides(x: Tick, y: Tick)
    requires -LOW <= 2 * x < LOW && -LOW <= 2 * y < LOW && Low(x) == Low(y)
    ensures x == y
  {
  }

  /** An instance of a shared key: vehicle 1 at tick 0 and vehicle 0 at tick 2^48. */
  lemma KeysCollide()
    ensures NodeKey(NodeId(1, 0)) == NodeKey(NodeId(0, LOW))
  {
    hide Xor;
    assert High(0) == 0 && Low(0) == 0 && High(LOW) == 1 && Low(LOW) == 0;
    XorSwap(1, 0, 16);
  }

  lemma {:induction false} XorSwap(a: nat, b: nat, n: nat)
    ensures Xor(a, b, n) == Xor(b, a, n)
    decreases n
  {
    if n > 0 { XorSwap(a / 2, b / 2, n - 1); }
  }

  // ---------- only what changed ----------

  /** The publisher's memory: the last fingerprint under each id, after the objects in order. */
  function Upserted(seen: map<nat, int>, hash: RoomObject -> int, objects: seq<RoomObject>): map<nat, int> {
    if objects == [] then seen
    else var o := objects[|objects| - 1];
         Upserted(seen, hash, objects[..|objects| - 1])[NodeKey(o.objectId) := hash(o)]
  }

  /** The objects that are new, or whose fingerprint differs from the last one under their id. */
  function Changed(seen: map<nat, int>, hash: RoomObject -> int, objects: seq<RoomObject>): seq<RoomObject> {
    if objects == [] then []
    else var o, before := objects[|objects| - 1], objects[..|objects| - 1];
         var now := Upserted(seen, hash, before);
         Changed(seen, hash, before) + Reported(now, hash, o)
  }

  function Reported(now: map<nat, int>, hash: RoomObject -> int, o: RoomObject): seq<RoomObject> {
    if NodeKey(o.objectId) in now && now[NodeKey(o.objectId)] == hash(o) then [] else [o]
  }

  class ObjectDelta {
    var seen: map<nat, int>

    constructor ()
      ensures seen == map[]
    {
      seen := map[];
    }

    method ChangedSince(hash: RoomObject -> int, objects: seq<RoomObject>) returns (out: seq<RoomObject>)
      modifies this
      ensures seen == Upserted(old(seen), hash, objects) && out == Changed(old(seen), hash, objects)
    {
      out := [];
      for i := 0 to |objects|
        invariant seen == Upserted(old(seen), hash, objects[..i]) && out == Changed(old(seen), hash, objects[..i])
      {
        var o := objects[i];
        assert objects[..i + 1][..i] == objects[..i];
        var key := NodeKey(o.objectId);
        if !(key in seen && seen[key] == hash(o)) {
          seen := seen[key := hash(o)];
          out := out + [o];
        }
      }
      assert objects[..|objects|] == objects;
    }
  }

  /** A consumer that keeps the latest object under each id. */
  function Fed(store: map<NodeId, RoomObject>, objects: seq<RoomObject>): map<NodeId, RoomObject> {
    if objects == [] then store
    else var o := objects[|objects| - 1]; Fed(store, objects[..|objects| - 1])[o.objectId := o]
  }

  predicate Holds(seen: map<nat, int>, key: nat, mark: int) { key in seen && seen[key] == mark }

  /** The memory knows the key of every stored object and holds, for every key, the fingerprint of a stored
      object of that key. */
  ghost predicate Remembers(seen: map<nat, int>, hash: RoomObject -> int, store: map<NodeId, RoomObject>) {
    && (forall id | id in store :: store[id].objectId == id && NodeKey(id) in seen)
    && forall key | key in seen :: exists id :: Backs(store, hash, id, key, seen[key])
  }

  ghost predicate Backs(store: map<NodeId, RoomObject>, hash: RoomObject -> int, id: NodeId, key: nat, mark: int) {
    id in store && NodeKey(id) == key && hash(store[id]) == mark
  }

  /** Same ids, and objects of the same fingerprint under each. */
  ghost predicate SamePrints(hash: RoomObject -> int, a: map<NodeId, RoomObject>, b: map<NodeId, RoomObject>) {
    a.Keys == b.Keys && forall id | id in a :: hash(a[id]) == hash(b[id])
  }

  ghost predicate IdsIn(objects: seq<RoomObject>, ids: set<NodeId>) {
    forall i | 0 <= i < |objects| :: objects[i].objectId in ids
  }

  /** Two objects the memory cannot tell apart, under different ids. */
  predicate Confused(hash: RoomObject -> int, o: RoomObject, q: RoomObject) {
    o.objectId != q.objectId && NodeKey(o.objectId) == NodeKey(q.objectId) && hash(o) == hash(q)
  }

  ghost predicate Separates(hash: RoomObject -> int, ids: set<NodeId>) {
    forall o: RoomObject, q: RoomObject | o.objectId in ids && q.objectId in ids :: !Confused(hash, o, q)
  }

  /** A consumer fed only the changes holds the same objects up to fingerprint as one fed every object, and
      the publisher's memory fits both. */
  lemma {:induction false} DeltaSuffices(seen: map<nat, int>, hash: RoomObject -> int, fed: map<NodeId, RoomObject>,
                                         full: map<NodeId, RoomObject>, objects: seq<RoomObject>, ids: set<NodeId>)
    requires Separates(hash, ids) && fed.Keys <= ids && IdsIn(objects, ids)
    requires Remembers(seen, hash, fed) && Remembers(seen, hash, full) && SamePrints(hash, fed, full)
    ensures var fed' := Fed(fed, Changed(seen, hash, objects));
            SamePrints(hash, fed', Fed(full, objects)) && Remembers(Upserted(seen, hash, objects), hash, fed') && fed'.Keys <= ids
    ensures Remembers(Upserted(seen, hash, objects), hash, Fed(full, objects))
    decreases |objects|
  {
    hide Remembers, NodeKey, SamePrints, Separates;
    if objects != [] {
      var o, before := objects[|objects| - 1], objects[..|objects| - 1];
      DeltaSuffices(seen, hash, fed, full, before, ids);
      DeltaStep(Upserted(seen, hash, before), hash, Fed(fed, Changed(seen, hash, before)), Fed(full, before), o, ids);
      FedMore(fed, Changed(seen, hash, before), Reported(Upserted(seen, hash, before), hash, o));
    }
  }

  lemma DeltaStep(now: map<nat, int>, hash: RoomObject -> int, fed: map<NodeId, RoomObject>, full: map<NodeId, RoomObject>,
                  o: RoomObject, ids: set<NodeId>)
    requires Separates(hash, ids) && fed.Keys <= ids && o.objectId in ids
    requires Remembers(now, hash, fed) && Remembers(now, hash, full) && SamePrints(hash, fed, full)
    ensures var (now', fed', full') := (now[NodeKey(o.objectId) := hash(o)], Fed(fed, Reported(now, hash, o)), full[o.objectId := o]);
            && Remembers(now', hash, fed') && Remembers(now', hash, full') && SamePrints(hash, fed', full') && fed'.Keys <= ids
  {
    hide Remembers, NodeKey, Separates;
    assert [o][..0] == [] && Fed(fed, []) == fed;
    RememberOne(now, hash, full, o);
    if Reported(now, hash, o) == [] {
      assert now[NodeKey(o.objectId) := hash(o)] == now;
      SilentMeansKnown(now, hash, fed, o, ids);
    } else {
      RememberOne(now, hash, fed, o);
      assert Fed(fed, [o]) == fed[o.objectId := o];
    }
  }

  lemma RememberOne(now: map<nat, int>, hash: RoomObject -> int, store: map<NodeId, RoomObject>, o: RoomObject)
    requires Remembers(now, hash, store)
    ensures Remembers(now[NodeKey(o.objectId) := hash(o)], hash, store[o.objectId := o])
  {
    hide NodeKey;
    var now', store' := now[NodeKey(o.objectId) := hash(o)], store[o.objectId := o];
    forall key | key in now' ensures exists id :: Backs(store', hash, id, key, now'[key]) {
      if key == NodeKey(o.objectId) {
        assert Backs(store', hash, o.objectId, key, now'[key]);
      } else {
        var id :| Backs(store, hash, id, key, now[key]);
        assert Backs(store', hash, id, key, now'[key]);
      }
    }
  }

  /** An object that is not reported stands in the store with its fingerprint. */
  lemma SilentMeansKnown(now: map<nat, int>, hash: RoomObject -> int, store: map<NodeId, RoomObject>, o: RoomObject, ids: set<NodeId>)
    requires Remembers(now, hash, store) && Separates(hash, ids) && store.Keys <= ids && o.objectId in ids
    requires Reported(now, hash, o) == []
    ensures o.objectId in store && hash(store[o.objectId]) == hash(o)
  {
    hide NodeKey;
    var id :| Backs(store, hash, id, NodeKey(o.objectId), hash(o));
    assert store[id].objectId == id && id in ids;
    assert !Confused(hash, store[id], o);
  }

  /** When no ids share a key an object is silent exactly when the store holds one of its fingerprint under
      its id. */
  lemma KnownIff(now: map<nat, int>, hash: RoomObject -> int, store: map<NodeId, RoomObject>, o: RoomObject, ids: set<NodeId>)
    requires Remembers(now, hash, store) && Injective(ids) && store.Keys <= ids && o.objectId in ids
    ensures Reported(now, hash, o) == [] <==> o.objectId in store && hash(store[o.objectId]) == hash(o)
  {
    hide NodeKey;
    if NodeKey(o.objectId) in now {
      var id :| Backs(store, hash, id, NodeKey(o.objectId), now[NodeKey(o.objectId)]);
      assert id in ids;
    }
  }

  /** Fed from nothing, the changes alone give the same objects up to fingerprint. */
  ghost predicate Faithful(hash: RoomObject -> int, objects: seq<RoomObject>) {
    SamePrints(hash, Fed(map[], Changed(map[], hash, objects)), Fed(map[], objects))
  }

  /** Of two objects with one key and fingerprint under different ids, the second is lost. */
  lemma CollisionLosesOne(hash: RoomObject -> int, first: RoomObject, second: RoomObject)
    requires Confused(hash, first, second)
    ensures Changed(map[], hash, [first, second]) == [first] && !Faithful(hash, [first, second])
  {
    hide NodeKey;
    var both := [first, second];
    assert both[..1] == [first] && [first][..0] == [];
    assert Upserted(map[], hash, [first]) == map[NodeKey(first.objectId) := hash(first)];
    assert Changed(map[], hash, [first]) == [] + [first];
    assert second.objectId in Fed(map[], both);
    assert Fed(map[], [first]) == map[first.objectId := first];
  }

  /** For objects with ids from a set, the changes always suffice exactly when no two of them with one key
      under different ids share a fingerprint. */
  lemma FaithfulIffSeparates(hash: RoomObject -> int, ids: set<NodeId>)
    ensures (forall objects: seq<RoomObject> | IdsIn(objects, ids) :: Faithful(hash, objects)) <==> Separates(hash, ids)
  {
    hide NodeKey, Changed, Upserted, Fed;
    if Separates(hash, ids) {
      forall objects: seq<RoomObject> | IdsIn(objects, ids) ensures Faithful(hash, objects) {
        DeltaSuffices(map[], hash, map[], map[], objects, ids);
      }
    }
    if forall objects: seq<RoomObject> | IdsIn(objects, ids) :: Faithful(hash, objects) {
      forall o: RoomObject, q: RoomObject | o.objectId in ids && q.objectId in ids ensures !Confused(hash, o, q) {
        assert IdsIn([o, q], ids);
        if Confused(hash, o, q) { CollisionLosesOne(hash, o, q); }
      }
    }
  }

  /** The fingerprint does not look at the id. */
  ghost predicate IgnoresIds(hash: RoomObject -> int) { forall o: RoomObject, id :: hash(o.(objectId := id)) == hash(o) }

  /** For such a fingerprint, exactly when no two ids share a key. */
  lemma SeparatesIffInjective(hash: RoomObject -> int, ids: set<NodeId>)
    requires IgnoresIds(hash)
    ensures Separates(hash, ids) <==> Injective(ids)
  {
    hide NodeKey;
    if Separates(hash, ids) {
      forall a, b | a in ids && b in ids && NodeKey(a) == NodeKey(b) ensures a == b {
        var o := RoomObject(a, a, "", "", Pt(0.0, 0.0), []);
        assert hash(o.(objectId := b)) == hash(o) && !Confused(hash, o, o.(objectId := b));
      }
    }
  }

  /** Whatever the fingerprint, the changes always suffice exactly for sets of ids no two of which share a key. */
  lemma FaithfulIffInjective(ids: set<NodeId>)
    ensures (forall hash: RoomObject -> int, objects: seq<RoomObject> | IdsIn(objects, ids) :: Faithful(hash, objects)) <==> Injective(ids)
  {
    hide NodeKey, Changed, Upserted, Fed, Faithful;
    if Injective(ids) {
      forall hash: RoomObject -> int, objects: seq<RoomObject> | IdsIn(objects, ids) ensures Faithful(hash, objects) {
        FaithfulIffSeparates(hash, ids);
      }
    }
    if forall hash: RoomObject -> int, objects: seq<RoomObject> | IdsIn(objects, ids) :: Faithful(hash, objects) {
      var one: RoomObject -> int := o => 1;
      FaithfulIffSeparates(one, ids);
      SeparatesIffInjective(one, ids);
    }
  }

  lemma FedMore(store: map<NodeId, RoomObject>, out: seq<RoomObject>, more: seq<RoomObject>)
    requires |more| <= 1
    ensures Fed(store, out + more) == Fed(Fed(store, out), more)
  {
    if more == [] { assert out + more == out; }
    else { assert (out + more)[..|out|] == out && more[..0] == []; }
  }

  /** The store holds a different object with this one's id and fingerprint. */
  predicate Collides(hash: RoomObject -> int, store: map<NodeId, RoomObject>, o: RoomObject) {
    o.objectId in store && store[o.objectId] != o && hash(store[o.objectId]) == hash(o)
  }

  ghost predicate SameAfter(seen: map<nat, int>, hash: RoomObject -> int, store: map<NodeId, RoomObject>, objects: seq<RoomObject>) {
    Fed(store, Changed(seen, hash, objects)) == Fed(store, objects)
  }

  ghost predicate AlwaysSame(seen: map<nat, int>, hash: RoomObject -> int, store: map<NodeId, RoomObject>, objects: seq<RoomObject>) {
    forall i | 0 <= i <= |objects| :: SameAfter(seen, hash, store, objects[..i])
  }

  ghost predicate NeverCollides(hash: RoomObject -> int, store: map<NodeId, RoomObject>, objects: seq<RoomObject>) {
    forall i | 0 <= i < |objects| :: !CollidesAt(hash, store, objects, i)
  }

  ghost predicate CollidesAt(hash: RoomObject -> int, store: map<NodeId, RoomObject>, objects: seq<RoomObject>, i: nat)
    requires i < |objects|
  {
    Collides(hash, Fed(store, objects[..i]), objects[i])
  }

  /** When no ids share a key, both consumers hold the very same objects after every object exactly when no
      object ever replaces a different one with its fingerprint. */
  lemma {:induction false} DeltaExactIff(seen: map<nat, int>, hash: RoomObject -> int, store: map<NodeId, RoomObject>,
                                         objects: seq<RoomObject>, ids: set<NodeId>)
    requires Remembers(seen, hash, store) && Injective(ids) && store.Keys <= ids && IdsIn(objects, ids)
    ensures AlwaysSame(seen, hash, store, objects) <==> NeverCollides(hash, store, objects)
    decreases |objects|
  {
    hide SameAfter, CollidesAt, Remembers, AlwaysSame, NeverCollides, Injective;
    var n := |objects|;
    AlwaysSnoc(seen, hash, store, objects);
    if n > 0 {
      DeltaExactIff(seen, hash, store, objects[..n - 1], ids);
      if SameAfter(seen, hash, store, objects[..n - 1]) { SameNext(seen, hash, store, objects, ids); }
    }
  }

  lemma AlwaysSnoc(seen: map<nat, int>, hash: RoomObject -> int, store: map<NodeId, RoomObject>, objects: seq<RoomObject>)
    ensures var n := |objects|;
            if n == 0 then AlwaysSame(seen, hash, store, objects) && NeverCollides(hash, store, objects)
            else
              && (AlwaysSame(seen, hash, store, objects) <==>
                  AlwaysSame(seen, hash, store, objects[..n - 1]) && SameAfter(seen, hash, store, objects))
              && (AlwaysSame(seen, hash, store, objects[..n - 1]) ==> SameAfter(seen, hash, store, objects[..n - 1]))
              && (NeverCollides(hash, store, objects) <==>
                  NeverCollides(hash, store, objects[..n - 1]) && !CollidesAt(hash, store, objects, n - 1))
  {
    hide SameAfter, CollidesAt;
    var n := |objects|;
    if n == 0 {
      SameAtFirst(seen, hash, store, objects[..0]);
    } else {
      var before := objects[..n - 1];
      assert objects[..n] == objects && before[..n - 1] == before;
      forall i | 0 <= i <= n - 1 ensures objects[..i] == before[..i] {}
      forall i | 0 <= i < n - 1 ensures CollidesAt(hash, store, objects, i) == CollidesAt(hash, store, before, i) {
        CollidesPrefix(hash, store, objects, i);
      }
      assert AlwaysSame(seen, hash, store, before) ==> SameAfter(seen, hash, store, before[..n - 1]);
      assert AlwaysSame(seen, hash, store, objects) ==> SameAfter(seen, hash, store, objects[..n]);
    }
  }

  lemma CollidesPrefix(hash: RoomObject -> int, store: map<NodeId, RoomObject>, objects: seq<RoomObject>, i: nat)
    requires i < |objects| - 1
    ensures CollidesAt(hash, store, objects, i) == CollidesAt(hash, store, objects[..|objects| - 1], i)
  {
    assert objects[..|objects| - 1][..i] == objects[..i];
  }

  lemma SameAtFirst(seen: map<nat, int>, hash: RoomObject -> int, store: map<NodeId, RoomObject>, objects: seq<RoomObject>)
    requires objects == []
    ensures SameAfter(seen, hash, store, objects)
  {
  }

  lemma SameNext(seen: map<nat, int>, hash: RoomObject -> int, store: map<NodeId, RoomObject>, objects: seq<RoomObject>,
                 ids: set<NodeId>)
    requires Remembers(seen, hash, store) && Injective(ids) && store.Keys <= ids && IdsIn(objects, ids)
    requires objects != [] && SameAfter(seen, hash, store, objects[..|objects| - 1])
    ensures SameAfter(seen, hash, store, objects) <==> !CollidesAt(hash, store, objects, |objects| - 1)
  {
    hide NodeKey, Remembers, Upserted, Collides, CollidesAt;
    var o, before := objects[|objects| - 1], objects[..|objects| - 1];
    var now, held := Upserted(seen, hash, before), Fed(store, before);
    DeltaSuffices(seen, hash, store, store, before, ids);
    KnownIff(now, hash, held, o, ids);
    FedMore(store, Changed(seen, hash, before), Reported(now, hash, o));
    FedOne(now, hash, held, o);
    CollidesMeans(hash, store, objects);
  }

  lemma CollidesMeans(hash: RoomObject -> int, store: map<NodeId, RoomObject>, objects: seq<RoomObject>)
    requires objects != []
    ensures var n := |objects| - 1; CollidesAt(hash, store, objects, n) == Collides(hash, Fed(store, objects[..n]), objects[n])
  {
  }

  /** A store told of o only if it is reported equals one always told of it, unless a different object with
      its fingerprint stands there. */
  lemma FedOne(now: map<nat, int>, hash: RoomObject -> int, held: map<NodeId, RoomObject>, o: RoomObject)
    requires Reported(now, hash, o) == [] <==> o.objectId in held && hash(held[o.objectId]) == hash(o)
    ensures Fed(held, Reported(now, hash, o)) == held[o.objectId := o] <==> !Collides(hash, held, o)
  {
    hide NodeKey;
    var next := held[o.objectId := o];
    assert Fed(held, []) == held;
    if Reported(now, hash, o) == [] {
      if held[o.objectId] == o { assert next == held; } else { assert next[o.objectId] != held[o.objectId]; }
    } else {
      assert [o][..0] == [] && Fed(held, [o]) == next;
    }
  }

  /** Reporting frame by frame reports what one long frame would. */
  lemma {:induction false} FramesReport(seen: map<nat, int>, hash: RoomObject -> int, first: seq<RoomObject>, second: seq<RoomObject>)
    ensures Upserted(seen, hash, first + second) == Upserted(Upserted(seen, hash, first), hash, second)
    ensures Changed(seen, hash, first + second) ==
            Changed(seen, hash, first) + Changed(Upserted(seen, hash, first), hash, second)
    decreases |second|
  {
    hide Upserted, Changed;
    ReportNone(Upserted(seen, hash, first), hash);
    if second == [] {
      assert second == [] && first + second == first;
    } else {
      var n := |second| - 1;
      FramesReport(seen, hash, first, second[..n]);
      assert (first + second) == first + second[..n] + [second[n]] && second[..n] + [second[n]] == second;
      ReportSnoc(seen, hash, first + second[..n], second[n]);
      ReportSnoc(Upserted(seen, hash, first), hash, second[..n], second[n]);
    }
  }

  lemma ReportNone(seen: map<nat, int>, hash: RoomObject -> int)
    ensures Upserted(seen, hash, []) == seen && Changed(seen, hash, []) == []
  {
  }

  lemma ReportSnoc(seen: map<nat, int>, hash: RoomObject -> int, before: seq<RoomObject>, o: RoomObject)
    ensures Upserted(seen, hash, before + [o]) == Upserted(seen, hash, before)[NodeKey(o.objectId) := hash(o)]
    ensures Changed(seen, hash, before + [o]) == Changed(seen, hash, before) + Reported(Upserted(seen, hash, before), hash, o)
  {
    assert (before + [o])[..|before|] == before;
  }

  /** Every object agrees with what the store holds under its id. */
  ghost predicate UpToDate(seen: map<nat, int>, hash: RoomObject -> int, objects: seq<RoomObject>) {
    forall o | o in objects :: Holds(seen, NodeKey(o.objectId), hash(o))
  }

  /** Nothing is reported exactly when the store is already up to date. */
  lemma {:induction false} QuietIffUpToDate(seen: map<nat, int>, hash: RoomObject -> int, objects: seq<RoomObject>)
    ensures Changed(seen, hash, objects) == [] <==> UpToDate(seen, hash, objects)
    ensures UpToDate(seen, hash, objects) ==> Upserted(seen, hash, objects) == seen
    decreases |objects|
  {
    hide UpToDate;
    UpToDateNone(seen, hash);
    if objects != [] {
      var o, before := objects[|objects| - 1], objects[..|objects| - 1];
      QuietIffUpToDate(seen, hash, before);
      UpToDateSnoc(seen, hash, before, o);
      assert objects == before + [o];
      if UpToDate(seen, hash, objects) { assert seen[NodeKey(o.objectId) := hash(o)] == seen; }
    }
  }

  lemma UpToDateNone(seen: map<nat, int>, hash: RoomObject -> int)
    ensures UpToDate(seen, hash, [])
  {
  }

  lemma UpToDateSnoc(seen: map<nat, int>, hash: RoomObject -> int, objects: seq<RoomObject>, o: RoomObject)
    ensures UpToDate(seen, hash, objects + [o]) <==>
            UpToDate(seen, hash, objects) && Holds(seen, NodeKey(o.objectId), hash(o))
  {
    assert o in objects + [o];
    assert forall q :: q in objects + [o] <==> q in objects || q == o;
  }

  /** A frame with one fingerprint per id, sent twice, is silent the second time. */
  lemma {:induction false} RepeatIsSilent(seen: map<nat, int>, hash: RoomObject -> int, objects: seq<RoomObject>)
    requires forall o, q | o in objects && q in objects && NodeKey(o.objectId) == NodeKey(q.objectId) :: hash(o) == hash(q)
    ensures Changed(Upserted(seen, hash, objects), hash, objects) == []
  {
    UpsertedHolds(seen, hash, objects);
    QuietIffUpToDate(Upserted(seen, hash, objects), hash, objects);
  }

  lemma {:induction false} UpsertedHolds(seen: map<nat, int>, hash: RoomObject -> int, objects: seq<RoomObject>)
    requires forall o, q | o in objects && q in objects && NodeKey(o.objectId) == NodeKey(q.objectId) :: hash(o) == hash(q)
    ensures UpToDate(Upserted(seen, hash, objects), hash, objects)
    decreases |objects|
  {
    if objects != [] {
      var o, before := objects[|objects| - 1], objects[..|objects| - 1];
      assert objects == before + [o];
      UpsertedHolds(seen, hash, before);
    }
  }
}
