/** Which keys the visualizer's messages hold, and what stands under each. */
module VizLaws {
  import opened Basics
  import opened MsgPack
  import opened Viz
  import opened VizMessages

  /** Some entry has this key, in ASCII, and this value. */
  ghost predicate Says(fields: seq<Entry>, key: string, v: Item) {
    exists i :: 0 <= i < |fields| && IsKey(fields[i].key, key) && fields[i].val == v
  }

  ghost predicate IsKey(k: Item, key: string) {
    k.OfStr? && |k.s| == |key| && forall i | 0 <= i < |key| :: k.s[i] == key[i] as int % 256
  }

  lemma FieldSays(fields: seq<Entry>, i: int, key: string, v: Item)
    requires 0 <= i < |fields| && fields[i] == Field(key, v)
    ensures Says(fields, key, v)
  {
    assert IsKey(fields[i].key, key);
  }

  /** An array of numbers: flag, shape, element type and raw bytes. */
  lemma NdarraySays(dtype: string, shape: seq<U32>, data: seq<Byte>)
    ensures Ndarray(dtype, shape, data).OfMap? && |Ndarray(dtype, shape, data).pairs| == 4
    ensures var fields := Ndarray(dtype, shape, data).pairs;
            && Says(fields, "__ndarray__", OfBool(true)) && Says(fields, "dtype", OfStr(Text(dtype))) && Says(fields, "data", OfBin(data))
            && exists items :: Says(fields, "shape", OfArr(items)) && |items| == |shape|
                               && forall i | 0 <= i < |shape| :: items[i] == OfUInt(shape[i])
  {
    hide Says, Text;
    var fields := Ndarray(dtype, shape, data).pairs;
    FieldSays(fields, 0, "__ndarray__", OfBool(true));
    FieldSays(fields, 1, "shape", OfArr(Shape(shape)));
    FieldSays(fields, 2, "dtype", OfStr(Text(dtype)));
    FieldSays(fields, 3, "data", OfBin(data));
  }

  /** An entity: id, class, name, centroid and its live points; kind and text if it has them. */
  lemma EntitySays(c: Cloud, e: Entity, text: Option<seq<Byte>>)
    requires CloudOk(c)
    ensures var (fields, xyz) := (EntityFields(c, e, text), Coordinates(c, e.points));
            && |fields| == 5 + Count(e.kind.Some?) + Count(text.Some?)
            && Says(fields, "id", OfInt(e.id)) && Says(fields, "class_id", OfInt(e.classId)) && Says(fields, "name", OfStr(e.name))
            && (e.kind.Some? ==> Says(fields, "kind", OfInt(e.kind.v))) && (text.Some? ==> Says(fields, "text", OfStr(text.v)))
            && Says(fields, "centroid", Ndarray("<f4", [3], e.centroid))
            && Says(fields, "points", Ndarray("<f4", [ToU32(|xyz| / 12), 3], xyz))
  {
    hide Says, Ndarray, Text, Coordinates, ToU32;
    var fields, xyz := EntityFields(c, e, text), Coordinates(c, e.points);
    FieldSays(fields, 0, "id", OfInt(e.id));
    FieldSays(fields, 1, "class_id", OfInt(e.classId));
    FieldSays(fields, 2, "name", OfStr(e.name));
    if e.kind.Some? { FieldSays(fields, 3, "kind", OfInt(e.kind.v)); }
    var t := 3 + Count(e.kind.Some?);
    if text.Some? { FieldSays(fields, t, "text", OfStr(text.v)); }
    var u := t + Count(text.Some?);
    FieldSays(fields, u, "centroid", Ndarray("<f4", [3], e.centroid));
    FieldSays(fields, u + 1, "points", Ndarray("<f4", [ToU32(|xyz| / 12), 3], xyz));
  }

  /** The fields every frame has. */
  lemma HeadSays(fr: Frame)
    ensures var fields := HeadFields(fr);
            && |fields| == 6 && Says(fields, "type", OfStr(Text("frame"))) && Says(fields, "idx", OfUInt(fr.idx % WORD))
            && Says(fields, "capture_secs", OfF64(fr.captureSecs)) && Says(fields, "robot_pose", Ndarray("<f4", [16], fr.pose))
            && Says(fields, "robot", Ndarray("<f4", [3], fr.robot)) && Says(fields, "cam", OfMap(CameraFields(fr.cam)))
  {
    hide Says, Ndarray, Text, CameraFields;
    var fields := HeadFields(fr);
    FieldSays(fields, 0, "type", OfStr(Text("frame")));
    FieldSays(fields, 1, "idx", OfUInt(fr.idx % WORD));
    FieldSays(fields, 2, "capture_secs", OfF64(fr.captureSecs));
    FieldSays(fields, 3, "robot_pose", Ndarray("<f4", [16], fr.pose));
    FieldSays(fields, 4, "robot", Ndarray("<f4", [3], fr.robot));
    FieldSays(fields, 5, "cam", OfMap(CameraFields(fr.cam)));
  }

  lemma CameraSays(cam: Camera)
    ensures var fields := CameraFields(cam);
            && |fields| == 4 && Says(fields, "K", Ndarray("<f4", [9], cam.k)) && Says(fields, "T", Ndarray("<f4", [16], cam.t))
            && Says(fields, "w", OfUInt(cam.w)) && Says(fields, "h", OfUInt(cam.h))
  {
    hide Says, Ndarray;
    var fields := CameraFields(cam);
    FieldSays(fields, 0, "K", Ndarray("<f4", [9], cam.k));
    FieldSays(fields, 1, "T", Ndarray("<f4", [16], cam.t));
    FieldSays(fields, 2, "w", OfUInt(cam.w));
    FieldSays(fields, 3, "h", OfUInt(cam.h));
  }

  /** The segmentation: labels by row and column, ids too when there is one for every pixel. */
  lemma SegSays(seg: Seg)
    ensures var fields := SegFields(seg);
            && Says(fields, "label_map", Ndarray("<i2", [seg.h, seg.w], seg.labels))
            && if |seg.ids| == 2 * (seg.h * seg.w) then |fields| == 2 && Says(fields, "id_map", Ndarray("<i2", [seg.h, seg.w], seg.ids))
               else |fields| == 1
  {
    hide Says, Ndarray;
    var fields := SegFields(seg);
    FieldSays(fields, 0, "label_map", Ndarray("<i2", [seg.h, seg.w], seg.labels));
    if HasIds(seg) { FieldSays(fields, 1, "id_map", Ndarray("<i2", [seg.h, seg.w], seg.ids)); }
  }

  /** The parts a frame has only when there is something to show. */
  lemma PartsSay(c: Cloud, fr: Frame)
    requires CloudOk(c)
    ensures fr.image.Some? ==>
              Says(FrameFields(c, fr), "image", Ndarray("|u1", [fr.image.v.h, fr.image.v.w, 3], fr.image.v.rgb))
    ensures fr.seg.Some? ==> Says(FrameFields(c, fr), "seg", OfMap(SegFields(fr.seg.v)))
    ensures fr.objects.Some? ==> Says(FrameFields(c, fr), "objects", OfArr(Entities(c, fr.objects.v, fr.texts)))
    ensures fr.proposals.Some? ==> Says(FrameFields(c, fr), "proposals", OfArr(Entities(c, fr.proposals.v, map[])))
    ensures fr.superpoints.Some? ==> Says(FrameFields(c, fr), "superpoints", OfArr(Entities(c, fr.superpoints.v, map[])))
  {
    hide Says, Ndarray, HeadFields, SegFields, Entities;
    var h, i, s := HeadFields(fr), ImageFields(fr.image), SegField(fr.seg);
    var o := EntitiesField("objects", c, fr.objects, fr.texts);
    var p, q := EntitiesField("proposals", c, fr.proposals, map[]), EntitiesField("superpoints", c, fr.superpoints, map[]);
    if fr.image.Some? { PartSays(h, i, s + o + p + q, "image", Ndarray("|u1", [fr.image.v.h, fr.image.v.w, 3], fr.image.v.rgb)); }
    if fr.seg.Some? { PartSays(h + i, s, o + p + q, "seg", OfMap(SegFields(fr.seg.v))); }
    if fr.objects.Some? { PartSays(h + i + s, o, p + q, "objects", OfArr(Entities(c, fr.objects.v, fr.texts))); }
    if fr.proposals.Some? { PartSays(h + i + s + o, p, q, "proposals", OfArr(Entities(c, fr.proposals.v, map[]))); }
    if fr.superpoints.Some? { PartSays(h + i + s + o + p, q, [], "superpoints", OfArr(Entities(c, fr.superpoints.v, map[]))); }
    assert FrameFields(c, fr) == h + i + (s + o + p + q) == h + i + s + (o + p + q) == h + i + s + o + (p + q)
           == h + i + s + o + p + q == h + i + s + o + p + q + [];
  }

  lemma PartSays(before: seq<Entry>, part: seq<Entry>, after: seq<Entry>, key: string, v: Item)
    requires part == [Field(key, v)]
    ensures Says(before + part + after, key, v)
  {
    FieldSays(before + part + after, |before|, key, v);
  }

  /** A text goes with an object exactly when there is a non-empty one for its id. */
  lemma TextSays(texts: map<int, seq<Byte>>, id: int)
    ensures TextFor(texts, id).Some? <==> id in texts && texts[id] != []
    ensures TextFor(texts, id).Some? ==> TextFor(texts, id).v == texts[id]
  {
  }

  /** The opening message: classes by id, the segmentation's own vocabulary, and how to overlay it. */
  lemma BeginSays(classes: seq<Class>, vocab: seq<seq<Byte>>, seg: SegConfig)
    ensures var fields := BeginFields(classes, vocab, seg);
            && |fields| == 6 && Says(fields, "type", OfStr(Text("begin"))) && Says(fields, "seg_overlay", OfStr(seg.overlay))
            && Says(fields, "seg_alpha", OfF64(seg.alpha)) && Says(fields, "seg_min_area", OfInt(seg.minArea))
            && Says(fields, "classes", OfArr(ClassItems(classes))) && Says(fields, "seg_vocab", OfArr(Names(vocab)))
  {
    hide Says, Text, ClassItems, Names;
    var fields := BeginFields(classes, vocab, seg);
    FieldSays(fields, 0, "type", OfStr(Text("begin")));
    FieldSays(fields, 1, "classes", OfArr(ClassItems(classes)));
    FieldSays(fields, 2, "seg_vocab", OfArr(Names(vocab)));
    FieldSays(fields, 3, "seg_overlay", OfStr(seg.overlay));
    FieldSays(fields, 4, "seg_alpha", OfF64(seg.alpha));
    FieldSays(fields, 5, "seg_min_area", OfInt(seg.minArea));
  }

  lemma ClassSays(id: nat, k: Class)
    ensures ClassItem(id, k).OfMap? && |ClassItem(id, k).pairs| == 3
    ensures Says(ClassItem(id, k).pairs, "id", OfUInt(id % WORD)) && Says(ClassItem(id, k).pairs, "name", OfStr(k.name))
    ensures Says(ClassItem(id, k).pairs, "kind", OfUInt(k.kind))
  {
    hide Says;
    var fields := ClassItem(id, k).pairs;
    FieldSays(fields, 0, "id", OfUInt(id % WORD));
    FieldSays(fields, 1, "name", OfStr(k.name));
    FieldSays(fields, 2, "kind", OfUInt(k.kind));
  }

  // ---------- the closing message ----------

  /** The live indices below n, in order. */
  ghost function LiveOnes(c: Cloud, n: nat): (r: seq<int>)
    requires CloudOk(c) && n <= |c.xyz|
    ensures forall j | 0 <= j < |r| :: 0 <= r[j] < n && c.alive[r[j]]
  {
    if n == 0 then [] else LiveOnes(c, n - 1) + if c.alive[n - 1] then [n - 1] else []
  }

  /** Every live index is listed once, by rising index. */
  lemma {:induction false} LiveOnesAre(c: Cloud, n: nat)
    requires CloudOk(c) && n <= |c.xyz|
    ensures forall i :: i in LiveOnes(c, n) <==> 0 <= i < n && c.alive[i]
    ensures forall j, k | 0 <= j < k < |LiveOnes(c, n)| :: LiveOnes(c, n)[j] < LiveOnes(c, n)[k]
    decreases n
  {
    if n > 0 { LiveOnesAre(c, n - 1); }
  }

  /** The position of the j-th live point stands j-th. */
  lemma {:induction false} PositionAt(c: Cloud, n: nat, j: nat)
    requires CloudOk(c) && n <= |c.xyz| && j < |LiveOnes(c, n)|
    ensures 12 * j + 12 <= |LivePos(c, n)| && LivePos(c, n)[12 * j..12 * j + 12] == c.xyz[LiveOnes(c, n)[j]]
    decreases n
  {
    CountLive(c, n - 1);
    if j < |LiveOnes(c, n - 1)| {
      PositionAt(c, n - 1, j);
      assert LivePos(c, n)[12 * j..12 * j + 12] == LivePos(c, n - 1)[12 * j..12 * j + 12];
    }
  }

  /** Its class stands j-th as two bytes, the lower first, in two's complement. */
  lemma {:induction false} ClassAt(c: Cloud, n: nat, j: nat)
    requires CloudOk(c) && n <= |c.xyz| && j < |LiveOnes(c, n)|
    ensures 2 * j + 2 <= |LiveClasses(c, n)| && IsSample(LiveClasses(c, n)[2 * j], LiveClasses(c, n)[2 * j + 1], c.classId[LiveOnes(c, n)[j]])
    decreases n
  {
    hide Sample, IsSample;
    CountLive(c, n - 1);
    SampleIs(c.classId[n - 1]);
    if j < |LiveOnes(c, n - 1)| { ClassAt(c, n - 1, j); }
  }

  /** Its kind stands j-th. */
  lemma {:induction false} KindAt(c: Cloud, n: nat, j: nat)
    requires CloudOk(c) && n <= |c.xyz| && j < |LiveOnes(c, n)|
    ensures j < |LiveKinds(c, n)| && LiveKinds(c, n)[j] == c.kind[LiveOnes(c, n)[j]]
    decreases n
  {
    CountLive(c, n - 1);
    if j < |LiveOnes(c, n - 1)| { KindAt(c, n - 1, j); }
  }

  lemma {:induction false} CountLive(c: Cloud, n: nat)
    requires CloudOk(c) && n <= |c.xyz|
    ensures |LiveOnes(c, n)| == LiveCount(c, n)
    decreases n
  {
    if n > 0 { CountLive(c, n - 1); }
  }

  ghost predicate IsSample(lo: Byte, hi: Byte, x: int) { (lo + 256 * hi - x) % 0x10000 == 0 }

  lemma SampleIs(x: int)
    ensures |Sample(x)| == 2 && IsSample(Sample(x)[0], Sample(x)[1], x)
  {
  }

  lemma FinishSays(c: Cloud)
    requires CloudOk(c)
    ensures var (fields, n, live) := (FinishFields(c), |c.xyz|, LiveCount(c, |c.xyz|));
            && |fields| == 4 && Says(fields, "type", OfStr(Text("finish")))
            && Says(fields, "positions", Ndarray("<f4", [live % LIMIT, 3], LivePos(c, n)))
            && Says(fields, "class_ids", Ndarray("<i2", [live % LIMIT], LiveClasses(c, n)))
            && Says(fields, "kinds", Ndarray("|i1", [live % LIMIT], LiveKinds(c, n)))
  {
    hide Says, Ndarray, Text, LivePos, LiveClasses, LiveKinds, LiveCount;
    var fields, n, live := FinishFields(c), |c.xyz|, LiveCount(c, |c.xyz|);
    FieldSays(fields, 0, "type", OfStr(Text("finish")));
    FieldSays(fields, 1, "positions", Ndarray("<f4", [live % LIMIT, 3], LivePos(c, n)));
    FieldSays(fields, 2, "class_ids", Ndarray("<i2", [live % LIMIT], LiveClasses(c, n)));
    FieldSays(fields, 3, "kinds", Ndarray("|i1", [live % LIMIT], LiveKinds(c, n)));
  }
}
