/** The three messages of the visualizer stream. */
module VizMessages {
  import opened Basics
  import opened MsgPack
  import opened MsgPackIO
  import opened MsgPackLaws
  import opened Viz

  // ---------- inputs ----------

  type I32 = x: int | -0x8000_0000 <= x < 0x8000_0000

  datatype Class = Class(name: seq<Byte>, kind: Byte)

  datatype SegConfig = SegConfig(overlay: seq<Byte>, alpha: U64, minArea: I32)

  datatype Image = Image(h: U32, w: U32, rgb: seq<Byte>)

  /** Label and id maps as raw two-byte samples. */
  datatype Seg = Seg(h: U32, w: U32, labels: seq<Byte>, ids: seq<Byte>)

  datatype Camera = Camera(k: seq<Byte>, t: seq<Byte>, w: U64, h: U64)

  datatype Entity = Entity(id: I32, classId: I32, name: seq<Byte>, kind: Option<I32>, centroid: seq<Byte>, points: seq<int>)

  /** The map: twelve bytes of coordinates per point, liveness, class and kind. */
  datatype Cloud = Cloud(xyz: seq<seq<Byte>>, alive: seq<bool>, classId: seq<int>, kind: seq<Byte>)

  ghost predicate CloudOk(c: Cloud) {
    |c.alive| == |c.xyz| == |c.classId| == |c.kind| && forall i | 0 <= i < |c.xyz| :: |c.xyz[i]| == 12
  }

  datatype Frame = Frame(idx: int, captureSecs: U64, pose: seq<Byte>, robot: seq<Byte>, cam: Camera, image: Option<Image>,
                         seg: Option<Seg>, objects: Option<seq<Entity>>, proposals: Option<seq<Entity>>,
                         superpoints: Option<seq<Entity>>, texts: map<int, seq<Byte>>)

  /** A C++ int or size cast to an unsigned width. */
  function ToU64(x: int): U64 { x % WORD }

  function ToU32(x: int): U32 { x % LIMIT }

  function Count(b: bool): nat { if b then 1 else 0 }

  // ---------- points of an entity ----------

  predicate Shown(c: Cloud, i: int)
    requires CloudOk(c)
  {
    0 <= i < |c.xyz| && c.alive[i]
  }

  /** Coordinates of the live, in-range points, in list order. */
  function Coordinates(c: Cloud, idxs: seq<int>): (r: seq<Byte>)
    requires CloudOk(c)
    ensures |r| % 12 == 0
  {
    if idxs == [] then []
    else var i := idxs[|idxs| - 1];
         Coordinates(c, idxs[..|idxs| - 1]) + if Shown(c, i) then c.xyz[i] else []
  }

  method GatherXYZ(c: Cloud, idxs: seq<int>) returns (out: seq<Byte>)
    requires CloudOk(c)
    ensures out == Coordinates(c, idxs)
  {
    out := [];
    for k := 0 to |idxs|
      invariant out == Coordinates(c, idxs[..k])
    {
      var i := idxs[k];
      assert idxs[..k + 1][..k] == idxs[..k];
      if i < 0 || i >= |c.xyz| || !c.alive[i] { continue; }
      out := out + c.xyz[i];
    }
    assert idxs[..|idxs|] == idxs;
  }

  // ---------- entities ----------

  function EntityFields(c: Cloud, e: Entity, text: Option<seq<Byte>>): seq<Entry>
    requires CloudOk(c)
  {
    [Field("id", OfInt(e.id)), Field("class_id", OfInt(e.classId)), Field("name", OfStr(e.name))]
    + (if e.kind.Some? then [Field("kind", OfInt(e.kind.v))] else [])
    + (if text.Some? then [Field("text", OfStr(text.v))] else [])
    + [Field("centroid", Ndarray("<f4", [3], e.centroid)),
       Field("points", Ndarray("<f4", [ToU32(|Coordinates(c, e.points)| / 12), 3], Coordinates(c, e.points)))]
  }

  function EntityItem(c: Cloud, e: Entity, text: Option<seq<Byte>>): Item
    requires CloudOk(c)
  {
    OfMap(EntityFields(c, e, text))
  }

  method PackEntity(p: Packer, c: Cloud, e: Entity, text: Option<seq<Byte>>)
    requires CloudOk(c)
    modifies p
    ensures p.buf == old(p.buf) + Encode(EntityItem(c, e, text))
  {
    hide Encode, InMap, Ndarray, Coordinates;
    ghost var start := p.buf;
    var n := 5 + Count(e.kind.Some?) + Count(text.Some?);
    OpenMap(p, n);
    ghost var f: seq<Entry> := [];
    FieldInt(p, "id", e.id, start, n, f);
    f := f + [Field("id", OfInt(e.id))];
    FieldInt(p, "class_id", e.classId, start, n, f);
    f := f + [Field("class_id", OfInt(e.classId))];
    FieldStr(p, "name", e.name, start, n, f);
    f := f + [Field("name", OfStr(e.name))];
    if e.kind.Some? {
      FieldInt(p, "kind", e.kind.v, start, n, f);
      f := f + [Field("kind", OfInt(e.kind.v))];
    }
    if text.Some? {
      FieldStr(p, "text", text.v, start, n, f);
      f := f + [Field("text", OfStr(text.v))];
    }
    FieldNdarray(p, "centroid", "<f4", [3], e.centroid, start, n, f);
    f := f + [Field("centroid", Ndarray("<f4", [3], e.centroid))];
    var xyz := GatherXYZ(c, e.points);
    FieldNdarray(p, "points", "<f4", [ToU32(|xyz| / 12), 3], xyz, start, n, f);
    f := f + [Field("points", Ndarray("<f4", [ToU32(|xyz| / 12), 3], xyz))];
    assert f == EntityFields(c, e, text);
    MapDone(p.buf, start, f);
  }

  /** The text shown for an entity: a non-empty one registered under its id. */
  function TextFor(texts: map<int, seq<Byte>>, id: int): Option<seq<Byte>> {
    if id in texts && texts[id] != [] then Some(texts[id]) else None
  }

  function Entities(c: Cloud, es: seq<Entity>, texts: map<int, seq<Byte>>): (r: seq<Item>)
    requires CloudOk(c)
    ensures |r| == |es| && forall i | 0 <= i < |r| :: r[i] == EntityItem(c, es[i], TextFor(texts, es[i].id))
  {
    seq(|es|, i requires 0 <= i < |es| => EntityItem(c, es[i], TextFor(texts, es[i].id)))
  }

  method PackEntities(p: Packer, c: Cloud, es: seq<Entity>, texts: map<int, seq<Byte>>)
    requires CloudOk(c)
    modifies p
    ensures p.buf == old(p.buf) + Encode(OfArr(Entities(c, es, texts)))
  {
    hide Encode, InArr, EntityItem, CloudOk;
    ghost var start := p.buf;
    OpenArr(p, ToU32(|es|));
    for i := 0 to |es|
      invariant InArr(p.buf, start, ToU32(|es|), Entities(c, es, texts)[..i])
    {
      var text := TextFor(texts, es[i].id);
      ArrMore(p.buf, start, ToU32(|es|), Entities(c, es, texts)[..i], EntityItem(c, es[i], text));
      assert Entities(c, es, texts)[..i + 1] == Entities(c, es, texts)[..i] + [EntityItem(c, es[i], text)];
      PackEntity(p, c, es[i], text);
    }
    assert Entities(c, es, texts)[..|es|] == Entities(c, es, texts);
    ArrDone(p.buf, start, ToU32(|es|), Entities(c, es, texts));
  }

  method FieldEntities(p: Packer, key: string, c: Cloud, es: seq<Entity>, texts: map<int, seq<Byte>>, ghost start: seq<Byte>,
                       ghost n: int, ghost f: seq<Entry>)
    requires CloudOk(c) && InMap(p.buf, start, n, f)
    modifies p
    ensures InMap(p.buf, start, n, f + [Field(key, OfArr(Entities(c, es, texts)))])
  {
    hide Encode, InMap, Entities, CloudOk;
    MapMore(p.buf, start, n, f, key, OfArr(Entities(c, es, texts)));
    p.PutStr(Text(key));
    PackEntities(p, c, es, texts);
  }

  // ---------- frame ----------

  function CameraFields(cam: Camera): seq<Entry> {
    [Field("K", Ndarray("<f4", [9], cam.k)), Field("T", Ndarray("<f4", [16], cam.t)),
     Field("w", OfUInt(cam.w)), Field("h", OfUInt(cam.h))]
  }

  method PackCamera(p: Packer, cam: Camera)
    modifies p
    ensures p.buf == old(p.buf) + Encode(OfMap(CameraFields(cam)))
  {
    hide Encode, InMap, Ndarray;
    ghost var start := p.buf;
    OpenMap(p, 4);
    ghost var f: seq<Entry> := [];
    FieldNdarray(p, "K", "<f4", [9], cam.k, start, 4, f);
    f := f + [Field("K", Ndarray("<f4", [9], cam.k))];
    FieldNdarray(p, "T", "<f4", [16], cam.t, start, 4, f);
    f := f + [Field("T", Ndarray("<f4", [16], cam.t))];
    FieldUInt(p, "w", cam.w, start, 4, f);
    f := f + [Field("w", OfUInt(cam.w))];
    FieldUInt(p, "h", cam.h, start, 4, f);
    f := f + [Field("h", OfUInt(cam.h))];
    assert f == CameraFields(cam);
    MapDone(p.buf, start, f);
  }

  /** The id map is sent only when it has one sample per pixel. */
  predicate HasIds(seg: Seg) { |seg.ids| == 2 * (seg.h * seg.w) }

  function SegFields(seg: Seg): seq<Entry> {
    [Field("label_map", Ndarray("<i2", [seg.h, seg.w], seg.labels))]
    + if HasIds(seg) then [Field("id_map", Ndarray("<i2", [seg.h, seg.w], seg.ids))] else []
  }

  method PackSeg(p: Packer, seg: Seg)
    modifies p
    ensures p.buf == old(p.buf) + Encode(OfMap(SegFields(seg)))
  {
    hide Encode, InMap, Ndarray;
    ghost var start := p.buf;
    var hasId := |seg.ids| == 2 * (seg.h * seg.w);
    var n := if hasId then 2 else 1;
    OpenMap(p, n);
    ghost var f: seq<Entry> := [];
    FieldNdarray(p, "label_map", "<i2", [seg.h, seg.w], seg.labels, start, n, f);
    f := f + [Field("label_map", Ndarray("<i2", [seg.h, seg.w], seg.labels))];
    if hasId {
      FieldNdarray(p, "id_map", "<i2", [seg.h, seg.w], seg.ids, start, n, f);
      f := f + [Field("id_map", Ndarray("<i2", [seg.h, seg.w], seg.ids))];
    }
    assert f == SegFields(seg);
    MapDone(p.buf, start, f);
  }

  function HeadFields(fr: Frame): seq<Entry> {
    [Field("type", OfStr(Text("frame"))), Field("idx", OfUInt(ToU64(fr.idx))), Field("capture_secs", OfF64(fr.captureSecs)),
     Field("robot_pose", Ndarray("<f4", [16], fr.pose)), Field("robot", Ndarray("<f4", [3], fr.robot)),
     Field("cam", OfMap(CameraFields(fr.cam)))]
  }

  function ImageFields(image: Option<Image>): seq<Entry> {
    if image.None? then []
    else [Field("image", Ndarray("|u1", [image.v.h, image.v.w, 3], image.v.rgb))]
  }

  function SegField(seg: Option<Seg>): seq<Entry> {
    if seg.None? then [] else [Field("seg", OfMap(SegFields(seg.v)))]
  }

  function EntitiesField(key: string, c: Cloud, es: Option<seq<Entity>>, texts: map<int, seq<Byte>>): seq<Entry>
    requires CloudOk(c)
  {
    if es.None? then [] else [Field(key, OfArr(Entities(c, es.v, texts)))]
  }

  function FrameFields(c: Cloud, fr: Frame): seq<Entry>
    requires CloudOk(c)
  {
    HeadFields(fr) + ImageFields(fr.image) + SegField(fr.seg) + EntitiesField("objects", c, fr.objects, fr.texts)
    + EntitiesField("proposals", c, fr.proposals, map[]) + EntitiesField("superpoints", c, fr.superpoints, map[])
  }

  method PackHead(p: Packer, fr: Frame, ghost start: seq<Byte>, ghost n: int)
    requires InMap(p.buf, start, n, [])
    modifies p
    ensures InMap(p.buf, start, n, HeadFields(fr))
  {
    hide Encode, InMap, Ndarray, CameraFields;
    ghost var f: seq<Entry> := [];
    FieldStr(p, "type", Text("frame"), start, n, f);
    f := f + [Field("type", OfStr(Text("frame")))];
    FieldUInt(p, "idx", ToU64(fr.idx), start, n, f);
    f := f + [Field("idx", OfUInt(ToU64(fr.idx)))];
    FieldF64(p, "capture_secs", fr.captureSecs, start, n, f);
    f := f + [Field("capture_secs", OfF64(fr.captureSecs))];
    FieldNdarray(p, "robot_pose", "<f4", [16], fr.pose, start, n, f);
    f := f + [Field("robot_pose", Ndarray("<f4", [16], fr.pose))];
    FieldNdarray(p, "robot", "<f4", [3], fr.robot, start, n, f);
    f := f + [Field("robot", Ndarray("<f4", [3], fr.robot))];
    MapMore(p.buf, start, n, f, "cam", OfMap(CameraFields(fr.cam)));
    p.PutStr(Text("cam"));
    PackCamera(p, fr.cam);
    f := f + [Field("cam", OfMap(CameraFields(fr.cam)))];
    assert f == HeadFields(fr);
  }

  method PackImageSeg(p: Packer, fr: Frame, ghost start: seq<Byte>, ghost n: int, ghost f: seq<Entry>)
    requires InMap(p.buf, start, n, f)
    modifies p
    ensures InMap(p.buf, start, n, f + ImageFields(fr.image) + SegField(fr.seg))
  {
    hide Encode, InMap, Ndarray, SegFields;
    ghost var g := f;
    if fr.image.Some? {
      var i := fr.image.v;
      FieldNdarray(p, "image", "|u1", [i.h, i.w, 3], i.rgb, start, n, g);
      g := g + [Field("image", Ndarray("|u1", [i.h, i.w, 3], i.rgb))];
    }
    assert g == f + ImageFields(fr.image);
    if fr.seg.Some? {
      MapMore(p.buf, start, n, g, "seg", OfMap(SegFields(fr.seg.v)));
      p.PutStr(Text("seg"));
      PackSeg(p, fr.seg.v);
      g := g + [Field("seg", OfMap(SegFields(fr.seg.v)))];
    }
    assert g == f + ImageFields(fr.image) + SegField(fr.seg);
  }

  method PackOptional(p: Packer, key: string, c: Cloud, es: Option<seq<Entity>>, texts: map<int, seq<Byte>>,
                      ghost start: seq<Byte>, ghost n: int, ghost f: seq<Entry>)
    requires CloudOk(c) && InMap(p.buf, start, n, f)
    modifies p
    ensures InMap(p.buf, start, n, f + EntitiesField(key, c, es, texts))
  {
    hide InMap, Entities, CloudOk;
    if es.Some? {
      FieldEntities(p, key, c, es.v, texts, start, n, f);
    } else {
      assert f + [] == f;
    }
  }

  /** One frame: a map whose declared count is six plus the optional parts present. */
  method SendFrame(active: bool, c: Cloud, fr: Frame) returns (sent: Option<seq<Byte>>)
    requires CloudOk(c)
    ensures sent == if active then Some(Encode(OfMap(FrameFields(c, fr)))) else None
  {
    hide Encode, InMap, HeadFields, ImageFields, SegField, EntitiesField, CloudOk;
    if !active { return None; }
    var p := new Packer();
    var nkeys := 6 + Count(fr.image.Some?) + Count(fr.seg.Some?) + Count(fr.objects.Some?)
                 + Count(fr.proposals.Some?) + Count(fr.superpoints.Some?);
    OpenMap(p, nkeys);
    ghost var start: seq<Byte> := [];
    PackHead(p, fr, start, nkeys);
    ghost var f := HeadFields(fr);
    PackImageSeg(p, fr, start, nkeys, f);
    f := f + ImageFields(fr.image) + SegField(fr.seg);
    PackOptional(p, "objects", c, fr.objects, fr.texts, start, nkeys, f);
    f := f + EntitiesField("objects", c, fr.objects, fr.texts);
    PackOptional(p, "proposals", c, fr.proposals, map[], start, nkeys, f);
    f := f + EntitiesField("proposals", c, fr.proposals, map[]);
    PackOptional(p, "superpoints", c, fr.superpoints, map[], start, nkeys, f);
    f := f + EntitiesField("superpoints", c, fr.superpoints, map[]);
    assert f == FrameFields(c, fr);
    FieldCounts(c, fr);
    MapDone(p.buf, start, f);
    assert start + Encode(OfMap(f)) == Encode(OfMap(f));
    sent := Some(p.buf);
  }

  /** The declared count is the number of entries, for every combination of optional parts. */
  lemma FieldCounts(c: Cloud, fr: Frame)
    requires CloudOk(c)
    ensures |FrameFields(c, fr)| == 6 + Count(fr.image.Some?) + Count(fr.seg.Some?) + Count(fr.objects.Some?)
                                    + Count(fr.proposals.Some?) + Count(fr.superpoints.Some?)
  {
    hide Entities, CameraFields, SegFields, Ndarray;
  }

  // ---------- begin ----------

  function ClassItem(id: nat, k: Class): Item {
    OfMap([Field("id", OfUInt(ToU64(id))), Field("name", OfStr(k.name)), Field("kind", OfUInt(k.kind))])
  }

  function ClassItems(classes: seq<Class>): (r: seq<Item>)
    ensures |r| == |classes| && forall i | 0 <= i < |r| :: r[i] == ClassItem(i, classes[i])
  {
    seq(|classes|, i requires 0 <= i < |classes| => ClassItem(i, classes[i]))
  }

  function Names(vocab: seq<seq<Byte>>): (r: seq<Item>)
    ensures |r| == |vocab| && forall i | 0 <= i < |r| :: r[i] == OfStr(vocab[i])
  {
    seq(|vocab|, i requires 0 <= i < |vocab| => OfStr(vocab[i]))
  }

  method PackClass(p: Packer, id: nat, k: Class)
    modifies p
    ensures p.buf == old(p.buf) + Encode(ClassItem(id, k))
  {
    hide Encode, InMap;
    ghost var start := p.buf;
    OpenMap(p, 3);
    ghost var f: seq<Entry> := [];
    FieldUInt(p, "id", ToU64(id), start, 3, f);
    f := f + [Field("id", OfUInt(ToU64(id)))];
    FieldStr(p, "name", k.name, start, 3, f);
    f := f + [Field("name", OfStr(k.name))];
    FieldUInt(p, "kind", k.kind, start, 3, f);
    f := f + [Field("kind", OfUInt(k.kind))];
    MapDone(p.buf, start, f);
    assert OfMap(f) == ClassItem(id, k);
  }

  method PackClasses(p: Packer, classes: seq<Class>)
    modifies p
    ensures p.buf == old(p.buf) + Encode(OfArr(ClassItems(classes)))
  {
    hide Encode, InArr, ClassItem;
    ghost var start := p.buf;
    OpenArr(p, ToU32(|classes|));
    for id := 0 to |classes|
      invariant InArr(p.buf, start, ToU32(|classes|), ClassItems(classes)[..id])
    {
      ArrMore(p.buf, start, ToU32(|classes|), ClassItems(classes)[..id], ClassItem(id, classes[id]));
      assert ClassItems(classes)[..id + 1] == ClassItems(classes)[..id] + [ClassItem(id, classes[id])];
      PackClass(p, id, classes[id]);
    }
    assert ClassItems(classes)[..|classes|] == ClassItems(classes);
    ArrDone(p.buf, start, ToU32(|classes|), ClassItems(classes));
  }

  method PackNames(p: Packer, vocab: seq<seq<Byte>>)
    modifies p
    ensures p.buf == old(p.buf) + Encode(OfArr(Names(vocab)))
  {
    hide Encode, InArr;
    ghost var start := p.buf;
    OpenArr(p, ToU32(|vocab|));
    for i := 0 to |vocab|
      invariant InArr(p.buf, start, ToU32(|vocab|), Names(vocab)[..i])
    {
      ArrMore(p.buf, start, ToU32(|vocab|), Names(vocab)[..i], OfStr(vocab[i]));
      assert Names(vocab)[..i + 1] == Names(vocab)[..i] + [OfStr(vocab[i])];
      p.PutStr(vocab[i]);
    }
    assert Names(vocab)[..|vocab|] == Names(vocab);
    ArrDone(p.buf, start, ToU32(|vocab|), Names(vocab));
  }

  function BeginFields(classes: seq<Class>, vocab: seq<seq<Byte>>, seg: SegConfig): seq<Entry> {
    [Field("type", OfStr(Text("begin"))), Field("classes", OfArr(ClassItems(classes))),
     Field("seg_vocab", OfArr(Names(vocab))), Field("seg_overlay", OfStr(seg.overlay)),
     Field("seg_alpha", OfF64(seg.alpha)), Field("seg_min_area", OfInt(seg.minArea))]
  }

  method SendBegin(active: bool, classes: seq<Class>, vocab: seq<seq<Byte>>, seg: SegConfig) returns (sent: Option<seq<Byte>>)
    ensures sent == if active then Some(Encode(OfMap(BeginFields(classes, vocab, seg)))) else None
  {
    hide Encode, InMap, ClassItems, Names;
    if !active { return None; }
    var p := new Packer();
    ghost var start: seq<Byte> := [];
    OpenMap(p, 6);
    ghost var f: seq<Entry> := [];
    FieldStr(p, "type", Text("begin"), start, 6, f);
    f := f + [Field("type", OfStr(Text("begin")))];
    MapMore(p.buf, start, 6, f, "classes", OfArr(ClassItems(classes)));
    p.PutStr(Text("classes"));
    PackClasses(p, classes);
    f := f + [Field("classes", OfArr(ClassItems(classes)))];
    MapMore(p.buf, start, 6, f, "seg_vocab", OfArr(Names(vocab)));
    p.PutStr(Text("seg_vocab"));
    PackNames(p, vocab);
    f := f + [Field("seg_vocab", OfArr(Names(vocab)))];
    FieldStr(p, "seg_overlay", seg.overlay, start, 6, f);
    f := f + [Field("seg_overlay", OfStr(seg.overlay))];
    FieldF64(p, "seg_alpha", seg.alpha, start, 6, f);
    f := f + [Field("seg_alpha", OfF64(seg.alpha))];
    FieldInt(p, "seg_min_area", seg.minArea, start, 6, f);
    f := f + [Field("seg_min_area", OfInt(seg.minArea))];
    assert f == BeginFields(classes, vocab, seg);
    MapDone(p.buf, start, f);
    assert start + Encode(OfMap(f)) == Encode(OfMap(f));
    sent := Some(p.buf);
  }

  // ---------- finish ----------

  /** A class id as a little-endian two-byte sample. */
  function Sample(x: int): seq<Byte> { [x % 256, x / 256 % 256] }

  /** Coordinates, class ids and kinds of the live points below n. */
  function LivePos(c: Cloud, n: nat): (r: seq<Byte>)
    requires CloudOk(c) && n <= |c.xyz|
    ensures |r| == 12 * LiveCount(c, n)
  {
    if n == 0 then [] else LivePos(c, n - 1) + if c.alive[n - 1] then c.xyz[n - 1] else []
  }

  function LiveClasses(c: Cloud, n: nat): (r: seq<Byte>)
    requires CloudOk(c) && n <= |c.xyz|
    ensures |r| == 2 * LiveCount(c, n)
  {
    if n == 0 then [] else LiveClasses(c, n - 1) + if c.alive[n - 1] then Sample(c.classId[n - 1]) else []
  }

  function LiveKinds(c: Cloud, n: nat): (r: seq<Byte>)
    requires CloudOk(c) && n <= |c.xyz|
    ensures |r| == LiveCount(c, n)
  {
    if n == 0 then [] else LiveKinds(c, n - 1) + if c.alive[n - 1] then [c.kind[n - 1]] else []
  }

  function LiveCount(c: Cloud, n: nat): nat
    requires CloudOk(c) && n <= |c.xyz|
  {
    if n == 0 then 0 else LiveCount(c, n - 1) + Count(c.alive[n - 1])
  }

  /** The three arrays have the live count as their first dimension, and payloads of that size. */
  function FinishFields(c: Cloud): seq<Entry>
    requires CloudOk(c)
  {
    var n := |c.xyz|;
    var live := LiveCount(c, n);
    [Field("type", OfStr(Text("finish"))),
     Field("positions", Ndarray("<f4", [ToU32(live), 3], LivePos(c, n))),
     Field("class_ids", Ndarray("<i2", [ToU32(live)], LiveClasses(c, n))),
     Field("kinds", Ndarray("|i1", [ToU32(live)], LiveKinds(c, n)))]
  }

  method SendFinish(active: bool, c: Cloud) returns (sent: Option<seq<Byte>>)
    requires CloudOk(c)
    ensures sent == if active then Some(Encode(OfMap(FinishFields(c)))) else None
  {
    hide Encode, InMap, Ndarray, Sample;
    if !active { return None; }
    var pos: seq<Byte>, cls: seq<Byte>, kind: seq<Byte> := [], [], [];
    for i := 0 to |c.xyz|
      invariant pos == LivePos(c, i) && cls == LiveClasses(c, i) && kind == LiveKinds(c, i)
    {
      if c.alive[i] {
        pos, cls, kind := pos + c.xyz[i], cls + Sample(c.classId[i]), kind + [c.kind[i]];
      }
    }
    var p := new Packer();
    ghost var start: seq<Byte> := [];
    OpenMap(p, 4);
    ghost var f: seq<Entry> := [];
    FieldStr(p, "type", Text("finish"), start, 4, f);
    f := f + [Field("type", OfStr(Text("finish")))];
    FieldNdarray(p, "positions", "<f4", [ToU32(|pos| / 12), 3], pos, start, 4, f);
    f := f + [Field("positions", Ndarray("<f4", [ToU32(|pos| / 12), 3], pos))];
    FieldNdarray(p, "class_ids", "<i2", [ToU32(|cls| / 2)], cls, start, 4, f);
    f := f + [Field("class_ids", Ndarray("<i2", [ToU32(|cls| / 2)], cls))];
    FieldNdarray(p, "kinds", "|i1", [ToU32(|kind|)], kind, start, 4, f);
    f := f + [Field("kinds", Ndarray("|i1", [ToU32(|kind|)], kind))];
    assert f == FinishFields(c);
    MapDone(p.buf, start, f);
    assert start + Encode(OfMap(f)) == Encode(OfMap(f));
    sent := Some(p.buf);
  }

  // ---------- what a viewer reads ----------

  /** A frame buffer is exactly one value if and only if all its lengths fit. */
  lemma FrameIsOneValue(c: Cloud, fr: Frame)
    requires CloudOk(c)
    ensures var item := OfMap(FrameFields(c, fr));
            Fits(item) <==> ReadValue(Encode(item), 0) == Done(AsValue(item), |Encode(item)|)
  {
    hide Encode, Fits, ReadValue, AsValue, FrameFields;
    WholeBuffer(OfMap(FrameFields(c, fr)));
  }

  lemma WholeBuffer(item: Item)
    ensures Fits(item) <==> ReadValue(Encode(item), 0) == Done(AsValue(item), |Encode(item)|)
  {
    hide Encode, Fits, ReadValue, AsValue;
    RoundTripIff(item, []);
    assert Encode(item) + [] == Encode(item);
  }
}
