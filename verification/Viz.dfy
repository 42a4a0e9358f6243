/** The visualizer's messages: every begin, frame and finish buffer is one complete value, its
    declared counts matching what follows for every combination of optional parts. */
module Viz {
  import opened MsgPack
  import opened MsgPackIO

  /** A literal as bytes. */
  function Text(s: string): (r: seq<Byte>)
    ensures |r| == |s|
  {
    seq(|s|, i requires 0 <= i < |s| => s[i] as int % 256)
  }

  function Field(key: string, v: Item): Entry { Entry(OfStr(Text(key)), v) }

  // ---------- writing a map entry by entry ----------

  lemma {:induction false} PairsSnoc(pairs: seq<Entry>, e: Entry)
    ensures EncodePairs(pairs + [e]) == EncodePairs(pairs) + EncodeEntry(e)
    decreases |pairs|
  {
    hide EncodeEntry;
    if pairs == [] {
      assert pairs + [e] == [e] && [e][1..] == [];
    } else {
      assert (pairs + [e])[1..] == pairs[1..] + [e];
      PairsSnoc(pairs[1..], e);
    }
  }

  lemma {:induction false} AllSnoc(items: seq<Item>, x: Item)
    ensures EncodeAll(items + [x]) == EncodeAll(items) + Encode(x)
    decreases |items|
  {
    hide Encode;
    if items == [] {
      assert items + [x] == [x] && [x][1..] == [];
    } else {
      assert (items + [x])[1..] == items[1..] + [x];
      AllSnoc(items[1..], x);
    }
  }

  /** A map header for n entries and the entries written so far stand behind `start`. */
  ghost predicate InMap(buf: seq<Byte>, start: seq<Byte>, n: int, pairs: seq<Entry>) {
    0 <= n < LIMIT && buf == start + Header(0x80, 0xde, 0xdf, n) + EncodePairs(pairs)
  }

  ghost predicate InArr(buf: seq<Byte>, start: seq<Byte>, n: int, items: seq<Item>) {
    0 <= n < LIMIT && buf == start + Header(0x90, 0xdc, 0xdd, n) + EncodeAll(items)
  }

  lemma MapMore(buf: seq<Byte>, start: seq<Byte>, n: int, pairs: seq<Entry>, key: string, v: Item)
    requires InMap(buf, start, n, pairs)
    ensures InMap(buf + Encode(OfStr(Text(key))) + Encode(v), start, n, pairs + [Field(key, v)])
  {
    hide Encode, Header, EncodePairs;
    PairsSnoc(pairs, Field(key, v));
  }

  lemma MapDone(buf: seq<Byte>, start: seq<Byte>, pairs: seq<Entry>)
    requires InMap(buf, start, |pairs|, pairs)
    ensures buf == start + Encode(OfMap(pairs))
  {
    hide Header, EncodePairs;
  }

  lemma ArrMore(buf: seq<Byte>, start: seq<Byte>, n: int, items: seq<Item>, x: Item)
    requires InArr(buf, start, n, items)
    ensures InArr(buf + Encode(x), start, n, items + [x])
  {
    hide Encode, Header, EncodeAll;
    AllSnoc(items, x);
  }

  lemma ArrDone(buf: seq<Byte>, start: seq<Byte>, n: int, items: seq<Item>)
    requires InArr(buf, start, n, items) && n == |items| % LIMIT
    ensures buf == start + Encode(OfArr(items))
  {
    hide Header, EncodeAll;
  }

  method OpenMap(p: Packer, n: U32)
    modifies p
    ensures InMap(p.buf, old(p.buf), n, [])
  {
    hide Header;
    p.MapHeader(n);
    assert EncodePairs([]) == [];
  }

  method OpenArr(p: Packer, n: U32)
    modifies p
    ensures InArr(p.buf, old(p.buf), n, [])
  {
    hide Header;
    p.ArrHeader(n);
    assert EncodeAll([]) == [];
  }

  method FieldStr(p: Packer, key: string, s: seq<Byte>, ghost start: seq<Byte>, ghost n: int, ghost pairs: seq<Entry>)
    requires InMap(p.buf, start, n, pairs)
    modifies p
    ensures InMap(p.buf, start, n, pairs + [Field(key, OfStr(s))])
  {
    hide Encode, InMap;
    MapMore(p.buf, start, n, pairs, key, OfStr(s));
    p.PutStr(Text(key));
    p.PutStr(s);
  }

  method FieldUInt(p: Packer, key: string, v: U64, ghost start: seq<Byte>, ghost n: int, ghost pairs: seq<Entry>)
    requires InMap(p.buf, start, n, pairs)
    modifies p
    ensures InMap(p.buf, start, n, pairs + [Field(key, OfUInt(v))])
  {
    hide Encode, InMap;
    MapMore(p.buf, start, n, pairs, key, OfUInt(v));
    p.PutStr(Text(key));
    p.PutUInt(v);
  }

  method FieldInt(p: Packer, key: string, v: I64, ghost start: seq<Byte>, ghost n: int, ghost pairs: seq<Entry>)
    requires InMap(p.buf, start, n, pairs)
    modifies p
    ensures InMap(p.buf, start, n, pairs + [Field(key, OfInt(v))])
  {
    hide Encode, InMap;
    MapMore(p.buf, start, n, pairs, key, OfInt(v));
    p.PutStr(Text(key));
    p.PutInt(v);
  }

  method FieldF64(p: Packer, key: string, bits: U64, ghost start: seq<Byte>, ghost n: int, ghost pairs: seq<Entry>)
    requires InMap(p.buf, start, n, pairs)
    modifies p
    ensures InMap(p.buf, start, n, pairs + [Field(key, OfF64(bits))])
  {
    hide Encode, InMap;
    MapMore(p.buf, start, n, pairs, key, OfF64(bits));
    p.PutStr(Text(key));
    p.PutF64(bits);
  }

  method FieldBin(p: Packer, key: string, d: seq<Byte>, ghost start: seq<Byte>, ghost n: int, ghost pairs: seq<Entry>)
    requires InMap(p.buf, start, n, pairs)
    modifies p
    ensures InMap(p.buf, start, n, pairs + [Field(key, OfBin(d))])
  {
    hide Encode, InMap;
    MapMore(p.buf, start, n, pairs, key, OfBin(d));
    p.PutStr(Text(key));
    p.PutBin(d);
  }

  // ---------- numpy arrays ----------

  function Shape(shape: seq<U32>): (r: seq<Item>)
    ensures |r| == |shape| && forall i | 0 <= i < |r| :: r[i] == OfUInt(shape[i])
  {
    seq(|shape|, i requires 0 <= i < |shape| => OfUInt(shape[i]))
  }

  function Ndarray(dtype: string, shape: seq<U32>, data: seq<Byte>): Item {
    OfMap([Field("__ndarray__", OfBool(true)), Field("shape", OfArr(Shape(shape))),
           Field("dtype", OfStr(Text(dtype))), Field("data", OfBin(data))])
  }

  method PackShape(p: Packer, shape: seq<U32>)
    modifies p
    ensures p.buf == old(p.buf) + Encode(OfArr(Shape(shape)))
  {
    hide Encode, InArr;
    OpenArr(p, |shape| % LIMIT);
    for i := 0 to |shape|
      invariant InArr(p.buf, old(p.buf), |shape| % LIMIT, Shape(shape)[..i])
    {
      ArrMore(p.buf, old(p.buf), |shape| % LIMIT, Shape(shape)[..i], OfUInt(shape[i]));
      assert Shape(shape)[..i + 1] == Shape(shape)[..i] + [OfUInt(shape[i])];
      p.PutUInt(shape[i]);
    }
    assert Shape(shape)[..|shape|] == Shape(shape);
    ArrDone(p.buf, old(p.buf), |shape| % LIMIT, Shape(shape));
  }

  method PackNdarray(p: Packer, dtype: string, shape: seq<U32>, data: seq<Byte>)
    modifies p
    ensures p.buf == old(p.buf) + Encode(Ndarray(dtype, shape, data))
  {
    hide Encode, InMap, Text, Shape;
    ghost var start := p.buf;
    OpenMap(p, 4);
    ghost var pairs: seq<Entry> := [];
    MapMore(p.buf, start, 4, pairs, "__ndarray__", OfBool(true));
    p.PutStr(Text("__ndarray__"));
    p.Boolean(true);
    pairs := pairs + [Field("__ndarray__", OfBool(true))];
    MapMore(p.buf, start, 4, pairs, "shape", OfArr(Shape(shape)));
    p.PutStr(Text("shape"));
    PackShape(p, shape);
    pairs := pairs + [Field("shape", OfArr(Shape(shape)))];
    FieldStr(p, "dtype", Text(dtype), start, 4, pairs);
    pairs := pairs + [Field("dtype", OfStr(Text(dtype)))];
    FieldBin(p, "data", data, start, 4, pairs);
    pairs := pairs + [Field("data", OfBin(data))];
    MapDone(p.buf, start, pairs);
    assert OfMap(pairs) == Ndarray(dtype, shape, data);
  }

  method FieldNdarray(p: Packer, key: string, dtype: string, shape: seq<U32>, data: seq<Byte>, ghost start: seq<Byte>,
                      ghost n: int, ghost pairs: seq<Entry>)
    requires InMap(p.buf, start, n, pairs)
    modifies p
    ensures InMap(p.buf, start, n, pairs + [Field(key, Ndarray(dtype, shape, data))])
  {
    hide Encode, InMap, Ndarray;
    MapMore(p.buf, start, n, pairs, key, Ndarray(dtype, shape, data));
    p.PutStr(Text(key));
    PackNdarray(p, dtype, shape, data);
  }
}
