/** The wire format byte by byte, as the MessagePack specification has it. */
module WireLaws {
  import opened MsgPack
  import opened Viz

  // ---------- numbers ----------

  function Two(a: Byte, b: Byte): nat { 0x100 * a + b }

  function Four(a: Byte, b: Byte, c: Byte, d: Byte): nat { 0x100_0000 * a + 0x1_0000 * b + 0x100 * c + d }

  lemma FoldOne(b: seq<Byte>, p: nat)
    requires p + 1 <= |b|
    ensures Fold(0, b, p, 1) == b[p]
  {
  }

  lemma FoldTwo(b: seq<Byte>, p: nat)
    requires p + 2 <= |b|
    ensures Fold(0, b, p, 2) == Two(b[p], b[p + 1])
  {
    assert Fold(0, b, p, 2) == Fold(b[p], b, p + 1, 1);
  }

  lemma FoldFour(acc: nat, b: seq<Byte>, p: nat)
    requires p + 4 <= |b|
    ensures Fold(acc, b, p, 4) == 0x1_0000_0000 * acc + Four(b[p], b[p + 1], b[p + 2], b[p + 3])
  {
    assert Fold(acc, b, p, 4) == Fold(acc * 256 + b[p], b, p + 1, 3);
    assert Fold(acc * 256 + b[p], b, p + 1, 3) == Fold((acc * 256 + b[p]) * 256 + b[p + 1], b, p + 2, 2);
    assert Fold((acc * 256 + b[p]) * 256 + b[p + 1], b, p + 2, 2) ==
           Fold(((acc * 256 + b[p]) * 256 + b[p + 1]) * 256 + b[p + 2], b, p + 3, 1);
  }

  lemma {:induction false} FoldJoin(acc: nat, b: seq<Byte>, p: nat, j: nat, k: nat)
    requires p + j + k <= |b|
    ensures Fold(acc, b, p, j + k) == Fold(Fold(acc, b, p, j), b, p + j, k)
    decreases j
  {
    if j > 0 { FoldJoin(acc * 256 + b[p], b, p + 1, j - 1, k); }
  }

  lemma FoldEight(b: seq<Byte>, p: nat)
    requires p + 8 <= |b|
    ensures Fold(0, b, p, 8) ==
            0x1_0000_0000 * Four(b[p], b[p + 1], b[p + 2], b[p + 3]) + Four(b[p + 4], b[p + 5], b[p + 6], b[p + 7])
  {
    hide Fold;
    FoldJoin(0, b, p, 4, 4);
    FoldFour(0, b, p);
    FoldFour(Fold(0, b, p, 4), b, p + 4);
  }

  // ---------- reading ----------

  /** A one-byte form: positive and negative small integers, nil, false and true. */
  lemma ReadsByte(b: seq<Byte>, p: nat)
    requires p < |b|
    ensures var c := b[p];
            && (c <= 0x7f ==> ReadValue(b, p) == Done(UInt(c), p + 1))
            && (c >= 0xe0 ==> ReadValue(b, p) == Done(Int(c as int - 256), p + 1))
            && (c == 0xc0 ==> ReadValue(b, p) == Done(Nil, p + 1))
            && (c == 0xc2 ==> ReadValue(b, p) == Done(Bool(false), p + 1))
            && (c == 0xc3 ==> ReadValue(b, p) == Done(Bool(true), p + 1))
            && (c in {0xc1, 0xc7, 0xc8, 0xc9, 0xd4, 0xd5, 0xd6, 0xd7, 0xd8} ==> ReadValue(b, p) == Fail(BadByte))
  {
    hide Number;
  }

  /** Unsigned integers of one, two, four and eight bytes, most significant byte first. */
  lemma ReadsUnsigned(b: seq<Byte>, p: nat)
    requires p + 9 <= |b|
    ensures b[p] == 0xcc ==> ReadValue(b, p) == Done(UInt(b[p + 1]), p + 2)
    ensures b[p] == 0xcd ==> ReadValue(b, p) == Done(UInt(Two(b[p + 1], b[p + 2])), p + 3)
    ensures b[p] == 0xce ==> ReadValue(b, p) == Done(UInt(Four(b[p + 1], b[p + 2], b[p + 3], b[p + 4])), p + 5)
    ensures b[p] == 0xcf ==>
              ReadValue(b, p) == Done(UInt(0x1_0000_0000 * Four(b[p + 1], b[p + 2], b[p + 3], b[p + 4])
                                           + Four(b[p + 5], b[p + 6], b[p + 7], b[p + 8])), p + 9)
  {
    hide Fold;
    FoldOne(b, p + 1);
    FoldTwo(b, p + 1);
    FoldFour(0, b, p + 1);
    FoldEight(b, p + 1);
  }

  /** Signed integers in two's complement. */
  lemma ReadsSigned(b: seq<Byte>, p: nat)
    requires p + 9 <= |b|
    ensures b[p] == 0xd0 ==> ReadValue(b, p) == Done(Int(b[p + 1] as int - if b[p + 1] < 128 then 0 else 256), p + 2)
    ensures b[p] == 0xd1 ==>
              ReadValue(b, p) == Done(Int(Two(b[p + 1], b[p + 2]) - if b[p + 1] < 128 then 0 else 0x1_0000), p + 3)
    ensures b[p] == 0xd2 ==>
              ReadValue(b, p) == Done(Int(Four(b[p + 1], b[p + 2], b[p + 3], b[p + 4]) - if b[p + 1] < 128 then 0 else 0x1_0000_0000), p + 5)
    ensures b[p] == 0xd3 ==>
              ReadValue(b, p) == Done(Int(0x1_0000_0000 * Four(b[p + 1], b[p + 2], b[p + 3], b[p + 4])
                                          + Four(b[p + 5], b[p + 6], b[p + 7], b[p + 8])
                                          - if b[p + 1] < 128 then 0 else 0x1_0000_0000_0000_0000), p + 9)
  {
    hide Fold;
    FoldOne(b, p + 1);
    FoldTwo(b, p + 1);
    FoldFour(0, b, p + 1);
    FoldEight(b, p + 1);
  }

  /** The lengths of strings, byte strings, arrays and maps, and where their contents start. */
  lemma ReadsLength(b: seq<Byte>, p: nat)
    requires p + 5 <= |b|
    ensures var (c, one, two, four) := (b[p], b[p + 1], Two(b[p + 1], b[p + 2]), Four(b[p + 1], b[p + 2], b[p + 3], b[p + 4]));
            && (0x80 <= c < 0x90 ==> ReadHead(b, p) == Got(MapOf(c - 0x80), p + 1))
            && (0x90 <= c < 0xa0 ==> ReadHead(b, p) == Got(ArrOf(c - 0x90), p + 1))
            && (0xa0 <= c < 0xc0 ==> ReadHead(b, p) == Got(StrOf(c - 0xa0), p + 1))
            && (c == 0xc4 ==> ReadHead(b, p) == Got(BinOf(one), p + 2)) && (c == 0xc5 ==> ReadHead(b, p) == Got(BinOf(two), p + 3))
            && (c == 0xc6 ==> ReadHead(b, p) == Got(BinOf(four), p + 5)) && (c == 0xd9 ==> ReadHead(b, p) == Got(StrOf(one), p + 2))
            && (c == 0xda ==> ReadHead(b, p) == Got(StrOf(two), p + 3)) && (c == 0xdb ==> ReadHead(b, p) == Got(StrOf(four), p + 5))
            && (c == 0xdc ==> ReadHead(b, p) == Got(ArrOf(two), p + 3)) && (c == 0xdd ==> ReadHead(b, p) == Got(ArrOf(four), p + 5))
            && (c == 0xde ==> ReadHead(b, p) == Got(MapOf(two), p + 3)) && (c == 0xdf ==> ReadHead(b, p) == Got(MapOf(four), p + 5))
  {
    hide Fold;
    FoldOne(b, p + 1);
    FoldTwo(b, p + 1);
    FoldFour(0, b, p + 1);
  }

  // ---------- writing ----------

  /** The bytes a head with this many bytes can say. */
  lemma FoldFits(b: seq<Byte>, p: nat, k: nat)
    requires p + k <= |b| && k in {1, 2, 4}
    ensures Fold(0, b, p, k) < if k == 1 then 0x100 else if k == 2 then 0x1_0000 else 0x1_0000_0000
  {
    hide Fold;
    if k == 1 { FoldOne(b, p); } else if k == 2 { FoldTwo(b, p); } else { FoldFour(0, b, p); }
  }

  lemma HeadSize(b: seq<Byte>, h: Head)
    requires ReadHead(b, 0) == Got(h, |b|)
    ensures match h
            case Scalar(UInt(v)) => |b| == 9 || (v < 0x1_0000_0000 && |b| == 5) || (v < 0x1_0000 && |b| == 3) || (v < 0x100 && |b| == 2) || (v < 0x80 && |b| == 1)
            case Scalar(_) => true
            case StrOf(n) => n < 0x1_0000_0000 && (|b| == 5 || (n < 0x1_0000 && |b| == 3) || (n < 0x100 && |b| == 2) || (n < 0x20 && |b| == 1))
            case BinOf(n) => n < 0x1_0000_0000 && (|b| == 5 || (n < 0x1_0000 && |b| == 3) || (n < 0x100 && |b| == 2))
            case ArrOf(n) => n < 0x1_0000_0000 && (|b| == 5 || (n < 0x1_0000 && |b| == 3) || (n < 0x10 && |b| == 1))
            case MapOf(n) => n < 0x1_0000_0000 && (|b| == 5 || (n < 0x1_0000 && |b| == 3) || (n < 0x10 && |b| == 1))
  {
    hide Fold;
    if |b| >= 2 { FoldFits(b, 1, 1); }
    if |b| >= 3 { FoldFits(b, 1, 2); }
    if |b| >= 5 { FoldFits(b, 1, 4); }
  }

  /** Every head is written in its shortest form: no bytes that read as the same head are fewer. */
  lemma ShortestHead(b: seq<Byte>, h: Head)
    requires ReadHead(b, 0) == Got(h, |b|)
    ensures h.StrOf? ==> |StrHeader(h.n)| <= |b|
    ensures h.BinOf? ==> |BinHeader(h.n)| <= |b|
    ensures h.ArrOf? ==> h.n < 0x1_0000_0000 && |Header(0x90, 0xdc, 0xdd, h.n)| <= |b|
    ensures h.MapOf? ==> h.n < 0x1_0000_0000 && |Header(0x80, 0xde, 0xdf, h.n)| <= |b|
    ensures h.Scalar? && h.v.UInt? && h.v.u < WORD ==> |UIntBytes(h.v.u)| <= |b|
  {
    hide ReadHead, BE;
    HeadSize(b, h);
  }

  /** Negative integers take one byte down to -32 and nine below. */
  lemma NegativeSize(v: I64)
    requires v < 0
    ensures |IntBytes(v)| == if v >= -32 then 1 else 9
  {
  }

  /** The specification's own example, a map of "compact" to true and "schema" to zero, takes these 18 bytes. */
  lemma Example()
    ensures Encode(OfMap([Field("compact", OfBool(true)), Field("schema", OfUInt(0))])) ==
            [0x82, 0xa7, 0x63, 0x6f, 0x6d, 0x70, 0x61, 0x63, 0x74, 0xc3, 0xa6, 0x73, 0x63, 0x68, 0x65, 0x6d, 0x61, 0x00]
  {
    hide EncodeEntry, Field, EncodePairs;
    var a, b := Field("compact", OfBool(true)), Field("schema", OfUInt(0));
    First();
    Second();
    TwoPairs(a, b);
  }

  lemma TwoPairs(a: Entry, b: Entry)
    ensures EncodePairs([a, b]) == EncodeEntry(a) + EncodeEntry(b)
  {
    hide EncodeEntry;
    assert [a, b][1..] == [b] && [b][1..] == [];
    assert EncodePairs([b]) == EncodeEntry(b) + [];
    assert EncodePairs([a, b]) == EncodeEntry(a) + EncodePairs([b]);
  }

  lemma First()
    ensures EncodeEntry(Field("compact", OfBool(true))) == [0xa7, 0x63, 0x6f, 0x6d, 0x70, 0x61, 0x63, 0x74, 0xc3]
  {
    assert Text("compact") == [0x63, 0x6f, 0x6d, 0x70, 0x61, 0x63, 0x74];
  }

  lemma Second()
    ensures EncodeEntry(Field("schema", OfUInt(0))) == [0xa6, 0x73, 0x63, 0x68, 0x65, 0x6d, 0x61, 0x00]
  {
    assert Text("schema") == [0x73, 0x63, 0x68, 0x65, 0x6d, 0x61];
  }
}
