/** The laws of the wire format: reading undoes writing, exactly for the items whose lengths fit;
    and what was read never depends on the bytes behind it. */
module MsgPackLaws {
  import opened MsgPack

  /** The bytes s stand at position p of b. */
  ghost predicate At(b: seq<Byte>, p: nat, s: seq<Byte>) { p + |s| <= |b| && b[p..p + |s|] == s }

  lemma AtParts(b: seq<Byte>, p: nat, s: seq<Byte>, t: seq<Byte>)
    ensures At(b, p, s + t) <==> At(b, p, s) && At(b, p + |s|, t)
  {
    if At(b, p, s + t) {
      assert b[p..p + |s|] == b[p..p + |s + t|][..|s|];
      assert b[p + |s|..p + |s| + |t|] == b[p..p + |s + t|][|s|..];
    }
    if At(b, p, s) && At(b, p + |s|, t) {
      assert b[p..p + |s + t|] == b[p..p + |s|] + b[p + |s|..p + |s| + |t|];
    }
  }

  // ---------- heads ----------

  /** A tag byte followed by a number of k bytes. */
  lemma TaggedNumber(b: seq<Byte>, p: nat, c: Byte, v: nat, k: nat)
    requires At(b, p, [c] + BE(v, k)) && v < Pow256(k)
    ensures p + 1 + k <= |b| && b[p] == c && Fold(0, b, p + 1, k) == v
  {
    AtParts(b, p, [c], BE(v, k));
    assert b[p] == b[p..p + 1][0];
    ReadBack(v, k, b, p + 1);
  }

  /** A tag byte followed by one byte. */
  lemma TaggedByte(b: seq<Byte>, p: nat, c: Byte, v: Byte)
    requires At(b, p, [c, v])
    ensures p + 2 <= |b| && b[p] == c && Fold(0, b, p + 1, 1) == v
  {
    assert b[p] == b[p..p + 2][0] && b[p + 1] == b[p..p + 2][1];
  }

  lemma Single(b: seq<Byte>, p: nat, c: Byte)
    requires At(b, p, [c])
    ensures p < |b| && b[p] == c
  {
    assert b[p] == b[p..p + 1][0];
  }

  lemma UIntHead(b: seq<Byte>, p: nat, v: U64)
    requires At(b, p, UIntBytes(v))
    ensures ReadHead(b, p) == Got(Scalar(UInt(v)), p + |UIntBytes(v)|)
  {
    hide BE, Fold, Pow256;
    Powers();
    if v < 128 { Single(b, p, v); }
    else if v < 256 { TaggedByte(b, p, 0xcc, v); }
    else if v < 65536 { TaggedNumber(b, p, 0xcd, v, 2); }
    else if v <= 0xffff_ffff { TaggedNumber(b, p, 0xce, v, 4); }
    else { TaggedNumber(b, p, 0xcf, v, 8); }
  }

  lemma IntHead(b: seq<Byte>, p: nat, v: I64)
    requires At(b, p, IntBytes(v))
    ensures ReadHead(b, p) == Got(Scalar(if v >= 0 then UInt(v) else Int(v)), p + |IntBytes(v)|)
  {
    hide BE, Fold, Pow256;
    Powers();
    if v >= 0 { UIntHead(b, p, v); }
    else if v >= -32 { Single(b, p, 256 + v); }
    else { TaggedNumber(b, p, 0xd3, WORD + v, 8); }
  }

  lemma StrHead(b: seq<Byte>, p: nat, n: nat)
    requires n < LIMIT && At(b, p, StrHeader(n))
    ensures ReadHead(b, p) == Got(StrOf(n), p + |StrHeader(n)|)
  {
    hide BE, Fold, Pow256;
    Powers();
    assert n % LIMIT == n;
    if n < 32 { Single(b, p, 0xa0 + n); }
    else if n < 256 { TaggedByte(b, p, 0xd9, n); }
    else if n < 65536 { TaggedNumber(b, p, 0xda, n, 2); }
    else { TaggedNumber(b, p, 0xdb, n, 4); }
  }

  lemma BinHead(b: seq<Byte>, p: nat, n: nat)
    requires n < LIMIT && At(b, p, BinHeader(n))
    ensures ReadHead(b, p) == Got(BinOf(n), p + |BinHeader(n)|)
  {
    hide BE, Fold, Pow256;
    Powers();
    assert n % LIMIT == n;
    if n < 256 { TaggedByte(b, p, 0xc4, n); }
    else if n < 65536 { TaggedNumber(b, p, 0xc5, n, 2); }
    else { TaggedNumber(b, p, 0xc6, n, 4); }
  }

  lemma ArrHead(b: seq<Byte>, p: nat, n: U32)
    requires At(b, p, Header(0x90, 0xdc, 0xdd, n))
    ensures ReadHead(b, p) == Got(ArrOf(n), p + |Header(0x90, 0xdc, 0xdd, n)|)
  {
    hide BE, Fold, Pow256;
    Powers();
    if n <= 15 { Single(b, p, 0x90 + n); }
    else if n < 65536 { TaggedNumber(b, p, 0xdc, n, 2); }
    else { TaggedNumber(b, p, 0xdd, n, 4); }
  }

  lemma MapHead(b: seq<Byte>, p: nat, n: U32)
    requires At(b, p, Header(0x80, 0xde, 0xdf, n))
    ensures ReadHead(b, p) == Got(MapOf(n), p + |Header(0x80, 0xde, 0xdf, n)|)
  {
    hide BE, Fold, Pow256;
    Powers();
    if n <= 15 { Single(b, p, 0x80 + n); }
    else if n < 65536 { TaggedNumber(b, p, 0xde, n, 2); }
    else { TaggedNumber(b, p, 0xdf, n, 4); }
  }

  lemma F64Head(b: seq<Byte>, p: nat, x: U64)
    requires At(b, p, [0xcb] + BE(x, 8))
    ensures ReadHead(b, p) == Got(Scalar(Float64(x)), p + 9)
  {
    hide BE, Fold, Pow256;
    Powers();
    TaggedNumber(b, p, 0xcb, x, 8);
  }

  // ---------- round trip ----------

  function Values(items: seq<Item>): (vs: seq<Value>)
    ensures |vs| == |items| && forall k | 0 <= k < |vs| :: vs[k] == AsValue(items[k])
  {
    seq(|items|, k requires 0 <= k < |items| => AsValue(items[k]))
  }

  function Bindings(pairs: seq<Entry>): (ps: seq<Binding>)
    ensures |ps| == |pairs| && forall k | 0 <= k < |ps| :: ps[k] == Binding(AsValue(pairs[k].key), AsValue(pairs[k].val))
  {
    seq(|pairs|, k requires 0 <= k < |pairs| => Binding(AsValue(pairs[k].key), AsValue(pairs[k].val)))
  }

  /** Wherever an encoding stands, the reader returns its value and stops right behind it. */
  lemma {:induction false} RoundTrip(item: Item, b: seq<Byte>, p: nat)
    requires Fits(item) && At(b, p, Encode(item))
    ensures ReadValue(b, p) == Done(AsValue(item), p + |Encode(item)|)
    decreases item, 1
  {
    hide ReadHead, StrHeader, BinHeader, Header, UIntBytes, IntBytes, BE, EncodeAll, EncodePairs, ReadItems, ReadPairs;
    match item
    case OfBool(x) => BoolHead(b, p, x);
    case OfStr(s) => AtParts(b, p, StrHeader(|s|), s); StrHead(b, p, |s|);
    case OfBin(d) => AtParts(b, p, BinHeader(|d|), d); BinHead(b, p, |d|);
    case OfUInt(u) => UIntHead(b, p, u);
    case OfInt(i) => IntHead(b, p, i);
    case OfF64(x) => F64Head(b, p, x);
    case OfArr(items) =>
      var h := Header(0x90, 0xdc, 0xdd, |items| % LIMIT);
      AtParts(b, p, h, EncodeAll(items));
      ArrHead(b, p, |items|);
      RoundTripAll(items, b, p + |h|);
      assert AsValue(item) == Arr(Values(items));
    case OfMap(pairs) =>
      var h := Header(0x80, 0xde, 0xdf, |pairs| % LIMIT);
      AtParts(b, p, h, EncodePairs(pairs));
      MapHead(b, p, |pairs|);
      RoundTripPairs(pairs, b, p + |h|);
      assert AsValue(item) == Map(Bindings(pairs));
  }

  lemma BoolHead(b: seq<Byte>, p: nat, x: bool)
    requires At(b, p, [if x then 0xc3 else 0xc2])
    ensures ReadHead(b, p) == Got(Scalar(Bool(x)), p + 1)
  {
    Single(b, p, if x then 0xc3 else 0xc2);
  }

  lemma {:induction false} RoundTripAll(items: seq<Item>, b: seq<Byte>, p: nat)
    requires (forall k | 0 <= k < |items| :: Fits(items[k])) && At(b, p, EncodeAll(items))
    ensures ReadItems(b, p, |items|) == Items(Values(items), p + |EncodeAll(items)|)
    decreases items, 0
  {
    hide At, ReadValue, Encode, AsValue, Fits;
    if items != [] {
      AtParts(b, p, Encode(items[0]), EncodeAll(items[1..]));
      RoundTrip(items[0], b, p);
      RoundTripAll(items[1..], b, p + |Encode(items[0])|);
      assert Values(items) == [AsValue(items[0])] + Values(items[1..]);
    }
  }

  lemma {:induction false} RoundTripPairs(pairs: seq<Entry>, b: seq<Byte>, p: nat)
    requires (forall k | 0 <= k < |pairs| :: Fits(pairs[k].key) && Fits(pairs[k].val)) && At(b, p, EncodePairs(pairs))
    ensures ReadPairs(b, p, |pairs|) == Pairs(Bindings(pairs), p + |EncodePairs(pairs)|)
    decreases pairs, 0
  {
    hide At, ReadValue, Encode, EncodeEntry, AsValue, Fits;
    if pairs != [] {
      AtParts(b, p, EncodeEntry(pairs[0]), EncodePairs(pairs[1..]));
      RoundTripEntry(pairs[0], b, p);
      RoundTripPairs(pairs[1..], b, p + |EncodeEntry(pairs[0])|);
      assert Bindings(pairs) == [Binding(AsValue(pairs[0].key), AsValue(pairs[0].val))] + Bindings(pairs[1..]);
    }
  }

  lemma {:induction false} RoundTripEntry(e: Entry, b: seq<Byte>, p: nat)
    requires Fits(e.key) && Fits(e.val) && At(b, p, EncodeEntry(e))
    ensures ReadValue(b, p) == Done(AsValue(e.key), p + |Encode(e.key)|)
    ensures ReadValue(b, p + |Encode(e.key)|) == Done(AsValue(e.val), p + |EncodeEntry(e)|)
    decreases e, 0
  {
    hide At, ReadValue, Encode, AsValue, Fits;
    AtParts(b, p, Encode(e.key), Encode(e.val));
    RoundTrip(e.key, b, p);
    RoundTrip(e.val, b, p + |Encode(e.key)|);
  }

  // ---------- only items that fit come back ----------

  ghost predicate ValueFits(v: Value) {
    match v
    case Str(s) => |s| < LIMIT
    case Bin(d) => |d| < LIMIT
    case Arr(vs) => |vs| < LIMIT && forall k | 0 <= k < |vs| :: ValueFits(vs[k])
    case Map(ps) => |ps| < LIMIT && forall k | 0 <= k < |ps| :: ValueFits(ps[k].key) && ValueFits(ps[k].val)
    case _ => true
  }

  ghost predicate HeadFits(h: Head) {
    match h
    case Scalar(v) => ValueFits(v)
    case StrOf(n) => n < LIMIT
    case BinOf(n) => n < LIMIT
    case ArrOf(n) => n < LIMIT
    case MapOf(n) => n < LIMIT
  }

  /** Length fields have at most four bytes. */
  lemma HeadsFit(b: seq<Byte>, p: nat)
    requires ReadHead(b, p).Got?
    ensures HeadFits(ReadHead(b, p).head)
  {
    hide Fold, Pow256;
    Powers();
    if p + 2 <= |b| { FoldSmall(0, b, p + 1, 1); }
    if p + 3 <= |b| { FoldSmall(0, b, p + 1, 2); }
    if p + 5 <= |b| { FoldSmall(0, b, p + 1, 4); }
  }

  lemma {:induction false} ReadFits(b: seq<Byte>, p: nat)
    requires ReadValue(b, p).Done?
    ensures ValueFits(ReadValue(b, p).v)
    decreases |b| - p, 0, 0
  {
    hide ReadHead;
    HeadsFit(b, p);
    match ReadHead(b, p)
    case Got(ArrOf(n), q) => ItemsFit(b, q, n);
    case Got(MapOf(n), q) => PairsFit(b, q, n);
    case Got(_, q) =>
  }

  lemma {:induction false} ItemsFit(b: seq<Byte>, p: nat, n: nat)
    requires p <= |b| && ReadItems(b, p, n).Items?
    ensures forall k | 0 <= k < n :: ValueFits(ReadItems(b, p, n).vs[k])
    decreases |b| - p, 1, n
  {
    if n > 0 {
      ReadFits(b, p);
      ItemsFit(b, ReadValue(b, p).next, n - 1);
    }
  }

  lemma {:induction false} PairsFit(b: seq<Byte>, p: nat, n: nat)
    requires p <= |b| && ReadPairs(b, p, n).Pairs?
    ensures forall k | 0 <= k < n :: ValueFits(ReadPairs(b, p, n).ps[k].key) && ValueFits(ReadPairs(b, p, n).ps[k].val)
    decreases |b| - p, 1, n
  {
    if n > 0 {
      ReadFits(b, p);
      var q := ReadValue(b, p).next;
      ReadFits(b, q);
      PairsFit(b, ReadValue(b, q).next, n - 1);
    }
  }

  /** An item's value fits exactly when the item does. */
  lemma {:induction false} AsValueFits(item: Item)
    ensures ValueFits(AsValue(item)) <==> Fits(item)
    decreases item
  {
    match item
    case OfArr(items) =>
      assert AsValue(item) == Arr(Values(items));
      forall k | 0 <= k < |items| ensures ValueFits(Values(items)[k]) <==> Fits(items[k]) { AsValueFits(items[k]); }
    case OfMap(pairs) =>
      assert AsValue(item) == Map(Bindings(pairs));
      forall k | 0 <= k < |pairs|
        ensures ValueFits(Bindings(pairs)[k].key) <==> Fits(pairs[k].key)
        ensures ValueFits(Bindings(pairs)[k].val) <==> Fits(pairs[k].val)
      {
        AsValueFits(pairs[k].key);
        AsValueFits(pairs[k].val);
      }
    case _ =>
  }

  /** Writing and reading back, whatever follows, is exact if and only if every length fits. */
  lemma RoundTripIff(item: Item, suffix: seq<Byte>)
    ensures Fits(item) <==> ReadValue(Encode(item) + suffix, 0) == Done(AsValue(item), |Encode(item)|)
  {
    hide ReadValue, Encode, Fits, ValueFits, AsValue;
    var b := Encode(item) + suffix;
    if Fits(item) {
      assert At(b, 0, Encode(item));
      RoundTrip(item, b, 0);
    }
    if ReadValue(b, 0) == Done(AsValue(item), |Encode(item)|) {
      ReadFits(b, 0);
      AsValueFits(item);
    }
  }

  // ---------- only the bytes consumed matter ----------

  /** b and c agree on their first t bytes. */
  ghost predicate Agree(b: seq<Byte>, c: seq<Byte>, t: nat) {
    t <= |b| && t <= |c| && forall i | 0 <= i < t :: b[i] == c[i]
  }

  lemma {:induction false} FoldAgrees(acc: nat, b: seq<Byte>, c: seq<Byte>, p: nat, k: nat)
    requires Agree(b, c, p + k)
    ensures Fold(acc, b, p, k) == Fold(acc, c, p, k)
    decreases k
  {
    if k > 0 { FoldAgrees(acc * 256 + b[p], b, c, p + 1, k - 1); }
  }

  lemma HeadAgrees(b: seq<Byte>, c: seq<Byte>, p: nat)
    requires ReadHead(b, p).Got? && Agree(b, c, ReadHead(b, p).next)
    ensures ReadHead(c, p) == ReadHead(b, p)
  {
    hide Fold;
    var k := ReadHead(b, p).next - (p + 1);
    FoldAgrees(0, b, c, p + 1, k);
  }

  lemma AgreeLess(b: seq<Byte>, c: seq<Byte>, t: nat, u: nat)
    requires Agree(b, c, t) && u <= t
    ensures Agree(b, c, u) && forall i, j | 0 <= i <= j <= u :: b[i..j] == c[i..j]
  {
  }

  lemma {:induction false} ReadAgrees(b: seq<Byte>, c: seq<Byte>, p: nat)
    requires ReadValue(b, p).Done? && Agree(b, c, ReadValue(b, p).next)
    ensures ReadValue(c, p) == ReadValue(b, p)
    decreases |b| - p, 0, 0
  {
    hide ReadHead, Agree;
    var t := ReadValue(b, p).next;
    match ReadHead(b, p)
    case Got(h, q) =>
      if h.ArrOf? || h.MapOf? { ListNext(b, q, h.n); }
      AgreeLess(b, c, t, q);
      HeadAgrees(b, c, p);
      AgreeSize(b, c, t);
      AgreeLess(b, c, t, t);
      match h
      case ArrOf(n) => ItemsAgree(b, c, q, n);
      case MapOf(n) => PairsAgree(b, c, q, n);
      case _ =>
  }

  lemma AgreeSize(b: seq<Byte>, c: seq<Byte>, t: nat)
    requires Agree(b, c, t)
    ensures t <= |b| && t <= |c|
  {
  }

  lemma ListNext(b: seq<Byte>, q: nat, n: nat)
    requires q <= |b|
    ensures ReadItems(b, q, n).Items? ==> q <= ReadItems(b, q, n).next <= |b|
    ensures ReadPairs(b, q, n).Pairs? ==> q <= ReadPairs(b, q, n).next <= |b|
  {
  }

  lemma {:induction false} ItemsAgree(b: seq<Byte>, c: seq<Byte>, p: nat, n: nat)
    requires p <= |b| && ReadItems(b, p, n).Items? && Agree(b, c, ReadItems(b, p, n).next)
    ensures ReadItems(c, p, n) == ReadItems(b, p, n)
    decreases |b| - p, 1, n
  {
    hide Agree, ReadValue;
    if n > 0 {
      var q := ReadValue(b, p).next;
      AgreeLess(b, c, ReadItems(b, p, n).next, q);
      ReadAgrees(b, c, p);
      ItemsAgree(b, c, q, n - 1);
    }
  }

  lemma {:induction false} PairsAgree(b: seq<Byte>, c: seq<Byte>, p: nat, n: nat)
    requires p <= |b| && ReadPairs(b, p, n).Pairs? && Agree(b, c, ReadPairs(b, p, n).next)
    ensures ReadPairs(c, p, n) == ReadPairs(b, p, n)
    decreases |b| - p, 1, n
  {
    hide Agree, ReadValue;
    if n > 0 {
      var q := ReadValue(b, p).next;
      var t := ReadValue(b, q).next;
      AgreeLess(b, c, ReadPairs(b, p, n).next, q);
      AgreeLess(b, c, ReadPairs(b, p, n).next, t);
      ReadAgrees(b, c, p);
      ReadAgrees(b, c, q);
      PairsAgree(b, c, t, n - 1);
    }
  }

  /** A message cut short anywhere is rejected. */
  lemma TruncationRejected(item: Item, k: nat)
    requires Fits(item) && k < |Encode(item)|
    ensures ReadValue(Encode(item)[..k], 0).Fail?
  {
    hide ReadValue, Encode, Fits, AsValue;
    var b, e := Encode(item)[..k], Encode(item);
    if ReadValue(b, 0).Done? {
      ReadAgrees(b, e, 0);
      assert At(e, 0, e);
      RoundTrip(item, e, 0);
      assert false;
    }
  }

  /** No message is the beginning of another one. */
  lemma PrefixFree(one: Item, other: Item)
    requires Fits(one) && Fits(other) && Encode(one) <= Encode(other)
    ensures Encode(one) == Encode(other)
  {
    hide ReadValue, Encode, Fits, AsValue;
    if |Encode(one)| < |Encode(other)| {
      var e := Encode(one);
      assert Encode(other)[..|e|] == e;
      TruncationRejected(other, |e|);
      assert At(e, 0, e);
      RoundTrip(one, e, 0);
      assert false;
    }
  }
}
