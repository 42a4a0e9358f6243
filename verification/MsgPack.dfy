/** The MessagePack subset on the wire: what the packer writes, what the reader accepts, and that
    each undoes the other. */
module MsgPack {
  import opened Division

  type Byte = x: int | 0 <= x < 256
  type U32 = x: int | 0 <= x < 0x1_0000_0000
  type U64 = x: int | 0 <= x < 0x1_0000_0000_0000_0000
  type I64 = x: int | -0x8000_0000_0000_0000 <= x < 0x8000_0000_0000_0000

  const LIMIT: int := 0x1_0000_0000
  const WORD: int := 0x1_0000_0000_0000_0000

  /** What a packer can be asked to write.  A double is its 64 bits. */
  datatype Item = OfBool(b: bool) | OfStr(s: seq<Byte>) | OfBin(data: seq<Byte>) | OfUInt(u: U64) | OfInt(i: I64)
                | OfF64(bits: U64) | OfArr(items: seq<Item>) | OfMap(pairs: seq<Entry>)

  datatype Entry = Entry(key: Item, val: Item)

  /** What the reader returns.  Floats stay raw bits. */
  datatype Value = Nil | Bool(b: bool) | Int(i: int) | UInt(u: nat) | Float32(bits: nat) | Float64(bits: nat)
                 | Str(s: seq<Byte>) | Bin(data: seq<Byte>) | Arr(items: seq<Value>) | Map(pairs: seq<Binding>)

  datatype Binding = Binding(key: Value, val: Value)

  datatype Error = Truncated | Overrun | BadByte

  /** A value and the position after it. */
  datatype Parsed = Fail(error: Error) | Done(v: Value, next: nat)

  // ---------- big-endian numbers ----------

  function Pow256(k: nat): (r: int)
    ensures r >= 1
  {
    if k == 0 then 1 else 256 * Pow256(k - 1)
  }

  /** The low k bytes, highest first. */
  function BE(v: nat, k: nat): (r: seq<Byte>)
    ensures |r| == k
  {
    if k == 0 then [] else [v / Pow256(k - 1) % 256] + BE(v, k - 1)
  }

  /** The number read from k bytes at p, on top of acc. */
  function Fold(acc: nat, b: seq<Byte>, p: nat, k: nat): nat
    requires p + k <= |b|
    decreases k
  {
    if k == 0 then acc else Fold(acc * 256 + b[p], b, p + 1, k - 1)
  }

  lemma Digit(v: nat, w: nat)
    requires w >= 1
    ensures v / w % 256 * w + v % w == v % (256 * w)
  {
    var q, r := v / w, v % w;
    Quotient(v, w);
    var h, d := q / 256, q % 256;
    Compose(h, d, r, w);
    RemainderIs(v, 256 * w, h, d * w + r);
  }

  lemma Compose(h: nat, d: nat, r: nat, w: nat)
    requires d < 256 && r < w
    ensures (256 * h + d) * w + r == h * (256 * w) + (d * w + r)
    ensures 0 <= d * w + r < 256 * w
  {
    Grow(255 - d, w);
    assert (255 - d) * w == 255 * w - d * w;
  }

  lemma {:induction false} FoldOfBE(acc: nat, v: nat, k: nat, b: seq<Byte>, p: nat)
    requires p + k <= |b| && b[p..p + k] == BE(v, k)
    ensures Fold(acc, b, p, k) == acc * Pow256(k) + v % Pow256(k)
    decreases k
  {
    if k > 0 {
      var w, d := Pow256(k - 1), v / Pow256(k - 1) % 256;
      assert b[p] == b[p..p + k][0] == d;
      assert b[p + 1..p + k] == b[p..p + k][1..] == BE(v, k - 1);
      FoldOfBE(acc * 256 + d, v, k - 1, b, p + 1);
      Digit(v, w);
      Distribute(acc, d, w);
    }
  }

  lemma Distribute(acc: nat, d: nat, w: nat)
    ensures (acc * 256 + d) * w == acc * (256 * w) + d * w
  {
  }

  lemma Powers()
    ensures Pow256(1) == 0x100 && Pow256(2) == 0x1_0000 && Pow256(4) == LIMIT && Pow256(8) == WORD
  {
    assert Pow256(3) == 0x100_0000 && Pow256(5) == 0x100_0000_0000 && Pow256(6) == 0x1_0000_0000_0000
           && Pow256(7) == 0x100_0000_0000_0000;
  }

  /** Reading back a number that fits its width. */
  lemma ReadBack(v: nat, k: nat, b: seq<Byte>, p: nat)
    requires v < Pow256(k)
    requires p + k <= |b| && b[p..p + k] == BE(v, k)
    ensures Fold(0, b, p, k) == v
  {
    hide Pow256, BE, Fold;
    FoldOfBE(0, v, k, b, p);
    RemainderIs(v, Pow256(k), 0, v);
  }

  lemma {:induction false} FoldSmall(acc: nat, b: seq<Byte>, p: nat, k: nat)
    requires p + k <= |b|
    ensures Fold(acc, b, p, k) < (acc + 1) * Pow256(k)
    decreases k
  {
    if k > 0 {
      FoldSmall(acc * 256 + b[p], b, p + 1, k - 1);
      var w := Pow256(k - 1);
      var x: int := b[p];
      var d := x + 1;
      Distribute(acc, d, w);
      Compose(0, d - 1, 0, w);
      assert d * w == (d - 1) * w + w;
      assert (acc + 1) * (256 * w) == acc * (256 * w) + 256 * w;
    }
  }

  // ---------- writing ----------

  /** Container header; the count is cut to 32 bits by the call. */
  function Header(fix: Byte, c16: Byte, c32: Byte, n: U32): seq<Byte>
    requires fix + 15 < 256
  {
    if n <= 15 then [fix + n] else if n < 65536 then [c16] + BE(n, 2) else [c32] + BE(n, 4)
  }

  /** Length prefix of a string of n bytes: the length is cut to 32 bits first. */
  function StrHeader(size: nat): seq<Byte> {
    var n := size % LIMIT;
    if n < 32 then [0xa0 + n] else if n < 256 then [0xd9, n] else if n < 65536 then [0xda] + BE(n, 2) else [0xdb] + BE(n, 4)
  }

  /** Length prefix of a byte string: only the written number is cut to 32 bits. */
  function BinHeader(n: nat): seq<Byte> {
    if n < 256 then [0xc4, n] else if n < 65536 then [0xc5] + BE(n, 2) else [0xc6] + BE(n % LIMIT, 4)
  }

  function UIntBytes(v: U64): seq<Byte> {
    if v < 128 then [v] else if v < 256 then [0xcc, v] else if v < 65536 then [0xcd] + BE(v, 2)
    else if v <= 0xffff_ffff then [0xce] + BE(v, 4) else [0xcf] + BE(v, 8)
  }

  function IntBytes(v: I64): seq<Byte> {
    if v >= 0 then UIntBytes(v) else if v >= -32 then [256 + v] else [0xd3] + BE(WORD + v, 8)
  }

  function Encode(item: Item): (r: seq<Byte>)
    ensures |r| >= 1
    decreases item, 1
  {
    match item
    case OfBool(b) => [if b then 0xc3 else 0xc2]
    case OfStr(s) => StrHeader(|s|) + s
    case OfBin(d) => BinHeader(|d|) + d
    case OfUInt(u) => UIntBytes(u)
    case OfInt(i) => IntBytes(i)
    case OfF64(x) => [0xcb] + BE(x, 8)
    case OfArr(items) => Header(0x90, 0xdc, 0xdd, |items| % LIMIT) + EncodeAll(items)
    case OfMap(pairs) => Header(0x80, 0xde, 0xdf, |pairs| % LIMIT) + EncodePairs(pairs)
  }

  function EncodeAll(items: seq<Item>): seq<Byte>
    decreases items, 0
  {
    if items == [] then [] else Encode(items[0]) + EncodeAll(items[1..])
  }

  function EncodePairs(pairs: seq<Entry>): seq<Byte>
    decreases pairs, 0
  {
    if pairs == [] then []
    else EncodeEntry(pairs[0]) + EncodePairs(pairs[1..])
  }

  function EncodeEntry(e: Entry): seq<Byte>
    decreases e, 0
  {
    Encode(e.key) + Encode(e.val)
  }

  /** Every length in the item fits the 32-bit length fields. */
  ghost predicate Fits(item: Item)
    decreases item
  {
    match item
    case OfStr(s) => |s| < LIMIT
    case OfBin(d) => |d| < LIMIT
    case OfArr(items) => |items| < LIMIT && forall k | 0 <= k < |items| :: Fits(items[k])
    case OfMap(pairs) => |pairs| < LIMIT && forall k | 0 <= k < |pairs| ::
                           Fits(pairs[k].key) && Fits(pairs[k].val)
    case _ => true
  }

  /** The value an item comes back as: a non-negative integer reads back unsigned. */
  function AsValue(item: Item): Value
    decreases item
  {
    match item
    case OfBool(b) => Bool(b)
    case OfStr(s) => Str(s)
    case OfBin(d) => Bin(d)
    case OfUInt(u) => UInt(u)
    case OfInt(i) => if i >= 0 then UInt(i) else Int(i)
    case OfF64(x) => Float64(x)
    case OfArr(items) => Arr(seq(|items|, k requires 0 <= k < |items| => AsValue(items[k])))
    case OfMap(pairs) => Map(seq(|pairs|, k requires 0 <= k < |pairs| =>
                               Binding(AsValue(pairs[k].key), AsValue(pairs[k].val))))
  }

  // ---------- reading ----------

  /** A scalar, or the kind and length of what follows. */
  datatype Head = Scalar(v: Value) | StrOf(n: nat) | BinOf(n: nat) | ArrOf(n: nat) | MapOf(n: nat)

  datatype HeadRead = NoHead(error: Error) | Got(head: Head, next: nat)

  /** Two's complement of width given by half the range. */
  function Signed(u: nat, half: nat): int { if u < half then u else u - 2 * half }

  function Number(b: seq<Byte>, p: nat, k: nat, f: nat -> Head): HeadRead
  {
    if p + k <= |b| then Got(f(Fold(0, b, p, k)), p + k) else NoHead(Truncated)
  }

  /** The first byte and the numbers right behind it. */
  function ReadHead(b: seq<Byte>, p: nat): (r: HeadRead)
    ensures r.Got? ==> p < r.next <= |b|
  {
    if p >= |b| then NoHead(Truncated)
    else var c := b[p];
         if c <= 0x7f then Got(Scalar(UInt(c)), p + 1)
         else if c >= 0xe0 then Got(Scalar(Int(Signed(c, 0x80))), p + 1)
         else if c < 0x90 then Got(MapOf(c - 0x80), p + 1)
         else if c < 0xa0 then Got(ArrOf(c - 0x90), p + 1)
         else if c < 0xc0 then Got(StrOf(c - 0xa0), p + 1)
         else if c == 0xc0 then Got(Scalar(Nil), p + 1)
         else if c == 0xc2 then Got(Scalar(Bool(false)), p + 1)
         else if c == 0xc3 then Got(Scalar(Bool(true)), p + 1)
         else if c == 0xc4 then Number(b, p + 1, 1, (n: nat) => BinOf(n))
         else if c == 0xc5 then Number(b, p + 1, 2, (n: nat) => BinOf(n))
         else if c == 0xc6 then Number(b, p + 1, 4, (n: nat) => BinOf(n))
         else if c == 0xca then Number(b, p + 1, 4, (n: nat) => Scalar(Float32(n)))
         else if c == 0xcb then Number(b, p + 1, 8, (n: nat) => Scalar(Float64(n)))
         else if c == 0xcc then Number(b, p + 1, 1, (n: nat) => Scalar(UInt(n)))
         else if c == 0xcd then Number(b, p + 1, 2, (n: nat) => Scalar(UInt(n)))
         else if c == 0xce then Number(b, p + 1, 4, (n: nat) => Scalar(UInt(n)))
         else if c == 0xcf then Number(b, p + 1, 8, (n: nat) => Scalar(UInt(n)))
         else if c == 0xd0 then Number(b, p + 1, 1, (n: nat) => Scalar(Int(Signed(n, 0x80))))
         else if c == 0xd1 then Number(b, p + 1, 2, (n: nat) => Scalar(Int(Signed(n, 0x8000))))
         else if c == 0xd2 then Number(b, p + 1, 4, (n: nat) => Scalar(Int(Signed(n, 0x8000_0000))))
         else if c == 0xd3 then Number(b, p + 1, 8, (n: nat) => Scalar(Int(Signed(n, 0x8000_0000_0000_0000))))
         else if c == 0xd9 then Number(b, p + 1, 1, (n: nat) => StrOf(n))
         else if c == 0xda then Number(b, p + 1, 2, (n: nat) => StrOf(n))
         else if c == 0xdb then Number(b, p + 1, 4, (n: nat) => StrOf(n))
         else if c == 0xdc then Number(b, p + 1, 2, (n: nat) => ArrOf(n))
         else if c == 0xdd then Number(b, p + 1, 4, (n: nat) => ArrOf(n))
         else if c == 0xde then Number(b, p + 1, 2, (n: nat) => MapOf(n))
         else if c == 0xdf then Number(b, p + 1, 4, (n: nat) => MapOf(n))
         else NoHead(BadByte)
  }

  datatype ListRead = NoList(error: Error) | Items(vs: seq<Value>, next: nat)

  datatype PairsRead = NoPairs(error: Error) | Pairs(ps: seq<Binding>, next: nat)

  function ReadValue(b: seq<Byte>, p: nat): (r: Parsed)
    ensures r.Done? ==> p < r.next <= |b|
    decreases |b| - p, 0, 0
  {
    match ReadHead(b, p)
    case NoHead(e) => Fail(e)
    case Got(Scalar(v), q) => Done(v, q)
    case Got(StrOf(n), q) => if q + n > |b| then Fail(Overrun) else Done(Str(b[q..q + n]), q + n)
    case Got(BinOf(n), q) => if q + n > |b| then Fail(Overrun) else Done(Bin(b[q..q + n]), q + n)
    case Got(ArrOf(n), q) =>
      (match ReadItems(b, q, n) case NoList(e) => Fail(e) case Items(vs, t) => Done(Arr(vs), t))
    case Got(MapOf(n), q) =>
      (match ReadPairs(b, q, n) case NoPairs(e) => Fail(e) case Pairs(ps, t) => Done(Map(ps), t))
  }

  function ReadItems(b: seq<Byte>, p: nat, n: nat): (r: ListRead)
    ensures r.Items? && p <= |b| ==> p <= r.next <= |b|
    ensures r.Items? ==> |r.vs| == n
    decreases |b| - p, 1, n
  {
    if n == 0 then Items([], p)
    else match ReadValue(b, p)
         case Fail(e) => NoList(e)
         case Done(v, q) =>
           match ReadItems(b, q, n - 1)
           case NoList(e) => NoList(e)
           case Items(vs, t) => Items([v] + vs, t)
  }

  function ReadPairs(b: seq<Byte>, p: nat, n: nat): (r: PairsRead)
    ensures r.Pairs? && p <= |b| ==> p <= r.next <= |b|
    ensures r.Pairs? ==> |r.ps| == n
    decreases |b| - p, 1, n
  {
    if n == 0 then Pairs([], p)
    else match ReadValue(b, p)
         case Fail(e) => NoPairs(e)
         case Done(k, q) =>
           match ReadValue(b, q)
           case Fail(e) => NoPairs(e)
           case Done(v, t) =>
             match ReadPairs(b, t, n - 1)
             case NoPairs(e) => NoPairs(e)
             case Pairs(ps, z) => Pairs([Binding(k, v)] + ps, z)
  }
}
