/** The packer's growing buffer and the reader's advancing cursor. */
module MsgPackIO {
  import opened MsgPack

  class Packer {
    var buf: seq<Byte>

    constructor ()
      ensures buf == []
    {
      buf := [];
    }

    /** The low bytes of v, highest first. */
    method Be(v: nat, bytes: nat)
      modifies this
      ensures buf == old(buf) + BE(v, bytes)
    {
      var i := bytes;
      while i > 0
        invariant 0 <= i <= bytes && buf + BE(v, i) == old(buf) + BE(v, bytes)
      {
        i := i - 1;
        ghost var before := buf;
        buf := buf + [v / Pow256(i) % 256];
        assert BE(v, i + 1) == [v / Pow256(i) % 256] + BE(v, i);
        assert buf + BE(v, i) == before + BE(v, i + 1);
      }
      assert buf + [] == buf;
    }

    method ContainerHeader(fix: Byte, c16: Byte, c32: Byte, n: U32)
      requires fix + 15 < 256
      modifies this
      ensures buf == old(buf) + Header(fix, c16, c32, n)
    {
      hide BE;
      if n <= 15 {
        buf := buf + [fix + n];
      } else if n < 65536 {
        buf := buf + [c16];
        Be(n, 2);
      } else {
        buf := buf + [c32];
        Be(n, 4);
      }
    }

    method MapHeader(n: U32)
      modifies this
      ensures buf == old(buf) + Header(0x80, 0xde, 0xdf, n)
    {
      ContainerHeader(0x80, 0xde, 0xdf, n);
    }

    method ArrHeader(n: U32)
      modifies this
      ensures buf == old(buf) + Header(0x90, 0xdc, 0xdd, n)
    {
      ContainerHeader(0x90, 0xdc, 0xdd, n);
    }

    method Boolean(v: bool)
      modifies this
      ensures buf == old(buf) + Encode(OfBool(v))
    {
      buf := buf + [if v then 0xc3 else 0xc2];
    }

    method PutStr(s: seq<Byte>)
      modifies this
      ensures buf == old(buf) + Encode(OfStr(s))
    {
      hide BE;
      var n := |s| % LIMIT;
      if n < 32 {
        buf := buf + [0xa0 + n];
      } else if n < 256 {
        buf := buf + [0xd9] + [n];
      } else if n < 65536 {
        buf := buf + [0xda];
        Be(n, 2);
      } else {
        buf := buf + [0xdb];
        Be(n, 4);
      }
      assert buf == old(buf) + StrHeader(|s|);
      buf := buf + s;
    }

    method PutBin(d: seq<Byte>)
      modifies this
      ensures buf == old(buf) + Encode(OfBin(d))
    {
      hide BE;
      var n := |d|;
      if n < 256 {
        buf := buf + [0xc4] + [n];
      } else if n < 65536 {
        buf := buf + [0xc5];
        Be(n, 2);
      } else {
        buf := buf + [0xc6];
        Be(n % LIMIT, 4);
      }
      assert buf == old(buf) + BinHeader(|d|);
      buf := buf + d;
    }

    method PutUInt(v: U64)
      modifies this
      ensures buf == old(buf) + Encode(OfUInt(v))
    {
      hide BE;
      if v < 128 {
        buf := buf + [v];
      } else if v < 256 {
        buf := buf + [0xcc] + [v];
      } else if v < 65536 {
        buf := buf + [0xcd];
        Be(v, 2);
      } else if v <= 0xffff_ffff {
        buf := buf + [0xce];
        Be(v, 4);
      } else {
        buf := buf + [0xcf];
        Be(v, 8);
      }
      assert buf == old(buf) + UIntBytes(v);
    }

    method PutInt(v: I64)
      modifies this
      ensures buf == old(buf) + Encode(OfInt(v))
    {
      hide BE, UIntBytes;
      if v >= 0 {
        PutUInt(v);
        return;
      }
      if v >= -32 {
        buf := buf + [256 + v];
        return;
      }
      buf := buf + [0xd3];
      Be(WORD + v, 8);
      assert buf == old(buf) + IntBytes(v);
    }

    method PutF64(bits: U64)
      modifies this
      ensures buf == old(buf) + Encode(OfF64(bits))
    {
      hide BE;
      buf := buf + [0xcb];
      Be(bits, 8);
    }
  }

  datatype Result<T> = Ok(v: T) | Err(error: Error)

  /** Values read so far in front of what is still to read. */
  ghost function Behind(vs: seq<Value>, r: ListRead): ListRead {
    match r case NoList(e) => NoList(e) case Items(rest, t) => Items(vs + rest, t)
  }

  ghost function BehindPairs(ps: seq<Binding>, r: PairsRead): PairsRead {
    match r case NoPairs(e) => NoPairs(e) case Pairs(rest, t) => Pairs(ps + rest, t)
  }

  class Reader {
    const data: seq<Byte>
    var pos: nat

    constructor (bytes: seq<Byte>)
      ensures data == bytes && pos == 0
    {
      data, pos := bytes, 0;
    }

    ghost predicate Valid() reads this { pos <= |data| }

    method ReadByte() returns (r: Result<Byte>)
      requires Valid()
      modifies this
      ensures Valid() && pos >= old(pos)
      ensures if old(pos) < |data| then r == Ok(data[old(pos)]) && pos == old(pos) + 1 else r == Err(Truncated)
    {
      if pos >= |data| { return Err(Truncated); }
      r := Ok(data[pos]);
      pos := pos + 1;
    }

    method Be(bytes: nat) returns (r: Result<nat>)
      requires Valid()
      modifies this
      ensures Valid() && pos >= old(pos)
      ensures if old(pos) + bytes <= |data| then r == Ok(Fold(0, data, old(pos), bytes)) && pos == old(pos) + bytes
              else r == Err(Truncated)
    {
      var v: nat := 0;
      for i := 0 to bytes
        invariant Valid() && pos == old(pos) + i
        invariant old(pos) + bytes <= |data| ==> Fold(v, data, pos, bytes - i) == Fold(0, data, old(pos), bytes)
      {
        var c := ReadByte();
        if c.Err? { return Err(Truncated); }
        v := v * 256 + c.v;
      }
      r := Ok(v);
    }

    /** A tag's number, wrapped up. */
    method Tagged(bytes: nat, f: nat -> Head) returns (r: Result<Head>)
      requires Valid()
      modifies this
      ensures Valid() && pos >= old(pos)
      ensures match Number(data, old(pos), bytes, f)
              case NoHead(e) => r == Err(e)
              case Got(h, q) => r == Ok(h) && pos == q
    {
      var n := Be(bytes);
      r := if n.Ok? then Ok(f(n.v)) else Err(n.error);
    }

    method ReadHead() returns (r: Result<Head>)
      requires Valid()
      modifies this
      ensures Valid() && pos >= old(pos)
      ensures match MsgPack.ReadHead(data, old(pos))
              case NoHead(e) => r == Err(e)
              case Got(h, q) => r == Ok(h) && pos == q
    {
      hide Number;
      var first := ReadByte();
      if first.Err? { return Err(first.error); }
      var c := first.v;
      if c <= 0x7f { return Ok(Scalar(UInt(c))); }
      if c >= 0xe0 { return Ok(Scalar(Int(Signed(c, 0x80)))); }
      if c < 0x90 { return Ok(MapOf(c - 0x80)); }
      if c < 0xa0 { return Ok(ArrOf(c - 0x90)); }
      if c < 0xc0 { return Ok(StrOf(c - 0xa0)); }
      match c {
        case 0xc0 => r := Ok(Scalar(Nil));
        case 0xc2 => r := Ok(Scalar(Bool(false)));
        case 0xc3 => r := Ok(Scalar(Bool(true)));
        case 0xc4 => r := Tagged(1, (n: nat) => BinOf(n));
        case 0xc5 => r := Tagged(2, (n: nat) => BinOf(n));
        case 0xc6 => r := Tagged(4, (n: nat) => BinOf(n));
        case 0xca => r := Tagged(4, (n: nat) => Scalar(Float32(n)));
        case 0xcb => r := Tagged(8, (n: nat) => Scalar(Float64(n)));
        case 0xcc => r := Tagged(1, (n: nat) => Scalar(UInt(n)));
        case 0xcd => r := Tagged(2, (n: nat) => Scalar(UInt(n)));
        case 0xce => r := Tagged(4, (n: nat) => Scalar(UInt(n)));
        case 0xcf => r := Tagged(8, (n: nat) => Scalar(UInt(n)));
        case 0xd0 => r := Tagged(1, (n: nat) => Scalar(Int(Signed(n, 0x80))));
        case 0xd1 => r := Tagged(2, (n: nat) => Scalar(Int(Signed(n, 0x8000))));
        case 0xd2 => r := Tagged(4, (n: nat) => Scalar(Int(Signed(n, 0x8000_0000))));
        case 0xd3 => r := Tagged(8, (n: nat) => Scalar(Int(Signed(n, 0x8000_0000_0000_0000))));
        case 0xd9 => r := Tagged(1, (n: nat) => StrOf(n));
        case 0xda => r := Tagged(2, (n: nat) => StrOf(n));
        case 0xdb => r := Tagged(4, (n: nat) => StrOf(n));
        case 0xdc => r := Tagged(2, (n: nat) => ArrOf(n));
        case 0xdd => r := Tagged(4, (n: nat) => ArrOf(n));
        case 0xde => r := Tagged(2, (n: nat) => MapOf(n));
        case 0xdf => r := Tagged(4, (n: nat) => MapOf(n));
        case _ => r := Err(BadByte);
      }
    }

    method ReadBytes(n: nat) returns (r: Result<seq<Byte>>)
      requires Valid()
      modifies this
      ensures Valid() && pos >= old(pos)
      ensures if old(pos) + n <= |data| then r == Ok(data[old(pos)..old(pos) + n]) && pos == old(pos) + n
              else r == Err(Overrun)
    {
      if pos + n > |data| { return Err(Overrun); }
      r := Ok(data[pos..pos + n]);
      pos := pos + n;
    }

    method ReadValue() returns (r: Result<Value>)
      requires Valid()
      modifies this
      ensures Valid() && pos >= old(pos)
      ensures match MsgPack.ReadValue(data, old(pos))
              case Fail(e) => r == Err(e)
              case Done(v, q) => r == Ok(v) && pos == q
      decreases |data| - pos, 0
    {
      hide MsgPack.ReadHead;
      var head := ReadHead();
      if head.Err? { return Err(head.error); }
      match head.v {
        case Scalar(v) => r := Ok(v);
        case StrOf(n) => var s := ReadBytes(n); r := if s.Ok? then Ok(Str(s.v)) else Err(s.error);
        case BinOf(n) => var d := ReadBytes(n); r := if d.Ok? then Ok(Bin(d.v)) else Err(d.error);
        case ArrOf(n) => r := ReadArr(n);
        case MapOf(n) => r := ReadMap(n);
      }
    }

    method ReadArr(n: nat) returns (r: Result<Value>)
      requires Valid()
      modifies this
      ensures Valid() && pos >= old(pos)
      ensures match ReadItems(data, old(pos), n)
              case NoList(e) => r == Err(e)
              case Items(vs, q) => r == Ok(Arr(vs)) && pos == q
      decreases |data| - pos, 1
    {
      var vs: seq<Value> := [];
      for k := 0 to n
        invariant Valid() && pos >= old(pos)
        invariant ReadItems(data, old(pos), n) == Behind(vs, ReadItems(data, pos, n - k))
      {
        var v := ReadValue();
        if v.Err? { return Err(v.error); }
        vs := vs + [v.v];
      }
      assert vs + [] == vs;
      r := Ok(Arr(vs));
    }

    method ReadMap(n: nat) returns (r: Result<Value>)
      requires Valid()
      modifies this
      ensures Valid() && pos >= old(pos)
      ensures match ReadPairs(data, old(pos), n)
              case NoPairs(e) => r == Err(e)
              case Pairs(ps, q) => r == Ok(Map(ps)) && pos == q
      decreases |data| - pos, 1
    {
      var ps: seq<Binding> := [];
      for k := 0 to n
        invariant Valid() && pos >= old(pos)
        invariant ReadPairs(data, old(pos), n) == BehindPairs(ps, ReadPairs(data, pos, n - k))
      {
        var key := ReadValue();
        if key.Err? { return Err(key.error); }
        var val := ReadValue();
        if val.Err? { return Err(val.error); }
        ps := ps + [Binding(key.v, val.v)];
      }
      assert ps + [] == ps;
      r := Ok(Map(ps));
    }
  }
}
