/** The part of the MessagePack format that the bus uses: the int, str and bin families and
    64-bit floats, written with the smallest format that fits, as its specification asks. */
module MsgPack {
  import opened Bytes

  /** An unpacked object. Positive and negative integers share one constructor, because every
      reader accepts both and looks at the signed 64-bit value. */
  datatype Obj = Int(i64: int) | Str(chars: seq<byte>) | Bin(bytes: seq<byte>) | Float(bits: seq<byte>)

  datatype Parsed = Parsed(obj: Obj, size: nat)

  function PackInt(v: int64): (s: seq<byte>)
    ensures 1 <= |s| <= 9
  {
    if v < -0x8000_0000 then [0xd3] + BE(v + 0x1_0000_0000_0000_0000, 8)
    else if v < -0x8000 then [0xd2] + BE(v + 0x1_0000_0000, 4)
    else if v < -0x80 then [0xd1] + BE(v + 0x1_0000, 2)
    else if v < -0x20 then [0xd0] + BE(v + 0x100, 1)
    else if v < 0 then [v + 0x100]
    else if v < 0x80 then [v]
    else if v < 0x100 then [0xcc] + BE(v, 1)
    else if v < 0x1_0000 then [0xcd] + BE(v, 2)
    else if v < 0x1_0000_0000 then [0xce] + BE(v, 4)
    else [0xcf] + BE(v, 8)
  }

  /** The length field holds 32 bits: longer strings lose the rest of their length. */
  function PackStr(s: seq<byte>): seq<byte> {
    (if |s| < 0x20 then [0xa0 + |s|]
     else if |s| < 0x100 then [0xd9] + BE(|s|, 1)
     else if |s| < 0x1_0000 then [0xda] + BE(|s|, 2)
     else [0xdb] + BE(|s|, 4)) + s
  }

  function PackBin(s: seq<byte>): seq<byte> {
    (if |s| < 0x100 then [0xc4] + BE(|s|, 1)
     else if |s| < 0x1_0000 then [0xc5] + BE(|s|, 2)
     else [0xc6] + BE(|s|, 4)) + s
  }

  function PackDouble(bits: seq<byte>): seq<byte> {
    [0xcb] + bits
  }

  /** The `n`-byte number behind the tag byte, or nothing when the input is too short. */
  function Field(s: seq<byte>, n: nat): Option<nat> {
    if |s| < 1 + n then None else Some(FromBE(s[1..1 + n]))
  }

  function ParseUnsigned(s: seq<byte>, n: nat): Option<Parsed> {
    match Field(s, n)
    case None => None
    case Some(v) =>
      Some(Parsed(Int(if v < 0x8000_0000_0000_0000 then v else v - 0x1_0000_0000_0000_0000), 1 + n))
  }

  function ParseSigned(s: seq<byte>, n: nat): Option<Parsed> {
    match Field(s, n)
    case None => None
    case Some(v) => Some(Parsed(Int(if 2 * v < Pow256(n) then v else v - Pow256(n)), 1 + n))
  }

  function Payload(s: seq<byte>, from: nat, len: nat): Option<seq<byte>> {
    if |s| < from + len then None else Some(s[from..from + len])
  }

  function ParseStr(s: seq<byte>, header: nat, len: nat): Option<Parsed> {
    match Payload(s, header, len)
    case None => None
    case Some(p) => Some(Parsed(Str(p), header + len))
  }

  function ParseLongStr(s: seq<byte>, n: nat): Option<Parsed> {
    match Field(s, n)
    case None => None
    case Some(len) => ParseStr(s, 1 + n, len)
  }

  function ParseBin(s: seq<byte>, n: nat): Option<Parsed> {
    match Field(s, n)
    case None => None
    case Some(len) =>
      match Payload(s, 1 + n, len)
      case None => None
      case Some(p) => Some(Parsed(Bin(p), 1 + n + len))
  }

  function ParseFloat(s: seq<byte>): Option<Parsed> {
    match Payload(s, 1, 8)
    case None => None
    case Some(p) => Some(Parsed(Float(p), 9))
  }

  /** The object at the front of `s`. Nil, booleans, 32-bit floats, extensions and containers,
      which no bus call writes, are not represented and count as unparseable. */
  function Parse(s: seq<byte>): Option<Parsed> {
    if |s| == 0 then None
    else
      var tag: int := s[0];
      if tag < 0x80 then Some(Parsed(Int(tag), 1))
      else if tag < 0xa0 then None
      else if tag < 0xc0 then ParseStr(s, 1, tag - 0xa0)
      else if tag == 0xc4 then ParseBin(s, 1)
      else if tag == 0xc5 then ParseBin(s, 2)
      else if tag == 0xc6 then ParseBin(s, 4)
      else if tag == 0xcb then ParseFloat(s)
      else if tag == 0xcc then ParseUnsigned(s, 1)
      else if tag == 0xcd then ParseUnsigned(s, 2)
      else if tag == 0xce then ParseUnsigned(s, 4)
      else if tag == 0xcf then ParseUnsigned(s, 8)
      else if tag == 0xd0 then ParseSigned(s, 1)
      else if tag == 0xd1 then ParseSigned(s, 2)
      else if tag == 0xd2 then ParseSigned(s, 4)
      else if tag == 0xd3 then ParseSigned(s, 8)
      else if tag == 0xd9 then ParseLongStr(s, 1)
      else if tag == 0xda then ParseLongStr(s, 2)
      else if tag == 0xdb then ParseLongStr(s, 4)
      else if tag < 0xe0 then None
      else Some(Parsed(Int(tag - 0x100), 1))
  }

  lemma FieldOfTagged(tag: byte, v: nat, n: nat, rest: seq<byte>)
    requires v < Pow256(n)
    ensures Field([tag] + BE(v, n) + rest, n) == Some(v)
  {
    BERoundTrip(v, n);
    assert ([tag] + BE(v, n) + rest)[1..1 + n] == BE(v, n);
  }

  /** Every integer is parsed back to itself, and exactly its own bytes are consumed. */
  lemma ParsePackInt(v: int64, rest: seq<byte>)
    ensures Parse(PackInt(v) + rest) == Some(Parsed(Int(v), |PackInt(v)|))
  {
    Pow256Values();
    if v < -0x8000_0000 {
      FieldOfTagged(0xd3, v + 0x1_0000_0000_0000_0000, 8, rest);
    } else if v < -0x8000 {
      FieldOfTagged(0xd2, v + 0x1_0000_0000, 4, rest);
    } else if v < -0x80 {
      FieldOfTagged(0xd1, v + 0x1_0000, 2, rest);
    } else if v < -0x20 {
      FieldOfTagged(0xd0, v + 0x100, 1, rest);
    } else if v < 0x80 {
    } else if v < 0x100 {
      FieldOfTagged(0xcc, v, 1, rest);
    } else if v < 0x1_0000 {
      FieldOfTagged(0xcd, v, 2, rest);
    } else if v < 0x1_0000_0000 {
      FieldOfTagged(0xce, v, 4, rest);
    } else {
      FieldOfTagged(0xcf, v, 8, rest);
    }
  }

  /** A tag, an `n`-byte length, the payload and whatever follows: the two pieces a reader cuts out. */
  lemma SplitTagged(tag: byte, n: nat, s: seq<byte>, rest: seq<byte>)
    requires |s| < Pow256(n)
    ensures var packed := [tag] + BE(|s|, n) + s + rest;
            Field(packed, n) == Some(|s|) && Payload(packed, 1 + n, |s|) == Some(s)
  {
    var packed := [tag] + BE(|s|, n) + s + rest;
    FieldOfTagged(tag, |s|, n, s + rest);
    assert packed == [tag] + BE(|s|, n) + (s + rest);
    assert packed[1 + n..1 + n + |s|] == s;
  }

  lemma ParsePackStr(s: seq<byte>, rest: seq<byte>)
    requires |s| < 0x1_0000_0000
    ensures Parse(PackStr(s) + rest) == Some(Parsed(Str(s), |PackStr(s)|))
  {
    Pow256Values();
    if |s| < 0x20 {
      assert (PackStr(s) + rest)[1..1 + |s|] == s;
    } else if |s| < 0x100 {
      SplitTagged(0xd9, 1, s, rest);
    } else if |s| < 0x1_0000 {
      SplitTagged(0xda, 2, s, rest);
    } else {
      SplitTagged(0xdb, 4, s, rest);
    }
  }

  lemma ParsePackBin(s: seq<byte>, rest: seq<byte>)
    requires |s| < 0x1_0000_0000
    ensures Parse(PackBin(s) + rest) == Some(Parsed(Bin(s), |PackBin(s)|))
  {
    Pow256Values();
    if |s| < 0x100 {
      SplitTagged(0xc4, 1, s, rest);
    } else if |s| < 0x1_0000 {
      SplitTagged(0xc5, 2, s, rest);
    } else {
      SplitTagged(0xc6, 4, s, rest);
    }
  }

  lemma ParsePackDouble(bits: seq<byte>, rest: seq<byte>)
    requires |bits| == 8
    ensures Parse(PackDouble(bits) + rest) == Some(Parsed(Float(bits), |PackDouble(bits)|))
  {
    assert (PackDouble(bits) + rest)[1..9] == bits;
  }
}
