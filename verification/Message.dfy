/** The bus message: a byte buffer that typed Set calls extend, a cursor that typed Get calls
    advance, and a meta section at the end that is found through a five-byte trailer. */
module Messages {
  import opened Bytes
  import opened MsgPack

  // ---- What Set calls write ---------------------------------------------------------------

  /** The argument of one Set call; a nested message is given by the values it was filled with. */
  datatype Value =
    | VString(s: CString)
    | VBytes(b: seq<byte>)
    | VInt32(i: int32)
    | VInt64(l: int64)
    | VDouble(bits: seq<byte>)
    | VMessage(items: seq<Value>)

  function Encode(v: Value): seq<byte>
    decreases v
  {
    match v
    case VString(s) => PackStr(s + [0])
    case VBytes(b) => PackBin(b)
    case VInt32(i) => PackInt(i)
    case VInt64(l) => PackInt(l)
    case VDouble(bits) => PackDouble(bits)
    case VMessage(items) => PackBin(EncodeAll(items))
  }

  function EncodeAll(vs: seq<Value>): seq<byte>
    decreases vs
  {
    if |vs| == 0 then [] else Encode(vs[0]) + EncodeAll(vs[1..])
  }

  /** The sizes that the C types of the Set calls can express, at every level of nesting. */
  predicate Fits(v: Value)
    decreases v
  {
    match v
    case VString(s) => |s| + 1 < 0x8000_0000
    case VBytes(b) => |b| < 0x1_0000_0000
    case VInt32(_) => true
    case VInt64(_) => true
    case VDouble(bits) => |bits| == 8
    case VMessage(items) => |EncodeAll(items)| < 0x1_0000_0000 && AllFit(items)
  }

  predicate AllFit(vs: seq<Value>)
    decreases vs
  {
    |vs| > 0 ==> Fits(vs[0]) && AllFit(vs[1..])
  }

  // ---- What Get calls read ----------------------------------------------------------------

  datatype Kind = KString | KBytes | KInt32 | KInt64 | KDouble | KMessage

  datatype Got =
    | GotString(s: CString)
    | GotBytes(b: seq<byte>)
    | GotInt(i: int)
    | GotDouble(bits: seq<byte>)
    | GotMessage(sbuf: seq<byte>)

  datatype GetResult = GetResult(got: Option<Got>, next: int)

  /** The object at a cursor. A cursor below zero is one that `size_t` arithmetic wrapped. */
  function Unpack(sbuf: seq<byte>, offset: int): Option<Parsed> {
    if 0 <= offset < |sbuf| then Parse(sbuf[offset..]) else None
  }

  function Convert(obj: Obj, kind: Kind): Option<Got> {
    match (obj, kind)
    case (Str(p), KString) => Some(GotString(CStr(p)))
    case (Bin(p), KBytes) => Some(GotBytes(p))
    case (Bin(p), KMessage) => Some(GotMessage(p))
    case (Int(i), KInt32) => Some(GotInt(Wrap32(i)))
    case (Int(i), KInt64) => Some(GotInt(i))
    case (Float(p), KDouble) => Some(GotDouble(p))
    case _ => None
  }

  /** One Get: the cursor passes over a well-formed item even when the item has the wrong type. */
  function Get(sbuf: seq<byte>, offset: int, kind: Kind): GetResult {
    match Unpack(sbuf, offset)
    case None => GetResult(None, offset)
    case Some(parsed) => GetResult(Convert(parsed.obj, kind), offset + parsed.size)
  }

  // ---- The meta section -------------------------------------------------------------------

  /** `offset | 0x80000000`, converted back to `int32_t`. */
  function Masked(offset: int32): int32 {
    if offset >= 0 then offset - 0x8000_0000 else offset
  }

  function ClearMask(sbuf: seq<byte>): seq<byte>
    requires |sbuf| >= 4
  {
    sbuf[|sbuf| - 4 := sbuf[|sbuf| - 4] % 0x80]
  }

  function CloseSection(sbuf: seq<byte>, metaOffset: int32): seq<byte>
    requires |sbuf| + |PackInt(Masked(metaOffset))| >= 4
  {
    ClearMask(sbuf + PackInt(Masked(metaOffset)))
  }

  lemma SectionHasRoom(sbuf: seq<byte>, fields: seq<byte>)
    ensures |sbuf + fields| + |PackInt(Masked(Wrap32(|sbuf|)))| >= 4
  {
  }

  /** A buffer after a whole meta section was written to it. */
  function WithSection(sbuf: seq<byte>, fields: seq<byte>): seq<byte> {
    SectionHasRoom(sbuf, fields);
    CloseSection(sbuf + fields, Wrap32(|sbuf|))
  }

  /** Where a reader believes the meta section starts: zero when the trailer is unreadable. */
  function SectionStart(sbuf: seq<byte>): int {
    match Get(sbuf, |sbuf| - 5, KInt32).got
    case Some(GotInt(start)) => start
    case _ => 0
  }

  /** `writable` records whether the packer was set up: it is by Init and is not by FromBytes. */
  class RbusMessage {
    const writable: bool
    var sbuf: seq<byte>
    var readOffset: int
    var metaOffset: int32

    constructor Init()
      ensures writable && sbuf == [] && readOffset == 0 && metaOffset == 0
    {
      writable, sbuf, readOffset, metaOffset := true, [], 0, 0;
    }

    constructor FromBytes(bytes: seq<byte>)
      ensures !writable && sbuf == bytes && readOffset == 0 && metaOffset == 0
    {
      writable, sbuf, readOffset, metaOffset := false, bytes, 0, 0;
    }

    /** A message that an application made with Init and filled to `contents`. */
    constructor Filled(contents: seq<byte>)
      ensures writable && sbuf == contents && readOffset == 0 && metaOffset == 0
    {
      writable, sbuf, readOffset, metaOffset := true, contents, 0, 0;
    }

    method ToBytes() returns (bytes: seq<byte>)
      ensures bytes == sbuf
    {
      bytes := sbuf;
    }

    method SetString(value: CString)
      requires writable && Fits(VString(value))
      modifies this`sbuf
      ensures sbuf == old(sbuf) + Encode(VString(value))
    {
      sbuf := sbuf + PackStr(value + [0]);
    }

    method SetBytes(bytes: seq<byte>)
      requires writable && Fits(VBytes(bytes))
      modifies this`sbuf
      ensures sbuf == old(sbuf) + Encode(VBytes(bytes))
    {
      sbuf := sbuf + PackBin(bytes);
    }

    method SetInt32(value: int32)
      requires writable
      modifies this`sbuf
      ensures sbuf == old(sbuf) + Encode(VInt32(value))
    {
      sbuf := sbuf + PackInt(value);
    }

    method SetInt64(value: int64)
      requires writable
      modifies this`sbuf
      ensures sbuf == old(sbuf) + Encode(VInt64(value))
    {
      sbuf := sbuf + PackInt(value);
    }

    method SetDouble(bits: seq<byte>)
      requires writable && Fits(VDouble(bits))
      modifies this`sbuf
      ensures sbuf == old(sbuf) + Encode(VDouble(bits))
    {
      sbuf := sbuf + PackDouble(bits);
    }

    /** The nested message goes in whole, meta sections included, wherever its cursor stands. */
    method SetMessage(item: RbusMessage)
      requires writable && |item.sbuf| < 0x1_0000_0000
      modifies this`sbuf
      ensures sbuf == old(sbuf) + Encode(VBytes(old(item.sbuf)))
    {
      sbuf := sbuf + PackBin(item.sbuf);
    }

    method UnpackNextItem() returns (obj: Option<Obj>)
      modifies this`readOffset
      ensures match Unpack(sbuf, old(readOffset))
              case None => obj == None && readOffset == old(readOffset)
              case Some(parsed) => obj == Some(parsed.obj) && readOffset == old(readOffset) + parsed.size
    {
      obj := None;
      var parsed := Unpack(sbuf, readOffset);
      if parsed.Some? {
        obj := Some(parsed.value.obj);
        readOffset := readOffset + parsed.value.size;
      }
    }

    method GetString() returns (value: Option<CString>)
      modifies this`readOffset
      ensures var r := Get(sbuf, old(readOffset), KString);
              readOffset == r.next && (value.Some? <==> r.got.Some?)
              && (value.Some? ==> r.got == Some(GotString(value.value)))
    {
      value := None;
      var obj := UnpackNextItem();
      if obj.Some? && obj.value.Str? {
        value := Some(CStr(obj.value.chars));
      }
    }

    method GetBytes() returns (value: Option<seq<byte>>)
      modifies this`readOffset
      ensures var r := Get(sbuf, old(readOffset), KBytes);
              readOffset == r.next && (value.Some? <==> r.got.Some?)
              && (value.Some? ==> r.got == Some(GotBytes(value.value)))
    {
      value := None;
      var obj := UnpackNextItem();
      if obj.Some? && obj.value.Bin? {
        value := Some(obj.value.bytes);
      }
    }

    method GetInt32() returns (value: Option<int32>)
      modifies this`readOffset
      ensures var r := Get(sbuf, old(readOffset), KInt32);
              readOffset == r.next && (value.Some? <==> r.got.Some?)
              && (value.Some? ==> r.got == Some(GotInt(value.value)))
    {
      value := None;
      var obj := UnpackNextItem();
      if obj.Some? && obj.value.Int? {
        value := Some(Wrap32(obj.value.i64));
      }
    }

    method GetInt64() returns (value: Option<int>)
      modifies this`readOffset
      ensures var r := Get(sbuf, old(readOffset), KInt64);
              readOffset == r.next && (value.Some? <==> r.got.Some?)
              && (value.Some? ==> r.got == Some(GotInt(value.value)))
    {
      value := None;
      var obj := UnpackNextItem();
      if obj.Some? && obj.value.Int? {
        value := Some(obj.value.i64);
      }
    }

    method GetDouble() returns (value: Option<seq<byte>>)
      modifies this`readOffset
      ensures var r := Get(sbuf, old(readOffset), KDouble);
              readOffset == r.next && (value.Some? <==> r.got.Some?)
              && (value.Some? ==> r.got == Some(GotDouble(value.value)))
    {
      value := None;
      var obj := UnpackNextItem();
      if obj.Some? && obj.value.Float? {
        value := Some(obj.value.bits);
      }
    }

    /** The nested message is a fresh one whose own cursor is at its start. */
    method GetMessage() returns (value: Option<RbusMessage>)
      modifies this`readOffset
      ensures var r := Get(sbuf, old(readOffset), KMessage);
              readOffset == r.next && (value.Some? <==> r.got.Some?)
              && (value.Some? ==> fresh(value.value) && r.got == Some(GotMessage(value.value.sbuf))
                                  && value.value.readOffset == 0 && !value.value.writable)
    {
      value := None;
      var obj := UnpackNextItem();
      if obj.Some? && obj.value.Bin? {
        var m := new RbusMessage.FromBytes(obj.value.bytes);
        value := Some(m);
      }
    }

    method BeginMetaSectionWrite()
      requires writable
      modifies this`metaOffset
      ensures metaOffset == Wrap32(|sbuf|)
    {
      metaOffset := Wrap32(|sbuf|);
    }

    method EndMetaSectionWrite()
      requires writable && |sbuf| + |PackInt(Masked(metaOffset))| >= 4
      modifies this`sbuf
      ensures sbuf == CloseSection(old(sbuf), metaOffset)
    {
      sbuf := sbuf + PackInt(Masked(metaOffset));
      sbuf := sbuf[|sbuf| - 4 := sbuf[|sbuf| - 4] % 0x80];
    }

    method BeginMetaSectionRead()
      modifies this`readOffset, this`metaOffset
      ensures readOffset == SectionStart(sbuf)
      ensures metaOffset == Wrap32(old(readOffset))
    {
      var sectionOffset: int32 := 0;
      metaOffset := Wrap32(readOffset);
      readOffset := |sbuf| - 5;
      var value := GetInt32();
      if value.Some? {
        sectionOffset := value.value;
      }
      readOffset := sectionOffset;
    }

    method EndMetaSectionRead()
      modifies this`readOffset
      ensures readOffset == metaOffset
    {
      readOffset := metaOffset;
    }
  }
}
