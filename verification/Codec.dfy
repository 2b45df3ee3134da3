/** Theorems about the message codec: every Get undoes its Set, the cursor always stops on an
    item boundary, and the meta section that counts is the last one written. */
module Codec {
  import opened Bytes
  import opened MsgPack
  import opened Messages

  /** What a Get of `kind` has to return for an item that was Set to `v`, said without bytes. */
  function Expected(v: Value, kind: Kind): Option<Got> {
    match (v, kind)
    case (VString(s), KString) => Some(GotString(s))
    case (VBytes(b), KBytes) => Some(GotBytes(b))
    case (VBytes(b), KMessage) => Some(GotMessage(b))
    case (VMessage(items), KBytes) => Some(GotBytes(EncodeAll(items)))
    case (VMessage(items), KMessage) => Some(GotMessage(EncodeAll(items)))
    case (VInt32(i), KInt32) => Some(GotInt(i))
    case (VInt32(i), KInt64) => Some(GotInt(i))
    case (VInt64(l), KInt32) => Some(GotInt(Wrap32(l)))
    case (VInt64(l), KInt64) => Some(GotInt(l))
    case (VDouble(bits), KDouble) => Some(GotDouble(bits))
    case _ => None
  }

  /** A Get on an item boundary, whatever surrounds the item and whatever type is asked for. */
  lemma GetAtItem(pre: seq<byte>, v: Value, post: seq<byte>, kind: Kind)
    requires Fits(v)
    ensures Get(pre + Encode(v) + post, |pre|, kind) == GetResult(Expected(v, kind), |pre| + |Encode(v)|)
  {
    assert (pre + Encode(v) + post)[|pre|..] == Encode(v) + post;
    match v {
      case VString(s) =>
        ParsePackStr(s + [0], post);
        CStrOfTerminated(s, []);
        assert s + [0] + [] == s + [0];
      case VBytes(b) => ParsePackBin(b, post);
      case VInt32(i) => ParsePackInt(i, post);
      case VInt64(l) => ParsePackInt(l, post);
      case VDouble(bits) => ParsePackDouble(bits, post);
      case VMessage(items) => ParsePackBin(EncodeAll(items), post);
    }
  }

  lemma Regroup(a: seq<byte>, b: seq<byte>, c: seq<byte>, d: seq<byte>)
    ensures a + (b + c) + d == a + b + (c + d) == (a + b) + c + d
    ensures (b + c) + d == b + (c + d)
  {
  }

  lemma FirstItem(pre: seq<byte>, vs: seq<Value>, post: seq<byte>)
    requires |vs| > 0
    ensures pre + EncodeAll(vs) + post == pre + Encode(vs[0]) + (EncodeAll(vs[1..]) + post)
    ensures pre + EncodeAll(vs) + post == (pre + Encode(vs[0])) + EncodeAll(vs[1..]) + post
  {
    Regroup(pre, Encode(vs[0]), EncodeAll(vs[1..]), post);
  }

  /** A run of Get calls: what each returned, and where the cursor ends. */
  datatype GetLog = GetLog(gots: seq<Option<Got>>, next: int)

  function GetRun(sbuf: seq<byte>, offset: int, kinds: seq<Kind>): GetLog
    decreases |kinds|
  {
    if |kinds| == 0 then GetLog([], offset)
    else
      var first := Get(sbuf, offset, kinds[0]);
      var rest := GetRun(sbuf, first.next, kinds[1..]);
      GetLog([first.got] + rest.gots, rest.next)
  }

  lemma GetRunCons(sbuf: seq<byte>, offset: int, kind: Kind, kinds: seq<Kind>)
    ensures var first := Get(sbuf, offset, kind);
            GetRun(sbuf, offset, [kind] + kinds).gots == [first.got] + GetRun(sbuf, first.next, kinds).gots
  {
    assert ([kind] + kinds)[1..] == kinds;
  }

  /** The first three answers of a run, one by one. */
  lemma FirstThree(sbuf: seq<byte>, offset: int, a: Kind, b: Kind, c: Kind, kinds: seq<Kind>)
    ensures var first := Get(sbuf, offset, a);
            var second := Get(sbuf, first.next, b);
            var third := Get(sbuf, second.next, c);
            GetRun(sbuf, offset, [a] + ([b] + ([c] + kinds))).gots
            == [first.got] + ([second.got] + ([third.got] + GetRun(sbuf, third.next, kinds).gots))
  {
    var first := Get(sbuf, offset, a);
    var second := Get(sbuf, first.next, b);
    GetRunCons(sbuf, offset, a, [b] + ([c] + kinds));
    GetRunCons(sbuf, first.next, b, [c] + kinds);
    GetRunCons(sbuf, second.next, c, kinds);
  }

  function ExpectedRun(vs: seq<Value>, kinds: seq<Kind>): (gots: seq<Option<Got>>)
    requires |kinds| <= |vs|
    ensures |gots| == |kinds|
    ensures forall i :: 0 <= i < |kinds| ==> gots[i] == Expected(vs[i], kinds[i])
  {
    seq(|kinds|, i requires 0 <= i < |kinds| => Expected(vs[i], kinds[i]))
  }

  lemma ExpectedRunCons(vs: seq<Value>, kinds: seq<Kind>)
    requires 0 < |kinds| <= |vs|
    ensures [Expected(vs[0], kinds[0])] + ExpectedRun(vs[1..], kinds[1..]) == ExpectedRun(vs, kinds)
    ensures EncodeAll(vs[..|kinds|]) == Encode(vs[0]) + EncodeAll(vs[1..][..|kinds| - 1])
  {
    assert vs[..|kinds|][1..] == vs[1..][..|kinds| - 1];
  }

  /** Any run of Gets over a filled message, matching types or not: call `i` answers for item `i`,
      and after `k` calls the cursor is on the boundary behind item `k`. */
  lemma {:induction false} GetRunFollowsItems(pre: seq<byte>, vs: seq<Value>, post: seq<byte>, kinds: seq<Kind>)
    requires AllFit(vs) && |kinds| <= |vs|
    ensures GetRun(pre + EncodeAll(vs) + post, |pre|, kinds)
            == GetLog(ExpectedRun(vs, kinds), |pre| + |EncodeAll(vs[..|kinds|])|)
    decreases |kinds|
  {
    if |kinds| == 0 {
    } else {
      var pre' := pre + Encode(vs[0]);
      FirstItem(pre, vs, post);
      GetAtItem(pre, vs[0], EncodeAll(vs[1..]) + post, kinds[0]);
      GetRunFollowsItems(pre', vs[1..], post, kinds[1..]);
      ExpectedRunCons(vs, kinds);
    }
  }

  /** Behind the last item every Get fails, of whatever type, and the cursor stays there. */
  lemma {:induction false} GetsBehindTheEnd(vs: seq<Value>, kinds: seq<Kind>)
    ensures var end := |EncodeAll(vs)|;
            GetRun(EncodeAll(vs), end, kinds) == GetLog(seq(|kinds|, _ => None), end)
    decreases |kinds|
  {
    if |kinds| > 0 {
      GetsBehindTheEnd(vs, kinds[1..]);
    }
  }

  lemma EncodeOne(v: Value)
    ensures EncodeAll([v]) == Encode(v)
  {
    assert [v][1..] == [];
    assert EncodeAll([v]) == Encode(v) + EncodeAll([]);
  }

  lemma {:induction false} EncodeAllConcat(a: seq<Value>, b: seq<Value>)
    ensures EncodeAll(a + b) == EncodeAll(a) + EncodeAll(b)
  {
    if |a| == 0 {
      assert a + b == b;
    } else {
      EncodeAllConcat(a[1..], b);
      assert (a + b)[0] == a[0] && (a + b)[1..] == a[1..] + b;
      Regroup([], Encode(a[0]), EncodeAll(a[1..]), EncodeAll(b));
    }
  }

  lemma EncodePush(vs: seq<Value>, v: Value)
    ensures EncodeAll(vs + [v]) == EncodeAll(vs) + Encode(v)
  {
    EncodeAllConcat(vs, [v]);
    EncodeOne(v);
  }

  /** One Get on the boundary in front of item `k` of a filled message. */
  lemma GetItem(vs: seq<Value>, k: nat, post: seq<byte>, kind: Kind)
    requires AllFit(vs) && k < |vs|
    ensures Get(EncodeAll(vs) + post, |EncodeAll(vs[..k])|, kind)
            == GetResult(Expected(vs[k], kind), |EncodeAll(vs[..k + 1])|)
  {
    var pre, v, rest := EncodeAll(vs[..k]), vs[k], EncodeAll(vs[k + 1..]);
    AllFitSuffix(vs, k);
    EncodeAllConcat(vs[..k], vs[k..]);
    assert vs[..k] + vs[k..] == vs;
    assert vs[k..][1..] == vs[k + 1..];
    EncodeAllConcat(vs[..k], [v]);
    EncodeOne(v);
    assert vs[..k + 1] == vs[..k] + [v];
    Regroup([], pre, Encode(v) + rest, post);
    Regroup(pre, Encode(v), rest, post);
    GetAtItem(pre, v, rest + post, kind);
  }

  // ---- Nested messages to any depth -------------------------------------------------------

  /** The Get calls of a reader that knows the layout, opening nested messages as it goes. */
  datatype Shape = One(kind: Kind) | Nested(shapes: seq<Shape>)

  function ShapeOf(v: Value): Shape
    decreases v
  {
    match v
    case VString(_) => One(KString)
    case VBytes(_) => One(KBytes)
    case VInt32(_) => One(KInt32)
    case VInt64(_) => One(KInt64)
    case VDouble(_) => One(KDouble)
    case VMessage(items) => Nested(ShapesOf(items))
  }

  function ShapesOf(vs: seq<Value>): seq<Shape>
    decreases vs
  {
    if |vs| == 0 then [] else [ShapeOf(vs[0])] + ShapesOf(vs[1..])
  }

  function ValueOf(got: Got, kind: Kind): Option<Value> {
    match (got, kind)
    case (GotString(s), _) => Some(VString(s))
    case (GotBytes(b), _) => Some(VBytes(b))
    case (GotInt(i), KInt32) => if -0x8000_0000 <= i < 0x8000_0000 then Some(VInt32(i)) else None
    case (GotInt(i), _) =>
      if -0x8000_0000_0000_0000 <= i < 0x8000_0000_0000_0000 then Some(VInt64(i)) else None
    case (GotDouble(bits), _) => Some(VDouble(bits))
    case (GotMessage(b), _) => Some(VBytes(b))
  }

  function ReadItem(sbuf: seq<byte>, offset: int, shape: Shape): Option<Value>
    decreases shape
  {
    match shape
    case One(kind) =>
      (match Get(sbuf, offset, kind).got
       case None => None
       case Some(got) => ValueOf(got, kind))
    case Nested(shapes) =>
      (match Get(sbuf, offset, KMessage).got
       case Some(GotMessage(inner)) =>
         (match ReadAll(inner, 0, shapes)
          case None => None
          case Some(items) => Some(VMessage(items)))
       case _ => None)
  }

  function ReadAll(sbuf: seq<byte>, offset: int, shapes: seq<Shape>): Option<seq<Value>>
    decreases shapes
  {
    if |shapes| == 0 then Some([])
    else
      var kind := if shapes[0].One? then shapes[0].kind else KMessage;
      match ReadItem(sbuf, offset, shapes[0])
      case None => None
      case Some(v) =>
        match ReadAll(sbuf, Get(sbuf, offset, kind).next, shapes[1..])
        case None => None
        case Some(vs) => Some([v] + vs)
  }

  lemma {:induction false} ReadItemBack(pre: seq<byte>, v: Value, post: seq<byte>)
    requires Fits(v)
    ensures ReadItem(pre + Encode(v) + post, |pre|, ShapeOf(v)) == Some(v)
    decreases v
  {
    if v.VMessage? {
      GetAtItem(pre, v, post, KMessage);
      var inner := EncodeAll(v.items);
      assert [] + inner + [] == inner;
      ReadAllBack([], v.items, []);
    } else {
      GetAtItem(pre, v, post, ShapeOf(v).kind);
    }
  }

  lemma ReadAllSteps(sbuf: seq<byte>, offset: int, shape: Shape, shapes: seq<Shape>)
    requires ReadItem(sbuf, offset, shape).Some?
    requires ReadAll(sbuf, Get(sbuf, offset, if shape.One? then shape.kind else KMessage).next, shapes).Some?
    ensures ReadAll(sbuf, offset, [shape] + shapes)
            == Some([ReadItem(sbuf, offset, shape).value]
                    + ReadAll(sbuf, Get(sbuf, offset, if shape.One? then shape.kind else KMessage).next, shapes).value)
  {
    assert ([shape] + shapes)[1..] == shapes;
  }

  /** Whatever was Set, to any depth of nesting, the matching Gets return: nothing is lost,
      reordered or read into a neighbour. */
  lemma {:induction false} ReadAllBack(pre: seq<byte>, vs: seq<Value>, post: seq<byte>)
    requires AllFit(vs)
    ensures ReadAll(pre + EncodeAll(vs) + post, |pre|, ShapesOf(vs)) == Some(vs)
    decreases vs
  {
    if |vs| == 0 {
    } else {
      var shape := ShapeOf(vs[0]);
      var kind := if shape.One? then shape.kind else KMessage;
      FirstItem(pre, vs, post);
      ReadItemBack(pre, vs[0], EncodeAll(vs[1..]) + post);
      GetAtItem(pre, vs[0], EncodeAll(vs[1..]) + post, kind);
      ReadAllBack(pre + Encode(vs[0]), vs[1..], post);
      ReadAllSteps(pre + EncodeAll(vs) + post, |pre|, shape, ShapesOf(vs[1..]));
      assert [vs[0]] + vs[1..] == vs;
    }
  }

  lemma {:induction false} AllFitConcat(a: seq<Value>, b: seq<Value>)
    requires AllFit(a) && AllFit(b)
    ensures AllFit(a + b)
  {
    if |a| == 0 {
      assert a + b == b;
    } else {
      AllFitConcat(a[1..], b);
      assert (a + b)[1..] == a[1..] + b;
    }
  }

  lemma FitsAlone(v: Value)
    requires Fits(v)
    ensures AllFit([v])
  {
    assert [v][1..] == [];
  }

  /** The round trip of a whole message: fill it, ship its bytes, read them from the start. */
  lemma RoundTrip(vs: seq<Value>)
    requires AllFit(vs)
    ensures ReadAll(EncodeAll(vs), 0, ShapesOf(vs)) == Some(vs)
  {
    ReadAllBack([], vs, []);
    assert [] + EncodeAll(vs) + [] == EncodeAll(vs);
  }

  // ---- The trailer ------------------------------------------------------------------------

  /** Section starts below this are packed as five bytes; from here on the packer finds a shorter form. */
  const TRAILER_LIMIT: nat := 0x8000_0000 - 0x8000

  lemma FromBE4(s: seq<byte>)
    requires |s| == 4
    ensures FromBE(s) == s[0] as int * 0x100_0000 + s[1] as int * 0x1_0000 + s[2] as int * 0x100 + s[3]
  {
    assert s[..3][..2] == s[..2] && s[..2][..1] == s[..1];
    assert FromBE(s[..1]) == s[0];
    assert FromBE(s[..2]) == s[0] as int * 0x100 + s[1];
    assert FromBE(s[..3]) == s[0] as int * 0x1_0000 + s[1] as int * 0x100 + s[2];
  }

  lemma ClearMaskOfFive(sbuf: seq<byte>, tag: byte, quad: seq<byte>)
    requires |quad| == 4
    ensures ClearMask(sbuf + ([tag] + quad)) == sbuf + ([tag] + quad[0 := quad[0] % 0x80])
  {
    var whole := sbuf + ([tag] + quad);
    assert |whole| - 4 == |sbuf| + 1;
    assert whole[|sbuf| + 1] == quad[0];
  }

  /** Adding half the range of `k` bytes sets the top bit of the first byte and nothing else. */
  lemma {:induction false} TopBit(v: nat, k: nat)
    requires k > 0 && v < 0x80 * Pow256(k - 1)
    ensures var high := BE(v + 0x80 * Pow256(k - 1), k);
            high[0 := high[0] % 0x80] == BE(v, k)
  {
    var half := 0x80 * Pow256(k - 1);
    if k == 1 {
    } else {
      var half' := 0x80 * Pow256(k - 2);
      assert half == 0x100 * half';
      assert (v + half) / 0x100 == v / 0x100 + half' && (v + half) % 0x100 == v % 0x100;
      TopBit(v / 0x100, k - 1);
    }
  }

  /** Packing the masked offset and clearing the mask leaves 0xd2 and the plain offset. */
  lemma TrailerBytes(sbuf: seq<byte>, offset: int32)
    requires 0 <= offset < TRAILER_LIMIT
    ensures CloseSection(sbuf, offset) == sbuf + ([0xd2] + BE(offset, 4))
  {
    assert PackInt(Masked(offset)) == [0xd2] + BE(offset + 0x8000_0000, 4);
    ClearMaskOfFive(sbuf, 0xd2, BE(offset + 0x8000_0000, 4));
    assert 0x80 * Pow256(3) == 0x8000_0000;
    TopBit(offset, 4);
  }

  lemma SectionBytes(pre: seq<byte>, fields: seq<byte>)
    requires |pre| < TRAILER_LIMIT
    ensures WithSection(pre, fields) == pre + fields + ([0xd2] + BE(|pre|, 4))
  {
    TrailerBytes(pre + fields, |pre|);
  }

  lemma TrailerParses(start: nat)
    requires start < TRAILER_LIMIT
    ensures Parse([0xd2] + BE(start, 4)) == Some(Parsed(Int(start), 5))
  {
    Pow256Values();
    FieldOfTagged(0xd2, start, 4, []);
    assert [0xd2] + BE(start, 4) + [] == [0xd2] + BE(start, 4);
  }

  lemma StartFromTrailer(front: seq<byte>, start: nat)
    requires start < TRAILER_LIMIT
    ensures SectionStart(front + ([0xd2] + BE(start, 4))) == start
  {
    var trailer := [0xd2] + BE(start, 4);
    assert |trailer| == 5;
    var sbuf := front + trailer;
    assert sbuf[|sbuf| - 5..] == trailer;
    TrailerParses(start);
  }

  lemma SectionStartRecovered(pre: seq<byte>, fields: seq<byte>)
    requires |pre| < TRAILER_LIMIT
    ensures SectionStart(WithSection(pre, fields)) == |pre|
  {
    SectionBytes(pre, fields);
    StartFromTrailer(pre + fields, |pre|);
  }

  lemma {:induction false} FromBEBound(s: seq<byte>)
    ensures FromBE(s) < Pow256(|s|)
  {
    if |s| == 0 {
    } else {
      FromBEBound(s[..|s| - 1]);
    }
  }

  /** Only the two four-byte forms can carry an offset this large inside five bytes. */
  lemma LargeOffsetForm(tail: seq<byte>, start: nat)
    requires |tail| == 5 && TRAILER_LIMIT <= start < 0x8000_0000
    requires Parse(tail).Some? && Parse(tail).value.obj.Int? && Wrap32(Parse(tail).value.obj.i64) == start
    ensures (tail[0] == 0xce || tail[0] == 0xd2) && FromBE(tail[1..5]) == start
  {
    Pow256Values();
    FromBEBound(tail[1..2]);
    FromBEBound(tail[1..3]);
    FromBEBound(tail[1..5]);
    assert tail[0] == 0xce || tail[0] == 0xd2;
  }

  lemma FourByteForm(tail: seq<byte>, start: nat)
    requires |tail| == 5 && (tail[0] == 0xce || tail[0] == 0xd2) && FromBE(tail[1..5]) == start < 0x8000_0000
    ensures Parse(tail) == Some(Parsed(Int(start), 5))
  {
    Pow256Values();
  }

  /** What a reader makes of the last five bytes when a large start is at stake. */
  lemma LargeStartIff(sbuf: seq<byte>, start: nat)
    requires |sbuf| >= 5 && TRAILER_LIMIT <= start < 0x8000_0000
    ensures var tail := sbuf[|sbuf| - 5..];
            SectionStart(sbuf) == start <==> (tail[0] == 0xce || tail[0] == 0xd2) && FromBE(tail[1..5]) == start
  {
    var tail := sbuf[|sbuf| - 5..];
    if SectionStart(sbuf) == start {
      LargeOffsetForm(tail, start);
    } else if (tail[0] == 0xce || tail[0] == 0xd2) && FromBE(tail[1..5]) == start {
      FourByteForm(tail, start);
    }
  }

  /** The digits of an offset of this size. */
  lemma LargeDigits(quad: seq<byte>, start: nat)
    requires |quad| == 4 && TRAILER_LIMIT <= start < 0x8000_0000
    ensures FromBE(quad) == start ==> quad[1] == 0xff && (start >= 0x8000_0000 - 0x80 ==> quad[2] == 0xff)
    ensures start >= 0x8000_0000 - 0x20 ==>
              (FromBE(quad) == start <==> quad[0] == 0x7f && quad[1] == 0xff && quad[2] == 0xff
                                          && quad[3] == start - 0x7fff_ff00)
  {
    FromBE4(quad);
  }

  /** With a trailer of at most three bytes, clearing the mask hits a byte of the section instead. */
  lemma ShortTail(body: seq<byte>, packed: seq<byte>)
    requires 1 <= |packed| <= 3 && |body| >= 5
    ensures var sbuf := ClearMask(body + packed);
            var tail, n := sbuf[|sbuf| - 5..], |body|;
            && |tail| == 5
            && (|packed| == 3 ==> tail[2] == packed[0])
            && (|packed| == 2 ==> tail[3] == packed[0])
            && (|packed| == 1 ==> tail == [body[n - 4], body[n - 3] % 0x80, body[n - 2], body[n - 1], packed[0]])
  {
  }

  /** Four bytes that a one-byte trailer completes to a readable offset just below 2^31. */
  predicate LooksLikeTrailer(body: seq<byte>) {
    |body| >= 4 &&
    var last := body[|body| - 4..];
    (last[0] == 0xce || last[0] == 0xd2) && last[1] % 0x80 == 0x7f && last[2] == 0xff && last[3] == 0xff
  }

  lemma ShortTrailerReads(pre: seq<byte>, fields: seq<byte>)
    requires TRAILER_LIMIT <= |pre| < 0x8000_0000
    ensures SectionStart(WithSection(pre, fields)) == |pre|
            <==> |pre| >= 0x8000_0000 - 0x20 && LooksLikeTrailer(pre + fields)
  {
    var body, packed := pre + fields, PackInt(Masked(|pre|));
    var sbuf := WithSection(pre, fields);
    var tail := sbuf[|sbuf| - 5..];
    assert sbuf == ClearMask(body + packed);
    ShortTail(body, packed);
    LargeStartIff(sbuf, |pre|);
    LargeDigits(tail[1..5], |pre|);
    LastFour(body);
  }

  lemma LastFour(body: seq<byte>)
    requires |body| >= 4
    ensures var n := |body|;
            LooksLikeTrailer(body)
            <==> (body[n - 4] == 0xce || body[n - 4] == 0xd2) && body[n - 3] % 0x80 == 0x7f
                 && body[n - 2] == 0xff && body[n - 1] == 0xff
  {
  }

  /** The exact reach of the trailer, for every section: the start is recovered below the limit,
      and else only at the last 32 starts below 2^31, by the chance that the bytes in front of the
      one-byte trailer complete it to the offset. */
  lemma TrailerReach(pre: seq<byte>, fields: seq<byte>)
    ensures SectionStart(WithSection(pre, fields)) == |pre|
            <==> |pre| < TRAILER_LIMIT
                 || (0x8000_0000 - 0x20 <= |pre| < 0x8000_0000 && LooksLikeTrailer(pre + fields))
  {
    if |pre| < TRAILER_LIMIT {
      SectionStartRecovered(pre, fields);
    } else if |pre| < 0x8000_0000 {
      ShortTrailerReads(pre, fields);
    }
  }

  /** For sections whose last byte is not 0xff there is no such chance: a method name, whose
      terminator is written, and an event section, which ends in the flag 0 or 1, are such sections. */
  lemma TrailerBound(pre: seq<byte>, fields: seq<byte>)
    requires |fields| > 0 && fields[|fields| - 1] != 0xff
    ensures SectionStart(WithSection(pre, fields)) == |pre| <==> |pre| < TRAILER_LIMIT
  {
    var body := pre + fields;
    TrailerReach(pre, fields);
    assert body[|body| - 1] != 0xff;
  }

  // ---- Several meta sections on one message -----------------------------------------------

  /** A message that was given one meta section after another, as repeated publishing does. */
  function WithSections(body: seq<byte>, sections: seq<seq<Value>>): seq<byte> {
    if |sections| == 0 then body
    else
      var n := |sections| - 1;
      WithSection(WithSections(body, sections[..n]), EncodeAll(sections[n]))
  }

  lemma {:induction false} SectionsKeepBody(body: seq<byte>, sections: seq<seq<Value>>)
    requires |sections| > 0 ==> |WithSections(body, sections[..|sections| - 1])| < TRAILER_LIMIT
    ensures |body| <= |WithSections(body, sections)| && WithSections(body, sections)[..|body|] == body
  {
    if |sections| == 0 {
    } else {
      var n := |sections| - 1;
      var inner := WithSections(body, sections[..n]);
      if n > 0 {
        SectionBoundShrinks(body, sections[..n]);
      }
      SectionsKeepBody(body, sections[..n]);
      SectionBytes(inner, EncodeAll(sections[n]));
    }
  }

  /** However many sections were appended, a reader is sent to the last one and gets its fields. */
  lemma LatestSectionWins(body: seq<byte>, sections: seq<seq<Value>>, kinds: seq<Kind>)
    requires |sections| > 0 && AllFit(sections[|sections| - 1])
    requires |WithSections(body, sections[..|sections| - 1])| < TRAILER_LIMIT
    requires |kinds| <= |sections[|sections| - 1]|
    ensures var sbuf := WithSections(body, sections);
            GetRun(sbuf, SectionStart(sbuf), kinds).gots == ExpectedRun(sections[|sections| - 1], kinds)
  {
    var n := |sections| - 1;
    ReadSection(WithSections(body, sections[..n]), sections[n], kinds);
  }

  lemma ReadSection(pre: seq<byte>, fields: seq<Value>, kinds: seq<Kind>)
    requires |pre| < TRAILER_LIMIT && AllFit(fields) && |kinds| <= |fields|
    ensures var sbuf := WithSection(pre, EncodeAll(fields));
            SectionStart(sbuf) == |pre| && GetRun(sbuf, |pre|, kinds).gots == ExpectedRun(fields, kinds)
  {
    SectionStartRecovered(pre, EncodeAll(fields));
    SectionBytes(pre, EncodeAll(fields));
    GetRunFollowsItems(pre, fields, [0xd2] + BE(|pre|, 4), kinds);
  }

  /** The body reads the same with any number of sections behind it as with none, from any item
      boundary, and the cursor kept there survives being parked in an `int` during a meta read. */
  lemma BodyReadsUnchanged(vs: seq<Value>, sections: seq<seq<Value>>, done: nat, kinds: seq<Kind>)
    requires |sections| > 0 && AllFit(vs) && done + |kinds| <= |vs|
    requires |WithSections(EncodeAll(vs), sections[..|sections| - 1])| < TRAILER_LIMIT
    ensures var sbuf, cursor := WithSections(EncodeAll(vs), sections), |EncodeAll(vs[..done])|;
            GetRun(sbuf, cursor, kinds) == GetRun(EncodeAll(vs), cursor, kinds) && Wrap32(cursor) == cursor
  {
    var body, sbuf := EncodeAll(vs), WithSections(EncodeAll(vs), sections);
    SectionsKeepBody(body, sections);
    PrefixOfSections(body, sections);
    ReadFromBoundary(vs, done, kinds, []);
    ReadFromBoundary(vs, done, kinds, sbuf[|body|..]);
    assert body + [] == body && sbuf == body + sbuf[|body|..];
  }

  lemma PrefixOfSections(body: seq<byte>, sections: seq<seq<Value>>)
    requires |sections| > 0 && |WithSections(body, sections[..|sections| - 1])| < TRAILER_LIMIT
    ensures |body| < TRAILER_LIMIT
  {
    var n := |sections| - 1;
    if n > 0 {
      SectionBoundShrinks(body, sections[..n]);
      SectionsKeepBody(body, sections[..n]);
    }
  }

  lemma SectionBoundShrinks(body: seq<byte>, sections: seq<seq<Value>>)
    requires |sections| > 0
    ensures |WithSections(body, sections[..|sections| - 1])| <= |WithSections(body, sections)|
  {
  }

  lemma ReadFromBoundary(vs: seq<Value>, done: nat, kinds: seq<Kind>, post: seq<byte>)
    requires AllFit(vs) && done + |kinds| <= |vs|
    ensures var cursor := |EncodeAll(vs[..done])|;
            cursor <= |EncodeAll(vs)|
            && GetRun(EncodeAll(vs) + post, cursor, kinds)
               == GetLog(ExpectedRun(vs[done..], kinds), cursor + |EncodeAll(vs[done..][..|kinds|])|)
  {
    var pre, rest := vs[..done], vs[done..];
    assert pre + rest == vs;
    EncodeAllConcat(pre, rest);
    AllFitSuffix(vs, done);
    GetRunFollowsItems(EncodeAll(pre), rest, post, kinds);
  }

  lemma {:induction false} AllFitSuffix(vs: seq<Value>, k: nat)
    requires AllFit(vs) && k <= |vs|
    ensures AllFit(vs[k..])
  {
    if k == 0 {
      assert vs[0..] == vs;
    } else {
      AllFitSuffix(vs[1..], k - 1);
      assert vs[k..] == vs[1..][k - 1..];
    }
  }
}
