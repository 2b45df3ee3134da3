/** How an event message is labelled, and which client callback it reaches. */
module Publishing {
  import opened Bytes
  import opened Messages
  import opened Codec
  import opened BusTypes
  import opened Vectors
  import opened ClientTable

  function EventSection(event: CString, source: CString, flag: int32): seq<Value> {
    [VString(event)] + [VString(source)] + [VInt32(flag)]
  }

  /** An event message as it is put on the wire; the flag is 1 for events of rbus 2.0. */
  function EventBytes(sbuf: seq<byte>, event: CString, source: CString, flag: int32): seq<byte> {
    WithSection(sbuf, EncodeAll(EventSection(event, source, flag)))
  }

  /** What a receiver finds in the meta section. Only the last of the three reads is checked. */
  datatype Label = Malformed | Label(event: Option<CString>, source: Option<CString>, flag: int)

  function StringOf(got: Option<Got>): Option<CString> {
    match got
    case Some(GotString(s)) => Some(s)
    case _ => None
  }

  function LabelAt(data: seq<byte>, start: int): Label {
    var first := Get(data, start, KString);
    var second := Get(data, first.next, KString);
    match Get(data, second.next, KInt32).got
    case Some(GotInt(flag)) => Label(StringOf(first.got), StringOf(second.got), flag)
    case _ => Malformed
  }

  function ReadLabel(data: seq<byte>): Label {
    LabelAt(data, SectionStart(data))
  }

  /** Whether a table row takes an event: it is filed under the sender or under the event's own
      name, and it lists the event. */
  predicate Takes(row: Named<Entries>, sender: CString, event: CString) {
    (row.name == sender || row.name == event) && event in Contents(row.val)
  }

  lemma TakesAsCompared(row: Named<Entries>, sender: CString, event: CString)
    requires |row.name| < MAX_OBJECT_NAME && Keyed(row.val, MAX_EVENT_NAME)
    ensures Takes(row, sender, event)
            <==> (SameName(row.name, sender, MAX_OBJECT_NAME) || SameName(row.name, event, MAX_OBJECT_NAME))
                 && Has(row.val, event, MAX_EVENT_NAME)
    ensures Takes(row, sender, event) ==>
              row.val[Find(row.val, event, MAX_EVENT_NAME)].val == Contents(row.val)[event]
  {
    SearchIsLookup(row.val, event, MAX_EVENT_NAME);
  }

  /** The earliest row that takes the event, or the number of rows. */
  function FirstTaker(t: Table, sender: CString, event: CString): (i: nat)
    ensures i <= |t|
    ensures i < |t| ==> Takes(t[i], sender, event)
    ensures forall j :: 0 <= j < i ==> !Takes(t[j], sender, event)
  {
    if |t| == 0 || Takes(t[0], sender, event) then 0 else 1 + FirstTaker(t[1..], sender, event)
  }

  lemma FirstTakerIs(t: Table, sender: CString, event: CString, i: nat)
    requires i <= |t| && (i < |t| ==> Takes(t[i], sender, event))
    requires forall j :: 0 <= j < i ==> !Takes(t[j], sender, event)
    ensures FirstTaker(t, sender, event) == i
  {
    var first := FirstTaker(t, sender, event);
    assert first < |t| ==> Takes(t[first], sender, event);
  }

  /** A call to the application: its master event handler, or the callback of a table entry. */
  datatype Invocation = Master(callback: nat) | Subscriber(callback: nat, event: CString)

  /** Exactly one callback, that of the earliest row that takes the event, or none. */
  function Delivered(t: Table, sender: CString, event: CString): seq<Invocation> {
    var i := FirstTaker(t, sender, event);
    if i < |t| then [Subscriber(Contents(t[i].val)[event], event)] else []
  }

  /** Everything an incoming event message makes a client call. A label without a readable event
      name, which leaves the C code with a null pointer, is taken to reach nobody. */
  function React(t: Table, master: Option<nat>, masterResult: int32, sender: CString, tag: Label): seq<Invocation> {
    if |sender| >= MAX_OBJECT_NAME || tag.Malformed? then []
    else
      var asked := if tag.flag != 0 && master.Some? then [Master(master.value)] else [];
      if asked != [] && masterResult != EVENT_NOT_HANDLED then asked
      else if tag.event.None? then asked
      else asked + Delivered(t, sender, tag.event.value)
  }

  /** The same, from the message's bytes. */
  function Reaction(t: Table, master: Option<nat>, masterResult: int32, sender: CString, data: seq<byte>)
    : seq<Invocation>
  {
    React(t, master, masterResult, sender, ReadLabel(data))
  }

  method SetEventSection(out: RbusMessage, event: CString, source: CString, flag: int32)
    requires out.writable && Fits(VString(event)) && Fits(VString(source))
    modifies out
    ensures out.sbuf == EventBytes(old(out.sbuf), event, source, flag) && out.readOffset == old(out.readOffset)
  {
    ghost var start := out.sbuf;
    EncodeSection(event, source, flag);
    SectionHasRoom(start, EncodeAll(EventSection(event, source, flag)));
    out.BeginMetaSectionWrite();
    out.SetString(event);
    out.SetString(source);
    out.SetInt32(flag);
    Append3(start, Encode(VString(event)), Encode(VString(source)), Encode(VInt32(flag)));
    out.EndMetaSectionWrite();
  }

  lemma Append3(a: seq<byte>, b: seq<byte>, c: seq<byte>, d: seq<byte>)
    ensures a + b + c + d == a + (b + c + d)
  {
  }

  method GetEventSection(msg: RbusMessage) returns (tag: Label)
    requires -0x8000_0000 <= msg.readOffset < 0x8000_0000
    modifies msg
    ensures tag == ReadLabel(msg.sbuf) && msg.sbuf == old(msg.sbuf) && msg.readOffset == old(msg.readOffset)
  {
    msg.BeginMetaSectionRead();
    tag := GetLabel(msg);
    msg.EndMetaSectionRead();
  }

  method GetLabel(msg: RbusMessage) returns (tag: Label)
    modifies msg`readOffset
    ensures tag == LabelAt(msg.sbuf, old(msg.readOffset))
  {
    var event := msg.GetString();
    var source := msg.GetString();
    var flag := msg.GetInt32();
    tag := Malformed;
    if flag.Some? {
      tag := Label(event, source, flag.value);
    }
  }

  lemma EncodeSection(event: CString, source: CString, flag: int32)
    ensures EncodeAll(EventSection(event, source, flag))
            == Encode(VString(event)) + Encode(VString(source)) + Encode(VInt32(flag))
  {
    EncodeOne(VString(event));
    EncodePush([VString(event)], VString(source));
    EncodePush([VString(event)] + [VString(source)], VInt32(flag));
  }

  /** Every receiver decodes the event, the object and the flag, whatever else the message
      carries, earlier labels from earlier publications included. */
  lemma LabelTravels(sbuf: seq<byte>, event: CString, source: CString, flag: int32)
    requires |sbuf| < TRAILER_LIMIT && Fits(VString(event)) && Fits(VString(source))
    ensures ReadLabel(EventBytes(sbuf, event, source, flag)) == Label(Some(event), Some(source), flag)
  {
    var fields := EventSection(event, source, flag);
    FitsAlone(VString(event));
    FitsAlone(VString(source));
    FitsAlone(VInt32(flag));
    AllFitConcat([VString(event)], [VString(source)]);
    AllFitConcat([VString(event)] + [VString(source)], [VInt32(flag)]);
    SectionStartRecovered(sbuf, EncodeAll(fields));
    ThreeGets(sbuf, fields);
  }

  lemma ThreeGets(sbuf: seq<byte>, fields: seq<Value>)
    requires |sbuf| < TRAILER_LIMIT && AllFit(fields) && |fields| == 3
    ensures var data := WithSection(sbuf, EncodeAll(fields));
            var first := Get(data, |sbuf|, KString);
            var second := Get(data, first.next, KString);
            && first.got == Expected(fields[0], KString) && second.got == Expected(fields[1], KString)
            && Get(data, second.next, KInt32).got == Expected(fields[2], KInt32)
  {
    var data := WithSection(sbuf, EncodeAll(fields));
    var kinds := [KString] + ([KString] + ([KInt32] + []));
    ReadSection(sbuf, fields, kinds);
    FirstThree(data, |sbuf|, KString, KString, KInt32, []);
    var gots := GetRun(data, |sbuf|, kinds).gots;
    assert gots[0] == Expected(fields[0], KString) && gots[1] == Expected(fields[1], KString);
    assert gots[2] == Expected(fields[2], KInt32);
  }

  /** The size limit for publishing is the real one, for both kinds of events. */
  lemma OversizedEventMisplacesLabel(sbuf: seq<byte>, event: CString, source: CString, flag: int32)
    requires 0 <= flag <= 1
    ensures SectionStart(EventBytes(sbuf, event, source, flag)) == |sbuf| <==> |sbuf| < TRAILER_LIMIT
  {
    var fields := EncodeAll(EventSection(event, source, flag));
    EncodeSection(event, source, flag);
    assert fields[|fields| - 1] == flag;
    TrailerBound(sbuf, fields);
  }
}
