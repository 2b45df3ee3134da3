/** Remote method calls: how the method name travels, how a server picks the handler, how a
    response is made, and what the caller accepts. */
module Rpc {
  import opened Bytes
  import opened Messages
  import opened Codec
  import opened BusTypes
  import opened Vectors
  import opened Registry

  /** A message after `set_message_method`. */
  function WithMethod(sbuf: seq<byte>, name: CString): seq<byte> {
    WithSection(sbuf, EncodeAll([VString(name)]))
  }

  /** The method name that a receiver finds in the meta section. */
  function MethodIn(sbuf: seq<byte>): Option<CString> {
    match Get(sbuf, SectionStart(sbuf), KString).got
    case Some(GotString(name)) => Some(name)
    case _ => None
  }

  datatype Target = Method(handler: Handler) | Base(callback: nat)

  /** The callback that a request reaches. */
  function RouteTo(obj: ServerObject, data: seq<byte>): Target {
    var name := MethodIn(data);
    if |obj.methods| > 0 && name.Some? && Has(obj.methods, name.value, MAX_METHOD_NAME)
    then Method(obj.methods[Find(obj.methods, name.value, MAX_METHOD_NAME)].val)
    else Base(obj.base)
  }

  /** The bytes of a response: the handler's message, or one made up when it supplied none. */
  function ReplyBytes(reply: Option<seq<byte>>): seq<byte> {
    WithMethod(if reply.Some? then reply.value else EncodeAll([VInt32(ERROR_UNSUPPORTED_METHOD)]), RESPONSE)
  }

  /** How the transport ends a request. */
  datatype Transport = Replied(bytes: seq<byte>) | Unreachable | TimedOut | SendFailed

  function Accept(transport: Transport): int32 {
    match transport
    case Unreachable => ERROR_DESTINATION_UNREACHABLE
    case TimedOut => ERROR_REMOTE_TIMED_OUT
    case SendFailed => ERROR_GENERAL
    case Replied(bytes) =>
      match MethodIn(bytes)
      case None => ERROR_MALFORMED_RESPONSE
      case Some(name) => if SameName(RESPONSE, name, MAX_METHOD_NAME) then SUCCESS else ERROR_MALFORMED_RESPONSE
  }

  /** Only the full name marks a response. */
  lemma OnlyResponseIsAccepted(name: CString)
    ensures SameName(RESPONSE, name, MAX_METHOD_NAME) <==> name == RESPONSE
  {
  }

  /** What each end of a request means to the caller. */
  lemma AcceptedIff(transport: Transport)
    ensures transport.Unreachable? ==> Accept(transport) == ERROR_DESTINATION_UNREACHABLE
    ensures transport.TimedOut? ==> Accept(transport) == ERROR_REMOTE_TIMED_OUT
    ensures transport.SendFailed? ==> Accept(transport) == ERROR_GENERAL
    ensures transport.Replied? ==>
              Accept(transport)
              == if MethodIn(transport.bytes) == Some(RESPONSE) then SUCCESS else ERROR_MALFORMED_RESPONSE
  {
    if transport.Replied? && MethodIn(transport.bytes).Some? {
      OnlyResponseIsAccepted(MethodIn(transport.bytes).value);
    }
  }

  // ---- The code ---------------------------------------------------------------------------

  method SetMessageMethod(msg: RbusMessage, name: CString)
    requires msg.writable && Fits(VString(name))
    modifies msg
    ensures msg.sbuf == WithMethod(old(msg.sbuf), name) && msg.readOffset == old(msg.readOffset)
  {
    SectionHasRoom(msg.sbuf, Encode(VString(name)));
    EncodeOne(VString(name));
    msg.BeginMetaSectionWrite();
    msg.SetString(name);
    msg.EndMetaSectionWrite();
  }

  /** Reads the method name and puts the cursor back where it was. */
  method GetMessageMethod(msg: RbusMessage) returns (name: Option<CString>)
    requires -0x8000_0000 <= msg.readOffset < 0x8000_0000
    modifies msg
    ensures name == MethodIn(msg.sbuf)
    ensures msg.sbuf == old(msg.sbuf) && msg.readOffset == old(msg.readOffset)
  {
    msg.BeginMetaSectionRead();
    name := msg.GetString();
    msg.EndMetaSectionRead();
  }

  /** `sent` is what goes out on the wire; `transport` is how the transport answers it. A caller
      gets a message back exactly when it gets SUCCESS. */
  method InvokeRemoteMethod(connected: bool, target: CString, name: CString, maybeOut: Option<RbusMessage>,
                            transport: Transport)
    returns (rc: int32, sent: Option<seq<byte>>, response: Option<RbusMessage>)
    requires maybeOut.Some? ==> maybeOut.value.writable
    requires Fits(VString(name))
    modifies if maybeOut.Some? then {maybeOut.value} else {}
    ensures !connected ==> rc == ERROR_INVALID_STATE && sent.None?
    ensures connected && |target| >= MAX_OBJECT_NAME ==> rc == ERROR_INVALID_PARAM && sent.None?
    ensures connected && |target| < MAX_OBJECT_NAME ==>
              && rc == Accept(transport)
              && sent == Some(WithMethod(if maybeOut.Some? then old(maybeOut.value.sbuf) else [], name))
    ensures connected && |target| < MAX_OBJECT_NAME ==>
              match transport
              case Unreachable => rc == ERROR_DESTINATION_UNREACHABLE
              case TimedOut => rc == ERROR_REMOTE_TIMED_OUT
              case SendFailed => rc == ERROR_GENERAL
              case Replied(bytes) =>
                rc == if MethodIn(bytes) == Some(RESPONSE) then SUCCESS else ERROR_MALFORMED_RESPONSE
    ensures response.Some? <==> rc == SUCCESS
    ensures rc == SUCCESS ==> transport.Replied? && fresh(response.value)
                              && response.value.sbuf == transport.bytes && response.value.readOffset == 0
  {
    sent, response := None, None;
    AcceptedIff(transport);
    if !connected {
      return ERROR_INVALID_STATE, None, None;
    }
    if MAX_OBJECT_NAME <= |target| {
      return ERROR_INVALID_PARAM, None, None;
    }
    var out: RbusMessage;
    if maybeOut.Some? {
      out := maybeOut.value;
    } else {
      out := new RbusMessage.Init();
    }
    SetMessageMethod(out, name);
    var bytes := out.ToBytes();
    sent := Some(bytes);
    if transport.Unreachable? {
      rc := ERROR_DESTINATION_UNREACHABLE;
    } else if transport.TimedOut? {
      rc := ERROR_REMOTE_TIMED_OUT;
    } else if transport.SendFailed? {
      rc := ERROR_GENERAL;
    } else {
      var received := new RbusMessage.FromBytes(transport.bytes);
      var kind := GetMessageMethod(received);
      if kind.Some? && SameName(RESPONSE, kind.value, MAX_METHOD_NAME) {
        rc := SUCCESS;
        response := Some(received);
      } else {
        rc := ERROR_MALFORMED_RESPONSE;
      }
    }
  }

  /** Sends nothing when the message was not a request. */
  method SendResponse(isRequest: bool, maybeResponse: Option<RbusMessage>, sendOk: bool)
    returns (rc: int32, sent: Option<seq<byte>>)
    requires maybeResponse.Some? ==> maybeResponse.value.writable
    modifies if maybeResponse.Some? then {maybeResponse.value} else {}
    ensures sent == if isRequest
                    then Some(ReplyBytes(if maybeResponse.Some? then Some(old(maybeResponse.value.sbuf)) else None))
                    else None
    ensures rc == if isRequest && !sendOk then ERROR_GENERAL else SUCCESS
  {
    sent, rc := None, SUCCESS;
    if isRequest {
      var response: RbusMessage;
      if maybeResponse.Some? {
        response := maybeResponse.value;
      } else {
        response := new RbusMessage.Init();
        response.SetInt32(ERROR_UNSUPPORTED_METHOD);
        assert response.sbuf == EncodeAll([VInt32(ERROR_UNSUPPORTED_METHOD)]);
      }
      SetMessageMethod(response, RESPONSE);
      var bytes := response.ToBytes();
      sent := Some(bytes);
      if !sendOk {
        rc := ERROR_GENERAL;
      }
    }
  }

  // ---- Theorems ---------------------------------------------------------------------------

  lemma MethodNameTravels(sbuf: seq<byte>, name: CString)
    requires |sbuf| < TRAILER_LIMIT && Fits(VString(name))
    ensures MethodIn(WithMethod(sbuf, name)) == Some(name)
  {
    ReadSection(sbuf, [VString(name)], [KString]);
    var whole := WithMethod(sbuf, name);
    var run := GetRun(whole, |sbuf|, [KString]);
    assert run.gots[0] == Get(whole, |sbuf|, KString).got;
    assert run.gots[0] == Expected(VString(name), KString);
  }

  /** A body reads from its first item although a method name was appended to it. */
  lemma BodyReadableUnderMethod(vs: seq<Value>, name: CString)
    requires AllFit(vs) && |EncodeAll(vs)| < TRAILER_LIMIT
    ensures ReadAll(WithMethod(EncodeAll(vs), name), 0, ShapesOf(vs)) == Some(vs)
  {
    var body, fields := EncodeAll(vs), EncodeAll([VString(name)]);
    SectionBytes(body, fields);
    var trailer := [0xd2] + BE(|body|, 4);
    Regroup([], body, fields, trailer);
    ReadAllBack([], vs, fields + trailer);
    assert [] + body == body;
  }

  /** To a reader, a message with a method name is its body followed by one more string item: a
      Get in front of item `k` answers for that item, and behind the body it meets the name. */
  lemma GetUnderMethod(vs: seq<Value>, name: CString, k: nat, kind: Kind)
    requires AllFit(vs) && Fits(VString(name)) && |EncodeAll(vs)| < TRAILER_LIMIT && k <= |vs|
    ensures var items := vs + [VString(name)];
            Get(WithMethod(EncodeAll(vs), name), |EncodeAll(items[..k])|, kind)
            == GetResult(Expected(items[k], kind), |EncodeAll(items[..k + 1])|)
  {
    var items := vs + [VString(name)];
    var body, fields := EncodeAll(vs), EncodeAll([VString(name)]);
    SectionBytes(body, fields);
    EncodeAllConcat(vs, [VString(name)]);
    FitsAlone(VString(name));
    AllFitConcat(vs, [VString(name)]);
    GetItem(items, k, [0xd2] + BE(|body|, 4), kind);
  }

  /** Any run of Gets over the body answers as if the name were not there. */
  lemma RunUnderMethod(vs: seq<Value>, name: CString, kinds: seq<Kind>)
    requires AllFit(vs) && |EncodeAll(vs)| < TRAILER_LIMIT && |kinds| <= |vs|
    ensures GetRun(WithMethod(EncodeAll(vs), name), 0, kinds).gots == ExpectedRun(vs, kinds)
  {
    var body, fields := EncodeAll(vs), EncodeAll([VString(name)]);
    var trailer := [0xd2] + BE(|body|, 4);
    SectionBytes(body, fields);
    Regroup([], body, fields, trailer);
    GetRunFollowsItems([], vs, fields + trailer, kinds);
    assert [] + body == body;
  }

  function ReplyItems(reply: Option<seq<Value>>): seq<Value> {
    if reply.Some? then reply.value else [VInt32(ERROR_UNSUPPORTED_METHOD)]
  }

  /** A whole remote call, for every body, method name, object and reply. The server runs the
      handler registered under exactly that name, or else the base callback, on a message whose
      items read from the first; the caller accepts whatever the handler replied and reads its
      items from the first, or the code for an unsupported method when there was no reply. */
  lemma EndToEndRpc(obj: ServerObject, vs: seq<Value>, name: CString, reply: Option<seq<Value>>)
    requires ObjectInv(obj) && Fits(VString(name))
    requires AllFit(vs) && |EncodeAll(vs)| < TRAILER_LIMIT
    requires AllFit(ReplyItems(reply)) && |EncodeAll(ReplyItems(reply))| < TRAILER_LIMIT
    ensures var request := WithMethod(EncodeAll(vs), name);
            && MethodIn(request) == Some(name)
            && ReadAll(request, 0, ShapesOf(vs)) == Some(vs)
            && RouteTo(obj, request) == (if name in Contents(obj.methods) then Method(Contents(obj.methods)[name])
                                         else Base(obj.base))
    ensures var response := ReplyBytes(if reply.Some? then Some(EncodeAll(reply.value)) else None);
            && Accept(Replied(response)) == SUCCESS
            && ReadAll(response, 0, ShapesOf(ReplyItems(reply))) == Some(ReplyItems(reply))
  {
    RequestRoutes(obj, EncodeAll(vs), name);
    BodyReadableUnderMethod(vs, name);
    ResponseAccepted(ReplyItems(reply));
  }

  lemma RequestRoutes(obj: ServerObject, body: seq<byte>, name: CString)
    requires ObjectInv(obj) && Fits(VString(name)) && |body| < TRAILER_LIMIT
    ensures MethodIn(WithMethod(body, name)) == Some(name)
    ensures RouteTo(obj, WithMethod(body, name))
            == if name in Contents(obj.methods) then Method(Contents(obj.methods)[name]) else Base(obj.base)
  {
    MethodNameTravels(body, name);
    SearchIsLookup(obj.methods, name, MAX_METHOD_NAME);
  }

  lemma ResponseAccepted(items: seq<Value>)
    requires AllFit(items) && |EncodeAll(items)| < TRAILER_LIMIT
    ensures var response := WithMethod(EncodeAll(items), RESPONSE);
            Accept(Replied(response)) == SUCCESS && ReadAll(response, 0, ShapesOf(items)) == Some(items)
  {
    MethodNameTravels(EncodeAll(items), RESPONSE);
    BodyReadableUnderMethod(items, RESPONSE);
  }

  /** The size limit is the real one: from there on the receiver looks for the method name in
      another place. */
  lemma OversizedRequestMisplacesMethod(sbuf: seq<byte>, name: CString)
    requires Fits(VString(name))
    ensures SectionStart(WithMethod(sbuf, name)) == |sbuf| <==> |sbuf| < TRAILER_LIMIT
  {
    var fields := EncodeAll([VString(name)]);
    EncodeOne(VString(name));
    assert fields[|fields| - 1] == 0;
    TrailerBound(sbuf, fields);
  }
}
