/** The request and the reply behind subscribing and unsubscribing. */
module Subscriptions {
  import opened Bytes
  import opened Messages
  import opened Codec
  import opened BusTypes
  import opened Vectors
  import opened Registry
  import opened Rpc

  function RequestItems(event: CString, address: CString, payload: Option<seq<byte>>): seq<Value> {
    var arguments := [VString(event)] + [VString(address)] + [VInt32(if payload.Some? then 1 else 0)];
    if payload.Some? then arguments + [VBytes(payload.value)] else arguments
  }

  function RequestBytes(event: CString, address: CString, payload: Option<seq<byte>>, activate: bool): seq<byte> {
    WithMethod(EncodeAll(RequestItems(event, address, payload)), if activate then SUBSCRIBE else UNSUBSCRIBE)
  }

  /** What the provider's handler makes of a request. */
  datatype Asked = Asked(event: CString, subscriber: CString, added: bool, payload: Option<seq<byte>>)

  function ReadRequest(data: seq<byte>, name: CString): Option<Asked> {
    var first := Get(data, 0, KString);
    var second := Get(data, first.next, KString);
    var third := Get(data, second.next, KInt32);
    var fourth := Get(data, third.next, KMessage);
    match (first.got, second.got)
    case (Some(GotString(event)), Some(GotString(subscriber))) =>
      var hasPayload := third.got.Some? && third.got.value.GotInt? && third.got.value.i != 0;
      Some(Asked(event, subscriber, SameName(name, SUBSCRIBE, MAX_METHOD_NAME),
                 if hasPayload && fourth.got.Some? && fourth.got.value.GotMessage?
                 then Some(fourth.got.value.sbuf) else None))
    case _ => None
  }

  /** The body of the built-in handler's reply: empty for an unreadable request, else the result code. */
  function HandlerBody(obj: ServerObject, data: seq<byte>, name: CString, overrideResult: int32): seq<byte> {
    match ReadRequest(data, name)
    case None => []
    case Some(asked) =>
      EncodeAll([VInt32(Subscription(obj, asked.event, asked.subscriber, asked.added, overrideResult).rc)])
  }

  /** The object after the built-in handler has run. */
  function HandledObject(obj: ServerObject, data: seq<byte>, name: CString, overrideResult: int32): ServerObject {
    match ReadRequest(data, name)
    case None => obj
    case Some(asked) => Subscription(obj, asked.event, asked.subscriber, asked.added, overrideResult).obj
  }

  /** What the client makes of the transport's answer. */
  datatype Answer = Answer(rc: int32, providerError: Option<int32>)

  function ReadAnswer(transport: Transport): Answer {
    var rc := Accept(transport);
    if rc == ERROR_DESTINATION_UNREACHABLE then Answer(rc, None)
    else if rc != SUCCESS || !transport.Replied? then Answer(ERROR_REMOTE_END_FAILED_TO_RESPOND, None)
    else
      match Get(transport.bytes, 0, KInt32).got
      case Some(GotInt(code)) =>
        if code == SUCCESS then Answer(SUCCESS, None) else Answer(ERROR_GENERAL, Some(Wrap32(code)))
      case _ => Answer(ERROR_MALFORMED_RESPONSE, None)
  }

  /** The one answer that counts as agreement: a response whose first item is the number 0. */
  lemma AgreementIff(transport: Transport)
    ensures ReadAnswer(transport).rc == SUCCESS
            <==> transport.Replied? && MethodIn(transport.bytes) == Some(RESPONSE)
                 && Get(transport.bytes, 0, KInt32).got == Some(GotInt(0))
  {
    AcceptedIff(transport);
  }

  /** Every other end of a request, with its code and what is known of the provider's. */
  lemma FailureCodes(transport: Transport)
    ensures transport.Unreachable? ==> ReadAnswer(transport) == Answer(ERROR_DESTINATION_UNREACHABLE, None)
    ensures transport.TimedOut? || transport.SendFailed? ==>
              ReadAnswer(transport) == Answer(ERROR_REMOTE_END_FAILED_TO_RESPOND, None)
    ensures transport.Replied? && MethodIn(transport.bytes) != Some(RESPONSE) ==>
              ReadAnswer(transport) == Answer(ERROR_REMOTE_END_FAILED_TO_RESPOND, None)
    ensures transport.Replied? && MethodIn(transport.bytes) == Some(RESPONSE) ==>
              var item := Get(transport.bytes, 0, KInt32).got;
              && (item.None? ==> ReadAnswer(transport) == Answer(ERROR_MALFORMED_RESPONSE, None))
              && (forall code: int32 | code != 0 && item == Some(GotInt(code)) ::
                    ReadAnswer(transport) == Answer(ERROR_GENERAL, Some(code)))
  {
    AcceptedIff(transport);
  }

  // ---- The code ---------------------------------------------------------------------------

  method PackRequest(event: CString, address: CString, payload: Option<RbusMessage>) returns (request: RbusMessage)
    requires Fits(VString(event)) && Fits(VString(address))
    requires payload.Some? ==> |payload.value.sbuf| < 0x1_0000_0000
    ensures fresh(request) && request.writable
    ensures request.sbuf == EncodeAll(RequestItems(event, address, ContentsOf(payload)))
  {
    request := new RbusMessage.Init();
    request.SetString(event);
    request.SetString(address);
    request.SetInt32(if payload.Some? then 1 else 0);
    if payload.Some? {
      request.SetMessage(payload.value);
    }
    EncodeRequest(event, address, ContentsOf(payload));
    assert [] + Encode(VString(event)) == Encode(VString(event));
  }

  function ContentsOf(payload: Option<RbusMessage>): Option<seq<byte>>
    reads if payload.Some? then {payload.value} else {}
  {
    if payload.Some? then Some(payload.value.sbuf) else None
  }

  /** The client's half. An argument that the call layer refuses counts as a failed transport. */
  method SendSubscriptionRequest(connected: bool, address: CString, target: CString, event: CString, activate: bool,
                                 payload: Option<RbusMessage>, transport: Transport)
    returns (rc: int32, providerError: Option<int32>, sent: Option<seq<byte>>)
    requires Fits(VString(event)) && Fits(VString(address))
    requires payload.Some? ==> |payload.value.sbuf| < 0x1_0000_0000
    ensures !connected || |target| >= MAX_OBJECT_NAME ==>
              rc == ERROR_REMOTE_END_FAILED_TO_RESPOND && providerError == None && sent == None
    ensures connected && |target| < MAX_OBJECT_NAME ==>
              && Answer(rc, providerError) == ReadAnswer(transport)
              && sent == Some(RequestBytes(event, address, ContentsOf(payload), activate))
    ensures rc == SUCCESS <==> connected && |target| < MAX_OBJECT_NAME
                               && transport.Replied? && MethodIn(transport.bytes) == Some(RESPONSE)
                               && Get(transport.bytes, 0, KInt32).got == Some(GotInt(0))
    ensures connected && |target| < MAX_OBJECT_NAME && (transport.TimedOut? || transport.SendFailed?) ==>
              rc == ERROR_REMOTE_END_FAILED_TO_RESPOND
    ensures connected && |target| < MAX_OBJECT_NAME && transport.Unreachable? ==> rc == ERROR_DESTINATION_UNREACHABLE
  {
    AgreementIff(transport);
    FailureCodes(transport);
    providerError := None;
    var request := PackRequest(event, address, payload);
    var response;
    rc, sent, response := InvokeRemoteMethod(connected, target, if activate then SUBSCRIBE else UNSUBSCRIBE,
                                             Some(request), transport);
    if rc == SUCCESS {
      var result := response.value.GetInt32();
      if result.Some? {
        if result.value != SUCCESS {
          rc, providerError := ERROR_GENERAL, Some(result.value);
        }
      } else {
        rc := ERROR_MALFORMED_RESPONSE;
      }
    } else if rc != ERROR_DESTINATION_UNREACHABLE {
      rc := ERROR_REMOTE_END_FAILED_TO_RESPOND;
    }
  }

  /** The provider's half: takes the arguments out of the request. */
  method ReadSubscriptionRequest(msg: RbusMessage, name: CString) returns (asked: Option<Asked>)
    requires msg.readOffset == 0
    modifies msg
    ensures asked == ReadRequest(old(msg.sbuf), name) && msg.sbuf == old(msg.sbuf)
  {
    var event := msg.GetString();
    if event.None? {
      return None;
    }
    var sender := msg.GetString();
    if sender.None? {
      return None;
    }
    var payload := None;
    var flag := msg.GetInt32();
    if flag.Some? && flag.value != 0 {
      var inner := msg.GetMessage();
      if inner.Some? {
        payload := Some(inner.value.sbuf);
      }
    }
    asked := Some(Asked(event.value, sender.value, SameName(name, SUBSCRIBE, MAX_METHOD_NAME), payload));
  }

  // ---- Theorems ---------------------------------------------------------------------------

  lemma EncodeRequest(event: CString, address: CString, payload: Option<seq<byte>>)
    ensures EncodeAll(RequestItems(event, address, payload))
            == (var arguments := Encode(VString(event)) + Encode(VString(address))
                                 + Encode(VInt32(if payload.Some? then 1 else 0));
                if payload.Some? then arguments + Encode(VBytes(payload.value)) else arguments)
  {
    var flag := VInt32(if payload.Some? then 1 else 0);
    EncodeOne(VString(event));
    EncodePush([VString(event)], VString(address));
    EncodePush([VString(event)] + [VString(address)], flag);
    if payload.Some? {
      EncodePush([VString(event)] + [VString(address)] + [flag], VBytes(payload.value));
    }
  }

  /** The provider recovers the event, the subscriber, the direction and the optional payload
      exactly as the client packed them. */
  lemma RequestAgreement(event: CString, address: CString, payload: Option<seq<byte>>, activate: bool)
    requires Fits(VString(event)) && Fits(VString(address))
    requires payload.Some? ==> Fits(VBytes(payload.value))
    requires |EncodeAll(RequestItems(event, address, payload))| < TRAILER_LIMIT
    ensures var name := if activate then SUBSCRIBE else UNSUBSCRIBE;
            var data := RequestBytes(event, address, payload, activate);
            && MethodIn(data) == Some(name)
            && ReadRequest(data, name) == Some(Asked(event, address, activate, payload))
  {
    var name := if activate then SUBSCRIBE else UNSUBSCRIBE;
    RequestFits(event, address, payload);
    RequestItemsAre(event, address, payload);
    MethodNameTravels(EncodeAll(RequestItems(event, address, payload)), name);
    Recovered(RequestItems(event, address, payload), name, event, address, payload);
    NameTellsDirection(activate);
  }

  lemma Recovered(items: seq<Value>, name: CString, event: CString, address: CString, payload: Option<seq<byte>>)
    requires AllFit(items) && Fits(VString(name)) && |EncodeAll(items)| < TRAILER_LIMIT
    requires AreRequestItems(items, event, address, payload)
    ensures ReadRequest(WithMethod(EncodeAll(items), name), name)
            == Some(Asked(event, address, SameName(name, SUBSCRIBE, MAX_METHOD_NAME), payload))
  {
    FourGets(items, name);
    ExpectedArguments(items, event, address, payload);
    ReadRequestFrom(WithMethod(EncodeAll(items), name), name, event, address, payload);
  }

  lemma ExpectedArguments(items: seq<Value>, event: CString, address: CString, payload: Option<seq<byte>>)
    requires AreRequestItems(items, event, address, payload)
    ensures Expected(items[0], KString) == Some(GotString(event))
    ensures Expected(items[1], KString) == Some(GotString(address))
    ensures Expected(items[2], KInt32) == Some(GotInt(if payload.Some? then 1 else 0))
    ensures payload.Some? ==> Expected(items[3], KMessage) == Some(GotMessage(payload.value))
  {
  }

  predicate AreRequestItems(items: seq<Value>, event: CString, address: CString, payload: Option<seq<byte>>) {
    && |items| == (if payload.Some? then 4 else 3)
    && items[0] == VString(event) && items[1] == VString(address)
    && items[2] == VInt32(if payload.Some? then 1 else 0)
    && (payload.Some? ==> items[3] == VBytes(payload.value))
  }

  lemma NameTellsDirection(activate: bool)
    ensures SameName(if activate then SUBSCRIBE else UNSUBSCRIBE, SUBSCRIBE, MAX_METHOD_NAME) == activate
  {
    assert UNSUBSCRIBE[1] != SUBSCRIBE[1];
  }

  lemma RequestItemsAre(event: CString, address: CString, payload: Option<seq<byte>>)
    ensures AreRequestItems(RequestItems(event, address, payload), event, address, payload)
  {
  }

  lemma FourGets(items: seq<Value>, name: CString)
    requires AllFit(items) && |EncodeAll(items)| < TRAILER_LIMIT && 3 <= |items| <= 4
    ensures var data := WithMethod(EncodeAll(items), name);
            var first := Get(data, 0, KString);
            var second := Get(data, first.next, KString);
            var third := Get(data, second.next, KInt32);
            && first.got == Expected(items[0], KString) && second.got == Expected(items[1], KString)
            && third.got == Expected(items[2], KInt32)
            && (|items| == 4 ==> Get(data, third.next, KMessage).got == Expected(items[3], KMessage))
  {
    var data := WithMethod(EncodeAll(items), name);
    var rest := if |items| == 4 then [KMessage] + [] else [];
    var kinds := [KString] + ([KString] + ([KInt32] + rest));
    RunUnderMethod(items, name, kinds);
    FirstThree(data, 0, KString, KString, KInt32, rest);
    var third := Get(data, Get(data, Get(data, 0, KString).next, KString).next, KInt32);
    GetRunCons(data, third.next, KMessage, []);
    var gots := GetRun(data, 0, kinds).gots;
    assert forall i :: 0 <= i < |kinds| ==> gots[i] == Expected(items[i], kinds[i]);
    assert gots[0] == Expected(items[0], KString) && gots[1] == Expected(items[1], KString);
    assert gots[2] == Expected(items[2], KInt32);
    assert |items| == 4 ==> gots[3] == Expected(items[3], KMessage);
  }

  lemma ReadRequestFrom(data: seq<byte>, name: CString, event: CString, address: CString, payload: Option<seq<byte>>)
    requires var first := Get(data, 0, KString);
             var second := Get(data, first.next, KString);
             var third := Get(data, second.next, KInt32);
             && first.got == Some(GotString(event)) && second.got == Some(GotString(address))
             && third.got == Some(GotInt(if payload.Some? then 1 else 0))
             && (payload.Some? ==> Get(data, third.next, KMessage).got == Some(GotMessage(payload.value)))
    ensures ReadRequest(data, name)
            == Some(Asked(event, address, SameName(name, SUBSCRIBE, MAX_METHOD_NAME), payload))
  {
  }

  lemma RequestFits(event: CString, address: CString, payload: Option<seq<byte>>)
    requires Fits(VString(event)) && Fits(VString(address))
    requires payload.Some? ==> Fits(VBytes(payload.value))
    ensures AllFit(RequestItems(event, address, payload))
  {
    var flag := VInt32(if payload.Some? then 1 else 0);
    FitsAlone(VString(event));
    FitsAlone(VString(address));
    FitsAlone(flag);
    AllFitConcat([VString(event)], [VString(address)]);
    AllFitConcat([VString(event)] + [VString(address)], [flag]);
    if payload.Some? {
      FitsAlone(VBytes(payload.value));
      AllFitConcat([VString(event)] + [VString(address)] + [flag], [VBytes(payload.value)]);
    }
  }

  /** A request whose first two items are not both strings changes nothing, and the client finds the
      answer malformed. */
  lemma UnreadableIsMalformed(obj: ServerObject, data: seq<byte>, name: CString, overrideResult: int32)
    requires var first := Get(data, 0, KString);
             first.got.None? || Get(data, first.next, KString).got.None?
    ensures HandledObject(obj, data, name, overrideResult) == obj
    ensures ReadAnswer(Replied(ReplyBytes(Some(HandlerBody(obj, data, name, overrideResult)))))
            == Answer(ERROR_MALFORMED_RESPONSE, None)
  {
    assert ReadRequest(data, name).None?;
    EmptyReplyIsMalformed();
  }

  /** The client reads back exactly the provider's result code. */
  lemma AnswerAgreement(code: int32)
    ensures ReadAnswer(Replied(ReplyBytes(Some(EncodeAll([VInt32(code)])))))
            == if code == SUCCESS then Answer(SUCCESS, None) else Answer(ERROR_GENERAL, Some(code))
  {
    var items := [VInt32(code)];
    FitsAlone(VInt32(code));
    EncodeOne(VInt32(code));
    MethodNameTravels(EncodeAll(items), RESPONSE);
    GetUnderMethod(items, RESPONSE, 0, KInt32);
    assert (items + [VString(RESPONSE)])[..0] == [];
    assert Get(ReplyBytes(Some(EncodeAll(items))), 0, KInt32).got == Some(GotInt(code));
  }

  /** A reply without a body is always found malformed: the next item is the name in the meta
      section, which is a string, and never the trailer read as a result. */
  lemma EmptyReplyIsMalformed()
    ensures ReadAnswer(Replied(ReplyBytes(Some([])))) == Answer(ERROR_MALFORMED_RESPONSE, None)
  {
    MethodNameTravels([], RESPONSE);
    GetUnderMethod([], RESPONSE, 0, KInt32);
    assert ([] + [VString(RESPONSE)])[..0] == [];
    assert EncodeAll([]) == [];
  }
}
