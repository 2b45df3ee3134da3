/** What the protocol treats as one request and one answer, done with bytes. */
module Wire {
  import opened Bytes
  import opened Messages
  import opened Codec
  import opened BusTypes
  import opened Vectors
  import opened Registry
  import opened Rpc
  import opened Subscriptions
  import Protocol

  /** The bytes a provider sends back for a request that reached its subscription handler. */
  function HandlerReply(obj: ServerObject, data: seq<byte>, name: CString, overrideResult: int32): seq<byte> {
    ReplyBytes(Some(HandlerBody(obj, data, name, overrideResult)))
  }

  /** A subscribe or unsubscribe request, end to end: at an object that has the handlers installed
      it is routed to them, they act on exactly the client's event, address and direction, and the
      client's call succeeds exactly if the provider's handling did. */
  lemma SubscriptionOverTheWire(obj: ServerObject, event: CString, address: CString, payload: Option<seq<byte>>,
                                activate: bool, overrideResult: int32)
    requires ObjectInv(obj) && Fits(VString(event)) && Fits(VString(address))
    requires payload.Some? ==> Fits(VBytes(payload.value))
    requires |EncodeAll(RequestItems(event, address, payload))| < TRAILER_LIMIT
    requires var name := if activate then SUBSCRIBE else UNSUBSCRIBE;
             name in Contents(obj.methods) && Contents(obj.methods)[name] == BuiltIn
    ensures var name := if activate then SUBSCRIBE else UNSUBSCRIBE;
            var data := RequestBytes(event, address, payload, activate);
            var handled := Subscription(obj, event, address, activate, overrideResult);
            && RouteTo(obj, data) == Method(BuiltIn) && MethodIn(data) == Some(name)
            && ReadRequest(data, name) == Some(Asked(event, address, activate, payload))
            && ReadAnswer(Replied(HandlerReply(obj, data, name, overrideResult)))
               == (if handled.rc == SUCCESS then Answer(SUCCESS, None) else Answer(ERROR_GENERAL, Some(handled.rc)))
  {
    var name := if activate then SUBSCRIBE else UNSUBSCRIBE;
    RequestRoutes(obj, EncodeAll(RequestItems(event, address, payload)), name);
    RequestAgreement(event, address, payload, activate);
    AnswerAgreement(Subscription(obj, event, address, activate, overrideResult).rc);
  }

  // ---- The protocol's deliveries ----------------------------------------------------------

  /** What comes back for a request: the built-in handler's reply where the request is routed to
      it, else whatever the application's callback replies. */
  function AnswerBytes(obj: ServerObject, data: seq<byte>, name: CString, reply: Option<seq<byte>>): seq<byte> {
    if RouteTo(obj, data) == Method(BuiltIn) then HandlerReply(obj, data, name, SUBSCRIBE_NOT_HANDLED)
    else ReplyBytes(reply)
  }

  function ObjectAfter(obj: ServerObject, data: seq<byte>, name: CString): ServerObject {
    if RouteTo(obj, data) == Method(BuiltIn) then HandledObject(obj, data, name, SUBSCRIBE_NOT_HANDLED) else obj
  }

  /** What the protocol makes of a delivery is what the bytes do: the client's request, as it is
      packed, is routed by its method name, leaves the object as the protocol says, and makes the
      client's call succeed exactly if the protocol says so, whatever the application's callback
      replies. */
  lemma ServeOverTheWire(obj: ServerObject, r: Protocol.Request, payload: Option<seq<byte>>, reply: Option<seq<byte>>)
    requires ObjectInv(obj) && Fits(VString(r.event)) && Fits(VString(r.client))
    requires payload.Some? ==> Fits(VBytes(payload.value))
    requires |EncodeAll(RequestItems(r.event, r.client, payload))| < TRAILER_LIMIT
    ensures var data, name := RequestBytes(r.event, r.client, payload, r.activate), Protocol.MethodOf(r);
            var served := Protocol.Serve(obj, r, ReadAnswer(Replied(ReplyBytes(reply))).rc);
            && (RouteTo(obj, data) == Method(BuiltIn) <==> Bound(obj, name))
            && served.obj == ObjectAfter(obj, data, name)
            && (served.rc == SUCCESS <==> ReadAnswer(Replied(AnswerBytes(obj, data, name, reply))).rc == SUCCESS)
  {
    var name := Protocol.MethodOf(r);
    RequestRoutes(obj, EncodeAll(RequestItems(r.event, r.client, payload)), name);
    RequestAgreement(r.event, r.client, payload, r.activate);
    BoundIsLookup(obj, name);
    if Bound(obj, name) {
      SubscriptionOverTheWire(obj, r.event, r.client, payload, r.activate, SUBSCRIBE_NOT_HANDLED);
    }
  }
}
