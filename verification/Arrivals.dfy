/** What the messages that reach a process do to its listeners: dispatch, registry and protocol
    together. */
module Arrivals {
  import opened Bytes
  import opened Messages
  import opened Codec
  import opened BusTypes
  import opened Vectors
  import opened Events
  import opened Registry
  import opened Rpc
  import opened Subscriptions
  import opened Dispatch
  import Protocol
  import Wire

  // ---- What is sent back ------------------------------------------------------------------

  /** A response to this request that its caller accepts and reads as these items. */
  ghost predicate Delivers(sent: Sent, id: nat, items: seq<Value>) {
    && sent.id == id && Accept(Replied(sent.bytes)) == SUCCESS
    && ReadAll(sent.bytes, 0, ShapesOf(items)) == Some(items)
  }

  /** A call answers a request with exactly one response, which its caller reads as what the callback
      replied, or as the code for an unsupported method if it replied nothing. Only a base callback
      can take a request over, and only requests are answered. */
  lemma ResponseIsReply(call: Call, reply: Option<seq<Value>>)
    requires call.reply == if reply.Some? then Some(EncodeAll(reply.value)) else None
    requires reply.Some? ==> AllFit(reply.value) && |EncodeAll(reply.value)| < TRAILER_LIMIT
    ensures var items := if reply.Some? then reply.value else [VInt32(ERROR_UNSUPPORTED_METHOD)];
            if call.arrival.isRequest && !(call.callee.Base? && call.arrival.result.rc == SUCCESS_ASYNC)
            then |ResponseTo(call)| == 1 && Delivers(ResponseTo(call)[0], call.arrival.id, items)
            else ResponseTo(call) == []
  {
    if reply.Some? {
      ResponseAccepted(reply.value);
    } else {
      FitsAlone(VInt32(ERROR_UNSUPPORTED_METHOD));
      EncodeOne(VInt32(ERROR_UNSUPPORTED_METHOD));
      ResponseAccepted([VInt32(ERROR_UNSUPPORTED_METHOD)]);
    }
  }

  lemma ResponseAmong(calls: seq<Call>, i: nat)
    requires i < |calls|
    ensures forall sent <- ResponseTo(calls[i]) :: sent in Responses(calls)
  {
    var front, back := calls[..i], calls[i + 1..];
    assert calls == (front + [calls[i]]) + back;
    ResponsesConcat(front + [calls[i]], back);
    OneResponse(front, calls[i]);
  }

  lemma HandledKeepsMethods(obj: ServerObject, data: seq<byte>, name: CString, overrideResult: int32)
    ensures var after := HandledObject(obj, data, name, overrideResult);
            after.methods == obj.methods && after.base == obj.base
  {
  }

  /** Dispatching changes no routing. */
  lemma {:induction false} FinalKeepsMethods(m: Provided, s: seq<Arrival>, target: CString)
    ensures var obj, after := ObjectFor(m, target), ObjectFor(Final(m, s), target);
            after.methods == obj.methods && after.base == obj.base
  {
    if |s| > 0 {
      var mid, last := Final(m, s[..|s| - 1]), s[|s| - 1];
      FinalKeepsMethods(m, s[..|s| - 1], target);
      if last.target in mid && MethodIn(last.data).Some? {
        HandledKeepsMethods(mid[last.target], last.data, MethodIn(last.data).value, last.result.rc);
      }
    }
  }

  lemma SameRoute(obj: ServerObject, obj': ServerObject, data: seq<byte>)
    requires obj'.methods == obj.methods && obj'.base == obj.base
    ensures RouteTo(obj', data) == RouteTo(obj, data)
  {
  }

  /** A call as it is logged: the callback of exactly that name, or else the base callback. */
  lemma CallByName(m: Provided, s: seq<Arrival>, i: nat, vs: seq<Value>, name: CString)
    requires i < |s| && s[i].target in m && ObjectInv(m[s[i].target]) && Fits(VString(name))
    requires AllFit(vs) && |EncodeAll(vs)| < TRAILER_LIMIT && s[i].data == WithMethod(EncodeAll(vs), name)
    ensures var call, methods := Calls(m, s)[i], Contents(m[s[i].target].methods);
            && call.arrival == s[i] && call.name == Some(name) && call.cursor == 0
            && call.callee == (if name in methods then Method(methods[name]) else Base(m[s[i].target].base))
            && (call.callee != Method(BuiltIn) ==> call.reply == s[i].result.reply)
  {
    var a, mid := s[i], Final(m, s[..i]);
    RequestRoutes(m[a.target], EncodeAll(vs), name);
    FinalKeepsMethods(m, s[..i], a.target);
    SameRoute(m[a.target], ObjectFor(mid, a.target), a.data);
    assert Calls(m, s)[i] == CallOn(mid, a);
  }

  /** A request for a method, with what its callback will reply. */
  ghost predicate Asks(m: Provided, a: Arrival, vs: seq<Value>, name: CString, reply: Option<seq<Value>>) {
    && a.isRequest && a.target in m && ObjectInv(m[a.target])
    && Fits(VString(name)) && AllFit(vs) && |EncodeAll(vs)| < TRAILER_LIMIT
    && a.data == WithMethod(EncodeAll(vs), name)
    && (reply.Some? ==> AllFit(reply.value) && |EncodeAll(reply.value)| < TRAILER_LIMIT)
    && a.result.reply == if reply.Some? then Some(EncodeAll(reply.value)) else None
  }

  /** Every request among dispatched messages, at any place: the handler of exactly its method name,
      or else the base callback, was called on a readable body; and unless that base callback took the
      request over, its caller was sent a response that it accepts and reads as what the callback
      replied. With `s` the arrival order, these are all messages that an outermost arrival lets in. */
  lemma EveryRequestIsAnswered(start: Log, s: seq<Arrival>, i: nat, vs: seq<Value>, name: CString,
                               reply: Option<seq<Value>>)
    requires i < |s| && Asks(start.provided, s[i], vs, name, reply)
    ensures var now, obj := Dispatched(start, start.arrived + s, s), start.provided[s[i].target];
            var callee := if name in Contents(obj.methods) then Method(Contents(obj.methods)[name]) else Base(obj.base);
            && ReadAll(s[i].data, 0, ShapesOf(vs)) == Some(vs)
            && |now.calls| == |start.calls| + |s|
            && var call := now.calls[|start.calls| + i];
            && call.arrival == s[i] && call.callee == callee && call.name == Some(name) && call.cursor == 0
            && (callee != Method(BuiltIn) && !(callee.Base? && s[i].result.rc == SUCCESS_ASYNC) ==>
                  Answered(now.sent[|start.sent|..], s[i].id, reply))
  {
    BodyReadableUnderMethod(vs, name);
    CallByName(start.provided, s, i, vs, name);
    CallLogged(start, s, i);
    CallIsAnswered(Calls(start.provided, s), i, reply);
  }

  /** Some response delivers the reply, or the code for an unsupported method. */
  ghost predicate Answered(sent: seq<Sent>, id: nat, reply: Option<seq<Value>>) {
    exists k :: 0 <= k < |sent| &&
      Delivers(sent[k], id, if reply.Some? then reply.value else [VInt32(ERROR_UNSUPPORTED_METHOD)])
  }

  lemma CallLogged(start: Log, s: seq<Arrival>, i: nat)
    requires i < |s|
    ensures var now, calls := Dispatched(start, start.arrived + s, s), Calls(start.provided, s);
            && |now.calls| == |start.calls| + |s| && now.calls[|start.calls| + i] == calls[i]
            && |now.sent| >= |start.sent| && now.sent[|start.sent|..] == Responses(calls)
  {
  }

  lemma CallIsAnswered(calls: seq<Call>, i: nat, reply: Option<seq<Value>>)
    requires i < |calls| && (reply.Some? ==> AllFit(reply.value) && |EncodeAll(reply.value)| < TRAILER_LIMIT)
    ensures var call := calls[i];
            call.arrival.isRequest && !(call.callee.Base? && call.arrival.result.rc == SUCCESS_ASYNC)
            && call.reply == (if reply.Some? then Some(EncodeAll(reply.value)) else None) ==>
              Answered(Responses(calls), call.arrival.id, reply)
  {
    var call := calls[i];
    if call.reply == if reply.Some? then Some(EncodeAll(reply.value)) else None {
      ResponseIsReply(call, reply);
      ResponseAmong(calls, i);
      var response := ResponseTo(call);
      if |response| == 1 {
        assert response[0] in response;
        AnsweredBy(Responses(calls), response[0], call.arrival.id, reply);
      }
    }
  }

  lemma AnsweredBy(sent: seq<Sent>, one: Sent, id: nat, reply: Option<seq<Value>>)
    requires one in sent
    requires Delivers(one, id, if reply.Some? then reply.value else [VInt32(ERROR_UNSUPPORTED_METHOD)])
    ensures Answered(sent, id, reply)
  {
    var k :| 0 <= k < |sent| && sent[k] == one;
  }

  // ---- What is done to the listeners ------------------------------------------------------

  /** What an arrival asks of one event of one object, if it reaches the built-in handler there. */
  function AskedOf(obj: ServerObject, a: Arrival, target: CString, event: CString): seq<Notice> {
    if a.target != target || RouteTo(obj, a.data) != Method(BuiltIn) || MethodIn(a.data).None? then []
    else
      match ReadRequest(a.data, MethodIn(a.data).value)
      case None => []
      case Some(asked) =>
        if asked.event == event && |asked.subscriber| < MAX_OBJECT_NAME then [Notice(asked.subscriber, asked.added)]
        else []
  }

  function AllAskedOf(obj: ServerObject, s: seq<Arrival>, target: CString, event: CString): seq<Notice> {
    if |s| == 0 then []
    else AllAskedOf(obj, s[..|s| - 1], target, event) + AskedOf(obj, s[|s| - 1], target, event)
  }

  /** An object that offers the event and leaves subscriptions to the built-in handler. */
  ghost predicate Offers(obj: ServerObject, event: CString) {
    ObjectInv(obj) && obj.override.None? && event in Contents(obj.events)
  }

  lemma HandledEvent(obj: ServerObject, data: seq<byte>, name: CString, overrideResult: int32, event: CString)
    requires Offers(obj, event)
    ensures var after := HandledObject(obj, data, name, overrideResult);
            && Offers(after, event) && after.methods == obj.methods
            && Contents(after.events)[event]
               == match ReadRequest(data, name)
                  case None => Contents(obj.events)[event]
                  case Some(asked) =>
                    if asked.event == event && |asked.subscriber| < MAX_OBJECT_NAME
                    then Apply(Contents(obj.events)[event], asked.subscriber, asked.added)
                    else Contents(obj.events)[event]
  {
    var asked := ReadRequest(data, name);
    EventShort(obj, event);
    if asked.Some? {
      SubscriptionOn(obj, asked.value.event, asked.value.subscriber, asked.value.added, overrideResult, event);
    }
  }

  lemma EventShort(obj: ServerObject, event: CString)
    requires Offers(obj, event)
    ensures |event| < MAX_EVENT_NAME
  {
    SearchIsLookup(obj.events, event, MAX_EVENT_NAME);
  }

  lemma SubscriptionOn(obj: ServerObject, asked: CString, subscriber: CString, added: bool, overrideResult: int32,
                       event: CString)
    requires Offers(obj, event) && |event| < MAX_EVENT_NAME
    ensures var after := Subscription(obj, asked, subscriber, added, overrideResult).obj;
            && Offers(after, event) && after.methods == obj.methods
            && Contents(after.events)[event]
               == if asked == event && |subscriber| < MAX_OBJECT_NAME
                  then Apply(Contents(obj.events)[event], subscriber, added) else Contents(obj.events)[event]
  {
    SubscriptionRefines(obj, asked, subscriber, added, overrideResult);
  }

  lemma ApplyMore(event: Event, requests: seq<Notice>, more: seq<Notice>)
    requires |more| <= 1
    ensures ApplyAll(event, requests + more)
            == if |more| == 0 then ApplyAll(event, requests)
               else Apply(ApplyAll(event, requests), more[0].listener, more[0].added)
  {
    if |more| == 0 {
      assert requests + more == requests;
    } else {
      assert (requests + more)[..|requests|] == requests;
    }
  }

  /** One dispatch, as seen by one event of one object. */
  lemma AfterEvent(m: Provided, a: Arrival, target: CString, event: CString)
    requires target in m && Offers(m[target], event)
    ensures var m', asked := After(m, a), AskedOf(m[target], a, target, event);
            && target in m' && Offers(m'[target], event) && m'[target].methods == m[target].methods
            && Contents(m'[target].events)[event]
               == if |asked| == 0 then Contents(m[target].events)[event]
                  else Apply(Contents(m[target].events)[event], asked[0].listener, asked[0].added)
  {
    if a.target == target && MethodIn(a.data).Some? {
      HandledEvent(m[target], a.data, MethodIn(a.data).value, a.result.rc, event);
    }
  }

  lemma SameMethodsAsk(obj: ServerObject, obj': ServerObject, a: Arrival, target: CString, event: CString)
    requires obj'.methods == obj.methods
    ensures AskedOf(obj', a, target, event) == AskedOf(obj, a, target, event)
  {
    assert RouteTo(obj', a.data) == Method(BuiltIn) <==> RouteTo(obj, a.data) == Method(BuiltIn);
  }

  /** Dispatching any messages leaves the event as the subscribe and unsubscribe requests among them
      make it, applied in that order. */
  lemma {:induction false} RequestsApplyInOrder(m: Provided, s: seq<Arrival>, target: CString, event: CString)
    requires target in m && Offers(m[target], event)
    ensures var m' := Final(m, s);
            && target in m' && Offers(m'[target], event) && m'[target].methods == m[target].methods
            && Contents(m'[target].events)[event]
               == ApplyAll(Contents(m[target].events)[event], AllAskedOf(m[target], s, target, event))
  {
    if |s| == 0 {
    } else {
      var front, last := s[..|s| - 1], s[|s| - 1];
      var mid := Final(m, front);
      RequestsApplyInOrder(m, front, target, event);
      AfterEvent(mid, last, target, event);
      SameMethodsAsk(m[target], mid[target], last, target, event);
      ApplyMore(Contents(m[target].events)[event], AllAskedOf(m[target], front, target, event),
                AskedOf(m[target], last, target, event));
    }
  }

  /** After an outermost arrival and everything that came in while it was handled: a client is listed
      for a newly registered event exactly if the last of its requests, in the order of arrival at
      whatever depth, was a subscribe, and the application was told so in alternation. */
  lemma ListenersFollowArrivals(m: Provided, a: Arrival, target: CString, event: CString, callback: Option<nat>)
    requires target in m && Offers(m[target], event) && Contents(m[target].events)[event] == Event([], callback, [])
    ensures var requests := AllAskedOf(m[target], ArrivalOrder([a]), target, event);
            var m' := Final(m, ArrivalOrder([a]));
            && target in m' && event in Contents(m'[target].events)
            && var after := Contents(m'[target].events)[event];
            && Consistent(after) && after.callback == callback
            && (forall l: CString :: l in after.listeners <==> LastAskedFor(requests, l))
            && InListingOrder(requests, after.listeners)
  {
    RequestsApplyInOrder(m, ArrivalOrder([a]), target, event);
    NotificationHistory(callback, AllAskedOf(m[target], ArrivalOrder([a]), target, event));
    ListingOrder(callback, AllAskedOf(m[target], ArrivalOrder([a]), target, event));
  }

  /** Publishing afterwards attempts one send to each client that last asked to be listed, and to
      those first who got listed first. */
  lemma AttemptsFollowArrivals(m: Provided, a: Arrival, target: CString, event: CString, callback: Option<nat>,
                               bytes: seq<byte>)
    requires target in m && Offers(m[target], event) && Contents(m[target].events)[event] == Event([], callback, [])
    ensures var requests := AllAskedOf(m[target], ArrivalOrder([a]), target, event);
            var m' := Final(m, ArrivalOrder([a]));
            && target in m' && event in Contents(m'[target].events)
            && var attempts := Server.Attempts(Contents(m'[target].events)[event].listeners, bytes);
            && (forall l: CString :: LastAskedFor(requests, l) <==> Server.Attempt(l, bytes) in attempts)
            && (forall i, j :: 0 <= i < j < |attempts| ==>
                  ListedAt(requests, attempts[i].listener) < ListedAt(requests, attempts[j].listener))
  {
    ListenersFollowArrivals(m, a, target, event, callback);
    var listeners := Contents(Final(m, ArrivalOrder([a]))[target].events)[event].listeners;
    forall l: CString ensures l in listeners <==> Server.Attempt(l, bytes) in Server.Attempts(listeners, bytes) {
      OneAttemptEach(listeners, l, bytes);
    }
  }

  lemma OneAttemptEach(listeners: seq<CString>, l: CString, bytes: seq<byte>)
    ensures l in listeners <==> Server.Attempt(l, bytes) in Server.Attempts(listeners, bytes)
  {
    var attempts := Server.Attempts(listeners, bytes);
    if l in listeners {
      var i :| 0 <= i < |listeners| && listeners[i] == l;
      assert attempts[i] == Server.Attempt(l, bytes);
    }
  }

  lemma NoOverride(obj: ServerObject, data: seq<byte>, name: CString, overrideResult: int32)
    requires obj.override.None?
    ensures HandledObject(obj, data, name, overrideResult) == HandledObject(obj, data, name, SUBSCRIBE_NOT_HANDLED)
    ensures HandlerBody(obj, data, name, overrideResult) == HandlerBody(obj, data, name, SUBSCRIBE_NOT_HANDLED)
  {
  }

  /** Dispatching a subscription request is a delivery of the protocol: it leaves the object as the
      protocol says, and the client's call succeeds on the response exactly if the protocol says so. */
  lemma DispatchIsDelivery(m: Provided, a: Arrival, r: Protocol.Request, payload: Option<seq<byte>>)
    requires a.target in m && ObjectInv(m[a.target]) && m[a.target].override.None?
    requires a.data == RequestBytes(r.event, r.client, payload, r.activate)
    requires Fits(VString(r.event)) && Fits(VString(r.client)) && (payload.Some? ==> Fits(VBytes(payload.value)))
    requires |EncodeAll(RequestItems(r.event, r.client, payload))| < TRAILER_LIMIT
    ensures var served := Protocol.Serve(m[a.target], r, ReadAnswer(Replied(ReplyBytes(a.result.reply))).rc);
            && After(m, a) == m[a.target := served.obj]
            && (forall sent <- ResponseTo(CallOn(m, a)) ::
                  && sent.id == a.id
                  && (served.rc == SUCCESS <==> ReadAnswer(Replied(sent.bytes)).rc == SUCCESS))
            && (a.isRequest && Bound(m[a.target], Protocol.MethodOf(r)) ==> |ResponseTo(CallOn(m, a))| == 1)
  {
    var obj, name := m[a.target], Protocol.MethodOf(r);
    Wire.ServeOverTheWire(obj, r, payload, a.result.reply);
    RequestAgreement(r.event, r.client, payload, r.activate);
    NoOverride(obj, a.data, name, a.result.rc);
    RoutedReply(m, a, name);
    ResponseCarries(CallOn(m, a));
  }

  lemma ResponseCarries(call: Call)
    ensures forall sent <- ResponseTo(call) :: sent == Sent(call.arrival.id, ReplyBytes(call.reply))
    ensures call.arrival.isRequest && call.callee.Method? ==> |ResponseTo(call)| == 1
  {
  }

  /** Where an override handler is set and takes the request, its answer decides alone: no list
      changes, and the client's call succeeds exactly if it answered success, and else learns the code. */
  lemma OverrideDecides(m: Provided, a: Arrival, r: Protocol.Request, payload: Option<seq<byte>>)
    requires a.target in m && ObjectInv(m[a.target]) && Bound(m[a.target], Protocol.MethodOf(r))
    requires m[a.target].override.Some? && a.result.rc != SUBSCRIBE_NOT_HANDLED
    requires a.isRequest && a.data == RequestBytes(r.event, r.client, payload, r.activate)
    requires |r.event| < MAX_EVENT_NAME && |r.client| < MAX_OBJECT_NAME
    requires payload.Some? ==> Fits(VBytes(payload.value))
    requires |EncodeAll(RequestItems(r.event, r.client, payload))| < TRAILER_LIMIT
    ensures After(m, a) == m && |ResponseTo(CallOn(m, a))| == 1
    ensures ReadAnswer(Replied(ResponseTo(CallOn(m, a))[0].bytes))
            == if a.result.rc == SUCCESS then Answer(SUCCESS, None) else Answer(ERROR_GENERAL, Some(a.result.rc))
  {
    var obj, name := m[a.target], Protocol.MethodOf(r);
    BoundIsLookup(obj, name);
    RequestRoutes(obj, EncodeAll(RequestItems(r.event, r.client, payload)), name);
    RequestAgreement(r.event, r.client, payload, r.activate);
    OverrideAnswers(obj, Asked(r.event, r.client, r.activate, payload), a.data, name, a.result.rc);
    AnswerAgreement(a.result.rc);
    BuiltInAnswers(m, a, name);
  }

  lemma OverrideAnswers(obj: ServerObject, asked: Asked, data: seq<byte>, name: CString, overrideResult: int32)
    requires ReadRequest(data, name) == Some(asked) && obj.override.Some? && overrideResult != SUBSCRIBE_NOT_HANDLED
    requires |asked.event| < MAX_EVENT_NAME && |asked.subscriber| < MAX_OBJECT_NAME
    ensures HandledObject(obj, data, name, overrideResult) == obj
    ensures HandlerBody(obj, data, name, overrideResult) == EncodeAll([VInt32(overrideResult)])
  {
  }

  lemma BuiltInAnswers(m: Provided, a: Arrival, name: CString)
    requires a.isRequest && a.target in m && MethodIn(a.data) == Some(name)
    requires RouteTo(m[a.target], a.data) == Method(BuiltIn)
    ensures var obj := m[a.target];
            && After(m, a) == m[a.target := HandledObject(obj, a.data, name, a.result.rc)]
            && ResponseTo(CallOn(m, a))
               == [Sent(a.id, ReplyBytes(Some(HandlerBody(obj, a.data, name, a.result.rc))))]
  {
  }

  lemma RoutedReply(m: Provided, a: Arrival, name: CString)
    requires a.target in m && MethodIn(a.data) == Some(name)
    requires var obj := m[a.target];
             && HandledObject(obj, a.data, name, a.result.rc) == HandledObject(obj, a.data, name, SUBSCRIBE_NOT_HANDLED)
             && HandlerBody(obj, a.data, name, a.result.rc) == HandlerBody(obj, a.data, name, SUBSCRIBE_NOT_HANDLED)
    ensures After(m, a) == m[a.target := Wire.ObjectAfter(m[a.target], a.data, name)]
    ensures ReplyBytes(CallOn(m, a).reply) == Wire.AnswerBytes(m[a.target], a.data, name, a.result.reply)
  {
  }
}
