/** Run-to-completion dispatch: a message that arrives while another one is being handled waits
    in a queue until the outermost handler has returned. */
module Dispatch {
  import opened Bytes
  import opened Messages
  import opened BusTypes
  import opened Vectors
  import opened Registry
  import opened Rpc
  import opened Subscriptions
  import Server

  /** What an application callback returned, with the contents of the response it supplied. Where
      the built-in subscription handler runs, `rc` is what an override handler answers it. */
  datatype Result = Result(rc: int32, reply: Option<seq<byte>>)

  /** A message reaching the process: its header, its bytes, the object its listener is bound to,
      and what the handling of it will do, namely the result and the arrivals it lets in. */
  datatype Arrival = Arrival(id: nat, isRequest: bool, data: seq<byte>, target: CString,
                             result: Result, during: seq<Arrival>)

  /** One callback invocation: which callback, with what method name, from what cursor, and what it
      replied. */
  datatype Call = Call(arrival: Arrival, callee: Target, name: Option<CString>, cursor: int, reply: Option<seq<byte>>)

  datatype Sent = Sent(id: nat, bytes: seq<byte>)

  /** The objects of the process, by name. */
  type Provided = map<CString, ServerObject>

  /** Every arrival, at any depth, is bound to one of these objects. */
  predicate Known(a: Arrival, names: set<CString>)
    decreases a
  {
    a.target in names && KnownAll(a.during, names)
  }

  predicate KnownAll(s: seq<Arrival>, names: set<CString>)
    decreases s
  {
    forall i :: 0 <= i < |s| ==> Known(s[i], names)
  }

  /** A name that nothing is bound to stands for an object without methods. */
  function ObjectFor(m: Provided, name: CString): ServerObject {
    if name in m then m[name] else ServerObject(0, [], [], false, None)
  }

  function CalleeOf(m: Provided, a: Arrival): Target {
    RouteTo(ObjectFor(m, a.target), a.data)
  }

  /** The contents of a callback's response. The built-in handler works on the request and the
      object, everything else is up to the application. */
  function ReplyTo(obj: ServerObject, a: Arrival, callee: Target, name: Option<CString>): Option<seq<byte>> {
    if callee == Method(BuiltIn) && name.Some? then Some(HandlerBody(obj, a.data, name.value, a.result.rc))
    else a.result.reply
  }

  function CallOn(m: Provided, a: Arrival): (call: Call)
    ensures call.arrival == a
  {
    var callee, name := CalleeOf(m, a), MethodIn(a.data);
    Call(a, callee, name, 0, ReplyTo(ObjectFor(m, a.target), a, callee, name))
  }

  /** The objects after one dispatch: only the built-in handler changes one. */
  function After(m: Provided, a: Arrival): Provided {
    if a.target in m && CalleeOf(m, a) == Method(BuiltIn) && MethodIn(a.data).Some?
    then m[a.target := HandledObject(m[a.target], a.data, MethodIn(a.data).value, a.result.rc)]
    else m
  }

  /** The objects after these dispatches. */
  function Final(m: Provided, s: seq<Arrival>): Provided {
    if |s| == 0 then m else After(Final(m, s[..|s| - 1]), s[|s| - 1])
  }

  /** What these dispatches call, each with the objects as the ones before have left them. */
  function Calls(m: Provided, s: seq<Arrival>): (r: seq<Call>)
    ensures |r| == |s| && forall i :: 0 <= i < |s| ==> r[i] == CallOn(Final(m, s[..i]), s[i])
  {
    seq(|s|, i requires 0 <= i < |s| => CallOn(Final(m, s[..i]), s[i]))
  }

  /** A base callback may take a request over and answer it later. */
  predicate TakenOver(call: Call) {
    call.callee.Base? && call.arrival.result.rc == SUCCESS_ASYNC
  }

  function ResponseTo(call: Call): seq<Sent> {
    if TakenOver(call) || !call.arrival.isRequest then [] else [Sent(call.arrival.id, ReplyBytes(call.reply))]
  }

  function Responses(calls: seq<Call>): seq<Sent> {
    if |calls| == 0 then [] else Responses(calls[..|calls| - 1]) + ResponseTo(calls[|calls| - 1])
  }

  function ArrivalsOf(calls: seq<Call>): (r: seq<Arrival>)
    ensures |r| == |calls| && forall i :: 0 <= i < |calls| ==> r[i] == calls[i].arrival
  {
    seq(|calls|, i requires 0 <= i < |calls| => calls[i].arrival)
  }

  // ---- Arrival trees ----------------------------------------------------------------------

  function Size(a: Arrival): nat
    decreases a
  {
    1 + SizeAll(a.during)
  }

  function SizeAll(s: seq<Arrival>): nat
    decreases s
  {
    if |s| == 0 then 0 else Size(s[0]) + SizeAll(s[1..])
  }

  lemma {:induction false} SizeAllConcat(s: seq<Arrival>, t: seq<Arrival>)
    ensures SizeAll(s + t) == SizeAll(s) + SizeAll(t)
  {
    if |s| == 0 {
      assert s + t == t;
    } else {
      SizeAllConcat(s[1..], t);
      assert (s + t)[1..] == s[1..] + t;
    }
  }

  lemma {:induction false} SizeOfMember(s: seq<Arrival>, i: nat)
    requires i < |s|
    ensures Size(s[i]) <= SizeAll(s)
  {
    if i > 0 {
      SizeOfMember(s[1..], i - 1);
    }
  }

  /** Everything that arrives when these are handled first come, first served. */
  function ArrivalOrder(queue: seq<Arrival>): seq<Arrival>
    decreases SizeAll(queue)
  {
    if |queue| == 0 then []
    else
      SizeAllConcat(queue[1..], queue[0].during);
      assert Size(queue[0]) == 1 + SizeAll(queue[0].during);
      [queue[0]] + ArrivalOrder(queue[1..] + queue[0].during)
  }

  /** How often an arrival occurs in these trees, at any depth. */
  function Occurs(a: Arrival, x: Arrival): nat
    decreases a
  {
    (if a == x then 1 else 0) + OccursAll(a.during, x)
  }

  function OccursAll(s: seq<Arrival>, x: Arrival): nat
    decreases s
  {
    if |s| == 0 then 0 else Occurs(s[0], x) + OccursAll(s[1..], x)
  }

  lemma {:induction false} OccursAllConcat(s: seq<Arrival>, t: seq<Arrival>, x: Arrival)
    ensures OccursAll(s + t, x) == OccursAll(s, x) + OccursAll(t, x)
  {
    if |s| == 0 {
      assert s + t == t;
    } else {
      OccursAllConcat(s[1..], t, x);
      assert (s + t)[1..] == s[1..] + t;
    }
  }

  /** Serving the head of a queue: what is left is smaller by one, and the order continues with it. */
  lemma ServeHead(queue: seq<Arrival>)
    requires |queue| > 0
    ensures var rest := queue[1..] + queue[0].during;
            && SizeAll(rest) == SizeAll(queue) - 1
            && ArrivalOrder(queue) == [queue[0]] + ArrivalOrder(rest)
  {
    SizeAllConcat(queue[1..], queue[0].during);
    assert Size(queue[0]) == 1 + SizeAll(queue[0].during);
  }

  /** First come, first served visits every nested arrival, and visits it once. */
  lemma {:induction false} ArrivalOrderVisitsEachOnce(queue: seq<Arrival>, x: Arrival)
    ensures multiset(ArrivalOrder(queue))[x] == OccursAll(queue, x)
    decreases SizeAll(queue)
  {
    if |queue| == 0 {
    } else {
      var rest := queue[1..] + queue[0].during;
      ServeHead(queue);
      ArrivalOrderVisitsEachOnce(rest, x);
      OccursAllConcat(queue[1..], queue[0].during, x);
      assert Occurs(queue[0], x) == (if queue[0] == x then 1 else 0) + OccursAll(queue[0].during, x);
    }
  }

  // ---- Draining the queue -----------------------------------------------------------------

  datatype Log = Log(arrived: seq<Arrival>, calls: seq<Call>, sent: seq<Sent>, provided: Provided)

  /** The log after these have been dispatched. */
  function Dispatched(start: Log, arrived: seq<Arrival>, done: seq<Arrival>): Log {
    Log(arrived, start.calls + Calls(start.provided, done), start.sent + Responses(Calls(start.provided, done)),
        Final(start.provided, done))
  }

  function OneDispatched(now: Log, a: Arrival): Log {
    var call := CallOn(now.provided, a);
    Log(now.arrived + a.during, now.calls + [call], now.sent + ResponseTo(call), After(now.provided, a))
  }

  /** Between two dispatches: `done` has been served, and the queue holds the rest of what arrived. */
  ghost predicate Draining(a: Arrival, start: Log, done: seq<Arrival>, queue: seq<Arrival>, now: Log) {
    && now == Dispatched(start, start.arrived + done + queue, done)
    && done + ArrivalOrder(queue) == ArrivalOrder([a])
    && SizeAll(queue) < Size(a)
    && KnownAll(queue, start.provided.Keys)
  }

  lemma OneMore(m: Provided, s: seq<Arrival>, a: Arrival)
    ensures Final(m, s + [a]) == After(Final(m, s), a)
    ensures Calls(m, s + [a]) == Calls(m, s) + [CallOn(Final(m, s), a)]
  {
    assert (s + [a])[..|s|] == s;
    CallsStay(m, s, a);
  }

  lemma CallsStay(m: Provided, s: seq<Arrival>, a: Arrival)
    ensures Calls(m, s + [a])[..|s|] == Calls(m, s)
  {
    var more, calls := Calls(m, s + [a]), Calls(m, s);
    forall i | 0 <= i < |s| ensures more[i] == calls[i] {
      PrefixStays(s, a, i);
    }
  }

  lemma PrefixStays(s: seq<Arrival>, a: Arrival, i: nat)
    requires i < |s|
    ensures (s + [a])[..i] == s[..i] && (s + [a])[i] == s[i]
  {
  }

  lemma OneResponse(calls: seq<Call>, call: Call)
    ensures Responses(calls + [call]) == Responses(calls) + ResponseTo(call)
  {
    assert (calls + [call])[..|calls|] == calls;
  }

  lemma {:induction false} FinalKeys(m: Provided, s: seq<Arrival>)
    ensures Final(m, s).Keys == m.Keys
  {
    if |s| > 0 {
      FinalKeys(m, s[..|s| - 1]);
    }
  }

  lemma MoveHead<T>(front: seq<T>, done: seq<T>, queue: seq<T>, more: seq<T>)
    requires |queue| > 0
    ensures front + done + queue + more == front + (done + [queue[0]]) + (queue[1..] + more)
    ensures done + queue == (done + [queue[0]]) + queue[1..]
  {
  }

  lemma Assoc<T>(a: seq<T>, b: seq<T>, c: seq<T>)
    ensures (a + b) + c == a + (b + c)
  {
  }

  lemma SplitLast<T>(a: seq<T>, b: seq<T>)
    requires |b| > 0
    ensures a + b == (a + b[..|b| - 1]) + [b[|b| - 1]]
  {
  }

  lemma RemoveHead<T>(queue: seq<T>, more: seq<T>)
    requires |queue| > 0
    ensures RemoveAt(queue + more, 0) == queue[1..] + more
  {
  }

  /** One more dispatch of the log. */
  lemma DispatchedMore(start: Log, arrived: seq<Arrival>, done: seq<Arrival>, a: Arrival)
    ensures OneDispatched(Dispatched(start, arrived, done), a)
            == Dispatched(start, arrived + a.during, done + [a])
  {
    var calls, call := Calls(start.provided, done), CallOn(Final(start.provided, done), a);
    OneMore(start.provided, done, a);
    OneResponse(calls, call);
    Assoc(start.calls, calls, [call]);
    Assoc(start.sent, Responses(calls), ResponseTo(call));
  }

  lemma DrainBegins(a: Arrival, start: Log)
    requires Known(a, start.provided.Keys)
    ensures Draining(a, start, [a], a.during, OneDispatched(start.(arrived := start.arrived + [a]), a))
  {
    var arrived := start.arrived + [a];
    NothingDispatched(start, arrived);
    DispatchedMore(start, arrived, [], a);
    OrderOfOne(a);
  }

  lemma NothingDispatched(start: Log, arrived: seq<Arrival>)
    ensures Dispatched(start, arrived, []) == start.(arrived := arrived)
  {
    assert start.calls + [] == start.calls && start.sent + [] == start.sent;
  }

  lemma OrderOfOne(a: Arrival)
    ensures [] + [a] == [a] && [a] + ArrivalOrder(a.during) == ArrivalOrder([a])
    ensures SizeAll(a.during) < Size(a)
  {
    ServeHead([a]);
    assert [a][1..] + a.during == a.during;
    assert Size(a) == 1 + SizeAll(a.during);
  }

  lemma DrainServes(a: Arrival, start: Log, done: seq<Arrival>, queue: seq<Arrival>, now: Log)
    requires Draining(a, start, done, queue, now) && |queue| > 0
    ensures var r := queue[0];
            && Draining(a, start, done + [r], queue[1..] + r.during, OneDispatched(now, r))
            && Size(r) < Size(a) && SizeAll(queue[1..] + r.during) < SizeAll(queue)
            && Known(r, now.provided.Keys)
  {
    var r := queue[0];
    ServeHead(queue);
    SizeOfMember(queue, 0);
    FinalKeys(start.provided, done);
    DispatchedMore(start, start.arrived + done + queue, done, r);
    MoveHead(start.arrived, done, queue, r.during);
    MoveHead([], done, [r] + ArrivalOrder(queue[1..] + r.during), []);
    KnownRest(queue, start.provided.Keys);
  }

  lemma KnownRest(queue: seq<Arrival>, names: set<CString>)
    requires |queue| > 0 && KnownAll(queue, names)
    ensures Known(queue[0], names) && KnownAll(queue[1..] + queue[0].during, names)
  {
    var more := queue[0].during;
    assert Known(queue[0], names);
    assert KnownAll(more, names);
  }

  lemma DrainEnds(a: Arrival, start: Log, done: seq<Arrival>, now: Log)
    requires Draining(a, start, done, [], now)
    ensures done == ArrivalOrder([a]) && now == Dispatched(start, start.arrived + done, done)
  {
    assert start.arrived + done + [] == start.arrived + done;
  }

  // ---- Logs read back ---------------------------------------------------------------------

  lemma {:induction false} ResponsesConcat(a: seq<Call>, b: seq<Call>)
    ensures Responses(a + b) == Responses(a) + Responses(b)
  {
    if |b| == 0 {
      assert a + b == a;
    } else {
      var front, last := b[..|b| - 1], b[|b| - 1];
      ResponsesConcat(a, front);
      SplitLast(a, b);
      OneResponse(a + front, last);
      Assoc(Responses(a), Responses(front), ResponseTo(last));
    }
  }

  lemma ArrivalsConcat(a: seq<Call>, b: seq<Call>)
    ensures ArrivalsOf(a + b) == ArrivalsOf(a) + ArrivalsOf(b)
  {
  }

  lemma CallsFollowArrivals(m: Provided, s: seq<Arrival>)
    ensures ArrivalsOf(Calls(m, s)) == s
  {
    var calls := Calls(m, s);
    assert forall i :: 0 <= i < |s| ==> calls[i].arrival == s[i];
  }

  lemma LogsGrow(calls: seq<Call>, m: Provided, s: seq<Arrival>)
    ensures ArrivalsOf(calls + Calls(m, s)) == ArrivalsOf(calls) + s
    ensures Responses(calls + Calls(m, s)) == Responses(calls) + Responses(Calls(m, s))
  {
    ArrivalsConcat(calls, Calls(m, s));
    CallsFollowArrivals(m, s);
    ResponsesConcat(calls, Calls(m, s));
  }

  // ---- The dispatcher ---------------------------------------------------------------------

  /** `calls` and `sent` are what the rest of the system sees. The ghost fields watch the code:
      `arrived` grows at every entry of OnMessage, `active` counts dispatches under way. */
  class Dispatcher {
    const mutex: Mutex
    const provider: Server.Provider
    var stackCounter: nat
    var queue: seq<Arrival>
    var calls: seq<Call>
    var sent: seq<Sent>
    ghost var arrived: seq<Arrival>
    ghost var active: nat

    constructor (provider: Server.Provider)
      requires provider.Valid()
      ensures this.provider == provider && mutex == provider.mutex && Quiescent() && arrived == []
    {
      this.provider, mutex := provider, provider.mutex;
      stackCounter, queue, calls, sent := 0, [], [], [];
      arrived, active := [], 0;
    }

    ghost function Now(): Log
      reads this, provider
    {
      Log(arrived, calls, sent, Contents(provider.objects))
    }

    ghost predicate Sound()
      reads this, provider
    {
      provider.mutex == mutex && provider.Valid()
    }

    /** The only moments at which the transport can deliver: nothing is being handled and nothing
        waits, or one callback is running and blocks in a call of its own. */
    ghost predicate Ready()
      reads this, provider
    {
      Sound() && stackCounter == active <= 1 && (active == 0 ==> queue == [])
    }

    /** Between outermost arrivals: nothing waits, every message that ever arrived was handled in
        arrival order, and the responses sent are exactly the ones those calls ask for. */
    ghost predicate Quiescent()
      reads this, provider
    {
      Ready() && active == 0 && ArrivalsOf(calls) == arrived && sent == Responses(calls)
    }

    /** Between outermost arrivals, every request that ever came in was answered, or was taken over
        by a base callback, and nothing else was answered: identifiers are conserved, with
        multiplicity. A request whose identifier came in once was answered or taken over once, and
        not both. */
    lemma RequestsAnsweredOnce(id: nat)
      requires Quiescent()
      ensures SentIds(sent) + TakenOverIds(calls) == RequestIds(arrived)
      ensures RequestIds(arrived)[id] == 1 ==> SentIds(sent)[id] + TakenOverIds(calls)[id] == 1
      ensures id !in RequestIds(arrived) ==> id !in SentIds(sent)
    {
      ResponsesAreConserved(calls);
      assert (SentIds(sent) + TakenOverIds(calls))[id] == RequestIds(arrived)[id];
    }

    /** From an idle process, one arrival and everything it lets in are dispatched one at a time,
        once each, in the order in which they arrived, each with the objects as the ones before have
        left them; then the process is idle again. While a callback runs, an arrival is only queued. */
    method OnMessage(a: Arrival)
      requires Ready() && !mutex.held && Known(a, Contents(provider.objects).Keys)
      modifies this, mutex, provider`objects, provider`overrideCalls
      ensures Ready() && active == old(active) && !mutex.held
      ensures old(active) == 1 ==>
                && Now() == old(Now()).(arrived := old(arrived) + [a]) && queue == old(queue) + [a]
                && provider.objects == old(provider.objects)
      ensures old(active) == 0 ==>
                var order := ArrivalOrder([a]);
                Now() == Dispatched(old(Now()), old(arrived) + order, order)
      ensures old(Quiescent()) ==> Quiescent()
      decreases Size(a), 4
    {
      ghost var start := Now();
      arrived := arrived + [a];
      stackCounter := stackCounter + 1;
      if 1 != stackCounter {
        queue := queue + [a];
      } else {
        DrainBegins(a, start);
        DispatchMethodCall(a);
        assert queue == a.during;
      }
      if 1 == stackCounter {
        ConsumeQueue(a, start);
        LogsGrow(start.calls, start.provided, ArrivalOrder([a]));
      }
      stackCounter := stackCounter - 1;
    }

    /** The loop at the end of the outermost OnMessage. */
    method ConsumeQueue(ghost a: Arrival, ghost start: Log)
      requires Sound() && stackCounter == 1 && active == 0 && !mutex.held
      requires Draining(a, start, [a], queue, Now())
      modifies this, mutex, provider`objects, provider`overrideCalls
      ensures Sound() && stackCounter == 1 && active == 0 && !mutex.held && queue == []
      ensures var order := ArrivalOrder([a]);
              Now() == Dispatched(start, start.arrived + order, order)
      decreases Size(a), 3
    {
      ghost var done := [a];
      while |queue| > 0
        invariant Sound() && stackCounter == 1 && active == 0 && !mutex.held
        invariant Draining(a, start, done, queue, Now())
        decreases SizeAll(queue)
      {
        DrainServes(a, start, done, queue, Now());
        done := done + [queue[0]];
        ConsumeHead();
      }
      DrainEnds(a, start, done, Now());
    }

    /** The oldest request is dispatched and then removed. */
    method ConsumeHead()
      requires Sound() && stackCounter == 1 && active == 0 && !mutex.held
      requires |queue| > 0 && Known(queue[0], Contents(provider.objects).Keys)
      modifies this, mutex, provider`objects, provider`overrideCalls
      ensures Sound() && stackCounter == 1 && active == 0 && !mutex.held
      ensures Now() == OneDispatched(old(Now()), old(queue)[0])
      ensures queue == old(queue)[1..] + old(queue)[0].during
      decreases Size(queue[0]), 4
    {
      var request := queue[0];
      RemoveHead(queue, request.during);
      DispatchMethodCall(request);
      queue := RemoveAt(queue, 0);
    }

    method DispatchMethodCall(a: Arrival)
      requires Sound() && stackCounter == 1 && active == 0 && !mutex.held
      requires Known(a, Contents(provider.objects).Keys)
      modifies this, mutex, provider`objects, provider`overrideCalls
      ensures Sound() && stackCounter == 1 && active == 0 && !mutex.held
      ensures Now() == OneDispatched(old(Now()), a) && queue == old(queue) + a.during
      decreases Size(a), 3
    {
      active := 1;
      ghost var call := CallOn(Contents(provider.objects), a);
      CallParts(provider.objects, a);
      var i := Find(provider.objects, a.target, MAX_OBJECT_NAME);
      var msg, name := ReadName(a.data);
      var callee := FindCallee(provider.objects[i].val, a.data, name);
      CallAndRespond(a, i, callee, name, msg, call);
      active := 0;
    }

    method CallAndRespond(a: Arrival, i: nat, callee: Target, name: Option<CString>, msg: RbusMessage, ghost call: Call)
      requires Sound() && stackCounter == 1 && active == 1 && !mutex.held
      requires KnownAll(a.during, Contents(provider.objects).Keys)
      requires i < |provider.objects| && provider.objects[i].name == a.target
      requires call == CallOn(Contents(provider.objects), a) && callee == call.callee && name == call.name
      requires msg.readOffset == 0 && msg.sbuf == a.data
      modifies this, mutex, provider`objects, provider`overrideCalls, msg
      ensures Sound() && stackCounter == 1 && active == 1 && !mutex.held
      ensures arrived == old(arrived) + a.during && queue == old(queue) + a.during
      ensures calls == old(calls) + [call] && sent == old(sent) + ResponseTo(call)
      ensures Contents(provider.objects) == After(old(Contents(provider.objects)), a)
      decreases Size(a), 2
    {
      var rc, response := RunCallback(a, i, callee, name, msg, call);
      Respond(a, callee, rc, response, call);
    }

    method ReadName(data: seq<byte>) returns (msg: RbusMessage, name: Option<CString>)
      ensures fresh(msg) && msg.readOffset == 0 && msg.sbuf == data && name == MethodIn(data)
    {
      msg := new RbusMessage.FromBytes(data);
      name := GetMessageMethod(msg);
    }

    /** The search is done under the lock, which is released before the callback is entered. */
    method FindCallee(obj: ServerObject, data: seq<byte>, name: Option<CString>) returns (callee: Target)
      requires name == MethodIn(data)
      modifies mutex
      ensures !mutex.held && callee == RouteTo(obj, data)
    {
      callee := Base(obj.base);
      var _ := mutex.Lock();
      if |obj.methods| > 0 && name.Some? {
        var k := Find(obj.methods, name.value, MAX_METHOD_NAME);
        if k < |obj.methods| {
          callee := Method(obj.methods[k].val);
        }
      }
      var _ := mutex.Unlock();
    }

    /** The end of a dispatch: a response, unless the base callback will send it later. */
    method Respond(a: Arrival, callee: Target, rc: int32, response: Option<RbusMessage>, ghost call: Call)
      requires call.arrival == a && call.callee == callee && rc == a.result.rc
      requires response.Some? <==> call.reply.Some?
      requires response.Some? ==> response.value.writable && response.value.sbuf == call.reply.value
      modifies this`sent, if response.Some? then {response.value} else {}
      ensures sent == old(sent) + ResponseTo(call)
    {
      if callee.Base? && rc == SUCCESS_ASYNC {
        return;
      }
      var _, bytes := SendResponse(a.isRequest, response, true);
      if bytes.Some? {
        sent := sent + [Sent(a.id, bytes.value)];
      }
    }

    /** A callback, of the application or the built-in handler: it is entered with the mutex free,
        and whatever arrives while it runs is delivered from inside it. */
    method RunCallback(a: Arrival, i: nat, callee: Target, name: Option<CString>, msg: RbusMessage, ghost call: Call)
      returns (rc: int32, reply: Option<RbusMessage>)
      requires Sound() && stackCounter == 1 && active == 1 && !mutex.held
      requires KnownAll(a.during, Contents(provider.objects).Keys)
      requires i < |provider.objects| && provider.objects[i].name == a.target
      requires call == CallOn(Contents(provider.objects), a) && callee == call.callee && name == call.name
      requires msg.readOffset == 0 && msg.sbuf == a.data
      modifies this, mutex, provider`objects, provider`overrideCalls, msg
      ensures Sound() && stackCounter == 1 && active == 1 && !mutex.held
      ensures arrived == old(arrived) + a.during && queue == old(queue) + a.during && sent == old(sent)
      ensures Contents(provider.objects) == After(old(Contents(provider.objects)), a)
      ensures calls == old(calls) + [call] && rc == a.result.rc && (reply.Some? <==> call.reply.Some?)
      ensures reply.Some? ==> fresh(reply.value) && reply.value.writable && reply.value.sbuf == call.reply.value
      decreases Size(a), 1
    {
      LetIn(a);
      ObjectAt(provider.objects, i);
      var cursor := msg.readOffset;
      rc, reply := a.result.rc, None;
      if callee == Method(BuiltIn) && name.Some? {
        var out := RunBuiltIn(i, name.value, msg, a.result.rc);
        reply := Some(out);
      } else if a.result.reply.Some? {
        var m := new RbusMessage.Filled(a.result.reply.value);
        reply := Some(m);
      }
      calls := calls + [Call(a, callee, name, cursor, if reply.Some? then Some(reply.value.sbuf) else None)];
    }

    /** The built-in handler answers from the request and the object, and changes the object. */
    method RunBuiltIn(i: nat, name: CString, msg: RbusMessage, overrideResult: int32) returns (out: RbusMessage)
      requires Sound() && !mutex.held && i < |provider.objects| && msg.readOffset == 0
      modifies provider`objects, provider`overrideCalls, msg
      ensures Sound() && fresh(out) && out.writable
      ensures var obj, m := old(provider.objects[i]), old(Contents(provider.objects));
              && out.sbuf == HandlerBody(obj.val, old(msg.sbuf), name, overrideResult)
              && Contents(provider.objects)
                 == m[obj.name := HandledObject(obj.val, old(msg.sbuf), name, overrideResult)]
    {
      HandledAt(provider.objects, i, HandledObject(provider.objects[i].val, msg.sbuf, name, overrideResult));
      HandledAt(provider.objects, i, provider.objects[i].val);
      out := provider.SubscriptionHandler(i, name, msg, overrideResult);
    }

    /** Everything that arrives while the callback runs is queued in order. */
    method LetIn(a: Arrival)
      requires Sound() && stackCounter == 1 && active == 1 && !mutex.held
      requires KnownAll(a.during, Contents(provider.objects).Keys)
      modifies this, mutex, provider`objects, provider`overrideCalls
      ensures Sound() && stackCounter == 1 && active == 1 && !mutex.held
      ensures Now() == old(Now()).(arrived := old(arrived) + a.during) && queue == old(queue) + a.during
      ensures provider.objects == old(provider.objects)
      decreases Size(a), 0
    {
      for i := 0 to |a.during|
        invariant Sound() && stackCounter == 1 && active == 1 && !mutex.held
        invariant Now() == old(Now()).(arrived := old(arrived) + a.during[..i]) && queue == old(queue) + a.during[..i]
        invariant provider.objects == old(provider.objects)
      {
        SizeOfMember(a.during, i);
        OnMessage(a.during[i]);
      }
    }
  }

  /** What a dispatch finds when it looks the object and the callback up. */
  lemma CallParts(objects: Objects, a: Arrival)
    requires Keyed(objects, MAX_OBJECT_NAME) && Known(a, Contents(objects).Keys)
    ensures KnownAll(a.during, Contents(objects).Keys)
    ensures var i, call := Find(objects, a.target, MAX_OBJECT_NAME), CallOn(Contents(objects), a);
            && i < |objects| && objects[i].name == a.target
            && call.callee == RouteTo(objects[i].val, a.data) && call.name == MethodIn(a.data) && call.arrival == a
  {
    SearchIsLookup(objects, a.target, MAX_OBJECT_NAME);
  }

  lemma ObjectAt(objects: Objects, i: nat)
    requires Keyed(objects, MAX_OBJECT_NAME) && i < |objects|
    ensures ObjectFor(Contents(objects), objects[i].name) == objects[i].val
  {
    ValueAt(objects, i, MAX_OBJECT_NAME);
  }

  lemma HandledAt(objects: Objects, i: nat, obj: ServerObject)
    requires Keyed(objects, MAX_OBJECT_NAME) && i < |objects|
    ensures Contents(SetAt(objects, i, obj)) == Contents(objects)[objects[i].name := obj]
    ensures SetAt(objects, i, objects[i].val) == objects
  {
    SetAtUpdates(objects, i, obj, MAX_OBJECT_NAME);
    SetAtTwice(objects, i, obj, obj);
  }

  // ---- Conservation -----------------------------------------------------------------------

  function RequestIds(s: seq<Arrival>): multiset<nat> {
    if |s| == 0 then multiset{}
    else RequestIds(s[..|s| - 1]) + (if s[|s| - 1].isRequest then multiset{s[|s| - 1].id} else multiset{})
  }

  function TakenOverIds(calls: seq<Call>): multiset<nat> {
    if |calls| == 0 then multiset{}
    else
      var last := calls[|calls| - 1];
      TakenOverIds(calls[..|calls| - 1])
      + (if last.arrival.isRequest && TakenOver(last) then multiset{last.arrival.id} else multiset{})
  }

  function SentIds(sent: seq<Sent>): multiset<nat> {
    if |sent| == 0 then multiset{} else SentIds(sent[..|sent| - 1]) + multiset{sent[|sent| - 1].id}
  }

  lemma SentOneMore(before: seq<Sent>, last: seq<Sent>)
    requires |last| <= 1
    ensures SentIds(before + last) == SentIds(before) + (if |last| == 1 then multiset{last[0].id} else multiset{})
  {
    if |last| == 1 {
      assert (before + last)[..|before|] == before;
    } else {
      assert before + last == before;
    }
  }

  /** The responses that calls ask for, counted by identifier. */
  lemma {:induction false} ResponsesAreConserved(calls: seq<Call>)
    ensures SentIds(Responses(calls)) + TakenOverIds(calls) == RequestIds(ArrivalsOf(calls))
  {
    if |calls| == 0 {
    } else {
      var n := |calls| - 1;
      ResponsesAreConserved(calls[..n]);
      SentOneMore(Responses(calls[..n]), ResponseTo(calls[n]));
      assert ArrivalsOf(calls)[..n] == ArrivalsOf(calls[..n]);
    }
  }
}
