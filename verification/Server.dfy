/** The provider process: the registry calls, the built-in subscription handler and publishing. */
module Server {
  import opened Bytes
  import opened Messages
  import opened Codec
  import opened BusTypes
  import opened Vectors
  import opened Events
  import opened Registry
  import opened RegistryTheorems
  import opened Subscriptions
  import opened Publishing

  /** One attempt to send an event message to a listener. */
  datatype Attempt = Attempt(listener: CString, bytes: seq<byte>)

  function Attempts(listeners: seq<CString>, bytes: seq<byte>): (r: seq<Attempt>)
    ensures |r| == |listeners|
    ensures forall i :: 0 <= i < |r| ==> r[i] == Attempt(listeners[i], bytes)
  {
    seq(|listeners|, i requires 0 <= i < |listeners| => Attempt(listeners[i], bytes))
  }

  /** A call of an object's override handler: which one, for which object, with what arguments. */
  datatype OverrideCall = OverrideCall(callback: nat, target: CString, asked: Asked)

  /** The override handler is called once, with everything the request carried, unless there is
      none or the names are too long. */
  function OverrideCalls(obj: Named<ServerObject>, asked: Asked): seq<OverrideCall> {
    if obj.val.override.None? || |asked.subscriber| >= MAX_OBJECT_NAME || |asked.event| >= MAX_EVENT_NAME then []
    else [OverrideCall(obj.val.override.value, obj.name, asked)]
  }

  /** From the client's packing to the override handler: it hears the object's name and exactly the
      event, the address, the direction and the payload that were packed. */
  lemma OverrideHears(obj: Named<ServerObject>, callback: nat, event: CString, address: CString,
                      payload: Option<seq<byte>>, activate: bool)
    requires obj.val.override == Some(callback) && |event| < MAX_EVENT_NAME && |address| < MAX_OBJECT_NAME
    requires payload.Some? ==> Fits(VBytes(payload.value))
    requires |EncodeAll(RequestItems(event, address, payload))| < TRAILER_LIMIT
    ensures var asked := ReadRequest(RequestBytes(event, address, payload, activate),
                                     if activate then SUBSCRIBE else UNSUBSCRIBE);
            && asked.Some?
            && OverrideCalls(obj, asked.value)
               == [OverrideCall(callback, obj.name, Asked(event, address, activate, payload))]
  {
    RequestAgreement(event, address, payload, activate);
  }

  /** An override handler hears nothing of a request with a name that is too long. */
  lemma OverrideSpared(obj: Named<ServerObject>, asked: Asked)
    requires obj.val.override.None? || |asked.event| >= MAX_EVENT_NAME || |asked.subscriber| >= MAX_OBJECT_NAME
    ensures OverrideCalls(obj, asked) == []
  {
  }

  /** `overrideCalls` is the trace of calls to override handlers. */
  class Provider {
    const mutex: Mutex
    var connected: bool
    var objects: Objects
    var overrideCalls: seq<OverrideCall>

    ghost predicate Valid()
      reads this
    {
      Inv(objects)
    }

    constructor (mutex: Mutex)
      ensures Valid() && this.mutex == mutex && connected && objects == [] && overrideCalls == []
    {
      this.mutex := mutex;
      connected, objects, overrideCalls := true, [], [];
    }

    method RegisterObj(name: Option<CString>, base: nat, transportOk: bool) returns (rc: int32)
      requires Valid() && !mutex.held
      modifies this`objects, mutex
      ensures Valid() && !mutex.held
      ensures connected ==> Outcome(rc, objects) == Step(old(objects), Op.RegisterObj(name, base, transportOk))
      ensures !connected ==> rc == ERROR_INVALID_STATE && objects == old(objects)
    {
      StepRefines(objects, Op.RegisterObj(name, base, transportOk));
      if !connected {
        return ERROR_INVALID_STATE;
      }
      if name.None? || MAX_OBJECT_NAME <= |name.value| || 0 == |name.value| {
        return ERROR_INVALID_PARAM;
      }
      var _ := mutex.Lock();
      var i := Find(objects, name.value, MAX_OBJECT_NAME);
      var _ := mutex.Unlock();
      if i < |objects| {
        return ERROR_INVALID_PARAM;
      }
      if transportOk {
        var _ := mutex.Lock();
        objects := objects + [Named(name.value, ServerObject(base, [], [], false, None))];
        var _ := mutex.Unlock();
        rc := SUCCESS;
      } else {
        rc := ERROR_GENERAL;
      }
    }

    method UnregisterObj(name: Option<CString>, transportOk: bool) returns (rc: int32)
      requires Valid() && !mutex.held
      modifies this`objects, mutex
      ensures Valid() && !mutex.held
      ensures Outcome(rc, objects) == Step(old(objects), Op.UnregisterObj(name, transportOk))
    {
      StepRefines(objects, Op.UnregisterObj(name, transportOk));
      if name.None? || |name.value| == 0 || MAX_OBJECT_NAME <= |name.value| {
        return ERROR_INVALID_PARAM;
      }
      if !transportOk {
        return ERROR_GENERAL;
      }
      rc := SUCCESS;
      var _ := mutex.Lock();
      var i := Find(objects, name.value, MAX_OBJECT_NAME);
      if i < |objects| {
        objects := RemoveAt(objects, i);
      } else {
        rc := ERROR_GENERAL;
      }
      var _ := mutex.Unlock();
    }

    /** Also called while its caller holds the mutex: the lock then fails, the unlock does not, and
        the caller goes on without the mutex. */
    method RegisterMethod(target: CString, name: CString, handler: Handler) returns (rc: int32)
      requires Valid() && (|name| >= MAX_METHOD_NAME ==> !mutex.held)
      modifies this`objects, mutex
      ensures Valid() && !mutex.held
      ensures Outcome(rc, objects) == Step(old(objects), Op.RegisterMethod(target, name, handler))
    {
      StepRefines(objects, Op.RegisterMethod(target, name, handler));
      rc := SUCCESS;
      if MAX_METHOD_NAME <= |name| {
        return ERROR_INVALID_PARAM;
      }
      var _ := mutex.Lock();
      var i := Find(objects, target, MAX_OBJECT_NAME);
      if i < |objects| {
        rc := AppendMethod(i, name, handler);
      } else {
        rc := ERROR_INVALID_PARAM;
      }
      var _ := mutex.Unlock();
    }

    method AppendMethod(i: nat, name: CString, handler: Handler) returns (rc: int32)
      requires i < |objects|
      modifies this`objects
      ensures rc == AddMethod(old(objects)[i].val, name, handler).rc
      ensures objects == SetAt(old(objects), i, AddMethod(old(objects)[i].val, name, handler).obj)
    {
      var obj := objects[i].val;
      SetAtTwice(objects, i, obj, obj);
      rc := SUCCESS;
      if MAX_METHODS <= |obj.methods| {
        rc := ERROR_OUT_OF_RESOURCES;
      } else if Has(obj.methods, name, MAX_METHOD_NAME) {
        rc := ERROR_INVALID_PARAM;
      } else {
        objects := SetAt(objects, i, obj.(methods := obj.methods + [Named(name, handler)]));
      }
    }

    method UnregisterMethod(target: CString, name: CString) returns (rc: int32)
      requires Valid() && !mutex.held
      modifies this`objects, mutex
      ensures Valid() && !mutex.held
      ensures Outcome(rc, objects) == Step(old(objects), Op.UnregisterMethod(target, name))
    {
      StepRefines(objects, Op.UnregisterMethod(target, name));
      rc := SUCCESS;
      var _ := mutex.Lock();
      var i := Find(objects, target, MAX_OBJECT_NAME);
      if i < |objects| {
        var obj := objects[i].val;
        assert SetAt(objects, i, obj) == objects;
        var j := Find(obj.methods, name, MAX_METHOD_NAME);
        if j < |obj.methods| {
          objects := SetAt(objects, i, obj.(methods := RemoveAt(obj.methods, j)));
        } else {
          rc := ERROR_GENERAL;
        }
      } else {
        rc := ERROR_INVALID_PARAM;
      }
      var _ := mutex.Unlock();
    }

    method RegisterMethodTable(target: CString, table: Table) returns (rc: int32)
      requires Valid() && !mutex.held
      modifies this`objects, mutex
      ensures Valid() && !mutex.held
      ensures Outcome(rc, objects) == RegisterTable(old(objects), target, table)
    {
      rc := SUCCESS;
      for i := 0 to |table|
        invariant Valid() && !mutex.held && rc == SUCCESS
        invariant RegisterTable(old(objects), target, table) == RegisterTable(objects, target, table[i..])
      {
        assert table[i..][0] == table[i] && table[i..][1..] == table[i + 1..];
        rc := RegisterMethod(target, table[i].name, table[i].val);
        if rc != SUCCESS {
          return;
        }
      }
    }

    method UnregisterMethodTable(target: CString, table: Table) returns (rc: int32)
      requires Valid() && !mutex.held
      modifies this`objects, mutex
      ensures Valid() && !mutex.held
      ensures Outcome(rc, objects) == UnregisterTable(old(objects), target, table)
    {
      rc := SUCCESS;
      for i := 0 to |table|
        invariant Valid() && !mutex.held && rc == SUCCESS
        invariant UnregisterTable(old(objects), target, table) == UnregisterTable(objects, target, table[i..])
      {
        assert table[i..][0] == table[i] && table[i..][1..] == table[i + 1..];
        rc := UnregisterMethod(target, table[i].name);
        if rc != SUCCESS {
          return;
        }
      }
    }

    /** Runs inside its caller's critical section and may leave it. */
    method InstallSubscriptionHandlers(i: nat) returns (rc: int32)
      requires Valid() && i < |objects| && mutex.held
      modifies this`objects, mutex
      ensures Valid()
      ensures rc == Install(old(objects)[i].val).rc
      ensures objects == SetAt(old(objects), i, Install(old(objects)[i].val).obj)
    {
      var name := objects[i].name;
      ghost var start, obj := objects, objects[i].val;
      assert SetAt(objects, i, obj) == objects;
      if Has(objects[i].val.methods, SUBSCRIBE, MAX_METHOD_NAME) {
        return SUCCESS;
      }
      StepOnObject(objects, i, Op.RegisterMethod(name, SUBSCRIBE, BuiltIn));
      rc := RegisterMethod(name, SUBSCRIBE, BuiltIn);
      if rc == SUCCESS {
        ghost var half := objects[i].val;
        StepOnObject(objects, i, Op.RegisterMethod(name, UNSUBSCRIBE, BuiltIn));
        SetAtTwice(start, i, half, AddMethod(half, UNSUBSCRIBE, BuiltIn).obj);
        rc := RegisterMethod(name, UNSUBSCRIBE, BuiltIn);
        if rc == SUCCESS {
          ghost var full := objects[i].val;
          SetAtTwice(start, i, full, full.(processEventSubscriptions := true));
          InvSet(objects, i, full.(processEventSubscriptions := true));
          objects := SetAt(objects, i, objects[i].val.(processEventSubscriptions := true));
        }
      }
    }

    /** The handlers are installed by the first event or subscribe handler of an object. */
    method EnsureHandlers(i: nat) returns (rc: int32)
      requires Valid() && i < |objects| && mutex.held
      modifies this`objects, mutex
      ensures Valid()
      ensures rc == EnsureInstalled(old(objects)[i].val).rc
      ensures objects == SetAt(old(objects), i, EnsureInstalled(old(objects)[i].val).obj)
    {
      rc := SUCCESS;
      if objects[i].val.processEventSubscriptions {
        assert SetAt(objects, i, objects[i].val) == objects;
      } else {
        rc := InstallSubscriptionHandlers(i);
      }
    }

    method RegisterEvent(target: Option<CString>, event: Option<CString>, callback: Option<nat>) returns (rc: int32)
      requires Valid() && !mutex.held
      modifies this`objects, mutex
      ensures Valid() && !mutex.held
      ensures connected ==> Outcome(rc, objects) == Step(old(objects), Op.RegisterEvent(target, event, callback))
      ensures !connected ==> rc == ERROR_INVALID_STATE && objects == old(objects)
    {
      if !connected {
        return ERROR_INVALID_STATE;
      }
      var name := NameOf(event);
      if target.None? || MAX_EVENT_NAME <= |name| {
        return ERROR_INVALID_PARAM;
      }
      rc := SUCCESS;
      var _ := mutex.Lock();
      var i := Find(objects, target.value, MAX_OBJECT_NAME);
      if i < |objects| {
        BoundedSearchIsExact(objects, target.value, MAX_OBJECT_NAME);
        StepOnObject(objects, i, Op.RegisterEvent(target, event, callback));
        ghost var created := WithEvent(objects[i].val, name, callback);
        SetAtTwice(objects, i, created, EnsureInstalled(created).obj);
        CreateEvent(i, name, callback);
        rc := EnsureHandlers(i);
      } else {
        rc := ERROR_INVALID_PARAM;
      }
      var _ := mutex.Unlock();
    }

    method CreateEvent(i: nat, name: CString, callback: Option<nat>)
      requires Valid() && i < |objects| && |name| < MAX_EVENT_NAME
      modifies this`objects
      ensures Valid() && objects == SetAt(old(objects), i, WithEvent(old(objects)[i].val, name, callback))
    {
      var obj := objects[i].val;
      if Has(obj.events, name, MAX_EVENT_NAME) {
        assert SetAt(objects, i, obj) == objects;
      } else {
        PushUpdates(obj.events, name, Event([], callback, []), MAX_EVENT_NAME);
        InvSet(objects, i, WithEvent(obj, name, callback));
        objects := SetAt(objects, i, obj.(events := obj.events + [Named(name, Event([], callback, []))]));
      }
    }

    method UnregisterEvent(target: CString, event: Option<CString>) returns (rc: int32)
      requires Valid() && !mutex.held
      modifies this`objects, mutex
      ensures Valid() && !mutex.held
      ensures Outcome(rc, objects) == Step(old(objects), Op.UnregisterEvent(target, event))
    {
      StepRefines(objects, Op.UnregisterEvent(target, event));
      rc := SUCCESS;
      var name := NameOf(event);
      var _ := mutex.Lock();
      var i := Find(objects, target, MAX_OBJECT_NAME);
      if i < |objects| {
        BoundedSearchIsExact(objects, target, MAX_OBJECT_NAME);
        StepOnObject(objects, i, Op.UnregisterEvent(target, event));
        rc := DestroyEvent(i, name);
      } else {
        rc := ERROR_INVALID_PARAM;
      }
      var _ := mutex.Unlock();
    }

    method DestroyEvent(i: nat, name: CString) returns (rc: int32)
      requires i < |objects|
      modifies this`objects
      ensures rc == DropEvent(old(objects)[i].val, name).rc
      ensures objects == SetAt(old(objects), i, DropEvent(old(objects)[i].val, name).obj)
    {
      var obj := objects[i].val;
      var j := Find(obj.events, name, MAX_EVENT_NAME);
      if j < |obj.events| {
        objects := SetAt(objects, i, obj.(events := RemoveAt(obj.events, j)));
        rc := SUCCESS;
      } else {
        SetAtTwice(objects, i, obj, obj);
        rc := ERROR_INVALID_PARAM;
      }
    }

    method RegisterSubscribeHandler(target: Option<CString>, callback: Option<nat>) returns (rc: int32)
      requires Valid() && !mutex.held
      modifies this`objects, mutex
      ensures Valid() && !mutex.held
      ensures Outcome(rc, objects) == Step(old(objects), Op.RegisterSubscribeHandler(target, callback))
    {
      if target.None? || callback.None? {
        return ERROR_INVALID_PARAM;
      }
      rc := SUCCESS;
      var _ := mutex.Lock();
      var i := Find(objects, target.value, MAX_OBJECT_NAME);
      if i < |objects| {
        var obj := objects[i].val.(override := callback);
        InvSet(objects, i, obj);
        SetAtTwice(objects, i, obj, EnsureInstalled(obj).obj);
        objects := SetAt(objects, i, obj);
        rc := EnsureHandlers(i);
      } else {
        rc := ERROR_INVALID_PARAM;
      }
      var _ := mutex.Unlock();
    }

    /** Where an application callback is entered: always with the mutex free. */
    method EnterCallback(callback: nat)
      requires !mutex.held
    {
    }

    method ServerEventAddListener(event: Event, listener: CString) returns (after: Event)
      requires !mutex.held
      ensures after == AddListener(event, listener)
    {
      after := event;
      if listener !in after.listeners {
        after := after.(listeners := after.listeners + [listener]);
        if after.callback.Some? {
          EnterCallback(after.callback.value);
          after := after.(notices := after.notices + [Notice(listener, true)]);
        }
      }
    }

    method ServerEventRemoveListener(event: Event, listener: CString) returns (after: Event)
      requires !mutex.held
      ensures after == RemoveListener(event, listener)
    {
      after := event;
      if listener in after.listeners {
        var i := IndexOf(after.listeners, listener);
        after := after.(listeners := after.listeners[..i] + after.listeners[i + 1..]);
        if after.callback.Some? {
          EnterCallback(after.callback.value);
          after := after.(notices := after.notices + [Notice(listener, false)]);
        }
      }
    }

    method EnterOverride(call: OverrideCall)
      requires !mutex.held
      modifies this`overrideCalls
      ensures overrideCalls == old(overrideCalls) + [call]
    {
      EnterCallback(call.callback);
      overrideCalls := overrideCalls + [call];
    }

    /** `i` is the object that the handler was installed for; `overrideResult` is what the
        override handler answers if there is one. */
    method ServerObjectSubscriptionHandler(i: nat, event: CString, subscriber: CString, added: bool,
                                           payload: Option<seq<byte>>, overrideResult: int32)
      returns (rc: int32)
      requires Valid() && !mutex.held && i < |objects|
      modifies this`objects, this`overrideCalls
      ensures Valid()
      ensures var after := Subscription(old(objects)[i].val, event, subscriber, added, overrideResult);
              rc == after.rc && objects == SetAt(old(objects), i, after.obj)
      ensures overrideCalls
              == old(overrideCalls) + OverrideCalls(old(objects)[i], Asked(event, subscriber, added, payload))
    {
      var obj := objects[i].val;
      SubscriptionRefines(obj, event, subscriber, added, overrideResult);
      InvSet(objects, i, Subscription(obj, event, subscriber, added, overrideResult).obj);
      assert SetAt(objects, i, obj) == objects;
      if MAX_OBJECT_NAME <= |subscriber| || MAX_EVENT_NAME <= |event| {
        return ERROR_INVALID_PARAM;
      }
      if obj.override.Some? {
        EnterOverride(OverrideCall(obj.override.value, objects[i].name, Asked(event, subscriber, added, payload)));
        if overrideResult != SUBSCRIBE_NOT_HANDLED {
          return overrideResult;
        }
      }
      var j := Find(obj.events, event, MAX_EVENT_NAME);
      if j < |obj.events| {
        var changed: Event;
        if added {
          changed := ServerEventAddListener(obj.events[j].val, subscriber);
        } else {
          changed := ServerEventRemoveListener(obj.events[j].val, subscriber);
        }
        objects := SetAt(objects, i, obj.(events := SetAt(obj.events, j, changed)));
        rc := SUCCESS;
      } else {
        rc := ERROR_UNSUPPORTED_EVENT;
      }
    }

    /** The handler behind both reserved methods: an unreadable request gets an empty reply and
        changes nothing, any other one gets the result code, and its payload goes to the override
        handler. */
    method SubscriptionHandler(i: nat, name: CString, request: RbusMessage, overrideResult: int32)
      returns (out: RbusMessage)
      requires Valid() && !mutex.held && i < |objects| && request.readOffset == 0
      modifies this`objects, this`overrideCalls, request
      ensures Valid() && fresh(out) && out.writable
      ensures out.sbuf == HandlerBody(old(objects)[i].val, old(request.sbuf), name, overrideResult)
      ensures match ReadRequest(old(request.sbuf), name)
              case None => objects == old(objects) && overrideCalls == old(overrideCalls)
              case Some(asked) =>
                var after := Subscription(old(objects)[i].val, asked.event, asked.subscriber, asked.added,
                                          overrideResult);
                && objects == SetAt(old(objects), i, after.obj)
                && overrideCalls == old(overrideCalls) + OverrideCalls(old(objects)[i], asked)
    {
      out := new RbusMessage.Init();
      var asked := ReadSubscriptionRequest(request, name);
      if asked.Some? {
        var rc := ServerObjectSubscriptionHandler(i, asked.value.event, asked.value.subscriber, asked.value.added,
                                                  asked.value.payload, overrideResult);
        out.SetInt32(rc);
        EncodeOne(VInt32(rc));
        assert [] + Encode(VInt32(rc)) == Encode(VInt32(rc));
      }
    }

    /** One attempt per listener, in list order, all with the same bytes, however many of the
        sends fail; the message keeps its new label even when there is nobody to send it to. */
    method PublishEvent(target: CString, maybeEvent: Option<CString>, out: RbusMessage, sendOk: nat -> bool)
      returns (rc: int32, attempts: seq<Attempt>)
      requires Valid() && !mutex.held && out.writable && Fits(VString(NameOf(maybeEvent)))
      modifies out, mutex
      ensures !mutex.held
      ensures var event := NameOf(maybeEvent);
              if !connected then rc == ERROR_INVALID_STATE && attempts == [] && out.sbuf == old(out.sbuf)
              else if |target| >= MAX_OBJECT_NAME then
                rc == ERROR_INVALID_PARAM && attempts == [] && out.sbuf == old(out.sbuf)
              else
                && out.sbuf == EventBytes(old(out.sbuf), event, target, 0)
                && if target in View(objects) && event in View(objects)[target].events then
                     rc == SUCCESS && attempts == Attempts(View(objects)[target].events[event].listeners, out.sbuf)
                   else rc == ERROR_INVALID_PARAM && attempts == []
    {
      attempts := [];
      if !connected {
        return ERROR_INVALID_STATE, [];
      }
      var event := NameOf(maybeEvent);
      if MAX_OBJECT_NAME <= |target| {
        return ERROR_INVALID_PARAM, [];
      }
      SetEventSection(out, event, target, 0);
      var _ := mutex.Lock();
      ViewLookup(objects, target);
      var i := Find(objects, target, MAX_OBJECT_NAME);
      if i < |objects| {
        SearchIsLookup(objects[i].val.events, event, MAX_EVENT_NAME);
        var j := Find(objects[i].val.events, event, MAX_EVENT_NAME);
        if j < |objects[i].val.events| {
          attempts := SendToAll(objects[i].val.events[j].val.listeners, out, sendOk);
          rc := SUCCESS;
        } else {
          rc := ERROR_INVALID_PARAM;
        }
      } else {
        rc := ERROR_INVALID_PARAM;
      }
      var _ := mutex.Unlock();
    }

    /** An event of rbus 2.0 for one listener: the attempt is made even when the object is unknown,
        which only shows in the result. */
    method PublishSubscriberEvent(target: CString, maybeEvent: Option<CString>, listener: CString, out: RbusMessage)
      returns (rc: int32, attempts: seq<Attempt>)
      requires Valid() && !mutex.held && out.writable && Fits(VString(NameOf(maybeEvent)))
      modifies out, mutex
      ensures !mutex.held
      ensures if |target| >= MAX_OBJECT_NAME then
                rc == ERROR_INVALID_PARAM && attempts == [] && out.sbuf == old(out.sbuf)
              else
                && out.sbuf == EventBytes(old(out.sbuf), NameOf(maybeEvent), target, 1)
                && attempts == (if connected then [Attempt(listener, out.sbuf)] else [])
                && rc == if target in View(objects) then SUCCESS else ERROR_INVALID_PARAM
    {
      rc, attempts := SUCCESS, [];
      if MAX_OBJECT_NAME <= |target| {
        return ERROR_INVALID_PARAM, [];
      }
      SetEventSection(out, NameOf(maybeEvent), target, 1);
      var _ := mutex.Lock();
      ViewLookup(objects, target);
      if Find(objects, target, MAX_OBJECT_NAME) == |objects| {
        rc := ERROR_INVALID_PARAM;
      }
      if connected {
        var bytes := out.ToBytes();
        attempts := [Attempt(listener, bytes)];
      }
      var _ := mutex.Unlock();
    }

    /** Closing down destroys the objects, inside the caller's critical section. */
    method DestroyObjects()
      requires mutex.held
      modifies this`objects
      ensures Valid() && objects == []
    {
      objects := [];
    }

    method SendToAll(listeners: seq<CString>, out: RbusMessage, sendOk: nat -> bool) returns (attempts: seq<Attempt>)
      ensures attempts == Attempts(listeners, out.sbuf)
    {
      attempts := [];
      for i := 0 to |listeners|
        invariant |attempts| == i
        invariant forall k :: 0 <= k < i ==> attempts[k] == Attempt(listeners[k], out.sbuf)
      {
        var bytes := out.ToBytes();
        attempts := attempts + [Attempt(listeners[i], bytes)];
        if !sendOk(i) {
          // logged, and no reason to stop
        }
      }
    }
  }
}
