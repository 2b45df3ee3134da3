/** The client side of events. */
module Client {
  import opened Bytes
  import opened Messages
  import opened Codec
  import opened BusTypes
  import opened Vectors
  import opened Rpc
  import opened Subscriptions
  import opened ClientTable
  import opened Publishing
  import Server

  /** A call into the application, with the state of the mutex at the moment of the call. */
  datatype Made = Made(call: Invocation, locked: bool)

  function Unlocked(calls: seq<Invocation>): (r: seq<Made>)
    ensures |r| == |calls|
    ensures forall i :: 0 <= i < |calls| ==> r[i] == Made(calls[i], false)
  {
    seq(|calls|, i requires 0 <= i < |calls| => Made(calls[i], false))
  }

  /** `made` is the trace of calls into the application. */
  class EventClient {
    const mutex: Mutex
    const address: CString
    var connected: bool
    var table: Table
    var dispatching: bool
    var master: Option<nat>
    var made: seq<Made>

    ghost predicate Valid()
      reads this
    {
      TableInv(table) && Fits(VString(address))
    }

    constructor (mutex: Mutex, address: CString)
      requires Fits(VString(address))
      ensures Valid() && this.mutex == mutex && this.address == address
      ensures table == [] && master == None && connected && made == []
    {
      this.mutex, this.address := mutex, address;
      connected, table, dispatching, master, made := true, [], false, None, [];
    }

    /** Also runs inside its caller's critical section; either way it leaves the mutex free. */
    method RemoveSubscriptionCallback(target: CString, event: CString) returns (rc: int32)
      requires Valid()
      modifies this`table, mutex
      ensures Valid() && !mutex.held
      ensures table == RemoveEntry(old(table), target, event)
      ensures rc == if Subscribed(old(table), target, event) then SUCCESS else ERROR_INVALID_PARAM
    {
      RemoveInv(table, target, event);
      rc := ERROR_INVALID_PARAM;
      var _ := mutex.Lock();
      var i := Find(table, target, MAX_OBJECT_NAME);
      if i < |table| {
        var j := Find(table[i].val, event, MAX_EVENT_NAME);
        if j < |table[i].val| {
          var events := RemoveAt(table[i].val, j);
          rc := SUCCESS;
          if |events| == 0 {
            table := RemoveAt(table, i);
          } else {
            table := SetAt(table, i, events);
          }
        }
      }
      var _ := mutex.Unlock();
    }

    method EnterSubscription(target: CString, event: CString, callback: nat)
      requires Valid() && !Subscribed(table, target, event) && |target| < MAX_OBJECT_NAME && |event| < MAX_EVENT_NAME
      modifies this`table
      ensures Valid() && table == AddEntry(old(table), target, event, callback)
      ensures RemoveEntry(table, target, event) == old(table)
    {
      AddInv(table, target, event, callback);
      RollbackIsExact(table, target, event, callback);
      var i := Find(table, target, MAX_OBJECT_NAME);
      if i == |table| {
        NewRow(table, target, Named(event, callback));
        table := table + [Named(target, [])];
      }
      table := SetAt(table, i, table[i].val + [Named(event, callback)]);
    }

    /** A subscription is entered before the provider is asked and stays exactly if the provider
        agrees; after a failure the table is the one from before the call, order included. */
    method SubscribeToEvent(maybeTarget: Option<CString>, event: CString, callback: Option<nat>,
                            payload: Option<RbusMessage>, transport: Transport)
      returns (rc: int32, providerError: Option<int32>, sent: Option<seq<byte>>)
      requires Valid() && !mutex.held && Fits(VString(event))
      requires payload.Some? ==> |payload.value.sbuf| < 0x1_0000_0000
      modifies this`table, this`dispatching, mutex
      ensures Valid() && !mutex.held
      ensures var target := if maybeTarget.Some? then maybeTarget.value else event;
              if !connected then
                rc == ERROR_INVALID_STATE && table == old(table) && sent == None
              else if callback.None? || |target| >= MAX_OBJECT_NAME || |event| >= MAX_EVENT_NAME then
                rc == ERROR_INVALID_PARAM && table == old(table) && sent == None
              else if master.None? && Subscribed(old(table), target, event) then
                rc == SUCCESS && table == old(table) && sent == None
              else
                && Answer(rc, providerError) == ReadAnswer(transport)
                && sent == Some(RequestBytes(event, address, ContentsOf(payload), true))
                && table == if rc == SUCCESS && master.None? then AddEntry(old(table), target, event, callback.value)
                            else old(table)
      ensures table != old(table) ==> sent.Some? && rc == SUCCESS
      ensures sent.Some? ==> (rc == SUCCESS <==> transport.Replied? && MethodIn(transport.bytes) == Some(RESPONSE)
                                                 && Get(transport.bytes, 0, KInt32).got == Some(GotInt(0)))
      ensures sent.Some? && (transport.TimedOut? || transport.SendFailed?) ==>
                rc == ERROR_REMOTE_END_FAILED_TO_RESPOND && table == old(table)
      ensures sent.Some? && transport.Unreachable? ==> rc == ERROR_DESTINATION_UNREACHABLE && table == old(table)
      ensures dispatching <==> old(dispatching)
                               || (connected && callback.Some? && |event| < MAX_EVENT_NAME
                                   && (maybeTarget.Some? ==> |maybeTarget.value| < MAX_OBJECT_NAME))
    {
      providerError, sent := None, None;
      var target := if maybeTarget.Some? then maybeTarget.value else event;
      if !connected {
        return ERROR_INVALID_STATE, None, None;
      }
      if callback.None? || MAX_OBJECT_NAME <= |target| || MAX_EVENT_NAME <= |event| {
        return ERROR_INVALID_PARAM, None, None;
      }
      rc, providerError, sent := SubscribeChecked(target, event, callback.value, payload, transport);
      AgreementIff(transport);
      FailureCodes(transport);
    }

    /** The same, once the arguments have been found good. */
    method SubscribeChecked(target: CString, event: CString, callback: nat, payload: Option<RbusMessage>,
                            transport: Transport)
      returns (rc: int32, providerError: Option<int32>, sent: Option<seq<byte>>)
      requires Valid() && !mutex.held && connected && Fits(VString(event))
      requires |target| < MAX_OBJECT_NAME && |event| < MAX_EVENT_NAME
      requires payload.Some? ==> |payload.value.sbuf| < 0x1_0000_0000
      modifies this`table, this`dispatching, mutex
      ensures Valid() && !mutex.held && dispatching
      ensures if master.None? && Subscribed(old(table), target, event) then
                rc == SUCCESS && table == old(table) && sent == None
              else
                && Answer(rc, providerError) == ReadAnswer(transport)
                && sent == Some(RequestBytes(event, address, ContentsOf(payload), true))
                && table == if rc == SUCCESS && master.None? then AddEntry(old(table), target, event, callback)
                            else old(table)
    {
      var _ := mutex.Lock();
      if !dispatching {
        dispatching := true;
      }
      if master.None? {
        if Subscribed(table, target, event) {
          var _ := mutex.Unlock();
          return SUCCESS, None, None;
        }
        rc, providerError, sent := SubscribeNew(target, event, callback, payload, transport);
        return;
      }
      var _ := mutex.Unlock();
      rc, providerError, sent := RequestOrRollBack(target, event, payload, transport, table);
    }

    /** The rest of a subscription that needs a table entry, from inside the critical section. */
    method SubscribeNew(target: CString, event: CString, callback: nat, payload: Option<RbusMessage>,
                        transport: Transport)
      returns (rc: int32, providerError: Option<int32>, sent: Option<seq<byte>>)
      requires Valid() && connected && master.None? && Fits(VString(event))
      requires !Subscribed(table, target, event) && |target| < MAX_OBJECT_NAME && |event| < MAX_EVENT_NAME
      requires payload.Some? ==> |payload.value.sbuf| < 0x1_0000_0000
      modifies this`table, mutex
      ensures Valid() && !mutex.held
      ensures Answer(rc, providerError) == ReadAnswer(transport)
      ensures sent == Some(RequestBytes(event, address, ContentsOf(payload), true))
      ensures table == if rc == SUCCESS then AddEntry(old(table), target, event, callback) else old(table)
    {
      ghost var before := table;
      EnterSubscription(target, event, callback);
      var _ := mutex.Unlock();
      rc, providerError, sent := RequestOrRollBack(target, event, payload, transport, before);
    }

    /** Asks the provider and takes the entry back when it does not agree. */
    method RequestOrRollBack(target: CString, event: CString, payload: Option<RbusMessage>, transport: Transport,
                             ghost before: Table)
      returns (rc: int32, providerError: Option<int32>, sent: Option<seq<byte>>)
      requires Valid() && !mutex.held && connected && |target| < MAX_OBJECT_NAME && Fits(VString(event))
      requires before == if master.None? then RemoveEntry(table, target, event) else table
      requires payload.Some? ==> |payload.value.sbuf| < 0x1_0000_0000
      modifies this`table, mutex
      ensures Valid() && !mutex.held
      ensures Answer(rc, providerError) == ReadAnswer(transport)
      ensures sent == Some(RequestBytes(event, address, ContentsOf(payload), true))
      ensures table == if rc != SUCCESS then before else old(table)
    {
      rc, providerError, sent := SendSubscriptionRequest(connected, address, target, event, true, payload, transport);
      if rc != SUCCESS && master.None? {
        var _ := mutex.Lock();
        var _ := RemoveSubscriptionCallback(target, event);
        var _ := mutex.Unlock();
      }
    }

    /** The entry goes first and for good; the provider is asked whether or not there was one. */
    method UnsubscribeFromEvent(maybeTarget: Option<CString>, maybeEvent: Option<CString>,
                                payload: Option<RbusMessage>, transport: Transport)
      returns (rc: int32, sent: Option<seq<byte>>)
      requires Valid() && !mutex.held
      requires maybeEvent.Some? ==> Fits(VString(maybeEvent.value))
      requires payload.Some? ==> |payload.value.sbuf| < 0x1_0000_0000
      modifies this`table, mutex
      ensures Valid() && !mutex.held
      ensures var event := if maybeEvent.Some? then maybeEvent.value else [];
              if maybeTarget.None? && maybeEvent.None? then
                rc == ERROR_INVALID_PARAM && table == old(table) && sent == None
              else
                var target := if maybeTarget.Some? then maybeTarget.value else event;
                if |target| >= MAX_OBJECT_NAME then
                  rc == ERROR_INVALID_PARAM && table == old(table) && sent == None
                else
                  && table == (if master.None? then RemoveEntry(old(table), target, event) else old(table))
                  && (connected ==> rc == ReadAnswer(transport).rc
                                    && sent == Some(RequestBytes(event, address, ContentsOf(payload), false)))
                  && (!connected ==> rc == ERROR_REMOTE_END_FAILED_TO_RESPOND && sent == None)
    {
      sent := None;
      if maybeTarget.None? && maybeEvent.None? {
        return ERROR_INVALID_PARAM, None;
      }
      var event := if maybeEvent.Some? then maybeEvent.value else [];
      var target := if maybeTarget.Some? then maybeTarget.value else event;
      if MAX_OBJECT_NAME <= |target| {
        return ERROR_INVALID_PARAM, None;
      }
      if master.None? {
        var _ := RemoveSubscriptionCallback(target, event);
      }
      var providerError;
      rc, providerError, sent := SendSubscriptionRequest(connected, address, target, event, false, payload, transport);
    }

    /** Closing down destroys the process's own objects and sends every subscription's provider a
        cancellation, once each and in table order, whatever the transport makes of it. The caller
        may hold the mutex; nobody does afterwards. */
    method PerformCleanup(provider: Server.Provider, transport: nat -> Transport)
      returns (messages: seq<(CString, seq<byte>)>)
      requires Valid() && connected && provider.mutex == mutex
      modifies this`table, mutex, provider`objects
      ensures Valid() && !mutex.held && table == [] && provider.Valid() && provider.objects == []
      ensures messages == CancelMessages(Pairs(old(table)))
    {
      messages := [];
      var _ := mutex.Lock();
      provider.DestroyObjects();
      if |table| > 0 {
        var _ := mutex.Unlock();
        for i := 0 to |table|
          invariant provider.objects == [] && table == old(table)
          invariant messages == CancelMessages(Pairs(table[..i]))
        {
          var more := CancelRow(i, transport, |messages|);
          CancelMessagesConcat(Pairs(table[..i]), RowPairs(table[i].name, table[i].val));
          PairsNext(table, i);
          messages := messages + more;
        }
        assert table[..|table|] == table;
        var _ := mutex.Lock();
      }
      table := [];
      var _ := mutex.Unlock();
    }

    method CancelRow(i: nat, transport: nat -> Transport, first: nat) returns (messages: seq<(CString, seq<byte>)>)
      requires Valid() && connected && i < |table|
      ensures messages == CancelMessages(RowPairs(table[i].name, table[i].val))
    {
      messages := [];
      var row := table[i];
      for j := 0 to |row.val|
        invariant messages == CancelMessages(RowPairs(row.name, row.val)[..j])
      {
        var message := CancelOne(row.name, row.val[j].name, transport(first + j));
        CancelMessagesNext(RowPairs(row.name, row.val), j);
        messages := messages + [message];
      }
      assert RowPairs(row.name, row.val)[..|row.val|] == RowPairs(row.name, row.val);
    }

    method CancelOne(target: CString, event: CString, transport: Transport) returns (message: (CString, seq<byte>))
      requires Valid() && connected && |target| < MAX_OBJECT_NAME && Fits(VString(event))
      ensures message == CancelMessage((target, event))
    {
      var rc, providerError, sent := SendSubscriptionRequest(connected, address, target, event, false, None, transport);
      message := (target, sent.value);
    }

    /** Addressee and bytes of the cancellation of one subscription. */
    ghost function CancelMessage(pair: (CString, CString)): (CString, seq<byte>) {
      (pair.0, RequestBytes(pair.1, address, None, false))
    }

    ghost function CancelMessages(pairs: seq<(CString, CString)>): (r: seq<(CString, seq<byte>)>)
      ensures |r| == |pairs|
      ensures forall k :: 0 <= k < |pairs| ==> r[k] == CancelMessage(pairs[k])
    {
      seq(|pairs|, k requires 0 <= k < |pairs| => CancelMessage(pairs[k]))
    }

    /** A cancellation goes to the object of its entry, and its receiver decodes it as the end of this
        client's subscription to that event. */
    lemma CancellationDecodes(pair: (CString, CString))
      requires Valid() && Fits(VString(pair.1))
      requires |EncodeAll(RequestItems(pair.1, address, None))| < TRAILER_LIMIT
      ensures var message := CancelMessage(pair);
              && message.0 == pair.0 && MethodIn(message.1) == Some(UNSUBSCRIBE)
              && ReadRequest(message.1, UNSUBSCRIBE) == Some(Asked(pair.1, address, false, None))
    {
      RequestAgreement(pair.1, address, None, false);
    }

    lemma CancelMessagesNext(pairs: seq<(CString, CString)>, j: nat)
      requires j < |pairs|
      ensures CancelMessages(pairs[..j + 1]) == CancelMessages(pairs[..j]) + [CancelMessage(pairs[j])]
    {
    }

    lemma CancelMessagesConcat(a: seq<(CString, CString)>, b: seq<(CString, CString)>)
      ensures CancelMessages(a + b) == CancelMessages(a) + CancelMessages(b)
    {
    }

    /** Where the application is called: always with the mutex free. */
    method Invoke(call: Invocation)
      requires !mutex.held
      modifies this`made
      ensures made == old(made) + [Made(call, false)]
    {
      made := made + [Made(call, mutex.held)];
    }

    /** An incoming event. The application is called as specified, each time with the mutex free. */
    method MasterEventCallback(sender: CString, data: seq<byte>, masterResult: int32)
      requires Valid() && !mutex.held
      modifies this`made, mutex
      ensures !mutex.held
      ensures made == old(made) + Unlocked(Reaction(table, master, masterResult, sender, data))
    {
      if MAX_OBJECT_NAME <= |sender| {
        return;
      }
      var msg := new RbusMessage.FromBytes(data);
      var tag := GetEventSection(msg);
      if tag.Malformed? {
        return;
      }
      if tag.flag != 0 && master.Some? {
        Invoke(Master(master.value));
        if masterResult != EVENT_NOT_HANDLED {
          return;
        }
      }
      if tag.event.None? {
        return;
      }
      CallSubscriber(sender, tag.event.value);
    }

    /** The lock covers the search and is released before the callback is entered. */
    method CallSubscriber(sender: CString, event: CString)
      requires Valid() && !mutex.held
      modifies this`made, mutex
      ensures !mutex.held
      ensures made == old(made) + Unlocked(Delivered(table, sender, event))
    {
      var _ := mutex.Lock();
      for i := 0 to |table|
        invariant mutex.held && made == old(made)
        invariant forall j :: 0 <= j < i ==> !Takes(table[j], sender, event)
      {
        var row := table[i];
        TakesAsCompared(row, sender, event);
        if SameName(row.name, sender, MAX_OBJECT_NAME) || SameName(row.name, event, MAX_OBJECT_NAME) {
          var k := Find(row.val, event, MAX_EVENT_NAME);
          if k < |row.val| {
            FirstTakerIs(table, sender, event, i);
            var _ := mutex.Unlock();
            Invoke(Subscriber(row.val[k].val, event));
            return;
          }
        }
      }
      FirstTakerIs(table, sender, event, |table|);
      var _ := mutex.Unlock();
    }
  }
}
