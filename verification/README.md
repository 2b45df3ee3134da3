# rbuscore, modelled and proved in Dafny

rbuscore is an RPC and event bus in C. Processes register *objects* with methods and events; other
processes call the methods and subscribe to the events. This project models the parts of it that
are hard to get right and proves what they promise:

- the **message codec** (`rbus-core/lib/rbus_message.c`): typed items in a byte buffer with a read
  cursor, and a meta section found through a five-byte trailer;
- the **bus core** (`rbus-core/lib/rbus_core.c`): the server's registry, dispatch with its queue,
  remote calls, the client's subscription table, the subscription protocol and publishing;
- the **session manager** (`rbus-core/session_manager/session_manager.c`).

## Main results

1. *Codec round trip* (`Codec.RoundTrip`, `Codec.GetRunFollowsItems`): every sequence of Sets, with
   messages nested to any depth, is read back by the matching Gets; any run of Gets, matching or not,
   leaves the cursor on the boundary behind as many items as there were calls.
2. *Trailer* (`Codec.TrailerReach`, `Codec.LatestSectionWins`, `Codec.BodyReadsUnchanged`): for every
   section, exactly when a reader is sent to its start: below 2^31 - 2^15, and else only by a chance of
   bytes at the last 32 starts below 2^31; after any number of sections the last one is read, and the
   body reads as before.
3. *Remote calls* (`Rpc.EndToEndRpc`, `Arrivals.EveryRequestIsAnswered`): for every body, name, object and
   reply, the handler of exactly that name runs on a readable body and the caller reads exactly the reply;
   the dispatcher sends every request among nested arrivals such a response.
4. *Run to completion* (`Dispatch.Dispatcher.OnMessage`, `Dispatch.ArrivalOrderVisitsEachOnce`,
   `Dispatch.Dispatcher.RequestsAnsweredOnce`, `Arrivals.ListenersFollowArrivals`): over every tree of
   nested arrivals, messages are handled one at a time, once each, in arrival order, every request is
   answered once or taken over, and the listener lists end up as the subscribe and unsubscribe requests
   among them make them, applied in that order; publishing serves those first who got listed first.
5. *Registry* (`Registry.RegistryRefinesMaps`): every run over vectors searched with a bounded `strncmp`
   answers and acts like finite maps keyed by full names.
6. *Subscription protocol* (`Protocol.SafeIffOneNameAndServed`, `ProtocolExact.AgreeIffOneNameAndInstalled`,
   `ProtocolStart.FlaggedProviderIsSafe`): over every run with overlapping calls, lost requests, callers
   that give up and applications that answer reserved names themselves, a settled subscription is listed
   at the provider with no cancellation on its way, **if and only if** no client uses two names for one
   event of one object and subscribe requests reach the built-in handler. Without faults, tables and lists
   agree exactly **if and only if** there are no two names and both handlers are installed. With faults, a
   client is listed **if and only if** its newest handled request is a subscribe
   (`ProtocolFaults.ListedIffNewest`), and table and list part **if and only if** a fault was harmful when
   it happened (`ProtocolFaults.AgreeIffHarmless`). Requests are routed by method name;
   `Wire.ServeOverTheWire` and `Arrivals.DispatchIsDelivery` prove that the bytes and the dispatcher do
   the same.
7. *Delivery* (`Delivery.SettledClientIsReached`, `OwnCallbacks.OwnCallbacksIffUndivided`): from a settled
   subscription to the callback; in every run it is the subscription's own one **if and only if** every
   subscription that can settle is made under the object's or the event's name and no client uses both
   names for one event.
8. *Sessions* (`Session.SessionsAlternate`, `Session.GrantIsTold`, `Session.RunningIsTold`,
   `Session.EndIsTold`): over every run, granted 1, ended 1, granted 2, ended 2, ..., and the responses tell
   the callers exactly that.

## Where a promise fails

- **Two names for one object.** Subscribing to an event both under the object's name and under an alias
  makes two table entries but one listener; cancelling one silently ends the other
  (`Protocol.TwoNamesAreUnsafe`). `Protocol.SafeIffOneNameAndServed` gives the exact condition.
- **No handler.** With 32 methods registered, an event registration fails for lack of room and leaves the
  event on offer; if the base callback answers a subscribe request with 0, the client holds a settled entry
  and is not listed (`Protocol.UnservedIsUnsafe`, and from the registry calls on
  `ProtocolStart.MissingHandlerStrands`).
- **Half an installation.** With 31 methods registered, the first event registration fails for lack of
  room and the second reports success although `_unsubscribe` is missing
  (`RegistryTheorems.HalfInstalledReportsSuccess`); a client that then subscribes and unsubscribes without
  any fault stays listed for good (`ProtocolExact.HalfInstalledStaysListed`,
  `ProtocolExact.HalfInstalledListsForGood`, `ProtocolStart.HalfInstallationStrands`).
- **A registration without a handler.** An application's own `_subscribe` method counts as the installation,
  and so does the flag of an object whose `_subscribe` was unregistered: the event registration reports
  success although no subscribe request reaches the built-in handler (`RegistryRuns.OwnSubscribeMethodStays`,
  `RegistryRuns.FlagOutlivesHandler`). `RegistryTheorems.RegisterEventPromise` gives the exact condition.
- **Other aliases.** A subscription under an alias that is neither the publishing object's name nor the
  event's name is settled and listed, and its callback is never called (`Delivery.AliasIsNeverCalled`).
- **Two objects with one event name.** A client that subscribes to the event under its own name, which
  leads to one object, and then under the name of another object has its first callback called for the
  second object's events (`Delivery.OtherObjectsCallbackIsCalled`). `Delivery.EntryServed` gives the exact
  condition on the table, `OwnCallbacks.OwnCallbacksIffUndivided` the one on the names that clients use.
- **A second caller.** A subscribe call that finds the entry is told SUCCESS; if the first call is still
  waiting and then gives up, the entry of both is gone (`ProtocolTables.SecondCallerCanLose`; exact
  condition in `ProtocolTables.SecondCallerIsKept`).
- **Giving up.** A caller that times out rolls its entry back although its request may still be handled,
  so the provider can list a client that holds no entry (`ProtocolExact.GivingUpLeavesAListener`). Once no
  call waits, that is the only way in which table and list disagree, and it happens exactly if the newest
  handled request is a subscribe (`ProtocolFaults.StrandedIffNewest`). Giving up does harm exactly if there
  is an entry to take back, and a loss exactly if the lost request asked for a change that no later one on
  its way decides (`ProtocolFaults.NextExactIff`, `ProtocolFaults.AgreeIffHarmless`).
- **Large messages.** From a body of 2^31 - 2^15 bytes on, the packer chooses a shorter trailer and the
  receiver looks in the wrong place (`Codec.TrailerReach`, `Rpc.OversizedRequestMisplacesMethod`).

## How the model is built

Names are byte strings without NUL; sizes and integer conversions of the C types are written out. The
process-wide vectors are sequences of named records held in class fields, and the methods of the classes
follow the C functions; each method is proved equal to a specification function, and the theorems are
about those functions. `Bytes`, `MsgPack`, `Message` and `Codec` are the codec; `Vectors`, `Events`,
`Registry`, `RegistryTheorems`, `RegistryRuns` and `Server` the provider; `Rpc` and `Dispatch` the calls;
`Subscriptions`, `ClientTable`, `Publishing` and `Client` the client; `Protocol`, `ProtocolExact`,
`ProtocolFaults`, `ProtocolTables`, `ProtocolStart`, `Wire`, `Arrivals`, `Delivery` and `OwnCallbacks` the
whole system; `Session` the session manager.

Decisions where the code leaves a gap:

- MessagePack encoding is not part of the repository. It follows the MessagePack specification, sections
  "int format family", "float format family", "str format family", "bin format family" and the rule to use
  the smallest format in "Serialization: type to format conversion". An item that cannot be unpacked leaves
  the cursor where it was.
- `MAX_OBJECT_NAME_LENGTH` is 128, as the unit tests say (`rbus-core/test/unit_test/rbus_unit_test_server.cpp`,
  line 419); the header that defines it is not part of the repository.
- The request queue is taken as created, although `perform_init` does not create it, and queued messages are
  values, although `onMessage` releases a message that the queue still refers to.
- A NULL string is Set as the empty string, so `SetString` takes a string. The event name of a subscribe call
  must not be NULL, because its length is taken before the default is applied.
- An event label without a readable event name, with which the C code would follow a null pointer, reaches nobody.
- What the outside decides is a parameter: results of application callbacks and the messages that arrive while
  they run (`Dispatch.Arrival`), the transport's answer (`Rpc.Transport`), the success of sends, the result of
  an override or master handler.
- One thread runs at a time. The mutex is modelled with its error-checking behaviour: every call ends with it
  free, also where a nested call has already released it, and application callbacks are entered through
  members that require it free (`Server.Provider.EnterCallback`, `Dispatch.Dispatcher.RunCallback`,
  `Client.EventClient.Invoke`); the client's calls are logged with the state of the mutex.

## Model

| member | source | states |
|---|---|---|
| MsgPack.ParsePackInt | rbus-core/lib/rbus_message.c:208-230 | every 64-bit integer, in its smallest form, is parsed back with exactly its own bytes consumed, whatever follows |
| MsgPack.ParsePackStr | rbus-core/lib/rbus_message.c:179-193 | a packed string of any length below 2^32 is parsed back exactly, whatever follows |
| MsgPack.ParsePackBin | rbus-core/lib/rbus_message.c:195-206 | a packed byte string of any length below 2^32 is parsed back exactly, whatever follows |
| MsgPack.ParsePackDouble | rbus-core/lib/rbus_message.c:232-242 | the eight bytes of a double are parsed back exactly |
| Messages.RbusMessage.Init | rbus-core/lib/rbus_message.c:84-94 | a new message is empty, writable and read from its start |
| Messages.RbusMessage.FromBytes | rbus-core/lib/rbus_message.c:115-125 | a received message holds the bytes, is read from its start and cannot be written to |
| Messages.RbusMessage.ToBytes | rbus-core/lib/rbus_message.c:127-131 | returns the whole buffer |
| Messages.RbusMessage.SetString | rbus-core/lib/rbus_message.c:179-186 | appends exactly the item of the string with its terminator |
| Messages.RbusMessage.SetBytes | rbus-core/lib/rbus_message.c:195-198 | appends exactly the item of the byte string |
| Messages.RbusMessage.SetInt32 | rbus-core/lib/rbus_message.c:208-211 | appends exactly the item of the number |
| Messages.RbusMessage.SetInt64 | rbus-core/lib/rbus_message.c:220-223 | appends exactly the item of the number |
| Messages.RbusMessage.SetDouble | rbus-core/lib/rbus_message.c:232-235 | appends exactly the item of the double |
| Messages.RbusMessage.SetMessage | rbus-core/lib/rbus_message.c:244-247 | appends the whole buffer of the nested message as one item, wherever its cursor is |
| Messages.RbusMessage.UnpackNextItem | rbus-core/lib/rbus_message.c:30-35 | passes over one item, or stays where it is when there is none |
| Messages.RbusMessage.GetString | rbus-core/lib/rbus_message.c:188-193 | succeeds exactly on a string item and passes over an item of any type |
| Messages.RbusMessage.GetBytes | rbus-core/lib/rbus_message.c:200-206 | succeeds exactly on a byte item and passes over an item of any type |
| Messages.RbusMessage.GetInt32 | rbus-core/lib/rbus_message.c:213-218 | succeeds exactly on an integer item, truncating to 32 bits, and passes over an item of any type |
| Bytes.WrapIsCongruent | rbus-core/lib/rbus_message.c:213-218 | truncation gives the one 32-bit number that differs by a multiple of 2^32 |
| Messages.RbusMessage.GetInt64 | rbus-core/lib/rbus_message.c:225-230 | succeeds exactly on an integer item and passes over an item of any type |
| Messages.RbusMessage.GetDouble | rbus-core/lib/rbus_message.c:237-242 | succeeds exactly on a float item and passes over an item of any type |
| Messages.RbusMessage.GetMessage | rbus-core/lib/rbus_message.c:249-254 | returns a fresh message with the item's bytes and its own cursor at the start |
| Messages.RbusMessage.BeginMetaSectionWrite | rbus-core/lib/rbus_message.c:256-259 | remembers where the section starts, as an int |
| Messages.RbusMessage.EndMetaSectionWrite | rbus-core/lib/rbus_message.c:261-265 | appends the masked start and clears the mask in the fourth byte from the end |
| Messages.RbusMessage.BeginMetaSectionRead | rbus-core/lib/rbus_message.c:267-274 | moves the cursor to the start that the trailer names, or to 0 when it is unreadable, and parks the old cursor |
| Messages.RbusMessage.EndMetaSectionRead | rbus-core/lib/rbus_message.c:276-279 | puts the parked cursor back |
| Codec.GetAtItem | rbus-core/lib/rbus_message.c:37-51 | a Get of any type on an item boundary gives the answer the item's value calls for and stops behind the item |
| Codec.GetRunFollowsItems | rbus-core/lib/rbus_message.c:30-72 | any run of Gets, also mismatched ones, answers item by item and ends on the boundary behind the last |
| Codec.GetsBehindTheEnd | rbus-core/lib/rbus_message.c:30-35 | behind the last item every Get fails, of whatever type, and leaves the cursor there |
| Codec.ReadAllBack | rbus-core/lib/rbus_message.c:244-254 | values of any nesting depth, surrounded by anything, are read back exactly |
| Codec.RoundTrip | rbus-core/lib/rbus_message.c:115-131 | filling a message, shipping its bytes and reading them returns the values |
| Codec.TrailerBytes | rbus-core/lib/rbus_message.c:261-265 | below the limit the trailer is the byte 0xd2 and the plain big-endian offset |
| Codec.SectionStartRecovered | rbus-core/lib/rbus_message.c:256-274 | below the limit a reader is sent to where the section starts |
| Codec.TrailerReach | rbus-core/lib/rbus_message.c:256-279 | for every section, the start is recovered if and only if it is below 2^31 - 2^15, or is one of the last 32 below 2^31 and the last four bytes in front of the trailer happen to complete it |
| Codec.TrailerBound | rbus-core/lib/rbus_message.c:256-279 | corollary for sections that do not end in the byte 0xff, as none of the written ones does: the start is recovered if and only if it is below 2^31 - 2^15 |
| Codec.SectionsKeepBody | rbus-core/lib/rbus_message.c:256-265 | appending sections never changes a byte of the body |
| Codec.LatestSectionWins | rbus-core/lib/rbus_core.c:1573-1577 | after any number of sections, a reader gets the fields of the last |
| Codec.BodyReadsUnchanged | rbus-core/lib/rbus_message.c:267-279 | with any number of sections behind it, the body reads the same from any item boundary, and the cursor survives a meta read |
| Vectors.BoundedSearchIsExact | rbus-core/lib/rbus_core.c:90-98 | comparing a bounded prefix finds exactly the full name when stored names are shorter than the bound |
| Vectors.SearchIsLookup | rbus-core/lib/rbus_core.c:377-380 | searching the vector is a lookup in the map it stands for |
| Events.ApplyMembership | rbus-core/lib/rbus_core.c:117-161 | adding or removing a listener changes the membership of that listener only and lists nobody twice |
| Events.NotificationHistory | rbus-core/lib/rbus_core.c:117-161 | under any requests, the calls about each listener alternate, starting with added, and it is listed exactly if it last asked to be |
| Events.ListingOrder | rbus-core/lib/rbus_core.c:117-161 | after any requests the listeners stand in the order in which they got listed |
| Registry.StepRefines | rbus-core/lib/rbus_core.c:675-809 | every registry call keeps names unique, short and at most 32 methods, and answers and acts as on maps keyed by full names |
| Registry.RegistryRefinesMaps | rbus-core/lib/rbus_core.c:1232-1319 | the same for every run of calls, with all result codes |
| Registry.SubscriptionRefines | rbus-core/lib/rbus_core.c:189-227 | handling a subscription request acts on the event of exactly that name and keeps the notification history right |
| RegistryTheorems.FlagImpliesBothHandlers | rbus-core/lib/rbus_core.c:1199-1230 | on every run that leaves the reserved names alone, an object flagged for subscriptions has the built-in handler bound to both |
| RegistryTheorems.RegisterEventPromise | rbus-core/lib/rbus_core.c:1257-1283 | after a successful event registration each reserved name reaches the built-in handler exactly if it did before, or if the object was not flagged and had no `_subscribe` method |
| RegistryTheorems.HalfInstalledReportsSuccess | rbus-core/lib/rbus_core.c:1203-1209 | with 31 methods the second registration succeeds with the subscribe handler bound and the unsubscribe handler missing |
| RegistryTheorems.FullObjectKeepsEvent | rbus-core/lib/rbus_core.c:1261-1274 | with 32 methods the registration fails and the event stays on offer without a handler |
| RegistryRuns.HalfInstallationArises | rbus-core/lib/rbus_core.c:1199-1283 | a run of calls leads to half an installation and ends with SUCCESS |
| RegistryRuns.EventWithoutHandlerArises | rbus-core/lib/rbus_core.c:1261-1274 | a run of calls leaves an event on offer at an object without the subscribe handler |
| RegistryRuns.OwnSubscribeMethodStays | rbus-core/lib/rbus_core.c:1203-1209 | an application's own `_subscribe` method stays in place and the event registration succeeds |
| RegistryRuns.FlagOutlivesHandler | rbus-core/lib/rbus_core.c:1273-1274 | after `_subscribe` of a flagged object was unregistered, another event registration succeeds and installs nothing |
| RegistryTheorems.AcceptedIsFirstRefusal | rbus-core/lib/rbus_core.c:816-829 | the number of accepted table entries is the index of the first refused one |
| RegistryTheorems.TableExtendsByPrefix | rbus-core/lib/rbus_core.c:816-829 | registering a table adds exactly the entries in front of the first refused one and returns its error |
| RegistryTheorems.TableRoundTrip | rbus-core/lib/rbus_core.c:831-844 | unregistering a successfully registered table restores every vector |
| RegistryTheorems.FirstMissingIsFirst | rbus-core/lib/rbus_core.c:831-844 | the number of removed table entries is the index of the first one that is not registered or was already removed |
| RegistryTheorems.TableShrinksByPrefix | rbus-core/lib/rbus_core.c:831-844 | unregistering a table removes exactly the entries in front of the first missing one and says whether there was one |
| RegistryTheorems.ObjectCodes | rbus-core/lib/rbus_core.c:675-734 | which object registrations and removals succeed, and with what code the others fail, by the registered names |
| RegistryTheorems.EventCodes | rbus-core/lib/rbus_core.c:189-227 | the same for removing events and for subscription requests, the override handler included |
| RegistryTheorems.RegisteringKeepsEvents | rbus-core/lib/rbus_core.c:1257-1272 | registering an event again keeps its listeners, callback and history; a new one starts without listeners; no other event is touched |
| Server.Provider.constructor | rbus-core/lib/rbus_core.c:328-333 | the registry starts empty |
| Server.Provider.RegisterObj | rbus-core/lib/rbus_core.c:675-734 | acts as the specified step, refuses duplicates and bad names, leaves the mutex free |
| Server.Provider.UnregisterObj | rbus-core/lib/rbus_core.c:846-879 | acts as the specified step and leaves the mutex free |
| Server.Provider.RegisterMethod | rbus-core/lib/rbus_core.c:736-778 | acts as the specified step and leaves the mutex free, also when its caller held it |
| Server.Provider.UnregisterMethod | rbus-core/lib/rbus_core.c:781-809 | acts as the specified step and leaves the mutex free |
| Server.Provider.RegisterMethodTable | rbus-core/lib/rbus_core.c:816-829 | acts as the specified table registration |
| Server.Provider.UnregisterMethodTable | rbus-core/lib/rbus_core.c:831-844 | acts as the specified table removal |
| Server.Provider.InstallSubscriptionHandlers | rbus-core/lib/rbus_core.c:1199-1230 | installs both handlers and sets the flag, or stops at the first failure, on this object only |
| Server.Provider.RegisterEvent | rbus-core/lib/rbus_core.c:1232-1283 | acts as the specified step and ends with the mutex free although a nested call already released it |
| Server.Provider.UnregisterEvent | rbus-core/lib/rbus_core.c:1285-1319 | acts as the specified step and leaves the mutex free |
| Server.Provider.RegisterSubscribeHandler | rbus-core/lib/rbus_core.c:1617-1644 | acts as the specified step and ends with the mutex free |
| Server.Provider.ServerEventAddListener | rbus-core/lib/rbus_core.c:117-138 | lists a new listener behind all others and calls the subscribe callback once, with the mutex free |
| Server.Provider.ServerEventRemoveListener | rbus-core/lib/rbus_core.c:140-161 | unlists a listed listener and calls the subscribe callback once, with the mutex free |
| Server.Provider.EnterOverride | rbus-core/lib/rbus_core.c:201-206 | an override handler is entered with the mutex free and its arguments are logged |
| Server.OverrideHears | rbus-core/lib/rbus_core.c:201-206 | the override handler hears the object's name and exactly the event, address, direction and payload that the client packed |
| Server.OverrideSpared | rbus-core/lib/rbus_core.c:193-200 | the override handler hears nothing of a request with a name that is too long |
| Server.Provider.ServerObjectSubscriptionHandler | rbus-core/lib/rbus_core.c:189-227 | checks lengths, then calls the override handler once with event, subscriber, direction and payload, then acts on the event, and changes this object only |
| Server.Provider.SubscriptionHandler | rbus-core/lib/rbus_core.c:1124-1160 | answers an unreadable request with an empty reply and any other with the result code of handling what it asks, and hands its payload to the override handler |
| Server.Provider.PublishEvent | rbus-core/lib/rbus_core.c:1555-1615 | labels the message and attempts one send per listener of that event in list order, however many fail |
| Server.Provider.PublishSubscriberEvent | rbus-core/lib/rbus_core.c:1687-1717 | labels the message and attempts one send to the listener, also when the object is unknown, which shows in the result only |
| Server.Provider.DestroyObjects | rbus-core/lib/rbus_core.c:341-343 | destroys every object inside the critical section |
| Rpc.SetMessageMethod | rbus-core/lib/rbus_core.c:369-375 | appends a meta section with the method name and leaves the cursor alone |
| Rpc.GetMessageMethod | rbus-core/lib/rbus_core.c:397-399 | finds the name in the meta section and puts the cursor back |
| Rpc.InvokeRemoteMethod | rbus-core/lib/rbus_core.c:997-1067 | sends the labelled body; unreachable, timed out and failed sends each give their own code; a message comes back exactly on SUCCESS, which exactly a reply labelled as a response gives, and any other reply is malformed |
| Rpc.AcceptedIff | rbus-core/lib/rbus_core.c:1019-1060 | what each end of a request means to the caller, by the full name in the reply |
| Rpc.SendResponse | rbus-core/lib/rbus_core.c:2159-2185 | answers requests only, with the handler's message or the code for an unsupported method |
| Rpc.MethodNameTravels | rbus-core/lib/rbus_core.c:369-375 | the receiver finds exactly the name that was set, behind any body below the limit |
| Rpc.GetUnderMethod | rbus-core/lib/rbus_core.c:397-399 | a labelled message reads as its body followed by the name as one more string item |
| Rpc.EndToEndRpc | rbus-core/lib/rbus_core.c:390-420 | a whole call: the handler of exactly that name or the base callback, a readable body, an accepted and readable reply |
| Rpc.OversizedRequestMisplacesMethod | rbus-core/lib/rbus_message.c:261-274 | the receiver looks for the method name in the right place if and only if the body is below the limit |
| Dispatch.ArrivalOrderVisitsEachOnce | rbus-core/lib/rbus_core.c:442-451 | serving the queue first come, first served visits each nested arrival as often as it occurs |
| Dispatch.Dispatcher.constructor | rbus-core/lib/rbus_core.c:422-430 | the dispatcher starts quiescent |
| Dispatch.Dispatcher.OnMessage | rbus-core/lib/rbus_core.c:422-456 | an outermost arrival and all nested ones are dispatched once each in arrival order, each with the objects as the ones before have left them, and leave an empty queue and the counter as it was; a nested one is only queued |
| Dispatch.Dispatcher.ConsumeQueue | rbus-core/lib/rbus_core.c:442-451 | drains the queue in order, including what arrives meanwhile, and terminates |
| Dispatch.Dispatcher.ConsumeHead | rbus-core/lib/rbus_core.c:447-449 | dispatches the oldest queued request and then removes it, with what arrived meanwhile queued behind the others |
| Dispatch.Dispatcher.DispatchMethodCall | rbus-core/lib/rbus_core.c:390-420 | starts only when no other dispatch is active, looks the callback up by name, calls it once with the body unread, leaves the objects as it makes them and sends the response the call asks for |
| Dispatch.Dispatcher.RunCallback | rbus-core/lib/rbus_core.c:407-417 | the callback is entered with the mutex free; everything that arrives during it is queued in order; the built-in handler runs on the provider and changes its object |
| Dispatch.Dispatcher.FindCallee | rbus-core/lib/rbus_core.c:400-411 | finds the method of exactly that name or the base callback, and ends with the mutex free |
| Dispatch.Dispatcher.RunBuiltIn | rbus-core/lib/rbus_core.c:1124-1160 | the built-in handler replies by the request and the object and changes that object only |
| Dispatch.Dispatcher.LetIn | rbus-core/lib/rbus_core.c:432-438 | whatever arrives while a callback runs is queued in order and changes no object |
| Dispatch.Dispatcher.Respond | rbus-core/lib/rbus_core.c:412-420 | sends the callback's reply to a request, unless the base callback has taken it over |
| Dispatch.Dispatcher.RequestsAnsweredOnce | rbus-core/lib/rbus_core.c:412-420 | between outermost arrivals, the identifiers answered and those taken over are the request identifiers received, with multiplicity, and a request that came in once was answered or taken over once and not both |
| Arrivals.ResponseIsReply | rbus-core/lib/rbus_core.c:412-420 | a call answers a request with one response that its caller accepts and reads as the reply, or as the code for an unsupported method; only a base callback can take a request over, and only requests are answered |
| Arrivals.EveryRequestIsAnswered | rbus-core/lib/rbus_core.c:390-456 | every request among dispatched messages reaches the handler of exactly its name or the base callback on a readable body, and its caller is sent what the callback replied |
| Arrivals.OverrideDecides | rbus-core/lib/rbus_core.c:201-206 | where an override handler takes a request, no list changes and the client learns its answer |
| Arrivals.RequestsApplyInOrder | rbus-core/lib/rbus_core.c:189-227 | dispatching any messages leaves an event as the subscribe and unsubscribe requests among them make it, applied in that order |
| Arrivals.ListenersFollowArrivals | rbus-core/lib/rbus_core.c:422-456 | after an outermost arrival with everything nested in it, a client is listed exactly if its last request in arrival order was a subscribe, and the subscribe callback heard so in alternation |
| Arrivals.AttemptsFollowArrivals | rbus-core/lib/rbus_core.c:1585-1599 | publishing after that attempts one send to each client that last asked to be listed, to those first who got listed first |
| Arrivals.DispatchIsDelivery | rbus-core/lib/rbus_core.c:390-420 | dispatching a packed subscription request is a delivery of the protocol, for the object and for what the client makes of the response that is sent |
| Subscriptions.PackRequest | rbus-core/lib/rbus_core.c:618-625 | packs event, return address, payload flag and optional payload |
| Subscriptions.SendSubscriptionRequest | rbus-core/lib/rbus_core.c:609-673 | sends the request under the reserved name and succeeds exactly on a response whose first item is 0; unreachable, silent and refusing providers give their codes |
| Subscriptions.ReadSubscriptionRequest | rbus-core/lib/rbus_core.c:1137-1151 | takes the arguments out of a request or finds it unreadable |
| Subscriptions.RequestAgreement | rbus-core/lib/rbus_core.c:618-630 | the provider recovers the event, address, direction and payload exactly as packed |
| Subscriptions.AnswerAgreement | rbus-core/lib/rbus_core.c:631-652 | the client reads back exactly the provider's result code |
| Subscriptions.EmptyReplyIsMalformed | rbus-core/lib/rbus_core.c:654-658 | a reply without a body is always malformed, never a misread trailer |
| Subscriptions.AgreementIff | rbus-core/lib/rbus_core.c:631-652 | a request has succeeded exactly if a response came whose first item is 0 |
| Subscriptions.FailureCodes | rbus-core/lib/rbus_core.c:653-671 | every other end of a request has its code and tells what is known of the provider's |
| Subscriptions.UnreadableIsMalformed | rbus-core/lib/rbus_core.c:1137-1151 | a request without its two strings changes nothing, and the client finds the answer malformed |
| ClientTable.AddEffect | rbus-core/lib/rbus_core.c:1477-1500 | entering a subscription adds that pair with its callback and no other and keeps the table's invariant |
| ClientTable.RemoveEffect | rbus-core/lib/rbus_core.c:1400-1430 | removing one removes that pair and no other, leaves every other callback and keeps the table's invariant |
| ClientTable.RollbackIsExact | rbus-core/lib/rbus_core.c:1505-1514 | taking an addition back restores the very table, order included |
| ClientTable.PairsAreSubscriptions | rbus-core/lib/rbus_core.c:350-361 | walking the table meets exactly the subscribed pairs |
| ClientTable.PairsAreDistinct | rbus-core/lib/rbus_core.c:350-361 | walking the table meets no pair twice |
| ClientTable.PairAt | rbus-core/lib/rbus_core.c:350-361 | the walk meets the entries row by row, in the order of their events |
| Client.EventClient.constructor | rbus-core/lib/rbus_core.c:328-333 | the subscription table starts empty |
| Client.EventClient.RemoveSubscriptionCallback | rbus-core/lib/rbus_core.c:1400-1430 | removes the entry if there is one and leaves the mutex free, also when its caller held it |
| Client.EventClient.SubscribeToEvent | rbus-core/lib/rbus_core.c:1432-1516 | all outcomes: refused, already there, asked; the entry stays exactly if a response agrees, and a timeout, a failed send or an unreachable provider leaves the table as before with its code; event dispatching is started |
| Client.EventClient.UnsubscribeFromEvent | rbus-core/lib/rbus_core.c:1528-1553 | removes the entry first and asks the provider whether or not there was one; without a connection nothing is sent and the call fails |
| Client.EventClient.PerformCleanup | rbus-core/lib/rbus_core.c:335-367 | destroys the objects, sends one cancellation per entry in table order and empties the table, ending with the mutex free |
| Client.EventClient.CancellationDecodes | rbus-core/lib/rbus_core.c:356-358 | what is sent on closing goes to the entry's object and is decoded as the end of this client's subscription to that event |
| Client.EventClient.Invoke | rbus-core/lib/rbus_core.c:1384-1386 | the application is called with the mutex free, and the call is logged with the state of the mutex |
| Client.EventClient.MasterEventCallback | rbus-core/lib/rbus_core.c:1321-1398 | the calls made are the master handler and the earliest matching callback exactly as specified, each logged with the mutex free |
| Client.EventClient.CallSubscriber | rbus-core/lib/rbus_core.c:1372-1398 | calls the callback of the earliest row that takes the event, or none, after releasing the mutex |
| Publishing.FirstTaker | rbus-core/lib/rbus_core.c:1374-1392 | the earliest row filed under the sender or the event's name that lists the event |
| Publishing.TakesAsCompared | rbus-core/lib/rbus_core.c:1378-1383 | the bounded comparisons of the scan decide by full names |
| Publishing.SetEventSection | rbus-core/lib/rbus_core.c:1573-1577 | appends a meta section with event, object and flag |
| Publishing.GetEventSection | rbus-core/lib/rbus_core.c:1343-1347 | reads the three fields and puts the cursor back |
| Publishing.LabelTravels | rbus-core/lib/rbus_core.c:1343-1353 | every receiver decodes exactly the event, the object and the flag, behind any earlier contents below the limit |
| Publishing.OversizedEventMisplacesLabel | rbus-core/lib/rbus_message.c:261-274 | the receiver looks for the label in the right place if and only if the message was below the limit |
| Wire.SubscriptionOverTheWire | rbus-core/lib/rbus_core.c:609-660 | a request reaches the installed handler, is acted on exactly, and the client's call succeeds exactly if the handling did |
| Wire.ServeOverTheWire | rbus-core/lib/rbus_core.c:390-420 | the packed request is routed, changes the object and is answered exactly as the protocol says, with or without the built-in handler behind its name |
| Protocol.SubscriptionEffect | rbus-core/lib/rbus_core.c:208-226 | a request changes one listener of one event or nothing, and succeeds exactly for an offered event and a short address |
| Protocol.ServeEffect | rbus-core/lib/rbus_core.c:400-415 | a routed request acts as above where its name is bound to the built-in handler, and elsewhere changes no list and succeeds as the application answers |
| Protocol.RunTransport | rbus-core/lib/rbus_core.c:609-673 | in every run, with any names, requests of one client to one object are handled in the order they were sent and answered as the object can |
| Protocol.NextKeeps | rbus-core/lib/rbus_core.c:1477-1516 | every step of the system keeps the protocol's invariant, wherever requests are routed and whatever the application answers |
| Protocol.Safety | rbus-core/lib/rbus_core.c:1528-1553 | in every run with one name per object and subscribe requests that reach the built-in handler, a settled entry is listed at the provider with no cancellation in flight |
| Protocol.TwoNamesAreUnsafe | rbus-core/lib/rbus_core.c:1439-1441 | any two names for one object give a run that ends with a settled entry and a cancellation on its way, or carried out where the unsubscribe handler is bound |
| Protocol.UnservedIsUnsafe | rbus-core/lib/rbus_core.c:412-418 | where subscribe requests do not reach the built-in handler, an application that answers success makes a settled entry that is not listed |
| Protocol.SafeIffOneNameAndServed | rbus-core/lib/rbus_core.c:1432-1516 | every run is safe if and only if no client uses two names for one event of one object and subscribe requests reach the built-in handler wherever they are sent |
| ProtocolExact.TablesAgree | rbus-core/lib/rbus_core.c:1432-1553 | without faults, with both handlers installed and nothing in flight, an entry exists exactly if the client is listed |
| ProtocolExact.HalfInstalledStaysListed | rbus-core/lib/rbus_core.c:1219-1222 | with the unsubscribe handler missing, a faultless subscribe and unsubscribe leave the client listed without an entry |
| ProtocolExact.HalfInstalledListsForGood | rbus-core/lib/rbus_core.c:1219-1222 | with the unsubscribe handler missing, whoever is listed stays listed in every run |
| ProtocolExact.AgreeIffOneNameAndInstalled | rbus-core/lib/rbus_core.c:1432-1553 | tables and lists agree in every faultless run if and only if no client uses two names and both handlers are installed wherever clients subscribe |
| ProtocolExact.GivingUpLeavesAListener | rbus-core/lib/rbus_core.c:1505-1514 | a caller that gives up can end up listed without an entry |
| ProtocolFaults.ListedIffNewest | rbus-core/lib/rbus_core.c:189-227 | in every run, losses and give-ups included, a client is listed at an object with both handlers if and only if its newest handled request is a subscribe |
| ProtocolFaults.StrandedIffNewest | rbus-core/lib/rbus_core.c:1505-1514 | with no call waiting, an entry is always listed, a client without one is listed exactly if its newest handled request is a subscribe, and table and list disagree in no other way |
| ProtocolFaults.DrainSettles | rbus-core/lib/rbus_core.c:189-227 | delivering what is on its way settles the list as the channel foretells and leaves the table alone |
| ProtocolFaults.NextExactIff | rbus-core/lib/rbus_core.c:1432-1553 | a step keeps the agreement to come if and only if it is harmless, which can be told before it |
| ProtocolFaults.AgreeIffHarmless | rbus-core/lib/rbus_core.c:1432-1553 | throughout a run with faults, what is on its way would bring table and list into agreement if and only if every fault so far was harmless |
| ProtocolTables.TablesStaySound | rbus-core/lib/rbus_core.c:1400-1516 | in every run, with any names and faults, object names are unique, no object is without events, event names are unique per object, and every entry belongs to a subscribe call that is waiting or succeeded |
| ProtocolTables.EntriesSettle | rbus-core/lib/rbus_core.c:1505-1516 | when no call is waiting, every entry is settled, and listed at the provider if subscribe requests reach its built-in handler |
| ProtocolTables.EntryFromCall | rbus-core/lib/rbus_core.c:1497-1500 | in every run, the callback of an entry is one that a subscribe call for exactly that entry gave |
| ProtocolTables.FailedCallLeavesNoTrace | rbus-core/lib/rbus_core.c:1505-1514 | a call that gives up leaves the table of the protocol as the call of the client does: the old one, order included |
| ProtocolTables.SecondCallerIsKept | rbus-core/lib/rbus_core.c:1480-1488 | an entry that a second call found stays until somebody unsubscribes, in every continuation, if and only if no other subscribe call for it was waiting |
| ProtocolTables.SecondCallerCanLose | rbus-core/lib/rbus_core.c:1505-1514 | a second caller told SUCCESS loses its entry when the first call gives up |
| ProtocolStart.RegistryStarts | rbus-core/lib/rbus_core.c:675-809 | every run of registry calls without override handlers is a start of the protocol |
| ProtocolStart.FlaggedProviderIsSafe | rbus-core/lib/rbus_core.c:1199-1230 | a provider that leaves the reserved names alone and whose objects are all flagged for subscriptions is safe in every run of clients with one name per object |
| ProtocolStart.HalfInstallationStrands | rbus-core/lib/rbus_core.c:1203-1222 | registry calls that end with SUCCESS after which a client that subscribes and unsubscribes stays listed |
| ProtocolStart.MissingHandlerStrands | rbus-core/lib/rbus_core.c:1261-1274 | registry calls after which a client holds a settled entry and is not listed |
| Delivery.TakerExists | rbus-core/lib/rbus_core.c:1374-1392 | some row takes an event exactly if it is subscribed under the sender's or under its own name |
| Delivery.EntryServed | rbus-core/lib/rbus_core.c:1374-1392 | an entry's own row is served, with its own callback, exactly if it is filed under the sender's or the event's name and no earlier row takes the event |
| Delivery.SettledClientIsReached | rbus-core/lib/rbus_core.c:1585-1599 | in every run, publishing attempts a send to each settled client, which calls at most one callback; it is the settled entry's own one exactly if that entry comes first under the object's or the event's name |
| Delivery.AliasIsNeverCalled | rbus-core/lib/rbus_core.c:1378-1379 | an entry under another alias settles, is listed and is called for nothing |
| Delivery.OtherObjectsCallbackIsCalled | rbus-core/lib/rbus_core.c:1374-1392 | two objects with one event name: the source's event calls the callback meant for the other object although the source's own entry is settled |
| OwnCallbacks.OwnCallbacksIffUndivided | rbus-core/lib/rbus_core.c:1374-1392 | in every run each settled entry's own row is served if and only if every subscription that can settle is made under the object's or the event's name and its client does not use the other one |
| OwnCallbacks.UndividedCallsOwn | rbus-core/lib/rbus_core.c:1374-1392 | then what an object publishes makes a settled client call exactly that subscription's callback |
| Delivery.MasterComesFirst | rbus-core/lib/rbus_core.c:1355-1370 | an event of rbus 2.0 goes to the master handler and on to the table only if there is none or it declines |
| Delivery.UnlabelledIsIgnored | rbus-core/lib/rbus_core.c:1335-1353 | an event that cannot be read, or comes from a name that is too long, makes no call |
| Session.SessionManager.constructor | rbus-core/session_manager/session_manager.c:27-28 | no session yet |
| Session.SessionManager.RequestSessionId | rbus-core/session_manager/session_manager.c:30-51 | grants the next number when idle, refuses otherwise, and writes exactly that into the response |
| Session.SessionManager.GetSessionId | rbus-core/session_manager/session_manager.c:53-65 | reports the current number |
| Session.SessionManager.EndSession | rbus-core/session_manager/session_manager.c:67-98 | ends the session of exactly the current number, else answers with the right error |
| Session.SessionsAlternate | rbus-core/session_manager/session_manager.c:30-98 | over every run, grants and ends alternate with numbers 1, 2, 3, ... and the current number is the last one granted or 0 |
| Session.GrantIsTold | rbus-core/session_manager/session_manager.c:38-49 | after any run, the response to a request tells the number of the session it grants, or that one is running |
| Session.RunningIsTold | rbus-core/session_manager/session_manager.c:53-65 | after any run, the response tells the number last granted and not yet ended, or 0 |
| Session.EndIsTold | rbus-core/session_manager/session_manager.c:77-96 | the response to an end request tells success exactly for the running number, and the right error otherwise |
| Session.EndEnds | rbus-core/session_manager/session_manager.c:79-84 | a session ends exactly if its number is named while it runs |
| Session.EndingNothingSucceeds | rbus-core/session_manager/session_manager.c:77-84 | ending session 0 while idle succeeds and changes nothing |

## Left out

- Transport, routing and discovery (`rtConnection`, `rbus_discover*`): foreign code; channels, a routing function and the transport's outcomes stand for them.
- MessagePack nil, booleans, 32-bit floats, extensions and containers: no bus call writes them; to a reader they count as unparseable.
- `rbusMessage_ToDebugString`, logging, configuration files and the bus status check: output and I/O.
- Reference counts and heap lifetime: messages and queued requests are values, so a released message that is still referred to does not show.
- Threads: API calls and dispatches are sequential; the tables that the code changes outside the mutex are not examined for races.
- Registry calls made from inside a callback: an arrival is bound to an object that stays registered, and dispatching changes objects through the built-in handler only.
- `rbus_openBrokerConnection`, `rbus_closeBrokerConnection` and their early exits that skip the unlock: connection handling.
- `rbus_pushObj`, `rbus_pullObj`: they call one fixed method through `rbus_invokeRemoteMethod` and read its result.
- `rbus_addElement`, `rbus_removeElement`: they check lengths and hand an alias to the transport; the routing function stands for the result.
- The client disconnect handler and the advisory callback: they pass a transport notice on to the application.
- A string item without a terminator: the model reads up to the item's end, where C would read on.
- Protocol.NextKeeps: one provider process whose objects, events and methods stay as registered and have no override handler, and clients without a master event handler; an application's callback that answers a reserved name is known by its answer only.
