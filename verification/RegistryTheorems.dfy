/** What the registry promises beyond single calls: subscription handlers and method tables. */
module RegistryTheorems {
  import opened Bytes
  import opened BusTypes
  import opened Vectors
  import opened Events
  import opened Registry

  // ---- Subscription handlers --------------------------------------------------------------

  predicate UnregistersReserved(op: Op) {
    op.UnregisterMethod? && (op.name == SUBSCRIBE || op.name == UNSUBSCRIBE)
  }

  /** Calls of this method reach the built-in subscription handler. */
  predicate Wired(obj: ObjectView, name: CString) {
    name in obj.methods && obj.methods[name] == BuiltIn
  }

  predicate FlagHonest(obj: ObjectView) {
    obj.processEventSubscriptions ==> Wired(obj, SUBSCRIBE) && Wired(obj, UNSUBSCRIBE)
  }

  lemma ChangeKeepsFlagHonest(obj: ObjectView, op: Op)
    requires !BadArguments(op) && OnExistingObject(op) && !UnregistersReserved(op) && FlagHonest(obj)
    ensures FlagHonest(ViewChange(obj, op).obj)
  {
  }

  lemma {:induction false} FlagHonestOnMaps(ops: seq<Op>)
    requires forall op <- ops :: !UnregistersReserved(op)
    ensures forall name <- ViewRun(ops).final :: FlagHonest(ViewRun(ops).final[name])
  {
    if |ops| == 0 {
    } else {
      var op := ops[|ops| - 1];
      FlagHonestOnMaps(ops[..|ops| - 1]);
      var before := ViewRun(ops[..|ops| - 1]).final;
      if !BadArguments(op) && OnExistingObject(op) && ObjectOf(op) in before {
        ChangeKeepsFlagHonest(before[ObjectOf(op)], op);
      }
    }
  }

  /** Unless a run unregisters the reserved names, an object that claims to process subscriptions
      has the built-in handler behind both of them, whatever failed on the way, at the method limit
      or elsewhere, and whatever methods the application registered. */
  lemma FlagImpliesBothHandlers(ops: seq<Op>, i: nat)
    requires forall op <- ops :: !UnregistersReserved(op)
    requires i < |Run(ops).final| && Run(ops).final[i].val.processEventSubscriptions
    ensures Bound(Run(ops).final[i].val, SUBSCRIBE) && Bound(Run(ops).final[i].val, UNSUBSCRIBE)
  {
    RegistryRefinesMaps(ops);
    FlagHonestOnMaps(ops);
    var objects := Run(ops).final;
    FindAt(objects, i, MAX_OBJECT_NAME);
    ViewLookup(objects, objects[i].name);
    BoundIsLookup(objects[i].val, SUBSCRIBE);
    BoundIsLookup(objects[i].val, UNSUBSCRIBE);
  }

  /** What a successful event registration guarantees of a reserved name: it reaches the built-in
      handler exactly if it did before, or if the object was not flagged and had no `_subscribe`
      method at all. The registration looks at the flag and for that one name only, not for what is
      bound to it or to the other. */
  lemma RegisterEventPromise(obj: ServerObject, event: CString, callback: Option<nat>, name: CString)
    requires ObjectInv(obj) && |event| < MAX_EVENT_NAME && (name == SUBSCRIBE || name == UNSUBSCRIBE)
    requires AddEvent(obj, event, callback).rc == SUCCESS
    ensures var after := AddEvent(obj, event, callback).obj;
            && event in ViewOf(after).events
            && (Bound(after, name)
                <==> Bound(obj, name) || (!obj.processEventSubscriptions && SUBSCRIBE !in ViewOf(obj).methods))
  {
    var offering, after := WithEvent(obj, event, callback), AddEvent(obj, event, callback).obj;
    WithEventRefines(obj, event, callback);
    InstallRefines(offering);
    InstallationOnMaps(ViewOf(offering), name);
    BoundIsLookup(obj, name);
    BoundIsLookup(after, name);
  }

  lemma InstallationOnMaps(obj: ObjectView, name: CString)
    requires ViewInstall(obj).rc == SUCCESS && (name == SUBSCRIBE || name == UNSUBSCRIBE)
    ensures var after := ViewInstall(obj).obj;
            && after.events == obj.events
            && (Wired(after, name) <==> Wired(obj, name)
                                        || (!obj.processEventSubscriptions && SUBSCRIBE !in obj.methods))
  {
    assert SUBSCRIBE != UNSUBSCRIBE;
  }

  /** Half an installation does arise: with 31 methods taken, the first registration fails for
      lack of room, and the second one reports success although nobody can unsubscribe. */
  lemma HalfInstalledReportsSuccess(obj: ServerObject, event: CString, callback: Option<nat>)
    requires ObjectInv(obj) && |event| < MAX_EVENT_NAME && !obj.processEventSubscriptions
    requires |obj.methods| == MAX_METHODS - 1
    requires SUBSCRIBE !in ViewOf(obj).methods && UNSUBSCRIBE !in ViewOf(obj).methods
    ensures var first := AddEvent(obj, event, callback);
            var second := AddEvent(first.obj, event, callback);
            && first.rc == ERROR_OUT_OF_RESOURCES && second.rc == SUCCESS
            && event in ViewOf(second.obj).events && !second.obj.processEventSubscriptions
            && Bound(second.obj, SUBSCRIBE) && UNSUBSCRIBE !in ViewOf(second.obj).methods
  {
    SizeOf(obj.methods, MAX_METHOD_NAME);
    AddEventRefines(obj, event, callback);
    var first := AddEvent(obj, event, callback);
    assert SUBSCRIBE != UNSUBSCRIBE;
    AddEventRefines(first.obj, event, callback);
    BoundIsLookup(AddEvent(first.obj, event, callback).obj, SUBSCRIBE);
  }

  /** With 32 methods taken the event stays registered although no handler could be installed. */
  lemma FullObjectKeepsEvent(obj: ServerObject, event: CString, callback: Option<nat>)
    requires ObjectInv(obj) && |event| < MAX_EVENT_NAME && !obj.processEventSubscriptions
    requires |obj.methods| == MAX_METHODS && SUBSCRIBE !in ViewOf(obj).methods
    ensures var after := AddEvent(obj, event, callback);
            && after.rc == ERROR_OUT_OF_RESOURCES
            && event in ViewOf(after.obj).events && SUBSCRIBE !in ViewOf(after.obj).methods
            && (event !in ViewOf(obj).events ==> ViewOf(after.obj).events[event].listeners == [])
  {
    SizeOf(obj.methods, MAX_METHOD_NAME);
    AddEventRefines(obj, event, callback);
  }

  // ---- Result codes -----------------------------------------------------------------------

  /** What the registry answers about an object, by the names that are registered. */
  lemma ObjectCodes(objects: Objects, name: CString, base: nat, transportOk: bool)
    requires Inv(objects)
    ensures Step(objects, RegisterObj(Some(name), base, transportOk)).rc
            == if |name| == 0 || |name| >= MAX_OBJECT_NAME || name in View(objects) then ERROR_INVALID_PARAM
               else if !transportOk then ERROR_GENERAL else SUCCESS
    ensures Step(objects, UnregisterObj(Some(name), transportOk)).rc
            == if |name| == 0 || |name| >= MAX_OBJECT_NAME then ERROR_INVALID_PARAM
               else if !transportOk || name !in View(objects) then ERROR_GENERAL else SUCCESS
  {
    ViewLookup(objects, name);
  }

  /** What it answers about events: an unknown object and an unknown event are both bad parameters, and
      a subscription is refused for names that are too long, by the override handler, or for an
      unknown event. */
  lemma EventCodes(objects: Objects, target: CString, event: CString, subscriber: CString, added: bool,
                   overrideResult: int32)
    requires Inv(objects)
    ensures Step(objects, UnregisterEvent(target, Some(event))).rc
            == if target in View(objects) && event in View(objects)[target].events then SUCCESS
               else ERROR_INVALID_PARAM
    ensures Step(objects, HandleSubscription(target, event, subscriber, added, overrideResult)).rc
            == if target !in View(objects) || |subscriber| >= MAX_OBJECT_NAME || |event| >= MAX_EVENT_NAME
               then ERROR_INVALID_PARAM
               else if View(objects)[target].override.Some? && overrideResult != SUBSCRIBE_NOT_HANDLED
               then overrideResult
               else if event in View(objects)[target].events then SUCCESS else ERROR_UNSUPPORTED_EVENT
  {
    StepRefines(objects, UnregisterEvent(target, Some(event)));
    StepRefines(objects, HandleSubscription(target, event, subscriber, added, overrideResult));
  }

  /** Registering an event again keeps its listeners, its callback and its history; a new one starts
      with the given callback and no listeners. No other event is touched. */
  lemma RegisteringKeepsEvents(obj: ServerObject, event: CString, callback: Option<nat>, other: CString)
    requires ObjectInv(obj) && |event| < MAX_EVENT_NAME
    ensures var was, now := ViewOf(obj).events, ViewOf(AddEvent(obj, event, callback).obj).events;
            && event in now
            && (event in was ==> now[event] == was[event])
            && (event !in was ==> now[event] == Event([], callback, []))
            && (other != event ==> (other in now <==> other in was) && (other in was ==> now[other] == was[other]))
  {
    WithEventRefines(obj, event, callback);
    InstallKeepsEvents(WithEvent(obj, event, callback));
  }

  lemma InstallKeepsEvents(obj: ServerObject)
    ensures EnsureInstalled(obj).obj.events == obj.events
  {
  }

  // ---- Method tables ----------------------------------------------------------------------

  type Table = seq<Named<Handler>>

  /** Entries are registered in order up to the first one that is refused. */
  function RegisterTable(objects: Objects, target: CString, table: Table): Outcome
    decreases |table|
  {
    if |table| == 0 then Outcome(SUCCESS, objects)
    else
      var first := Step(objects, RegisterMethod(target, table[0].name, table[0].val));
      if first.rc != SUCCESS then first else RegisterTable(first.objects, target, table[1..])
  }

  function UnregisterTable(objects: Objects, target: CString, table: Table): Outcome
    decreases |table|
  {
    if |table| == 0 then Outcome(SUCCESS, objects)
    else
      var first := Step(objects, UnregisterMethod(target, table[0].name));
      if first.rc != SUCCESS then first else UnregisterTable(first.objects, target, table[1..])
  }

  /** Why an entry cannot join these methods; SUCCESS when it can. */
  function Refusal(methods: Table, entry: Named<Handler>): int32 {
    if |entry.name| >= MAX_METHOD_NAME then ERROR_INVALID_PARAM
    else if |methods| >= MAX_METHODS then ERROR_OUT_OF_RESOURCES
    else if entry.name in Contents(methods) then ERROR_INVALID_PARAM
    else SUCCESS
  }

  function WithMethods(objects: Objects, i: nat, methods: Table): Objects
    requires i < |objects|
  {
    SetAt(objects, i, objects[i].val.(methods := methods))
  }

  lemma WithMethodsTwice(objects: Objects, i: nat, a: Table, b: Table)
    requires i < |objects|
    ensures WithMethods(WithMethods(objects, i, a), i, b) == WithMethods(objects, i, b)
    ensures WithMethods(objects, i, objects[i].val.methods) == objects
  {
    var obj := objects[i].val;
    SetAtTwice(objects, i, obj.(methods := a), obj.(methods := b));
  }

  lemma RegisterOne(objects: Objects, i: nat, entry: Named<Handler>)
    requires Inv(objects) && i < |objects|
    ensures var after := Step(objects, RegisterMethod(objects[i].name, entry.name, entry.val));
            && Inv(after.objects)
            && after.rc == Refusal(objects[i].val.methods, entry)
            && after.objects == if after.rc == SUCCESS then WithMethods(objects, i, objects[i].val.methods + [entry])
                                else objects
  {
    var op := RegisterMethod(objects[i].name, entry.name, entry.val);
    StepRefines(objects, op);
    if |entry.name| < MAX_METHOD_NAME {
      StepOnObject(objects, i, op);
      SetAtTwice(objects, i, objects[i].val, objects[i].val);
      SearchIsLookup(objects[i].val.methods, entry.name, MAX_METHOD_NAME);
    }
  }

  /** How many entries get in before the first refusal. */
  function Accepted(methods: Table, table: Table): (k: nat)
    ensures k <= |table|
    decreases |table|
  {
    if |table| == 0 || Refusal(methods, table[0]) != SUCCESS then 0
    else 1 + Accepted(methods + [table[0]], table[1..])
  }

  lemma Shift(methods: Table, table: Table, j: nat)
    requires j < |table|
    ensures methods + [table[0]] + table[1..][..j] == methods + table[..j + 1]
  {
  }

  lemma {:induction false} AcceptedIsFirstRefusal(methods: Table, table: Table, j: nat)
    requires j < |table|
    ensures j < Accepted(methods, table) ==> Refusal(methods + table[..j], table[j]) == SUCCESS
    ensures j == Accepted(methods, table) ==> Refusal(methods + table[..j], table[j]) != SUCCESS
    decreases |table|
  {
    if j == 0 {
      assert methods + table[..0] == methods;
    } else if Refusal(methods, table[0]) == SUCCESS {
      AcceptedIsFirstRefusal(methods + [table[0]], table[1..], j - 1);
      Shift(methods, table, j - 1);
    }
  }

  /** Table registration extends the method list by exactly the entries in front of the first
      refused one and answers with that refusal; the list is extended by all of them on success. */
  lemma {:induction false} TableExtendsByPrefix(objects: Objects, i: nat, table: Table)
    requires Inv(objects) && i < |objects|
    ensures var methods := objects[i].val.methods;
            var k := Accepted(methods, table);
            RegisterTable(objects, objects[i].name, table)
            == Outcome(if k == |table| then SUCCESS else Refusal(methods + table[..k], table[k]),
                       WithMethods(objects, i, methods + table[..k]))
    ensures Inv(RegisterTable(objects, objects[i].name, table).objects)
    decreases |table|
  {
    var methods := objects[i].val.methods;
    assert methods + table[..0] == methods;
    WithMethodsTwice(objects, i, methods, methods);
    if |table| > 0 {
      RegisterOne(objects, i, table[0]);
      if Refusal(methods, table[0]) == SUCCESS {
        var next := WithMethods(objects, i, methods + [table[0]]);
        TableExtendsByPrefix(next, i, table[1..]);
        var k := Accepted(methods, table);
        Shift(methods, table, k - 1);
        WithMethodsTwice(objects, i, methods + [table[0]], methods + table[..k]);
      }
    }
  }

  lemma {:induction false} UnregisterTail(objects: Objects, i: nat, methods: Table, table: Table)
    requires Inv(objects) && i < |objects| && objects[i].val.methods == methods + table
    ensures UnregisterTable(objects, objects[i].name, table) == Outcome(SUCCESS, WithMethods(objects, i, methods))
    decreases |table|
  {
    if |table| == 0 {
      assert methods + table == methods;
      WithMethodsTwice(objects, i, methods, methods);
    } else {
      WithMethodsTwice(objects, i, methods + table[1..], methods);
      UnregisterOne(objects, i, methods, table);
      UnregisterTail(WithMethods(objects, i, methods + table[1..]), i, methods, table[1..]);
    }
  }

  lemma UnregisterOne(objects: Objects, i: nat, methods: Table, table: Table)
    requires Inv(objects) && i < |objects| && |table| > 0 && objects[i].val.methods == methods + table
    ensures var after := WithMethods(objects, i, methods + table[1..]);
            Inv(after) && Step(objects, UnregisterMethod(objects[i].name, table[0].name)) == Outcome(SUCCESS, after)
  {
    var op := UnregisterMethod(objects[i].name, table[0].name);
    StepRefines(objects, op);
    StepOnObject(objects, i, op);
    var all := methods + table;
    assert all[|methods|] == table[0];
    FindAt(all, |methods|, MAX_METHOD_NAME);
    assert RemoveAt(all, |methods|) == methods + table[1..];
  }

  /** How many entries are removed before one is missing. */
  function FirstMissing(methods: map<CString, Handler>, table: Table): (k: nat)
    ensures k <= |table|
    decreases |table|
  {
    if |table| == 0 || table[0].name !in methods then 0
    else 1 + FirstMissing(methods - {table[0].name}, table[1..])
  }

  /** It is the first entry whose name is not registered, or was already removed for an earlier entry. */
  lemma {:induction false} FirstMissingIsFirst(methods: map<CString, Handler>, table: Table, j: nat)
    requires j < |table|
    ensures var gone := table[j].name !in methods || exists i :: 0 <= i < j && table[i].name == table[j].name;
            (j < FirstMissing(methods, table) ==> !gone) && (j == FirstMissing(methods, table) ==> gone)
    decreases |table|
  {
    if j > 0 && table[0].name in methods {
      var rest := table[1..];
      FirstMissingIsFirst(methods - {table[0].name}, rest, j - 1);
      assert rest[j - 1] == table[j];
      assert forall i :: 0 <= i < j - 1 ==> rest[i] == table[i + 1];
      assert (exists i :: 0 <= i < j && table[i].name == table[j].name)
        <==> table[0].name == table[j].name || exists i :: 0 <= i < j - 1 && rest[i].name == rest[j - 1].name by {
        assert forall i :: 1 <= i < j ==> table[i] == rest[i - 1];
      }
    }
  }

  /** Only these methods went, and only from this object. */
  ghost predicate Shrunk(objects: Objects, i: nat, after: Objects, gone: set<CString>)
    requires i < |objects|
  {
    && Inv(after) && |after| == |objects| && after == WithMethods(objects, i, after[i].val.methods)
    && Contents(after[i].val.methods) == Contents(objects[i].val.methods) - gone
  }

  lemma ShrunkTwice(objects: Objects, i: nat, mid: Objects, after: Objects, a: set<CString>, b: set<CString>)
    requires i < |objects| && Shrunk(objects, i, mid, a) && Shrunk(mid, i, after, b)
    ensures Shrunk(objects, i, after, a + b)
  {
    WithMethodsTwice(objects, i, mid[i].val.methods, after[i].val.methods);
  }

  lemma UnregisterStep(objects: Objects, i: nat, name: CString)
    requires Inv(objects) && i < |objects|
    ensures var after := Step(objects, UnregisterMethod(objects[i].name, name));
            && Shrunk(objects, i, after.objects, {name})
            && after.rc == if name in Contents(objects[i].val.methods) then SUCCESS else ERROR_GENERAL
  {
    if name in Contents(objects[i].val.methods) {
      StepOnObject(objects, i, UnregisterMethod(objects[i].name, name));
      DropMethodRefines(objects[i].val, name);
      InvSet(objects, i, DropMethod(objects[i].val, name).obj);
    } else {
      UnregisterNothing(objects, i, name);
      WithMethodsTwice(objects, i, objects[i].val.methods, objects[i].val.methods);
    }
  }

  /** Table removal takes out exactly the entries in front of the first missing one, of this object
      only, and says whether there was one. */
  lemma {:induction false} TableShrinksByPrefix(objects: Objects, i: nat, table: Table)
    requires Inv(objects) && i < |objects|
    ensures var k := FirstMissing(Contents(objects[i].val.methods), table);
            var after := UnregisterTable(objects, objects[i].name, table);
            && Shrunk(objects, i, after.objects, Names(table[..k]))
            && after.rc == if k == |table| then SUCCESS else ERROR_GENERAL
    decreases |table|
  {
    WithMethodsTwice(objects, i, objects[i].val.methods, objects[i].val.methods);
    if |table| > 0 {
      var name := table[0].name;
      UnregisterStep(objects, i, name);
      var next := Step(objects, UnregisterMethod(objects[i].name, name)).objects;
      if name in Contents(objects[i].val.methods) {
        var k := FirstMissing(Contents(objects[i].val.methods), table);
        TableShrinksByPrefix(next, i, table[1..]);
        ShrunkTwice(objects, i, next, UnregisterTable(next, objects[i].name, table[1..]).objects,
                    {name}, Names(table[1..][..k - 1]));
        NamesOfPrefix(table, k);
      } else {
        UnregisterNothing(objects, i, name);
      }
    }
  }

  lemma UnregisterNothing(objects: Objects, i: nat, name: CString)
    requires Inv(objects) && i < |objects| && name !in Contents(objects[i].val.methods)
    ensures Step(objects, UnregisterMethod(objects[i].name, name)) == Outcome(ERROR_GENERAL, objects)
  {
    StepOnObject(objects, i, UnregisterMethod(objects[i].name, name));
    DropMethodRefines(objects[i].val, name);
    SetAtTwice(objects, i, objects[i].val, objects[i].val);
  }

  lemma NamesOfPrefix(table: Table, k: nat)
    requires 0 < k <= |table|
    ensures Names(table[..k]) == {table[0].name} + Names(table[1..][..k - 1])
  {
    var front, rest := table[..k], table[1..][..k - 1];
    assert forall i :: 0 <= i < k - 1 ==> rest[i] == front[i + 1];
    forall name <- Names(front) ensures name in {table[0].name} + Names(rest) {
      var i :| 0 <= i < k && front[i].name == name;
      if i > 0 {
        assert rest[i - 1].name == name;
      }
    }
  }

  /** Unregistering a table undoes its successful registration: every vector is as it was. */
  lemma TableRoundTrip(objects: Objects, target: CString, table: Table)
    requires Inv(objects) && RegisterTable(objects, target, table).rc == SUCCESS
    ensures UnregisterTable(RegisterTable(objects, target, table).objects, target, table) == Outcome(SUCCESS, objects)
  {
    if |table| > 0 {
      var i := Find(objects, target, MAX_OBJECT_NAME);
      assert i < |objects|;
      ViewLookup(objects, target);
      TableRoundTripAt(objects, i, table);
    }
  }

  lemma TableRoundTripAt(objects: Objects, i: nat, table: Table)
    requires Inv(objects) && i < |objects| && RegisterTable(objects, objects[i].name, table).rc == SUCCESS
    ensures UnregisterTable(RegisterTable(objects, objects[i].name, table).objects, objects[i].name, table)
            == Outcome(SUCCESS, objects)
  {
    var methods := objects[i].val.methods;
    var k := Accepted(methods, table);
    TableExtendsByPrefix(objects, i, table);
    if k < |table| {
      AcceptedIsFirstRefusal(methods, table, k);
    }
    assert table[..k] == table;
    UnregisterTail(WithMethods(objects, i, methods + table), i, methods, table);
    WithMethodsTwice(objects, i, methods + table, methods);
  }
}
