/** The server side tables: objects, their methods, their events. Each operation is given on the
    vectors that the process keeps, and again on plain finite maps; the theorem is that they agree. */
module Registry {
  import opened Bytes
  import opened BusTypes
  import opened Vectors
  import opened Events

  /** A callback with its user data: the application's, or the built-in subscription handler. */
  datatype Handler = App(callback: nat) | BuiltIn

  datatype ServerObject = ServerObject(
    base: nat,
    methods: seq<Named<Handler>>,
    events: seq<Named<Event>>,
    processEventSubscriptions: bool,
    override: Option<nat>)

  type Objects = seq<Named<ServerObject>>

  /** The calls on the registry; an optional name is one that may be NULL. */
  datatype Op =
    | RegisterObj(maybe: Option<CString>, base: nat, transportOk: bool)
    | UnregisterObj(maybe: Option<CString>, transportOk: bool)
    | RegisterMethod(target: CString, name: CString, handler: Handler)
    | UnregisterMethod(target: CString, name: CString)
    | RegisterEvent(maybe: Option<CString>, event: Option<CString>, callback: Option<nat>)
    | UnregisterEvent(target: CString, event: Option<CString>)
    | RegisterSubscribeHandler(maybe: Option<CString>, callback: Option<nat>)
    | HandleSubscription(target: CString, eventName: CString, subscriber: CString, added: bool, overrideResult: int32)

  /** A NULL event name means the default event, which has the empty name. */
  function NameOf(name: Option<CString>): CString {
    if name.Some? then name.value else []
  }

  // ---- Operations on the vectors ----------------------------------------------------------

  datatype Changed = Changed(rc: int32, obj: ServerObject)

  datatype Outcome = Outcome(rc: int32, objects: Objects)

  function AddMethod(obj: ServerObject, name: CString, handler: Handler): Changed {
    if |obj.methods| >= MAX_METHODS then Changed(ERROR_OUT_OF_RESOURCES, obj)
    else if Has(obj.methods, name, MAX_METHOD_NAME) then Changed(ERROR_INVALID_PARAM, obj)
    else Changed(SUCCESS, obj.(methods := obj.methods + [Named(name, handler)]))
  }

  function DropMethod(obj: ServerObject, name: CString): Changed {
    if Has(obj.methods, name, MAX_METHOD_NAME)
    then Changed(SUCCESS, obj.(methods := RemoveAt(obj.methods, Find(obj.methods, name, MAX_METHOD_NAME))))
    else Changed(ERROR_GENERAL, obj)
  }

  /** The built-in subscription handler is what a call of this method reaches. */
  predicate Bound(obj: ServerObject, name: CString) {
    && Has(obj.methods, name, MAX_METHOD_NAME)
    && obj.methods[Find(obj.methods, name, MAX_METHOD_NAME)].val == BuiltIn
  }

  function Install(obj: ServerObject): Changed {
    if Has(obj.methods, SUBSCRIBE, MAX_METHOD_NAME) then Changed(SUCCESS, obj)
    else
      var first := AddMethod(obj, SUBSCRIBE, BuiltIn);
      if first.rc != SUCCESS then first
      else
        var second := AddMethod(first.obj, UNSUBSCRIBE, BuiltIn);
        if second.rc != SUCCESS then second
        else Changed(SUCCESS, second.obj.(processEventSubscriptions := true))
  }

  function EnsureInstalled(obj: ServerObject): Changed {
    if obj.processEventSubscriptions then Changed(SUCCESS, obj) else Install(obj)
  }

  function WithEvent(obj: ServerObject, event: CString, callback: Option<nat>): ServerObject {
    if Has(obj.events, event, MAX_EVENT_NAME) then obj
    else obj.(events := obj.events + [Named(event, Event([], callback, []))])
  }

  function AddEvent(obj: ServerObject, event: CString, callback: Option<nat>): Changed {
    EnsureInstalled(WithEvent(obj, event, callback))
  }

  function DropEvent(obj: ServerObject, event: CString): Changed {
    if Has(obj.events, event, MAX_EVENT_NAME)
    then Changed(SUCCESS, obj.(events := RemoveAt(obj.events, Find(obj.events, event, MAX_EVENT_NAME))))
    else Changed(ERROR_INVALID_PARAM, obj)
  }

  /** The outcome of a subscribe or unsubscribe request, given what the override handler, if one
      is installed, would answer. */
  function Subscription(obj: ServerObject, event: CString, subscriber: CString, added: bool,
                        overrideResult: int32): Changed
  {
    if |subscriber| >= MAX_OBJECT_NAME || |event| >= MAX_EVENT_NAME then Changed(ERROR_INVALID_PARAM, obj)
    else if obj.override.Some? && overrideResult != SUBSCRIBE_NOT_HANDLED then Changed(overrideResult, obj)
    else if Has(obj.events, event, MAX_EVENT_NAME) then
      var i := Find(obj.events, event, MAX_EVENT_NAME);
      Changed(SUCCESS, obj.(events := SetAt(obj.events, i, Apply(obj.events[i].val, subscriber, added))))
    else Changed(ERROR_UNSUPPORTED_EVENT, obj)
  }

  /** Arguments that are refused before any table is looked at. */
  predicate BadArguments(op: Op) {
    match op
    case RegisterObj(maybe, _, _) => maybe.None? || |maybe.value| >= MAX_OBJECT_NAME || |maybe.value| == 0
    case UnregisterObj(maybe, _) => maybe.None? || |maybe.value| >= MAX_OBJECT_NAME || |maybe.value| == 0
    case RegisterMethod(_, name, _) => |name| >= MAX_METHOD_NAME
    case RegisterEvent(maybe, event, _) => maybe.None? || |NameOf(event)| >= MAX_EVENT_NAME
    case RegisterSubscribeHandler(maybe, callback) => maybe.None? || callback.None?
    case _ => false
  }

  function ObjectOf(op: Op): CString
    requires !BadArguments(op)
  {
    match op
    case RegisterObj(maybe, _, _) => maybe.value
    case UnregisterObj(maybe, _) => maybe.value
    case RegisterEvent(maybe, _, _) => maybe.value
    case RegisterSubscribeHandler(maybe, _) => maybe.value
    case _ => op.target
  }

  predicate OnExistingObject(op: Op) {
    !op.RegisterObj? && !op.UnregisterObj?
  }

  function Change(obj: ServerObject, op: Op): Changed
    requires !BadArguments(op) && OnExistingObject(op)
  {
    match op
    case RegisterMethod(_, name, handler) => AddMethod(obj, name, handler)
    case UnregisterMethod(_, name) => DropMethod(obj, name)
    case RegisterEvent(_, event, callback) => AddEvent(obj, NameOf(event), callback)
    case UnregisterEvent(_, event) => DropEvent(obj, NameOf(event))
    case RegisterSubscribeHandler(_, callback) => EnsureInstalled(obj.(override := callback))
    case HandleSubscription(_, event, subscriber, added, overrideResult) =>
      Subscription(obj, event, subscriber, added, overrideResult)
  }

  function Step(objects: Objects, op: Op): Outcome {
    if BadArguments(op) then Outcome(ERROR_INVALID_PARAM, objects)
    else
      var i := Find(objects, ObjectOf(op), MAX_OBJECT_NAME);
      match op
      case RegisterObj(_, base, transportOk) =>
        if i < |objects| then Outcome(ERROR_INVALID_PARAM, objects)
        else if !transportOk then Outcome(ERROR_GENERAL, objects)
        else Outcome(SUCCESS, objects + [Named(ObjectOf(op), ServerObject(base, [], [], false, None))])
      case UnregisterObj(_, transportOk) =>
        if !transportOk || i == |objects| then Outcome(ERROR_GENERAL, objects)
        else Outcome(SUCCESS, RemoveAt(objects, i))
      case _ =>
        if i == |objects| then Outcome(ERROR_INVALID_PARAM, objects)
        else Outcome(Change(objects[i].val, op).rc, SetAt(objects, i, Change(objects[i].val, op).obj))
  }

  datatype Trace<T> = Trace(codes: seq<int32>, final: T)

  function Run(ops: seq<Op>): Trace<Objects> {
    if |ops| == 0 then Trace([], [])
    else
      var before := Run(ops[..|ops| - 1]);
      var last := Step(before.final, ops[|ops| - 1]);
      Trace(before.codes + [last.rc], last.objects)
  }

  // ---- The same operations on finite maps, by full name -----------------------------------

  datatype ObjectView = ObjectView(
    base: nat,
    methods: map<CString, Handler>,
    events: map<CString, Event>,
    processEventSubscriptions: bool,
    override: Option<nat>)

  datatype ViewChanged = ViewChanged(rc: int32, obj: ObjectView)

  datatype ViewOutcome = ViewOutcome(rc: int32, objects: map<CString, ObjectView>)

  function ViewInstall(obj: ObjectView): ViewChanged {
    if obj.processEventSubscriptions || SUBSCRIBE in obj.methods then ViewChanged(SUCCESS, obj)
    else if |obj.methods| >= MAX_METHODS then ViewChanged(ERROR_OUT_OF_RESOURCES, obj)
    else
      var half := obj.(methods := obj.methods[SUBSCRIBE := BuiltIn]);
      if |obj.methods| + 1 >= MAX_METHODS then ViewChanged(ERROR_OUT_OF_RESOURCES, half)
      else if UNSUBSCRIBE in obj.methods then ViewChanged(ERROR_INVALID_PARAM, half)
      else ViewChanged(SUCCESS, half.(methods := half.methods[UNSUBSCRIBE := BuiltIn],
                                      processEventSubscriptions := true))
  }

  function ViewSubscription(obj: ObjectView, event: CString, subscriber: CString, added: bool,
                            overrideResult: int32): ViewChanged
  {
    if |subscriber| >= MAX_OBJECT_NAME || |event| >= MAX_EVENT_NAME then ViewChanged(ERROR_INVALID_PARAM, obj)
    else if obj.override.Some? && overrideResult != SUBSCRIBE_NOT_HANDLED then ViewChanged(overrideResult, obj)
    else if event !in obj.events then ViewChanged(ERROR_UNSUPPORTED_EVENT, obj)
    else ViewChanged(SUCCESS, obj.(events := obj.events[event := Apply(obj.events[event], subscriber, added)]))
  }

  function ViewChange(obj: ObjectView, op: Op): ViewChanged
    requires !BadArguments(op) && OnExistingObject(op)
  {
    match op
    case RegisterMethod(_, name, handler) =>
      if |obj.methods| >= MAX_METHODS then ViewChanged(ERROR_OUT_OF_RESOURCES, obj)
      else if name in obj.methods then ViewChanged(ERROR_INVALID_PARAM, obj)
      else ViewChanged(SUCCESS, obj.(methods := obj.methods[name := handler]))
    case UnregisterMethod(_, name) =>
      if name in obj.methods then ViewChanged(SUCCESS, obj.(methods := obj.methods - {name}))
      else ViewChanged(ERROR_GENERAL, obj)
    case RegisterEvent(_, event, callback) =>
      ViewInstall(if NameOf(event) in obj.events then obj
                  else obj.(events := obj.events[NameOf(event) := Event([], callback, [])]))
    case UnregisterEvent(_, event) =>
      if NameOf(event) in obj.events then ViewChanged(SUCCESS, obj.(events := obj.events - {NameOf(event)}))
      else ViewChanged(ERROR_INVALID_PARAM, obj)
    case RegisterSubscribeHandler(_, callback) => ViewInstall(obj.(override := callback))
    case HandleSubscription(_, event, subscriber, added, overrideResult) =>
      ViewSubscription(obj, event, subscriber, added, overrideResult)
  }

  function ViewStep(m: map<CString, ObjectView>, op: Op): ViewOutcome {
    if BadArguments(op) then ViewOutcome(ERROR_INVALID_PARAM, m)
    else
      var name := ObjectOf(op);
      match op
      case RegisterObj(_, base, transportOk) =>
        if name in m then ViewOutcome(ERROR_INVALID_PARAM, m)
        else if !transportOk then ViewOutcome(ERROR_GENERAL, m)
        else ViewOutcome(SUCCESS, m[name := ObjectView(base, map[], map[], false, None)])
      case UnregisterObj(_, transportOk) =>
        if !transportOk || name !in m then ViewOutcome(ERROR_GENERAL, m)
        else ViewOutcome(SUCCESS, m - {name})
      case _ =>
        if name !in m then ViewOutcome(ERROR_INVALID_PARAM, m)
        else ViewOutcome(ViewChange(m[name], op).rc, m[name := ViewChange(m[name], op).obj])
  }

  function ViewRun(ops: seq<Op>): Trace<map<CString, ObjectView>> {
    if |ops| == 0 then Trace([], map[])
    else
      var before := ViewRun(ops[..|ops| - 1]);
      var last := ViewStep(before.final, ops[|ops| - 1]);
      Trace(before.codes + [last.rc], last.objects)
  }

  // ---- Refinement -------------------------------------------------------------------------

  ghost predicate ObjectInv(obj: ServerObject) {
    && Keyed(obj.methods, MAX_METHOD_NAME) && |obj.methods| <= MAX_METHODS
    && Keyed(obj.events, MAX_EVENT_NAME)
    && (forall i :: 0 <= i < |obj.events| ==> Consistent(obj.events[i].val))
  }

  ghost predicate Inv(objects: Objects) {
    && Keyed(objects, MAX_OBJECT_NAME)
    && (forall i :: 0 <= i < |objects| ==> 0 < |objects[i].name| && ObjectInv(objects[i].val))
  }

  function ViewOf(obj: ServerObject): ObjectView {
    ObjectView(obj.base, Contents(obj.methods), Contents(obj.events), obj.processEventSubscriptions, obj.override)
  }

  function Views(objects: Objects): seq<Named<ObjectView>> {
    seq(|objects|, i requires 0 <= i < |objects| => Named(objects[i].name, ViewOf(objects[i].val)))
  }

  function View(objects: Objects): map<CString, ObjectView> {
    Contents(Views(objects))
  }

  lemma ViewLookup(objects: Objects, name: CString)
    requires Keyed(objects, MAX_OBJECT_NAME)
    ensures Has(objects, name, MAX_OBJECT_NAME) <==> name in View(objects)
    ensures Has(objects, name, MAX_OBJECT_NAME) ==>
              var i := Find(objects, name, MAX_OBJECT_NAME);
              objects[i].name == name && View(objects)[name] == ViewOf(objects[i].val)
  {
    var views := Views(objects);
    SearchIsLookup(views, name, MAX_OBJECT_NAME);
    BoundedSearchIsExact(objects, name, MAX_OBJECT_NAME);
    BoundedSearchIsExact(views, name, MAX_OBJECT_NAME);
    if Has(objects, name, MAX_OBJECT_NAME) {
      var i := Find(objects, name, MAX_OBJECT_NAME);
      assert views[i].name == name;
      FindAt(views, i, MAX_OBJECT_NAME);
    }
  }

  lemma ViewsSet(objects: Objects, i: nat, obj: ServerObject)
    requires i < |objects|
    ensures Views(SetAt(objects, i, obj)) == SetAt(Views(objects), i, ViewOf(obj))
  {
  }

  lemma ViewsRemove(objects: Objects, i: nat)
    requires i < |objects|
    ensures Views(RemoveAt(objects, i)) == RemoveAt(Views(objects), i)
  {
  }

  lemma ViewsPush(objects: Objects, name: CString, obj: ServerObject)
    ensures Views(objects + [Named(name, obj)]) == Views(objects) + [Named(name, ViewOf(obj))]
  {
  }

  lemma ViewsKeyed(objects: Objects)
    requires Keyed(objects, MAX_OBJECT_NAME)
    ensures Keyed(Views(objects), MAX_OBJECT_NAME)
  {
  }

  lemma InvSet(objects: Objects, i: nat, obj: ServerObject)
    requires Inv(objects) && i < |objects| && ObjectInv(obj)
    ensures Inv(SetAt(objects, i, obj))
  {
    SetAtUpdates(objects, i, obj, MAX_OBJECT_NAME);
  }

  lemma ViewSet(objects: Objects, i: nat, obj: ServerObject)
    requires Inv(objects) && i < |objects|
    ensures View(SetAt(objects, i, obj)) == View(objects)[objects[i].name := ViewOf(obj)]
  {
    ViewsKeyed(objects);
    SetAtUpdates(Views(objects), i, ViewOf(obj), MAX_OBJECT_NAME);
    ViewsSet(objects, i, obj);
  }

  lemma ViewPush(objects: Objects, name: CString, obj: ServerObject)
    requires Inv(objects) && !Has(objects, name, MAX_OBJECT_NAME) && 0 < |name| < MAX_OBJECT_NAME && ObjectInv(obj)
    ensures Inv(objects + [Named(name, obj)])
    ensures View(objects + [Named(name, obj)]) == View(objects)[name := ViewOf(obj)]
  {
    ViewLookup(objects, name);
    ViewsKeyed(objects);
    SearchIsLookup(Views(objects), name, MAX_OBJECT_NAME);
    PushUpdates(objects, name, obj, MAX_OBJECT_NAME);
    PushUpdates(Views(objects), name, ViewOf(obj), MAX_OBJECT_NAME);
    ViewsPush(objects, name, obj);
  }

  lemma InvRemove(objects: Objects, i: nat)
    requires Inv(objects) && i < |objects|
    ensures Inv(RemoveAt(objects, i))
  {
    RemoveKeepsKeyed(objects, i, MAX_OBJECT_NAME);
    var after := RemoveAt(objects, i);
    assert forall j :: 0 <= j < |after| ==> after[j] == objects[if j < i then j else j + 1];
  }

  lemma ViewRemove(objects: Objects, i: nat)
    requires Inv(objects) && i < |objects|
    ensures View(RemoveAt(objects, i)) == View(objects) - {objects[i].name}
  {
    ViewsKeyed(objects);
    RemoveDeletes(Views(objects), i, MAX_OBJECT_NAME);
    ViewsRemove(objects, i);
  }

  lemma BoundIsLookup(obj: ServerObject, name: CString)
    requires ObjectInv(obj)
    ensures Bound(obj, name) <==> name in ViewOf(obj).methods && ViewOf(obj).methods[name] == BuiltIn
  {
    SearchIsLookup(obj.methods, name, MAX_METHOD_NAME);
  }

  lemma AddMethodRefines(obj: ServerObject, name: CString, handler: Handler)
    requires ObjectInv(obj) && |name| < MAX_METHOD_NAME
    ensures var after := AddMethod(obj, name, handler);
            && ObjectInv(after.obj)
            && |ViewOf(obj).methods| == |obj.methods|
            && (Has(obj.methods, name, MAX_METHOD_NAME) <==> name in ViewOf(obj).methods)
            && (after.rc == SUCCESS ==>
                  ViewOf(after.obj) == ViewOf(obj).(methods := ViewOf(obj).methods[name := handler])
                  && |after.obj.methods| == |obj.methods| + 1)
  {
    SizeOf(obj.methods, MAX_METHOD_NAME);
    SearchIsLookup(obj.methods, name, MAX_METHOD_NAME);
    if AddMethod(obj, name, handler).rc == SUCCESS {
      PushUpdates(obj.methods, name, handler, MAX_METHOD_NAME);
    }
  }

  lemma InstallRefines(obj: ServerObject)
    requires ObjectInv(obj)
    ensures ObjectInv(EnsureInstalled(obj).obj)
    ensures ViewInstall(ViewOf(obj)) == ViewChanged(EnsureInstalled(obj).rc, ViewOf(EnsureInstalled(obj).obj))
  {
    AddMethodRefines(obj, SUBSCRIBE, BuiltIn);
    var first := AddMethod(obj, SUBSCRIBE, BuiltIn);
    assert SUBSCRIBE != UNSUBSCRIBE;
    if first.rc == SUCCESS {
      AddMethodRefines(first.obj, UNSUBSCRIBE, BuiltIn);
    }
  }

  lemma AddEventRefines(obj: ServerObject, event: CString, callback: Option<nat>)
    requires ObjectInv(obj) && |event| < MAX_EVENT_NAME
    ensures var after := AddEvent(obj, event, callback);
            ObjectInv(after.obj)
            && ViewInstall(if event in ViewOf(obj).events then ViewOf(obj)
                           else ViewOf(obj).(events := ViewOf(obj).events[event := Event([], callback, [])]))
               == ViewChanged(after.rc, ViewOf(after.obj))
  {
    WithEventRefines(obj, event, callback);
    InstallRefines(WithEvent(obj, event, callback));
  }

  lemma WithEventRefines(obj: ServerObject, event: CString, callback: Option<nat>)
    requires ObjectInv(obj) && |event| < MAX_EVENT_NAME
    ensures var after := WithEvent(obj, event, callback);
            ObjectInv(after)
            && ViewOf(after) == if event in ViewOf(obj).events then ViewOf(obj)
                                else ViewOf(obj).(events := ViewOf(obj).events[event := Event([], callback, [])])
  {
    SearchIsLookup(obj.events, event, MAX_EVENT_NAME);
    if !Has(obj.events, event, MAX_EVENT_NAME) {
      PushUpdates(obj.events, event, Event([], callback, []), MAX_EVENT_NAME);
      PushConsistent(obj.events, event, callback);
    }
  }

  lemma PushConsistent(events: seq<Named<Event>>, event: CString, callback: Option<nat>)
    requires forall i :: 0 <= i < |events| ==> Consistent(events[i].val)
    ensures var after := events + [Named(event, Event([], callback, []))];
            forall i :: 0 <= i < |after| ==> Consistent(after[i].val)
  {
    NotificationHistory(callback, []);
  }

  lemma ListenerChangeRefines(obj: ServerObject, i: nat, subscriber: CString, added: bool)
    requires ObjectInv(obj) && i < |obj.events|
    ensures var after := obj.(events := SetAt(obj.events, i, Apply(obj.events[i].val, subscriber, added)));
            ObjectInv(after)
            && ViewOf(after) == ViewOf(obj).(events := ViewOf(obj).events[
                 obj.events[i].name := Apply(obj.events[i].val, subscriber, added)])
  {
    ApplyConsistent(obj.events[i].val, subscriber, added);
    SetAtUpdates(obj.events, i, Apply(obj.events[i].val, subscriber, added), MAX_EVENT_NAME);
  }

  lemma SubscriptionRefines(obj: ServerObject, event: CString, subscriber: CString, added: bool, overrideResult: int32)
    requires ObjectInv(obj)
    ensures var after := Subscription(obj, event, subscriber, added, overrideResult);
            ObjectInv(after.obj)
            && ViewSubscription(ViewOf(obj), event, subscriber, added, overrideResult)
               == ViewChanged(after.rc, ViewOf(after.obj))
  {
    SearchIsLookup(obj.events, event, MAX_EVENT_NAME);
    if Has(obj.events, event, MAX_EVENT_NAME) {
      ListenerChangeRefines(obj, Find(obj.events, event, MAX_EVENT_NAME), subscriber, added);
    }
  }

  lemma DropMethodRefines(obj: ServerObject, name: CString)
    requires ObjectInv(obj)
    ensures ObjectInv(DropMethod(obj, name).obj)
    ensures name in ViewOf(obj).methods <==> DropMethod(obj, name).rc == SUCCESS
    ensures name in ViewOf(obj).methods ==>
              ViewOf(DropMethod(obj, name).obj) == ViewOf(obj).(methods := ViewOf(obj).methods - {name})
  {
    SearchIsLookup(obj.methods, name, MAX_METHOD_NAME);
    if Has(obj.methods, name, MAX_METHOD_NAME) {
      RemoveDeletes(obj.methods, Find(obj.methods, name, MAX_METHOD_NAME), MAX_METHOD_NAME);
    }
  }

  lemma DropEventRefines(obj: ServerObject, name: CString)
    requires ObjectInv(obj)
    ensures ObjectInv(DropEvent(obj, name).obj)
    ensures name in ViewOf(obj).events <==> DropEvent(obj, name).rc == SUCCESS
    ensures name in ViewOf(obj).events ==>
              ViewOf(DropEvent(obj, name).obj) == ViewOf(obj).(events := ViewOf(obj).events - {name})
  {
    SearchIsLookup(obj.events, name, MAX_EVENT_NAME);
    if Has(obj.events, name, MAX_EVENT_NAME) {
      RemoveDeletes(obj.events, Find(obj.events, name, MAX_EVENT_NAME), MAX_EVENT_NAME);
    }
  }

  lemma ChangeRefines(obj: ServerObject, op: Op)
    requires ObjectInv(obj) && !BadArguments(op) && OnExistingObject(op)
    ensures ObjectInv(Change(obj, op).obj)
    ensures ViewChange(ViewOf(obj), op) == ViewChanged(Change(obj, op).rc, ViewOf(Change(obj, op).obj))
  {
    match op
    case RegisterMethod(_, name, handler) => AddMethodRefines(obj, name, handler);
    case UnregisterMethod(_, name) => DropMethodRefines(obj, name);
    case RegisterEvent(_, event, callback) => AddEventRefines(obj, NameOf(event), callback);
    case UnregisterEvent(_, event) => DropEventRefines(obj, NameOf(event));
    case RegisterSubscribeHandler(_, callback) => InstallRefines(obj.(override := callback));
    case HandleSubscription(_, event, subscriber, added, overrideResult) =>
      SubscriptionRefines(obj, event, subscriber, added, overrideResult);
  }

  lemma StepOnObject(objects: Objects, i: nat, op: Op)
    requires Keyed(objects, MAX_OBJECT_NAME) && i < |objects|
    requires !BadArguments(op) && OnExistingObject(op) && ObjectOf(op) == objects[i].name
    ensures Step(objects, op)
            == Outcome(Change(objects[i].val, op).rc, SetAt(objects, i, Change(objects[i].val, op).obj))
  {
    FindAt(objects, i, MAX_OBJECT_NAME);
  }

  /** One call: same answer, same change, and the vectors stay keyed by short, different names. */
  lemma StepRefines(objects: Objects, op: Op)
    requires Inv(objects)
    ensures Inv(Step(objects, op).objects)
    ensures ViewStep(View(objects), op) == ViewOutcome(Step(objects, op).rc, View(Step(objects, op).objects))
  {
    if !BadArguments(op) {
      var name := ObjectOf(op);
      ViewLookup(objects, name);
      var i := Find(objects, name, MAX_OBJECT_NAME);
      match op
      case RegisterObj(_, base, transportOk) =>
        if i == |objects| && transportOk {
          ViewPush(objects, name, ServerObject(base, [], [], false, None));
        }
      case UnregisterObj(_, transportOk) =>
        if i < |objects| && transportOk {
          InvRemove(objects, i);
          ViewRemove(objects, i);
        }
      case _ =>
        if i < |objects| {
          ChangeRefines(objects[i].val, op);
          InvSet(objects, i, Change(objects[i].val, op).obj);
          ViewSet(objects, i, Change(objects[i].val, op).obj);
        }
    }
  }

  /** Every run of calls answers and acts as if each table were a finite map keyed by full names,
      although the process searches vectors and compares only a bounded prefix of each name. */
  lemma {:induction false} RegistryRefinesMaps(ops: seq<Op>)
    ensures Inv(Run(ops).final)
    ensures ViewRun(ops) == Trace(Run(ops).codes, View(Run(ops).final))
  {
    if |ops| == 0 {
    } else {
      RegistryRefinesMaps(ops[..|ops| - 1]);
      StepRefines(Run(ops[..|ops| - 1]).final, ops[|ops| - 1]);
    }
  }
}
