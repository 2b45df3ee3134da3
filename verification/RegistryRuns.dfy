/** Runs of registry calls that end with an event whose requests do not all reach the built-in
    subscription handler. */
module RegistryRuns {
  import opened Bytes
  import opened BusTypes
  import opened Vectors
  import opened Registry
  import opened RegistryTheorems

  /** Methods with the one-byte names 1, 2, ..., n. */
  function FilledMethods(n: nat): (r: seq<Named<Handler>>)
    requires n <= MAX_METHODS
    ensures |r| == n && forall i :: 0 <= i < n ==> r[i] == Named([i + 1], App(i + 1))
  {
    if n == 0 then [] else FilledMethods(n - 1) + [Named([n], App(n))]
  }

  function FilledObject(base: nat, n: nat): ServerObject
    requires n <= MAX_METHODS
  {
    ServerObject(base, FilledMethods(n), [], false, None)
  }

  lemma FilledIsGood(base: nat, n: nat, name: CString)
    requires n <= MAX_METHODS && |name| < MAX_METHOD_NAME
    ensures ObjectInv(FilledObject(base, n))
    ensures |name| != 1 || name[0] > n ==> name !in ViewOf(FilledObject(base, n)).methods
                                           && !Has(FilledMethods(n), name, MAX_METHOD_NAME)
  {
    var methods := FilledMethods(n);
    assert Keyed(methods, MAX_METHOD_NAME);
    SearchIsLookup(methods, name, MAX_METHOD_NAME);
  }

  lemma FillNext(base: nat, n: nat)
    requires 0 < n <= MAX_METHODS
    ensures AddMethod(FilledObject(base, n - 1), [n], App(n)) == Changed(SUCCESS, FilledObject(base, n))
  {
    FilledIsGood(base, n - 1, [n]);
  }

  lemma RunPush(ops: seq<Op>, op: Op)
    ensures Run(ops + [op]) == Trace(Run(ops).codes + [Step(Run(ops).final, op).rc], Step(Run(ops).final, op).objects)
  {
    assert (ops + [op])[..|ops|] == ops;
  }

  lemma StepOnOnly(target: CString, obj: ServerObject, op: Op)
    requires |target| < MAX_OBJECT_NAME && !BadArguments(op) && OnExistingObject(op) && ObjectOf(op) == target
    ensures Step([Named(target, obj)], op) == Outcome(Change(obj, op).rc, [Named(target, Change(obj, op).obj)])
  {
    StepOnObject([Named(target, obj)], 0, op);
  }

  lemma EventOnOnly(ops: seq<Op>, target: CString, obj: ServerObject, event: CString, callback: Option<nat>)
    requires Run(ops).final == [Named(target, obj)] && |target| < MAX_OBJECT_NAME && |event| < MAX_EVENT_NAME
    ensures var after := AddEvent(obj, event, callback);
            Run(ops + [RegisterEvent(Some(target), Some(event), callback)])
            == Trace(Run(ops).codes + [after.rc], [Named(target, after.obj)])
  {
    var op := RegisterEvent(Some(target), Some(event), callback);
    RunPush(ops, op);
    StepOnOnly(target, obj, op);
  }

  lemma MethodOnOnly(ops: seq<Op>, target: CString, obj: ServerObject, name: CString, handler: Handler)
    requires Run(ops).final == [Named(target, obj)] && |target| < MAX_OBJECT_NAME && |name| < MAX_METHOD_NAME
    ensures var after := AddMethod(obj, name, handler);
            Run(ops + [RegisterMethod(target, name, handler)])
            == Trace(Run(ops).codes + [after.rc], [Named(target, after.obj)])
  {
    var op := RegisterMethod(target, name, handler);
    RunPush(ops, op);
    StepOnOnly(target, obj, op);
  }

  lemma DropOnOnly(ops: seq<Op>, target: CString, obj: ServerObject, name: CString)
    requires Run(ops).final == [Named(target, obj)] && |target| < MAX_OBJECT_NAME
    ensures var after := DropMethod(obj, name);
            Run(ops + [UnregisterMethod(target, name)])
            == Trace(Run(ops).codes + [after.rc], [Named(target, after.obj)])
  {
    var op := UnregisterMethod(target, name);
    RunPush(ops, op);
    StepOnOnly(target, obj, op);
  }

  lemma ObjectAlone(target: CString, base: nat)
    requires 0 < |target| < MAX_OBJECT_NAME
    ensures Run([RegisterObj(Some(target), base, true)])
            == Trace([SUCCESS], [Named(target, ServerObject(base, [], [], false, None))])
  {
    var op := RegisterObj(Some(target), base, true);
    var obj := ServerObject(base, [], [], false, None);
    RunPush([], op);
    assert [] + [op] == [op];
    assert Run([]) == Trace([], []);
    assert Step([], op) == Outcome(SUCCESS, [Named(target, obj)]);
  }

  /** Registering an object and one method after another. */
  lemma {:induction false} FillRun(target: CString, base: nat, n: nat) returns (ops: seq<Op>)
    requires 0 < |target| < MAX_OBJECT_NAME && n <= MAX_METHODS
    ensures Run(ops).final == [Named(target, FilledObject(base, n))]
  {
    if n == 0 {
      ObjectAlone(target, base);
      ops := [RegisterObj(Some(target), base, true)];
    } else {
      var before := FillRun(target, base, n - 1);
      MethodOnOnly(before, target, FilledObject(base, n - 1), [n], App(n));
      FillNext(base, n);
      ops := before + [RegisterMethod(target, [n], App(n))];
    }
  }

  /** A run of calls that ends with success and half an installation: an object is filled up to one
      method below the limit, and then the event is registered twice. */
  lemma HalfInstallationArises(target: CString, base: nat, event: CString, callback: Option<nat>)
    returns (ops: seq<Op>)
    requires 0 < |target| < MAX_OBJECT_NAME && |event| < MAX_EVENT_NAME
    ensures var trace := Run(ops);
            && |trace.codes| > 0 && trace.codes[|trace.codes| - 1] == SUCCESS
            && |trace.final| == 1 && trace.final[0].name == target
            && var obj := trace.final[0].val;
            && event in ViewOf(obj).events && Bound(obj, SUBSCRIBE) && UNSUBSCRIBE !in ViewOf(obj).methods
            && obj.override.None?
  {
    var n := MAX_METHODS - 1;
    var fill := FillRun(target, base, n);
    var op := RegisterEvent(Some(target), Some(event), callback);
    FilledIsGood(base, n, SUBSCRIBE);
    FilledIsGood(base, n, UNSUBSCRIBE);
    HalfInstalledReportsSuccess(FilledObject(base, n), event, callback);
    EventTwice(fill, target, FilledObject(base, n), event, callback);
    ops := fill + [op] + [op];
  }

  lemma EventTwice(ops: seq<Op>, target: CString, obj: ServerObject, event: CString, callback: Option<nat>)
    requires Run(ops).final == [Named(target, obj)] && |target| < MAX_OBJECT_NAME && |event| < MAX_EVENT_NAME
    ensures var op, first := RegisterEvent(Some(target), Some(event), callback), AddEvent(obj, event, callback);
            var second := AddEvent(first.obj, event, callback);
            Run(ops + [op] + [op]) == Trace(Run(ops).codes + [first.rc] + [second.rc], [Named(target, second.obj)])
  {
    EventOnOnly(ops, target, obj, event, callback);
    EventOnOnly(ops + [RegisterEvent(Some(target), Some(event), callback)], target,
                AddEvent(obj, event, callback).obj, event, callback);
  }

  /** A run of calls that leaves an event on offer at an object without any handler for it. */
  lemma EventWithoutHandlerArises(target: CString, base: nat, event: CString, callback: Option<nat>)
    returns (ops: seq<Op>)
    requires 0 < |target| < MAX_OBJECT_NAME && |event| < MAX_EVENT_NAME
    ensures var final := Run(ops).final;
            && |final| == 1 && final[0].name == target
            && event in ViewOf(final[0].val).events && ViewOf(final[0].val).events[event].listeners == []
            && SUBSCRIBE !in ViewOf(final[0].val).methods && final[0].val.override.None?
  {
    var n := MAX_METHODS;
    var fill := FillRun(target, base, n);
    FilledIsGood(base, n, SUBSCRIBE);
    FullObjectKeepsEvent(FilledObject(base, n), event, callback);
    EventOnOnly(fill, target, FilledObject(base, n), event, callback);
    ops := fill + [RegisterEvent(Some(target), Some(event), callback)];
  }

  /** An application's own `_subscribe` method stays in place, and the event registration reports
      success. */
  lemma OwnSubscribeMethodStays(target: CString, base: nat, own: nat, event: CString, callback: Option<nat>)
    requires 0 < |target| < MAX_OBJECT_NAME && |event| < MAX_EVENT_NAME
    ensures var trace := Run([RegisterObj(Some(target), base, true)] + [RegisterMethod(target, SUBSCRIBE, App(own))]
                             + [RegisterEvent(Some(target), Some(event), callback)]);
            && |trace.codes| == 3 && trace.codes[2] == SUCCESS
            && |trace.final| == 1 && event in ViewOf(trace.final[0].val).events
            && ViewOf(trace.final[0].val).methods == map[SUBSCRIBE := App(own)]
  {
    var ops, bare := [RegisterObj(Some(target), base, true)], ServerObject(base, [], [], false, None);
    var obj := AddMethod(bare, SUBSCRIBE, App(own)).obj;
    ObjectAlone(target, base);
    MethodOnOnly(ops, target, bare, SUBSCRIBE, App(own));
    OwnMethodCounts(bare, own, event, callback);
    EventOnOnly(ops + [RegisterMethod(target, SUBSCRIBE, App(own))], target, obj, event, callback);
  }

  lemma OwnMethodCounts(obj: ServerObject, own: nat, event: CString, callback: Option<nat>)
    requires ObjectInv(obj) && |event| < MAX_EVENT_NAME && !obj.processEventSubscriptions && obj.methods == []
    ensures var with := AddMethod(obj, SUBSCRIBE, App(own));
            var after := AddEvent(with.obj, event, callback);
            && with.rc == SUCCESS && after.rc == SUCCESS && event in ViewOf(after.obj).events
            && ViewOf(after.obj).methods == map[SUBSCRIBE := App(own)]
  {
    AddMethodRefines(obj, SUBSCRIBE, App(own));
    AddEventRefines(AddMethod(obj, SUBSCRIBE, App(own)).obj, event, callback);
  }

  /** A flagged object whose `_subscribe` method was unregistered stays flagged, so that a later
      event registration installs nothing and reports success. */
  lemma FlagOutlivesHandler(target: CString, base: nat, event: CString, callback: Option<nat>)
    requires 0 < |target| < MAX_OBJECT_NAME && |event| < MAX_EVENT_NAME
    ensures var register := RegisterEvent(Some(target), Some(event), callback);
            var trace := Run([RegisterObj(Some(target), base, true)] + [register]
                             + [UnregisterMethod(target, SUBSCRIBE)] + [register]);
            && |trace.codes| == 4 && trace.codes[3] == SUCCESS && |trace.final| == 1
            && var obj := trace.final[0].val;
            && event in ViewOf(obj).events && obj.processEventSubscriptions && SUBSCRIBE !in ViewOf(obj).methods
  {
    var ops, bare := [RegisterObj(Some(target), base, true)], ServerObject(base, [], [], false, None);
    var register := RegisterEvent(Some(target), Some(event), callback);
    var flagged := AddEvent(bare, event, callback);
    var dropped := DropMethod(flagged.obj, SUBSCRIBE);
    ObjectAlone(target, base);
    FlagStays(bare, event, callback);
    EventOnOnly(ops, target, bare, event, callback);
    DropOnOnly(ops + [register], target, flagged.obj, SUBSCRIBE);
    EventOnOnly(ops + [register] + [UnregisterMethod(target, SUBSCRIBE)], target, dropped.obj, event, callback);
  }

  lemma FirstInstallation(obj: ServerObject, event: CString, callback: Option<nat>)
    requires ObjectInv(obj) && |event| < MAX_EVENT_NAME && !obj.processEventSubscriptions && obj.methods == []
    ensures var after := AddEvent(obj, event, callback);
            after.rc == SUCCESS && ObjectInv(after.obj) && after.obj.processEventSubscriptions
  {
    AddEventRefines(obj, event, callback);
    assert |ViewOf(obj).methods| == 0;
  }

  lemma NothingToInstall(obj: ServerObject, event: CString, callback: Option<nat>)
    requires ObjectInv(obj) && |event| < MAX_EVENT_NAME && obj.processEventSubscriptions
    ensures var after := AddEvent(obj, event, callback);
            && after.rc == SUCCESS && after.obj.processEventSubscriptions && after.obj.methods == obj.methods
            && event in ViewOf(after.obj).events
  {
    WithEventRefines(obj, event, callback);
  }

  lemma FlagStays(obj: ServerObject, event: CString, callback: Option<nat>)
    requires ObjectInv(obj) && |event| < MAX_EVENT_NAME && !obj.processEventSubscriptions && obj.methods == []
    ensures var dropped := DropMethod(AddEvent(obj, event, callback).obj, SUBSCRIBE).obj;
            var after := AddEvent(dropped, event, callback);
            && after.rc == SUCCESS && after.obj.processEventSubscriptions
            && event in ViewOf(after.obj).events && SUBSCRIBE !in ViewOf(after.obj).methods
  {
    FirstInstallation(obj, event, callback);
    var flagged := AddEvent(obj, event, callback).obj;
    DropMethodRefines(flagged, SUBSCRIBE);
    NothingToInstall(DropMethod(flagged, SUBSCRIBE).obj, event, callback);
  }
}
