/** From the provider's own calls to the protocol: which registrations make subscriptions safe, and
    which ones, although they report success, do not. */
module ProtocolStart {
  import opened Bytes
  import opened BusTypes
  import opened Vectors
  import opened Protocol
  import opened ProtocolExact
  import RegistryTheorems
  import RegistryRuns

  /** The protocol at the moment when the provider has made its calls and nothing has been asked. */
  function Start(objects: Registry.Objects): World {
    World(map[], map[], [], {}, {}, map[], Contents(objects), map[])
  }

  predicate NoOverrides(objects: Registry.Objects) {
    forall i :: 0 <= i < |objects| ==> objects[i].val.override.None?
  }

  lemma OnlyObjects(objects: Registry.Objects, name: CString)
    requires Keyed(objects, MAX_OBJECT_NAME) && name in Contents(objects)
    ensures exists i :: 0 <= i < |objects| && objects[i] == Named(name, Contents(objects)[name])
  {
    SearchIsLookup(objects, name, MAX_OBJECT_NAME);
    var i := Find(objects, name, MAX_OBJECT_NAME);
    assert objects[i] == Named(name, Contents(objects)[name]);
  }

  /** Every run of registry calls without override handlers is a start. */
  lemma RegistryStarts(ops: seq<Registry.Op>)
    requires NoOverrides(Registry.Run(ops).final)
    ensures Initial(Start(Registry.Run(ops).final))
  {
    var objects := Registry.Run(ops).final;
    Registry.RegistryRefinesMaps(ops);
    forall target <- Contents(objects)
      ensures Registry.ObjectInv(Contents(objects)[target]) && Contents(objects)[target].override.None?
    {
      OnlyObjects(objects, target);
    }
  }

  /** A provider that leaves the reserved names alone and whose objects all claim to process
      subscriptions is safe for every client that uses one name per object, in every run. */
  lemma FlaggedProviderIsSafe(ops: seq<Registry.Op>, cfg: Config, steps: seq<Step>)
    requires forall op <- ops :: !RegistryTheorems.UnregistersReserved(op)
    requires NoOverrides(Registry.Run(ops).final)
    requires forall i :: 0 <= i < |Registry.Run(ops).final| ==> Registry.Run(ops).final[i].val.processEventSubscriptions
    requires OneName(cfg, Start(Registry.Run(ops).final))
    ensures Served(cfg, Start(Registry.Run(ops).final)) && InstalledWhereUsed(cfg, Start(Registry.Run(ops).final))
    ensures Safe(cfg, Run(cfg, Start(Registry.Run(ops).final), steps))
  {
    var objects := Registry.Run(ops).final;
    RegistryStarts(ops);
    Registry.RegistryRefinesMaps(ops);
    forall target <- Contents(objects) ensures Installed(Start(objects), target) {
      OnlyObjects(objects, target);
      var i :| 0 <= i < |objects| && objects[i] == Named(target, Contents(objects)[target]);
      RegistryTheorems.FlagImpliesBothHandlers(ops, i);
    }
    Safety(cfg, Start(objects), steps);
  }

  /** A provider with a single object. */
  lemma OneObject(objects: Registry.Objects, target: CString, event: CString, client: Address)
    requires Registry.Inv(objects) && |objects| == 1 && objects[0].name == target && objects[0].val.override.None?
    requires event in Contents(objects[0].val.events) && |client| < MAX_OBJECT_NAME
    ensures Initial(Start(objects)) && Answerable(Start(objects), client, target, event)
    ensures forall name: CString :: Binds(Start(objects), target, name) <==> Registry.Bound(objects[0].val, name)
    ensures IsListener(Start(objects), target, event, client)
            <==> client in Contents(objects[0].val.events)[event].listeners
  {
    assert objects[..0] == [];
    assert Contents(objects) == map[target := objects[0].val];
    SearchIsLookup(objects[0].val.events, event, MAX_EVENT_NAME);
  }

  /** A provider whose last event registration reported success, and a client that subscribes and
      unsubscribes without any fault: it stays listed for good. */
  lemma HalfInstallationStrands(cfg: Config, target: CString, base: nat, event: CString, callback: Option<nat>,
                                client: Address, answer: int32)
    returns (ops: seq<Registry.Op>)
    requires 0 < |target| < MAX_OBJECT_NAME && |event| < MAX_EVENT_NAME && |client| < MAX_OBJECT_NAME
    requires cfg.route(target) == target && cfg.uses(client, target, event)
    ensures var codes := Registry.Run(ops).codes;
            |codes| > 0 && codes[|codes| - 1] == SUCCESS
    ensures var w := Run(cfg, Start(Registry.Run(ops).final),
                         [Subscribe(client, target, event, 0), Deliver(client, target, SUCCESS)]
                         + [Unsubscribe(client, target, event), Deliver(client, target, answer)]);
            IsListener(w, target, event, client) && !HasEntry(w, client, target, event)
  {
    ops := HalfInstalledStart(target, base, event, callback, client);
    HalfInstalledStaysListed(cfg, Start(Registry.Run(ops).final), client, target, event, answer);
  }

  lemma HalfInstalledStart(target: CString, base: nat, event: CString, callback: Option<nat>, client: Address)
    returns (ops: seq<Registry.Op>)
    requires 0 < |target| < MAX_OBJECT_NAME && |event| < MAX_EVENT_NAME && |client| < MAX_OBJECT_NAME
    ensures var codes := Registry.Run(ops).codes;
            |codes| > 0 && codes[|codes| - 1] == SUCCESS
    ensures var start := Start(Registry.Run(ops).final);
            && Initial(start) && Answerable(start, client, target, event)
            && Binds(start, target, SUBSCRIBE) && !Binds(start, target, UNSUBSCRIBE)
  {
    ops := RegistryRuns.HalfInstallationArises(target, base, event, callback);
    Registry.RegistryRefinesMaps(ops);
    var objects := Registry.Run(ops).final;
    OneObject(objects, target, event, client);
    Registry.BoundIsLookup(objects[0].val, UNSUBSCRIBE);
  }

  /** A provider whose event registration failed for lack of room still offers the event; a client
      whose request its base callback answers with success holds a settled entry and is not listed. */
  lemma MissingHandlerStrands(cfg: Config, target: CString, base: nat, event: CString, callback: Option<nat>,
                              client: Address)
    returns (ops: seq<Registry.Op>)
    requires 0 < |target| < MAX_OBJECT_NAME && |event| < MAX_EVENT_NAME && |client| < MAX_OBJECT_NAME
    requires cfg.route(target) == target && cfg.uses(client, target, event)
    ensures var start := Start(Registry.Run(ops).final);
            var w := Run(cfg, start, SubscribeRound(client, target, event, 0, target, 0));
            && Answerable(start, client, target, event)
            && Settled(w, client, target, event) && !IsListener(w, target, event, client)
  {
    ops := RegistryRuns.EventWithoutHandlerArises(target, base, event, callback);
    Registry.RegistryRefinesMaps(ops);
    var objects := Registry.Run(ops).final;
    OneObject(objects, target, event, client);
    Registry.BoundIsLookup(objects[0].val, SUBSCRIBE);
    UnservedIsUnsafe(cfg, Start(objects), client, target, event);
  }
}
