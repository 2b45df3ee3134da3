/** The clients' tables over whole runs of the protocol, whatever names the clients use. */
module ProtocolTables {
  import opened Bytes
  import opened BusTypes
  import opened ClientTable
  import opened Protocol

  /** An entry belongs to a subscribe call for it that is still waiting or has returned SUCCESS. */
  predicate Accounted(w: World, client: Address, name: CString, event: CString) {
    HasEntry(w, client, name, event) ==>
      && (client, name, event) in w.owners
      && var id := w.owners[(client, name, event)];
      && id < |w.requests| && w.requests[id] == Request(client, name, event, true)
      && (id in w.outstanding || id in w.granted)
  }

  lemma FinishAccounted(w: World, id: nat, ok: bool, c: Address, n: CString, e: CString)
    requires TablesInv(w) && Accounted(w, c, n, e) && id < |w.requests|
    ensures TablesInv(Finish(w, id, ok)) && Accounted(Finish(w, id, ok), c, n, e)
  {
    var r := w.requests[id];
    var done := w.(outstanding := w.outstanding - {id});
    SameTables(w, done);
    SameTables(w, done.(granted := w.granted + {id}));
    assert HasEntry(done, c, n, e) <==> HasEntry(w, c, n, e);
    if r.activate && !ok {
      DropTables(done, r.client, r.name, r.event);
      assert TableInv(TableOf(done, r.client));
      DropHasEntry(done, r.client, r.name, r.event, c, n, e);
    }
  }

  lemma SendAccounted(w: World, r: Request, target: CString, c: Address, n: CString, e: CString)
    requires TablesInv(w)
    requires Accounted(w, c, n, e)
             || (r == Request(c, n, e, true) && (c, n, e) in w.owners && w.owners[(c, n, e)] == |w.requests|)
    ensures TablesInv(Send(w, r, target)) && Accounted(Send(w, r, target), c, n, e)
  {
    var w' := Send(w, r, target);
    SameTables(w, w');
    assert HasEntry(w', c, n, e) <==> HasEntry(w, c, n, e);
  }

  lemma SubscribeAccounted(cfg: Config, w: World, client: Address, name: CString, event: CString, callback: nat,
                           c: Address, n: CString, e: CString)
    requires TablesInv(w) && Accounted(w, c, n, e) && !HasEntry(w, client, name, event)
    requires |name| < MAX_OBJECT_NAME && |event| < MAX_EVENT_NAME
    ensures var w' := Send(PutEntry(w, client, name, event, callback), Request(client, name, event, true),
                           cfg.route(name));
            TablesInv(w') && Accounted(w', c, n, e)
  {
    assert TableInv(TableOf(w, client));
    PutTables(w, client, name, event, callback);
    PutHasEntry(w, client, name, event, callback, c, n, e);
    var put := PutEntry(w, client, name, event, callback);
    SendAccounted(put, Request(client, name, event, true), cfg.route(name), c, n, e);
  }

  lemma UnsubscribeAccounted(cfg: Config, w: World, client: Address, name: CString, event: CString,
                             c: Address, n: CString, e: CString)
    requires TablesInv(w) && Accounted(w, c, n, e)
    ensures var w' := Send(DropEntry(w, client, name, event), Request(client, name, event, false), cfg.route(name));
            TablesInv(w') && Accounted(w', c, n, e)
  {
    assert TableInv(TableOf(w, client));
    DropTables(w, client, name, event);
    DropHasEntry(w, client, name, event, c, n, e);
    SendAccounted(DropEntry(w, client, name, event), Request(client, name, event, false), cfg.route(name), c, n, e);
  }

  lemma NextAccounted(cfg: Config, w: World, step: Step, c: Address, n: CString, e: CString)
    requires TablesInv(w) && Accounted(w, c, n, e)
    ensures TablesInv(Next(cfg, w, step)) && Accounted(Next(cfg, w, step), c, n, e)
  {
    var w' := Next(cfg, w, step);
    if w' != w {
      match step
      case Subscribe(client, name, event, callback) =>
        SubscribeAccounted(cfg, w, client, name, event, callback, c, n, e);
      case Unsubscribe(client, name, event) =>
        UnsubscribeAccounted(cfg, w, client, name, event, c, n, e);
      case Deliver(_, _, _) =>
        SameTables(w, w');
      case Lose(_, _) =>
        SameTables(w, w');
      case Return(id) =>
        FinishAccounted(w, id, w.replies[id] == SUCCESS, c, n, e);
      case GiveUp(id) =>
        FinishAccounted(w, id, false, c, n, e);
    }
  }

  /** In every run, with any names and any faults: the tables have unique object names, no object
      without events and unique event names per object, and every entry is accounted for. */
  lemma {:induction false} TablesStaySound(cfg: Config, w: World, steps: seq<Step>)
    requires Initial(w)
    ensures TablesInv(Run(cfg, w, steps))
    ensures forall c: Address, n: CString, e: CString :: Accounted(Run(cfg, w, steps), c, n, e)
  {
    if |steps| == 0 {
    } else {
      var before := Run(cfg, w, steps[..|steps| - 1]);
      TablesStaySound(cfg, w, steps[..|steps| - 1]);
      forall c: Address, n: CString, e: CString
        ensures TablesInv(Run(cfg, w, steps)) && Accounted(Run(cfg, w, steps), c, n, e)
      {
        assert Accounted(before, c, n, e);
        NextAccounted(cfg, before, steps[|steps| - 1], c, n, e);
      }
      assert Accounted(before, [], [], []);
      NextAccounted(cfg, before, steps[|steps| - 1], [], [], []);
    }
  }

  /** When no call is waiting, every entry is settled; so, with one name per object, every entry
      made at the built-in handler of an object is listed there. */
  lemma EntriesSettle(cfg: Config, w: World, steps: seq<Step>, client: Address, name: CString, event: CString)
    requires Initial(w) && OneName(cfg, w)
    requires Run(cfg, w, steps).outstanding == {} && HasEntry(Run(cfg, w, steps), client, name, event)
    ensures Settled(Run(cfg, w, steps), client, name, event)
    ensures Binds(w, cfg.route(name), SUBSCRIBE) ==> IsListener(Run(cfg, w, steps), cfg.route(name), event, client)
  {
    TablesStaySound(cfg, w, steps);
    assert Accounted(Run(cfg, w, steps), client, name, event);
    if Binds(w, cfg.route(name), SUBSCRIBE) {
      RunKeeps(cfg, w, steps);
      RunOffers(cfg, w, steps);
      SettledIsListed(cfg, Run(cfg, w, steps), client, name, event);
    }
  }

  function EntryCallback(w: World, client: Address, name: CString, event: CString): nat
    requires HasEntry(w, client, name, event)
  {
    CallbackOf(TableOf(w, client), name, event)
  }

  /** What is left in the tables kept its callback, and what is new has that of the call. */
  lemma PutCallback(w: World, client: Address, name: CString, event: CString, callback: nat,
                    c: Address, n: CString, e: CString)
    requires TablesInv(w) && !HasEntry(w, client, name, event)
    requires |name| < MAX_OBJECT_NAME && |event| < MAX_EVENT_NAME
    requires HasEntry(PutEntry(w, client, name, event, callback), c, n, e)
    ensures var after := EntryCallback(PutEntry(w, client, name, event, callback), c, n, e);
            if (c, n, e) == (client, name, event) then after == callback
            else HasEntry(w, c, n, e) && after == EntryCallback(w, c, n, e)
  {
    assert TableInv(TableOf(w, client));
    AddEffect(TableOf(w, client), name, event, callback, n, e);
  }

  lemma DropCallback(w: World, client: Address, name: CString, event: CString, c: Address, n: CString, e: CString)
    requires TablesInv(w) && HasEntry(DropEntry(w, client, name, event), c, n, e)
    ensures HasEntry(w, c, n, e)
    ensures EntryCallback(DropEntry(w, client, name, event), c, n, e) == EntryCallback(w, c, n, e)
  {
    assert TableInv(TableOf(w, client));
    RemoveEffect(TableOf(w, client), name, event, n, e);
  }

  lemma NextCallback(cfg: Config, w: World, step: Step, c: Address, n: CString, e: CString)
    requires TablesInv(w) && HasEntry(Next(cfg, w, step), c, n, e)
    ensures var after := EntryCallback(Next(cfg, w, step), c, n, e);
            step == Subscribe(c, n, e, after) || (HasEntry(w, c, n, e) && after == EntryCallback(w, c, n, e))
  {
    if Next(cfg, w, step) != w {
      match step
      case Subscribe(client, name, event, callback) =>
        PutCallback(w, client, name, event, callback, c, n, e);
      case Unsubscribe(client, name, event) =>
        DropCallback(w, client, name, event, c, n, e);
      case Return(id) =>
        FinishCallback(w, id, w.replies[id] == SUCCESS, c, n, e);
      case GiveUp(id) =>
        FinishCallback(w, id, false, c, n, e);
      case _ =>
    }
  }

  lemma FinishCallback(w: World, id: nat, ok: bool, c: Address, n: CString, e: CString)
    requires TablesInv(w) && id < |w.requests| && HasEntry(Finish(w, id, ok), c, n, e)
    ensures HasEntry(w, c, n, e) && EntryCallback(Finish(w, id, ok), c, n, e) == EntryCallback(w, c, n, e)
  {
    var r, done := w.requests[id], w.(outstanding := w.outstanding - {id});
    if r.activate && !ok {
      SameTables(w, done);
      DropCallback(done, r.client, r.name, r.event, c, n, e);
    }
  }

  /** The callback of an entry is the one that some subscribe call for exactly that entry gave. */
  lemma {:induction false} EntryFromCall(cfg: Config, w: World, steps: seq<Step>, c: Address, n: CString, e: CString)
    requires Initial(w) && HasEntry(Run(cfg, w, steps), c, n, e)
    ensures Subscribe(c, n, e, EntryCallback(Run(cfg, w, steps), c, n, e)) in steps
  {
    if |steps| == 0 {
    } else {
      var before := steps[..|steps| - 1];
      TablesStaySound(cfg, w, before);
      NextCallback(cfg, Run(cfg, w, before), steps[|steps| - 1], c, n, e);
      if HasEntry(Run(cfg, w, before), c, n, e) {
        EntryFromCall(cfg, w, before, c, n, e);
      }
    }
  }

  /** The two ends of a client's call in the protocol leave the tables that the call itself leaves: the
      old one, order included, when it fails or gives up, and one entry more when it succeeds. */
  lemma FailedCallLeavesNoTrace(cfg: Config, w: World, client: Address, name: CString, event: CString, callback: nat)
    requires TablesInv(w) && !HasEntry(w, client, name, event) && cfg.uses(client, name, event)
    requires |name| < MAX_OBJECT_NAME && |event| < MAX_EVENT_NAME
    ensures var asked := Next(cfg, w, Subscribe(client, name, event, callback));
            && TableOf(asked, client) == AddEntry(TableOf(w, client), name, event, callback)
            && TableOf(Next(cfg, asked, GiveUp(|w.requests|)), client) == TableOf(w, client)
  {
    assert TableInv(TableOf(w, client));
    RollbackIsExact(TableOf(w, client), name, event, callback);
    var put, r := PutEntry(w, client, name, event, callback), Request(client, name, event, true);
    var asked := Next(cfg, w, Subscribe(client, name, event, callback));
    assert asked == Send(put, r, cfg.route(name));
    GiveUpRemoves(cfg, asked, |w.requests|, r);
  }

  lemma GiveUpRemoves(cfg: Config, w: World, id: nat, r: Request)
    requires id in w.outstanding && id < |w.requests| && w.requests[id] == r && r.activate
    ensures TableOf(Next(cfg, w, GiveUp(id)), r.client) == RemoveEntry(TableOf(w, r.client), r.name, r.event)
  {
  }

  // ---- A second caller --------------------------------------------------------------------

  /** Some subscribe call for this entry has not returned yet. */
  predicate Waiting(w: World, client: Address, name: CString, event: CString) {
    exists id <- w.outstanding :: id < |w.requests| && w.requests[id] == Request(client, name, event, true)
  }

  predicate LeavesAlone(steps: seq<Step>, client: Address, name: CString, event: CString) {
    forall i :: 0 <= i < |steps| ==> steps[i] != Unsubscribe(client, name, event)
  }

  lemma FinishKeepsEntry(w: World, id: nat, ok: bool, client: Address, name: CString, event: CString)
    requires TablesInv(w) && HasEntry(w, client, name, event) && !Waiting(w, client, name, event)
    requires id in w.outstanding && id < |w.requests|
    ensures var w' := Finish(w, id, ok);
            TablesInv(w') && HasEntry(w', client, name, event) && !Waiting(w', client, name, event)
  {
    var r := w.requests[id];
    var done := w.(outstanding := w.outstanding - {id});
    SameTables(w, done);
    SameTables(w, done.(granted := w.granted + {id}));
    if r.activate && !ok {
      DropTables(done, r.client, r.name, r.event);
      assert TableInv(TableOf(done, r.client));
      DropHasEntry(done, r.client, r.name, r.event, client, name, event);
    }
  }

  lemma SendKeepsEntry(w: World, r: Request, target: CString, client: Address, name: CString, event: CString)
    requires TablesInv(w) && HasEntry(w, client, name, event) && !Waiting(w, client, name, event)
    requires r != Request(client, name, event, true)
    ensures var w' := Send(w, r, target);
            TablesInv(w') && HasEntry(w', client, name, event) && !Waiting(w', client, name, event)
  {
    SameTables(w, Send(w, r, target));
  }

  lemma AskKeepsEntry(cfg: Config, w: World, step: Step, client: Address, name: CString, event: CString)
    requires TablesInv(w) && HasEntry(w, client, name, event) && !Waiting(w, client, name, event)
    requires step != Unsubscribe(client, name, event) && (step.Subscribe? || step.Unsubscribe?)
    ensures var w' := Next(cfg, w, step);
            TablesInv(w') && HasEntry(w', client, name, event) && !Waiting(w', client, name, event)
  {
    if Next(cfg, w, step) != w {
      assert TableInv(TableOf(w, step.client));
      match step
      case Subscribe(c, n, e, callback) =>
        PutTables(w, c, n, e, callback);
        PutHasEntry(w, c, n, e, callback, client, name, event);
        SendKeepsEntry(PutEntry(w, c, n, e, callback), Request(c, n, e, true), cfg.route(n), client, name, event);
      case Unsubscribe(c, n, e) =>
        DropTables(w, c, n, e);
        DropHasEntry(w, c, n, e, client, name, event);
        SendKeepsEntry(DropEntry(w, c, n, e), Request(c, n, e, false), cfg.route(n), client, name, event);
    }
  }

  lemma NextKeepsEntry(cfg: Config, w: World, step: Step, client: Address, name: CString, event: CString)
    requires TablesInv(w) && HasEntry(w, client, name, event) && !Waiting(w, client, name, event)
    requires step != Unsubscribe(client, name, event)
    ensures var w' := Next(cfg, w, step);
            TablesInv(w') && HasEntry(w', client, name, event) && !Waiting(w', client, name, event)
  {
    var w' := Next(cfg, w, step);
    if step.Subscribe? || step.Unsubscribe? {
      AskKeepsEntry(cfg, w, step, client, name, event);
    } else if w' != w {
      match step
      case Return(id) =>
        FinishKeepsEntry(w, id, w.replies[id] == SUCCESS, client, name, event);
      case GiveUp(id) =>
        FinishKeepsEntry(w, id, false, client, name, event);
      case _ =>
        SameTables(w, w');
    }
  }

  lemma {:induction false} RunKeepsEntry(cfg: Config, w: World, steps: seq<Step>,
                                         client: Address, name: CString, event: CString)
    requires TablesInv(w) && HasEntry(w, client, name, event) && !Waiting(w, client, name, event)
    requires LeavesAlone(steps, client, name, event)
    ensures var w' := Run(cfg, w, steps);
            TablesInv(w') && HasEntry(w', client, name, event) && !Waiting(w', client, name, event)
  {
    if |steps| == 0 {
    } else {
      var before := steps[..|steps| - 1];
      RunKeepsEntry(cfg, w, before, client, name, event);
      NextKeepsEntry(cfg, Run(cfg, w, before), steps[|steps| - 1], client, name, event);
    }
  }

  lemma GiveUpTakesEntry(cfg: Config, w: World, id: nat, client: Address, name: CString, event: CString)
    requires TablesInv(w) && id in w.outstanding && id < |w.requests|
    requires w.requests[id] == Request(client, name, event, true)
    ensures !HasEntry(Run(cfg, w, [GiveUp(id)]), client, name, event)
  {
    RunThree(cfg, w, GiveUp(id), GiveUp(id), GiveUp(id));
    var done := w.(outstanding := w.outstanding - {id});
    assert TableInv(TableOf(w, client));
    DropHasEntry(done, client, name, event, client, name, event);
  }

  /** A subscribe call that finds the entry is told SUCCESS at once. Its entry is there until
      somebody unsubscribes, whatever else happens, if and only if no other subscribe call for it
      was still waiting at that moment. */
  lemma SecondCallerIsKept(cfg: Config, w0: World, before: seq<Step>, client: Address, name: CString, event: CString)
    requires Initial(w0) && HasEntry(Run(cfg, w0, before), client, name, event)
    ensures var w := Run(cfg, w0, before);
            (forall steps: seq<Step> | LeavesAlone(steps, client, name, event) ::
               HasEntry(Run(cfg, w, steps), client, name, event))
            <==> !Waiting(w, client, name, event)
  {
    var w := Run(cfg, w0, before);
    TablesStaySound(cfg, w0, before);
    if Waiting(w, client, name, event) {
      var id :| id in w.outstanding && id < |w.requests| && w.requests[id] == Request(client, name, event, true);
      GiveUpTakesEntry(cfg, w, id, client, name, event);
      assert LeavesAlone([GiveUp(id)], client, name, event);
    } else {
      forall steps: seq<Step> | LeavesAlone(steps, client, name, event)
        ensures HasEntry(Run(cfg, w, steps), client, name, event)
      {
        RunKeepsEntry(cfg, w, steps, client, name, event);
      }
    }
  }

  /** The failing run: the second call changes nothing and is told SUCCESS, the first one gives up
      and takes the entry of both. */
  lemma SecondCallerCanLose(cfg: Config, w: World, client: Address, name: CString, event: CString,
                            first: nat, second: nat)
    requires Initial(w) && cfg.uses(client, name, event) && |name| < MAX_OBJECT_NAME && |event| < MAX_EVENT_NAME
    ensures var w1 := Next(cfg, w, Subscribe(client, name, event, first));
            && HasEntry(w1, client, name, event) && Next(cfg, w1, Subscribe(client, name, event, second)) == w1
            && !HasEntry(Run(cfg, w1, [GiveUp(0)]), client, name, event)
  {
    var w1 := Next(cfg, w, Subscribe(client, name, event, first));
    PutHasEntry(w, client, name, event, first, client, name, event);
    PutTables(w, client, name, event, first);
    SameTables(PutEntry(w, client, name, event, first), w1);
    GiveUpTakesEntry(cfg, w1, 0, client, name, event);
  }
}
