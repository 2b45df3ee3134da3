/** The subscription protocol when nothing is lost and nobody gives up: then the client's table
    and the provider's lists say the same. */
module ProtocolExact {
  import opened Bytes
  import opened BusTypes
  import opened ClientTable
  import opened Protocol

  predicate Faultless(step: Step) {
    !step.Lose? && !step.GiveUp?
  }

  predicate AllFaultless(steps: seq<Step>) {
    forall i :: 0 <= i < |steps| ==> Faultless(steps[i])
  }

  /** Subscribe and unsubscribe requests to this object both reach the built-in handler. */
  predicate Installed(w: World, target: CString) {
    Binds(w, target, SUBSCRIBE) && Binds(w, target, UNSUBSCRIBE)
  }

  /** Whether the client will be listed once everything on the channel has been handled. */
  predicate Fate(requests: seq<Request>, q: seq<nat>, event: CString, now: bool) {
    if |q| == 0 then now
    else
      var last := q[|q| - 1];
      if last < |requests| && requests[last].event == event then requests[last].activate
      else Fate(requests, q[..|q| - 1], event, now)
  }

  lemma {:induction false} FateHead(requests: seq<Request>, q: seq<nat>, event: CString, now: bool)
    requires |q| > 0 && q[0] < |requests|
    ensures Fate(requests, q, event, now)
            == Fate(requests, q[1..], event, if requests[q[0]].event == event then requests[q[0]].activate else now)
  {
    if |q| == 1 {
      assert q[..0] == [] && q[1..] == [];
    } else {
      FateHead(requests, q[..|q| - 1], event, now);
      assert q[..|q| - 1][1..] == q[1..][..|q| - 2];
    }
  }

  lemma {:induction false} FateFrame(requests: seq<Request>, r: Request, q: seq<nat>, event: CString, now: bool)
    requires forall i :: 0 <= i < |q| ==> q[i] < |requests|
    ensures Fate(requests + [r], q, event, now) == Fate(requests, q, event, now)
  {
    if |q| > 0 {
      FateFrame(requests, r, q[..|q| - 1], event, now);
    }
  }

  lemma FatePush(requests: seq<Request>, r: Request, q: seq<nat>, event: CString, now: bool)
    requires forall i :: 0 <= i < |q| ==> q[i] < |requests|
    ensures Fate(requests + [r], q + [|requests|], event, now)
            == if r.event == event then r.activate else Fate(requests, q, event, now)
  {
    var q' := q + [|requests|];
    assert q'[..|q'| - 1] == q;
    FateFrame(requests, r, q, event, now);
  }

  ghost predicate ExactOk(cfg: Config, w: World, client: Address, name: CString, event: CString) {
    var target := cfg.route(name);
    cfg.uses(client, name, event) && |name| < MAX_OBJECT_NAME && Answerable(w, client, target, event)
    && Installed(w, target) ==>
      (HasEntry(w, client, name, event)
       <==> Fate(w.requests, Channel(w, client, target), event, IsListener(w, target, event, client)))
  }

  ghost predicate Exact(cfg: Config, w: World) {
    forall client: Address, name: CString, event: CString :: ExactOk(cfg, w, client, name, event)
  }

  /** Sending one request about (client, name, event), after making the entry say the same. */
  lemma SendExact(cfg: Config, w: World, w1: World, r: Request, c: Address, n: CString, e: CString)
    requires Inv(cfg, w) && ExactOk(cfg, w, c, n, e)
    requires w1 == w.(tables := w1.tables, owners := w1.owners)
    requires cfg.uses(r.client, r.name, r.event) && |r.name| < MAX_OBJECT_NAME
    requires HasEntry(w1, c, n, e)
             <==> if (c, n, e) == (r.client, r.name, r.event) then r.activate else HasEntry(w, c, n, e)
    ensures ExactOk(cfg, Send(w1, r, cfg.route(r.name)), c, n, e)
  {
    var target := cfg.route(n);
    var w' := Send(w1, r, cfg.route(r.name));
    assert ChannelOk(cfg, w, c, target);
    var q, now := Channel(w, c, target), IsListener(w, target, e, c);
    assert HasEntry(w', c, n, e) <==> HasEntry(w1, c, n, e);
    assert Answerable(w', c, target, e) <==> Answerable(w, c, target, e);
    assert Installed(w', target) <==> Installed(w, target);
    assert IsListener(w', target, e, c) == now;
    if c == r.client && target == cfg.route(r.name) {
      assert Channel(w', c, target) == q + [|w.requests|];
      FatePush(w.requests, r, q, e, now);
    } else {
      assert Channel(w', c, target) == q;
      FateFrame(w.requests, r, q, e, now);
    }
  }

  lemma DropExact(cfg: Config, w: World, client: Address, name: CString, event: CString,
                  c: Address, n: CString, e: CString)
    requires Inv(cfg, w) && ExactOk(cfg, w, c, n, e)
    requires !(Answerable(w, client, cfg.route(name), event) && Installed(w, cfg.route(name)))
    ensures ExactOk(cfg, DropEntry(w, client, name, event), c, n, e)
  {
    assert TableInv(TableOf(w, client));
    DropHasEntry(w, client, name, event, c, n, e);
    var w' := DropEntry(w, client, name, event);
    assert Channel(w', c, cfg.route(n)) == Channel(w, c, cfg.route(n));
    assert Answerable(w', c, cfg.route(n), e) <==> Answerable(w, c, cfg.route(n), e);
  }

  lemma DeliverExact(cfg: Config, w: World, client: Address, target: CString, answer: int32,
                     c: Address, n: CString, e: CString)
    requires Inv(cfg, w) && ExactOk(cfg, w, c, n, e) && |Channel(w, client, target)| > 0 && target in w.provider
    ensures ExactOk(cfg, Next(cfg, w, Deliver(client, target, answer)), c, n, e)
  {
    var w', q := Next(cfg, w, Deliver(client, target, answer)), Channel(w, client, target);
    DeliverFacts(cfg, w, client, target, answer, c, cfg.route(n), e);
    assert HasEntry(w', c, n, e) <==> HasEntry(w, c, n, e);
    if c == client && cfg.route(n) == target {
      FateHead(w.requests, q, e, IsListener(w, target, e, c));
    }
  }

  /** A delivery, as seen by one client, one object and one event. */
  lemma DeliverFacts(cfg: Config, w: World, client: Address, target: CString, answer: int32,
                     c: Address, t: CString, e: CString)
    requires TransportInv(cfg, w) && |Channel(w, client, target)| > 0 && target in w.provider
    ensures Channel(w, client, target)[0] < |w.requests|
    ensures var w', q := Next(cfg, w, Deliver(client, target, answer)), Channel(w, client, target);
            var r := w.requests[q[0]];
            && w'.tables == w.tables && w'.requests == w.requests && q[0] in w'.replies
            && w'.replies == w.replies[q[0] := w'.replies[q[0]]]
            && Channel(w', c, t) == (if (c, t) == (client, target) then q[1..] else Channel(w, c, t))
            && (Offered(w', t, e) <==> Offered(w, t, e)) && (Installed(w', t) <==> Installed(w, t))
            && (Answerable(w, c, t, e) && Installed(w, t) ==>
                  (IsListener(w', t, e, c)
                   <==> if (c, t, e) == (client, target, r.event) then r.activate else IsListener(w, t, e, c)))
  {
    assert ChannelOk(cfg, w, client, target);
    var q := Channel(w, client, target);
    assert Between(cfg, w.requests[q[0]], client, target);
    HandleOffers(cfg, w, target, q[0], answer);
    var handled := Handle(w, target, q[0], answer);
    var w' := Pop(handled, client, target);
    assert Next(cfg, w, Deliver(client, target, answer)) == w';
    SameProvider(handled, w');
  }

  lemma NextExact(cfg: Config, w: World, step: Step, c: Address, n: CString, e: CString)
    requires Inv(cfg, w) && ExactOk(cfg, w, c, n, e) && Faultless(step)
    ensures ExactOk(cfg, Next(cfg, w, step), c, n, e)
  {
    if step.Subscribe? && Next(cfg, w, step) != w {
      var Subscribe(client, name, event, callback) := step;
      assert TableInv(TableOf(w, client));
      PutHasEntry(w, client, name, event, callback, c, n, e);
      SendExact(cfg, w, PutEntry(w, client, name, event, callback), Request(client, name, event, true), c, n, e);
    } else if step.Unsubscribe? && Next(cfg, w, step) != w {
      var Unsubscribe(client, name, event) := step;
      assert TableInv(TableOf(w, client));
      DropHasEntry(w, client, name, event, c, n, e);
      SendExact(cfg, w, DropEntry(w, client, name, event), Request(client, name, event, false), c, n, e);
    } else if step.Deliver? && |Channel(w, step.client, step.target)| > 0 && step.target in w.provider {
      DeliverExact(cfg, w, step.client, step.target, step.answer, c, n, e);
    } else if step.Return? && Next(cfg, w, step) != w {
      ReturnExact(cfg, w, step.id, c, n, e);
    }
  }

  lemma ReturnExact(cfg: Config, w: World, id: nat, c: Address, n: CString, e: CString)
    requires Inv(cfg, w) && ExactOk(cfg, w, c, n, e) && id in w.replies && id < |w.requests|
    ensures ExactOk(cfg, Finish(w, id, w.replies[id] == SUCCESS), c, n, e)
  {
    var r := w.requests[id];
    assert ReplyOk(cfg, w, id);
    var done := w.(outstanding := w.outstanding - {id});
    SameCoreExact(cfg, w, done, c, n, e);
    SameCoreExact(cfg, w, done.(granted := w.granted + {id}), c, n, e);
    if r.activate && w.replies[id] != SUCCESS {
      SameCoreKeeps(cfg, w, done);
      DropExact(cfg, done, r.client, r.name, r.event, c, n, e);
    }
  }

  lemma SameCoreExact(cfg: Config, w: World, w': World, c: Address, n: CString, e: CString)
    requires ExactOk(cfg, w, c, n, e) && w' == w.(outstanding := w'.outstanding, granted := w'.granted)
    ensures ExactOk(cfg, w', c, n, e)
  {
  }

  lemma {:induction false} RunExact(cfg: Config, w: World, steps: seq<Step>)
    requires Initial(w) && OneName(cfg, w) && NobodyListed(w) && AllFaultless(steps)
    ensures Inv(cfg, Run(cfg, w, steps)) && Exact(cfg, Run(cfg, w, steps))
  {
    RunKeeps(cfg, w, steps);
    if |steps| == 0 {
    } else {
      var before := steps[..|steps| - 1];
      RunExact(cfg, w, before);
      var mid := Run(cfg, w, before);
      forall c: Address, n: CString, e: CString ensures ExactOk(cfg, Run(cfg, w, steps), c, n, e) {
        assert ExactOk(cfg, mid, c, n, e);
        NextExact(cfg, mid, steps[|steps| - 1], c, n, e);
      }
    }
  }

  /** Without faults, and with nothing on its way to an object that has both handlers installed, a
      client holds an entry exactly if the provider lists it. */
  lemma TablesAgree(cfg: Config, w: World, steps: seq<Step>, client: Address, name: CString, event: CString)
    requires Initial(w) && OneName(cfg, w) && NobodyListed(w) && AllFaultless(steps)
    requires cfg.uses(client, name, event) && |name| < MAX_OBJECT_NAME
    requires Answerable(w, client, cfg.route(name), event) && Installed(w, cfg.route(name))
    requires Idle(Run(cfg, w, steps), client, cfg.route(name))
    ensures HasEntry(Run(cfg, w, steps), client, name, event)
            <==> IsListener(Run(cfg, w, steps), cfg.route(name), event, client)
  {
    RunExact(cfg, w, steps);
    RunOffers(cfg, w, steps);
    assert ExactOk(cfg, Run(cfg, w, steps), client, name, event);
  }

  // ---- The exact condition for agreement --------------------------------------------------

  /** Half an installation: whoever subscribes and unsubscribes without any fault stays listed, and
      holds no entry, whatever the application answers. */
  lemma HalfInstalledStaysListed(cfg: Config, w: World, client: Address, name: CString, event: CString, answer: int32)
    requires Initial(w) && cfg.uses(client, name, event) && |name| < MAX_OBJECT_NAME
    requires Answerable(w, client, cfg.route(name), event)
    requires Binds(w, cfg.route(name), SUBSCRIBE) && !Binds(w, cfg.route(name), UNSUBSCRIBE)
    ensures var target := cfg.route(name);
            var w' := Run(cfg, w, [Subscribe(client, name, event, 0), Deliver(client, target, SUCCESS)]
                                  + [Unsubscribe(client, name, event), Deliver(client, target, answer)]);
            && Idle(w', client, target) && Answerable(w', client, target, event)
            && IsListener(w', target, event, client) && !HasEntry(w', client, name, event)
  {
    var target := cfg.route(name);
    var subscribe, deliver := Subscribe(client, name, event, 0), Deliver(client, target, SUCCESS);
    var cancel, last := Unsubscribe(client, name, event), Deliver(client, target, answer);
    SubscribeDelivered(cfg, w, client, name, event);
    var w1 := Run(cfg, w, [subscribe, deliver]);
    RunConcat(cfg, w, [subscribe, deliver], [cancel, last]);
    RunThree(cfg, w1, cancel, last, cancel);
    CancelSends(cfg, w1, client, name, event);
    DeliverOnly(cfg, Next(cfg, w1, cancel), client, target, |w1.requests|, answer);
  }

  lemma NextKeepsListed(cfg: Config, w: World, step: Step, client: Address, target: CString, event: CString)
    requires ProviderOk(w) && !Binds(w, target, UNSUBSCRIBE) && IsListener(w, target, event, client)
    ensures IsListener(Next(cfg, w, step), target, event, client)
  {
    if step.Deliver? {
      DeliverOffers(cfg, w, step.client, step.target, step.answer);
    } else {
      OnlyDeliveriesAct(cfg, w, step);
    }
  }

  /** And nothing that happens later, faults included, takes it off the list again. */
  lemma {:induction false} HalfInstalledListsForGood(cfg: Config, w: World, steps: seq<Step>,
                                                     client: Address, target: CString, event: CString)
    requires ProviderOk(w) && !Binds(w, target, UNSUBSCRIBE) && IsListener(w, target, event, client)
    ensures IsListener(Run(cfg, w, steps), target, event, client)
  {
    if |steps| == 0 {
    } else {
      var before := steps[..|steps| - 1];
      HalfInstalledListsForGood(cfg, w, before, client, target, event);
      RunOffers(cfg, w, before);
      NextKeepsListed(cfg, Run(cfg, w, before), steps[|steps| - 1], client, target, event);
    }
  }

  lemma SubscribeDelivered(cfg: Config, w: World, client: Address, name: CString, event: CString)
    requires Initial(w) && cfg.uses(client, name, event) && |name| < MAX_OBJECT_NAME
    requires Answerable(w, client, cfg.route(name), event)
    ensures var target := cfg.route(name);
            var w' := Run(cfg, w, [Subscribe(client, name, event, 0), Deliver(client, target, SUCCESS)]);
            && RoundReady(cfg, w', client, name, event) && SameOffers(w, w')
            && (forall n: CString :: HasEntry(w', client, n, event) <==> n == name)
            && (IsListener(w', target, event, client)
                <==> Binds(w, target, SUBSCRIBE) || IsListener(w, target, event, client))
  {
    var target := cfg.route(name);
    EventNameShort(w, target, event);
    RunThree(cfg, w, Subscribe(client, name, event, 0), Deliver(client, target, SUCCESS), Return(0));
    AskAndDeliver(cfg, w, client, name, event, 0);
    OneEntry(name, event);
  }

  lemma OneEntry(name: CString, event: CString)
    requires |name| < MAX_OBJECT_NAME && |event| < MAX_EVENT_NAME
    ensures TableInv(AddEntry([], name, event, 0))
    ensures forall n: CString :: Subscribed(AddEntry([], name, event, 0), n, event) <==> n == name
  {
    forall n: CString
      ensures TableInv(AddEntry([], name, event, 0))
      ensures Subscribed(AddEntry([], name, event, 0), n, event) <==> n == name
    {
      AddEffect([], name, event, 0, n, event);
    }
    AddInv([], name, event, 0);
  }

  lemma CancelSends(cfg: Config, w: World, client: Address, name: CString, event: CString)
    requires RoundReady(cfg, w, client, name, event)
    ensures var w' := Next(cfg, w, Unsubscribe(client, name, event));
            && !HasEntry(w', client, name, event) && w'.provider == w.provider
            && Channel(w', client, cfg.route(name)) == [|w.requests|]
            && w'.requests == w.requests + [Request(client, name, event, false)]
  {
    SendOnIdle(DropEntry(w, client, name, event), Request(client, name, event, false), cfg.route(name));
    DropHasEntry(w, client, name, event, client, name, event);
  }

  /** With nothing on its way, the client's table and the provider's list contradict each other. */
  predicate DisagreesAbout(cfg: Config, w: World, client: Address, name: CString, event: CString) {
    && cfg.uses(client, name, event) && |name| < MAX_OBJECT_NAME && Answerable(w, client, cfg.route(name), event)
    && Idle(w, client, cfg.route(name))
    && HasEntry(w, client, name, event) != IsListener(w, cfg.route(name), event, client)
  }

  ghost predicate Agree(cfg: Config, w: World) {
    forall client: Address, name: CString, event: CString :: !DisagreesAbout(cfg, w, client, name, event)
  }

  ghost predicate InstalledWhereUsed(cfg: Config, w: World) {
    forall client: Address, name: CString, event: CString
      | cfg.uses(client, name, event) && |name| < MAX_OBJECT_NAME && Answerable(w, client, cfg.route(name), event)
      :: Installed(w, cfg.route(name))
  }

  lemma FaultlessPair(a: Step, b: Step)
    requires Faultless(a) && Faultless(b)
    ensures AllFaultless([a, b])
  {
  }

  lemma FaultlessConcat(s: seq<Step>, t: seq<Step>)
    requires AllFaultless(s) && AllFaultless(t)
    ensures AllFaultless(s + t)
  {
  }

  lemma MissingHandlerDisagrees(cfg: Config, w: World, client: Address, name: CString, event: CString)
    returns (steps: seq<Step>)
    requires Initial(w) && NobodyListed(w) && cfg.uses(client, name, event) && |name| < MAX_OBJECT_NAME
    requires Answerable(w, client, cfg.route(name), event) && !Installed(w, cfg.route(name))
    ensures AllFaultless(steps) && !Agree(cfg, Run(cfg, w, steps))
  {
    if Binds(w, cfg.route(name), SUBSCRIBE) {
      steps := HalfInstalledDisagrees(cfg, w, client, name, event);
    } else {
      steps := UnservedDisagrees(cfg, w, client, name, event);
    }
  }

  lemma HalfInstalledDisagrees(cfg: Config, w: World, client: Address, name: CString, event: CString)
    returns (steps: seq<Step>)
    requires Initial(w) && cfg.uses(client, name, event) && |name| < MAX_OBJECT_NAME
    requires Answerable(w, client, cfg.route(name), event)
    requires Binds(w, cfg.route(name), SUBSCRIBE) && !Binds(w, cfg.route(name), UNSUBSCRIBE)
    ensures AllFaultless(steps) && DisagreesAbout(cfg, Run(cfg, w, steps), client, name, event)
  {
    var target := cfg.route(name);
    var subscribe, cancel, deliver :=
      Subscribe(client, name, event, 0), Unsubscribe(client, name, event), Deliver(client, target, SUCCESS);
    steps := [subscribe, deliver] + [cancel, deliver];
    FaultlessPair(subscribe, deliver);
    FaultlessPair(cancel, deliver);
    FaultlessConcat([subscribe, deliver], [cancel, deliver]);
    HalfInstalledStaysListed(cfg, w, client, name, event, SUCCESS);
  }

  lemma UnservedDisagrees(cfg: Config, w: World, client: Address, name: CString, event: CString)
    returns (steps: seq<Step>)
    requires Initial(w) && NobodyListed(w) && cfg.uses(client, name, event) && |name| < MAX_OBJECT_NAME
    requires Answerable(w, client, cfg.route(name), event) && !Binds(w, cfg.route(name), SUBSCRIBE)
    ensures AllFaultless(steps) && DisagreesAbout(cfg, Run(cfg, w, steps), client, name, event)
  {
    var subscribe, deliver := Subscribe(client, name, event, 0), Deliver(client, cfg.route(name), SUCCESS);
    steps := [subscribe, deliver];
    FaultlessPair(subscribe, deliver);
    SubscribeDelivered(cfg, w, client, name, event);
  }

  lemma SecondNameDisagrees(cfg: Config, w: World, client: Address, name: CString, name': CString, event: CString)
    returns (steps: seq<Step>)
    requires Initial(w) && cfg.uses(client, name, event) && cfg.uses(client, name', event) && name != name'
    requires |name| < MAX_OBJECT_NAME && |name'| < MAX_OBJECT_NAME && cfg.route(name) == cfg.route(name')
    requires Answerable(w, client, cfg.route(name), event) && Binds(w, cfg.route(name), SUBSCRIBE)
    ensures AllFaultless(steps) && DisagreesAbout(cfg, Run(cfg, w, steps), client, name', event)
  {
    var subscribe, deliver := Subscribe(client, name, event, 0), Deliver(client, cfg.route(name), SUCCESS);
    steps := [subscribe, deliver];
    FaultlessPair(subscribe, deliver);
    SubscribeDelivered(cfg, w, client, name, event);
  }

  /** The exact condition: tables and lists agree in every faultless run if and only if no client
      uses two names for one event of one object and every object they subscribe at has both
      handlers installed. */
  lemma AgreeIffOneNameAndInstalled(cfg: Config, w: World)
    requires Initial(w) && NobodyListed(w)
    ensures (forall steps: seq<Step> | AllFaultless(steps) :: Agree(cfg, Run(cfg, w, steps)))
            <==> OneName(cfg, w) && InstalledWhereUsed(cfg, w)
  {
    if OneName(cfg, w) && InstalledWhereUsed(cfg, w) {
      forall steps: seq<Step> | AllFaultless(steps) ensures Agree(cfg, Run(cfg, w, steps)) {
        AgreesThroughout(cfg, w, steps);
      }
    } else if !InstalledWhereUsed(cfg, w) {
      var client: Address, name: CString, event: CString :|
        cfg.uses(client, name, event) && |name| < MAX_OBJECT_NAME && Answerable(w, client, cfg.route(name), event)
        && !Installed(w, cfg.route(name));
      var steps := MissingHandlerDisagrees(cfg, w, client, name, event);
    } else {
      var client: Address, name: CString, name': CString, event: CString :|
        cfg.uses(client, name, event) && cfg.uses(client, name', event)
        && |name| < MAX_OBJECT_NAME && |name'| < MAX_OBJECT_NAME && cfg.route(name) == cfg.route(name')
        && Answerable(w, client, cfg.route(name), event) && name != name';
      var steps := SecondNameDisagrees(cfg, w, client, name, name', event);
    }
  }

  lemma AgreesThroughout(cfg: Config, w: World, steps: seq<Step>)
    requires Initial(w) && NobodyListed(w) && OneName(cfg, w) && InstalledWhereUsed(cfg, w) && AllFaultless(steps)
    ensures Agree(cfg, Run(cfg, w, steps))
  {
    RunExact(cfg, w, steps);
    RunOffers(cfg, w, steps);
    ExactAgrees(cfg, w, Run(cfg, w, steps));
  }

  lemma ExactAgrees(cfg: Config, w: World, w': World)
    requires Exact(cfg, w') && SameOffers(w, w') && InstalledWhereUsed(cfg, w)
    ensures Agree(cfg, w')
  {
    forall client: Address, name: CString, event: CString ensures !DisagreesAbout(cfg, w', client, name, event) {
      assert ExactOk(cfg, w', client, name, event);
      assert Answerable(w', client, cfg.route(name), event) ==> Answerable(w, client, cfg.route(name), event);
    }
  }

  /** It needs that nobody gives up: a caller who does so too early rolls its entry back, and the
      request it has left behind still gets it listed. */
  lemma GivingUpLeavesAListener(cfg: Config, w: World, client: Address, name: CString, event: CString)
    requires Initial(w) && cfg.uses(client, name, event) && |name| < MAX_OBJECT_NAME
    requires Answerable(w, client, cfg.route(name), event) && Binds(w, cfg.route(name), SUBSCRIBE)
    ensures var target := cfg.route(name);
            var w' := Run(cfg, w, [Subscribe(client, name, event, 0), GiveUp(0), Deliver(client, target, SUCCESS)]);
            && Idle(w', client, target) && IsListener(w', target, event, client) && !HasEntry(w', client, name, event)
  {
    var target := cfg.route(name);
    RunThree(cfg, w, Subscribe(client, name, event, 0), GiveUp(0), Deliver(client, target, SUCCESS));
    EventNameShort(w, target, event);
    AskSends(cfg, w, client, name, event, 0);
    var sent := Next(cfg, w, Subscribe(client, name, event, 0));
    AddInv(TableOf(w, client), name, event, 0);
    GiveUpDrops(cfg, sent, client, name, event);
    DeliverOnly(cfg, Next(cfg, sent, GiveUp(0)), client, target, 0, SUCCESS);
  }

  lemma GiveUpDrops(cfg: Config, w: World, client: Address, name: CString, event: CString)
    requires 0 in w.outstanding && |w.requests| > 0 && w.requests[0] == Request(client, name, event, true)
    requires TableInv(TableOf(w, client))
    ensures var w' := Next(cfg, w, GiveUp(0));
            && w' == w.(outstanding := w'.outstanding, tables := w'.tables, owners := w'.owners)
            && !HasEntry(w', client, name, event)
  {
    DropHasEntry(w.(outstanding := w.outstanding - {0}), client, name, event, client, name, event);
  }
}
