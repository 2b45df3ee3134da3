/** The subscription protocol in runs where requests are lost and callers give up: who is listed, and
    which faults make the client's table and the provider's lists part. */
module ProtocolFaults {
  import opened Bytes
  import opened BusTypes
  import opened ClientTable
  import opened Protocol
  import opened ProtocolExact
  import opened ProtocolTables

  // ---- Who is listed ----------------------------------------------------------------------

  predicate About(cfg: Config, r: Request, client: Address, target: CString, event: CString) {
    Between(cfg, r, client, target) && r.event == event
  }

  /** The newest request about this client, object and event that the provider has handled. */
  ghost predicate Newest(cfg: Config, w: World, client: Address, target: CString, event: CString, id: nat) {
    && id in w.replies && id < |w.requests| && About(cfg, w.requests[id], client, target, event)
    && (forall k <- w.replies | k < |w.requests| && About(cfg, w.requests[k], client, target, event) :: k <= id)
  }

  ghost predicate NewestIsSubscribe(cfg: Config, w: World, client: Address, target: CString, event: CString) {
    exists id: nat :: Newest(cfg, w, client, target, event, id) && w.requests[id].activate
  }

  ghost predicate ListOk(cfg: Config, w: World, client: Address, target: CString, event: CString) {
    Answerable(w, client, target, event) && Installed(w, target) ==>
      (IsListener(w, target, event, client) <==> NewestIsSubscribe(cfg, w, client, target, event))
  }

  /** Sending requests and ending calls leaves alone what was handled. */
  lemma ListFrame(cfg: Config, w: World, w': World, c: Address, t: CString, e: CString)
    requires TransportInv(cfg, w) && ListOk(cfg, w, c, t, e)
    requires w'.provider == w.provider && w'.replies == w.replies
    requires |w.requests| <= |w'.requests| && w'.requests[..|w.requests|] == w.requests
    ensures ListOk(cfg, w', c, t, e)
  {
    forall id: nat ensures Newest(cfg, w', c, t, e, id) <==> Newest(cfg, w, c, t, e, id) {
      forall k <- w.replies ensures k < |w.requests| && w'.requests[k] == w.requests[k] {
        assert ReplyOk(cfg, w, k);
        assert w'.requests[..|w.requests|][k] == w.requests[k];
      }
    }
    forall id: nat | Newest(cfg, w, c, t, e, id) ensures w'.requests[id] == w.requests[id] {
      assert w'.requests[..|w.requests|][id] == w.requests[id];
    }
  }

  /** A request that is handled is newer than all that were handled on its channel before. */
  lemma HandledIsNewest(cfg: Config, w: World, w': World, c: Address, t: CString, e: CString, id: nat)
    requires id < |w.requests| && w'.requests == w.requests && w'.replies.Keys == w.replies.Keys + {id}
    requires About(cfg, w.requests[id], c, t, e)
    requires forall k <- w.replies | k < |w.requests| && Between(cfg, w.requests[k], c, t) :: k < id
    ensures NewestIsSubscribe(cfg, w', c, t, e) <==> w.requests[id].activate
  {
    assert Newest(cfg, w', c, t, e, id);
  }

  lemma OthersStayNewest(cfg: Config, w: World, w': World, c: Address, t: CString, e: CString, id: nat)
    requires id < |w.requests| && w'.requests == w.requests && w'.replies.Keys == w.replies.Keys + {id}
    requires !About(cfg, w.requests[id], c, t, e)
    ensures NewestIsSubscribe(cfg, w', c, t, e) <==> NewestIsSubscribe(cfg, w, c, t, e)
  {
    forall k: nat ensures Newest(cfg, w', c, t, e, k) <==> Newest(cfg, w, c, t, e, k) {
    }
  }

  lemma HandledList(cfg: Config, w: World, w': World, client: Address, target: CString, id: nat,
                    c: Address, t: CString, e: CString)
    requires ListOk(cfg, w, c, t, e) && id < |w.requests| && Between(cfg, w.requests[id], client, target)
    requires forall k <- w.replies | k < |w.requests| && Between(cfg, w.requests[k], client, target) :: k < id
    requires w'.requests == w.requests && w'.replies.Keys == w.replies.Keys + {id}
    requires (Offered(w', t, e) <==> Offered(w, t, e)) && (Installed(w', t) <==> Installed(w, t))
    requires Answerable(w, c, t, e) && Installed(w, t) ==>
               (IsListener(w', t, e, c)
                <==> if (c, t, e) == (client, target, w.requests[id].event) then w.requests[id].activate
                     else IsListener(w, t, e, c))
    ensures ListOk(cfg, w', c, t, e)
  {
    if About(cfg, w.requests[id], c, t, e) {
      HandledIsNewest(cfg, w, w', c, t, e, id);
    } else {
      OthersStayNewest(cfg, w, w', c, t, e, id);
    }
  }

  lemma DeliverList(cfg: Config, w: World, client: Address, target: CString, answer: int32,
                    c: Address, t: CString, e: CString)
    requires TransportInv(cfg, w) && ListOk(cfg, w, c, t, e)
    requires |Channel(w, client, target)| > 0 && target in w.provider
    ensures ListOk(cfg, Next(cfg, w, Deliver(client, target, answer)), c, t, e)
  {
    var w', q := Next(cfg, w, Deliver(client, target, answer)), Channel(w, client, target);
    DeliverFacts(cfg, w, client, target, answer, c, t, e);
    assert ChannelOk(cfg, w, client, target);
    HandledList(cfg, w, w', client, target, q[0], c, t, e);
  }

  lemma NextList(cfg: Config, w: World, step: Step, c: Address, t: CString, e: CString)
    requires TransportInv(cfg, w) && ListOk(cfg, w, c, t, e)
    ensures ListOk(cfg, Next(cfg, w, step), c, t, e)
  {
    if step.Deliver? {
      if |Channel(w, step.client, step.target)| > 0 && step.target in w.provider {
        DeliverList(cfg, w, step.client, step.target, step.answer, c, t, e);
      }
    } else {
      OnlyDeliveriesAct(cfg, w, step);
      OnlyDeliveriesAnswer(cfg, w, step);
      ListFrame(cfg, w, Next(cfg, w, step), c, t, e);
    }
  }

  lemma OnlyDeliveriesAnswer(cfg: Config, w: World, step: Step)
    requires !step.Deliver?
    ensures var w' := Next(cfg, w, step);
            && w'.replies == w.replies
            && |w.requests| <= |w'.requests| && w'.requests[..|w.requests|] == w.requests
  {
  }

  /** In every run, with any names, losses and callers that give up: at an object with both handlers
      installed, a client is listed if and only if the newest of its requests that was handled is
      a subscribe. */
  lemma {:induction false} ListedIffNewest(cfg: Config, w: World, steps: seq<Step>,
                                           client: Address, target: CString, event: CString)
    requires Initial(w) && NobodyListed(w)
    ensures ListOk(cfg, Run(cfg, w, steps), client, target, event)
  {
    if |steps| == 0 {
    } else {
      var before := steps[..|steps| - 1];
      ListedIffNewest(cfg, w, before, client, target, event);
      RunTransport(cfg, w, before);
      NextList(cfg, Run(cfg, w, before), steps[|steps| - 1], client, target, event);
    }
  }

  /** So, once no subscribe call for it waits, an entry is always listed, a client without one is
      listed exactly if its newest handled request is a subscribe, and that is the only way in which
      table and list can disagree. */
  lemma StrandedIffNewest(cfg: Config, w: World, steps: seq<Step>, client: Address, name: CString, event: CString)
    requires Initial(w) && NobodyListed(w) && OneName(cfg, w)
    requires Answerable(w, client, cfg.route(name), event) && Installed(w, cfg.route(name))
    requires !Waiting(Run(cfg, w, steps), client, name, event)
    ensures var w', target := Run(cfg, w, steps), cfg.route(name);
            && (HasEntry(w', client, name, event) ==> IsListener(w', target, event, client))
            && (IsListener(w', target, event, client) && !HasEntry(w', client, name, event)
                <==> NewestIsSubscribe(cfg, w', client, target, event) && !HasEntry(w', client, name, event))
            && ((HasEntry(w', client, name, event) <==> IsListener(w', target, event, client))
                <==> (NewestIsSubscribe(cfg, w', client, target, event) ==> HasEntry(w', client, name, event)))
  {
    var w' := Run(cfg, w, steps);
    ListedIffNewest(cfg, w, steps, client, cfg.route(name), event);
    RunOffers(cfg, w, steps);
    if HasEntry(w', client, name, event) {
      TablesStaySound(cfg, w, steps);
      assert Accounted(w', client, name, event);
      RunKeeps(cfg, w, steps);
      SettledIsListed(cfg, w', client, name, event);
    }
  }

  // ---- Which faults do harm ---------------------------------------------------------------

  /** Delivering everything that is on its way from this client to this object. */
  function Drain(client: Address, target: CString, n: nat): seq<Step> {
    if n == 0 then [] else [Deliver(client, target, SUCCESS)] + Drain(client, target, n - 1)
  }

  /** What is delivered settles the list as the channel foretells, and leaves the table alone. */
  lemma {:induction false} DrainSettles(cfg: Config, w: World, client: Address, target: CString, event: CString, n: nat)
    requires TransportInv(cfg, w) && Answerable(w, client, target, event) && Installed(w, target)
    requires n == |Channel(w, client, target)|
    ensures var w' := Run(cfg, w, Drain(client, target, n));
            && Idle(w', client, target) && w'.tables == w.tables
            && (IsListener(w', target, event, client)
                <==> Fate(w.requests, Channel(w, client, target), event, IsListener(w, target, event, client)))
    decreases n
  {
    if n > 0 {
      var deliver := Deliver(client, target, SUCCESS);
      var w1, q := Next(cfg, w, deliver), Channel(w, client, target);
      DeliverFacts(cfg, w, client, target, SUCCESS, client, target, event);
      NextTransport(cfg, w, deliver);
      DrainSettles(cfg, w1, client, target, event, n - 1);
      RunThree(cfg, w, deliver, deliver, deliver);
      RunConcat(cfg, w, [deliver], Drain(client, target, n - 1));
      FateHead(w.requests, q, event, IsListener(w, target, event, client));
    }
  }

  /** Table and list say the same once everything on its way has been delivered. */
  predicate AgreeOnceDrained(cfg: Config, w: World, client: Address, name: CString, event: CString) {
    var target := cfg.route(name);
    var w' := Run(cfg, w, Drain(client, target, |Channel(w, client, target)|));
    HasEntry(w', client, name, event) <==> IsListener(w', target, event, client)
  }

  /** A subscription that a client may make and that the provider's handlers serve. */
  ghost predicate Relevant(cfg: Config, w: World, client: Address, name: CString, event: CString) {
    && cfg.uses(client, name, event) && |name| < MAX_OBJECT_NAME
    && Answerable(w, client, cfg.route(name), event) && Installed(w, cfg.route(name))
  }

  lemma DrainedIsExact(cfg: Config, w: World, client: Address, name: CString, event: CString)
    requires TransportInv(cfg, w) && Relevant(cfg, w, client, name, event)
    ensures AgreeOnceDrained(cfg, w, client, name, event) <==> ExactOk(cfg, w, client, name, event)
  {
    DrainSettles(cfg, w, client, cfg.route(name), event, |Channel(w, client, cfg.route(name))|);
  }

  predicate Mentions(requests: seq<Request>, q: seq<nat>, event: CString) {
    exists i :: 0 <= i < |q| && q[i] < |requests| && requests[q[i]].event == event
  }

  lemma {:induction false} FateMention(requests: seq<Request>, q: seq<nat>, event: CString, a: bool, b: bool)
    ensures Fate(requests, q, event, a) == Fate(requests, q, event, b) <==> a == b || Mentions(requests, q, event)
  {
    if |q| > 0 {
      var last, front := q[|q| - 1], q[..|q| - 1];
      if last < |requests| && requests[last].event == event {
        assert q[|q| - 1] == last;
      } else {
        FateMention(requests, front, event, a, b);
        assert forall i :: 0 <= i < |front| ==> front[i] == q[i];
      }
    }
  }

  /** A loss does no harm if the lost request asked for what is the case, or if a later one about
      the same event is on its way. Giving up does no harm if there is no entry to take back. Nothing
      else that happens does any harm. */
  predicate Harmless(cfg: Config, w: World, step: Step, c: Address, n: CString, e: CString) {
    match step
    case Lose(client, target) => (client, target) == (c, cfg.route(n)) ==> HarmlessLoss(w, client, target, e)
    case GiveUp(id) => HarmlessGiveUp(w, id, c, n, e)
    case _ => true
  }

  predicate HarmlessLoss(w: World, client: Address, target: CString, event: CString) {
    var q := Channel(w, client, target);
    |q| > 0 && q[0] < |w.requests| && w.requests[q[0]].event == event ==>
      w.requests[q[0]].activate == IsListener(w, target, event, client) || Mentions(w.requests, q[1..], event)
  }

  predicate HarmlessGiveUp(w: World, id: nat, c: Address, n: CString, e: CString) {
    id in w.outstanding && id < |w.requests| && w.requests[id] == Request(c, n, e, true) ==> !HasEntry(w, c, n, e)
  }

  lemma FateDecides(cfg: Config, w: World, w': World, c: Address, n: CString, e: CString)
    requires ExactOk(cfg, w, c, n, e) && Relevant(cfg, w, c, n, e)
    requires w'.requests == w.requests && w'.tables == w.tables && w'.provider == w.provider
    ensures var target, now := cfg.route(n), IsListener(w, cfg.route(n), e, c);
            ExactOk(cfg, w', c, n, e) <==> (Fate(w.requests, Channel(w', c, target), e, now)
                                            == Fate(w.requests, Channel(w, c, target), e, now))
  {
    assert HasEntry(w', c, n, e) <==> HasEntry(w, c, n, e);
  }

  lemma LoseExact(cfg: Config, w: World, client: Address, target: CString, c: Address, n: CString, e: CString)
    requires TransportInv(cfg, w) && ExactOk(cfg, w, c, n, e) && Relevant(cfg, w, c, n, e)
    requires |Channel(w, client, target)| > 0
    ensures ExactOk(cfg, Pop(w, client, target), c, n, e) <==> Harmless(cfg, w, Lose(client, target), c, n, e)
  {
    var q := Channel(w, client, target);
    assert ChannelOk(cfg, w, client, target);
    PopChannels(w, client, target);
    FateDecides(cfg, w, Pop(w, client, target), c, n, e);
    if (client, target) == (c, cfg.route(n)) {
      var now := IsListener(w, target, e, c);
      FateHead(w.requests, q, e, now);
      FateMention(w.requests, q[1..], e, now, w.requests[q[0]].activate);
    }
  }

  lemma EntryDecides(cfg: Config, w: World, w': World, c: Address, n: CString, e: CString)
    requires ExactOk(cfg, w, c, n, e) && Relevant(cfg, w, c, n, e)
    requires w'.requests == w.requests && w'.channels == w.channels && w'.provider == w.provider
    ensures ExactOk(cfg, w', c, n, e) <==> (HasEntry(w', c, n, e) <==> HasEntry(w, c, n, e))
  {
    assert Channel(w', c, cfg.route(n)) == Channel(w, c, cfg.route(n));
  }

  lemma GiveUpEntry(w: World, id: nat, c: Address, n: CString, e: CString)
    requires TablesInv(w) && id < |w.requests|
    ensures var w' := Finish(w, id, false);
            && w'.requests == w.requests && w'.channels == w.channels && w'.provider == w.provider
            && (HasEntry(w', c, n, e) <==> HasEntry(w, c, n, e) && w.requests[id] != Request(c, n, e, true))
  {
    var r, done := w.requests[id], w.(outstanding := w.outstanding - {id});
    if r.activate {
      assert TableInv(TableOf(w, r.client));
      DropHasEntry(done, r.client, r.name, r.event, c, n, e);
    }
  }

  lemma GiveUpExact(cfg: Config, w: World, id: nat, c: Address, n: CString, e: CString)
    requires TablesInv(w) && ExactOk(cfg, w, c, n, e) && Relevant(cfg, w, c, n, e)
    requires id in w.outstanding && id < |w.requests|
    ensures ExactOk(cfg, Finish(w, id, false), c, n, e) <==> HarmlessGiveUp(w, id, c, n, e)
  {
    GiveUpEntry(w, id, c, n, e);
    EntryDecides(cfg, w, Finish(w, id, false), c, n, e);
  }

  /** A step keeps the agreement to come if and only if it is harmless, which can be told before it. */
  lemma NextExactIff(cfg: Config, w: World, step: Step, c: Address, n: CString, e: CString)
    requires Inv(cfg, w) && ExactOk(cfg, w, c, n, e) && Relevant(cfg, w, c, n, e)
    ensures ExactOk(cfg, Next(cfg, w, step), c, n, e) <==> Harmless(cfg, w, step, c, n, e)
  {
    if Faultless(step) {
      NextExact(cfg, w, step, c, n, e);
    } else if step.Lose? && |Channel(w, step.client, step.target)| > 0 {
      LoseExact(cfg, w, step.client, step.target, c, n, e);
    } else if step.GiveUp? && step.id in w.outstanding && step.id < |w.requests| {
      GiveUpExact(cfg, w, step.id, c, n, e);
    }
  }

  predicate AllHarmless(cfg: Config, w: World, steps: seq<Step>, c: Address, n: CString, e: CString) {
    |steps| > 0 ==>
      var before := steps[..|steps| - 1];
      AllHarmless(cfg, w, before, c, n, e) && Harmless(cfg, Run(cfg, w, before), steps[|steps| - 1], c, n, e)
  }

  /** At every moment of the run, from its beginning to its end. */
  predicate AgreeThroughout(cfg: Config, w: World, steps: seq<Step>, c: Address, n: CString, e: CString) {
    && AgreeOnceDrained(cfg, Run(cfg, w, steps), c, n, e)
    && (|steps| > 0 ==> AgreeThroughout(cfg, w, steps[..|steps| - 1], c, n, e))
  }

  lemma RelevantThroughout(cfg: Config, w: World, steps: seq<Step>, c: Address, n: CString, e: CString)
    requires ProviderOk(w) && Relevant(cfg, w, c, n, e)
    ensures Relevant(cfg, Run(cfg, w, steps), c, n, e)
  {
    RunOffers(cfg, w, steps);
  }

  /** In runs with faults: at every moment of a run, what is on its way would bring table and list
      into agreement if and only if every fault so far was harmless when it happened. */
  lemma {:induction false} AgreeIffHarmless(cfg: Config, w: World, steps: seq<Step>, c: Address, n: CString, e: CString)
    requires Initial(w) && NobodyListed(w) && OneName(cfg, w) && Relevant(cfg, w, c, n, e)
    ensures AgreeThroughout(cfg, w, steps, c, n, e) <==> AllHarmless(cfg, w, steps, c, n, e)
    ensures AllHarmless(cfg, w, steps, c, n, e) ==> ExactOk(cfg, Run(cfg, w, steps), c, n, e)
  {
    var w' := Run(cfg, w, steps);
    RunKeeps(cfg, w, steps);
    RelevantThroughout(cfg, w, steps, c, n, e);
    DrainedIsExact(cfg, w', c, n, e);
    if |steps| == 0 {
    } else {
      var before := steps[..|steps| - 1];
      AgreeIffHarmless(cfg, w, before, c, n, e);
      RunKeeps(cfg, w, before);
      RelevantThroughout(cfg, w, before, c, n, e);
      if AllHarmless(cfg, w, before, c, n, e) {
        NextExactIff(cfg, Run(cfg, w, before), steps[|steps| - 1], c, n, e);
      }
    }
  }
}
