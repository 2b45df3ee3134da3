/** Which names the clients may use so that every settled subscription has its own callback called. */
module OwnCallbacks {
  import opened Bytes
  import opened BusTypes
  import opened Vectors
  import opened ClientTable
  import opened Publishing
  import opened Protocol
  import opened ProtocolTables
  import opened Delivery

  // ---- What is in the tables --------------------------------------------------------------

  predicate Used(cfg: Config, r: Request) {
    && cfg.uses(r.client, r.name, r.event) && |r.name| < MAX_OBJECT_NAME
    && (r.activate ==> |r.event| < MAX_EVENT_NAME)
  }

  lemma {:induction false} RequestsAreUsed(cfg: Config, w: World, steps: seq<Step>)
    requires Initial(w)
    ensures forall i :: 0 <= i < |Run(cfg, w, steps).requests| ==> Used(cfg, Run(cfg, w, steps).requests[i])
  {
    if |steps| == 0 {
    } else {
      RequestsAreUsed(cfg, w, steps[..|steps| - 1]);
      NextRequest(cfg, Run(cfg, w, steps[..|steps| - 1]), steps[|steps| - 1]);
    }
  }

  lemma NextRequest(cfg: Config, w: World, step: Step)
    ensures var w' := Next(cfg, w, step);
            w'.requests == w.requests || exists r: Request :: Used(cfg, r) && w'.requests == w.requests + [r]
  {
    match step
    case Subscribe(client, name, event, callback) =>
      if Next(cfg, w, step) != w {
        assert Used(cfg, Request(client, name, event, true));
      }
    case Unsubscribe(client, name, event) =>
      if Next(cfg, w, step) != w {
        assert Used(cfg, Request(client, name, event, false));
      }
    case _ =>
  }

  lemma HeldIsUsed(cfg: Config, w: World, steps: seq<Step>, client: Address, name: CString, event: CString)
    requires Initial(w) && HasEntry(Run(cfg, w, steps), client, name, event)
    ensures cfg.uses(client, name, event) && |name| < MAX_OBJECT_NAME && |event| < MAX_EVENT_NAME
  {
    TablesStaySound(cfg, w, steps);
    RequestsAreUsed(cfg, w, steps);
    var w' := Run(cfg, w, steps);
    assert Accounted(w', client, name, event);
    assert Used(cfg, w'.requests[w'.owners[(client, name, event)]]);
  }

  lemma SettledIsGrantable(cfg: Config, w: World, steps: seq<Step>, client: Address, name: CString, event: CString)
    requires Initial(w) && Settled(Run(cfg, w, steps), client, name, event)
    ensures Grantable(w, client, cfg.route(name), event)
  {
    var w' := Run(cfg, w, steps);
    TablesStaySound(cfg, w, steps);
    RunTransport(cfg, w, steps);
    RunOffers(cfg, w, steps);
    assert Accounted(w', client, name, event);
    assert ReplyOk(cfg, w', w'.owners[(client, name, event)]);
  }

  // ---- The exact condition ----------------------------------------------------------------

  /** For every settled entry, it is the entry's own row that takes what its object publishes. */
  ghost predicate OwnRowsServed(cfg: Config, w: World) {
    forall client: Address, name: CString, event: CString | Settled(w, client, name, event) ::
      ServesOwn(cfg, w, client, name, event)
  }

  predicate ServesOwn(cfg: Config, w: World, client: Address, name: CString, event: CString) {
    FirstTaker(TableOf(w, client), cfg.route(name), event) == Find(TableOf(w, client), name, MAX_OBJECT_NAME)
  }

  /** The client uses another one of the two names under which the table is searched. */
  predicate Rivals(cfg: Config, client: Address, name: CString, other: CString, event: CString) {
    && (other == cfg.route(name) || other == event) && other != name
    && cfg.uses(client, other, event) && |other| < MAX_OBJECT_NAME
  }

  /** Every subscription that can settle is made under the object's own or the event's name, and its
      client does not use the other one of the two for that event. */
  ghost predicate Undivided(cfg: Config, w: World) {
    forall client: Address, name: CString, event: CString
      | cfg.uses(client, name, event) && |name| < MAX_OBJECT_NAME && |event| < MAX_EVENT_NAME
        && Grantable(w, client, cfg.route(name), event)
      :: UnrivalledName(cfg, client, name, event)
  }

  predicate UnrivalledName(cfg: Config, client: Address, name: CString, event: CString) {
    && (name == cfg.route(name) || name == event)
    && !Rivals(cfg, client, name, cfg.route(name), event) && !Rivals(cfg, client, name, event, event)
  }

  lemma UndividedServes(cfg: Config, w: World, steps: seq<Step>, client: Address, name: CString, event: CString)
    requires Initial(w) && Undivided(cfg, w) && Settled(Run(cfg, w, steps), client, name, event)
    ensures ServesOwn(cfg, Run(cfg, w, steps), client, name, event)
  {
    var w', source := Run(cfg, w, steps), cfg.route(name);
    var t := TableOf(w', client);
    HeldIsUsed(cfg, w, steps, client, name, event);
    SettledIsGrantable(cfg, w, steps, client, name, event);
    assert UnrivalledName(cfg, client, name, event);
    TablesStaySound(cfg, w, steps);
    if HasEntry(w', client, source, event) {
      HeldIsUsed(cfg, w, steps, client, source, event);
    }
    if HasEntry(w', client, event, event) {
      HeldIsUsed(cfg, w, steps, client, event, event);
    }
    EntryServed(t, name, source, event);
  }

  /** The rival's request gets lost, so that its entry waits in front while the other one settles. */
  lemma RivalComesFirst(cfg: Config, w: World, client: Address, name: CString, other: CString, event: CString)
    returns (steps: seq<Step>)
    requires Initial(w) && cfg.uses(client, name, event) && |name| < MAX_OBJECT_NAME && |event| < MAX_EVENT_NAME
    requires Grantable(w, client, cfg.route(name), event) && Rivals(cfg, client, name, other, event)
    ensures var w' := Run(cfg, w, steps);
            Settled(w', client, name, event) && !ServesOwn(cfg, w', client, name, event)
  {
    var ask, lose := Subscribe(client, other, event, 1), Lose(client, cfg.route(other));
    var round := SubscribeRound(client, name, event, 0, cfg.route(name), 1);
    var w1 := Run(cfg, w, [ask, lose]);
    RivalWaits(cfg, w, client, name, other, event);
    SubscribeSettles(cfg, w1, client, name, event, 0);
    SecondRow(other, name, event);
    EntryServed(TableOf(Run(cfg, w1, round), client), name, cfg.route(name), event);
    RunConcat(cfg, w, [ask, lose], round);
    steps := [ask, lose] + round;
  }

  lemma RivalWaits(cfg: Config, w: World, client: Address, name: CString, other: CString, event: CString)
    requires Initial(w) && cfg.uses(client, name, event) && |name| < MAX_OBJECT_NAME && |event| < MAX_EVENT_NAME
    requires cfg.uses(client, other, event) && |other| < MAX_OBJECT_NAME && name != other
    ensures var w' := Run(cfg, w, [Subscribe(client, other, event, 1), Lose(client, cfg.route(other))]);
            && RoundReady(cfg, w', client, name, event) && !HasEntry(w', client, name, event) && SameOffers(w, w')
            && |w'.requests| == 1 && TableOf(w', client) == AddEntry([], other, event, 1)
  {
    var ask, lose := Subscribe(client, other, event, 1), Lose(client, cfg.route(other));
    RunThree(cfg, w, ask, lose, lose);
    InitialReady(cfg, w, client, other, event);
    AskSends(cfg, w, client, other, event, 1);
    var asked := Next(cfg, w, ask);
    PopChannels(asked, client, cfg.route(other));
    assert Idle(w, client, cfg.route(name));
    SameProvider(w, Next(cfg, asked, lose));
    AddEffect([], other, event, 1, name, event);
  }

  lemma SecondRow(other: CString, name: CString, event: CString)
    requires |other| < MAX_OBJECT_NAME && |name| < MAX_OBJECT_NAME && |event| < MAX_EVENT_NAME && name != other
    ensures var t := AddEntry(AddEntry([], other, event, 1), name, event, 0);
            TableInv(t) && Subscribed(t, other, event) && !NotBehind(t, name, other, event)
  {
    var before := AddEntry([], other, event, 1);
    var t := AddEntry(before, name, event, 0);
    AddEffect([], other, event, 1, other, event);
    AddEffect([], other, event, 1, name, event);
    AddEffect(before, name, event, 0, other, event);
    BoundedSearchIsExact(before, name, MAX_OBJECT_NAME);
    assert t[0].name == other && t[1].name == name;
    FindAt(t, 0, MAX_OBJECT_NAME);
    FindAt(t, 1, MAX_OBJECT_NAME);
  }

  lemma AliasIsNotServed(cfg: Config, w: World, client: Address, name: CString, event: CString)
    returns (steps: seq<Step>)
    requires Initial(w) && cfg.uses(client, name, event) && |name| < MAX_OBJECT_NAME && |event| < MAX_EVENT_NAME
    requires Grantable(w, client, cfg.route(name), event) && name != cfg.route(name) && name != event
    ensures var w' := Run(cfg, w, steps);
            Settled(w', client, name, event) && !ServesOwn(cfg, w', client, name, event)
  {
    steps := SubscribeRound(client, name, event, 0, cfg.route(name), 0);
    FirstRound(cfg, w, client, name, event, 0);
    EntryServed(TableOf(Run(cfg, w, steps), client), name, cfg.route(name), event);
  }

  /** The exact condition on the names that clients use: in every run, each settled entry is the one
      whose callback is called for what its object publishes, if and only if every subscription that
      can settle is made under the object's own or the event's name and no client uses both of them
      for one event. */
  lemma OwnCallbacksIffUndivided(cfg: Config, w: World)
    requires Initial(w)
    ensures (forall steps: seq<Step> :: OwnRowsServed(cfg, Run(cfg, w, steps))) <==> Undivided(cfg, w)
  {
    if Undivided(cfg, w) {
      forall steps: seq<Step> ensures OwnRowsServed(cfg, Run(cfg, w, steps)) {
        forall client: Address, name: CString, event: CString | Settled(Run(cfg, w, steps), client, name, event)
          ensures ServesOwn(cfg, Run(cfg, w, steps), client, name, event)
        {
          UndividedServes(cfg, w, steps, client, name, event);
        }
      }
    } else {
      var client: Address, name: CString, event: CString :|
        cfg.uses(client, name, event) && |name| < MAX_OBJECT_NAME && |event| < MAX_EVENT_NAME
        && Grantable(w, client, cfg.route(name), event) && !UnrivalledName(cfg, client, name, event);
      var steps := DividedRun(cfg, w, client, name, event);
    }
  }

  lemma DividedRun(cfg: Config, w: World, client: Address, name: CString, event: CString)
    returns (steps: seq<Step>)
    requires Initial(w) && cfg.uses(client, name, event) && |name| < MAX_OBJECT_NAME && |event| < MAX_EVENT_NAME
    requires Grantable(w, client, cfg.route(name), event) && !UnrivalledName(cfg, client, name, event)
    ensures !OwnRowsServed(cfg, Run(cfg, w, steps))
  {
    if name != cfg.route(name) && name != event {
      steps := AliasIsNotServed(cfg, w, client, name, event);
    } else {
      var other := if Rivals(cfg, client, name, event, event) then event else cfg.route(name);
      steps := RivalComesFirst(cfg, w, client, name, other, event);
    }
  }

  /** Then each settled client that is reached calls exactly the callback of that subscription. */
  lemma UndividedCallsOwn(cfg: Config, w: World, steps: seq<Step>, client: Address, name: CString, event: CString)
    requires Initial(w) && Undivided(cfg, w) && Settled(Run(cfg, w, steps), client, name, event)
    ensures var t := TableOf(Run(cfg, w, steps), client);
            Delivered(t, cfg.route(name), event) == [Subscriber(CallbackOf(t, name, event), event)]
  {
    TablesStaySound(cfg, w, steps);
    UndividedServes(cfg, w, steps, client, name, event);
    EntryServed(TableOf(Run(cfg, w, steps), client), name, cfg.route(name), event);
  }
}
