/** From a settled subscription to the client's callback. */
module Delivery {
  import opened Bytes
  import opened Messages
  import opened Codec
  import opened BusTypes
  import opened Vectors
  import opened ClientTable
  import opened Publishing
  import opened Protocol
  import Server

  function ListenersOf(w: World, target: CString, event: CString): seq<CString>
    requires Offered(w, target, event)
  {
    var events := w.provider[target].events;
    events[Find(events, event, MAX_EVENT_NAME)].val.listeners
  }

  /** A table has a taker for an event exactly if it has the event under the sender's name or
      under the event's own name. */
  lemma TakerExists(t: Table, sender: CString, event: CString)
    requires TableInv(t)
    ensures FirstTaker(t, sender, event) < |t| <==> Subscribed(t, sender, event) || Subscribed(t, event, event)
  {
    var i := FirstTaker(t, sender, event);
    if i < |t| {
      FindAt(t, i, MAX_OBJECT_NAME);
      SearchIsLookup(t[i].val, event, MAX_EVENT_NAME);
    }
    RowTakes(t, sender, sender, event);
    RowTakes(t, event, sender, event);
  }

  lemma RowTakes(t: Table, name: CString, sender: CString, event: CString)
    requires TableInv(t) && (name == sender || name == event)
    ensures Subscribed(t, name, event) ==> Takes(t[Find(t, name, MAX_OBJECT_NAME)], sender, event)
  {
    if Subscribed(t, name, event) {
      BoundedSearchIsExact(t, name, MAX_OBJECT_NAME);
      SearchIsLookup(EventsOf(t, name), event, MAX_EVENT_NAME);
    }
  }

  predicate NotBehind(t: Table, name: CString, other: CString, event: CString) {
    Subscribed(t, other, event) ==> Find(t, name, MAX_OBJECT_NAME) <= Find(t, other, MAX_OBJECT_NAME)
  }

  /** The entry is filed under the sender's or the event's own name, and no row in front of its own
      holds the event under the other one of the two. */
  predicate ComesFirst(t: Table, name: CString, source: CString, event: CString) {
    && (name == source || name == event)
    && NotBehind(t, name, source, event) && NotBehind(t, name, event, event)
  }

  lemma ServedComesFirst(t: Table, name: CString, source: CString, event: CString)
    requires TableInv(t) && Subscribed(t, name, event)
    requires FirstTaker(t, source, event) == Find(t, name, MAX_OBJECT_NAME)
    ensures ComesFirst(t, name, source, event)
  {
    BoundedSearchIsExact(t, name, MAX_OBJECT_NAME);
    RowTakes(t, source, source, event);
    RowTakes(t, event, source, event);
  }

  lemma FirstIsServed(t: Table, name: CString, source: CString, event: CString)
    requires TableInv(t) && Subscribed(t, name, event) && ComesFirst(t, name, source, event)
    ensures FirstTaker(t, source, event) == Find(t, name, MAX_OBJECT_NAME)
  {
    var first := FirstTaker(t, source, event);
    RowTakes(t, name, source, event);
    assert first <= Find(t, name, MAX_OBJECT_NAME);
    FindAt(t, first, MAX_OBJECT_NAME);
    SearchIsLookup(t[first].val, event, MAX_EVENT_NAME);
    assert Subscribed(t, t[first].name, event);
  }

  /** Which entry is served: this one, with its own callback, exactly if it comes first. */
  lemma EntryServed(t: Table, name: CString, source: CString, event: CString)
    requires TableInv(t) && Subscribed(t, name, event)
    ensures FirstTaker(t, source, event) == Find(t, name, MAX_OBJECT_NAME) <==> ComesFirst(t, name, source, event)
    ensures ComesFirst(t, name, source, event) ==>
              Delivered(t, source, event) == [Subscriber(CallbackOf(t, name, event), event)]
  {
    if ComesFirst(t, name, source, event) {
      FirstIsServed(t, name, source, event);
      SearchIsLookup(EventsOf(t, name), event, MAX_EVENT_NAME);
    } else if FirstTaker(t, source, event) == Find(t, name, MAX_OBJECT_NAME) {
      ServedComesFirst(t, name, source, event);
    }
  }

  /** In every run without two names for one object: when the provider publishes, each client with
      an entry settled at the built-in handler gets an attempt, and the message makes it call at most
      one callback. The settled entry's own row is the one that is served exactly if it comes first;
      none is called exactly if the client has the event under neither the publishing object's name
      nor its own. */
  lemma SettledClientIsReached(cfg: Config, w0: World, steps: seq<Step>, client: Address, name: CString, event: CString,
                               body: seq<byte>, masterResult: int32)
    requires Initial(w0) && OneName(cfg, w0) && Binds(w0, cfg.route(name), SUBSCRIBE)
    requires Settled(Run(cfg, w0, steps), client, name, event)
    requires |cfg.route(name)| < MAX_OBJECT_NAME && |body| < TRAILER_LIMIT
    ensures var w, source := Run(cfg, w0, steps), cfg.route(name);
            var bytes := EventBytes(body, event, source, 0);
            var t := TableOf(w, client);
            && Offered(w, source, event)
            && Server.Attempt(client, bytes) in Server.Attempts(ListenersOf(w, source, event), bytes)
            && Reaction(t, None, masterResult, source, bytes) == Delivered(t, source, event)
            && |Delivered(t, source, event)|
               == (if HasEntry(w, client, source, event) || HasEntry(w, client, event, event) then 1 else 0)
            && (FirstTaker(t, source, event) == Find(t, name, MAX_OBJECT_NAME) <==> ComesFirst(t, name, source, event))
            && (ComesFirst(t, name, source, event) ==>
                  Delivered(t, source, event) == [Subscriber(CallbackOf(t, name, event), event)])
  {
    var w, source := Run(cfg, w0, steps), cfg.route(name);
    RunKeeps(cfg, w0, steps);
    RunOffers(cfg, w0, steps);
    SettledIsListed(cfg, w, client, name, event);
    EventNameShort(w, source, event);
    assert TableInv(TableOf(w, client));
    ReactionIsDelivery(TableOf(w, client), source, event, body, masterResult);
    EntryServed(TableOf(w, client), name, source, event);
    AttemptMade(ListenersOf(w, source, event), client, EventBytes(body, event, source, 0));
  }

  // ---- Settled, listed and not called -----------------------------------------------------

  /** An alias that is neither the object's name nor the event's: the entry settles, the provider
      lists the client, and what the object publishes makes it call nothing. */
  lemma AliasIsNeverCalled(cfg: Config, w: World, client: Address, name: CString, event: CString, callback: nat)
    requires Initial(w) && cfg.uses(client, name, event) && |name| < MAX_OBJECT_NAME
    requires Answerable(w, client, cfg.route(name), event) && Binds(w, cfg.route(name), SUBSCRIBE)
    requires name != cfg.route(name) && name != event
    ensures var source := cfg.route(name);
            var w' := Run(cfg, w, SubscribeRound(client, name, event, callback, source, 0));
            && Settled(w', client, name, event) && IsListener(w', source, event, client)
            && Delivered(TableOf(w', client), source, event) == []
  {
    EventNameShort(w, cfg.route(name), event);
    FirstRound(cfg, w, client, name, event, callback);
    FirstTakerIs([Named(name, [Named(event, callback)])], cfg.route(name), event, 1);
  }

  /** Two objects with one event name: a client that first subscribes to the event under its own
      name, which leads to another object, and then under the source's name, has both settled; yet
      what the source publishes calls the callback meant for the other object. */
  lemma OtherObjectsCallbackIsCalled(cfg: Config, w: World, client: Address, source: CString, event: CString,
                                     own: nat, other: nat)
    requires Initial(w) && cfg.uses(client, source, event) && cfg.uses(client, event, event)
    requires |source| < MAX_OBJECT_NAME && cfg.route(source) == source && cfg.route(event) != source
    requires Answerable(w, client, source, event) && Binds(w, source, SUBSCRIBE)
    requires Answerable(w, client, cfg.route(event), event) && Binds(w, cfg.route(event), SUBSCRIBE)
    ensures var w1 := Run(cfg, w, SubscribeRound(client, event, event, other, cfg.route(event), 0));
            var w' := Run(cfg, w1, SubscribeRound(client, source, event, own, source, 1));
            var t := TableOf(w', client);
            && Settled(w', client, source, event) && IsListener(w', source, event, client)
            && CallbackOf(t, source, event) == own && Delivered(t, source, event) == [Subscriber(other, event)]
  {
    EventNameShort(w, source, event);
    FirstRound(cfg, w, client, event, event, other);
    var w1 := Run(cfg, w, SubscribeRound(client, event, event, other, cfg.route(event), 0));
    assert Idle(w1, client, source);
    SecondRound(cfg, w1, client, source, event, own, other);
  }

  lemma SecondRound(cfg: Config, w: World, client: Address, source: CString, event: CString, own: nat, other: nat)
    requires RoundReady(cfg, w, client, source, event) && cfg.route(source) == source && source != event
    requires Answerable(w, client, source, event) && Binds(w, source, SUBSCRIBE)
    requires TableOf(w, client) == AddEntry([], event, event, other) && |w.requests| == 1
    ensures var w' := Run(cfg, w, SubscribeRound(client, source, event, own, source, 1));
            var t := TableOf(w', client);
            && Settled(w', client, source, event) && IsListener(w', source, event, client)
            && CallbackOf(t, source, event) == own && Delivered(t, source, event) == [Subscriber(other, event)]
  {
    AddEffect([], event, event, other, source, event);
    SubscribeSettles(cfg, w, client, source, event, own);
    TwoRows(source, event, own, other);
  }

  lemma TwoRows(source: CString, event: CString, own: nat, other: nat)
    requires |source| < MAX_OBJECT_NAME && |event| < MAX_EVENT_NAME && source != event
    ensures var t := AddEntry(AddEntry([], event, event, other), source, event, own);
            && Subscribed(t, source, event) && CallbackOf(t, source, event) == own
            && Delivered(t, source, event) == [Subscriber(other, event)]
  {
    var before := AddEntry([], event, event, other);
    var t := AddEntry(before, source, event, own);
    AddEffect([], event, event, other, event, event);
    AddEffect([], event, event, other, source, event);
    AddEffect(before, source, event, own, source, event);
    AddEffect(before, source, event, own, event, event);
    assert t[0].name == event;
    EntryServed(t, event, source, event);
  }

  lemma ReactionIsDelivery(t: Table, source: CString, event: CString, body: seq<byte>, masterResult: int32)
    requires TableInv(t) && |source| < MAX_OBJECT_NAME && |event| < MAX_EVENT_NAME && |body| < TRAILER_LIMIT
    ensures Reaction(t, None, masterResult, source, EventBytes(body, event, source, 0)) == Delivered(t, source, event)
    ensures |Delivered(t, source, event)|
            == if Subscribed(t, source, event) || Subscribed(t, event, event) then 1 else 0
  {
    LabelTravels(body, event, source, 0);
    TakerExists(t, source, event);
    ReactToEvent(t, None, masterResult, source, event, 0);
  }

  lemma AttemptMade(listeners: seq<CString>, listener: CString, bytes: seq<byte>)
    requires listener in listeners
    ensures Server.Attempt(listener, bytes) in Server.Attempts(listeners, bytes)
  {
    var i :| 0 <= i < |listeners| && listeners[i] == listener;
    assert Server.Attempts(listeners, bytes)[i] == Server.Attempt(listener, bytes);
  }

  /** An event of rbus 2.0 goes to the client's master handler, and past it to the table only if
      there is none or it declines. */
  lemma MasterComesFirst(t: Table, master: Option<nat>, masterResult: int32, source: CString, event: CString,
                         body: seq<byte>)
    requires |source| < MAX_OBJECT_NAME && |event| < MAX_EVENT_NAME && |body| < TRAILER_LIMIT
    ensures var reaction := Reaction(t, master, masterResult, source, EventBytes(body, event, source, 1));
            if master.None? then reaction == Delivered(t, source, event)
            else if masterResult != EVENT_NOT_HANDLED then reaction == [Master(master.value)]
            else reaction == [Master(master.value)] + Delivered(t, source, event)
  {
    LabelTravels(body, event, source, 1);
    ReactToEvent(t, master, masterResult, source, event, 1);
  }

  /** What cannot be read as an event, or comes from a name that is too long, makes no call at all. */
  lemma UnlabelledIsIgnored(t: Table, master: Option<nat>, masterResult: int32, sender: CString, data: seq<byte>)
    requires |sender| >= MAX_OBJECT_NAME
             || (var first := Get(data, SectionStart(data), KString);
                 var second := Get(data, first.next, KString);
                 Get(data, second.next, KInt32).got.None?)
    ensures Reaction(t, master, masterResult, sender, data) == []
  {
  }

  lemma ReactToEvent(t: Table, master: Option<nat>, masterResult: int32, source: CString, event: CString, flag: int)
    requires |source| < MAX_OBJECT_NAME
    ensures var reaction := React(t, master, masterResult, source, Label(Some(event), Some(source), flag));
            if flag == 0 || master.None? then reaction == Delivered(t, source, event)
            else if masterResult != EVENT_NOT_HANDLED then reaction == [Master(master.value)]
            else reaction == [Master(master.value)] + Delivered(t, source, event)
  {
    assert [] + Delivered(t, source, event) == Delivered(t, source, event);
  }
}
