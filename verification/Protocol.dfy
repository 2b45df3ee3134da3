/** The subscription protocol between one provider process and any number of clients: requests
    travel in order on a channel per client and object, they and their replies may be lost, and a
    caller may give up waiting at any moment. Calls may overlap, as nested ones do. */
module Protocol {
  import opened Bytes
  import opened BusTypes
  import opened Vectors
  import opened Events
  import opened Registry
  import opened ClientTable

  type Address = CString

  /** `route` tells which object a name reaches: an object's own name or an alias of it.
      `uses` tells which subscriptions the clients ever ask for or cancel. */
  datatype Config = Config(route: CString -> CString, uses: (Address, CString, CString) -> bool)

  datatype Request = Request(client: Address, name: CString, event: CString, activate: bool)

  type Key = (Address, CString, CString)

  /** A request is known by its position in `requests`. `owners` says which call made an entry;
      `granted` are the subscribe calls that have returned SUCCESS. */
  datatype World = World(
    tables: map<Address, Table>,
    owners: map<Key, nat>,
    requests: seq<Request>,
    outstanding: set<nat>,
    granted: set<nat>,
    channels: map<(Address, CString), seq<nat>>,
    provider: map<CString, ServerObject>,
    replies: map<nat, int32>)

  /** `answer` is what the application replies when a delivery reaches a callback of its own. */
  datatype Step =
    | Subscribe(client: Address, name: CString, event: CString, callback: nat)
    | Unsubscribe(client: Address, name: CString, event: CString)
    | Deliver(client: Address, target: CString, answer: int32)
    | Lose(client: Address, target: CString)
    | Return(id: nat)
    | GiveUp(id: nat)

  function TableOf(w: World, client: Address): Table {
    if client in w.tables then w.tables[client] else []
  }

  function Channel(w: World, client: Address, target: CString): seq<nat> {
    if (client, target) in w.channels then w.channels[(client, target)] else []
  }

  predicate HasEvent(obj: ServerObject, event: CString) {
    Has(obj.events, event, MAX_EVENT_NAME)
  }

  predicate Listens(obj: ServerObject, event: CString, client: Address) {
    HasEvent(obj, event) && client in obj.events[Find(obj.events, event, MAX_EVENT_NAME)].val.listeners
  }

  predicate Offered(w: World, target: CString, event: CString) {
    target in w.provider && HasEvent(w.provider[target], event)
  }

  predicate IsListener(w: World, target: CString, event: CString, client: Address) {
    target in w.provider && Listens(w.provider[target], event, client)
  }

  /** The object runs the built-in subscription handler for this reserved name. */
  predicate Binds(w: World, target: CString, reserved: CString) {
    target in w.provider && Bound(w.provider[target], reserved)
  }

  predicate HasEntry(w: World, client: Address, name: CString, event: CString) {
    Subscribed(TableOf(w, client), name, event)
  }

  // ---- Steps ------------------------------------------------------------------------------

  function Send(w: World, r: Request, target: CString): World {
    var id := |w.requests|;
    w.(requests := w.requests + [r], outstanding := w.outstanding + {id},
       channels := w.channels[(r.client, target) := Channel(w, r.client, target) + [id]])
  }

  function PutEntry(w: World, client: Address, name: CString, event: CString, callback: nat): World {
    w.(tables := w.tables[client := AddEntry(TableOf(w, client), name, event, callback)],
       owners := w.owners[(client, name, event) := |w.requests|])
  }

  function DropEntry(w: World, client: Address, name: CString, event: CString): World {
    w.(tables := w.tables[client := RemoveEntry(TableOf(w, client), name, event)],
       owners := w.owners - {(client, name, event)})
  }

  /** The end of a call: a subscribe call that did not succeed takes its entry back. */
  function Finish(w: World, id: nat, ok: bool): World
    requires id < |w.requests|
  {
    var r := w.requests[id];
    var done := w.(outstanding := w.outstanding - {id});
    if !r.activate then done
    else if ok then done.(granted := w.granted + {id})
    else DropEntry(done, r.client, r.name, r.event)
  }

  function Pop(w: World, client: Address, target: CString): World
    requires |Channel(w, client, target)| > 0
  {
    w.(channels := w.channels[(client, target) := Channel(w, client, target)[1..]])
  }

  function MethodOf(r: Request): CString {
    if r.activate then SUBSCRIBE else UNSUBSCRIBE
  }

  /** A request is routed by its method name. Only where that name is bound to the built-in handler
      does it act on the listeners; elsewhere it reaches a callback of the application. */
  function Serve(obj: ServerObject, r: Request, answer: int32): Changed {
    if Bound(obj, MethodOf(r)) then Subscription(obj, r.event, r.client, r.activate, SUBSCRIBE_NOT_HANDLED)
    else Changed(answer, obj)
  }

  function Handle(w: World, target: CString, id: nat, answer: int32): World
    requires id < |w.requests| && target in w.provider
  {
    var after := Serve(w.provider[target], w.requests[id], answer);
    w.(provider := w.provider[target := after.obj], replies := w.replies[id := after.rc])
  }

  /** A step that is not possible changes nothing. */
  function Next(cfg: Config, w: World, step: Step): World {
    match step
    case Subscribe(client, name, event, callback) =>
      if !cfg.uses(client, name, event) || |name| >= MAX_OBJECT_NAME || |event| >= MAX_EVENT_NAME
         || HasEntry(w, client, name, event) then w
      else Send(PutEntry(w, client, name, event, callback), Request(client, name, event, true), cfg.route(name))
    case Unsubscribe(client, name, event) =>
      if !cfg.uses(client, name, event) || |name| >= MAX_OBJECT_NAME then w
      else Send(DropEntry(w, client, name, event), Request(client, name, event, false), cfg.route(name))
    case Deliver(client, target, answer) =>
      if |Channel(w, client, target)| == 0 || target !in w.provider
         || Channel(w, client, target)[0] >= |w.requests| then w
      else Pop(Handle(w, target, Channel(w, client, target)[0], answer), client, target)
    case Lose(client, target) =>
      if |Channel(w, client, target)| == 0 then w else Pop(w, client, target)
    case Return(id) =>
      if id !in w.outstanding || id !in w.replies || id >= |w.requests| then w
      else Finish(w, id, w.replies[id] == SUCCESS)
    case GiveUp(id) =>
      if id !in w.outstanding || id >= |w.requests| then w else Finish(w, id, false)
  }

  function Run(cfg: Config, w: World, steps: seq<Step>): World {
    if |steps| == 0 then w
    else Next(cfg, Run(cfg, w, steps[..|steps| - 1]), steps[|steps| - 1])
  }

  /** Nothing has been asked yet. The provider may have any objects, events and methods, with or
      without the built-in handler behind the reserved names. */
  ghost predicate Initial(w: World) {
    && w == World(map[], map[], [], {}, {}, map[], w.provider, map[])
    && ProviderOk(w)
  }

  // ---- Safety -----------------------------------------------------------------------------

  /** The client holds the entry and the call that made it has returned SUCCESS. */
  predicate Settled(w: World, client: Address, name: CString, event: CString) {
    && HasEntry(w, client, name, event)
    && (client, name, event) in w.owners && w.owners[(client, name, event)] in w.granted
  }

  predicate Cancels(r: Request, event: CString) {
    !r.activate && r.event == event
  }

  predicate CancelInFlight(w: World, client: Address, target: CString, event: CString) {
    var q := Channel(w, client, target);
    exists i :: 0 <= i < |q| && q[i] < |w.requests| && Cancels(w.requests[q[i]], event)
  }

  ghost predicate Safe(cfg: Config, w: World) {
    forall client: Address, name: CString, event: CString :: Settled(w, client, name, event) ==>
      IsListener(w, cfg.route(name), event, client) && !CancelInFlight(w, client, cfg.route(name), event)
  }

  /** Wherever a client may subscribe, subscribe requests reach the built-in handler. */
  ghost predicate Served(cfg: Config, w: World) {
    forall client: Address, name: CString, event: CString
      | cfg.uses(client, name, event) && |name| < MAX_OBJECT_NAME && |event| < MAX_EVENT_NAME
        && cfg.route(name) in w.provider
      :: Binds(w, cfg.route(name), SUBSCRIBE)
  }

  ghost predicate NobodyListed(w: World) {
    forall target: CString, event: CString, client: Address :: !IsListener(w, target, event, client)
  }

  /** No client uses two names that reach the same object for the same offered event. */
  ghost predicate OneName(cfg: Config, w: World) {
    forall client: Address, name: CString, name': CString, event: CString
      | cfg.uses(client, name, event) && cfg.uses(client, name', event)
        && |name| < MAX_OBJECT_NAME && |name'| < MAX_OBJECT_NAME
        && cfg.route(name) == cfg.route(name') && Answerable(w, client, cfg.route(name), event)
      :: name == name'
  }

  ghost predicate ProviderOk(w: World) {
    forall target <- w.provider :: ObjectInv(w.provider[target]) && w.provider[target].override.None?
  }

  /** Neither the objects nor their events and handlers change. */
  ghost predicate SameOffers(w: World, w': World) {
    && w'.provider.Keys == w.provider.Keys
    && (forall target: CString, event: CString :: Offered(w', target, event) <==> Offered(w, target, event))
    && (forall target: CString, reserved: CString :: Binds(w', target, reserved) <==> Binds(w, target, reserved))
  }

  predicate Between(cfg: Config, r: Request, client: Address, target: CString) {
    r.client == client && cfg.route(r.name) == target
  }

  predicate Increasing(q: seq<nat>) {
    forall i, j :: 0 <= i < j < |q| ==> q[i] < q[j]
  }

  /** A channel holds its own client's requests for its own object, oldest first, and all of them
      are younger than any request of that channel that was already handled. */
  ghost predicate ChannelOk(cfg: Config, w: World, client: Address, target: CString) {
    var q := Channel(w, client, target);
    && Increasing(q)
    && (forall i :: 0 <= i < |q| ==> q[i] < |w.requests| && Between(cfg, w.requests[q[i]], client, target))
    && (forall id, i | id in w.replies && id < |w.requests| && Between(cfg, w.requests[id], client, target)
                       && 0 <= i < |q| :: id < q[i])
  }

  predicate Answerable(w: World, client: Address, target: CString, event: CString) {
    Offered(w, target, event) && |client| < MAX_OBJECT_NAME
  }

  ghost predicate ReplyOk(cfg: Config, w: World, id: nat) {
    id in w.replies ==>
      && id < |w.requests|
      && var r := w.requests[id];
      && cfg.route(r.name) in w.provider
      && (r.activate && Binds(w, cfg.route(r.name), SUBSCRIBE) ==>
            (w.replies[id] == SUCCESS <==> Answerable(w, r.client, cfg.route(r.name), r.event)))
  }

  /** No request sent after `id` cancels this client's subscription to this event of this object. */
  ghost predicate NeverCancelled(cfg: Config, w: World, id: nat, client: Address, target: CString, event: CString) {
    forall k | id < k < |w.requests| && Between(cfg, w.requests[k], client, target) :: !Cancels(w.requests[k], event)
  }

  /** An entry belongs to a subscribe request that nothing has cancelled since, and once the
      built-in handler has answered that request with success the client is listed. */
  ghost predicate EntryOk(cfg: Config, w: World, client: Address, name: CString, event: CString) {
    HasEntry(w, client, name, event) ==>
      && cfg.uses(client, name, event) && |name| < MAX_OBJECT_NAME && |event| < MAX_EVENT_NAME
      && (client, name, event) in w.owners
      && var id := w.owners[(client, name, event)];
      && id < |w.requests| && w.requests[id] == Request(client, name, event, true)
      && (Answerable(w, client, cfg.route(name), event) ==>
            NeverCancelled(cfg, w, id, client, cfg.route(name), event))
      && (id in w.replies && w.replies[id] == SUCCESS && Binds(w, cfg.route(name), SUBSCRIBE) ==>
            IsListener(w, cfg.route(name), event, client))
  }

  /** What holds of requests and replies, whatever names the clients use. */
  ghost predicate TransportInv(cfg: Config, w: World) {
    && ProviderOk(w)
    && (forall client: Address, target: CString :: ChannelOk(cfg, w, client, target))
    && (forall id: nat :: ReplyOk(cfg, w, id))
    && (forall id <- w.granted :: id in w.replies && w.replies[id] == SUCCESS)
  }

  ghost predicate TablesInv(w: World) {
    forall client: Address :: TableInv(TableOf(w, client))
  }

  ghost predicate EntriesInv(cfg: Config, w: World) {
    forall client: Address, name: CString, event: CString :: EntryOk(cfg, w, client, name, event)
  }

  ghost predicate Inv(cfg: Config, w: World) {
    TransportInv(cfg, w) && OneName(cfg, w) && TablesInv(w) && EntriesInv(cfg, w)
  }

  /** What a request does at the provider: it changes one listener of one event, or nothing. */
  lemma SubscriptionEffect(obj: ServerObject, event: CString, client: Address, activate: bool)
    requires ObjectInv(obj) && obj.override.None?
    ensures var after := Subscription(obj, event, client, activate, SUBSCRIBE_NOT_HANDLED);
            && ObjectInv(after.obj) && after.obj.override.None? && after.obj.methods == obj.methods
            && (after.rc == SUCCESS <==> HasEvent(obj, event) && |client| < MAX_OBJECT_NAME)
            && (forall e: CString :: HasEvent(after.obj, e) <==> HasEvent(obj, e))
            && (forall e: CString, c: Address ::
                  Listens(after.obj, e, c)
                  <==> if after.rc == SUCCESS && e == event && c == client then activate else Listens(obj, e, c))
  {
    SubscriptionRefines(obj, event, client, activate, SUBSCRIBE_NOT_HANDLED);
    BoundedSearchIsExact(obj.events, event, MAX_EVENT_NAME);
    var after := Subscription(obj, event, client, activate, SUBSCRIBE_NOT_HANDLED);
    if after.rc == SUCCESS {
      var i := Find(obj.events, event, MAX_EVENT_NAME);
      ApplyMembership(obj.events[i].val, client, activate);
      forall e: CString
        ensures Find(after.obj.events, e, MAX_EVENT_NAME) == Find(obj.events, e, MAX_EVENT_NAME)
        ensures e != event ==> Find(obj.events, e, MAX_EVENT_NAME) != i
      {
        SetAtSearch(obj.events, i, Apply(obj.events[i].val, client, activate), e, MAX_EVENT_NAME);
        BoundedSearchIsExact(obj.events, e, MAX_EVENT_NAME);
      }
    }
  }

  /** The same for a routed request: what the application's own callbacks answer changes no list. */
  lemma ServeEffect(obj: ServerObject, r: Request, answer: int32)
    requires ObjectInv(obj) && obj.override.None?
    ensures var after := Serve(obj, r, answer);
            && ObjectInv(after.obj) && after.obj.override.None? && after.obj.methods == obj.methods
            && (after.rc == SUCCESS <==>
                  if Bound(obj, MethodOf(r)) then HasEvent(obj, r.event) && |r.client| < MAX_OBJECT_NAME
                  else answer == SUCCESS)
            && (forall e: CString :: HasEvent(after.obj, e) <==> HasEvent(obj, e))
            && (forall e: CString, c: Address ::
                  Listens(after.obj, e, c)
                  <==> if Bound(obj, MethodOf(r)) && after.rc == SUCCESS && e == r.event && c == r.client
                       then r.activate else Listens(obj, e, c))
  {
    SubscriptionEffect(obj, r.event, r.client, r.activate);
  }

  /** The transport's part of the invariant looks at neither tables nor outstanding calls. */
  lemma TransportFrame(cfg: Config, w: World, w': World)
    requires TransportInv(cfg, w)
    requires w' == w.(tables := w'.tables, owners := w'.owners, outstanding := w'.outstanding, granted := w'.granted)
    requires forall id <- w'.granted :: id in w.replies && w.replies[id] == SUCCESS
    ensures TransportInv(cfg, w')
  {
    forall id: nat ensures ReplyOk(cfg, w', id) {
      assert ReplyOk(cfg, w, id);
    }
    forall c: Address, t: CString ensures ChannelOk(cfg, w', c, t) {
      assert ChannelOk(cfg, w, c, t);
    }
  }

  lemma OneNameSame(cfg: Config, w: World, w': World)
    requires OneName(cfg, w) && w'.provider == w.provider
    ensures OneName(cfg, w')
  {
  }

  lemma DropTables(w: World, client: Address, name: CString, event: CString)
    requires TablesInv(w)
    ensures TablesInv(DropEntry(w, client, name, event))
  {
    RemoveInv(TableOf(w, client), name, event);
    forall c: Address ensures TableInv(TableOf(DropEntry(w, client, name, event), c)) {
      assert TableInv(TableOf(w, c));
    }
  }

  lemma DropHasEntry(w: World, client: Address, name: CString, event: CString, c: Address, n: CString, e: CString)
    requires TableInv(TableOf(w, client))
    ensures HasEntry(DropEntry(w, client, name, event), c, n, e)
            <==> HasEntry(w, c, n, e) && (c, n, e) != (client, name, event)
  {
    RemoveEffect(TableOf(w, client), name, event, n, e);
  }

  lemma DropKeeps(cfg: Config, w: World, client: Address, name: CString, event: CString)
    requires Inv(cfg, w)
    ensures Inv(cfg, DropEntry(w, client, name, event))
    ensures !HasEntry(DropEntry(w, client, name, event), client, name, event)
  {
    var w' := DropEntry(w, client, name, event);
    TransportFrame(cfg, w, w');
    OneNameSame(cfg, w, w');
    DropTables(w, client, name, event);
    assert TableInv(TableOf(w, client));
    DropHasEntry(w, client, name, event, client, name, event);
    forall c: Address, n: CString, e: CString ensures EntryOk(cfg, w', c, n, e) {
      assert EntryOk(cfg, w, c, n, e);
      DropHasEntry(w, client, name, event, c, n, e);
    }
  }

  lemma SendChannels(cfg: Config, w: World, r: Request, c: Address, t: CString)
    requires ChannelOk(cfg, w, c, t) && forall id: nat :: ReplyOk(cfg, w, id)
    ensures ChannelOk(cfg, Send(w, r, cfg.route(r.name)), c, t)
  {
    var w' := Send(w, r, cfg.route(r.name));
    var q, q' := Channel(w, c, t), Channel(w', c, t);
    if c == r.client && t == cfg.route(r.name) {
      assert q' == q + [|w.requests|];
    } else {
      assert q' == q;
    }
    forall id, i | id in w'.replies && id < |w'.requests| && Between(cfg, w'.requests[id], c, t) && 0 <= i < |q'|
      ensures id < q'[i]
    {
      assert ReplyOk(cfg, w, id);
    }
  }

  lemma SendReplies(cfg: Config, w: World, r: Request, id: nat)
    requires ReplyOk(cfg, w, id)
    ensures ReplyOk(cfg, Send(w, r, cfg.route(r.name)), id)
  {
  }

  lemma SendTransport(cfg: Config, w: World, r: Request)
    requires TransportInv(cfg, w)
    ensures TransportInv(cfg, Send(w, r, cfg.route(r.name)))
  {
    var w' := Send(w, r, cfg.route(r.name));
    forall id: nat ensures ReplyOk(cfg, w', id) {
      SendReplies(cfg, w, r, id);
    }
    forall c: Address, t: CString ensures ChannelOk(cfg, w', c, t) {
      SendChannels(cfg, w, r, c, t);
    }
  }

  lemma PutHasEntry(w: World, client: Address, name: CString, event: CString, callback: nat,
                    c: Address, n: CString, e: CString)
    requires TableInv(TableOf(w, client)) && !HasEntry(w, client, name, event)
    requires |name| < MAX_OBJECT_NAME && |event| < MAX_EVENT_NAME
    ensures HasEntry(PutEntry(w, client, name, event, callback), c, n, e)
            <==> HasEntry(w, c, n, e) || (c, n, e) == (client, name, event)
  {
    AddEffect(TableOf(w, client), name, event, callback, n, e);
  }

  lemma PutTables(w: World, client: Address, name: CString, event: CString, callback: nat)
    requires TablesInv(w) && !HasEntry(w, client, name, event)
    requires |name| < MAX_OBJECT_NAME && |event| < MAX_EVENT_NAME
    ensures TablesInv(PutEntry(w, client, name, event, callback))
  {
    assert TableInv(TableOf(w, client));
    AddInv(TableOf(w, client), name, event, callback);
    forall c: Address ensures TableInv(TableOf(PutEntry(w, client, name, event, callback), c)) {
      assert TableInv(TableOf(w, c));
    }
  }

  lemma SubscribeKeeps(cfg: Config, w: World, client: Address, name: CString, event: CString, callback: nat)
    requires Inv(cfg, w) && cfg.uses(client, name, event) && |name| < MAX_OBJECT_NAME && |event| < MAX_EVENT_NAME
    requires !HasEntry(w, client, name, event)
    ensures Inv(cfg, Send(PutEntry(w, client, name, event, callback), Request(client, name, event, true),
                          cfg.route(name)))
  {
    var w1 := PutEntry(w, client, name, event, callback);
    var r := Request(client, name, event, true);
    var w' := Send(w1, r, cfg.route(name));
    TransportFrame(cfg, w, w1);
    SendTransport(cfg, w1, r);
    OneNameSame(cfg, w, w');
    PutTables(w, client, name, event, callback);
    SameTables(w1, w');
    assert TableInv(TableOf(w, client));
    forall c: Address, n: CString, e: CString ensures EntryOk(cfg, w', c, n, e) {
      PutHasEntry(w, client, name, event, callback, c, n, e);
      assert EntryOk(cfg, w, c, n, e);
      assert ReplyOk(cfg, w, |w.requests|);
      SubscribeKeepsEntry(cfg, w, client, name, event, callback, c, n, e);
    }
  }

  lemma SameTables(w: World, w': World)
    requires TablesInv(w) && w'.tables == w.tables
    ensures TablesInv(w')
  {
    forall c: Address ensures TableInv(TableOf(w', c)) {
      assert TableInv(TableOf(w, c));
    }
  }

  lemma SubscribeKeepsEntry(cfg: Config, w: World, client: Address, name: CString, event: CString, callback: nat,
                            c: Address, n: CString, e: CString)
    requires cfg.uses(client, name, event) && |name| < MAX_OBJECT_NAME && |event| < MAX_EVENT_NAME
    requires |w.requests| !in w.replies
    requires HasEntry(PutEntry(w, client, name, event, callback), c, n, e)
             <==> HasEntry(w, c, n, e) || (c, n, e) == (client, name, event)
    requires EntryOk(cfg, w, c, n, e)
    ensures EntryOk(cfg, Send(PutEntry(w, client, name, event, callback), Request(client, name, event, true),
                              cfg.route(name)), c, n, e)
  {
    var w1 := PutEntry(w, client, name, event, callback);
    var w' := Send(w1, Request(client, name, event, true), cfg.route(name));
    assert HasEntry(w', c, n, e) <==> HasEntry(w1, c, n, e);
    assert Answerable(w', c, cfg.route(n), e) <==> Answerable(w, c, cfg.route(n), e);
  }

  lemma SendCancelKeeps(cfg: Config, w: World, client: Address, name: CString, event: CString)
    requires Inv(cfg, w) && cfg.uses(client, name, event) && |name| < MAX_OBJECT_NAME
    requires !HasEntry(w, client, name, event)
    ensures Inv(cfg, Send(w, Request(client, name, event, false), cfg.route(name)))
  {
    var r := Request(client, name, event, false);
    var w' := Send(w, r, cfg.route(name));
    SendTransport(cfg, w, r);
    OneNameSame(cfg, w, w');
    SameTables(w, w');
    forall c: Address, n: CString, e: CString ensures EntryOk(cfg, w', c, n, e) {
      assert EntryOk(cfg, w, c, n, e);
      CancelKeepsEntry(cfg, w, client, name, event, c, n, e);
    }
  }

  lemma CancelKeepsEntry(cfg: Config, w: World, client: Address, name: CString, event: CString,
                         c: Address, n: CString, e: CString)
    requires OneName(cfg, w) && EntryOk(cfg, w, c, n, e) && cfg.uses(client, name, event) && |name| < MAX_OBJECT_NAME
    requires !HasEntry(w, client, name, event)
    ensures EntryOk(cfg, Send(w, Request(client, name, event, false), cfg.route(name)), c, n, e)
  {
    var w' := Send(w, Request(client, name, event, false), cfg.route(name));
    assert HasEntry(w', c, n, e) <==> HasEntry(w, c, n, e);
    assert Answerable(w', c, cfg.route(n), e) <==> Answerable(w, c, cfg.route(n), e);
  }

  lemma PopKeeps(cfg: Config, w: World, client: Address, target: CString)
    requires Inv(cfg, w) && |Channel(w, client, target)| > 0
    ensures Inv(cfg, Pop(w, client, target))
  {
    var w' := Pop(w, client, target);
    PopTransport(cfg, w, client, target);
    OneNameSame(cfg, w, w');
    SameTables(w, w');
    forall c: Address, n: CString, e: CString ensures EntryOk(cfg, w', c, n, e) {
      assert EntryOk(cfg, w, c, n, e);
    }
  }

  lemma PopTransport(cfg: Config, w: World, client: Address, target: CString)
    requires TransportInv(cfg, w) && |Channel(w, client, target)| > 0
    ensures TransportInv(cfg, Pop(w, client, target))
  {
    var w' := Pop(w, client, target);
    forall id: nat ensures ReplyOk(cfg, w', id) {
      assert ReplyOk(cfg, w, id);
    }
    forall c: Address, t: CString ensures ChannelOk(cfg, w', c, t) {
      assert ChannelOk(cfg, w, c, t);
      PopChannelOk(cfg, w, client, target, c, t);
    }
  }

  lemma PopChannelOk(cfg: Config, w: World, client: Address, target: CString, c: Address, t: CString)
    requires |Channel(w, client, target)| > 0 && ChannelOk(cfg, w, c, t)
    ensures ChannelOk(cfg, Pop(w, client, target), c, t)
  {
  }

  /** Requests of one client for one object are handled oldest first. */
  ghost predicate IsNext(cfg: Config, w: World, client: Address, target: CString, id: nat) {
    && id < |w.requests| && Between(cfg, w.requests[id], client, target)
    && (forall i :: 0 <= i < |Channel(w, client, target)| ==> id < Channel(w, client, target)[i])
    && (forall k | k in w.replies && k < |w.requests| && Between(cfg, w.requests[k], client, target) :: k < id)
  }

  /** Changing listeners of one object changes nothing that is on offer, nor any other object. */
  lemma ReplaceObject(w: World, w': World, target: CString, obj: ServerObject)
    requires ProviderOk(w) && target in w.provider && w'.provider == w.provider[target := obj]
    requires ObjectInv(obj) && obj.override.None? && obj.methods == w.provider[target].methods
    requires forall e: CString :: HasEvent(obj, e) <==> HasEvent(w.provider[target], e)
    ensures ProviderOk(w') && SameOffers(w, w')
    ensures forall t: CString, e: CString, c: Address ::
              IsListener(w', t, e, c) <==> if t == target then Listens(obj, e, c) else IsListener(w, t, e, c)
  {
  }

  lemma HandleOffers(cfg: Config, w: World, target: CString, id: nat, answer: int32)
    requires ProviderOk(w) && id < |w.requests| && target in w.provider
    ensures var w', r := Handle(w, target, id, answer), w.requests[id];
            && ProviderOk(w') && SameOffers(w, w')
            && (w'.replies[id] == SUCCESS
                <==> if Binds(w, target, MethodOf(r)) then Answerable(w, r.client, target, r.event)
                     else answer == SUCCESS)
            && (forall t: CString, e: CString, c: Address ::
                  IsListener(w', t, e, c)
                  <==> if Binds(w, target, MethodOf(r)) && w'.replies[id] == SUCCESS
                          && t == target && e == r.event && c == r.client
                       then r.activate else IsListener(w, t, e, c))
  {
    ServeEffect(w.provider[target], w.requests[id], answer);
    var w' := Handle(w, target, id, answer);
    ReplaceObject(w, w', target, w'.provider[target]);
  }

  lemma HandleKeeps(cfg: Config, w: World, client: Address, target: CString, id: nat, answer: int32)
    requires Inv(cfg, w) && target in w.provider && IsNext(cfg, w, client, target, id)
    ensures Inv(cfg, Handle(w, target, id, answer))
  {
    var w' := Handle(w, target, id, answer);
    HandleTransport(cfg, w, client, target, id, answer);
    HandleOffers(cfg, w, target, id, answer);
    OneNameFrame(cfg, w, w');
    SameTables(w, w');
    forall c: Address, n: CString, e: CString ensures EntryOk(cfg, w', c, n, e) {
      HandleKeepsEntry(cfg, w, client, target, id, answer, c, n, e);
    }
  }

  lemma HandleTransport(cfg: Config, w: World, client: Address, target: CString, id: nat, answer: int32)
    requires TransportInv(cfg, w) && target in w.provider && IsNext(cfg, w, client, target, id)
    ensures TransportInv(cfg, Handle(w, target, id, answer))
  {
    var w' := Handle(w, target, id, answer);
    HandleOffers(cfg, w, target, id, answer);
    forall k: nat ensures ReplyOk(cfg, w', k) {
      assert ReplyOk(cfg, w, k);
      if k != id {
        OtherReply(cfg, w, w', k);
      }
    }
    forall c: Address, t: CString ensures ChannelOk(cfg, w', c, t) {
      assert ChannelOk(cfg, w, c, t);
      HandleChannels(cfg, w, w', client, target, id, c, t);
    }
  }

  lemma OtherReply(cfg: Config, w: World, w': World, k: nat)
    requires ReplyOk(cfg, w, k) && SameOffers(w, w') && w'.requests == w.requests
    requires (k in w'.replies <==> k in w.replies) && (k in w.replies ==> w'.replies[k] == w.replies[k])
    ensures ReplyOk(cfg, w', k)
  {
  }

  lemma HandleChannels(cfg: Config, w: World, w': World, client: Address, target: CString, id: nat,
                       c: Address, t: CString)
    requires ChannelOk(cfg, w, c, t) && IsNext(cfg, w, client, target, id)
    requires id in w'.replies && w' == w.(provider := w'.provider, replies := w.replies[id := w'.replies[id]])
    ensures ChannelOk(cfg, w', c, t)
  {
    assert Channel(w', c, t) == Channel(w, c, t);
  }

  lemma OneNameFrame(cfg: Config, w: World, w': World)
    requires OneName(cfg, w) && SameOffers(w, w')
    ensures OneName(cfg, w')
  {
  }

  lemma HandleKeepsEntry(cfg: Config, w: World, client: Address, target: CString, id: nat, answer: int32,
                         c: Address, n: CString, e: CString)
    requires Inv(cfg, w) && target in w.provider && IsNext(cfg, w, client, target, id)
    ensures EntryOk(cfg, Handle(w, target, id, answer), c, n, e)
  {
    HandleOffers(cfg, w, target, id, answer);
    assert EntryOk(cfg, w, c, n, e);
    if HasEntry(w, c, n, e) {
      EntrySurvives(cfg, w, client, target, id, w.owners[(c, n, e)], c, n, e);
    }
  }

  /** Handling a request of the same channel does not cancel what was granted before it. */
  lemma EntrySurvives(cfg: Config, w: World, client: Address, target: CString, id: nat, owner: nat,
                      c: Address, n: CString, e: CString)
    requires TransportInv(cfg, w) && IsNext(cfg, w, client, target, id)
    requires owner < |w.requests| && w.requests[owner] == Request(c, n, e, true)
    requires Answerable(w, c, cfg.route(n), e) ==> NeverCancelled(cfg, w, owner, c, cfg.route(n), e)
    ensures (owner != id && owner in w.replies && w.replies[owner] == SUCCESS && Binds(w, cfg.route(n), SUBSCRIBE)
             && c == client && cfg.route(n) == target && e == w.requests[id].event) ==> w.requests[id].activate
  {
    assert ReplyOk(cfg, w, owner);
    if c == client && cfg.route(n) == target {
      assert Between(cfg, w.requests[owner], client, target);
    }
  }

  lemma FinishKeeps(cfg: Config, w: World, id: nat, ok: bool)
    requires Inv(cfg, w) && id < |w.requests| && (ok ==> id in w.replies && w.replies[id] == SUCCESS)
    ensures Inv(cfg, Finish(w, id, ok))
  {
    var r := w.requests[id];
    var done := w.(outstanding := w.outstanding - {id});
    SameCoreKeeps(cfg, w, done);
    if r.activate && ok {
      SameCoreKeeps(cfg, w, done.(granted := w.granted + {id}));
    } else if r.activate {
      DropKeeps(cfg, done, r.client, r.name, r.event);
    }
  }

  /** Which calls are still outstanding or were granted matters to no other part of the invariant. */
  lemma SameCoreKeeps(cfg: Config, w: World, w': World)
    requires Inv(cfg, w)
    requires w' == w.(outstanding := w'.outstanding, granted := w'.granted)
    requires forall id <- w'.granted :: id in w.replies && w.replies[id] == SUCCESS
    ensures Inv(cfg, w')
  {
    TransportFrame(cfg, w, w');
    OneNameSame(cfg, w, w');
    SameTables(w, w');
    forall c: Address, n: CString, e: CString ensures EntryOk(cfg, w', c, n, e) {
      assert EntryOk(cfg, w, c, n, e);
    }
  }

  lemma DeliverTransport(cfg: Config, w: World, client: Address, target: CString, answer: int32)
    requires TransportInv(cfg, w) && |Channel(w, client, target)| > 0 && target in w.provider
    ensures Channel(w, client, target)[0] < |w.requests|
    ensures TransportInv(cfg, Pop(Handle(w, target, Channel(w, client, target)[0], answer), client, target))
  {
    assert ChannelOk(cfg, w, client, target);
    var q, popped := Channel(w, client, target), Pop(w, client, target);
    PopTransport(cfg, w, client, target);
    PopNext(cfg, w, client, target);
    HandleTransport(cfg, popped, client, target, q[0], answer);
    assert Pop(Handle(w, target, q[0], answer), client, target) == Handle(popped, target, q[0], answer);
  }

  lemma PopNext(cfg: Config, w: World, client: Address, target: CString)
    requires ChannelOk(cfg, w, client, target) && |Channel(w, client, target)| > 0
    ensures IsNext(cfg, Pop(w, client, target), client, target, Channel(w, client, target)[0])
  {
    assert Channel(Pop(w, client, target), client, target) == Channel(w, client, target)[1..];
  }

  lemma DeliverKeeps(cfg: Config, w: World, client: Address, target: CString, answer: int32)
    requires Inv(cfg, w) && |Channel(w, client, target)| > 0 && target in w.provider
    ensures Channel(w, client, target)[0] < |w.requests|
    ensures Inv(cfg, Pop(Handle(w, target, Channel(w, client, target)[0], answer), client, target))
  {
    assert ChannelOk(cfg, w, client, target);
    var q, popped := Channel(w, client, target), Pop(w, client, target);
    PopKeeps(cfg, w, client, target);
    PopNext(cfg, w, client, target);
    HandleKeeps(cfg, popped, client, target, q[0], answer);
    assert Pop(Handle(w, target, q[0], answer), client, target) == Handle(popped, target, q[0], answer);
  }

  lemma FinishTransport(cfg: Config, w: World, id: nat, ok: bool)
    requires TransportInv(cfg, w) && id < |w.requests| && (ok ==> id in w.replies && w.replies[id] == SUCCESS)
    ensures TransportInv(cfg, Finish(w, id, ok))
  {
    TransportFrame(cfg, w, Finish(w, id, ok));
  }

  lemma NextTransport(cfg: Config, w: World, step: Step)
    requires TransportInv(cfg, w)
    ensures TransportInv(cfg, Next(cfg, w, step))
  {
    match step
    case Subscribe(client, name, event, callback) =>
      if Next(cfg, w, step) != w {
        TransportFrame(cfg, w, PutEntry(w, client, name, event, callback));
        SendTransport(cfg, PutEntry(w, client, name, event, callback), Request(client, name, event, true));
      }
    case Unsubscribe(client, name, event) =>
      if Next(cfg, w, step) != w {
        TransportFrame(cfg, w, DropEntry(w, client, name, event));
        SendTransport(cfg, DropEntry(w, client, name, event), Request(client, name, event, false));
      }
    case Deliver(client, target, answer) =>
      if |Channel(w, client, target)| > 0 && target in w.provider {
        DeliverTransport(cfg, w, client, target, answer);
      }
    case Lose(client, target) =>
      if |Channel(w, client, target)| > 0 {
        PopTransport(cfg, w, client, target);
      }
    case Return(id) =>
      if id in w.outstanding && id in w.replies && id < |w.requests| {
        FinishTransport(cfg, w, id, w.replies[id] == SUCCESS);
      }
    case GiveUp(id) =>
      if id in w.outstanding && id < |w.requests| {
        FinishTransport(cfg, w, id, false);
      }
  }

  /** Requests and replies stay in order in every run, whatever names the clients use. */
  lemma {:induction false} RunTransport(cfg: Config, w: World, steps: seq<Step>)
    requires Initial(w)
    ensures TransportInv(cfg, Run(cfg, w, steps))
  {
    if |steps| == 0 {
    } else {
      RunTransport(cfg, w, steps[..|steps| - 1]);
      NextTransport(cfg, Run(cfg, w, steps[..|steps| - 1]), steps[|steps| - 1]);
    }
  }

  /** Every step keeps the invariant, whatever the application's callbacks answer. */
  lemma NextKeeps(cfg: Config, w: World, step: Step)
    requires Inv(cfg, w)
    ensures Inv(cfg, Next(cfg, w, step))
  {
    match step
    case Subscribe(client, name, event, callback) =>
      if Next(cfg, w, step) != w {
        SubscribeKeeps(cfg, w, client, name, event, callback);
      }
    case Unsubscribe(client, name, event) =>
      if Next(cfg, w, step) != w {
        DropKeeps(cfg, w, client, name, event);
        SendCancelKeeps(cfg, DropEntry(w, client, name, event), client, name, event);
      }
    case Deliver(client, target, answer) =>
      if |Channel(w, client, target)| > 0 && target in w.provider {
        DeliverKeeps(cfg, w, client, target, answer);
      }
    case Lose(client, target) =>
      if |Channel(w, client, target)| > 0 {
        PopKeeps(cfg, w, client, target);
      }
    case Return(id) =>
      if id in w.outstanding && id in w.replies && id < |w.requests| {
        FinishKeeps(cfg, w, id, w.replies[id] == SUCCESS);
      }
    case GiveUp(id) =>
      if id in w.outstanding && id < |w.requests| {
        FinishKeeps(cfg, w, id, false);
      }
  }

  lemma {:induction false} RunKeeps(cfg: Config, w: World, steps: seq<Step>)
    requires Initial(w) && OneName(cfg, w)
    ensures Inv(cfg, Run(cfg, w, steps))
  {
    if |steps| == 0 {
    } else {
      RunKeeps(cfg, w, steps[..|steps| - 1]);
      NextKeeps(cfg, Run(cfg, w, steps[..|steps| - 1]), steps[|steps| - 1]);
    }
  }

  /** Which handlers and events the provider has does not change during a run. */
  lemma {:induction false} RunOffers(cfg: Config, w: World, steps: seq<Step>)
    requires ProviderOk(w)
    ensures ProviderOk(Run(cfg, w, steps)) && SameOffers(w, Run(cfg, w, steps))
  {
    if |steps| == 0 {
    } else {
      RunOffers(cfg, w, steps[..|steps| - 1]);
      NextOffers(cfg, Run(cfg, w, steps[..|steps| - 1]), steps[|steps| - 1]);
    }
  }

  lemma NextOffers(cfg: Config, w: World, step: Step)
    requires ProviderOk(w)
    ensures ProviderOk(Next(cfg, w, step)) && SameOffers(w, Next(cfg, w, step))
  {
    if step.Deliver? {
      DeliverOffers(cfg, w, step.client, step.target, step.answer);
    } else {
      OnlyDeliveriesAct(cfg, w, step);
      SameProvider(w, Next(cfg, w, step));
    }
  }

  lemma OnlyDeliveriesAct(cfg: Config, w: World, step: Step)
    requires !step.Deliver?
    ensures Next(cfg, w, step).provider == w.provider
  {
  }

  /** A delivery changes nothing on offer, and takes off a list only where cancellations reach the
      built-in handler. */
  lemma DeliverOffers(cfg: Config, w: World, client: Address, target: CString, answer: int32)
    requires ProviderOk(w)
    ensures var w' := Next(cfg, w, Deliver(client, target, answer));
            && ProviderOk(w') && SameOffers(w, w')
            && (forall t: CString, e: CString, c: Address ::
                  IsListener(w, t, e, c) && !Binds(w, t, UNSUBSCRIBE) ==> IsListener(w', t, e, c))
  {
    var q := Channel(w, client, target);
    if |q| > 0 && target in w.provider && q[0] < |w.requests| {
      var handled := Handle(w, target, q[0], answer);
      HandleOffers(cfg, w, target, q[0], answer);
      SameProvider(handled, Pop(handled, client, target));
      assert Next(cfg, w, Deliver(client, target, answer)) == Pop(handled, client, target);
    }
  }

  lemma SameProvider(w: World, w': World)
    requires ProviderOk(w) && w'.provider == w.provider
    ensures ProviderOk(w') && SameOffers(w, w')
    ensures forall t: CString, e: CString, c: Address :: IsListener(w', t, e, c) <==> IsListener(w, t, e, c)
  {
  }

  lemma SettledIsListed(cfg: Config, w: World, client: Address, name: CString, event: CString)
    requires Inv(cfg, w) && Settled(w, client, name, event) && Binds(w, cfg.route(name), SUBSCRIBE)
    ensures IsListener(w, cfg.route(name), event, client) && !CancelInFlight(w, client, cfg.route(name), event)
  {
    var id, target := w.owners[(client, name, event)], cfg.route(name);
    assert EntryOk(cfg, w, client, name, event);
    assert ReplyOk(cfg, w, id);
    assert ChannelOk(cfg, w, client, target);
    assert Between(cfg, w.requests[id], client, target);
    assert NeverCancelled(cfg, w, id, client, target, event);
  }

  /** In every run, however requests are lost, delayed or given up: a settled entry means that the
      provider lists the client and that no cancellation is on its way. */
  lemma Safety(cfg: Config, w: World, steps: seq<Step>)
    requires Initial(w) && OneName(cfg, w) && Served(cfg, w)
    ensures Safe(cfg, Run(cfg, w, steps))
  {
    RunKeeps(cfg, w, steps);
    RunOffers(cfg, w, steps);
    var w' := Run(cfg, w, steps);
    forall client: Address, name: CString, event: CString | Settled(w', client, name, event)
      ensures IsListener(w', cfg.route(name), event, client) && !CancelInFlight(w', client, cfg.route(name), event)
    {
      assert EntryOk(cfg, w', client, name, event);
      assert ReplyOk(cfg, w', w'.owners[(client, name, event)]);
      SettledIsListed(cfg, w', client, name, event);
    }
  }

  // ---- Exact conditions -------------------------------------------------------------------

  lemma RunStep(cfg: Config, w: World, steps: seq<Step>)
    requires |steps| > 0
    ensures Run(cfg, w, steps) == Next(cfg, Run(cfg, w, steps[..|steps| - 1]), steps[|steps| - 1])
  {
  }

  lemma {:induction false} RunConcat(cfg: Config, w: World, a: seq<Step>, b: seq<Step>)
    ensures Run(cfg, w, a + b) == Run(cfg, Run(cfg, w, a), b)
  {
    if |b| == 0 {
      assert a + b == a;
    } else {
      var n, whole := |b| - 1, a + b;
      RunConcat(cfg, w, a, b[..n]);
      assert whole[..|whole| - 1] == a + b[..n] && whole[|whole| - 1] == b[n];
      RunStep(cfg, w, whole);
      RunStep(cfg, Run(cfg, w, a), b);
    }
  }

  lemma RunThree(cfg: Config, w: World, a: Step, b: Step, c: Step)
    ensures Run(cfg, w, [a, b, c]) == Next(cfg, Next(cfg, Next(cfg, w, a), b), c)
    ensures Run(cfg, w, [a, b]) == Next(cfg, Next(cfg, w, a), b)
    ensures Run(cfg, w, [a]) == Next(cfg, w, a)
  {
    assert [a, b, c][..2] == [a, b] && [a, b][..1] == [a] && [a][..0] == [];
    assert Run(cfg, w, [a]) == Next(cfg, w, a);
  }

  /** Nothing of this client is on its way to this object. */
  predicate Idle(w: World, client: Address, target: CString) {
    Channel(w, client, target) == []
  }

  ghost predicate SameChannels(w: World, w': World) {
    forall c: Address, t: CString :: Channel(w', c, t) == Channel(w, c, t)
  }

  /** A subscribe request for this can be answered with success. */
  predicate Grantable(w: World, client: Address, target: CString, event: CString) {
    target in w.provider && (Binds(w, target, SUBSCRIBE) ==> Answerable(w, client, target, event))
  }

  /** What a round of exchanges starts from. */
  ghost predicate RoundReady(cfg: Config, w: World, client: Address, name: CString, event: CString) {
    && ProviderOk(w) && TableInv(TableOf(w, client)) && Idle(w, client, cfg.route(name))
    && cfg.uses(client, name, event) && |name| < MAX_OBJECT_NAME && |event| < MAX_EVENT_NAME
  }

  function SubscribeRound(client: Address, name: CString, event: CString, callback: nat, target: CString, id: nat)
    : seq<Step>
  {
    [Subscribe(client, name, event, callback), Deliver(client, target, SUCCESS), Return(id)]
  }

  /** Delivering the only request of a channel: the provider has handled it, and nothing else about
      the world has changed. */
  lemma DeliverOnly(cfg: Config, w: World, client: Address, target: CString, id: nat, answer: int32)
    requires ProviderOk(w) && target in w.provider && Channel(w, client, target) == [id] && id < |w.requests|
    ensures var w', r := Next(cfg, w, Deliver(client, target, answer)), w.requests[id];
            && ProviderOk(w') && SameOffers(w, w') && Idle(w', client, target)
            && (forall c: Address, t: CString | (c, t) != (client, target) :: Channel(w', c, t) == Channel(w, c, t))
            && w' == w.(channels := w'.channels, provider := w'.provider, replies := w'.replies)
            && id in w'.replies
            && (w'.replies[id] == SUCCESS
                <==> if Binds(w, target, MethodOf(r)) then Answerable(w, r.client, target, r.event)
                     else answer == SUCCESS)
            && (IsListener(w', target, r.event, r.client)
                <==> if Binds(w, target, MethodOf(r)) && w'.replies[id] == SUCCESS then r.activate
                     else IsListener(w, target, r.event, r.client))
  {
    var handled := Handle(w, target, id, answer);
    DeliverHandles(cfg, w, client, target, id, answer);
    HandleOffers(cfg, w, target, id, answer);
    SameProvider(handled, Pop(handled, client, target));
    PopChannels(handled, client, target);
  }

  lemma DeliverHandles(cfg: Config, w: World, client: Address, target: CString, id: nat, answer: int32)
    requires target in w.provider && Channel(w, client, target) == [id] && id < |w.requests|
    ensures Channel(Handle(w, target, id, answer), client, target) == [id]
    ensures Next(cfg, w, Deliver(client, target, answer)) == Pop(Handle(w, target, id, answer), client, target)
  {
  }

  lemma PopChannels(w: World, client: Address, target: CString)
    requires |Channel(w, client, target)| > 0
    ensures var w' := Pop(w, client, target);
            && Channel(w', client, target) == Channel(w, client, target)[1..]
            && (forall c: Address, t: CString | (c, t) != (client, target) :: Channel(w', c, t) == Channel(w, c, t))
  {
  }

  lemma SendOnIdle(w: World, r: Request, target: CString)
    requires Idle(w, r.client, target)
    ensures var w' := Send(w, r, target);
            && Channel(w', r.client, target) == [|w.requests|]
            && (forall c: Address, t: CString | (c, t) != (r.client, target) :: Channel(w', c, t) == Channel(w, c, t))
  {
  }

  lemma ReturnGrants(cfg: Config, w: World, id: nat)
    requires id in w.outstanding && id < |w.requests| && w.requests[id].activate
    requires id in w.replies && w.replies[id] == SUCCESS
    ensures var w' := Next(cfg, w, Return(id));
            && w' == w.(outstanding := w.outstanding - {id}, granted := w.granted + {id})
            && SameChannels(w, w')
  {
  }

  lemma AskSends(cfg: Config, w: World, client: Address, name: CString, event: CString, callback: nat)
    requires RoundReady(cfg, w, client, name, event) && !HasEntry(w, client, name, event)
    ensures var w' := Next(cfg, w, Subscribe(client, name, event, callback));
            var put := PutEntry(w, client, name, event, callback);
            && w' == Send(put, Request(client, name, event, true), cfg.route(name))
            && Channel(w', client, cfg.route(name)) == [|w.requests|]
            && (forall c: Address, t: CString | (c, t) != (client, cfg.route(name)) ::
                  Channel(w', c, t) == Channel(w, c, t))
  {
    SendOnIdle(PutEntry(w, client, name, event, callback), Request(client, name, event, true), cfg.route(name));
  }

  /** A subscribe request that is delivered, and answered with success where the answer is up to
      the application. */
  lemma AskAndDeliver(cfg: Config, w: World, client: Address, name: CString, event: CString, callback: nat)
    requires RoundReady(cfg, w, client, name, event) && !HasEntry(w, client, name, event)
    requires Grantable(w, client, cfg.route(name), event)
    ensures var target, id := cfg.route(name), |w.requests|;
            var asked := Next(cfg, w, Subscribe(client, name, event, callback));
            var w' := Next(cfg, asked, Deliver(client, target, SUCCESS));
            var put := PutEntry(w, client, name, event, callback);
            && ProviderOk(w') && SameChannels(w, w') && SameOffers(w, w')
            && w'.tables == put.tables && w'.owners == put.owners && w'.granted == w.granted
            && w'.requests == w.requests + [Request(client, name, event, true)]
            && id in w'.outstanding && id in w'.replies && w'.replies[id] == SUCCESS
            && (IsListener(w', target, event, client)
                <==> Binds(w, target, SUBSCRIBE) || IsListener(w, target, event, client))
  {
    AskSends(cfg, w, client, name, event, callback);
    var sent := Next(cfg, w, Subscribe(client, name, event, callback));
    assert SameOffers(w, sent);
    DeliverOnly(cfg, sent, client, cfg.route(name), |w.requests|, SUCCESS);
  }

  /** A subscription that meets no trouble settles. */
  lemma RoundEnds(cfg: Config, w: World, client: Address, name: CString, event: CString, callback: nat)
    requires RoundReady(cfg, w, client, name, event) && !HasEntry(w, client, name, event)
    requires Grantable(w, client, cfg.route(name), event)
    ensures var target := cfg.route(name);
            var w' := Run(cfg, w, SubscribeRound(client, name, event, callback, target, |w.requests|));
            var put := PutEntry(w, client, name, event, callback);
            && ProviderOk(w') && SameChannels(w, w') && SameOffers(w, w')
            && w'.tables == put.tables && w'.owners == put.owners && w'.granted == w.granted + {|w.requests|}
            && |w'.requests| == |w.requests| + 1
            && (IsListener(w', target, event, client)
                <==> Binds(w, target, SUBSCRIBE) || IsListener(w, target, event, client))
  {
    var target, id := cfg.route(name), |w.requests|;
    RunThree(cfg, w, Subscribe(client, name, event, callback), Deliver(client, target, SUCCESS), Return(id));
    AskAndDeliver(cfg, w, client, name, event, callback);
    var asked := Next(cfg, Next(cfg, w, Subscribe(client, name, event, callback)), Deliver(client, target, SUCCESS));
    ReturnGrants(cfg, asked, id);
    SameProvider(asked, Next(cfg, asked, Return(id)));
  }

  /** It also disturbs no settled one. */
  lemma SubscribeSettles(cfg: Config, w: World, client: Address, name: CString, event: CString, callback: nat)
    requires RoundReady(cfg, w, client, name, event) && !HasEntry(w, client, name, event)
    requires Grantable(w, client, cfg.route(name), event)
    ensures var target := cfg.route(name);
            var w' := Run(cfg, w, SubscribeRound(client, name, event, callback, target, |w.requests|));
            && ProviderOk(w') && SameChannels(w, w') && SameOffers(w, w')
            && TableOf(w', client) == AddEntry(TableOf(w, client), name, event, callback)
            && TableInv(TableOf(w', client))
            && Settled(w', client, name, event) && |w'.requests| == |w.requests| + 1
            && (IsListener(w', target, event, client)
                <==> Binds(w, target, SUBSCRIBE) || IsListener(w, target, event, client))
            && (forall n: CString | n != name ::
                  && (HasEntry(w', client, n, event) <==> HasEntry(w, client, n, event))
                  && (Settled(w, client, n, event) ==> Settled(w', client, n, event)))
  {
    RoundEnds(cfg, w, client, name, event, callback);
    var w' := Run(cfg, w, SubscribeRound(client, name, event, callback, cfg.route(name), |w.requests|));
    AddInv(TableOf(w, client), name, event, callback);
    PutHasEntry(w, client, name, event, callback, client, name, event);
    forall n: CString | n != name
      ensures HasEntry(w', client, n, event) <==> HasEntry(w, client, n, event)
      ensures Settled(w, client, n, event) ==> Settled(w', client, n, event)
    {
      PutHasEntry(w, client, name, event, callback, client, n, event);
    }
  }

  lemma EventNameShort(w: World, target: CString, event: CString)
    requires ProviderOk(w) && Offered(w, target, event)
    ensures |event| < MAX_EVENT_NAME
  {
    BoundedSearchIsExact(w.provider[target].events, event, MAX_EVENT_NAME);
  }

  /** Cancelling under one name leaves what was settled under another, with the cancellation on its
      way to the object. */
  lemma CancelSent(cfg: Config, w: World, client: Address, name: CString, name': CString, event: CString)
    requires RoundReady(cfg, w, client, name, event) && name != name' && Settled(w, client, name', event)
    ensures var w', target := Next(cfg, w, Unsubscribe(client, name, event)), cfg.route(name);
            && Settled(w', client, name', event) && CancelInFlight(w', client, target, event)
            && Channel(w', client, target) == [|w.requests|] && w'.provider == w.provider
            && w'.requests == w.requests + [Request(client, name, event, false)]
  {
    var dropped, r := DropEntry(w, client, name, event), Request(client, name, event, false);
    var w' := Next(cfg, w, Unsubscribe(client, name, event));
    SendOnIdle(dropped, r, cfg.route(name));
    DropHasEntry(w, client, name, event, client, name', event);
    assert Cancels(w'.requests[Channel(w', client, cfg.route(name))[0]], event);
  }

  lemma CancelDelivered(cfg: Config, w: World, client: Address, name: CString, name': CString, event: CString)
    requires RoundReady(cfg, w, client, name, event) && name != name' && Settled(w, client, name', event)
    requires Binds(w, cfg.route(name), UNSUBSCRIBE) && Answerable(w, client, cfg.route(name), event)
    ensures var sent := Next(cfg, w, Unsubscribe(client, name, event));
            var w' := Next(cfg, sent, Deliver(client, cfg.route(name), SUCCESS));
            Settled(w', client, name', event) && !IsListener(w', cfg.route(name), event, client)
  {
    CancelSent(cfg, w, client, name, name', event);
    var sent := Next(cfg, w, Unsubscribe(client, name, event));
    DeliverOnly(cfg, sent, client, cfg.route(name), |w.requests|, SUCCESS);
  }

  lemma InitialReady(cfg: Config, w: World, client: Address, name: CString, event: CString)
    requires Initial(w) && cfg.uses(client, name, event) && |name| < MAX_OBJECT_NAME && |event| < MAX_EVENT_NAME
    ensures RoundReady(cfg, w, client, name, event) && !HasEntry(w, client, name, event)
    ensures TableOf(w, client) == [] && |w.requests| == 0 && forall t: CString :: Idle(w, client, t)
  {
  }

  /** The first subscription of all. */
  lemma FirstRound(cfg: Config, w: World, client: Address, name: CString, event: CString, callback: nat)
    requires Initial(w) && cfg.uses(client, name, event) && |name| < MAX_OBJECT_NAME && |event| < MAX_EVENT_NAME
    requires Grantable(w, client, cfg.route(name), event)
    ensures var target := cfg.route(name);
            var w' := Run(cfg, w, SubscribeRound(client, name, event, callback, target, 0));
            && ProviderOk(w') && SameOffers(w, w') && |w'.requests| == 1 && (forall t: CString :: Idle(w', client, t))
            && TableOf(w', client) == AddEntry([], name, event, callback) && TableInv(TableOf(w', client))
            && Settled(w', client, name, event)
            && (IsListener(w', target, event, client)
                <==> Binds(w, target, SUBSCRIBE) || IsListener(w, target, event, client))
            && (forall n: CString | n != name :: !HasEntry(w', client, n, event))
  {
    InitialReady(cfg, w, client, name, event);
    SubscribeSettles(cfg, w, client, name, event, callback);
    var w' := Run(cfg, w, SubscribeRound(client, name, event, callback, cfg.route(name), 0));
    forall t: CString ensures Idle(w', client, t) {
      assert Idle(w, client, t);
    }
    forall n: CString ensures !HasEntry(w, client, n, event) {
      assert TableOf(w, client) == [];
    }
  }

  lemma BothSettle(cfg: Config, w: World, client: Address, name: CString, name': CString, event: CString)
    returns (steps: seq<Step>)
    requires Initial(w) && cfg.uses(client, name, event) && cfg.uses(client, name', event)
    requires name != name' && |name| < MAX_OBJECT_NAME && |name'| < MAX_OBJECT_NAME
    requires cfg.route(name) == cfg.route(name') && Answerable(w, client, cfg.route(name), event)
    ensures var w' := Run(cfg, w, steps);
            && RoundReady(cfg, w', client, name, event) && SameOffers(w, w') && Settled(w', client, name', event)
  {
    var target := cfg.route(name);
    EventNameShort(w, target, event);
    var first := SubscribeRound(client, name, event, 0, target, 0);
    FirstRound(cfg, w, client, name, event, 0);
    var w1 := Run(cfg, w, first);
    assert Idle(w1, client, target);
    var second := SubscribeRound(client, name', event, 0, target, 1);
    SettleNext(cfg, w1, client, name, name', event);
    RunConcat(cfg, w, first, second);
    steps := first + second;
  }

  lemma SettleNext(cfg: Config, w: World, client: Address, name: CString, name': CString, event: CString)
    requires RoundReady(cfg, w, client, name, event) && RoundReady(cfg, w, client, name', event)
    requires !HasEntry(w, client, name', event) && cfg.route(name) == cfg.route(name')
    requires Answerable(w, client, cfg.route(name), event)
    ensures var w' := Run(cfg, w, SubscribeRound(client, name', event, 0, cfg.route(name), |w.requests|));
            && RoundReady(cfg, w', client, name, event) && SameOffers(w, w') && Settled(w', client, name', event)
  {
    SubscribeSettles(cfg, w, client, name', event, 0);
  }

  /** Two names for one object defeat the protocol: subscribe under both and cancel one, and the
      other entry stays settled with a cancellation on its way. Where the cancellation reaches the
      built-in handler, the provider then no longer lists the client. */
  lemma TwoNamesAreUnsafe(cfg: Config, w: World, client: Address, name: CString, name': CString, event: CString)
    returns (steps: seq<Step>)
    requires Initial(w) && cfg.uses(client, name, event) && cfg.uses(client, name', event)
    requires name != name' && |name| < MAX_OBJECT_NAME && |name'| < MAX_OBJECT_NAME
    requires cfg.route(name) == cfg.route(name') && Answerable(w, client, cfg.route(name), event)
    ensures !Safe(cfg, Run(cfg, w, steps)) && Settled(Run(cfg, w, steps), client, name', event)
    ensures Binds(w, cfg.route(name), UNSUBSCRIBE) ==> !IsListener(Run(cfg, w, steps), cfg.route(name), event, client)
  {
    var target := cfg.route(name);
    var both := BothSettle(cfg, w, client, name, name', event);
    var w2 := Run(cfg, w, both);
    var cancel, deliver := Unsubscribe(client, name, event), Deliver(client, target, SUCCESS);
    RunThree(cfg, w2, cancel, deliver, cancel);
    if Binds(w, target, UNSUBSCRIBE) {
      CancelDelivered(cfg, w2, client, name, name', event);
      steps := both + [cancel, deliver];
      RunConcat(cfg, w, both, [cancel, deliver]);
    } else {
      CancelSent(cfg, w2, client, name, name', event);
      steps := both + [cancel];
      RunConcat(cfg, w, both, [cancel]);
    }
  }

  /** Where subscribe requests do not reach the built-in handler, the application's answer decides:
      if it says success, the entry settles and the provider does not list the client. */
  lemma UnservedIsUnsafe(cfg: Config, w: World, client: Address, name: CString, event: CString)
    requires Initial(w) && cfg.uses(client, name, event) && |name| < MAX_OBJECT_NAME && |event| < MAX_EVENT_NAME
    requires cfg.route(name) in w.provider && !Binds(w, cfg.route(name), SUBSCRIBE)
    requires !IsListener(w, cfg.route(name), event, client)
    ensures var w' := Run(cfg, w, SubscribeRound(client, name, event, 0, cfg.route(name), 0));
            Settled(w', client, name, event) && !IsListener(w', cfg.route(name), event, client)
  {
    FirstRound(cfg, w, client, name, event, 0);
  }

  /** The exact condition for safety, which can be checked before anything is asked: every run is
      safe if and only if no client ever uses two names for one event of one object and subscribe
      requests reach the built-in handler of every object they are sent to. */
  lemma SafeIffOneNameAndServed(cfg: Config, w: World)
    requires Initial(w) && NobodyListed(w)
    ensures (forall steps: seq<Step> :: Safe(cfg, Run(cfg, w, steps))) <==> OneName(cfg, w) && Served(cfg, w)
  {
    if OneName(cfg, w) && Served(cfg, w) {
      forall steps: seq<Step> ensures Safe(cfg, Run(cfg, w, steps)) {
        Safety(cfg, w, steps);
      }
    } else if !Served(cfg, w) {
      var client: Address, name: CString, event: CString :|
        cfg.uses(client, name, event) && |name| < MAX_OBJECT_NAME && |event| < MAX_EVENT_NAME
        && cfg.route(name) in w.provider && !Binds(w, cfg.route(name), SUBSCRIBE);
      UnservedIsUnsafe(cfg, w, client, name, event);
      assert !Safe(cfg, Run(cfg, w, SubscribeRound(client, name, event, 0, cfg.route(name), 0)));
    } else {
      var client: Address, name: CString, name': CString, event: CString :|
        cfg.uses(client, name, event) && cfg.uses(client, name', event)
        && |name| < MAX_OBJECT_NAME && |name'| < MAX_OBJECT_NAME && cfg.route(name) == cfg.route(name')
        && Answerable(w, client, cfg.route(name), event) && name != name';
      var steps := TwoNamesAreUnsafe(cfg, w, client, name, name', event);
    }
  }
}
