/**
 The realtime socket manager as a state machine: the module variables and the store of
 useRealtimeStore.ts, the browser's sockets and timers, and every event that can reach them.
 */
module RealtimeSpec {
  import opened Common

  const MAX_RECONNECT_ATTEMPTS: nat := 10

  datatype ReadyState = Connecting | Open | Closing | Closed

  datatype Channel = NewBlockChannel | NewTransactionChannel | ReorgChannel

  const SUBSCRIPTIONS: seq<Channel> := [NewBlockChannel, NewTransactionChannel, ReorgChannel]

  /** A browser socket; `onclose` and `onerror` say whether those handlers are still attached. */
  datatype Socket = Socket(network: string, state: ReadyState, onclose: bool, onerror: bool, sent: seq<Channel>)
  {
    predicate Live() { state == Connecting || state == Open }

    /** It is live, or a handler that touches the manager is attached. */
    predicate Acts() { Live() || onclose || onerror }

    /** WebSocket.close(): a socket already closing or closed stays as it is. */
    function Close(): Socket {
      if Live() then this.(state := Closing) else this
    }

    function Detach(): Socket { this.(onclose := false, onerror := false) }
  }

  /** A block or transaction of one network's chain. */
  datatype Fact = Fact(network: string, body: string)

  datatype Message = NewBlock(data: Fact) | NewTransaction(data: Fact) | Reorg | Other | Unparsable

  /** The browser: every socket ever made, the timers still pending. */
  datatype Browser = Browser(sockets: map<nat, Socket>, timers: map<nat, string>, nextId: nat)
  {
    function Put(i: nat, s: Socket): Browser { this.(sockets := sockets[i := s]) }

    /** `new WebSocket(...)` with its handlers. */
    function NewSocket(network: string): Browser {
      Put(nextId, Socket(network, Connecting, true, true, [])).(nextId := nextId + 1)
    }

    function SetTimeout(network: string): Browser {
      this.(timers := timers[nextId := network], nextId := nextId + 1)
    }

    function ClearTimeout(t: Option<nat>): Browser {
      if t.Some? then this.(timers := timers - {t.value}) else this
    }

    /** A socket given up: its handlers off, then closed. */
    function Abandon(i: Option<nat>): Browser {
      if i.Some? && i.value in sockets then Put(i.value, sockets[i.value].Detach().Close()) else this
    }
  }

  /** What the pages read. */
  datatype Store = Store(isConnected: bool, socketHeld: bool, latestBlock: Option<Fact>, latestTx: Option<Fact>,
                         chainRevision: nat, reorgRevision: nat)
  {
    function NoChain(): Store { this.(latestBlock := None, latestTx := None, chainRevision := 0, reorgRevision := 0) }

    /** A block or a reorg is announced. */
    function Signalled(m: Message): Store {
      match m
      case NewBlock(_) => this.(chainRevision := chainRevision + 1)
      case Reorg => this.(chainRevision := chainRevision + 1, reorgRevision := reorgRevision + 1, latestBlock := None)
      case _ => this
    }

    /** A subscriber's handler took the message. */
    function Heard(m: Message): Store {
      match m
      case NewBlock(b) => this.(latestBlock := Some(b))
      case NewTransaction(t) => this.(latestTx := Some(t))
      case _ => this
    }
  }

  datatype State = State(
    browser: Browser,
    wsInstance: Option<nat>,
    wsNetwork: Option<string>,
    wsSubscribers: int,
    reconnectAttempts: nat,
    reconnectTimeout: Option<nat>,
    messageHandlers: set<nat>,
    store: Store)

  const INITIAL: State :=
    State(Browser(map[], map[], 0), None, None, 0, 0, None, {}, Store(false, false, None, None, 0, 0))

  /** What can happen next: a hook mounts or unmounts, the browser reports, a timer fires. */
  datatype Event =
    | Mount(hook: nat, on: string, refused: bool)
    | Unmount(hook: nat)
    | Opened(socket: nat)
    | Received(socket: nat, message: Message)
    | PeerClosing(socket: nat)
    | Dropped(socket: nat, failed: bool)
    | Fired(timer: nat, refused: bool)
    | Reset

  /**
   When an event can happen. Sockets follow the "Feedback from the protocol" section of the WHATWG
   WebSockets Standard: open only while connecting, messages only while open (so neither after
   close()), one close event at the end; and a network's server sends that network's facts.
   */
  predicate Enabled(st: State, e: Event) {
    match e
    case Mount(hook, _, _) => hook !in st.messageHandlers
    case Unmount(hook) => hook in st.messageHandlers
    case Opened(i) => i in st.browser.sockets && st.browser.sockets[i].state == Connecting
    case Received(i, m) =>
      && i in st.browser.sockets && st.browser.sockets[i].state == Open
      && ((m.NewBlock? || m.NewTransaction?) ==> m.data.network == st.browser.sockets[i].network)
    case PeerClosing(i) => i in st.browser.sockets && st.browser.sockets[i].Live()
    case Dropped(i, _) => i in st.browser.sockets && st.browser.sockets[i].state != Closed
    case Fired(t, _) => t in st.browser.timers
    case Reset => true
  }

  // ----- What each event is meant to do -----

  predicate Serving(st: State, network: string) {
    && st.wsInstance.Some? && st.wsInstance.value in st.browser.sockets
    && st.wsNetwork == Some(network) && st.browser.sockets[st.wsInstance.value].Live()
  }

  /** No socket and no timer. */
  function Cleared(st: State): State {
    st.(browser := st.browser.Abandon(st.wsInstance).ClearTimeout(st.reconnectTimeout),
        wsInstance := None, reconnectTimeout := None, store := st.store.(isConnected := false))
  }

  /** Another network than before brings its own retries, and nothing of the old chain stays on show. */
  function Adopted(st: State, network: string): State {
    if st.wsNetwork == Some(network) then st
    else st.(wsNetwork := Some(network), reconnectAttempts := 0, store := st.store.NoChain())
  }

  /** connectWebSocket; `refused` when the WebSocket constructor throws. */
  function Connect(st: State, network: string, refused: bool): State {
    if Serving(st, network) then st
    else
      var ready := Adopted(Cleared(st), network);
      if refused then ready
      else ready.(browser := ready.browser.NewSocket(network), wsInstance := Some(ready.browser.nextId))
  }

  function Disconnect(st: State): State {
    Cleared(st).(reconnectAttempts := MAX_RECONNECT_ATTEMPTS, wsNetwork := None)
  }

  function Joined(st: State, hook: nat): State {
    st.(wsSubscribers := st.wsSubscribers + 1, store := st.store.(socketHeld := true),
      messageHandlers := st.messageHandlers + {hook})
  }

  function Unmounted(st: State, hook: nat): State {
    var left := st.(wsSubscribers := st.wsSubscribers - 1, messageHandlers := st.messageHandlers - {hook});
    if left.wsSubscribers == 0 then Disconnect(left.(store := left.store.(socketHeld := false))) else left
  }

  function OpenedOn(st: State, i: nat): State
    requires i in st.browser.sockets
  {
    var s := st.browser.sockets[i];
    st.(browser := st.browser.Put(i, s.(state := Open, sent := s.sent + SUBSCRIPTIONS)),
        store := st.store.(isConnected := true), reconnectAttempts := 0)
  }

  function ReceivedBy(st: State, m: Message): State {
    var signalled := st.store.Signalled(m);
    st.(store := if st.messageHandlers == {} then signalled else signalled.Heard(m))
  }

  /** The close event: an attached handler gives the socket up and may arm one retry to its network. */
  function DroppedOn(st: State, i: nat): State
    requires i in st.browser.sockets
  {
    var s := st.browser.sockets[i];
    var closed := st.browser.Put(i, s.(state := Closed).Detach());
    if !s.onclose then st.(browser := closed)
    else
      var gone := st.(wsInstance := None, store := st.store.(isConnected := false));
      if st.wsSubscribers > 0 && st.reconnectAttempts < MAX_RECONNECT_ATTEMPTS
      then gone.(browser := closed.SetTimeout(s.network), reconnectTimeout := Some(closed.nextId))
      else gone.(browser := closed)
  }

  function Expired(st: State, t: nat): State {
    st.(browser := st.browser.ClearTimeout(Some(t)), reconnectAttempts := st.reconnectAttempts + 1)
  }

  function Step(st: State, e: Event): State
    requires Enabled(st, e)
  {
    match e
    case Mount(hook, network, refused) => Connect(Joined(st, hook), network, refused)
    case Unmount(hook) => Unmounted(st, hook)
    case Opened(i) => OpenedOn(st, i)
    case Received(_, m) => ReceivedBy(st, m)
    case PeerClosing(i) => st.(browser := st.browser.Put(i, st.browser.sockets[i].Close()))
    case Dropped(i, _) => DroppedOn(st, i)
    case Fired(t, refused) => Connect(Expired(st, t), st.browser.timers[t], refused)
    case Reset => st.(store := st.store.NoChain().(isConnected := false))
  }

  // ----- What every reachable state satisfies -----

  /** Any socket that can still act on the manager is the current one, on the current network. */
  ghost predicate OneSocket(st: State) {
    && (forall i :: i in st.browser.sockets && st.browser.sockets[i].Acts() ==> st.wsInstance == Some(i))
    && (st.wsInstance.Some? ==>
          && st.wsInstance.value in st.browser.sockets
          && var s := st.browser.sockets[st.wsInstance.value];
          s.onclose && s.onerror && s.state != Closed && st.wsNetwork == Some(s.network))
  }

  /** A socket that is open has asked for every channel exactly once. */
  ghost predicate Subscribed(st: State) {
    forall i :: i in st.browser.sockets ==>
      && (st.browser.sockets[i].state == Open ==> st.browser.sockets[i].sent == SUBSCRIPTIONS)
      && (st.browser.sockets[i].state == Connecting ==> st.browser.sockets[i].sent == [])
  }

  /** At most one retry is pending: there is no current socket then, and it goes to the current network. */
  ghost predicate OneTimer(st: State) {
    && (forall t :: t in st.browser.timers ==>
          && st.reconnectTimeout == Some(t) && st.wsInstance == None
          && st.wsNetwork == Some(st.browser.timers[t]) && st.reconnectAttempts < MAX_RECONNECT_ATTEMPTS)
    && (st.reconnectTimeout.Some? ==> st.reconnectTimeout.value in st.browser.timers)
  }

  /** The socket is held exactly while somebody subscribes; with nobody left, nothing is. */
  ghost predicate HeldBySubscribers(st: State) {
    && st.wsSubscribers == |st.messageHandlers|
    && (st.store.socketHeld <==> st.wsSubscribers > 0)
    && (st.wsSubscribers > 0 <==> st.wsNetwork.Some?)
    && (st.wsSubscribers == 0 ==> st.wsInstance == None && st.browser.timers == map[] && st.reconnectTimeout == None)
  }

  /** What the store shows belongs to the current network, and it shows a live link only for a current socket. */
  ghost predicate TruthfulStore(st: State) {
    && (st.wsNetwork.Some? && st.store.latestBlock.Some? ==> st.store.latestBlock.value.network == st.wsNetwork.value)
    && (st.wsNetwork.Some? && st.store.latestTx.Some? ==> st.store.latestTx.value.network == st.wsNetwork.value)
    && (st.store.isConnected ==>
          st.wsInstance.Some? && st.wsInstance.value in st.browser.sockets
            && st.browser.sockets[st.wsInstance.value].state != Connecting)
    && st.store.reorgRevision <= st.store.chainRevision
  }

  ghost predicate FreshIds(st: State) {
    && (forall i :: i in st.browser.sockets ==> i < st.browser.nextId)
    && (forall t :: t in st.browser.timers ==> t < st.browser.nextId)
  }

  ghost predicate Inv(st: State) {
    && OneSocket(st) && Subscribed(st) && OneTimer(st) && HeldBySubscribers(st) && TruthfulStore(st) && FreshIds(st)
    && st.reconnectAttempts <= MAX_RECONNECT_ATTEMPTS
  }

  // ----- Runs -----

  predicate IsRun(st: State, events: seq<Event>)
    decreases |events|
  {
    events == [] || (Enabled(st, events[0]) && IsRun(Step(st, events[0]), events[1..]))
  }

  function After(st: State, events: seq<Event>): State
    requires IsRun(st, events)
    decreases |events|
  {
    if events == [] then st else After(Step(st, events[0]), events[1..])
  }

  lemma ClearedKeeps(st: State)
    requires OneSocket(st) && Subscribed(st) && FreshIds(st)
    requires st.reconnectTimeout == None ==> st.browser.timers == map[]
    requires forall t :: t in st.browser.timers ==> st.reconnectTimeout == Some(t)
    ensures Cleared(st).browser.timers == map[]
    ensures forall i :: i in Cleared(st).browser.sockets ==>
      var s := Cleared(st).browser.sockets[i]; !s.Live() && !s.onclose && !s.onerror
    ensures Subscribed(Cleared(st)) && FreshIds(Cleared(st))
  {
  }

  lemma ConnectKeeps(st: State, network: string, refused: bool)
    requires OneSocket(st) && Subscribed(st) && FreshIds(st) && TruthfulStore(st)
    requires forall t :: t in st.browser.timers ==> st.reconnectTimeout == Some(t) && st.wsInstance == None
    requires st.wsSubscribers == |st.messageHandlers| > 0 && st.store.socketHeld
    requires st.reconnectAttempts <= MAX_RECONNECT_ATTEMPTS
    requires st.wsInstance.Some? ==> st.reconnectTimeout == None
    ensures Inv(Connect(st, network, refused))
    ensures Connect(st, network, refused).wsNetwork == Some(network)
  {
    if !Serving(st, network) {
      ClearedKeeps(st);
    } else {
      assert st.browser.timers == map[];
    }
  }

  lemma UnmountKeeps(st: State, hook: nat)
    requires Inv(st) && hook in st.messageHandlers
    ensures Inv(Unmounted(st, hook))
  {
    var left := st.(wsSubscribers := st.wsSubscribers - 1, messageHandlers := st.messageHandlers - {hook});
    assert |left.messageHandlers| == |st.messageHandlers| - 1;
    if left.wsSubscribers == 0 {
      ClearedKeeps(left);
    }
  }

  lemma OpenedKeeps(st: State, i: nat)
    requires Inv(st) && Enabled(st, Opened(i))
    ensures Inv(OpenedOn(st, i))
  {
    assert st.wsInstance == Some(i);
    assert st.browser.sockets[i].sent + SUBSCRIPTIONS == SUBSCRIPTIONS;
  }

  lemma DroppedKeeps(st: State, i: nat)
    requires Inv(st) && Enabled(st, Dropped(i, false))
    ensures Inv(DroppedOn(st, i))
  {
    if st.browser.sockets[i].onclose {
      assert st.wsInstance == Some(i);
      assert st.browser.timers == map[];
    } else {
      assert st.wsInstance != Some(i);
    }
  }

  lemma ReceivedKeeps(st: State, i: nat, m: Message)
    requires Inv(st) && Enabled(st, Received(i, m))
    ensures Inv(ReceivedBy(st, m))
  {
    assert st.wsInstance == Some(i);
  }

  /** The invariant is inductive: no event breaks it. */
  lemma StepKeepsInv(st: State, e: Event)
    requires Inv(st) && Enabled(st, e)
    ensures Inv(Step(st, e))
  {
    match e
    case Mount(hook, network, refused) =>
      ConnectKeeps(Joined(st, hook), network, refused);
    case Unmount(hook) => UnmountKeeps(st, hook);
    case Opened(i) => OpenedKeeps(st, i);
    case Received(i, m) => ReceivedKeeps(st, i, m);
    case PeerClosing(i) =>
    case Dropped(i, failed) => DroppedKeeps(st, i);
    case Fired(t, refused) =>
      ConnectKeeps(Expired(st, t), st.browser.timers[t], refused);
    case Reset =>
  }

  /** Safety of every run: each reachable state satisfies the whole invariant. */
  lemma {:induction false} RunKeepsInv(st: State, events: seq<Event>)
    requires Inv(st) && IsRun(st, events)
    ensures Inv(After(st, events))
    decreases |events|
  {
    if events != [] {
      StepKeepsInv(st, events[0]);
      RunKeepsInv(Step(st, events[0]), events[1..]);
    }
  }

  lemma Safety(events: seq<Event>)
    requires IsRun(INITIAL, events)
    ensures Inv(After(INITIAL, events))
  {
    RunKeepsInv(INITIAL, events);
  }

  // ----- Retries -----

  /** The events that give the retries back: an open, another network, the last subscriber leaving. */
  predicate RenewsBudget(st: State, e: Event) {
    match e
    case Opened(_) => true
    case Mount(_, network, _) => st.wsNetwork != Some(network)
    case Unmount(_) => st.wsSubscribers == 1
    case _ => false
  }

  ghost predicate NeverRenewed(st: State, events: seq<Event>)
    requires IsRun(st, events)
    decreases |events|
  {
    events == [] || (!RenewsBudget(st, events[0]) && NeverRenewed(Step(st, events[0]), events[1..]))
  }

  function TimerReconnects(events: seq<Event>): nat {
    if events == [] then 0 else (if events[0].Fired? then 1 else 0) + TimerReconnects(events[1..])
  }

  /** Between renewals every timer reconnect is counted, so there are at most ten of them. */
  lemma {:induction false} RetriesBounded(st: State, events: seq<Event>)
    requires Inv(st) && IsRun(st, events) && NeverRenewed(st, events)
    ensures After(st, events).reconnectAttempts == st.reconnectAttempts + TimerReconnects(events)
    ensures TimerReconnects(events) <= MAX_RECONNECT_ATTEMPTS - st.reconnectAttempts
    decreases |events|
  {
    if events != [] {
      var next := Step(st, events[0]);
      StepKeepsInv(st, events[0]);
      assert next.reconnectAttempts == st.reconnectAttempts + if events[0].Fired? then 1 else 0;
      RetriesBounded(next, events[1..]);
      RunKeepsInv(st, events);
    }
  }

  /** `n` times over: the current socket drops before opening, and the timer it armed fires. */
  function Outage(socket: nat, nextId: nat, n: nat): seq<Event>
    decreases n
  {
    if n == 0 then []
    else [Dropped(socket, true), Fired(nextId, false)] + Outage(nextId + 1, nextId + 2, n - 1)
  }

  ghost predicate Trying(st: State, network: string, attempts: nat) {
    && st.wsSubscribers > 0 && st.wsNetwork == Some(network) && st.reconnectAttempts == attempts
    && st.wsInstance.Some? && st.wsInstance.value in st.browser.sockets
    && st.browser.sockets[st.wsInstance.value].state == Connecting
  }

  lemma OutageRetriesOnce(st: State, network: string)
    requires Inv(st) && Trying(st, network, st.reconnectAttempts) && st.reconnectAttempts < MAX_RECONNECT_ATTEMPTS
    ensures var drop := Dropped(st.wsInstance.value, true);
      var fire := Fired(st.browser.nextId, false);
      && Enabled(st, drop) && Enabled(Step(st, drop), fire)
      && var retried := Step(Step(st, drop), fire);
      && Inv(retried) && Trying(retried, network, st.reconnectAttempts + 1)
      && retried.wsInstance == Some(st.browser.nextId + 1) && retried.browser.nextId == st.browser.nextId + 2
  {
    var drop, fire := Dropped(st.wsInstance.value, true), Fired(st.browser.nextId, false);
    StepKeepsInv(st, drop);
    assert Step(st, drop).browser.timers[st.browser.nextId] == network;
    StepKeepsInv(Step(st, drop), fire);
  }

  lemma RunOfTwo(st: State, a: Event, b: Event, rest: seq<Event>)
    requires Enabled(st, a) && Enabled(Step(st, a), b) && IsRun(Step(Step(st, a), b), rest)
    ensures IsRun(st, [a, b] + rest)
    ensures After(st, [a, b] + rest) == After(Step(Step(st, a), b), rest)
  {
    var run := [a, b] + rest;
    assert run[1..] == [b] + rest;
    assert run[1..][1..] == rest;
    assert IsRun(Step(st, a), run[1..]);
  }

  ghost predicate LeadsToTrying(st: State, run: seq<Event>, network: string, attempts: nat) {
    IsRun(st, run) && Inv(After(st, run)) && Trying(After(st, run), network, attempts)
  }

  lemma {:induction false} OutageRetries(st: State, network: string, n: nat)
    requires Inv(st) && Trying(st, network, st.reconnectAttempts)
    requires st.reconnectAttempts + n <= MAX_RECONNECT_ATTEMPTS
    ensures LeadsToTrying(st, Outage(st.wsInstance.value, st.browser.nextId, n), network, st.reconnectAttempts + n)
    decreases n
  {
    hide Step, Enabled, Inv;
    if n > 0 {
      OutageRetriesOnce(st, network);
      var drop, fire := Dropped(st.wsInstance.value, true), Fired(st.browser.nextId, false);
      var retried := Step(Step(st, drop), fire);
      OutageRetries(retried, network, n - 1);
      var rest := Outage(retried.wsInstance.value, retried.browser.nextId, n - 1);
      RunOfTwo(st, drop, fire, rest);
      assert Outage(st.wsInstance.value, st.browser.nextId, n) == [drop, fire] + rest;
    }
  }

  /**
   A subscriber who arrives after everybody left gets all ten retries, whatever the manager had
   used up before, and the eleventh failure arms nothing.
   */
  lemma NewcomerGetsEveryRetry(st: State, hook: nat, network: string, n: nat)
    requires Inv(st) && st.wsSubscribers == 0
    requires n <= MAX_RECONNECT_ATTEMPTS
    ensures var run := [Mount(hook, network, false)] + Outage(st.browser.nextId, st.browser.nextId + 1, n);
      && IsRun(st, run)
      && Trying(After(st, run), network, n)
      && (n == MAX_RECONNECT_ATTEMPTS ==>
            var end := After(st, run);
            var gone := Step(end, Dropped(end.wsInstance.value, true));
            gone.browser.timers == map[] && gone.wsInstance == None)
  {
    var mount := Mount(hook, network, false);
    var joined := Step(st, mount);
    StepKeepsInv(st, mount);
    OutageRetries(joined, network, n);
    var rest := Outage(st.browser.nextId, st.browser.nextId + 1, n);
    assert ([mount] + rest)[1..] == rest;
  }

  /** Somebody subscribes, retries are left, and there is neither a socket nor a pending retry. */
  ghost predicate Abandons(st: State) {
    st.wsSubscribers > 0 && st.wsInstance == None && st.browser.timers == map[]
      && st.reconnectAttempts < MAX_RECONNECT_ATTEMPTS
  }

  /** The WebSocket constructor throws where a socket was needed and retries are left. */
  predicate Strands(st: State, e: Event) {
    match e
    case Mount(_, network, refused) =>
      refused && !Serving(st, network)
        && (st.wsNetwork != Some(network) || st.reconnectAttempts < MAX_RECONNECT_ATTEMPTS)
    case Fired(_, refused) => refused && st.reconnectAttempts + 1 < MAX_RECONNECT_ATTEMPTS
    case _ => false
  }

  /** A subscriber arrives and its socket is made, or the last one leaves. */
  predicate Relieves(st: State, e: Event) {
    (e.Mount? && !e.refused) || (e.Unmount? && st.wsSubscribers == 1)
  }

  /**
   The exact condition: an event leaves its subscribers abandoned if it strands them, or they were and it does not
   relieve them.
   */
  lemma AbandonsExactlyWhen(st: State, e: Event)
    requires Inv(st) && Enabled(st, e)
    ensures Abandons(Step(st, e)) <==> Strands(st, e) || (Abandons(st) && !Relieves(st, e))
  {
    match e
    case Mount(hook, network, _) => MountAbandons(st, hook, network);
    case Fired(t, _) => assert st.browser.timers - {t} ==
      map[] by { assert forall u :: u in st.browser.timers ==> u == t; }
    case Dropped(i, _) => DropAbandonsNobody(st, i);
    case Unmount(hook) => assert st.messageHandlers != {};
    case _ =>
  }

  lemma MountAbandons(st: State, hook: nat, network: string)
    requires Inv(st) && hook !in st.messageHandlers
    ensures Abandons(Connect(Joined(st, hook), network, true)) <==>
      Strands(st, Mount(hook, network, true)) || Abandons(st)
    ensures !Abandons(Connect(Joined(st, hook), network, false))
  {
    ClearedKeeps(Joined(st, hook));
  }

  lemma DropAbandonsNobody(st: State, i: nat)
    requires Inv(st) && Enabled(st, Dropped(i, false))
    ensures Abandons(DroppedOn(st, i)) <==> Abandons(st)
  {
    var next := DroppedOn(st, i);
    if st.browser.sockets[i].onclose && st.wsSubscribers > 0 && st.reconnectAttempts < MAX_RECONNECT_ATTEMPTS {
      assert st.browser.nextId in next.browser.timers;
    }
  }

  /** Whether the last stranding event of a run, if there is one, is still unrelieved at its end. */
  ghost predicate StrandedAtEnd(st: State, events: seq<Event>, before: bool)
    requires IsRun(st, events)
    decreases |events|
  {
    if events == [] then before
    else StrandedAtEnd(Step(st, events[0]), events[1..], Strands(st, events[0]) || (before && !Relieves(st, events[0])))
  }

  /**
   Over every run: subscribers are abandoned at its end exactly when some event stranded them and none since relieved
   them.
   */
  lemma {:induction false} RunAbandonsExactlyWhen(st: State, events: seq<Event>)
    requires Inv(st) && IsRun(st, events)
    ensures Abandons(After(st, events)) <==> StrandedAtEnd(st, events, Abandons(st))
    decreases |events|
  {
    hide Inv, Abandons, Strands, Relieves, Step, Enabled;
    if events != [] {
      StepKeepsInv(st, events[0]);
      AbandonsExactlyWhen(st, events[0]);
      RunAbandonsExactlyWhen(Step(st, events[0]), events[1..]);
    }
  }

  predicate Refused(e: Event) { (e.Mount? || e.Fired?) && e.refused }

  /**
   While retries are left, a subscriber always has a socket or a pending retry, in every run in
   which no WebSocket constructor throws.
   */
  lemma {:induction false} NeverAbandons(st: State, events: seq<Event>)
    requires Inv(st) && !Abandons(st) && IsRun(st, events)
    requires forall k :: 0 <= k < |events| ==> !Refused(events[k])
    ensures !Abandons(After(st, events))
    decreases |events|
  {
    hide Inv, Abandons, Step, Enabled;
    if events != [] {
      StepKeepsInv(st, events[0]);
      AbandonsExactlyWhen(st, events[0]);
      assert !Refused(events[0]);
      NeverAbandons(Step(st, events[0]), events[1..]);
    }
  }

  /** A constructor that throws on a mount leaves its subscriber with neither a socket nor a retry, */
  lemma RefusalAbandons(st: State, hook: nat, network: string)
    requires Inv(st) && hook !in st.messageHandlers && !Serving(st, network)
    requires st.wsNetwork != Some(network) || st.reconnectAttempts < MAX_RECONNECT_ATTEMPTS
    ensures Abandons(Step(st, Mount(hook, network, true)))
  {
    AbandonsExactlyWhen(st, Mount(hook, network, true));
  }

  /** and one that throws on a retry does unless that retry was the last. */
  lemma RefusedRetryAbandons(st: State, t: nat)
    requires Inv(st) && t in st.browser.timers
    ensures Abandons(Step(st, Fired(t, true))) <==> st.reconnectAttempts + 1 < MAX_RECONNECT_ATTEMPTS
  {
    AbandonsExactlyWhen(st, Fired(t, true));
  }

  /** It happens to the very first subscriber. */
  lemma FirstMountAbandoned()
    ensures Enabled(INITIAL, Mount(0, "mainnet", true)) && Abandons(Step(INITIAL, Mount(0, "mainnet", true)))
  {
    RefusalAbandons(INITIAL, 0, "mainnet");
  }

  /** The next subscriber whose socket is made ends it for everybody. */
  lemma NewcomerRelieves(st: State, hook: nat, network: string)
    requires Inv(st) && Abandons(st) && hook !in st.messageHandlers
    ensures var next := Step(st, Mount(hook, network, false));
      !Abandons(next) && Trying(next, network, next.reconnectAttempts)
  {
    AbandonsExactlyWhen(st, Mount(hook, network, false));
  }
}

/** The manager as written: module variables that the handlers and the effect change in place. */
module Realtime {
  import opened Common
  import opened RealtimeSpec

  class RealtimeManager {
    var browser: Browser
    var wsInstance: Option<nat>
    var wsNetwork: Option<string>
    var wsSubscribers: int
    var reconnectAttempts: nat
    var reconnectTimeout: Option<nat>
    var messageHandlers: set<nat>
    var store: Store

    ghost function View(): State
      reads this
    {
      State(browser, wsInstance, wsNetwork, wsSubscribers, reconnectAttempts, reconnectTimeout, messageHandlers, store)
    }

    constructor ()
      ensures View() == INITIAL && Inv(View())
    {
      browser := Browser(map[], map[], 0);
      wsInstance, wsNetwork, wsSubscribers, reconnectAttempts, reconnectTimeout := None, None, 0, 0, None;
      messageHandlers := {};
      store := Store(false, false, None, None, 0, 0);
    }

    /** Take the current socket's handlers off and close it. */
    method DropCurrent()
      requires wsInstance.Some? ==> wsInstance.value in browser.sockets
      modifies this`browser, this`wsInstance
      ensures wsInstance == None && browser == old(browser).Abandon(old(wsInstance))
    {
      if wsInstance.Some? {
        var i := wsInstance.value;
        var s := browser.sockets[i];
        s := s.(onclose := false);
        s := s.(onerror := false);
        browser := browser.Put(i, s.Close());
        wsInstance := None;
      }
    }

    method ClearTimer()
      modifies this`browser, this`reconnectTimeout
      ensures reconnectTimeout == None && browser == old(browser).ClearTimeout(old(reconnectTimeout))
    {
      if reconnectTimeout.Some? {
        browser := browser.ClearTimeout(reconnectTimeout);
        reconnectTimeout := None;
      }
    }

    method ConnectWebSocket(network: string, refused: bool)
      requires wsInstance.Some? ==> wsInstance.value in browser.sockets
      modifies this
      ensures View() == Connect(old(View()), network, refused)
    {
      if wsInstance.Some? && wsNetwork == Some(network) {
        var state := browser.sockets[wsInstance.value].state;
        if state == Connecting || state == Open { return; }
      }
      DropCurrent();
      ClearTimer();
      if wsNetwork != Some(network) {
        reconnectAttempts := 0;
        store := store.(latestBlock := None, latestTx := None, chainRevision := 0, reorgRevision := 0);
      }
      wsNetwork := Some(network);
      store := store.(isConnected := false);
      if !refused {
        wsInstance := Some(browser.nextId);
        browser := browser.NewSocket(network);
      }
    }

    method DisconnectWebSocket()
      requires wsInstance.Some? ==> wsInstance.value in browser.sockets
      modifies this
      ensures View() == Disconnect(old(View()))
    {
      ClearTimer();
      reconnectAttempts := MAX_RECONNECT_ATTEMPTS;
      DropCurrent();
      wsNetwork := None;
      store := store.(isConnected := false);
    }

    /** The effect of useRealtimeData. */
    method Subscribe(hook: nat, network: string, refused: bool)
      requires wsInstance.Some? ==> wsInstance.value in browser.sockets
      modifies this
      ensures View() == Connect(Joined(old(View()), hook), network, refused)
    {
      wsSubscribers := wsSubscribers + 1;
      store := store.(socketHeld := true);
      messageHandlers := messageHandlers + {hook};
      ConnectWebSocket(network, refused);
    }

    /** Its cleanup. */
    method Unsubscribe(hook: nat)
      requires wsInstance.Some? ==> wsInstance.value in browser.sockets
      modifies this
      ensures View() == Unmounted(old(View()), hook)
    {
      wsSubscribers := wsSubscribers - 1;
      messageHandlers := messageHandlers - {hook};
      if wsSubscribers == 0 {
        DisconnectWebSocket();
        store := store.(socketHeld := false);
      }
    }

    /** The open event: the handler sends through `wsInstance`, which must be the socket that opened. */
    method OnOpen(i: nat)
      requires Inv(View()) && Enabled(View(), Opened(i))
      modifies this
      ensures View() == OpenedOn(old(View()), i)
    {
      assert wsInstance == Some(i);
      browser := browser.Put(i, browser.sockets[i].(state := Open));
      store := store.(isConnected := true);
      reconnectAttempts := 0;
      Send(NewBlockChannel);
      Send(NewTransactionChannel);
      Send(ReorgChannel);
      assert browser.sockets[i].sent == old(browser).sockets[i].sent + SUBSCRIPTIONS;
      assert browser.sockets == OpenedOn(old(View()), i).browser.sockets;
    }

    /** `wsInstance?.send(...)`; the browser throws unless that socket is open. */
    method Send(channel: Channel)
      requires wsInstance.Some? ==>
        wsInstance.value in browser.sockets && browser.sockets[wsInstance.value].state == Open
      modifies this`browser
      ensures wsInstance == None ==> browser == old(browser)
      ensures wsInstance.Some? ==>
        var s := old(browser).sockets[wsInstance.value];
        browser == old(browser).Put(wsInstance.value, s.(sent := s.sent + [channel]))
    {
      if wsInstance.Some? {
        var s := browser.sockets[wsInstance.value];
        browser := browser.Put(wsInstance.value, s.(sent := s.sent + [channel]));
      }
    }

    method OnMessage(m: Message)
      modifies this`store
      ensures View() == ReceivedBy(old(View()), m)
    {
      if m.Unparsable? { return; }
      if m.NewBlock? || m.Reorg? {
        store := store.(chainRevision := store.chainRevision + 1,
                        reorgRevision := store.reorgRevision + if m.Reorg? then 1 else 0,
                        latestBlock := if m.Reorg? then None else store.latestBlock);
      }
      ghost var signalled := store;
      var rest := messageHandlers;
      while rest != {}
        invariant rest <= messageHandlers
        invariant store == if rest == messageHandlers then signalled else signalled.Heard(m)
        decreases |rest|
      {
        var hook :| hook in rest;
        HandleMessage(m);
        rest := rest - {hook};
        assert hook in messageHandlers && hook !in rest;
      }
    }

    /** One subscriber's handler. */
    method HandleMessage(m: Message)
      modifies this`store
      ensures store == old(store).Heard(m)
    {
      if m.NewBlock? {
        store := store.(latestBlock := Some(m.data));
      } else if m.NewTransaction? {
        store := store.(latestTx := Some(m.data));
      }
    }

    /** The browser closes socket `i`: its error handler runs first if the link failed, then its close handler. */
    method OnDropped(i: nat, failed: bool)
      requires Inv(View()) && Enabled(View(), Dropped(i, failed))
      modifies this
      ensures View() == DroppedOn(old(View()), i)
    {
      var s := browser.sockets[i];
      browser := browser.Put(i, s.(state := Closed));
      if failed && s.onerror {
        assert wsInstance == Some(i);
        OnError();
      }
      browser := browser.Put(i, browser.sockets[i].Detach());
      assert browser.sockets == old(browser).sockets[i := s.(state := Closed).Detach()];
      if s.onclose {
        OnClose(s.network);
      }
    }

    /** The error handler closes whatever `wsInstance` is. */
    method OnError()
      requires wsInstance.Some? ==> wsInstance.value in browser.sockets
      modifies this`browser
      ensures browser ==
        if wsInstance.Some? then old(browser).Put(wsInstance.value, old(browser).sockets[wsInstance.value].Close())
          else old(browser)
    {
      if wsInstance.Some? {
        browser := browser.Put(wsInstance.value, browser.sockets[wsInstance.value].Close());
      }
    }

    /** The close handler, with the network its socket was made for. */
    method OnClose(network: string)
      modifies this`browser, this`wsInstance, this`reconnectTimeout, this`store
      ensures wsInstance == None && store == old(store).(isConnected := false)
      ensures if wsSubscribers > 0 && reconnectAttempts < MAX_RECONNECT_ATTEMPTS
              then browser == old(browser).SetTimeout(network) && reconnectTimeout == Some(old(browser).nextId)
              else browser == old(browser) && reconnectTimeout == old(reconnectTimeout)
    {
      store := store.(isConnected := false);
      wsInstance := None;
      if wsSubscribers > 0 && reconnectAttempts < MAX_RECONNECT_ATTEMPTS {
        reconnectTimeout := Some(browser.nextId);
        browser := browser.SetTimeout(network);
      }
    }

    method OnTimer(t: nat, refused: bool)
      requires Inv(View()) && t in browser.timers
      modifies this
      ensures View() == Connect(Expired(old(View()), t), old(browser).timers[t], refused)
    {
      var network := browser.timers[t];
      browser := browser.ClearTimeout(Some(t));
      reconnectAttempts := reconnectAttempts + 1;
      ConnectWebSocket(network, refused);
    }

    method ResetStore()
      modifies this`store
      ensures store == old(store).NoChain().(isConnected := false)
    {
      store := store.(isConnected := false, latestBlock := None, latestTx := None, chainRevision := 0,
        reorgRevision := 0);
    }

    /** Every event does to the variables what the state machine says, and keeps its invariant. */
    method Deliver(e: Event)
      requires Inv(View()) && Enabled(View(), e)
      modifies this
      ensures View() == Step(old(View()), e)
      ensures Inv(View())
    {
      StepKeepsInv(View(), e);
      match e {
        case Mount(hook, network, refused) => Subscribe(hook, network, refused);
        case Unmount(hook) => Unsubscribe(hook);
        case Opened(i) => OnOpen(i);
        case Received(_, m) => OnMessage(m);
        case PeerClosing(i) => browser := browser.Put(i, browser.sockets[i].Close());
        case Dropped(i, failed) => OnDropped(i, failed);
        case Fired(t, refused) => OnTimer(t, refused);
        case Reset => ResetStore();
      }
    }
  }
}
