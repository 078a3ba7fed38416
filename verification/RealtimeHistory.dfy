/**
 The realtime manager told by its past: what it counts and shows is a function of the events of
 the run alone, and its link ends only for the events that should end it.
 */
module RealtimeHistory {
  import opened Common
  import opened RealtimeSpec

  /** What an outsider who only watches the events would write down. */
  datatype History = History(
    hooks: set<nat>, network: Option<string>, retries: nat,
    block: Option<Fact>, tx: Option<Fact>, changes: nat, reorgs: nat)

  const NOTHING_YET: History := History({}, None, 0, None, None, 0, 0)

  /**
   Retries count from the last open or the last change of network, and are used up once everybody left; what the
   chain announced counts from the last change of network or reset.
   */
  function Noted(h: History, e: Event): History {
    match e
    case Mount(hook, network, _) =>
      if h.network == Some(network) then h.(hooks := h.hooks + {hook})
      else History(h.hooks + {hook}, Some(network), 0, None, None, 0, 0)
    case Unmount(hook) =>
      if h.hooks == {hook} then h.(hooks := {}, network := None, retries := 10) else h.(hooks := h.hooks - {hook})
    case Opened(_) => h.(retries := 0)
    case Fired(_, _) => h.(retries := h.retries + 1)
    case Received(_, NewBlock(b)) => h.(block := Some(b), changes := h.changes + 1)
    case Received(_, NewTransaction(t)) => h.(tx := Some(t))
    case Received(_, Reorg) => h.(block := None, changes := h.changes + 1, reorgs := h.reorgs + 1)
    case Reset => h.(block := None, tx := None, changes := 0, reorgs := 0)
    case _ => h
  }

  function Told(events: seq<Event>): History
    decreases |events|
  {
    if events == [] then NOTHING_YET else Noted(Told(events[..|events| - 1]), events[|events| - 1])
  }

  /** The manager's variables and its store say what the history says. */
  ghost predicate Agrees(st: State, h: History) {
    && st.messageHandlers == h.hooks && st.wsSubscribers == |h.hooks| && (st.store.socketHeld <==> h.hooks != {})
    && st.wsNetwork == h.network && st.reconnectAttempts == h.retries
    && st.store.latestBlock == h.block && st.store.latestTx == h.tx
    && st.store.chainRevision == h.changes && st.store.reorgRevision == h.reorgs
  }

  lemma RemovedOne(hooks: set<nat>, hook: nat)
    requires hook in hooks
    ensures |hooks - {hook}| == |hooks| - 1
    ensures hooks == {hook} <==> |hooks| == 1
  {
    assert hooks == (hooks - {hook}) + {hook};
  }

  /** A socket that can still speak is the current one, so somebody subscribes. */
  lemma HeardBySomebody(st: State, i: nat)
    requires Inv(st) && i in st.browser.sockets && st.browser.sockets[i].state == Open
    ensures st.messageHandlers != {}
  {
    assert st.browser.sockets[i].Acts();
  }

  lemma MountAgrees(st: State, h: History, hook: nat, network: string, refused: bool)
    requires Inv(st) && hook !in st.messageHandlers && Agrees(st, h)
    ensures Agrees(Connect(Joined(st, hook), network, refused), Noted(h, Mount(hook, network, refused)))
  {
  }

  lemma UnmountAgrees(st: State, h: History, hook: nat)
    requires Inv(st) && hook in st.messageHandlers && Agrees(st, h)
    ensures Agrees(Unmounted(st, hook), Noted(h, Unmount(hook)))
  {
    RemovedOne(st.messageHandlers, hook);
  }

  /** A retry goes to the network the manager is on, so only its count changes. */
  lemma FiredAgrees(st: State, h: History, t: nat, refused: bool)
    requires Inv(st) && t in st.browser.timers && Agrees(st, h)
    ensures Agrees(Connect(Expired(st, t), st.browser.timers[t], refused), Noted(h, Fired(t, refused)))
  {
  }

  lemma ReceivedAgrees(st: State, h: History, i: nat, m: Message)
    requires Inv(st) && Enabled(st, Received(i, m)) && Agrees(st, h)
    ensures Agrees(ReceivedBy(st, m), Noted(h, Received(i, m)))
  {
    hide Inv;
    HeardBySomebody(st, i);
  }

  lemma StepAgrees(st: State, h: History, e: Event)
    requires Inv(st) && Enabled(st, e) && Agrees(st, h)
    ensures Agrees(Step(st, e), Noted(h, e))
  {
    hide Inv, Connect, Unmounted, ReceivedBy;
    match e
    case Mount(hook, network, refused) => MountAgrees(st, h, hook, network, refused);
    case Unmount(hook) => UnmountAgrees(st, h, hook);
    case Received(i, m) => ReceivedAgrees(st, h, i, m);
    case Fired(t, refused) => FiredAgrees(st, h, t, refused);
    case _ =>
  }

  lemma {:induction false} RunSplits(st: State, events: seq<Event>, k: nat)
    requires IsRun(st, events) && k <= |events|
    ensures IsRun(st, events[..k]) && IsRun(After(st, events[..k]), events[k..])
    ensures After(st, events) == After(After(st, events[..k]), events[k..])
    decreases k
  {
    hide Step, Enabled;
    if k > 0 {
      RunSplits(Step(st, events[0]), events[1..], k - 1);
      assert events[..k][1..] == events[1..][..k - 1] && events[1..][k - 1..] == events[k..];
    } else {
      assert events[..0] == [] && events[0..] == events;
    }
  }

  lemma LastStep(st: State, events: seq<Event>)
    requires IsRun(st, events) && events != []
    ensures var before := events[..|events| - 1];
      && IsRun(st, before) && Enabled(After(st, before), events[|events| - 1])
      && After(st, events) == Step(After(st, before), events[|events| - 1])
  {
    hide Step, Enabled;
    var n := |events| - 1;
    RunSplits(st, events, n);
    assert events[n..] == [events[n]] && events[n..][1..] == [];
  }

  /**
   After every run from the start, the subscribers, the network, the retries used, the latest block
   and transaction and both revision counters are those the events alone tell.
   */
  lemma {:induction false} HistoryTells(events: seq<Event>)
    requires IsRun(INITIAL, events)
    ensures Agrees(After(INITIAL, events), Told(events))
    decreases |events|
  {
    hide Step, Enabled, Inv, Noted;
    if events != [] {
      var before := events[..|events| - 1];
      LastStep(INITIAL, events);
      HistoryTells(before);
      Safety(before);
      StepAgrees(After(INITIAL, before), Told(before), events[|events| - 1]);
    }
  }

  // ----- The link -----

  /** The store was reset after the last open. */
  predicate ResetSinceOpen(events: seq<Event>)
    decreases |events|
  {
    events != [] &&
    match events[|events| - 1]
    case Opened(_) => false
    case Reset => true
    case _ => ResetSinceOpen(events[..|events| - 1])
  }

  ghost predicate HasOpenSocket(st: State) {
    st.wsInstance.Some? && st.wsInstance.value in st.browser.sockets
      && st.browser.sockets[st.wsInstance.value].state == Open
  }

  lemma StepShowsLink(st: State, e: Event)
    requires Inv(st) && Enabled(st, e) && HasOpenSocket(Step(st, e)) && e != Reset
    ensures e.Opened? ==> Step(st, e).store.isConnected
    ensures !e.Opened? ==> HasOpenSocket(st) && Step(st, e).store.isConnected == st.store.isConnected
  {
  }

  /** An open current socket shows as connected, unless the store was reset after it opened. */
  lemma {:induction false} OpenSocketShows(events: seq<Event>)
    requires IsRun(INITIAL, events) && HasOpenSocket(After(INITIAL, events)) && !ResetSinceOpen(events)
    ensures After(INITIAL, events).store.isConnected
    decreases |events|
  {
    hide Step, Enabled, Inv, HasOpenSocket;
    if events != [] {
      var before := events[..|events| - 1];
      LastStep(INITIAL, events);
      Safety(before);
      StepShowsLink(After(INITIAL, before), events[|events| - 1]);
      if !events[|events| - 1].Opened? { OpenSocketShows(before); }
    } else {
      NoSocketYet();
    }
  }

  lemma NoSocketYet()
    ensures !HasOpenSocket(INITIAL)
  {
  }

  /** The events that end a live link: its own close, the last subscriber leaving, another network asked for. */
  predicate EndsLink(st: State, e: Event) {
    match e
    case Dropped(i, _) => st.wsInstance == Some(i)
    case Unmount(hook) => st.messageHandlers == {hook}
    case Mount(_, network, _) => st.wsNetwork != Some(network)
    case _ => false
  }

  /** A live socket is kept by every other event, whoever comes or goes meanwhile. */
  lemma LinkEndsExactlyWhen(st: State, e: Event)
    requires Inv(st) && Enabled(st, e)
    requires st.wsInstance.Some? && st.browser.sockets[st.wsInstance.value].Live()
    ensures Step(st, e).wsInstance == st.wsInstance <==> !EndsLink(st, e)
    ensures EndsLink(st, e) ==> !Step(st, e).browser.sockets[st.wsInstance.value].Live()
  {
    match e
    case Unmount(hook) => RemovedOne(st.messageHandlers, hook);
    case _ =>
  }

  // ----- Retries given back -----

  /** One failure after an open: a retry is armed at once and its timer counts as the first. */
  lemma RetriedAfterOpen(st: State, i: nat)
    requires Inv(st) && Enabled(st, Opened(i))
    ensures var network, drop, fire := st.browser.sockets[i].network, Dropped(i, true), Fired(st.browser.nextId, false);
      var open := Step(st, Opened(i));
      && Enabled(open, drop) && Enabled(Step(open, drop), fire)
      && var retried := Step(Step(open, drop), fire);
      && Inv(retried) && Trying(retried, network, 1)
      && retried.wsInstance == Some(st.browser.nextId + 1) && retried.browser.nextId == st.browser.nextId + 2
  {
    var network := st.browser.sockets[i].network;
    var drop, fire := Dropped(i, true), Fired(st.browser.nextId, false);
    assert st.browser.sockets[i].Acts();
    var open := Step(st, Opened(i));
    StepKeepsInv(st, Opened(i));
    StepKeepsInv(open, drop);
    assert Step(open, drop).browser.timers[st.browser.nextId] == network;
    StepKeepsInv(Step(open, drop), fire);
  }

  /**
   A socket that opens gives all ten retries back, whatever had been used before: however it fails afterwards, the
   n-th failure in a row leads to the n-th retry, up to ten.
   */
  lemma OpenGivesRetriesBack(st: State, i: nat, n: nat)
    requires Inv(st) && Enabled(st, Opened(i)) && 1 <= n <= 10
    ensures LeadsToTrying(Step(st, Opened(i)), Outage(i, st.browser.nextId, n), st.browser.sockets[i].network, n)
  {
    hide Step, Inv, IsRun, After;
    var network := st.browser.sockets[i].network;
    var open, drop, fire := Step(st, Opened(i)), Dropped(i, true), Fired(st.browser.nextId, false);
    RetriedAfterOpen(st, i);
    var retried := Step(Step(open, drop), fire);
    OutageRetries(retried, network, n - 1);
    var rest := Outage(st.browser.nextId + 1, st.browser.nextId + 2, n - 1);
    RunOfTwo(open, drop, fire, rest);
    assert Outage(i, st.browser.nextId, n) == [drop, fire] + rest;
  }
}
