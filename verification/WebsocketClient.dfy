/**
  The reconnecting client. A socket is its number in the order of creation; `wire` records what an
  open socket accepted, and `dropped` what was handed to no open socket: such a send fails, and the
  client only reports it. The application's open handler may itself send and close, in any order;
  what it does is a parameter of the open event.
*/
module WebsocketClient {
  import opened Common

  type Payload = string

  datatype ReadyState = Connecting | Open | Closing | Closed

  // What an open handler does with the client.
  datatype Action = SendIt(payload: Payload) | CloseIt

  datatype State = State(
    sockets: seq<ReadyState>,
    socket: Option<nat>,      // the client's current socket
    attached: set<nat>,       // sockets whose events reach the client
    pending: seq<Payload>,
    wire: seq<(nat, Payload)>,
    dropped: seq<Payload>)

  predicate Ready(st: State) {
    st.socket.Some? && st.socket.value < |st.sockets| && st.sockets[st.socket.value] == Open
  }

  function Connected(st: State): State {
    st.(sockets := st.sockets + [Connecting], socket := Some(|st.sockets|), attached := st.attached + {|st.sockets|})
  }

  function Deliver(st: State, payload: Payload): State {
    if Ready(st) then st.(wire := st.wire + [(st.socket.value, payload)]) else st.(dropped := st.dropped + [payload])
  }

  function DeliverAll(st: State, payloads: seq<Payload>): State {
    if payloads == [] then st else Deliver(DeliverAll(st, payloads[..|payloads| - 1]), payloads[|payloads| - 1])
  }

  function SendOne(st: State, payload: Payload): State {
    if Ready(st) then Deliver(st, payload) else st.(pending := st.pending + [payload])
  }

  // `close` asks the current socket to close; its close event comes later.
  function CloseAsked(st: State): State {
    if st.socket.Some? && st.socket.value < |st.sockets| && st.sockets[st.socket.value] != Closed then
      st.(sockets := st.sockets[st.socket.value := Closing])
    else st
  }

  function Perform(st: State, action: Action): State {
    match action
    case SendIt(payload) => SendOne(st, payload)
    case CloseIt => CloseAsked(st)
  }

  function PerformAll(st: State, actions: seq<Action>): State {
    if actions == [] then st else Perform(PerformAll(st, actions[..|actions| - 1]), actions[|actions| - 1])
  }

  function Flushed(st: State): State {
    DeliverAll(st.(pending := []), st.pending)
  }

  function JustOpen(st: State, i: nat): State
    requires i < |st.sockets|
  {
    st.(sockets := st.sockets[i := Open])
  }

  function Opened(st: State, i: nat, actions: seq<Action>): State
    requires i < |st.sockets|
  {
    if i in st.attached then Flushed(PerformAll(JustOpen(st, i), actions)) else JustOpen(st, i)
  }

  // A close event detaches the client from its current socket, whichever socket closed.
  function ClosedAt(st: State, i: nat): State
    requires i < |st.sockets|
  {
    var closed := st.(sockets := st.sockets[i := Closed]);
    if i in st.attached then
      closed.(socket := None, attached := if st.socket.Some? then st.attached - {st.socket.value} else st.attached)
    else closed
  }

  class Client {
    var sockets: seq<ReadyState>
    var socket: Option<nat>
    var attached: set<nat>
    var pendingPayloads: seq<Payload>
    var wire: seq<(nat, Payload)>
    var dropped: seq<Payload>

    function Model(): State
      reads this
    {
      State(sockets, socket, attached, pendingPayloads, wire, dropped)
    }

    constructor ()
      ensures Model() == INITIAL
    {
      sockets, socket, attached := [Connecting], Some(0), {0};
      pendingPayloads, wire, dropped := [], [], [];
    }

    method Connect()
      modifies this
      ensures Model() == Connected(old(Model()))
    {
      attached := attached + {|sockets|};
      socket := Some(|sockets|);
      sockets := sockets + [Connecting];
    }

    method SendPayload(payload: Payload)
      modifies this
      ensures Model() == Deliver(old(Model()), payload)
    {
      if socket.Some? && socket.value < |sockets| && sockets[socket.value] == Open {
        wire := wire + [(socket.value, payload)];
      } else {
        dropped := dropped + [payload];
      }
    }

    method Send(payload: Payload)
      modifies this
      ensures Model() == SendOne(old(Model()), payload)
    {
      if !(socket.Some? && socket.value < |sockets| && sockets[socket.value] == Open) {
        pendingPayloads := pendingPayloads + [payload];
        return;
      }
      SendPayload(payload);
    }

    method FlushPendingPayloads()
      modifies this
      ensures Model() == Flushed(old(Model()))
    {
      var payloads := pendingPayloads;
      pendingPayloads := [];
      for i := 0 to |payloads|
        invariant Model() == DeliverAll(old(Model()).(pending := []), payloads[..i])
      {
        assert payloads[..i + 1][..i] == payloads[..i];
        SendPayload(payloads[i]);
      }
      assert payloads[..|payloads|] == payloads;
    }

    method Close()
      modifies this
      ensures Model() == CloseAsked(old(Model()))
    {
      if !(socket.Some? && socket.value < |sockets| && sockets[socket.value] != Closed) {
        return;
      }
      sockets := sockets[socket.value := Closing];
    }

    // Socket i has opened.
    method OnOpen(i: nat, actions: seq<Action>)
      requires i < |sockets| && sockets[i] == Connecting
      modifies this
      ensures Model() == Opened(old(Model()), i, actions)
    {
      sockets := sockets[i := Open];
      if i in attached {
        ghost var open := Model();
        for j := 0 to |actions|
          invariant Model() == PerformAll(open, actions[..j])
        {
          assert actions[..j + 1][..j] == actions[..j];
          match actions[j] {
            case SendIt(payload) => Send(payload);
            case CloseIt => Close();
          }
        }
        assert actions[..|actions|] == actions;
        FlushPendingPayloads();
      }
    }

    // Socket i has closed.
    method OnClose(i: nat)
      requires i < |sockets| && sockets[i] != Closed
      modifies this
      ensures Model() == ClosedAt(old(Model()), i)
    {
      sockets := sockets[i := Closed];
      if i in attached {
        if socket.Some? {
          attached := attached - {socket.value};
        }
        socket := None;
      }
    }
  }

  // ----- Runs -----

  const INITIAL := State([Connecting], Some(0), {0}, [], [], [])

  datatype Event =
    | Send(payload: Payload)
    | Connect                                         // a reconnect timer fires
    | OpenEvent(i: nat, actions: seq<Action>)
    | StartClosing(i: nat)                            // by either end, outside the open handler
    | CloseEvent(i: nat)

  predicate Enabled(st: State, e: Event) {
    match e
    case Send(_) => true
    case Connect => true
    case OpenEvent(i, _) => i < |st.sockets| && st.sockets[i] == Connecting
    case StartClosing(i) => i < |st.sockets| && (st.sockets[i] == Connecting || st.sockets[i] == Open)
    case CloseEvent(i) => i < |st.sockets| && st.sockets[i] != Closed
  }

  function Step(st: State, e: Event): State {
    if !Enabled(st, e) then st
    else
      match e
      case Send(payload) => SendOne(st, payload)
      case Connect => Connected(st)
      case OpenEvent(i, actions) => Opened(st, i, actions)
      case StartClosing(i) => st.(sockets := st.sockets[i := Closing])
      case CloseEvent(i) => ClosedAt(st, i)
  }

  function Run(es: seq<Event>): State {
    if es == [] then INITIAL else Step(Run(es[..|es| - 1]), es[|es| - 1])
  }

  predicate Legal(es: seq<Event>) {
    es != [] ==> Legal(es[..|es| - 1]) && Enabled(Run(es[..|es| - 1]), es[|es| - 1])
  }

  function SendsOf(actions: seq<Action>): seq<Payload> {
    if actions == [] then []
    else
      var init, last := actions[..|actions| - 1], actions[|actions| - 1];
      SendsOf(init) + if last.SendIt? then [last.payload] else []
  }

  predicate Closes(actions: seq<Action>) {
    CloseIt in actions
  }

  // What the handler sends before it first closes, and what it sends after that.
  function Prompt(actions: seq<Action>): seq<Payload> {
    if actions == [] then []
    else
      var init, last := actions[..|actions| - 1], actions[|actions| - 1];
      Prompt(init) + if last.SendIt? && !Closes(init) then [last.payload] else []
  }

  function Late(actions: seq<Action>): seq<Payload> {
    if actions == [] then []
    else
      var init, last := actions[..|actions| - 1], actions[|actions| - 1];
      Late(init) + if last.SendIt? && Closes(init) then [last.payload] else []
  }

  // The calls of `send` the event makes.
  function Sends(st: State, e: Event): seq<Payload> {
    match e
    case Send(payload) => [payload]
    case OpenEvent(i, actions) => if i in st.attached then SendsOf(actions) else []
    case _ => []
  }

  // All calls of `send` in the run, in order.
  function Sent(es: seq<Event>): seq<Payload> {
    if es == [] then [] else Sent(es[..|es| - 1]) + Sends(Run(es[..|es| - 1]), es[|es| - 1])
  }

  function Payloads(wire: seq<(nat, Payload)>): seq<Payload> {
    seq(|wire|, i requires 0 <= i < |wire| => wire[i].1)
  }

  function On(i: nat, payloads: seq<Payload>): seq<(nat, Payload)> {
    seq(|payloads|, k requires 0 <= k < |payloads| => (i, payloads[k]))
  }

  // ----- What the two loops do -----

  lemma {:induction false} DeliverAllMeaning(st: State, payloads: seq<Payload>)
    ensures DeliverAll(st, payloads) ==
            if Ready(st) then st.(wire := st.wire + On(st.socket.value, payloads))
                else st.(dropped := st.dropped + payloads)
  {
    if payloads == [] {
      assert st.dropped + payloads == st.dropped;
      if Ready(st) {
        assert st.wire + On(st.socket.value, payloads) == st.wire;
      }
    } else {
      var init, last := payloads[..|payloads| - 1], payloads[|payloads| - 1];
      DeliverAllMeaning(st, init);
      assert payloads == init + [last];
      if Ready(st) {
        assert On(st.socket.value, payloads) == On(st.socket.value, init) + [(st.socket.value, last)];
        assert st.wire + On(st.socket.value, init) + [(st.socket.value, last)] ==
            st.wire + On(st.socket.value, payloads);
      } else {
        assert st.dropped + init + [last] == st.dropped + payloads;
      }
    }
  }

  lemma ClosesSnoc(actions: seq<Action>)
    requires actions != []
    ensures Closes(actions) <==> Closes(actions[..|actions| - 1]) || actions[|actions| - 1].CloseIt?
  {
    assert actions == actions[..|actions| - 1] + [actions[|actions| - 1]];
  }

  lemma {:induction false} SendsAreSplit(actions: seq<Action>)
    ensures multiset(SendsOf(actions)) == multiset(Prompt(actions)) + multiset(Late(actions))
  {
    if actions != [] {
      SendsAreSplit(actions[..|actions| - 1]);
    }
  }

  lemma {:induction false} AllArePrompt(actions: seq<Action>)
    ensures !Closes(actions) ==> Late(actions) == []
    ensures Late(actions) == [] ==> Prompt(actions) == SendsOf(actions)
  {
    if actions != [] {
      AllArePrompt(actions[..|actions| - 1]);
      ClosesSnoc(actions);
    }
  }

  // The handler on an open current socket: before its first close it sends, after it queues.
  lemma {:induction false} PerformAllReady(st: State, actions: seq<Action>)
    requires Ready(st)
    ensures PerformAll(st, actions) ==
            (if Closes(actions) then CloseAsked(st) else st).(
            wire := st.wire + On(st.socket.value, Prompt(actions)), pending := st.pending + Late(actions))
  {
    var s := st.socket.value;
    if actions == [] {
      assert st.wire + On(s, []) == st.wire && st.pending + [] == st.pending;
    } else {
      var init, last := actions[..|actions| - 1], actions[|actions| - 1];
      PerformAllReady(st, init);
      ClosesSnoc(actions);
      if last.SendIt? {
        OnSnoc(st.wire, s, Prompt(init), last.payload);
        assert st.pending + Late(init) + [last.payload] == st.pending + (Late(init) + [last.payload]);
      }
    }
  }

  lemma OnSnoc(wire: seq<(nat, Payload)>, i: nat, payloads: seq<Payload>, payload: Payload)
    ensures wire + On(i, payloads) + [(i, payload)] == wire + On(i, payloads + [payload])
  {
    assert On(i, payloads + [payload]) == On(i, payloads) + [(i, payload)];
  }

  // Otherwise everything it sends is queued.
  lemma {:induction false} PerformAllWaiting(st: State, actions: seq<Action>)
    requires !Ready(st)
    ensures PerformAll(st, actions) ==
            (if Closes(actions) then CloseAsked(st) else st).(pending := st.pending + SendsOf(actions))
  {
    if actions == [] {
      assert st.pending + [] == st.pending;
    } else {
      var init, last := actions[..|actions| - 1], actions[|actions| - 1];
      PerformAllWaiting(st, init);
      ClosesSnoc(actions);
      if last.SendIt? {
        assert st.pending + SendsOf(init) + [last.payload] == st.pending + (SendsOf(init) + [last.payload]);
      }
    }
  }

  lemma FlushedWaiting(st: State)
    requires !Ready(st)
    ensures Flushed(st) == st.(dropped := st.dropped + st.pending, pending := [])
  {
    DeliverAllMeaning(st.(pending := []), st.pending);
  }

  lemma OpenedStaying(st: State, i: nat, actions: seq<Action>)
    requires i < |st.sockets| && i in st.attached && Ready(JustOpen(st, i)) && !Closes(actions)
    ensures Opened(st, i, actions) ==
            JustOpen(st, i).(wire := st.wire + On(st.socket.value, SendsOf(actions) + st.pending), pending := [])
  {
    var s, sends := st.socket.value, SendsOf(actions);
    PerformAllReady(JustOpen(st, i), actions);
    AllArePrompt(actions);
    assert st.pending + [] == st.pending;
    assert PerformAll(JustOpen(st, i), actions) == JustOpen(st, i).(wire := st.wire + On(s, sends));
    FlushedReady(JustOpen(st, i).(wire := st.wire + On(s, sends)));
    OnAppend(st.wire, s, sends, st.pending);
  }

  lemma FlushedReady(st: State)
    requires Ready(st)
    ensures Flushed(st) == st.(wire := st.wire + On(st.socket.value, st.pending), pending := [])
  {
    DeliverAllMeaning(st.(pending := []), st.pending);
  }

  lemma OnAppend(wire: seq<(nat, Payload)>, i: nat, a: seq<Payload>, b: seq<Payload>)
    ensures wire + On(i, a) + On(i, b) == wire + On(i, a + b)
  {
    assert On(i, a + b) == On(i, a) + On(i, b);
  }

  // The socket as the handler leaves it.
  function AfterHandler(st: State, i: nat, actions: seq<Action>): State
    requires i < |st.sockets|
  {
    if Closes(actions) then CloseAsked(JustOpen(st, i)) else JustOpen(st, i)
  }

  // An open event of an attached socket empties the queue. With the current socket open and left
  // open, everything goes onto it, the handler's payloads first. If the handler closes, only what it
  // sent before that arrives. If the current socket is not open, nothing arrives. The rest is dropped.
  lemma OpenedMeaning(st: State, i: nat, actions: seq<Action>)
    requires i < |st.sockets| && i in st.attached
    ensures var next := Opened(st, i, actions);
            && next.pending == [] && next.sockets == AfterHandler(st, i, actions).sockets
            && next.socket == st.socket && next.attached == st.attached
            && (if !Ready(JustOpen(st, i)) then
                  next.wire == st.wire && next.dropped == st.dropped + (st.pending + SendsOf(actions))
                else if Closes(actions) then
                  && next.wire == st.wire + On(st.socket.value, Prompt(actions))
                  && next.dropped == st.dropped + (st.pending + Late(actions))
                else
                  && next.wire == st.wire + On(st.socket.value, SendsOf(actions) + st.pending)
                  && next.dropped == st.dropped)
  {
    var open := JustOpen(st, i);
    if !Ready(open) {
      PerformAllWaiting(open, actions);
      FlushedWaiting(PerformAll(open, actions));
    } else if Closes(actions) {
      PerformAllReady(open, actions);
      FlushedWaiting(PerformAll(open, actions));
    } else {
      OpenedStaying(st, i, actions);
    }
  }

  // A close event that is heard leaves the client without a socket and deaf to the one it had, even
  // if another one closed; one that is not heard changes nothing but that socket.
  lemma ClosedMeaning(st: State, i: nat)
    requires i < |st.sockets|
    ensures var next := ClosedAt(st, i);
            && next.sockets == st.sockets[i := Closed] && next.pending == st.pending
            && next.wire == st.wire && next.dropped == st.dropped
            && next.socket == (if i in st.attached then None else st.socket)
            && (forall k :: k in next.attached <==>
                  k in st.attached && !(i in st.attached && st.socket == Some(k)))
  {
  }

  // An open event that is not heard opens that socket and nothing else.
  lemma UnheardOpen(st: State, i: nat, actions: seq<Action>)
    requires i < |st.sockets| && i !in st.attached
    ensures Opened(st, i, actions) == st.(sockets := st.sockets[i := Open])
  {
  }

  // Once the current socket has begun to close, or is gone, what is sent waits.
  lemma ClosingQueues(st: State, i: nat, payload: Payload)
    requires st.socket == Some(i) && i in st.attached
    ensures Enabled(st, StartClosing(i)) ==>
              Step(Step(st, StartClosing(i)), Send(payload)) ==
              st.(sockets := st.sockets[i := Closing], pending := st.pending + [payload])
    ensures Enabled(st, CloseEvent(i)) ==>
              var next := Step(Step(st, CloseEvent(i)), Send(payload));
              next.pending == st.pending + [payload] && next.wire == st.wire && next.dropped == st.dropped
  {
  }

  lemma PayloadsAppend(wire: seq<(nat, Payload)>, i: nat, payloads: seq<Payload>)
    ensures Payloads(wire + On(i, payloads)) == Payloads(wire) + payloads
  {
  }

  // ----- Nothing is duplicated or invented -----

  function Accounted(st: State): multiset<Payload> {
    multiset(Payloads(st.wire)) + multiset(st.pending) + multiset(st.dropped)
  }

  lemma StepAccounts(st: State, e: Event)
    requires Enabled(st, e)
    ensures Accounted(Step(st, e)) == Accounted(st) + multiset(Sends(st, e))
  {
    match e
    case Send(payload) => SendAccounts(st, payload);
    case OpenEvent(i, actions) => if i in st.attached { OpenAccounts(st, i, actions); }
    case _ =>
  }

  lemma SendAccounts(st: State, payload: Payload)
    ensures Accounted(SendOne(st, payload)) == Accounted(st) + multiset([payload])
  {
    if Ready(st) {
      PayloadsAppend(st.wire, st.socket.value, [payload]);
      assert On(st.socket.value, [payload]) == [(st.socket.value, payload)];
    }
  }

  lemma OpenAccounts(st: State, i: nat, actions: seq<Action>)
    requires i < |st.sockets| && i in st.attached
    ensures Accounted(Opened(st, i, actions)) == Accounted(st) + multiset(SendsOf(actions))
  {
    var sends, next := SendsOf(actions), Opened(st, i, actions);
    OpenedMeaning(st, i, actions);
    if !Ready(JustOpen(st, i)) {
      MovedAccounts(st, next, [], st.pending, sends, sends);
    } else if Closes(actions) {
      SendsAreSplit(actions);
      MovedAccounts(st, next, Prompt(actions), st.pending, Late(actions), sends);
    } else {
      PayloadsAppend(st.wire, st.socket.value, sends + st.pending);
    }
  }

  lemma MovedAccounts(st: State, next: State, arrived: seq<Payload>, queue: seq<Payload>, late: seq<Payload>,
                      sends: seq<Payload>)
    requires queue == st.pending && next.pending == [] && next.dropped == st.dropped + (queue + late)
    requires next.wire == st.wire + On(if st.socket.Some? then st.socket.value else 0, arrived)
    requires multiset(sends) == multiset(arrived) + multiset(late)
    ensures Accounted(next) == Accounted(st) + multiset(sends)
  {
    PayloadsAppend(st.wire, if st.socket.Some? then st.socket.value else 0, arrived);
  }

  // In every run, however sockets overlap: each payload sent is delivered once, waiting, or dropped.
  lemma {:induction false} EveryPayloadAccounted(es: seq<Event>)
    requires Legal(es)
    ensures Accounted(Run(es)) == multiset(Sent(es))
  {
    if es == [] {
      assert Payloads([]) == [];
    } else {
      EveryPayloadAccounted(es[..|es| - 1]);
      StepAccounts(Run(es[..|es| - 1]), es[|es| - 1]);
    }
  }

  // An attached socket opens while the current one is not open and there is something to send, or
  // the handler closes while something waits or is yet to be sent.
  predicate Loses(st: State, e: Event) {
    && e.OpenEvent? && e.i < |st.sockets| && e.i in st.attached
    && (if !Ready(JustOpen(st, e.i)) then st.pending + SendsOf(e.actions) != []
        else Closes(e.actions) && st.pending + Late(e.actions) != [])
  }

  lemma DropsIff(st: State, e: Event)
    requires Enabled(st, e)
    ensures st.dropped <= Step(st, e).dropped
    ensures Step(st, e).dropped != st.dropped <==> Loses(st, e)
  {
    if e.OpenEvent? && e.i in st.attached {
      OpenedMeaning(st, e.i, e.actions);
      assert forall lost: seq<Payload> :: |st.dropped + lost| == |st.dropped| + |lost|;
    }
  }

  predicate NeverLoses(es: seq<Event>) {
    es != [] ==> NeverLoses(es[..|es| - 1]) && !Loses(Run(es[..|es| - 1]), es[|es| - 1])
  }

  // However sockets overlap: nothing is dropped in a run if and only if no event of it loses something.
  lemma {:induction false} NothingDroppedIff(es: seq<Event>)
    requires Legal(es)
    ensures Run(es).dropped == [] <==> NeverLoses(es)
  {
    if es != [] {
      NothingDroppedIff(es[..|es| - 1]);
      DropsIff(Run(es[..|es| - 1]), es[|es| - 1]);
    }
  }

  // ----- One socket at a time -----

  // A reconnect only ever fires when the client has no socket.
  predicate OneSocket(es: seq<Event>) {
    es != [] ==> OneSocket(es[..|es| - 1]) && (es[|es| - 1].Connect? ==> Run(es[..|es| - 1]).socket == None)
  }

  predicate OneSocketInv(st: State) {
    && (forall i | 0 <= i < |st.sockets| && st.sockets[i] != Closed :: st.socket == Some(i))
    && (st.socket.Some? ==>
          st.socket.value < |st.sockets| && st.socket.value in st.attached && st.sockets[st.socket.value] != Closed)
  }

  lemma OneSocketStep(st: State, e: Event)
    requires OneSocketInv(st) && Enabled(st, e) && (e.Connect? ==> st.socket == None)
    ensures OneSocketInv(Step(st, e))
  {
    if e.OpenEvent? {
      OpenedMeaning(st, e.i, e.actions);
    }
  }

  lemma {:induction false} OneSocketRun(es: seq<Event>)
    requires Legal(es) && OneSocket(es)
    ensures OneSocketInv(Run(es))
  {
    if es != [] {
      OneSocketRun(es[..|es| - 1]);
      OneSocketStep(Run(es[..|es| - 1]), es[|es| - 1]);
    }
  }

  // An open handler closes although something waits, or before its own last payload.
  predicate Hasty(st: State, e: Event) {
    e.OpenEvent? && Closes(e.actions) && st.pending + Late(e.actions) != []
  }

  predicate NeverHasty(es: seq<Event>) {
    es != [] ==> NeverHasty(es[..|es| - 1]) && !Hasty(Run(es[..|es| - 1]), es[|es| - 1])
  }

  // Then no payload is lost, and what was delivered and what waits are together what was sent, if
  // and only if no open handler is hasty.
  lemma NothingDropped(es: seq<Event>)
    requires Legal(es) && OneSocket(es)
    ensures Run(es).dropped == [] <==> NeverHasty(es)
    ensures multiset(Payloads(Run(es).wire)) + multiset(Run(es).pending) == multiset(Sent(es)) <==> NeverHasty(es)
  {
    EveryPayloadAccounted(es);
    HastyIsLossy(es);
    NothingDroppedIff(es);
    AddsNothingIff(multiset(Payloads(Run(es).wire)) + multiset(Run(es).pending), Run(es).dropped);
  }

  lemma AddsNothingIff(kept: multiset<Payload>, dropped: seq<Payload>)
    ensures kept + multiset(dropped) == kept <==> dropped == []
  {
    assert |kept + multiset(dropped)| == |kept| + |dropped|;
  }

  lemma {:induction false} HastyIsLossy(es: seq<Event>)
    requires Legal(es) && OneSocket(es)
    ensures NeverHasty(es) <==> NeverLoses(es)
  {
    if es != [] {
      HastyIsLossy(es[..|es| - 1]);
      OneSocketRun(es[..|es| - 1]);
    }
  }

  // ----- Order, whatever the handler does -----

  // What an open event keeps of the order: the handler's payloads go ahead of the queue, so order
  // is kept if and only if that makes no difference; a hasty handler loses what should have followed.
  lemma OpenKeepsOrderIff(st: State, i: nat, actions: seq<Action>)
    requires i < |st.sockets| && i in st.attached && Ready(JustOpen(st, i))
    ensures var next, sends := Opened(st, i, actions), SendsOf(actions);
            Payloads(next.wire) + next.pending == Payloads(st.wire) + st.pending + sends <==>
              if Closes(actions) then st.pending + Late(actions) == [] else sends + st.pending == st.pending + sends
  {
    OpenedMeaning(st, i, actions);
    AllArePrompt(actions);
    var next, sends := Opened(st, i, actions), SendsOf(actions);
    var w := Payloads(st.wire);
    assert w + st.pending + sends == w + (st.pending + sends);
    assert Payloads(next.wire) + next.pending == Payloads(next.wire);
    if Closes(actions) {
      PayloadsAppend(st.wire, st.socket.value, Prompt(actions));
      SamePrefix(w, Prompt(actions), w, st.pending + sends);
      SendsLength(actions);
    } else {
      PayloadsAppend(st.wire, st.socket.value, sends + st.pending);
      SamePrefix(w, sends + st.pending, w, st.pending + sends);
    }
  }

  lemma SendsLength(actions: seq<Action>)
    ensures |SendsOf(actions)| == |Prompt(actions)| + |Late(actions)|
  {
    SendsAreSplit(actions);
    assert |multiset(SendsOf(actions))| == |SendsOf(actions)|;
    assert |multiset(Prompt(actions)) + multiset(Late(actions))| == |Prompt(actions)| + |Late(actions)|;
  }

  lemma SamePrefix<T>(u: seq<T>, a: seq<T>, v: seq<T>, b: seq<T>)
    requires |u| == |v|
    ensures u + a == v + b <==> u == v && a == b
  {
    if u + a == v + b {
      assert (u + a)[..|u|] == u && (v + b)[..|u|] == v;
      assert (u + a)[|u|..] == a && (v + b)[|u|..] == b;
    }
  }

  // The queue is the end of what was sent; everything before it has been delivered, in some order.
  ghost predicate QueueIsSuffix(st: State, sent: seq<Payload>) {
    && |st.wire| <= |sent| && sent[|st.wire|..] == st.pending
    && (Ready(st) ==> st.pending == [])
  }

  lemma SuffixSend(st: State, sent: seq<Payload>, payload: Payload)
    requires QueueIsSuffix(st, sent)
    ensures var next := SendOne(st, payload);
            && QueueIsSuffix(next, sent + [payload])
            && (Payloads(next.wire) == (sent + [payload])[..|next.wire|] <==> Payloads(st.wire) == sent[..|st.wire|])
  {
    var all := sent + [payload];
    if Ready(st) {
      assert On(st.socket.value, [payload]) == [(st.socket.value, payload)];
      PayloadsAppend(st.wire, st.socket.value, [payload]);
      assert all[..|sent| + 1] == sent + [payload];
      assert sent[..|st.wire|] == sent;
      SamePrefix(Payloads(st.wire), [payload], sent, [payload]);
    } else {
      assert all[|st.wire|..] == st.pending + [payload];
      assert all[..|st.wire|] == sent[..|st.wire|];
    }
  }

  // The handler at the open event is not hasty, and its payloads may as well follow the queue.
  predicate Harmless(st: State, e: Event) {
    e.OpenEvent? ==>
      var sends := SendsOf(e.actions);
      if Closes(e.actions) then st.pending + Late(e.actions) == [] else sends + st.pending == st.pending + sends
  }

  // Unless the handler is hasty, its payloads and then the queue arrive.
  lemma ArrivesOnOpen(st: State, i: nat, actions: seq<Action>)
    requires OneSocketInv(st) && Enabled(st, OpenEvent(i, actions)) && !Hasty(st, OpenEvent(i, actions))
    ensures var next := Opened(st, i, actions);
            i in st.attached && next.pending == [] && next.wire == st.wire + On(i, SendsOf(actions) + st.pending)
  {
    OpenedMeaning(st, i, actions);
    AllArePrompt(actions);
    if Closes(actions) {
      assert SendsOf(actions) + st.pending == Prompt(actions);
    }
  }

  lemma SuffixArrived(st: State, sent: seq<Payload>, next: State, sends: seq<Payload>)
    requires QueueIsSuffix(st, sent) && next.pending == []
    requires exists i :: next.wire == st.wire + On(i, sends + st.pending)
    ensures QueueIsSuffix(next, sent + sends)
    ensures Payloads(next.wire) == (sent + sends)[..|next.wire|] <==>
              Payloads(st.wire) == sent[..|st.wire|] && sends + st.pending == st.pending + sends
  {
    var i :| next.wire == st.wire + On(i, sends + st.pending);
    var all, n := sent + sends, |st.wire|;
    PayloadsAppend(st.wire, i, sends + st.pending);
    assert sent == sent[..n] + st.pending;
    assert all == sent[..n] + (st.pending + sends);
    assert all[..|all|] == all;
    SamePrefix(Payloads(st.wire), sends + st.pending, sent[..n], st.pending + sends);
  }

  lemma SuffixOpen(st: State, sent: seq<Payload>, i: nat, actions: seq<Action>)
    requires QueueIsSuffix(st, sent) && OneSocketInv(st) && Enabled(st, OpenEvent(i, actions))
    requires !Hasty(st, OpenEvent(i, actions))
    ensures var next, all := Opened(st, i, actions), sent + SendsOf(actions);
            && i in st.attached && QueueIsSuffix(next, all)
            && (Payloads(next.wire) == all[..|next.wire|] <==>
                  Payloads(st.wire) == sent[..|st.wire|] && Harmless(st, OpenEvent(i, actions)))
  {
    var sends := SendsOf(actions);
    ArrivesOnOpen(st, i, actions);
    SuffixArrived(st, sent, Opened(st, i, actions), sends);
    if Closes(actions) {
      assert sends + st.pending == st.pending + sends;
    }
  }

  predicate HarmlessHandler(es: seq<Event>) {
    es != [] ==> HarmlessHandler(es[..|es| - 1]) && Harmless(Run(es[..|es| - 1]), es[|es| - 1])
  }

  lemma {:induction false} DeliveredPrefixIff(es: seq<Event>)
    requires Legal(es) && OneSocket(es) && NeverHasty(es)
    ensures QueueIsSuffix(Run(es), Sent(es))
    ensures Payloads(Run(es).wire) == Sent(es)[..|Run(es).wire|] <==> HarmlessHandler(es)
  {
    if es == [] {
      assert Payloads([]) == [];
    } else {
      var init, e := es[..|es| - 1], es[|es| - 1];
      var st := Run(init);
      DeliveredPrefixIff(init);
      OneSocketRun(init);
      match e
      case Send(payload) => SuffixSend(st, Sent(init), payload);
      case OpenEvent(i, actions) => SuffixOpen(st, Sent(init), i, actions);
      case _ => assert Sent(init) + [] == Sent(init);
    }
  }

  lemma {:induction false} HarmlessIsNotHasty(es: seq<Event>)
    requires HarmlessHandler(es)
    ensures NeverHasty(es)
  {
    if es != [] {
      HarmlessIsNotHasty(es[..|es| - 1]);
    }
  }

  // With one socket at a time, deliveries followed by the queue are exactly the calls of `send`, in
  // order, if and only if at every open event the handler is harmless.
  lemma DeliveredInOrderIff(es: seq<Event>)
    requires Legal(es) && OneSocket(es)
    ensures Payloads(Run(es).wire) + Run(es).pending == Sent(es) <==> HarmlessHandler(es)
  {
    if NeverHasty(es) {
      DeliveredPrefixIff(es);
      var n, sent := |Run(es).wire|, Sent(es);
      assert sent == sent[..n] + sent[n..];
      SamePrefix(Payloads(Run(es).wire), Run(es).pending, sent[..n], sent[n..]);
    } else {
      HastyIsNotInOrder(es);
    }
  }

  lemma HastyIsNotInOrder(es: seq<Event>)
    requires Legal(es) && OneSocket(es) && !NeverHasty(es)
    ensures Payloads(Run(es).wire) + Run(es).pending != Sent(es) && !HarmlessHandler(es)
  {
    var wire, pending := Payloads(Run(es).wire), Run(es).pending;
    NothingDropped(es);
    if HarmlessHandler(es) {
      HarmlessIsNotHasty(es);
    }
    assert multiset(wire + pending) == multiset(wire) + multiset(pending);
  }

  // The open handler neither sends nor closes.
  predicate QuietHandler(es: seq<Event>) {
    forall i | 0 <= i < |es| :: es[i].OpenEvent? ==> es[i].actions == []
  }

  lemma {:induction false} QuietIsHarmless(es: seq<Event>)
    requires QuietHandler(es)
    ensures HarmlessHandler(es)
  {
    if es != [] {
      var init, e := es[..|es| - 1], es[|es| - 1];
      QuietIsHarmless(init);
      if e.OpenEvent? {
        assert [] + Run(init).pending == Run(init).pending + [];
      }
    }
  }

  // In particular, with such a handler nothing is lost and order is kept across all reconnects.
  lemma DeliveredInOrder(es: seq<Event>)
    requires Legal(es) && OneSocket(es) && QuietHandler(es)
    ensures Payloads(Run(es).wire) + Run(es).pending == Sent(es) && Run(es).dropped == []
    ensures Ready(Run(es)) ==> Run(es).pending == []
  {
    QuietIsHarmless(es);
    HarmlessIsNotHasty(es);
    NothingDropped(es);
    DeliveredPrefixIff(es);
    DeliveredInOrderIff(es);
  }

  // ----- Without those conditions -----

  lemma AppendEvent(es: seq<Event>, e: Event)
    ensures Run(es + [e]) == Step(Run(es), e)
    ensures Sent(es + [e]) == Sent(es) + Sends(Run(es), e)
    ensures Legal(es + [e]) <==> Legal(es) && Enabled(Run(es), e)
    ensures OneSocket(es + [e]) <==> OneSocket(es) && (e.Connect? ==> Run(es).socket == None)
  {
    assert (es + [e])[..|es|] == es;
  }

  const QUEUED: seq<Event> := [Send("queued")]

  lemma QueuedState()
    ensures Legal(QUEUED) && OneSocket(QUEUED)
    ensures Run(QUEUED) == INITIAL.(pending := ["queued"]) && Sent(QUEUED) == ["queued"]
  {
    AppendEvent([], Send("queued"));
    assert [] + [Send("queued")] == QUEUED;
    assert Run([]) == INITIAL && !Ready(INITIAL);
  }

  // A handler that sends overtakes the queue.
  lemma HandlerOvertakesQueue()
    ensures var es := QUEUED + [OpenEvent(0, [SendIt("handler")])];
            && Legal(es) && OneSocket(es)
            && Payloads(Run(es).wire) == ["handler", "queued"] && Sent(es) == ["queued", "handler"]
  {
    QueuedState();
    var st, actions := Run(QUEUED), [SendIt("handler")];
    AppendEvent(QUEUED, OpenEvent(0, actions));
    HandlerSends();
    OpenedMeaning(st, 0, actions);
    PayloadsAppend(st.wire, 0, ["handler"] + ["queued"]);
    assert Payloads(st.wire) == [];
  }

  lemma HandlerSends()
    ensures SendsOf([SendIt("handler")]) == ["handler"] && !Closes([SendIt("handler")])
  {
    assert [SendIt("handler")][..0] == [];
    assert SendsOf([]) == [];
  }

  // A handler that closes loses the queue, with one socket and no reconnect.
  lemma ClosingHandlerDrops()
    ensures var es := QUEUED + [OpenEvent(0, [CloseIt])];
            && Legal(es) && OneSocket(es)
            && Run(es).dropped == ["queued"] && Run(es).pending == [] && Run(es).wire == []
  {
    QueuedState();
    AppendEvent(QUEUED, OpenEvent(0, [CloseIt]));
    assert [CloseIt][..0] == [];
    assert Late([CloseIt]) == [] && Prompt([CloseIt]) == [];
    OpenedMeaning(Run(QUEUED), 0, [CloseIt]);
    assert [] + (["queued"] + []) == ["queued"];
  }

  lemma ReconnectedState()
    ensures var es := QUEUED + [Connect];
            && Legal(es)
            && Run(es) == State([Connecting, Connecting], Some(1), {0, 1}, ["queued"], [], [])
  {
    QueuedState();
    AppendEvent(QUEUED, Connect);
    assert [Connecting] + [Connecting] == [Connecting, Connecting];
    assert {0} + {1} == {0, 1};
  }

  // A reconnect while the first socket is still connecting loses the queue when that socket opens.
  lemma OverlappingReconnectDrops()
    ensures var es := QUEUED + [Connect] + [OpenEvent(0, [])];
            Legal(es) && Run(es).dropped == ["queued"] && Run(es).pending == [] && Run(es).wire == []
  {
    ReconnectedState();
    var st := Run(QUEUED + [Connect]);
    AppendEvent(QUEUED + [Connect], OpenEvent(0, []));
    OpenedMeaning(st, 0, []);
    assert [] + (["queued"] + []) == ["queued"];
  }
}
