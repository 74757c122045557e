/**
  The heartbeat of authenticated websocket clients. Every check pings each client that is not
  awaited and terminates each one that is; a pong stops the waiting. RFC 6455 makes an endpoint
  answer a ping with a pong (sections 5.5.2 and 5.5.3).
*/
module WsAuth {
  // A socket is known by its identity.
  type Socket = nat

  datatype State = State(
    clients: set<Socket>,
    clientsToTerminate: set<Socket>,
    // the sockets whose pongs the service listens to; a listener is never removed
    listening: set<Socket>)

  datatype Event =
    | Authenticated(socket: Socket)
    | Pong(socket: Socket)
    | Disconnected(socket: Socket)
    | Check

  const INITIAL := State({}, {}, {})

  function Added(s: State, c: Socket): State {
    if c in s.clients then s
    else s.(clients := s.clients + {c}, listening := s.listening + {c})
  }

  function Ponged(s: State, c: Socket): State {
    if c in s.listening then s.(clientsToTerminate := s.clientsToTerminate - {c}) else s
  }

  function Pinged(s: State): set<Socket> {
    s.clients - s.clientsToTerminate
  }

  function Terminated(s: State): set<Socket> {
    s.clients * s.clientsToTerminate
  }

  function Checked(s: State): State {
    s.(clients := Pinged(s), clientsToTerminate := s.clientsToTerminate + s.clients)
  }

  function Step(s: State, e: Event): State {
    match e
    case Authenticated(c) => Added(s, c)
    case Pong(c) => Ponged(s, c)
    case Disconnected(c) => s.(clients := s.clients - {c})
    case Check => Checked(s)
  }

  function Run(es: seq<Event>): State {
    if es == [] then INITIAL else Step(Run(es[..|es| - 1]), es[|es| - 1])
  }

  class WsAuthService {
    var clients: set<Socket>
    var clientsToTerminate: set<Socket>
    var listening: set<Socket>

    ghost function Value(): State
      reads this
    {
      State(clients, clientsToTerminate, listening)
    }

    constructor ()
      ensures Value() == INITIAL
    {
      clients, clientsToTerminate, listening := {}, {}, {};
    }

    method AddClient(client: Socket)
      modifies this
      ensures Value() == Step(old(Value()), Authenticated(client))
    {
      if client in clients {
        return;
      }
      clients := clients + {client};
      listening := listening + {client};
    }

    method OnPong(client: Socket)
      modifies this
      ensures Value() == Step(old(Value()), Pong(client))
    {
      if client in listening {
        clientsToTerminate := clientsToTerminate - {client};
      }
    }

    method HandleDisconnect(client: Socket)
      modifies this
      ensures Value() == Step(old(Value()), Disconnected(client))
    {
      clients := clients - {client};
    }

    // The order in which the clients are visited makes no difference.
    method CheckClients() returns (pinged: set<Socket>, terminated: set<Socket>)
      modifies this
      ensures Value() == Step(old(Value()), Check)
      ensures pinged == Pinged(old(Value())) && terminated == Terminated(old(Value()))
    {
      pinged, terminated := {}, {};
      var unvisited := clients;
      while unvisited != {}
        invariant unvisited <= old(clients) && listening == old(listening)
        invariant pinged == Pinged(old(Value())) - unvisited
        invariant terminated == Terminated(old(Value())) - unvisited
        invariant clients == old(clients) - terminated
        invariant clientsToTerminate == old(clientsToTerminate) + pinged
      {
        var client :| client in unvisited;
        unvisited := unvisited - {client};
        if client in clientsToTerminate {
          terminated := terminated + {client};
          clients := clients - {client};
        } else {
          clientsToTerminate := clientsToTerminate + {client};
          pinged := pinged + {client};
        }
      }
    }

    // An event is sent to every client, once.
    method Broadcast() returns (sentTo: seq<Socket>)
      ensures forall c :: c in sentTo <==> c in clients
      ensures forall i, j | 0 <= i < j < |sentTo| :: sentTo[i] != sentTo[j]
    {
      sentTo := [];
      var unvisited := clients;
      while unvisited != {}
        invariant unvisited <= clients
        invariant forall c :: c in sentTo <==> c in clients - unvisited
        invariant forall i, j | 0 <= i < j < |sentTo| :: sentTo[i] != sentTo[j]
      {
        var client :| client in unvisited;
        assert client !in sentTo;
        unvisited := unvisited - {client};
        sentTo := sentTo + [client];
      }
    }
  }

  // ----- Over all runs -----

  ghost predicate PingedAt(es: seq<Event>, i: nat, c: Socket) {
    i < |es| && es[i] == Check && c in Pinged(Run(es[..i]))
  }

  ghost predicate TerminatedAt(es: seq<Event>, i: nat, c: Socket) {
    i < |es| && es[i] == Check && c in Terminated(Run(es[..i]))
  }

  ghost predicate NoPong(es: seq<Event>, c: Socket) {
    forall e | e in es :: e != Pong(c)
  }

  // Some check pinged the client, which has sent no pong since.
  ghost predicate Unanswered(es: seq<Event>, c: Socket) {
    exists j: nat | j < |es| :: PingedAt(es, j, c) && NoPong(es[j..], c)
  }

  lemma {:induction false} AllAreListened(es: seq<Event>)
    ensures Run(es).clients + Run(es).clientsToTerminate <= Run(es).listening
  {
    if es != [] {
      AllAreListened(es[..|es| - 1]);
    }
  }

  lemma NoPongSnoc(es: seq<Event>, e: Event, c: Socket)
    ensures NoPong(es + [e], c) <==> NoPong(es, c) && e != Pong(c)
  {
    assert e in es + [e];
    assert forall x | x in es :: x in es + [e];
  }

  lemma UnansweredSnoc(es: seq<Event>, e: Event, c: Socket)
    ensures Unanswered(es + [e], c) <==>
            e != Pong(c) && (Unanswered(es, c) || (e == Check && c in Pinged(Run(es))))
  {
    var all := es + [e];
    assert all[..|es|] == es;
    forall j: nat | j < |es|
      ensures PingedAt(all, j, c) == PingedAt(es, j, c)
      ensures NoPong(all[j..], c) <==> NoPong(es[j..], c) && e != Pong(c)
    {
      assert all[..j] == es[..j];
      assert all[j..] == es[j..] + [e];
      NoPongSnoc(es[j..], e, c);
    }
    assert PingedAt(all, |es|, c) <==> e == Check && c in Pinged(Run(es));
    assert all[|es|..] == [e];
    if e != Pong(c) && Unanswered(es, c) {
      var j: nat :| j < |es| && PingedAt(es, j, c) && NoPong(es[j..], c);
      assert PingedAt(all, j, c) && NoPong(all[j..], c);
    }
  }

  // The clients awaited are exactly those with an unanswered ping, whatever else they did.
  lemma {:induction false} AwaitedIffUnanswered(es: seq<Event>, c: Socket)
    ensures c in Run(es).clientsToTerminate <==> Unanswered(es, c)
  {
    if es != [] {
      var init, e := es[..|es| - 1], es[|es| - 1];
      assert es == init + [e];
      AwaitedIffUnanswered(init, c);
      UnansweredSnoc(init, e, c);
      AllAreListened(init);
    }
  }

  // A check terminates exactly the clients that an earlier check pinged and that have sent no
  // pong since.
  lemma TerminatedIff(es: seq<Event>, i: nat, c: Socket)
    requires i < |es| && es[i] == Check
    ensures TerminatedAt(es, i, c) <==> c in Run(es[..i]).clients && Unanswered(es[..i], c)
  {
    AwaitedIffUnanswered(es[..i], c);
  }

  // The client answers every ping before the next check.
  ghost predicate AnswersInTime(es: seq<Event>, c: Socket) {
    forall i: nat, k: nat | i < k < |es| && PingedAt(es, i, c) && es[k] == Check :: Pong(c) in es[i..k]
  }

  lemma AnsweringClientIsNeverTerminated(es: seq<Event>, c: Socket, k: nat)
    requires AnswersInTime(es, c)
    ensures !TerminatedAt(es, k, c)
  {
    if k < |es| && es[k] == Check {
      TerminatedIff(es, k, c);
      forall j: nat | j < k && PingedAt(es[..k], j, c) ensures !NoPong(es[..k][j..], c) {
        assert es[..k][..j] == es[..j];
        assert es[..k][j..] == es[j..k];
        assert PingedAt(es, j, c);
      }
    }
  }

  // A client that has disconnected gets no broadcast until it is added again, and one that was added
  // gets every one until it disconnects or a check terminates it.
  lemma {:induction false} ConnectedIff(es: seq<Event>, c: Socket)
    ensures c in Run(es).clients <==> exists i: nat | i < |es| :: es[i] == Authenticated(c) && StaysFrom(es, i + 1, c)
  {
    if es != [] {
      var n := |es| - 1;
      var init := es[..n];
      ConnectedIff(init, c);
      forall i: nat | i < n
        ensures es[i] == init[i]
        ensures StaysFrom(es, i + 1, c) <==>
                  StaysFrom(init, i + 1, c) && es[n] != Disconnected(c) && !TerminatedAt(es, n, c)
      {
        StaysSnoc(es, i + 1, c);
      }
      assert StaysFrom(es, n + 1, c);
      if c in Run(init).clients && es[n] != Disconnected(c) && !TerminatedAt(es, n, c) {
        var i: nat :| i < n && init[i] == Authenticated(c) && StaysFrom(init, i + 1, c);
        assert es[i] == Authenticated(c) && StaysFrom(es, i + 1, c);
      }
    }
  }

  // From position p on, the client neither disconnects nor is terminated.
  ghost predicate StaysFrom(es: seq<Event>, p: nat, c: Socket) {
    forall k: nat | p <= k < |es| :: es[k] != Disconnected(c) && !TerminatedAt(es, k, c)
  }

  lemma StaysSnoc(es: seq<Event>, p: nat, c: Socket)
    requires es != [] && p < |es|
    ensures var n := |es| - 1;
            StaysFrom(es, p, c) <==> StaysFrom(es[..n], p, c) && es[n] != Disconnected(c) && !TerminatedAt(es, n, c)
  {
    var init := es[..|es| - 1];
    forall k: nat | k < |init|
      ensures es[k] == init[k] && TerminatedAt(es, k, c) == TerminatedAt(init, k, c)
    {
      assert es[..k] == init[..k];
    }
  }

  // From position p on, the client neither answers nor is added.
  ghost predicate SilentFrom(es: seq<Event>, p: nat, c: Socket) {
    forall k | p <= k < |es| :: es[k] != Pong(c) && es[k] != Authenticated(c)
  }

  lemma {:induction false} AbsenceLasts(es: seq<Event>, p: nat, n: nat, c: Socket)
    requires p <= n <= |es| && SilentFrom(es, p, c)
    requires c !in Run(es[..p]).clients
    ensures c !in Run(es[..n]).clients
    decreases n
  {
    if p < n {
      AbsenceLasts(es, p, n - 1, c);
      assert es[..n][..n - 1] == es[..n - 1];
    }
  }

  lemma {:induction false} WaitingLasts(es: seq<Event>, p: nat, n: nat, c: Socket)
    requires p <= n <= |es| && SilentFrom(es, p, c)
    requires c in Run(es[..p]).clients ==> c in Run(es[..p]).clientsToTerminate
    ensures c in Run(es[..n]).clients ==> c in Run(es[..n]).clientsToTerminate
    decreases n
  {
    if p < n {
      WaitingLasts(es, p, n - 1, c);
      assert es[..n][..n - 1] == es[..n - 1];
    }
  }

  // A client that is silent from some point on, whether or not it disconnected or was added again
  // before that point, gets no broadcast after the second check from there.
  lemma SilentClientIsDropped(es: seq<Event>, p: nat, first: nat, second: nat, c: Socket)
    requires SilentFrom(es, p, c)
    requires p <= first < second < |es| && es[first] == Check && es[second] == Check
    ensures forall n | second < n <= |es| :: c !in Run(es[..n]).clients
  {
    assert es[..first + 1][..first] == es[..first];
    WaitingLasts(es, first + 1, second, c);
    assert es[..second + 1][..second] == es[..second];
    forall n | second < n <= |es| ensures c !in Run(es[..n]).clients {
      AbsenceLasts(es, second + 1, n, c);
    }
  }

  // One check is not enough, and a socket added after its disconnect does stay for a while.
  lemma OneCheckIsNotEnough(c: Socket)
    ensures var es := [Disconnected(c), Authenticated(c), Check];
            SilentFrom(es, 2, c) && c in Run(es).clients
  {
    var es := [Disconnected(c), Authenticated(c), Check];
    assert es[..2] == [Disconnected(c), Authenticated(c)];
    assert es[..2][..1] == [Disconnected(c)];
    assert es[..2][..1][..0] == [];
    assert Run(es[..2][..1]) == INITIAL;
    assert c in Run(es[..2]).clients && c !in Run(es[..2]).clientsToTerminate;
  }
}
