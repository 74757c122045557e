/** Staleness notifications with their backoff schedule. */
module Notifications {
  import opened Common
  import opened Monitoring

  datatype Attempt = Attempt(attempts: nat, lastNotification: int)

  type Journal = map<ProviderId, Attempt>

  datatype Message = Warning(id: ProviderId, at: int) | ActiveAgain(id: ProviderId)

  // Seconds to wait after the first, second, third and fourth warning.
  const BACKOFF: seq<int> := [299, 599, 1799, 3599]

  predicate Muted(journal: Journal, id: ProviderId, now: int) {
    id in journal &&
    (journal[id].attempts >= |BACKOFF| || now - journal[id].lastNotification < 1000 * BACKOFF[journal[id].attempts])
  }

  datatype Notified = Notified(journal: Journal, messages: seq<Message>)

  function NotifyOne(st: Notified, provider: Provider, latest: map<ProviderId, int>, now: int): Notified {
    var id := provider.id;
    if ProblematicRounded(provider, Latest(latest, id), now) then
      if Muted(st.journal, id, now) then st
      else
        Notified(st.journal[id := Attempt(if id in st.journal then st.journal[id].attempts + 1 else 0, now)],
                 st.messages + [Warning(id, now)])
    else if id in st.journal then Notified(st.journal - {id}, st.messages + [ActiveAgain(id)])
    else st
  }

  function NotifyAll(st: Notified, providers: seq<Provider>, latest: map<ProviderId, int>, now: int): Notified {
    if providers == [] then st
    else NotifyOne(NotifyAll(st, providers[..|providers| - 1], latest, now), providers[|providers| - 1], latest, now)
  }

  class Notifier {
    var notificationsJournal: Journal
    var sent: seq<Message>

    constructor ()
      ensures notificationsJournal == map[] && sent == []
    {
      notificationsJournal, sent := map[], [];
    }

    method SendNotifications(providers: seq<Provider>, latest: map<ProviderId, int>, enabled: bool, now: int)
      modifies this
      ensures Notified(notificationsJournal, sent) ==
              if enabled then NotifyAll(Notified(old(notificationsJournal), old(sent)), providers, latest, now)
              else Notified(old(notificationsJournal), old(sent))
    {
      if !enabled {
        return;
      }
      for i := 0 to |providers|
        invariant Notified(notificationsJournal, sent) ==
                  NotifyAll(Notified(old(notificationsJournal), old(sent)), providers[..i], latest, now)
      {
        assert providers[..i + 1][..i] == providers[..i];
        var id := providers[i].id;
        var diff := if id in latest then Some(RoundSeconds(now - latest[id])) else None;
        if diff.None? || diff.value > providers[i].threshold {
          var attempts := 0;
          var skip := false;
          if id in notificationsJournal {
            var previous := notificationsJournal[id];
            skip := previous.attempts >= |BACKOFF| ||
                now - previous.lastNotification < 1000 * BACKOFF[previous.attempts];
            attempts := previous.attempts + 1;
          }
          if !skip {
            sent := sent + [Warning(id, now)];
            notificationsJournal := notificationsJournal[id := Attempt(attempts, now)];
          }
        } else if id in notificationsJournal {
          sent := sent + [ActiveAgain(id)];
          notificationsJournal := notificationsJournal - {id};
        }
      }
      assert providers[..|providers|] == providers;
    }
  }

  // ----- Runs -----

  datatype Check = Check(providers: seq<Provider>, latest: map<ProviderId, int>, enabled: bool, now: int)

  function Run(checks: seq<Check>): Notified {
    if checks == [] then Notified(map[], [])
    else
      var c := checks[|checks| - 1];
      var st := Run(checks[..|checks| - 1]);
      if c.enabled then NotifyAll(st, c.providers, c.latest, c.now) else st
  }

  // ----- The shape of one provider's messages -----

  function Of(messages: seq<Message>, id: ProviderId): seq<Message> {
    if messages == [] then []
    else Of(messages[..|messages| - 1], id) + if messages[|messages| - 1].id == id then [messages[|messages| - 1]]
        else []
  }

  // At most five warnings, the k-th followed by the next no sooner than the schedule allows.
  predicate OnSchedule(warnings: seq<int>) {
    |warnings| <= |BACKOFF| + 1 && forall k | 0 <= k < |warnings| - 1 ::
        warnings[k + 1] - warnings[k] >= 1000 * BACKOFF[k]
  }

  function Warnings(id: ProviderId, times: seq<int>): seq<Message> {
    seq(|times|, i requires 0 <= i < |times| => Warning(id, times[i]))
  }

  // Closed episodes, each ended by a recovery, then the warnings of an episode still open.
  function Render(id: ProviderId, episodes: seq<seq<int>>, open: seq<int>): seq<Message>
    decreases |episodes|
  {
    if episodes == [] then Warnings(id, open)
    else Warnings(id, episodes[0]) + [ActiveAgain(id)] + Render(id, episodes[1..], open)
  }

  predicate Episodic(messages: seq<Message>, id: ProviderId, episodes: seq<seq<int>>, open: seq<int>) {
    && messages == Render(id, episodes, open)
    && (forall e | e in episodes :: e != [] && OnSchedule(e))
    && OnSchedule(open)
  }

  // The journal remembers exactly the open episode.
  predicate Remembers(journal: Journal, id: ProviderId, open: seq<int>) {
    if open == [] then id !in journal
    else id in journal && journal[id] == Attempt(|open| - 1, open[|open| - 1])
  }

  lemma {:induction false} RenderWarn(id: ProviderId, episodes: seq<seq<int>>, open: seq<int>, at: int)
    ensures Render(id, episodes, open + [at]) == Render(id, episodes, open) + [Warning(id, at)]
    decreases |episodes|
  {
    if episodes == [] {
      assert Warnings(id, open + [at]) == Warnings(id, open) + [Warning(id, at)];
    } else {
      RenderWarn(id, episodes[1..], open, at);
    }
  }

  lemma {:induction false} RenderRecover(id: ProviderId, episodes: seq<seq<int>>, open: seq<int>)
    ensures Render(id, episodes + [open], []) == Render(id, episodes, open) + [ActiveAgain(id)]
    decreases |episodes|
  {
    if episodes == [] {
      assert (episodes + [open])[1..] == [];
      assert Warnings(id, []) == [];
    } else {
      assert (episodes + [open])[1..] == episodes[1..] + [open];
      RenderRecover(id, episodes[1..], open);
    }
  }

  lemma OfAppend(messages: seq<Message>, m: Message, id: ProviderId)
    ensures Of(messages + [m], id) == Of(messages, id) + if m.id == id then [m] else []
  {
    assert (messages + [m])[..|messages|] == messages;
  }

  lemma WarnKeeps(st: Notified, id: ProviderId, now: int, episodes: seq<seq<int>>, open: seq<int>)
    requires Episodic(Of(st.messages, id), id, episodes, open) && Remembers(st.journal, id, open)
    requires !Muted(st.journal, id, now)
    ensures Episodic(Of(st.messages + [Warning(id, now)], id), id, episodes, open + [now])
    ensures Remembers(st.journal[id := Attempt(if id in st.journal then st.journal[id].attempts + 1 else 0, now)],
        id, open + [now])
  {
    OfAppend(st.messages, Warning(id, now), id);
    RenderWarn(id, episodes, open, now);
  }

  lemma RecoverKeeps(st: Notified, id: ProviderId, episodes: seq<seq<int>>, open: seq<int>)
    requires Episodic(Of(st.messages, id), id, episodes, open) && Remembers(st.journal, id, open)
    requires id in st.journal
    ensures Episodic(Of(st.messages + [ActiveAgain(id)], id), id, episodes + [open], [])
  {
    OfAppend(st.messages, ActiveAgain(id), id);
    RenderRecover(id, episodes, open);
  }

  // One provider's turn extends its own message sequence in one of the allowed ways, and leaves
  // every other provider's alone.
  lemma NotifyOneKeeps(st: Notified, provider: Provider, latest: map<ProviderId, int>, now: int, id: ProviderId,
                       episodes: seq<seq<int>>, open: seq<int>) returns (episodes': seq<seq<int>>, open': seq<int>)
    requires Episodic(Of(st.messages, id), id, episodes, open) && Remembers(st.journal, id, open)
    ensures var next := NotifyOne(st, provider, latest, now);
            Episodic(Of(next.messages, id), id, episodes', open') && Remembers(next.journal, id, open')
  {
    episodes', open' := episodes, open;
    var problematic := ProblematicRounded(provider, Latest(latest, provider.id), now);
    if provider.id != id {
      OfAppend(st.messages, Warning(provider.id, now), id);
      OfAppend(st.messages, ActiveAgain(provider.id), id);
    } else if problematic && !Muted(st.journal, id, now) {
      WarnKeeps(st, id, now, episodes, open);
      open' := open + [now];
    } else if !problematic && id in st.journal {
      RecoverKeeps(st, id, episodes, open);
      episodes', open' := episodes + [open], [];
    }
  }

  lemma {:induction false} NotifyAllKeeps(st: Notified, providers: seq<Provider>, latest: map<ProviderId, int>,
      now: int, id: ProviderId,
                       episodes: seq<seq<int>>, open: seq<int>) returns (episodes': seq<seq<int>>, open': seq<int>)
    requires Episodic(Of(st.messages, id), id, episodes, open) && Remembers(st.journal, id, open)
    ensures var next := NotifyAll(st, providers, latest, now);
            Episodic(Of(next.messages, id), id, episodes', open') && Remembers(next.journal, id, open')
    decreases |providers|
  {
    episodes', open' := episodes, open;
    if providers != [] {
      var init := providers[..|providers| - 1];
      episodes', open' := NotifyAllKeeps(st, init, latest, now, id, episodes, open);
      episodes', open' := NotifyOneKeeps(NotifyAll(st, init, latest, now), providers[|providers| - 1], latest, now,
          id, episodes', open');
    }
  }

  lemma {:induction false} RunKeeps(checks: seq<Check>, id: ProviderId)
      returns (episodes: seq<seq<int>>, open: seq<int>)
    ensures Episodic(Of(Run(checks).messages, id), id, episodes, open) && Remembers(Run(checks).journal, id, open)
  {
    if checks == [] {
      episodes, open := [], [];
      assert Warnings(id, []) == [];
    } else {
      var c := checks[|checks| - 1];
      episodes, open := RunKeeps(checks[..|checks| - 1], id);
      if c.enabled {
        episodes, open := NotifyAllKeeps(Run(checks[..|checks| - 1]), c.providers, c.latest, c.now, id, episodes, open);
      }
    }
  }

  // Over every run, with the setting toggled at will: a provider's messages are closed episodes of
  // one to five warnings and a recovery, then at most five warnings, all on the backoff schedule.
  lemma MessagesAreEpisodic(checks: seq<Check>, id: ProviderId)
    ensures exists episodes, open :: Episodic(Of(Run(checks).messages, id), id, episodes, open)
  {
    var episodes, open := RunKeeps(checks, id);
  }

  // The last of five warnings on schedule comes at least 6296 seconds after the first.
  lemma FiveWarningsTakeTime(warnings: seq<int>)
    requires OnSchedule(warnings) && |warnings| == 5
    ensures warnings[4] - warnings[0] >= 6296 * 1000
  {
    assert warnings[1] - warnings[0] >= 1000 * BACKOFF[0];
    assert warnings[2] - warnings[1] >= 1000 * BACKOFF[1];
    assert warnings[3] - warnings[2] >= 1000 * BACKOFF[2];
    assert warnings[4] - warnings[3] >= 1000 * BACKOFF[3];
  }

  // The messages from position k on begin with n warnings.
  predicate WarningsFrom(messages: seq<Message>, k: nat, n: nat) {
    k + n <= |messages| && forall i | k <= i < k + n :: messages[i].Warning?
  }

  // Warnings in a row belong to one episode.
  lemma {:induction false} RowOfWarnings(id: ProviderId, episodes: seq<seq<int>>, open: seq<int>, k: nat, n: nat)
    requires (forall e | e in episodes :: OnSchedule(e)) && OnSchedule(open)
    requires WarningsFrom(Render(id, episodes, open), k, n) && n >= |BACKOFF| + 1
    ensures n == |BACKOFF| + 1
    ensures var r := Render(id, episodes, open); r[k + 4].at - r[k].at >= 6296 * 1000
    decreases |episodes|
  {
    var r := Render(id, episodes, open);
    if episodes == [] {
      FiveWarningsTakeTime(open);
    } else {
      var m := |episodes[0]|;
      assert r[m] == ActiveAgain(id);
      if k <= m {
        assert !(k <= m < k + n);
        FiveWarningsTakeTime(episodes[0]);
        assert r[k] == Warnings(id, episodes[0])[k] && r[k + 4] == Warnings(id, episodes[0])[k + 4];
      } else {
        var rest := Render(id, episodes[1..], open);
        forall i | k - m - 1 <= i < k - m - 1 + n ensures rest[i].Warning? {
          assert rest[i] == r[i + m + 1];
        }
        assert rest[k - m - 1] == r[k] && rest[k - m + 3] == r[k + 4];
        RowOfWarnings(id, episodes[1..], open, k - m - 1, n);
      }
    }
  }

  // Over every run: no provider gets six warnings in a row, and of five in a row the last comes at
  // least 6296 seconds after the first.
  lemma FiveInARowTakeTime(checks: seq<Check>, id: ProviderId, k: nat, n: nat)
    requires WarningsFrom(Of(Run(checks).messages, id), k, n) && n >= 5
    ensures n == 5
    ensures var mine := Of(Run(checks).messages, id); mine[k + 4].at - mine[k].at >= 6296 * 1000
  {
    var episodes, open := RunKeeps(checks, id);
    RowOfWarnings(id, episodes, open, k, n);
  }

  // ----- When a message is due -----

  // The times of the warnings since the last recovery.
  function Outstanding(messages: seq<Message>): seq<int> {
    if messages == [] || messages[|messages| - 1].ActiveAgain? then []
    else Outstanding(messages[..|messages| - 1]) + [messages[|messages| - 1].at]
  }

  lemma {:induction false} OutstandingWarnings(messages: seq<Message>, id: ProviderId, times: seq<int>)
    requires Outstanding(messages) == []
    ensures Outstanding(messages + Warnings(id, times)) == times
    decreases |times|
  {
    var all := messages + Warnings(id, times);
    if times == [] {
      assert all == messages;
    } else {
      var init := times[..|times| - 1];
      assert all[..|all| - 1] == messages + Warnings(id, init);
      OutstandingWarnings(messages, id, init);
    }
  }

  lemma {:induction false} OutstandingOfRender(prefix: seq<Message>, id: ProviderId, episodes: seq<seq<int>>,
      open: seq<int>)
    requires Outstanding(prefix) == []
    ensures Outstanding(prefix + Render(id, episodes, open)) == open
    decreases |episodes|
  {
    if episodes == [] {
      OutstandingWarnings(prefix, id, open);
    } else {
      var closed := prefix + (Warnings(id, episodes[0]) + [ActiveAgain(id)]);
      assert closed[|closed| - 1] == ActiveAgain(id);
      OutstandingOfRender(closed, id, episodes[1..], open);
      RenderAfter(prefix, id, episodes, open);
    }
  }

  lemma RenderAfter(prefix: seq<Message>, id: ProviderId, episodes: seq<seq<int>>, open: seq<int>)
    requires episodes != []
    ensures prefix + Render(id, episodes, open) ==
            (prefix + (Warnings(id, episodes[0]) + [ActiveAgain(id)])) + Render(id, episodes[1..], open)
  {
  }

  // The schedule allows another warning after those outstanding.
  predicate MayWarn(warned: seq<int>, now: int) {
    warned == [] || (|warned| <= |BACKOFF| && now - warned[|warned| - 1] >= 1000 * BACKOFF[|warned| - 1])
  }

  // What a provider is due: a warning if it is problematic and the schedule allows one, a recovery
  // if it is healthy and warnings are outstanding.
  function Due(warned: seq<int>, provider: Provider, latest: map<ProviderId, int>, now: int): seq<Message> {
    if ProblematicRounded(provider, Latest(latest, provider.id), now) then
      if MayWarn(warned, now) then [Warning(provider.id, now)] else []
    else if warned != [] then [ActiveAgain(provider.id)]
    else []
  }

  // What a round knows of one provider.
  predicate SameFor(st: Notified, next: Notified, id: ProviderId) {
    && Of(next.messages, id) == Of(st.messages, id)
    && (id in st.journal <==> id in next.journal)
    && (id in st.journal ==> next.journal[id] == st.journal[id])
  }

  lemma OtherTurn(st: Notified, provider: Provider, latest: map<ProviderId, int>, now: int, id: ProviderId)
    requires provider.id != id
    ensures SameFor(st, NotifyOne(st, provider, latest, now), id)
  {
    OfAppend(st.messages, Warning(provider.id, now), id);
    OfAppend(st.messages, ActiveAgain(provider.id), id);
  }

  lemma OwnTurn(st: Notified, provider: Provider, latest: map<ProviderId, int>, now: int, warned: seq<int>)
    requires Remembers(st.journal, provider.id, warned)
    ensures Of(NotifyOne(st, provider, latest, now).messages, provider.id) ==
            Of(st.messages, provider.id) + Due(warned, provider, latest, now)
  {
    var id, next := provider.id, NotifyOne(st, provider, latest, now);
    MutedIff(st.journal, id, now, warned);
    assert Of(st.messages, id) + [] == Of(st.messages, id);
    if ProblematicRounded(provider, Latest(latest, id), now) {
      if !Muted(st.journal, id, now) {
        assert next.messages == st.messages + [Warning(id, now)];
        OfAppend(st.messages, Warning(id, now), id);
      }
    } else if id in st.journal {
      assert next.messages == st.messages + [ActiveAgain(id)];
      OfAppend(st.messages, ActiveAgain(id), id);
    }
  }

  lemma MutedIff(journal: Journal, id: ProviderId, now: int, warned: seq<int>)
    requires Remembers(journal, id, warned)
    ensures Muted(journal, id, now) <==> !MayWarn(warned, now)
  {
  }

  lemma {:induction false} OtherTurns(st: Notified, providers: seq<Provider>, latest: map<ProviderId, int>, now: int,
                                      id: ProviderId)
    requires forall p | p in providers :: p.id != id
    ensures SameFor(st, NotifyAll(st, providers, latest, now), id)
    decreases |providers|
  {
    if providers != [] {
      var init := providers[..|providers| - 1];
      OtherTurns(st, init, latest, now, id);
      OtherTurn(NotifyAll(st, init, latest, now), providers[|providers| - 1], latest, now, id);
    }
  }

  lemma {:induction false} RoundMessages(st: Notified, providers: seq<Provider>, latest: map<ProviderId, int>, now: int,
                                         i: nat, warned: seq<int>)
    requires DistinctIds(providers) && i < |providers| && Remembers(st.journal, providers[i].id, warned)
    ensures Of(NotifyAll(st, providers, latest, now).messages, providers[i].id) ==
            Of(st.messages, providers[i].id) + Due(warned, providers[i], latest, now)
    decreases |providers|
  {
    var n := |providers| - 1;
    var init := providers[..n];
    var before := NotifyAll(st, init, latest, now);
    if i == n {
      OtherTurns(st, init, latest, now, providers[i].id);
      OwnTurn(before, providers[n], latest, now, warned);
    } else {
      RoundMessages(st, init, latest, now, i, warned);
      OtherTurn(before, providers[n], latest, now, providers[i].id);
    }
  }

  // What one check of a run sends about a provider, whatever it sends about others: what the
  // provider is due by the warnings outstanding, if the check is enabled and lists it, else nothing.
  lemma CheckMessages(checks: seq<Check>, c: Check, provider: Provider)
    requires DistinctIds(c.providers)
    ensures var before, after := Of(Run(checks).messages, provider.id), Of(Run(checks + [c]).messages, provider.id);
            && (c.enabled && provider in c.providers ==>
                  after == before + Due(Outstanding(before), provider, c.latest, c.now))
            && (!c.enabled || (forall p | p in c.providers :: p.id != provider.id) ==> after == before)
  {
    var id, st := provider.id, Run(checks);
    assert (checks + [c])[..|checks|] == checks;
    if c.enabled && provider in c.providers {
      var i :| 0 <= i < |c.providers| && c.providers[i] == provider;
      var episodes, open := RunKeeps(checks, id);
      OutstandingOfRender([], id, episodes, open);
      assert [] + Of(st.messages, id) == Of(st.messages, id);
      RoundMessages(st, c.providers, c.latest, c.now, i, open);
    } else if c.enabled && forall p | p in c.providers :: p.id != id {
      OtherTurns(st, c.providers, c.latest, c.now, id);
    }
  }

  // An enabled check warns of a listed provider exactly when it is problematic and the warnings
  // outstanding are none, or fewer than five of which the last is old enough for the schedule.
  lemma WarningIff(checks: seq<Check>, c: Check, provider: Provider)
    requires DistinctIds(c.providers) && c.enabled && provider in c.providers
    ensures var before, after := Of(Run(checks).messages, provider.id), Of(Run(checks + [c]).messages, provider.id);
            var warned := Outstanding(before);
            after == before + [Warning(provider.id, c.now)] <==>
              && (provider.id in c.latest ==> c.now - c.latest[provider.id] >= 1000 * provider.threshold + 500)
              && (|| warned == []
                  || (|warned| == 1 && c.now - warned[0] >= 299_000)
                  || (|warned| == 2 && c.now - warned[1] >= 599_000)
                  || (|warned| == 3 && c.now - warned[2] >= 1799_000)
                  || (|warned| == 4 && c.now - warned[3] >= 3599_000))
  {
    var before := Of(Run(checks).messages, provider.id);
    CheckMessages(checks, c, provider);
    SameSuffix(before, Due(Outstanding(before), provider, c.latest, c.now), [Warning(provider.id, c.now)]);
  }

  lemma SameSuffix(before: seq<Message>, a: seq<Message>, b: seq<Message>)
    ensures before + a == before + b <==> a == b
  {
    assert (before + a)[|before|..] == a && (before + b)[|before|..] == b;
  }

  // An enabled check announces a listed provider's recovery exactly when the provider is healthy
  // and its last message was a warning.
  lemma RecoveryIff(checks: seq<Check>, c: Check, provider: Provider)
    requires DistinctIds(c.providers) && c.enabled && provider in c.providers
    ensures var before, after := Of(Run(checks).messages, provider.id), Of(Run(checks + [c]).messages, provider.id);
            after == before + [ActiveAgain(provider.id)] <==>
              && provider.id in c.latest && c.now - c.latest[provider.id] < 1000 * provider.threshold + 500
              && before != [] && before[|before| - 1].Warning?
  {
    var before := Of(Run(checks).messages, provider.id);
    CheckMessages(checks, c, provider);
    SameSuffix(before, Due(Outstanding(before), provider, c.latest, c.now), [ActiveAgain(provider.id)]);
    assert Outstanding(before) != [] <==> before != [] && before[|before| - 1].Warning?;
  }
}
