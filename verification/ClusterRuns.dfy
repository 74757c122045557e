/** Runs of the worker supervisor: what every event keeps, and what holds over all runs. */
module ClusterRuns {
  import opened Cluster

  datatype State = State(basePort: int, clusters: map<ClusterId, Cluster>, nextProc: nat)

  datatype Event =
    | Add(c: ClusterId)
    | RequestLaunch(c: ClusterId)                // runCluster asks for the settings
    | AnswerLaunch(c: ClusterId, answer: Answer) // and forks once they arrive
    | Exit(c: ClusterId, proc: nat, sigkill: bool)
    | Timer(c: ClusterId, id: WorkerId)
    | Resolve(c: ClusterId, id: WorkerId, answer: Answer)
    | SetState(c: ClusterId, id: WorkerId, on: bool)

  predicate Enabled(st: State, e: Event) {
    match e
    case Add(_) => true
    case RequestLaunch(c) => c in st.clusters
    case AnswerLaunch(c, _) => c in st.clusters && st.clusters[c].launches > 0
    case Exit(c, proc, _) => c in st.clusters && IndexOf(st.clusters[c].workers, proc) < |st.clusters[c].workers|
    case Timer(c, id) => c in st.clusters && id in st.clusters[c].timers
    case Resolve(c, id, _) => c in st.clusters && id in st.clusters[c].starts
    case SetState(_, _, _) => true
  }

  // How many processes the event forks.
  function Forks(e: Event): nat {
    match e
    case AnswerLaunch(_, answer) => if answer.Settings? then |answer.ws| else 0
    case Resolve(_, id, answer) => if Found(answer, id).None? then 0 else 1
    case _ => 0
  }

  // What the event does to its own cluster.
  function After(cl: Cluster, basePort: int, proc: nat, e: Event): Cluster {
    match e
    case Add(_) => cl
    case RequestLaunch(_) => LaunchRequested(cl)
    case AnswerLaunch(_, answer) => LaunchAnswered(cl, basePort, proc, answer)
    case Exit(_, gone, sigkill) => Exited(cl, gone, sigkill)
    case Timer(_, id) => TimerFired(cl, id)
    case Resolve(_, id, answer) => Resolved(cl, basePort, proc, id, answer)
    case SetState(_, id, on) => StartRequested(cl, id, on)
  }

  function Step(st: State, e: Event): State {
    if e.c in st.clusters then
      State(st.basePort, st.clusters[e.c := After(st.clusters[e.c], st.basePort, st.nextProc, e)],
          st.nextProc + Forks(e))
    else if e.Add? then st.(clusters := st.clusters[e.c := NEW_CLUSTER])
    else st
  }

  function Run(basePort: int, es: seq<Event>): State {
    if es == [] then State(basePort, map[], 0) else Step(Run(basePort, es[..|es| - 1]), es[|es| - 1])
  }

  predicate Legal(basePort: int, es: seq<Event>) {
    es != [] ==> Legal(basePort, es[..|es| - 1]) && Enabled(Run(basePort, es[..|es| - 1]), es[|es| - 1])
  }

  // ----- Conservation -----

  // Live workers started under the settings id.
  function Live(workers: seq<Entry>, id: WorkerId): nat {
    if workers == [] then 0 else (if workers[0].workerId == id then 1 else 0) + Live(workers[1..], id)
  }

  // Live workers, armed timers and starts under way, for one worker id.
  function Total(cl: Cluster, id: WorkerId): nat {
    Live(cl.workers, id) + cl.timers[id] + cl.starts[id]
  }

  function SettingsIds(ws: seq<WorkerSettings>): seq<WorkerId> {
    seq(|ws|, i requires 0 <= i < |ws| => ws[i].workerId)
  }

  // ----- What a run started and ended -----

  // Workers forked by launches of the whole cluster.
  function Launched(basePort: int, es: seq<Event>, c: ClusterId, id: WorkerId): nat {
    if es == [] then 0
    else
      var init, e := es[..|es| - 1], es[|es| - 1];
      Launched(basePort, init, c, id) + if e.AnswerLaunch? && e.c == c then Configured(e.answer, id) else 0
  }

  // How many settings the answer has for the id.
  function Configured(answer: Answer, id: WorkerId): nat {
    if answer.Settings? then multiset(SettingsIds(answer.ws))[id] else 0
  }

  // Explicit starts: requests to run a worker that was not found.
  function Started(basePort: int, es: seq<Event>, c: ClusterId, id: WorkerId): nat {
    if es == [] then 0
    else
      var init, e := es[..|es| - 1], es[|es| - 1];
      var st := Run(basePort, init);
      Started(basePort, init, c, id) +
      if Starts(e, c, id) && c in st.clusters && FindWorker(st.clusters[c].workers, id).None? then 1 else 0
  }

  predicate Starts(e: Event, c: ClusterId, id: WorkerId) {
    e.SetState? && e.c == c && e.id == id && e.on
  }

  // Exits by SIGKILL of workers started under the id.
  function Killed(basePort: int, es: seq<Event>, c: ClusterId, id: WorkerId): nat {
    if es == [] then 0
    else
      var init, e := es[..|es| - 1], es[|es| - 1];
      var st := Run(basePort, init);
      Killed(basePort, init, c, id) + if e.Exit? && e.c == c && c in st.clusters &&
          Kills(st.clusters[c], e, id) then 1 else 0
  }

  predicate Kills(cl: Cluster, e: Event, id: WorkerId) {
    e.Exit? && e.sigkill &&
    var i := IndexOf(cl.workers, e.proc);
    i < |cl.workers| && cl.workers[i].workerId == id
  }

  // Starts whose settings requests failed, or had no settings for their worker.
  function Failed(basePort: int, es: seq<Event>, c: ClusterId, id: WorkerId): nat {
    if es == [] then 0
    else
      var init, e := es[..|es| - 1], es[|es| - 1];
      Failed(basePort, init, c, id) + if e.Resolve? && e.c == c && Fails(e, id) then 1 else 0
  }

  predicate Fails(e: Event, id: WorkerId) {
    e.Resolve? && e.id == id && Found(e.answer, id).None?
  }

  lemma {:induction false} LiveAppend(a: seq<Entry>, b: seq<Entry>, id: WorkerId)
    ensures Live(a + b, id) == Live(a, id) + Live(b, id)
  {
    if a == [] {
      assert a + b == b;
    } else {
      assert (a + b)[1..] == a[1..] + b;
      LiveAppend(a[1..], b, id);
    }
  }

  lemma LiveRemove(workers: seq<Entry>, i: nat, id: WorkerId)
    requires i < |workers|
    ensures Live(workers, id) == Live(workers[..i] + workers[i + 1..], id) + if workers[i].workerId == id then 1 else 0
  {
    assert workers == workers[..i] + ([workers[i]] + workers[i + 1..]);
    LiveAppend(workers[..i], [workers[i]] + workers[i + 1..], id);
    LiveAppend(workers[..i], workers[i + 1..], id);
  }

  lemma {:induction false} LiveForked(basePort: int, proc: nat, cs: ClusterSettings, ws: seq<WorkerSettings>,
      id: WorkerId)
    ensures Live(Forked(basePort, proc, cs, ws), id) == multiset(SettingsIds(ws))[id]
    decreases |ws|
  {
    if ws != [] {
      LiveForked(basePort, proc + 1, cs, ws[1..], id);
      ForkedTail(basePort, proc, cs, ws);
      SettingsIdsTail(ws, id);
    }
  }

  lemma SettingsIdsTail(ws: seq<WorkerSettings>, id: WorkerId)
    requires ws != []
    ensures multiset(SettingsIds(ws))[id] == multiset(SettingsIds(ws[1..]))[id] + if ws[0].workerId == id then 1 else 0
  {
    assert SettingsIds(ws) == [ws[0].workerId] + SettingsIds(ws[1..]);
  }

  lemma ForkedTail(basePort: int, proc: nat, cs: ClusterSettings, ws: seq<WorkerSettings>)
    requires ws != []
    ensures Forked(basePort, proc, cs, ws)[0] == NewEntry(basePort, proc, cs, ws[0])
    ensures Forked(basePort, proc, cs, ws)[1..] == Forked(basePort, proc + 1, cs, ws[1..])
  {
  }

  lemma {:induction false} FindSettingsFinds(ws: seq<WorkerSettings>, id: WorkerId)
    ensures var found := FindSettings(ws, id);
            && (found.Some? ==> found.value in ws && found.value.workerId == id)
            && (found.None? ==> forall s | s in ws :: s.workerId != id)
  {
    if ws != [] && ws[0].workerId != id {
      FindSettingsFinds(ws[1..], id);
    }
  }

  // Of several settings with the id, the first is found.
  lemma {:induction false} FindSettingsFirst(ws: seq<WorkerSettings>, id: WorkerId)
    requires FindSettings(ws, id).Some?
    ensures exists i | 0 <= i < |ws| ::
              && ws[i] == FindSettings(ws, id).value && ws[i].workerId == id
              && forall j | 0 <= j < i :: ws[j].workerId != id
  {
    if ws[0].workerId != id {
      FindSettingsFirst(ws[1..], id);
      var i :| 0 <= i < |ws[1..]| && ws[1..][i] == FindSettings(ws, id).value && ws[1..][i].workerId == id
          && forall j | 0 <= j < i :: ws[1..][j].workerId != id;
      forall j | 0 <= j < i + 1 ensures ws[j].workerId != id {
        assert j > 0 ==> ws[j] == ws[1..][j - 1];
      }
      assert ws[i + 1] == ws[1..][i];
    }
  }

  // A worker is looked up by its WORKER variable; of several, the one forked first is found.
  lemma {:induction false} FindWorkerFirst(workers: seq<Entry>, id: WorkerId)
    ensures match FindWorker(workers, id)
            case None => forall j | 0 <= j < |workers| :: !Named(workers[j], id)
            case Some(e) => exists i | 0 <= i < |workers| ::
              && workers[i] == e && Named(e, id) && forall j | 0 <= j < i :: !Named(workers[j], id)
  {
    if workers != [] && !Named(workers[0], id) {
      var rest := workers[1..];
      FindWorkerFirst(rest, id);
      forall j | 0 < j < |workers| ensures workers[j] == rest[j - 1] {}
      if FindWorker(workers, id).Some? {
        var i :| 0 <= i < |rest| && rest[i] == FindWorker(rest, id).value &&
            forall j | 0 <= j < i :: !Named(rest[j], id);
        assert workers[i + 1] == rest[i];
      }
    }
  }

  predicate Named(e: Entry, id: WorkerId) {
    "WORKER" in e.vars && e.vars["WORKER"] == Text(id)
  }

  lemma LaunchTotal(cl: Cluster, basePort: int, proc: nat, cs: ClusterSettings, ws: seq<WorkerSettings>, id: WorkerId)
    ensures Total(Launch(cl, basePort, proc, cs, ws), id) == Total(cl, id) + multiset(SettingsIds(ws))[id]
  {
    LiveAppend(cl.workers, Forked(basePort, proc, cs, ws), id);
    LiveForked(basePort, proc, cs, ws, id);
  }

  lemma AnsweredTotal(cl: Cluster, basePort: int, proc: nat, answer: Answer, id: WorkerId)
    requires cl.launches > 0
    ensures Total(LaunchAnswered(cl, basePort, proc, answer), id) == Total(cl, id) + Configured(answer, id)
  {
    if answer.Settings? {
      LaunchTotal(cl.(launches := cl.launches - 1), basePort, proc, answer.cs, answer.ws, id);
    }
  }

  lemma ResolvedTotal(cl: Cluster, basePort: int, proc: nat, started: WorkerId, answer: Answer, id: WorkerId)
    requires started in cl.starts
    ensures var next := Resolved(cl, basePort, proc, started, answer);
            Total(next, id) == Total(cl, id) - if id == started && Found(answer, started).None? then 1 else 0
  {
    if Found(answer, started).Some? {
      FindSettingsFinds(answer.ws, started);
      LiveAppend(cl.workers, [NewEntry(basePort, proc, answer.cs, Found(answer, started).value)], id);
    }
  }

  lemma ExitedTotal(cl: Cluster, proc: nat, sigkill: bool, id: WorkerId)
    requires IndexOf(cl.workers, proc) < |cl.workers|
    ensures var gone := cl.workers[IndexOf(cl.workers, proc)];
            Total(Exited(cl, proc, sigkill), id) == Total(cl, id) - if sigkill && gone.workerId == id then 1 else 0
  {
    LiveRemove(cl.workers, IndexOf(cl.workers, proc), id);
  }

  // An event touches its own cluster only, and only `Add` creates one, empty and once.
  lemma OnlyAddAdds(st: State, e: Event)
    requires Enabled(st, e)
    ensures Step(st, e).clusters.Keys == st.clusters.Keys + if e.Add? then {e.c} else {}
    ensures forall c | c in st.clusters && (c != e.c || e.Add?) :: Step(st, e).clusters[c] == st.clusters[c]
    ensures e.Add? && e.c !in st.clusters ==> Step(st, e).clusters[e.c] == NEW_CLUSTER
  {
  }

  // Settings that arrive, or fail to, end one launch; its workers come after those that run already.
  lemma LaunchEnds(cl: Cluster, basePort: int, proc: nat, answer: Answer, i: nat)
    requires cl.launches > 0
    ensures var next := LaunchAnswered(cl, basePort, proc, answer);
            && next.launches == cl.launches - 1 && next.starts == cl.starts && next.timers == cl.timers
            && (answer.Rejected? ==> next.workers == cl.workers)
            && (answer.Settings? ==>
                  && |next.workers| == |cl.workers| + |answer.ws| && next.workers[..|cl.workers|] == cl.workers
                  && (i < |answer.ws| ==>
                        next.workers[|cl.workers| + i] == NewEntry(basePort, proc + i, answer.cs, answer.ws[i])))
  {
  }

  // Where a worker goes that exits: nowhere after SIGKILL, else to the starts or to the timers, by the
  // delay it was forked with. Nothing else moves.
  lemma ExitMoves(cl: Cluster, proc: nat, sigkill: bool)
    requires IndexOf(cl.workers, proc) < |cl.workers|
    ensures var next, i := Exited(cl, proc, sigkill), IndexOf(cl.workers, proc);
            var gone := cl.workers[i];
            && gone.proc == proc
            && next.workers == cl.workers[..i] + cl.workers[i + 1..] && next.launches == cl.launches
            && next.starts == cl.starts +
                (if !sigkill && gone.restartDelay.None? then multiset{gone.workerId} else multiset{})
            && next.timers == cl.timers +
                (if !sigkill && gone.restartDelay.Some? then multiset{gone.workerId} else multiset{})
  {
    assert cl.starts + multiset{} == cl.starts && cl.timers + multiset{} == cl.timers;
  }

  // What the event enters under `id`: the workers of a launch, or an explicit start.
  function Entering(cl: Cluster, e: Event, id: WorkerId): nat {
    match e
    case AnswerLaunch(_, answer) => Configured(answer, id)
    case SetState(_, started, on) => if on && started == id && FindWorker(cl.workers, id).None? then 1 else 0
    case _ => 0
  }

  // Every event but these moves a worker between live, delayed and starting.
  lemma StepTotal(st: State, e: Event, id: WorkerId)
    requires Enabled(st, e) && e.c in st.clusters
    ensures var cl := st.clusters[e.c];
            Total(After(cl, st.basePort, st.nextProc, e), id) ==
            Total(cl, id) + Entering(cl, e, id) - if Kills(cl, e, id) || Fails(e, id) then 1 else 0
  {
    var cl := st.clusters[e.c];
    match e
    case AnswerLaunch(_, answer) => AnsweredTotal(cl, st.basePort, st.nextProc, answer, id);
    case Exit(_, proc, sigkill) => ExitedTotal(cl, proc, sigkill, id);
    case Resolve(_, started, answer) => ResolvedTotal(cl, st.basePort, st.nextProc, started, answer, id);
    case _ =>
  }

  // For every worker id and every run: live processes, pending timers and starts under way are
  // the launches and explicit starts, less the SIGKILL exits and the failed starts.
  lemma {:induction false} Conservation(basePort: int, es: seq<Event>, c: ClusterId, id: WorkerId)
    requires Legal(basePort, es)
    ensures var st := Run(basePort, es);
            (if c in st.clusters then Total(st.clusters[c], id) else 0)
            + Killed(basePort, es, c, id) + Failed(basePort, es, c, id) ==
            Launched(basePort, es, c, id) + Started(basePort, es, c, id)
  {
    if es != [] {
      var init, e := es[..|es| - 1], es[|es| - 1];
      Conservation(basePort, init, c, id);
      if c == e.c && c in Run(basePort, init).clusters {
        StepTotal(Run(basePort, init), e, id);
      }
    }
  }

  // ----- The map is what was forked and has not exited -----

  function Numbers(from: nat, n: nat): (numbers: set<nat>)
    ensures forall p :: p in numbers <==> from <= p < from + n
  {
    if n == 0 then {} else Numbers(from, n - 1) + {from + n - 1}
  }

  // Processes the run forked for cluster c, by its events: their numbers are consecutive.
  function ForkedProcs(basePort: int, es: seq<Event>, c: ClusterId): set<nat> {
    if es == [] then {}
    else
      var init, e := es[..|es| - 1], es[|es| - 1];
      ForkedProcs(basePort, init, c) + if e.c == c && c in Run(basePort, init).clusters then
          Numbers(Run(basePort, init).nextProc, Forks(e)) else {}
  }

  function ExitedProcs(es: seq<Event>, c: ClusterId): set<nat> {
    if es == [] then {}
    else
      var e := es[|es| - 1];
      ExitedProcs(es[..|es| - 1], c) + if e.Exit? && e.c == c then {e.proc} else {}
  }

  function Procs(workers: seq<Entry>): set<nat> {
    set w | w in workers :: w.proc
  }

  predicate ProcsInv(cl: Cluster, next: nat) {
    && (forall i | 0 <= i < |cl.workers| :: cl.workers[i].proc < next)
    && (forall i, j | 0 <= i < j < |cl.workers| :: cl.workers[i].proc != cl.workers[j].proc)
  }

  // Appending n workers with the next n numbers.
  lemma ProcsAdd(cl: Cluster, next: nat, added: seq<Entry>)
    requires ProcsInv(cl, next) && forall i | 0 <= i < |added| :: added[i].proc == next + i
    ensures ProcsInv(cl.(workers := cl.workers + added), next + |added|)
    ensures Procs(cl.workers + added) == Procs(cl.workers) + Numbers(next, |added|)
  {
    NewProcs(next, added);
    assert forall w :: w in cl.workers + added <==> w in cl.workers || w in added;
  }

  lemma NewProcs(next: nat, added: seq<Entry>)
    requires forall i | 0 <= i < |added| :: added[i].proc == next + i
    ensures Procs(added) == Numbers(next, |added|)
  {
    forall p | p in Numbers(next, |added|) ensures p in Procs(added) {
      assert added[p - next] in added;
    }
  }

  lemma ProcsExit(cl: Cluster, next: nat, proc: nat, sigkill: bool)
    requires ProcsInv(cl, next) && IndexOf(cl.workers, proc) < |cl.workers|
    ensures ProcsFollow(cl, Exited(cl, proc, sigkill), next, 0, {proc})
  {
    var i := IndexOf(cl.workers, proc);
    ProcsRemove(cl.workers, i);
    RemoveKeepsInv(cl, next, i);
    assert Exited(cl, proc, sigkill).workers == cl.workers[..i] + cl.workers[i + 1..];
  }

  lemma RemoveKeepsInv(cl: Cluster, next: nat, i: nat)
    requires ProcsInv(cl, next) && i < |cl.workers|
    ensures ProcsInv(cl.(workers := cl.workers[..i] + cl.workers[i + 1..]), next)
  {
    var rest := cl.workers[..i] + cl.workers[i + 1..];
    forall j | 0 <= j < |rest| ensures rest[j] == cl.workers[if j < i then j else j + 1] {}
  }

  // The processes of a cluster after a step that forks n of them and drops `gone`.
  predicate ProcsFollow(cl: Cluster, next: Cluster, proc: nat, n: nat, gone: set<nat>) {
    ProcsInv(next, proc + n) && Procs(next.workers) == Procs(cl.workers) + Numbers(proc, n) - gone
  }

  lemma StepProcs(st: State, e: Event)
    requires e.c in st.clusters && Enabled(st, e) && ProcsInv(st.clusters[e.c], st.nextProc)
    ensures ProcsFollow(st.clusters[e.c], After(st.clusters[e.c], st.basePort, st.nextProc, e), st.nextProc, Forks(e),
                        if e.Exit? then {e.proc} else {})
  {
    var cl := st.clusters[e.c];
    match e
    case AnswerLaunch(_, answer) =>
      if answer.Settings? {
        LaunchProcs(cl.(launches := cl.launches - 1), st.basePort, st.nextProc, answer.cs, answer.ws);
      }
    case Exit(_, proc, sigkill) => ProcsExit(cl, st.nextProc, proc, sigkill);
    case Resolve(_, id, answer) => ResolveProcs(cl, st.basePort, st.nextProc, id, answer);
    case _ => assert Procs(cl.workers) + {} - {} == Procs(cl.workers);
  }

  lemma ForkedAreNumbered(basePort: int, proc: nat, cs: ClusterSettings, ws: seq<WorkerSettings>)
    ensures |Forked(basePort, proc, cs, ws)| == |ws|
    ensures forall i | 0 <= i < |ws| :: Forked(basePort, proc, cs, ws)[i].proc == proc + i
  {
  }

  lemma LaunchProcs(cl: Cluster, basePort: int, proc: nat, cs: ClusterSettings, ws: seq<WorkerSettings>)
    requires ProcsInv(cl, proc)
    ensures ProcsFollow(cl, Launch(cl, basePort, proc, cs, ws), proc, |ws|, {})
  {
    ForkedAreNumbered(basePort, proc, cs, ws);
    ProcsAdd(cl, proc, Forked(basePort, proc, cs, ws));
  }

  lemma ResolveProcs(cl: Cluster, basePort: int, proc: nat, id: WorkerId, answer: Answer)
    requires ProcsInv(cl, proc) && id in cl.starts
    ensures ProcsFollow(cl, Resolved(cl, basePort, proc, id, answer), proc,
                        if Found(answer, id).None? then 0 else 1, {})
  {
    if Found(answer, id).Some? {
      ProcsAdd(cl, proc, [NewEntry(basePort, proc, answer.cs, Found(answer, id).value)]);
    }
  }

  lemma ProcsRemove(workers: seq<Entry>, i: nat)
    requires i < |workers|
    requires forall j, k | 0 <= j < k < |workers| :: workers[j].proc != workers[k].proc
    ensures Procs(workers[..i] + workers[i + 1..]) == Procs(workers) - {workers[i].proc}
  {
    var rest := workers[..i] + workers[i + 1..];
    forall w | w in workers && w.proc != workers[i].proc ensures w in rest {
      var j :| 0 <= j < |workers| && workers[j] == w;
      assert w == if j < i then rest[j] else rest[j - 1];
    }
    forall w | w in rest ensures w in workers && w.proc != workers[i].proc {
      var j :| 0 <= j < |rest| && rest[j] == w;
      assert w == if j < i then workers[j] else workers[j + 1];
    }
  }

  // The accounts of forked and exited processes agree with the map.
  predicate MapInv(st: State, c: ClusterId, forked: set<nat>, exited: set<nat>) {
    && (forall p | p in forked :: p < st.nextProc)
    && exited <= forked
    && (c !in st.clusters ==> forked == {})
    && (c in st.clusters ==> ProcsInv(st.clusters[c], st.nextProc) && Procs(st.clusters[c].workers) == forked - exited)
  }

  lemma OwnStepKeepsMap(st: State, e: Event, forked: set<nat>, exited: set<nat>)
    requires Enabled(st, e) && e.c in st.clusters && MapInv(st, e.c, forked, exited)
    ensures MapInv(Step(st, e), e.c, forked + Numbers(st.nextProc, Forks(e)), exited + if e.Exit? then {e.proc} else {})
  {
    StepProcs(st, e);
    if e.Exit? {
      var workers := st.clusters[e.c].workers;
      assert workers[IndexOf(workers, e.proc)] in workers;
    }
  }

  lemma OtherStepKeepsMap(st: State, e: Event, c: ClusterId, forked: set<nat>, exited: set<nat>)
    requires Enabled(st, e) && (e.c != c || c !in st.clusters) && MapInv(st, c, forked, exited)
    ensures MapInv(Step(st, e), c, forked, exited) && (e.c == c ==> !e.Exit?)
  {
    if c in st.clusters {
      assert Step(st, e).clusters[c] == st.clusters[c];
    }
  }

  lemma {:induction false} MapIsForkedNotExited(basePort: int, es: seq<Event>, c: ClusterId)
    requires Legal(basePort, es)
    ensures MapInv(Run(basePort, es), c, ForkedProcs(basePort, es, c), ExitedProcs(es, c))
  {
    if es != [] {
      var init, e := es[..|es| - 1], es[|es| - 1];
      var st := Run(basePort, init);
      MapIsForkedNotExited(basePort, init, c);
      if c in st.clusters && e.c == c {
        OwnStepKeepsMap(st, e, ForkedProcs(basePort, init, c), ExitedProcs(init, c));
      } else {
        OtherStepKeepsMap(st, e, c, ForkedProcs(basePort, init, c), ExitedProcs(init, c));
      }
    }
  }
}
