/**
  When a worker runs once: the supervisor under fixed, conflict-free settings. A worker id is claimed
  by a live worker, an armed timer, a start under way, and each launch of its cluster under way.
*/
module ClusterPlans {
  import opened Common
  import opened Cluster
  import opened ClusterRuns

  // What every settings request of a cluster is answered, if it does not fail.
  datatype Plan = Plan(cs: ClusterSettings, ws: seq<WorkerSettings>)

  predicate DistinctWorkers(ws: seq<WorkerSettings>) {
    forall i, j | 0 <= i < j < |ws| :: ws[i].workerId != ws[j].workerId
  }

  function Variable(vars: Env, name: string): Option<EnvValue> {
    if name in vars then Some(vars[name]) else None
  }

  // The cluster's hook rewrites neither the id nor the port of a worker.
  ghost predicate HookKeepsNames(cs: ClusterSettings) {
    forall s, vars ::
      var rewritten := cs.onWorkerRun(s, vars);
      && Variable(rewritten, "WORKER") == Variable(vars, "WORKER")
      && Variable(rewritten, "PORT") == Variable(vars, "PORT")
  }

  ghost predicate WellPlanned(basePort: int, plans: map<ClusterId, Plan>) {
    && (forall c | c in plans :: DistinctWorkers(plans[c].ws) && HookKeepsNames(plans[c].cs))
    && (forall c, i | c in plans && 0 <= i < |plans[c].ws| ::
          "WORKER" !in plans[c].ws[i].extraEnv && "PORT" !in plans[c].ws[i].extraEnv)
    && (forall c, i, d, j | c in plans && 0 <= i < |plans[c].ws| && d in plans && 0 <= j < |plans[d].ws| &&
                            (c, i) != (d, j) ::
          var p, q := ComputedPort(basePort, plans[c].ws[i]), ComputedPort(basePort, plans[d].ws[j]);
          p.Some? && q.Some? ==> p != q)
  }

  ghost predicate AsPlanned(plan: Plan, answer: Answer) {
    answer.Rejected? || answer == Settings(plan.cs, plan.ws)
  }

  ghost predicate PlannedEvent(plans: map<ClusterId, Plan>, e: Event) {
    && e.c in plans
    && (e.AnswerLaunch? ==> AsPlanned(plans[e.c], e.answer))
    && (e.Resolve? ==> AsPlanned(plans[e.c], e.answer))
  }

  // Any run whose settings requests are answered as planned or fail.
  ghost predicate PlannedRun(basePort: int, plans: map<ClusterId, Plan>, es: seq<Event>) {
    es != [] ==>
      && PlannedRun(basePort, plans, es[..|es| - 1])
      && Enabled(Run(basePort, es[..|es| - 1]), es[|es| - 1])
      && PlannedEvent(plans, es[|es| - 1])
  }

  // ----- Claims to a worker id -----

  predicate Has(plan: Plan, id: WorkerId) {
    exists s | s in plan.ws :: s.workerId == id
  }

  // What is about to run the worker.
  function Pending(plan: Plan, cl: Cluster, id: WorkerId): nat {
    cl.timers[id] + cl.starts[id] + if Has(plan, id) then cl.launches else 0
  }

  function Claims(plan: Plan, cl: Cluster, id: WorkerId): nat {
    Live(cl.workers, id) + Pending(plan, cl, id)
  }

  ghost predicate Single(plan: Plan, cl: Cluster) {
    forall id :: Claims(plan, cl, id) <= 1
  }

  // The event claims the id once more: a launch of a cluster that has it, or an explicit start that
  // finds no live worker.
  predicate Raises(plan: Plan, cl: Cluster, e: Event, id: WorkerId) {
    match e
    case RequestLaunch(_) => Has(plan, id)
    case SetState(_, started, on) => on && started == id && FindWorker(cl.workers, id).None?
    case _ => false
  }

  // A launch while one of the planned workers is live or pending, or an explicit start of a worker
  // that is not live but pending.
  predicate Clash(plan: Plan, cl: Cluster, e: Event) {
    match e
    case RequestLaunch(_) => exists s | s in plan.ws :: Claims(plan, cl, s.workerId) > 0
    case SetState(_, id, on) => on && FindWorker(cl.workers, id).None? && Claims(plan, cl, id) > 0
    case _ => false
  }

  lemma {:induction false} DistinctCount(ws: seq<WorkerSettings>, cs: ClusterSettings, id: WorkerId)
    requires DistinctWorkers(ws)
    ensures multiset(SettingsIds(ws))[id] == if Has(Plan(cs, ws), id) then 1 else 0
  {
    if ws != [] {
      var rest := ws[1..];
      assert ws == [ws[0]] + rest;
      assert SettingsIds(ws) == [ws[0].workerId] + SettingsIds(rest);
      assert forall j | 0 <= j < |rest| :: rest[j] == ws[j + 1];
      DistinctCount(rest, cs, id);
      assert Has(Plan(cs, ws), id) <==> ws[0].workerId == id || Has(Plan(cs, rest), id);
    }
  }

  // Only these events raise a claim, and by one.
  lemma ClaimsStep(plan: Plan, st: State, e: Event, id: WorkerId)
    requires DistinctWorkers(plan.ws) && Enabled(st, e) && e.c in st.clusters
    requires e.AnswerLaunch? ==> AsPlanned(plan, e.answer)
    ensures var cl := st.clusters[e.c];
            var next := After(cl, st.basePort, st.nextProc, e);
            if Raises(plan, cl, e, id) then Claims(plan, next, id) == Claims(plan, cl, id) + 1
            else Claims(plan, next, id) <= Claims(plan, cl, id)
  {
    StepTotal(st, e, id);
    if e.AnswerLaunch? && e.answer.Settings? {
      DistinctCount(plan.ws, plan.cs, id);
    }
  }

  // On a cluster in which each id is claimed at most once, an event leaves one claimed twice if and
  // only if it clashes.
  lemma StepSingleIff(plan: Plan, st: State, e: Event)
    requires DistinctWorkers(plan.ws) && Enabled(st, e) && e.c in st.clusters
    requires e.AnswerLaunch? ==> AsPlanned(plan, e.answer)
    requires Single(plan, st.clusters[e.c])
    ensures Single(plan, After(st.clusters[e.c], st.basePort, st.nextProc, e)) <==> !Clash(plan, st.clusters[e.c], e)
  {
    var cl, next := st.clusters[e.c], After(st.clusters[e.c], st.basePort, st.nextProc, e);
    forall id
      ensures Claims(plan, next, id) <= 1 <==> !(Raises(plan, cl, e, id) && Claims(plan, cl, id) > 0)
    {
      ClaimsStep(plan, st, e, id);
      assert Claims(plan, cl, id) <= 1;
    }
    if e.RequestLaunch? {
      forall s | s in plan.ws ensures Has(plan, s.workerId) {}
    }
  }

  // An explicit start keeps every worker single exactly when the worker is live or nothing of it is
  // pending: no restart, no start, and no launch of its cluster.
  lemma ExplicitStartIsSafeIff(plan: Plan, st: State, c: ClusterId, id: WorkerId)
    requires DistinctWorkers(plan.ws) && c in st.clusters && Single(plan, st.clusters[c])
    ensures Single(plan, StartRequested(st.clusters[c], id, true)) <==>
              FindWorker(st.clusters[c].workers, id).Some? || Claims(plan, st.clusters[c], id) == 0
  {
    StepSingleIff(plan, st, SetState(c, id, true));
  }

  // ----- Runs -----

  ghost predicate AllSingle(plans: map<ClusterId, Plan>, st: State) {
    forall c | c in st.clusters && c in plans :: Single(plans[c], st.clusters[c])
  }

  // At every point of the run each worker id of each cluster is claimed at most once.
  ghost predicate AlwaysSingle(basePort: int, plans: map<ClusterId, Plan>, es: seq<Event>) {
    AllSingle(plans, Run(basePort, es)) && (es != [] ==> AlwaysSingle(basePort, plans, es[..|es| - 1]))
  }

  ghost predicate NeverClashes(basePort: int, plans: map<ClusterId, Plan>, es: seq<Event>) {
    es != [] ==>
      var st, e := Run(basePort, es[..|es| - 1]), es[|es| - 1];
      && NeverClashes(basePort, plans, es[..|es| - 1])
      && (e.c in st.clusters && e.c in plans ==> !Clash(plans[e.c], st.clusters[e.c], e))
  }

  // Under fixed settings with distinct workers, every id is claimed at most once throughout a run if
  // and only if no launch is requested while one of its workers is claimed, and no worker is started
  // explicitly while it is pending.
  lemma {:induction false} SingleIff(basePort: int, plans: map<ClusterId, Plan>, es: seq<Event>)
    requires forall c | c in plans :: DistinctWorkers(plans[c].ws)
    requires PlannedRun(basePort, plans, es)
    ensures AlwaysSingle(basePort, plans, es) <==> NeverClashes(basePort, plans, es)
  {
    if es != [] {
      var init, e := es[..|es| - 1], es[|es| - 1];
      var st := Run(basePort, init);
      SingleIff(basePort, plans, init);
      if AlwaysSingle(basePort, plans, init) {
        RunStepSingleIff(plans, st, e);
      }
    }
  }

  lemma RunStepSingleIff(plans: map<ClusterId, Plan>, st: State, e: Event)
    requires forall c | c in plans :: DistinctWorkers(plans[c].ws)
    requires Enabled(st, e) && PlannedEvent(plans, e) && AllSingle(plans, st)
    ensures AllSingle(plans, Step(st, e)) <==> (e.c in st.clusters ==> !Clash(plans[e.c], st.clusters[e.c], e))
  {
    if e.c in st.clusters {
      StepSingleIff(plans[e.c], st, e);
      var next := Step(st, e);
      assert next.clusters[e.c] == After(st.clusters[e.c], st.basePort, st.nextProc, e);
      assert forall c | c in next.clusters && c != e.c :: next.clusters[c] == st.clusters[c];
    } else if e.Add? {
      forall id ensures Claims(plans[e.c], NEW_CLUSTER, id) <= 1 {}
    }
  }

  // ----- Planned workers -----

  predicate Planned(basePort: int, plan: Plan, e: Entry) {
    var s := FindSettings(plan.ws, e.workerId);
    s.Some? && e == NewEntry(basePort, e.proc, plan.cs, s.value)
  }

  predicate ArePlanned(basePort: int, plan: Plan, workers: seq<Entry>) {
    forall e | e in workers :: Planned(basePort, plan, e)
  }

  lemma {:induction false} FindsItself(ws: seq<WorkerSettings>, i: nat)
    requires i < |ws| && DistinctWorkers(ws)
    ensures FindSettings(ws, ws[i].workerId) == Some(ws[i])
    decreases i
  {
    if i > 0 {
      FindsItself(ws[1..], i - 1);
    }
  }

  lemma ForkedIsPlanned(basePort: int, plan: Plan, proc: nat, i: nat)
    requires i < |plan.ws| && DistinctWorkers(plan.ws)
    ensures Planned(basePort, plan, Forked(basePort, proc, plan.cs, plan.ws)[i])
  {
    FindsItself(plan.ws, i);
  }

  lemma ForkedArePlanned(basePort: int, plan: Plan, proc: nat)
    requires DistinctWorkers(plan.ws)
    ensures ArePlanned(basePort, plan, Forked(basePort, proc, plan.cs, plan.ws))
  {
    var forked := Forked(basePort, proc, plan.cs, plan.ws);
    forall e | e in forked ensures Planned(basePort, plan, e) {
      var i :| 0 <= i < |forked| && forked[i] == e;
      ForkedIsPlanned(basePort, plan, proc, i);
    }
  }

  lemma ArePlannedAppend(basePort: int, plan: Plan, a: seq<Entry>, b: seq<Entry>)
    requires ArePlanned(basePort, plan, a) && ArePlanned(basePort, plan, b)
    ensures ArePlanned(basePort, plan, a + b)
  {
    assert forall e :: e in a + b <==> e in a || e in b;
  }

  lemma StepPlanned(plan: Plan, st: State, e: Event)
    requires DistinctWorkers(plan.ws) && Enabled(st, e) && e.c in st.clusters
    requires e.AnswerLaunch? ==> AsPlanned(plan, e.answer)
    requires e.Resolve? ==> AsPlanned(plan, e.answer)
    requires ArePlanned(st.basePort, plan, st.clusters[e.c].workers)
    ensures ArePlanned(st.basePort, plan, After(st.clusters[e.c], st.basePort, st.nextProc, e).workers)
  {
    var cl := st.clusters[e.c];
    match e
    case AnswerLaunch(_, answer) =>
      if answer.Settings? {
        ForkedArePlanned(st.basePort, plan, st.nextProc);
        ArePlannedAppend(st.basePort, plan, cl.workers, Forked(st.basePort, st.nextProc, plan.cs, plan.ws));
      }
    case Resolve(_, id, answer) =>
      if Found(answer, id).Some? {
        FindSettingsFinds(plan.ws, id);
        ArePlannedAppend(st.basePort, plan, cl.workers,
            [NewEntry(st.basePort, st.nextProc, plan.cs, Found(answer, id).value)]);
      }
    case _ =>
  }

  lemma {:induction false} RunPlanned(basePort: int, plans: map<ClusterId, Plan>, es: seq<Event>, c: ClusterId)
    requires forall d | d in plans :: DistinctWorkers(plans[d].ws)
    requires PlannedRun(basePort, plans, es)
    ensures var st := Run(basePort, es);
            && st.basePort == basePort
            && (c in st.clusters ==>
                  c in plans && ArePlanned(basePort, plans[c], st.clusters[c].workers))
  {
    if es != [] {
      var init, e := es[..|es| - 1], es[|es| - 1];
      RunPlanned(basePort, plans, init, c);
      if c == e.c && c in Run(basePort, init).clusters {
        StepPlanned(plans[c], Run(basePort, init), e);
      }
    }
  }

  lemma VarsKeepNames(basePort: int, cs: ClusterSettings, s: WorkerSettings)
    requires HookKeepsNames(cs) && "WORKER" !in s.extraEnv && "PORT" !in s.extraEnv
    ensures Variable(Vars(basePort, cs, s), "WORKER") == Some(Text(s.workerId))
    ensures var port := ComputedPort(basePort, s);
            Variable(Vars(basePort, cs, s), "PORT") == if port.Some? then Some(Num(port.value)) else None
  {
  }

  lemma PlannedVars(basePort: int, plans: map<ClusterId, Plan>, c: ClusterId, e: Entry) returns (i: nat)
    requires WellPlanned(basePort, plans) && c in plans && Planned(basePort, plans[c], e)
    ensures i < |plans[c].ws| && plans[c].ws[i].workerId == e.workerId
    ensures Variable(e.vars, "WORKER") == Some(Text(e.workerId))
    ensures var port := ComputedPort(basePort, plans[c].ws[i]);
            Variable(e.vars, "PORT") == if port.Some? then Some(Num(port.value)) else None
  {
    FindSettingsFinds(plans[c].ws, e.workerId);
    i :| 0 <= i < |plans[c].ws| && plans[c].ws[i] == FindSettings(plans[c].ws, e.workerId).value;
    VarsKeepNames(basePort, plans[c].cs, plans[c].ws[i]);
  }

  // The lookup by the WORKER variable finds a worker exactly when one started under that id lives.
  lemma {:induction false} FindWorkerFinds(basePort: int, plans: map<ClusterId, Plan>, c: ClusterId,
                                           workers: seq<Entry>, id: WorkerId)
    requires WellPlanned(basePort, plans) && c in plans && ArePlanned(basePort, plans[c], workers)
    ensures FindWorker(workers, id).Some? <==> Live(workers, id) > 0
    ensures FindWorker(workers, id).Some? ==>
              var e := FindWorker(workers, id).value; e in workers && e.workerId == id
  {
    if workers != [] {
      var _ := PlannedVars(basePort, plans, c, workers[0]);
      FindWorkerFinds(basePort, plans, c, workers[1..], id);
    }
  }

  // ----- Main results -----

  lemma LiveMember(workers: seq<Entry>, i: nat)
    requires i < |workers|
    ensures Live(workers, workers[i].workerId) >= 1
  {
    LiveRemove(workers, i, workers[i].workerId);
  }

  lemma UniqueIds(plan: Plan, cl: Cluster, i: nat, j: nat)
    requires Single(plan, cl) && i < j < |cl.workers|
    ensures cl.workers[i].workerId != cl.workers[j].workerId
  {
    var id, rest := cl.workers[i].workerId, cl.workers[..i] + cl.workers[i + 1..];
    LiveRemove(cl.workers, i, id);
    assert rest[j - 1] == cl.workers[j];
    LiveMember(rest, j - 1);
    assert Claims(plan, cl, id) <= 1;
  }

  // A run without clashes, under well-planned settings, reaches the state.
  ghost predicate Reaches(basePort: int, plans: map<ClusterId, Plan>, es: seq<Event>, st: State) {
    && WellPlanned(basePort, plans) && PlannedRun(basePort, plans, es) && NeverClashes(basePort, plans, es)
    && Run(basePort, es) == st
  }

  // In every state of a run without clashes no two live workers share an id within a cluster, or a
  // PORT anywhere.
  lemma LiveWorkersAreDistinct(basePort: int, plans: map<ClusterId, Plan>, es: seq<Event>, st: State,
                               c: ClusterId, i: nat, d: ClusterId, j: nat)
    requires Reaches(basePort, plans, es, st) && c in st.clusters && d in st.clusters
    requires i < |st.clusters[c].workers| && j < |st.clusters[d].workers| && (c, i) != (d, j)
    ensures var e, f := st.clusters[c].workers[i], st.clusters[d].workers[j];
            && (c == d ==> Variable(e.vars, "WORKER") != Variable(f.vars, "WORKER"))
            && (Variable(e.vars, "PORT").Some? ==> Variable(e.vars, "PORT") != Variable(f.vars, "PORT"))
  {
    RunPlanned(basePort, plans, es, c);
    RunPlanned(basePort, plans, es, d);
    SingleIff(basePort, plans, es);
    var e, f := st.clusters[c].workers[i], st.clusters[d].workers[j];
    var h := PlannedVars(basePort, plans, c, e);
    var k := PlannedVars(basePort, plans, d, f);
    if c == d {
      UniqueIds(plans[c], st.clusters[c], if i < j then i else j, if i < j then j else i);
    }
    assert (c, h) != (d, k);
  }

  // A worker that exits by SIGKILL is neither live nor pending afterwards.
  lemma StoppedWorkerIsDown(basePort: int, plans: map<ClusterId, Plan>, es: seq<Event>, st: State,
                            c: ClusterId, proc: nat)
    requires Reaches(basePort, plans, es, st) && Enabled(st, Exit(c, proc, true))
    ensures c in plans
    ensures var cl := st.clusters[c];
            Claims(plans[c], Exited(cl, proc, true), cl.workers[IndexOf(cl.workers, proc)].workerId) == 0
  {
    var cl := st.clusters[c];
    var i := IndexOf(cl.workers, proc);
    RunPlanned(basePort, plans, es, c);
    SingleIff(basePort, plans, es);
    ExitedTotal(cl, proc, true, cl.workers[i].workerId);
    LiveMember(cl.workers, i);
    assert Claims(plans[c], cl, cl.workers[i].workerId) <= 1;
  }

  predicate BringsUp(e: Event, c: ClusterId, id: WorkerId) {
    Starts(e, c, id) || (e.AnswerLaunch? && e.c == c && Configured(e.answer, id) > 0)
  }

  // A worker that is down stays down, whatever happens, until it is started or a launch of its
  // cluster forks it.
  lemma {:induction false} DownStaysDown(basePort: int, es: seq<Event>, more: seq<Event>, c: ClusterId, id: WorkerId)
    requires Legal(basePort, es + more)
    requires c in Run(basePort, es).clusters && Total(Run(basePort, es).clusters[c], id) == 0
    requires forall i | 0 <= i < |more| :: !BringsUp(more[i], c, id)
    ensures c in Run(basePort, es + more).clusters && Total(Run(basePort, es + more).clusters[c], id) == 0
    decreases |more|
  {
    if more == [] {
      assert es + more == es;
    } else {
      var init, e := more[..|more| - 1], more[|more| - 1];
      assert (es + more)[..|es + more| - 1] == es + init;
      assert forall i | 0 <= i < |init| :: init[i] == more[i];
      DownStaysDown(basePort, es, init, c, id);
      if e.c == c {
        StepTotal(Run(basePort, es + init), e, id);
      }
    }
  }

  // ----- Stopping a worker -----

  // A stop request, and the exit it asks for.
  function Stopped(cl: Cluster, id: WorkerId): Cluster {
    match FindWorker(cl.workers, id)
    case Some(e) => Exited(cl, e.proc, true)
    case None => cl
  }

  lemma StopRemovesOne(basePort: int, plans: map<ClusterId, Plan>, c: ClusterId, cl: Cluster, next: nat, id: WorkerId)
    requires WellPlanned(basePort, plans) && c in plans && ArePlanned(basePort, plans[c], cl.workers)
    requires ProcsInv(cl, next)
    ensures Claims(plans[c], Stopped(cl, id), id) ==
            Claims(plans[c], cl, id) - if Live(cl.workers, id) > 0 then 1 else 0
  {
    FindWorkerFinds(basePort, plans, c, cl.workers, id);
    if FindWorker(cl.workers, id).Some? {
      var e := FindWorker(cl.workers, id).value;
      var k :| 0 <= k < |cl.workers| && cl.workers[k] == e;
      assert IndexOf(cl.workers, e.proc) == k;
      ExitedTotal(cl, e.proc, true, id);
    }
  }

  // A stop leaves the worker down if and only if it had one live worker and nothing pending, or no
  // claim at all. What is pending is not cancelled.
  lemma StopIsEffectiveIff(basePort: int, plans: map<ClusterId, Plan>, es: seq<Event>, c: ClusterId, id: WorkerId)
    requires WellPlanned(basePort, plans) && PlannedRun(basePort, plans, es) && Legal(basePort, es)
    requires c in Run(basePort, es).clusters
    ensures c in plans
    ensures var cl := Run(basePort, es).clusters[c];
            Claims(plans[c], Stopped(cl, id), id) == 0 <==> Live(cl.workers, id) <= 1 && Pending(plans[c], cl, id) == 0
  {
    RunPlanned(basePort, plans, es, c);
    MapIsForkedNotExited(basePort, es, c);
    StopRemovesOne(basePort, plans, c, Run(basePort, es).clusters[c], Run(basePort, es).nextProc, id);
  }

  // ----- Three runs of one cluster with one worker -----

  const ANSWER := Settings(ClusterSettings("role", Some(1000), (s, vars) => vars),
                           [WorkerSettings("a", None, None, None, map[])])

  function A(proc: nat): Entry {
    NewEntry(3000, proc, ANSWER.cs, ANSWER.ws[0])
  }

  lemma RunPrefix(basePort: int, es: seq<Event>, n: nat)
    requires n < |es|
    ensures Run(basePort, es[..n + 1]) == Step(Run(basePort, es[..n]), es[n])
    ensures Legal(basePort, es[..n + 1]) <==> Legal(basePort, es[..n]) && Enabled(Run(basePort, es[..n]), es[n])
  {
    assert es[..n + 1][..n] == es[..n];
  }

  // After n events the only cluster is as given, and `forked` processes were started.
  ghost predicate At(es: seq<Event>, n: nat, cl: Cluster, forked: nat)
    requires n <= |es|
  {
    Legal(3000, es[..n]) && Run(3000, es[..n]) == State(3000, map[0 := cl], forked)
  }

  lemma StepAt(es: seq<Event>, n: nat, cl: Cluster, forked: nat, next: Cluster)
    requires n < |es| && At(es, n, cl, forked)
    requires es[n].c == 0 && Enabled(State(3000, map[0 := cl], forked), es[n])
    requires After(cl, 3000, forked, es[n]) == next
    ensures At(es, n + 1, next, forked + Forks(es[n]))
  {
    RunPrefix(3000, es, n);
    assert map[0 := cl][0 := next] == map[0 := next];
  }

  lemma AddAt(es: seq<Event>)
    requires es != [] && es[0] == Add(0)
    ensures At(es, 1, NEW_CLUSTER, 0)
  {
    RunPrefix(3000, es, 0);
    assert es[..0] == [];
    assert map[][0 := NEW_CLUSTER] == map[0 := NEW_CLUSTER];
  }

  lemma RequestAt(es: seq<Event>, n: nat)
    requires n < |es| && At(es, n, NEW_CLUSTER, 0) && es[n] == RequestLaunch(0)
    ensures At(es, n + 1, Cluster([], multiset{}, multiset{}, 1), 0)
  {
    StepAt(es, n, NEW_CLUSTER, 0, Cluster([], multiset{}, multiset{}, 1));
  }

  lemma LaunchA(starts: multiset<WorkerId>)
    ensures LaunchAnswered(Cluster([], multiset{}, starts, 1), 3000, 0, ANSWER) ==
            Cluster([A(0)], multiset{}, starts, 0)
  {
    assert Forked(3000, 0, ANSWER.cs, ANSWER.ws) == [A(0)];
    assert [] + [A(0)] == [A(0)];
  }

  lemma LaunchAt(es: seq<Event>, n: nat, starts: multiset<WorkerId>)
    requires n < |es| && At(es, n, Cluster([], multiset{}, starts, 1), 0) && es[n] == AnswerLaunch(0, ANSWER)
    ensures At(es, n + 1, Cluster([A(0)], multiset{}, starts, 0), 1)
  {
    LaunchA(starts);
    StepAt(es, n, Cluster([], multiset{}, starts, 1), 0, Cluster([A(0)], multiset{}, starts, 0));
  }

  lemma ExitAt(es: seq<Event>, n: nat)
    requires n < |es| && At(es, n, Cluster([A(0)], multiset{}, multiset{}, 0), 1) && es[n] == Exit(0, 0, false)
    ensures At(es, n + 1, Cluster([], multiset{"a"}, multiset{}, 0), 1)
  {
    var cl := Cluster([A(0)], multiset{}, multiset{}, 0);
    assert cl.workers[..0] + cl.workers[1..] == [];
    StepAt(es, n, cl, 1, Cluster([], multiset{"a"}, multiset{}, 0));
  }

  // A start request that finds no live worker.
  lemma StartAt(es: seq<Event>, n: nat, timers: multiset<WorkerId>, launches: nat, forked: nat)
    requires n < |es| && At(es, n, Cluster([], timers, multiset{}, launches), forked) && es[n] == SetState(0, "a", true)
    ensures At(es, n + 1, Cluster([], timers, multiset{"a"}, launches), forked)
  {
    StepAt(es, n, Cluster([], timers, multiset{}, launches), forked, Cluster([], timers, multiset{"a"}, launches));
  }

  lemma TimerAt(es: seq<Event>, n: nat, workers: seq<Entry>, forked: nat)
    requires n < |es| && At(es, n, Cluster(workers, multiset{"a"}, multiset{}, 0), forked) && es[n] == Timer(0, "a")
    ensures At(es, n + 1, Cluster(workers, multiset{}, multiset{"a"}, 0), forked)
  {
    assert multiset{"a"} - multiset{"a"} == multiset{};
    StepAt(es, n, Cluster(workers, multiset{"a"}, multiset{}, 0), forked,
        Cluster(workers, multiset{}, multiset{"a"}, 0));
  }

  lemma ResolveA(workers: seq<Entry>, timers: multiset<WorkerId>, forked: nat)
    ensures Resolved(Cluster(workers, timers, multiset{"a"}, 0), 3000, forked, "a", ANSWER) ==
            Cluster(workers + [A(forked)], timers, multiset{}, 0)
    ensures Forks(Resolve(0, "a", ANSWER)) == 1
  {
    assert multiset{"a"} - multiset{"a"} == multiset{};
    assert FindSettings(ANSWER.ws, "a") == Some(ANSWER.ws[0]);
  }

  lemma ResolveAt(es: seq<Event>, n: nat, workers: seq<Entry>, timers: multiset<WorkerId>, forked: nat)
    requires n < |es| && At(es, n, Cluster(workers, timers, multiset{"a"}, 0), forked)
    requires es[n] == Resolve(0, "a", ANSWER)
    ensures At(es, n + 1, Cluster(workers + [A(forked)], timers, multiset{}, 0), forked + 1)
  {
    ResolveA(workers, timers, forked);
    StepAt(es, n, Cluster(workers, timers, multiset{"a"}, 0), forked,
           Cluster(workers + [A(forked)], timers, multiset{}, 0));
  }

  // The run ends with the worker running once, or twice.
  lemma OnceAt(es: seq<Event>, p: nat, forked: nat)
    requires At(es, |es|, Cluster([] + [A(p)], multiset{}, multiset{}, 0), forked)
    ensures Legal(3000, es) && Run(3000, es).clusters.Keys == {0} && Live(Run(3000, es).clusters[0].workers, "a") == 1
  {
    assert es[..|es|] == es;
    assert [] + [A(p)] == [A(p)];
  }

  lemma TwiceAt(es: seq<Event>, p: nat, q: nat, forked: nat)
    requires At(es, |es|, Cluster([A(p)] + [A(q)], multiset{}, multiset{}, 0), forked)
    ensures Legal(3000, es) && Run(3000, es).clusters.Keys == {0} && Live(Run(3000, es).clusters[0].workers, "a") == 2
  {
    assert es[..|es|] == es;
    LiveAppend([A(p)], [A(q)], "a");
  }

  // The worker was launched, has exited, and waits for its restart.
  lemma WaitingAt(es: seq<Event>)
    requires |es| >= 4 && es[0] == Add(0) && es[1] == RequestLaunch(0)
    requires es[2] == AnswerLaunch(0, ANSWER) && es[3] == Exit(0, 0, false)
    ensures At(es, 4, Cluster([], multiset{"a"}, multiset{}, 0), 1)
  {
    AddAt(es);
    RequestAt(es, 1);
    LaunchAt(es, 2, multiset{});
    ExitAt(es, 3);
  }

  const RESTART_RUN: seq<Event> := [
    Add(0), RequestLaunch(0), AnswerLaunch(0, ANSWER), Exit(0, 0, false),
    SetState(0, "a", true), Resolve(0, "a", ANSWER), Timer(0, "a"), Resolve(0, "a", ANSWER)]

  // With a restart pending, an explicit start and the restart each bring the worker up.
  lemma ExplicitStartRunsTwice()
    ensures Legal(3000, RESTART_RUN) && Run(3000, RESTART_RUN).clusters.Keys == {0}
    ensures Live(Run(3000, RESTART_RUN).clusters[0].workers, "a") == 2
  {
    WaitingAt(RESTART_RUN);
    StartAt(RESTART_RUN, 4, multiset{"a"}, 0, 1);
    ResolveAt(RESTART_RUN, 5, [], multiset{"a"}, 1);
    assert [] + [A(1)] == [A(1)];
    TimerAt(RESTART_RUN, 6, [A(1)], 2);
    ResolveAt(RESTART_RUN, 7, [A(1)], multiset{}, 2);
    TwiceAt(RESTART_RUN, 1, 2, 3);
  }

  const LAUNCH_RUN: seq<Event> := [
    Add(0), RequestLaunch(0), SetState(0, "a", true), AnswerLaunch(0, ANSWER), Resolve(0, "a", ANSWER)]

  // With a launch pending, an explicit start and the launch each bring the worker up; no restart is
  // involved.
  lemma StartDuringLaunchRunsTwice()
    ensures Legal(3000, LAUNCH_RUN) && Run(3000, LAUNCH_RUN).clusters.Keys == {0}
    ensures Live(Run(3000, LAUNCH_RUN).clusters[0].workers, "a") == 2
  {
    AddAt(LAUNCH_RUN);
    RequestAt(LAUNCH_RUN, 1);
    StartAt(LAUNCH_RUN, 2, multiset{}, 1, 0);
    LaunchAt(LAUNCH_RUN, 3, multiset{"a"});
    ResolveAt(LAUNCH_RUN, 4, [A(0)], multiset{}, 1);
    TwiceAt(LAUNCH_RUN, 0, 1, 2);
  }

  const STOP_RUN: seq<Event> := [
    Add(0), RequestLaunch(0), AnswerLaunch(0, ANSWER), Exit(0, 0, false),
    SetState(0, "a", false), Timer(0, "a"), Resolve(0, "a", ANSWER)]

  // A stop request while the worker waits for its restart does nothing, and the worker comes up.
  lemma StopDuringRestartIsIgnored()
    ensures Legal(3000, STOP_RUN) && Run(3000, STOP_RUN).clusters.Keys == {0}
    ensures Live(Run(3000, STOP_RUN).clusters[0].workers, "a") == 1
  {
    WaitingAt(STOP_RUN);
    var waiting := Cluster([], multiset{"a"}, multiset{}, 0);
    StepAt(STOP_RUN, 4, waiting, 1, waiting);
    TimerAt(STOP_RUN, 5, [], 1);
    ResolveAt(STOP_RUN, 6, [], multiset{}, 1);
    OnceAt(STOP_RUN, 1, 2);
  }
}
