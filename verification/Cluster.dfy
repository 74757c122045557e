/**
  The worker supervisor. A cluster's live workers are kept in fork order, as the service's
  insertion-ordered map keeps them; restart timers and starts awaiting their settings are multisets
  of worker ids, and launches of the whole cluster awaiting theirs are counted.
*/
module Cluster {
  import opened Common

  type ClusterId = nat
  type WorkerId = string

  // A variable of a worker's environment; Num(n) is the decimal text of n.
  datatype EnvValue = Text(text: string) | Num(n: int)

  type Env = map<string, EnvValue>

  datatype WorkerSettings = WorkerSettings(
    workerId: WorkerId, workerName: Option<string>, portIncrement: Option<int>, port: Option<int>, extraEnv: Env)

  // With the settings comes what the cluster's hook makes of a worker's variables before the fork.
  datatype ClusterSettings = ClusterSettings(
    appRole: string, restartDelay: Option<nat>, onWorkerRun: (WorkerSettings, Env) -> Env)

  // How the two settings requests end.
  datatype Answer = Rejected | Settings(cs: ClusterSettings, ws: seq<WorkerSettings>)

  // A live worker: its process, the settings its exit handler closed over, its environment.
  datatype Entry = Entry(proc: nat, workerId: WorkerId, vars: Env, restartDelay: Option<nat>)

  datatype Cluster = Cluster(
    workers: seq<Entry>, timers: multiset<WorkerId>, starts: multiset<WorkerId>, launches: nat)

  const NEW_CLUSTER := Cluster([], multiset{}, multiset{}, 0)

  function ComputedPort(basePort: int, s: WorkerSettings): Option<int> {
    if s.port.Some? && s.port.value != 0 then s.port
    else if s.portIncrement.Some? then Some(basePort + s.portIncrement.value)
    else None
  }

  function Vars(basePort: int, cs: ClusterSettings, s: WorkerSettings): Env {
    var name := if s.workerName.Some? && s.workerName.value != "" then s.workerName.value else s.workerId;
    var vars: Env := map["APP_ROLE" := Text(cs.appRole), "WORKER" := Text(s.workerId), "WORKER_NAME" := Text(name)] +
        s.extraEnv;
    cs.onWorkerRun(s, match ComputedPort(basePort, s) case Some(port) => vars["PORT" := Num(port)] case None => vars)
  }

  function NewEntry(basePort: int, proc: nat, cs: ClusterSettings, s: WorkerSettings): Entry {
    Entry(proc, s.workerId, Vars(basePort, cs, s), cs.restartDelay)
  }

  // What the hook is handed. PORT is the explicit port unless that is absent or zero, else the base
  // port plus the increment; the other three settings give way to `extraEnv`.
  ghost predicate Handed(basePort: int, cs: ClusterSettings, s: WorkerSettings, vars: Env) {
    && (if s.port.Some? && s.port.value != 0 then "PORT" in vars && vars["PORT"] == Num(s.port.value)
        else if s.portIncrement.Some? then "PORT" in vars && vars["PORT"] == Num(basePort + s.portIncrement.value)
        else Inherits(s, vars, "PORT"))
    && (if "WORKER" in s.extraEnv then Inherits(s, vars, "WORKER")
        else "WORKER" in vars && vars["WORKER"] == Text(s.workerId))
    && (if "APP_ROLE" in s.extraEnv then Inherits(s, vars, "APP_ROLE")
        else "APP_ROLE" in vars && vars["APP_ROLE"] == Text(cs.appRole))
    && (if "WORKER_NAME" in s.extraEnv then Inherits(s, vars, "WORKER_NAME")
        else
          && "WORKER_NAME" in vars
          && vars["WORKER_NAME"] ==
              Text(if s.workerName in {None, Some("")} then s.workerId else s.workerName.value))
    && (forall key | key !in {"PORT", "WORKER", "APP_ROLE", "WORKER_NAME"} :: Inherits(s, vars, key))
  }

  predicate Inherits(s: WorkerSettings, vars: Env, key: string) {
    if key in s.extraEnv then key in vars && vars[key] == s.extraEnv[key] else key !in vars
  }

  // A forked worker: its settings' id and delay, and what the hook makes of what it is handed.
  lemma EntryByKey(basePort: int, proc: nat, cs: ClusterSettings, s: WorkerSettings) returns (vars: Env)
    ensures Handed(basePort, cs, s, vars)
    ensures NewEntry(basePort, proc, cs, s) == Entry(proc, s.workerId, cs.onWorkerRun(s, vars), cs.restartDelay)
  {
    var name := if s.workerName.Some? && s.workerName.value != "" then s.workerName.value else s.workerId;
    vars := map["APP_ROLE" := Text(cs.appRole), "WORKER" := Text(s.workerId), "WORKER_NAME" := Text(name)] + s.extraEnv;
    var port := ComputedPort(basePort, s);
    if port.Some? {
      vars := vars["PORT" := Num(port.value)];
    }
  }

  // ----- The steps of one cluster -----

  function Forked(basePort: int, proc: nat, cs: ClusterSettings, ws: seq<WorkerSettings>): seq<Entry> {
    seq(|ws|, i requires 0 <= i < |ws| => NewEntry(basePort, proc + i, cs, ws[i]))
  }

  function Launch(cl: Cluster, basePort: int, proc: nat, cs: ClusterSettings, ws: seq<WorkerSettings>): Cluster {
    cl.(workers := cl.workers + Forked(basePort, proc, cs, ws))
  }

  function LaunchRequested(cl: Cluster): Cluster {
    cl.(launches := cl.launches + 1)
  }

  // A launch whose settings requests have ended: all workers are forked, or nothing happens.
  function LaunchAnswered(cl: Cluster, basePort: int, proc: nat, answer: Answer): Cluster {
    if cl.launches == 0 then cl
    else
      var rest := cl.(launches := cl.launches - 1);
      match answer
      case Rejected => rest
      case Settings(cs, ws) => Launch(rest, basePort, proc, cs, ws)
  }

  function FindWorker(workers: seq<Entry>, id: WorkerId): Option<Entry> {
    if workers == [] then None
    else if "WORKER" in workers[0].vars && workers[0].vars["WORKER"] == Text(id) then Some(workers[0])
    else FindWorker(workers[1..], id)
  }

  function FindSettings(ws: seq<WorkerSettings>, id: WorkerId): Option<WorkerSettings> {
    if ws == [] then None else if ws[0].workerId == id then Some(ws[0]) else FindSettings(ws[1..], id)
  }

  function IndexOf(workers: seq<Entry>, proc: nat): (i: nat)
    ensures i <= |workers|
    ensures i < |workers| ==> workers[i].proc == proc
    ensures forall j | 0 <= j < i :: workers[j].proc != proc
  {
    if workers == [] || workers[0].proc == proc then 0 else 1 + IndexOf(workers[1..], proc)
  }

  // The exit handler: the worker leaves the map; unless it was stopped, it is restarted now or later.
  function Exited(cl: Cluster, proc: nat, sigkill: bool): Cluster {
    var i := IndexOf(cl.workers, proc);
    if i == |cl.workers| then cl
    else
      var e := cl.workers[i];
      var rest := cl.(workers := cl.workers[..i] + cl.workers[i + 1..]);
      if sigkill then rest
      else if e.restartDelay.None? then rest.(starts := cl.starts + multiset{e.workerId})
      else rest.(timers := cl.timers + multiset{e.workerId})
  }

  function TimerFired(cl: Cluster, id: WorkerId): Cluster {
    if id in cl.timers then cl.(timers := cl.timers - multiset{id}, starts := cl.starts + multiset{id}) else cl
  }

  function Found(answer: Answer, id: WorkerId): Option<WorkerSettings> {
    if answer.Settings? then FindSettings(answer.ws, id) else None
  }

  // A start whose settings requests have ended: fork, or fail when they failed or the worker is no
  // longer configured.
  function Resolved(cl: Cluster, basePort: int, proc: nat, id: WorkerId, answer: Answer): Cluster {
    if id !in cl.starts then cl
    else
      var rest := cl.(starts := cl.starts - multiset{id});
      match Found(answer, id)
      case None => rest
      case Some(s) => rest.(workers := cl.workers + [NewEntry(basePort, proc, answer.cs, s)])
  }

  function StartRequested(cl: Cluster, id: WorkerId, state: bool): Cluster {
    if state && FindWorker(cl.workers, id).None? then cl.(starts := cl.starts + multiset{id}) else cl
  }

  // ----- The supervisor -----

  datatype Request = Nothing | Kill(proc: nat, sigkill: bool)

  datatype ServiceError = ClusterNotFound | SettingsNotFound | RequestFailed

  class ClusterService {
    const basePort: int
    var clusters: map<ClusterId, Cluster>
    var nextProc: nat

    constructor (basePort: int)
      ensures this.basePort == basePort && clusters == map[] && nextProc == 0
    {
      this.basePort := basePort;
      clusters, nextProc := map[], 0;
    }

    method AddCluster(c: ClusterId)
      modifies this
      ensures clusters == if c in old(clusters) then old(clusters) else old(clusters)[c := NEW_CLUSTER]
      ensures nextProc == old(nextProc)
    {
      if c in clusters {
        return;
      }
      clusters := clusters[c := NEW_CLUSTER];
    }

    method RunWorker(c: ClusterId, cs: ClusterSettings, s: WorkerSettings) returns (result: Result<nat, ServiceError>)
      modifies this
      ensures c !in old(clusters) ==>
                result == Err(ClusterNotFound) && clusters == old(clusters) && nextProc == old(nextProc)
      ensures c in old(clusters) ==>
                && result == Ok(old(nextProc)) && nextProc == old(nextProc) + 1
                && clusters == old(clusters)[c :=
                    old(clusters)[c].(workers := old(clusters)[c].workers + [NewEntry(basePort, old(nextProc), cs, s)])]
      ensures c in old(clusters) ==>
                exists vars | Handed(basePort, cs, s, vars) ::
                  clusters[c].workers ==
                  old(clusters)[c].workers +
                      [Entry(old(nextProc), s.workerId, cs.onWorkerRun(s, vars), cs.restartDelay)]
    {
      if c !in clusters {
        return Err(ClusterNotFound);
      }
      var name := if s.workerName.Some? && s.workerName.value != "" then s.workerName.value else s.workerId;
      var vars: Env := map["APP_ROLE" := Text(cs.appRole), "WORKER" := Text(s.workerId), "WORKER_NAME" := Text(name)];
      vars := vars + s.extraEnv;
      if s.port.Some? && s.port.value != 0 {
        vars := vars["PORT" := Num(s.port.value)];
      } else if s.portIncrement.Some? {
        vars := vars["PORT" := Num(basePort + s.portIncrement.value)];
      }
      vars := cs.onWorkerRun(s, vars);
      var cl := clusters[c];
      clusters := clusters[c := cl.(workers := cl.workers + [Entry(nextProc, s.workerId, vars, cs.restartDelay)])];
      ghost var _ := EntryByKey(basePort, nextProc, cs, s);
      result := Ok(nextProc);
      nextProc := nextProc + 1;
    }

    // Up to the await of each cluster's settings.
    method RunClusters()
      modifies this
      ensures clusters == map c | c in old(clusters) :: LaunchRequested(old(clusters)[c])
      ensures nextProc == old(nextProc)
    {
      var unvisited := clusters.Keys;
      while unvisited != {}
        invariant unvisited <= clusters.Keys == old(clusters).Keys && nextProc == old(nextProc)
        invariant forall c | c in clusters ::
                    clusters[c] == if c in unvisited then old(clusters)[c] else LaunchRequested(old(clusters)[c])
      {
        var c :| c in unvisited;
        unvisited := unvisited - {c};
        clusters := clusters[c := clusters[c].(launches := clusters[c].launches + 1)];
      }
    }

    // What `runCluster` does once both settings requests have ended.
    method RunCluster(c: ClusterId, answer: Answer)
      requires c in clusters && clusters[c].launches > 0
      modifies this
      ensures clusters == old(clusters)[c := LaunchAnswered(old(clusters)[c], basePort, old(nextProc), answer)]
      ensures nextProc == old(nextProc) + if answer.Settings? then |answer.ws| else 0
    {
      clusters := clusters[c := clusters[c].(launches := clusters[c].launches - 1)];
      if answer.Rejected? {
        return;
      }
      var Settings(cs, ws) := answer;
      ghost var before, forked := clusters[c], Forked(basePort, nextProc, cs, ws);
      assert before.workers + forked[..0] == before.workers;
      for i := 0 to |ws|
        invariant c in clusters && nextProc == old(nextProc) + i
        invariant clusters == old(clusters)[c := before.(workers := before.workers + forked[..i])]
      {
        var _ := RunWorker(c, cs, ws[i]);
        assert forked[..i + 1] == forked[..i] + [forked[i]];
        assert before.workers + forked[..i + 1] == before.workers + forked[..i] + [forked[i]];
      }
      assert forked[..|ws|] == forked;
    }

    method OnExit(c: ClusterId, proc: nat, sigkill: bool)
      requires c in clusters && exists i :: 0 <= i < |clusters[c].workers| && clusters[c].workers[i].proc == proc
      modifies this
      ensures clusters == old(clusters)[c := Exited(old(clusters)[c], proc, sigkill)]
      ensures nextProc == old(nextProc)
    {
      var cl := clusters[c];
      var i := 0;
      while cl.workers[i].proc != proc
        invariant 0 <= i < |cl.workers|
        invariant forall j | 0 <= j < i :: cl.workers[j].proc != proc
        invariant i <= IndexOf(cl.workers, proc) < |cl.workers|
        decreases |cl.workers| - i
      {
        i := i + 1;
      }
      var e := cl.workers[i];
      var rest := cl.(workers := cl.workers[..i] + cl.workers[i + 1..]);
      if !sigkill {
        if e.restartDelay.None? {
          rest := rest.(starts := cl.starts + multiset{e.workerId});
        } else {
          rest := rest.(timers := cl.timers + multiset{e.workerId});
        }
      }
      clusters := clusters[c := rest];
    }

    method OnTimer(c: ClusterId, id: WorkerId)
      requires c in clusters && id in clusters[c].timers
      modifies this
      ensures clusters == old(clusters)[c := TimerFired(old(clusters)[c], id)]
      ensures nextProc == old(nextProc)
    {
      var cl := clusters[c];
      clusters := clusters[c := cl.(timers := cl.timers - multiset{id}, starts := cl.starts + multiset{id})];
    }

    // What `startWorker` does once both settings requests have ended.
    method FinishStart(c: ClusterId, id: WorkerId, answer: Answer)
      returns (result: Result<nat, ServiceError>)
      requires c in clusters && id in clusters[c].starts
      modifies this
      ensures clusters == old(clusters)[c := Resolved(old(clusters)[c], basePort, old(nextProc), id, answer)]
      ensures result == if answer.Rejected? then Err(RequestFailed)
                        else if Found(answer, id).None? then Err(SettingsNotFound)
                        else Ok(old(nextProc))
      ensures nextProc == old(nextProc) + if Found(answer, id).None? then 0 else 1
    {
      var cl := clusters[c];
      if answer.Rejected? {
        clusters := clusters[c := cl.(starts := cl.starts - multiset{id})];
        return Err(RequestFailed);
      }
      var Settings(cs, ws) := answer;
      var i := 0;
      while i < |ws| && ws[i].workerId != id
        invariant 0 <= i <= |ws|
        invariant FindSettings(ws, id) == FindSettings(ws[i..], id)
      {
        i := i + 1;
      }
      clusters := clusters[c := cl.(starts := cl.starts - multiset{id})];
      if i == |ws| {
        return Err(SettingsNotFound);
      }
      result := RunWorker(c, cs, ws[i]);
    }

    method SetWorkerState(c: ClusterId, id: WorkerId, state: bool) returns (result: Result<Request, ServiceError>)
      modifies this
      ensures nextProc == old(nextProc)
      ensures c !in old(clusters) ==> result == Err(ClusterNotFound) && clusters == old(clusters)
      ensures c in old(clusters) ==>
                && clusters == old(clusters)[c := StartRequested(old(clusters)[c], id, state)]
                && result == Ok(match FindWorker(old(clusters)[c].workers, id)
                                case None => Nothing
                                case Some(e) => Kill(e.proc, !state))
    {
      if c !in clusters {
        return Err(ClusterNotFound);
      }
      var cl := clusters[c];
      var i := 0;
      while i < |cl.workers| && !("WORKER" in cl.workers[i].vars && cl.workers[i].vars["WORKER"] == Text(id))
        invariant 0 <= i <= |cl.workers|
        invariant FindWorker(cl.workers, id) == FindWorker(cl.workers[i..], id)
      {
        i := i + 1;
      }
      if i == |cl.workers| {
        if state {
          clusters := clusters[c := cl.(starts := cl.starts + multiset{id})];
        }
        return Ok(Nothing);
      }
      return Ok(Kill(cl.workers[i].proc, !state));
    }
  }
}
