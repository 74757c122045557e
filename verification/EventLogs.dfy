/**
  The event log store: audit, operational and application entries are appended in memory and
  saved in batches. An entry is a record of named fields; a later source of a field overrides an
  earlier one, as object spreading does.
*/
module EventLogs {
  import opened Common

  type FieldName = string

  // A value of a request body: a string, or anything else.
  datatype Json = JsonText(text: string) | JsonOther(value: nat)

  type Payload = map<string, Json>

  datatype Field = Null | Text(text: string) | Body(body: Payload)

  type Log = map<FieldName, Field>

  datatype User = User(id: Option<string>, name: Option<string>, role: Option<Role>)

  datatype Role = UserRole | AdminRole

  datatype Request = Request(
    id: nat, user: Option<User>, body: Option<Payload>, httpMethod: Option<string>, url: Option<string>,
    entityId: Option<string>, ip: Option<string>, userAgent: Option<string>)

  const MASK := JsonText("*****")

  // The names every body inherits, so that they count as present in it, and that masking adds to it.
  // It inherits `__proto__` as well, but assigning a text to the inherited one has no effect.
  const INHERITED := {
    "constructor", "hasOwnProperty", "isPrototypeOf", "propertyIsEnumerable", "toLocaleString", "toString",
    "valueOf", "__defineGetter__", "__defineSetter__", "__lookupGetter__", "__lookupSetter__"}

  // The value, or null when it is absent or empty.
  function TextOrNull(s: Option<string>): Field {
    if s.Some? && s.value != "" then Text(s.value) else Null
  }

  function RoleText(user: Option<User>): string {
    if user.Some? && user.value.role.Some? then
      match user.value.role.value
      case UserRole => "User"
      case AdminRole => "Admin"
    else "Guest"
  }

  // The body with the named fields hidden; an inherited name that is hidden becomes a field.
  function Masked(body: Payload, hidden: seq<string>): Payload {
    MaskedWith(INHERITED, body, hidden)
  }

  function MaskedWith(inherited: set<string>, body: Payload, hidden: seq<string>): Payload {
    (map k | k in body :: if k in hidden then MASK else body[k]) + map k | k in inherited && k in hidden :: MASK
  }

  lemma MaskedSnoc(inherited: set<string>, body: Payload, hidden: seq<string>, h: string)
    ensures var before := MaskedWith(inherited, body, hidden);
            MaskedWith(inherited, body, hidden + [h]) ==
            if h in before || h in inherited then before[h := MASK] else before
  {
    var before, after := MaskedWith(inherited, body, hidden), MaskedWith(inherited, body, hidden + [h]);
    assert forall k :: k in hidden + [h] <==> k in hidden || k == h;
    forall k ensures k in after <==> k in before || (k == h && h in inherited) {}
    forall k | k in after ensures after[k] == if k == h then MASK else before[k] {}
  }

  // `hidden` is the list of body fields an endpoint declares, if it declares one.
  function RequestPart(request: Request, hidden: Option<seq<string>>): Log {
    var payload := match request.body
                   case None => Null
                   case Some(body) => Body(if hidden.Some? then Masked(body, hidden.value) else body);
    map["userId" := TextOrNull(if request.user.Some? then request.user.value.id else None),
        "userName" := TextOrNull(if request.user.Some? then request.user.value.name else None),
        "userRole" := Text(RoleText(request.user)),
        "payload" := payload,
        "method" := TextOrNull(request.httpMethod),
        "url" := TextOrNull(request.url),
        "entityId" := TextOrNull(request.entityId),
        "ipAddress" := TextOrNull(request.ip),
        "userAgent" := TextOrNull(request.userAgent)]
  }

  function AuditLog(eventLog: Log, request: Option<Request>, hidden: Option<seq<string>>): Log {
    (if request.Some? then RequestPart(request.value, hidden) else map[]) + eventLog + map["logType" := Text("Audit")]
  }

  function SystemLog(eventLog: Log, logType: string): Log {
    map["logLevel" := Text("Info"), "userRole" := Text("System")] + eventLog + map["logType" := Text(logType)]
  }

  // ----- What an entry holds -----

  predicate Holds(log: Log, f: FieldName, value: Field) {
    f in log && log[f] == value
  }

  // A value that is absent or empty is stored as null.
  predicate HoldsText(log: Log, f: FieldName, s: Option<string>) {
    Holds(log, f, match s case Some(text) => if text == "" then Null else Text(text) case None => Null)
  }

  // The stored body has the request's fields. A hidden one has the mask in place of its value; all
  // others are as they were.
  predicate HoldsBody(log: Log, body: Payload, hidden: seq<string>) {
    && "payload" in log && log["payload"].Body?
    && var stored := log["payload"].body;
       && (forall k | k in body :: k in stored && stored[k] == if k in hidden then JsonText("*****") else body[k])
       && (forall k | k in stored && k !in body :: k in hidden && k in INHERITED && stored[k] == JsonText("*****"))
  }

  // What an audit entry holds besides its type comes from the event, or else from the request.
  lemma AuditKeepsEvent(eventLog: Log, request: Request, hidden: Option<seq<string>>, f: FieldName)
    ensures var log := AuditLog(eventLog, Some(request), hidden);
            && Holds(log, "logType", Text("Audit"))
            && (f in eventLog && f != "logType" ==> Holds(log, f, eventLog[f]))
            && (f in log ==> f in eventLog || f in REQUEST_FIELDS || f == "logType")
  {
  }

  lemma AuditNamesUser(eventLog: Log, request: Request, hidden: Option<seq<string>>)
    ensures var log, user := AuditLog(eventLog, Some(request), hidden), request.user;
            && ("userId" !in eventLog ==> HoldsText(log, "userId", if user.Some? then user.value.id else None))
            && ("userName" !in eventLog ==> HoldsText(log, "userName", if user.Some? then user.value.name else None))
            && ("userRole" !in eventLog ==>
                  Holds(log, "userRole", if user.None? then Text("Guest")
                                         else match user.value.role
                                              case None => Text("Guest")
                                              case Some(UserRole) => Text("User")
                                              case Some(AdminRole) => Text("Admin")))
  {
    var log, part := AuditLog(eventLog, Some(request), hidden), RequestPart(request, hidden);
    assert "userId" !in eventLog ==> log["userId"] == part["userId"];
    assert "userName" !in eventLog ==> log["userName"] == part["userName"];
    assert "userRole" !in eventLog ==> log["userRole"] == part["userRole"];
  }

  lemma AuditMasksBody(eventLog: Log, request: Request, hidden: Option<seq<string>>)
    requires "payload" !in eventLog
    ensures var log := AuditLog(eventLog, Some(request), hidden);
            match request.body
            case None => Holds(log, "payload", Null)
            case Some(body) => HoldsBody(log, body, if hidden.Some? then hidden.value else [])
  {
    var log := AuditLog(eventLog, Some(request), hidden);
    assert log["payload"] == RequestPart(request, hidden)["payload"];
  }

  lemma AuditNamesRequest(eventLog: Log, request: Request, hidden: Option<seq<string>>)
    ensures var log := AuditLog(eventLog, Some(request), hidden);
            && ("method" !in eventLog ==> HoldsText(log, "method", request.httpMethod))
            && ("url" !in eventLog ==> HoldsText(log, "url", request.url))
            && ("entityId" !in eventLog ==> HoldsText(log, "entityId", request.entityId))
            && ("ipAddress" !in eventLog ==> HoldsText(log, "ipAddress", request.ip))
            && ("userAgent" !in eventLog ==> HoldsText(log, "userAgent", request.userAgent))
  {
  }

  const REQUEST_FIELDS := {
    "userId", "userName", "userRole", "payload", "method", "url", "entityId", "ipAddress", "userAgent"}

  // Without a request there is nothing but the event and its type; the system's own entries have two
  // defaults besides.
  lemma OtherEntries(eventLog: Log, hidden: Option<seq<string>>, logType: string, f: FieldName)
    ensures var audit, system := AuditLog(eventLog, None, hidden), SystemLog(eventLog, logType);
            && Holds(audit, "logType", Text("Audit")) && Holds(system, "logType", Text(logType))
            && (f != "logType" && f in eventLog ==> Holds(audit, f, eventLog[f]) && Holds(system, f, eventLog[f]))
            && (f != "logType" && f !in eventLog ==> f !in audit)
            && ("logLevel" !in eventLog ==> Holds(system, "logLevel", Text("Info")))
            && ("userRole" !in eventLog ==> Holds(system, "userRole", Text("System")))
            && (f !in {"logType", "logLevel", "userRole"} && f !in eventLog ==> f !in system)
  {
  }

  class EventLogsService {
    var logsStore: seq<Log>
    var handled: set<nat> // the requests marked as audited

    constructor ()
      ensures logsStore == [] && handled == {}
    {
      logsStore, handled := [], {};
    }

    method MaskBody(body: Payload, hidden: seq<string>) returns (payload: Payload)
      ensures payload == Masked(body, hidden)
    {
      payload := body;
      for i := 0 to |hidden|
        invariant payload == Masked(body, hidden[..i])
      {
        assert hidden[..i + 1] == hidden[..i] + [hidden[i]];
        MaskedSnoc(INHERITED, body, hidden[..i], hidden[i]);
        if hidden[i] in payload || hidden[i] in INHERITED {
          payload := payload[hidden[i] := MASK];
        }
      }
      assert hidden[..|hidden|] == hidden;
    }

    method Audit(eventLog: Log, request: Option<Request>, hidden: Option<seq<string>>)
      modifies this
      ensures request.Some? && request.value.id in old(handled) ==>
                logsStore == old(logsStore) && handled == old(handled)
      ensures !(request.Some? && request.value.id in old(handled)) ==>
                && logsStore == old(logsStore) + [AuditLog(eventLog, request, hidden)]
                && handled == old(handled) + if request.Some? then {request.value.id} else {}
    {
      if request.Some? && request.value.id in handled {
        return;
      }
      var logPartial: Log := map[];
      if request.Some? {
        var r := request.value;
        var payload := Null;
        if r.body.Some? {
          var body := r.body.value;
          if hidden.Some? {
            body := MaskBody(body, hidden.value);
          }
          payload := Body(body);
        }
        logPartial := map[
          "userId" := TextOrNull(if r.user.Some? then r.user.value.id else None),
          "userName" := TextOrNull(if r.user.Some? then r.user.value.name else None),
          "userRole" := Text(RoleText(r.user)), "payload" := payload,
          "method" := TextOrNull(r.httpMethod), "url" := TextOrNull(r.url), "entityId" := TextOrNull(r.entityId),
          "ipAddress" := TextOrNull(r.ip), "userAgent" := TextOrNull(r.userAgent)];
        handled := handled + {r.id};
      }
      logsStore := logsStore + [logPartial + eventLog + map["logType" := Text("Audit")]];
    }

    method OperationalLog(eventLog: Log)
      modifies this
      ensures logsStore == old(logsStore) + [SystemLog(eventLog, "Operational")] && handled == old(handled)
    {
      logsStore := logsStore + [map["logLevel" := Text("Info"), "userRole" := Text("System")] + eventLog +
          map["logType" := Text("Operational")]];
    }

    method ApplicationLog(eventLog: Log)
      modifies this
      ensures logsStore == old(logsStore) + [SystemLog(eventLog, "Application")] && handled == old(handled)
    {
      logsStore := logsStore + [map["logLevel" := Text("Info"), "userRole" := Text("System")] + eventLog +
          map["logType" := Text("Application")]];
    }

    // The flush up to its await.
    method TakeLogs() returns (save: bool, logs: seq<Log>)
      modifies this
      ensures save <==> old(logsStore) != []
      ensures logs == old(logsStore) && logsStore == [] && handled == old(handled)
    {
      logs := logsStore;
      save := |logsStore| > 0;
      logsStore := [];
    }
  }

  // ----- Runs -----

  datatype Outcome = UnderWay | Saved | Failed

  datatype Batch = Batch(logs: seq<Log>, outcome: Outcome)

  // Batches in the order of their flushes; saves may end in any order.
  datatype State = State(store: seq<Log>, handled: set<nat>, batches: seq<Batch>)

  datatype Event =
    | Audit(eventLog: Log, request: Option<Request>, hidden: Option<seq<string>>)
    | Operational(eventLog: Log)
    | Application(eventLog: Log)
    | Flush
    | SaveEnds(batch: nat, ok: bool) // a failure is reported and the batch given up

  // What the event appends.
  function Appends(st: State, e: Event): seq<Log> {
    match e
    case Audit(eventLog, request, hidden) =>
      if request.Some? && request.value.id in st.handled then [] else [AuditLog(eventLog, request, hidden)]
    case Operational(eventLog) => [SystemLog(eventLog, "Operational")]
    case Application(eventLog) => [SystemLog(eventLog, "Application")]
    case _ => []
  }

  function Step(st: State, e: Event): State {
    match e
    case Flush => if st.store == [] then st else st.(store := [], batches := st.batches + [Batch(st.store, UnderWay)])
    case SaveEnds(i, ok) =>
      if i < |st.batches| && st.batches[i].outcome.UnderWay? then
        st.(batches := st.batches[i := Batch(st.batches[i].logs, if ok then Saved else Failed)])
      else st
    case _ =>
      st.(store := st.store + Appends(st, e),
          handled := st.handled + if e.Audit? && e.request.Some? then {e.request.value.id} else {})
  }

  function Run(es: seq<Event>): State {
    if es == [] then State([], {}, []) else Step(Run(es[..|es| - 1]), es[|es| - 1])
  }

  // An entry of the system's own: the event with a type, and two defaults.
  predicate Says(log: Log, eventLog: Log, logType: string) {
    && Holds(log, "logType", Text(logType))
    && (forall f | f in eventLog && f != "logType" :: Holds(log, f, eventLog[f]))
    && (forall f | f in log && f !in eventLog :: f in {"logType", "logLevel", "userRole"})
  }

  // One entry for each event that has not been audited before, of its own type and with its fields.
  lemma AppendsItsEntry(st: State, e: Event)
    ensures match e
            case Audit(eventLog, request, hidden) =>
              if request.Some? && request.value.id in st.handled then Appends(st, e) == []
              else Appends(st, e) == [AuditLog(eventLog, request, hidden)]
            case Operational(eventLog) => |Appends(st, e)| == 1 && Says(Appends(st, e)[0], eventLog, "Operational")
            case Application(eventLog) => |Appends(st, e)| == 1 && Says(Appends(st, e)[0], eventLog, "Application")
            case _ => Appends(st, e) == []
  {
  }

  // Everything the run appended, in order.
  function Appended(es: seq<Event>): seq<Log> {
    if es == [] then [] else Appended(es[..|es| - 1]) + Appends(Run(es[..|es| - 1]), es[|es| - 1])
  }

  function Logs(batches: seq<Batch>): seq<Log> {
    if batches == [] then [] else Logs(batches[..|batches| - 1]) + batches[|batches| - 1].logs
  }

  function SavedLogs(batches: seq<Batch>): seq<Log> {
    if batches == [] then []
    else
      var last := batches[|batches| - 1];
      SavedLogs(batches[..|batches| - 1]) + if last.outcome.Saved? then last.logs else []
  }

  lemma {:induction false} OutcomeKeepsLogs(batches: seq<Batch>, i: nat, outcome: Outcome)
    requires i < |batches|
    ensures Logs(batches[i := Batch(batches[i].logs, outcome)]) == Logs(batches)
  {
    var updated, n := batches[i := Batch(batches[i].logs, outcome)], |batches|;
    if i == n - 1 {
      assert updated[..n - 1] == batches[..n - 1];
    } else {
      assert updated[..n - 1] == batches[..n - 1][i := Batch(batches[i].logs, outcome)];
      OutcomeKeepsLogs(batches[..n - 1], i, outcome);
    }
  }

  // No entry is lost, repeated or reordered by flushing.
  lemma {:induction false} LogsConserved(es: seq<Event>)
    ensures Logs(Run(es).batches) + Run(es).store == Appended(es)
  {
    if es != [] {
      var st, e := Run(es[..|es| - 1]), es[|es| - 1];
      LogsConserved(es[..|es| - 1]);
      match e
      case Flush => assert (st.batches + [Batch(st.store, UnderWay)])[..|st.batches|] == st.batches;
      case SaveEnds(i, ok) =>
        if i < |st.batches| && st.batches[i].outcome.UnderWay? {
          OutcomeKeepsLogs(st.batches, i, if ok then Saved else Failed);
        }
      case _ =>
        assert Logs(st.batches) + (st.store + Appends(st, e)) == Logs(st.batches) + st.store + Appends(st, e);
    }
  }

  // The k-th event ends a save of batch i, and is the first to do so.
  predicate EndsAt(es: seq<Event>, k: nat, i: nat) {
    k < |es| && es[k].SaveEnds? && es[k].batch == i && i < |Run(es[..k]).batches|
  }

  predicate EndsFirst(es: seq<Event>, k: nat, i: nat) {
    EndsAt(es, k, i) && forall j: nat | j < k :: !EndsAt(es, j, i)
  }

  lemma EndsSnoc(es: seq<Event>, e: Event, k: nat, i: nat)
    requires k < |es|
    ensures EndsAt(es + [e], k, i) <==> EndsAt(es, k, i)
    ensures EndsFirst(es + [e], k, i) <==> EndsFirst(es, k, i)
  {
    assert forall j: nat | j <= k :: (es + [e])[..j] == es[..j];
    assert forall j: nat | j <= k :: EndsAt(es + [e], j, i) <==> EndsAt(es, j, i);
  }

  // A flush hands over everything stored, and leaves nothing.
  lemma FlushTakesAll(es: seq<Event>)
    ensures var st, next := Run(es), Run(es + [Flush]);
            && next.store == [] && next.handled == st.handled
            && next.batches == st.batches + if st.store == [] then [] else [Batch(st.store, UnderWay)]
  {
    assert (es + [Flush])[..|es|] == es;
  }

  // The event is the first to end a save of the batch exactly when none has ended before.
  lemma EndsFirstSnoc(es: seq<Event>, e: Event, i: nat)
    ensures EndsFirst(es + [e], |es|, i) <==>
              e.SaveEnds? && e.batch == i && i < |Run(es).batches| && forall j: nat :: !EndsAt(es, j, i)
  {
    assert (es + [e])[..|es|] == es;
    forall j: nat | j < |es| ensures EndsAt(es + [e], j, i) <==> EndsAt(es, j, i) {
      EndsSnoc(es, e, j, i);
    }
  }

  lemma {:induction false} UnderWayIff(es: seq<Event>, i: nat)
    ensures (exists j: nat :: EndsAt(es, j, i)) <==> i < |Run(es).batches| && !Run(es).batches[i].outcome.UnderWay?
  {
    if es != [] {
      var init, e := es[..|es| - 1], es[|es| - 1];
      assert es == init + [e];
      UnderWayIff(init, i);
      forall j: nat | j < |init| ensures EndsAt(es, j, i) <==> EndsAt(init, j, i) {
        EndsSnoc(init, e, j, i);
      }
      assert EndsAt(es, |init|, i) <==> e.SaveEnds? && e.batch == i && i < |Run(init).batches|;
    }
  }

  // A batch is saved if and only if the first of its saves to end ended well, and given up if and
  // only if it failed.
  lemma {:induction false} OutcomeIff(es: seq<Event>, i: nat, ok: bool)
    ensures (exists k: nat :: EndsFirst(es, k, i) && es[k].ok == ok) <==>
              i < |Run(es).batches| && Run(es).batches[i].outcome == if ok then Saved else Failed
  {
    if es != [] {
      var init, e := es[..|es| - 1], es[|es| - 1];
      assert es == init + [e];
      OutcomeIff(init, i, ok);
      UnderWayIff(init, i);
      EndsFirstSnoc(init, e, i);
      forall k: nat | k < |init| ensures EndsFirst(es, k, i) <==> EndsFirst(init, k, i) {
        EndsSnoc(init, e, k, i);
      }
    }
  }

  lemma {:induction false} AllSaved(batches: seq<Batch>)
    requires forall i | 0 <= i < |batches| :: batches[i].outcome.Saved?
    ensures SavedLogs(batches) == Logs(batches)
  {
    if batches != [] {
      AllSaved(batches[..|batches| - 1]);
    }
  }

  // With every save done and successful, the saved logs followed by the store are exactly what was appended.
  lemma SavedThenStored(es: seq<Event>)
    requires forall i | 0 <= i < |Run(es).batches| :: Run(es).batches[i].outcome.Saved?
    ensures SavedLogs(Run(es).batches) + Run(es).store == Appended(es)
  {
    LogsConserved(es);
    AllSaved(Run(es).batches);
  }

  // How many entries the run wrote for one request.
  function Audits(es: seq<Event>, request: nat): nat {
    if es == [] then 0
    else
      var init, e := es[..|es| - 1], es[|es| - 1];
      Audits(init, request) +
      if e.Audit? && e.request.Some? && e.request.value.id == request then |Appends(Run(init), e)| else 0
  }

  // A request is audited exactly once, by the first of all attempts.
  lemma {:induction false} AuditedOnce(es: seq<Event>, request: nat)
    ensures Audits(es, request) == if request in Run(es).handled then 1 else 0
    ensures request in Run(es).handled <==>
              exists i :: 0 <= i < |es| && es[i].Audit? && es[i].request.Some? && es[i].request.value.id == request
  {
    if es != [] {
      var init := es[..|es| - 1];
      AuditedOnce(init, request);
      assert forall i | 0 <= i < |init| :: init[i] == es[i];
    }
  }
}
