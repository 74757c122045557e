/**
  Monitoring checks that overlap. The recorder reads the open periods, waits, decides, and writes;
  between a check's read and its write other checks may read and write. When this gives a provider
  a second open period is stated exactly, for one write and for whole runs.
*/
module ConcurrentChecks {
  import opened Common
  import opened Monitoring
  import opened ProblematicPeriods

  // A check that has read the table and not written yet.
  datatype Pending = Pending(read: Table, providers: seq<Provider>, latest: map<ProviderId, int>)

  datatype State = State(table: Table, pending: map<nat, Pending>)

  datatype Event =
    | Read(check: nat, providers: seq<Provider>, latest: map<ProviderId, int>)
    | Write(check: nat, now: int, clocks: seq<int>)

  const INITIAL := State([], map[])

  predicate Enabled(st: State, e: Event) {
    match e
    case Read(check, providers, _) => check !in st.pending && DistinctIds(providers)
    case Write(check, _, clocks) => check in st.pending && |clocks| == |st.pending[check].providers|
  }

  function Step(st: State, e: Event): State {
    match e
    case Read(check, providers, latest) => st.(pending := st.pending[check := Pending(st.table, providers, latest)])
    case Write(check, now, clocks) =>
      if check in st.pending && |clocks| == |st.pending[check].providers| then
        var p := st.pending[check];
        State(Written(p.read, st.table, p.providers, p.latest, now, clocks), st.pending - {check})
      else st
  }

  function Run(es: seq<Event>): State {
    if es == [] then INITIAL else Step(Run(es[..|es| - 1]), es[|es| - 1])
  }

  predicate Legal(es: seq<Event>) {
    es != [] ==> Legal(es[..|es| - 1]) && Enabled(Run(es[..|es| - 1]), es[|es| - 1])
  }

  // A check that nothing overlaps is the one of `ProblematicPeriods`.
  lemma ReadThenWrite(st: State, check: nat, providers: seq<Provider>, latest: map<ProviderId, int>, now: int,
                      clocks: seq<int>)
    requires check !in st.pending && |clocks| == |providers|
    ensures Step(Step(st, Read(check, providers, latest)), Write(check, now, clocks)) ==
            st.(table := Written(st.table, st.table, providers, latest, now, clocks))
  {
    assert st.pending[check := Pending(st.table, providers, latest)] - {check} == st.pending;
  }

  // ----- Counting open periods -----

  function OpenCount(table: Table, id: ProviderId): nat {
    if table == [] then 0
    else
      var last := table[|table| - 1];
      OpenCount(table[..|table| - 1], id) + if last.provider == id && last.end.None? then 1 else 0
  }

  lemma {:induction false} OpenCountPositive(table: Table, id: ProviderId)
    ensures OpenCount(table, id) > 0 <==> HasOpen(table, id)
  {
    if table != [] {
      var n := |table| - 1;
      OpenCountPositive(table[..n], id);
      forall i | 0 <= i < n ensures table[..n][i] == table[i] {}
      assert HasOpen(table, id) <==> HasOpen(table[..n], id) || (table[n].provider == id && table[n].end.None?);
    }
  }

  lemma {:induction false} CloseCount(table: Table, row: nat, at: int, id: ProviderId)
    requires row < |table|
    ensures OpenCount(table[row := table[row].(end := Some(at))], id) <= OpenCount(table, id)
    ensures table[row].provider != id ==>
              OpenCount(table[row := table[row].(end := Some(at))], id) == OpenCount(table, id)
  {
    var n, next := |table| - 1, table[row := table[row].(end := Some(at))];
    if row == n {
      assert next[..n] == table[..n];
    } else {
      assert next[..n] == table[..n][row := table[row].(end := Some(at))];
      CloseCount(table[..n], row, at, id);
    }
  }

  lemma OpenOneMore(table: Table, p: Period, id: ProviderId)
    ensures OpenCount(table + [p], id) == OpenCount(table, id) + if p.provider == id && p.end.None? then 1 else 0
  {
    assert (table + [p])[..|table|] == table;
  }

  // The table has only grown since it was read: a row keeps its provider.
  predicate Extends(read: Table, table: Table) {
    |read| <= |table| && forall i | 0 <= i < |read| :: table[i].provider == read[i].provider
  }

  // What one decision does to the count of a provider.
  lemma ApplyCount(read: Table, table: Table, p: Provider, latest: map<ProviderId, int>, now: int, clock: int,
                   id: ProviderId)
    requires Extends(read, table)
    ensures var change := Decide(read, p, latest, now, clock);
            var next := Apply(table, change);
            && Extends(read, next) && Extends(table, next)
            && (p.id != id ==> OpenCount(next, id) == OpenCount(table, id))
            && (p.id == id && change.Some? && change.value.Open? ==> OpenCount(next, id) == OpenCount(table, id) + 1)
            && (p.id == id && !(change.Some? && change.value.Open?) ==> OpenCount(next, id) <= OpenCount(table, id))
  {
    var change := Decide(read, p, latest, now, clock);
    FindOpenFinds(read, p.id);
    if change.Some? {
      match change.value
      case Open(provider, at) => OpenOneMore(table, Period(provider, at, None), id);
      case Close(row, at) => CloseCount(table, row, at, id);
    }
  }

  // A write for providers among which `id` is not leaves its count alone.
  lemma {:induction false} OthersCount(read: Table, table: Table, providers: seq<Provider>,
                                       latest: map<ProviderId, int>,
                                       now: int, clocks: seq<int>, id: ProviderId)
    requires |clocks| == |providers| && Extends(read, table) && !Listed(providers, id)
    ensures var next := Written(read, table, providers, latest, now, clocks);
            Extends(read, next) && Extends(table, next) && OpenCount(next, id) == OpenCount(table, id)
    decreases |providers|
  {
    if providers != [] {
      var n := |providers| - 1;
      assert providers[n].id != id;
      assert forall i | 0 <= i < n :: providers[..n][i] == providers[i];
      OthersCount(read, table, providers[..n], latest, now, clocks[..n], id);
      var before := Written(read, table, providers[..n], latest, now, clocks[..n]);
      ApplyCount(read, before, providers[n], latest, now, clocks[n], id);
    }
  }

  // The provider is seen problematic by a check that read no open period of it.
  predicate Opens(pending: Pending, id: ProviderId, now: int) {
    exists p | p in pending.providers :: p.id == id && Problematic(p, Latest(pending.latest, id), now)
                                         && !HasOpen(pending.read, id)
  }

  // The decision on the last provider is an opening exactly when it says so.
  lemma OpensLast(pending: Pending, id: ProviderId, now: int, clock: int)
    requires pending.providers != [] && DistinctIds(pending.providers)
    requires pending.providers[|pending.providers| - 1].id == id
    ensures var last := pending.providers[|pending.providers| - 1];
            var change := Decide(pending.read, last, pending.latest, now, clock);
            Opens(pending, id, now) <==> change.Some? && change.value.Open?
  {
    var n := |pending.providers| - 1;
    FindOpenFinds(pending.read, id);
    forall p | p in pending.providers && p != pending.providers[n] ensures p.id != id {
      var i :| 0 <= i <= n && pending.providers[i] == p;
      assert pending.providers[i].id != pending.providers[n].id;
    }
  }

  // A write adds one open period of a provider when its check decided so, and otherwise none.
  predicate WriteCounts(pending: Pending, table: Table, now: int, clocks: seq<int>, id: ProviderId)
    requires |clocks| == |pending.providers|
  {
    var next := Written(pending.read, table, pending.providers, pending.latest, now, clocks);
    && Extends(pending.read, next) && Extends(table, next)
    && (if Opens(pending, id, now) then OpenCount(next, id) == OpenCount(table, id) + 1
        else OpenCount(next, id) <= OpenCount(table, id))
  }

  function Init(pending: Pending): Pending
    requires pending.providers != []
  {
    pending.(providers := pending.providers[..|pending.providers| - 1])
  }

  lemma WriteCountLast(pending: Pending, table: Table, now: int, clocks: seq<int>, id: ProviderId)
    requires |clocks| == |pending.providers| && DistinctIds(pending.providers) && Extends(pending.read, table)
    requires pending.providers != [] && pending.providers[|pending.providers| - 1].id == id
    ensures WriteCounts(pending, table, now, clocks, id)
  {
    var n, init := |pending.providers| - 1, Init(pending);
    assert forall i | 0 <= i < n :: init.providers[i] == pending.providers[i];
    OthersCount(pending.read, table, init.providers, pending.latest, now, clocks[..n], id);
    OpensLast(pending, id, now, clocks[n]);
    var before := Written(pending.read, table, init.providers, pending.latest, now, clocks[..n]);
    ApplyCount(pending.read, before, pending.providers[n], pending.latest, now, clocks[n], id);
  }

  lemma WriteCountOther(pending: Pending, table: Table, now: int, clocks: seq<int>, id: ProviderId)
    requires |clocks| == |pending.providers|
    requires pending.providers != [] && pending.providers[|pending.providers| - 1].id != id
    requires WriteCounts(Init(pending), table, now, clocks[..|clocks| - 1], id)
    ensures WriteCounts(pending, table, now, clocks, id)
  {
    var n := |pending.providers| - 1;
    SameOpens(pending, id, now);
    var before := Written(pending.read, table, Init(pending).providers, pending.latest, now, clocks[..n]);
    ApplyCount(pending.read, before, pending.providers[n], pending.latest, now, clocks[n], id);
  }

  lemma {:induction false} WriteCount(pending: Pending, table: Table, now: int, clocks: seq<int>, id: ProviderId)
    requires |clocks| == |pending.providers| && DistinctIds(pending.providers) && Extends(pending.read, table)
    ensures WriteCounts(pending, table, now, clocks, id)
    decreases |pending.providers|
  {
    if pending.providers == [] {
      assert !Opens(pending, id, now);
    } else if pending.providers[|pending.providers| - 1].id == id {
      WriteCountLast(pending, table, now, clocks, id);
    } else {
      var init := Init(pending).providers;
      assert forall i | 0 <= i < |init| :: init[i] == pending.providers[i];
      WriteCount(Init(pending), table, now, clocks[..|clocks| - 1], id);
      WriteCountOther(pending, table, now, clocks, id);
    }
  }

  lemma SameOpens(pending: Pending, id: ProviderId, now: int)
    requires pending.providers != [] && pending.providers[|pending.providers| - 1].id != id
    ensures Opens(pending, id, now) <==> Opens(Init(pending), id, now)
  {
    var n := |pending.providers| - 1;
    assert pending.providers == pending.providers[..n] + [pending.providers[n]];
  }

  // On a table with at most one open period of a provider, a write leaves more than one if and only
  // if its check saw the provider problematic, read no open period of it, and there is one by now.
  lemma WriteDoublesIff(pending: Pending, table: Table, now: int, clocks: seq<int>, id: ProviderId)
    requires |clocks| == |pending.providers| && DistinctIds(pending.providers) && Extends(pending.read, table)
    requires OpenCount(table, id) <= 1
    ensures OpenCount(Written(pending.read, table, pending.providers, pending.latest, now, clocks), id) > 1 <==>
              Opens(pending, id, now) && HasOpen(table, id)
  {
    WriteCount(pending, table, now, clocks, id);
    OpenCountPositive(table, id);
  }

  // ----- Runs -----

  predicate PendingInv(st: State) {
    forall check | check in st.pending ::
      DistinctIds(st.pending[check].providers) && Extends(st.pending[check].read, st.table)
  }

  lemma {:induction false} RunKeepsPending(es: seq<Event>)
    requires Legal(es)
    ensures PendingInv(Run(es))
  {
    if es != [] {
      var st, e := Run(es[..|es| - 1]), es[|es| - 1];
      RunKeepsPending(es[..|es| - 1]);
      if e.Write? {
        WriteCount(st.pending[e.check], st.table, e.now, e.clocks, "");
      }
    }
  }

  // The event writes what an earlier write has made wrong.
  predicate Doubles(st: State, e: Event, id: ProviderId) {
    e.Write? && e.check in st.pending && Opens(st.pending[e.check], id, e.now) && HasOpen(st.table, id)
  }

  predicate NeverDoubles(es: seq<Event>, id: ProviderId) {
    es != [] ==> NeverDoubles(es[..|es| - 1], id) && !Doubles(Run(es[..|es| - 1]), es[|es| - 1], id)
  }

  // At no point of the run has the provider two open periods.
  predicate AlwaysSingle(es: seq<Event>, id: ProviderId) {
    OpenCount(Run(es).table, id) <= 1 && (es != [] ==> AlwaysSingle(es[..|es| - 1], id))
  }

  // However checks overlap, a provider never has two open periods if and only if no check writes an
  // opening for it after another one has.
  lemma {:induction false} SingleIff(es: seq<Event>, id: ProviderId)
    requires Legal(es)
    ensures AlwaysSingle(es, id) <==> NeverDoubles(es, id)
  {
    if es != [] {
      var init, e := es[..|es| - 1], es[|es| - 1];
      var st := Run(init);
      SingleIff(init, id);
      RunKeepsPending(init);
      if AlwaysSingle(init, id) && e.Write? {
        WriteDoublesIff(st.pending[e.check], st.table, e.now, e.clocks, id);
      }
    }
  }

  // Nothing is written between a check's read and its write.
  predicate Serial(es: seq<Event>) {
    es != [] ==>
      var st, e := Run(es[..|es| - 1]), es[|es| - 1];
      Serial(es[..|es| - 1]) && (e.Write? && e.check in st.pending ==> st.pending[e.check].read == st.table)
  }

  lemma SerialIsSingle(es: seq<Event>, id: ProviderId)
    requires Legal(es) && Serial(es)
    ensures AlwaysSingle(es, id)
  {
    SerialNeverDoubles(es, id);
    SingleIff(es, id);
  }

  lemma {:induction false} SerialNeverDoubles(es: seq<Event>, id: ProviderId)
    requires Legal(es) && Serial(es)
    ensures NeverDoubles(es, id)
  {
    if es != [] {
      SerialNeverDoubles(es[..|es| - 1], id);
    }
  }

  // Checks ten seconds apart, the first of them slow: both read before either writes.
  function OverlappingRun(p: Provider): seq<Event> {
    [Read(1, [p], map[]), Read(2, [p], map[]), Write(1, 0, [0]), Write(2, 10000, [10000])]
  }

  lemma RunPrefix(es: seq<Event>, n: nat)
    requires n < |es|
    ensures Run(es[..n + 1]) == Step(Run(es[..n]), es[n])
    ensures Legal(es[..n + 1]) <==> Legal(es[..n]) && Enabled(Run(es[..n]), es[n])
  {
    assert es[..n + 1][..n] == es[..n];
  }

  lemma BothRead(p: Provider)
    ensures var es, unopened := OverlappingRun(p), Pending([], [p], map[]);
            Legal(es[..2]) && Run(es[..2]) == State([], map[1 := unopened, 2 := unopened])
  {
    RunPrefix(OverlappingRun(p), 0);
    RunPrefix(OverlappingRun(p), 1);
  }

  lemma FirstWrites(p: Provider)
    ensures var es, unopened := OverlappingRun(p), Pending([], [p], map[]);
            && Legal(es[..3]) && Run(es[..3]).pending == map[2 := unopened]
            && OpenCount(Run(es[..3]).table, p.id) == 1
  {
    BothRead(p);
    RunPrefix(OverlappingRun(p), 2);
    var unopened := Pending([], [p], map[]);
    assert Opens(unopened, p.id, 0) by { assert p in unopened.providers; }
    WriteCount(unopened, [], 0, [0], p.id);
    assert map[1 := unopened, 2 := unopened] - {1} == map[2 := unopened];
  }

  lemma OverlappingChecksOpenTwice(p: Provider)
    ensures Legal(OverlappingRun(p)) && OpenCount(Run(OverlappingRun(p)).table, p.id) == 2
  {
    var es, unopened := OverlappingRun(p), Pending([], [p], map[]);
    FirstWrites(p);
    RunPrefix(es, 3);
    assert es[..4] == es;
    assert Opens(unopened, p.id, 10000) by { assert p in unopened.providers; }
    WriteCount(unopened, Run(es[..3]).table, 10000, [10000], p.id);
  }
}
