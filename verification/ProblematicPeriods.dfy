/**
  The recorder of problematic periods. A row is a period of one provider, open while it has no
  end; its position in the table is its id. A check reads the open periods and the clock, decides
  for each provider, and then writes all changes at once; the start of a new period is read from
  the clock again when it is decided. The read and the write are apart: here checks follow one
  another, and `ConcurrentChecks` lets them overlap.
*/
module ProblematicPeriods {
  import opened Common
  import opened Monitoring

  datatype Period = Period(provider: ProviderId, start: int, end: Option<int>)

  type Table = seq<Period>

  datatype Change = Open(provider: ProviderId, at: int) | Close(row: nat, at: int)

  // The open period of a provider: of several, the last one the query returns.
  function FindOpen(table: Table, id: ProviderId): Option<nat> {
    if table == [] then None
    else
      var n := |table| - 1;
      if table[n].provider == id && table[n].end.None? then Some(n) else FindOpen(table[..n], id)
  }

  function Decide(table: Table, provider: Provider, latest: map<ProviderId, int>, now: int,
      clock: int): Option<Change> {
    var problematic := Problematic(provider, Latest(latest, provider.id), now);
    match FindOpen(table, provider.id)
    case None => if problematic then Some(Open(provider.id, clock)) else None
    case Some(row) => if problematic then None else Some(Close(row, now))
  }

  function Apply(table: Table, change: Option<Change>): Table {
    match change
    case Some(Open(provider, at)) => table + [Period(provider, at, None)]
    case Some(Close(row, at)) => if row < |table| then table[row := table[row].(end := Some(at))] else table
    case None => table
  }

  // The table after writing what was decided for the first n providers, all on the table as read.
  function Written(read: Table, table: Table, providers: seq<Provider>, latest: map<ProviderId, int>, now: int,
      clocks: seq<int>): Table
    requires |clocks| == |providers|
    decreases |providers|
  {
    if providers == [] then table
    else
      var n := |providers| - 1;
      Apply(Written(read, table, providers[..n], latest, now, clocks[..n]),
          Decide(read, providers[n], latest, now, clocks[n]))
  }

  function ApplyAll(table: Table, changes: seq<Change>): Table {
    if changes == [] then table else Apply(ApplyAll(table, changes[..|changes| - 1]), Some(changes[|changes| - 1]))
  }

  // What is decided for each provider, on the table as read.
  function Decisions(read: Table, providers: seq<Provider>, latest: map<ProviderId, int>, now: int, clocks: seq<int>):
      seq<Change>
    requires |clocks| == |providers|
    decreases |providers|
  {
    if providers == [] then []
    else
      var n := |providers| - 1;
      var change := Decide(read, providers[n], latest, now, clocks[n]);
      Decisions(read, providers[..n], latest, now, clocks[..n]) + if change.Some? then [change.value] else []
  }

  // Writing the decisions, to whatever the table has become, is what `Written` says.
  lemma {:induction false} WrittenIsDecisions(
      read: Table, table: Table, providers: seq<Provider>, latest: map<ProviderId, int>, now: int, clocks: seq<int>)
    requires |clocks| == |providers|
    ensures ApplyAll(table, Decisions(read, providers, latest, now, clocks)) ==
            Written(read, table, providers, latest, now, clocks)
    decreases |providers|
  {
    if providers != [] {
      var n := |providers| - 1;
      WrittenIsDecisions(read, table, providers[..n], latest, now, clocks[..n]);
      var init := Decisions(read, providers[..n], latest, now, clocks[..n]);
      var change := Decide(read, providers[n], latest, now, clocks[n]);
      if change.Some? {
        assert (init + [change.value])[..|init|] == init;
      } else {
        assert Decisions(read, providers, latest, now, clocks) == init;
      }
    }
  }

  class PeriodRecorder {
    var table: Table

    constructor ()
      ensures table == []
    {
      table := [];
    }

    method GetOpenProblematicPeriods(providers: seq<Provider>) returns (open: map<ProviderId, nat>)
      ensures forall p | p in providers :: (if p.id in open then Some(open[p.id]) else None) == FindOpen(table, p.id)
    {
      open := map[];
      for i := 0 to |table|
        invariant forall p | p in providers ::
                    (if p.id in open then Some(open[p.id]) else None) == FindOpen(table[..i], p.id)
      {
        assert table[..i + 1][..i] == table[..i];
        if table[i].end.None? {
          open := open[table[i].provider := i];
        }
      }
      assert table[..|table|] == table;
    }

    // What runs between the two awaits: no state is read or written but the open periods found.
    method DecideChanges(
        ghost read: Table, open: map<ProviderId, nat>, providers: seq<Provider>, latest: map<ProviderId, int>,
        now: int, clocks: seq<int>)
      returns (changes: seq<Change>)
      requires |clocks| == |providers|
      requires forall p | p in providers :: (if p.id in open then Some(open[p.id]) else None) == FindOpen(read, p.id)
      ensures changes == Decisions(read, providers, latest, now, clocks)
    {
      changes := [];
      for i := 0 to |providers|
        invariant changes == Decisions(read, providers[..i], latest, now, clocks[..i])
      {
        assert providers[..i + 1][..i] == providers[..i] && clocks[..i + 1][..i] == clocks[..i];
        var p := providers[i];
        assert (if p.id in open then Some(open[p.id]) else None) == FindOpen(read, p.id);
        var isProblematic := p.id !in latest || now - latest[p.id] > 1000 * p.threshold;
        if isProblematic && p.id !in open {
          changes := changes + [Open(p.id, clocks[i])];
        } else if !isProblematic && p.id in open {
          changes := changes + [Close(open[p.id], now)];
        }
      }
      assert providers[..|providers|] == providers && clocks[..|clocks|] == clocks;
    }

    method SaveChanges(changes: seq<Change>)
      modifies this
      ensures table == ApplyAll(old(table), changes)
    {
      for i := 0 to |changes|
        invariant table == ApplyAll(old(table), changes[..i])
      {
        assert changes[..i + 1][..i] == changes[..i];
        match changes[i]
        case Open(provider, at) => table := table + [Period(provider, at, None)];
        case Close(row, at) => if row < |table| { table := table[row := table[row].(end := Some(at))]; }
      }
      assert changes[..|changes|] == changes;
    }

    // A check that no other one overlaps.
    method UpdateProblematicPeriods(
        providers: seq<Provider>, latest: map<ProviderId, int>, now: int, clocks: seq<int>)
      requires |clocks| == |providers|
      modifies this
      ensures table == Written(old(table), old(table), providers, latest, now, clocks)
    {
      var open := GetOpenProblematicPeriods(providers);
      var changes := DecideChanges(table, open, providers, latest, now, clocks);
      WrittenIsDecisions(table, table, providers, latest, now, clocks);
      SaveChanges(changes);
    }
  }

  // ----- Invariant -----

  // Periods are well-formed and over by T; a provider's periods are ordered, disjoint, and all
  // but its last are closed.
  predicate Sound(table: Table, T: int) {
    && (forall i | 0 <= i < |table| ::
          table[i].start <= T && (table[i].end.Some? ==> table[i].start <= table[i].end.value <= T))
    && (forall i, j | 0 <= i < j < |table| && table[i].provider == table[j].provider ::
          table[i].end.Some? && table[i].end.value < table[j].start)
  }

  predicate HasOpen(table: Table, id: ProviderId) {
    exists i | 0 <= i < |table| :: table[i].provider == id && table[i].end.None?
  }

  lemma {:induction false} FindOpenFinds(table: Table, id: ProviderId)
    ensures var found := FindOpen(table, id);
            && (found.Some? <==> HasOpen(table, id))
            && (found.Some? ==>
                  found.value < |table| && table[found.value].provider == id && table[found.value].end.None?)
  {
    if table != [] {
      var n := |table| - 1;
      if table[n].provider == id && table[n].end.None? {
        assert HasOpen(table, id);
      } else {
        FindOpenFinds(table[..n], id);
        if HasOpen(table[..n], id) {
          var i :| 0 <= i < n && table[..n][i].provider == id && table[..n][i].end.None?;
          assert table[i].provider == id;
        }
      }
    }
  }

  predicate Listed(providers: seq<Provider>, id: ProviderId) {
    exists i | 0 <= i < |providers| :: providers[i].id == id
  }

  // What has happened to the table as read once the changes of `done` are written.
  predicate Progress(read: Table, table: Table, done: seq<Provider>) {
    && |read| <= |table|
    && (forall i | 0 <= i < |read| ::
          table[i].provider == read[i].provider && (!Listed(done, read[i].provider) ==> table[i] == read[i]))
    && (forall i | |read| <= i < |table| :: Listed(done, table[i].provider))
  }

  // One more provider's change, while its own rows are still as they were read.
  lemma OpenKeeps(read: Table, table: Table, done: seq<Provider>, id: ProviderId, T: int, now: int, clock: int, T': int)
    requires Sound(read, T) && Sound(table, T') && Progress(read, table, done) && !Listed(done, id)
    requires T < now <= clock <= T' && !HasOpen(read, id)
    ensures Sound(table + [Period(id, clock, None)], T')
  {
    var next := table + [Period(id, clock, None)];
    forall i | 0 <= i < |table| && next[i].provider == id ensures next[i].end.Some? && next[i].end.value < clock {
      assert i < |read| && table[i] == read[i];
    }
  }

  lemma CloseKeeps(read: Table, table: Table, done: seq<Provider>, row: nat, T: int, now: int, T': int)
    requires Sound(read, T) && Sound(table, T') && Progress(read, table, done)
    requires row < |read| && read[row].end.None? && !Listed(done, read[row].provider)
    requires T < now <= T'
    ensures Sound(table[row := table[row].(end := Some(now))], T')
  {
    var next := table[row := table[row].(end := Some(now))];
    assert table[row] == read[row];
    forall i | row < i < |table| ensures next[i].provider != next[row].provider {
      if i < |read| {
        assert read[i].provider != read[row].provider;
      } else {
        assert Listed(done, table[i].provider);
      }
    }
  }

  lemma {:induction false} WrittenKeeps(read: Table, providers: seq<Provider>, latest: map<ProviderId, int>,
      now: int, clocks: seq<int>, T: int, T': int)
    requires |clocks| == |providers| && DistinctIds(providers)
    requires Sound(read, T) && T < now <= T' && forall i | 0 <= i < |clocks| :: now <= clocks[i] <= T'
    ensures var table := Written(read, read, providers, latest, now, clocks);
            && Sound(table, T') && Progress(read, table, providers)
            && (forall p | p in providers :: HasOpen(table, p.id) <==> Problematic(p, Latest(latest, p.id), now))
    decreases |providers|
  {
    if providers != [] {
      var n := |providers| - 1;
      var init, p := providers[..n], providers[n];
      WrittenKeeps(read, init, latest, now, clocks[..n], T, T');
      var before := Written(read, read, init, latest, now, clocks[..n]);
      var change := Decide(read, p, latest, now, clocks[n]);
      var after := Apply(before, change);
      assert !Listed(init, p.id);
      FindOpenFinds(read, p.id);
      if change.Some? {
        match change.value
        case Open(_, _) => OpenKeeps(read, before, init, p.id, T, now, clocks[n], T');
        case Close(row, _) => CloseKeeps(read, before, init, row, T, now, T');
      }
      ProgressStep(read, before, after, providers, change);
      OpenIffProblematic(read, before, providers, latest, now, clocks[n], T, T');
    }
  }

  // A check never rewrites history: it closes open periods now, and adds open ones that start when
  // they were decided.
  lemma {:induction false} WrittenIsDated(read: Table, providers: seq<Provider>, latest: map<ProviderId, int>,
      now: int, clocks: seq<int>)
    requires |clocks| == |providers|
    ensures var table := Written(read, read, providers, latest, now, clocks);
            && |read| <= |table|
            && (forall i | 0 <= i < |read| ::
                  table[i] == read[i] || (read[i].end.None? && table[i] == read[i].(end := Some(now))))
            && (forall i | |read| <= i < |table| ::
                  exists j | 0 <= j < |providers| :: table[i] == Period(providers[j].id, clocks[j], None))
    decreases |providers|
  {
    if providers != [] {
      var n := |providers| - 1;
      WrittenIsDated(read, providers[..n], latest, now, clocks[..n]);
      FindOpenFinds(read, providers[n].id);
      assert forall j | 0 <= j < n :: providers[..n][j] == providers[j] && clocks[..n][j] == clocks[j];
    }
  }

  lemma ProgressStep(read: Table, before: Table, after: Table, providers: seq<Provider>, change: Option<Change>)
    requires providers != [] && Progress(read, before, providers[..|providers| - 1])
    requires after == Apply(before, change)
    requires change.Some? ==>
               match change.value
               case Open(id, _) => id == providers[|providers| - 1].id
               case Close(row, _) => row < |read| && read[row].provider == providers[|providers| - 1].id
    ensures Progress(read, after, providers)
  {
    var n := |providers| - 1;
    forall id | Listed(providers[..n], id) ensures Listed(providers, id) {
      var i :| 0 <= i < n && providers[..n][i].id == id;
      assert providers[i].id == id;
    }
    assert Listed(providers, providers[n].id);
  }

  lemma OpenIffProblematic(read: Table, before: Table, providers: seq<Provider>, latest: map<ProviderId, int>,
      now: int, clock: int, T: int, T': int)
    requires providers != [] && DistinctIds(providers)
    requires Sound(read, T) && Progress(read, before, providers[..|providers| - 1])
    requires forall p | p in providers[..|providers| - 1] :: HasOpen(before, p.id) <==>
        Problematic(p, Latest(latest, p.id), now)
    ensures var after := Apply(before, Decide(read, providers[|providers| - 1], latest, now, clock));
            forall p | p in providers :: HasOpen(after, p.id) <==> Problematic(p, Latest(latest, p.id), now)
  {
    var n := |providers| - 1;
    var last := providers[n];
    var change := Decide(read, last, latest, now, clock);
    var after := Apply(before, change);
    FindOpenFinds(read, last.id);
    assert !Listed(providers[..n], last.id);
    SameOpen(read, before, providers[..n], last.id);
    if change.Some? && change.value.Open? {
      assert after[|before|].provider == last.id && after[|before|].end.None?;
    }
    if change.Some? && change.value.Close? {
      forall i | 0 <= i < |after| && after[i].provider == last.id ensures after[i].end.Some? {
        assert i < |read|;
      }
    }
    forall p | p in providers && p != last ensures HasOpen(after, p.id) <==> Problematic(p, Latest(latest, p.id), now) {
      var i :| 0 <= i < n && providers[i] == p;
      assert providers[..n][i] == p;
      OtherOpen(before, change, last.id, p.id, read);
    }
  }

  lemma SameOpen(read: Table, before: Table, done: seq<Provider>, id: ProviderId)
    requires Progress(read, before, done) && !Listed(done, id)
    ensures HasOpen(before, id) <==> HasOpen(read, id)
  {
    if HasOpen(read, id) {
      var i :| 0 <= i < |read| && read[i].provider == id && read[i].end.None?;
      assert before[i] == read[i];
    }
    if HasOpen(before, id) {
      var i :| 0 <= i < |before| && before[i].provider == id && before[i].end.None?;
      assert i < |read| && before[i] == read[i];
    }
  }

  // A change for one provider leaves the others' periods alone.
  lemma OtherOpen(before: Table, change: Option<Change>, changed: ProviderId, id: ProviderId, read: Table)
    requires id != changed
    requires change.Some? ==>
               match change.value
               case Open(provider, _) => provider == changed
               case Close(row, _) => row < |before| && before[row].provider == changed
    ensures HasOpen(Apply(before, change), id) <==> HasOpen(before, id)
  {
    var after := Apply(before, change);
    if HasOpen(before, id) {
      var i :| 0 <= i < |before| && before[i].provider == id && before[i].end.None?;
      assert after[i] == before[i];
    }
    if HasOpen(after, id) {
      var i :| 0 <= i < |after| && after[i].provider == id && after[i].end.None?;
      assert before[i] == after[i];
    }
  }

  // ----- Runs -----

  datatype Check = Check(providers: seq<Provider>, latest: map<ProviderId, int>, now: int, clocks: seq<int>, end: int)

  // One check at a time: distinct providers, clock readings in order, everything over by `end`.
  predicate Proper(c: Check) {
    |c.clocks| == |c.providers| && DistinctIds(c.providers) && c.now <= c.end &&
        forall i | 0 <= i < |c.clocks| :: c.now <= c.clocks[i] <= c.end
  }

  // Each check begins strictly after the one before it ended.
  predicate Legal(checks: seq<Check>) {
    (forall i | 0 <= i < |checks| :: Proper(checks[i])) && forall i | 0 <= i < |checks| - 1 ::
        checks[i].end < checks[i + 1].now
  }

  function Run(checks: seq<Check>): Table
    requires Legal(checks)
  {
    if checks == [] then []
    else
      var c := checks[|checks| - 1];
      var table := Run(checks[..|checks| - 1]);
      Written(table, table, c.providers, c.latest, c.now, c.clocks)
  }

  lemma {:induction false} RunIsSound(checks: seq<Check>)
    requires Legal(checks) && checks != []
    ensures Sound(Run(checks), checks[|checks| - 1].end)
  {
    if |checks| > 1 {
      RunIsSound(checks[..|checks| - 1]);
    }
    LastCheckKeeps(checks);
  }

  // The last check begins on a sound table.
  lemma LastCheckKeeps(checks: seq<Check>)
    requires Legal(checks) && checks != []
    requires |checks| > 1 ==> Sound(Run(checks[..|checks| - 1]), checks[|checks| - 2].end)
    ensures var c, before, table := checks[|checks| - 1], Run(checks[..|checks| - 1]), Run(checks);
            && Sound(table, c.end) && Progress(before, table, c.providers)
            && (forall p | p in c.providers :: HasOpen(table, p.id) <==> Problematic(p, Latest(c.latest, p.id), c.now))
  {
    var n := |checks| - 1;
    var c := checks[n];
    if n > 0 {
      assert checks[n - 1].end < checks[n - 1 + 1].now;
      WrittenKeeps(Run(checks[..n]), c.providers, c.latest, c.now, c.clocks, checks[n - 1].end, c.end);
    } else {
      assert Sound([], c.now - 1);
      assert Run(checks[..n]) == [];
      WrittenKeeps([], c.providers, c.latest, c.now, c.clocks, c.now - 1, c.end);
    }
  }

  // After every check of every run: a listed provider has an open period exactly when it was
  // problematic at that check; the rows of others are untouched; no provider has two open
  // periods; and its periods are well-formed, in order and disjoint.
  lemma PeriodsFollowChecks(checks: seq<Check>)
    requires Legal(checks) && checks != []
    ensures var c, before, table := checks[|checks| - 1], Run(checks[..|checks| - 1]), Run(checks);
            && (forall p | p in c.providers ::
                  HasOpen(table, p.id) <==> p.id !in c.latest || c.now - c.latest[p.id] > 1000 * p.threshold)
            && (forall i | 0 <= i < |before| && !Listed(c.providers, before[i].provider) ::
                  i < |table| && table[i] == before[i])
            && (forall i, j | 0 <= i < j < |table| && table[i].provider == table[j].provider ::
                  table[i].end.Some? && table[i].start <= table[i].end.value < table[j].start)
  {
    if |checks| > 1 {
      RunIsSound(checks[..|checks| - 1]);
    }
    LastCheckKeeps(checks);
  }
}
