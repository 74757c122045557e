/**
  Connection counting with two buffers, by user and by target. One flush empties and saves the
  first, waits, and only then empties and saves the second, while increments keep arriving.
*/
module UsersConnections {
  import opened OrderedMap

  type Id = string

  datatype Target = FixServer | WebsocketServer | Token | Account

  datatype PerServer = PerServer(fix: int, websocket: int)

  datatype Row = UserRow(userId: Id, target: Target, quotesNumber: int) | TargetRow(targetId: Id, target: Target,
      quotesNumber: int)

  type ByUser = seq<Entry<Id, PerServer>>
  type ById = seq<Entry<Id, int>>
  type ByTarget = seq<Entry<Target, ById>>

  // The two targets a user is counted for.
  predicate Complex(target: Target) {
    target.FixServer? || target.WebsocketServer?
  }

  function AddForUser(m: ByUser, userId: Id, target: Target, n: int): ByUser
    requires Complex(target)
  {
    var current := Get(m, userId, PerServer(0, 0));
    Set(m, userId, if target.FixServer? then current.(fix := current.fix + n)
        else current.(websocket := current.websocket + n))
  }

  function AddForTarget(m: ByTarget, target: Target, targetId: Id, n: int): ByTarget {
    var ids := Get(m, target, []);
    Set(m, target, Set(ids, targetId, Get(ids, targetId, 0) + n))
  }

  function UserRows(m: ByUser): seq<Row> {
    if m == [] then []
    else
      RowsOf(m[0].key, m[0].value) + UserRows(m[1..])
  }

  // At most two rows for a user: a count of zero gives none.
  function RowsOf(userId: Id, counts: PerServer): seq<Row> {
    (if counts.fix != 0 then [UserRow(userId, FixServer, counts.fix)] else []) +
    (if counts.websocket != 0 then [UserRow(userId, WebsocketServer, counts.websocket)] else [])
  }

  function IdRows(target: Target, m: ById): seq<Row> {
    if m == [] then [] else [TargetRow(m[0].key, target, m[0].value)] + IdRows(target, m[1..])
  }

  function TargetRows(m: ByTarget): seq<Row> {
    if m == [] then [] else IdRows(m[0].key, m[0].value) + TargetRows(m[1..])
  }

  // A user's rows: one for each server with a count that is not zero, FIX first.
  lemma RowsOfUser(userId: Id, counts: PerServer)
    ensures var fix := UserRow(userId, FixServer, counts.fix);
            var websocket := UserRow(userId, WebsocketServer, counts.websocket);
            && (counts.fix == 0 && counts.websocket == 0 ==> RowsOf(userId, counts) == [])
            && (counts.fix != 0 && counts.websocket == 0 ==> RowsOf(userId, counts) == [fix])
            && (counts.fix == 0 && counts.websocket != 0 ==> RowsOf(userId, counts) == [websocket])
            && (counts.fix != 0 && counts.websocket != 0 ==> RowsOf(userId, counts) == [fix, websocket])
  {
  }

  // The rows of a target: one for each of its ids, in their order, zero or not.
  lemma {:induction false} RowsOfTarget(target: Target, m: ById, i: nat)
    ensures |IdRows(target, m)| == |m|
    ensures i < |m| ==> IdRows(target, m)[i] == TargetRow(m[i].key, target, m[i].value)
  {
    if m != [] {
      RowsOfTarget(target, m[1..], if i == 0 then 0 else i - 1);
    }
  }

  // One turn of each of the three loops.
  lemma UserRowsNext(stats: seq<Row>, m: ByUser, i: nat)
    requires i < |m|
    ensures stats + UserRows(m[i..]) == (stats + RowsOf(m[i].key, m[i].value)) + UserRows(m[i + 1..])
  {
    assert m[i..][1..] == m[i + 1..];
  }

  lemma TargetRowsNext(stats: seq<Row>, m: ByTarget, i: nat)
    requires i < |m|
    ensures stats + TargetRows(m[i..]) == (stats + IdRows(m[i].key, m[i].value)) + TargetRows(m[i + 1..])
  {
    assert m[i..][1..] == m[i + 1..];
  }

  lemma IdRowsNext(stats: seq<Row>, target: Target, m: ById, i: nat)
    requires i < |m|
    ensures stats + IdRows(target, m[i..]) == (stats + [TargetRow(m[i].key, target, m[i].value)]) +
        IdRows(target, m[i + 1..])
  {
    assert m[i..][1..] == m[i + 1..];
  }

  class UsersConnectionsStatisticService {
    var quotesNumberByUser: ByUser
    var quotesNumberByTarget: ByTarget

    constructor ()
      ensures quotesNumberByUser == [] && quotesNumberByTarget == []
    {
      quotesNumberByUser, quotesNumberByTarget := [], [];
    }

    method IncrementQuotesNumber(userId: Id, target: Target, n: int)
      requires Complex(target)
      modifies this
      ensures quotesNumberByUser == AddForUser(old(quotesNumberByUser), userId, target, n)
      ensures quotesNumberByTarget == old(quotesNumberByTarget)
    {
      var currentNumber := Get(quotesNumberByUser, userId, PerServer(0, 0));
      if target.FixServer? {
        currentNumber := currentNumber.(fix := currentNumber.fix + n);
      } else {
        currentNumber := currentNumber.(websocket := currentNumber.websocket + n);
      }
      quotesNumberByUser := Set(quotesNumberByUser, userId, currentNumber);
    }

    method IncrementQuotesNumberByTarget(target: Target, targetId: Id, n: int)
      modifies this
      ensures quotesNumberByTarget == AddForTarget(old(quotesNumberByTarget), target, targetId, n)
      ensures quotesNumberByUser == old(quotesNumberByUser)
    {
      var ids := Get(quotesNumberByTarget, target, []);
      var currentNumber := Get(ids, targetId, 0);
      quotesNumberByTarget := Set(quotesNumberByTarget, target, Set(ids, targetId, currentNumber + n));
    }

    // The flush up to its first await; without user counts it goes on to the second half at once.
    method TakeUserStats() returns (save: bool, stats: seq<Row>)
      modifies this
      ensures save <==> old(quotesNumberByUser) != []
      ensures stats == UserRows(old(quotesNumberByUser))
      ensures quotesNumberByUser == [] && quotesNumberByTarget == old(quotesNumberByTarget)
    {
      stats := [];
      save := |quotesNumberByUser| > 0;
      var i := 0;
      while i < |quotesNumberByUser|
        invariant 0 <= i <= |quotesNumberByUser| && quotesNumberByUser == old(quotesNumberByUser)
        invariant quotesNumberByTarget == old(quotesNumberByTarget)
        invariant stats + UserRows(quotesNumberByUser[i..]) == UserRows(quotesNumberByUser)
      {
        UserRowsNext(stats, quotesNumberByUser, i);
        stats := PushUserRows(stats, quotesNumberByUser[i].key, quotesNumberByUser[i].value);
        i := i + 1;
      }
      quotesNumberByUser := [];
    }

    // The body of that loop for one user.
    method PushUserRows(stats: seq<Row>, userId: Id, counts: PerServer) returns (pushed: seq<Row>)
      ensures pushed == stats + RowsOf(userId, counts)
    {
      pushed := stats;
      if counts.fix != 0 {
        pushed := pushed + [UserRow(userId, FixServer, counts.fix)];
      }
      if counts.websocket != 0 {
        pushed := pushed + [UserRow(userId, WebsocketServer, counts.websocket)];
      }
    }

    // The flush from its first await to its second.
    method TakeTargetStats() returns (save: bool, stats: seq<Row>)
      modifies this
      ensures save <==> old(quotesNumberByTarget) != []
      ensures stats == TargetRows(old(quotesNumberByTarget))
      ensures quotesNumberByTarget == [] && quotesNumberByUser == old(quotesNumberByUser)
    {
      stats := [];
      save := |quotesNumberByTarget| > 0;
      var i := 0;
      while i < |quotesNumberByTarget|
        invariant 0 <= i <= |quotesNumberByTarget| && quotesNumberByTarget == old(quotesNumberByTarget)
        invariant quotesNumberByUser == old(quotesNumberByUser)
        invariant stats + TargetRows(quotesNumberByTarget[i..]) == TargetRows(quotesNumberByTarget)
      {
        TargetRowsNext(stats, quotesNumberByTarget, i);
        stats := PushTargetRows(stats, quotesNumberByTarget[i].key, quotesNumberByTarget[i].value);
        i := i + 1;
      }
      quotesNumberByTarget := [];
    }

    // The body of that loop for one target.
    method PushTargetRows(stats: seq<Row>, target: Target, ids: ById) returns (pushed: seq<Row>)
      ensures pushed == stats + IdRows(target, ids)
    {
      pushed := stats;
      var j := 0;
      while j < |ids|
        invariant 0 <= j <= |ids|
        invariant pushed + IdRows(target, ids[j..]) == stats + IdRows(target, ids)
      {
        IdRowsNext(pushed, target, ids, j);
        pushed := pushed + [TargetRow(ids[j].key, target, ids[j].value)];
        j := j + 1;
      }
    }
  }

  // ----- Runs -----

  // A save under way, and whether the flush has its second half still to do.
  datatype Save = Save(rows: seq<Row>, first: bool)

  datatype State = State(byUser: ByUser, byTarget: ByTarget, saving: seq<Save>, saved: seq<Row>, lost: seq<Row>)

  datatype Event =
    | CountUser(userId: Id, target: Target, n: int)
    | CountTarget(target: Target, targetId: Id, n: int)
    | Flush
    | SaveOk(save: nat)
    | SaveFailed(save: nat) // the whole flush ends: its second half is left for the next one

  const INITIAL := State([], [], [], [], [])

  function SecondHalf(st: State): State {
    if st.byTarget == [] then st else st.(byTarget := [], saving := st.saving + [Save(TargetRows(st.byTarget), false)])
  }

  function Without(saves: seq<Save>, i: nat): seq<Save>
    requires i < |saves|
  {
    saves[..i] + saves[i + 1..]
  }

  function Step(st: State, e: Event): State {
    match e
    case CountUser(userId, target, n) => if Complex(target) then
        st.(byUser := AddForUser(st.byUser, userId, target, n)) else st
    case CountTarget(target, targetId, n) => st.(byTarget := AddForTarget(st.byTarget, target, targetId, n))
    case Flush =>
      if st.byUser == [] then SecondHalf(st)
      else st.(byUser := [], saving := st.saving + [Save(UserRows(st.byUser), true)])
    case SaveOk(i) =>
      if i >= |st.saving| then st
      else
        var done := st.(saving := Without(st.saving, i), saved := st.saved + st.saving[i].rows);
        if st.saving[i].first then SecondHalf(done) else done
    case SaveFailed(i) =>
      if i >= |st.saving| then st
      else st.(saving := Without(st.saving, i), lost := st.lost + st.saving[i].rows)
  }

  function Run(es: seq<Event>): State {
    if es == [] then INITIAL else Step(Run(es[..|es| - 1]), es[|es| - 1])
  }

  // What is counted: a user on a server, or an identifier under a target.
  datatype Key = UserKey(userId: Id, target: Target) | TargetKey(target: Target, targetId: Id)

  function KeyOf(row: Row): Key {
    match row
    case UserRow(userId, target, _) => UserKey(userId, target)
    case TargetRow(targetId, target, _) => TargetKey(target, targetId)
  }

  function Sum(rows: seq<Row>, k: Key): int {
    if rows == [] then 0 else (if KeyOf(rows[0]) == k then rows[0].quotesNumber else 0) + Sum(rows[1..], k)
  }

  function SumSaving(saves: seq<Save>, k: Key): int {
    if saves == [] then 0 else Sum(saves[0].rows, k) + SumSaving(saves[1..], k)
  }

  function PerTarget(counts: PerServer, target: Target): int {
    if target.FixServer? then counts.fix else if target.WebsocketServer? then counts.websocket else 0
  }

  function Buffered(st: State, k: Key): int {
    match k
    case UserKey(userId, target) => PerTarget(Get(st.byUser, userId, PerServer(0, 0)), target)
    case TargetKey(target, targetId) => Get(Get(st.byTarget, target, []), targetId, 0)
  }

  function Counted(es: seq<Event>, k: Key): int {
    if es == [] then 0
    else
      Counted(es[..|es| - 1], k) +
      match es[|es| - 1]
      case CountUser(userId, target, n) =>
        if target in {FixServer, WebsocketServer} && k == UserKey(userId, target) then n else 0
      case CountTarget(target, targetId, n) => if k == TargetKey(target, targetId) then n else 0
      case _ => 0
  }

  ghost predicate Inv(st: State) {
    Functional(st.byUser) && Functional(st.byTarget) && forall e | e in st.byTarget :: Functional(e.value)
  }

  lemma {:induction false} SumAppend(a: seq<Row>, b: seq<Row>, k: Key)
    ensures Sum(a + b, k) == Sum(a, k) + Sum(b, k)
  {
    if a == [] {
      assert a + b == b;
    } else {
      assert (a + b)[1..] == a[1..] + b;
      SumAppend(a[1..], b, k);
    }
  }

  lemma {:induction false} SumSavingAppend(a: seq<Save>, b: seq<Save>, k: Key)
    ensures SumSaving(a + b, k) == SumSaving(a, k) + SumSaving(b, k)
  {
    if a == [] {
      assert a + b == b;
    } else {
      assert (a + b)[1..] == a[1..] + b;
      SumSavingAppend(a[1..], b, k);
    }
  }

  lemma SumSavingWithout(saves: seq<Save>, i: nat, k: Key)
    requires i < |saves|
    ensures SumSaving(Without(saves, i), k) == SumSaving(saves, k) - Sum(saves[i].rows, k)
  {
    SumSavingAppend(saves[..i], saves[i + 1..], k);
    SumSavingAppend(saves[..i], [saves[i]] + saves[i + 1..], k);
    assert saves == saves[..i] + ([saves[i]] + saves[i + 1..]);
  }

  // Skipping zero counts loses nothing.
  lemma {:induction false} UserRowsSum(m: ByUser, k: Key)
    requires Functional(m)
    ensures Sum(UserRows(m), k) == if k.UserKey? then PerTarget(Get(m, k.userId, PerServer(0, 0)), k.target) else 0
  {
    if m != [] {
      SumAppend(RowsOf(m[0].key, m[0].value), UserRows(m[1..]), k);
      FunctionalTail(m);
      UserRowsSum(m[1..], k);
      if k.UserKey? && k.userId == m[0].key {
        AbsentIsDefault(m[1..], m[0].key, PerServer(0, 0));
      }
    }
  }

  lemma {:induction false} IdRowsSum(target: Target, m: ById, k: Key)
    requires Functional(m)
    ensures Sum(IdRows(target, m), k) == if k.TargetKey? && k.target == target then Get(m, k.targetId, 0) else 0
  {
    if m != [] {
      FunctionalTail(m);
      IdRowsSum(target, m[1..], k);
      AbsentIsDefault(m[1..], m[0].key, 0);
    }
  }

  lemma {:induction false} TargetRowsSum(m: ByTarget, k: Key)
    requires Functional(m) && forall e | e in m :: Functional(e.value)
    ensures Sum(TargetRows(m), k) == if k.TargetKey? then Get(Get(m, k.target, []), k.targetId, 0) else 0
  {
    if m != [] {
      SumAppend(IdRows(m[0].key, m[0].value), TargetRows(m[1..]), k);
      IdRowsSum(m[0].key, m[0].value, k);
      FunctionalTail(m);
      TargetRowsSum(m[1..], k);
      AbsentIsDefault(m[1..], m[0].key, []);
    }
  }

  // All there is of a key: saved, buffered, being saved, lost.
  function Everywhere(st: State, k: Key): int {
    Sum(st.saved, k) + Buffered(st, k) + SumSaving(st.saving, k) + Sum(st.lost, k)
  }

  lemma SecondHalfKeeps(st: State, k: Key)
    requires Inv(st)
    ensures Inv(SecondHalf(st)) && Everywhere(SecondHalf(st), k) == Everywhere(st, k)
  {
    TargetRowsSum(st.byTarget, k);
    SumSavingAppend(st.saving, [Save(TargetRows(st.byTarget), false)], k);
  }

  lemma FirstHalfKeeps(st: State, k: Key)
    requires Inv(st)
    ensures Inv(Step(st, Flush)) && Everywhere(Step(st, Flush), k) == Everywhere(st, k)
  {
    if st.byUser == [] {
      SecondHalfKeeps(st, k);
    } else {
      UserRowsSum(st.byUser, k);
      SumSavingAppend(st.saving, [Save(UserRows(st.byUser), true)], k);
    }
  }

  lemma SaveOkKeeps(st: State, i: nat, k: Key)
    requires Inv(st) && i < |st.saving|
    ensures Inv(Step(st, SaveOk(i))) && Everywhere(Step(st, SaveOk(i)), k) == Everywhere(st, k)
  {
    SumSavingWithout(st.saving, i, k);
    SumAppend(st.saved, st.saving[i].rows, k);
    var done := st.(saving := Without(st.saving, i), saved := st.saved + st.saving[i].rows);
    if st.saving[i].first {
      SecondHalfKeeps(done, k);
    }
  }

  lemma CountUserAdds(st: State, userId: Id, target: Target, n: int, k: Key)
    requires Inv(st) && Complex(target)
    ensures var next := Step(st, CountUser(userId, target, n));
            Inv(next) && Everywhere(next, k) == Everywhere(st, k) + if k == UserKey(userId, target) then n else 0
  {
    var current := Get(st.byUser, userId, PerServer(0, 0));
    var updated := if target.FixServer? then current.(fix := current.fix + n)
        else current.(websocket := current.websocket + n);
    SetKeys(st.byUser, userId, updated);
    if k.UserKey? {
      GetSet(st.byUser, userId, updated, k.userId, PerServer(0, 0));
    }
  }

  lemma {:induction false} GetIsEntry(m: ByTarget, target: Target)
    ensures Get(m, target, []) == [] || exists e | e in m :: e.value == Get(m, target, [])
  {
    if m != [] && m[0].key != target {
      GetIsEntry(m[1..], target);
    }
  }

  lemma {:induction false} SetEntries(m: ByTarget, target: Target, ids: ById)
    ensures forall e | e in Set(m, target, ids) :: e in m || e.value == ids
  {
    if m != [] && m[0].key != target {
      SetEntries(m[1..], target, ids);
    }
  }

  lemma CountTargetKeeps(st: State, target: Target, targetId: Id, n: int)
    requires Inv(st)
    ensures Inv(Step(st, CountTarget(target, targetId, n)))
  {
    var ids := Get(st.byTarget, target, []);
    var updated := Set(ids, targetId, Get(ids, targetId, 0) + n);
    GetIsEntry(st.byTarget, target);
    SetKeys(ids, targetId, Get(ids, targetId, 0) + n);
    SetKeys(st.byTarget, target, updated);
    SetEntries(st.byTarget, target, updated);
  }

  lemma CountTargetAdds(st: State, target: Target, targetId: Id, n: int, k: Key)
    requires Inv(st)
    ensures var next := Step(st, CountTarget(target, targetId, n));
            Inv(next) && Everywhere(next, k) == Everywhere(st, k) + if k == TargetKey(target, targetId) then n else 0
  {
    var ids := Get(st.byTarget, target, []);
    CountTargetKeeps(st, target, targetId, n);
    if k.TargetKey? {
      GetSet(st.byTarget, target, Set(ids, targetId, Get(ids, targetId, 0) + n), k.target, []);
      GetSet(ids, targetId, Get(ids, targetId, 0) + n, k.targetId, 0);
    }
  }

  // For both buffers, per key and under every interleaving of increments with the two awaits of
  // the flush: what is saved, buffered, being saved and lost to failed saves is what was counted.
  lemma {:induction false} ConnectionsConserved(es: seq<Event>, k: Key)
    ensures Inv(Run(es)) && Everywhere(Run(es), k) == Counted(es, k)
  {
    if es != [] {
      var init, e := es[..|es| - 1], es[|es| - 1];
      var st := Run(init);
      ConnectionsConserved(init, k);
      match e
      case CountUser(userId, target, n) => if Complex(target) { CountUserAdds(st, userId, target, n, k); }
      case CountTarget(target, targetId, n) => CountTargetAdds(st, target, targetId, n, k);
      case Flush => FirstHalfKeeps(st, k);
      case SaveOk(i) => if i < |st.saving| { SaveOkKeeps(st, i, k); }
      case SaveFailed(i) =>
        if i < |st.saving| {
          SumSavingWithout(st.saving, i, k);
          SumAppend(st.lost, st.saving[i].rows, k);
        }
    }
  }

  // What a flush does at once: the user counts go, or else, if there are none, the target counts.
  lemma FlushTakes(es: seq<Event>)
    ensures var st, next := Run(es), Run(es + [Flush]);
            && next.saved == st.saved && next.lost == st.lost && next.byUser == []
            && (st.byUser != [] ==>
                  next.byTarget == st.byTarget && next.saving == st.saving + [Save(UserRows(st.byUser), true)])
            && (st.byUser == [] ==> TargetsTaken(st, next))
  {
    assert (es + [Flush])[..|es|] == es;
  }

  // The target counts are handed over, if there are any.
  predicate TargetsTaken(st: State, next: State) {
    && next.byTarget == [] && next.byUser == st.byUser
    && next.saving == st.saving + if st.byTarget == [] then [] else [Save(TargetRows(st.byTarget), false)]
  }

  // What the end of a save does: its rows are in the table, or lost; and the second half of a flush
  // follows if and only if this was its first half and went well.
  lemma SaveEnds(es: seq<Event>, i: nat, ok: bool)
    requires i < |Run(es).saving|
    ensures var st, next := Run(es), Run(es + [if ok then SaveOk(i) else SaveFailed(i)]);
            var rest := st.(saving := st.saving[..i] + st.saving[i + 1..]);
            && next.saved == st.saved + (if ok then st.saving[i].rows else [])
            && next.lost == st.lost + (if ok then [] else st.saving[i].rows)
            && (if ok && st.saving[i].first then TargetsTaken(rest, next)
                else next.saving == rest.saving && next.byUser == st.byUser && next.byTarget == st.byTarget)
  {
    var st, e := Run(es), if ok then SaveOk(i) else SaveFailed(i);
    assert (es + [e])[..|es|] == es;
    assert st.saved + [] == st.saved && st.lost + [] == st.lost;
    assert Without(st.saving, i) + [] == Without(st.saving, i);
  }

  // With successful saves and none under way, the table and the buffers hold every increment.
  lemma SavedPlusBuffered(es: seq<Event>, k: Key)
    requires forall i | 0 <= i < |es| :: !es[i].SaveFailed?
    requires Run(es).saving == []
    ensures Sum(Run(es).saved, k) + Buffered(Run(es), k) == Counted(es, k)
  {
    ConnectionsConserved(es, k);
    NothingLost(es);
  }

  lemma {:induction false} NothingLost(es: seq<Event>)
    requires forall i | 0 <= i < |es| :: !es[i].SaveFailed?
    ensures Run(es).lost == []
  {
    if es != [] {
      NothingLost(es[..|es| - 1]);
    }
  }
}
