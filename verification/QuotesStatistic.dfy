/**
  Quote counting: increments go to an in-memory buffer; a flush empties it and saves the rows,
  while further increments arrive. The flush is split at its await: `BeginSave` is what runs
  before it, and the outcome of the save is an event.
*/
module QuotesStatistic {
  import opened OrderedMap

  type Provider = string

  datatype Row = Row(provider: Provider, quotesNumber: int)

  type Buffer = seq<Entry<Provider, int>>

  function Incremented(buffer: Buffer, provider: Provider, n: int): Buffer {
    Set(buffer, provider, Get(buffer, provider, 0) + n)
  }

  function Rows(buffer: Buffer): seq<Row> {
    seq(|buffer|, i requires 0 <= i < |buffer| => Row(buffer[i].key, buffer[i].value))
  }

  class QuotesStatisticService {
    var quotesNumberByProvider: Buffer

    constructor ()
      ensures quotesNumberByProvider == []
    {
      quotesNumberByProvider := [];
    }

    method IncrementQuotesNumber(provider: Provider, n: int)
      modifies this
      ensures quotesNumberByProvider == Incremented(old(quotesNumberByProvider), provider, n)
    {
      var currentNumber := Get(quotesNumberByProvider, provider, 0);
      quotesNumberByProvider := Set(quotesNumberByProvider, provider, currentNumber + n);
    }

    // Returns what is handed to the repository; nothing is saved for an empty buffer.
    method BeginSave() returns (save: bool, stats: seq<Row>)
      modifies this
      ensures save <==> old(quotesNumberByProvider) != []
      ensures stats == Rows(old(quotesNumberByProvider))
      ensures |stats| == |old(quotesNumberByProvider)| && forall i | 0 <= i < |stats| ::
                stats[i] == Row(old(quotesNumberByProvider)[i].key, old(quotesNumberByProvider)[i].value)
      ensures quotesNumberByProvider == []
    {
      stats := [];
      save := |quotesNumberByProvider| > 0;
      if save {
        for i := 0 to |quotesNumberByProvider|
          invariant stats == Rows(quotesNumberByProvider[..i])
        {
          stats := stats + [Row(quotesNumberByProvider[i].key, quotesNumberByProvider[i].value)];
        }
        assert quotesNumberByProvider[..|quotesNumberByProvider|] == quotesNumberByProvider;
        quotesNumberByProvider := [];
      }
    }
  }

  // ----- Runs -----

  datatype State = State(buffer: Buffer, saving: seq<seq<Row>>, saved: seq<Row>, lost: seq<Row>)

  datatype Event =
    | Increment(provider: Provider, n: int)
    | Flush
    | SaveOk(batch: nat)     // one of the saves under way succeeds
    | SaveFailed(batch: nat)

  function Remove(batches: seq<seq<Row>>, i: nat): seq<seq<Row>>
    requires i < |batches|
  {
    batches[..i] + batches[i + 1..]
  }

  function Step(st: State, e: Event): State {
    match e
    case Increment(provider, n) => st.(buffer := Incremented(st.buffer, provider, n))
    case Flush => if st.buffer == [] then st else st.(buffer := [], saving := st.saving + [Rows(st.buffer)])
    case SaveOk(i) => if i < |st.saving| then st.(saving := Remove(st.saving, i), saved := st.saved + st.saving[i])
        else st
    case SaveFailed(i) => if i < |st.saving| then
        st.(saving := Remove(st.saving, i), lost := st.lost + st.saving[i]) else st
  }

  function Run(es: seq<Event>): State {
    if es == [] then State([], [], [], []) else Step(Run(es[..|es| - 1]), es[|es| - 1])
  }

  function Sum(rows: seq<Row>, p: Provider): int {
    if rows == [] then 0 else (if rows[0].provider == p then rows[0].quotesNumber else 0) + Sum(rows[1..], p)
  }

  function SumAll(batches: seq<seq<Row>>, p: Provider): int {
    if batches == [] then 0 else Sum(batches[0], p) + SumAll(batches[1..], p)
  }

  // What the run counted for p.
  function Counted(es: seq<Event>, p: Provider): int {
    if es == [] then 0
    else
      var e := es[|es| - 1];
      Counted(es[..|es| - 1], p) + if e.Increment? && e.provider == p then e.n else 0
  }

  lemma {:induction false} SumAppend(a: seq<Row>, b: seq<Row>, p: Provider)
    ensures Sum(a + b, p) == Sum(a, p) + Sum(b, p)
  {
    if a == [] {
      assert a + b == b;
    } else {
      assert (a + b)[1..] == a[1..] + b;
      SumAppend(a[1..], b, p);
    }
  }

  lemma {:induction false} SumAllAppend(a: seq<seq<Row>>, b: seq<seq<Row>>, p: Provider)
    ensures SumAll(a + b, p) == SumAll(a, p) + SumAll(b, p)
  {
    if a == [] {
      assert a + b == b;
    } else {
      assert (a + b)[1..] == a[1..] + b;
      SumAllAppend(a[1..], b, p);
    }
  }

  lemma SumAllRemove(batches: seq<seq<Row>>, i: nat, p: Provider)
    requires i < |batches|
    ensures SumAll(Remove(batches, i), p) == SumAll(batches, p) - Sum(batches[i], p)
  {
    SumAllAppend(batches[..i], batches[i + 1..], p);
    SumAllAppend(batches[..i], [batches[i]] + batches[i + 1..], p);
    assert batches == batches[..i] + ([batches[i]] + batches[i + 1..]);
  }

  // The rows of a flush carry, per provider, exactly what the buffer held.
  lemma {:induction false} RowsSum(buffer: Buffer, p: Provider)
    requires Functional(buffer)
    ensures Sum(Rows(buffer), p) == Get(buffer, p, 0)
  {
    if buffer != [] {
      assert Rows(buffer)[1..] == Rows(buffer[1..]);
      FunctionalTail(buffer);
      RowsSum(buffer[1..], p);
      AbsentIsDefault(buffer[1..], buffer[0].key, 0);
    }
  }

  // Nothing is dropped and nothing counted twice, however increments, flushes and saves
  // interleave: saved, buffered, being saved and lost to a failed save add up to what was counted.
  lemma {:induction false} QuotesConserved(es: seq<Event>, p: Provider)
    ensures var st := Run(es);
            && Functional(st.buffer)
            && Sum(st.saved, p) + Get(st.buffer, p, 0) + SumAll(st.saving, p) + Sum(st.lost, p) == Counted(es, p)
  {
    if es != [] {
      var init, e := es[..|es| - 1], es[|es| - 1];
      var st := Run(init);
      QuotesConserved(init, p);
      match e
      case Increment(provider, n) =>
        SetKeys(st.buffer, provider, Get(st.buffer, provider, 0) + n);
        GetSet(st.buffer, provider, Get(st.buffer, provider, 0) + n, p, 0);
      case Flush =>
        RowsSum(st.buffer, p);
        SumAllAppend(st.saving, [Rows(st.buffer)], p);
      case SaveOk(i) =>
        if i < |st.saving| {
          SumAllRemove(st.saving, i, p);
          SumAppend(st.saved, st.saving[i], p);
        }
      case SaveFailed(i) =>
        if i < |st.saving| {
          SumAllRemove(st.saving, i, p);
          SumAppend(st.lost, st.saving[i], p);
        }
    }
  }

  // A flush leaves nothing behind: one save of what was buffered begins, unless there was nothing.
  lemma FlushTakesAll(es: seq<Event>, p: Provider)
    ensures var st, next := Run(es), Run(es + [Flush]);
            && next.buffer == [] && next.saved == st.saved && next.lost == st.lost
            && (st.buffer == [] ==> next.saving == st.saving)
            && (st.buffer != [] ==>
                  && |next.saving| == |st.saving| + 1 && next.saving[..|st.saving|] == st.saving
                  && Sum(next.saving[|st.saving|], p) == Get(st.buffer, p, 0))
  {
    assert (es + [Flush])[..|es|] == es;
    QuotesConserved(es, p);
    RowsSum(Run(es).buffer, p);
  }

  // A save that ends is no longer under way: its rows are in the table, or lost.
  lemma SaveEnds(es: seq<Event>, i: nat, ok: bool)
    requires i < |Run(es).saving|
    ensures var st, next := Run(es), Run(es + [if ok then SaveOk(i) else SaveFailed(i)]);
            && next.saving == st.saving[..i] + st.saving[i + 1..] && next.buffer == st.buffer
            && next.saved == st.saved + (if ok then st.saving[i] else [])
            && next.lost == st.lost + (if ok then [] else st.saving[i])
  {
    var st, e := Run(es), if ok then SaveOk(i) else SaveFailed(i);
    assert (es + [e])[..|es|] == es;
    assert st.saved + [] == st.saved && st.lost + [] == st.lost;
  }

  // With successful saves, once all saves are done the table and the buffer hold every increment.
  lemma SavedPlusBuffered(es: seq<Event>, p: Provider)
    requires forall i | 0 <= i < |es| :: !es[i].SaveFailed?
    requires Run(es).saving == []
    ensures Sum(Run(es).saved, p) + Get(Run(es).buffer, p, 0) == Counted(es, p)
  {
    QuotesConserved(es, p);
    NothingLost(es);
  }

  lemma {:induction false} NothingLost(es: seq<Event>)
    requires forall i | 0 <= i < |es| :: !es[i].SaveFailed?
    ensures Run(es).lost == []
  {
    if es != [] {
      NothingLost(es[..|es| - 1]);
    }
  }
}
