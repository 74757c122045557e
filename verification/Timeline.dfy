/**
  The timelines of the three statistics services: the bucket width, the generated series of
  buckets, and the sum of the records in each. Times are microseconds since the epoch, in UTC.
  A week has an origin of its own on each side: the client library's for the series, and the
  database's for truncation.
*/
module Timeline {

  datatype Unit = Second | Minute | Hour | Day | Week

  const SECOND := 1000000
  const TARGET_BARS := 75

  function Width(u: Unit): (w: int)
    ensures w > 0
  {
    match u
    case Second => SECOND
    case Minute => 60 * SECOND
    case Hour => 3600 * SECOND
    case Day => 86400 * SECOND
    case Week => 604800 * SECOND
  }

  function DetermineInterval(start: int, end: int): Unit {
    var span := end - start;
    if span <= TARGET_BARS * Width(Second) then Second
    else if span <= TARGET_BARS * Width(Minute) then Minute
    else if span <= TARGET_BARS * Width(Hour) then Hour
    else if span <= TARGET_BARS * Width(Day) then Day
    else Week
  }

  // Units shorter than a week are aligned to the epoch.
  function Origin(u: Unit, weekOrigin: int): int {
    if u == Week then weekOrigin else 0
  }

  // The start of the unit containing t.
  function Truncate(t: int, u: Unit, weekOrigin: int): int {
    t - (t - Origin(u, weekOrigin)) % Width(u)
  }

  // from, from + w, ... up to and including `to`.
  function Series(from: int, to: int, w: int): seq<int>
    requires w > 0
    decreases if from > to then 0 else to - from + 1
  {
    if from > to then [] else [from] + Series(from + w, to, w)
  }

  // A record counts `amount` under a key: a provider, a user and target, or a log level.
  datatype Record<K> = Record(key: K, createdAt: int, amount: int)

  datatype Cell<K> = Cell(key: K, startTime: int, endTime: int, records: int)

  // A timeline request: the range, and where weeks begin for the series and for the database.
  datatype Query = Query(start: int, end: int, seriesWeek: int, databaseWeek: int) {
    function Interval(): Unit {
      DetermineInterval(start, end)
    }

    function Ticks(): seq<int> {
      Series(Truncate(start, Interval(), seriesWeek), Truncate(end, Interval(), seriesWeek), Width(Interval()))
    }

    // The join condition of a record with a bucket.
    predicate InBucket(createdAt: int, tick: int) {
      Truncate(createdAt, Interval(), databaseWeek) == tick && start <= createdAt <= end
    }
  }

  function CellSum<K(==)>(q: Query, records: seq<Record<K>>, key: K, tick: int): int {
    if records == [] then 0
    else
      var r := records[0];
      (if r.key == key && q.InBucket(r.createdAt, tick) then r.amount else 0) + CellSum(q, records[1..], key, tick)
  }

  // The cells of one bucket, one per key.
  function CellsAt<K(==)>(q: Query, records: seq<Record<K>>, keys: seq<K>, tick: int): seq<Cell<K>> {
    if keys == [] then []
    else
      [Cell(keys[0], tick, tick + Width(q.Interval()), CellSum(q, records, keys[0], tick))]
      + CellsAt(q, records, keys[1..], tick)
  }

  function Cells<K(==)>(q: Query, records: seq<Record<K>>, keys: seq<K>, ticks: seq<int>): seq<Cell<K>> {
    if ticks == [] then [] else CellsAt(q, records, keys, ticks[0]) + Cells(q, records, keys, ticks[1..])
  }

  function GetTimeline<K(==)>(q: Query, records: seq<Record<K>>, keys: seq<K>): seq<Cell<K>> {
    Cells(q, records, keys, q.Ticks())
  }

  // ----- The interval -----

  predicate Finer(u: Unit, v: Unit) {
    Width(u) < Width(v)
  }

  // Up to 75 weeks, the unit chosen is the finest that shows the range in at most 75 units;
  // beyond, it is the week.
  lemma FinestUnit(start: int, end: int, u: Unit)
    ensures var span, chosen := end - start, DetermineInterval(start, end);
            && (span <= TARGET_BARS * Width(Week) ==>
                  (chosen == u <==> span <= TARGET_BARS * Width(u) && forall v | Finer(v, u) ::
                      span > TARGET_BARS * Width(v)))
            && (span > TARGET_BARS * Width(Week) ==> chosen == Week)
  {
    match u
    case Second =>
    case Minute => assert Finer(Second, Minute);
    case Hour => assert Finer(Second, Hour) && Finer(Minute, Hour);
    case Day => assert Finer(Second, Day) && Finer(Minute, Day) && Finer(Hour, Day);
    case Week => assert Finer(Second, Week) && Finer(Minute, Week) && Finer(Hour, Week) && Finer(Day, Week);
  }

  // The unit by the length of the range: seconds up to 75 seconds, minutes up to 75 minutes, and so on.
  lemma UnitWidth(start: int, end: int)
    ensures var span := end - start;
            Width(DetermineInterval(start, end)) ==
            if span <= 75_000_000 then 1_000_000
            else if span <= 75 * 60_000_000 then 60_000_000
            else if span <= 75 * 3600_000_000 then 3600_000_000
            else if span <= 75 * 86400_000_000 then 86400_000_000
            else 7 * 86400_000_000
  {
  }

  lemma {:induction false} SeriesTicks(from: int, n: nat, w: int, k: nat)
    requires w > 0 && k <= n
    ensures |Series(from, from + w * n, w)| == n + 1
    ensures Series(from, from + w * n, w)[k] == from + w * k
    decreases n
  {
    assert w * n >= 0;
    if n == 0 {
      assert from + w > from;
    } else {
      assert from + w * n == (from + w) + w * (n - 1);
      SeriesTicks(from + w, n - 1, w, if k == 0 then 0 else k - 1);
      if k > 0 {
        assert from + w * k == (from + w) + w * (k - 1);
      }
    }
  }

  // How many whole units t is after the origin.
  function Index(t: int, u: Unit, weekOrigin: int): int {
    (t - Origin(u, weekOrigin)) / Width(u)
  }

  lemma TruncateIsIndex(t: int, u: Unit, weekOrigin: int)
    ensures Truncate(t, u, weekOrigin) == Origin(u, weekOrigin) + Width(u) * Index(t, u, weekOrigin)
    ensures Truncate(t, u, weekOrigin) <= t < Truncate(t, u, weekOrigin) + Width(u)
  {
    var d, w := t - Origin(u, weekOrigin), Width(u);
    assert d == w * (d / w) + d % w;
  }

  lemma DivBounds(a: int, w: int)
    requires w > 0
    ensures w * (a / w) <= a < w * (a / w) + w
  {
    assert a == w * (a / w) + a % w;
  }

  lemma MulMono(w: int, x: int, y: int)
    requires w > 0 && x <= y
    ensures w * x <= w * y
  {
    assert w * y - w * x == w * (y - x);
  }

  lemma MulAdd(w: int, x: int, y: int)
    ensures w * (x + y) == w * x + w * y
  {
  }

  lemma DivSpanLow(a: int, b: int, w: int, low: nat)
    requires w > 0 && b - a >= w * low
    ensures b / w >= a / w + low
  {
    DivBounds(a, w);
    DivBounds(b, w);
    if b / w + 1 <= a / w + low {
      MulMono(w, b / w + 1, a / w + low);
      MulAdd(w, b / w, 1);
      MulAdd(w, a / w, low);
    }
  }

  lemma DivSpanHigh(a: int, b: int, w: int, high: nat)
    requires w > 0 && b - a <= w * high
    ensures b / w <= a / w + high
  {
    DivBounds(a, w);
    DivBounds(b, w);
    if a / w + (high + 1) <= b / w {
      MulMono(w, a / w + (high + 1), b / w);
      MulAdd(w, a / w, high + 1);
      MulAdd(w, high, 1);
    }
  }

  lemma IndexSpan(start: int, end: int, u: Unit, weekOrigin: int)
    requires start <= end
    ensures 0 <= Index(end, u, weekOrigin) - Index(start, u, weekOrigin)
    ensures end - start <= TARGET_BARS * Width(u) ==>
        Index(end, u, weekOrigin) - Index(start, u, weekOrigin) <= TARGET_BARS
    ensures end - start >= Width(u) ==> Index(end, u, weekOrigin) - Index(start, u, weekOrigin) >= 1
  {
    var o, w := Origin(u, weekOrigin), Width(u);
    DivSpanLow(start - o, end - o, w, 0);
    if end - start >= w {
      DivSpanLow(start - o, end - o, w, 1);
    }
    if end - start <= TARGET_BARS * w {
      DivSpanHigh(start - o, end - o, w, TARGET_BARS);
    }
  }

  // The k-th bucket of a request starts k units after the bucket of its start.
  lemma TickAt(q: Query, k: nat)
    requires q.start <= q.end
    requires k <= Index(q.end, q.Interval(), q.seriesWeek) - Index(q.start, q.Interval(), q.seriesWeek)
    ensures |q.Ticks()| == Index(q.end, q.Interval(), q.seriesWeek) - Index(q.start, q.Interval(), q.seriesWeek) + 1
    ensures q.Ticks()[k] == Origin(q.Interval(), q.seriesWeek) +
        Width(q.Interval()) * (Index(q.start, q.Interval(), q.seriesWeek) + k)
  {
    var u := q.Interval();
    var i, j := Index(q.start, u, q.seriesWeek), Index(q.end, u, q.seriesWeek);
    TruncateIsIndex(q.start, u, q.seriesWeek);
    TruncateIsIndex(q.end, u, q.seriesWeek);
    var from := Truncate(q.start, u, q.seriesWeek);
    assert Width(u) * j == Width(u) * i + Width(u) * (j - i);
    assert Width(u) * (i + k) == Width(u) * i + Width(u) * k;
    SeriesTicks(from, j - i, Width(u), k);
  }

  // However the range is aligned, it is shown in at most 76 buckets, and in at least two when
  // the unit is coarser than a second.
  lemma TickCount(q: Query)
    requires q.start <= q.end && q.end - q.start <= TARGET_BARS * Width(Week)
    ensures 1 <= |q.Ticks()| <= TARGET_BARS + 1
    ensures q.Interval() != Second ==> |q.Ticks()| >= 2
  {
    IndexSpan(q.start, q.end, q.Interval(), q.seriesWeek);
    TickAt(q, 0);
  }

  // An empty series is what an inverted range gives once its ends fall in different units.
  lemma InvertedRange(q: Query)
    requires q.end < q.start
    ensures q.Interval() == Second
    ensures q.Ticks() == [] <==> Truncate(q.end, Second, q.seriesWeek) < Truncate(q.start, Second, q.seriesWeek)
  {
  }

  // ----- The partition -----

  // The series and the database cut the range at the same instants.
  predicate Aligned(q: Query) {
    (q.seriesWeek - q.databaseWeek) % Width(Week) == 0 || q.Interval() != Week
  }

  lemma AlignedTruncate(q: Query, t: int)
    requires Aligned(q)
    ensures Truncate(t, q.Interval(), q.seriesWeek) == Truncate(t, q.Interval(), q.databaseWeek)
  {
  }

  // A record in the range belongs to the k-th bucket of the series, and to no other.
  lemma BucketOf(q: Query, createdAt: int) returns (k: nat)
    requires Aligned(q) && q.start <= createdAt <= q.end
    ensures k < |q.Ticks()| && q.InBucket(createdAt, q.Ticks()[k])
    ensures q.Ticks()[k] <= createdAt < q.Ticks()[k] + Width(q.Interval())
    ensures forall i | 0 <= i < |q.Ticks()| && i != k :: !q.InBucket(createdAt, q.Ticks()[i])
  {
    var u := q.Interval();
    IndexSpan(q.start, createdAt, u, q.seriesWeek);
    IndexSpan(createdAt, q.end, u, q.seriesWeek);
    k := Index(createdAt, u, q.seriesWeek) - Index(q.start, u, q.seriesWeek);
    TickAt(q, k);
    TruncateIsIndex(createdAt, u, q.seriesWeek);
    AlignedTruncate(q, createdAt);
    forall i | 0 <= i < |q.Ticks()| && i != k ensures q.Ticks()[i] != q.Ticks()[k] {
      TickAt(q, i);
      SameProduct(Width(u), Index(q.start, u, q.seriesWeek) + i, Index(q.start, u, q.seriesWeek) + k);
    }
  }

  lemma SameProduct(w: int, a: int, b: int)
    requires w > 0 && a != b
    ensures w * a != w * b
  {
    if a < b {
      assert w * b == w * a + w * (b - a) && w * (b - a) > 0;
    } else {
      assert w * a == w * b + w * (a - b) && w * (a - b) > 0;
    }
  }

  function Total<K>(cells: seq<Cell<K>>): int {
    if cells == [] then 0 else cells[0].records + Total(cells[1..])
  }

  // What the range holds under the keys asked for.
  function RangeSum<K(==)>(q: Query, records: seq<Record<K>>, keys: seq<K>): int {
    if records == [] then 0
    else
      var r := records[0];
      (if r.key in keys && q.start <= r.createdAt <= q.end then r.amount else 0) + RangeSum(q, records[1..], keys)
  }

  lemma {:induction false} TotalAppend<K>(a: seq<Cell<K>>, b: seq<Cell<K>>)
    ensures Total(a + b) == Total(a) + Total(b)
  {
    if a == [] {
      assert a + b == b;
    } else {
      assert (a + b)[1..] == a[1..] + b;
      TotalAppend(a[1..], b);
    }
  }

  predicate Distinct<K(==)>(keys: seq<K>) {
    forall i, j | 0 <= i < j < |keys| :: keys[i] != keys[j]
  }

  // One record adds its amount to the cells of one bucket, once.
  lemma {:induction false} CellsAtSum<K>(q: Query, records: seq<Record<K>>, keys: seq<K>, tick: int)
    requires records != [] && Distinct(keys)
    ensures var r := records[0];
            Total(CellsAt(q, records, keys, tick)) ==
            Total(CellsAt(q, records[1..], keys, tick)) + if r.key in keys &&
                q.InBucket(r.createdAt, tick) then r.amount else 0
  {
    if keys != [] {
      forall i, j | 0 <= i < j < |keys[1..]| ensures keys[1..][i] != keys[1..][j] { assert keys[i + 1] != keys[j + 1]; }
      forall i | 0 <= i < |keys[1..]| ensures keys[1..][i] != keys[0] { assert keys[1..][i] == keys[i + 1]; }
      CellsAtSum(q, records, keys[1..], tick);
    }
  }

  // What a record adds to the cells of the given ticks.
  function Share<K>(q: Query, r: Record<K>, ticks: seq<int>): int {
    if ticks == [] then 0 else (if q.InBucket(r.createdAt, ticks[0]) then r.amount else 0) + Share(q, r, ticks[1..])
  }

  lemma {:induction false} CellsSum<K>(q: Query, records: seq<Record<K>>, keys: seq<K>, ticks: seq<int>)
    requires records != [] && Distinct(keys)
    ensures var r := records[0];
            Total(Cells(q, records, keys, ticks)) ==
            Total(Cells(q, records[1..], keys, ticks)) + if r.key in keys then Share(q, r, ticks) else 0
  {
    if ticks != [] {
      TotalAppend(CellsAt(q, records, keys, ticks[0]), Cells(q, records, keys, ticks[1..]));
      TotalAppend(CellsAt(q, records[1..], keys, ticks[0]), Cells(q, records[1..], keys, ticks[1..]));
      CellsAtSum(q, records, keys, ticks[0]);
      CellsSum(q, records, keys, ticks[1..]);
    }
  }

  lemma {:induction false} NoShare<K>(q: Query, r: Record<K>, ticks: seq<int>)
    requires forall i | 0 <= i < |ticks| :: !q.InBucket(r.createdAt, ticks[i])
    ensures Share(q, r, ticks) == 0
  {
    if ticks != [] {
      assert !q.InBucket(r.createdAt, ticks[0]);
      forall i | 0 <= i < |ticks[1..]| ensures !q.InBucket(r.createdAt, ticks[1..][i]) {
        assert ticks[1..][i] == ticks[i + 1];
      }
      NoShare(q, r, ticks[1..]);
    }
  }

  lemma {:induction false} OneShare<K>(q: Query, r: Record<K>, ticks: seq<int>, k: nat)
    requires k < |ticks| && q.InBucket(r.createdAt, ticks[k])
    requires forall i | 0 <= i < |ticks| && i != k :: !q.InBucket(r.createdAt, ticks[i])
    ensures Share(q, r, ticks) == r.amount
    decreases k
  {
    forall i | 0 <= i < |ticks[1..]| ensures ticks[1..][i] == ticks[i + 1] {}
    if k == 0 {
      NoShare(q, r, ticks[1..]);
    } else {
      assert !q.InBucket(r.createdAt, ticks[0]);
      OneShare(q, r, ticks[1..], k - 1);
    }
  }

  // When both sides agree on weeks, or the unit is shorter, the cells partition the range: their
  // sum is the sum over the range, whatever the records and the keys.
  lemma {:induction false} TimelinePartition<K>(q: Query, records: seq<Record<K>>, keys: seq<K>)
    requires Aligned(q) && Distinct(keys)
    ensures Total(GetTimeline(q, records, keys)) == RangeSum(q, records, keys)
  {
    if records == [] {
      EmptyTotal(q, records, keys, q.Ticks());
    } else {
      var r := records[0];
      TimelinePartition(q, records[1..], keys);
      CellsSum(q, records, keys, q.Ticks());
      if q.start <= r.createdAt <= q.end {
        var k := BucketOf(q, r.createdAt);
        OneShare(q, r, q.Ticks(), k);
      } else {
        NoShare(q, r, q.Ticks());
      }
    }
  }

  lemma {:induction false} EmptyTotal<K>(q: Query, records: seq<Record<K>>, keys: seq<K>, ticks: seq<int>)
    requires records == []
    ensures Total(Cells(q, records, keys, ticks)) == 0
  {
    if ticks != [] {
      TotalAppend(CellsAt(q, records, keys, ticks[0]), Cells(q, records, keys, ticks[1..]));
      EmptyRow(q, records, keys, ticks[0]);
      EmptyTotal(q, records, keys, ticks[1..]);
    }
  }

  lemma {:induction false} EmptyRow<K>(q: Query, records: seq<Record<K>>, keys: seq<K>, tick: int)
    requires records == []
    ensures Total(CellsAt(q, records, keys, tick)) == 0
  {
    if keys != [] {
      EmptyRow(q, records, keys[1..], tick);
    }
  }

  // When they disagree, no record is in any bucket.
  lemma MisalignedBucket(q: Query, createdAt: int, i: nat)
    requires !Aligned(q) && q.start <= q.end && i < |q.Ticks()|
    ensures !q.InBucket(createdAt, q.Ticks()[i])
  {
    TickAt(q, 0);
    TickAt(q, i);
    TruncateIsIndex(createdAt, Week, q.databaseWeek);
    var a, b := Index(createdAt, Week, q.databaseWeek), Index(q.start, Week, q.seriesWeek) + i;
    assert (Width(Week) * (a - b)) % Width(Week) == 0;
    assert Width(Week) * (a - b) == Width(Week) * a - Width(Week) * b;
  }

  lemma {:induction false} MisalignedIsEmpty<K>(q: Query, records: seq<Record<K>>, keys: seq<K>)
    requires !Aligned(q) && q.start <= q.end && Distinct(keys)
    ensures Total(GetTimeline(q, records, keys)) == 0
  {
    if records == [] {
      EmptyTotal(q, records, keys, q.Ticks());
    } else {
      MisalignedIsEmpty(q, records[1..], keys);
      CellsSum(q, records, keys, q.Ticks());
      forall i | 0 <= i < |q.Ticks()| ensures !q.InBucket(records[0].createdAt, q.Ticks()[i]) {
        MisalignedBucket(q, records[0].createdAt, i);
      }
      NoShare(q, records[0], q.Ticks());
    }
  }

  // The cells add up to the range for every table exactly when the two sides are aligned.
  lemma PartitionIff(q: Query)
    requires q.start <= q.end
    ensures Aligned(q) <==>
              forall records: seq<Record<int>> :: Total(GetTimeline(q, records, [0])) == RangeSum(q, records, [0])
  {
    if Aligned(q) {
      forall records: seq<Record<int>> ensures Total(GetTimeline(q, records, [0])) == RangeSum(q, records, [0]) {
        TimelinePartition(q, records, [0]);
      }
    } else {
      var one := [Record(0, q.start, 1)];
      MisalignedIsEmpty(q, one, [0]);
      assert RangeSum(q, one, [0]) == 1;
      assert Total(GetTimeline(q, one, [0])) != RangeSum(q, one, [0]);
    }
  }

  // ----- What a cell holds -----

  // The amounts of the records with the key, in the range, created from `from` on and before `to`.
  function Amount<K(==)>(records: seq<Record<K>>, key: K, start: int, end: int, from: int, to: int): int {
    if records == [] then 0
    else
      var r := records[0];
      (if r.key == key && start <= r.createdAt <= end && from <= r.createdAt < to then r.amount else 0)
      + Amount(records[1..], key, start, end, from, to)
  }

  lemma {:induction false} SeriesAt(from: int, to: int, w: int, k: nat)
    requires w > 0 && k < |Series(from, to, w)|
    ensures Series(from, to, w)[k] == from + w * k
    decreases k
  {
    if k > 0 {
      SeriesAt(from + w, to, w, k - 1);
      assert from + w * k == (from + w) + w * (k - 1);
    }
  }

  // A bucket takes exactly the records of the range from its start up to its end.
  lemma InBucketIff(q: Query, createdAt: int, k: nat)
    requires Aligned(q) && k < |q.Ticks()|
    ensures q.InBucket(createdAt, q.Ticks()[k]) <==>
              && q.start <= createdAt <= q.end
              && q.Ticks()[k] <= createdAt < q.Ticks()[k] + Width(q.Interval())
  {
    var u := q.Interval();
    var first := Truncate(q.start, u, q.seriesWeek);
    SeriesAt(first, Truncate(q.end, u, q.seriesWeek), Width(u), k);
    TruncateIsIndex(q.start, u, q.seriesWeek);
    TruncateIsIndex(createdAt, u, q.seriesWeek);
    AlignedTruncate(q, createdAt);
    MulAdd(Width(u), Index(q.start, u, q.seriesWeek), k);
    SameMultiple(Width(u), Index(createdAt, u, q.seriesWeek), Index(q.start, u, q.seriesWeek) + k);
  }

  lemma SameMultiple(w: int, a: int, b: int)
    requires w > 0
    ensures w * a < w * b + w && w * b < w * a + w ==> a == b
  {
    if a < b {
      MulMono(w, a + 1, b);
      MulAdd(w, a, 1);
    } else if b < a {
      MulMono(w, b + 1, a);
      MulAdd(w, b, 1);
    }
  }

  lemma {:induction false} CellSumIsAmount<K>(q: Query, records: seq<Record<K>>, key: K, k: nat)
    requires Aligned(q) && k < |q.Ticks()|
    ensures var tick := q.Ticks()[k];
            CellSum(q, records, key, tick) == Amount(records, key, q.start, q.end, tick, tick + Width(q.Interval()))
  {
    if records != [] {
      InBucketIff(q, records[0].createdAt, k);
      CellSumIsAmount(q, records[1..], key, k);
    }
  }

  lemma {:induction false} CellsAtIndex<K>(q: Query, records: seq<Record<K>>, keys: seq<K>, tick: int, j: nat)
    ensures |CellsAt(q, records, keys, tick)| == |keys|
    ensures j < |keys| ==>
              CellsAt(q, records, keys, tick)[j] ==
              Cell(keys[j], tick, tick + Width(q.Interval()), CellSum(q, records, keys[j], tick))
    decreases |keys|
  {
    if keys != [] {
      CellsAtIndex(q, records, keys[1..], tick, if j == 0 then 0 else j - 1);
    }
  }

  lemma {:induction false} CellsIndex<K>(q: Query, records: seq<Record<K>>, keys: seq<K>, ticks: seq<int>, t: nat,
      j: nat)
    requires t < |ticks| && j < |keys|
    ensures |Cells(q, records, keys, ticks)| == |ticks| * |keys|
    ensures 0 <= t * |keys| + j < |ticks| * |keys|
    ensures Cells(q, records, keys, ticks)[t * |keys| + j] ==
            Cell(keys[j], ticks[t], ticks[t] + Width(q.Interval()), CellSum(q, records, keys[j], ticks[t]))
    decreases |ticks|
  {
    CellsLength(q, records, keys, ticks);
    InGrid(|ticks|, |keys|, t, j);
    CellsAtIndex(q, records, keys, ticks[0], j);
    if t > 0 {
      CellsIndex(q, records, keys, ticks[1..], t - 1, j);
      CellsLater(q, records, keys, ticks, t * |keys| + j);
    }
  }

  lemma InGrid(m: nat, n: nat, t: nat, j: nat)
    requires t < m && j < n
    ensures 0 <= t * n + j < m * n
    ensures t > 0 ==> t * n + j - n == (t - 1) * n + j >= 0
  {
    MulMono(n, t + 1, m);
    MulMono(n, 0, t);
    if t > 0 {
      MulMono(n, 0, t - 1);
    }
  }

  lemma CellsLater<K>(q: Query, records: seq<Record<K>>, keys: seq<K>, ticks: seq<int>, i: nat)
    requires ticks != [] && |keys| <= i < |Cells(q, records, keys, ticks)|
    ensures i - |keys| < |Cells(q, records, keys, ticks[1..])|
    ensures Cells(q, records, keys, ticks)[i] == Cells(q, records, keys, ticks[1..])[i - |keys|]
  {
    CellsAtIndex(q, records, keys, ticks[0], 0);
  }

  lemma {:induction false} CellsLength<K>(q: Query, records: seq<Record<K>>, keys: seq<K>, ticks: seq<int>)
    ensures |Cells(q, records, keys, ticks)| == |ticks| * |keys|
  {
    if ticks != [] {
      CellsAtIndex(q, records, keys, ticks[0], 0);
      CellsLength(q, records, keys, ticks[1..]);
    }
  }

  // The answer has one cell per bucket and key, bucket by bucket. The buckets follow one another from
  // the one the range starts in, and each cell holds what was recorded under its key between its
  // start and its end, within the range.
  lemma TimelineCell<K>(q: Query, records: seq<Record<K>>, keys: seq<K>, t: nat, j: nat)
    requires Aligned(q) && t < |q.Ticks()| && j < |keys|
    ensures var cells, w := GetTimeline(q, records, keys), Width(q.Interval());
            && |cells| == |q.Ticks()| * |keys| && t * |keys| + j < |cells|
            && var cell := cells[t * |keys| + j];
               && cell.key == keys[j] && cell.endTime == cell.startTime + w
               && cell.startTime == cells[0].startTime + w * t
               && cells[0].startTime <= q.start < cells[0].startTime + w
               && cell.records == Amount(records, keys[j], q.start, q.end, cell.startTime, cell.endTime)
  {
    CellsIndex(q, records, keys, q.Ticks(), t, j);
    CellsIndex(q, records, keys, q.Ticks(), 0, 0);
    CellSumIsAmount(q, records, keys[j], t);
    var u := q.Interval();
    TruncateIsIndex(q.start, u, q.seriesWeek);
    SeriesAt(Truncate(q.start, u, q.seriesWeek), Truncate(q.end, u, q.seriesWeek), Width(u), t);
    SeriesAt(Truncate(q.start, u, q.seriesWeek), Truncate(q.end, u, q.seriesWeek), Width(u), 0);
  }

  // No two cells are for the same key and time.
  lemma OneCell<K>(q: Query, records: seq<Record<K>>, keys: seq<K>, t: nat, j: nat, t': nat, j': nat)
    requires Aligned(q) && Distinct(keys) && t < |q.Ticks()| && j < |keys| && t' < |q.Ticks()| && j' < |keys|
    ensures |GetTimeline(q, records, keys)| == |q.Ticks()| * |keys|
    ensures t * |keys| + j < |q.Ticks()| * |keys| && t' * |keys| + j' < |q.Ticks()| * |keys|
    ensures var c, d := GetTimeline(q, records, keys)[t * |keys| + j], GetTimeline(q, records, keys)[t' * |keys| + j'];
            c.key == d.key && c.startTime == d.startTime <==> t == t' && j == j'
  {
    TimelineCell(q, records, keys, t, j);
    TimelineCell(q, records, keys, t', j');
    if t != t' {
      SameProduct(Width(q.Interval()), t, t');
    }
  }

  // The first Monday and the first Sunday around the epoch, a Thursday.
  const MONDAY := -3 * 86400 * SECOND
  const SUNDAY := 3 * 86400 * SECOND

  // A series of weeks that begin on Sunday never meets a database whose weeks begin on Monday.
  lemma SundayWeeksAreEmpty(start: int, end: int, records: seq<Record<int>>, keys: seq<int>)
    requires start <= end && DetermineInterval(start, end) == Week && Distinct(keys)
    ensures Total(GetTimeline(Query(start, end, SUNDAY, MONDAY), records, keys)) == 0
  {
    MisalignedIsEmpty(Query(start, end, SUNDAY, MONDAY), records, keys);
  }
}
