/** Session-aligned aggregation of 30-minute bars (market_pipeline_lib/processing.py)
    and the derived-bar checks of quality.py. Times are minutes. */
module DerivedBars {
  import opened Common

  /** One observed 30-minute provider bar. */
  datatype Source = Source(instrument: nat, start: int, session: int, open: real, high: real, low: real, close: real,
                           volume: int, trades: Option<int>, vwap: Option<real>)

  /** The columns a longer bar carries, and their merge in time order. */
  datatype Columns = Columns(open: real, high: real, low: real, close: real, volume: int, trades: Option<int>, minutes: int)

  datatype Derived = Derived(instrument: nat, start: int, session: int, columns: Columns, vwap: Option<real>)

  datatype Resolution = OneHour | FourHours | OneDay

  type Bounds = (int, int)

  function Higher(a: real, b: real): real { if a < b then b else a }

  function Lower(a: real, b: real): real { if a < b then a else b }

  function AddTrades(a: Option<int>, b: Option<int>): Option<int> {
    if a.None? then b else if b.None? then a else Some(a.value + b.value)
  }

  function Merge(a: Columns, b: Columns): Columns {
    Columns(a.open, Higher(a.high, b.high), Lower(a.low, b.low), b.close, a.volume + b.volume,
            AddTrades(a.trades, b.trades), a.minutes + b.minutes)
  }

  // ---- one bucket ------------------------------------------------------------------------

  function MaxHigh(rows: seq<Source>): real
    requires rows != []
  {
    if |rows| == 1 then rows[0].high else Higher(rows[0].high, MaxHigh(rows[1..]))
  }

  function MinLow(rows: seq<Source>): real
    requires rows != []
  {
    if |rows| == 1 then rows[0].low else Lower(rows[0].low, MinLow(rows[1..]))
  }

  function SumVolume(rows: seq<Source>): int {
    if rows == [] then 0 else rows[0].volume + SumVolume(rows[1..])
  }

  /** Sum of the present counts, absent when no row has one. */
  function SumTrades(rows: seq<Source>): Option<int> {
    if rows == [] then None else AddTrades(rows[0].trades, SumTrades(rows[1..]))
  }

  function Weight(rows: seq<Source>): int {
    if rows == [] then 0 else (if rows[0].vwap.Some? then rows[0].volume else 0) + Weight(rows[1..])
  }

  function Times(price: real, volume: real): real {
    price * volume
  }

  function WeightedSum(rows: seq<Source>): real {
    if rows == [] then 0.0
    else (if rows[0].vwap.Some? then Times(rows[0].vwap.value, rows[0].volume as real) else 0.0) + WeightedSum(rows[1..])
  }

  /** Volume-weighted over the rows that have a VWAP, absent without positive weight. */
  function Vwap(rows: seq<Source>): Option<real> {
    if Weight(rows) > 0 then Some(WeightedSum(rows) / Weight(rows) as real) else None
  }

  function ColumnsOf(rows: seq<Source>): Columns
    requires rows != []
  {
    Columns(rows[0].open, MaxHigh(rows), MinLow(rows), rows[|rows| - 1].close, SumVolume(rows), SumTrades(rows), |rows| * 30)
  }

  function Aggregate(rows: seq<Source>): Derived
    requires rows != []
  {
    Derived(rows[0].instrument, rows[0].start, rows[0].session, ColumnsOf(rows), Vwap(rows))
  }

  lemma {:induction false} MergeSplits(a: seq<Source>, b: seq<Source>)
    requires a != [] && b != []
    ensures ColumnsOf(a + b) == Merge(ColumnsOf(a), ColumnsOf(b))
  {
    if |a| == 1 {
      assert (a + b)[1..] == b && a[1..] == [];
      assert SumVolume(a) == a[0].volume && SumTrades(a) == a[0].trades;
    } else {
      MergeSplits(a[1..], b);
      assert (a + b)[1..] == a[1..] + b;
    }
  }

  ghost predicate Ordered(c: Columns) {
    c.low <= c.open <= c.high && c.low <= c.close <= c.high
  }

  ghost predicate OrderedSource(r: Source) {
    r.low <= r.open <= r.high && r.low <= r.close <= r.high
  }

  lemma {:induction false} ExtremesCoverRows(rows: seq<Source>)
    requires rows != []
    ensures forall r :: r in rows ==> MinLow(rows) <= r.low && r.high <= MaxHigh(rows)
  {
    if |rows| > 1 { ExtremesCoverRows(rows[1..]); }
  }

  /** High and low are those of some row, and no row exceeds them. */
  lemma {:induction false} ExtremesAreReached(rows: seq<Source>) returns (top: Source, bottom: Source)
    requires rows != []
    ensures top in rows && top.high == MaxHigh(rows) && bottom in rows && bottom.low == MinLow(rows)
  {
    if |rows| == 1 {
      top, bottom := rows[0], rows[0];
    } else {
      top, bottom := ExtremesAreReached(rows[1..]);
      if top.high <= rows[0].high { top := rows[0]; }
      if bottom.low >= rows[0].low { bottom := rows[0]; }
    }
  }

  /** Aggregation keeps low <= open, close <= high. */
  lemma AggregateStaysOrdered(rows: seq<Source>)
    requires rows != [] && forall r :: r in rows ==> OrderedSource(r)
    ensures Ordered(ColumnsOf(rows))
  {
    ExtremesCoverRows(rows);
    var first, last := rows[0], rows[|rows| - 1];
    assert first in rows && last in rows;
  }

  ghost predicate VwapInBar(r: Source) {
    r.volume >= 0 && (r.vwap.Some? ==> r.low <= r.vwap.value <= r.high)
  }

  lemma StepWithin(v: real, w: real, low: real, high: real, weight: real)
    requires w >= 0.0 && low <= v <= high
    ensures Times(low, w + weight) - Times(low, weight) <= Times(v, w) <= Times(high, w + weight) - Times(high, weight)
  {
    assert (v - low) * w >= 0.0;
    assert (high - v) * w >= 0.0;
  }

  lemma {:induction false} WeightedSumWithin(rows: seq<Source>, low: real, high: real)
    requires forall r :: r in rows ==> VwapInBar(r) && low <= r.low && r.high <= high
    ensures Times(low, Weight(rows) as real) <= WeightedSum(rows) <= Times(high, Weight(rows) as real)
  {
    if rows == [] {
      assert Times(low, 0.0) == 0.0 && Times(high, 0.0) == 0.0;
    } else {
      hide Times;
      WeightedSumWithin(rows[1..], low, high);
      var r := rows[0];
      assert r in rows && VwapInBar(r);
      if r.vwap.Some? {
        StepWithin(r.vwap.value, r.volume as real, low, high, Weight(rows[1..]) as real);
      }
    }
  }

  /** A present VWAP lies inside the bar when every source VWAP lies inside its own. */
  lemma VwapStaysInBar(rows: seq<Source>)
    requires rows != [] && forall r :: r in rows ==> VwapInBar(r)
    ensures Vwap(rows).Some? ==> ColumnsOf(rows).low <= Vwap(rows).value <= ColumnsOf(rows).high
  {
    ExtremesCoverRows(rows);
    WeightedSumWithin(rows, MinLow(rows), MaxHigh(rows));
    hide Times, Weight, WeightedSum, MinLow, MaxHigh;
    if Weight(rows) > 0 {
      DivideWithin(WeightedSum(rows), Weight(rows) as real, MinLow(rows), MaxHigh(rows));
    }
  }

  lemma DivideWithin(s: real, w: real, low: real, high: real)
    requires w > 0.0 && Times(low, w) <= s <= Times(high, w)
    ensures low <= s / w <= high
  {
    var q := s / w;
    assert Times(q, w) == s;
    TimesKeepsOrder(low, q, w);
    TimesKeepsOrder(q, high, w);
  }

  lemma TimesKeepsOrder(a: real, b: real, w: real)
    requires w > 0.0
    ensures Times(a, w) <= Times(b, w) ==> a <= b
  {
    if a > b { ProductPositive(a - b, w); }
  }

  lemma ProductPositive(x: real, w: real)
    requires x > 0.0 && w > 0.0
    ensures x * w > 0.0
  {
  }

  // ---- bins of one session -----------------------------------------------------------------

  function Hour(open: int, t: int): int { (t - open) / 60 }

  /** Bin of a bar inside its session: `offset // duration`, or a single bin a day. */
  function Bin(res: Resolution, open: int, t: int): int {
    match res
    case OneHour => (t - open) / 60
    case FourHours => (t - open) / 240
    case OneDay => 0
  }

  /** The hourly bins [first, last) that make up one bin. */
  function BinHours(res: Resolution, open: int, close: int, bin: int): (int, int) {
    match res
    case OneHour => (bin, bin + 1)
    case FourHours => (4 * bin, 4 * bin + 4)
    case OneDay => (0, Hour(open, close - 1) + 1)
  }

  predicate ByStart(a: Source, b: Source) { a.start <= b.start }

  function Regular(group: seq<Source>, open: int, close: int): (r: seq<Source>)
    ensures forall x :: x in r <==> x in group && open <= x.start < close
  {
    if group == [] then []
    else if open <= group[0].start < close then [group[0]] + Regular(group[1..], open, close)
    else Regular(group[1..], open, close)
  }

  function InBin(rows: seq<Source>, res: Resolution, open: int, bin: int): (r: seq<Source>)
    ensures forall x :: x in r <==> x in rows && Bin(res, open, x.start) == bin
  {
    if rows == [] then []
    else if Bin(res, open, rows[0].start) == bin then [rows[0]] + InBin(rows[1..], res, open, bin)
    else InBin(rows[1..], res, open, bin)
  }

  /** The rows of one bin in time order. */
  function Bucket(rows: seq<Source>, res: Resolution, open: int, bin: int): seq<Source> {
    SortBy(InBin(rows, res, open, bin), ByStart)
  }

  /** What one derived bar says about its bin: it starts and opens with the bin's first
      row, closes with the last, reaches exactly as high and low as the rows do, and counts
      thirty minutes a row. */
  lemma BarReadsItsBin(rows: seq<Source>, res: Resolution, open: int, bin: int)
    returns (first: Source, last: Source, top: Source, bottom: Source)
    requires InBin(rows, res, open, bin) != []
    ensures Bucket(rows, res, open, bin) != []
    ensures {first, last, top, bottom} <= (set x | x in InBin(rows, res, open, bin))
    ensures forall x :: x in InBin(rows, res, open, bin) ==>
              first.start <= x.start <= last.start && bottom.low <= x.low && x.high <= top.high
    ensures var bar := Aggregate(Bucket(rows, res, open, bin));
            && bar.start == first.start && bar.columns.open == first.open && bar.columns.close == last.close
            && bar.columns.high == top.high && bar.columns.low == bottom.low
            && bar.columns.minutes == 30 * |InBin(rows, res, open, bin)|
  {
    hide InBin, SortBy, SortedBy, MaxHigh, MinLow, Vwap, SumVolume, SumTrades;
    var members, bucket := InBin(rows, res, open, bin), Bucket(rows, res, open, bin);
    StartsAreOrdered();
    SortByCorrect(members, ByStart);
    assert |bucket| == |members|;
    EndsOfSorted(bucket);
    first, last := bucket[0], bucket[|bucket| - 1];
    top, bottom := ExtremesAreReached(bucket);
    ExtremesCoverRows(bucket);
    assert first in bucket && last in bucket;
  }

  lemma StartsAreOrdered()
    ensures TotalPreorder(ByStart)
  {
  }

  lemma EndsOfSorted(rows: seq<Source>)
    requires rows != [] && SortedBy(ByStart, rows)
    ensures forall x :: x in rows ==> rows[0].start <= x.start <= rows[|rows| - 1].start
  {
    forall x | x in rows ensures rows[0].start <= x.start <= rows[|rows| - 1].start {
      var i :| 0 <= i < |rows| && rows[i] == x;
      assert i > 0 ==> ByStart(rows[0], rows[i]);
      assert i < |rows| - 1 ==> ByStart(rows[i], rows[|rows| - 1]);
    }
  }

  function InHours(rows: seq<Source>, open: int, lo: int, hi: int): (r: seq<Source>)
    ensures forall x :: x in r <==> x in rows && lo <= Hour(open, x.start) < hi
  {
    if rows == [] then []
    else if lo <= Hour(open, rows[0].start) < hi then [rows[0]] + InHours(rows[1..], open, lo, hi)
    else InHours(rows[1..], open, lo, hi)
  }

  function Span(rows: seq<Source>, open: int, lo: int, hi: int): seq<Source> {
    SortBy(InHours(rows, open, lo, hi), ByStart)
  }

  lemma FourHoursOfHours(x: int)
    ensures x / 240 == (x / 60) / 4
  {
  }

  /** Every bin is a range of hourly bins. */
  lemma {:induction false} BucketIsSpan(rows: seq<Source>, res: Resolution, open: int, close: int, bin: int)
    requires forall x :: x in rows ==> open <= x.start < close
    requires res == OneDay ==> bin == 0
    ensures var (lo, hi) := BinHours(res, open, close, bin);
            InBin(rows, res, open, bin) == InHours(rows, open, lo, hi)
  {
    if rows != [] {
      BucketIsSpan(rows[1..], res, open, close, bin);
      FourHoursOfHours(rows[0].start - open);
      assert rows[0] in rows;
    }
  }

  lemma {:induction false} InsertLeft(x: Source, a: seq<Source>, b: seq<Source>)
    requires forall y :: y in b ==> x.start < y.start
    ensures Insert(x, a + b, ByStart) == Insert(x, a, ByStart) + b
  {
    if a == [] {
      assert a + b == b;
      if b != [] { assert b[0] in b; }
    } else {
      assert (a + b)[1..] == a[1..] + b;
      if !ByStart(x, a[0]) { InsertLeft(x, a[1..], b); }
    }
  }

  lemma {:induction false} InsertRight(x: Source, a: seq<Source>, b: seq<Source>)
    requires forall y :: y in a ==> y.start < x.start
    ensures Insert(x, a + b, ByStart) == a + Insert(x, b, ByStart)
  {
    if a == [] {
      assert a + b == b;
    } else {
      assert a[0] in a;
      assert (a + b)[1..] == a[1..] + b;
      InsertRight(x, a[1..], b);
    }
  }

  /** Sorting a range of hours is sorting its two halves one after the other. */
  lemma {:induction false} SpanSplits(rows: seq<Source>, open: int, lo: int, mid: int, hi: int)
    requires lo <= mid <= hi
    ensures Span(rows, open, lo, hi) == Span(rows, open, lo, mid) + Span(rows, open, mid, hi)
  {
    if rows != [] {
      SpanSplits(rows[1..], open, lo, mid, hi);
      var x := rows[0];
      var left, right := Span(rows[1..], open, lo, mid), Span(rows[1..], open, mid, hi);
      SpanRows(rows[1..], open, lo, mid);
      SpanRows(rows[1..], open, mid, hi);
      if lo <= Hour(open, x.start) < mid {
        InsertLeft(x, left, right);
      } else if mid <= Hour(open, x.start) < hi {
        InsertRight(x, left, right);
      }
    }
  }

  lemma SpanRows(rows: seq<Source>, open: int, lo: int, hi: int)
    ensures forall y :: y in Span(rows, open, lo, hi) <==> y in rows && lo <= Hour(open, y.start) < hi
  {
    SortByCorrect(InHours(rows, open, lo, hi), ByStart);
  }

  // ---- the fold over hourly bars ---------------------------------------------------------------

  /** The bars of bins lo, .., hi - 1 in order; a bin without source bars has none. */
  function BinBars(rows: seq<Source>, res: Resolution, open: int, lo: int, hi: int): seq<Derived>
    decreases hi - lo
  {
    if hi <= lo then []
    else
      var bucket := Bucket(rows, res, open, lo);
      (if bucket == [] then [] else [Aggregate(bucket)]) + BinBars(rows, res, open, lo + 1, hi)
  }

  function Roll(bars: seq<Derived>): Columns
    requires bars != []
  {
    if |bars| == 1 then bars[0].columns else Merge(bars[0].columns, Roll(bars[1..]))
  }

  lemma {:induction false} NoHoursNoRows(rows: seq<Source>, open: int, lo: int)
    ensures InHours(rows, open, lo, lo) == []
  {
    if rows != [] { NoHoursNoRows(rows[1..], open, lo); }
  }

  /** A range of hours aggregates to the fold of its hourly bars. */
  lemma {:induction false} SpanIsRollOfHours(rows: seq<Source>, open: int, lo: int, hi: int)
    requires lo <= hi
    ensures Span(rows, open, lo, hi) == [] <==> BinBars(rows, OneHour, open, lo, hi) == []
    ensures Span(rows, open, lo, hi) != [] ==> ColumnsOf(Span(rows, open, lo, hi)) == Roll(BinBars(rows, OneHour, open, lo, hi))
    decreases hi - lo
  {
    if lo == hi {
      NoHoursNoRows(rows, open, lo);
    } else {
      SpanIsRollOfHours(rows, open, lo + 1, hi);
      SpanSplits(rows, open, lo, lo + 1, hi);
      HourBucketIsSpan(rows, open, lo);
      var bucket, rest := Bucket(rows, OneHour, open, lo), Span(rows, open, lo + 1, hi);
      var later := BinBars(rows, OneHour, open, lo + 1, hi);
      if bucket == [] {
        assert [] + later == later && bucket + rest == rest;
      } else if rest == [] {
        assert bucket + rest == bucket;
      } else {
        MergeSplits(bucket, rest);
        assert ([Aggregate(bucket)] + later)[1..] == later;
      }
    }
  }

  lemma {:induction false} HourBucketIsSpan(rows: seq<Source>, open: int, hour: int)
    ensures Bucket(rows, OneHour, open, hour) == Span(rows, open, hour, hour + 1)
  {
    HourRows(rows, open, hour);
  }

  lemma {:induction false} HourRows(rows: seq<Source>, open: int, hour: int)
    ensures InBin(rows, OneHour, open, hour) == InHours(rows, open, hour, hour + 1)
  {
    if rows != [] { HourRows(rows[1..], open, hour); }
  }

  /** Every 4-hour and daily bar is the fold of the hourly bars of its bin: open,
      high, low, close, volume, trade count and source minutes. */
  lemma LongBarIsFoldOfHourlyBars(rows: seq<Source>, res: Resolution, open: int, close: int, bin: int)
    requires open < close && forall x :: x in rows ==> open <= x.start < close
    requires res == OneDay ==> bin == 0
    requires Bucket(rows, res, open, bin) != []
    ensures var (lo, hi) := BinHours(res, open, close, bin);
            BinBars(rows, OneHour, open, lo, hi) != [] &&
            Aggregate(Bucket(rows, res, open, bin)).columns == Roll(BinBars(rows, OneHour, open, lo, hi))
  {
    BucketIsSpan(rows, res, open, close, bin);
    var (lo, hi) := BinHours(res, open, close, bin);
    assert Bucket(rows, res, open, bin) == Span(rows, open, lo, hi);
    SpanIsRollOfHours(rows, open, lo, hi);
  }

  /** The bars of some bins are a contiguous stretch of the session's. */
  lemma {:induction false} BinBarsSplit(rows: seq<Source>, res: Resolution, open: int, lo: int, mid: int, hi: int)
    requires lo <= mid <= hi
    ensures BinBars(rows, res, open, lo, hi) == BinBars(rows, res, open, lo, mid) + BinBars(rows, res, open, mid, hi)
    decreases mid - lo
  {
    hide Aggregate, Bucket;
    if lo < mid { BinBarsSplit(rows, res, open, lo + 1, mid, hi); }
  }

  lemma {:induction false} BinBarsCome(rows: seq<Source>, res: Resolution, open: int, lo: int, hi: int, bar: Derived)
    returns (bin: int)
    requires bar in BinBars(rows, res, open, lo, hi)
    ensures lo <= bin < hi && Bucket(rows, res, open, bin) != [] && bar == Aggregate(Bucket(rows, res, open, bin))
    decreases hi - lo
  {
    hide Aggregate, Bucket;
    var bucket := Bucket(rows, res, open, lo);
    if bucket != [] && bar == Aggregate(bucket) {
      bin := lo;
    } else {
      bin := BinBarsCome(rows, res, open, lo + 1, hi, bar);
    }
  }

  // ---- the whole table ---------------------------------------------------------------------------

  type GroupKey = (nat, int)

  function KeyOf(r: Source): GroupKey { (r.instrument, r.session) }

  predicate KeyLe(a: GroupKey, b: GroupKey) { a.0 < b.0 || (a.0 == b.0 && a.1 <= b.1) }

  function Keys(table: seq<Source>): (k: seq<GroupKey>)
    ensures |k| == |table| && forall i :: 0 <= i < |k| ==> k[i] == KeyOf(table[i])
  {
    seq(|table|, i requires 0 <= i < |table| => KeyOf(table[i]))
  }

  function GroupRows(table: seq<Source>, key: GroupKey): (r: seq<Source>)
    ensures forall x :: x in r <==> x in table && KeyOf(x) == key
  {
    if table == [] then []
    else if KeyOf(table[0]) == key then [table[0]] + GroupRows(table[1..], key)
    else GroupRows(table[1..], key)
  }

  function BinCount(res: Resolution, open: int, close: int): nat
    requires open < close
  {
    Bin(res, open, close - 1) + 1
  }

  /** Bars of one instrument and session; none on a date without a session. */
  function DeriveGroup(group: seq<Source>, schedule: map<int, Bounds>, session: int, res: Resolution): seq<Derived> {
    if session !in schedule then []
    else
      var (open, close) := schedule[session];
      if close <= open then [] else BinBars(Regular(group, open, close), res, open, 0, BinCount(res, open, close))
  }

  function DeriveGroups(table: seq<Source>, keys: seq<GroupKey>, schedule: map<int, Bounds>,
                        res: Resolution): seq<Derived> {
    if keys == [] then []
    else DeriveGroups(table, keys[..|keys| - 1], schedule, res)
         + DeriveGroup(GroupRows(table, keys[|keys| - 1]), schedule, keys[|keys| - 1].1, res)
  }

  ghost predicate StrictKeys(keys: seq<GroupKey>) {
    forall i, j :: 0 <= i < j < |keys| ==> KeyLe(keys[i], keys[j]) && keys[i] != keys[j]
  }

  lemma AppendKey(keys: seq<GroupKey>, key: GroupKey)
    requires StrictKeys(keys) && (keys != [] ==> KeyLe(keys[|keys| - 1], key) && keys[|keys| - 1] != key)
    ensures StrictKeys(keys + [key])
  {
    forall k | 0 <= k < |keys| ensures KeyLe(keys[k], key) && keys[k] != key {
      assert k == |keys| - 1 || KeyLe(keys[k], keys[|keys| - 1]);
    }
  }

  /** The distinct (instrument, session) pairs in order. */
  method DistinctKeys(table: seq<Source>) returns (keys: seq<GroupKey>)
    ensures StrictKeys(keys)
    ensures forall key :: key in keys <==> key in Keys(table)
  {
    hide ListsKeys, SortedBy;
    var sorted := SortBy(Keys(table), KeyLe);
    KeysAreOrdered();
    SortByCorrect(Keys(table), KeyLe);
    keys := [];
    NoKeys(sorted);
    for i := 0 to |sorted|
      invariant ListsKeys(keys, sorted, i)
    {
      KeyJoins(keys, sorted, i);
      if i == 0 || keys[|keys| - 1] != sorted[i] { keys := keys + [sorted[i]]; }
    }
    AllKeysListed(keys, sorted);
  }

  /** keys are the distinct ones among the first i of sorted. */
  ghost predicate ListsKeys(keys: seq<GroupKey>, sorted: seq<GroupKey>, i: int) {
    && 0 <= i <= |sorted| && StrictKeys(keys) && (forall key :: key in keys <==> key in sorted[..i])
    && (if i == 0 then keys == [] else keys != [] && keys[|keys| - 1] == sorted[i - 1])
  }

  lemma NoKeys(sorted: seq<GroupKey>)
    ensures ListsKeys([], sorted, 0)
  {
  }

  lemma KeyJoins(keys: seq<GroupKey>, sorted: seq<GroupKey>, i: int)
    requires ListsKeys(keys, sorted, i) && i < |sorted| && SortedBy(KeyLe, sorted)
    ensures i > 0 ==> keys != []
    ensures ListsKeys(if i == 0 || keys[|keys| - 1] != sorted[i] then keys + [sorted[i]] else keys, sorted, i + 1)
  {
    hide StrictKeys;
    assert sorted[..i + 1] == sorted[..i] + [sorted[i]];
    if i > 0 {
      assert KeyLe(sorted[i - 1], sorted[i]);
      if keys[|keys| - 1] != sorted[i] { AppendKey(keys, sorted[i]); }
    } else {
      AppendKey(keys, sorted[i]);
    }
  }

  lemma AllKeysListed(keys: seq<GroupKey>, sorted: seq<GroupKey>)
    requires ListsKeys(keys, sorted, |sorted|)
    ensures StrictKeys(keys) && forall key :: key in keys <==> key in sorted
  {
    hide StrictKeys;
    assert sorted[..|sorted|] == sorted;
  }

  lemma KeysAreOrdered()
    ensures TotalPreorder(KeyLe)
  {
  }

  predicate BarLe(a: Derived, b: Derived) {
    a.instrument < b.instrument || (a.instrument == b.instrument && a.start <= b.start)
  }

  lemma NextBin(rows: seq<Source>, res: Resolution, open: int, bin: nat)
    ensures var bucket := Bucket(rows, res, open, bin);
            BinBars(rows, res, open, 0, bin + 1) ==
            BinBars(rows, res, open, 0, bin) + (if bucket == [] then [] else [Aggregate(bucket)])
  {
    hide Aggregate, Bucket;
    BinBarsSplit(rows, res, open, 0, bin, bin + 1);
    assert BinBars(rows, res, open, bin + 1, bin + 1) == [];
  }

  /** The bins of one instrument and session, in order. */
  method SessionBins(regular: seq<Source>, res: Resolution, open: int, count: nat) returns (rows: seq<Derived>)
    ensures rows == BinBars(regular, res, open, 0, count)
  {
    hide Aggregate, Bucket;
    rows := [];
    var bin := 0;
    while bin < count
      invariant 0 <= bin <= count
      invariant rows == BinBars(regular, res, open, 0, bin)
    {
      hide BinBars;
      var bucket := Bucket(regular, res, open, bin);
      NextBin(regular, res, open, bin);
      if bucket != [] {
        rows := rows + [Aggregate(bucket)];
      }
      bin := bin + 1;
    }
  }

  method DeriveSession(group: seq<Source>, schedule: map<int, Bounds>, session: int, res: Resolution)
    returns (rows: seq<Derived>)
    ensures rows == DeriveGroup(group, schedule, session, res)
  {
    hide BinBars, Regular, BinCount;
    if session !in schedule { return []; }
    var (open, close) := schedule[session];
    if close <= open { return []; }
    rows := SessionBins(Regular(group, open, close), res, open, BinCount(res, open, close));
  }

  /** Filters to the regular session and aggregates observed bars without gap filling. */
  method DeriveRegularBars(table: seq<Source>, schedule: map<int, Bounds>, res: Resolution)
    returns (bars: seq<Derived>, ghost keys: seq<GroupKey>)
    ensures StrictKeys(keys) && forall key :: key in keys <==> key in Keys(table)
    ensures bars == SortBy(DeriveGroups(table, keys, schedule, res), BarLe)
    ensures SortedBy(BarLe, bars)
    ensures forall bar :: bar in bars <==> bar in DeriveGroups(table, keys, schedule, res)
  {
    var groups := DistinctKeys(table);
    keys := groups;
    var rows: seq<Derived> := [];
    var g := 0;
    hide DeriveGroup, GroupRows, StrictKeys;
    while g < |groups|
      invariant 0 <= g <= |groups|
      invariant rows == DeriveGroups(table, groups[..g], schedule, res)
    {
      assert groups[..g + 1][..g] == groups[..g];
      var derived := DeriveSession(GroupRows(table, groups[g]), schedule, groups[g].1, res);
      rows := rows + derived;
      g := g + 1;
    }
    assert groups[..g] == groups;
    bars := SortBy(rows, BarLe);
    SortByCorrect(rows, BarLe);
  }

  lemma {:induction false} BarsComeFromGroups(table: seq<Source>, keys: seq<GroupKey>, schedule: map<int, Bounds>,
                                              res: Resolution, bar: Derived)
    returns (key: GroupKey)
    requires bar in DeriveGroups(table, keys, schedule, res)
    ensures key in keys && bar in DeriveGroup(GroupRows(table, key), schedule, key.1, res)
  {
    hide DeriveGroup, GroupRows;
    var last := keys[|keys| - 1];
    if bar in DeriveGroup(GroupRows(table, last), schedule, last.1, res) {
      key := last;
    } else {
      key := BarsComeFromGroups(table, keys[..|keys| - 1], schedule, res, bar);
    }
  }

  // ---- the derived-bar checks ------------------------------------------------------------------

  function Maximum(res: Resolution): int {
    match res case OneHour => 60 case FourHours => 240 case OneDay => 390
  }

  /** XNYS_SESSION_VIOLATION. */
  predicate OutsideSession(bar: Derived, schedule: map<int, Bounds>) {
    bar.session !in schedule || !(schedule[bar.session].0 <= bar.start < schedule[bar.session].1)
  }

  /** INVALID_SOURCE_MINUTES. */
  predicate BadSourceMinutes(bar: Derived, schedule: map<int, Bounds>, res: Resolution) {
    var sessionMinutes := if bar.session in schedule then schedule[bar.session].1 - schedule[bar.session].0 else Maximum(res);
    var allowed := if sessionMinutes < Maximum(res) then sessionMinutes else Maximum(res);
    var minutes := bar.columns.minutes;
    minutes <= 0 || minutes % 30 != 0 || minutes > allowed
  }

  ghost predicate DistinctStarts(rows: seq<Source>) {
    forall i, j :: 0 <= i < j < |rows| ==> rows[i].start != rows[j].start
  }

  /** Distinct starts on the half-hour grid of a session of at most 390 minutes. */
  ghost predicate OnHalfHourGrid(group: seq<Source>, open: int, close: int) {
    && DistinctStarts(group)
    && (close - open) % 30 == 0 && close - open <= 390
    && forall r :: r in group ==> (r.start - open) % 30 == 0
  }

  ghost predicate Ascending(rows: seq<Source>) {
    forall i, j :: 0 <= i < j < |rows| ==> rows[i].start < rows[j].start
  }

  lemma {:induction false} InsertAscending(x: Source, s: seq<Source>)
    requires Ascending(s) && forall y :: y in s ==> y.start != x.start
    ensures Ascending(Insert(x, s, ByStart))
    ensures forall y :: y in Insert(x, s, ByStart) <==> y == x || y in s
  {
    if s != [] && !ByStart(x, s[0]) {
      InsertAscending(x, s[1..]);
      var rest := Insert(x, s[1..], ByStart);
      forall k | 0 <= k < |rest| ensures s[0].start < rest[k].start {
        assert rest[k] in rest;
      }
    } else if s != [] {
      assert s[0] in s;
    }
  }

  lemma {:induction false} SortAscending(rows: seq<Source>)
    requires DistinctStarts(rows)
    ensures Ascending(SortBy(rows, ByStart))
    ensures forall y :: y in SortBy(rows, ByStart) <==> y in rows
  {
    if rows != [] {
      SortAscending(rows[1..]);
      InsertAscending(rows[0], SortBy(rows[1..], ByStart));
    }
  }

  lemma {:induction false} RegularDistinct(group: seq<Source>, open: int, close: int)
    requires DistinctStarts(group)
    ensures DistinctStarts(Regular(group, open, close))
  {
    if group != [] {
      RegularDistinct(group[1..], open, close);
      var rest := Regular(group[1..], open, close);
      forall k | 0 <= k < |rest| ensures rest[k].start != group[0].start {
        assert rest[k] in rest;
      }
    }
  }

  lemma {:induction false} InBinDistinct(rows: seq<Source>, res: Resolution, open: int, bin: int)
    requires DistinctStarts(rows)
    ensures DistinctStarts(InBin(rows, res, open, bin))
  {
    if rows != [] {
      InBinDistinct(rows[1..], res, open, bin);
      var rest := InBin(rows[1..], res, open, bin);
      forall k | 0 <= k < |rest| ensures rest[k].start != rows[0].start {
        assert rest[k] in rest;
      }
    }
  }

  /** Ascending half-hour starts inside [lo, hi) number at most (hi - lo) / 30. */
  lemma {:induction false} HalfHourPigeonhole(s: seq<Source>, open: int, lo: int, hi: int)
    requires s != [] && Ascending(s)
    requires forall r :: r in s ==> (r.start - open) % 30 == 0 && lo <= r.start < hi
    requires (hi - open) % 30 == 0
    ensures 30 * |s| <= hi - lo
    decreases |s|
  {
    var last := s[|s| - 1];
    assert last in s && last.start <= hi - 30;
    if |s| > 1 {
      var rest := s[..|s| - 1];
      assert forall r :: r in rest ==> r in s && r.start < last.start;
      HalfHourPigeonhole(rest, open, lo, last.start);
    }
  }

  /** The instants one bin spans. */
  function BinRange(res: Resolution, open: int, close: int, bin: int): (int, int) {
    match res
    case OneHour => (open + 60 * bin, open + 60 * bin + 60)
    case FourHours => (open + 240 * bin, open + 240 * bin + 240)
    case OneDay => (open, close)
  }

  lemma BinSpansItsRange(res: Resolution, open: int, close: int, t: int)
    requires open <= t < close && (close - open) % 30 == 0 && close - open <= 390
    ensures var (lo, hi) := BinRange(res, open, close, Bin(res, open, t));
            lo <= t < hi && hi - lo <= Maximum(res) && (hi - open) % 30 == 0
  {
  }

  lemma BucketRows(group: seq<Source>, open: int, close: int, res: Resolution, bin: int)
    ensures forall r :: r in Bucket(Regular(group, open, close), res, open, bin) <==>
                        r in group && open <= r.start < close && Bin(res, open, r.start) == bin
  {
    SortByCorrect(InBin(Regular(group, open, close), res, open, bin), ByStart);
  }

  lemma BucketAscends(group: seq<Source>, open: int, close: int, res: Resolution, bin: int)
    requires DistinctStarts(group)
    ensures Ascending(Bucket(Regular(group, open, close), res, open, bin))
  {
    var regular := Regular(group, open, close);
    RegularDistinct(group, open, close);
    InBinDistinct(regular, res, open, bin);
    SortAscending(InBin(regular, res, open, bin));
  }

  lemma BucketFitsItsBin(group: seq<Source>, open: int, close: int, res: Resolution, bin: int)
    requires OnHalfHourGrid(group, open, close)
    requires Bucket(Regular(group, open, close), res, open, bin) != []
    ensures var bucket := Bucket(Regular(group, open, close), res, open, bin);
            30 * |bucket| <= Maximum(res) && 30 * |bucket| <= close - open && open <= bucket[0].start < close
  {
    var bucket := Bucket(Regular(group, open, close), res, open, bin);
    BucketRows(group, open, close, res, bin);
    BucketAscends(group, open, close, res, bin);
    hide Bucket, Ascending, Bin, BinRange;
    assert bucket[0] in bucket;
    HalfHourPigeonhole(bucket, open, open, close);
    BinSpansItsRange(res, open, close, bucket[0].start);
    var (lo, hi) := BinRange(res, open, close, bin);
    forall r | r in bucket ensures lo <= r.start < hi {
      BinSpansItsRange(res, open, close, r.start);
    }
    HalfHourPigeonhole(bucket, open, lo, hi);
  }

  /** On half-hour source bars, no derived bar is ever reported as outside its
      session or as carrying impossible source minutes, early closes included. */
  lemma DerivedBarsPassChecks(table: seq<Source>, keys: seq<GroupKey>, schedule: map<int, Bounds>, res: Resolution,
                              bar: Derived)
    requires forall key :: key in keys && key.1 in schedule ==>
               OnHalfHourGrid(GroupRows(table, key), schedule[key.1].0, schedule[key.1].1)
    requires bar in DeriveGroups(table, keys, schedule, res)
    ensures !OutsideSession(bar, schedule) && !BadSourceMinutes(bar, schedule, res)
  {
    hide OnHalfHourGrid, GroupRows, DeriveGroups;
    var key := BarsComeFromGroups(table, keys, schedule, res, bar);
    GroupBarsPassChecks(GroupRows(table, key), schedule, key.1, res, bar) by {
      assert forall r :: r in GroupRows(table, key) ==> r.session == key.1;
    }
  }

  lemma GroupBarsPassChecks(group: seq<Source>, schedule: map<int, Bounds>, session: int, res: Resolution, bar: Derived)
    requires session in schedule ==> OnHalfHourGrid(group, schedule[session].0, schedule[session].1)
    requires forall r :: r in group ==> r.session == session
    requires bar in DeriveGroup(group, schedule, session, res)
    ensures !OutsideSession(bar, schedule) && !BadSourceMinutes(bar, schedule, res)
  {
    hide OnHalfHourGrid, Bucket, Aggregate, Bin, BinBars, Regular;
    var (open, close) := schedule[session];
    var regular := Regular(group, open, close);
    var bin := BinBarsCome(regular, res, open, 0, BinCount(res, open, close), bar);
    var bucket := Bucket(regular, res, open, bin);
    BucketFitsItsBin(group, open, close, res, bin);
    BucketRows(group, open, close, res, bin);
    assert bucket[0] in bucket && bucket[0].session == session;
    AggregateFacts(bucket);
  }

  lemma AggregateFacts(rows: seq<Source>)
    requires rows != []
    ensures Aggregate(rows).start == rows[0].start && Aggregate(rows).session == rows[0].session
    ensures Aggregate(rows).columns.minutes == 30 * |rows|
  {
  }

  // ---- long bars over the whole table's hourly bars ------------------------------------------------

  /** The instrument's and session's bars that start in the hours [lo, hi). */
  function HoursOf(bars: seq<Derived>, key: GroupKey, open: int, lo: int, hi: int): seq<Derived> {
    if bars == [] then []
    else (if InHoursOf(bars[0], key, open, lo, hi) then [bars[0]] else []) + HoursOf(bars[1..], key, open, lo, hi)
  }

  predicate InHoursOf(bar: Derived, key: GroupKey, open: int, lo: int, hi: int) {
    (bar.instrument, bar.session) == key && lo <= Hour(open, bar.start) < hi
  }

  lemma {:induction false} HoursOfSum(a: seq<Derived>, b: seq<Derived>, key: GroupKey, open: int, lo: int, hi: int)
    ensures HoursOf(a + b, key, open, lo, hi) == HoursOf(a, key, open, lo, hi) + HoursOf(b, key, open, lo, hi)
  {
    hide InHoursOf;
    if a == [] {
      assert a + b == b;
    } else {
      assert (a + b)[1..] == a[1..] + b;
      HoursOfSum(a[1..], b, key, open, lo, hi);
    }
  }

  lemma {:induction false} HoursOfNone(bars: seq<Derived>, key: GroupKey, open: int, lo: int, hi: int)
    requires forall bar :: bar in bars ==> !InHoursOf(bar, key, open, lo, hi)
    ensures HoursOf(bars, key, open, lo, hi) == []
  {
    hide InHoursOf;
    if bars != [] { HoursOfNone(bars[1..], key, open, lo, hi); }
  }

  lemma {:induction false} HoursOfAll(bars: seq<Derived>, key: GroupKey, open: int, lo: int, hi: int)
    requires forall bar :: bar in bars ==> InHoursOf(bar, key, open, lo, hi)
    ensures HoursOf(bars, key, open, lo, hi) == bars
  {
    hide InHoursOf;
    if bars != [] { HoursOfAll(bars[1..], key, open, lo, hi); }
  }

  /** Regular rows of one instrument and session. */
  ghost predicate OneSession(rows: seq<Source>, key: GroupKey, open: int, close: int) {
    forall x :: x in rows ==> KeyOf(x) == key && open <= x.start < close
  }

  /** A bar carries its rows' instrument and session, and starts inside its own bin. */
  lemma BarIsOfItsBin(rows: seq<Source>, key: GroupKey, open: int, close: int, res: Resolution, bin: int)
    requires OneSession(rows, key, open, close) && Bucket(rows, res, open, bin) != []
    ensures var bar := Aggregate(Bucket(rows, res, open, bin));
            (bar.instrument, bar.session) == key && open <= bar.start < close && Bin(res, open, bar.start) == bin
  {
    hide ColumnsOf, Vwap;
    SortByCorrect(InBin(rows, res, open, bin), ByStart);
    var first := Bucket(rows, res, open, bin)[0];
    assert first in Bucket(rows, res, open, bin);
  }

  lemma HourlyBarsIn(rows: seq<Source>, key: GroupKey, open: int, close: int, a: int, b: int)
    requires OneSession(rows, key, open, close)
    ensures forall bar :: bar in BinBars(rows, OneHour, open, a, b) ==> InHoursOf(bar, key, open, a, b)
  {
    hide Bucket, Aggregate;
    forall bar | bar in BinBars(rows, OneHour, open, a, b) ensures InHoursOf(bar, key, open, a, b) {
      var bin := BinBarsCome(rows, OneHour, open, a, b, bar);
      BarIsOfItsBin(rows, key, open, close, OneHour, bin);
    }
  }

  lemma {:induction false} NothingAfterClose(rows: seq<Source>, key: GroupKey, open: int, close: int, a: int, b: int)
    requires OneSession(rows, key, open, close) && open < close && Hour(open, close - 1) < a
    ensures BinBars(rows, OneHour, open, a, b) == []
    decreases b - a
  {
    if a < b {
      NothingAfterClose(rows, key, open, close, a + 1, b);
      if Bucket(rows, OneHour, open, a) != [] { BarIsOfItsBin(rows, key, open, close, OneHour, a); }
    }
  }

  /** Of a session's hourly bars, those of some hours are the bars of these bins. */
  lemma SessionHours(rows: seq<Source>, key: GroupKey, open: int, close: int, lo: int, hi: int)
    requires OneSession(rows, key, open, close) && open < close && 0 <= lo <= BinCount(OneHour, open, close) && lo <= hi
    ensures HoursOf(BinBars(rows, OneHour, open, 0, BinCount(OneHour, open, close)), key, open, lo, hi)
         == BinBars(rows, OneHour, open, lo, hi)
  {
    var count := BinCount(OneHour, open, close);
    var cut := if hi < count then hi else count;
    hide BinBars, InHoursOf, BinCount;
    BinBarsSplit(rows, OneHour, open, 0, lo, count);
    BinBarsSplit(rows, OneHour, open, lo, cut, count);
    var early, middle, late := BinBars(rows, OneHour, open, 0, lo), BinBars(rows, OneHour, open, lo, cut),
      BinBars(rows, OneHour, open, cut, count);
    HoursOfSum(early, middle + late, key, open, lo, hi);
    HoursOfSum(middle, late, key, open, lo, hi);
    OnlyTheMiddle(rows, key, open, close, lo, cut, count, hi);
    BinBarsSplit(rows, OneHour, open, lo, cut, hi);
    if cut == hi {
      NoBins(rows, open, hi);
    } else {
      assert Hour(open, close - 1) < cut by { LastHour(open, close); }
      NothingAfterClose(rows, key, open, close, cut, hi);
    }
  }

  lemma LastHour(open: int, close: int)
    requires open < close
    ensures Hour(open, close - 1) < BinCount(OneHour, open, close)
  {
  }

  lemma NoBins(rows: seq<Source>, open: int, at: int)
    ensures BinBars(rows, OneHour, open, at, at) == []
  {
  }

  lemma OnlyTheMiddle(rows: seq<Source>, key: GroupKey, open: int, close: int, lo: int, cut: int, count: int, hi: int)
    requires OneSession(rows, key, open, close) && lo <= cut <= count && cut <= hi && (cut == hi || cut == count)
    ensures HoursOf(BinBars(rows, OneHour, open, 0, lo), key, open, lo, hi) == []
    ensures HoursOf(BinBars(rows, OneHour, open, lo, cut), key, open, lo, hi) == BinBars(rows, OneHour, open, lo, cut)
    ensures HoursOf(BinBars(rows, OneHour, open, cut, count), key, open, lo, hi) == []
  {
    hide BinBars, Hour;
    HourlyBarsIn(rows, key, open, close, 0, lo);
    HourlyBarsIn(rows, key, open, close, lo, cut);
    HourlyBarsIn(rows, key, open, close, cut, count);
    if cut == count { NoBins(rows, open, cut); }
    HoursOfNone(BinBars(rows, OneHour, open, 0, lo), key, open, lo, hi);
    HoursOfAll(BinBars(rows, OneHour, open, lo, cut), key, open, lo, hi);
    HoursOfNone(BinBars(rows, OneHour, open, cut, count), key, open, lo, hi);
  }

  lemma RegularIsOneSession(table: seq<Source>, key: GroupKey, open: int, close: int)
    ensures OneSession(Regular(GroupRows(table, key), open, close), key, open, close)
  {
  }

  /** Bars of another instrument or session are not among a key's. */
  lemma OtherGroup(table: seq<Source>, schedule: map<int, Bounds>, other: GroupKey, key: GroupKey, open: int, lo: int,
                   hi: int)
    requires other != key
    ensures HoursOf(DeriveGroup(GroupRows(table, other), schedule, other.1, OneHour), key, open, lo, hi) == []
  {
    hide BinBars, Regular, GroupRows, Hour, BinCount;
    var bars := DeriveGroup(GroupRows(table, other), schedule, other.1, OneHour);
    if other.1 in schedule && schedule[other.1].0 < schedule[other.1].1 {
      var (o, c) := schedule[other.1];
      RegularIsOneSession(table, other, o, c);
      HourlyBarsIn(Regular(GroupRows(table, other), o, c), other, o, c, 0, BinCount(OneHour, o, c));
    }
    HoursOfNone(bars, key, open, lo, hi);
  }

  lemma {:induction false} KeyHours(table: seq<Source>, keys: seq<GroupKey>, schedule: map<int, Bounds>, key: GroupKey,
                                    open: int, lo: int, hi: int)
    requires StrictKeys(keys)
    ensures HoursOf(DeriveGroups(table, keys, schedule, OneHour), key, open, lo, hi)
         == if key in keys then HoursOf(DeriveGroup(GroupRows(table, key), schedule, key.1, OneHour), key, open, lo, hi) else []
  {
    hide DeriveGroup, GroupRows, HoursOf;
    if keys == [] {
      HoursOfNone([], key, open, lo, hi);
    } else {
      var n := |keys| - 1;
      assert keys == keys[..n] + [keys[n]];
      KeyHours(table, keys[..n], schedule, key, open, lo, hi);
      HoursOfSum(DeriveGroups(table, keys[..n], schedule, OneHour),
        DeriveGroup(GroupRows(table, keys[n]), schedule, keys[n].1, OneHour), key, open, lo, hi);
      if keys[n] != key { OtherGroup(table, schedule, keys[n], key, open, lo, hi); }
    }
  }

  /** Every bar of a derived table is the fold of its instrument's and session's bars in the
      hourly table derived from the same source, over the hours its own bin spans. */
  lemma DerivedTablesFold(table: seq<Source>, keys: seq<GroupKey>, schedule: map<int, Bounds>, res: Resolution,
                          bar: Derived)
    requires StrictKeys(keys) && bar in DeriveGroups(table, keys, schedule, res)
    ensures bar.session in schedule && schedule[bar.session].0 < schedule[bar.session].1
    ensures var (open, close) := schedule[bar.session];
            var (lo, hi) := BinHours(res, open, close, Bin(res, open, bar.start));
            var hours := HoursOf(DeriveGroups(table, keys, schedule, OneHour), (bar.instrument, bar.session), open, lo,
              hi);
            hours != [] && bar.columns == Roll(hours)
  {
    hide GroupRows, DeriveGroups, BinBars, Regular, Bucket, Aggregate, Bin, Roll, HoursOf, BinHours, BinCount;
    var key := BarsComeFromGroups(table, keys, schedule, res, bar);
    var (open, close) := schedule[key.1];
    var rows := Regular(GroupRows(table, key), open, close);
    RegularIsOneSession(table, key, open, close);
    var bin := BinBarsCome(rows, res, open, 0, BinCount(res, open, close), bar);
    BarIsOfItsBin(rows, key, open, close, res, bin);
    BinHoursFit(res, open, close, bar.start);
    LongBarIsFoldOfHourlyBars(rows, res, open, close, bin);
    AggregateColumns(Bucket(rows, res, open, bin));
    var (lo, hi) := BinHours(res, open, close, bin);
    SessionHours(rows, key, open, close, lo, hi);
    KeyHours(table, keys, schedule, key, open, lo, hi);
  }

  lemma AggregateColumns(rows: seq<Source>)
    requires rows != []
    ensures Aggregate(rows).columns == ColumnsOf(rows)
  {
  }

  lemma BinHoursFit(res: Resolution, open: int, close: int, t: int)
    requires open <= t < close
    ensures var bin := Bin(res, open, t);
            var (lo, hi) := BinHours(res, open, close, bin);
            0 <= lo <= BinCount(OneHour, open, close) && lo <= hi && (res == OneDay ==> bin == 0)
  {
    FourHoursOfHours(t - open);
  }
}
