/** Incremental session filtering and resampling of data_filtering: rebuild from a
    session open and keep the older output. A frame is its index (symbol, time)
    with one row each. */
module Incremental {
  import opened Common
  import DerivedBars

  type Tick = DerivedBars.Source

  type Key = (nat, int)

  type Frame<T> = map<Key, T>

  datatype FrameError = NoSession(date: int)

  /** The exchange calendar: local date of an instant, session of a date. */
  datatype Calendar = Calendar(dateOf: int -> int, session: int -> Option<(int, int)>)

  ghost predicate ValidCalendar(cal: Calendar) {
    && (forall d :: cal.session(d).Some? ==> cal.session(d).value.0 < cal.session(d).value.1)
    && (forall d, e :: d < e && cal.session(d).Some? && cal.session(e).Some? ==> cal.session(d).value.1 <= cal.session(e).value.0)
    && (forall d, t :: cal.session(d).Some? && cal.session(d).value.0 <= t < cal.session(d).value.1 ==> cal.dateOf(t) == d)
  }

  predicate HasSession(cal: Calendar, t: int) {
    cal.session(cal.dateOf(t)).Some?
  }

  /** Inside the official session of its own date. */
  predicate InSession(cal: Calendar, t: int) {
    HasSession(cal, t) && cal.session(cal.dateOf(t)).value.0 <= t < cal.session(cal.dateOf(t)).value.1
  }

  function SessionOpen(cal: Calendar, t: int): Result<int, FrameError> {
    if HasSession(cal, t) then Ok(cal.session(cal.dateOf(t)).value.0) else Err(NoSession(cal.dateOf(t)))
  }

  ghost predicate IsSessionOpen(cal: Calendar, open: int) {
    exists d :: cal.session(d).Some? && cal.session(d).value.0 == open
  }

  // ---- frames -------------------------------------------------------------------------

  function Slice<T>(f: Frame<T>, start: int, end: int): Frame<T> {
    map k | k in f && start <= k.1 < end :: f[k]
  }

  function Older<T>(f: Frame<T>, cut: int): Frame<T> {
    map k | k in f && k.1 < cut :: f[k]
  }

  function Newer<T>(f: Frame<T>, cut: int): Frame<T> {
    map k | k in f && k.1 >= cut :: f[k]
  }

  method LastTimestamp<T>(f: Frame<T>) returns (last: int)
    requires f != map[]
    ensures exists k :: k in f && k.1 == last
    ensures forall k :: k in f ==> k.1 <= last
  {
    var rest := f.Keys;
    assert rest != {};
    var first :| first in rest;
    last := first.1;
    rest := rest - {first};
    while rest != {}
      invariant rest <= f.Keys
      invariant exists k :: k in f && k.1 == last
      invariant forall k :: k in f && k !in rest ==> k.1 <= last
      decreases |rest|
    {
      var k :| k in rest;
      if k.1 > last { last := k.1; }
      rest := rest - {k};
    }
  }

  // ---- filtering ------------------------------------------------------------------------

  /** Rows that start inside an official session and traded. */
  function FilterRegularSession(f: Frame<Tick>, cal: Calendar): Frame<Tick> {
    map k | k in f && InSession(cal, k.1) && f[k].volume > 0 :: f[k]
  }

  // ---- resampling -----------------------------------------------------------------------

  predicate KeyLe(a: Key, b: Key) {
    a.1 < b.1 || (a.1 == b.1 && a.0 <= b.0)
  }

  predicate IsLeast(s: set<Key>, m: Key) {
    m in s && forall x :: x in s ==> KeyLe(m, x)
  }

  lemma {:induction false} LeastExists(s: set<Key>)
    requires s != {}
    ensures exists m :: IsLeast(s, m)
  {
    var x :| x in s;
    if s == {x} {
      assert IsLeast(s, x);
    } else {
      var rest := s - {x};
      LeastExists(rest);
      var m :| IsLeast(rest, m);
      assert s == rest + {x};
      assert IsLeast(s, if KeyLe(x, m) then x else m);
    }
  }

  function Least(s: set<Key>): (m: Key)
    requires s != {}
    ensures IsLeast(s, m)
  {
    LeastExists(s);
    var m :| IsLeast(s, m);
    m
  }

  /** Index entries in time order. */
  function Ordered(s: set<Key>): (r: seq<Key>)
    ensures s != {} ==> r != []
    ensures forall i :: 0 <= i < |r| ==> r[i] in s
    decreases |s|
  {
    if s == {} then [] else [Least(s)] + Ordered(s - {Least(s)})
  }

  /** Left label of the bar that holds t, counted from its session open. Rows on
      a date without a session are refused before any label is needed. */
  function Label(cal: Calendar, freq: int, t: int): int
    requires freq > 0
  {
    if HasSession(cal, t) then t - (t - cal.session(cal.dateOf(t)).value.0) % freq else t
  }

  ghost predicate AllHaveSessions<T>(f: Frame<T>, cal: Calendar) {
    forall k :: k in f ==> HasSession(cal, k.1)
  }

  ghost predicate AllInSession<T>(f: Frame<T>, cal: Calendar) {
    forall k :: k in f ==> InSession(cal, k.1)
  }

  /** The row at k belongs to the bar at `mark`. */
  predicate Marks(cal: Calendar, freq: int, k: Key, mark: Key)
    requires freq > 0
  {
    k.0 == mark.0 && Label(cal, freq, k.1) == mark.1
  }

  /** Rows of the bar at `mark`. */
  function BarKeys(f: Frame<Tick>, cal: Calendar, freq: int, mark: Key): set<Key>
    requires freq > 0
  {
    set k | k in f && Marks(cal, freq, k, mark)
  }

  function BarRows(f: Frame<Tick>, keys: seq<Key>): (rows: seq<Tick>)
    requires forall i :: 0 <= i < |keys| ==> keys[i] in f
    ensures |rows| == |keys|
  {
    seq(|keys|, i requires 0 <= i < |keys| => f[keys[i]])
  }

  /** One resampled bar; minutes count the one-minute source bars. */
  datatype Bar = Bar(open: real, high: real, low: real, close: real, volume: int, trades: int, sourceMinutes: int, vwap: Option<real>)

  function BarOf(rows: seq<Tick>): Bar
    requires rows != []
  {
    var trades := DerivedBars.SumTrades(rows);
    var weight := DerivedBars.Weight(rows);
    Bar(rows[0].open, DerivedBars.MaxHigh(rows), DerivedBars.MinLow(rows), rows[|rows| - 1].close, DerivedBars.SumVolume(rows),
        if trades.Some? then trades.value else 0, |rows|,
        if weight != 0 then Some(DerivedBars.WeightedSum(rows) / weight as real) else None)
  }

  function Labels(f: Frame<Tick>, cal: Calendar, freq: int): set<Key>
    requires freq > 0
  {
    set k | k in f :: (k.0, Label(cal, freq, k.1))
  }

  function BarAt(f: Frame<Tick>, cal: Calendar, freq: int, mark: Key): Bar
    requires freq > 0 && mark in Labels(f, cal, freq)
  {
    assert BarKeys(f, cal, freq, mark) != {} by {
      var k :| k in f && (k.0, Label(cal, freq, k.1)) == mark;
      assert k in BarKeys(f, cal, freq, mark);
    }
    BarOf(BarRows(f, Ordered(BarKeys(f, cal, freq, mark))))
  }

  /** Every non-empty bar of every symbol and session. */
  function Resample(f: Frame<Tick>, cal: Calendar, freq: int): Frame<Bar>
    requires freq > 0
  {
    map mark | mark in Labels(f, cal, freq) :: BarAt(f, cal, freq, mark)
  }

  /** The order lists every entry, earliest first. */
  lemma {:induction false} OrderedListsAll(s: set<Key>)
    ensures forall k :: k in s ==> k in Ordered(s)
    ensures s != {} ==> forall k :: k in s ==> KeyLe(Ordered(s)[0], k) && KeyLe(k, Ordered(s)[|Ordered(s)| - 1])
    ensures |Ordered(s)| == |s|
    decreases |s|
  {
    if s != {} {
      var m := Least(s);
      var rest := s - {m};
      OrderedListsAll(rest);
      assert s == rest + {m};
      assert Ordered(s) == [m] + Ordered(rest);
      if rest == {} { assert Ordered(rest) == []; }
      forall k | k in s ensures k in Ordered(s) && KeyLe(k, Ordered(s)[|Ordered(s)| - 1]) {
        if k != m { assert k in Ordered(rest); }
        if rest != {} { assert Ordered(rest)[|Ordered(rest)| - 1] in rest; }
      }
    }
  }

  /** What one resampled bar says about its rows: it opens with the earliest, closes with
      the latest, reaches exactly as high and low as they do, and counts one minute a row. */
  lemma BarReadsItsRows(f: Frame<Tick>, cal: Calendar, freq: int, mark: Key)
    returns (first: Key, last: Key, top: Tick, bottom: Tick)
    requires freq > 0 && mark in Labels(f, cal, freq)
    ensures var keys := BarKeys(f, cal, freq, mark);
            && first in keys && last in keys
            && (exists k :: k in keys && f[k] == top) && (exists k :: k in keys && f[k] == bottom)
            && (forall k :: k in keys ==> first.1 <= k.1 <= last.1 && bottom.low <= f[k].low && f[k].high <= top.high)
    ensures first in f && last in f
    ensures var bar := BarAt(f, cal, freq, mark);
            && bar.open == f[first].open && bar.close == f[last].close && bar.high == top.high && bar.low == bottom.low
            && bar.sourceMinutes == |BarKeys(f, cal, freq, mark)|
  {
    var keys := BarKeys(f, cal, freq, mark);
    var k0 :| k0 in f && (k0.0, Label(cal, freq, k0.1)) == mark;
    assert k0 in keys;
    hide BarKeys, Label, Ordered;
    OrderedListsAll(keys);
    first, last := Ordered(keys)[0], Ordered(keys)[|Ordered(keys)| - 1];
    top, bottom := RowExtremes(f, keys);
  }

  lemma RowExtremes(f: Frame<Tick>, keys: set<Key>) returns (top: Tick, bottom: Tick)
    requires keys != {} && keys <= f.Keys
    ensures (exists k :: k in keys && f[k] == top) && (exists k :: k in keys && f[k] == bottom)
    ensures forall k :: k in keys ==> bottom.low <= f[k].low && f[k].high <= top.high
    ensures var rows := BarRows(f, Ordered(keys)); rows != [] && DerivedBars.MaxHigh(rows) == top.high && DerivedBars.MinLow(rows) == bottom.low
  {
    hide Ordered;
    OrderedListsAll(keys);
    var order := Ordered(keys);
    var rows := BarRows(f, order);
    top, bottom := DerivedBars.ExtremesAreReached(rows);
    DerivedBars.ExtremesCoverRows(rows);
    forall k | k in keys ensures bottom.low <= f[k].low && f[k].high <= top.high {
      var i :| 0 <= i < |order| && order[i] == k;
      assert rows[i] == f[k];
    }
    var i :| 0 <= i < |rows| && rows[i] == top;
    assert order[i] in keys && f[order[i]] == top;
    var j :| 0 <= j < |rows| && rows[j] == bottom;
    assert order[j] in keys && f[order[j]] == bottom;
  }

  /** Group a row belongs to: its symbol and session date. */
  function GroupOf(cal: Calendar, k: Key): Key { (k.0, cal.dateOf(k.1)) }

  function Group<T>(f: Frame<T>, cal: Calendar, groups: set<Key>): Frame<T> {
    map k | k in f && GroupOf(cal, k) in groups :: f[k]
  }

  lemma ModBelow(x: int, f: int)
    requires x >= 0 && f > 0
    ensures 0 <= x % f <= x
  {
    if x < f { assert x % f == x; }
  }

  /** A bar's label stays inside the session of its rows. */
  lemma LabelInSession(cal: Calendar, freq: int, t: int)
    requires freq > 0 && ValidCalendar(cal) && InSession(cal, t)
    ensures Label(cal, freq, t) <= t && InSession(cal, Label(cal, freq, t))
    ensures cal.dateOf(Label(cal, freq, t)) == cal.dateOf(t)
  {
    var d := cal.dateOf(t);
    var (open, close) := cal.session(d).value;
    ModBelow(t - open, freq);
    var mark := Label(cal, freq, t);
    assert open <= mark < close && cal.session(d).Some?;
  }

  /** Two frames hold the same rows for the bar at `mark`. */
  ghost predicate SameRows(f: Frame<Tick>, g: Frame<Tick>, cal: Calendar, freq: int, mark: Key)
    requires freq > 0
  {
    forall k: Key :: Marks(cal, freq, k, mark) ==> (k in f <==> k in g) && (k in f ==> f[k] == g[k])
  }

  /** Two frames have the same bar, or none, at `mark`. */
  ghost predicate SameBar(a: Frame<Bar>, b: Frame<Bar>, mark: Key) {
    (mark in a <==> mark in b) && (mark in a ==> a[mark] == b[mark])
  }

  lemma MarkHasRow(f: Frame<Tick>, cal: Calendar, freq: int, mark: Key) returns (k: Key)
    requires freq > 0 && mark in Resample(f, cal, freq)
    ensures k in f && Marks(cal, freq, k, mark)
  {
    k :| k in f && (k.0, Label(cal, freq, k.1)) == mark;
  }

  lemma RowHasMark(f: Frame<Tick>, cal: Calendar, freq: int, k: Key)
    requires freq > 0 && k in f
    ensures (k.0, Label(cal, freq, k.1)) in Resample(f, cal, freq)
  {
  }

  /** Bars only look at rows of their own label. */
  lemma SameRowsSameBar(f: Frame<Tick>, g: Frame<Tick>, cal: Calendar, freq: int, mark: Key)
    requires freq > 0 && SameRows(f, g, cal, freq, mark)
    ensures SameBar(Resample(f, cal, freq), Resample(g, cal, freq), mark)
  {
    LabelsAgree(f, g, cal, freq, mark);
    if mark in Labels(f, cal, freq) {
      var kf, kg := BarKeys(f, cal, freq, mark), BarKeys(g, cal, freq, mark);
      assert kf == kg;
      SameBarRows(f, g, cal, freq, mark, Ordered(kf));
    }
  }

  lemma SameBarRows(f: Frame<Tick>, g: Frame<Tick>, cal: Calendar, freq: int, mark: Key, keys: seq<Key>)
    requires freq > 0 && SameRows(f, g, cal, freq, mark)
    requires forall i :: 0 <= i < |keys| ==> keys[i] in f && keys[i] in g && Marks(cal, freq, keys[i], mark)
    ensures BarRows(f, keys) == BarRows(g, keys)
  {
  }

  lemma LabelsAgree(f: Frame<Tick>, g: Frame<Tick>, cal: Calendar, freq: int, mark: Key)
    requires freq > 0 && SameRows(f, g, cal, freq, mark)
    ensures mark in Labels(f, cal, freq) <==> mark in Labels(g, cal, freq)
  {
    if mark in Labels(f, cal, freq) {
      var k :| k in f && (k.0, Label(cal, freq, k.1)) == mark;
      assert Marks(cal, freq, k, mark);
    }
    if mark in Labels(g, cal, freq) {
      var k :| k in g && (k.0, Label(cal, freq, k.1)) == mark;
      assert Marks(cal, freq, k, mark);
    }
  }

  /** Resampling session by session equals resampling the whole frame. */
  lemma ResampleByGroup(f: Frame<Tick>, cal: Calendar, freq: int, done: set<Key>, group: Key)
    requires freq > 0 && ValidCalendar(cal) && AllInSession(f, cal) && group !in done
    ensures Resample(Group(f, cal, done + {group}), cal, freq) ==
            Resample(Group(f, cal, done), cal, freq) + Resample(Group(f, cal, {group}), cal, freq)
  {
    hide Resample, Group, AllInSession, ValidCalendar;
    var a, b := Resample(Group(f, cal, done), cal, freq), Resample(Group(f, cal, {group}), cal, freq);
    var c := Resample(Group(f, cal, done + {group}), cal, freq);
    forall mark: Key
      ensures if GroupOf(cal, mark) == group then SameBar(c, b, mark) && mark !in a else SameBar(c, a, mark) && mark !in b
    {
      if GroupOf(cal, mark) == group {
        BarsOfGroup(f, cal, freq, mark, done + {group}, {group});
        NoLabelsOutside(f, cal, freq, mark, done);
      } else {
        BarsOfGroup(f, cal, freq, mark, done + {group}, done);
        NoLabelsOutside(f, cal, freq, mark, {group});
      }
    }
    assert c.Keys == (a + b).Keys;
  }

  /** The bar at `mark` depends only on the rows of its own group. */
  lemma BarsOfGroup(f: Frame<Tick>, cal: Calendar, freq: int, mark: Key, part: set<Key>, whole: set<Key>)
    requires freq > 0 && ValidCalendar(cal) && AllInSession(f, cal)
    requires GroupOf(cal, mark) in part <==> GroupOf(cal, mark) in whole
    ensures SameBar(Resample(Group(f, cal, part), cal, freq), Resample(Group(f, cal, whole), cal, freq), mark)
  {
    forall k: Key | Marks(cal, freq, k, mark) && k in f ensures GroupOf(cal, k) == GroupOf(cal, mark) {
      LabelInSession(cal, freq, k.1);
    }
    SameRowsSameBar(Group(f, cal, part), Group(f, cal, whole), cal, freq, mark);
  }

  lemma NoLabelsOutside(f: Frame<Tick>, cal: Calendar, freq: int, mark: Key, groups: set<Key>)
    requires freq > 0 && ValidCalendar(cal) && AllInSession(f, cal) && GroupOf(cal, mark) !in groups
    ensures mark !in Resample(Group(f, cal, groups), cal, freq)
  {
    hide Resample;
    if mark in Resample(Group(f, cal, groups), cal, freq) {
      var k := MarkHasRow(Group(f, cal, groups), cal, freq, mark);
      LabelInSession(cal, freq, k.1);
    }
  }

  /** The bars gathered from the groups done so far. */
  ghost predicate Gathered(f: Frame<Tick>, cal: Calendar, freq: int, done: set<Key>, bars: Frame<Bar>)
    requires freq > 0
  {
    AllInSession(f, cal) ==> bars == Resample(Group(f, cal, done), cal, freq)
  }

  lemma GatherNext(f: Frame<Tick>, cal: Calendar, freq: int, done: set<Key>, group: Key, bars: Frame<Bar>)
    requires freq > 0 && ValidCalendar(cal) && group !in done && Gathered(f, cal, freq, done, bars)
    ensures Gathered(f, cal, freq, done + {group}, bars + Resample(Group(f, cal, {group}), cal, freq))
  {
    hide Resample, Group, ValidCalendar, AllInSession;
    if AllInSession(f, cal) {
      ResampleByGroup(f, cal, freq, done, group);
    }
  }

  lemma GatheredNothing(f: Frame<Tick>, cal: Calendar, freq: int)
    requires freq > 0
    ensures Gathered(f, cal, freq, {}, map[])
  {
    assert Group(f, cal, {}) == map[];
  }

  lemma GatheredAll(f: Frame<Tick>, cal: Calendar, freq: int, bars: Frame<Bar>)
    requires freq > 0 && Gathered(f, cal, freq, set k | k in f :: GroupOf(cal, k), bars)
    ensures AllInSession(f, cal) ==> bars == Resample(f, cal, freq)
  {
    hide Resample;
    assert Group(f, cal, set k | k in f :: GroupOf(cal, k)) == f;
  }

  /** Aggregates symbol by symbol and session by session; a row on a date without
      a session is refused. */
  method ResampleSipBars(f: Frame<Tick>, cal: Calendar, freq: int) returns (r: Result<Frame<Bar>, FrameError>)
    requires freq > 0 && ValidCalendar(cal)
    ensures r.Ok? <==> AllHaveSessions(f, cal)
    ensures r.Ok? && AllInSession(f, cal) ==> r.value == Resample(f, cal, freq)
  {
    hide Resample, Group, ValidCalendar, AllInSession, Gathered;
    var groups := set k | k in f :: GroupOf(cal, k);
    var pending := groups;
    var bars: Frame<Bar> := map[];
    GatheredNothing(f, cal, freq);
    assert groups - pending == {};
    while pending != {}
      invariant pending <= groups
      invariant forall g :: g in groups && g !in pending ==> cal.session(g.1).Some?
      invariant Gathered(f, cal, freq, groups - pending, bars)
      decreases |pending|
    {
      var g :| g in pending;
      if cal.session(g.1).None? {
        var k :| k in f && GroupOf(cal, k) == g;
        assert !HasSession(cal, k.1);
        return Err(NoSession(g.1));
      }
      GatherNext(f, cal, freq, groups - pending, g, bars);
      assert groups - (pending - {g}) == (groups - pending) + {g};
      bars := bars + Resample(Group(f, cal, {g}), cal, freq);
      pending := pending - {g};
    }
    forall k | k in f ensures HasSession(cal, k.1) { assert GroupOf(cal, k) in groups; }
    assert groups - pending == groups;
    GatheredAll(f, cal, freq, bars);
    r := Ok(bars);
  }

  // ---- the files --------------------------------------------------------------------------

  class OutputFile<T> {
    var content: Option<Frame<T>>
  }

  ghost predicate IsLast<T>(f: Frame<T>, k: Key) {
    k in f && forall j :: j in f ==> j.1 <= k.1
  }

  /** The session open of the last output row, or of the requested instant when that is
      earlier; either may lie on a date without a session. */
  function CutAt(cal: Calendar, last: int, requested: Option<int>): (r: Result<int, FrameError>)
    ensures r.Ok? ==> IsSessionOpen(cal, r.value)
  {
    var open := SessionOpen(cal, last);
    if open.Err? || requested.None? then open
    else
      var wanted := SessionOpen(cal, requested.value);
      if wanted.Err? || wanted.value < open.value then wanted else open
  }

  /** Where a run starts recomputing: nowhere without earlier output. */
  ghost predicate CutFor<T>(existing: Frame<T>, requested: Option<int>, cut: Option<int>, cal: Calendar) {
    && (cut.None? <==> existing == map[])
    && (cut.Some? ==> exists k :: IsLast(existing, k) && CutAt(cal, k.1, requested) == Ok(cut.value))
  }

  /** The earlier output ends, or the requested instant lies, on a date without a session. */
  ghost predicate NoCut<T>(existing: Frame<T>, requested: Option<int>, cal: Calendar) {
    exists k :: IsLast(existing, k) && CutAt(cal, k.1, requested).Err?
  }

  lemma CutIsSessionOpen<T>(existing: Frame<T>, requested: Option<int>, cut: Option<int>, cal: Calendar)
    requires CutFor(existing, requested, cut, cal)
    ensures cut.Some? ==> IsSessionOpen(cal, cut.value)
    ensures !NoCut(existing, requested, cal)
  {
    hide IsSessionOpen;
  }

  lemma NothingToCut<T>(existing: Frame<T>, requested: Option<int>, cal: Calendar)
    ensures existing == map[] ==> CutFor(existing, requested, None, cal)
    ensures existing == map[] ==> !NoCut(existing, requested, cal)
  {
    hide CutAt;
  }

  method RecomputeStart<T>(existing: Frame<T>, requested: Option<int>, cal: Calendar)
    returns (r: Result<int, FrameError>)
    requires existing != map[]
    ensures r.Ok? ==> CutFor(existing, requested, Some(r.value), cal)
    ensures r.Err? ==> NoCut(existing, requested, cal)
  {
    var last := LastTimestamp(existing);
    ghost var k :| k in existing && k.1 == last;
    assert IsLast(existing, k);
    r := SessionOpen(cal, last);
    if r.Ok? && requested.Some? {
      var wanted := SessionOpen(cal, requested.value);
      if wanted.Err? || wanted.value < r.value { r := wanted; }
    }
    assert r == CutAt(cal, k.1, requested);
  }

  function Existing<T>(content: Option<Frame<T>>, start: int, end: int): Frame<T> {
    if content.Some? then Slice(content.value, start, end) else map[]
  }

  /** Rows a run recomputes. */
  function Candidate(source: Frame<Tick>, cut: Option<int>): Frame<Tick> {
    if cut.Some? then Newer(source, cut.value) else source
  }

  /** The frame a run writes: everything without old output, else the old bars
      before the cut plus the recomputed rest. */
  function ResampledFile(existing: Frame<Bar>, source: Frame<Tick>, cut: Option<int>, start: int, end: int,
                         cal: Calendar, freq: int): Frame<Bar>
    requires freq > 0
  {
    var bars := Resample(Candidate(source, cut), cal, freq);
    Slice((if cut.Some? then Older(existing, cut.value) else map[]) + bars, start, end)
  }

  function FilteredFile(existing: Frame<Tick>, source: Frame<Tick>, cut: Option<int>, start: int, end: int,
                        cal: Calendar): Frame<Tick> {
    var rows := FilterRegularSession(Candidate(source, cut), cal);
    Slice((if cut.Some? then Older(existing, cut.value) else map[]) + rows, start, end)
  }

  lemma InputStaysInSession(input: Frame<Tick>, cal: Calendar, start: int, end: int)
    ensures AllInSession(input, cal) ==> AllInSession(Slice(input, start, end), cal)
    ensures AllInSession(input, cal) ==> forall cut :: AllInSession(Newer(Slice(input, start, end), cut), cal)
  {
    hide InSession;
  }

  /** Rebuilds the last output session and appends newly filtered sessions. */
  method ProcessResampleFileIncrementally(input: Frame<Tick>, file: OutputFile<Bar>, start: int, end: int,
                                          requested: Option<int>,
                                          cal: Calendar, freq: int)
    returns (r: Result<(), FrameError>, ghost cut: Option<int>)
    requires freq > 0 && ValidCalendar(cal)
    modifies file
    ensures r.Err? ==> file.content == old(file.content)
    ensures !NoCut(Existing(old(file.content), start, end), requested, cal) ==> CutFor(Existing(old(file.content), start, end), requested, cut, cal)
    ensures r.Ok? <==> !NoCut(Existing(old(file.content), start, end), requested, cal) && AllHaveSessions(Candidate(Slice(input, start, end), cut), cal)
    ensures r.Ok? && AllInSession(input, cal) ==>
      file.content == Some(ResampledFile(Existing(old(file.content), start, end), Slice(input, start, end), cut, start, end, cal, freq))
  {
    hide Slice, Older, Newer, CutFor, NoCut, Resample, AllHaveSessions, AllInSession, ValidCalendar;
    InputStaysInSession(input, cal, start, end);
    var source := Slice(input, start, end);
    var existing := Existing(file.content, start, end);
    NothingToCut(existing, requested, cal);
    var retained: Frame<Bar> := map[];
    var candidate := source;
    cut := None;
    if existing != map[] {
      var from := RecomputeStart(existing, requested, cal);
      if from.Err? { return Err(from.error), None; }
      cut := Some(from.value);
      CutIsSessionOpen(existing, requested, cut, cal);
      retained := Older(existing, from.value);
      candidate := Newer(source, from.value);
    }
    var bars := ResampleSipBars(candidate, cal, freq);
    if bars.Err? { return Err(bars.error), cut; }
    file.content := Some(Slice(retained + bars.value, start, end));
    r := Ok(());
  }

  /** Filters only the last output session and newly collected rows. */
  method ProcessFileIncrementally(input: Frame<Tick>, file: OutputFile<Tick>, start: int, end: int,
                                  requested: Option<int>, cal: Calendar)
    returns (r: Result<(), FrameError>, ghost cut: Option<int>)
    modifies file
    ensures r.Err? ==> file.content == old(file.content)
    ensures r.Ok? <==> !NoCut(Existing(old(file.content), start, end), requested, cal)
    ensures r.Ok? ==> CutFor(Existing(old(file.content), start, end), requested, cut, cal)
    ensures r.Ok? ==>
      file.content == Some(FilteredFile(Existing(old(file.content), start, end), Slice(input, start, end), cut, start, end, cal))
  {
    hide Slice, Older, Newer, CutFor, NoCut, FilterRegularSession;
    var source := Slice(input, start, end);
    var existing := Existing(file.content, start, end);
    NothingToCut(existing, requested, cal);
    var retained: Frame<Tick> := map[];
    var candidate := source;
    cut := None;
    if existing != map[] {
      var from := RecomputeStart(existing, requested, cal);
      if from.Err? { return Err(from.error), None; }
      cut := Some(from.value);
      CutIsSessionOpen(existing, requested, cut, cal);
      retained := Older(existing, from.value);
      candidate := Newer(source, from.value);
    }
    file.content := Some(Slice(retained + FilterRegularSession(candidate, cal), start, end));
    r := Ok(());
  }

  // ---- incremental equals fresh ------------------------------------------------------------

  /** Two sources that agree on every row between the window start and the cut. */
  ghost predicate AgreeBefore(before: Frame<Tick>, now: Frame<Tick>, start: int, cut: int) {
    forall k: Key :: start <= k.1 < cut ==> (k in before <==> k in now) && (k in before ==> before[k] == now[k])
  }

  /** A row and the label of its bar lie on the same side of any session open. */
  lemma LabelSidesWithRow(cal: Calendar, freq: int, t: int, open: int)
    requires freq > 0 && ValidCalendar(cal) && InSession(cal, t) && IsSessionOpen(cal, open)
    ensures Label(cal, freq, t) < open <==> t < open
  {
    LabelInSession(cal, freq, t);
    var d :| cal.session(d).Some? && cal.session(d).value.0 == open;
    var own := cal.dateOf(t);
    if t >= open {
      assert own >= d;
      assert own > d ==> cal.session(d).value.1 <= cal.session(own).value.0;
    }
  }

  /** Rerunning on top of earlier output writes exactly what a run from scratch
      would write, whatever the window: the earlier output came from a source that
      agrees with this one from the window start up to the recomputed session. */
  lemma IncrementalResampleEqualsFresh(oldSource: Frame<Tick>, source: Frame<Tick>, oldStart: int, oldEnd: int,
                                       start: int, end: int,
                                       requested: Option<int>, cut: Option<int>, cal: Calendar, freq: int)
    requires freq > 0 && ValidCalendar(cal) && AllInSession(oldSource, cal) && AllInSession(source, cal)
    requires oldStart <= start
    requires var existing := Slice(ResampledFile(map[], Slice(oldSource, oldStart, oldEnd), None, oldStart, oldEnd, cal, freq), start, end);
             CutFor(existing, requested, cut, cal)
    requires cut.Some? ==> AgreeBefore(Slice(oldSource, oldStart, oldEnd), Slice(source, start, end), start, cut.value)
    ensures var existing := Slice(ResampledFile(map[], Slice(oldSource, oldStart, oldEnd), None, oldStart, oldEnd, cal, freq), start, end);
            ResampledFile(existing, Slice(source, start, end), cut, start, end, cal, freq)
            == ResampledFile(map[], Slice(source, start, end), None, start, end, cal, freq)
  {
    hide Resample;
    var before, now := Slice(oldSource, oldStart, oldEnd), Slice(source, start, end);
    FromScratch(before, oldStart, oldEnd, cal, freq);
    FromScratch(now, start, end, cal, freq);
    if cut.Some? {
      CutIsSessionOpen(Slice(ResampledFile(map[], before, None, oldStart, oldEnd, cal, freq), start, end), requested,
        cut, cal);
      SpliceOfResamples(before, now, oldStart, oldEnd, start, end, cut.value, cal, freq);
    }
  }

  lemma FromScratch(source: Frame<Tick>, start: int, end: int, cal: Calendar, freq: int)
    requires freq > 0
    ensures ResampledFile(map[], source, None, start, end, cal, freq) == Slice(Resample(source, cal, freq), start, end)
  {
    hide Resample;
    assert map[] + Resample(source, cal, freq) == Resample(source, cal, freq);
  }

  lemma SpliceOfResamples(before: Frame<Tick>, now: Frame<Tick>, oldStart: int, oldEnd: int, start: int, end: int,
                          c: int, cal: Calendar, freq: int)
    requires freq > 0 && ValidCalendar(cal) && AllInSession(before, cal) && AllInSession(now, cal)
    requires oldStart <= start && IsSessionOpen(cal, c) && AgreeBefore(before, now, start, c)
    requires forall k :: k in before ==> k.1 < oldEnd
    ensures Slice(Older(Slice(Slice(Resample(before, cal, freq), oldStart, oldEnd), start, end), c) + Resample(Newer(now, c), cal, freq), start, end)
            == Slice(Resample(now, cal, freq), start, end)
  {
    var later := Newer(now, c);
    assert AllInSession(later, cal);
    assert forall k :: k in later ==> k.1 >= c;
    hide Resample, ValidCalendar, AllInSession, IsSessionOpen, Slice, Newer, Older, AgreeBefore, SameBar;
    var old0, new1, all := Resample(before, cal, freq), Resample(later, cal, freq), Resample(now, cal, freq);
    forall mark: Key | start <= mark.1
      ensures mark.1 < c ==> mark !in new1 && SameBar(old0, all, mark) && (mark in old0 ==> mark.1 < oldEnd)
      ensures mark.1 >= c ==> SameBar(new1, all, mark)
    {
      if mark.1 < c {
        OldBarIsFresh(before, now, start, c, cal, freq, mark);
        NoBarBeforeCut(later, c, cal, freq, mark);
        BarBelowWindowEnd(before, oldEnd, cal, freq, mark);
      } else {
        NewBarIsFresh(now, later, c, cal, freq, mark);
      }
    }
    Splice(old0, new1, all, oldStart, oldEnd, start, end, c);
  }

  /** Old bars before the cut and new ones from it on make up all bars. */
  lemma Splice(old0: Frame<Bar>, new1: Frame<Bar>, all: Frame<Bar>, oldStart: int, oldEnd: int, start: int, end: int,
               c: int)
    requires oldStart <= start
    requires forall k: Key :: start <= k.1 < c ==> k !in new1 && SameBar(old0, all, k) && (k in old0 ==> k.1 < oldEnd)
    requires forall k: Key :: start <= k.1 && c <= k.1 ==> SameBar(new1, all, k)
    ensures Slice(Older(Slice(Slice(old0, oldStart, oldEnd), start, end), c) + new1, start, end) == Slice(all, start, end)
  {
    var spliced := Slice(Older(Slice(Slice(old0, oldStart, oldEnd), start, end), c) + new1, start, end);
    var whole := Slice(all, start, end);
    forall k: Key ensures k in spliced <==> k in whole {
    }
    forall k: Key | k in whole ensures spliced[k] == whole[k] {
    }
  }

  lemma OldBarIsFresh(before: Frame<Tick>, now: Frame<Tick>, start: int, cut: int, cal: Calendar, freq: int, mark: Key)
    requires freq > 0 && ValidCalendar(cal) && AllInSession(before, cal) && AllInSession(now, cal)
    requires IsSessionOpen(cal, cut) && AgreeBefore(before, now, start, cut) && start <= mark.1 < cut
    ensures SameBar(Resample(before, cal, freq), Resample(now, cal, freq), mark)
  {
    hide Resample, IsSessionOpen, Label;
    forall k: Key | Marks(cal, freq, k, mark)
      ensures (k in before <==> k in now) && (k in before ==> before[k] == now[k])
    {
      if k in before || k in now {
        LabelSidesWithRow(cal, freq, k.1, cut);
        LabelInSession(cal, freq, k.1);
      }
    }
    SameRowsSameBar(before, now, cal, freq, mark);
  }

  lemma NewBarIsFresh(now: Frame<Tick>, later: Frame<Tick>, cut: int, cal: Calendar, freq: int, mark: Key)
    requires freq > 0 && ValidCalendar(cal) && AllInSession(now, cal) && later == Newer(now, cut)
    requires IsSessionOpen(cal, cut) && mark.1 >= cut
    ensures SameBar(Resample(later, cal, freq), Resample(now, cal, freq), mark)
  {
    hide Resample, IsSessionOpen, Label;
    forall k: Key | Marks(cal, freq, k, mark)
      ensures (k in later <==> k in now) && (k in later ==> later[k] == now[k])
    {
      if k in now { LabelSidesWithRow(cal, freq, k.1, cut); }
    }
    SameRowsSameBar(later, now, cal, freq, mark);
  }

  lemma NoBarBeforeCut(later: Frame<Tick>, cut: int, cal: Calendar, freq: int, mark: Key)
    requires freq > 0 && ValidCalendar(cal) && AllInSession(later, cal) && IsSessionOpen(cal, cut)
    requires (forall k :: k in later ==> k.1 >= cut) && mark.1 < cut
    ensures mark !in Resample(later, cal, freq)
  {
    hide Resample, IsSessionOpen;
    if mark in Resample(later, cal, freq) {
      var k := MarkHasRow(later, cal, freq, mark);
      LabelSidesWithRow(cal, freq, k.1, cut);
    }
  }

  lemma BarBelowWindowEnd(f: Frame<Tick>, end: int, cal: Calendar, freq: int, mark: Key)
    requires freq > 0 && ValidCalendar(cal) && AllInSession(f, cal) && forall k :: k in f ==> k.1 < end
    ensures mark in Resample(f, cal, freq) ==> mark.1 < end
  {
    hide Resample;
    if mark in Resample(f, cal, freq) {
      var k := MarkHasRow(f, cal, freq, mark);
      LabelInSession(cal, freq, k.1);
    }
  }

  /** A run from scratch keeps every bar of the window exactly when no row of it
      belongs to a bar that began before the window. */
  lemma FreshIsFullExactlyOnBarBoundary(source: Frame<Tick>, start: int, end: int, cal: Calendar, freq: int)
    requires freq > 0 && ValidCalendar(cal) && AllInSession(source, cal)
    ensures var now := Slice(source, start, end);
            ResampledFile(map[], now, None, start, end, cal, freq) == Resample(now, cal, freq)
            <==> forall k :: k in now ==> Label(cal, freq, k.1) >= start
  {
    hide Resample, Label, ValidCalendar;
    var now := Slice(source, start, end);
    var full := Resample(now, cal, freq);
    assert map[] + full == full;
    assert AllInSession(now, cal);
    forall mark | mark in full ensures mark.1 < end { BarBelowWindowEnd(now, end, cal, freq, mark); }
    if forall k :: k in now ==> Label(cal, freq, k.1) >= start {
      forall mark | mark in full ensures start <= mark.1 {
        var k := MarkHasRow(now, cal, freq, mark);
      }
      assert Slice(full, start, end) == full;
    } else {
      var k :| k in now && Label(cal, freq, k.1) < start;
      RowHasMark(now, cal, freq, k);
      assert (k.0, Label(cal, freq, k.1)) !in Slice(full, start, end);
    }
  }

  /** The same law for session filtering. */
  lemma IncrementalFilterEqualsFresh(oldSource: Frame<Tick>, source: Frame<Tick>, oldStart: int, oldEnd: int,
                                     start: int, end: int,
                                     cut: Option<int>, cal: Calendar)
    requires oldStart <= start
    requires cut.Some? ==> AgreeBefore(Slice(oldSource, oldStart, oldEnd), Slice(source, start, end), start, cut.value)
    ensures var existing := Slice(FilteredFile(map[], Slice(oldSource, oldStart, oldEnd), None, oldStart, oldEnd, cal), start, end);
            FilteredFile(existing, Slice(source, start, end), cut, start, end, cal)
            == FilterRegularSession(Slice(source, start, end), cal)
  {
    hide FilteredFile, FilterRegularSession, AgreeBefore, Slice;
    var now := Slice(source, start, end);
    var existing := Slice(FilteredFile(map[], Slice(oldSource, oldStart, oldEnd), None, oldStart, oldEnd, cal), start,
      end);
    var written, full := FilteredFile(existing, now, cut, start, end, cal), FilterRegularSession(now, cal);
    forall k ensures k in written <==> k in full {
      FilteredRowIsFresh(oldSource, source, oldStart, oldEnd, start, end, cut, cal, k);
    }
    forall k | k in full ensures written[k] == full[k] {
      FilteredRowIsFresh(oldSource, source, oldStart, oldEnd, start, end, cut, cal, k);
    }
  }

  lemma FilteredRowIsFresh(oldSource: Frame<Tick>, source: Frame<Tick>, oldStart: int, oldEnd: int, start: int,
                           end: int,
                           cut: Option<int>, cal: Calendar, k: Key)
    requires oldStart <= start
    requires cut.Some? ==> AgreeBefore(Slice(oldSource, oldStart, oldEnd), Slice(source, start, end), start, cut.value)
    ensures var existing := Slice(FilteredFile(map[], Slice(oldSource, oldStart, oldEnd), None, oldStart, oldEnd, cal), start, end);
            var written, full := FilteredFile(existing, Slice(source, start, end), cut, start, end, cal),
              FilterRegularSession(Slice(source, start, end), cal);
            (k in written <==> k in full) && (k in full ==> written[k] == full[k])
  {
  }
}
