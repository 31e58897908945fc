/** What market_pipeline_lib/realtime_ingest.py decides about one market event, one
    batch and one run, as functions on the ingestor's state. */
module Ingest {
  import opened Common
  import opened Partitions

  // ---- events ------------------------------------------------------------------------

  type Date = d: int | 1 <= d witness 1

  /** A decoded JSON value; the stream decoder hands numbers over as Decimal. */
  datatype Json =
    | Null
    | Flag(flag: bool)
    | Whole(whole: int)
    | Float(float: real)
    | Decimal(decimal: real)
    | Text(text: string)
    | List(items: seq<Json>)
    | Object(fields: map<string, Json>)

  const MARKET_EVENT_FIELDS := [
    "eventId", "schemaVersion", "instrumentId", "provider", "feed", "eventType", "providerEventId",
    "occurredAt", "receivedAt", "sequence", "revision", "correctionOfEventId", "values"]

  const MARKET_EVENT_SCHEMA_VERSION := 1

  const NON_BAR_EVENT_TYPES := {"QUOTE", "TRADE"}

  datatype Event = Event(
    id: string, instrument: string, provider: string, feed: string, eventType: string,
    occurredAt: int, receivedAt: int, sequence: nat, revision: nat,
    correctionOf: Option<string>, values: map<string, Json>)

  datatype Row = Row(
    instrument: string, symbol: string, start: int, session: Date,
    open: real, high: real, low: real, close: real, volume: int,
    tradeCount: Option<int>, vwap: Option<real>)

  datatype FieldMap = FieldMap(
    open: string, high: string, low: string, close: string, volume: string,
    tradeCount: Option<string>, vwap: Option<string>)

  /** The stream's settings and the library functions it calls: strip and utc read text,
      quantize rounds a Decimal, sessionOf is the exchange date of an instant. */
  datatype Config = Config(
    strip: string -> string, utc: string -> Option<int>, quantize: real -> real,
    provider: string, feed: string, eventType: string, granularity: Granularity,
    fields: FieldMap, symbols: map<string, string>, shardOf: string -> string,
    sessionOf: int -> Date, retention: nat)

  datatype Refusal =
    | UnsupportedVersion | Malformed | WrongProvider | WrongFeed | Unmapped
    | Conflict | BadValues | UnknownShard

  /** An event as the parser leaves it. */
  type Parsed = r: Result<Event, Refusal> | r.Err? ==> r.error == UnsupportedVersion || r.error == Malformed
    witness Err(Malformed)

  function TextField(c: Config, doc: map<string, Json>, key: string): Option<string> {
    if key in doc && doc[key].Text? && c.strip(doc[key].text) != "" then Some(c.strip(doc[key].text)) else None
  }

  function UtcField(c: Config, doc: map<string, Json>, key: string): Option<int> {
    match TextField(c, doc, key)
    case None => None
    case Some(text) => c.utc(text)
  }

  function CountField(doc: map<string, Json>, key: string): Option<nat> {
    if key in doc && doc[key].Whole? && doc[key].whole >= 0 then Some(doc[key].whole) else None
  }

  predicate CorrectionFits(c: Config, doc: map<string, Json>, revision: nat)
    requires "correctionOfEventId" in doc
  {
    if revision == 0 then doc["correctionOfEventId"].Null?
    else TextField(c, doc, "correctionOfEventId").Some?
  }

  predicate HasEveryField(doc: map<string, Json>) {
    forall name :: name in MARKET_EVENT_FIELDS ==> name in doc
  }

  lemma EveryFieldMeansCorrection(doc: map<string, Json>)
    requires HasEveryField(doc)
    ensures "schemaVersion" in doc && "correctionOfEventId" in doc && "values" in doc
  {
    assert MARKET_EVENT_FIELDS[1] == "schemaVersion" && MARKET_EVENT_FIELDS[11] == "correctionOfEventId";
    assert MARKET_EVENT_FIELDS[12] == "values";
  }

  function Parse(c: Config, wire: Json): (r: Parsed)
    ensures r.Ok? ==> r.value.receivedAt >= r.value.occurredAt && r.value.values != map[]
    ensures r.Ok? ==> (r.value.correctionOf.None? <==> r.value.revision == 0)
  {
    if !wire.Object? || !HasEveryField(wire.fields) then Err(Malformed)
    else
      var doc := wire.fields;
      EveryFieldMeansCorrection(doc);
      if doc["schemaVersion"] != Whole(MARKET_EVENT_SCHEMA_VERSION) then Err(UnsupportedVersion)
      else ParseBody(c, doc)
  }

  function ParseBody(c: Config, doc: map<string, Json>): (r: Result<Event, Refusal>)
    requires "correctionOfEventId" in doc && "values" in doc
    ensures r.Ok? ==> r.value.receivedAt >= r.value.occurredAt && r.value.values != map[]
    ensures r.Ok? ==> (r.value.correctionOf.None? <==> r.value.revision == 0)
    ensures r.Err? ==> r.error == Malformed
  {
    match (UtcField(c, doc, "occurredAt"), UtcField(c, doc, "receivedAt"),
           CountField(doc, "sequence"), CountField(doc, "revision"))
    case (Some(occurred), Some(received), Some(sequence), Some(revision)) =>
      if received < occurred || !CorrectionFits(c, doc, revision) then Err(Malformed)
      else if !doc["values"].Object? || doc["values"].fields == map[] then Err(Malformed)
      else (
        match (TextField(c, doc, "eventId"), TextField(c, doc, "instrumentId"), TextField(c, doc, "provider"),
               TextField(c, doc, "feed"), TextField(c, doc, "eventType"), TextField(c, doc, "providerEventId"))
        case (Some(id), Some(instrument), Some(provider), Some(feed), Some(eventType), Some(_)) =>
          Ok(Event(id, instrument, provider, feed, eventType, occurred, received, sequence, revision,
                   if revision == 0 then None else TextField(c, doc, "correctionOfEventId"),
                   doc["values"].fields))
        case _ => Err(Malformed))
    case _ => Err(Malformed)
  }

  /** A foreign schema version is told apart from a malformed event, and only when the
      event has every field of the envelope. */
  lemma VersionIsJudgedBeforeContent(c: Config, wire: Json)
    ensures Parse(c, wire) == Err(UnsupportedVersion) <==>
            wire.Object? && HasEveryField(wire.fields) && "schemaVersion" in wire.fields &&
            wire.fields["schemaVersion"] != Whole(1)
  {
    hide ParseBody;
    if wire.Object? && HasEveryField(wire.fields) { EveryFieldMeansCorrection(wire.fields); }
  }

  function ParseAll(c: Config, wires: seq<Json>): (events: seq<Parsed>)
    ensures |events| == |wires| && forall i :: 0 <= i < |wires| ==> events[i] == Parse(c, wires[i])
  {
    seq(|wires|, i requires 0 <= i < |wires| => Parse(c, wires[i]))
  }

  // ---- rows ----------------------------------------------------------------------------

  function NumberField(c: Config, values: map<string, Json>, key: string): Option<real> {
    if key !in values then None
    else match values[key]
      case Decimal(d) => Some(c.quantize(d))
      case Float(f) => Some(f)
      case Whole(i) => Some(i as real)
      case _ => None
  }

  /** A count is never rounded: a fractional Decimal is refused. */
  function IntegerField(values: map<string, Json>, key: string): (r: Option<int>)
    ensures r.Some? ==> key in values
    ensures r.Some? && values[key].Decimal? ==> r.value as real == values[key].decimal
  {
    if key !in values then None
    else match values[key]
      case Decimal(d) => if d.Floor as real == d then Some(d.Floor) else None
      case Whole(i) => Some(i)
      case _ => None
  }

  function BarRow(c: Config, e: Event): (r: Option<Row>)
    requires e.instrument in c.symbols
    ensures r.Some? ==> r.value.instrument == e.instrument && r.value.start == e.occurredAt
    ensures r.Some? ==> r.value.session == c.sessionOf(e.occurredAt)
  {
    var f := c.fields;
    match (NumberField(c, e.values, f.open), NumberField(c, e.values, f.high), NumberField(c, e.values, f.low),
           NumberField(c, e.values, f.close), IntegerField(e.values, f.volume))
    case (Some(open), Some(high), Some(low), Some(close), Some(volume)) =>
      var count := if f.tradeCount.None? then None else IntegerField(e.values, f.tradeCount.value);
      var vwap := if f.vwap.None? then None else NumberField(c, e.values, f.vwap.value);
      if (f.tradeCount.Some? && count.None?) || (f.vwap.Some? && vwap.None?) then None
      else Some(Row(e.instrument, c.symbols[e.instrument], e.occurredAt, c.sessionOf(e.occurredAt),
                    open, high, low, close, volume, count, vwap))
    case _ => None
  }

  /** A row is built exactly when every configured column can be read, and holds what was
      read; an unconfigured optional column stays empty. */
  lemma RowReadsItsFields(c: Config, e: Event)
    requires e.instrument in c.symbols
    ensures var f, v := c.fields, e.values;
            BarRow(c, e).Some? <==>
            && NumberField(c, v, f.open).Some? && NumberField(c, v, f.high).Some? && NumberField(c, v, f.low).Some?
            && NumberField(c, v, f.close).Some? && IntegerField(v, f.volume).Some?
            && (f.tradeCount.Some? ==> IntegerField(v, f.tradeCount.value).Some?)
            && (f.vwap.Some? ==> NumberField(c, v, f.vwap.value).Some?)
    ensures var f, v := c.fields, e.values;
            BarRow(c, e).Some? ==>
            var row := BarRow(c, e).value;
            && NumberField(c, v, f.open) == Some(row.open) && NumberField(c, v, f.high) == Some(row.high)
            && NumberField(c, v, f.low) == Some(row.low) && NumberField(c, v, f.close) == Some(row.close)
            && IntegerField(v, f.volume) == Some(row.volume)
            && row.tradeCount == (if f.tradeCount.Some? then IntegerField(v, f.tradeCount.value) else None)
            && row.vwap == (if f.vwap.Some? then NumberField(c, v, f.vwap.value) else None)
  {
    hide NumberField, IntegerField;
  }

  // ---- the ingestor's state ------------------------------------------------------------------

  datatype SlotKey = SlotKey(instrument: string, start: int)

  datatype GroupKey = GroupKey(window: Window, shard: string)

  datatype Slot = Slot(revision: nat, id: string, session: Date)

  datatype Position = Position(at: int, sequence: nat)

  datatype Ingestor = Ingestor(
    buffer: map<GroupKey, map<SlotKey, Row>>, seen: map<string, Date>,
    slots: map<SlotKey, Slot>, heads: map<string, Option<Position>>)

  datatype Overlay = Overlay(ids: set<string>, slots: map<SlotKey, Slot>)

  const NOTHING := Overlay({}, map[])

  datatype Reason =
    | NON_BAR_EVENT_TYPE | EVENT_TYPE_NOT_INGESTED | DUPLICATE_EVENT | SUPERSEDED_REVISION
    | CORRECTION_APPLIED | ACCEPTED_NEW | ACCEPTED_LATE

  datatype Progress = ADVANCED | DUPLICATE | STALE

  datatype Decision = Decision(
    id: string, instrument: string, shard: string, accepted: bool, reason: Reason,
    revision: nat, progress: Option<Progress>)

  datatype Prepared =
    | Rejected(event: Event, shard: string, reason: Reason)
    | Accepted(event: Event, shard: string, row: Row)

  /** How a call ends: a value, or an exception, each with the state it leaves behind. */
  datatype Ending<T> =
    | Returned(after: Ingestor, value: T)
    | Raised(after: Ingestor, why: Refusal)

  function KeyOf(e: Event): SlotKey {
    SlotKey(e.instrument, e.occurredAt)
  }

  function GroupOf(c: Config, k: SlotKey): GroupKey {
    GroupKey(PartitionBounds(c.sessionOf(k.start), c.granularity), c.shardOf(k.instrument))
  }

  function SlotOf(c: Config, e: Event): Slot {
    Slot(e.revision, e.id, c.sessionOf(e.occurredAt))
  }

  // ---- prepare: everything that can be refused -----------------------------------------------------

  /** The checks that look at the event alone. */
  function Admit(c: Config, parsed: Parsed): (r: Result<Event, Refusal>)
    ensures r.Ok? ==> r.value.instrument in c.symbols
    ensures r.Err? ==> r.error != UnknownShard && r.error != Conflict
  {
    match parsed
    case Err(why) => Err(why)
    case Ok(e) =>
      if e.provider != c.provider then Err(WrongProvider)
      else if e.feed != c.feed then Err(WrongFeed)
      else if e.instrument !in c.symbols then Err(Unmapped)
      else Ok(e)
  }

  /** The checks against what is already held. */
  function Judge(c: Config, e: Event, known: bool, held: Option<Slot>): (r: Result<Prepared, Refusal>)
    requires e.instrument in c.symbols
    ensures r.Ok? ==> r.value.event == e && r.value.shard == c.shardOf(e.instrument)
    ensures r.Err? ==> r.error == Conflict || r.error == BadValues
  {
    var shard := c.shardOf(e.instrument);
    if e.eventType != c.eventType then
      Ok(Rejected(e, shard, if e.eventType in NON_BAR_EVENT_TYPES then NON_BAR_EVENT_TYPE else EVENT_TYPE_NOT_INGESTED))
    else if known then Ok(Rejected(e, shard, DUPLICATE_EVENT))
    else if held.Some? && e.revision < held.value.revision then Ok(Rejected(e, shard, SUPERSEDED_REVISION))
    else if held.Some? && e.revision == held.value.revision then Err(Conflict)
    else match BarRow(c, e)
      case None => Err(BadValues)
      case Some(row) => Ok(Accepted(e, shard, row))
  }

  function Held(s: Ingestor, o: Overlay, k: SlotKey): Option<Slot> {
    if k in o.slots then Some(o.slots[k]) else if k in s.slots then Some(s.slots[k]) else None
  }

  function Prepare(c: Config, s: Ingestor, o: Overlay, parsed: Parsed): (r: Result<Prepared, Refusal>)
    ensures r.Ok? ==> r.value.event.instrument in c.symbols && r.value.shard == c.shardOf(r.value.event.instrument)
    ensures r.Err? ==> r.error != UnknownShard
  {
    match Admit(c, parsed)
    case Err(why) => Err(why)
    case Ok(e) => Judge(c, e, e.id in s.seen || e.id in o.ids, Held(s, o, KeyOf(e)))
  }

  function Absorb(c: Config, o: Overlay, p: Prepared): Overlay {
    if p.Rejected? then o
    else Overlay(o.ids + {p.event.id}, o.slots[KeyOf(p.event) := SlotOf(c, p.event)])
  }

  // ---- commit --------------------------------------------------------------------------------------------

  function Sessions(s: Ingestor): set<Date> {
    s.seen.Values + (set k | k in s.slots :: s.slots[k].session)
  }

  function Newer(dates: set<Date>, d: Date): set<Date> {
    set e | e in dates && d < e
  }

  /** The r newest of a set of dates. */
  function Newest(dates: set<Date>, r: nat): set<Date> {
    set d | d in dates && |Newer(dates, d)| < r
  }

  function Retain(c: Config, s: Ingestor, session: Date): Ingestor {
    var dates := Sessions(s) + {session};
    if |dates| <= c.retention then s
    else
      var keep := Newest(dates, c.retention);
      s.(seen := map id | id in s.seen && s.seen[id] in keep :: s.seen[id],
         slots := map k | k in s.slots && s.slots[k].session in keep :: s.slots[k])
  }

  predicate Ahead(a: Position, b: Position) {
    a.at > b.at || (a.at == b.at && a.sequence > b.sequence)
  }

  function Compare(head: Option<Position>, p: Position): Progress {
    if head.None? || Ahead(p, head.value) then ADVANCED
    else if p == head.value then DUPLICATE
    else STALE
  }

  function PositionOf(e: Event): Position {
    Position(e.occurredAt, e.sequence)
  }

  function Put(b: map<GroupKey, map<SlotKey, Row>>, g: GroupKey, k: SlotKey, row: Row): map<GroupKey, map<SlotKey,
               Row>> {
    b[g := (if g in b then b[g] else map[])[k := row]]
  }

  function Report(p: Prepared, accepted: bool, reason: Reason, progress: Option<Progress>): Decision {
    Decision(p.event.id, p.event.instrument, p.shard, accepted, reason, p.event.revision, progress)
  }

  function AcceptedReason(e: Event, progress: Progress): Reason {
    if e.revision > 0 then CORRECTION_APPLIED else if progress == ADVANCED then ACCEPTED_NEW else ACCEPTED_LATE
  }

  /** What an accepted event leaves behind once retention has run. */
  function Applied(c: Config, s: Ingestor, p: Prepared): Ingestor
    requires p.Accepted? && p.shard in s.heads
  {
    var e := p.event;
    Ingestor(
      Put(s.buffer, GroupOf(c, KeyOf(e)), KeyOf(e), p.row),
      s.seen[e.id := c.sessionOf(e.occurredAt)],
      s.slots[KeyOf(e) := SlotOf(c, e)],
      if Compare(s.heads[p.shard], PositionOf(e)) == ADVANCED then s.heads[p.shard := Some(PositionOf(e))] else s.heads)
  }

  function Commit(c: Config, s: Ingestor, p: Prepared): Ending<Decision> {
    if p.Rejected? then Returned(s, Report(p, false, p.reason, None))
    else
      var kept := Retain(c, s, c.sessionOf(p.event.occurredAt));
      if p.shard !in kept.heads then Raised(kept, UnknownShard)
      else
        var progress := Compare(kept.heads[p.shard], PositionOf(p.event));
        Returned(Applied(c, kept, p), Report(p, true, AcceptedReason(p.event, progress), Some(progress)))
  }

  // ---- calls ----------------------------------------------------------------------------------------------------

  function Submit(c: Config, s: Ingestor, parsed: Parsed): Ending<Decision> {
    match Prepare(c, s, NOTHING, parsed)
    case Err(why) => Raised(s, why)
    case Ok(p) => Commit(c, s, p)
  }

  function PrepareAll(c: Config, s: Ingestor, o: Overlay, events: seq<Parsed>): (r: Result<seq<Prepared>, Refusal>)
    ensures r.Ok? ==> |r.value| == |events|
    ensures r.Err? ==> r.error != UnknownShard
    decreases |events|
  {
    if events == [] then Ok([])
    else match Prepare(c, s, o, events[0])
      case Err(why) => Err(why)
      case Ok(p) =>
        match PrepareAll(c, s, Absorb(c, o, p), events[1..])
        case Err(why) => Err(why)
        case Ok(rest) => Ok([p] + rest)
  }

  function CommitAll(c: Config, s: Ingestor, items: seq<Prepared>): (r: Ending<seq<Decision>>)
    ensures r.Returned? ==> |r.value| == |items|
    decreases |items|
  {
    if items == [] then Returned(s, [])
    else match Commit(c, s, items[0])
      case Raised(after, why) => Raised(after, why)
      case Returned(after, d) =>
        match CommitAll(c, after, items[1..])
        case Raised(last, why) => Raised(last, why)
        case Returned(last, rest) => Returned(last, [d] + rest)
  }

  function SubmitBatch(c: Config, s: Ingestor, events: seq<Parsed>): Ending<seq<Decision>> {
    match PrepareAll(c, s, NOTHING, events)
    case Err(why) => Raised(s, why)
    case Ok(items) => CommitAll(c, s, items)
  }

  /** One event after another, stopping at the first exception. */
  function SubmitEach(c: Config, s: Ingestor, events: seq<Parsed>): (r: Ending<seq<Decision>>)
    ensures r.Returned? ==> |r.value| == |events|
    decreases |events|
  {
    if events == [] then Returned(s, [])
    else match Submit(c, s, events[0])
      case Raised(after, why) => Raised(after, why)
      case Returned(after, d) =>
        match SubmitEach(c, after, events[1..])
        case Raised(last, why) => Raised(last, why)
        case Returned(last, rest) => Returned(last, [d] + rest)
  }

  // ---- retention -------------------------------------------------------------------------------------------------

  lemma SubsetSize<T>(a: set<T>, b: set<T>)
    requires a <= b
    ensures |a| <= |b|
  {
    assert b == a + (b - a);
  }

  lemma {:induction false} Oldest(dates: set<Date>) returns (m: Date)
    requires |dates| > 0
    ensures m in dates && forall d :: d in dates ==> m <= d
  {
    m :| m in dates;
    var others := dates - {m};
    if |others| > 0 {
      var rest := Oldest(others);
      assert forall d :: d in dates ==> d == m || d in others;
      if rest < m { m := rest; }
    }
  }

  /** Keeping the newest r dates keeps at most r of them, all newer than any dropped. */
  lemma NewestIsTop(dates: set<Date>, r: nat)
    ensures |Newest(dates, r)| <= r
    ensures forall d, e :: d in Newest(dates, r) && e in dates && e !in Newest(dates, r) ==> e < d
  {
    var top := Newest(dates, r);
    if |top| > r {
      var m := Oldest(top);
      assert top - {m} <= Newer(dates, m);
      SubsetSize(top - {m}, Newer(dates, m));
    }
    forall d, e | d in top && e in dates && e !in top ensures e < d {
      if d <= e {
        SubsetSize(Newer(dates, e), Newer(dates, d));
      }
    }
  }

  lemma NewestKeepsRecent(dates: set<Date>, r: nat, d: Date)
    requires d in dates && |dates| <= r
    ensures d in Newest(dates, r)
  {
    assert d !in Newer(dates, d);
    SubsetSize(Newer(dates, d) + {d}, dates);
  }
}
