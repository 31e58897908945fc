/** Every recorded decision was made by the ingestor its consumer had built up, and an
    accepted bar is buffered or published until its consumer crashes. */
module RedisDurability {
  import opened Common
  import opened Partitions
  import opened Ingest
  import opened IngestBatch
  import opened IngestRuns
  import opened IngestEviction
  import opened RedisStream
  import opened RedisSafety

  // ---- the ingestor behind a decision ----------------------------------------------------------

  /** What retention and flushes leave of an ingestor. */
  ghost predicate LeftOf(a: Ingestor, b: Ingestor) {
    b.heads == a.heads && Remains(a, b) && (b.buffer == a.buffer || b.buffer == map[])
  }

  /** The consumer's ingestor after its latest decision among the first n since it started. */
  ghost function LastState(k: Settings, starts: set<Started>, xs: seq<Classified>, consumer: string, n: nat): Ingestor
    requires n <= |xs|
  {
    if n == 0 || Started(consumer, n) in starts then Empty(k.shards)
    else if xs[n - 1].consumer == consumer then xs[n - 1].after
    else LastState(k, starts, xs, consumer, n - 1)
  }

  /** The decision was made by what is left of the consumer's ingestor. */
  ghost predicate OwnDecision(k: Settings, s: System, i: nat)
    requires i < |s.shared.classified|
  {
    var x := s.shared.classified[i];
    LeftOf(LastState(k, s.starts, s.shared.classified, x.consumer, i), x.before) && Decided(k, s.shared.server, x)
  }

  // ---- the rows behind a buffer --------------------------------------------------------------------

  /** The event an entry decodes to, when it is one for this stream. */
  function EventOf(k: Settings, log: seq<Fields>, id: nat): Option<Event> {
    if id >= |log| then None
    else match DecodeEntry(k, log[id])
      case None => None
      case Some(doc) => (match Admit(k.ingest, Parse(k.ingest, doc)) case Ok(e) => Some(e) case Err(_) => None)
  }

  /** The decision stored this bar. */
  predicate Stores(k: Settings, log: seq<Fields>, consumer: string, x: Classified) {
    && x.consumer == consumer && x.decision.accepted
    && EventOf(k, log, x.id).Some?
    && var e := EventOf(k, log, x.id).value; e.instrument in k.ingest.symbols && BarRow(k.ingest, e).Some?
  }

  /** The rows a run of decisions puts into the consumer's buffer. */
  function RowsOf(k: Settings, log: seq<Fields>, consumer: string, xs: seq<Classified>): map<GroupKey, map<SlotKey,
                  Row>> {
    if xs == [] then map[]
    else
      var x, before := xs[|xs| - 1], RowsOf(k, log, consumer, xs[..|xs| - 1]);
      if !Stores(k, log, consumer, x) then before
      else
        var e := EventOf(k, log, x.id).value;
        Put(before, GroupOf(k.ingest, KeyOf(e)), KeyOf(e), BarRow(k.ingest, e).value)
  }

  ghost predicate FlushIsRecorded(k: Settings, s: System, f: Flushed) {
    && f.from <= f.upTo <= |s.shared.classified|
    && f.rows == RowsOf(k, s.shared.server.log, f.consumer, s.shared.classified[f.from..f.upTo])
  }

  ghost predicate WasFlushed(s: System, consumer: string, i: nat) {
    exists f :: f in s.flushed && f.consumer == consumer && f.from <= i < f.upTo
  }

  ghost predicate LifeInv(k: Settings, s: System, name: string)
    requires name in s.processes && name in s.lives
  {
    var life, xs, ingestor := s.lives[name], s.shared.classified, s.processes[name].ingestor;
    && life.since <= life.unpublished <= |xs|
    && LeftOf(LastState(k, s.starts, xs, name, |xs|), ingestor)
    && ingestor.buffer == RowsOf(k, s.shared.server.log, name, xs[life.unpublished..])
    && forall i :: life.since <= i < life.unpublished ==> WasFlushed(s, name, i)
  }

  ghost predicate ChainInv(k: Settings, s: System) {
    && s.lives.Keys == s.processes.Keys
    && (forall start :: start in s.starts ==> start.at <= |s.shared.classified|)
    && (forall i :: 0 <= i < |s.shared.classified| ==> OwnDecision(k, s, i))
    && (forall f :: f in s.flushed ==> FlushIsRecorded(k, s, f))
    && (forall name :: name in s.processes ==> LifeInv(k, s, name))
  }

  // ---- one submission --------------------------------------------------------------------------------

  lemma OneEventBatch(c: Config, s: Ingestor, parsed: Parsed)
    ensures var one, batch := Submit(c, s, parsed), SubmitBatch(c, s, [parsed]);
            && (one.Returned? ==> batch == Returned(one.after, [one.value]))
            && (one.Raised? ==> batch == Raised(one.after, one.why))
  {
    hide Prepare, Commit, Absorb;
    match Prepare(c, s, NOTHING, parsed)
    case Err(_) =>
    case Ok(p) =>
      assert PrepareAll(c, s, Absorb(c, NOTHING, p), []) == Ok([]);
      assert [parsed][1..] == [] && [p] + [] == [p] && [p][1..] == [];
      BatchCommits(c, s, [parsed], [p]);
      var done := Commit(c, s, p);
      assert CommitAll(c, done.after, []) == Returned(done.after, []);
      if done.Returned? { assert [done.value] + [] == [done.value]; }
  }

  /** A submission puts an accepted bar's row into the buffer and leaves it alone otherwise. */
  lemma SubmitPuts(c: Config, s: Ingestor, parsed: Parsed)
    ensures var done := Submit(c, s, parsed);
            && (done.Raised? ==> LeftOf(s, done.after) && done.after.buffer == s.buffer)
            && (done.Returned? && !done.value.accepted ==> done.after == s)
            && (done.Returned? && done.value.accepted ==>
                 && Admit(c, parsed).Ok?
                 && var e := Admit(c, parsed).value;
                    e.instrument in c.symbols && BarRow(c, e).Some? &&
                    done.after.buffer == Put(s.buffer, GroupOf(c, KeyOf(e)), KeyOf(e), BarRow(c, e).value))
  {
    hide Admit, BarRow, GroupOf, Put, Newest, Sessions, Compare;
  }

  // ---- one step ------------------------------------------------------------------------------------------

  /** Decisions and histories stay, the log grows, and every ingestor is what is left of
      the one before, its buffer untouched. */
  ghost predicate NoDecision(s: System, t: System) {
    && t.shared.classified == s.shared.classified && s.shared.server.log <= t.shared.server.log
    && t.starts == s.starts && t.lives == s.lives && t.flushed == s.flushed && t.processes.Keys == s.processes.Keys
    && forall name :: name in s.processes ==>
         LeftOf(s.processes[name].ingestor, t.processes[name].ingestor) && t.processes[name].ingestor.buffer == s.processes[name].ingestor.buffer
  }

  lemma LeftOfTwice(a: Ingestor, b: Ingestor, c: Ingestor)
    requires LeftOf(a, b) && LeftOf(b, c)
    ensures LeftOf(a, c)
  {
  }

  lemma LeftOfSelf(a: Ingestor)
    ensures LeftOf(a, a)
  {
  }

  ghost predicate Known(xs: seq<Classified>, log: seq<Fields>) {
    forall i :: 0 <= i < |xs| ==> xs[i].id < |log|
  }

  lemma {:induction false} RowsStayPut(k: Settings, a: seq<Fields>, b: seq<Fields>, consumer: string,
                                       xs: seq<Classified>)
    requires a <= b && Known(xs, a)
    ensures RowsOf(k, a, consumer, xs) == RowsOf(k, b, consumer, xs)
  {
    hide DecodeEntry, Admit, Put, BarRow, GroupOf;
    if xs != [] {
      RowsStayPut(k, a, b, consumer, xs[..|xs| - 1]);
    }
  }

  lemma DecidedStays(k: Settings, a: Server, b: Server, x: Classified)
    requires a.log <= b.log && Decided(k, a, x)
    ensures Decided(k, b, x)
  {
    hide DecodeEntry, SubmitBatch;
  }

  lemma AllKnown(k: Settings, s: System)
    requires ChainInv(k, s)
    ensures Known(s.shared.classified, s.shared.server.log)
  {
    hide LifeInv, FlushIsRecorded, LastState, DecodeEntry, SubmitBatch, LeftOf;
    forall i | 0 <= i < |s.shared.classified| ensures s.shared.classified[i].id < |s.shared.server.log| {
      assert OwnDecision(k, s, i);
    }
  }

  lemma NoDecisionOwn(k: Settings, s: System, t: System, i: nat)
    requires NoDecision(s, t) && i < |s.shared.classified| && OwnDecision(k, s, i)
    ensures OwnDecision(k, t, i)
  {
    hide LastState, Decided, LeftOf;
    DecidedStays(k, s.shared.server, t.shared.server, s.shared.classified[i]);
  }

  lemma NoDecisionFlush(k: Settings, s: System, t: System, f: Flushed)
    requires NoDecision(s, t) && FlushIsRecorded(k, s, f) && Known(s.shared.classified, s.shared.server.log)
    ensures FlushIsRecorded(k, t, f)
  {
    hide RowsOf, LeftOf;
    RowsStayPut(k, s.shared.server.log, t.shared.server.log, f.consumer, s.shared.classified[f.from..f.upTo]);
  }

  lemma NoDecisionLife(k: Settings, s: System, t: System, name: string)
    requires NoDecision(s, t) && name in s.processes && name in s.lives && LifeInv(k, s, name) && Known(s.shared.classified, s.shared.server.log)
    ensures LifeInv(k, t, name)
  {
    hide RowsOf, LastState, LeftOf;
    var xs := s.shared.classified;
    LeftOfTwice(LastState(k, s.starts, xs, name, |xs|), s.processes[name].ingestor, t.processes[name].ingestor);
    RowsStayPut(k, s.shared.server.log, t.shared.server.log, name, xs[s.lives[name].unpublished..]);
    forall i | t.lives[name].since <= i < t.lives[name].unpublished ensures WasFlushed(t, name, i) {
      assert WasFlushed(s, name, i);
    }
  }

  lemma NoDecisionKeeps(k: Settings, s: System, t: System)
    requires ChainInv(k, s) && NoDecision(s, t)
    ensures ChainInv(k, t)
  {
    AllKnown(k, s);
    hide LifeInv, FlushIsRecorded, OwnDecision, LeftOf, Known;
    forall i | 0 <= i < |t.shared.classified| ensures OwnDecision(k, t, i) { NoDecisionOwn(k, s, t, i); }
    forall f | f in t.flushed ensures FlushIsRecorded(k, t, f) { NoDecisionFlush(k, s, t, f); }
    forall name | name in t.processes ensures LifeInv(k, t, name) { NoDecisionLife(k, s, t, name); }
  }

  // ---- a decision -----------------------------------------------------------------------------------------

  ghost predicate Decides(k: Settings, s: System, t: System, name: string, x: Classified) {
    && name in s.processes && t.processes.Keys == s.processes.Keys
    && t.shared.classified == s.shared.classified + [x] && t.shared.server.log == s.shared.server.log
    && t.starts == s.starts && t.lives == s.lives && t.flushed == s.flushed
    && x.consumer == name && x.before == s.processes[name].ingestor && x.after == t.processes[name].ingestor && Decided(k, s.shared.server, x)
    && forall other :: other in s.processes && other != name ==> t.processes[other].ingestor == s.processes[other].ingestor
  }

  lemma {:induction false} LastStateStays(k: Settings, starts: set<Started>, xs: seq<Classified>, x: Classified,
                                          consumer: string, n: nat)
    requires n <= |xs|
    ensures LastState(k, starts, xs + [x], consumer, n) == LastState(k, starts, xs, consumer, n)
  {
    if n > 0 {
      assert (xs + [x])[n - 1] == xs[n - 1];
      LastStateStays(k, starts, xs, x, consumer, n - 1);
    }
  }

  lemma LastStateNext(k: Settings, starts: set<Started>, xs: seq<Classified>, x: Classified, consumer: string)
    requires forall start :: start in starts ==> start.at <= |xs|
    ensures LastState(k, starts, xs + [x], consumer, |xs| + 1)
         == if x.consumer == consumer then x.after else LastState(k, starts, xs, consumer, |xs|)
  {
    assert Started(consumer, |xs| + 1) !in starts;
    LastStateStays(k, starts, xs, x, consumer, |xs|);
  }

  /** A decision's effect on the rows. */
  lemma DecisionPuts(k: Settings, log: seq<Fields>, s: Server, consumer: string, xs: seq<Classified>, x: Classified)
    requires Decided(k, s, x) && s.log == log
    ensures x.consumer == consumer && RowsOf(k, log, consumer, xs) == x.before.buffer ==> RowsOf(k, log, consumer, xs + [x]) == x.after.buffer
    ensures x.consumer != consumer ==> RowsOf(k, log, consumer, xs + [x]) == RowsOf(k, log, consumer, xs)
  {
    hide DecodeEntry, Put, Submit, SubmitBatch, Admit, BarRow, GroupOf;
    assert (xs + [x])[..|xs + [x]| - 1] == xs;
    var parsed := Parse(k.ingest, DecodeEntry(k, log[x.id]).value);
    OneEventBatch(k.ingest, x.before, parsed);
    SubmitPuts(k.ingest, x.before, parsed);
    assert Submit(k.ingest, x.before, parsed).Returned? && Submit(k.ingest, x.before, parsed).value == [x.decision][0];
  }

  lemma FlushStays(k: Settings, s: System, t: System, f: Flushed)
    requires FlushIsRecorded(k, s, f) && t.shared.server.log == s.shared.server.log && s.shared.classified <= t.shared.classified
    ensures FlushIsRecorded(k, t, f)
  {
    hide RowsOf;
    assert t.shared.classified[f.from..f.upTo] == s.shared.classified[f.from..f.upTo];
  }

  lemma OwnDecisionStays(k: Settings, s: System, t: System, name: string, x: Classified, i: nat)
    requires Decides(k, s, t, name, x) && i < |s.shared.classified| && OwnDecision(k, s, i)
    ensures OwnDecision(k, t, i)
  {
    hide Decided, LeftOf, LastState;
    var xs := s.shared.classified;
    assert (xs + [x])[i] == xs[i];
    LastStateStays(k, s.starts, xs, x, xs[i].consumer, i);
    DecidedStays(k, s.shared.server, t.shared.server, xs[i]);
  }

  lemma LifeGoesOn(k: Settings, s: System, t: System, name: string, x: Classified, other: string)
    requires ChainInv(k, s) && Decides(k, s, t, name, x) && other in s.processes
    ensures LifeInv(k, t, other)
  {
    hide Decided, LeftOf, LastState, RowsOf, OwnDecision, FlushIsRecorded;
    var xs, from := s.shared.classified, s.lives[other].unpublished;
    assert LifeInv(k, s, other);
    LastStateNext(k, s.starts, xs, x, other);
    LeftOfSelf(x.after);
    assert (xs + [x])[from..] == xs[from..] + [x];
    DecisionPuts(k, s.shared.server.log, s.shared.server, other, xs[from..], x);
    forall i | t.lives[other].since <= i < t.lives[other].unpublished ensures WasFlushed(t, other, i) {
      assert WasFlushed(s, other, i);
    }
  }

  lemma DecisionKeeps(k: Settings, s: System, t: System, name: string, x: Classified)
    requires ChainInv(k, s) && Decides(k, s, t, name, x)
    ensures ChainInv(k, t)
  {
    hide Decided, LeftOf, LastState, RowsOf, OwnDecision, FlushIsRecorded, LifeInv;
    var xs := s.shared.classified;
    forall i | 0 <= i < |t.shared.classified| ensures OwnDecision(k, t, i) {
      if i < |xs| { OwnDecisionStays(k, s, t, name, x, i); } else { NewDecisionIsOwn(k, s, t, name, x); }
    }
    forall f | f in t.flushed ensures FlushIsRecorded(k, t, f) { FlushStays(k, s, t, f); }
    forall other | other in t.processes ensures LifeInv(k, t, other) { LifeGoesOn(k, s, t, name, x, other); }
  }

  lemma NewDecisionIsOwn(k: Settings, s: System, t: System, name: string, x: Classified)
    requires ChainInv(k, s) && Decides(k, s, t, name, x)
    ensures OwnDecision(k, t, |s.shared.classified|)
  {
    hide LeftOf, LastState, RowsOf, FlushIsRecorded, DecodeEntry, SubmitBatch;
    var xs := s.shared.classified;
    assert LifeInv(k, s, name);
    assert (xs + [x])[|xs|] == x;
    LastStateStays(k, s.starts, xs, x, name, |xs|);
    DecidedStays(k, s.shared.server, t.shared.server, x);
  }

  // ---- what a consumer's step does to its ingestor ------------------------------------------------------------

  ghost predicate Undecided(sh: Shared, p: Process, r: (Shared, Process)) {
    r.0.classified == sh.classified && LeftOf(p.ingestor, r.1.ingestor) && r.1.ingestor.buffer == p.ingestor.buffer
  }

  ghost predicate DecidesOn(k: Settings, name: string, sh: Shared, p: Process, r: (Shared, Process), x: Classified) {
    && r.0.classified == sh.classified + [x] && x.consumer == name && x.before == p.ingestor && x.after == r.1.ingestor
    && Decided(k, sh.server, x)
  }

  lemma SubmitLeaves(c: Config, s: Ingestor, parsed: Parsed)
    requires SubmitBatch(c, s, [parsed]).Raised?
    ensures LeftOf(s, SubmitBatch(c, s, [parsed]).after) && SubmitBatch(c, s, [parsed]).after.buffer == s.buffer
  {
    hide Submit, SubmitBatch;
    OneEventBatch(c, s, parsed);
    SubmitPuts(c, s, parsed);
  }

  lemma HandleDecides(k: Settings, name: string, sh: Shared, p: Process, fault: bool)
    requires p.pc.Working? && p.pc.queue != [] && FieldsOf(sh.server, p.pc.queue[0].id, p.pc.queue[0].fields)
    ensures var r := Handle(k, name, sh, p, fault);
            r.0.server == sh.server && (Undecided(sh, p, r) || DecidesOn(k, name, sh, p, r, Last(r.0.classified)))
  {
    hide SubmitBatch, DecodeEntry, FieldsOf, Decided, LeftOf;
    LeftOfSelf(p.ingestor);
    var d := p.pc.queue[0];
    if DecodeEntry(k, d.fields).Some? && !fault {
      var parsed := Parse(k.ingest, DecodeEntry(k, d.fields).value);
      var done := SubmitBatch(k.ingest, p.ingestor, [parsed]);
      if done.Returned? {
        OneDecision(k.ingest, p.ingestor, parsed);
        assert done.value == [done.value[0]];
        ClassifiedIsSound(k, sh.server, d, Classified(name, d.id, p.ingestor, done.after, done.value[0]));
      } else {
        SubmitLeaves(k.ingest, p.ingestor, parsed);
      }
    }
  }

  /** The latest of some decisions. */
  ghost function Last(xs: seq<Classified>): Classified {
    if xs == [] then Classified("", 0, Empty(map[]), Empty(map[]), Decision("", "", "", false, DUPLICATE_EVENT, 0, None)) else xs[|xs| - 1]
  }

  lemma ActDecides(k: Settings, name: string, sh: Shared, p: Process, fault: bool)
    requires ProcessInv(k, name, sh, p)
    ensures var r := Acts(k, name, sh, p, fault);
            r.0.server.log == sh.server.log && (Undecided(sh, p, r) || DecidesOn(k, name, sh, p, r, Last(r.0.classified)))
  {
    hide Supports, Handle, Claim, UnreadIds, DueIds, ClaimedDeliveries, ReadDeliveries, HandOut, ParkedCopy, LeftOf,
      Decided, HeldInv, HoldAll, HandedOver;
    LeftOfSelf(p.ingestor);
    if p.pc.Working? && p.pc.queue != [] {
      assert InHand(sh, p.held, p.pc.queue[0]);
      HandleDecides(k, name, sh, p, fault);
    } else {
      SameLog(k, name, sh, p);
    }
  }

  lemma SameLog(k: Settings, name: string, sh: Shared, p: Process)
    ensures forall ids :: Claim(sh.server, name, sh.now, k.minIdle, ids).log == sh.server.log && HandOut(sh.server, name, sh.now, ids).log == sh.server.log
  {
  }

  // ---- every run -----------------------------------------------------------------------------------------------

  lemma ActKeepsChain(k: Settings, s: System, name: string, fault: bool)
    requires Inv(k, s) && ChainInv(k, s) && name in s.processes
    ensures ChainInv(k, Next(k, s, Act(name, fault)))
  {
    hide Acts, ChainInv, SharedInv, ProcessInv, LeftOf, Decided;
    var t, r := Next(k, s, Act(name, fault)), Acts(k, name, s.shared, s.processes[name], fault);
    ActDecides(k, name, s.shared, s.processes[name], fault);
    forall other | other in s.processes ensures LeftOf(s.processes[other].ingestor, s.processes[other].ingestor) { LeftOfSelf(s.processes[other].ingestor); }
    if Undecided(s.shared, s.processes[name], r) {
      NoDecisionKeeps(k, s, t);
    } else {
      DecisionKeeps(k, s, t, name, Last(r.0.classified));
    }
  }

  lemma StartKeepsChain(k: Settings, s: System, name: string)
    requires ChainInv(k, s) && name !in s.processes
    ensures ChainInv(k, Next(k, s, Start(name)))
  {
    hide Decided, LeftOf, RowsOf;
    var t, xs := Next(k, s, Start(name)), s.shared.classified;
    LeftOfSelf(Empty(k.shards));
    assert xs[|xs|..] == [] && RowsOf(k, s.shared.server.log, name, []) == map[] by { NoRows(k, s.shared.server.log, name); }
    forall i | 0 <= i < |xs| ensures OwnDecision(k, t, i) {
      assert OwnDecision(k, s, i);
      StartsLater(k, s.starts, Started(name, |xs|), xs, xs[i].consumer, i);
    }
    hide OwnDecision;
    forall f | f in t.flushed ensures FlushIsRecorded(k, t, f) { FlushStays(k, s, t, f); }
    hide FlushIsRecorded;
    forall other | other in t.processes ensures LifeInv(k, t, other) {
      if other != name {
        assert LifeInv(k, s, other);
        LastStateOfOther(k, s.starts, name, xs, other);
        forall i | t.lives[other].since <= i < t.lives[other].unpublished ensures WasFlushed(t, other, i) {
          assert WasFlushed(s, other, i);
        }
      }
    }
  }

  lemma NoRows(k: Settings, log: seq<Fields>, consumer: string)
    ensures RowsOf(k, log, consumer, []) == map[]
  {
  }

  lemma {:induction false} StartsLater(k: Settings, starts: set<Started>, start: Started, xs: seq<Classified>,
                                       consumer: string, n: nat)
    requires n <= |xs| && n < start.at
    ensures LastState(k, starts + {start}, xs, consumer, n) == LastState(k, starts, xs, consumer, n)
  {
    if n > 0 { StartsLater(k, starts, start, xs, consumer, n - 1); }
  }

  lemma LastStateOfOther(k: Settings, starts: set<Started>, name: string, xs: seq<Classified>, other: string)
    requires other != name
    ensures LastState(k, starts + {Started(name, |xs|)}, xs, other, |xs|) == LastState(k, starts, xs, other, |xs|)
  {
    if |xs| > 0 { StartsLater(k, starts, Started(name, |xs|), xs, other, |xs| - 1); }
  }

  lemma CrashKeepsChain(k: Settings, s: System, name: string)
    requires ChainInv(k, s)
    ensures ChainInv(k, Next(k, s, Crash(name)))
  {
    hide Decided, LeftOf, RowsOf, LastState;
    var t := Next(k, s, Crash(name));
    forall i | 0 <= i < |t.shared.classified| ensures OwnDecision(k, t, i) { assert OwnDecision(k, s, i); }
    hide OwnDecision;
    forall f | f in t.flushed ensures FlushIsRecorded(k, t, f) { FlushStays(k, s, t, f); }
    hide FlushIsRecorded;
    forall other | other in t.processes ensures LifeInv(k, t, other) {
      assert LifeInv(k, s, other);
      forall i | t.lives[other].since <= i < t.lives[other].unpublished ensures WasFlushed(t, other, i) {
        assert WasFlushed(s, other, i);
      }
    }
  }

  lemma PublishedStays(k: Settings, s: System, t: System, name: string, i: nat)
    requires s.flushed <= t.flushed && WasFlushed(s, name, i)
    ensures WasFlushed(t, name, i)
  {
    var f :| f in s.flushed && f.consumer == name && f.from <= i < f.upTo;
    assert f in t.flushed;
  }

  lemma PublishKeepsChain(k: Settings, s: System, name: string)
    requires ChainInv(k, s) && name in s.processes
    ensures ChainInv(k, Next(k, s, Publish(name)))
  {
    hide Decided, LeftOf, RowsOf, LastState;
    var t, xs := Next(k, s, Publish(name)), s.shared.classified;
    assert LifeInv(k, s, name);
    var life, p := s.lives[name], s.processes[name];
    var f := Flushed(name, life.unpublished, |xs|, p.ingestor.buffer);
    forall i | 0 <= i < |xs| ensures OwnDecision(k, t, i) { assert OwnDecision(k, s, i); }
    hide OwnDecision;
    assert xs[life.unpublished..] == xs[life.unpublished..|xs|];
    assert FlushIsRecorded(k, t, f);
    forall g | g in t.flushed ensures FlushIsRecorded(k, t, g) {
      if g != f { FlushStays(k, s, t, g); }
    }
    hide FlushIsRecorded;
    assert t.flushed == s.flushed + [f];
    forall other | other in t.processes ensures LifeInv(k, t, other) {
      assert LifeInv(k, s, other);
      if other == name {
        PublishedLife(k, s, t, name, f);
      } else {
        forall i | s.lives[other].since <= i < s.lives[other].unpublished ensures WasFlushed(t, other, i) { PublishedStays(k, s, t, other, i); }
      }
    }
  }

  lemma PublishedLife(k: Settings, s: System, t: System, name: string, f: Flushed)
    requires name in s.processes && name in s.lives && LifeInv(k, s, name) && t == Next(k, s, Publish(name))
    requires t.flushed == s.flushed + [f] && f == Flushed(name, s.lives[name].unpublished, |s.shared.classified|, s.processes[name].ingestor.buffer)
    ensures name in t.processes && name in t.lives && LifeInv(k, t, name)
  {
    hide RowsOf, LastState;
    var xs := s.shared.classified;
    assert xs[|xs|..] == [];
    NoRows(k, s.shared.server.log, name);
    assert f in t.flushed;
    forall i | s.lives[name].since <= i < |xs| ensures WasFlushed(t, name, i) {
      if i < s.lives[name].unpublished { PublishedStays(k, s, t, name, i); }
    }
  }

  lemma EnvironmentKeepsChain(k: Settings, s: System, step: Step)
    requires ChainInv(k, s) && (step.Produce? || step.Trim? || step.Tick?)
    ensures ChainInv(k, Next(k, s, step))
  {
    hide ChainInv, LeftOf;
    forall other | other in s.processes ensures LeftOf(s.processes[other].ingestor, s.processes[other].ingestor) { LeftOfSelf(s.processes[other].ingestor); }
    NoDecisionKeeps(k, s, Next(k, s, step));
  }

  lemma NextKeepsChain(k: Settings, s: System, step: Step)
    requires Inv(k, s) && ChainInv(k, s)
    ensures ChainInv(k, Next(k, s, step))
  {
    hide ChainInv, Inv, Acts;
    match step
    case Start(name) => if name !in s.processes { StartKeepsChain(k, s, name); }
    case Crash(name) => CrashKeepsChain(k, s, name);
    case Publish(name) => if name in s.processes { PublishKeepsChain(k, s, name); }
    case Act(name, fault) => if name in s.processes { ActKeepsChain(k, s, name, fault); }
    case _ => EnvironmentKeepsChain(k, s, step);
  }

  lemma {:induction false} EveryRunKeepsChain(k: Settings, steps: seq<Step>)
    ensures ChainInv(k, Execute(k, steps))
    decreases |steps|
  {
    if steps == [] {
      assert Execute(k, steps) == Initial();
    } else {
      hide Inv, Next, ChainInv;
      EveryRunKeepsInv(k, steps[..|steps| - 1]);
      EveryRunKeepsChain(k, steps[..|steps| - 1]);
      NextKeepsChain(k, Execute(k, steps[..|steps| - 1]), steps[|steps| - 1]);
    }
  }

  // ---- what an acknowledgement is worth ---------------------------------------------------------------------------

  /** The bar's place holds the row of that decision, or of a later one on the same bar. */
  ghost predicate RowKept(k: Settings, log: seq<Fields>, consumer: string, xs: seq<Classified>, i: int, key: SlotKey,
                          rows: map<GroupKey, map<SlotKey, Row>>) {
    exists j :: 0 <= i <= j < |xs| && KeepsAt(k, log, consumer, xs[j], key, rows)
  }

  ghost predicate KeepsAt(k: Settings, log: seq<Fields>, consumer: string, x: Classified, key: SlotKey,
                          rows: map<GroupKey, map<SlotKey, Row>>) {
    Stores(k, log, consumer, x) &&
    var e := EventOf(k, log, x.id).value;
    KeyOf(e) == key && RowAt(rows, GroupOf(k.ingest, key), key) == BarRow(k.ingest, e)
  }

  lemma {:induction false} StoredRowIsKept(k: Settings, log: seq<Fields>, consumer: string, xs: seq<Classified>, i: nat)
    requires i < |xs| && Stores(k, log, consumer, xs[i])
    ensures RowKept(k, log, consumer, xs, i, KeyOf(EventOf(k, log, xs[i].id).value), RowsOf(k, log, consumer, xs))
    decreases |xs|
  {
    hide EventOf, BarRow, GroupOf, KeyOf;
    var n := |xs| - 1;
    var key, x := KeyOf(EventOf(k, log, xs[i].id).value), xs[n];
    var rows, before := RowsOf(k, log, consumer, xs), RowsOf(k, log, consumer, xs[..n]);
    if Stores(k, log, consumer, x) {
      var e := EventOf(k, log, x.id).value;
      PutFiled(k.ingest, before, KeyOf(e), BarRow(k.ingest, e).value);
    }
    if Stores(k, log, consumer, x) && KeyOf(EventOf(k, log, x.id).value) == key {
      assert KeepsAt(k, log, consumer, xs[n], key, rows);
    } else {
      assert xs[..n][i] == xs[i];
      StoredRowIsKept(k, log, consumer, xs[..n], i);
      var j :| i <= j < n && KeepsAt(k, log, consumer, xs[..n][j], key, before);
      assert KeepsAt(k, log, consumer, xs[j], key, rows);
    }
  }

  /** An accepted decision stored a bar. */
  lemma AcceptedStores(k: Settings, s: Server, x: Classified)
    requires Decided(k, s, x) && x.decision.accepted
    ensures Stores(k, s.log, x.consumer, x)
  {
    hide DecodeEntry, Put, Submit, SubmitBatch, Admit, BarRow, GroupOf;
    var parsed := Parse(k.ingest, DecodeEntry(k, s.log[x.id]).value);
    OneEventBatch(k.ingest, x.before, parsed);
    SubmitPuts(k.ingest, x.before, parsed);
    assert Submit(k.ingest, x.before, parsed).Returned? && Submit(k.ingest, x.before, parsed).value == [x.decision][0];
  }

  ghost predicate StillBuffered(k: Settings, s: System, i: nat)
    requires i < |s.shared.classified|
  {
    var xs, name := s.shared.classified, s.shared.classified[i].consumer;
    && name in s.processes && name in s.lives && s.lives[name].unpublished <= i && s.lives[name].unpublished <= |xs|
    && EventOf(k, s.shared.server.log, xs[i].id).Some?
    && var from, key := s.lives[name].unpublished, KeyOf(EventOf(k, s.shared.server.log, xs[i].id).value);
       RowKept(k, s.shared.server.log, name, xs[from..], i - from, key, s.processes[name].ingestor.buffer)
  }

  ghost predicate Published(k: Settings, s: System, i: nat)
    requires i < |s.shared.classified|
  {
    exists f :: f in s.flushed && InFlush(k, s, i, f)
  }

  ghost predicate InFlush(k: Settings, s: System, i: nat, f: Flushed)
    requires i < |s.shared.classified|
  {
    var xs := s.shared.classified;
    && f.consumer == xs[i].consumer && f.from <= i < f.upTo <= |xs| && EventOf(k, s.shared.server.log, xs[i].id).Some?
    && RowKept(k, s.shared.server.log, f.consumer, xs[f.from..f.upTo], i - f.from, KeyOf(EventOf(k, s.shared.server.log, xs[i].id).value), f.rows)
  }

  /** The consumer that decided is gone, or was started again since. */
  ghost predicate CrashedSince(s: System, i: nat)
    requires i < |s.shared.classified|
  {
    var name := s.shared.classified[i].consumer;
    name !in s.processes || name !in s.lives || i < s.lives[name].since
  }

  lemma FlushedIsPublished(k: Settings, s: System, i: nat, f: Flushed)
    requires i < |s.shared.classified| && Stores(k, s.shared.server.log, f.consumer, s.shared.classified[i])
    requires f in s.flushed && FlushIsRecorded(k, s, f) && f.from <= i < f.upTo
    ensures Published(k, s, i)
  {
    hide EventOf, BarRow, RowsOf, RowKept;
    var xs := s.shared.classified;
    assert xs[f.from..f.upTo][i - f.from] == xs[i];
    StoredRowIsKept(k, s.shared.server.log, f.consumer, xs[f.from..f.upTo], i - f.from);
    assert InFlush(k, s, i, f);
  }

  /** An accepted bar is in its consumer's buffer, or went out with a flush, or its
      consumer has crashed since; the row there is the bar's own or that of a later
      accepted event on the same bar. */
  lemma AcceptedIsKept(k: Settings, s: System, i: nat)
    requires ChainInv(k, s) && i < |s.shared.classified| && s.shared.classified[i].decision.accepted
    ensures StillBuffered(k, s, i) || Published(k, s, i) || CrashedSince(s, i)
  {
    hide EventOf, BarRow, RowsOf, RowKept, Decided, FlushIsRecorded, LeftOf, LastState, InFlush, Published;
    var xs, log := s.shared.classified, s.shared.server.log;
    var name := xs[i].consumer;
    assert OwnDecision(k, s, i);
    AcceptedStores(k, s.shared.server, xs[i]);
    if !CrashedSince(s, i) {
      assert LifeInv(k, s, name);
      var from := s.lives[name].unpublished;
      if i < from {
        assert WasFlushed(s, name, i);
        var f :| f in s.flushed && f.consumer == name && f.from <= i < f.upTo;
        FlushedIsPublished(k, s, i, f);
      } else {
        assert xs[from..][i - from] == xs[i];
        StoredRowIsKept(k, log, name, xs[from..], i - from);
      }
    }
  }

  /** On every interleaving, an entry acknowledged on a consumer's own decision was decided
      on by the ingestor that consumer had built up since it started; and when the decision
      accepted the bar, the bar is still buffered there or published, unless the consumer
      has crashed since. */
  lemma AcknowledgedBarIsKept(k: Settings, steps: seq<Step>, id: nat)
    requires id in Execute(k, steps).shared.acked && Execute(k, steps).shared.acked[id].why.ByIngest?
    ensures var s := Execute(k, steps);
            var i := s.shared.acked[id].why.at;
            && i < |s.shared.classified| && s.shared.classified[i].id == id
            && s.shared.classified[i].consumer == s.shared.acked[id].consumer && OwnDecision(k, s, i)
            && (s.shared.classified[i].decision.accepted ==> StillBuffered(k, s, i) || Published(k, s, i) || CrashedSince(s, i))
  {
    hide Execute, Decided, OwnDecision, StillBuffered, Published, CrashedSince, LifeInv, FlushIsRecorded;
    EveryRunKeepsInv(k, steps);
    EveryRunKeepsChain(k, steps);
    var s := Execute(k, steps);
    assert Supports(k, s.shared, id, s.shared.acked[id]);
    var i := s.shared.acked[id].why.at;
    assert OwnDecision(k, s, i);
    if s.shared.classified[i].decision.accepted { AcceptedIsKept(k, s, i); }
  }
}
