/** One immutable key of the S3 adapter in market_pipeline_lib/storage.py: any number of
    writers racing on it with If-None-Match (section 13.1.2 of RFC 9110), with retries,
    lost responses and requests that land late. */
module ObjectStore {
  import opened Common

  newtype Byte = b: int | 0 <= b < 256

  type Bytes = seq<Byte>

  /** SHA-256 taken as injective. */
  datatype Digest = Sha256(of: Bytes)

  datatype ProviderId = VersionId(version: nat) | Tag(etag: string)

  datatype Receipt = Receipt(provider: ProviderId, hash: Digest, size: nat, etag: Option<string>, created: bool)

  /** What the service does and reports: versioning, encryption at rest, its own checksum
      and entity tags. */
  datatype Bucket = Bucket(versioned: bool, encrypts: bool, reportsChecksum: bool, etagOf: Bytes -> Option<string>, maxAttempts: nat)

  datatype Head = Head(hash: Digest, size: nat, encrypted: bool, checksum: Option<Digest>, etag: Option<string>, version: Option<nat>)

  datatype Refusal = OtherBytes | UploadUnverified | NotEncrypted | ChecksumMismatch | NoIdentity | Missing | CallFailed

  // ---- one writer's code -------------------------------------------------------------------------

  function ReceiptFromHead(bytes: Bytes, head: Head, conflict: bool, created: bool): (r: Result<Receipt, Refusal>)
    ensures r.Ok? ==> r.value.hash == Sha256(bytes) == head.hash && r.value.size == |bytes| == head.size
    ensures r.Ok? ==> r.value.created == created && head.encrypted
    ensures conflict && head.hash != Sha256(bytes) ==> r == Err(OtherBytes)
  {
    if head.hash != Sha256(bytes) || head.size != |bytes| then Err(if conflict then OtherBytes else UploadUnverified)
    else if !head.encrypted then Err(NotEncrypted)
    else if head.checksum.Some? && head.checksum != Some(Sha256(bytes)) then Err(ChecksumMismatch)
    else if head.version.Some? then Ok(Receipt(VersionId(head.version.value), head.hash, head.size, head.etag, created))
    else if head.etag.Some? then Ok(Receipt(Tag(head.etag.value), head.hash, head.size, head.etag, created))
    else Err(NoIdentity)
  }

  /** What a call to the service comes back with. A HEAD answer is the last of its own
      retries. */
  datatype Answer =
    | Found(head: Head) | Absent
    | Stored(version: Option<nat>) | PreconditionFailed
    | Fault(retryable: bool)

  datatype Pc =
    | Checking
    | Putting(attempt: nat)
    | Reconciling
    | Confirming(version: Option<nat>)
    | Done(result: Result<Receipt, Refusal>)

  function Concluded(bytes: Bytes, a: Answer, conflict: bool, created: bool): Pc {
    match a
    case Found(head) => Done(ReceiptFromHead(bytes, head, conflict, created))
    case Absent => Done(Err(Missing))
    case _ => Done(Err(CallFailed))
  }

  /** The writer's next move after an answer. */
  function React(b: Bucket, bytes: Bytes, pc: Pc, a: Answer): Pc {
    match pc
    case Checking => if a.Absent? then Putting(1) else Concluded(bytes, a, true, false)
    case Putting(n) => (
      match a
      case Stored(version) => Confirming(version)
      case PreconditionFailed => Reconciling
      case Fault(retryable) => if n >= b.maxAttempts || !retryable then Done(Err(CallFailed)) else Putting(n + 1)
      case _ => Done(Err(CallFailed)))
    case Reconciling => Concluded(bytes, a, true, false)
    case Confirming(_) => Concluded(bytes, a, false, true)
    case Done(_) => pc
  }

  function After(b: Bucket, bytes: Bytes, answers: nat -> Answer, n: nat): Pc {
    if n == 0 then Checking else React(b, bytes, After(b, bytes, answers, n - 1), answers(n - 1))
  }

  /** put: a HEAD, then at most maxAttempts conditional PUTs, then a HEAD. */
  method Put(b: Bucket, bytes: Bytes, answers: nat -> Answer) returns (r: Result<Receipt, Refusal>, calls: nat)
    requires b.maxAttempts >= 1
    ensures After(b, bytes, answers, calls) == Done(r)
    ensures calls <= b.maxAttempts + 2
  {
    hide ReceiptFromHead;
    var existing := answers(0);
    calls := 1;
    if !existing.Absent? {
      if existing.Found? { return ReceiptFromHead(bytes, existing.head, true, false), calls; }
      return Err(CallFailed), calls;
    }
    var version: Option<nat> := None;
    var attempt, stored := 1, false;
    while !stored
      invariant 1 <= attempt <= b.maxAttempts && calls == (if stored then attempt + 1 else attempt)
      invariant After(b, bytes, answers, calls) == if stored then Confirming(version) else Putting(attempt)
      decreases b.maxAttempts - attempt, !stored
    {
      var a := answers(calls);
      calls := calls + 1;
      match a {
        case Stored(v) => version, stored := v, true;
        case PreconditionFailed =>
          var raced := answers(calls);
          calls := calls + 1;
          match raced {
            case Found(head) => return ReceiptFromHead(bytes, head, true, false), calls;
            case Absent => return Err(Missing), calls;
            case _ => return Err(CallFailed), calls;
          }
        case Fault(retryable) =>
          if attempt == b.maxAttempts || !retryable { return Err(CallFailed), calls; }
          attempt := attempt + 1;
        case _ => return Err(CallFailed), calls;
      }
    }
    var confirmed := answers(calls);
    calls := calls + 1;
    match confirmed {
      case Found(head) => r := ReceiptFromHead(bytes, head, false, true);
      case Absent => r := Err(Missing);
      case _ => r := Err(CallFailed);
    }
  }

  /** What delete may do with a receipt. */
  datatype Cleanup = NotOurs | RefusedWithoutVersion | Removes(version: nat)

  function Delete(r: Receipt): (c: Cleanup)
    ensures c.Removes? ==> r.created && r.provider == VersionId(c.version)
  {
    if !r.created then NotOurs
    else if r.provider.Tag? then RefusedWithoutVersion
    else Removes(r.provider.version)
  }

  // ---- the key and its writers ---------------------------------------------------------------------

  datatype Version = Version(bytes: Bytes, creator: nat)

  /** versions is everything ever stored at the key, live what it holds now. */
  datatype Store = Store(versions: seq<Version>, live: Option<nat>)

  datatype Writer = Writer(bytes: Bytes, pc: Pc)

  type Request = (nat, nat)

  /** flight: PUTs sent and not yet processed; replies: PUTs processed. */
  datatype System = System(store: Store, writers: map<nat, Writer>, flight: set<Request>, replies: map<Request, Answer>)

  datatype Step =
    | Begin(w: nat, bytes: Bytes)
    | Look(w: nat)
    | Send(w: nat)
    | Land(w: nat, attempt: nat)
    | Reply(w: nat)
    | Lose(w: nat, retryable: bool)
    | Remove(w: nat)

  function Initial(): System {
    System(Store([], None), map[], {}, map[])
  }

  function HeadOf(b: Bucket, v: Version, i: nat): Head {
    Head(Sha256(v.bytes), |v.bytes|, b.encrypts, if b.reportsChecksum then Some(Sha256(v.bytes)) else None,
         b.etagOf(v.bytes), if b.versioned then Some(i) else None)
  }

  /** HEAD of the key, or of one version of it. */
  function HeadAnswer(b: Bucket, s: Store, pinned: Option<nat>): Answer {
    if s.live.None? || s.live.value >= |s.versions| then Absent
    else if pinned.Some? && pinned != s.live then Absent
    else Found(HeadOf(b, s.versions[s.live.value], s.live.value))
  }

  function Moved(b: Bucket, s: System, w: nat, a: Answer): System
    requires w in s.writers
  {
    s.(writers := s.writers[w := s.writers[w].(pc := React(b, s.writers[w].bytes, s.writers[w].pc, a))])
  }

  /** One step; a step that is not possible changes nothing. */
  function Next(b: Bucket, s: System, step: Step): System {
    match step
    case Begin(w, bytes) =>
      if w in s.writers then s else s.(writers := s.writers[w := Writer(bytes, Checking)])
    case Look(w) =>
      if w !in s.writers then s
      else (
        match s.writers[w].pc
        case Confirming(version) => Moved(b, s, w, HeadAnswer(b, s.store, version))
        case Checking => Moved(b, s, w, HeadAnswer(b, s.store, None))
        case Reconciling => Moved(b, s, w, HeadAnswer(b, s.store, None))
        case _ => s)
    case Send(w) =>
      if w in s.writers && s.writers[w].pc.Putting? && (w, s.writers[w].pc.attempt) !in s.replies
      then s.(flight := s.flight + {(w, s.writers[w].pc.attempt)}) else s
    case Land(w, n) =>
      if (w, n) !in s.flight || w !in s.writers then s
      else if s.store.live.Some? then
        s.(flight := s.flight - {(w, n)}, replies := s.replies[(w, n) := PreconditionFailed])
      else
        var i := |s.store.versions|;
        s.(flight := s.flight - {(w, n)},
           replies := s.replies[(w, n) := Stored(if b.versioned then Some(i) else None)],
           store := Store(s.store.versions + [Version(s.writers[w].bytes, w)], Some(i)))
    case Reply(w) =>
      if w in s.writers && s.writers[w].pc.Putting? && (w, s.writers[w].pc.attempt) in s.replies
      then Moved(b, s, w, s.replies[(w, s.writers[w].pc.attempt)]) else s
    case Lose(w, retryable) =>
      if w in s.writers && !s.writers[w].pc.Done? then Moved(b, s, w, Fault(retryable)) else s
    case Remove(w) =>
      if w in s.writers && s.writers[w].pc.Done? && s.writers[w].pc.result.Ok? &&
         Delete(s.writers[w].pc.result.value).Removes? && s.store.live == Some(Delete(s.writers[w].pc.result.value).version)
      then s.(store := s.store.(live := None)) else s
  }

  function Execute(b: Bucket, steps: seq<Step>): System {
    if steps == [] then Initial() else Next(b, Execute(b, steps[..|steps| - 1]), steps[|steps| - 1])
  }

  // ---- what every run keeps ----------------------------------------------------------------------------

  /** The version a receipt or a reply means; an unversioned key only ever has one. */
  predicate Means(b: Bucket, version: Option<nat>, i: nat) {
    if b.versioned then version == Some(i) else version.None? && i == 0
  }

  predicate RefersTo(b: Bucket, r: Receipt, i: nat) {
    if b.versioned then r.provider == VersionId(i) else r.provider.Tag? && i == 0
  }

  ghost predicate MadeBy(b: Bucket, s: Store, w: nat, version: Option<nat>) {
    exists i :: 0 <= i < |s.versions| && Means(b, version, i) && s.versions[i].creator == w
  }

  /** The receipt's hash and size are those of the bytes stored, which are the writer's
      own; a created receipt is for a version this very writer stored. */
  ghost predicate Backs(b: Bucket, s: Store, w: nat, bytes: Bytes, r: Receipt) {
    exists i :: 0 <= i < |s.versions| && BacksAt(b, s, w, bytes, r, i)
  }

  ghost predicate BacksAt(b: Bucket, s: Store, w: nat, bytes: Bytes, r: Receipt, i: nat)
    requires i < |s.versions|
  {
    && RefersTo(b, r, i) && s.versions[i].bytes == bytes
    && r.hash == Sha256(s.versions[i].bytes) && r.size == |s.versions[i].bytes|
    && (r.created ==> s.versions[i].creator == w)
  }

  ghost predicate WriterInv(b: Bucket, s: Store, w: nat, writer: Writer) {
    match writer.pc
    case Confirming(version) => MadeBy(b, s, w, version)
    case Done(result) => result.Ok? ==> Backs(b, s, w, writer.bytes, result.value)
    case _ => true
  }

  ghost predicate StoreInv(b: Bucket, s: System) {
    && (s.store.live.Some? ==> s.store.live.value < |s.store.versions|)
    && (!b.versioned ==> |s.store.versions| <= 1 && (|s.store.versions| == 1 ==> s.store.live == Some(0)))
    && (forall i :: 0 <= i < |s.store.versions| ==>
          s.store.versions[i].creator in s.writers && s.store.versions[i].bytes == s.writers[s.store.versions[i].creator].bytes)
    && (forall q :: q in s.replies && s.replies[q].Stored? ==> MadeBy(b, s.store, q.0, s.replies[q].version))
    && (forall q :: q in s.replies ==> s.replies[q].Stored? || s.replies[q].PreconditionFailed?)
  }

  ghost predicate Inv(b: Bucket, s: System) {
    StoreInv(b, s) && forall w :: w in s.writers ==> WriterInv(b, s.store, w, s.writers[w])
  }

  lemma WriterStays(b: Bucket, s: Store, t: Store, w: nat, writer: Writer)
    requires s.versions <= t.versions && WriterInv(b, s, w, writer)
    ensures WriterInv(b, t, w, writer)
  {
    match writer.pc
    case Confirming(version) => MadeByStays(b, s, t, w, version);
    case Done(result) =>
      if result.Ok? {
        var i :| 0 <= i < |s.versions| && BacksAt(b, s, w, writer.bytes, result.value, i);
        assert BacksAt(b, t, w, writer.bytes, result.value, i);
      }
    case _ =>
  }

  lemma MadeByStays(b: Bucket, s: Store, t: Store, w: nat, version: Option<nat>)
    requires s.versions <= t.versions && MadeBy(b, s, w, version)
    ensures MadeBy(b, t, w, version)
  {
    var i :| 0 <= i < |s.versions| && Means(b, version, i) && s.versions[i].creator == w;
    assert t.versions[i] == s.versions[i];
  }

  /** A HEAD answer turns into a receipt only for the version it saw. */
  lemma ConcludeBacks(b: Bucket, s: System, w: nat, version: Option<nat>, conflict: bool, created: bool)
    requires StoreInv(b, s) && w in s.writers
    requires created ==> MadeBy(b, s.store, w, version)
    ensures var pc := Concluded(s.writers[w].bytes, HeadAnswer(b, s.store, version), conflict, created);
            pc.Done? && (pc.result.Ok? ==> Backs(b, s.store, w, s.writers[w].bytes, pc.result.value))
  {
    var pc := Concluded(s.writers[w].bytes, HeadAnswer(b, s.store, version), conflict, created);
    if pc.result.Ok? {
      var i := s.store.live.value;
      assert BacksAt(b, s.store, w, s.writers[w].bytes, pc.result.value, i);
    }
  }

  lemma MovedKeeps(b: Bucket, s: System, w: nat, a: Answer)
    requires Inv(b, s) && w in s.writers
    requires WriterInv(b, s.store, w, Moved(b, s, w, a).writers[w])
    ensures Inv(b, Moved(b, s, w, a))
  {
    hide WriterInv, React, MadeBy;
  }

  lemma LookKeeps(b: Bucket, s: System, w: nat)
    requires Inv(b, s)
    ensures Inv(b, Next(b, s, Look(w)))
  {
    hide StoreInv, HeadAnswer, MadeBy, Concluded, Backs;
    if w in s.writers {
      var pc := s.writers[w].pc;
      assert WriterInv(b, s.store, w, s.writers[w]);
      match pc
      case Confirming(version) =>
        ConcludeBacks(b, s, w, version, false, true);
        MovedKeeps(b, s, w, HeadAnswer(b, s.store, version));
      case Checking =>
        ConcludeBacks(b, s, w, None, true, false);
        MovedKeeps(b, s, w, HeadAnswer(b, s.store, None));
      case Reconciling =>
        ConcludeBacks(b, s, w, None, true, false);
        MovedKeeps(b, s, w, HeadAnswer(b, s.store, None));
      case _ =>
    }
  }

  lemma LandKeeps(b: Bucket, s: System, w: nat, n: nat)
    requires Inv(b, s)
    ensures Inv(b, Next(b, s, Land(w, n)))
  {
    var t := Next(b, s, Land(w, n));
    hide WriterInv;
    if (w, n) in s.flight && w in s.writers && s.store.live.None? {
      var i := |s.store.versions|;
      assert t.store.versions[i] == Version(s.writers[w].bytes, w);
      assert MadeBy(b, t.store, w, t.replies[(w, n)].version);
      forall q | q in t.replies && t.replies[q].Stored? ensures MadeBy(b, t.store, q.0, t.replies[q].version) {
        if q != (w, n) { MadeByStays(b, s.store, t.store, q.0, s.replies[q].version); }
      }
      forall x | x in t.writers ensures WriterInv(b, t.store, x, t.writers[x]) {
        WriterStays(b, s.store, t.store, x, s.writers[x]);
      }
    }
  }

  lemma RemoveKeeps(b: Bucket, s: System, w: nat)
    requires Inv(b, s)
    ensures Inv(b, Next(b, s, Remove(w)))
  {
    var t := Next(b, s, Remove(w));
    if t != s {
      assert WriterInv(b, s.store, w, s.writers[w]);
      var r := s.writers[w].pc.result.value;
      var i :| 0 <= i < |s.store.versions| && BacksAt(b, s.store, w, s.writers[w].bytes, r, i);
      assert b.versioned;
      hide WriterInv;
      forall q | q in t.replies && t.replies[q].Stored? ensures MadeBy(b, t.store, q.0, t.replies[q].version) {
        MadeByStays(b, s.store, t.store, q.0, s.replies[q].version);
      }
      forall x | x in t.writers ensures WriterInv(b, t.store, x, t.writers[x]) {
        WriterStays(b, s.store, t.store, x, s.writers[x]);
      }
    }
  }

  lemma NextKeeps(b: Bucket, s: System, step: Step)
    requires Inv(b, s)
    ensures Inv(b, Next(b, s, step))
  {
    match step
    case Begin(w, bytes) => hide MadeBy, Backs;
    case Look(w) => LookKeeps(b, s, w);
    case Send(w) =>
    case Land(w, n) => LandKeeps(b, s, w, n);
    case Reply(w) => hide MadeBy, Backs;
    case Lose(w, retryable) => hide MadeBy, Backs;
    case Remove(w) => RemoveKeeps(b, s, w);
  }

  lemma {:induction false} EveryRunKeepsInv(b: Bucket, steps: seq<Step>)
    ensures Inv(b, Execute(b, steps))
    decreases |steps|
  {
    if steps != [] {
      hide Inv, Next;
      EveryRunKeepsInv(b, steps[..|steps| - 1]);
      NextKeeps(b, Execute(b, steps[..|steps| - 1]), steps[|steps| - 1]);
    }
  }

  // ---- the guarantees ------------------------------------------------------------------------------------

  ghost predicate Holds(s: System, w: nat, r: Receipt) {
    w in s.writers && s.writers[w].pc == Done(Ok(r))
  }

  /** On every run a receipt names one stored version, with the hash and size of the bytes
      in it, and those are the bytes the writer came with: a writer with other bytes never
      gets a receipt for it. */
  lemma ReceiptMatchesStoredBytes(b: Bucket, steps: seq<Step>, w: nat, r: Receipt)
    requires Holds(Execute(b, steps), w, r)
    ensures var s := Execute(b, steps);
            exists i :: 0 <= i < |s.store.versions| && RefersTo(b, r, i) && s.store.versions[i].bytes == s.writers[w].bytes
              && r.hash == Sha256(s.store.versions[i].bytes) && r.size == |s.store.versions[i].bytes|
              && (r.created ==> s.store.versions[i].creator == w)
  {
    EveryRunKeepsInv(b, steps);
    hide Execute, StoreInv;
    var s := Execute(b, steps);
    assert WriterInv(b, s.store, w, s.writers[w]);
    var i :| 0 <= i < |s.store.versions| && BacksAt(b, s.store, w, s.writers[w].bytes, r, i);
    assert RefersTo(b, r, i);
  }

  lemma RefersToOne(b: Bucket, r: Receipt, i: nat, j: nat)
    requires RefersTo(b, r, i) && RefersTo(b, r, j)
    ensures i == j
  {
  }

  /** However many writers, retries and lost responses: at most one receipt per version
      says created. */
  lemma OneCreatedReceiptPerVersion(b: Bucket, steps: seq<Step>, w: nat, r: Receipt, x: nat, q: Receipt, i: nat)
    requires Holds(Execute(b, steps), w, r) && Holds(Execute(b, steps), x, q)
    requires r.created && q.created && RefersTo(b, r, i) && RefersTo(b, q, i)
    ensures w == x && r == q
  {
    hide Execute;
    ReceiptMatchesStoredBytes(b, steps, w, r);
    ReceiptMatchesStoredBytes(b, steps, x, q);
    var s := Execute(b, steps);
    var m :| 0 <= m < |s.store.versions| && RefersTo(b, r, m) && s.store.versions[m].bytes == s.writers[w].bytes
              && r.hash == Sha256(s.store.versions[m].bytes) && r.size == |s.store.versions[m].bytes|
              && (r.created ==> s.store.versions[m].creator == w);
    var n :| 0 <= n < |s.store.versions| && RefersTo(b, q, n) && s.store.versions[n].bytes == s.writers[x].bytes
              && q.hash == Sha256(s.store.versions[n].bytes) && q.size == |s.store.versions[n].bytes|
              && (q.created ==> s.store.versions[n].creator == x);
    RefersToOne(b, r, i, m);
    RefersToOne(b, q, i, n);
  }

  /** A writer that finds other bytes at the key is refused, on its first look and after
      a lost race alike. */
  lemma OtherBytesAreRefused(b: Bucket, s: System, w: nat)
    requires Inv(b, s) && w in s.writers && (s.writers[w].pc.Checking? || s.writers[w].pc.Reconciling?)
    requires s.store.live.Some? && s.store.versions[s.store.live.value].bytes != s.writers[w].bytes
    ensures Next(b, s, Look(w)).writers[w].pc == Done(Err(OtherBytes))
  {
    hide WriterInv;
  }

  /** The version a step may take away: only one its own caller created. */
  ghost predicate OwnRemoval(b: Bucket, s: System, step: Step, i: nat) {
    && step.Remove? && step.w in s.writers && s.writers[step.w].pc.Done? && s.writers[step.w].pc.result.Ok?
    && s.writers[step.w].pc.result.value.created && RefersTo(b, s.writers[step.w].pc.result.value, i)
    && i < |s.store.versions| && s.store.versions[i].creator == step.w
  }

  /** Immutability: no step changes the bytes of a version, none replaces the live one by
      another, and only its creator's delete takes it away. */
  lemma LiveVersionIsImmutable(b: Bucket, steps: seq<Step>, step: Step, i: nat)
    requires i < |Execute(b, steps).store.versions|
    ensures var s, t := Execute(b, steps), Next(b, Execute(b, steps), step);
            && i < |t.store.versions| && t.store.versions[i] == s.store.versions[i]
            && (s.store.live == Some(i) ==> t.store.live == Some(i) || (t.store.live.None? && OwnRemoval(b, s, step, i)))
  {
    EveryRunKeepsInv(b, steps);
    hide Execute;
    var s := Execute(b, steps);
    if step.Remove? && Next(b, s, step) != s {
      assert WriterInv(b, s.store, step.w, s.writers[step.w]);
      var r := s.writers[step.w].pc.result.value;
      var j :| 0 <= j < |s.store.versions| && BacksAt(b, s.store, step.w, s.writers[step.w].bytes, r, j);
      assert RefersTo(b, r, j);
    }
  }

  /** Without versioning nothing is ever removed: the one version stays for good. */
  lemma UnversionedKeyIsWriteOnce(b: Bucket, steps: seq<Step>)
    requires !b.versioned
    ensures |Execute(b, steps).store.versions| <= 1
    ensures |Execute(b, steps).store.versions| == 1 ==> Execute(b, steps).store.live == Some(0)
  {
    EveryRunKeepsInv(b, steps);
    hide Execute, WriterInv;
  }

  function Own(b: Bucket, bytes: Bytes): Receipt {
    Receipt(VersionId(0), Sha256(bytes), |bytes|, b.etagOf(bytes), true)
  }

  function AfterOwn(b: Bucket, bytes: Bytes): System {
    System(Store([Version(bytes, 0)], Some(0)), map[0 := Writer(bytes, Done(Ok(Own(b, bytes))))], {}, map[(0, 1) := Stored(Some(0))])
  }

  lemma FirstWriterCreates(b: Bucket, bytes: Bytes)
    requires b.versioned && b.encrypts && b.maxAttempts >= 1
    ensures var s1 := Next(b, Next(b, Initial(), Begin(0, bytes)), Look(0));
            var s2 := Next(b, Next(b, s1, Send(0)), Land(0, 1));
            Next(b, Next(b, s2, Reply(0)), Look(0)) == AfterOwn(b, bytes)
  {
    var s1 := System(Store([], None), map[0 := Writer(bytes, Putting(1))], {}, map[]);
    var s2 := System(Store([Version(bytes, 0)], Some(0)), map[0 := Writer(bytes, Putting(1))], {}, map[(0, 1) := Stored(Some(0))]);
    assert Next(b, Next(b, Initial(), Begin(0, bytes)), Look(0)) == s1;
    assert Next(b, Next(b, s1, Send(0)), Land(0, 1)) == s2;
  }

  lemma SecondWriterReuses(b: Bucket, bytes: Bytes)
    requires b.versioned && b.encrypts
    ensures var s := Next(b, Next(b, AfterOwn(b, bytes), Begin(1, bytes)), Look(1));
            var t := Next(b, s, Remove(0));
            t.store.live.None? && Holds(t, 1, Own(b, bytes).(created := false)) && RefersTo(b, Own(b, bytes).(created := false), 0)
  {
  }

  /** What a receipt without created does not promise: the object it names can be deleted
      under it by the writer that did create it. */
  lemma ReusedReceiptCanDangle(b: Bucket, bytes: Bytes)
    requires b.versioned && b.encrypts && b.maxAttempts >= 1
    ensures var s := Execute(b, [Begin(0, bytes), Look(0), Send(0), Land(0, 1), Reply(0), Look(0), Begin(1, bytes), Look(1), Remove(0)]);
            && s.store.live.None?
            && exists r :: Holds(s, 1, r) && !r.created && RefersTo(b, r, 0)
  {
    hide Next, AfterOwn, Own, Execute, RefersTo;
    var run := [Begin(0, bytes), Look(0), Send(0), Land(0, 1), Reply(0), Look(0), Begin(1, bytes), Look(1), Remove(0)];
    FirstWriterCreates(b, bytes);
    SecondWriterReuses(b, bytes);
    NoSteps(b, run);
    PairOfSteps(b, run, 2);
    PairOfSteps(b, run, 4);
    PairOfSteps(b, run, 6);
    PairOfSteps(b, run, 8);
    LastStep(b, run);
    assert run[..|run| - 1] == run[..8];
  }

  lemma NoSteps(b: Bucket, run: seq<Step>)
    ensures Execute(b, run[..0]) == Initial()
  {
  }

  lemma LastStep(b: Bucket, run: seq<Step>)
    requires run != []
    ensures Execute(b, run) == Next(b, Execute(b, run[..|run| - 1]), run[|run| - 1])
  {
    hide Next;
  }

  lemma PairOfSteps(b: Bucket, run: seq<Step>, n: nat)
    requires 2 <= n <= |run|
    ensures Execute(b, run[..n]) == Next(b, Next(b, Execute(b, run[..n - 2]), run[n - 2]), run[n - 1])
  {
    hide Next;
    assert run[..n][..n - 1] == run[..n - 1] && run[..n - 1][..n - 2] == run[..n - 2];
    assert run[..n][n - 1] == run[n - 1] && run[..n - 1][n - 2] == run[n - 2];
    assert Execute(b, run[..n - 1]) == Next(b, Execute(b, run[..n - 2]), run[n - 2]);
  }
}
