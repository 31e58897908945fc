/** The token bucket of market_pipeline_lib/rate_limit.py: reservations under a
    lock may drive the balance negative, callers sleep outside the lock. */
module RateLimit {
  import opened Common

  datatype Limits = Limits(capacity: real, rate: real)

  datatype Bucket = Bucket(tokens: real, updated: real)

  datatype LimitError = BadConfiguration | NonPositiveRequest | AboveBurst

  ghost predicate ValidLimits(l: Limits) {
    l.capacity >= 1.0 && l.rate > 0.0
  }

  function Refill(l: Limits, b: Bucket, now: real): Bucket {
    var elapsed := now - b.updated;
    var full := b.tokens + elapsed * l.rate;
    Bucket(
      if elapsed > 0.0 then (if full < l.capacity then full else l.capacity) else b.tokens,
      now)
  }

  predicate Admissible(l: Limits, n: int) {
    1 <= n && n as real <= l.capacity
  }

  /** How long the caller holding balance `tokens` must sleep. */
  function WaitFor(l: Limits, tokens: real): real
    requires l.rate > 0.0
  {
    if tokens < 0.0 then -tokens / l.rate else 0.0
  }

  // ---- whole runs ------------------------------------------------------------

  /** One entry of the lock: a reservation, a refused request or a balance query,
      stamped with the clock reading taken under the lock. */
  datatype Call = Acquire(n: int, now: real) | Peek(now: real)

  function Step(l: Limits, b: Bucket, c: Call): Bucket {
    match c
    case Peek(now) => Refill(l, b, now)
    case Acquire(n, now) =>
      if Admissible(l, n) then
        var r := Refill(l, b, now);
        r.(tokens := r.tokens - n as real)
      else b
  }

  ghost function After(l: Limits, b: Bucket, calls: seq<Call>): Bucket {
    if calls == [] then b
    else Step(l, After(l, b, calls[..|calls| - 1]), calls[|calls| - 1])
  }

  lemma AfterAppend(l: Limits, b: Bucket, calls: seq<Call>, c: Call)
    ensures After(l, b, calls + [c]) == Step(l, After(l, b, calls), c)
  {
    assert (calls + [c])[..|calls|] == calls;
  }

  /** The clock contract: readings never go back. */
  ghost predicate MonotoneFrom(t: real, calls: seq<Call>) {
    && (forall i :: 0 <= i < |calls| ==> t <= calls[i].now)
    && (forall i, j :: 0 <= i < j < |calls| ==> calls[i].now <= calls[j].now)
  }

  ghost predicate Admitted(l: Limits, c: Call) {
    c.Acquire? && Admissible(l, c.n)
  }

  /** When the i-th call may proceed: the lock reading plus its own wait. */
  ghost function GrantTime(l: Limits, b: Bucket, calls: seq<Call>, i: nat): real
    requires ValidLimits(l) && i < |calls|
  {
    calls[i].now + WaitFor(l, After(l, b, calls[..i + 1]).tokens)
  }

  /** What a call takes out of the bucket. */
  ghost function Cost(l: Limits, c: Call): real {
    if Admitted(l, c) then c.n as real else 0.0
  }

  /** Tokens granted by calls lo, .., hi - 1. */
  ghost function Granted(l: Limits, calls: seq<Call>, lo: nat, hi: nat): real
    requires lo <= hi <= |calls|
  {
    if lo == hi then 0.0 else Granted(l, calls, lo, hi - 1) + Cost(l, calls[hi - 1])
  }

  lemma {:induction false} GrantedSplitsFirst(l: Limits, calls: seq<Call>, lo: nat, hi: nat)
    requires lo < hi <= |calls|
    ensures Granted(l, calls, lo, hi) == Cost(l, calls[lo]) + Granted(l, calls, lo + 1, hi)
  {
    if lo + 1 < hi {
      GrantedSplitsFirst(l, calls, lo, hi - 1);
    }
  }

  lemma {:induction false} GrantedIsNonNegative(l: Limits, calls: seq<Call>, lo: nat, hi: nat)
    requires lo <= hi <= |calls|
    ensures Granted(l, calls, lo, hi) >= 0.0
    decreases hi
  {
    if lo < hi { GrantedIsNonNegative(l, calls, lo, hi - 1); }
  }

  ghost function Max(a: real, b: real): real { if a < b then b else a }

  /** No refill lifts the balance above capacity, and the bucket's stamp is the
      last clock reading that was not a refused request. */
  lemma {:induction false} BalanceStaysBelowCapacity(l: Limits, b: Bucket, calls: seq<Call>)
    requires ValidLimits(l) && b.tokens <= l.capacity
    requires MonotoneFrom(b.updated, calls)
    ensures After(l, b, calls).tokens <= l.capacity
    ensures b.updated <= After(l, b, calls).updated
    ensures calls != [] ==> After(l, b, calls).updated <= calls[|calls| - 1].now
    ensures calls != [] && (calls[|calls| - 1].Peek? || Admitted(l, calls[|calls| - 1])) ==>
              After(l, b, calls).updated == calls[|calls| - 1].now
    ensures calls != [] && Admitted(l, calls[|calls| - 1]) ==>
              After(l, b, calls).tokens <= l.capacity - calls[|calls| - 1].n as real
  {
    if calls != [] {
      BalanceStaysBelowCapacity(l, b, calls[..|calls| - 1]);
    }
  }

  /** Tokens the bucket earns in t seconds. */
  ghost function Earned(l: Limits, t: real): real {
    l.rate * t
  }

  lemma EarnedIsLinear(l: Limits, x: real, y: real)
    ensures Earned(l, x + y) == Earned(l, x) + Earned(l, y)
    ensures Earned(l, x - y) == Earned(l, x) - Earned(l, y)
  {
  }

  lemma EarnedKeepsOrder(l: Limits, x: real)
    requires ValidLimits(l)
    ensures Earned(l, x) > 0.0 <==> x > 0.0
  {
  }

  /** One call: the balance grows by at most the refill and pays for what it grants. */
  lemma StepEarns(l: Limits, b: Bucket, c: Call)
    requires ValidLimits(l) && b.updated <= c.now
    ensures Step(l, b, c).tokens + Cost(l, c) <= b.tokens + Earned(l, Step(l, b, c).updated) - Earned(l, b.updated)
  {
    EarnedIsLinear(l, c.now, b.updated);
    assert (c.now - b.updated) * l.rate == Earned(l, c.now - b.updated);
    hide Earned;
  }

  /** From the i-th reservation on, the balance is at most what it left plus the
      refill, minus everything granted since. */
  lemma {:induction false} BalanceAccounting(l: Limits, b: Bucket, calls: seq<Call>, i: nat, hi: nat)
    requires ValidLimits(l) && b.tokens <= l.capacity
    requires MonotoneFrom(b.updated, calls)
    requires i < hi <= |calls| && Admitted(l, calls[i])
    ensures After(l, b, calls[..hi]).tokens + Granted(l, calls, i + 1, hi)
         <= After(l, b, calls[..i + 1]).tokens + Earned(l, After(l, b, calls[..hi]).updated) - Earned(l, calls[i].now)
    decreases hi
  {
    hide Earned, Step, Refill;
    BalanceStaysBelowCapacity(l, b, calls[..i + 1]);
    if hi > i + 1 {
      BalanceAccounting(l, b, calls, i, hi - 1);
      assert calls[..hi][..hi - 1] == calls[..hi - 1];
      BalanceStaysBelowCapacity(l, b, calls[..hi - 1]);
      StepEarns(l, After(l, b, calls[..hi - 1]), calls[hi - 1]);
    }
  }

  lemma WaitCoversDebt(l: Limits, tokens: real)
    requires ValidLimits(l)
    ensures Earned(l, WaitFor(l, tokens)) == Max(0.0, -tokens)
    ensures WaitFor(l, tokens) >= 0.0
  {
    if tokens < 0.0 {
      var w := -tokens / l.rate;
      assert w * l.rate == -tokens;
    }
  }

  /** The accounting of two admissions i <= j at their grant times. */
  lemma PairAccounting(l: Limits, b: Bucket, calls: seq<Call>, i: nat, j: nat)
    requires ValidLimits(l) && b.tokens <= l.capacity
    requires MonotoneFrom(b.updated, calls)
    requires i <= j < |calls| && Admitted(l, calls[i]) && Admitted(l, calls[j])
    ensures var bi, bj := After(l, b, calls[..i + 1]).tokens, After(l, b, calls[..j + 1]).tokens;
            && bj + Granted(l, calls, i, j + 1) - calls[i].n as real
               <= bi + Earned(l, calls[j].now) - Earned(l, calls[i].now)
            && bi <= l.capacity - calls[i].n as real
            && Earned(l, GrantTime(l, b, calls, i)) == Earned(l, calls[i].now) + Max(0.0, -bi)
            && Earned(l, GrantTime(l, b, calls, j)) == Earned(l, calls[j].now) + Max(0.0, -bj)
    ensures Granted(l, calls, i, j + 1) >= calls[i].n as real + (if i < j then 1.0 else 0.0)
  {
    hide Earned, Step, Refill;
    BalanceAccounting(l, b, calls, i, j + 1);
    BalanceStaysBelowCapacity(l, b, calls[..i + 1]);
    BalanceStaysBelowCapacity(l, b, calls[..j + 1]);
    GrantedSplitsFirst(l, calls, i, j + 1);
    if i < j { GrantedIsNonNegative(l, calls, i + 1, j); }
    var bi, bj := After(l, b, calls[..i + 1]).tokens, After(l, b, calls[..j + 1]).tokens;
    WaitCoversDebt(l, bi);
    WaitCoversDebt(l, bj);
    EarnedIsLinear(l, calls[i].now, WaitFor(l, bi));
    EarnedIsLinear(l, calls[j].now, WaitFor(l, bj));
  }

  /** The rate limit itself: between the grants of any two admissions i <= j, at
      most capacity plus rate times the elapsed time was granted. */
  lemma WindowBound(l: Limits, b: Bucket, calls: seq<Call>, i: nat, j: nat)
    requires ValidLimits(l) && b.tokens <= l.capacity
    requires MonotoneFrom(b.updated, calls)
    requires i <= j < |calls| && Admitted(l, calls[i]) && Admitted(l, calls[j])
    ensures Granted(l, calls, i, j + 1)
         <= l.capacity + Earned(l, GrantTime(l, b, calls, j) - GrantTime(l, b, calls, i))
  {
    var gi, gj := GrantTime(l, b, calls, i), GrantTime(l, b, calls, j);
    hide Earned, Step, Refill, After, GrantTime;
    PairAccounting(l, b, calls, i, j);
    EarnedIsLinear(l, gj, gi);
  }

  /** Grants happen in lock order, strictly so once a caller has to queue. */
  lemma GrantsFollowLockOrder(l: Limits, b: Bucket, calls: seq<Call>, i: nat, j: nat)
    requires ValidLimits(l) && b.tokens <= l.capacity
    requires MonotoneFrom(b.updated, calls)
    requires i < j < |calls| && Admitted(l, calls[i]) && Admitted(l, calls[j])
    ensures GrantTime(l, b, calls, i) <= GrantTime(l, b, calls, j)
    ensures After(l, b, calls[..i + 1]).tokens < 0.0 ==> GrantTime(l, b, calls, i) < GrantTime(l, b, calls, j)
  {
    hide Earned, Step, Refill;
    var gi, gj := GrantTime(l, b, calls, i), GrantTime(l, b, calls, j);
    PairAccounting(l, b, calls, i, j);
    WaitCoversDebt(l, After(l, b, calls[..j + 1]).tokens);
    if After(l, b, calls[..i + 1]).tokens < 0.0 {
      EarnedIsLinear(l, gj, gi);
      EarnedKeepsOrder(l, gj - gi);
    }
  }

  /** Each wait is the least one: a sleep keeps the reserved balance non-negative
      exactly when it is at least this long. */
  lemma WaitIsLeast(l: Limits, tokens: real, w: real)
    requires ValidLimits(l) && w >= 0.0
    ensures tokens + l.rate * w >= 0.0 <==> w >= WaitFor(l, tokens)
  {
    var least := WaitFor(l, tokens);
    assert Earned(l, w) == l.rate * w;
    assert w >= 0.0 ==> Earned(l, w) >= 0.0 by { EarnedKeepsOrder(l, w); assert Earned(l, 0.0) == 0.0; }
    hide Earned;
    WaitCoversDebt(l, tokens);
    EarnedIsLinear(l, least, w);
    EarnedKeepsOrder(l, least - w);
  }

  /** The clock contract is needed: read 0, 60, 0, 60 and a bucket of one token
      per minute grants two tokens at the same instant. */
  lemma BackwardsClockOverGrants()
    ensures var l := Limits(1.0, 1.0 / 60.0);
            var calls := [Acquire(1, 0.0), Acquire(1, 60.0), Peek(0.0), Acquire(1, 60.0)];
            Granted(l, calls, 1, 4) > l.capacity + Earned(l, GrantTime(l, Bucket(1.0, 0.0), calls, 3) - GrantTime(l, Bucket(1.0, 0.0), calls, 1))
  {
    var l := Limits(1.0, 1.0 / 60.0);
    var b := Bucket(1.0, 0.0);
    var calls := [Acquire(1, 0.0), Acquire(1, 60.0), Peek(0.0), Acquire(1, 60.0)];
    assert calls[..4] == calls && calls[..4][..3] == calls[..3];
    assert calls[..3][..2] == calls[..2] && calls[..2][..1] == calls[..1] && calls[..1][..0] == [];
    assert After(l, b, calls[..1]) == Bucket(0.0, 0.0);
    assert After(l, b, calls[..2]) == Bucket(0.0, 60.0);
    assert After(l, b, calls[..3]) == Bucket(0.0, 0.0);
    assert After(l, b, calls[..4]) == Bucket(0.0, 60.0);
    assert Granted(l, calls, 1, 2) == 1.0;
    assert Granted(l, calls, 1, 3) == 1.0;
  }

  // ---- the class ---------------------------------------------------------------

  lemma DeficitIsTheDebt(l: Limits, tokens: real, deficit: real, wait: real)
    requires ValidLimits(l) && deficit == -tokens
    requires wait == if deficit > 0.0 then deficit / l.rate else 0.0
    ensures wait == WaitFor(l, tokens) >= 0.0
  {
    WaitCoversDebt(l, tokens);
  }

  class ManualClock {
    var now: real
    var sleeps: seq<real>
    const advanceOnSleep: bool

    constructor (start: real, advanceOnSleep: bool)
      ensures now == start && sleeps == [] && this.advanceOnSleep == advanceOnSleep
    {
      now, sleeps := start, [];
      this.advanceOnSleep := advanceOnSleep;
    }

    method Sleep(seconds: real) returns (ok: bool)
      modifies this
      ensures ok <==> seconds >= 0.0
      ensures sleeps == if ok then old(sleeps) + [seconds] else old(sleeps)
      ensures now == if ok && advanceOnSleep then old(now) + seconds else old(now)
    {
      ok := seconds >= 0.0;
      if ok {
        sleeps := sleeps + [seconds];
        if advanceOnSleep { now := now + seconds; }
      }
    }

    method Advance(seconds: real) returns (ok: bool)
      modifies `now
      ensures ok <==> seconds >= 0.0
      ensures now == if ok then old(now) + seconds else old(now)
    {
      ok := seconds >= 0.0;
      if ok { now := now + seconds; }
    }
  }

  class TokenBucketRateLimiter {
    const limits: Limits
    const clock: ManualClock
    var tokens: real
    var updated: real
    // Everything that went through the lock, from the full bucket at `born`.
    ghost const born: real
    ghost var calls: seq<Call>

    ghost predicate Valid()
      reads this, clock
    {
      && ValidLimits(limits)
      && MonotoneFrom(born, calls)
      && (forall i :: 0 <= i < |calls| ==> calls[i].now <= clock.now)
      && born <= updated <= clock.now
      && Bucket(tokens, updated) == After(limits, Bucket(limits.capacity, born), calls)
    }

    constructor (requestsPerMinute: int, capacity: int, clock: ManualClock)
      requires requestsPerMinute > 0 && capacity >= 1
      ensures Valid() && this.clock == clock && calls == []
      ensures limits == Limits(capacity as real, requestsPerMinute as real / 60.0)
      ensures tokens == capacity as real && updated == born == clock.now
    {
      limits := Limits(capacity as real, requestsPerMinute as real / 60.0);
      this.clock := clock;
      tokens, updated := capacity as real, clock.now;
      born, calls := clock.now, [];
    }

    method RefillLocked()
      modifies `tokens, `updated
      ensures Bucket(tokens, updated) == Refill(limits, old(Bucket(tokens, updated)), clock.now)
      ensures updated == clock.now
    {
      var now := clock.now;
      var elapsed := now - updated;
      if elapsed > 0.0 {
        var full := tokens + elapsed * limits.rate;
        tokens := if limits.capacity < full then limits.capacity else full;
      }
      updated := now;
    }

    method AvailableTokens() returns (available: real)
      requires Valid()
      modifies this
      ensures Valid() && calls == old(calls) + [Peek(clock.now)]
      ensures available == tokens
    {
      AfterAppend(limits, Bucket(limits.capacity, born), calls, Peek(clock.now));
      RefillLocked();
      calls := calls + [Peek(clock.now)];
      available := tokens;
    }

    /** The locked half of an admission: refill, then let the balance go negative. */
    method ReserveLocked(n: int) returns (wait: real)
      requires Valid() && Admissible(limits, n)
      modifies this
      ensures Valid() && calls == old(calls) + [Call.Acquire(n, clock.now)]
      ensures wait == WaitFor(limits, tokens) >= 0.0
    {
      AfterAppend(limits, Bucket(limits.capacity, born), calls, Call.Acquire(n, clock.now));
      hide Refill, After, WaitFor, Earned;
      RefillLocked();
      var deficit := n as real - tokens;
      tokens := tokens - n as real;
      wait := if deficit > 0.0 then deficit / limits.rate else 0.0;
      DeficitIsTheDebt(limits, tokens, deficit, wait);
      calls := calls + [Call.Acquire(n, clock.now)];
    }

    /** Reserves under the lock, then sleeps the wait on the clock. */
    method Acquire(n: int) returns (r: Result<real, LimitError>)
      requires Valid()
      modifies this, clock
      ensures Valid()
      ensures r.Ok? <==> Admissible(limits, n)
      ensures r.Err? ==> r.error == (if n < 1 then NonPositiveRequest else AboveBurst)
      ensures r.Err? ==> unchanged(this) && unchanged(clock)
      ensures r.Ok? ==> calls == old(calls) + [Call.Acquire(n, old(clock.now))]
      ensures r.Ok? ==> r.value == WaitFor(limits, tokens) >= 0.0
      ensures r.Ok? ==> old(clock.now) + r.value == GrantTime(limits, Bucket(limits.capacity, born), calls, |calls| - 1)
      ensures r.Ok? ==> clock.sleeps == old(clock.sleeps) + (if r.value > 0.0 then [r.value] else [])
      ensures r.Ok? ==> clock.now == old(clock.now) + (if clock.advanceOnSleep then r.value else 0.0)
    {
      if n < 1 { return Err(NonPositiveRequest); }
      if n as real > limits.capacity { return Err(AboveBurst); }
      hide Refill, After;
      var wait := ReserveLocked(n);
      assert calls[..|calls|] == calls;
      if wait > 0.0 {
        var _ := clock.Sleep(wait);
      }
      r := Ok(wait);
    }
  }

  /** What requests_per_minute and burst must be; burst defaults to the rate. */
  method NewLimiter(requestsPerMinute: int, burst: Option<int>, clock: ManualClock)
    returns (r: Result<TokenBucketRateLimiter, LimitError>)
    ensures r.Ok? <==> requestsPerMinute > 0 && (burst.Some? ==> burst.value >= 1)
    ensures r.Ok? ==> r.value.Valid() && fresh(r.value) && r.value.clock == clock && r.value.calls == []
    ensures r.Ok? ==> r.value.limits.capacity == (if burst.Some? then burst.value else requestsPerMinute) as real
    ensures r.Ok? ==> r.value.limits.rate == requestsPerMinute as real / 60.0
  {
    if requestsPerMinute <= 0 { return Err(BadConfiguration); }
    var capacity := if burst.Some? then burst.value else requestsPerMinute;
    if capacity < 1 { return Err(BadConfiguration); }
    var limiter := new TokenBucketRateLimiter(requestsPerMinute, capacity, clock);
    r := Ok(limiter);
  }
}
