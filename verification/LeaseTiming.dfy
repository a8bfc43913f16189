/**
 * The lease of a claimed job against its renewals (asr/job.rs): clocks are read in nanoseconds, what the table stores
 * and compares is cut to milliseconds.
 */
module LeaseTiming {

  const MILLISECOND := 1_000_000
  const LEASE := 30_000 * MILLISECOND
  const RENEW := 5_000 * MILLISECOND

  /** canonical_time, as the number of whole milliseconds. */
  function Stored(time: nat): nat {
    time / MILLISECOND
  }

  /**
   * One coordinator call that may renew. `check` is the clock read that decides whether renewal is due, `renew` the
   * repository's own read, `local` the read that sets the next due time. `forced` calls renew without the check.
   */
  datatype Call = Call(start: nat, check: nat, renew: nat, local: nat, end: nat, forced: bool)

  predicate InOrder(call: Call, span: nat) {
    call.start <= call.check <= call.renew <= call.local <= call.end <= call.start + span
  }

  function Before(claim: Call, calls: seq<Call>, i: nat): Call
    requires i <= |calls|
  {
    if i == 0 then claim else calls[i - 1]
  }

  /** The call begins after the one before it has ended, at most `period` after its start, and takes at most `span`. */
  predicate Follows(before: Call, call: Call, period: nat, span: nat) {
    InOrder(call, span) && before.end <= call.start <= before.start + period
  }

  predicate Schedule(claim: Call, calls: seq<Call>, period: nat, span: nat) {
    && InOrder(claim, span) && claim.renew == claim.local
    && forall i :: 0 <= i < |calls| ==> Follows(Before(claim, calls, i), calls[i], period, span)
  }

  /** The call whose renewal, or claim, is in force after the first n calls. */
  function InForce(claim: Call, calls: seq<Call>, n: nat): Call
    requires n <= |calls|
  {
    if n == 0 then claim
    else
      var current := InForce(claim, calls, n - 1);
      if Renews(current, calls[n - 1]) then calls[n - 1] else current
  }

  /** renew_if_due against the local due time, or a call that always renews. */
  predicate Renews(current: Call, call: Call) {
    call.forced || call.check >= current.local + RENEW
  }

  /** The statement's own test when it renews: lease_expires_at > now. */
  predicate LeaseHolds(current: Call, call: Call) {
    Stored(current.renew + LEASE) > Stored(call.renew)
  }

  predicate NeverLapses(claim: Call, calls: seq<Call>) {
    forall i :: 0 <= i < |calls| && Renews(InForce(claim, calls, i), calls[i]) ==>
      LeaseHolds(InForce(claim, calls, i), calls[i])
  }

  function Lesser(a: nat, b: nat): nat {
    if a < b then a else b
  }

  /**
   * The longest a renewal can come after the one in force: that one ends late but before the next call, the last
   * poll before it falls due again comes a nanosecond early, and the call after that a period later reads late.
   */
  function LongestDelay(period: nat, span: nat): nat {
    if period == 0 then span else Lesser(span, period) + RENEW - 1 + period + span
  }

  /** That delay leaves a millisecond of the lease, which the cut of stored times can take. */
  predicate SafePolling(period: nat, span: nat) {
    LongestDelay(period, span) + MILLISECOND <= LEASE
  }

  /** Where calls may take as long as a period it is the period and two spans that 25 seconds must cover. */
  lemma SafePollingOfShortCalls(period: nat, span: nat)
    requires 0 < period && span <= period
    ensures SafePolling(period, span) <==> period + 2 * span <= LEASE - RENEW - MILLISECOND + 1
  {
  }

  lemma StoredAhead(lease: nat, now: nat)
    requires now + MILLISECOND <= lease
    ensures Stored(lease) > Stored(now)
  {
  }

  /**
   * The call before a renewal is the one in force, or it found the renewal not yet due and came after the one in
   * force.
   */
  predicate Recent(current: Call, before: Call, period: nat, span: nat) {
    || before == current
    || (before.start < current.local + RENEW && current.local <= current.renew + Lesser(span, period))
  }

  lemma {:induction false} CallsAreRecent(claim: Call, calls: seq<Call>, period: nat, span: nat, n: nat)
    requires Schedule(claim, calls, period, span) && n <= |calls|
    ensures InOrder(InForce(claim, calls, n), span)
    ensures Recent(InForce(claim, calls, n), Before(claim, calls, n), period, span)
    decreases n
  {
    if n > 0 {
      CallsAreRecent(claim, calls, period, span, n - 1);
      assert Follows(Before(claim, calls, n - 1), calls[n - 1], period, span);
      if n < |calls| {
        assert Follows(calls[n - 1], calls[n], period, span);
      }
    }
  }

  /** Without a period every call starts when the claim does. */
  lemma {:induction false} NothingMovesWithoutPeriod(claim: Call, calls: seq<Call>, span: nat, n: nat)
    requires Schedule(claim, calls, 0, span) && n <= |calls|
    ensures Before(claim, calls, n).start == claim.start <= Before(claim, calls, n).end
    ensures claim.start <= InForce(claim, calls, n).renew
    decreases n
  {
    if n > 0 {
      NothingMovesWithoutPeriod(claim, calls, span, n - 1);
      assert Follows(Before(claim, calls, n - 1), calls[n - 1], 0, span);
    }
  }

  lemma NoRenewalIsLater(claim: Call, calls: seq<Call>, period: nat, span: nat, i: nat)
    requires Schedule(claim, calls, period, span) && i < |calls|
    ensures calls[i].renew <= InForce(claim, calls, i).renew + LongestDelay(period, span)
  {
    assert Follows(Before(claim, calls, i), calls[i], period, span);
    if period == 0 {
      NothingMovesWithoutPeriod(claim, calls, span, i);
    } else {
      CallsAreRecent(claim, calls, period, span, i);
    }
  }

  /** With safe polling the stored lease has never lapsed at a renewal, for every schedule. */
  lemma SafePollingNeverLapses(claim: Call, calls: seq<Call>, period: nat, span: nat)
    requires Schedule(claim, calls, period, span) && SafePolling(period, span)
    ensures NeverLapses(claim, calls)
  {
    forall i | 0 <= i < |calls| && Renews(InForce(claim, calls, i), calls[i])
      ensures LeaseHolds(InForce(claim, calls, i), calls[i])
    {
      NoRenewalIsLater(claim, calls, period, span, i);
      StoredAhead(InForce(claim, calls, i).renew + LEASE, calls[i].renew);
    }
  }

  // The bound is exact

  /** A call that finds nothing due. */
  function Idle(at: nat): Call {
    Call(at, at, at, at, at, false)
  }

  /** Just short of a full millisecond. */
  const CLAIM_TIME := MILLISECOND - 1
  const FIRST_CLAIM := Call(CLAIM_TIME, CLAIM_TIME, CLAIM_TIME, CLAIM_TIME, CLAIM_TIME, true)

  /** A renewal at the time of the claim (as on entering transcription) that ends as late as the next poll allows. */
  function LateFirst(period: nat, span: nat): Call {
    var end := CLAIM_TIME + Lesser(span, period);
    Call(CLAIM_TIME, CLAIM_TIME, CLAIM_TIME, end, end, true)
  }

  /** A poll a whole period after the last that found nothing due, reading the clock late. */
  function LateLast(period: nat, span: nat): Call {
    var start := LateFirst(period, span).local + RENEW - 1 + period;
    Call(start, start + span, start + span, start + span, start + span, false)
  }

  function LateSchedule(period: nat, span: nat): (calls: seq<Call>)
    ensures |calls| == RENEW + 2
    ensures calls[0] == LateFirst(period, span) && calls[RENEW + 1] == LateLast(period, span)
    ensures forall i :: 1 <= i <= RENEW ==> calls[i] == Idle(LateFirst(period, span).local + (i - 1))
  {
    var first := LateFirst(period, span);
    [first] + seq(RENEW, i requires 0 <= i < RENEW => Idle(first.local + i)) + [LateLast(period, span)]
  }

  lemma LateScheduleRuns(period: nat, span: nat)
    requires 0 < period
    ensures Schedule(FIRST_CLAIM, LateSchedule(period, span), period, span)
  {
    var calls := LateSchedule(period, span);
    forall i | 0 <= i < |calls|
      ensures Follows(Before(FIRST_CLAIM, calls, i), calls[i], period, span)
    {
      LateCallFollows(period, span, i);
    }
  }

  lemma LateCallFollows(period: nat, span: nat, i: nat)
    requires 0 < period && i <= RENEW + 1
    ensures var calls := LateSchedule(period, span);
            Follows(Before(FIRST_CLAIM, calls, i), calls[i], period, span)
  {
    var calls, local := LateSchedule(period, span), LateFirst(period, span).local;
    if i == RENEW + 1 {
      assert calls[RENEW] == Idle(local + (RENEW - 1));
    } else if i > 1 {
      assert calls[i] == Idle(local + (i - 1)) && calls[i - 1] == Idle(local + (i - 2));
    } else if i == 1 {
      assert calls[1] == Idle(local);
    }
  }

  lemma {:induction false} FirstStaysInForce(period: nat, span: nat, n: nat)
    requires 1 <= n <= RENEW + 1
    ensures InForce(FIRST_CLAIM, LateSchedule(period, span), n) == LateFirst(period, span)
    decreases n
  {
    if n > 1 {
      FirstStaysInForce(period, span, n - 1);
      assert LateSchedule(period, span)[n - 1] == Idle(LateFirst(period, span).local + (n - 2));
    }
  }

  /** Two lease readings that the millisecond cut makes equal. */
  lemma LapsedByTheCut(current: Call, call: Call)
    requires current.renew == CLAIM_TIME && call.renew + MILLISECOND > current.renew + LEASE
    ensures !LeaseHolds(current, call)
  {
    assert Stored(current.renew + LEASE) == LEASE / MILLISECOND;
    assert Stored(call.renew) >= LEASE / MILLISECOND;
  }

  /** Beyond the bound some schedule lets the lease lapse. */
  lemma UnsafePollingCanLapse(period: nat, span: nat) returns (calls: seq<Call>)
    requires !SafePolling(period, span)
    ensures Schedule(FIRST_CLAIM, calls, period, span) && !NeverLapses(FIRST_CLAIM, calls)
    ensures 0 < period ==> calls == LateSchedule(period, span)
  {
    if period == 0 {
      var read := CLAIM_TIME + span;
      calls := [Call(CLAIM_TIME, read, read, read, read, true)];
      LapsedByTheCut(FIRST_CLAIM, calls[0]);
      assert InForce(FIRST_CLAIM, calls, 0) == FIRST_CLAIM && Renews(FIRST_CLAIM, calls[0]);
    } else {
      calls := LateSchedule(period, span);
      LateScheduleRuns(period, span);
      FirstStaysInForce(period, span, RENEW + 1);
      LapsedByTheCut(LateFirst(period, span), calls[RENEW + 1]);
      assert Renews(InForce(FIRST_CLAIM, calls, RENEW + 1), calls[RENEW + 1]);
    }
  }

  /**
   * For every period and span: all schedules keep the lease if and only if the longest delay leaves a millisecond of
   * it.
   */
  lemma SafePollingExactly(period: nat, span: nat)
    ensures SafePolling(period, span)
       <==> forall claim: Call, calls: seq<Call> :: Schedule(claim, calls, period, span) ==> NeverLapses(claim, calls)
  {
    if SafePolling(period, span) {
      forall claim: Call, calls: seq<Call> | Schedule(claim, calls, period, span)
        ensures NeverLapses(claim, calls)
      {
        SafePollingNeverLapses(claim, calls, period, span);
      }
    } else {
      var calls := UnsafePollingCanLapse(period, span);
    }
  }

  /** Polling that keeps period + 2 * span to 25 seconds is not quite safe: one millisecond of it belongs to the cut. */
  lemma TwentyFiveSecondsIsTooMuch()
    ensures exists period: nat, span: nat ::
              period + 2 * span == LEASE - RENEW && !NeverLapses(FIRST_CLAIM, LateSchedule(period, span))
  {
    var period, span := 23_000 * MILLISECOND, 1_000 * MILLISECOND;
    var calls := UnsafePollingCanLapse(period, span);
    assert period + 2 * span == LEASE - RENEW && calls == LateSchedule(period, span);
  }
}
