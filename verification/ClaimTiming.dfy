/**
 * The claim of one coordinator over its job row in time (asr/job.rs, catalog/jobs.rs): polls at their clock readings,
 * with anything that others do to the table between them.
 */
module ClaimTiming {
  import opened MachineInts
  import opened JobTable
  import Coordinator = JobCoordinator
  import Runs = JobRuns
  import Timing = LeaseTiming

  /**
   * What others do before a poll, and the poll. Its storage works; `acknowledge` is read only if it is to be
   * cancelled.
   */
  datatype Moment = Moment(others: seq<Runs.Action>, call: Timing.Call, acknowledge: Coordinator.Call)

  function CallsOf(moments: seq<Moment>): (calls: seq<Timing.Call>)
    ensures |calls| == |moments| && forall i :: 0 <= i < |calls| ==> calls[i] == moments[i].call
  {
    seq(|moments|, i requires 0 <= i < |moments| => moments[i].call)
  }

  function Met(h: Coordinator.Held, others: seq<Runs.Action>): Coordinator.Held {
    Coordinator.Held(Runs.After(Runs.World(h.jobs, [], []), others).jobs, h.active)
  }

  /** A forced renewal, as entering transcription begins with, or renew_if_due. */
  function Polled(h: Coordinator.Held, moment: Moment): (Coordinator.Held, Coordinator.Outcome) {
    var call, renew := moment.call, Coordinator.Call.Call(moment.call.renew, false);
    if call.forced then Coordinator.RenewActive(Met(h, moment.others), renew, moment.acknowledge, call.local)
    else
      var (after, renewed) :=
        Coordinator.RenewWhenDue(Met(h, moment.others), call.check, renew, moment.acknowledge, call.local);
      (after, Coordinator.Reported(renewed))
  }

  function HeldAfter(h: Coordinator.Held, moments: seq<Moment>, n: nat): Coordinator.Held
    requires n <= |moments|
  {
    if n == 0 then h else Polled(HeldAfter(h, moments, n - 1), moments[n - 1]).0
  }

  predicate PollSucceeds(h: Coordinator.Held, moments: seq<Moment>, i: nat)
    requires i < |moments|
  {
    Polled(HeldAfter(h, moments, i), moments[i]).1.Ok?
  }

  predicate EveryPollSucceeds(h: Coordinator.Held, moments: seq<Moment>) {
    forall i :: 0 <= i < |moments| ==> PollSucceeds(h, moments, i)
  }

  // What others may do

  /**
   * Anything but: cancel this job, end it or renew it with its own token, or recover it as another boot. Recovery by
   * the same boot reads its clock no later than the poll that follows.
   */
  predicate Undisturbing(a: Runs.Action, token: Token, time: int) {
    match a
    case CancelJob(id) => id != token.jobId
    case RecoverAll(bootId, now) => bootId == token.claimedBy.bootId && now <= time
    case RenewLease(presented, _, _) => presented != token
    case FailJob(presented, _) => presented != token
    case PublishResult(presented, _) => presented != token
    case _ => true
  }

  ghost predicate QuietBefore(h: Coordinator.Held, moment: Moment, token: Token) {
    && Runs.Feasible(Runs.World(h.jobs, [], []), moment.others)
    && forall i :: 0 <= i < |moment.others| ==> Undisturbing(moment.others[i], token, Timing.Stored(moment.call.renew))
  }

  ghost predicate QuietAt(h: Coordinator.Held, moments: seq<Moment>, token: Token, i: nat)
    requires i < |moments|
  {
    QuietBefore(HeldAfter(h, moments, i), moments[i], token)
  }

  ghost predicate Quiet(h: Coordinator.Held, moments: seq<Moment>, token: Token) {
    forall i :: 0 <= i < |moments| ==> QuietAt(h, moments, token, i)
  }

  // The row between polls

  predicate HoldsRow(jobs: Jobs, token: Token, lease: int) {
    && Owns(jobs, token)
    && !jobs[token.jobId].cancelRequested && jobs[token.jobId].leaseExpiresAt == Some(lease)
  }

  /** Table and coordinator as the renewal in force left them. */
  predicate InStep(h: Coordinator.Held, token: Token, current: Timing.Call) {
    && h.active.Some? && h.active.value.token == token && h.active.value.renewAt == current.local + Timing.RENEW
    && HoldsRow(h.jobs, token, Timing.Stored(current.renew + Timing.LEASE))
  }

  lemma UndisturbedByOne(w: Runs.World, a: Runs.Action, token: Token, lease: int, time: int)
    requires HoldsRow(w.jobs, token, lease) && time < lease
    requires Runs.Enabled(w, a) && Undisturbing(a, token, time)
    ensures HoldsRow(Runs.Step(w, a).jobs, token, lease)
  {
    var job := w.jobs[token.jobId];
    assert Running(job) && job.claimedBy.Some?;
    if a.ClaimNext? {
      assert AnyoneRunning(w.jobs) && a.picked.None?;
    }
  }

  lemma {:induction false} UndisturbedByOthers(
      w: Runs.World, others: seq<Runs.Action>, token: Token, lease: int, time: int)
    requires HoldsRow(w.jobs, token, lease) && time < lease
    requires Runs.Feasible(w, others) && forall i :: 0 <= i < |others| ==> Undisturbing(others[i], token, time)
    ensures HoldsRow(Runs.After(w, others).jobs, token, lease)
    decreases |others|
  {
    if others != [] {
      UndisturbedByOne(w, others[0], token, lease, time);
      UndisturbedByOthers(Runs.Step(w, others[0]), others[1..], token, lease, time);
    }
  }

  lemma OthersKeepStep(h: Coordinator.Held, moment: Moment, token: Token, current: Timing.Call)
    requires InStep(h, token, current) && QuietBefore(h, moment, token)
    requires moment.others == [] || Timing.LeaseHolds(current, moment.call)
    ensures InStep(Met(h, moment.others), token, current)
  {
    if moment.others != [] {
      UndisturbedByOthers(Runs.World(h.jobs, [], []), moment.others, token,
                          Timing.Stored(current.renew + Timing.LEASE), Timing.Stored(moment.call.renew));
    }
  }

  /** One poll: it fails exactly when it renews over a lapsed lease, and otherwise table and claim stay in step. */
  lemma PollKeepsStep(h: Coordinator.Held, moment: Moment, token: Token, current: Timing.Call)
    requires InStep(h, token, current) && QuietBefore(h, moment, token)
    requires moment.others == [] || Timing.LeaseHolds(current, moment.call)
    ensures Polled(h, moment).1.Ok?
        <==> (Timing.Renews(current, moment.call) ==> Timing.LeaseHolds(current, moment.call))
    ensures Polled(h, moment).1.Ok? ==>
              InStep(Polled(h, moment).0, token, if Timing.Renews(current, moment.call) then moment.call else current)
  {
    OthersKeepStep(h, moment, token, current);
  }

  predicate LeaseHeldAt(claim: Timing.Call, calls: seq<Timing.Call>, i: nat)
    requires i < |calls|
  {
    Timing.LeaseHolds(Timing.InForce(claim, calls, i), calls[i])
  }

  predicate RenewsInTime(claim: Timing.Call, calls: seq<Timing.Call>, i: nat)
    requires i < |calls|
  {
    Timing.Renews(Timing.InForce(claim, calls, i), calls[i]) ==> LeaseHeldAt(claim, calls, i)
  }

  predicate InStepAt(h: Coordinator.Held, claim: Timing.Call, moments: seq<Moment>, token: Token, n: nat)
    requires n <= |moments|
  {
    InStep(HeldAfter(h, moments, n), token, Timing.InForce(claim, CallsOf(moments), n))
  }

  lemma OnePollKeepsStep(h: Coordinator.Held, claim: Timing.Call, moments: seq<Moment>, token: Token, i: nat)
    requires i < |moments| && InStepAt(h, claim, moments, token, i) && QuietAt(h, moments, token, i)
    requires moments[i].others == [] || LeaseHeldAt(claim, CallsOf(moments), i)
    ensures PollSucceeds(h, moments, i) <==> RenewsInTime(claim, CallsOf(moments), i)
    ensures PollSucceeds(h, moments, i) ==> InStepAt(h, claim, moments, token, i + 1)
  {
    var before, current := HeldAfter(h, moments, i), Timing.InForce(claim, CallsOf(moments), i);
    PollKeepsStep(before, moments[i], token, current);
    assert HeldAfter(h, moments, i + 1) == Polled(before, moments[i]).0;
    assert Timing.InForce(claim, CallsOf(moments), i + 1)
        == if Timing.Renews(current, moments[i].call) then moments[i].call else current;
  }

  lemma HeldPollKeepsStep(h: Coordinator.Held, claim: Timing.Call, moments: seq<Moment>, token: Token, n: nat)
    requires 0 < n <= |moments| && InStepAt(h, claim, moments, token, n - 1) && QuietAt(h, moments, token, n - 1)
    requires LeaseHeldAt(claim, CallsOf(moments), n - 1)
    ensures InStepAt(h, claim, moments, token, n)
  {
    OnePollKeepsStep(h, claim, moments, token, n - 1);
  }

  lemma PollsKeepStep(h: Coordinator.Held, claim: Timing.Call, moments: seq<Moment>, token: Token, n: nat)
    requires InStepAt(h, claim, moments, token, 0) && Quiet(h, moments, token) && n <= |moments|
    requires forall i :: 0 <= i < n ==> LeaseHeldAt(claim, CallsOf(moments), i)
    ensures InStepAt(h, claim, moments, token, n)
  {
    for i := 0 to n
      invariant InStepAt(h, claim, moments, token, i)
    {
      HeldPollKeepsStep(h, claim, moments, token, i + 1);
    }
  }

  // Theorems

  /** With safe polling no poll ever finds its claim lost, whatever others do short of disturbing the job. */
  lemma SafePollsSucceed(
      h: Coordinator.Held, claim: Timing.Call, moments: seq<Moment>, token: Token, period: nat, span: nat)
    requires InStep(h, token, claim) && Quiet(h, moments, token)
    requires Timing.Schedule(claim, CallsOf(moments), period, span) && Timing.SafePolling(period, span)
    ensures EveryPollSucceeds(h, moments)
    ensures InStep(HeldAfter(h, moments, |moments|), token, Timing.InForce(claim, CallsOf(moments), |moments|))
  {
    var calls := CallsOf(moments);
    forall i | 0 <= i < |calls|
      ensures LeaseHeldAt(claim, calls, i)
    {
      Timing.NoRenewalIsLater(claim, calls, period, span, i);
      Timing.StoredAhead(Timing.InForce(claim, calls, i).renew + Timing.LEASE, calls[i].renew);
    }
    assert InStepAt(h, claim, moments, token, 0);
    forall i | 0 <= i < |moments|
      ensures PollSucceeds(h, moments, i)
    {
      PollsKeepStep(h, claim, moments, token, i);
      OnePollKeepsStep(h, claim, moments, token, i);
    }
    PollsKeepStep(h, claim, moments, token, |moments|);
  }

  predicate AloneAt(moments: seq<Moment>, i: nat)
    requires i < |moments|
  {
    moments[i].others == []
  }

  /** A coordinator alone with its table stays in step while every poll succeeds. */
  lemma AlonePollsKeepStep(h: Coordinator.Held, claim: Timing.Call, moments: seq<Moment>, token: Token, n: nat)
    requires InStepAt(h, claim, moments, token, 0) && Quiet(h, moments, token) && EveryPollSucceeds(h, moments)
    requires n <= |moments| && forall i :: 0 <= i < |moments| ==> AloneAt(moments, i)
    ensures InStepAt(h, claim, moments, token, n)
  {
    for i := 0 to n
      invariant InStepAt(h, claim, moments, token, i)
    {
      assert AloneAt(moments, i);
      OnePollKeepsStep(h, claim, moments, token, i);
    }
  }

  lemma LapseFailsAPoll(h: Coordinator.Held, claim: Timing.Call, moments: seq<Moment>, token: Token, lapsed: nat)
    requires InStepAt(h, claim, moments, token, 0) && Quiet(h, moments, token)
    requires forall i :: 0 <= i < |moments| ==> AloneAt(moments, i)
    requires lapsed < |moments| && !RenewsInTime(claim, CallsOf(moments), lapsed)
    ensures !EveryPollSucceeds(h, moments)
  {
    if EveryPollSucceeds(h, moments) {
      AlonePollsKeepStep(h, claim, moments, token, lapsed);
      assert AloneAt(moments, lapsed);
      OnePollKeepsStep(h, claim, moments, token, lapsed);
    }
  }

  lemma SomeLapse(claim: Timing.Call, calls: seq<Timing.Call>) returns (i: nat)
    requires !Timing.NeverLapses(claim, calls)
    ensures i < |calls| && !RenewsInTime(claim, calls, i)
  {
    i :| 0 <= i < |calls| && Timing.Renews(Timing.InForce(claim, calls, i), calls[i])
         && !Timing.LeaseHolds(Timing.InForce(claim, calls, i), calls[i]);
  }

  /** A job claimed at the given call, alone in its table. */
  function JustClaimed(token: Token, claim: Timing.Call): (h: Coordinator.Held)
    ensures InStep(h, token, claim)
  {
    Coordinator.Held(
      map[token.jobId := Job("chunk", Preparing, 1, 3, token.generation, 0, 0, Some(token.claimedBy),
                             Some(Timing.Stored(claim.renew + Timing.LEASE)), false)],
      Some(Coordinator.Claimed(token, 1, claim.local + Timing.RENEW, claim.local + Timing.LEASE)))
  }

  ghost predicate PollsAlwaysSucceed(period: nat, span: nat) {
    forall h: Coordinator.Held, claim: Timing.Call, moments: seq<Moment>, token: Token ::
      InStep(h, token, claim) && Quiet(h, moments, token) && Timing.Schedule(claim, CallsOf(moments), period, span) ==>
        EveryPollSucceeds(h, moments)
  }

  /** The bound of the schedule is the bound of the protocol: claims last exactly as long as polling is safe. */
  lemma ClaimsLastExactly(period: nat, span: nat)
    ensures PollsAlwaysSucceed(period, span) <==> Timing.SafePolling(period, span)
  {
    if Timing.SafePolling(period, span) {
      forall h: Coordinator.Held, claim: Timing.Call, moments: seq<Moment>, token: Token
        | InStep(h, token, claim) && Quiet(h, moments, token) && Timing.Schedule(claim, CallsOf(moments), period, span)
        ensures EveryPollSucceeds(h, moments)
      {
        SafePollsSucceed(h, claim, moments, token, period, span);
      }
    } else {
      var h, moments, token := UnsafePollsCanFail(period, span);
    }
  }

  /** Beyond the bound even a coordinator alone with its table can lose the claim. */
  lemma UnsafePollsCanFail(period: nat, span: nat) returns (h: Coordinator.Held, moments: seq<Moment>, token: Token)
    requires !Timing.SafePolling(period, span)
    ensures InStep(h, token, Timing.FIRST_CLAIM) && Quiet(h, moments, token)
    ensures Timing.Schedule(Timing.FIRST_CLAIM, CallsOf(moments), period, span) && !EveryPollSucceeds(h, moments)
  {
    var calls := Timing.UnsafePollingCanLapse(period, span);
    token := Token("job", Owner("boot", "worker"), 1);
    h := JustClaimed(token, Timing.FIRST_CLAIM);
    moments := seq(|calls|, i requires 0 <= i < |calls| => Moment([], calls[i], Coordinator.Call.Call(0, false)));
    assert CallsOf(moments) == calls;
    assert InStepAt(h, Timing.FIRST_CLAIM, moments, token, 0);
    var lapsed := SomeLapse(Timing.FIRST_CLAIM, calls);
    LapseFailsAPoll(h, Timing.FIRST_CLAIM, moments, token, lapsed);
  }

  /** What claim_next leaves is such a claim, so every claim of every run begins in step. */
  lemma ClaimBegins(h: Coordinator.Held, owner: Owner, now: nat, picked: string, chunks: set<string>)
    requires h.active.None? && ClaimPicks(h.jobs, Some(picked), Timing.Stored(now), chunks)
    ensures var claimed := Coordinator.ClaimHeld(h, owner, Coordinator.Call.Call(now, false), Some(picked)).0;
            claimed.active.Some?
              && InStep(claimed, claimed.active.value.token, Timing.Call.Call(now, now, now, now, now, true))
  {
  }
}
