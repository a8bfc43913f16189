/**
 * asr/job.rs: the coordinator's active claim over the job table, and the flag that keeps coordinators apart. Clock
 * reads are parameters, in nanoseconds; any repository call may fail without effect.
 */
module JobCoordinator {
  import opened MachineInts
  import opened JobTable
  import opened LeaseTiming

  /** SnapshotRefused stands for a snapshot at the wrong stage, past its lease, or with unusable input or values. */
  datatype JobError = StorageFailed | Lost | CancelPending | SnapshotRefused

  datatype Claimed = Claimed(token: Token, attempts: nat, renewAt: nat, leaseExpiresAt: nat)

  /** The job table and the coordinator's active claim. */
  datatype Held = Held(jobs: Jobs, active: Option<Claimed>)

  /** One repository call: the clock it reads and whether storage fails it. */
  datatype Call = Call(now: nat, fails: bool)

  type Outcome = Result<(), JobError>

  function OutcomeOf(result: OwnedResult): Outcome {
    match result
    case Updated => Ok(())
    case CancelRequested => Err(CancelPending)
    case OwnershipLost => Err(Lost)
  }

  // What each call does

  function Acknowledge(h: Held, call: Call): (Held, Outcome) {
    if h.active.None? then (h, Err(Lost))
    else if call.fails then (h, Err(StorageFailed))
    else
      var (jobs, result) := AcknowledgeCancel(h.jobs, h.active.value.token, Stored(call.now));
      (Held(jobs, None), OutcomeOf(result))
  }

  /** handle_running_result: a pending cancellation is acknowledged first, a lost claim is dropped. */
  function Handled(h: Held, outcome: Outcome, acknowledge: Call): (Held, Outcome) {
    match outcome
    case Err(CancelPending) =>
      var (after, acknowledged) := Acknowledge(h, acknowledge);
      (after, if acknowledged.Err? then acknowledged else Err(CancelPending))
    case Err(Lost) => (h.(active := None), outcome)
    case _ => (h, outcome)
  }

  /** renew_active: the due time comes from a second, later clock read. */
  function RenewActive(h: Held, renew: Call, acknowledge: Call, localNow: nat): (Held, Outcome) {
    if h.active.None? then (h, Err(Lost))
    else
      var (jobs, outcome) :=
        if renew.fails then (h.jobs, Err(StorageFailed))
        else
          var (renewed, result) := Renew(h.jobs, h.active.value.token, Stored(renew.now), Stored(renew.now + LEASE));
          (renewed, OutcomeOf(result));
      var (after, handled) := Handled(Held(jobs, h.active), outcome, acknowledge);
      if handled.Err? || after.active.None? then (after, handled)
      else
        var claim := after.active.value.(renewAt := localNow + RENEW, leaseExpiresAt := localNow + LEASE);
        (after.(active := Some(claim)), handled)
  }

  /** The clocks of a call that renews and then acts. */
  datatype Calls = Calls(renew: Call, renewAcknowledge: Call, localNow: nat, act: Call, actAcknowledge: Call)

  function EnterTranscribing(h: Held, calls: Calls): (Held, Outcome) {
    var (renewed, outcome) := RenewActive(h, calls.renew, calls.renewAcknowledge, calls.localNow);
    if outcome.Err? || renewed.active.None? then (renewed, outcome)
    else
      var (jobs, acted) :=
        if calls.act.fails then (renewed.jobs, Err(StorageFailed))
        else
          var (marked, result) := MarkTranscribing(renewed.jobs, renewed.active.value.token, Stored(calls.act.now));
          (marked, OutcomeOf(result));
      Handled(Held(jobs, renewed.active), acted, calls.actAcknowledge)
  }

  function FailActive(h: Held, calls: Calls): (Held, Outcome) {
    var (renewed, outcome) := RenewActive(h, calls.renew, calls.renewAcknowledge, calls.localNow);
    if outcome.Err? || renewed.active.None? then (renewed, outcome)
    else
      var (jobs, acted) :=
        if calls.act.fails then (renewed.jobs, Err(StorageFailed))
        else
          var (failed, result) := Fail(renewed.jobs, renewed.active.value.token, Stored(calls.act.now));
          (failed, OutcomeOf(result));
      var (after, handled) := Handled(Held(jobs, renewed.active), acted, calls.actAcknowledge);
      (if handled.Ok? then after.(active := None) else after, handled)
  }

  function ClaimHeld(h: Held, owner: Owner, call: Call, picked: Option<string>)
    : (Held, Result<Option<Claimed>, JobError>)
  {
    if h.active.Some? then (h, Ok(h.active))
    else if call.fails then (h, Err(StorageFailed))
    else if picked.None? || picked.value !in h.jobs then (h, Ok(None))
    else
      var jobs := Claim(h.jobs, picked, owner, Stored(call.now + LEASE));
      var job := jobs[picked.value];
      var active :=
        Some(Claimed(Token(picked.value, owner, job.generation), job.attempts, call.now + RENEW, call.now + LEASE));
      (Held(jobs, active), Ok(active))
  }

  function RenewWhenDue(h: Held, checkNow: nat, renew: Call, acknowledge: Call, localNow: nat)
    : (Held, Result<bool, JobError>)
  {
    if h.active.None? || checkNow < h.active.value.renewAt then (h, Ok(false))
    else
      var (after, outcome) := RenewActive(h, renew, acknowledge, localNow);
      (after, if outcome.Ok? then Ok(true) else Err(outcome.error))
  }

  /** recover(): ownership is read again after the recovery pass, and a failed reading gives the claim up. */
  function RecoverHeld(h: Held, bootId: string, recover: Call, check: Call): (Held, Outcome) {
    if recover.fails then (h, Err(StorageFailed))
    else
      var jobs := Recover(h.jobs, bootId, Stored(recover.now));
      if h.active.None? then (Held(jobs, None), Ok(()))
      else if check.fails then (Held(jobs, None), Err(StorageFailed))
      else (Held(jobs, if Owns(jobs, h.active.value.token) then h.active else None), Ok(()))
  }

  /** publish(): the claim itself is left as it is. */
  function PublishHeld(h: Held, token: Token, call: Call): (Held, Outcome) {
    if call.fails then (h, Err(StorageFailed))
    else
      var (jobs, result) := Publish(h.jobs, token, Stored(call.now));
      (Held(jobs, h.active), OutcomeOf(result))
  }

  /** load_execution_snapshot() changes nothing; `usable` is whether the chunk and the stored values pass its checks. */
  function SnapshotHeld(h: Held, token: Token, stage: JobState, call: Call, usable: bool): Outcome {
    if call.fails then Err(StorageFailed)
    else if token.jobId !in h.jobs then Err(Lost)
    else
      var job := h.jobs[token.jobId];
      if job.claimedBy != Some(token.claimedBy) || job.generation != token.generation then Err(Lost)
      else if job.state != stage then Err(SnapshotRefused)
      else if job.cancelRequested then Err(CancelPending)
      else if !LeaseLive(job, Stored(call.now)) || !usable then Err(SnapshotRefused)
      else Ok(())
  }

  /** What may be asked of the coordinator. */
  datatype Request =
    | ClaimNextJob(call: Call, picked: Option<string>)
    | RenewIfDueRequest(checkNow: nat, renew: Call, acknowledge: Call, localNow: nat)
    | EnterRequest(calls: Calls)
    | FailRequest(calls: Calls)
    | AcknowledgeRequest(call: Call)
    | RecoverRequest(recover: Call, check: Call)
    | PublishRequest(token: Token, call: Call)
    | SnapshotRequest(token: Token, stage: JobState, call: Call, usable: bool)

  function Reported<T>(r: Result<T, JobError>): Outcome {
    if r.Ok? then Ok(()) else Err(r.error)
  }

  function Serve(h: Held, owner: Owner, r: Request): (Held, Outcome) {
    match r
    case ClaimNextJob(call, picked) =>
      var (after, claimed) := ClaimHeld(h, owner, call, picked); (after, Reported(claimed))
    case RenewIfDueRequest(checkNow, renew, acknowledge, localNow) =>
      var (after, renewed) := RenewWhenDue(h, checkNow, renew, acknowledge, localNow); (after, Reported(renewed))
    case EnterRequest(calls) => EnterTranscribing(h, calls)
    case FailRequest(calls) => FailActive(h, calls)
    case AcknowledgeRequest(call) => Acknowledge(h, call)
    case RecoverRequest(recover, check) => RecoverHeld(h, owner.bootId, recover, check)
    case PublishRequest(token, call) => PublishHeld(h, token, call)
    case SnapshotRequest(token, stage, call, usable) => (h, SnapshotHeld(h, token, stage, call, usable))
  }

  // The coordinator

  class JobCoordinator {
    const table: JobCatalog
    const owner: Owner
    var active: Option<Claimed>

    constructor (table: JobCatalog, owner: Owner)
      ensures this.table == table && this.owner == owner && active == None
    {
      this.table := table;
      this.owner := owner;
      active := None;
    }

    ghost function View(): Held
      reads this, table
    {
      Held(table.jobs, active)
    }

    /** The active claim again, or a new one if the table has a job to give. */
    method ClaimNext(call: Call, picked: Option<string>, chunks: set<string>)
      returns (r: Result<Option<Claimed>, JobError>)
      requires ClaimPicks(table.jobs, picked, Stored(call.now), chunks)
      modifies this, table
      ensures (View(), r) == ClaimHeld(old(View()), owner, call, picked)
      ensures old(active).Some? ==> View() == old(View()) && r == Ok(old(active))
      ensures old(active).None? && call.fails ==> View() == old(View()) && r == Err(StorageFailed)
      ensures old(active).None? && !call.fails ==>
                && r == Ok(active) && table.jobs == Claim(old(table.jobs), picked, owner, Stored(call.now + LEASE))
                && (active.Some? <==> picked.Some?)
                && (picked.Some? ==>
                      active.value == Claimed(Token(picked.value, owner, old(table.jobs)[picked.value].generation + 1),
                                              old(table.jobs)[picked.value].attempts + 1, call.now + RENEW,
                                              call.now + LEASE)
                      && Owns(table.jobs, active.value.token))
    {
      if active.Some? {
        return Ok(active);
      }
      if call.fails {
        return Err(StorageFailed);
      }
      if picked.None? {
        return Ok(None);
      }
      table.jobs := Claim(table.jobs, picked, owner, Stored(call.now + LEASE));
      var job := table.jobs[picked.value];
      active :=
        Some(Claimed(Token(picked.value, owner, job.generation), job.attempts, call.now + RENEW, call.now + LEASE));
      return Ok(active);
    }

    method AcknowledgeCancellation(call: Call) returns (r: Outcome)
      modifies this, table
      ensures (View(), r) == Acknowledge(old(View()), call)
      ensures old(active).None? || call.fails ==>
                View() == old(View()) && r == Err(if old(active).None? then Lost else StorageFailed)
      ensures old(active).Some? && !call.fails ==>
                && active == None
                && var (jobs, result) := AcknowledgeCancel(old(table.jobs), old(active).value.token, Stored(call.now));
                   && table.jobs == jobs
                   && r == if result == Updated then Ok(())
                           else if result == CancelRequested then Err(CancelPending) else Err(Lost)
    {
      if active.None? {
        return Err(Lost);
      }
      if call.fails {
        return Err(StorageFailed);
      }
      var (jobs, result) := AcknowledgeCancel(table.jobs, active.value.token, Stored(call.now));
      table.jobs, active := jobs, None;
      return OutcomeOf(result);
    }

    method HandleRunningResult(outcome: Outcome, acknowledge: Call) returns (r: Outcome)
      modifies this, table
      ensures (View(), r) == Handled(old(View()), outcome, acknowledge)
      ensures outcome != Err(CancelPending) && outcome != Err(Lost) ==> View() == old(View()) && r == outcome
      ensures outcome == Err(Lost) ==> View() == old(View()).(active := None) && r == outcome
      ensures outcome == Err(CancelPending) && (old(active).None? || acknowledge.fails) ==>
                View() == old(View()) && r == Err(if old(active).None? then Lost else StorageFailed)
      ensures outcome == Err(CancelPending) && old(active).Some? && !acknowledge.fails ==>
                && active == None
                && var (jobs, result) :=
                     AcknowledgeCancel(old(table.jobs), old(active).value.token, Stored(acknowledge.now));
                   table.jobs == jobs && r == if result == OwnershipLost then Err(Lost) else Err(CancelPending)
    {
      if outcome == Err(CancelPending) {
        var acknowledged := AcknowledgeCancellation(acknowledge);
        return if acknowledged.Err? then acknowledged else Err(CancelPending);
      }
      if outcome == Err(Lost) {
        active := None;
      }
      return outcome;
    }

    method RenewActiveClaim(renew: Call, acknowledge: Call, localNow: nat) returns (r: Outcome)
      modifies this, table
      ensures (View(), r) == RenewActive(old(View()), renew, acknowledge, localNow)
      ensures old(active).None? ==> View() == old(View()) && r == Err(Lost)
      ensures old(active).Some? && renew.fails ==> View() == old(View()) && r == Err(StorageFailed)
      ensures old(active).Some? && !renew.fails ==>
                var claim := old(active).value;
                var (jobs, result) :=
                  Renew(old(table.jobs), claim.token, Stored(renew.now), Stored(renew.now + 30_000_000_000));
                && (r == Ok(()) <==> result == Updated)
                && (result == Updated ==>
                      && table.jobs == jobs
                      && active == Some(claim.(renewAt := localNow + 5_000_000_000,
                                               leaseExpiresAt := localNow + 30_000_000_000)))
                && (result == OwnershipLost ==> View() == Held(jobs, None) && r == Err(Lost))
                && (result == CancelRequested ==>
                      if acknowledge.fails then View() == Held(jobs, old(active)) && r == Err(StorageFailed)
                      else
                        && active == None
                        && table.jobs == AcknowledgeCancel(jobs, claim.token, Stored(acknowledge.now)).0)
    {
      if active.None? {
        return Err(Lost);
      }
      var outcome: Outcome := Err(StorageFailed);
      if !renew.fails {
        var (jobs, result) := Renew(table.jobs, active.value.token, Stored(renew.now), Stored(renew.now + LEASE));
        table.jobs, outcome := jobs, OutcomeOf(result);
      }
      r := HandleRunningResult(outcome, acknowledge);
      if r.Ok? {
        active := Some(active.value.(renewAt := localNow + RENEW, leaseExpiresAt := localNow + LEASE));
      }
    }

    method RenewIfDue(checkNow: nat, renew: Call, acknowledge: Call, localNow: nat) returns (r: Result<bool, JobError>)
      modifies this, table
      ensures (View(), r) == RenewWhenDue(old(View()), checkNow, renew, acknowledge, localNow)
      ensures r == Ok(false) <==> old(active).None? || checkNow < old(active).value.renewAt
      ensures r == Ok(false) ==> View() == old(View())
      ensures r != Ok(false) ==>
                var (after, outcome) := RenewActive(old(View()), renew, acknowledge, localNow);
                View() == after && (r == Ok(true) <==> outcome == Ok(())) && (r.Err? ==> outcome == Err(r.error))
    {
      if active.None? || checkNow < active.value.renewAt {
        return Ok(false);
      }
      var outcome := RenewActiveClaim(renew, acknowledge, localNow);
      return if outcome.Ok? then Ok(true) else Err(outcome.error);
    }

    method Enter(calls: Calls) returns (r: Outcome)
      modifies this, table
      ensures (View(), r) == EnterTranscribing(old(View()), calls)
      ensures var (renewed, outcome) :=
                RenewActive(old(View()), calls.renew, calls.renewAcknowledge, calls.localNow);
              if outcome.Err? || renewed.active.None? then View() == renewed && r == outcome
              else if calls.act.fails then View() == renewed && r == Err(StorageFailed)
              else
                var token := renewed.active.value.token;
                var (jobs, result) := MarkTranscribing(renewed.jobs, token, Stored(calls.act.now));
                && (r == Ok(()) <==> result == Updated)
                && (result == Updated ==> View() == Held(jobs, renewed.active))
                && (result == OwnershipLost ==> View() == Held(jobs, None) && r == Err(Lost))
                && (result == CancelRequested ==>
                      if calls.actAcknowledge.fails then View() == Held(jobs, renewed.active) && r == Err(StorageFailed)
                      else active == None
                           && table.jobs == AcknowledgeCancel(jobs, token, Stored(calls.actAcknowledge.now)).0)
    {
      r := RenewActiveClaim(calls.renew, calls.renewAcknowledge, calls.localNow);
      if r.Err? {
        return;
      }
      var outcome: Outcome := Err(StorageFailed);
      if !calls.act.fails {
        var (jobs, result) := MarkTranscribing(table.jobs, active.value.token, Stored(calls.act.now));
        table.jobs, outcome := jobs, OutcomeOf(result);
      }
      r := HandleRunningResult(outcome, calls.actAcknowledge);
    }

    method FailClaim(calls: Calls) returns (r: Outcome)
      modifies this, table
      ensures (View(), r) == FailActive(old(View()), calls)
      ensures var (renewed, outcome) :=
                RenewActive(old(View()), calls.renew, calls.renewAcknowledge, calls.localNow);
              if outcome.Err? || renewed.active.None? then View() == renewed && r == outcome
              else if calls.act.fails then View() == renewed && r == Err(StorageFailed)
              else
                var token := renewed.active.value.token;
                var (jobs, result) := Fail(renewed.jobs, token, Stored(calls.act.now));
                && (r == Ok(()) <==> result == Updated)
                && (result == Updated ==> View() == Held(jobs, None))
                && (result == OwnershipLost ==> View() == Held(jobs, None) && r == Err(Lost))
                && (result == CancelRequested ==>
                      if calls.actAcknowledge.fails then View() == Held(jobs, renewed.active) && r == Err(StorageFailed)
                      else active == None
                           && table.jobs == AcknowledgeCancel(jobs, token, Stored(calls.actAcknowledge.now)).0)
    {
      r := RenewActiveClaim(calls.renew, calls.renewAcknowledge, calls.localNow);
      if r.Err? {
        return;
      }
      var outcome: Outcome := Err(StorageFailed);
      if !calls.act.fails {
        var (jobs, result) := Fail(table.jobs, active.value.token, Stored(calls.act.now));
        table.jobs, outcome := jobs, OutcomeOf(result);
      }
      r := HandleRunningResult(outcome, calls.actAcknowledge);
      if r.Ok? {
        active := None;
      }
    }

    /** recover(): afterwards the active claim is kept only if the table still knows it. */
    method RecoverClaims(ids: seq<string>, recover: Call, check: Call) returns (r: Outcome)
      requires forall id :: id in ids <==> id in table.jobs
      requires forall i, j :: 0 <= i < j < |ids| ==> ids[i] != ids[j]
      modifies this, table
      ensures (View(), r) == RecoverHeld(old(View()), owner.bootId, recover, check)
      ensures !recover.fails && active.Some? ==> active == old(active) && Owns(table.jobs, active.value.token)
      ensures recover.fails ==> View() == old(View()) && r == Err(StorageFailed)
      ensures !recover.fails ==>
                && table.jobs == Recover(old(table.jobs), owner.bootId, Stored(recover.now))
                && r == (if old(active).Some? && check.fails then Err(StorageFailed) else Ok(()))
                && (active.Some? <==>
                      old(active).Some? && !check.fails && Owns(table.jobs, old(active).value.token))
    {
      if recover.fails {
        return Err(StorageFailed);
      }
      var _ := table.RecoverJobs(ids, owner.bootId, Stored(recover.now));
      if active.None? {
        return Ok(());
      }
      if check.fails {
        active := None;
        return Err(StorageFailed);
      }
      if !Owns(table.jobs, active.value.token) {
        active := None;
      }
      return Ok(());
    }

    method PublishClaim(token: Token, call: Call) returns (r: Outcome)
      modifies table
      ensures (View(), r) == PublishHeld(old(View()), token, call)
      ensures active == old(active)
      ensures call.fails ==> table.jobs == old(table.jobs) && r == Err(StorageFailed)
      ensures !call.fails ==>
                var (jobs, result) := Publish(old(table.jobs), token, Stored(call.now));
                && table.jobs == jobs
                && r == if result == Updated then Ok(())
                        else if result == CancelRequested then Err(CancelPending) else Err(Lost)
    {
      if call.fails {
        return Err(StorageFailed);
      }
      var (jobs, result) := Publish(table.jobs, token, Stored(call.now));
      table.jobs := jobs;
      return OutcomeOf(result);
    }

    method LoadSnapshot(token: Token, stage: JobState, call: Call, usable: bool) returns (r: Outcome)
      ensures r == SnapshotHeld(View(), token, stage, call, usable)
      ensures r == Ok(()) <==>
                && !call.fails && token.jobId in table.jobs && usable
                && var job := table.jobs[token.jobId];
                   && job.claimedBy == Some(token.claimedBy) && job.generation == token.generation
                   && job.state == stage && !job.cancelRequested
                   && job.leaseExpiresAt.Some? && job.leaseExpiresAt.value > Stored(call.now)
      ensures r == Err(StorageFailed) <==> call.fails
      ensures r == Err(CancelPending) <==>
                && !call.fails && token.jobId in table.jobs
                && var job := table.jobs[token.jobId];
                   && job.claimedBy == Some(token.claimedBy) && job.generation == token.generation
                   && job.state == stage && job.cancelRequested
      ensures r == Err(Lost) <==>
                && !call.fails
                && (token.jobId in table.jobs ==>
                      || table.jobs[token.jobId].claimedBy != Some(token.claimedBy)
                      || table.jobs[token.jobId].generation != token.generation)
    {
      if call.fails {
        return Err(StorageFailed);
      }
      if token.jobId !in table.jobs {
        return Err(Lost);
      }
      var job := table.jobs[token.jobId];
      if job.claimedBy != Some(token.claimedBy) || job.generation != token.generation {
        return Err(Lost);
      }
      if job.state != stage {
        return Err(SnapshotRefused);
      }
      if job.cancelRequested {
        return Err(CancelPending);
      }
      return if !LeaseLive(job, Stored(call.now)) || !usable then Err(SnapshotRefused) else Ok(());
    }
  }

  // Theorems

  predicate GaveUp(outcome: Outcome) {
    outcome == Err(Lost) || outcome == Err(CancelPending)
  }

  /** The two calls that pass straight through to the repository. */
  predicate PassesThrough(r: Request) {
    r.PublishRequest? || r.SnapshotRequest?
  }

  /**
   * For every call and every outcome of every repository call behind it: an answer that the claim is lost or cancelled
   * leaves no active claim, except that publish and the snapshot leave whatever claim there was.
   */
  lemma GivingUpKeepsTheClaimExactly(h: Held, owner: Owner, r: Request)
    requires GaveUp(Serve(h, owner, r).1)
    ensures Serve(h, owner, r).0.active == if PassesThrough(r) then h.active else None
    ensures Serve(h, owner, r).0.active.Some? <==> PassesThrough(r) && h.active.Some?
  {
    match r {
      case RenewIfDueRequest(_, renew, acknowledge, localNow) =>
        RenewalGivesUpTheClaim(h, renew, acknowledge, localNow);
      case EnterRequest(calls) => RenewalGivesUpTheClaim(h, calls.renew, calls.renewAcknowledge, calls.localNow);
      case FailRequest(calls) => RenewalGivesUpTheClaim(h, calls.renew, calls.renewAcknowledge, calls.localNow);
      case _ =>
    }
  }

  lemma RenewalGivesUpTheClaim(h: Held, renew: Call, acknowledge: Call, localNow: nat)
    ensures GaveUp(RenewActive(h, renew, acknowledge, localNow).1) ==>
        RenewActive(h, renew, acknowledge, localNow).0.active == None
    ensures RenewActive(h, renew, acknowledge, localNow).1.Ok? ==>
        RenewActive(h, renew, acknowledge, localNow).0.active.Some?
  {
  }

  /** publish answers so exactly when its token does not own a transcribing, uncancelled job under a live lease. */
  lemma PublishGivesUpExactly(h: Held, token: Token, call: Call)
    ensures GaveUp(PublishHeld(h, token, call).1)
       <==> !call.fails && !(MayMutate(h.jobs, token, Stored(call.now)) && h.jobs[token.jobId].state == Transcribing)
    ensures GaveUp(PublishHeld(h, token, call).1) ==> PublishHeld(h, token, call).0 == h
  {
  }

  /**
   * From an empty table: a job is claimed and enters transcription, and 30 seconds later publish finds the lease over.
   * The claim stays, and the coordinator hands it out again.
   */
  lemma LapsedPublishKeepsItsClaim(id: string, chunkId: string, owner: Owner, at: nat, again: Call)
    ensures var call := Call.Call(at, false);
            var queued := Enqueue(map[], id, chunkId, Queued, Stored(at));
            var claimed := Serve(Held(queued, None), owner, ClaimNextJob(call, Some(id))).0;
            var entered := Serve(claimed, owner, EnterRequest(Calls(call, call, at, call, call)));
            && ClaimPicks(queued, Some(id), Stored(at), {chunkId})
            && entered.1 == Ok(()) && entered.0.active.Some?
            && var token := entered.0.active.value.token;
               var late := Serve(entered.0, owner, PublishRequest(token, Call.Call(at + LEASE, false)));
               && late == (entered.0, Err(Lost))
               && ClaimHeld(late.0, owner, again, None) == (late.0, Ok(entered.0.active))
  {
    var job := Job(chunkId, Queued, 0, 3, 0, Stored(at), Stored(at), None, None, false);
    assert Enqueue(map[], id, chunkId, Queued, Stored(at)) == map[id := job];
  }

  predicate Renewed(h: Held, calls: Calls) {
    h.active.Some? && !calls.renew.fails
    && Renew(h.jobs, h.active.value.token, Stored(calls.renew.now), Stored(calls.renew.now + LEASE)).1 == Updated
  }

  /**
   * What the table may look like when the renewal did not succeed: as before, or with the cancellation acknowledged.
   */
  predicate OnlyAcknowledged(before: Jobs, after: Jobs, active: Option<Claimed>, acknowledge: Call) {
    || after == before
    || (active.Some? && (after, Updated) == AcknowledgeCancel(before, active.value.token, Stored(acknowledge.now)))
  }

  /** Entering transcription and failing change a job's state only after a successful renewal. */
  lemma StateChangesNeedARenewal(h: Held, calls: Calls)
    requires !Renewed(h, calls)
    ensures OnlyAcknowledged(h.jobs, EnterTranscribing(h, calls).0.jobs, h.active, calls.renewAcknowledge)
    ensures OnlyAcknowledged(h.jobs, FailActive(h, calls).0.jobs, h.active, calls.renewAcknowledge)
    ensures EnterTranscribing(h, calls).1.Err? && FailActive(h, calls).1.Err?
  {
  }

  /** Success means the claim was owned with a live lease, now runs to 30 seconds after the renewal's own clock read. */
  lemma EnteringTranscribes(h: Held, calls: Calls)
    requires EnterTranscribing(h, calls).1.Ok?
    ensures Renewed(h, calls) && EnterTranscribing(h, calls).0.active.Some?
    ensures var token := h.active.value.token;
            && EnterTranscribing(h, calls).0.active.value.token == token
            && Owns(h.jobs, token) && LeaseLive(h.jobs[token.jobId], Stored(calls.renew.now))
            && EnterTranscribing(h, calls).0.jobs
            == h.jobs[token.jobId := h.jobs[token.jobId].(
                 state := Transcribing, leaseExpiresAt := Some(Stored(calls.renew.now + LEASE)))]
  {
  }

  /** publish does not clear the claim; the next renewal finds it lost and does. */
  lemma RenewalAfterPublishDropsTheClaim(h: Held, publishNow: nat, renew: Call, acknowledge: Call, localNow: nat)
    requires h.active.Some? && Publish(h.jobs, h.active.value.token, Stored(publishNow)).1 == Updated && !renew.fails
    ensures var published := Held(Publish(h.jobs, h.active.value.token, Stored(publishNow)).0, h.active);
            RenewActive(published, renew, acknowledge, localNow) == (published.(active := None), Err(Lost))
  {
  }

  // The reservation of the one coordinator

  /** The atomic flag, and the reservations alive; try_reserve and drop are one atomic operation each. */
  datatype Slot = Slot(reserved: bool, alive: set<nat>)

  datatype SlotAction = TryReserve(who: nat) | DropReservation(holder: nat)

  predicate SlotEnabled(s: Slot, a: SlotAction) {
    match a
    case TryReserve(who) => who !in s.alive
    case DropReservation(holder) => holder in s.alive
  }

  function SlotStep(s: Slot, a: SlotAction): Slot {
    match a
    case TryReserve(who) => if s.reserved then s else Slot(true, s.alive + {who})
    case DropReservation(holder) => Slot(false, s.alive - {holder})
  }

  predicate SlotFeasible(s: Slot, actions: seq<SlotAction>)
    decreases |actions|
  {
    actions == [] || (SlotEnabled(s, actions[0]) && SlotFeasible(SlotStep(s, actions[0]), actions[1..]))
  }

  function SlotAfter(s: Slot, actions: seq<SlotAction>): Slot
    decreases |actions|
  {
    if actions == [] then s else SlotAfter(SlotStep(s, actions[0]), actions[1..])
  }

  predicate SlotValid(s: Slot) {
    && (s.reserved <==> s.alive != {})
    && forall a, b :: a in s.alive && b in s.alive ==> a == b
  }

  lemma SlotStaysValid(s: Slot, a: SlotAction)
    requires SlotValid(s) && SlotEnabled(s, a)
    ensures SlotValid(SlotStep(s, a))
  {
    if a.DropReservation? {
      assert s.alive == {a.holder};
    } else if !s.reserved {
      assert a.who in SlotStep(s, a).alive;
    }
  }

  /** Under any interleaving at most one reservation is alive, and a try succeeds exactly when there is none. */
  lemma {:induction false} OneCoordinatorAtATime(s: Slot, actions: seq<SlotAction>)
    requires SlotValid(s) && SlotFeasible(s, actions)
    ensures SlotValid(SlotAfter(s, actions))
    ensures var t := SlotAfter(s, actions); forall who :: who !in t.alive ==>
              (who in SlotStep(t, TryReserve(who)).alive <==> t.alive == {})
    decreases |actions|
  {
    if actions != [] {
      SlotStaysValid(s, actions[0]);
      OneCoordinatorAtATime(SlotStep(s, actions[0]), actions[1..]);
    }
  }
}
