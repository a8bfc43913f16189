/**
 * catalog/jobs.rs: the ASR job rows. Every statement runs in one immediate transaction, so each call is one step;
 * times are the milliseconds that the stored text can tell apart.
 */
module JobTable {
  import opened MachineInts
  import opened StableSort

  datatype JobState = Queued | BlockedModel | Preparing | Transcribing | Succeeded | Failed | Cancelled

  datatype Owner = Owner(bootId: string, workerId: string)

  datatype Job = Job(
    chunkId: string, state: JobState, attempts: nat, maxAttempts: nat, generation: nat,
    availableAt: int, createdAt: int, claimedBy: Option<Owner>, leaseExpiresAt: Option<int>, cancelRequested: bool)

  datatype Token = Token(jobId: string, claimedBy: Owner, generation: nat)

  datatype OwnedResult = Updated | CancelRequested | OwnershipLost

  datatype CancelResult = CancelledNow | Requested | Unchanged

  datatype RetryResult = Retried(generation: nat) | InvalidTransition | ModelNotReady

  datatype RecoveryCounts = RecoveryCounts(requeued: nat, cancelled: nat, exhausted: nat)

  /** Keyed by job id. */
  type Jobs = map<string, Job>

  predicate Running(job: Job) {
    job.state == Preparing || job.state == Transcribing
  }

  /** claimed_by, claim_generation and a running state, as every owned statement asks. */
  predicate OwnedBy(job: Job, token: Token) {
    job.claimedBy == Some(token.claimedBy) && job.generation == token.generation && Running(job)
  }

  predicate LeaseLive(job: Job, now: int) {
    job.leaseExpiresAt.Some? && job.leaseExpiresAt.value > now
  }

  predicate Owns(jobs: Jobs, token: Token) {
    token.jobId in jobs && OwnedBy(jobs[token.jobId], token)
  }

  // Claiming

  predicate Claimable(job: Job, now: int, chunks: set<string>) {
    && job.state == Queued && !job.cancelRequested && job.availableAt <= now
    && (job.leaseExpiresAt.None? || job.leaseExpiresAt.value <= now)
    && job.chunkId in chunks
  }

  predicate AnyoneRunning(jobs: Jobs) {
    exists id :: id in jobs && Running(jobs[id]) && jobs[id].claimedBy.Some?
  }

  /** ORDER BY available_at, created_at, id. */
  predicate ClaimedBefore(jobs: Jobs, a: string, b: string)
    requires a in jobs && b in jobs
  {
    || jobs[a].availableAt < jobs[b].availableAt
    || (jobs[a].availableAt == jobs[b].availableAt
        && (jobs[a].createdAt < jobs[b].createdAt || (jobs[a].createdAt == jobs[b].createdAt && TextBefore(a, b))))
  }

  /** The row a claim picks, with `chunks` the chunks whose integrity is `available`. */
  ghost predicate FirstClaimable(jobs: Jobs, id: string, now: int, chunks: set<string>) {
    && id in jobs && Claimable(jobs[id], now, chunks)
    && forall other :: other in jobs && Claimable(jobs[other], now, chunks) && other != id ==>
         ClaimedBefore(jobs, id, other)
  }

  ghost predicate ClaimPicks(jobs: Jobs, picked: Option<string>, now: int, chunks: set<string>) {
    match picked
    case Some(id) => !AnyoneRunning(jobs) && FirstClaimable(jobs, id, now, chunks)
    case None => AnyoneRunning(jobs) || forall id :: id in jobs ==> !Claimable(jobs[id], now, chunks)
  }

  /** claim_asr_job for the picked row. */
  function Claim(jobs: Jobs, picked: Option<string>, owner: Owner, lease: int): Jobs {
    if picked.None? || picked.value !in jobs then jobs
    else
      var job := jobs[picked.value];
      jobs[picked.value := job.(state := Preparing, claimedBy := Some(owner), leaseExpiresAt := Some(lease),
                                attempts := job.attempts + 1, generation := job.generation + 1)]
  }

  // Statements of the owner

  predicate MayMutate(jobs: Jobs, token: Token, now: int) {
    Owns(jobs, token) && !jobs[token.jobId].cancelRequested && LeaseLive(jobs[token.jobId], now)
  }

  predicate CancelIsPending(jobs: Jobs, token: Token, now: int) {
    Owns(jobs, token) && jobs[token.jobId].cancelRequested && LeaseLive(jobs[token.jobId], now)
  }

  /** owned_mutation_result: what a statement that changed nothing found instead. */
  function NotUpdated(jobs: Jobs, token: Token, now: int): OwnedResult {
    if CancelIsPending(jobs, token, now) then CancelRequested else OwnershipLost
  }

  function Renew(jobs: Jobs, token: Token, now: int, lease: int): (Jobs, OwnedResult) {
    if MayMutate(jobs, token, now)
    then (jobs[token.jobId := jobs[token.jobId].(leaseExpiresAt := Some(lease))], Updated)
    else (jobs, NotUpdated(jobs, token, now))
  }

  function MarkTranscribing(jobs: Jobs, token: Token, now: int): (Jobs, OwnedResult) {
    if MayMutate(jobs, token, now) && jobs[token.jobId].state == Preparing
    then (jobs[token.jobId := jobs[token.jobId].(state := Transcribing)], Updated)
    else (jobs, NotUpdated(jobs, token, now))
  }

  function Released(job: Job, state: JobState): Job {
    job.(state := state, claimedBy := None, leaseExpiresAt := None)
  }

  function Fail(jobs: Jobs, token: Token, now: int): (Jobs, OwnedResult) {
    if MayMutate(jobs, token, now) then (jobs[token.jobId := Released(jobs[token.jobId], Failed)], Updated)
    else (jobs, NotUpdated(jobs, token, now))
  }

  /** publish_asr_result on the job row: the claim must be transcribing. */
  function Publish(jobs: Jobs, token: Token, now: int): (Jobs, OwnedResult) {
    if MayMutate(jobs, token, now) && jobs[token.jobId].state == Transcribing
    then (jobs[token.jobId := Released(jobs[token.jobId], Succeeded)], Updated)
    else if CancelIsPending(jobs, token, now) && jobs[token.jobId].state == Transcribing then (jobs, CancelRequested)
    else (jobs, OwnershipLost)
  }

  function AcknowledgeCancel(jobs: Jobs, token: Token, now: int): (Jobs, OwnedResult) {
    if CancelIsPending(jobs, token, now) then (jobs[token.jobId := Released(jobs[token.jobId], Cancelled)], Updated)
    else (jobs, OwnershipLost)
  }

  // Statements of anyone

  function RequestCancel(jobs: Jobs, id: string): (Jobs, CancelResult) {
    if id !in jobs then (jobs, Unchanged)
    else if jobs[id].state == Queued || jobs[id].state == BlockedModel
    then (jobs[id := Released(jobs[id], Cancelled).(cancelRequested := true)], CancelledNow)
    else if Running(jobs[id]) && !jobs[id].cancelRequested
    then (jobs[id := jobs[id].(cancelRequested := true)], Requested)
    else (jobs, Unchanged)
  }

  /** `ready` is whether the chunk and the installed model still match the job. */
  function Retry(jobs: Jobs, id: string, ready: bool, now: int): (Jobs, RetryResult) {
    if id !in jobs || !(jobs[id].state == BlockedModel || jobs[id].state == Failed) then (jobs, InvalidTransition)
    else if !ready then (jobs, ModelNotReady)
    else
      var retried := Released(jobs[id], Queued).(
        attempts := 0, generation := jobs[id].generation + 1, availableAt := now, cancelRequested := false);
      (jobs[id := retried], Retried(retried.generation))
  }

  predicate Abandoned(job: Job, bootId: string, now: int) {
    && Running(job) && job.claimedBy.Some?
    && (job.claimedBy.value.bootId != bootId || !LeaseLive(job, now))
  }

  function RetryDelay(attempts: nat): int {
    if attempts <= 1 then 5_000 else 30_000
  }

  /** What recovery makes of one abandoned job. */
  function Recovered(job: Job, now: int): Job {
    if job.cancelRequested then Released(job, Cancelled).(availableAt := now)
    else if job.attempts >= job.maxAttempts then Released(job, Failed).(availableAt := now)
    else Released(job, Queued).(availableAt := now + RetryDelay(job.attempts))
  }

  /** Recovery of the abandoned jobs among these. */
  function RecoverThese(jobs: Jobs, ids: set<string>, bootId: string, now: int): Jobs {
    map id | id in jobs :: if id in ids && Abandoned(jobs[id], bootId, now) then Recovered(jobs[id], now) else jobs[id]
  }

  function Recover(jobs: Jobs, bootId: string, now: int): Jobs {
    RecoverThese(jobs, jobs.Keys, bootId, now)
  }

  function Counted(counts: RecoveryCounts, job: Job, bootId: string, now: int): RecoveryCounts {
    if !Abandoned(job, bootId, now) then counts
    else if job.cancelRequested then counts.(cancelled := counts.cancelled + 1)
    else if job.attempts >= job.maxAttempts then counts.(exhausted := counts.exhausted + 1)
    else counts.(requeued := counts.requeued + 1)
  }

  function CountUpTo(jobs: Jobs, ids: seq<string>, n: nat, bootId: string, now: int): RecoveryCounts
    requires n <= |ids|
  {
    if n == 0 then RecoveryCounts(0, 0, 0)
    else
      var before := CountUpTo(jobs, ids, n - 1, bootId, now);
      if ids[n - 1] in jobs then Counted(before, jobs[ids[n - 1]], bootId, now) else before
  }

  /** insert_asr_job for a job that is not there yet: queued, waiting for its model, or failed. */
  function Enqueue(jobs: Jobs, id: string, chunkId: string, state: JobState, now: int): Jobs {
    if id in jobs || !(state == Queued || state == BlockedModel || state == Failed) then jobs
    else jobs[id := Job(chunkId, state, 0, 3, 0, now, now, None, None, false)]
  }

  // The table

  class JobCatalog {
    var jobs: Jobs

    constructor ()
      ensures jobs == map[]
    {
      jobs := map[];
    }

    /** One row of the recovery pass: left alone while its owner may still be alive. */
    method RecoverOne(id: string, bootId: string, now: int, before: RecoveryCounts) returns (counts: RecoveryCounts)
      requires id in jobs
      modifies this
      ensures jobs == RecoverThese(old(jobs), {id}, bootId, now)
      ensures counts == Counted(before, old(jobs)[id], bootId, now)
    {
      var job := jobs[id];
      counts := before;
      if Running(job) && job.claimedBy.Some? {
        var sameBoot := job.claimedBy.value.bootId == bootId;
        var expired := job.leaseExpiresAt.None? || job.leaseExpiresAt.value <= now;
        if !(sameBoot && !expired) {
          if job.cancelRequested {
            counts := counts.(cancelled := counts.cancelled + 1);
            jobs := jobs[id := Released(job, Cancelled).(availableAt := now)];
          } else if job.attempts >= job.maxAttempts {
            counts := counts.(exhausted := counts.exhausted + 1);
            jobs := jobs[id := Released(job, Failed).(availableAt := now)];
          } else {
            counts := counts.(requeued := counts.requeued + 1);
            jobs := jobs[id := Released(job, Queued).(availableAt := now + RetryDelay(job.attempts))];
          }
        }
      }
    }

    /**
     * recover_asr_jobs: one pass over the rows, in the order they were read. A running job of another boot, or whose
     * lease is over, loses its owner: it ends cancelled if that was asked for, failed if it has no attempt left, and
     * otherwise waits for its next attempt.
     */
    method RecoverJobs(ids: seq<string>, bootId: string, now: int) returns (counts: RecoveryCounts)
      requires forall id :: id in ids <==> id in jobs
      requires forall i, j :: 0 <= i < j < |ids| ==> ids[i] != ids[j]
      modifies this
      ensures jobs == Recover(old(jobs), bootId, now)
      ensures jobs.Keys == old(jobs).Keys
      ensures forall id :: id in jobs ==>
                var was, row := old(jobs)[id], jobs[id];
                if (was.state == Preparing || was.state == Transcribing) && was.claimedBy.Some?
                   && (|| was.claimedBy.value.bootId != bootId || was.leaseExpiresAt.None?
                       || was.leaseExpiresAt.value <= now)
                then
                  && (row.state == Cancelled <==> was.cancelRequested)
                  && (row.state == Failed <==> !was.cancelRequested && was.attempts >= was.maxAttempts)
                  && (row.state == Queued <==> !was.cancelRequested && was.attempts < was.maxAttempts)
                  && row.availableAt
                     == now + (if row.state != Queued then 0 else if was.attempts <= 1 then 5_000 else 30_000)
                  && row.claimedBy.None? && row.leaseExpiresAt.None?
                  && row.(state := was.state, availableAt := was.availableAt, claimedBy := was.claimedBy,
                          leaseExpiresAt := was.leaseExpiresAt) == was
                else row == was
      ensures counts == RecoveryCounts(
                |set id | id in jobs && jobs[id] != old(jobs)[id] && jobs[id].state == Queued|,
                |set id | id in jobs && jobs[id] != old(jobs)[id] && jobs[id].state == Cancelled|,
                |set id | id in jobs && jobs[id] != old(jobs)[id] && jobs[id].state == Failed|)
    {
      counts := RecoveryCounts(0, 0, 0);
      RecoverNone(jobs, bootId, now);
      for i := 0 to |ids|
        invariant jobs == RecoverThese(old(jobs), Seen(ids, i), bootId, now)
        invariant counts == CountUpTo(old(jobs), ids, i, bootId, now)
      {
        RecoverOneMore(old(jobs), ids, i, bootId, now);
        counts := RecoverOne(ids[i], bootId, now, counts);
      }
      assert Seen(ids, |ids|) == old(jobs).Keys;
      RecoverIs(old(jobs), jobs, bootId, now);
      CountsAreSizes(old(jobs), ids, |ids|, bootId, now);
      WentIsChanged(old(jobs), bootId, now, Queued);
      WentIsChanged(old(jobs), bootId, now, Cancelled);
      WentIsChanged(old(jobs), bootId, now, Failed);
    }
  }

  predicate Goes(job: Job, bootId: string, now: int, state: JobState) {
    Abandoned(job, bootId, now) && Recovered(job, now).state == state
  }

  /** The abandoned jobs among these that recovery leaves in this state. */
  function Went(jobs: Jobs, ids: set<string>, bootId: string, now: int, state: JobState): set<string> {
    set id | id in ids && id in jobs && Goes(jobs[id], bootId, now, state)
  }

  lemma WentOneMore(jobs: Jobs, seen: set<string>, id: string, bootId: string, now: int, state: JobState)
    requires id in jobs && id !in seen
    ensures |Went(jobs, seen + {id}, bootId, now, state)|
        == |Went(jobs, seen, bootId, now, state)| + if Goes(jobs[id], bootId, now, state) then 1 else 0
  {
    var before, after := Went(jobs, seen, bootId, now, state), Went(jobs, seen + {id}, bootId, now, state);
    assert forall other :: other in after <==> other in before || (other == id && Goes(jobs[id], bootId, now, state));
    if Goes(jobs[id], bootId, now, state) {
      assert after == before + {id};
    } else {
      assert after == before;
    }
  }

  lemma CountsAreSizes(jobs: Jobs, ids: seq<string>, n: nat, bootId: string, now: int)
    requires n <= |ids| && (forall i, j :: 0 <= i < j < |ids| ==> ids[i] != ids[j])
    requires forall i :: 0 <= i < |ids| ==> ids[i] in jobs
    ensures CountUpTo(jobs, ids, n, bootId, now) == RecoveryCounts(
              |Went(jobs, Seen(ids, n), bootId, now, Queued)|, |Went(jobs, Seen(ids, n), bootId, now, Cancelled)|,
              |Went(jobs, Seen(ids, n), bootId, now, Failed)|)
  {
    if n == 0 {
      assert Seen(ids, 0) == {};
      assert forall state :: Went(jobs, {}, bootId, now, state) == {};
    } else {
      CountsAreSizes(jobs, ids, n - 1, bootId, now);
      var seen, id := Seen(ids, n - 1), ids[n - 1];
      assert Seen(ids, n) == seen + {id} && id !in seen;
      WentOneMore(jobs, seen, id, bootId, now, Queued);
      WentOneMore(jobs, seen, id, bootId, now, Cancelled);
      WentOneMore(jobs, seen, id, bootId, now, Failed);
    }
  }

  lemma RecoverIs(jobs: Jobs, after: Jobs, bootId: string, now: int)
    requires after == Recover(jobs, bootId, now)
    ensures after.Keys == jobs.Keys
    ensures forall id :: id in after ==>
              var was, row := jobs[id], after[id];
              if (was.state == Preparing || was.state == Transcribing) && was.claimedBy.Some?
                 && (|| was.claimedBy.value.bootId != bootId || was.leaseExpiresAt.None?
                     || was.leaseExpiresAt.value <= now)
              then
                && (row.state == Cancelled <==> was.cancelRequested)
                && (row.state == Failed <==> !was.cancelRequested && was.attempts >= was.maxAttempts)
                && (row.state == Queued <==> !was.cancelRequested && was.attempts < was.maxAttempts)
                && row.availableAt
                   == now + (if row.state != Queued then 0 else if was.attempts <= 1 then 5_000 else 30_000)
                && row.claimedBy.None? && row.leaseExpiresAt.None?
                && row.(state := was.state, availableAt := was.availableAt, claimedBy := was.claimedBy,
                        leaseExpiresAt := was.leaseExpiresAt) == was
              else row == was
  {
  }

  lemma WentIsChanged(jobs: Jobs, bootId: string, now: int, state: JobState)
    requires state == Queued || state == Cancelled || state == Failed
    ensures var after := Recover(jobs, bootId, now);
            Went(jobs, jobs.Keys, bootId, now, state)
            == set id | id in after && after[id] != jobs[id] && after[id].state == state
  {
    var after := Recover(jobs, bootId, now);
    forall id | id in jobs
      ensures after[id] != jobs[id] <==> Abandoned(jobs[id], bootId, now)
    {
    }
  }

  function Seen(ids: seq<string>, n: nat): set<string>
    requires n <= |ids|
  {
    set k | 0 <= k < n :: ids[k]
  }

  lemma RecoverNone(jobs: Jobs, bootId: string, now: int)
    ensures RecoverThese(jobs, {}, bootId, now) == jobs
  {
  }

  lemma RecoverOneMore(jobs: Jobs, ids: seq<string>, n: nat, bootId: string, now: int)
    requires n < |ids| && (forall i, j :: 0 <= i < j < |ids| ==> ids[i] != ids[j]) && ids[n] in jobs
    ensures var before := RecoverThese(jobs, Seen(ids, n), bootId, now);
            && before[ids[n]] == jobs[ids[n]]
            && RecoverThese(before, {ids[n]}, bootId, now) == RecoverThese(jobs, Seen(ids, n + 1), bootId, now)
  {
    assert Seen(ids, n + 1) == Seen(ids, n) + {ids[n]};
    assert ids[n] !in Seen(ids, n);
  }

  // The pick of a claim

  lemma PicksAgree(jobs: Jobs, a: Option<string>, b: Option<string>, now: int, chunks: set<string>)
    requires ClaimPicks(jobs, a, now, chunks) && ClaimPicks(jobs, b, now, chunks)
    ensures a == b
  {
    if a.Some? && b.Some? && a != b {
      TextOrderIsStrict(a.value, b.value);
    }
  }

  lemma {:induction false} FirstOf(jobs: Jobs, ids: set<string>) returns (first: string)
    requires ids != {} && ids <= jobs.Keys
    ensures first in ids && forall other :: other in ids && other != first ==> ClaimedBefore(jobs, first, other)
    decreases |ids|
  {
    first :| first in ids;
    var rest := ids - {first};
    if rest != {} {
      var best := FirstOf(jobs, rest);
      TextOrderIsStrict(first, best);
      if ClaimedBefore(jobs, best, first) {
        first := best;
      } else {
        forall other | other in rest && other != best
          ensures ClaimedBefore(jobs, first, other)
        {
          if TextBefore(first, best) && TextBefore(best, other) {
            TextOrderIsTransitive(first, best, other);
          }
        }
      }
    }
  }

  /** A claim always has exactly one pick. */
  lemma PickExists(jobs: Jobs, now: int, chunks: set<string>) returns (picked: Option<string>)
    ensures ClaimPicks(jobs, picked, now, chunks)
  {
    var ids := set id | id in jobs && Claimable(jobs[id], now, chunks);
    if AnyoneRunning(jobs) || ids == {} {
      assert forall id :: id in jobs && Claimable(jobs[id], now, chunks) ==> id in ids;
      picked := None;
    } else {
      var first := FirstOf(jobs, ids);
      picked := Some(first);
    }
  }
}
