/** Runs over the job table: any workers and controls, any clocks, any tokens presented at any time. */
module JobRuns {
  import opened MachineInts
  import opened JobTable
  import opened StableSort

  /** `issued` is the tokens claims handed out, `published` the jobs whose publication succeeded, oldest first. */
  datatype World = World(jobs: Jobs, issued: seq<Token>, published: seq<string>)

  datatype Action =
    | EnqueueJob(id: string, chunkId: string, state: JobState, now: int)
    | ClaimNext(picked: Option<string>, owner: Owner, now: int, lease: int, chunks: set<string>)
    | RenewLease(token: Token, now: int, lease: int)
    | EnterTranscribing(token: Token, now: int)
    | FailJob(token: Token, now: int)
    | PublishResult(token: Token, now: int)
    | AcknowledgeCancellation(token: Token, now: int)
    | CancelJob(id: string)
    | RetryJob(id: string, ready: bool, now: int)
    | RecoverAll(bootId: string, now: int)

  const EMPTY := World(map[], [], [])

  ghost predicate Enabled(w: World, a: Action) {
    a.ClaimNext? ==> ClaimPicks(w.jobs, a.picked, a.now, a.chunks)
  }

  function JobsAfter(jobs: Jobs, a: Action): Jobs {
    match a
    case EnqueueJob(id, chunkId, state, now) => Enqueue(jobs, id, chunkId, state, now)
    case ClaimNext(picked, owner, _, lease, _) => Claim(jobs, picked, owner, lease)
    case RenewLease(token, now, lease) => Renew(jobs, token, now, lease).0
    case EnterTranscribing(token, now) => MarkTranscribing(jobs, token, now).0
    case FailJob(token, now) => Fail(jobs, token, now).0
    case PublishResult(token, now) => Publish(jobs, token, now).0
    case AcknowledgeCancellation(token, now) => AcknowledgeCancel(jobs, token, now).0
    case CancelJob(id) => RequestCancel(jobs, id).0
    case RetryJob(id, ready, now) => Retry(jobs, id, ready, now).0
    case RecoverAll(bootId, now) => Recover(jobs, bootId, now)
  }

  function Step(w: World, a: Action): World {
    var jobs := JobsAfter(w.jobs, a);
    World(jobs,
          if a.ClaimNext? && a.picked.Some? && a.picked.value in w.jobs
          then w.issued + [Token(a.picked.value, a.owner, jobs[a.picked.value].generation)] else w.issued,
          if a.PublishResult? && Publish(w.jobs, a.token, a.now).1 == Updated
          then w.published + [a.token.jobId] else w.published)
  }

  ghost predicate Feasible(w: World, actions: seq<Action>)
    decreases |actions|
  {
    actions == [] || (Enabled(w, actions[0]) && Feasible(Step(w, actions[0]), actions[1..]))
  }

  function After(w: World, actions: seq<Action>): World
    decreases |actions|
  {
    if actions == [] then w else After(Step(w, actions[0]), actions[1..])
  }

  // What every run keeps

  /** A row has an owner and a lease exactly while it runs, and its attempts stay within their limit. */
  predicate RowValid(job: Job) {
    && (Running(job) <==> job.claimedBy.Some?) && (Running(job) <==> job.leaseExpiresAt.Some?)
    && 0 < job.maxAttempts && job.attempts <= job.maxAttempts
    && (job.state == Queued ==> job.attempts < job.maxAttempts && !job.cancelRequested)
    && (job.state == BlockedModel || job.state == Failed ==> !job.cancelRequested)
    && (Running(job) ==> job.attempts > 0)
  }

  predicate RowsValid(jobs: Jobs) {
    forall id :: id in jobs ==> RowValid(jobs[id])
  }

  predicate OneRunning(jobs: Jobs) {
    forall a, b :: a in jobs && b in jobs && Running(jobs[a]) && Running(jobs[b]) ==> a == b
  }

  predicate IssuedKnown(w: World) {
    forall i :: 0 <= i < |w.issued| ==>
      w.issued[i].jobId in w.jobs && w.issued[i].generation <= w.jobs[w.issued[i].jobId].generation
  }

  predicate IssuedDistinct(issued: seq<Token>) {
    forall i, j :: 0 <= i < j < |issued| ==>
      !(issued[i].jobId == issued[j].jobId && issued[i].generation == issued[j].generation)
  }

  predicate PublishedSucceeded(w: World) {
    && (forall i :: 0 <= i < |w.published| ==> w.published[i] in w.jobs && w.jobs[w.published[i]].state == Succeeded)
    && (forall i, j :: 0 <= i < j < |w.published| ==> w.published[i] != w.published[j])
  }

  predicate Inv(w: World) {
    RowsValid(w.jobs) && OneRunning(w.jobs) && IssuedKnown(w) && IssuedDistinct(w.issued) && PublishedSucceeded(w)
  }

  // Each step keeps it

  lemma RowsStayValid(jobs: Jobs, a: Action)
    requires Enabled(World(jobs, [], []), a) && RowsValid(jobs)
    ensures RowsValid(JobsAfter(jobs, a))
  {
  }

  /** Only a claim makes a job run that did not. */
  lemma RunnersStay(jobs: Jobs, a: Action, id: string)
    requires !a.ClaimNext? && id in JobsAfter(jobs, a) && Running(JobsAfter(jobs, a)[id])
    ensures id in jobs && Running(jobs[id])
  {
  }

  lemma OneRunningStays(jobs: Jobs, a: Action)
    requires Enabled(World(jobs, [], []), a) && RowsValid(jobs) && OneRunning(jobs)
    ensures OneRunning(JobsAfter(jobs, a))
  {
    var after := JobsAfter(jobs, a);
    forall x, y | x in after && y in after && Running(after[x]) && Running(after[y])
      ensures x == y
    {
      if !a.ClaimNext? {
        RunnersStay(jobs, a, x);
        RunnersStay(jobs, a, y);
      } else if a.picked.Some? {
        assert forall id :: id in jobs ==> !Running(jobs[id]);
      }
    }
  }

  /** Jobs never disappear and their generation never falls; a claim raises it. */
  lemma GenerationsRise(jobs: Jobs, a: Action)
    ensures forall id :: id in jobs ==>
        id in JobsAfter(jobs, a) && jobs[id].generation <= JobsAfter(jobs, a)[id].generation
    ensures a.ClaimNext? && a.picked.Some? && a.picked.value in jobs ==>
              jobs[a.picked.value].generation < JobsAfter(jobs, a)[a.picked.value].generation
  {
  }

  /** Succeeded and cancelled jobs stay as they are. */
  lemma FinishedStays(jobs: Jobs, a: Action, id: string)
    requires Enabled(World(jobs, [], []), a) && id in jobs
        && (jobs[id].state == Succeeded || jobs[id].state == Cancelled)
    ensures id in JobsAfter(jobs, a) && JobsAfter(jobs, a)[id] == jobs[id]
  {
  }

  lemma IssuedStay(w: World, a: Action)
    requires IssuedKnown(w) && IssuedDistinct(w.issued)
    ensures IssuedKnown(Step(w, a)) && IssuedDistinct(Step(w, a).issued)
  {
    GenerationsRise(w.jobs, a);
  }

  lemma PublishedStay(w: World, a: Action)
    requires Enabled(w, a) && PublishedSucceeded(w)
    ensures PublishedSucceeded(Step(w, a))
  {
    forall i | 0 <= i < |w.published|
      ensures Step(w, a).jobs[w.published[i]] == w.jobs[w.published[i]]
    {
      FinishedStays(w.jobs, a, w.published[i]);
    }
  }

  lemma StepKeepsInv(w: World, a: Action)
    requires Enabled(w, a) && Inv(w)
    ensures Inv(Step(w, a))
  {
    RowsStayValid(w.jobs, a);
    OneRunningStays(w.jobs, a);
    IssuedStay(w, a);
    PublishedStay(w, a);
  }

  lemma {:induction false} RunsKeepInv(w: World, actions: seq<Action>)
    requires Inv(w) && Feasible(w, actions)
    ensures Inv(After(w, actions))
    decreases |actions|
  {
    if actions != [] {
      StepKeepsInv(w, actions[0]);
      RunsKeepInv(Step(w, actions[0]), actions[1..]);
    }
  }

  // Theorems

  /** Over all runs at most one job is being worked on, and every row keeps within its attempts. */
  lemma AtMostOneJobRuns(actions: seq<Action>, a: string, b: string)
    requires Feasible(EMPTY, actions)
    requires a in After(EMPTY, actions).jobs && b in After(EMPTY, actions).jobs
    requires Running(After(EMPTY, actions).jobs[a])
    ensures Running(After(EMPTY, actions).jobs[b]) ==> a == b
    ensures 0 < After(EMPTY, actions).jobs[a].attempts <= After(EMPTY, actions).jobs[a].maxAttempts
  {
    RunsKeepInv(EMPTY, actions);
    assert RowValid(After(EMPTY, actions).jobs[a]);
  }

  /** No two claims ever hand out the same job and generation. */
  lemma TokensAreDistinct(actions: seq<Action>)
    requires Feasible(EMPTY, actions)
    ensures IssuedDistinct(After(EMPTY, actions).issued)
  {
    RunsKeepInv(EMPTY, actions);
  }

  /** Every job is published at most once, whatever is retried, recovered or presented again. */
  lemma JobsPublishAtMostOnce(actions: seq<Action>, i: nat, j: nat)
    requires Feasible(EMPTY, actions) && i < j < |After(EMPTY, actions).published|
    ensures After(EMPTY, actions).published[i] != After(EMPTY, actions).published[j]
  {
    RunsKeepInv(EMPTY, actions);
  }

  /** A token whose claim is over: its job has moved on to this generation or a later one without it. */
  predicate Lost(jobs: Jobs, token: Token) {
    token.jobId in jobs && token.generation <= jobs[token.jobId].generation && !Owns(jobs, token)
  }

  lemma LostStays(jobs: Jobs, a: Action, token: Token)
    requires Enabled(World(jobs, [], []), a) && RowsValid(jobs) && Lost(jobs, token)
    ensures Lost(JobsAfter(jobs, a), token)
  {
    GenerationsRise(jobs, a);
    var job := jobs[token.jobId];
    assert RowValid(job);
    if !Running(job) && !a.ClaimNext? && Running(JobsAfter(jobs, a)[token.jobId]) {
      RunnersStay(jobs, a, token.jobId);
    }
  }

  /** Once lost, a claim stays lost in every run. */
  lemma {:induction false} LostForever(w: World, actions: seq<Action>, token: Token)
    requires Inv(w) && Feasible(w, actions) && Lost(w.jobs, token)
    ensures Lost(After(w, actions).jobs, token)
    decreases |actions|
  {
    if actions != [] {
      LostStays(w.jobs, actions[0], token);
      StepKeepsInv(w, actions[0]);
      LostForever(Step(w, actions[0]), actions[1..], token);
    }
  }

  /** And whatever it is presented for changes nothing and reports that ownership is lost. */
  lemma LostTokensChangeNothing(jobs: Jobs, token: Token, now: int, lease: int)
    requires Lost(jobs, token)
    ensures Renew(jobs, token, now, lease) == (jobs, OwnershipLost)
    ensures MarkTranscribing(jobs, token, now) == (jobs, OwnershipLost)
    ensures Fail(jobs, token, now) == (jobs, OwnershipLost)
    ensures Publish(jobs, token, now) == (jobs, OwnershipLost)
    ensures AcknowledgeCancel(jobs, token, now) == (jobs, OwnershipLost)
  {
  }

  /** Recovery by a new boot leaves no job running, so the next claim is not held up by a dead worker's. */
  lemma NewBootFreesEveryJob(w: World, bootId: string, now: int)
    requires Inv(w)
    requires forall id :: id in w.jobs && w.jobs[id].claimedBy.Some? ==> w.jobs[id].claimedBy.value.bootId != bootId
    ensures !AnyoneRunning(Recover(w.jobs, bootId, now))
    ensures forall id :: id in w.jobs ==> !Running(Recover(w.jobs, bootId, now)[id])
  {
    forall id | id in w.jobs
      ensures !Running(Recover(w.jobs, bootId, now)[id])
    {
      assert RowValid(w.jobs[id]);
    }
  }

  predicate NoClaimBy(actions: seq<Action>, bootId: string) {
    forall i :: 0 <= i < |actions| && actions[i].ClaimNext? ==> actions[i].owner.bootId != bootId
  }

  predicate NothingHeldBy(jobs: Jobs, bootId: string) {
    forall id :: id in jobs && jobs[id].claimedBy.Some? ==> jobs[id].claimedBy.value.bootId != bootId
  }

  lemma OnlyClaimsGiveOwners(jobs: Jobs, a: Action, bootId: string)
    requires NothingHeldBy(jobs, bootId) && (a.ClaimNext? ==> a.owner.bootId != bootId)
    ensures NothingHeldBy(JobsAfter(jobs, a), bootId)
  {
  }

  lemma {:induction false} OwnersHaveClaimed(w: World, actions: seq<Action>, bootId: string)
    requires Feasible(w, actions) && NoClaimBy(actions, bootId) && NothingHeldBy(w.jobs, bootId)
    ensures NothingHeldBy(After(w, actions).jobs, bootId)
    decreases |actions|
  {
    if actions != [] {
      var a := actions[0];
      assert a.ClaimNext? ==> a.owner.bootId != bootId;
      assert NoClaimBy(actions[1..], bootId);
      OnlyClaimsGiveOwners(w.jobs, a, bootId);
      OwnersHaveClaimed(Step(w, a), actions[1..], bootId);
    }
  }

  /** What is claimable is claimed, once nobody works. */
  lemma SomethingIsPicked(jobs: Jobs, picked: Option<string>, id: string, now: int, chunks: set<string>)
    requires !AnyoneRunning(jobs) && id in jobs && Claimable(jobs[id], now, chunks)
    requires ClaimPicks(jobs, picked, now, chunks)
    ensures picked.Some?
  {
  }

  /**
   * A crash costs an attempt and never the job. Whatever ran before, when a new boot recovers, nobody runs any more,
   * and a job that was running is queued with the attempts it had, claimable from five seconds on after its first
   * attempt and from thirty on after a later one; it is failed only without an attempt left and cancelled only on
   * request.
   */
  lemma CrashCostsAnAttemptOnly(
      actions: seq<Action>, bootId: string, now: int, id: string, later: int, chunks: set<string>,
      picked: Option<string>)
    requires Feasible(EMPTY, actions) && NoClaimBy(actions, bootId)
    requires id in After(EMPTY, actions).jobs && Running(After(EMPTY, actions).jobs[id])
    ensures var was := After(EMPTY, actions).jobs[id];
            var jobs := Step(After(EMPTY, actions), RecoverAll(bootId, now)).jobs;
            && !AnyoneRunning(jobs) && id in jobs && jobs[id].attempts == was.attempts > 0
            && (jobs[id].state == Cancelled <==> was.cancelRequested)
            && (jobs[id].state == Failed <==> !was.cancelRequested && was.attempts == was.maxAttempts)
            && (!was.cancelRequested && was.attempts < was.maxAttempts && was.chunkId in chunks ==>
                  && (Claimable(jobs[id], later, chunks)
                      <==> later >= now + if was.attempts == 1 then 5_000 else 30_000)
                  && (Claimable(jobs[id], later, chunks) && ClaimPicks(jobs, picked, later, chunks) ==> picked.Some?))
  {
    RunsKeepInv(EMPTY, actions);
    OwnersHaveClaimed(EMPTY, actions, bootId);
    var w := After(EMPTY, actions);
    NewBootFreesEveryJob(w, bootId, now);
    assert RowValid(w.jobs[id]);
    var jobs := Step(w, RecoverAll(bootId, now)).jobs;
    if Claimable(jobs[id], later, chunks) && ClaimPicks(jobs, picked, later, chunks) {
      SomethingIsPicked(jobs, picked, id, later, chunks);
    }
  }

  /** Recovery never takes a job from a live owner of the same boot. */
  lemma LiveOwnersKeepTheirJob(jobs: Jobs, token: Token, now: int)
    requires Owns(jobs, token) && LeaseLive(jobs[token.jobId], now)
    ensures Owns(Recover(jobs, token.claimedBy.bootId, now), token)
    ensures Recover(jobs, token.claimedBy.bootId, now)[token.jobId] == jobs[token.jobId]
  {
  }

  /**
   * A running job whose cancellation was asked for goes on as it is, or ends cancelled; it is not failed, requeued or
   * published.
   */
  predicate CancelUnderway(jobs: Jobs, id: string) {
    id in jobs && jobs[id].cancelRequested && (Running(jobs[id]) || jobs[id].state == Cancelled)
  }

  lemma CancelStaysUnderway(jobs: Jobs, a: Action, id: string)
    requires Enabled(World(jobs, [], []), a) && CancelUnderway(jobs, id)
    ensures CancelUnderway(JobsAfter(jobs, a), id)
  {
  }

  /** So a cancellation accepted for a running job always wins: in no run does that job ever succeed. */
  lemma {:induction false} CancelledJobsNeverSucceed(w: World, actions: seq<Action>, id: string)
    requires Inv(w) && Feasible(w, actions) && CancelUnderway(w.jobs, id)
    ensures CancelUnderway(After(w, actions).jobs, id) && id !in After(w, actions).published
    decreases |actions|
  {
    if actions != [] {
      CancelStaysUnderway(w.jobs, actions[0], id);
      StepKeepsInv(w, actions[0]);
      CancelledJobsNeverSucceed(Step(w, actions[0]), actions[1..], id);
    }
  }

  function ClockOf(a: Action): Option<int> {
    match a
    case EnqueueJob(_, _, _, now) => Some(now)
    case ClaimNext(_, _, now, _, _) => Some(now)
    case RenewLease(_, now, _) => Some(now)
    case EnterTranscribing(_, now) => Some(now)
    case FailJob(_, now) => Some(now)
    case PublishResult(_, now) => Some(now)
    case AcknowledgeCancellation(_, now) => Some(now)
    case CancelJob(_) => None
    case RetryJob(_, _, now) => Some(now)
    case RecoverAll(_, now) => Some(now)
  }

  predicate NotBefore(actions: seq<Action>, time: int) {
    forall i :: 0 <= i < |actions| && ClockOf(actions[i]).Some? ==> ClockOf(actions[i]).value >= time
  }

  /** The job as this claim left it, its lease over by `time`; only a cancellation request may have been noted since. */
  predicate Lapsed(jobs: Jobs, id: string, row: Job, time: int) {
    && id in jobs && Running(row) && row.leaseExpiresAt.Some? && row.leaseExpiresAt.value <= time
    && jobs[id].(cancelRequested := true) == row.(cancelRequested := true)
  }

  /** Or recovery has taken it from its owner. */
  predicate LapsedOrTaken(jobs: Jobs, id: string, row: Job, time: int) {
    Lapsed(jobs, id, row, time) || (row.claimedBy.Some? && Lost(jobs, Token(id, row.claimedBy.value, row.generation)))
  }

  lemma LapsedStays(jobs: Jobs, a: Action, id: string, row: Job, time: int)
    requires Enabled(World(jobs, [], []), a) && Lapsed(jobs, id, row, time) && NotBefore([a], time)
        && row.claimedBy.Some?
    ensures LapsedOrTaken(JobsAfter(jobs, a), id, row, time)
  {
    assert ClockOf([a][0]).Some? ==> ClockOf(a).value >= time;
  }

  /**
   * Once a lease is over and clocks do not run back, its owner can change nothing any more, whatever token it
   * presents: the row stays as it is until recovery takes the job away from it.
   */
  lemma {:induction false} LapsedClaimsAreFrozen(w: World, actions: seq<Action>, id: string, row: Job, time: int)
    requires Inv(w) && Feasible(w, actions) && NotBefore(actions, time)
    requires row.claimedBy.Some? && LapsedOrTaken(w.jobs, id, row, time)
    ensures LapsedOrTaken(After(w, actions).jobs, id, row, time)
    decreases |actions|
  {
    if actions != [] {
      var a := actions[0];
      assert NotBefore([a], time) && NotBefore(actions[1..], time);
      if Lapsed(w.jobs, id, row, time) {
        LapsedStays(w.jobs, a, id, row, time);
      } else {
        LostStays(w.jobs, a, Token(id, row.claimedBy.value, row.generation));
      }
      StepKeepsInv(w, a);
      LapsedClaimsAreFrozen(Step(w, a), actions[1..], id, row, time);
    }
  }

  // Which statements take effect

  /** The row is held under this claim, by a lease that is not over. */
  predicate HeldUnder(jobs: Jobs, token: Token, now: int) {
    && token.jobId in jobs
    && var job := jobs[token.jobId];
       && (job.state == Preparing || job.state == Transcribing)
       && job.claimedBy == Some(token.claimedBy) && job.generation == token.generation
       && job.leaseExpiresAt.Some? && job.leaseExpiresAt.value > now
  }

  /**
   * A statement of the owner takes effect exactly under a live claim: for a cancelled job only the acknowledgement, for
   * any other only the rest, and transcription is entered from preparation, published from transcription.
   */
  lemma OwnedStatementsExactly(jobs: Jobs, token: Token, now: int, lease: int)
    ensures var held, id := HeldUnder(jobs, token, now), token.jobId;
            var live := held && !jobs[id].cancelRequested;
            && (Renew(jobs, token, now, lease).1 == Updated <==> live)
            && (Fail(jobs, token, now).1 == Updated <==> live)
            && (MarkTranscribing(jobs, token, now).1 == Updated <==> live && jobs[id].state == Preparing)
            && (Publish(jobs, token, now).1 == Updated <==> live && jobs[id].state == Transcribing)
            && (AcknowledgeCancel(jobs, token, now).1 == Updated <==> held && jobs[id].cancelRequested)
    ensures var cancelling := HeldUnder(jobs, token, now) && jobs[token.jobId].cancelRequested;
            && (Renew(jobs, token, now, lease).1 == CancelRequested <==> cancelling)
            && (Fail(jobs, token, now).1 == CancelRequested <==> cancelling)
            && (MarkTranscribing(jobs, token, now).1 == CancelRequested <==> cancelling)
            && (Publish(jobs, token, now).1 == CancelRequested
                <==> cancelling && jobs[token.jobId].state == Transcribing)
            && AcknowledgeCancel(jobs, token, now).1 != CancelRequested
    ensures Renew(jobs, token, now, lease).1 != Updated ==> Renew(jobs, token, now, lease).0 == jobs
    ensures Fail(jobs, token, now).1 != Updated ==> Fail(jobs, token, now).0 == jobs
    ensures MarkTranscribing(jobs, token, now).1 != Updated ==> MarkTranscribing(jobs, token, now).0 == jobs
    ensures Publish(jobs, token, now).1 != Updated ==> Publish(jobs, token, now).0 == jobs
    ensures AcknowledgeCancel(jobs, token, now).1 != Updated ==> AcknowledgeCancel(jobs, token, now).0 == jobs
  {
  }

  /** The job can be given to a worker now. */
  predicate Waits(job: Job, now: int, chunks: set<string>) {
    && job.state == Queued && !job.cancelRequested && job.chunkId in chunks && job.availableAt <= now
    && (job.leaseExpiresAt.Some? ==> job.leaseExpiresAt.value <= now)
  }

  /** A claim picks a job exactly while none runs, and then the one waiting longest, the older one of equals. */
  lemma PicksExactly(jobs: Jobs, id: string, now: int, chunks: set<string>)
    ensures ClaimPicks(jobs, Some(id), now, chunks)
        <==> && (forall other :: other in jobs && jobs[other].claimedBy.Some? ==>
                   jobs[other].state != Preparing && jobs[other].state != Transcribing)
             && id in jobs && Waits(jobs[id], now, chunks)
             && forall other :: other in jobs && other != id && Waits(jobs[other], now, chunks) ==>
                  || jobs[id].availableAt < jobs[other].availableAt
                  || (jobs[id].availableAt == jobs[other].availableAt && jobs[id].createdAt < jobs[other].createdAt)
                  || (jobs[id].availableAt == jobs[other].availableAt && jobs[id].createdAt == jobs[other].createdAt
                      && TextBefore(id, other))
    ensures ClaimPicks(jobs, None, now, chunks)
        <==> || (exists other :: && other in jobs && jobs[other].claimedBy.Some?
                                 && (jobs[other].state == Preparing || jobs[other].state == Transcribing))
             || forall other :: other in jobs ==> !Waits(jobs[other], now, chunks)
  {
    assert AnyoneRunning(jobs)
        <==> exists other :: && other in jobs && jobs[other].claimedBy.Some?
                             && (jobs[other].state == Preparing || jobs[other].state == Transcribing);
    assert forall other :: other in jobs ==>
        (Waits(jobs[other], now, chunks) <==> Claimable(jobs[other], now, chunks));
  }

  // The life of a job

  /** A claimed job, and the token of its claim. */
  function ClaimOf(w: World, id: string, owner: Owner): Token
    requires id in w.jobs
  {
    Token(id, owner, w.jobs[id].generation + 1)
  }

  /**
   * When nobody works, the first claimable job is claimed, transcribed, renewed and published, each before the lease at
   * that moment is over: it has succeeded, with one attempt more, and no other row was touched.
   */
  lemma ClaimedJobsCanSucceed(
      w: World, id: string, owner: Owner, now: int, lease: int, chunks: set<string>, entered: int, renewed: int,
      longer: int, published: int)
    requires !AnyoneRunning(w.jobs) && FirstClaimable(w.jobs, id, now, chunks)
    requires entered < lease && renewed < lease && published < longer
    ensures var token := ClaimOf(w, id, owner);
            var run := [ClaimNext(Some(id), owner, now, lease, chunks), EnterTranscribing(token, entered),
                        RenewLease(token, renewed, longer), PublishResult(token, published)];
            var was := w.jobs[id];
            && Feasible(w, run)
            && After(w, run) == World(
                 w.jobs[id := Job(was.chunkId, Succeeded, was.attempts + 1, was.maxAttempts, was.generation + 1,
                                  was.availableAt, was.createdAt, None, None, false)],
                 w.issued + [token], w.published + [id])
  {
    var token := ClaimOf(w, id, owner);
    var claim := ClaimNext(Some(id), owner, now, lease, chunks);
    var enter, renew := EnterTranscribing(token, entered), RenewLease(token, renewed, longer);
    var publish := PublishResult(token, published);
    var was := w.jobs[id];
    var row := was.(state := Preparing, claimedBy := Some(owner), leaseExpiresAt := Some(lease),
                    attempts := was.attempts + 1, generation := was.generation + 1);
    ClaimStep(w, id, owner, now, lease, chunks);
    var w1 := World(w.jobs[id := row], w.issued + [token], w.published);
    var row2 := row.(state := Transcribing);
    EnterStep(w1, id, row, token, entered);
    var w2 := w1.(jobs := w1.jobs[id := row2]);
    var row3 := row2.(leaseExpiresAt := Some(longer));
    RenewStep(w2, id, row2, token, renewed, longer);
    var w3 := w2.(jobs := w2.jobs[id := row3]);
    PublishStep(w3, id, row3, token, published);
    var row4 := row3.(state := Succeeded, claimedBy := None, leaseExpiresAt := None);
    var w4 := World(w3.jobs[id := row4], w3.issued, w3.published + [id]);
    FourSteps(w, claim, w1, enter, w2, renew, w3, publish, w4);
    OnlyThatRow(w.jobs, w4.jobs, id);
  }

  lemma ClaimStep(w: World, id: string, owner: Owner, now: int, lease: int, chunks: set<string>)
    requires !AnyoneRunning(w.jobs) && FirstClaimable(w.jobs, id, now, chunks)
    ensures var was := w.jobs[id];
            Step(w, ClaimNext(Some(id), owner, now, lease, chunks)) == World(
              w.jobs[id := was.(state := Preparing, claimedBy := Some(owner), leaseExpiresAt := Some(lease),
                                attempts := was.attempts + 1, generation := was.generation + 1)],
              w.issued + [ClaimOf(w, id, owner)], w.published)
  {
  }

  lemma EnterStep(w: World, id: string, row: Job, token: Token, now: int)
    requires id in w.jobs && w.jobs[id] == row && row.state == Preparing && !row.cancelRequested && LeaseLive(row, now)
    requires token.jobId == id && OwnedBy(row, token)
    ensures Step(w, EnterTranscribing(token, now)) == w.(jobs := w.jobs[id := row.(state := Transcribing)])
  {
  }

  lemma RenewStep(w: World, id: string, row: Job, token: Token, now: int, lease: int)
    requires id in w.jobs && w.jobs[id] == row && !row.cancelRequested && LeaseLive(row, now)
    requires token.jobId == id && OwnedBy(row, token)
    ensures Step(w, RenewLease(token, now, lease)) == w.(jobs := w.jobs[id := row.(leaseExpiresAt := Some(lease))])
  {
  }

  lemma PublishStep(w: World, id: string, row: Job, token: Token, now: int)
    requires id in w.jobs && w.jobs[id] == row && row.state == Transcribing && !row.cancelRequested
    requires LeaseLive(row, now) && token.jobId == id && OwnedBy(row, token)
    ensures Step(w, PublishResult(token, now)) == World(
              w.jobs[id := row.(state := Succeeded, claimedBy := None, leaseExpiresAt := None)], w.issued,
              w.published + [id])
  {
  }

  lemma OnlyThatRow(jobs: Jobs, after: Jobs, id: string)
    requires id in jobs && after.Keys == jobs.Keys
    requires forall other :: other in jobs && other != id ==> after[other] == jobs[other]
    ensures after == jobs[id := after[id]]
  {
  }

  lemma FourSteps(
      w: World, a: Action, w1: World, b: Action, w2: World, c: Action, w3: World, d: Action, w4: World)
    requires Enabled(w, a) && Step(w, a) == w1 && Enabled(w1, b) && Step(w1, b) == w2
    requires Enabled(w2, c) && Step(w2, c) == w3 && Enabled(w3, d) && Step(w3, d) == w4
    ensures Feasible(w, [a, b, c, d]) && After(w, [a, b, c, d]) == w4
  {
    OneStepMore(w3, d, []);
    OneStepMore(w2, c, [d]);
    OneStepMore(w1, b, [c, d]);
    OneStepMore(w, a, [b, c, d]);
    assert [d] + [] == [d] && [c] + [d] == [c, d] && [b] + [c, d] == [b, c, d] && [a] + [b, c, d] == [a, b, c, d];
  }

  lemma OneStepMore(w: World, a: Action, actions: seq<Action>)
    requires Enabled(w, a) && Feasible(Step(w, a), actions)
    ensures Feasible(w, [a] + actions) && After(w, [a] + actions) == After(Step(w, a), actions)
  {
    assert ([a] + actions)[1..] == actions;
  }

  /** If instead its owner reports a failure, the job fails; once its model is ready it starts over, at once. */
  lemma FailedJobsStartOver(
      w: World, id: string, owner: Owner, now: int, lease: int, chunks: set<string>, failed: int, retried: int)
    requires !AnyoneRunning(w.jobs) && FirstClaimable(w.jobs, id, now, chunks) && failed < lease
    ensures var token := ClaimOf(w, id, owner);
            var claimed := Step(w, ClaimNext(Some(id), owner, now, lease, chunks));
            var over := Step(claimed, FailJob(token, failed));
            var again := Step(over, RetryJob(id, true, retried));
            var was := w.jobs[id];
            && over.jobs == w.jobs[id := Job(was.chunkId, Failed, was.attempts + 1, was.maxAttempts, was.generation + 1,
                                             was.availableAt, was.createdAt, None, None, false)]
            && Step(over, RetryJob(id, false, retried)) == over
            && again.jobs == w.jobs[id := Job(was.chunkId, Queued, 0, was.maxAttempts, was.generation + 2, retried,
                                              was.createdAt, None, None, false)]
            && Claimable(again.jobs[id], retried, chunks)
  {
    var token := ClaimOf(w, id, owner);
    var claimed := Step(w, ClaimNext(Some(id), owner, now, lease, chunks));
    var over := Step(claimed, FailJob(token, failed));
    assert claimed.jobs[id].state == Preparing && Owns(claimed.jobs, token);
    assert over.jobs == w.jobs[id := over.jobs[id]];
    var again := Step(over, RetryJob(id, true, retried));
    assert again.jobs == w.jobs[id := again.jobs[id]];
  }

  /**
   * A cancellation asked for while the job runs is noted once. Under the lease its owner is told so instead of being
   * served, whatever it asks for, until it acknowledges; then the job is cancelled.
   */
  lemma RunningJobsCanBeCancelled(jobs: Jobs, token: Token, now: int, lease: int)
    requires Owns(jobs, token) && LeaseLive(jobs[token.jobId], now) && !jobs[token.jobId].cancelRequested
    ensures var id := token.jobId;
            var noted := jobs[id := jobs[id].(cancelRequested := true)];
            && RequestCancel(jobs, id) == (noted, Requested) && RequestCancel(noted, id) == (noted, Unchanged)
            && Renew(noted, token, now, lease) == (noted, CancelRequested)
            && MarkTranscribing(noted, token, now) == (noted, CancelRequested)
            && Fail(noted, token, now) == (noted, CancelRequested)
            && (jobs[id].state == Transcribing ==> Publish(noted, token, now) == (noted, CancelRequested))
            && AcknowledgeCancel(jobs, token, now) == (jobs, OwnershipLost)
            && AcknowledgeCancel(noted, token, now)
               == (jobs[id := jobs[id].(state := Cancelled, claimedBy := None, leaseExpiresAt := None,
                                        cancelRequested := true)], Updated)
  {
    var id := token.jobId;
    var noted := jobs[id := jobs[id].(cancelRequested := true)];
    var over := jobs[id].(state := Cancelled, claimedBy := None, leaseExpiresAt := None, cancelRequested := true);
    assert noted[id := over] == jobs[id := over];
  }

  /** A job that waits is cancelled on the spot; one that has ended, or that nobody knows, is left alone. */
  lemma WaitingJobsAreCancelledAtOnce(jobs: Jobs, id: string)
    ensures id in jobs && (jobs[id].state == Queued || jobs[id].state == BlockedModel) ==>
              RequestCancel(jobs, id)
              == (jobs[id := jobs[id].(state := Cancelled, claimedBy := None, leaseExpiresAt := None,
                                       cancelRequested := true)], CancelledNow)
    ensures id !in jobs || jobs[id].state == Succeeded || jobs[id].state == Failed || jobs[id].state == Cancelled ==>
              RequestCancel(jobs, id) == (jobs, Unchanged)
  {
  }

  /** Only a blocked or a failed job can be retried, and only with its model ready. */
  lemma RetriesExactly(jobs: Jobs, id: string, ready: bool, now: int)
    ensures Retry(jobs, id, ready, now).1.Retried?
        <==> id in jobs && (jobs[id].state == BlockedModel || jobs[id].state == Failed) && ready
    ensures Retry(jobs, id, ready, now).1 == ModelNotReady
        <==> id in jobs && (jobs[id].state == BlockedModel || jobs[id].state == Failed) && !ready
    ensures !Retry(jobs, id, ready, now).1.Retried? ==> Retry(jobs, id, ready, now).0 == jobs
    ensures Retry(jobs, id, ready, now).1.Retried? ==>
              && Retry(jobs, id, ready, now).0
                 == jobs[id := jobs[id].(state := Queued, attempts := 0, generation := jobs[id].generation + 1,
                                         availableAt := now, claimedBy := None, leaseExpiresAt := None,
                                         cancelRequested := false)]
              && Retry(jobs, id, ready, now).1.generation == jobs[id].generation + 1
  {
  }

  /** A job put in the queue is claimable at once, and waits for its model otherwise; an id is used once. */
  lemma EnqueuedJobsWait(jobs: Jobs, id: string, chunkId: string, state: JobState, now: int, chunks: set<string>)
    requires state == Queued || state == BlockedModel || state == Failed
    ensures id in jobs ==> Enqueue(jobs, id, chunkId, state, now) == jobs
    ensures id !in jobs ==>
              var after := Enqueue(jobs, id, chunkId, state, now);
              && after == jobs[id := after[id]] && RowValid(after[id]) && after[id].attempts == 0
              && after[id].maxAttempts == 3 && after[id].state == state && after[id].chunkId == chunkId
              && (Claimable(after[id], now, chunks) <==> state == Queued && chunkId in chunks)
              && !Claimable(after[id], now - 1, chunks)
  {
  }
}
