/**
 * api/dispatch.rs: the idempotency-guarded mutation flow. Claim, execute and commit each take the catalog
 * lock on their own, so requests interleave between them and the process can die between them.
 */
module Dispatch {
  import opened MachineInts
  import opened Idempotency

  const E_INTERNAL := "internal_error"
  const E_OPERATION_IN_PROGRESS := "operation_in_progress"

  datatype Request = Request(scope: Scope, requestId: string, kind: string, requestMethod: string, fingerprint: string)

  /** What running the mutation gave: the operation it created, or an error code and message. */
  datatype Outcome = Created(operation: OperationSummary) | Refused(code: string, message: string)

  datatype Reply =
    | Success(response: SuccessResponse)
    | Failure(contract: string, requestId: string, code: string, message: string)

  function ErrorReply(request: Request, code: string, message: string): Reply {
    Failure(request.scope.contract, request.requestId, code, message)
  }

  function InProgressReply(request: Request, operationId: string): Reply {
    ErrorReply(request, E_OPERATION_IN_PROGRESS, "operation " + operationId + " is in progress")
  }

  function StorageReply(request: Request): Reply {
    ErrorReply(request, E_INTERNAL, "idempotency check failed")
  }

  /** The reply of the request that ran the mutation. */
  function OwnReply(request: Request, outcome: Outcome): Reply {
    match outcome
    case Created(operation) => Success(SuccessResponse(request.scope.contract, request.requestId, operation))
    case Refused(code, message) => ErrorReply(request, code, message)
  }

  /** The reply to a duplicate: the claimant's very response, or the claimant's error under the duplicate's own id. */
  function ReplayedReply(request: Request, claimant: Request, outcome: Outcome): Reply {
    match outcome
    case Created(_) => OwnReply(claimant, outcome)
    case Refused(code, message) => ErrorReply(request, code, message)
  }

  function RecalledReply(request: Request, recalled: Result<IdempotencyResult, CatalogError>): Reply
    requires recalled != Ok(Proceed)
  {
    match recalled
    case Err(_) => StorageReply(request)
    case Ok(StillInProgress(operationId)) => InProgressReply(request, operationId)
    case Ok(CachedSuccess(response)) =>
      if response.Some? then Success(response.value) else ErrorReply(request, E_INTERNAL, "cached response corrupted")
    case Ok(CachedFailure(code, message)) => ErrorReply(request, code, message)
  }

  /** create_operation; `insertFails` stands for any storage error, and a taken id breaks the primary key. */
  function CreateOperation(operations: seq<OperationSummary>, request: Request, freshId: string, insertFails: bool)
    : (seq<OperationSummary>, Outcome)
  {
    if insertFails || exists k :: 0 <= k < |operations| && operations[k].id == freshId then
      (operations, Refused(E_INTERNAL, "failed to create operation"))
    else
      var operation := OperationSummary(freshId, request.kind, request.requestMethod, request.scope.principalId);
      (operations + [operation], Created(operation))
  }

  function Finalize(rows: Rows, request: Request, outcome: Outcome): Rows {
    match outcome
    case Created(operation) =>
      WithSuccess(rows, request.scope, SuccessResponse(request.scope.contract, request.requestId, operation))
    case Refused(code, message) => WithFailure(rows, request.scope, code, message)
  }

  /** The catalog tables the flow touches, and one uninterrupted run of mutation_flow over them. */
  class ToolApi {
    const table: RequestTable
    var operations: seq<OperationSummary>

    constructor ()
      ensures fresh(table) && table.rows == map[] && operations == []
    {
      table := new RequestTable();
      operations := [];
    }

    method MutationFlow(request: Request, freshId: string, faults: ClaimFaults, insertFails: bool, commitFails: bool)
      returns (reply: Reply)
      modifies this, table
      ensures var (claimedRows, recalled) :=
          Claim(old(table.rows), request.scope, request.requestMethod, request.fingerprint, faults);
              if recalled == Ok(Proceed) then
                var (created, outcome) := CreateOperation(old(operations), request, freshId, insertFails);
                && operations == created
                && table.rows == (if commitFails then claimedRows else Finalize(claimedRows, request, outcome))
                && reply == OwnReply(request, outcome)
              else
                operations == old(operations) && table.rows == old(table.rows)
                  && reply == RecalledReply(request, recalled)
      ensures var scope, rows := request.scope, old(table.rows);
              request.scope in rows || faults.insertFails ==>
                && operations == old(operations) && table.rows == rows
                && reply == if scope !in rows || faults.readFails then
                              Failure(scope.contract, request.requestId, "internal_error", "idempotency check failed")
                            else match rows[scope].state
                              case InProgress =>
                                var id := if rows[scope].operationId.Some? then rows[scope].operationId.value else "";
                                Failure(scope.contract, request.requestId, "operation_in_progress",
                                        "operation " + id + " is in progress")
                              case Succeeded =>
                                if rows[scope].response.Some? then Success(rows[scope].response.value)
                                else Failure(scope.contract, request.requestId, "internal_error",
                                             "cached response corrupted")
                              case Failed =>
                                Failure(scope.contract, request.requestId,
                                        if rows[scope].errorCode.Some? then rows[scope].errorCode.value else "",
                                        if rows[scope].errorMessageKey.Some? then rows[scope].errorMessageKey.value
                                        else "")
      ensures var scope := request.scope;
              var taken := exists k :: 0 <= k < |old(operations)| && old(operations)[k].id == freshId;
              scope !in old(table.rows) && !faults.insertFails && (insertFails || taken) ==>
                && operations == old(operations)
                && table.rows == old(table.rows)[scope :=
                     if commitFails then
                       RequestRow(request.requestMethod, request.fingerprint, InProgress, None, None, None, None)
                     else
                       RequestRow(request.requestMethod, request.fingerprint, Failed, None, None,
                                  Some("internal_error"), Some("failed to create operation"))]
                && reply
                   == Failure(scope.contract, request.requestId, "internal_error", "failed to create operation")
      ensures var scope := request.scope;
              var taken := exists k :: 0 <= k < |old(operations)| && old(operations)[k].id == freshId;
              scope !in old(table.rows) && !faults.insertFails && !insertFails && !taken ==>
                var operation := OperationSummary(freshId, request.kind, request.requestMethod, scope.principalId);
                var response := SuccessResponse(scope.contract, request.requestId, operation);
                && operations == old(operations) + [operation]
                && table.rows == old(table.rows)[scope :=
                     if commitFails then
                       RequestRow(request.requestMethod, request.fingerprint, InProgress, None, None, None, None)
                     else
                       RequestRow(request.requestMethod, request.fingerprint, Succeeded, None, Some(response),
                                  None, None)]
                && reply == Success(response)
    {
      var recalled := table.CheckOrClaim(request.scope, request.requestMethod, request.fingerprint, faults);
      if recalled == Ok(Proceed) {
        var (created, outcome) := CreateOperation(operations, request, freshId, insertFails);
        operations := created;
        match outcome {
          case Created(operation) =>
            var response := SuccessResponse(request.scope.contract, request.requestId, operation);
            var _ := table.CommitSuccess(request.scope, response, commitFails);
            return Success(response);
          case Refused(code, message) =>
            var _ := table.CommitFailure(request.scope, code, message, commitFails);
            return ErrorReply(request, code, message);
        }
      }
      return RecalledReply(request, recalled);
    }
  }

  // Interleaved requests and crashes

  datatype Phase = Waiting | Claimed | Executed(outcome: Outcome) | Answered(reply: Reply) | Lost

  datatype Slot = Slot(request: Request, phase: Phase)

  /** One execution of a mutation: its scope, the position of the request that ran it, and what it gave. */
  datatype Execution = Execution(claimant: nat, outcome: Outcome)

  /** The two tables, the requests seen so far, and the history of executions. */
  datatype State = State(rows: Rows, operations: seq<OperationSummary>, slots: seq<Slot>, log: seq<Execution>)

  datatype Action =
    | Arrive(request: Request)
    | CheckOrClaim(slot: nat, faults: ClaimFaults)
    | Execute(slot: nat, freshId: string, insertFails: bool)
    | Commit(slot: nat, commitFails: bool)
    | Panic(slot: nat)
    | Crash

  const INITIAL := State(map[], [], [], [])

  function SetPhase(s: State, i: nat, phase: Phase): State
    requires i < |s.slots|
  {
    s.(slots := s.slots[i := s.slots[i].(phase := phase)])
  }

  function DoClaim(s: State, i: nat, faults: ClaimFaults): State
    requires i < |s.slots|
  {
    var request := s.slots[i].request;
    var (rows, recalled) := Claim(s.rows, request.scope, request.requestMethod, request.fingerprint, faults);
    SetPhase(s.(rows := rows), i,
      if recalled == Ok(Proceed) then Claimed else Answered(RecalledReply(request, recalled)))
  }

  function DoExecute(s: State, i: nat, freshId: string, insertFails: bool): State
    requires i < |s.slots|
  {
    var (operations, outcome) := CreateOperation(s.operations, s.slots[i].request, freshId, insertFails);
    SetPhase(s.(operations := operations, log := s.log + [Execution(i, outcome)]), i, Executed(outcome))
  }

  function DoCommit(s: State, i: nat, commitFails: bool): State
    requires i < |s.slots| && s.slots[i].phase.Executed?
  {
    var request, outcome := s.slots[i].request, s.slots[i].phase.outcome;
    SetPhase(if commitFails then s else s.(rows := Finalize(s.rows, request, outcome)),
             i, Answered(OwnReply(request, outcome)))
  }

  /** The thread of one request unwinds before it has answered: the tables stay, and so do all other requests. */
  function DoPanic(s: State, i: nat): State
    requires i < |s.slots|
  {
    SetPhase(s, i, Lost)
  }

  /** A process death: the tables stay, whatever was in memory is gone. */
  function DoCrash(s: State): State {
    s.(slots := seq(|s.slots|, i requires 0 <= i < |s.slots| =>
                              if s.slots[i].phase.Answered? then s.slots[i] else s.slots[i].(phase := Lost)))
  }

  /** An action whose request is not in the phase it needs does nothing. */
  function Step(s: State, a: Action): State {
    match a
    case Arrive(request) => s.(slots := s.slots + [Slot(request, Waiting)])
    case CheckOrClaim(i, faults) => if i < |s.slots| && s.slots[i].phase.Waiting? then DoClaim(s, i, faults) else s
    case Execute(i, freshId, insertFails) =>
      if i < |s.slots| && s.slots[i].phase.Claimed? then DoExecute(s, i, freshId, insertFails) else s
    case Commit(i, commitFails) =>
      if i < |s.slots| && s.slots[i].phase.Executed? then DoCommit(s, i, commitFails) else s
    case Panic(i) => if i < |s.slots| && !s.slots[i].phase.Answered? then DoPanic(s, i) else s
    case Crash => DoCrash(s)
  }

  function Run(s: State, actions: seq<Action>): State {
    if actions == [] then s else Step(Run(s, actions[..|actions| - 1]), actions[|actions| - 1])
  }

  // The invariant

  predicate Busy(slot: Slot) {
    slot.phase.Claimed? || slot.phase.Executed?
  }

  ghost predicate ClaimantsHoldOpenRows(s: State) {
    && (forall i :: 0 <= i < |s.slots| && Busy(s.slots[i]) ==>
          s.slots[i].request.scope in s.rows && s.rows[s.slots[i].request.scope].state == InProgress)
    && (forall i, j :: 0 <= i < j < |s.slots| && Busy(s.slots[i]) && Busy(s.slots[j]) ==>
          s.slots[i].request.scope != s.slots[j].request.scope)
  }

  function ScopeOf(s: State, e: Execution): Scope
    requires e.claimant < |s.slots|
  {
    s.slots[e.claimant].request.scope
  }

  ghost predicate LogNamesSlots(s: State) {
    forall k :: 0 <= k < |s.log| ==> s.log[k].claimant < |s.slots|
  }

  ghost predicate NoScopeRanTwice(s: State)
    requires LogNamesSlots(s)
  {
    forall k, l :: 0 <= k < l < |s.log| ==> ScopeOf(s, s.log[k]) != ScopeOf(s, s.log[l])
  }

  ghost predicate RanScopesHaveRows(s: State)
    requires LogNamesSlots(s)
  {
    forall k :: 0 <= k < |s.log| ==> ScopeOf(s, s.log[k]) in s.rows
  }

  ghost predicate ClaimedHaveNotRun(s: State)
    requires LogNamesSlots(s)
  {
    forall i, k :: 0 <= i < |s.slots| && s.slots[i].phase.Claimed? && 0 <= k < |s.log| ==>
      ScopeOf(s, s.log[k]) != s.slots[i].request.scope
  }

  ghost predicate ExecutedAreLogged(s: State) {
    forall i :: 0 <= i < |s.slots| && s.slots[i].phase.Executed? ==> Execution(i, s.slots[i].phase.outcome) in s.log
  }

  ghost predicate EachScopeRanOnce(s: State)
    requires LogNamesSlots(s)
  {
    NoScopeRanTwice(s) && RanScopesHaveRows(s) && ClaimedHaveNotRun(s) && ExecutedAreLogged(s)
  }

  /** The row holds what the execution gave. */
  predicate Holds(row: RequestRow, request: Request, outcome: Outcome) {
    match outcome
    case Created(operation) =>
      && row.state == Succeeded
      && row.response == Some(SuccessResponse(request.scope.contract, request.requestId, operation))
    case Refused(code, message) =>
      row.state == Failed && row.errorCode == Some(code) && row.errorMessageKey == Some(message)
  }

  ghost predicate FinalRowsHoldTheirExecution(s: State)
    requires LogNamesSlots(s)
  {
    && (forall scope :: scope in s.rows && s.rows[scope].state != InProgress ==>
          exists e ::
            e in s.log && ScopeOf(s, e) == scope && Holds(s.rows[scope], s.slots[e.claimant].request, e.outcome))
    && (forall scope :: scope in s.rows ==> s.rows[scope].operationId == None)
  }

  /** The reply is the claimant's own, a replay of the scope's execution, in-progress, or a storage error. */
  ghost predicate Accounted(s: State, i: nat, reply: Reply)
    requires LogNamesSlots(s) && i < |s.slots|
  {
    var request := s.slots[i].request;
    || reply == InProgressReply(request, "")
    || reply == StorageReply(request)
    || (exists e :: e in s.log && ScopeOf(s, e) == request.scope
                    && (if e.claimant == i then reply == OwnReply(request, e.outcome)
                        else reply == ReplayedReply(request, s.slots[e.claimant].request, e.outcome)))
  }

  ghost predicate RepliesAccounted(s: State)
    requires LogNamesSlots(s)
  {
    forall i :: 0 <= i < |s.slots| && s.slots[i].phase.Answered? ==> Accounted(s, i, s.slots[i].phase.reply)
  }

  function CreatedOperations(log: seq<Execution>): seq<OperationSummary> {
    if log == [] then []
    else
      var last := log[|log| - 1];
      CreatedOperations(log[..|log| - 1]) + if last.outcome.Created? then [last.outcome.operation] else []
  }

  ghost predicate OperationsMatchLog(s: State) {
    && s.operations == CreatedOperations(s.log)
    && forall k, l :: 0 <= k < l < |s.operations| ==> s.operations[k].id != s.operations[l].id
  }

  ghost predicate Inv(s: State) {
    && LogNamesSlots(s)
    && ClaimantsHoldOpenRows(s)
    && EachScopeRanOnce(s)
    && FinalRowsHoldTheirExecution(s)
    && RepliesAccounted(s)
    && OperationsMatchLog(s)
  }

  // Each step keeps it

  /** t has every slot and execution of s, in place; only phases and rows may differ. */
  ghost predicate Extends(s: State, t: State) {
    && LogNamesSlots(s) && LogNamesSlots(t)
    && |s.slots| <= |t.slots|
    && (forall i :: 0 <= i < |s.slots| ==> t.slots[i].request == s.slots[i].request)
    && s.log <= t.log
  }

  /** A row that did not change still holds the execution it held. */
  lemma RowStillHolds(s: State, t: State, scope: Scope)
    requires Extends(s, t) && FinalRowsHoldTheirExecution(s)
    requires scope in s.rows && s.rows[scope].state != InProgress && scope in t.rows && t.rows[scope] == s.rows[scope]
    ensures exists e ::
        e in t.log && ScopeOf(t, e) == scope && Holds(t.rows[scope], t.slots[e.claimant].request, e.outcome)
  {
    var e :| e in s.log && ScopeOf(s, e) == scope && Holds(s.rows[scope], s.slots[e.claimant].request, e.outcome);
    assert e in t.log;
  }

  lemma SameRowsStillHold(s: State, t: State)
    requires Extends(s, t) && FinalRowsHoldTheirExecution(s) && t.rows == s.rows
    ensures FinalRowsHoldTheirExecution(t)
  {
    forall scope | scope in t.rows && t.rows[scope].state != InProgress
      ensures exists e ::
          e in t.log && ScopeOf(t, e) == scope && Holds(t.rows[scope], t.slots[e.claimant].request, e.outcome)
    {
      RowStillHolds(s, t, scope);
    }
  }

  lemma AccountedStays(s: State, t: State, i: nat, reply: Reply)
    requires Extends(s, t) && i < |s.slots| && Accounted(s, i, reply)
    ensures Accounted(t, i, reply)
  {
    if e :| e in s.log && ScopeOf(s, e) == s.slots[i].request.scope
            && (if e.claimant == i then reply == OwnReply(s.slots[i].request, e.outcome)
                else reply == ReplayedReply(s.slots[i].request, s.slots[e.claimant].request, e.outcome)) {
      assert e in t.log;
    }
  }

  /** Replies given before stay accounted for; at most slot i answers now. */
  lemma RepliesStayAccounted(s: State, t: State, i: nat)
    requires Extends(s, t) && RepliesAccounted(s)
    requires forall k :: 0 <= k < |t.slots| && k != i && t.slots[k].phase.Answered? ==>
               k < |s.slots| && t.slots[k].phase == s.slots[k].phase
    requires i < |t.slots| && t.slots[i].phase.Answered? ==> Accounted(t, i, t.slots[i].phase.reply)
    ensures RepliesAccounted(t)
  {
    forall k | 0 <= k < |t.slots| && t.slots[k].phase.Answered?
      ensures Accounted(t, k, t.slots[k].phase.reply)
    {
      if k != i {
        AccountedStays(s, t, k, s.slots[k].phase.reply);
      }
    }
  }

  /** Slot i ends its claim, if it had one, and nothing runs: the other claims and the log are as they were. */
  lemma EndingAClaimKeepsScopes(s: State, t: State, i: nat)
    requires Extends(s, t) && ClaimantsHoldOpenRows(s) && EachScopeRanOnce(s)
    requires |t.slots| == |s.slots| && i < |s.slots| && t.log == s.log
    requires forall k :: 0 <= k < |s.slots| && k != i ==> t.slots[k] == s.slots[k]
    requires !Busy(t.slots[i])
    requires t.rows.Keys == s.rows.Keys
    requires forall scope :: scope in s.rows && scope != s.slots[i].request.scope ==> t.rows[scope] == s.rows[scope]
    requires Busy(s.slots[i]) || t.rows == s.rows
    ensures ClaimantsHoldOpenRows(t) && EachScopeRanOnce(t)
  {
    forall k | 0 <= k < |t.slots| && Busy(t.slots[k])
      ensures t.slots[k].request.scope in t.rows && t.rows[t.slots[k].request.scope].state == InProgress
    {
      assert k != i && t.slots[k] == s.slots[k];
    }
    assert forall k :: 0 <= k < |t.log| ==> ScopeOf(t, t.log[k]) == ScopeOf(s, s.log[k]);
  }

  lemma ArriveKeepsScopes(s: State, request: Request)
    requires LogNamesSlots(s) && ClaimantsHoldOpenRows(s) && EachScopeRanOnce(s)
    ensures Extends(s, Step(s, Arrive(request)))
    ensures ClaimantsHoldOpenRows(Step(s, Arrive(request))) && EachScopeRanOnce(Step(s, Arrive(request)))
  {
    var t := Step(s, Arrive(request));
    assert forall k :: 0 <= k < |s.slots| ==> t.slots[k] == s.slots[k];
    assert forall k :: 0 <= k < |s.log| ==> ScopeOf(t, t.log[k]) == ScopeOf(s, s.log[k]);
  }

  lemma ArriveKeepsInv(s: State, request: Request)
    requires Inv(s)
    ensures Inv(Step(s, Arrive(request)))
  {
    var t := Step(s, Arrive(request));
    ArriveKeepsScopes(s, request);
    SameRowsStillHold(s, t);
    RepliesStayAccounted(s, t, |s.slots|);
  }

  lemma CrashKeepsScopes(s: State)
    requires LogNamesSlots(s) && EachScopeRanOnce(s)
    ensures Extends(s, DoCrash(s)) && ClaimantsHoldOpenRows(DoCrash(s)) && EachScopeRanOnce(DoCrash(s))
  {
  }

  lemma CrashKeepsInv(s: State)
    requires Inv(s)
    ensures Inv(DoCrash(s))
  {
    var t := DoCrash(s);
    CrashKeepsScopes(s);
    SameRowsStillHold(s, t);
    RepliesStayAccounted(s, t, |s.slots|);
  }

  lemma PanicKeepsInv(s: State, i: nat)
    requires Inv(s) && i < |s.slots| && !s.slots[i].phase.Answered?
    ensures Inv(DoPanic(s, i))
  {
    var t := DoPanic(s, i);
    assert Extends(s, t);
    EndingAClaimKeepsScopes(s, t, i);
    SameRowsStillHold(s, t);
    RepliesStayAccounted(s, t, i);
  }

  /** A granted claim adds the one open row of its scope and marks its slot; nothing else changes. */
  lemma ClaimGrantedIs(s: State, i: nat, faults: ClaimFaults)
    requires i < |s.slots| && DoClaim(s, i, faults).slots[i].phase.Claimed?
    ensures var t, scope := DoClaim(s, i, faults), s.slots[i].request.scope;
            && scope !in s.rows && scope in t.rows && t.rows[scope].state == InProgress
            && t.rows[scope].operationId == None
            && t.rows.Keys == s.rows.Keys + {scope}
            && (forall other :: other in s.rows ==> t.rows[other] == s.rows[other])
            && t.slots == s.slots[i := Slot(s.slots[i].request, Claimed)] && t.log == s.log
            && t.operations == s.operations
  {
  }

  lemma ClaimGrantedKeepsClaims(s: State, t: State, i: nat, scope: Scope)
    requires ClaimantsHoldOpenRows(s) && i < |s.slots| && scope == s.slots[i].request.scope && scope !in s.rows
    requires scope in t.rows && t.rows[scope].state == InProgress
    requires forall other :: other in s.rows ==> other in t.rows && t.rows[other] == s.rows[other]
    requires t.slots == s.slots[i := Slot(s.slots[i].request, Claimed)]
    ensures ClaimantsHoldOpenRows(t)
  {
    assert forall k :: 0 <= k < |s.slots| && k != i ==> t.slots[k] == s.slots[k];
  }

  lemma ClaimGrantedKeepsScopes(s: State, i: nat, faults: ClaimFaults)
    requires Inv(s) && i < |s.slots| && s.slots[i].phase.Waiting? && DoClaim(s, i, faults).slots[i].phase.Claimed?
    ensures Extends(s, DoClaim(s, i, faults)) && s.slots[i].request.scope !in s.rows
    ensures ClaimantsHoldOpenRows(DoClaim(s, i, faults)) && EachScopeRanOnce(DoClaim(s, i, faults))
  {
    var t := DoClaim(s, i, faults);
    ClaimGrantedIs(s, i, faults);
    ClaimGrantedKeepsClaims(s, t, i, s.slots[i].request.scope);
    assert forall k :: 0 <= k < |t.log| ==> ScopeOf(t, t.log[k]) == ScopeOf(s, s.log[k]);
  }

  lemma ClaimGrantedKeepsInv(s: State, i: nat, faults: ClaimFaults)
    requires Inv(s) && i < |s.slots| && s.slots[i].phase.Waiting? && DoClaim(s, i, faults).slots[i].phase.Claimed?
    ensures Inv(DoClaim(s, i, faults))
  {
    var t := DoClaim(s, i, faults);
    ClaimGrantedKeepsScopes(s, i, faults);
    forall scope | scope in t.rows && t.rows[scope].state != InProgress
      ensures exists e ::
          e in t.log && ScopeOf(t, e) == scope && Holds(t.rows[scope], t.slots[e.claimant].request, e.outcome)
    {
      RowStillHolds(s, t, scope);
    }
    RepliesStayAccounted(s, t, i);
  }

  lemma ClaimRefusedKeepsInv(s: State, i: nat, faults: ClaimFaults)
    requires Inv(s) && i < |s.slots| && s.slots[i].phase.Waiting? && DoClaim(s, i, faults).slots[i].phase.Answered?
    ensures Inv(DoClaim(s, i, faults))
  {
    var t := DoClaim(s, i, faults);
    assert Extends(s, t);
    EndingAClaimKeepsScopes(s, t, i);
    SameRowsStillHold(s, t);
    RecallIsAccounted(s, i, faults);
    AccountedStays(s, t, i, t.slots[i].phase.reply);
    RepliesStayAccounted(s, t, i);
  }

  lemma ClaimKeepsInv(s: State, i: nat, faults: ClaimFaults)
    requires Inv(s) && i < |s.slots| && s.slots[i].phase.Waiting?
    ensures Inv(DoClaim(s, i, faults))
  {
    if DoClaim(s, i, faults).slots[i].phase.Claimed? {
      ClaimGrantedKeepsInv(s, i, faults);
    } else {
      ClaimRefusedKeepsInv(s, i, faults);
    }
  }

  /** Whatever an existing row answers is accounted for by the scope's one execution. */
  lemma RecallIsAccounted(s: State, i: nat, faults: ClaimFaults)
    requires LogNamesSlots(s) && FinalRowsHoldTheirExecution(s) && EachScopeRanOnce(s)
    requires i < |s.slots| && s.slots[i].phase.Waiting? && DoClaim(s, i, faults).slots[i].phase.Answered?
    ensures Accounted(s, i, DoClaim(s, i, faults).slots[i].phase.reply)
  {
    var request := s.slots[i].request;
    var scope := request.scope;
    if scope in s.rows && !faults.readFails && s.rows[scope].state != InProgress {
      var e :| e in s.log && ScopeOf(s, e) == scope && Holds(s.rows[scope], s.slots[e.claimant].request, e.outcome);
      var reply := RecalledReply(request, Ok(Recall(s.rows[scope])));
      assert reply == ReplayedReply(request, s.slots[e.claimant].request, e.outcome);
      if e.claimant == i {
        assert reply == OwnReply(request, e.outcome);
      }
    }
  }

  lemma ExecuteGrowsLog(s: State, i: nat, freshId: string, insertFails: bool)
    requires Inv(s) && i < |s.slots| && s.slots[i].phase.Claimed?
    ensures var t := DoExecute(s, i, freshId, insertFails);
            && Extends(s, t)
            && t.log == s.log + [Execution(i, t.slots[i].phase.outcome)]
            && (forall k :: 0 <= k < |s.log| ==> ScopeOf(t, t.log[k]) == ScopeOf(s, s.log[k]))
            && ScopeOf(t, t.log[|s.log|]) == s.slots[i].request.scope
  {
  }

  lemma ExecuteKeepsScopes(s: State, i: nat, freshId: string, insertFails: bool)
    requires Inv(s) && i < |s.slots| && s.slots[i].phase.Claimed?
    requires Extends(s, DoExecute(s, i, freshId, insertFails))
    ensures NoScopeRanTwice(DoExecute(s, i, freshId, insertFails))
        && RanScopesHaveRows(DoExecute(s, i, freshId, insertFails))
  {
    ExecuteGrowsLog(s, i, freshId, insertFails);
  }

  lemma ExecuteKeepsSlots(s: State, i: nat, freshId: string, insertFails: bool)
    requires Inv(s) && i < |s.slots| && s.slots[i].phase.Claimed?
    requires Extends(s, DoExecute(s, i, freshId, insertFails))
    ensures ClaimedHaveNotRun(DoExecute(s, i, freshId, insertFails))
        && ExecutedAreLogged(DoExecute(s, i, freshId, insertFails))
  {
    var t := DoExecute(s, i, freshId, insertFails);
    ExecuteGrowsLog(s, i, freshId, insertFails);
    forall k | 0 <= k < |t.slots| && t.slots[k].phase.Executed?
      ensures Execution(k, t.slots[k].phase.outcome) in t.log
    {
      assert k == i || Execution(k, s.slots[k].phase.outcome) in s.log;
    }
    forall j, k | 0 <= j < |t.slots| && t.slots[j].phase.Claimed? && 0 <= k < |t.log|
      ensures ScopeOf(t, t.log[k]) != t.slots[j].request.scope
    {
      assert j != i && Busy(s.slots[i]) && Busy(s.slots[j]);
    }
  }

  lemma ExecuteKeepsOperations(s: State, i: nat, freshId: string, insertFails: bool)
    requires OperationsMatchLog(s) && i < |s.slots| && s.slots[i].phase.Claimed?
    ensures OperationsMatchLog(DoExecute(s, i, freshId, insertFails))
  {
    var t := DoExecute(s, i, freshId, insertFails);
    assert t.log[..|t.log| - 1] == s.log;
  }

  lemma ExecuteKeepsClaims(s: State, i: nat, freshId: string, insertFails: bool)
    requires ClaimantsHoldOpenRows(s) && i < |s.slots| && s.slots[i].phase.Claimed?
    ensures ClaimantsHoldOpenRows(DoExecute(s, i, freshId, insertFails))
  {
    var t := DoExecute(s, i, freshId, insertFails);
    assert forall k :: 0 <= k < |s.slots| ==>
        Busy(t.slots[k]) == Busy(s.slots[k]) && t.slots[k].request == s.slots[k].request;
  }

  lemma ExecuteKeepsInv(s: State, i: nat, freshId: string, insertFails: bool)
    requires Inv(s) && i < |s.slots| && s.slots[i].phase.Claimed?
    ensures Inv(DoExecute(s, i, freshId, insertFails))
  {
    var t := DoExecute(s, i, freshId, insertFails);
    ExecuteGrowsLog(s, i, freshId, insertFails);
    ExecuteKeepsScopes(s, i, freshId, insertFails);
    ExecuteKeepsSlots(s, i, freshId, insertFails);
    ExecuteKeepsClaims(s, i, freshId, insertFails);
    ExecuteKeepsOperations(s, i, freshId, insertFails);
    SameRowsStillHold(s, t);
    RepliesStayAccounted(s, t, i);
  }

  lemma CommitKeepsRows(s: State, i: nat, commitFails: bool)
    requires Inv(s) && i < |s.slots| && s.slots[i].phase.Executed?
    ensures Extends(s, DoCommit(s, i, commitFails))
    ensures FinalRowsHoldTheirExecution(DoCommit(s, i, commitFails))
  {
    var t := DoCommit(s, i, commitFails);
    var request := s.slots[i].request;
    var own := Execution(i, s.slots[i].phase.outcome);
    assert own in t.log && ScopeOf(t, own) == request.scope;
    forall scope | scope in t.rows && t.rows[scope].state != InProgress
      ensures exists e ::
          e in t.log && ScopeOf(t, e) == scope && Holds(t.rows[scope], t.slots[e.claimant].request, e.outcome)
    {
      if scope == request.scope {
        assert Holds(t.rows[scope], t.slots[own.claimant].request, own.outcome);
      } else {
        RowStillHolds(s, t, scope);
      }
    }
  }

  lemma CommitKeepsInv(s: State, i: nat, commitFails: bool)
    requires Inv(s) && i < |s.slots| && s.slots[i].phase.Executed?
    ensures Inv(DoCommit(s, i, commitFails))
  {
    var t := DoCommit(s, i, commitFails);
    CommitKeepsRows(s, i, commitFails);
    EndingAClaimKeepsScopes(s, t, i);
    var own := Execution(i, s.slots[i].phase.outcome);
    assert own in t.log && ScopeOf(t, own) == t.slots[i].request.scope;
    assert Accounted(t, i, t.slots[i].phase.reply);
    RepliesStayAccounted(s, t, i);
  }

  lemma StepKeepsInv(s: State, a: Action)
    requires Inv(s)
    ensures Inv(Step(s, a))
  {
    match a {
      case Arrive(request) => ArriveKeepsInv(s, request);
      case CheckOrClaim(i, faults) => if i < |s.slots| && s.slots[i].phase.Waiting? { ClaimKeepsInv(s, i, faults); }
      case Execute(i, freshId, insertFails) =>
        if i < |s.slots| && s.slots[i].phase.Claimed? { ExecuteKeepsInv(s, i, freshId, insertFails); }
      case Commit(i, commitFails) =>
        if i < |s.slots| && s.slots[i].phase.Executed? { CommitKeepsInv(s, i, commitFails); }
      case Panic(i) => if i < |s.slots| && !s.slots[i].phase.Answered? { PanicKeepsInv(s, i); }
      case Crash => CrashKeepsInv(s);
    }
  }

  // Every run

  lemma {:induction false} RunsKeepInv(s: State, actions: seq<Action>)
    requires Inv(s)
    ensures Inv(Run(s, actions))
  {
    if actions != [] {
      RunsKeepInv(s, actions[..|actions| - 1]);
      StepKeepsInv(Run(s, actions[..|actions| - 1]), actions[|actions| - 1]);
    }
  }

  lemma {:induction false} RunsCompose(s: State, first: seq<Action>, then_: seq<Action>)
    ensures Run(s, first + then_) == Run(Run(s, first), then_)
  {
    if then_ == [] {
      assert first + then_ == first;
    } else {
      RunsCompose(s, first, then_[..|then_| - 1]);
      assert (first + then_)[..|first + then_| - 1] == first + then_[..|then_| - 1];
    }
  }

  /** In every interleaving, crashes included, each scope runs its mutation at most once. */
  lemma MutationRunsAtMostOnce(actions: seq<Action>, k: nat, l: nat)
    requires k < l < |Run(INITIAL, actions).log|
    ensures var s := Run(INITIAL, actions);
            && s.log[k].claimant < |s.slots| && s.log[l].claimant < |s.slots|
            && ScopeOf(s, s.log[k]) != ScopeOf(s, s.log[l])
  {
    RunsKeepInv(INITIAL, actions);
  }

  lemma CommitLeavesFinalRows(s: State, i: nat, commitFails: bool, scope: Scope)
    requires ClaimantsHoldOpenRows(s) && i < |s.slots| && s.slots[i].phase.Executed?
    requires scope in s.rows && (s.rows[scope].state != InProgress || s.slots[i].request.scope != scope)
    ensures scope in DoCommit(s, i, commitFails).rows && DoCommit(s, i, commitFails).rows[scope] == s.rows[scope]
  {
    assert Busy(s.slots[i]) && s.slots[i].request.scope != scope;
  }

  lemma ClaimLeavesRows(s: State, i: nat, faults: ClaimFaults, scope: Scope)
    requires i < |s.slots| && scope in s.rows
    ensures scope in DoClaim(s, i, faults).rows && DoClaim(s, i, faults).rows[scope] == s.rows[scope]
  {
  }

  /** Although the commits are unguarded, a row that has succeeded or failed never changes again. */
  lemma FinalRowStaysInStep(s: State, a: Action, scope: Scope)
    requires Inv(s) && scope in s.rows && s.rows[scope].state != InProgress
    ensures scope in Step(s, a).rows && Step(s, a).rows[scope] == s.rows[scope]
  {
    match a {
      case CheckOrClaim(i, faults) => if i < |s.slots| { ClaimLeavesRows(s, i, faults, scope); }
      case Commit(i, commitFails) =>
        if i < |s.slots| && s.slots[i].phase.Executed? { CommitLeavesFinalRows(s, i, commitFails, scope); }
      case _ =>
    }
  }

  lemma {:induction false} FinalRowsNeverChange(actions: seq<Action>, later: seq<Action>, scope: Scope)
    requires scope in Run(INITIAL, actions).rows && Run(INITIAL, actions).rows[scope].state != InProgress
    ensures scope in Run(INITIAL, actions + later).rows
    ensures Run(INITIAL, actions + later).rows[scope] == Run(INITIAL, actions).rows[scope]
  {
    RunsCompose(INITIAL, actions, later);
    if later != [] {
      var init := later[..|later| - 1];
      FinalRowsNeverChange(actions, init, scope);
      RunsCompose(INITIAL, actions, init);
      RunsKeepInv(INITIAL, actions + init);
      FinalRowStaysInStep(Run(INITIAL, actions + init), later[|later| - 1], scope);
    }
  }

  /**
   * Every answer of every run is the claimant's own reply, the replay of its stored response or error,
   * in-progress with an empty operation id, or a storage error.
   */
  lemma EveryReplyIsAccounted(actions: seq<Action>, i: nat)
    requires i < |Run(INITIAL, actions).slots| && Run(INITIAL, actions).slots[i].phase.Answered?
    ensures LogNamesSlots(Run(INITIAL, actions))
    ensures Accounted(Run(INITIAL, actions), i, Run(INITIAL, actions).slots[i].phase.reply)
  {
    RunsKeepInv(INITIAL, actions);
  }

  lemma OneExecutionPerScope(s: State, e: Execution, f: Execution)
    requires LogNamesSlots(s) && NoScopeRanTwice(s)
    requires e in s.log && f in s.log && ScopeOf(s, e) == ScopeOf(s, f)
    ensures e == f
  {
  }

  /** A success reply is the response of its scope's execution. */
  lemma SuccessNamesItsExecution(s: State, i: nat, reply: Reply) returns (e: Execution)
    requires LogNamesSlots(s) && i < |s.slots| && Accounted(s, i, reply) && reply.Success?
    ensures e in s.log && ScopeOf(s, e) == s.slots[i].request.scope
    ensures reply == OwnReply(s.slots[e.claimant].request, e.outcome)
  {
    e :| e in s.log && ScopeOf(s, e) == s.slots[i].request.scope
         && (if e.claimant == i then reply == OwnReply(s.slots[i].request, e.outcome)
             else reply == ReplayedReply(s.slots[i].request, s.slots[e.claimant].request, e.outcome));
  }

  /** Two success replies within one scope are the same response, down to the claimant's request id. */
  lemma SuccessRepliesAgree(actions: seq<Action>, i: nat, j: nat)
    requires i < |Run(INITIAL, actions).slots| && j < |Run(INITIAL, actions).slots|
    requires var s := Run(INITIAL, actions);
             && s.slots[i].request.scope == s.slots[j].request.scope
             && s.slots[i].phase.Answered? && s.slots[i].phase.reply.Success?
             && s.slots[j].phase.Answered? && s.slots[j].phase.reply.Success?
    ensures Run(INITIAL, actions).slots[i].phase.reply == Run(INITIAL, actions).slots[j].phase.reply
  {
    var s := Run(INITIAL, actions);
    RunsKeepInv(INITIAL, actions);
    var e := SuccessNamesItsExecution(s, i, s.slots[i].phase.reply);
    var f := SuccessNamesItsExecution(s, j, s.slots[j].phase.reply);
    OneExecutionPerScope(s, e, f);
  }

  /** Operation rows are exactly the operations the executions created, in order and with distinct ids. */
  lemma OperationsAreTheExecutions(actions: seq<Action>)
    ensures var s := Run(INITIAL, actions);
            && s.operations == CreatedOperations(s.log)
            && forall k, l :: 0 <= k < l < |s.operations| ==> s.operations[k].id != s.operations[l].id
  {
    RunsKeepInv(INITIAL, actions);
  }

  /** What an execution created is what its claimant asked for. */
  predicate CreatedAsAsked(s: State, e: Execution) {
    && e.claimant < |s.slots|
    && (e.outcome.Created? ==>
          var request := s.slots[e.claimant].request;
          && e.outcome.operation.kind == request.kind
          && e.outcome.operation.operationMethod == request.requestMethod
          && e.outcome.operation.principalId == request.scope.principalId)
  }

  predicate AllAsAsked(s: State) {
    forall k :: 0 <= k < |s.log| ==> CreatedAsAsked(s, s.log[k])
  }

  lemma StepKeepsAsAsked(s: State, a: Action)
    requires AllAsAsked(s)
    ensures AllAsAsked(Step(s, a))
  {
    var t := Step(s, a);
    assert |s.slots| <= |t.slots| && forall i :: 0 <= i < |s.slots| ==> t.slots[i].request == s.slots[i].request;
    forall k | 0 <= k < |t.log|
      ensures CreatedAsAsked(t, t.log[k])
    {
      if k < |s.log| {
        assert t.log[k] == s.log[k] && CreatedAsAsked(s, s.log[k]);
      }
    }
  }

  /** In every run each operation has the kind, the method and the principal of the request that ran it. */
  lemma {:induction false} OperationsAreAsAsked(actions: seq<Action>)
    ensures AllAsAsked(Run(INITIAL, actions))
  {
    if actions != [] {
      OperationsAreAsAsked(actions[..|actions| - 1]);
      StepKeepsAsAsked(Run(INITIAL, actions[..|actions| - 1]), actions[|actions| - 1]);
    }
  }

  predicate Open(s: State, scope: Scope) {
    scope in s.rows && s.rows[scope].state == InProgress
  }

  /** A scope that is open with nobody to finish it. */
  ghost predicate Abandoned(s: State, scope: Scope) {
    && Open(s, scope)
    && forall i :: 0 <= i < |s.slots| && Busy(s.slots[i]) ==> s.slots[i].request.scope != scope
  }

  lemma AbandonedStaysInStep(s: State, a: Action, scope: Scope)
    requires Abandoned(s, scope)
    ensures Abandoned(Step(s, a), scope) && Step(s, a).rows[scope] == s.rows[scope]
  {
    var t := Step(s, a);
    forall i | 0 <= i < |t.slots| && Busy(t.slots[i])
      ensures t.slots[i].request.scope != scope
    {
      if i < |s.slots| && Busy(s.slots[i]) {
        assert t.slots[i].request == s.slots[i].request;
      }
    }
  }

  /** Such a key is never released: no later run changes its row, so no later request with it runs its mutation. */
  lemma {:induction false} AbandonedKeysStayOpen(s: State, later: seq<Action>, scope: Scope)
    requires Abandoned(s, scope)
    ensures Abandoned(Run(s, later), scope) && Run(s, later).rows[scope] == s.rows[scope]
  {
    if later != [] {
      AbandonedKeysStayOpen(s, later[..|later| - 1], scope);
      AbandonedStaysInStep(Run(s, later[..|later| - 1]), later[|later| - 1], scope);
    }
  }

  /** An open row that is not abandoned has a claimant, and that claimant can still close it. */
  lemma OpenRowsCanClose(s: State, scope: Scope) returns (actions: seq<Action>)
    requires Inv(s) && Open(s, scope) && !Abandoned(s, scope)
    ensures scope in Run(s, actions).rows && Run(s, actions).rows[scope].state != InProgress
  {
    var i := ClaimantOf(s, scope);
    if s.slots[i].phase.Executed? {
      actions := [Commit(i, false)];
      assert Run(s, actions) == Step(Run(s, actions[..0]), actions[0]);
    } else {
      var execute := Execute(i, "", false);
      actions := [execute, Commit(i, false)];
      assert actions[..1] == [execute] && [execute][..0] == [];
      assert Run(s, [execute]) == Step(s, execute);
      assert Run(s, actions) == Step(Run(s, [execute]), Commit(i, false));
    }
  }

  /** So a claimed key is never released, whatever runs later, if and only if it is abandoned. */
  lemma StuckExactlyWhenAbandoned(s: State, scope: Scope)
    requires Inv(s) && Open(s, scope)
    ensures (forall later: seq<Action> :: Open(Run(s, later), scope)) <==> Abandoned(s, scope)
  {
    if Abandoned(s, scope) {
      forall later: seq<Action>
        ensures Open(Run(s, later), scope)
      {
        AbandonedKeysStayOpen(s, later, scope);
      }
    } else {
      var closing := OpenRowsCanClose(s, scope);
      assert !Open(Run(s, closing), scope);
    }
  }

  predicate LosesItsCommit(s: State, a: Action, scope: Scope) {
    && a.Commit? && a.commitFails && a.slot < |s.slots|
    && s.slots[a.slot].phase.Executed? && s.slots[a.slot].request.scope == scope
  }

  predicate LosesItsClaimant(s: State, a: Action, scope: Scope) {
    a.Panic? && a.slot < |s.slots| && Busy(s.slots[a.slot]) && s.slots[a.slot].request.scope == scope
  }

  /**
   * There are three ways in: the process dies while the row is open, the claimant's thread panics, or its commit is
   * lost once it has executed.
   */
  lemma BecomesAbandonedExactly(s: State, a: Action, scope: Scope)
    requires Inv(s) && !Abandoned(s, scope)
    ensures Abandoned(Step(s, a), scope)
       <==> Open(s, scope) && (a.Crash? || LosesItsClaimant(s, a, scope) || LosesItsCommit(s, a, scope))
  {
    match a {
      case Crash => CrashAbandonsExactlyTheOpenRows(s, scope);
      case Commit(i, commitFails) =>
        if i < |s.slots| && s.slots[i].phase.Executed? {
          if s.slots[i].request.scope == scope {
            OwnCommitAbandonsExactly(s, i, commitFails);
          } else {
            ForeignCommitAbandonsNothing(s, i, commitFails, scope);
          }
        }
      case CheckOrClaim(i, faults) =>
        if i < |s.slots| && s.slots[i].phase.Waiting? { ClaimAbandonsNothing(s, i, faults, scope); }
      case Execute(i, freshId, insertFails) =>
        if i < |s.slots| && s.slots[i].phase.Claimed? { ExecuteAbandonsNothing(s, i, freshId, insertFails, scope); }
      case Panic(i) =>
        if i < |s.slots| && !s.slots[i].phase.Answered? { PanicAbandonsExactly(s, i, scope); }
      case Arrive(request) => ArriveAbandonsNothing(s, request, scope);
    }
  }

  lemma OwnCommitAbandonsExactly(s: State, i: nat, commitFails: bool)
    requires ClaimantsHoldOpenRows(s) && i < |s.slots| && s.slots[i].phase.Executed?
    ensures Open(s, s.slots[i].request.scope)
    ensures Abandoned(DoCommit(s, i, commitFails), s.slots[i].request.scope) <==> commitFails
  {
    var t, scope := DoCommit(s, i, commitFails), s.slots[i].request.scope;
    assert Busy(s.slots[i]);
    if commitFails {
      forall k | 0 <= k < |t.slots| && Busy(t.slots[k])
        ensures t.slots[k].request.scope != scope
      {
        assert k != i && Busy(s.slots[k]);
      }
    }
  }

  /** The claimant of an open row that is not abandoned. */
  lemma ClaimantOf(s: State, scope: Scope) returns (k: nat)
    requires Open(s, scope) && !Abandoned(s, scope)
    ensures k < |s.slots| && Busy(s.slots[k]) && s.slots[k].request.scope == scope
  {
    k :| 0 <= k < |s.slots| && Busy(s.slots[k]) && s.slots[k].request.scope == scope;
  }

  lemma PanicAbandonsExactly(s: State, i: nat, scope: Scope)
    requires ClaimantsHoldOpenRows(s) && i < |s.slots| && !s.slots[i].phase.Answered? && !Abandoned(s, scope)
    ensures Abandoned(DoPanic(s, i), scope)
       <==> Open(s, scope) && Busy(s.slots[i]) && s.slots[i].request.scope == scope
  {
    var t := DoPanic(s, i);
    if Open(s, scope) {
      var k := ClaimantOf(s, scope);
      if k == i {
        forall j | 0 <= j < |t.slots| && Busy(t.slots[j])
          ensures t.slots[j].request.scope != scope
        {
          assert j != i && Busy(s.slots[j]);
        }
      } else {
        assert t.slots[k] == s.slots[k];
        assert Busy(s.slots[i]) ==> s.slots[i].request.scope != scope;
      }
    }
  }

  lemma ForeignCommitAbandonsNothing(s: State, i: nat, commitFails: bool, scope: Scope)
    requires ClaimantsHoldOpenRows(s) && i < |s.slots| && s.slots[i].phase.Executed?
        && s.slots[i].request.scope != scope
    requires !Abandoned(s, scope)
    ensures !Abandoned(DoCommit(s, i, commitFails), scope)
  {
    var t := DoCommit(s, i, commitFails);
    if Open(s, scope) {
      var k := ClaimantOf(s, scope);
      assert t.slots[k] == s.slots[k];
    }
  }

  lemma ClaimAbandonsNothing(s: State, i: nat, faults: ClaimFaults, scope: Scope)
    requires i < |s.slots| && s.slots[i].phase.Waiting? && !Abandoned(s, scope)
    ensures !Abandoned(DoClaim(s, i, faults), scope)
  {
    var t := DoClaim(s, i, faults);
    if Open(s, scope) {
      var k := ClaimantOf(s, scope);
      assert t.slots[k] == s.slots[k];
    } else if Open(t, scope) {
      assert t.slots[i] == Slot(s.slots[i].request, Claimed) && s.slots[i].request.scope == scope;
    }
  }

  lemma ExecuteAbandonsNothing(s: State, i: nat, freshId: string, insertFails: bool, scope: Scope)
    requires i < |s.slots| && s.slots[i].phase.Claimed? && !Abandoned(s, scope)
    ensures !Abandoned(DoExecute(s, i, freshId, insertFails), scope)
  {
    var t := DoExecute(s, i, freshId, insertFails);
    if Open(s, scope) {
      var k := ClaimantOf(s, scope);
      assert Busy(t.slots[k]) && t.slots[k].request == s.slots[k].request;
    }
  }

  lemma ArriveAbandonsNothing(s: State, request: Request, scope: Scope)
    requires !Abandoned(s, scope)
    ensures !Abandoned(Step(s, Arrive(request)), scope)
  {
    if Open(s, scope) {
      var k := ClaimantOf(s, scope);
      assert Step(s, Arrive(request)).slots[k] == s.slots[k];
    }
  }

  /** Exactly the open rows become abandoned when the process dies. */
  lemma CrashAbandonsExactlyTheOpenRows(s: State, scope: Scope)
    ensures Abandoned(DoCrash(s), scope) <==> Open(s, scope)
  {
  }

  /** All three ways are open from the start, for every request. */
  lemma EveryKeyCanBeAbandoned(request: Request)
    returns (dying: seq<Action>, panicking: seq<Action>, losing: seq<Action>)
    ensures dying == [Arrive(request), CheckOrClaim(0, NO_FAULTS), Crash]
    ensures panicking == [Arrive(request), CheckOrClaim(0, NO_FAULTS), Panic(0)]
    ensures losing == [Arrive(request), CheckOrClaim(0, NO_FAULTS), Execute(0, "", false), Commit(0, true)]
    ensures Abandoned(Run(INITIAL, dying), request.scope)
    ensures Abandoned(Run(INITIAL, panicking), request.scope)
    ensures Abandoned(Run(INITIAL, losing), request.scope)
  {
    dying, panicking := DeathAbandons(request);
    losing := LostCommitAbandons(request);
  }

  lemma DeathAbandons(request: Request) returns (dying: seq<Action>, panicking: seq<Action>)
    ensures dying == [Arrive(request), CheckOrClaim(0, NO_FAULTS), Crash]
    ensures panicking == [Arrive(request), CheckOrClaim(0, NO_FAULTS), Panic(0)]
    ensures Abandoned(Run(INITIAL, dying), request.scope) && Abandoned(Run(INITIAL, panicking), request.scope)
  {
    ClaimFromTheStart(request);
    dying := RunThen([Arrive(request), CheckOrClaim(0, NO_FAULTS)], Crash);
    panicking := RunThen([Arrive(request), CheckOrClaim(0, NO_FAULTS)], Panic(0));
  }

  lemma LostCommitAbandons(request: Request) returns (losing: seq<Action>)
    ensures losing == [Arrive(request), CheckOrClaim(0, NO_FAULTS), Execute(0, "", false), Commit(0, true)]
    ensures Abandoned(Run(INITIAL, losing), request.scope)
  {
    ClaimFromTheStart(request);
    var executed := RunThen([Arrive(request), CheckOrClaim(0, NO_FAULTS)], Execute(0, "", false));
    losing := RunThen(executed, Commit(0, true));
  }

  lemma RunThen(actions: seq<Action>, a: Action) returns (longer: seq<Action>)
    ensures longer == actions + [a] && Run(INITIAL, longer) == Step(Run(INITIAL, actions), a)
  {
    longer := actions + [a];
    assert longer[..|actions|] == actions;
  }

  lemma ClaimFromTheStart(request: Request)
    ensures var s := Run(INITIAL, [Arrive(request), CheckOrClaim(0, NO_FAULTS)]);
            s.slots == [Slot(request, Claimed)] && Open(s, request.scope)
  {
    var actions := [Arrive(request), CheckOrClaim(0, NO_FAULTS)];
    assert actions[..1] == [Arrive(request)] && actions[..1][..0] == [];
    assert Run(INITIAL, actions[..1]) == Step(INITIAL, Arrive(request));
    assert Run(INITIAL, actions) == Step(Run(INITIAL, actions[..1]), CheckOrClaim(0, NO_FAULTS));
  }

  /**
   * Without storage faults a duplicate of a finished scope is answered by replay, whatever its method and
   * fingerprint.
   */
  lemma DuplicateIsReplayed(actions: seq<Action>, i: nat)
    requires i < |Run(INITIAL, actions).slots| && Run(INITIAL, actions).slots[i].phase.Waiting?
    requires var s := Run(INITIAL, actions);
             s.slots[i].request.scope in s.rows && s.rows[s.slots[i].request.scope].state != InProgress
    ensures var s := Run(INITIAL, actions);
            var t := Step(s, CheckOrClaim(i, NO_FAULTS));
            && LogNamesSlots(s) && t.rows == s.rows && t.operations == s.operations
            && exists e ::
                 && e in s.log && ScopeOf(s, e) == s.slots[i].request.scope
                 && t.slots[i].phase
                    == Answered(ReplayedReply(s.slots[i].request, s.slots[e.claimant].request, e.outcome))
  {
    var s := Run(INITIAL, actions);
    RunsKeepInv(INITIAL, actions);
    ReplayOfAFinalRow(s, s.slots[i].request);
  }

  lemma ReplayOfAFinalRow(s: State, request: Request)
    requires LogNamesSlots(s) && FinalRowsHoldTheirExecution(s)
    requires request.scope in s.rows && s.rows[request.scope].state != InProgress
    ensures exists e :: e in s.log && ScopeOf(s, e) == request.scope
                        && RecalledReply(request, Ok(Recall(s.rows[request.scope])))
                           == ReplayedReply(request, s.slots[e.claimant].request, e.outcome)
  {
    var e :| e in s.log && ScopeOf(s, e) == request.scope
      && Holds(s.rows[request.scope], s.slots[e.claimant].request, e.outcome);
    assert RecalledReply(request, Ok(Recall(s.rows[request.scope])))
        == ReplayedReply(request, s.slots[e.claimant].request, e.outcome);
  }
}
