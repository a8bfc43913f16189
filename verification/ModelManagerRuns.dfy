/** Runs of the model controller: its suspended calls, resumed in any order, with disposals and reloads between them. */
module ModelManagerRuns {
  import opened MachineInts
  import opened ModelManager

  /**
   * Where a suspended call waits. `loop` is the operation generation its loop belongs to, `fetch` its list call's
   * number.
   */
  datatype Point =
    | LoadFetch(fetch: nat)
    | RefreshFetch(fetch: nat)
    | LoopWait(loop: nat, operation: nat)
    | LoopFetch(loop: nat, operation: nat, fetch: nat)
    | AwaitOperation(loop: nat, operation: nat)
    | FinalFetch(loop: nat, operation: nat, fetch: nat)
    | PollWait(loop: nat, modelId: string)
    | PollFetch(loop: nat, modelId: string, fetch: nat)
    | CancelCall(modelId: string, downloadId: string)
    | Ended

  /** `epoch` counts the disposals before the call was made. */
  datatype Task = Task(epoch: nat, at: Point)

  /** An install or retry handed to the host; None until it settles. */
  datatype Operation = Operation(modelId: string, outcome: Option<Result<(), string>>)

  datatype World = World(f: Fields, epoch: nat, tasks: seq<Task>, operations: seq<Operation>, applied: seq<nat>)

  datatype Action =
    | Load
    | Refresh
    | RunOperation(modelId: string)
    | Cancel(cancelModelId: string, downloadId: string)
    | Dispose
    | OperationSettles(operation: nat, outcome: Result<(), string>)
    | Resume(i: nat, answer: ListAnswer, acknowledgement: Result<Acknowledgement, string>)

  const INITIAL := World(INITIAL_FIELDS, 0, [], [], [])

  predicate OperationSettled(w: World, operation: nat) {
    operation < |w.operations| && w.operations[operation].outcome.Some?
  }

  predicate Enabled(w: World, a: Action) {
    match a
    case OperationSettles(operation, _) => operation < |w.operations| && w.operations[operation].outcome == None
    case Resume(i, _, _) =>
      i < |w.tasks| && w.tasks[i].at != Ended
        && (w.tasks[i].at.AwaitOperation? ==> OperationSettled(w, w.tasks[i].at.operation))
    case _ => true
  }

  function Failure(w: World, operation: nat): Option<string> {
    if OperationSettled(w, operation) && w.operations[operation].outcome.value.Err?
    then Some(w.operations[operation].outcome.value.error) else None
  }

  function ModelIdOf(w: World, operation: nat): string {
    if operation < |w.operations| then w.operations[operation].modelId else ""
  }

  /** What resuming one call does: the fields, where it waits next, and a polling loop it starts. */
  function Resumed(w: World, at: Point, answer: ListAnswer, acknowledgement: Result<Acknowledgement, string>)
    : (Fields, Point, Option<Poll>)
  {
    match at
    case LoadFetch(fetch) => var (f, poll) := LoadAnswered(w.f, fetch, answer); (f, Ended, poll)
    case RefreshFetch(fetch) => var (f, poll) := RefreshAnswered(w.f, fetch, answer); (f, Ended, poll)
    case LoopWait(loop, operation) =>
      if !OperationCurrent(w.f, loop) || OperationSettled(w, operation)
      then (w.f, AwaitOperation(loop, operation), None)
      else (FetchIssued(w.f), LoopFetch(loop, operation, w.f.refreshGeneration + 1), None)
    case LoopFetch(loop, operation, fetch) =>
      var f := OperationPolled(w.f, loop, fetch, answer);
      (f, if !OperationSettled(w, operation) && OperationCurrent(f, loop) then LoopWait(loop, operation)
          else AwaitOperation(loop, operation), None)
    case AwaitOperation(loop, operation) =>
      if !OperationCurrent(w.f, loop) then (w.f, Ended, None)
      else (FetchIssued(w.f), FinalFetch(loop, operation, w.f.refreshGeneration + 1), None)
    case FinalFetch(loop, operation, fetch) =>
      var (f, poll) := OperationFinished(w.f, loop, ModelIdOf(w, operation), Failure(w, operation), fetch, answer);
      (f, Ended, poll)
    case PollWait(loop, modelId) =>
      if !OperationCurrent(w.f, loop) then (w.f, Ended, None)
      else (FetchIssued(w.f), PollFetch(loop, modelId, w.f.refreshGeneration + 1), None)
    case PollFetch(loop, modelId, fetch) =>
      var (f, again) := PollAnswered(w.f, Poll(modelId, loop), fetch, answer);
      (f, if again then PollWait(loop, modelId) else Ended, None)
    case CancelCall(modelId, downloadId) => (CancelAnswered(w.f, modelId, downloadId, acknowledgement), Ended, None)
    case Ended => (w.f, Ended, None)
  }

  function FetchOf(at: Point): Option<nat> {
    if at.LoadFetch? || at.RefreshFetch? || at.LoopFetch? || at.FinalFetch? || at.PollFetch?
    then Some(at.fetch) else None
  }

  function LoopOf(at: Point): Option<nat> {
    if at.LoopWait? || at.LoopFetch? || at.AwaitOperation? || at.FinalFetch? || at.PollWait? || at.PollFetch?
    then Some(at.loop) else None
  }

  /** The answer's models replace the shown ones. */
  predicate TakesOver(f: Fields, at: Point, answer: ListAnswer) {
    && FetchOf(at).Some? && FetchCurrent(f, FetchOf(at).value) && answer.Ok?
    && (LoopOf(at).Some? ==> OperationCurrent(f, LoopOf(at).value))
  }

  function Started(w: World, f: Fields, at: Point): World {
    w.(f := f, tasks := w.tasks + [Task(w.epoch, at)])
  }

  function DoResume(w: World, i: nat, answer: ListAnswer, acknowledgement: Result<Acknowledgement, string>): World
    requires i < |w.tasks|
  {
    var task := w.tasks[i];
    var (f, at, poll) := Resumed(w, task.at, answer, acknowledgement);
    var moved := w.tasks[i := task.(at := at)];
    w.(f := f,
       tasks :=
         if poll.Some? then moved + [Task(task.epoch, PollWait(poll.value.generation, poll.value.modelId))] else moved,
       applied := if TakesOver(w.f, task.at, answer) then w.applied + [FetchOf(task.at).value] else w.applied)
  }

  function Step(w: World, a: Action): World
    requires Enabled(w, a)
  {
    match a
    case Load => Started(w, LoadCalled(w.f), LoadFetch(w.f.refreshGeneration + 1))
    case Refresh => Started(w, RefreshCalled(w.f), RefreshFetch(w.f.refreshGeneration + 1))
    case RunOperation(modelId) =>
      Started(w, OperationCalled(w.f, modelId), LoopWait(w.f.operationGeneration + 1, |w.operations|)).(
        operations := w.operations + [Operation(modelId, None)])
    case Cancel(modelId, downloadId) => Started(w, w.f, CancelCall(modelId, downloadId))
    case Dispose => w.(f := DisposeCalled(w.f), epoch := w.epoch + 1)
    case OperationSettles(operation, outcome) =>
      w.(operations := w.operations[operation := w.operations[operation].(outcome := Some(outcome))])
    case Resume(i, answer, acknowledgement) => DoResume(w, i, answer, acknowledgement)
  }

  predicate Feasible(w: World, actions: seq<Action>)
    decreases |actions|
  {
    actions == [] || (Enabled(w, actions[0]) && Feasible(Step(w, actions[0]), actions[1..]))
  }

  function After(w: World, actions: seq<Action>): World
    requires Feasible(w, actions)
    decreases |actions|
  {
    if actions == [] then w else After(Step(w, actions[0]), actions[1..])
  }

  // What every run keeps

  /** No call holds a number newer than the counters, and one made before a disposal holds only older ones. */
  predicate TaskBounded(w: World, task: Task) {
    && task.epoch <= w.epoch
    && (FetchOf(task.at).Some? ==> FetchOf(task.at).value <= w.f.refreshGeneration)
    && (LoopOf(task.at).Some? ==> LoopOf(task.at).value <= w.f.operationGeneration)
    && (task.epoch < w.epoch ==>
          && (FetchOf(task.at).Some? ==> FetchOf(task.at).value < w.f.refreshGeneration)
          && (LoopOf(task.at).Some? ==> LoopOf(task.at).value < w.f.operationGeneration))
  }

  predicate TasksBounded(w: World) {
    forall i :: 0 <= i < |w.tasks| ==> TaskBounded(w, w.tasks[i])
  }

  predicate Apart(a: Option<nat>, b: Option<nat>) {
    a.Some? && b.Some? ==> a.value != b.value
  }

  /** No two waiting calls share a list call or a loop. */
  predicate TasksDistinct(w: World) {
    forall i, j :: 0 <= i < j < |w.tasks| ==>
      Apart(FetchOf(w.tasks[i].at), FetchOf(w.tasks[j].at)) && Apart(LoopOf(w.tasks[i].at), LoopOf(w.tasks[j].at))
  }

  predicate AppliedInOrder(w: World) {
    && (forall k :: 0 <= k < |w.applied| ==> w.applied[k] <= w.f.refreshGeneration)
    && (forall k, l :: 0 <= k < l < |w.applied| ==> w.applied[k] < w.applied[l])
  }

  predicate AppliedAreGone(w: World) {
    forall i, k :: 0 <= i < |w.tasks| && 0 <= k < |w.applied| ==> Apart(FetchOf(w.tasks[i].at), Some(w.applied[k]))
  }

  predicate Inv(w: World) {
    TasksBounded(w) && TasksDistinct(w) && AppliedInOrder(w) && AppliedAreGone(w)
  }

  // Resuming one call

  /** What answering a list may do to the numbers: at most start one loop, with the newest. */
  predicate NumbersAfterAnswer(f: Fields, g: Fields, poll: Option<Poll>) {
    && g.refreshGeneration == f.refreshGeneration && g.disposed == f.disposed
    && f.operationGeneration <= g.operationGeneration
    && (poll.Some? ==> poll.value.generation == g.operationGeneration == f.operationGeneration + 1)
  }

  lemma ListAnswersKeepNumbers(f: Fields, fetch: nat, answer: ListAnswer)
    ensures var (g, poll) := LoadAnswered(f, fetch, answer); NumbersAfterAnswer(f, g, poll)
    ensures var (g, poll) := RefreshAnswered(f, fetch, answer); NumbersAfterAnswer(f, g, poll)
  {
  }

  lemma FinishingKeepsNumbers(
      f: Fields, operation: nat, modelId: string, failure: Option<string>, fetch: nat, answer: ListAnswer)
    ensures var (g, poll) := OperationFinished(f, operation, modelId, failure, fetch, answer);
        NumbersAfterAnswer(f, g, poll)
  {
  }

  /** A resumed call keeps its loop, if it goes on; any number it newly holds is the newest. */
  lemma ResumedNumbers(w: World, at: Point, answer: ListAnswer, acknowledgement: Result<Acknowledgement, string>)
    ensures var (f, next, poll) := Resumed(w, at, answer, acknowledgement);
            && w.f.refreshGeneration <= f.refreshGeneration && w.f.operationGeneration <= f.operationGeneration
            && f.disposed == w.f.disposed
            && (FetchOf(next).Some? ==> FetchOf(next).value == f.refreshGeneration == w.f.refreshGeneration + 1)
            && (LoopOf(next).Some? ==> LoopOf(next) == LoopOf(at))
            && (poll.Some? ==>
                 next == Ended && poll.value.generation == f.operationGeneration == w.f.operationGeneration + 1)
  {
    match at {
      case LoadFetch(fetch) => ListAnswersKeepNumbers(w.f, fetch, answer);
      case RefreshFetch(fetch) => ListAnswersKeepNumbers(w.f, fetch, answer);
      case FinalFetch(loop, operation, fetch) =>
        FinishingKeepsNumbers(w.f, loop, ModelIdOf(w, operation), Failure(w, operation), fetch, answer);
      case _ => OtherNumbers(w, at, answer, acknowledgement);
    }
  }

  lemma OtherNumbers(w: World, at: Point, answer: ListAnswer, acknowledgement: Result<Acknowledgement, string>)
    requires !at.LoadFetch? && !at.RefreshFetch? && !at.FinalFetch?
    ensures var (f, next, poll) := Resumed(w, at, answer, acknowledgement);
            && w.f.refreshGeneration <= f.refreshGeneration && w.f.operationGeneration == f.operationGeneration
            && f.disposed == w.f.disposed && poll.None?
            && (FetchOf(next).Some? ==> FetchOf(next).value == f.refreshGeneration == w.f.refreshGeneration + 1)
            && (LoopOf(next).Some? ==> LoopOf(next) == LoopOf(at))
  {
  }

  /** A call that holds only outdated numbers changes nothing, starts nothing and takes nothing over. */
  lemma OutdatedCallChangesNothing(
      w: World, at: Point, answer: ListAnswer, acknowledgement: Result<Acknowledgement, string>)
    requires FetchOf(at).Some? ==> FetchOf(at).value != w.f.refreshGeneration
    requires LoopOf(at).Some? ==> LoopOf(at).value != w.f.operationGeneration
    requires !at.CancelCall?
    ensures var (f, next, poll) := Resumed(w, at, answer, acknowledgement);
            f == w.f && poll == None && FetchOf(next) == None
    ensures !TakesOver(w.f, at, answer)
  {
  }

  lemma StartedKeepsInv(w: World, f: Fields, at: Point)
    requires Inv(w)
    requires w.f.refreshGeneration <= f.refreshGeneration && w.f.operationGeneration <= f.operationGeneration
    requires FetchOf(at).Some? ==> FetchOf(at).value == f.refreshGeneration == w.f.refreshGeneration + 1
    requires LoopOf(at).Some? ==> LoopOf(at).value == f.operationGeneration == w.f.operationGeneration + 1
    ensures Inv(Started(w, f, at))
  {
    var t := Started(w, f, at);
    forall i | 0 <= i < |w.tasks|
      ensures TaskBounded(t, t.tasks[i])
      ensures Apart(FetchOf(t.tasks[i].at), FetchOf(at)) && Apart(LoopOf(t.tasks[i].at), LoopOf(at))
    {
      assert TaskBounded(w, w.tasks[i]);
    }
  }

  /** Replacing one call's point by one with its own loop and, at most, the newest list call. */
  lemma MovedKeepsInv(w: World, f: Fields, i: nat, next: Point)
    requires Inv(w) && i < |w.tasks|
    requires w.f.refreshGeneration <= f.refreshGeneration && w.f.operationGeneration <= f.operationGeneration
    requires FetchOf(next).Some? ==> FetchOf(next).value == f.refreshGeneration == w.f.refreshGeneration + 1
    requires LoopOf(next).Some? ==> LoopOf(next) == LoopOf(w.tasks[i].at)
    requires w.tasks[i].epoch < w.epoch ==> FetchOf(next) == None
    ensures Inv(w.(f := f, tasks := w.tasks[i := w.tasks[i].(at := next)]))
  {
    var t := w.(f := f, tasks := w.tasks[i := w.tasks[i].(at := next)]);
    assert TaskBounded(w, w.tasks[i]);
    forall j | 0 <= j < |t.tasks|
      ensures TaskBounded(t, t.tasks[j])
      ensures j != i ==> Apart(FetchOf(t.tasks[j].at), FetchOf(next)) && Apart(LoopOf(t.tasks[j].at), LoopOf(next))
    {
      assert TaskBounded(w, w.tasks[j]);
    }
  }

  lemma TakingOverKeepsInv(w: World, fetch: nat)
    requires Inv(w) && fetch <= w.f.refreshGeneration
    requires forall k :: 0 <= k < |w.applied| ==> w.applied[k] < fetch
    requires forall j :: 0 <= j < |w.tasks| ==> Apart(FetchOf(w.tasks[j].at), Some(fetch))
    ensures Inv(w.(applied := w.applied + [fetch]))
  {
  }

  lemma StaleIsOutdated(w: World, i: nat)
    requires TasksBounded(w) && i < |w.tasks| && w.tasks[i].epoch < w.epoch
    ensures FetchOf(w.tasks[i].at).Some? ==> FetchOf(w.tasks[i].at).value != w.f.refreshGeneration
    ensures LoopOf(w.tasks[i].at).Some? ==> LoopOf(w.tasks[i].at).value != w.f.operationGeneration
  {
    assert TaskBounded(w, w.tasks[i]);
  }

  lemma ResumeKeepsInv(w: World, i: nat, answer: ListAnswer, acknowledgement: Result<Acknowledgement, string>)
    requires Inv(w) && i < |w.tasks|
    ensures Inv(DoResume(w, i, answer, acknowledgement))
  {
    var task := w.tasks[i];
    var (f, next, poll) := Resumed(w, task.at, answer, acknowledgement);
    ResumedNumbers(w, task.at, answer, acknowledgement);
    if task.epoch < w.epoch && !task.at.CancelCall? {
      StaleIsOutdated(w, i);
      OutdatedCallChangesNothing(w, task.at, answer, acknowledgement);
    }
    MovedKeepsInv(w, f, i, next);
    var moved := w.(f := f, tasks := w.tasks[i := task.(at := next)]);
    var t := DoResume(w, i, answer, acknowledgement);
    if TakesOver(w.f, task.at, answer) {
      TakingOverGoes(w, i, answer, acknowledgement);
      TakingOverKeepsInv(moved, FetchOf(task.at).value);
    }
    if poll.Some? {
      var counted := moved.(applied := t.applied);
      PollKeepsInv(counted, task.epoch, poll.value);
    }
  }

  /** A list being taken over is newer than all before it, and its number is held by no other call. */
  lemma TakingOverGoes(w: World, i: nat, answer: ListAnswer, acknowledgement: Result<Acknowledgement, string>)
    requires Inv(w) && i < |w.tasks| && TakesOver(w.f, w.tasks[i].at, answer)
    ensures var fetch := FetchOf(w.tasks[i].at).value;
            var (f, next, poll) := Resumed(w, w.tasks[i].at, answer, acknowledgement);
            var tasks := w.tasks[i := w.tasks[i].(at := next)];
            && fetch == w.f.refreshGeneration
            && (forall k :: 0 <= k < |w.applied| ==> w.applied[k] < fetch)
            && (forall j :: 0 <= j < |tasks| ==> Apart(FetchOf(tasks[j].at), Some(fetch)))
  {
    var fetch := FetchOf(w.tasks[i].at).value;
    ResumedNumbers(w, w.tasks[i].at, answer, acknowledgement);
    forall k | 0 <= k < |w.applied|
      ensures w.applied[k] < fetch
    {
      assert Apart(FetchOf(w.tasks[i].at), Some(w.applied[k]));
    }
    forall j | 0 <= j < |w.tasks| && j != i
      ensures Apart(FetchOf(w.tasks[j].at), Some(fetch))
    {
      assert j < i ==> Apart(FetchOf(w.tasks[j].at), FetchOf(w.tasks[i].at));
      assert i < j ==> Apart(FetchOf(w.tasks[i].at), FetchOf(w.tasks[j].at));
    }
  }

  /** The started loop has a number newer than any held before. */
  lemma PollKeepsInv(w: World, epoch: nat, poll: Poll)
    requires Inv(w) && epoch == w.epoch
    requires poll.generation == w.f.operationGeneration
    requires forall j :: 0 <= j < |w.tasks| ==> Apart(LoopOf(w.tasks[j].at), Some(poll.generation))
    ensures Inv(w.(tasks := w.tasks + [Task(epoch, PollWait(poll.generation, poll.modelId))]))
  {
  }

  lemma DisposeKeepsInv(w: World)
    requires Inv(w)
    ensures Inv(Step(w, Dispose))
  {
    var t := Step(w, Dispose);
    forall i | 0 <= i < |t.tasks|
      ensures TaskBounded(t, t.tasks[i])
    {
      assert TaskBounded(w, w.tasks[i]);
    }
  }

  lemma SettlingKeepsInv(w: World, operation: nat, outcome: Result<(), string>)
    requires Inv(w) && Enabled(w, OperationSettles(operation, outcome))
    ensures Inv(Step(w, OperationSettles(operation, outcome)))
  {
    var t := Step(w, OperationSettles(operation, outcome));
    forall i | 0 <= i < |t.tasks|
      ensures TaskBounded(t, t.tasks[i])
    {
      assert TaskBounded(w, w.tasks[i]);
    }
  }

  lemma OperationStartsKeepInv(w: World, modelId: string)
    requires Inv(w)
    ensures Inv(Step(w, RunOperation(modelId)))
  {
    StartedKeepsInv(w, OperationCalled(w.f, modelId), LoopWait(w.f.operationGeneration + 1, |w.operations|));
  }

  lemma StepKeepsInv(w: World, a: Action)
    requires Enabled(w, a) && Inv(w)
    ensures Inv(Step(w, a))
  {
    match a {
      case Load => StartedKeepsInv(w, LoadCalled(w.f), LoadFetch(w.f.refreshGeneration + 1));
      case Refresh => StartedKeepsInv(w, RefreshCalled(w.f), RefreshFetch(w.f.refreshGeneration + 1));
      case RunOperation(modelId) => OperationStartsKeepInv(w, modelId);
      case Cancel(modelId, downloadId) => StartedKeepsInv(w, w.f, CancelCall(modelId, downloadId));
      case Dispose => DisposeKeepsInv(w);
      case OperationSettles(operation, outcome) => SettlingKeepsInv(w, operation, outcome);
      case Resume(i, answer, acknowledgement) => ResumeKeepsInv(w, i, answer, acknowledgement);
    }
  }

  lemma {:induction false} RunsKeepInv(w: World, actions: seq<Action>)
    requires Inv(w) && Feasible(w, actions)
    ensures Inv(After(w, actions))
    decreases |actions|
  {
    if actions != [] {
      StepKeepsInv(w, actions[0]);
      RunsKeepInv(Step(w, actions[0]), actions[1..]);
    }
  }

  // Theorems

  /** Over all runs, the lists taken over are taken over in the order they were asked for. */
  lemma AppliedListsIncrease(actions: seq<Action>, k: nat, l: nat)
    requires Feasible(INITIAL, actions) && k < l < |After(INITIAL, actions).applied|
    ensures After(INITIAL, actions).applied[k] < After(INITIAL, actions).applied[l]
  {
    RunsKeepInv(INITIAL, actions);
  }

  lemma FinishedModels(w: World, at: Point, answer: ListAnswer, acknowledgement: Result<Acknowledgement, string>)
    requires at.FinalFetch?
    ensures var f := Resumed(w, at, answer, acknowledgement).0;
            f.ui.models != w.f.ui.models ==> TakesOver(w.f, at, answer) && f.ui.models == answer.value
  {
  }

  lemma ResumedModels(w: World, at: Point, answer: ListAnswer, acknowledgement: Result<Acknowledgement, string>)
    ensures var f := Resumed(w, at, answer, acknowledgement).0;
            f.ui.models != w.f.ui.models ==> TakesOver(w.f, at, answer) && f.ui.models == answer.value
  {
    if at.FinalFetch? {
      FinishedModels(w, at, answer, acknowledgement);
    }
  }

  lemma OthersShowTheSameModels(w: World, a: Action)
    requires Enabled(w, a) && !a.Resume?
    ensures Step(w, a).f.ui.models == w.f.ui.models
  {
  }

  /** The shown models only ever become the answer to the newest list call, and then the call is counted. */
  lemma OnlyTheNewestListIsShown(w: World, a: Action)
    requires Enabled(w, a) && Step(w, a).f.ui.models != w.f.ui.models
    ensures a.Resume? && a.answer.Ok? && Step(w, a).f.ui.models == a.answer.value
    ensures FetchOf(w.tasks[a.i].at) == Some(w.f.refreshGeneration) && !w.f.disposed
    ensures Step(w, a).applied == w.applied + [w.f.refreshGeneration]
  {
    if !a.Resume? {
      OthersShowTheSameModels(w, a);
      assert false;
    } else {
      ResumedModels(w, w.tasks[a.i].at, a.answer, a.acknowledgement);
    }
  }

  /**
   * A fetch or operation continuation made before a disposal changes no field, takes nothing over and starts
   * nothing when it is resumed, however many reloads came since.
   */
  lemma DisposedCallsNeverWrite(actions: seq<Action>, resume: Action)
    requires Feasible(INITIAL, actions) && Enabled(After(INITIAL, actions), resume) && resume.Resume?
    requires var w := After(INITIAL, actions); w.tasks[resume.i].epoch < w.epoch && !w.tasks[resume.i].at.CancelCall?
    ensures var w := After(INITIAL, actions);
            var t := Step(w, resume);
            t == w.(tasks := w.tasks[resume.i := t.tasks[resume.i]]) && FetchOf(t.tasks[resume.i].at) == None
  {
    RunsKeepInv(INITIAL, actions);
    var w := After(INITIAL, actions);
    StaleIsOutdated(w, resume.i);
    OutdatedCallChangesNothing(w, w.tasks[resume.i].at, resume.answer, resume.acknowledgement);
  }

  /** At most one loop is current: operations and restored polls never run side by side. */
  lemma OneLoopIsCurrent(actions: seq<Action>, i: nat, j: nat)
    requires Feasible(INITIAL, actions)
    requires i < |After(INITIAL, actions).tasks| && j < |After(INITIAL, actions).tasks|
    requires var w := After(INITIAL, actions);
             LoopOf(w.tasks[i].at) == LoopOf(w.tasks[j].at) == Some(w.f.operationGeneration)
    ensures i == j
  {
    RunsKeepInv(INITIAL, actions);
  }

  /** cancel() is not tied to a generation: what it writes depends only on the state it comes back to. */
  lemma CancelWritesExactly(w: World, i: nat, answer: ListAnswer, acknowledgement: Result<Acknowledgement, string>)
    requires i < |w.tasks| && w.tasks[i].at.CancelCall?
    ensures var at := w.tasks[i].at;
            var ui := DoResume(w, i, answer, acknowledgement).f.ui;
            match acknowledgement
            case Ok(ack) =>
              ui != w.f.ui <==>
                && !w.f.disposed && w.f.ui.pendingModelId == Some(at.modelId)
                && ack == Acknowledgement(at.downloadId, true)
                && w.f.ui.cancelRequestedDownloadId != Some(at.downloadId)
            case Err(reason) => ui != w.f.ui <==> !w.f.disposed && w.f.ui.error != Some(reason)
  {
  }

  // Runs showing what is not kept

  lemma {:induction false} FeasibleThen(w: World, actions: seq<Action>, a: Action)
    requires Feasible(w, actions) && Enabled(After(w, actions), a)
    ensures Feasible(w, actions + [a]) && After(w, actions + [a]) == Step(After(w, actions), a)
    decreases |actions|
  {
    if actions == [] {
      assert [a][1..] == [];
    } else {
      FeasibleThen(Step(w, actions[0]), actions[1..], a);
      assert (actions + [a])[1..] == actions[1..] + [a];
    }
  }

  const NO_MODELS: ListAnswer := Ok([])
  const LOST: Result<Acknowledgement, string> := Err("cancel failed")

  /** A cancel made before a disposal reports its error into the reloaded controller. */
  lemma CancelCanWriteAfterReload() returns (actions: seq<Action>)
    ensures Feasible(INITIAL, actions) && Enabled(After(INITIAL, actions), Resume(0, NO_MODELS, LOST))
    ensures var w := After(INITIAL, actions);
            && w.tasks[0].epoch < w.epoch
            && w.f.ui.error == None && Step(w, Resume(0, NO_MODELS, LOST)).f.ui.error == Some("cancel failed")
  {
    FeasibleThen(INITIAL, [], Cancel("model", "download"));
    actions := [] + [Cancel("model", "download")];
    FeasibleThen(INITIAL, actions, Dispose);
    actions := actions + [Dispose];
    FeasibleThen(INITIAL, actions, Load);
    actions := actions + [Load];
  }

  lemma LoadThenInstall() returns (actions: seq<Action>)
    ensures Feasible(INITIAL, actions)
    ensures After(INITIAL, actions) ==
            World(Fields(INITIAL_UI.(pendingModelId := Some("model")), 1, 1, false), 0,
                  [Task(0, LoadFetch(1)), Task(0, AwaitOperation(1, 0))], [Operation("model", Some(Ok(())))], [])
  {
    FeasibleThen(INITIAL, [], Load);
    actions := [] + [Load];
    FeasibleThen(INITIAL, actions, RunOperation("model"));
    actions := actions + [RunOperation("model")];
    FeasibleThen(INITIAL, actions, OperationSettles(0, Ok(())));
    actions := actions + [OperationSettles(0, Ok(()))];
    FeasibleThen(INITIAL, actions, Resume(1, NO_MODELS, LOST));
    actions := actions + [Resume(1, NO_MODELS, LOST)];
  }

  lemma InstallEnds() returns (actions: seq<Action>)
    ensures Feasible(INITIAL, actions)
    ensures var w := After(INITIAL, actions);
            && w.f.ui.loading && !w.f.disposed && w.f.refreshGeneration == 2
            && w.tasks == [Task(0, Ended), Task(0, FinalFetch(1, 0, 2))]
            && w.operations == [Operation("model", Some(Ok(())))]
  {
    actions := LoadThenInstall();
    FeasibleThen(INITIAL, actions, Resume(1, NO_MODELS, LOST));
    actions := actions + [Resume(1, NO_MODELS, LOST)];
    FeasibleThen(INITIAL, actions, Resume(0, NO_MODELS, LOST));
    actions := actions + [Resume(0, NO_MODELS, LOST)];
  }

  /** An operation's last list call supersedes the load's; everything ends well and `loading` is still set. */
  lemma LoadingCanStick() returns (actions: seq<Action>)
    ensures Feasible(INITIAL, actions)
    ensures var w := After(INITIAL, actions);
            && w.f.ui.loading && !w.f.disposed && (forall i :: 0 <= i < |w.tasks| ==> w.tasks[i].at == Ended)
            && (forall i :: 0 <= i < |w.operations| ==> w.operations[i].outcome == Some(Ok(())))
  {
    actions := InstallEnds();
    FeasibleThen(INITIAL, actions, Resume(1, NO_MODELS, LOST));
    actions := actions + [Resume(1, NO_MODELS, LOST)];
  }

  /** The lists that count as taken over are exactly those whose models are then on show. */
  lemma AppliedListsAreShown(
      w: World, i: nat, answer: ListAnswer, acknowledgement: Result<Acknowledgement, string>)
    requires Enabled(w, Resume(i, answer, acknowledgement))
    ensures var t := Step(w, Resume(i, answer, acknowledgement));
            && (t.applied != w.applied ==>
                  && t.applied == w.applied + [w.f.refreshGeneration]
                  && answer.Ok? && t.f.ui.models == answer.value)
            && (t.f.ui.models != w.f.ui.models ==> t.applied == w.applied + [w.f.refreshGeneration])
  {
    ResumedModels(w, w.tasks[i].at, answer, acknowledgement);
  }

  /**
   * A poll goes round again exactly while its loop is current and no newest list has said that its model is no longer
   * being downloaded; an outdated or failed list does not end it.
   */
  lemma PollsGoRoundExactly(
      w: World, i: nat, modelId: string, loop: nat, fetch: nat, answer: ListAnswer,
      acknowledgement: Result<Acknowledgement, string>)
    requires i < |w.tasks| && w.tasks[i].at == PollFetch(loop, modelId, fetch)
    ensures var at := Step(w, Resume(i, answer, acknowledgement)).tasks[i].at;
            && (at == PollWait(loop, modelId) || at == Ended)
            && (at == PollWait(loop, modelId) <==>
                  && !w.f.disposed && loop == w.f.operationGeneration
                  && (fetch == w.f.refreshGeneration && answer.Ok? ==> StillUnderway(answer.value, modelId)))
  {
    if answer.Ok? {
      ActiveMeansUnderway(answer.value, modelId);
    }
  }

  /** An operation's loop goes round until its operation has settled or another one has taken its place. */
  lemma OperationLoopsGoRoundExactly(
      w: World, i: nat, loop: nat, operation: nat, answer: ListAnswer, acknowledgement: Result<Acknowledgement, string>)
    requires i < |w.tasks|
    ensures var current := !w.f.disposed && loop == w.f.operationGeneration;
            var settled := operation < |w.operations| && w.operations[operation].outcome.Some?;
            var t := DoResume(w, i, answer, acknowledgement);
            && (w.tasks[i].at == LoopWait(loop, operation) ==>
                  && (current && !settled ==>
                        && t.tasks[i].at == LoopFetch(loop, operation, w.f.refreshGeneration + 1)
                        && t.f == w.f.(refreshGeneration := w.f.refreshGeneration + 1))
                  && (!current || settled ==> t.tasks[i].at == AwaitOperation(loop, operation) && t.f == w.f))
            && (w.tasks[i].at.LoopFetch? && w.tasks[i].at.loop == loop && w.tasks[i].at.operation == operation ==>
                  t.tasks[i].at
                  == if current && !settled then LoopWait(loop, operation) else AwaitOperation(loop, operation))
            && (w.tasks[i].at == AwaitOperation(loop, operation) ==>
                  t.tasks[i].at
                  == if current then FinalFetch(loop, operation, w.f.refreshGeneration + 1) else Ended)
  {
  }
}
