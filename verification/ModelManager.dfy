/**
 * modelManager.ts: the model controller. Each stretch of code between two awaits is one function on the controller's
 * fields, and one method of the class. A list answer is handled together with the code that awaited it.
 */
module ModelManager {
  import opened MachineInts

  datatype Model = Model(modelId: string, download: Option<string>)

  datatype Ui = Ui(
    models: seq<Model>, loading: bool, refreshing: bool, error: Option<string>,
    pendingModelId: Option<string>, cancelRequestedDownloadId: Option<string>)

  const INITIAL_UI := Ui([], true, false, None, None, None)

  datatype Fields = Fields(ui: Ui, refreshGeneration: nat, operationGeneration: nat, disposed: bool)

  const INITIAL_FIELDS := Fields(INITIAL_UI, 0, 0, false)

  /** A polling loop that a stretch of code starts. */
  datatype Poll = Poll(modelId: string, generation: nat)

  type ListAnswer = Result<seq<Model>, string>

  datatype Acknowledgement = Acknowledgement(downloadId: string, cancelRequested: bool)

  predicate IsActiveDownload(state: Option<string>) {
    state.Some? && state.value in ["queued", "downloading", "verifying", "installing", "qualifying"]
  }

  predicate FirstNamed(models: seq<Model>, modelId: string, i: nat) {
    i < |models| && models[i].modelId == modelId && forall j :: 0 <= j < i ==> models[j].modelId != modelId
  }

  /** A download the user still waits for. */
  predicate Underway(model: Model) {
    && model.download.Some?
    && model.download.value in {"queued", "downloading", "verifying", "installing", "qualifying"}
  }

  predicate FirstUnderway(models: seq<Model>, i: nat) {
    i < |models| && Underway(models[i]) && forall j :: 0 <= j < i ==> !Underway(models[j])
  }

  function FindModel(models: seq<Model>, modelId: string): (r: Option<Model>)
    ensures r.Some? ==> r.value in models && r.value.modelId == modelId
    ensures r.Some? ==> exists i: nat :: FirstNamed(models, modelId, i) && r == Some(models[i])
    ensures r.None? <==> forall model :: model in models ==> model.modelId != modelId
  {
    if models == [] then None
    else if models[0].modelId == modelId then Some(models[0])
    else
      assert forall model :: model in models <==> model == models[0] || model in models[1..];
      var rest := FindModel(models[1..], modelId);
      assert rest.Some? ==> exists i: nat :: FirstNamed(models, modelId, i) && rest == Some(models[i]) by {
        if i: nat :| FirstNamed(models[1..], modelId, i) && rest == Some(models[1..][i]) {
          assert forall j :: 0 < j < |models| ==> models[j] == models[1..][j - 1];
          assert FirstNamed(models, modelId, i + 1);
        }
      }
      rest
  }

  function FindActive(models: seq<Model>): (r: Option<Model>)
    ensures r.Some? ==> exists i: nat :: FirstUnderway(models, i) && r == Some(models[i])
    ensures r.Some? ==> r.value in models && IsActiveDownload(r.value.download)
    ensures r.None? <==> forall model :: model in models ==> !IsActiveDownload(model.download)
  {
    if models == [] then None
    else if IsActiveDownload(models[0].download) then Some(models[0])
    else
      assert forall model :: model in models <==> model == models[0] || model in models[1..];
      var rest := FindActive(models[1..]);
      assert rest.Some? ==> exists i: nat :: FirstUnderway(models, i) && rest == Some(models[i]) by {
        if i: nat :| FirstUnderway(models[1..], i) && rest == Some(models[1..][i]) {
          assert forall j :: 0 < j < |models| ==> models[j] == models[1..][j - 1];
          assert FirstUnderway(models, i + 1);
        }
      }
      rest
  }

  predicate HasActiveDownload(models: seq<Model>, modelId: string) {
    var current := FindModel(models, modelId);
    current.Some? && IsActiveDownload(current.value.download)
  }

  /** The model is listed, and its first entry is still being downloaded. */
  ghost predicate StillUnderway(models: seq<Model>, modelId: string) {
    exists i: nat :: FirstNamed(models, modelId, i) && Underway(models[i])
  }

  lemma ActiveMeansUnderway(models: seq<Model>, modelId: string)
    ensures HasActiveDownload(models, modelId) <==> StillUnderway(models, modelId)
  {
    forall i: nat, j: nat | FirstNamed(models, modelId, i) && FirstNamed(models, modelId, j)
      ensures i == j
    {
    }
  }

  lemma OneFirstUnderway(models: seq<Model>, i: nat, j: nat)
    requires FirstUnderway(models, i) && FirstUnderway(models, j)
    ensures i == j
  {
  }

  lemma ActiveIsFirstUnderway(models: seq<Model>, i: nat)
    requires FirstUnderway(models, i)
    ensures FindActive(models) == Some(models[i])
  {
    assert models[i] in models && IsActiveDownload(models[i].download);
    var j: nat :| FirstUnderway(models, j) && FindActive(models) == Some(models[j]);
    OneFirstUnderway(models, i, j);
  }

  lemma NoneActiveMeansNoneUnderway(models: seq<Model>)
    ensures FindActive(models).None? <==> forall i :: 0 <= i < |models| ==> !Underway(models[i])
  {
    forall model
      ensures Underway(model) <==> IsActiveDownload(model.download)
    {
    }
    assert forall i :: 0 <= i < |models| ==> models[i] in models;
  }

  ghost predicate OperationWasCancelled(models: seq<Model>, modelId: string) {
    exists i: nat :: FirstNamed(models, modelId, i) && models[i].download == Some("cancelled")
  }

  lemma CancelledIsFirstNamed(models: seq<Model>, modelId: string)
    ensures OperationWasCancelled(models, modelId)
        <==> FindModel(models, modelId).Some? && FindModel(models, modelId).value.download == Some("cancelled")
  {
    forall i: nat, j: nat | FirstNamed(models, modelId, i) && FirstNamed(models, modelId, j)
      ensures i == j
    {
    }
  }

  predicate OperationCurrent(f: Fields, generation: nat) {
    !f.disposed && generation == f.operationGeneration
  }

  predicate FetchCurrent(f: Fields, generation: nat) {
    !f.disposed && generation == f.refreshGeneration
  }

  // What each stretch of code does to the fields

  /** fetchModels up to its await. */
  function FetchIssued(f: Fields): Fields {
    f.(refreshGeneration := f.refreshGeneration + 1)
  }

  /** The end of fetchModels: what it leaves behind and what it returns, None for null. */
  function FetchAnswered(f: Fields, generation: nat, answer: ListAnswer): (Fields, Option<seq<Model>>) {
    if !FetchCurrent(f, generation) then (f, None)
    else match answer
      case Ok(models) => (f, Some(models))
      case Err(reason) => (f.(ui := f.ui.(loading := false, refreshing := false, error := Some(reason))), None)
  }

  function LoadCalled(f: Fields): Fields {
    FetchIssued(f.(disposed := false, ui := f.ui.(loading := true, error := None)))
  }

  function RefreshCalled(f: Fields): Fields {
    FetchIssued(f.(ui := f.ui.(refreshing := true, error := None)))
  }

  function Restored(f: Fields, models: seq<Model>): (Fields, Option<Poll>) {
    var active := FindActive(models);
    if active.None? then (f, None)
    else (f.(operationGeneration := f.operationGeneration + 1,
             ui := f.ui.(pendingModelId := Some(active.value.modelId), cancelRequestedDownloadId := None)),
          Some(Poll(active.value.modelId, f.operationGeneration + 1)))
  }

  /** JavaScript truthiness of `string | null`. */
  predicate Truthy(text: Option<string>) {
    text.Some? && text.value != ""
  }

  function Reconciled(f: Fields, models: seq<Model>): (Fields, Option<Poll>) {
    if !Truthy(f.ui.pendingModelId) then Restored(f, models)
    else if HasActiveDownload(models, f.ui.pendingModelId.value) then (f, None)
    else (f.(ui := f.ui.(pendingModelId := None, cancelRequestedDownloadId := None)), None)
  }

  function TakenOver(f: Fields, models: seq<Model>): Fields {
    f.(ui := f.ui.(models := models, loading := false, refreshing := false))
  }

  function LoadAnswered(f: Fields, generation: nat, answer: ListAnswer): (Fields, Option<Poll>) {
    var (fetched, models) := FetchAnswered(f, generation, answer);
    if models.None? then (fetched, None) else Restored(TakenOver(fetched, models.value), models.value)
  }

  function RefreshAnswered(f: Fields, generation: nat, answer: ListAnswer): (Fields, Option<Poll>) {
    var (fetched, models) := FetchAnswered(f, generation, answer);
    if models.None? then (fetched, None) else Reconciled(TakenOver(fetched, models.value), models.value)
  }

  function OperationCalled(f: Fields, modelId: string): Fields {
    f.(operationGeneration := f.operationGeneration + 1, disposed := false,
       ui := f.ui.(pendingModelId := Some(modelId), cancelRequestedDownloadId := None, error := None))
  }

  /** A list fetched inside the loop of runOperation. */
  function OperationPolled(f: Fields, operation: nat, generation: nat, answer: ListAnswer): Fields {
    var (fetched, models) := FetchAnswered(f, generation, answer);
    if models.Some? && OperationCurrent(fetched, operation)
    then fetched.(ui := fetched.ui.(models := models.value)) else fetched
  }

  /** The rest of runOperation after its last list. */
  function OperationFinished(
      f: Fields, operation: nat, modelId: string, failure: Option<string>, generation: nat, answer: ListAnswer)
    : (Fields, Option<Poll>)
  {
    var (fetched, models) := FetchAnswered(f, generation, answer);
    var (reconciled, poll) :=
      if models.Some? && OperationCurrent(fetched, operation)
      then Reconciled(fetched.(ui := fetched.ui.(models := models.value)), models.value)
      else (fetched, None);
    var current := if models.Some? then FindModel(models.value, modelId) else None;
    var cancelled := current.Some? && current.value.download == Some("cancelled");
    if failure.Some? && !cancelled && OperationCurrent(reconciled, operation)
    then (reconciled.(ui := reconciled.ui.(error := failure)), poll)
    else (reconciled, poll)
  }

  /** One list of pollPersistedOperation, and whether its loop goes round again. */
  function PollAnswered(f: Fields, poll: Poll, generation: nat, answer: ListAnswer): (Fields, bool) {
    var (fetched, models) := FetchAnswered(f, generation, answer);
    if !OperationCurrent(fetched, poll.generation) then (fetched, false)
    else if models.None? then (fetched, true)
    else
      var shown := fetched.(ui := fetched.ui.(models := models.value));
      if HasActiveDownload(models.value, poll.modelId) then (shown, true)
      else (shown.(ui := shown.ui.(pendingModelId := None, cancelRequestedDownloadId := None)), false)
  }

  function CancelAnswered(f: Fields, modelId: string, downloadId: string, answer: Result<Acknowledgement, string>)
    : Fields
  {
    match answer
    case Ok(acknowledgement) =>
      if f.disposed || f.ui.pendingModelId != Some(modelId) then f
      else if acknowledgement.downloadId == downloadId && acknowledgement.cancelRequested
      then f.(ui := f.ui.(cancelRequestedDownloadId := Some(downloadId)))
      else f
    case Err(reason) => if f.disposed then f else f.(ui := f.ui.(error := Some(reason)))
  }

  function DisposeCalled(f: Fields): Fields {
    f.(disposed := true, refreshGeneration := f.refreshGeneration + 1, operationGeneration := f.operationGeneration + 1)
  }

  // What holds of every stretch of code

  predicate NumbersDoNotFall(before: Fields, after: Fields) {
    before.refreshGeneration <= after.refreshGeneration && before.operationGeneration <= after.operationGeneration
  }

  /** The models shown change only to those of the newest list of a live controller. */
  predicate ShownIsListed(before: Fields, after: Fields, generation: nat, answer: ListAnswer) {
    after.ui.models != before.ui.models ==>
      FetchCurrent(before, generation) && answer.Ok? && after.ui.models == answer.value
  }

  /** A loop that is started is current, and its model the pending one. */
  predicate PollIsCurrent(after: Fields, poll: Option<Poll>) {
    poll.Some? ==> OperationCurrent(after, poll.value.generation) && after.ui.pendingModelId == Some(poll.value.modelId)
  }

  /**
   * How a new list is reconciled: a pending model still being downloaded stays pending, one that is not is given up,
   * and without one the first download under way is taken up, with a poll of its own.
   */
  ghost predicate ReconciledTo(before: Fields, models: seq<Model>, after: Fields, poll: Option<Poll>) {
    var pending := before.ui.pendingModelId;
    if pending.Some? && pending.value != "" then
      && poll == None
      && after == if StillUnderway(models, pending.value) then before
                  else before.(ui := before.ui.(pendingModelId := None, cancelRequestedDownloadId := None))
    else RestoredTo(before, models, after, poll)
  }

  ghost predicate RestoredTo(before: Fields, models: seq<Model>, after: Fields, poll: Option<Poll>) {
    && ((forall i :: 0 <= i < |models| ==> !Underway(models[i])) ==> after == before && poll == None)
    && forall i: nat :: FirstUnderway(models, i) ==>
         && poll == Some(Poll(models[i].modelId, before.operationGeneration + 1))
         && after == before.(
              ui := before.ui.(pendingModelId := Some(models[i].modelId), cancelRequestedDownloadId := None),
              operationGeneration := before.operationGeneration + 1)
  }

  lemma RestoredIs(f: Fields, models: seq<Model>)
    ensures RestoredTo(f, models, Restored(f, models).0, Restored(f, models).1)
  {
    NoneActiveMeansNoneUnderway(models);
    forall i: nat | FirstUnderway(models, i)
      ensures FindActive(models) == Some(models[i])
    {
      ActiveIsFirstUnderway(models, i);
    }
  }

  lemma OperationFinishedIs(
      f: Fields, operation: nat, modelId: string, failure: Option<string>, generation: nat, answer: ListAnswer,
      after: Fields, poll: Option<Poll>)
    requires (after, poll) == OperationFinished(f, operation, modelId, failure, generation, answer)
    ensures f.disposed || operation != f.operationGeneration ==>
              && poll == None
              && after == f.(
                   ui := if !f.disposed && generation == f.refreshGeneration && answer.Err?
                         then f.ui.(loading := false, refreshing := false, error := Some(answer.error))
                         else f.ui)
    ensures !f.disposed && operation == f.operationGeneration && generation == f.refreshGeneration && answer.Ok? ==>
              exists reconciled: Fields ::
                && ReconciledTo(f.(ui := f.ui.(models := answer.value)), answer.value, reconciled, poll)
                && after == if failure.Some? && !OperationWasCancelled(answer.value, modelId)
                                && reconciled.operationGeneration == operation
                             then reconciled.(ui := reconciled.ui.(error := failure)) else reconciled
    ensures !f.disposed && operation == f.operationGeneration && generation == f.refreshGeneration && answer.Err? ==>
              && poll == None
              && after == f.(ui := f.ui.(
                   loading := false, refreshing := false,
                   error := if failure.Some? then failure else Some(answer.error)))
    ensures !f.disposed && operation == f.operationGeneration && generation != f.refreshGeneration ==>
              && poll == None
              && after == f.(ui := f.ui.(
                   error := if failure.Some? then failure else f.ui.error))
  {
    if answer.Ok? {
      CancelledIsFirstNamed(answer.value, modelId);
      var shown := f.(ui := f.ui.(models := answer.value));
      ReconciledIs(shown, answer.value);
    }
  }

  lemma ReconciledIs(f: Fields, models: seq<Model>)
    ensures ReconciledTo(f, models, Reconciled(f, models).0, Reconciled(f, models).1)
  {
    if f.ui.pendingModelId.Some? {
      ActiveMeansUnderway(models, f.ui.pendingModelId.value);
    }
    RestoredIs(f, models);
  }

  // The controller

  class ModelManagerController {
    var state: Ui
    var refreshGeneration: nat
    var operationGeneration: nat
    var disposed: bool

    constructor ()
      ensures View() == INITIAL_FIELDS
    {
      state := INITIAL_UI;
      refreshGeneration := 0;
      operationGeneration := 0;
      disposed := false;
    }

    ghost function View(): Fields
      reads this
    {
      Fields(state, refreshGeneration, operationGeneration, disposed)
    }

    method IssueFetch() returns (generation: nat)
      modifies this`refreshGeneration
      ensures View() == FetchIssued(old(View())) && generation == refreshGeneration == old(refreshGeneration) + 1
    {
      refreshGeneration := refreshGeneration + 1;
      return refreshGeneration;
    }

    method AnswerFetch(generation: nat, answer: ListAnswer) returns (models: Option<seq<Model>>)
      modifies this`state
      ensures (View(), models) == FetchAnswered(old(View()), generation, answer)
      ensures disposed || generation != refreshGeneration ==> state == old(state) && models == None
      ensures !disposed && generation == refreshGeneration ==>
                match answer
                case Ok(listed) => state == old(state) && models == Some(listed)
                case Err(reason) =>
                  && models == None
                  && state == old(state).(loading := false, refreshing := false, error := Some(reason))
    {
      match answer {
        case Ok(listed) =>
          if disposed || generation != refreshGeneration {
            return None;
          }
          return Some(listed);
        case Err(reason) =>
          if !disposed && generation == refreshGeneration {
            state := state.(loading := false, refreshing := false, error := Some(reason));
          }
          return None;
      }
    }

    method Load() returns (generation: nat)
      modifies this
      ensures View() == LoadCalled(old(View())) && generation == refreshGeneration
      ensures View() == old(View()).(ui := old(state).(loading := true, error := None), disposed := false,
                                     refreshGeneration := old(refreshGeneration) + 1)
      ensures NumbersDoNotFall(old(View()), View()) && FetchCurrent(View(), generation)
    {
      disposed := false;
      state := state.(loading := true, error := None);
      generation := IssueFetch();
    }

    method LoadAnswer(generation: nat, answer: ListAnswer) returns (poll: Option<Poll>)
      modifies this
      ensures (View(), poll) == LoadAnswered(old(View()), generation, answer)
      ensures !old(disposed) && generation == old(refreshGeneration) ==>
                match answer
                case Ok(models) =>
                  var shown := old(state).(models := models, loading := false, refreshing := false);
                  RestoredTo(old(View()).(ui := shown), models, View(), poll)
                case Err(reason) =>
                  var shown := old(state).(loading := false, refreshing := false, error := Some(reason));
                  View() == old(View()).(ui := shown) && poll == None
      ensures NumbersDoNotFall(old(View()), View()) && ShownIsListed(old(View()), View(), generation, answer)
          && PollIsCurrent(View(), poll)
      ensures old(FetchCurrent(View(), generation)) ==> !state.loading && !state.refreshing
      ensures !old(FetchCurrent(View(), generation)) ==> View() == old(View()) && poll == None
    {
      var models := AnswerFetch(generation, answer);
      if models.None? {
        return None;
      }
      state := state.(models := models.value, loading := false, refreshing := false);
      poll := RestorePersistedOperation(models.value);
    }

    method Refresh() returns (generation: nat)
      modifies this
      ensures View() == RefreshCalled(old(View())) && generation == refreshGeneration
      ensures View() == old(View()).(ui := old(state).(refreshing := true, error := None),
                                     refreshGeneration := old(refreshGeneration) + 1)
      ensures NumbersDoNotFall(old(View()), View())
      ensures FetchCurrent(View(), generation) <==> !old(disposed)
    {
      state := state.(refreshing := true, error := None);
      generation := IssueFetch();
    }

    method RefreshAnswer(generation: nat, answer: ListAnswer) returns (poll: Option<Poll>)
      modifies this
      ensures (View(), poll) == RefreshAnswered(old(View()), generation, answer)
      ensures !old(disposed) && generation == old(refreshGeneration) ==>
                match answer
                case Ok(models) =>
                  var shown := old(state).(models := models, loading := false, refreshing := false);
                  ReconciledTo(old(View()).(ui := shown), models, View(), poll)
                case Err(reason) =>
                  var shown := old(state).(loading := false, refreshing := false, error := Some(reason));
                  View() == old(View()).(ui := shown) && poll == None
      ensures NumbersDoNotFall(old(View()), View()) && ShownIsListed(old(View()), View(), generation, answer)
          && PollIsCurrent(View(), poll)
      ensures old(FetchCurrent(View(), generation)) ==> !state.loading && !state.refreshing
      ensures !old(FetchCurrent(View(), generation)) ==> View() == old(View()) && poll == None
    {
      var models := AnswerFetch(generation, answer);
      if models.None? {
        return None;
      }
      state := state.(models := models.value, loading := false, refreshing := false);
      poll := ReconcilePending(models.value);
    }

    method CancelAnswer(modelId: string, downloadId: string, answer: Result<Acknowledgement, string>)
      modifies this`state
      ensures View() == CancelAnswered(old(View()), modelId, downloadId, answer)
      ensures old(disposed) ==> View() == old(View())
      ensures state.cancelRequestedDownloadId != old(state.cancelRequestedDownloadId) ==>
                state.cancelRequestedDownloadId == Some(downloadId) && state.pendingModelId == Some(modelId)
      ensures !disposed && answer.Err? ==> state == old(state).(error := Some(answer.error))
      ensures !disposed && answer.Ok? ==>
                state == if old(state.pendingModelId) == Some(modelId) && answer.value.downloadId == downloadId
                            && answer.value.cancelRequested
                         then old(state).(cancelRequestedDownloadId := Some(downloadId)) else old(state)
    {
      match answer {
        case Ok(acknowledgement) =>
          if disposed || state.pendingModelId != Some(modelId) {
            return;
          }
          if acknowledgement.downloadId == downloadId && acknowledgement.cancelRequested {
            state := state.(cancelRequestedDownloadId := Some(downloadId));
          }
        case Err(reason) =>
          if !disposed {
            state := state.(error := Some(reason));
          }
      }
    }

    method Dispose()
      modifies this
      ensures View() == DisposeCalled(old(View()))
      ensures View() == Fields(old(state), old(refreshGeneration) + 1, old(operationGeneration) + 1, true)
      ensures forall generation: nat :: generation <= old(refreshGeneration) ==> !FetchCurrent(View(), generation)
      ensures forall generation: nat :: generation <= old(operationGeneration) ==> !OperationCurrent(View(), generation)
    {
      disposed := true;
      refreshGeneration := refreshGeneration + 1;
      operationGeneration := operationGeneration + 1;
    }

    method RunOperation(modelId: string) returns (operation: nat)
      modifies this
      ensures View() == OperationCalled(old(View()), modelId) && operation == operationGeneration
      ensures View() == Fields(
                old(state).(pendingModelId := Some(modelId), cancelRequestedDownloadId := None, error := None),
                old(refreshGeneration), old(operationGeneration) + 1, false)
      ensures OperationCurrent(View(), operation) && forall earlier: nat :: earlier < operation ==>
          !OperationCurrent(View(), earlier)
    {
      operationGeneration := operationGeneration + 1;
      operation := operationGeneration;
      disposed := false;
      state := state.(pendingModelId := Some(modelId), cancelRequestedDownloadId := None, error := None);
    }

    method IsOperationCurrent(generation: nat) returns (current: bool)
      ensures current == OperationCurrent(View(), generation)
      ensures current <==> !disposed && generation == operationGeneration
    {
      return !disposed && generation == operationGeneration;
    }

    method OperationPoll(operation: nat, generation: nat, answer: ListAnswer)
      modifies this
      ensures View() == OperationPolled(old(View()), operation, generation, answer)
      ensures ShownIsListed(old(View()), View(), generation, answer)
      ensures state.models != old(state.models) ==> OperationCurrent(View(), operation)
      ensures View() == old(View()).(ui := state)
      ensures var newest := !disposed && generation == refreshGeneration;
              match answer
              case Ok(models) =>
                state == if newest && operation == operationGeneration then old(state).(models := models)
                         else old(state)
              case Err(reason) =>
                state == if newest then old(state).(loading := false, refreshing := false, error := Some(reason))
                         else old(state)
    {
      var models := AnswerFetch(generation, answer);
      var current := IsOperationCurrent(operation);
      if models.Some? && current {
        state := state.(models := models.value);
      }
    }

    method OperationFinish(
        operation: nat, modelId: string, failure: Option<string>, generation: nat, answer: ListAnswer)
      returns (poll: Option<Poll>)
      modifies this
      ensures (View(), poll) == OperationFinished(old(View()), operation, modelId, failure, generation, answer)
      ensures NumbersDoNotFall(old(View()), View()) && ShownIsListed(old(View()), View(), generation, answer)
          && PollIsCurrent(View(), poll)
      ensures old(disposed) || operation != old(operationGeneration) ==>
                && poll == None
                && View() == old(View()).(
                     ui := if !old(disposed) && generation == old(refreshGeneration) && answer.Err?
                           then old(state).(loading := false, refreshing := false, error := Some(answer.error))
                           else old(state))
      ensures !old(disposed) && operation == old(operationGeneration) && generation == old(refreshGeneration) ==>
                answer.Ok? ==>
                exists reconciled: Fields ::
                  && ReconciledTo(
                       old(View()).(ui := old(state).(models := answer.value)), answer.value, reconciled, poll)
                  && View() == if failure.Some? && !OperationWasCancelled(answer.value, modelId)
                                  && reconciled.operationGeneration == operation
                               then reconciled.(ui := reconciled.ui.(error := failure)) else reconciled
      ensures !old(disposed) && operation == old(operationGeneration) && generation == old(refreshGeneration) ==>
                answer.Err? ==>
                && poll == None
                && View() == old(View()).(ui := old(state).(
                     loading := false, refreshing := false,
                     error := if failure.Some? then failure else Some(answer.error)))
      ensures !old(disposed) && operation == old(operationGeneration) && generation != old(refreshGeneration) ==>
                && poll == None
                && View() == old(View()).(ui := old(state).(
                     error := if failure.Some? then failure else old(state.error)))
    {
      poll := None;
      var models := AnswerFetch(generation, answer);
      var current := IsOperationCurrent(operation);
      if models.Some? && current {
        state := state.(models := models.value);
        poll := ReconcilePending(models.value);
      }
      var cancelled := false;
      if models.Some? {
        var model := FindModel(models.value, modelId);
        cancelled := model.Some? && model.value.download == Some("cancelled");
      }
      current := IsOperationCurrent(operation);
      if failure.Some? && !cancelled && current {
        state := state.(error := failure);
      }
      OperationFinishedIs(old(View()), operation, modelId, failure, generation, answer, View(), poll);
    }

    method RestorePersistedOperation(models: seq<Model>) returns (poll: Option<Poll>)
      modifies this
      ensures (View(), poll) == Restored(old(View()), models)
      ensures RestoredTo(old(View()), models, View(), poll)
      ensures NumbersDoNotFall(old(View()), View()) && state.models == old(state.models)
      ensures !disposed ==> PollIsCurrent(View(), poll)
    {
      RestoredIs(View(), models);
      var active := FindActive(models);
      if active.None? {
        return None;
      }
      operationGeneration := operationGeneration + 1;
      state := state.(pendingModelId := Some(active.value.modelId), cancelRequestedDownloadId := None);
      return Some(Poll(active.value.modelId, operationGeneration));
    }

    method PollAnswer(poll: Poll, generation: nat, answer: ListAnswer) returns (again: bool)
      modifies this
      ensures (View(), again) == PollAnswered(old(View()), poll, generation, answer)
      ensures NumbersDoNotFall(old(View()), View()) && ShownIsListed(old(View()), View(), generation, answer)
      ensures again ==> old(OperationCurrent(View(), poll.generation))
      ensures View() == old(View()).(ui := state)
      ensures var newest := !disposed && generation == refreshGeneration;
              var looping := !disposed && poll.generation == operationGeneration;
              if newest && answer.Err? then
                && state == old(state).(loading := false, refreshing := false, error := Some(answer.error))
                && again == looping
              else if !newest || !looping then state == old(state) && again == looping
              else
                && again == StillUnderway(answer.value, poll.modelId)
                && state == if again then old(state).(models := answer.value)
                            else old(state).(models := answer.value, pendingModelId := None,
                                             cancelRequestedDownloadId := None)
      ensures state.models != old(state.models) && again ==> HasActiveDownload(state.models, poll.modelId)
    {
      var models := AnswerFetch(generation, answer);
      var current := IsOperationCurrent(poll.generation);
      if !current {
        return false;
      }
      if models.None? {
        return true;
      }
      ActiveMeansUnderway(models.value, poll.modelId);
      state := state.(models := models.value);
      if !HasActiveDownload(models.value, poll.modelId) {
        state := state.(pendingModelId := None, cancelRequestedDownloadId := None);
        return false;
      }
      return true;
    }

    method ReconcilePending(models: seq<Model>) returns (poll: Option<Poll>)
      modifies this
      ensures (View(), poll) == Reconciled(old(View()), models)
      ensures ReconciledTo(old(View()), models, View(), poll)
      ensures NumbersDoNotFall(old(View()), View()) && state.models == old(state.models)
      ensures !disposed ==> PollIsCurrent(View(), poll)
    {
      ReconciledIs(View(), models);
      if !Truthy(state.pendingModelId) {
        poll := RestorePersistedOperation(models);
        return;
      }
      if !HasActiveDownload(models, state.pendingModelId.value) {
        state := state.(pendingModelId := None, cancelRequestedDownloadId := None);
      }
      return None;
    }
  }
}
