/** commands.rs: the model operations in progress, each holding one cancellation flag under all its model ids. */
module OperationRegistry {
  import opened MachineInts

  const DEFAULT_VAD_MODEL_ID := "silero-vad-2024-01-17"

  predicate Free<F>(registry: map<string, F>, ids: seq<string>) {
    forall i :: 0 <= i < |ids| ==> ids[i] !in registry
  }

  function Registered<F>(registry: map<string, F>, ids: seq<string>, flag: F): map<string, F> {
    if ids == [] then registry else Registered(registry, ids[..|ids| - 1], flag)[ids[|ids| - 1] := flag]
  }

  /** What a registration's drop leaves: its ids go where they still lead to its own flag. */
  function Dropped<F(==)>(registry: map<string, F>, ids: seq<string>, flag: F): map<string, F> {
    map id | id in registry && !(id in ids && registry[id] == flag) :: registry[id]
  }

  /** The voice detector first, then the model, if the registry knows it. */
  function InstallIds(knownModels: set<string>, modelId: string): Result<seq<string>, string> {
    if modelId in knownModels then Ok([DEFAULT_VAD_MODEL_ID, modelId]) else Err("unknown ASR model")
  }

  datatype DownloadRecord = DownloadRecord(id: string, modelId: string, state: string, identityCurrent: bool)

  datatype Acknowledgement = Acknowledgement(downloadId: string, cancelRequested: bool)

  datatype CancelError = DownloadNotFound | StaleIdentity | NotActive

  predicate Finished(state: string) {
    state in ["succeeded", "failed", "cancelled"]
  }

  predicate FirstWithId(records: seq<DownloadRecord>, id: string, i: nat) {
    i < |records| && records[i].id == id && forall j :: 0 <= j < i ==> records[j].id != id
  }

  function FindRecord(records: seq<DownloadRecord>, id: string): (r: Option<DownloadRecord>)
    ensures r.Some? ==> exists i: nat :: FirstWithId(records, id, i) && r == Some(records[i])
    ensures r.None? <==> forall i :: 0 <= i < |records| ==> records[i].id != id
  {
    if records == [] then None
    else if records[0].id == id then Some(records[0])
    else
      assert forall i :: 0 < i < |records| ==> records[i] == records[1..][i - 1];
      var rest := FindRecord(records[1..], id);
      assert rest.Some? ==> exists i: nat :: FirstWithId(records, id, i) && rest == Some(records[i]) by {
        if i: nat :| FirstWithId(records[1..], id, i) && rest == Some(records[1..][i]) {
          assert FirstWithId(records, id, i + 1);
        }
      }
      rest
  }

  /** The model whose operation a cancellation request reaches, or the answer given without reaching one. */
  function CancelTarget(records: seq<DownloadRecord>, downloadId: string, active: set<string>)
    : Result<Option<string>, CancelError>
  {
    match FindRecord(records, downloadId)
    case None => Err(DownloadNotFound)
    case Some(record) =>
      if !record.identityCurrent then Err(StaleIdentity)
      else if Finished(record.state) then Ok(None)
      else if record.modelId !in active then Err(NotActive)
      else Ok(Some(record.modelId))
  }

  /** The first record with the id decides: a stale one first, then a finished one, then one nobody works on. */
  lemma CancelTargetIs(records: seq<DownloadRecord>, downloadId: string, active: set<string>)
    ensures CancelTarget(records, downloadId, active) == Err(DownloadNotFound)
        <==> forall i :: 0 <= i < |records| ==> records[i].id != downloadId
    ensures forall i: nat :: FirstWithId(records, downloadId, i) ==>
              var record, target := records[i], CancelTarget(records, downloadId, active);
              && (target == Err(StaleIdentity) <==> !record.identityCurrent)
              && (target == Ok(None) <==>
                    record.identityCurrent && record.state in {"succeeded", "failed", "cancelled"})
              && (target == Err(NotActive) <==>
                    && record.identityCurrent && record.state !in {"succeeded", "failed", "cancelled"}
                    && record.modelId !in active)
              && (target.Ok? && target.value.Some? ==> target.value.value == record.modelId)
  {
    forall i: nat, j: nat | FirstWithId(records, downloadId, i) && FirstWithId(records, downloadId, j)
      ensures i == j
    {
    }
  }

  // The registry

  class CancelFlag {
    var raised: bool

    constructor ()
      ensures !raised
    {
      raised := false;
    }
  }

  class ModelOperations {
    var registry: map<string, CancelFlag>

    constructor ()
      ensures registry == map[]
    {
      registry := map[];
    }

    /** register_model_operation: all of the ids or none. */
    method Register(ids: seq<string>) returns (r: Result<CancelFlag, string>)
      modifies this
      ensures r.Ok? <==> Free(old(registry), ids)
      ensures r.Ok? <==> forall id :: id in ids ==> id !in old(registry)
      ensures r.Ok? ==> fresh(r.value) && !r.value.raised && registry == Registered(old(registry), ids, r.value)
      ensures r.Ok? ==>
                && (forall id :: id in registry <==> id in old(registry) || id in ids)
                && (forall id :: id in registry ==>
                      registry[id] == if id in ids then r.value else old(registry)[id])
      ensures r.Err? ==> registry == old(registry)
    {
      var flag := new CancelFlag();
      for i := 0 to |ids|
        invariant !flag.raised && registry == old(registry)
        invariant forall k :: 0 <= k < i ==> ids[k] !in registry
      {
        if ids[i] in registry {
          return Err("model operation already active");
        }
      }
      for i := 0 to |ids|
        invariant !flag.raised && registry == Registered(old(registry), ids[..i], flag)
      {
        assert ids[..i + 1][..i] == ids[..i];
        registry := registry[ids[i] := flag];
      }
      assert ids[..|ids|] == ids;
      RegisteredIs(old(registry), ids, flag);
      return Ok(flag);
    }

    /** The registration's drop: its own entries, told by reference. */
    method DropRegistration(ids: seq<string>, flag: CancelFlag)
      modifies this
      ensures registry == Dropped(old(registry), ids, flag)
      ensures forall id :: id in registry <==> id in old(registry) && !(id in ids && old(registry)[id] == flag)
      ensures forall id :: id in registry ==> registry[id] == old(registry)[id]
    {
      for i := 0 to |ids|
        invariant registry == Dropped(old(registry), ids[..i], flag)
      {
        assert ids[..i + 1] == ids[..i] + [ids[i]];
        if ids[i] in registry && registry[ids[i]] == flag {
          registry := registry - {ids[i]};
        }
      }
      assert ids[..|ids|] == ids;
    }

    /** The part under the lock: the flag registered for the download's model, if there is one to raise. */
    method LookUp(records: seq<DownloadRecord>, downloadId: string) returns (r: Result<Option<CancelFlag>, CancelError>)
      ensures match CancelTarget(records, downloadId, registry.Keys)
              case Err(error) => r == Err(error)
              case Ok(None) => r == Ok(None)
              case Ok(Some(id)) => id in registry && r == Ok(Some(registry[id]))
      ensures r == Err(DownloadNotFound) <==> forall i :: 0 <= i < |records| ==> records[i].id != downloadId
      ensures forall i: nat :: FirstWithId(records, downloadId, i) ==>
                var record := records[i];
                r == if !record.identityCurrent then Err(StaleIdentity)
                     else if record.state in {"succeeded", "failed", "cancelled"} then Ok(None)
                     else if record.modelId !in registry then Err(NotActive)
                     else Ok(Some(registry[record.modelId]))
    {
      CancelTargetIs(records, downloadId, registry.Keys);
      var record := FindRecord(records, downloadId);
      if record.None? {
        return Err(DownloadNotFound);
      }
      if !record.value.identityCurrent {
        return Err(StaleIdentity);
      }
      if Finished(record.value.state) {
        return Ok(None);
      }
      if record.value.modelId !in registry {
        return Err(NotActive);
      }
      return Ok(Some(registry[record.value.modelId]));
    }

    /** request_model_cancellation run without interruption: the flag found is raised, and no other. */
    method RequestCancellation(records: seq<DownloadRecord>, downloadId: string)
      returns (r: Result<Acknowledgement, CancelError>)
      modifies registry.Values
      ensures match CancelTarget(records, downloadId, old(registry.Keys))
              case Err(error) => r == Err(error)
              case Ok(target) => r == Ok(Acknowledgement(downloadId, target.Some?))
      ensures registry == old(registry)
      ensures forall flag :: flag in registry.Values ==>
                flag.raised == (old(flag.raised) || exists id ::
                  id in registry && registry[id] == flag
                    && CancelTarget(records, downloadId, registry.Keys) == Ok(Some(id)))
      ensures forall i: nat :: FirstWithId(records, downloadId, i) ==>
                var record := records[i];
                var finished := record.state in {"succeeded", "failed", "cancelled"};
                && r == (if !record.identityCurrent then Err(StaleIdentity)
                         else if finished then Ok(Acknowledgement(downloadId, false))
                         else if record.modelId !in registry then Err(NotActive)
                         else Ok(Acknowledgement(downloadId, true)))
                && (record.identityCurrent && !finished && record.modelId in registry ==>
                      registry[record.modelId].raised)
    {
      var found := LookUp(records, downloadId);
      if found.Err? {
        return Err(found.error);
      }
      if found.value.Some? {
        found.value.value.raised := true;
      }
      return Ok(Acknowledgement(downloadId, found.value.Some?));
    }
  }

  lemma {:induction false} RegisteredIs<F>(registry: map<string, F>, ids: seq<string>, flag: F)
    ensures forall id :: id in Registered(registry, ids, flag) <==> id in registry || id in ids
    ensures forall id :: id in ids ==> Registered(registry, ids, flag)[id] == flag
    ensures forall id :: id in registry && id !in ids ==> Registered(registry, ids, flag)[id] == registry[id]
  {
    if ids != [] {
      RegisteredIs(registry, ids[..|ids| - 1], flag);
      assert ids == ids[..|ids| - 1] + [ids[|ids| - 1]];
    }
  }

  /** Dropping right after registering leaves the registry as it was. */
  lemma DropUndoesRegister<F>(registry: map<string, F>, ids: seq<string>, flag: F)
    requires Free(registry, ids)
    ensures Dropped(Registered(registry, ids, flag), ids, flag) == registry
  {
    RegisteredIs(registry, ids, flag);
    assert forall i :: 0 <= i < |ids| ==> ids[i] !in registry;
  }

  // Runs

  /** An operation that registered; its number stands for its flag. */
  datatype Operation = Operation(ids: seq<string>, live: bool, raised: bool)

  /** A cancellation that has found an operation's flag and raises it only after giving the lock back. */
  datatype Lookup = Lookup(operation: nat, raised: bool)

  datatype World = World(registry: map<string, nat>, operations: seq<Operation>, lookups: seq<Lookup>)

  datatype Action =
    | Begin(ids: seq<string>)
    | End(operation: nat)
    | Find(records: seq<DownloadRecord>, downloadId: string)
    | Raise(lookup: nat)

  const EMPTY := World(map[], [], [])

  predicate Enabled(w: World, a: Action) {
    && (a.End? ==> a.operation < |w.operations| && w.operations[a.operation].live)
    && (a.Raise? ==>
         a.lookup < |w.lookups| && !w.lookups[a.lookup].raised && w.lookups[a.lookup].operation < |w.operations|)
  }

  function DoBegin(w: World, ids: seq<string>): World {
    if Free(w.registry, ids)
    then World(Registered<nat>(w.registry, ids, |w.operations|),
               w.operations + [Operation(ids, true, false)], w.lookups)
    else w
  }

  function DoEnd(w: World, k: nat): World
    requires k < |w.operations|
  {
    World(Dropped(w.registry, w.operations[k].ids, k), w.operations[k := w.operations[k].(live := false)], w.lookups)
  }

  function DoFind(w: World, records: seq<DownloadRecord>, downloadId: string): World {
    match CancelTarget(records, downloadId, w.registry.Keys)
    case Ok(Some(id)) => if id in w.registry then w.(lookups := w.lookups + [Lookup(w.registry[id], false)]) else w
    case _ => w
  }

  function DoRaise(w: World, i: nat): World
    requires i < |w.lookups| && w.lookups[i].operation < |w.operations|
  {
    var k := w.lookups[i].operation;
    w.(operations := w.operations[k := w.operations[k].(raised := true)], lookups := w.lookups[i := Lookup(k, true)])
  }

  function Step(w: World, a: Action): World
    requires Enabled(w, a)
  {
    match a
    case Begin(ids) => DoBegin(w, ids)
    case End(k) => DoEnd(w, k)
    case Find(records, downloadId) => DoFind(w, records, downloadId)
    case Raise(i) => DoRaise(w, i)
  }

  predicate Feasible(w: World, actions: seq<Action>)
    decreases |actions|
  {
    actions == [] || (Enabled(w, actions[0]) && Feasible(Step(w, actions[0]), actions[1..]))
  }

  function After(w: World, actions: seq<Action>): World
    requires Feasible(w, actions)
    decreases |actions|
  {
    if actions == [] then w else After(Step(w, actions[0]), actions[1..])
  }

  /** Every entry leads to a live operation on that id, and every id of a live operation leads to it. */
  predicate RegistryInStep(w: World) {
    && (forall id :: id in w.registry ==>
          w.registry[id] < |w.operations| && w.operations[w.registry[id]].live
            && id in w.operations[w.registry[id]].ids)
    && (forall k, id :: 0 <= k < |w.operations| && w.operations[k].live && id in w.operations[k].ids ==>
          id in w.registry && w.registry[id] == k)
  }

  predicate RaisedFor(w: World, k: nat) {
    exists i :: 0 <= i < |w.lookups| && w.lookups[i] == Lookup(k, true)
  }

  /** A flag is raised exactly if a cancellation that found it has gone on to raise it. */
  predicate FlagsAccounted(w: World) {
    && (forall i :: 0 <= i < |w.lookups| ==> w.lookups[i].operation < |w.operations|)
    && (forall k :: 0 <= k < |w.operations| ==> (w.operations[k].raised <==> RaisedFor(w, k)))
  }

  predicate Inv(w: World) {
    RegistryInStep(w) && FlagsAccounted(w)
  }

  lemma BeginKeepsRegistry(w: World, ids: seq<string>)
    requires RegistryInStep(w)
    ensures RegistryInStep(DoBegin(w, ids))
  {
    RegisteredIs<nat>(w.registry, ids, |w.operations|);
  }

  lemma BeginKeepsInv(w: World, ids: seq<string>)
    requires Inv(w)
    ensures Inv(DoBegin(w, ids))
  {
    BeginKeepsRegistry(w, ids);
    SameLookups(w, DoBegin(w, ids));
  }

  lemma EndKeepsInv(w: World, k: nat)
    requires Inv(w) && k < |w.operations|
    ensures Inv(DoEnd(w, k))
  {
    SameLookups(w, DoEnd(w, k));
  }

  /** Without a new cancellation every known flag stays accounted for, and new flags are lowered. */
  lemma SameLookups(w: World, t: World)
    requires FlagsAccounted(w) && t.lookups == w.lookups && |w.operations| <= |t.operations|
    requires forall k :: 0 <= k < |w.operations| ==> t.operations[k].raised == w.operations[k].raised
    requires forall k :: |w.operations| <= k < |t.operations| ==> !t.operations[k].raised
    ensures FlagsAccounted(t)
  {
    assert forall k :: RaisedFor(t, k) == RaisedFor(w, k);
  }

  lemma FindKeepsInv(w: World, records: seq<DownloadRecord>, downloadId: string)
    requires Inv(w)
    ensures Inv(DoFind(w, records, downloadId))
  {
    var t := DoFind(w, records, downloadId);
    forall k | 0 <= k < |w.operations|
      ensures RaisedFor(t, k) == RaisedFor(w, k)
    {
      if RaisedFor(w, k) {
        var i :| 0 <= i < |w.lookups| && w.lookups[i] == Lookup(k, true);
        assert t.lookups[i] == Lookup(k, true);
      }
    }
  }

  lemma RaiseKeepsInv(w: World, i: nat)
    requires Inv(w) && Enabled(w, Raise(i))
    ensures Inv(DoRaise(w, i))
  {
    var t := DoRaise(w, i);
    assert t.lookups[i] == Lookup(w.lookups[i].operation, true);
    forall k | 0 <= k < |w.operations| && k != w.lookups[i].operation
      ensures RaisedFor(t, k) == RaisedFor(w, k)
    {
      if RaisedFor(w, k) {
        var j :| 0 <= j < |w.lookups| && w.lookups[j] == Lookup(k, true);
        assert t.lookups[j] == Lookup(k, true);
      }
    }
  }

  lemma StepKeepsInv(w: World, a: Action)
    requires Inv(w) && Enabled(w, a)
    ensures Inv(Step(w, a))
  {
    match a {
      case Begin(ids) => BeginKeepsInv(w, ids);
      case End(k) => EndKeepsInv(w, k);
      case Find(records, downloadId) => FindKeepsInv(w, records, downloadId);
      case Raise(i) => RaiseKeepsInv(w, i);
    }
  }

  lemma {:induction false} RunsKeepInv(w: World, actions: seq<Action>)
    requires Inv(w) && Feasible(w, actions)
    ensures Inv(After(w, actions))
    decreases |actions|
  {
    if actions != [] {
      StepKeepsInv(w, actions[0]);
      RunsKeepInv(Step(w, actions[0]), actions[1..]);
    }
  }

  /** Operations and cancellations keep their numbers, ids and the flag they found. */
  predicate Grown(w: World, t: World) {
    && |w.operations| <= |t.operations| && |w.lookups| <= |t.lookups|
    && (forall k :: 0 <= k < |w.operations| ==> t.operations[k].ids == w.operations[k].ids)
    && (forall i :: 0 <= i < |w.lookups| ==> t.lookups[i].operation == w.lookups[i].operation)
  }

  lemma {:induction false} RunsGrow(w: World, actions: seq<Action>)
    requires Feasible(w, actions)
    ensures Grown(w, After(w, actions))
    decreases |actions|
  {
    if actions != [] {
      assert Grown(w, Step(w, actions[0]));
      RunsGrow(Step(w, actions[0]), actions[1..]);
    }
  }

  // Theorems

  /** Over all runs no two live operations share a model id. */
  lemma LiveOperationsAreDisjoint(actions: seq<Action>, j: nat, k: nat, id: string)
    requires Feasible(EMPTY, actions) && j < |After(EMPTY, actions).operations|
        && k < |After(EMPTY, actions).operations|
    requires var ops := After(EMPTY, actions).operations;
             ops[j].live && ops[k].live && id in ops[j].ids && id in ops[k].ids
    ensures j == k
  {
    RunsKeepInv(EMPTY, actions);
    var w := After(EMPTY, actions);
    assert w.registry[id] == j && w.registry[id] == k;
  }

  /** Ending an operation takes away exactly its own ids, so exactly those can be registered again. */
  lemma EndFreesExactlyItsIds(actions: seq<Action>, k: nat, id: string)
    requires Feasible(EMPTY, actions) && Enabled(After(EMPTY, actions), End(k))
    ensures var w := After(EMPTY, actions);
            var t := Step(w, End(k));
            && (id in t.registry <==> id in w.registry && id !in w.operations[k].ids)
            && (id in t.registry ==> t.registry[id] == w.registry[id])
  {
    RunsKeepInv(EMPTY, actions);
  }

  /** A cancellation finds the one operation that is live on the model at that moment, and changes no flag yet. */
  lemma FindsTheLiveOperation(actions: seq<Action>, records: seq<DownloadRecord>, downloadId: string, id: string)
    requires Feasible(EMPTY, actions)
    requires CancelTarget(records, downloadId, After(EMPTY, actions).registry.Keys) == Ok(Some(id))
    ensures var w := After(EMPTY, actions);
            var t := Step(w, Find(records, downloadId));
            && t.operations == w.operations && t.registry == w.registry && |t.lookups| == |w.lookups| + 1
            && var found := t.lookups[|w.lookups|];
               && !found.raised
               && forall k :: 0 <= k < |w.operations| ==>
                    (k == found.operation <==> w.operations[k].live && id in w.operations[k].ids)
  {
    RunsKeepInv(EMPTY, actions);
    var w := After(EMPTY, actions);
    assert id in w.registry && w.operations[w.registry[id]].live;
  }

  /**
   * Whatever happens between the two, even the end of that operation and a new one on the same model, the flag raised
   * is that of the operation found, and no other.
   */
  lemma RaisesTheFlagItFound(actions: seq<Action>, i: nat, later: seq<Action>)
    requires Feasible(EMPTY, actions) && i < |After(EMPTY, actions).lookups|
    requires Feasible(After(EMPTY, actions), later) && Enabled(After(After(EMPTY, actions), later), Raise(i))
    ensures var found := After(EMPTY, actions).lookups[i].operation;
            var u := After(After(EMPTY, actions), later);
            var v := Step(u, Raise(i));
            && found < |After(EMPTY, actions).operations| <= |u.operations| == |v.operations|
            && v.registry == u.registry
            && u.operations[found].ids == After(EMPTY, actions).operations[found].ids
            && forall k :: 0 <= k < |u.operations| ==>
                 v.operations[k] == if k == found then u.operations[k].(raised := true) else u.operations[k]
  {
    RunsKeepInv(EMPTY, actions);
    RunsGrow(After(EMPTY, actions), later);
  }

  /** Over all runs a flag is raised if and only if a cancellation found its operation and has raised it. */
  lemma RaisedExactlyByItsCancellations(actions: seq<Action>, k: nat)
    requires Feasible(EMPTY, actions) && k < |After(EMPTY, actions).operations|
    ensures After(EMPTY, actions).operations[k].raised <==> RaisedFor(After(EMPTY, actions), k)
  {
    RunsKeepInv(EMPTY, actions);
  }

  /** Exactly the known models can be installed, and an install that begins holds its model and the voice detector. */
  lemma KnownModelsCanBeInstalled(w: World, knownModels: set<string>, modelId: string)
    ensures InstallIds(knownModels, modelId).Ok? <==> modelId in knownModels
    ensures modelId in knownModels && modelId !in w.registry && "silero-vad-2024-01-17" !in w.registry ==>
              var t := Step(w, Begin(InstallIds(knownModels, modelId).value));
              && t.registry == w.registry["silero-vad-2024-01-17" := |w.operations|][modelId := |w.operations|]
              && |t.operations| == |w.operations| + 1 && t.operations[|w.operations|].live
    ensures modelId in knownModels && (modelId in w.registry || "silero-vad-2024-01-17" in w.registry) ==>
              Step(w, Begin(InstallIds(knownModels, modelId).value)) == w
  {
    if modelId in knownModels {
      var ids := InstallIds(knownModels, modelId).value;
      RegisteredIs<nat>(w.registry, ids, |w.operations|);
      assert ids[0] in ids && ids[1] in ids;
      assert Registered<nat>(w.registry, ids, |w.operations|)
          == w.registry["silero-vad-2024-01-17" := |w.operations|][modelId := |w.operations|];
    }
  }

  /** What the cancel button of a running install does: the record of either of its models leads to its flag. */
  lemma InstallsCanBeCancelled(
      actions: seq<Action>, k: nat, knownModels: set<string>, modelId: string, records: seq<DownloadRecord>, i: nat)
    requires Feasible(EMPTY, actions) && k < |After(EMPTY, actions).operations|
    requires var operation := After(EMPTY, actions).operations[k];
             operation.live && InstallIds(knownModels, modelId) == Ok(operation.ids)
    requires i < |records| && FirstWithId(records, records[i].id, i) && records[i].identityCurrent
    requires records[i].state !in {"succeeded", "failed", "cancelled"}
    requires records[i].modelId == modelId || records[i].modelId == "silero-vad-2024-01-17"
    ensures var w := After(EMPTY, actions);
            Step(w, Find(records, records[i].id)) == w.(lookups := w.lookups + [Lookup(k, false)])
  {
    RunsKeepInv(EMPTY, actions);
    var w := After(EMPTY, actions);
    var ids := w.operations[k].ids;
    assert ids[0] in ids && ids[1] in ids;
    CancelTargetIs(records, records[i].id, w.registry.Keys);
    assert records[i].modelId in w.registry && w.registry[records[i].modelId] == k;
  }

  predicate IsInstall(operation: Operation, knownModels: set<string>) {
    exists modelId :: modelId in knownModels && InstallIds(knownModels, modelId) == Ok(operation.ids)
  }

  /** Since every install also installs the voice detector, at most one is live at a time. */
  lemma OneInstallAtATime(actions: seq<Action>, knownModels: set<string>, j: nat, k: nat)
    requires Feasible(EMPTY, actions) && j < |After(EMPTY, actions).operations|
        && k < |After(EMPTY, actions).operations|
    requires var ops := After(EMPTY, actions).operations;
             ops[j].live && ops[k].live && IsInstall(ops[j], knownModels) && IsInstall(ops[k], knownModels)
    ensures j == k
  {
    var ops := After(EMPTY, actions).operations;
    assert ops[j].ids[0] == DEFAULT_VAD_MODEL_ID && ops[k].ids[0] == DEFAULT_VAD_MODEL_ID;
    LiveOperationsAreDisjoint(actions, j, k, DEFAULT_VAD_MODEL_ID);
  }
}
