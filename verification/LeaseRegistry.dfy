/** asr/model_manager.rs: how many executions use each installed model, and the reservation of a deletion. */
module LeaseRegistry {
  import opened MachineInts

  type Counts = map<string, usize>

  /** usize::MAX in place of a count marks a reserved deletion. */
  const DELETE_RESERVED: usize := U64_MAX

  datatype LeaseError = DeletionReserved | LeaseOverflow | LeaseActive | CatalogRefused

  predicate AcquireGranted(counts: Counts, modelId: string) {
    modelId in counts ==> counts[modelId] != DELETE_RESERVED
  }

  function Acquired(counts: Counts, modelId: string): Counts {
    if !AcquireGranted(counts, modelId) then counts
    else if modelId in counts then counts[modelId := counts[modelId] + 1]
    else counts[modelId := 1]
  }

  /** The guard's drop: the last one takes the entry away. */
  function Released(counts: Counts, modelId: string): Counts {
    if modelId !in counts then counts
    else if counts[modelId] <= 1 then counts - {modelId}
    else counts[modelId := counts[modelId] - 1]
  }

  predicate DeleteAllowed(counts: Counts, modelId: string) {
    modelId in counts ==> counts[modelId] == 0
  }

  function Unreserved(counts: Counts, modelId: string): Counts {
    if modelId in counts && counts[modelId] == DELETE_RESERVED then counts - {modelId} else counts
  }

  // The registry

  class ExecutionLeases {
    var counts: Counts

    constructor ()
      ensures counts == map[]
    {
      counts := map[];
    }

    /** acquire_execution_lease; the overflow error can never be the answer. */
    method Acquire(modelId: string) returns (r: Result<(), LeaseError>)
      modifies this
      ensures r == if AcquireGranted(old(counts), modelId) then Ok(()) else Err(DeletionReserved)
      ensures counts == Acquired(old(counts), modelId)
      ensures var held := if modelId in old(counts) then old(counts)[modelId] else 0;
              if held == U64_MAX then r == Err(DeletionReserved) && counts == old(counts)
              else r == Ok(()) && counts == old(counts)[modelId := held + 1]
    {
      if modelId in counts {
        if counts[modelId] == DELETE_RESERVED {
          return Err(DeletionReserved);
        }
        var count := CheckedAdd(counts[modelId], 1);
        assert count.Some?;
        counts := counts[modelId := count.value];
      } else {
        counts := counts[modelId := 1];
      }
      return Ok(());
    }

    method DropLease(modelId: string)
      requires modelId in counts ==> counts[modelId] > 0
      modifies this
      ensures counts == Released(old(counts), modelId)
      ensures counts == if modelId !in old(counts) then old(counts)
                        else if old(counts)[modelId] == 1 then old(counts) - {modelId}
                        else old(counts)[modelId := old(counts)[modelId] - 1]
    {
      if modelId in counts {
        counts := counts[modelId := counts[modelId] - 1];
        if counts[modelId] == 0 {
          counts := counts - {modelId};
        }
      }
    }

    /** The start of a deletion: `catalogAllows` is whether the catalog has no running job on the model. */
    method ReserveDelete(modelId: string, catalogAllows: bool) returns (r: Result<(), LeaseError>)
      modifies this
      ensures r == if modelId in old(counts) && old(counts)[modelId] != 0 then Err(LeaseActive)
                   else if !catalogAllows then Err(CatalogRefused) else Ok(())
      ensures r.Err? ==> (r.error == LeaseActive <==> !DeleteAllowed(old(counts), modelId))
      ensures counts == if r.Ok? then old(counts)[modelId := U64_MAX] else old(counts)
    {
      if modelId in counts && counts[modelId] != 0 {
        return Err(LeaseActive);
      }
      if !catalogAllows {
        return Err(CatalogRefused);
      }
      counts := counts[modelId := DELETE_RESERVED];
      return Ok(());
    }

    method DropReservation(modelId: string)
      modifies this
      ensures counts == Unreserved(old(counts), modelId)
      ensures counts == if modelId in old(counts) && old(counts)[modelId] == U64_MAX then old(counts) - {modelId}
                        else old(counts)
    {
      if modelId in counts && counts[modelId] == DELETE_RESERVED {
        counts := counts - {modelId};
      }
    }
  }

  // Runs

  /** The registry beside the guards alive: one per execution, and at most one per deletion. */
  datatype World = World(counts: Counts, leases: multiset<string>, deletions: multiset<string>)

  datatype Action =
    | AcquireLease(id: string)
    | DropGuard(id: string)
    | BeginDelete(id: string, catalogAllows: bool)
    | EndDelete(id: string)

  const EMPTY := World(map[], multiset{}, multiset{})

  predicate Enabled(w: World, a: Action) {
    match a
    case DropGuard(id) => id in w.leases
    case EndDelete(id) => id in w.deletions
    case _ => true
  }

  /** The count is that of the live guards; without any, and without a deletion, there is no entry. */
  predicate CountsGuards(w: World, id: string) {
    && w.deletions[id] <= 1
    && if w.deletions[id] == 1 then w.leases[id] == 0 && id in w.counts && w.counts[id] == DELETE_RESERVED
       else if w.leases[id] == 0 then id !in w.counts
       else id in w.counts && w.counts[id] == w.leases[id]
  }

  ghost predicate Inv(w: World) {
    forall id :: CountsGuards(w, id)
  }

  function Step(w: World, a: Action): World
    requires Enabled(w, a)
  {
    match a
    case AcquireLease(id) =>
      if AcquireGranted(w.counts, id)
      then w.(counts := Acquired(w.counts, id), leases := w.leases + multiset{id})
      else w
    case DropGuard(id) => w.(counts := Released(w.counts, id), leases := w.leases - multiset{id})
    case BeginDelete(id, catalogAllows) =>
      if DeleteAllowed(w.counts, id) && catalogAllows
      then w.(counts := w.counts[id := DELETE_RESERVED], deletions := w.deletions + multiset{id}) else w
    case EndDelete(id) => w.(counts := Unreserved(w.counts, id), deletions := w.deletions - multiset{id})
  }

  lemma StepKeepsInv(w: World, a: Action)
    requires Inv(w) && Enabled(w, a)
    ensures Inv(Step(w, a))
  {
    forall id
      ensures CountsGuards(Step(w, a), id)
    {
      assert CountsGuards(w, id);
    }
  }

  predicate Feasible(w: World, actions: seq<Action>)
    decreases |actions|
  {
    actions == [] || (Enabled(w, actions[0]) && Feasible(Step(w, actions[0]), actions[1..]))
  }

  function After(w: World, actions: seq<Action>): World
    requires Feasible(w, actions)
    decreases |actions|
  {
    if actions == [] then w else After(Step(w, actions[0]), actions[1..])
  }

  /**
   * Over all runs the count of a model is exactly its live execution guards, is gone when there are none, and
   * no guard is alive during a deletion.
   */
  lemma {:induction false} CountsAreLiveGuards(w: World, actions: seq<Action>, id: string)
    requires Inv(w) && Feasible(w, actions)
    ensures CountsGuards(After(w, actions), id)
    decreases |actions|
  {
    if actions == [] {
      assert CountsGuards(w, id);
    } else {
      StepKeepsInv(w, actions[0]);
      CountsAreLiveGuards(Step(w, actions[0]), actions[1..], id);
    }
  }

  /** So it is in every registry that starts empty. */
  lemma RegistriesCountTheirGuards(actions: seq<Action>)
    requires Feasible(EMPTY, actions)
    ensures Inv(After(EMPTY, actions))
  {
    forall id
      ensures CountsGuards(After(EMPTY, actions), id)
    {
      CountsAreLiveGuards(EMPTY, actions, id);
    }
  }

  /** The reserved value stands for a deletion exactly as long as live leases stay below it. */
  lemma ReservedMeansDeletingExactly(w: World, id: string)
    requires Inv(w)
    ensures w.leases[id] <= U64_MAX
    ensures (id in w.counts && w.counts[id] == DELETE_RESERVED <==> id in w.deletions) <==> w.leases[id] < U64_MAX
  {
    assert CountsGuards(w, id);
  }

  /** The acquire that reaches the reserved value is the one made over usize::MAX - 1 live leases, and no other. */
  lemma AcquireReachesTheReservedValueExactly(w: World, id: string)
    requires Inv(w) && AcquireGranted(w.counts, id)
    ensures Acquired(w.counts, id)[id] == DELETE_RESERVED <==> w.leases[id] == U64_MAX - 1
  {
    assert CountsGuards(w, id);
  }

  /** A deletion begins only on a model nobody executes, and then nobody can start until it ends. */
  lemma DeletionExcludesLeases(w: World, id: string, catalogAllows: bool)
    requires Inv(w)
    ensures var t := Step(w, BeginDelete(id, catalogAllows));
            && (t != w <==> catalogAllows && w.leases[id] == 0 && id !in w.deletions)
            && (t != w ==> Step(t, AcquireLease(id)) == t && Step(t, EndDelete(id)) == w)
  {
    assert CountsGuards(w, id);
    var t := Step(w, BeginDelete(id, catalogAllows));
    assert (w.deletions + multiset{id})[id] == w.deletions[id] + 1;
    if t != w {
      assert Step(t, EndDelete(id)).counts == w.counts;
      assert Step(t, EndDelete(id)).deletions == w.deletions;
    }
  }
}
