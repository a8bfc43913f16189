/** What the saves of a run of the microphone controller leave in storage: the whole record, and that they get there. */
module MicrophoneStored {
  import opened MachineInts
  import opened MicrophoneDevices
  import opened MicrophoneRuns

  /** The record with this selection in it. */
  function Naming(before: Config, selection: Selection): Config {
    before.(microphoneUid := selection.uid, microphoneName := selection.name)
  }

  /** The record with the last selection whose save succeeded, else as it was. */
  function LastStored(selects: seq<SelectRun>, before: Config): Config {
    if selects == [] then before
    else
      var last := selects[|selects| - 1];
      if last.stage.Fulfilled? then Naming(before, last.selection) else LastStored(selects[..|selects| - 1], before)
  }

  predicate SavesName(w: World, before: Config) {
    forall k :: 0 <= k < |w.selects| && w.selects[k].stage.Saving? ==>
      w.selects[k].stage.config == Naming(before, w.selects[k].selection)
  }

  predicate StoredIs(w: World, before: Config) {
    w.stored == LastStored(w.selects, before) && SavesName(w, before)
  }

  lemma {:induction false} OnlyTheMicrophoneChanges(selects: seq<SelectRun>, before: Config)
    ensures forall selection :: Naming(LastStored(selects, before), selection) == Naming(before, selection)
  {
    if selects != [] {
      OnlyTheMicrophoneChanges(selects[..|selects| - 1], before);
    }
  }

  lemma {:induction false} LastStoredIs(selects: seq<SelectRun>, before: Config, k: nat)
    requires k < |selects| && selects[k].stage.Fulfilled?
    requires forall l :: k < l < |selects| ==> !selects[l].stage.Fulfilled?
    ensures LastStored(selects, before) == Naming(before, selects[k].selection)
  {
    if k < |selects| - 1 {
      LastStoredIs(selects[..|selects| - 1], before, k);
    }
  }

  lemma {:induction false} SameSavesSameRecord(selects: seq<SelectRun>, others: seq<SelectRun>, before: Config)
    requires |selects| == |others|
    requires forall k :: 0 <= k < |selects| ==>
        && others[k].selection == selects[k].selection
        && others[k].stage.Fulfilled? == selects[k].stage.Fulfilled?
    ensures LastStored(others, before) == LastStored(selects, before)
  {
    if selects != [] {
      SameSavesSameRecord(selects[..|selects| - 1], others[..|others| - 1], before);
    }
  }

  lemma LandingStores(w: World, k: nat, before: Config)
    requires Enabled(w, SaveSettles(k, Ok(()))) && SavesInOrder(w) && StoredIs(w, before)
    ensures StoredIs(DoSaveSettles(w, k, Ok(())), before)
  {
    var t := DoSaveSettles(w, k, Ok(()));
    forall l | k < l < |t.selects|
      ensures !t.selects[l].stage.Fulfilled?
    {
      if w.selects[l].stage.Fulfilled? {
        SettledBelow(w, l);
      }
    }
    LastStoredIs(t.selects, before, k);
  }

  lemma OthersStoreNothing(w: World, a: Action, before: Config)
    requires Enabled(w, a) && StoredIs(w, before) && !a.ForeignSave?
    requires !(a.SaveSettles? && a.outcome.Ok?) && !(a.Select? && SelectAccepted(w.f, a.uid))
    ensures StoredIs(Step(w, a), before)
  {
    StorageUntouched(w, a);
    SameSavesSameRecord(w.selects, Step(w, a).selects, before);
    OnlyTheMicrophoneChanges(w.selects, before);
  }

  lemma StepKeepsRecord(w: World, a: Action, before: Config)
    requires Enabled(w, a) && SavesInOrder(w) && StoredIs(w, before) && !a.ForeignSave?
    ensures StoredIs(Step(w, a), before)
  {
    if a.SaveSettles? && a.outcome.Ok? {
      LandingStores(w, a.k, before);
    } else if a.Select? && SelectAccepted(w.f, a.uid) {
      assert Step(w, a).selects[..|w.selects|] == w.selects;
    } else {
      OthersStoreNothing(w, a, before);
    }
  }

  lemma {:induction false} RunsKeepRecord(w: World, actions: seq<Action>, before: Config)
    requires Inv(w) && StoredIs(w, before) && Feasible(w, actions) && OnlyWriter(actions)
    ensures StoredIs(After(w, actions), before)
    decreases |actions|
  {
    if actions != [] {
      StepKeepsInv(w, actions[0]);
      StepKeepsRecord(w, actions[0], before);
      assert OnlyWriter(actions[1..]);
      RunsKeepRecord(Step(w, actions[0]), actions[1..], before);
    }
  }

  /**
   * With this controller the only writer, the stored record is the one it found with uid and name of the last selection
   * whose save succeeded, and nothing else of it changed.
   */
  lemma StorageIsTheLastSaved(stored: Config, actions: seq<Action>)
    requires Feasible(Initial(stored), actions) && OnlyWriter(actions)
    ensures After(Initial(stored), actions).stored == LastStored(After(Initial(stored), actions).selects, stored)
  {
    RunsKeepRecord(Initial(stored), actions, stored);
  }

  /** In every run the next save can begin as soon as all before it have settled, and then go on to settle. */
  lemma SavesCanGoOn(stored: Config, actions: seq<Action>, k: nat, outcome: Result<(), string>)
    requires Feasible(Initial(stored), actions) && k < |After(Initial(stored), actions).selects|
    requires var w := After(Initial(stored), actions); w.selects[k].stage == Queued && SettledUpTo(w, k)
    ensures var w := After(Initial(stored), actions);
            && Enabled(w, SaveStarts(k))
            && Enabled(Step(w, SaveStarts(k)), SaveReads(k, None))
            && Enabled(Step(Step(w, SaveStarts(k)), SaveReads(k, None)), SaveSettles(k, outcome))
  {
    RunsKeepInv(Initial(stored), actions);
  }

  /** And a start that waits can read as soon as every selection made before it has settled. */
  lemma StartsCanGoOn(stored: Config, actions: seq<Action>, k: nat)
    requires Feasible(Initial(stored), actions) && OnlyWriter(actions) && k < |After(Initial(stored), actions).starts|
    requires var w := After(Initial(stored), actions);
             w.starts[k].stage == Waiting && SettledUpTo(w, w.starts[k].known)
    ensures Enabled(After(Initial(stored), actions), StartReads(k, true))
  {
    var w := After(Initial(stored), actions);
    RunsKeepStarts(Initial(stored), actions, stored.microphoneUid);
    assert StartReadLastSaved(w, w.starts[k], stored.microphoneUid);
  }
}
