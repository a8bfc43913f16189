/** Which microphone the controller shows, against the one that storage names. */
module MicrophoneShown {
  import opened MachineInts
  import opened MicrophoneDevices
  import opened MicrophoneRuns

  function Newest(w: World): SelectRun
    requires w.selects != []
  {
    w.selects[|w.selects| - 1]
  }

  function Earlier(w: World): seq<SelectRun>
    requires w.selects != []
  {
    w.selects[..|w.selects| - 1]
  }

  /** The newest selection is on show, or what it replaced once it has failed and reported. */
  predicate ShownIsNewest(w: World) {
    w.selects != [] ==>
      w.f.ui.selectedUid == if Newest(w).stage.Rejected? && Newest(w).continued then Newest(w).selection.previousUid
                            else Newest(w).selection.uid
  }

  /** The step writes storage, or takes over a configuration that names another microphone than the one shown. */
  predicate FromOutside(w: World, a: Action)
    requires Enabled(w, a)
  {
    match a
    case ForeignSave(_) => true
    case LoadSettles(_, answer) => answer.Ok? && answer.value.0.microphoneUid != w.f.ui.selectedUid
    case Synchronize(config) => config.microphoneUid != w.f.ui.selectedUid
    case StartContinues(k) => w.starts[k].stage.config.microphoneUid != w.f.ui.selectedUid
    case _ => false
  }

  /** What choosing, saving and showing consist of; every other step leaves all of it alone. */
  lemma OthersLeaveTheChoice(w: World, a: Action)
    requires Enabled(w, a) && !FromOutside(w, a) && !AboutSelects(a)
    ensures SameSelects(w, Step(w, a)) && Step(w, a).stored == w.stored
    ensures Step(w, a).f.ui.selectedUid == w.f.ui.selectedUid
  {
    OthersLeaveSelects(w, a);
  }

  lemma SavingLeavesTheShown(w: World, a: Action)
    requires Enabled(w, a) && SavesInOrder(w) && (a.SaveStarts? || a.SaveReads? || a.SaveSettles?)
    ensures Step(w, a).f == w.f && |Step(w, a).selects| == |w.selects| && !w.selects[a.k].continued
    ensures forall k :: 0 <= k < |w.selects| && k != a.k ==> Step(w, a).selects[k] == w.selects[k]
    ensures Step(w, a).selects[a.k].selection == w.selects[a.k].selection
    ensures Step(w, a).selects[a.k].continued == w.selects[a.k].continued
  {
  }

  lemma SelectingKeepsShown(w: World, uid: Option<string>)
    requires ShownIsNewest(w)
    ensures ShownIsNewest(DoSelect(w, uid))
  {
  }

  lemma ContinuingKeepsShown(w: World, k: nat)
    requires Enabled(w, SelectContinues(k)) && SelectsNumbered(w) && ShownIsNewest(w)
    ensures ShownIsNewest(DoSelectContinues(w, k))
  {
    assert w.selects[k].selection.generation == k + 1;
  }

  lemma SavingKeepsShown(w: World, a: Action)
    requires Enabled(w, a) && SavesInOrder(w) && ShownIsNewest(w) && (a.SaveStarts? || a.SaveReads? || a.SaveSettles?)
    ensures ShownIsNewest(Step(w, a))
  {
    SavingLeavesTheShown(w, a);
  }

  lemma StepKeepsShown(w: World, a: Action)
    requires Enabled(w, a) && Inv(w) && ShownIsNewest(w) && !FromOutside(w, a)
    ensures ShownIsNewest(Step(w, a))
  {
    if a.SaveStarts? || a.SaveReads? || a.SaveSettles? {
      SavingKeepsShown(w, a);
    } else if a.Select? {
      SelectingKeepsShown(w, a.uid);
    } else if a.SelectContinues? {
      ContinuingKeepsShown(w, a.k);
    } else {
      OthersLeaveTheChoice(w, a);
    }
  }

  predicate OwnRun(w: World, actions: seq<Action>)
    requires Feasible(w, actions)
    decreases |actions|
  {
    actions == [] || (!FromOutside(w, actions[0]) && OwnRun(Step(w, actions[0]), actions[1..]))
  }

  lemma {:induction false} OwnRunsKeepShown(w: World, actions: seq<Action>, before: Option<string>)
    requires Inv(w) && ShownIsNewest(w) && StoredIsLastSaved(w, before) && Feasible(w, actions) && OwnRun(w, actions)
    ensures Inv(After(w, actions)) && ShownIsNewest(After(w, actions)) && StoredIsLastSaved(After(w, actions), before)
    decreases |actions|
  {
    if actions != [] {
      StepKeepsInv(w, actions[0]);
      StepKeepsShown(w, actions[0]);
      StepKeepsStored(w, actions[0], before);
      OwnRunsKeepShown(Step(w, actions[0]), actions[1..], before);
    }
  }

  /**
   * In every run that takes no other selection over from outside, once the newest selection has reported, the shown
   * microphone is the stored one if and only if that selection was saved, or replaced the last one that was.
   */
  lemma ShownIsStoredExactly(w: World, actions: seq<Action>, before: Option<string>)
    requires Inv(w) && ShownIsNewest(w) && StoredIsLastSaved(w, before) && Feasible(w, actions) && OwnRun(w, actions)
    requires After(w, actions).selects != [] && Newest(After(w, actions)).continued
    ensures var t := After(w, actions);
            t.f.ui.selectedUid == t.stored.microphoneUid <==>
              Newest(t).stage.Fulfilled? || Newest(t).selection.previousUid == LastSaved(Earlier(t), before)
  {
    OwnRunsKeepShown(w, actions, before);
    var t := After(w, actions);
    assert Settled(Newest(t).stage);
  }

  /** The same from the start, after any opening in which nothing was selected. */
  lemma ShownIsStoredExactlyFromTheStart(stored: Config, opening: seq<Action>, later: seq<Action>)
    requires Feasible(Initial(stored), opening) && After(Initial(stored), opening).selects == []
    requires Feasible(After(Initial(stored), opening), later) && OwnRun(After(Initial(stored), opening), later)
    requires After(After(Initial(stored), opening), later).selects != []
    requires Newest(After(After(Initial(stored), opening), later)).continued
    ensures var w := After(Initial(stored), opening);
            var t := After(w, later);
            t.f.ui.selectedUid == t.stored.microphoneUid <==>
              Newest(t).stage.Fulfilled?
                || Newest(t).selection.previousUid == LastSaved(Earlier(t), w.stored.microphoneUid)
  {
    RunsKeepInv(Initial(stored), opening);
    var w := After(Initial(stored), opening);
    ShownIsStoredExactly(w, later, w.stored.microphoneUid);
  }

  // The guard that makes them agree

  /** No selection is accepted while another is being saved. */
  predicate OneAtATime(w: World, a: Action) {
    a.Select? && SelectAccepted(w.f, a.uid) ==> !w.f.ui.saving
  }

  predicate GuardedRun(w: World, actions: seq<Action>)
    requires Feasible(w, actions)
    decreases |actions|
  {
    actions == [] ||
    (!FromOutside(w, actions[0]) && OneAtATime(w, actions[0]) && GuardedRun(Step(w, actions[0]), actions[1..]))
  }

  /** All selections but the newest have reported, and the newest replaced what was stored when it was made. */
  predicate OneOpenSelection(w: World, before: Option<string>) {
    w.selects != [] ==>
      && (forall k :: 0 <= k < |w.selects| - 1 ==> w.selects[k].continued)
      && Newest(w).selection.previousUid == LastSaved(Earlier(w), before)
  }

  /** While nothing is being saved the shown microphone is the stored one. */
  predicate ShownIsStored(w: World) {
    !w.f.ui.saving ==> w.f.ui.selectedUid == w.stored.microphoneUid
  }

  lemma SelectKeepsOneOpen(w: World, uid: Option<string>, before: Option<string>)
    requires SavingIsNewest(w) && StoredIsLastSaved(w, before) && OneOpenSelection(w, before) && ShownIsStored(w)
    requires SelectAccepted(w.f, uid) ==> !w.f.ui.saving
    ensures OneOpenSelection(DoSelect(w, uid), before)
  {
    if SelectAccepted(w.f, uid) {
      var t := DoSelect(w, uid);
      var made := SelectionMade(w.f, uid);
      assert t.selects == w.selects + [SelectRun(made, Queued, false)];
      assert Earlier(t) == w.selects && Newest(t).selection.previousUid == w.f.ui.selectedUid;
    }
  }

  lemma SavingKeepsOneOpen(w: World, a: Action, before: Option<string>)
    requires Enabled(w, a) && SavesInOrder(w) && (a.SaveStarts? || a.SaveReads? || a.SaveSettles?)
        && OneOpenSelection(w, before)
    ensures OneOpenSelection(Step(w, a), before)
  {
    SavingLeavesTheShown(w, a);
    assert a.k == |w.selects| - 1;
    assert Earlier(Step(w, a)) == Earlier(w);
  }

  lemma ContinuingKeepsOneOpen(w: World, k: nat, before: Option<string>)
    requires Enabled(w, SelectContinues(k)) && OneOpenSelection(w, before)
    ensures OneOpenSelection(DoSelectContinues(w, k), before)
  {
    SameSavesSameLast(Earlier(w), Earlier(DoSelectContinues(w, k)), before);
  }

  lemma StepKeepsOneOpen(w: World, a: Action, before: Option<string>)
    requires Enabled(w, a) && Inv(w) && StoredIsLastSaved(w, before) && !FromOutside(w, a) && OneAtATime(w, a)
    requires OneOpenSelection(w, before) && ShownIsStored(w)
    ensures OneOpenSelection(Step(w, a), before)
  {
    if a.Select? {
      SelectKeepsOneOpen(w, a.uid, before);
    } else if a.SelectContinues? {
      ContinuingKeepsOneOpen(w, a.k, before);
    } else if AboutSelects(a) {
      SavingKeepsOneOpen(w, a, before);
    } else {
      OthersLeaveTheChoice(w, a);
    }
  }

  lemma AgreesOnceReported(w: World, before: Option<string>)
    requires Inv(w) && ShownIsNewest(w) && StoredIsLastSaved(w, before) && OneOpenSelection(w, before)
        && w.selects != []
    ensures ShownIsStored(w)
  {
    if !w.f.ui.saving {
      assert Settled(Newest(w).stage);
    }
  }

  lemma {:induction false} GuardedRunsAgree(w: World, actions: seq<Action>, before: Option<string>)
    requires Inv(w) && ShownIsNewest(w) && StoredIsLastSaved(w, before) && OneOpenSelection(w, before)
        && ShownIsStored(w)
    requires Feasible(w, actions) && GuardedRun(w, actions)
    ensures ShownIsStored(After(w, actions))
    decreases |actions|
  {
    if actions != [] {
      var a := actions[0];
      StepKeepsInv(w, a);
      StepKeepsShown(w, a);
      StepKeepsStored(w, a, before);
      StepKeepsOneOpen(w, a, before);
      var t := Step(w, a);
      if t.selects != [] {
        AgreesOnceReported(t, before);
      } else {
        NothingChosenYet(w, a);
      }
      GuardedRunsAgree(t, actions[1..], before);
    }
  }

  lemma NothingChosenYet(w: World, a: Action)
    requires Enabled(w, a) && !FromOutside(w, a) && ShownIsStored(w) && Step(w, a).selects == []
    ensures ShownIsStored(Step(w, a))
  {
    if !AboutSelects(a) {
      OthersLeaveTheChoice(w, a);
    }
  }

  /**
   * From the start: once an opening without selections shows the stored microphone, as a settled load does, it goes
   * on being shown whenever nothing is being saved, if no selection is accepted during a save.
   */
  lemma ShownIsStoredWhenGuarded(stored: Config, opening: seq<Action>, later: seq<Action>)
    requires Feasible(Initial(stored), opening) && After(Initial(stored), opening).selects == []
    requires var w := After(Initial(stored), opening);
             w.f.ui.selectedUid == w.stored.microphoneUid && Feasible(w, later) && GuardedRun(w, later)
    ensures ShownIsStored(After(After(Initial(stored), opening), later))
  {
    RunsKeepInv(Initial(stored), opening);
    var w := After(Initial(stored), opening);
    GuardedRunsAgree(w, later, w.stored.microphoneUid);
  }
}
