/**
 * Runs of the microphone controller: the calls in flight, the stored configuration, and every stretch of
 * controller code as one step. Calls in flight settle in any order.
 */
module MicrophoneRuns {
  import opened MachineInts
  import opened MicrophoneDevices

  datatype ListKind = ForLoad | ForRefresh

  /** One queued save: reading the stored configuration, then writing it back with the new microphone. */
  datatype SaveStage = Queued | Reading | Saving(config: Config) | Fulfilled | Rejected(reason: string)

  datatype SelectRun = SelectRun(selection: Selection, stage: SaveStage, continued: bool)

  /**
   * A resolveStartInput call. `known` and `knownAtRead` count the selections made when it was called and when it
   * read.
   */
  datatype StartStage =
    | Waiting | Read(config: Config, knownAtRead: nat) | Resolved(input: StartInput, knownAtRead: nat) | StartFailed

  datatype StartRun = StartRun(after: nat, known: nat, stage: StartStage)

  datatype World = World(
    f: Fields,
    stored: Config,
    lists: map<nat, ListKind>,   // list calls in flight, by issue number
    applied: seq<nat>,           // issue numbers of the lists that were taken over, oldest first
    selects: seq<SelectRun>,
    landed: seq<nat>,            // numbers of the selections whose save reached storage, oldest first
    probes: set<ProbeCall>,
    starts: seq<StartRun>)

  datatype Action =
    | Load
    | LoadSettles(generation: nat, answer: Result<(Config, seq<Device>), string>)
    | LoadClears
    | Refresh
    | RefreshSettles(generation: nat, listed: Result<seq<Device>, string>)
    | Select(uid: Option<string>)
    | SaveStarts(k: nat)
    | SaveReads(k: nat, readFails: Option<string>)
    | SaveSettles(k: nat, outcome: Result<(), string>)
    | SelectContinues(k: nat)
    | Probe(supported: bool)
    | ProbeSettles(call: ProbeCall, probed: Result<ProbeResult, string>, now: nat)
    | Start
    | StartReads(k: nat, readOk: bool)
    | StartContinues(k: nat)
    | Synchronize(config: Config)
    | Lock(locked: bool)
    | ForeignSave(config: Config)

  predicate Settled(stage: SaveStage) {
    stage.Fulfilled? || stage.Rejected?
  }

  /** The queue a call waits on: empty, or the save with that number has settled. */
  predicate QueueReached(w: World, after: nat) {
    after == 0 || (after <= |w.selects| && Settled(w.selects[after - 1].stage))
  }

  predicate Enabled(w: World, a: Action) {
    match a
    case LoadSettles(g, _) => g in w.lists && w.lists[g] == ForLoad
    case LoadClears => w.f.loadPromise == LoadSettled
    case RefreshSettles(g, _) => g in w.lists && w.lists[g] == ForRefresh
    case SaveStarts(k) =>
      k < |w.selects| && w.selects[k].stage == Queued && QueueReached(w, w.selects[k].selection.after)
    case SaveReads(k, _) => k < |w.selects| && w.selects[k].stage == Reading
    case SaveSettles(k, _) => k < |w.selects| && w.selects[k].stage.Saving?
    case SelectContinues(k) => k < |w.selects| && Settled(w.selects[k].stage) && !w.selects[k].continued
    case ProbeSettles(call, probed, _) => call in w.probes && (probed.Ok? ==> probed.value.obtainedFor == call.uid)
    case StartReads(k, _) => k < |w.starts| && w.starts[k].stage == Waiting && QueueReached(w, w.starts[k].after)
    case StartContinues(k) => k < |w.starts| && w.starts[k].stage.Read?
    case _ => true
  }

  function OutcomeOf(stage: SaveStage): Result<(), string>
    requires Settled(stage)
  {
    if stage.Fulfilled? then Ok(()) else Err(stage.reason)
  }

  function AtStage(w: World, k: nat, stage: SaveStage): World
    requires k < |w.selects|
  {
    w.(selects := w.selects[k := w.selects[k].(stage := stage)])
  }

  function StartAt(w: World, k: nat, stage: StartStage): World
    requires k < |w.starts|
  {
    w.(starts := w.starts[k := w.starts[k].(stage := stage)])
  }

  function DoLoadSettles(w: World, g: nat, answer: Result<(Config, seq<Device>), string>): World {
    w.(f := LoadAnswered(w.f, g, answer), lists := w.lists - {g},
       applied := if answer.Ok? && g == w.f.refreshGeneration then w.applied + [g] else w.applied)
  }

  function DoRefreshSettles(w: World, g: nat, listed: Result<seq<Device>, string>): World {
    w.(f := RefreshAnswered(w.f, g, listed), lists := w.lists - {g},
       applied := if listed.Ok? && g == w.f.refreshGeneration then w.applied + [g] else w.applied)
  }

  function DoSelect(w: World, uid: Option<string>): World {
    var called := w.(f := SelectCalled(w.f, uid));
    if !SelectAccepted(w.f, uid) then called
    else called.(selects := w.selects + [SelectRun(SelectionMade(w.f, uid), Queued, false)])
  }

  function DoSaveReads(w: World, k: nat, readFails: Option<string>): World
    requires k < |w.selects|
  {
    var selection := w.selects[k].selection;
    AtStage(w, k, if readFails.Some? then Rejected(readFails.value)
                  else Saving(w.stored.(microphoneUid := selection.uid, microphoneName := selection.name)))
  }

  function DoSaveSettles(w: World, k: nat, outcome: Result<(), string>): World
    requires k < |w.selects| && w.selects[k].stage.Saving?
  {
    match outcome
    case Ok(_) => AtStage(w, k, Fulfilled).(stored := w.selects[k].stage.config, landed := w.landed + [k + 1])
    case Err(reason) => AtStage(w, k, Rejected(reason))
  }

  function DoSelectContinues(w: World, k: nat): World
    requires k < |w.selects| && Settled(w.selects[k].stage)
  {
    w.(f := SelectionSettled(w.f, w.selects[k].selection, OutcomeOf(w.selects[k].stage)),
       selects := w.selects[k := w.selects[k].(continued := true)])
  }

  function DoProbe(w: World, supported: bool): World {
    var called := w.(f := ProbeCalled(w.f, supported));
    if !ProbeIssues(w.f, supported) then called
    else called.(probes := w.probes + {ProbeCall(w.f.probeGeneration + 1, w.f.ui.selectedUid.value)})
  }

  function DoStartContinues(w: World, k: nat): World
    requires k < |w.starts| && w.starts[k].stage.Read?
  {
    var read := w.starts[k].stage;
    StartAt(w, k, Resolved(StartInputOf(w.f, read.config), read.knownAtRead)).(f := ConfigTaken(w.f, read.config))
  }

  function Step(w: World, a: Action): World
    requires Enabled(w, a)
  {
    match a
    case Load =>
      w.(f := LoadCalled(w.f),
         lists := if LoadIssues(w.f) then w.lists[w.f.refreshGeneration + 1 := ForLoad] else w.lists)
    case LoadSettles(g, answer) => DoLoadSettles(w, g, answer)
    case LoadClears => w.(f := LoadCleared(w.f))
    case Refresh => w.(f := RefreshCalled(w.f), lists := w.lists[w.f.refreshGeneration + 1 := ForRefresh])
    case RefreshSettles(g, listed) => DoRefreshSettles(w, g, listed)
    case Select(uid) => DoSelect(w, uid)
    case SaveStarts(k) => AtStage(w, k, Reading)
    case SaveReads(k, readFails) => DoSaveReads(w, k, readFails)
    case SaveSettles(k, outcome) => DoSaveSettles(w, k, outcome)
    case SelectContinues(k) => DoSelectContinues(w, k)
    case Probe(supported) => DoProbe(w, supported)
    case ProbeSettles(call, probed, now) => w.(f := ProbeAnswered(w.f, call, probed, now), probes := w.probes - {call})
    case Start => w.(starts := w.starts + [StartRun(w.f.selectionQueue, |w.selects|, Waiting)])
    case StartReads(k, readOk) => StartAt(w, k, if readOk then Read(w.stored, |w.selects|) else StartFailed)
    case StartContinues(k) => DoStartContinues(w, k)
    case Synchronize(config) => w.(f := ConfigTaken(w.f, config))
    case Lock(locked) => w.(f := LockSet(w.f, locked))
    case ForeignSave(config) => w.(stored := config)
  }

  function Initial(stored: Config): World {
    World(INITIAL_FIELDS, stored, map[], [], [], [], {}, [])
  }

  predicate Feasible(w: World, actions: seq<Action>)
    decreases |actions|
  {
    actions == [] || (Enabled(w, actions[0]) && Feasible(Step(w, actions[0]), actions[1..]))
  }

  function After(w: World, actions: seq<Action>): World
    requires Feasible(w, actions)
    decreases |actions|
  {
    if actions == [] then w else After(Step(w, actions[0]), actions[1..])
  }

  // What every run keeps: device lists

  predicate Increasing(numbers: seq<nat>) {
    forall i, j :: 0 <= i < j < |numbers| ==> numbers[i] < numbers[j]
  }

  /** Lists in flight and lists taken over have different issue numbers, none newer than the newest. */
  ghost predicate ListsInOrder(w: World) {
    && (forall g :: g in w.lists ==> 0 < g <= w.f.refreshGeneration)
    && (forall i :: 0 <= i < |w.applied| ==> w.applied[i] <= w.f.refreshGeneration && w.applied[i] !in w.lists)
    && Increasing(w.applied)
  }

  /** While the controller shows `loading`, the newest issued list call is still in flight. */
  predicate LoadingHasNewest(w: World) {
    w.f.ui.phase == Loading ==> w.f.refreshGeneration in w.lists
  }

  // What every run keeps: queued saves

  predicate SelectsNumbered(w: World) {
    && w.f.selectionGeneration == |w.selects|
    && w.f.selectionQueue == |w.selects|
    && forall k :: 0 <= k < |w.selects| ==>
         w.selects[k].selection.generation == k + 1 && w.selects[k].selection.after == k
  }

  /** A save starts only once the one before it has settled, and continues only once it has settled itself. */
  predicate SavesInOrder(w: World) {
    && (forall k :: 0 < k < |w.selects| && w.selects[k].stage != Queued ==> Settled(w.selects[k - 1].stage))
    && (forall k :: 0 <= k < |w.selects| && w.selects[k].continued ==> Settled(w.selects[k].stage))
    && (forall k :: 0 <= k < |w.selects| && w.selects[k].stage.Saving? ==>
          w.selects[k].stage.config.microphoneUid == w.selects[k].selection.uid)
  }

  predicate SettledUpTo(w: World, n: nat) {
    n <= |w.selects| && forall k :: 0 <= k < n ==> Settled(w.selects[k].stage)
  }

  /** The selections whose save reached storage are exactly the fulfilled ones, in selection order. */
  ghost predicate LandedInOrder(w: World) {
    && Increasing(w.landed)
    && (forall i :: 0 <= i < |w.landed| ==>
         0 < w.landed[i] <= |w.selects| && w.selects[w.landed[i] - 1].stage == Fulfilled)
    && (forall k :: 0 <= k < |w.selects| && w.selects[k].stage == Fulfilled ==> k + 1 in w.landed)
  }

  /** What storage should name after these selections: the last one whose save succeeded, else what it named before. */
  function LastSaved(selects: seq<SelectRun>, before: Option<string>): Option<string> {
    if selects == [] then before
    else
      var last := selects[|selects| - 1];
      if last.stage.Fulfilled? then last.selection.uid else LastSaved(selects[..|selects| - 1], before)
  }

  // What every run keeps: probes

  /** `saving` is exactly that the newest selection has not reported yet. */
  predicate SavingIsNewest(w: World) {
    w.f.ui.saving <==> (w.selects != [] && !w.selects[|w.selects| - 1].continued)
  }

  ghost predicate ProbesNumbered(w: World) {
    forall call :: call in w.probes ==> call.generation <= w.f.probeGeneration
  }

  /** While a selection is being saved no probe result shows and none in flight can still be taken over. */
  ghost predicate QuietWhileSaving(w: World) {
    w.f.ui.saving ==>
      w.f.ui.probeResult == None && forall call :: call in w.probes ==> call.generation < w.f.probeGeneration
  }

  ghost predicate Inv(w: World) {
    && ListsInOrder(w)
    && LoadingHasNewest(w)
    && SelectsNumbered(w)
    && SavesInOrder(w)
    && LandedInOrder(w)
    && SavingIsNewest(w)
    && ProbesNumbered(w)
  }

  // Each step keeps it

  predicate AboutLists(a: Action) {
    a.Load? || a.LoadSettles? || a.Refresh? || a.RefreshSettles?
  }

  lemma OthersLeaveLists(w: World, a: Action)
    requires Enabled(w, a) && !AboutLists(a)
    ensures Step(w, a).lists == w.lists && Step(w, a).applied == w.applied
    ensures Step(w, a).f.refreshGeneration == w.f.refreshGeneration
    ensures Step(w, a).f.ui.phase == w.f.ui.phase && Step(w, a).f.ui.devices == w.f.ui.devices
  {
  }

  lemma IssuingKeepsLists(w: World, a: Action)
    requires (a.Load? || a.Refresh?) && ListsInOrder(w) && LoadingHasNewest(w)
    ensures ListsInOrder(Step(w, a)) && LoadingHasNewest(Step(w, a))
  {
  }

  lemma LoadSettlingKeepsOrder(w: World, a: Action)
    requires a.LoadSettles? && Enabled(w, a) && ListsInOrder(w)
    ensures ListsInOrder(Step(w, a))
  {
  }

  lemma LoadSettlingKeepsNewest(w: World, a: Action)
    requires a.LoadSettles? && Enabled(w, a) && ListsInOrder(w) && LoadingHasNewest(w)
    ensures LoadingHasNewest(Step(w, a))
  {
  }

  lemma RefreshSettlingKeepsOrder(w: World, a: Action)
    requires a.RefreshSettles? && Enabled(w, a) && ListsInOrder(w)
    ensures ListsInOrder(Step(w, a))
  {
  }

  lemma RefreshSettlingKeepsNewest(w: World, a: Action)
    requires a.RefreshSettles? && Enabled(w, a) && ListsInOrder(w) && LoadingHasNewest(w)
    ensures LoadingHasNewest(Step(w, a))
  {
  }

  lemma StepKeepsLists(w: World, a: Action)
    requires Enabled(w, a) && ListsInOrder(w) && LoadingHasNewest(w)
    ensures ListsInOrder(Step(w, a)) && LoadingHasNewest(Step(w, a))
  {
    if a.Load? || a.Refresh? {
      IssuingKeepsLists(w, a);
    } else if a.LoadSettles? {
      LoadSettlingKeepsOrder(w, a);
      LoadSettlingKeepsNewest(w, a);
    } else if a.RefreshSettles? {
      RefreshSettlingKeepsOrder(w, a);
      RefreshSettlingKeepsNewest(w, a);
    } else {
      OthersLeaveLists(w, a);
    }
  }

  lemma {:induction false} SettledBelow(w: World, k: nat)
    requires SavesInOrder(w) && k < |w.selects| && w.selects[k].stage != Queued
    ensures SettledUpTo(w, k)
    decreases k
  {
    if k > 0 {
      SettledBelow(w, k - 1);
    }
  }

  predicate AboutSelects(a: Action) {
    a.Select? || a.SaveStarts? || a.SaveReads? || a.SaveSettles? || a.SelectContinues?
  }

  predicate SameSelects(w: World, t: World) {
    && t.selects == w.selects && t.landed == w.landed
    && t.f.selectionGeneration == w.f.selectionGeneration && t.f.selectionQueue == w.f.selectionQueue
    && t.f.ui.saving == w.f.ui.saving
  }

  lemma OthersLeaveSelects(w: World, a: Action)
    requires Enabled(w, a) && !AboutSelects(a)
    ensures SameSelects(w, Step(w, a))
  {
  }

  lemma SelectKeepsSelects(w: World, uid: Option<string>)
    requires SelectsNumbered(w) && SavesInOrder(w)
    ensures SelectsNumbered(DoSelect(w, uid)) && SavesInOrder(DoSelect(w, uid))
  {
  }

  /** Moving save k on to a stage it may reach. */
  lemma StageKeepsSelects(w: World, k: nat, stage: SaveStage)
    requires SelectsNumbered(w) && SavesInOrder(w) && k < |w.selects|
    requires !Settled(w.selects[k].stage) && stage != Queued
    requires w.selects[k].stage == Queued ==> QueueReached(w, k)
    requires stage.Saving? ==> stage.config.microphoneUid == w.selects[k].selection.uid
    ensures SelectsNumbered(AtStage(w, k, stage)) && SavesInOrder(AtStage(w, k, stage))
  {
  }

  lemma ContinueKeepsSelects(w: World, k: nat)
    requires SelectsNumbered(w) && SavesInOrder(w) && k < |w.selects| && Settled(w.selects[k].stage)
    ensures SelectsNumbered(DoSelectContinues(w, k)) && SavesInOrder(DoSelectContinues(w, k))
  {
  }

  lemma SaveStepKeepsSelects(w: World, a: Action)
    requires Enabled(w, a) && SelectsNumbered(w) && SavesInOrder(w) && (a.SaveStarts? || a.SaveReads? || a.SaveSettles?)
    ensures SelectsNumbered(Step(w, a)) && SavesInOrder(Step(w, a))
  {
    match a {
      case SaveStarts(k) => StageKeepsSelects(w, k, Reading);
      case SaveReads(k, _) => StageKeepsSelects(w, k, Step(w, a).selects[k].stage);
      case SaveSettles(k, _) => StageKeepsSelects(w, k, Step(w, a).selects[k].stage);
    }
  }

  lemma StepKeepsSelects(w: World, a: Action)
    requires Enabled(w, a) && SelectsNumbered(w) && SavesInOrder(w)
    ensures SelectsNumbered(Step(w, a)) && SavesInOrder(Step(w, a))
  {
    if a.SaveStarts? || a.SaveReads? || a.SaveSettles? {
      SaveStepKeepsSelects(w, a);
    } else if a.Select? {
      SelectKeepsSelects(w, a.uid);
    } else if a.SelectContinues? {
      ContinueKeepsSelects(w, a.k);
    } else {
      OthersLeaveSelects(w, a);
    }
  }

  /** Nothing newer than save k can have landed while k is unsettled. */
  lemma LandedBelow(w: World, k: nat, i: nat)
    requires SavesInOrder(w) && LandedInOrder(w) && k < |w.selects| && !Settled(w.selects[k].stage) && i < |w.landed|
    ensures w.landed[i] < k + 1
  {
    if w.landed[i] > k + 1 {
      SettledBelow(w, w.landed[i] - 1);
    }
  }

  lemma LandingKeepsLanded(w: World, k: nat)
    requires SavesInOrder(w) && LandedInOrder(w) && k < |w.selects| && w.selects[k].stage.Saving?
    ensures LandedInOrder(DoSaveSettles(w, k, Ok(())))
  {
    var t := DoSaveSettles(w, k, Ok(()));
    forall i | 0 <= i < |w.landed|
      ensures w.landed[i] < k + 1
    {
      LandedBelow(w, k, i);
    }
    assert t.landed[|w.landed|] == k + 1;
    forall l | 0 <= l < |t.selects| && t.selects[l].stage == Fulfilled
      ensures l + 1 in t.landed
    {
      assert l != k ==> w.selects[l].stage == Fulfilled;
    }
  }

  /** Stages other than the fulfilled ones may change, and selections may be added. */
  lemma SameLanded(w: World, t: World)
    requires LandedInOrder(w) && t.landed == w.landed && |w.selects| <= |t.selects|
    requires forall k :: 0 <= k < |t.selects| && t.selects[k].stage == Fulfilled ==>
        k < |w.selects| && w.selects[k].stage == Fulfilled
    requires forall k :: 0 <= k < |w.selects| && w.selects[k].stage == Fulfilled ==> t.selects[k].stage == Fulfilled
    ensures LandedInOrder(t)
  {
  }

  /** Only a save that succeeds makes a selection fulfilled. */
  lemma OthersFulfilNothing(w: World, a: Action)
    requires Enabled(w, a) && AboutSelects(a) && !(a.SaveSettles? && a.outcome.Ok?)
    ensures Step(w, a).landed == w.landed && |w.selects| <= |Step(w, a).selects|
    ensures forall k :: 0 <= k < |Step(w, a).selects| ==>
              (Step(w, a).selects[k].stage == Fulfilled <==> k < |w.selects| && w.selects[k].stage == Fulfilled)
  {
  }

  lemma StepKeepsLanded(w: World, a: Action)
    requires Enabled(w, a) && SavesInOrder(w) && LandedInOrder(w)
    ensures LandedInOrder(Step(w, a))
  {
    if a.SaveSettles? && a.outcome.Ok? {
      LandingKeepsLanded(w, a.k);
    } else if AboutSelects(a) {
      OthersFulfilNothing(w, a);
      SameLanded(w, Step(w, a));
    } else {
      OthersLeaveSelects(w, a);
    }
  }

  lemma StepKeepsSaving(w: World, a: Action)
    requires Enabled(w, a) && SelectsNumbered(w) && SavingIsNewest(w)
    ensures SavingIsNewest(Step(w, a))
  {
    if !AboutSelects(a) {
      OthersLeaveSelects(w, a);
    }
  }

  lemma StepKeepsProbes(w: World, a: Action)
    requires Enabled(w, a) && ProbesNumbered(w)
    ensures ProbesNumbered(Step(w, a))
  {
  }

  lemma StepKeepsInv(w: World, a: Action)
    requires Enabled(w, a) && Inv(w)
    ensures Inv(Step(w, a))
  {
    StepKeepsLists(w, a);
    StepKeepsSelects(w, a);
    StepKeepsLanded(w, a);
    StepKeepsSaving(w, a);
    StepKeepsProbes(w, a);
  }

  lemma {:induction false} RunsKeepInv(w: World, actions: seq<Action>)
    requires Inv(w) && Feasible(w, actions)
    ensures Inv(After(w, actions))
    decreases |actions|
  {
    if actions != [] {
      StepKeepsInv(w, actions[0]);
      RunsKeepInv(Step(w, actions[0]), actions[1..]);
    }
  }

  lemma {:induction false} FeasibleThen(w: World, actions: seq<Action>, a: Action)
    requires Feasible(w, actions) && Enabled(After(w, actions), a)
    ensures Feasible(w, actions + [a]) && After(w, actions + [a]) == Step(After(w, actions), a)
    decreases |actions|
  {
    if actions == [] {
      assert [a][1..] == [];
    } else {
      FeasibleThen(Step(w, actions[0]), actions[1..], a);
      assert (actions + [a])[1..] == actions[1..] + [a];
    }
  }

  // Theorems: device lists

  /** Over all runs, the lists taken over are taken over in the order they were issued. */
  lemma AppliedListsIncrease(stored: Config, actions: seq<Action>)
    requires Feasible(Initial(stored), actions)
    ensures Increasing(After(Initial(stored), actions).applied)
  {
    RunsKeepInv(Initial(stored), actions);
  }

  lemma LoadingMeansNewestInFlight(stored: Config, actions: seq<Action>)
    requires Feasible(Initial(stored), actions)
    requires After(Initial(stored), actions).f.ui.phase == Loading
    ensures After(Initial(stored), actions).f.refreshGeneration in After(Initial(stored), actions).lists
  {
    RunsKeepInv(Initial(stored), actions);
  }

  /** The shown devices only ever change when the answer to the newest issued list call arrives. */
  lemma OnlyTheNewestListIsTakenOver(w: World, a: Action)
    requires Enabled(w, a)
    ensures Step(w, a).f.ui.devices != w.f.ui.devices || Step(w, a).applied != w.applied
            ==> (a.LoadSettles? || a.RefreshSettles?) && a.generation == w.f.refreshGeneration
    ensures Step(w, a).f.ui.devices != w.f.ui.devices ==> Step(w, a).applied == w.applied + [w.f.refreshGeneration]
  {
    if !AboutLists(a) {
      OthersLeaveLists(w, a);
    }
  }

  // Theorems: saves

  predicate InFlight(stage: SaveStage) {
    stage.Reading? || stage.Saving?
  }

  lemma SavesNeverOverlap(stored: Config, actions: seq<Action>, i: nat, j: nat)
    requires Feasible(Initial(stored), actions)
    requires i < j < |After(Initial(stored), actions).selects|
    ensures var selects := After(Initial(stored), actions).selects;
            !(InFlight(selects[i].stage) && InFlight(selects[j].stage))
  {
    RunsKeepInv(Initial(stored), actions);
    var w := After(Initial(stored), actions);
    if InFlight(w.selects[j].stage) {
      SettledBelow(w, j);
    }
  }

  /** The saves that reached storage are exactly the fulfilled selections, in selection order. */
  lemma SavesLandInSelectionOrder(stored: Config, actions: seq<Action>)
    requires Feasible(Initial(stored), actions)
    ensures LandedInOrder(After(Initial(stored), actions))
  {
    RunsKeepInv(Initial(stored), actions);
  }

  predicate OnlyWriter(actions: seq<Action>) {
    forall i :: 0 <= i < |actions| ==> !actions[i].ForeignSave?
  }

  ghost predicate StoredIsLastSaved(w: World, before: Option<string>) {
    w.stored.microphoneUid == LastSaved(w.selects, before)
  }

  lemma {:induction false} LastSavedIs(selects: seq<SelectRun>, before: Option<string>, k: nat)
    requires k < |selects| && selects[k].stage.Fulfilled?
    requires forall l :: k < l < |selects| ==> !selects[l].stage.Fulfilled?
    ensures LastSaved(selects, before) == selects[k].selection.uid
  {
    if k < |selects| - 1 {
      LastSavedIs(selects[..|selects| - 1], before, k);
    }
  }

  lemma {:induction false} SameSavesSameLast(selects: seq<SelectRun>, others: seq<SelectRun>, before: Option<string>)
    requires |selects| == |others|
    requires forall k :: 0 <= k < |selects| ==>
               others[k].selection == selects[k].selection && others[k].stage.Fulfilled? == selects[k].stage.Fulfilled?
    ensures LastSaved(others, before) == LastSaved(selects, before)
  {
    if selects != [] {
      SameSavesSameLast(selects[..|selects| - 1], others[..|others| - 1], before);
    }
  }

  lemma LandingSetsStorage(w: World, k: nat, before: Option<string>)
    requires SavesInOrder(w) && k < |w.selects| && w.selects[k].stage.Saving?
    ensures StoredIsLastSaved(DoSaveSettles(w, k, Ok(())), before)
  {
    var t := DoSaveSettles(w, k, Ok(()));
    forall l | k < l < |t.selects|
      ensures !t.selects[l].stage.Fulfilled?
    {
      if w.selects[l].stage.Fulfilled? {
        SettledBelow(w, l);
      }
    }
    LastSavedIs(t.selects, before, k);
  }

  lemma StepKeepsStored(w: World, a: Action, before: Option<string>)
    requires Enabled(w, a) && SavesInOrder(w) && StoredIsLastSaved(w, before) && !a.ForeignSave?
    ensures StoredIsLastSaved(Step(w, a), before)
  {
    var t := Step(w, a);
    if a.SaveSettles? && a.outcome.Ok? {
      LandingSetsStorage(w, a.k, before);
    } else if a.Select? && SelectAccepted(w.f, a.uid) {
      assert t.selects[..|t.selects| - 1] == w.selects;
    } else {
      StorageUntouched(w, a);
      SameSavesSameLast(w.selects, t.selects, before);
    }
  }

  lemma StorageUntouched(w: World, a: Action)
    requires Enabled(w, a) && !a.ForeignSave?
    requires !(a.SaveSettles? && a.outcome.Ok?) && !(a.Select? && SelectAccepted(w.f, a.uid))
    ensures Step(w, a).stored == w.stored && |Step(w, a).selects| == |w.selects|
    ensures forall k :: 0 <= k < |w.selects| ==>
              && Step(w, a).selects[k].selection == w.selects[k].selection
              && Step(w, a).selects[k].stage.Fulfilled? == w.selects[k].stage.Fulfilled?
  {
  }

  // Theorems: resolveStartInput

  /** A call that has read storage waited for every selection made before it, and read what they left there. */
  ghost predicate StartReadLastSaved(w: World, start: StartRun, before: Option<string>) {
    && start.after == start.known
    && start.known <= |w.selects|
    && (start.stage.Read? && start.stage.knownAtRead == start.known ==>
          SettledUpTo(w, start.known)
            && start.stage.config.microphoneUid == LastSaved(w.selects[..start.known], before))
    && (start.stage.Resolved? && start.stage.knownAtRead == start.known ==>
          SettledUpTo(w, start.known) && start.stage.input.microphoneUid == LastSaved(w.selects[..start.known], before))
  }

  ghost predicate StartsReadLastSaved(w: World, before: Option<string>) {
    forall k :: 0 <= k < |w.starts| ==> StartReadLastSaved(w, w.starts[k], before)
  }

  /** Settled selections never change stage again, and none disappears. */
  lemma SettledStays(w: World, a: Action, n: nat)
    requires Enabled(w, a) && SettledUpTo(w, n)
    ensures SettledUpTo(Step(w, a), n)
    ensures forall k :: 0 <= k < n ==> Step(w, a).selects[k].stage == w.selects[k].stage
                                       && Step(w, a).selects[k].selection == w.selects[k].selection
  {
  }

  lemma StartStays(w: World, a: Action, start: StartRun, before: Option<string>)
    requires Enabled(w, a) && StartReadLastSaved(w, start, before)
    ensures StartReadLastSaved(Step(w, a), start, before)
  {
    SelectsGrow(w, a);
    if (start.stage.Read? || start.stage.Resolved?) && start.stage.knownAtRead == start.known {
      SettledStays(w, a, start.known);
      SameSavesSameLast(w.selects[..start.known], Step(w, a).selects[..start.known], before);
    }
  }

  lemma SelectsGrow(w: World, a: Action)
    requires Enabled(w, a)
    ensures |w.selects| <= |Step(w, a).selects|
  {
  }

  lemma StartStepKeeps(w: World, a: Action, before: Option<string>)
    requires Enabled(w, a) && (a.StartReads? || a.StartContinues?)
    requires SelectsNumbered(w) && SavesInOrder(w) && StoredIsLastSaved(w, before) && StartsReadLastSaved(w, before)
    ensures StartReadLastSaved(Step(w, a), Step(w, a).starts[a.k], before)
  {
    var start := w.starts[a.k];
    assert StartReadLastSaved(w, start, before);
    if a.StartReads? && |w.selects| == start.known {
      if start.known > 0 {
        SettledBelow(w, start.known - 1);
      }
      assert w.selects[..start.known] == w.selects;
    }
  }

  lemma OthersLeaveStarts(w: World, a: Action)
    requires Enabled(w, a) && !a.Start? && !a.StartReads? && !a.StartContinues?
    ensures Step(w, a).starts == w.starts
  {
  }

  lemma StepKeepsStarts(w: World, a: Action, before: Option<string>)
    requires Enabled(w, a)
    requires SelectsNumbered(w) && SavesInOrder(w) && StoredIsLastSaved(w, before) && StartsReadLastSaved(w, before)
    ensures StartsReadLastSaved(Step(w, a), before)
  {
    var t := Step(w, a);
    forall k | 0 <= k < |t.starts|
      ensures StartReadLastSaved(t, t.starts[k], before)
    {
      if (a.StartReads? || a.StartContinues?) && a.k == k {
        StartStepKeeps(w, a, before);
      } else if k < |w.starts| {
        if !a.Start? && !a.StartReads? && !a.StartContinues? {
          OthersLeaveStarts(w, a);
        }
        StartStays(w, a, w.starts[k], before);
      }
    }
  }

  lemma {:induction false} RunsKeepStarts(w: World, actions: seq<Action>, before: Option<string>)
    requires Inv(w) && StoredIsLastSaved(w, before) && StartsReadLastSaved(w, before)
    requires Feasible(w, actions) && OnlyWriter(actions)
    ensures StoredIsLastSaved(After(w, actions), before) && StartsReadLastSaved(After(w, actions), before)
    decreases |actions|
  {
    if actions != [] {
      StepKeepsInv(w, actions[0]);
      StepKeepsStored(w, actions[0], before);
      StepKeepsStarts(w, actions[0], before);
      assert OnlyWriter(actions[1..]);
      RunsKeepStarts(Step(w, actions[0]), actions[1..], before);
    }
  }

  /** With this controller the only writer, storage names the last selection whose save succeeded. */
  lemma StorageNamesTheLastSaved(stored: Config, actions: seq<Action>)
    requires Feasible(Initial(stored), actions) && OnlyWriter(actions)
    ensures After(Initial(stored), actions).stored.microphoneUid
            == LastSaved(After(Initial(stored), actions).selects, stored.microphoneUid)
  {
    RunsKeepStarts(Initial(stored), actions, stored.microphoneUid);
  }

  /**
   * resolveStartInput called after k selections, none made before it read the configuration: it answers with the
   * microphone of the last of those k whose save succeeded, whatever else ran meanwhile.
   */
  lemma StartUsesTheLastSaved(stored: Config, actions: seq<Action>, i: nat)
    requires Feasible(Initial(stored), actions) && OnlyWriter(actions)
    requires i < |After(Initial(stored), actions).starts|
    requires After(Initial(stored), actions).starts[i].stage.Resolved?
    requires var start := After(Initial(stored), actions).starts[i]; start.stage.knownAtRead == start.known
    ensures var w := After(Initial(stored), actions);
            var start := w.starts[i];
            && SettledUpTo(w, start.known)
            && start.stage.input.microphoneUid == LastSaved(w.selects[..start.known], stored.microphoneUid)
  {
    RunsKeepStarts(Initial(stored), actions, stored.microphoneUid);
    var w := After(Initial(stored), actions);
    assert StartReadLastSaved(w, w.starts[i], stored.microphoneUid);
  }

  // Theorems: the displayed probe result

  predicate ResultMatches(w: World) {
    w.f.ui.probeResult.Some? ==> w.f.ui.selectedUid == Some(w.f.ui.probeResult.value.obtainedFor)
  }

  /** Nothing is shown that a load arriving now would leave behind under another selection. */
  predicate LoadKeepsShown(w: World, a: Action) {
    a.LoadSettles? && a.answer.Ok? ==>
      w.f.ui.probeResult == None || a.answer.value.0.microphoneUid == w.f.ui.selectedUid
  }

  predicate AboutShown(a: Action) {
    || a.LoadSettles? || a.RefreshSettles? || a.Select? || a.SelectContinues?
    || a.Probe? || a.ProbeSettles? || a.StartContinues? || a.Synchronize?
  }

  lemma OthersLeaveShown(w: World, a: Action)
    requires Enabled(w, a) && !AboutShown(a)
    ensures Step(w, a).f.ui.probeResult == w.f.ui.probeResult && Step(w, a).f.ui.selectedUid == w.f.ui.selectedUid
    ensures Step(w, a).probes == w.probes && Step(w, a).f.probeGeneration == w.f.probeGeneration
    ensures Step(w, a).f.ui.saving == w.f.ui.saving
  {
  }

  lemma StepKeepsQuiet(w: World, a: Action)
    requires Enabled(w, a) && ProbesNumbered(w) && QuietWhileSaving(w)
    requires a.Probe? ==> !w.f.ui.saving
    ensures QuietWhileSaving(Step(w, a))
  {
    if !AboutShown(a) {
      OthersLeaveShown(w, a);
    }
  }

  /**
   * While saves are quiet, one step keeps the shown result on the shown microphone exactly when it is not such a
   * load.
   */
  lemma StepKeepsMatchExactly(w: World, a: Action)
    requires Enabled(w, a) && Inv(w) && QuietWhileSaving(w) && ResultMatches(w)
    ensures ResultMatches(Step(w, a)) <==> LoadKeepsShown(w, a)
  {
    if a.SelectContinues? {
      ContinueKeepsMatch(w, a.k);
    } else if a.LoadSettles? || a.RefreshSettles? {
      ListsKeepMatch(w, a);
    } else if a.Probe? || a.ProbeSettles? {
      ProbesKeepMatch(w, a);
    } else if AboutShown(a) {
      ChoicesKeepMatch(w, a);
    } else {
      OthersLeaveShown(w, a);
    }
  }

  lemma ListsKeepMatch(w: World, a: Action)
    requires (a.LoadSettles? || a.RefreshSettles?) && Enabled(w, a) && ResultMatches(w)
    ensures ResultMatches(Step(w, a)) <==> LoadKeepsShown(w, a)
  {
  }

  lemma ProbesKeepMatch(w: World, a: Action)
    requires (a.Probe? || a.ProbeSettles?) && Enabled(w, a) && ResultMatches(w)
    ensures ResultMatches(Step(w, a))
  {
  }

  lemma ChoicesKeepMatch(w: World, a: Action)
    requires (a.Select? || a.StartContinues? || a.Synchronize?) && Enabled(w, a) && ResultMatches(w)
    ensures ResultMatches(Step(w, a))
  {
  }

  lemma ContinueKeepsMatch(w: World, k: nat)
    requires Inv(w) && QuietWhileSaving(w) && ResultMatches(w)
    requires k < |w.selects| && Settled(w.selects[k].stage) && !w.selects[k].continued
    ensures ResultMatches(DoSelectContinues(w, k))
  {
    assert w.selects[k].selection.generation == k + 1;
  }

  /** No probe starts during a save, as the selector enforces, and no further load is issued. */
  predicate Calm(w: World, a: Action) {
    && (a.Probe? ==> !w.f.ui.saving)
    && (a.Load? ==> !LoadIssues(w.f))
  }

  predicate CalmRun(w: World, actions: seq<Action>)
    requires Feasible(w, actions)
    decreases |actions|
  {
    actions == [] || (Calm(w, actions[0]) && CalmRun(Step(w, actions[0]), actions[1..]))
  }

  predicate NoLoadInFlight(w: World) {
    forall g :: g in w.lists ==> w.lists[g] != ForLoad
  }

  lemma CalmStaysLoaded(w: World, a: Action)
    requires Enabled(w, a) && NoLoadInFlight(w) && Calm(w, a)
    ensures NoLoadInFlight(Step(w, a))
  {
    if !AboutLists(a) {
      OthersLeaveLists(w, a);
    }
  }

  /**
   * Once load has settled, in every calm run the displayed probe result was obtained for the selected microphone,
   * through selection changes, failed saves and their rollbacks, refreshes and taken-over configurations.
   */
  lemma {:induction false} ShownResultIsForSelected(w: World, actions: seq<Action>)
    requires Inv(w) && QuietWhileSaving(w) && ResultMatches(w) && NoLoadInFlight(w)
    requires Feasible(w, actions) && CalmRun(w, actions)
    ensures ResultMatches(After(w, actions))
    decreases |actions|
  {
    if actions != [] {
      var a := actions[0];
      StepKeepsInv(w, a);
      StepKeepsQuiet(w, a);
      StepKeepsMatchExactly(w, a);
      CalmStaysLoaded(w, a);
      ShownResultIsForSelected(Step(w, a), actions[1..]);
    }
  }

  ghost predicate NothingProbed(w: World) {
    w.probes == {} && w.f.ui.probeResult == None
  }

  /** No probe goes out; refused attempts do not matter. */
  predicate SendsNoProbe(w: World, actions: seq<Action>)
    requires Feasible(w, actions)
    decreases |actions|
  {
    actions == []
      || ((actions[0].Probe? ==> !ProbeIssues(w.f, actions[0].supported))
      && SendsNoProbe(Step(w, actions[0]), actions[1..]))
  }

  lemma {:induction false} UnprobedRunsStayUnprobed(w: World, actions: seq<Action>)
    requires NothingProbed(w) && Feasible(w, actions) && SendsNoProbe(w, actions)
    ensures NothingProbed(After(w, actions)) && QuietWhileSaving(After(w, actions))
    decreases |actions|
  {
    if actions != [] {
      if !AboutShown(actions[0]) {
        OthersLeaveShown(w, actions[0]);
      }
      UnprobedRunsStayUnprobed(Step(w, actions[0]), actions[1..]);
    }
  }

  /** The same from the very start: load, wait for it to settle, then any calm run. */
  lemma ShownResultIsForSelectedFromTheStart(stored: Config, opening: seq<Action>, later: seq<Action>)
    requires Feasible(Initial(stored), opening) && SendsNoProbe(Initial(stored), opening)
    requires NoLoadInFlight(After(Initial(stored), opening))
    requires Feasible(After(Initial(stored), opening), later) && CalmRun(After(Initial(stored), opening), later)
    ensures ResultMatches(After(After(Initial(stored), opening), later))
  {
    RunsKeepInv(Initial(stored), opening);
    UnprobedRunsStayUnprobed(Initial(stored), opening);
    ShownResultIsForSelected(After(Initial(stored), opening), later);
  }

  // Theorems: the shown availability

  lemma StepKeepsAvailability(w: World, a: Action)
    requires Enabled(w, a) && AvailabilityCurrent(w.f)
    ensures AvailabilityCurrent(Step(w, a).f)
  {
    if !AboutLists(a) && !AboutShown(a) {
      OthersKeepAvailability(w, a);
    }
  }

  lemma OthersKeepAvailability(w: World, a: Action)
    requires Enabled(w, a) && AvailabilityCurrent(w.f) && !AboutLists(a) && !AboutShown(a)
    ensures AvailabilityCurrent(Step(w, a).f)
  {
  }

  lemma {:induction false} RunsKeepAvailability(w: World, actions: seq<Action>)
    requires AvailabilityCurrent(w.f) && Feasible(w, actions)
    ensures AvailabilityCurrent(After(w, actions).f)
    decreases |actions|
  {
    if actions != [] {
      StepKeepsAvailability(w, actions[0]);
      RunsKeepAvailability(Step(w, actions[0]), actions[1..]);
    }
  }

  /** In every run a probe goes out only for a selected microphone that the loaded list shows as connected. */
  lemma ProbesAreForConnectedMicrophones(stored: Config, actions: seq<Action>, supported: bool)
    requires Feasible(Initial(stored), actions)
    requires var w := After(Initial(stored), actions);
        Step(w, Probe(supported)).f.probeGeneration != w.f.probeGeneration
    ensures var ui := After(Initial(stored), actions).f.ui;
            ui.phase == Ready && HasConnected(ui.devices, ui.selectedUid) && !ui.locked && supported
  {
    RunsKeepAvailability(Initial(stored), actions);
    UsableMeansConnected(After(Initial(stored), actions).f.ui);
  }

  // What the two conditions are for

  /**
   * Outside quiet saves, a failed newest selection keeps the result right exactly when it was obtained for the old
   * microphone.
   */
  lemma RollbackMatchesExactly(w: World, k: nat)
    requires SelectsNumbered(w) && k + 1 == |w.selects| && w.selects[k].stage.Rejected?
    ensures ResultMatches(DoSelectContinues(w, k)) <==>
            w.f.ui.probeResult == None
              || w.selects[k].selection.previousUid == Some(w.f.ui.probeResult.value.obtainedFor)
  {
  }

  /** One queued save whose turn it is fails to read storage. */
  lemma SaveFails(w: World, actions: seq<Action>, k: nat, reason: string) returns (longer: seq<Action>)
    requires Feasible(w, actions) && Enabled(After(w, actions), SaveStarts(k))
    ensures Feasible(w, longer) && After(w, longer) == AtStage(After(w, actions), k, Rejected(reason))
    ensures OnlyWriter(actions) ==> OnlyWriter(longer)
  {
    FeasibleThen(w, actions, SaveStarts(k));
    longer := actions + [SaveStarts(k)];
    FeasibleThen(w, longer, SaveReads(k, Some(reason)));
    longer := longer + [SaveReads(k, Some(reason))];
  }

  const BUILT_IN := Device("built-in", "Built-in", true)
  const HEADSET := Device("headset", "Headset", true)
  const BUILT_IN_STORED := Config(Some("built-in"), Some("Built-in"), "smart")
  const HEADSET_SELECTION := Selection(1, Some("headset"), Some("Headset"), Some("built-in"), Some("Built-in"), 0)

  lemma LoadedRun() returns (actions: seq<Action>)
    ensures Feasible(Initial(BUILT_IN_STORED), actions) && OnlyWriter(actions)
    ensures After(Initial(BUILT_IN_STORED), actions) ==
            Initial(BUILT_IN_STORED).(
              f := INITIAL_FIELDS.(
                refreshGeneration := 1,
                ui := INITIAL_UI.(phase := Ready, availability := Usable, devices := [BUILT_IN, HEADSET],
                                  selectedUid := Some("built-in"), selectedName := Some("Built-in"))),
              applied := [1])
  {
    var w := Initial(BUILT_IN_STORED);
    var list := LoadSettles(1, Ok((BUILT_IN_STORED, [BUILT_IN, HEADSET])));
    actions := [];
    FeasibleThen(w, actions, Load);
    actions := actions + [Load];
    FeasibleThen(w, actions, list);
    actions := actions + [list];
    var loaded := After(w, actions);
    assert Some(loaded.f.ui.devices[0].uid) == loaded.f.ui.selectedUid && loaded.f.ui.devices[0].isConnected;
    FeasibleThen(w, actions, LoadClears);
    actions := actions + [LoadClears];
  }

  /** The headset is chosen; the save has not started. */
  lemma HeadsetChosen() returns (actions: seq<Action>)
    ensures Feasible(Initial(BUILT_IN_STORED), actions) && OnlyWriter(actions)
    ensures var w := After(Initial(BUILT_IN_STORED), actions);
            && w.f.ui.selectedUid == Some("headset") && w.f.ui.selectedName == Some("Headset") && w.f.ui.saving
            && !w.f.ui.locked && w.f.ui.availability == Usable
            && w.selects == [SelectRun(HEADSET_SELECTION, Queued, false)]
            && SelectsNumbered(w) && w.f.probeGeneration == 1 && w.landed == [] && w.stored == BUILT_IN_STORED
  {
    actions := LoadedRun();
    var loaded := After(Initial(BUILT_IN_STORED), actions);
    var ui := loaded.f.ui.(selectedUid := Some("headset"));
    assert FindConnected([HEADSET], "headset") == Some(HEADSET);
    assert ui.devices[1..] == [HEADSET];
    assert Some(ui.devices[1].uid) == Some("headset") && ui.devices[1].isConnected;
    FeasibleThen(Initial(BUILT_IN_STORED), actions, Select(Some("headset")));
    actions := actions + [Select(Some("headset"))];
  }

  /** A probe of the headset has answered while its selection is still being saved. */
  lemma HeadsetProbed() returns (actions: seq<Action>)
    ensures Feasible(Initial(BUILT_IN_STORED), actions)
    ensures var w := After(Initial(BUILT_IN_STORED), actions);
            && w.selects == [SelectRun(HEADSET_SELECTION, Queued, false)]
            && SelectsNumbered(w) && w.f.ui.probeResult == Some(ProbeResult("headset", "signal"))
  {
    var w := Initial(BUILT_IN_STORED);
    actions := HeadsetChosen();
    FeasibleThen(w, actions, Probe(true));
    actions := actions + [Probe(true)];
    var answer := ProbeSettles(ProbeCall(2, "headset"), Ok(ProbeResult("headset", "signal")), 0);
    FeasibleThen(w, actions, answer);
    actions := actions + [answer];
  }

  /** Without the selector's guard: a probe started during a save that then fails is shown for the wrong microphone. */
  lemma ProbeDuringSaveMisleads() returns (actions: seq<Action>)
    ensures Feasible(Initial(BUILT_IN_STORED), actions)
    ensures !ResultMatches(After(Initial(BUILT_IN_STORED), actions))
  {
    var w := Initial(BUILT_IN_STORED);
    actions := HeadsetProbed();
    actions := SaveFails(w, actions, 0, "storage error");
    RollbackMatchesExactly(After(w, actions), 0);
    FeasibleThen(w, actions, SelectContinues(0));
    actions := actions + [SelectContinues(0)];
  }

  /** The headset was chosen, then no microphone at all; neither save has started. */
  lemma TwoSelectionsMade() returns (actions: seq<Action>)
    ensures Feasible(Initial(BUILT_IN_STORED), actions) && OnlyWriter(actions)
    ensures var w := After(Initial(BUILT_IN_STORED), actions);
            && w.selects == [SelectRun(HEADSET_SELECTION, Queued, false),
                             SelectRun(Selection(2, None, None, Some("headset"), Some("Headset"), 1), Queued, false)]
            && w.f.selectionGeneration == 2 && w.landed == [] && w.stored == BUILT_IN_STORED
  {
    actions := HeadsetChosen();
    FeasibleThen(Initial(BUILT_IN_STORED), actions, Select(None));
    actions := actions + [Select(None)];
  }

  /** Two overlapping selections that both fail leave the first one on show, although it never reached storage. */
  lemma FailedSelectionsCanShowUnsaved() returns (actions: seq<Action>)
    ensures Feasible(Initial(BUILT_IN_STORED), actions) && OnlyWriter(actions)
    ensures var w := After(Initial(BUILT_IN_STORED), actions);
            && !w.f.ui.saving && SettledUpTo(w, |w.selects|) && w.landed == []
            && w.stored == BUILT_IN_STORED && w.f.ui.selectedUid == Some("headset")
  {
    var w := Initial(BUILT_IN_STORED);
    actions := TwoSelectionsMade();
    actions := SaveFails(w, actions, 0, "storage error");
    actions := SaveFails(w, actions, 1, "storage error");
    FeasibleThen(w, actions, SelectContinues(1));
    actions := actions + [SelectContinues(1)];
  }
}
