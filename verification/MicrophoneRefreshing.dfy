/** When the microphone controller stops showing that it refreshes, and when it never does. */
module MicrophoneRefreshing {
  import opened MachineInts
  import opened MicrophoneDevices
  import opened MicrophoneRuns

  /** The newest list number belongs to a refresh that has not come back. */
  predicate NewestRefreshOut(w: World) {
    w.f.refreshGeneration in w.lists && w.lists[w.f.refreshGeneration] == ForRefresh
  }

  /** The newest list number went to a load that was issued while `refreshing` was set. */
  function CutOff(w: World, before: bool, a: Action): bool {
    match a
    case Load => if LoadIssues(w.f) then w.f.ui.refreshing else before
    case Refresh => false
    case _ => before
  }

  function CutOffAll(w: World, before: bool, actions: seq<Action>): bool
    requires Feasible(w, actions)
    decreases |actions|
  {
    if actions == [] then before else CutOffAll(Step(w, actions[0]), CutOff(w, before, actions[0]), actions[1..])
  }

  // What every run keeps

  predicate RefreshingFollows(w: World, cutOff: bool) {
    && (w.f.ui.refreshing <==> cutOff || NewestRefreshOut(w))
    && !(cutOff && NewestRefreshOut(w))
  }

  lemma ChoicesLeaveRefreshing(w: World, a: Action)
    requires Enabled(w, a) && AboutSelects(a)
    ensures Step(w, a).f.ui.refreshing == w.f.ui.refreshing
  {
  }

  lemma OthersLeaveRefreshing(w: World, a: Action)
    requires Enabled(w, a) && !AboutLists(a) && !AboutSelects(a)
    ensures Step(w, a).f.ui.refreshing == w.f.ui.refreshing
  {
  }

  lemma StepKeepsRefreshing(w: World, cutOff: bool, a: Action)
    requires Enabled(w, a) && RefreshingFollows(w, cutOff)
    ensures RefreshingFollows(Step(w, a), CutOff(w, cutOff, a))
  {
    if !AboutLists(a) {
      OthersLeaveLists(w, a);
      if AboutSelects(a) {
        ChoicesLeaveRefreshing(w, a);
      } else {
        OthersLeaveRefreshing(w, a);
      }
    }
  }

  lemma {:induction false} RunsKeepRefreshing(w: World, cutOff: bool, actions: seq<Action>)
    requires RefreshingFollows(w, cutOff) && Feasible(w, actions)
    ensures RefreshingFollows(After(w, actions), CutOffAll(w, cutOff, actions))
    decreases |actions|
  {
    if actions != [] {
      StepKeepsRefreshing(w, cutOff, actions[0]);
      RunsKeepRefreshing(Step(w, actions[0]), CutOff(w, cutOff, actions[0]), actions[1..]);
    }
  }

  // Theorems

  /**
   * In every run `refreshing` is set if and only if the newest refresh has not come back, or the newest list number
   * went to a load issued while it was set. In the second case nothing in flight will clear it.
   */
  lemma RefreshingStaysExactly(stored: Config, actions: seq<Action>)
    requires Feasible(Initial(stored), actions)
    ensures var w := After(Initial(stored), actions);
            w.f.ui.refreshing <==> CutOffAll(Initial(stored), false, actions) || NewestRefreshOut(w)
  {
    RunsKeepRefreshing(Initial(stored), false, actions);
  }

  predicate NeverRefreshes(actions: seq<Action>) {
    forall i :: 0 <= i < |actions| ==> !actions[i].Refresh?
  }

  /** Once so cut off, it stays set in every run until someone refreshes again, which the selector does not let them. */
  lemma {:induction false} CutOffStays(w: World, actions: seq<Action>)
    requires RefreshingFollows(w, true) && Feasible(w, actions) && NeverRefreshes(actions)
    ensures RefreshingFollows(After(w, actions), true) && After(w, actions).f.ui.refreshing
    decreases |actions|
  {
    if actions != [] {
      StepKeepsRefreshing(w, true, actions[0]);
      assert !actions[0].Refresh?;
      CutOffStays(Step(w, actions[0]), actions[1..]);
    }
  }

  /** No load is issued while `refreshing` is set. */
  predicate LoadsWait(w: World, actions: seq<Action>)
    requires Feasible(w, actions)
    decreases |actions|
  {
    || actions == []
    || ((actions[0].Load? && LoadIssues(w.f) ==> !w.f.ui.refreshing) && LoadsWait(Step(w, actions[0]), actions[1..]))
  }

  lemma {:induction false} WaitingLoadsCutNothingOff(w: World, actions: seq<Action>)
    requires Feasible(w, actions) && LoadsWait(w, actions)
    ensures !CutOffAll(w, false, actions)
    decreases |actions|
  {
    if actions != [] {
      WaitingLoadsCutNothingOff(Step(w, actions[0]), actions[1..]);
    }
  }

  /** If loads wait for it, `refreshing` is set exactly while the newest refresh is out. */
  lemma RefreshingEndsIfLoadsWait(stored: Config, actions: seq<Action>)
    requires Feasible(Initial(stored), actions) && LoadsWait(Initial(stored), actions)
    ensures var w := After(Initial(stored), actions); w.f.ui.refreshing <==> NewestRefreshOut(w)
  {
    WaitingLoadsCutNothingOff(Initial(stored), actions);
    RefreshingStaysExactly(stored, actions);
  }

  /** A refresh before the first load: both come back well, nothing is in flight, and `refreshing` is still set. */
  lemma RefreshingCanStick(stored: Config, devices: seq<Device>) returns (actions: seq<Action>)
    ensures actions
        == [Refresh, Load, LoadSettles(2, Ok((stored, devices))), LoadClears, RefreshSettles(1, Ok(devices))]
    ensures Feasible(Initial(stored), actions)
    ensures var w := After(Initial(stored), actions);
            w.lists == map[] && w.f.loadPromise == NoLoad && w.f.ui.phase == Ready && w.f.ui.refreshing
    ensures RefreshingFollows(After(Initial(stored), actions), true)
  {
    actions := RefreshThenLoad(stored, devices);
    FeasibleThen(Initial(stored), actions, LoadClears);
    actions := actions + [LoadClears];
    FeasibleThen(Initial(stored), actions, RefreshSettles(1, Ok(devices)));
    actions := actions + [RefreshSettles(1, Ok(devices))];
  }

  lemma RefreshThenLoad(stored: Config, devices: seq<Device>) returns (actions: seq<Action>)
    ensures actions == [Refresh, Load, LoadSettles(2, Ok((stored, devices)))]
    ensures Feasible(Initial(stored), actions)
    ensures var w := After(Initial(stored), actions);
            && w.lists == map[1 := ForRefresh] && w.f.loadPromise == LoadSettled && w.f.refreshGeneration == 2
            && w.f.ui.phase == Ready && w.f.ui.refreshing
  {
    FeasibleThen(Initial(stored), [], Refresh);
    actions := [] + [Refresh];
    FeasibleThen(Initial(stored), actions, Load);
    actions := actions + [Load];
    FeasibleThen(Initial(stored), actions, LoadSettles(2, Ok((stored, devices))));
    actions := actions + [LoadSettles(2, Ok((stored, devices)))];
  }
}
