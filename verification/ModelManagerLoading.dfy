/** When the model controller stops showing that it is loading or refreshing, and when it never does. */
module ModelManagerLoading {
  import opened MachineInts
  import opened ModelManager
  import opened ModelManagerRuns

  /** Who moved the list numbers on last: a load, a refresh, an operation or polling loop, a disposal, or nobody yet. */
  datatype Issuer = Nobody | ByLoad | ByRefresh | ByLoop | ByDisposal

  /** What became of the newest list call: still out, or come back while disposed, with a list, or with an error. */
  datatype Fate = Pending | Ignored | Listed | Failed

  /** The newest list number, and whether `loading` and `refreshing` were set just after it was issued. */
  datatype Newest = Newest(issuer: Issuer, loadingThen: bool, refreshingThen: bool, fate: Fate)

  const UNISSUED := Newest(Nobody, true, false, Pending)

  function IssuerOf(at: Point): Issuer {
    if at.LoadFetch? then ByLoad else if at.RefreshFetch? then ByRefresh else ByLoop
  }

  predicate HoldsNewest(w: World, at: Point) {
    FetchOf(at) == Some(w.f.refreshGeneration)
  }

  function FateOf(f: Fields, answer: ListAnswer): Fate {
    if f.disposed then Ignored else if answer.Ok? then Listed else Failed
  }

  /** What one step makes of the newest list number. */
  function Followed(w: World, n: Newest, a: Action): Newest
    requires Enabled(w, a)
  {
    match a
    case Load => Newest(ByLoad, true, w.f.ui.refreshing, Pending)
    case Refresh => Newest(ByRefresh, w.f.ui.loading, true, Pending)
    case Dispose => Newest(ByDisposal, w.f.ui.loading, w.f.ui.refreshing, Pending)
    case Resume(i, answer, acknowledgement) =>
      if FetchOf(Resumed(w, w.tasks[i].at, answer, acknowledgement).1).Some?
      then Newest(ByLoop, w.f.ui.loading, w.f.ui.refreshing, Pending)
      else if HoldsNewest(w, w.tasks[i].at) then n.(fate := FateOf(w.f, answer))
      else n
    case _ => n
  }

  function FollowedAll(w: World, n: Newest, actions: seq<Action>): Newest
    requires Feasible(w, actions)
    decreases |actions|
  {
    if actions == [] then n else FollowedAll(Step(w, actions[0]), Followed(w, n, actions[0]), actions[1..])
  }

  /** The newest call's answer switched `loading` and `refreshing` off. */
  predicate SwitchedOff(n: Newest) {
    n.fate == Failed || (n.fate == Listed && (n.issuer == ByLoad || n.issuer == ByRefresh))
  }

  predicate IssuedByCall(n: Newest) {
    n.issuer == ByLoad || n.issuer == ByRefresh || n.issuer == ByLoop
  }

  predicate SomeoneHoldsNewest(w: World) {
    exists i :: 0 <= i < |w.tasks| && HoldsNewest(w, w.tasks[i].at)
  }

  predicate Tracks(w: World, n: Newest) {
    && (forall i :: 0 <= i < |w.tasks| && HoldsNewest(w, w.tasks[i].at) ==>
         n.issuer == IssuerOf(w.tasks[i].at) && n.fate == Pending)
    && (IssuedByCall(n) && n.fate == Pending ==> SomeoneHoldsNewest(w))
    && (!IssuedByCall(n) ==> n.fate == Pending)
  }

  /** While its number is the newest, a load or loop cannot have been disposed of. */
  predicate IssuerLive(w: World, n: Newest) {
    && (n.issuer == ByLoad || n.issuer == ByLoop ==> !w.f.disposed && n.fate != Ignored)
    && (n.issuer == ByLoad ==> n.loadingThen) && (n.issuer == ByRefresh ==> n.refreshingThen)
  }

  predicate LoadingFollows(w: World, n: Newest) {
    w.f.ui.loading == (n.loadingThen && !SwitchedOff(n))
  }

  predicate RefreshingFollows(w: World, n: Newest) {
    w.f.ui.refreshing == (n.refreshingThen && !SwitchedOff(n))
  }

  // One step

  /** The newest list call of a live controller comes back, and it was a load or a refresh, or has failed. */
  predicate Switches(w: World, at: Point, answer: ListAnswer) {
    && FetchOf(at).Some? && FetchCurrent(w.f, FetchOf(at).value)
    && (answer.Err? || at.LoadFetch? || at.RefreshFetch?)
  }

  lemma FinishedFlags(w: World, at: Point, answer: ListAnswer, acknowledgement: Result<Acknowledgement, string>)
    requires at.FinalFetch?
    ensures var ui := Resumed(w, at, answer, acknowledgement).0.ui;
            && ui.loading == (w.f.ui.loading && !Switches(w, at, answer))
            && ui.refreshing == (w.f.ui.refreshing && !Switches(w, at, answer))
  {
  }

  /** A resumed call never switches the two on. */
  lemma ResumedFlags(w: World, at: Point, answer: ListAnswer, acknowledgement: Result<Acknowledgement, string>)
    ensures var ui := Resumed(w, at, answer, acknowledgement).0.ui;
            && ui.loading == (w.f.ui.loading && !Switches(w, at, answer))
            && ui.refreshing == (w.f.ui.refreshing && !Switches(w, at, answer))
  {
    if at.FinalFetch? {
      FinishedFlags(w, at, answer, acknowledgement);
    }
  }

  /** Among resumed calls, exactly those switch `loading` off. */
  lemma LoadingClearsExactly(w: World, i: nat, answer: ListAnswer, acknowledgement: Result<Acknowledgement, string>)
    requires i < |w.tasks| && w.f.ui.loading
    ensures !DoResume(w, i, answer, acknowledgement).f.ui.loading <==> Switches(w, w.tasks[i].at, answer)
  {
    ResumedFlags(w, w.tasks[i].at, answer, acknowledgement);
  }

  /** And `refreshing` on exactly the same occasions. */
  lemma RefreshingClearsExactly(w: World, i: nat, answer: ListAnswer, acknowledgement: Result<Acknowledgement, string>)
    requires i < |w.tasks| && w.f.ui.refreshing
    ensures !DoResume(w, i, answer, acknowledgement).f.ui.refreshing <==> Switches(w, w.tasks[i].at, answer)
  {
    ResumedFlags(w, w.tasks[i].at, answer, acknowledgement);
  }

  // Every run

  predicate Tracked(w: World, n: Newest) {
    Inv(w) && Tracks(w, n) && IssuerLive(w, n) && LoadingFollows(w, n) && RefreshingFollows(w, n)
  }

  /** A call that starts with the next list number. */
  lemma IssuingKeepsTracks(w: World, f: Fields, at: Point, n: Newest)
    requires TasksBounded(w) && f.refreshGeneration == w.f.refreshGeneration + 1
        && FetchOf(at) == Some(f.refreshGeneration)
    requires n.issuer == IssuerOf(at) && n.fate == Pending
    ensures Tracks(Started(w, f, at), n)
  {
    var t := Started(w, f, at);
    forall i | 0 <= i < |w.tasks|
      ensures !HoldsNewest(t, t.tasks[i].at)
    {
      assert TaskBounded(w, w.tasks[i]);
    }
    assert HoldsNewest(t, t.tasks[|w.tasks|].at);
  }

  /** A call that starts without one. */
  lemma StartingKeepsTracks(w: World, f: Fields, at: Point, n: Newest)
    requires Tracks(w, n) && f.refreshGeneration == w.f.refreshGeneration && FetchOf(at) == None
    ensures Tracks(Started(w, f, at), n)
  {
    var t := Started(w, f, at);
    if SomeoneHoldsNewest(w) {
      var i :| 0 <= i < |w.tasks| && HoldsNewest(w, w.tasks[i].at);
      assert HoldsNewest(t, t.tasks[i].at);
    }
  }

  lemma DisposingKeepsTracks(w: World, n: Newest)
    requires TasksBounded(w) && n.issuer == ByDisposal && n.fate == Pending
    ensures Tracks(Step(w, Dispose), n)
  {
    forall i | 0 <= i < |w.tasks|
      ensures !HoldsNewest(Step(w, Dispose), w.tasks[i].at)
    {
      assert TaskBounded(w, w.tasks[i]);
    }
  }

  /** Which resumed calls ask for a list, and what that leaves of the fields. */
  lemma AskingAgain(w: World, at: Point, answer: ListAnswer, acknowledgement: Result<Acknowledgement, string>)
    ensures var (f, next, poll) := Resumed(w, at, answer, acknowledgement);
            && (FetchOf(next).Some? ==>
                 IssuerOf(next) == ByLoop && f == FetchIssued(w.f) && !w.f.disposed && poll == None)
            && (FetchOf(next).Some? ==> FetchOf(next) == Some(f.refreshGeneration))
            && (FetchOf(next).None? ==> f.refreshGeneration == w.f.refreshGeneration)
            && f.disposed == w.f.disposed
  {
  }

  /** Another call's number is the newest afterwards only if it was before, and then the resumed call held another. */
  lemma OthersKeepTheirNumbers(w: World, i: nat, j: nat, f: Fields, next: Point)
    requires TasksBounded(w) && TasksDistinct(w) && i < |w.tasks| && j < |w.tasks| && i != j
    requires f.refreshGeneration == w.f.refreshGeneration + if FetchOf(next).Some? then 1 else 0
    ensures FetchOf(w.tasks[j].at) == Some(f.refreshGeneration) ==> FetchOf(next).None? && HoldsNewest(w, w.tasks[j].at)
    ensures HoldsNewest(w, w.tasks[i].at) ==> !HoldsNewest(w, w.tasks[j].at)
  {
    assert TaskBounded(w, w.tasks[j]);
    assert j < i ==> Apart(FetchOf(w.tasks[j].at), FetchOf(w.tasks[i].at));
    assert i < j ==> Apart(FetchOf(w.tasks[i].at), FetchOf(w.tasks[j].at));
  }

  lemma ResumingKeepsTracks(
      w: World, i: nat, answer: ListAnswer, acknowledgement: Result<Acknowledgement, string>, n: Newest)
    requires Inv(w) && Tracks(w, n) && Enabled(w, Resume(i, answer, acknowledgement))
    ensures Tracks(DoResume(w, i, answer, acknowledgement), Followed(w, n, Resume(i, answer, acknowledgement)))
  {
    var t := DoResume(w, i, answer, acknowledgement);
    var (f, next, poll) := Resumed(w, w.tasks[i].at, answer, acknowledgement);
    AskingAgain(w, w.tasks[i].at, answer, acknowledgement);
    assert t.tasks[i].at == next;
    forall j | 0 <= j < |w.tasks| && j != i
      ensures HoldsNewest(t, t.tasks[j].at) ==> FetchOf(next).None? && HoldsNewest(w, w.tasks[j].at)
      ensures HoldsNewest(w, w.tasks[i].at) ==> !HoldsNewest(w, w.tasks[j].at)
    {
      OthersKeepTheirNumbers(w, i, j, f, next);
    }
    if FetchOf(next).Some? {
      assert HoldsNewest(t, t.tasks[i].at);
    } else if SomeoneHoldsNewest(w) && !HoldsNewest(w, w.tasks[i].at) {
      var j :| 0 <= j < |w.tasks| && HoldsNewest(w, w.tasks[j].at);
      assert HoldsNewest(t, t.tasks[j].at);
    }
  }

  lemma ResumingKeepsFlags(
      w: World, i: nat, answer: ListAnswer, acknowledgement: Result<Acknowledgement, string>, n: Newest)
    requires Tracked(w, n) && Enabled(w, Resume(i, answer, acknowledgement))
    ensures var t := DoResume(w, i, answer, acknowledgement);
            var m := Followed(w, n, Resume(i, answer, acknowledgement));
            IssuerLive(t, m) && LoadingFollows(t, m) && RefreshingFollows(t, m)
  {
    AskingAgain(w, w.tasks[i].at, answer, acknowledgement);
    ResumedFlags(w, w.tasks[i].at, answer, acknowledgement);
  }

  lemma StepKeepsTracked(w: World, n: Newest, a: Action)
    requires Tracked(w, n) && Enabled(w, a)
    ensures Tracked(Step(w, a), Followed(w, n, a))
  {
    StepKeepsInv(w, a);
    match a {
      case Load => IssuingKeepsTracks(w, LoadCalled(w.f), LoadFetch(w.f.refreshGeneration + 1), Followed(w, n, a));
      case Refresh =>
        IssuingKeepsTracks(w, RefreshCalled(w.f), RefreshFetch(w.f.refreshGeneration + 1), Followed(w, n, a));
      case RunOperation(modelId) =>
        StartingKeepsTracks(w, OperationCalled(w.f, modelId), LoopWait(w.f.operationGeneration + 1, |w.operations|), n);
      case Cancel(modelId, downloadId) => StartingKeepsTracks(w, w.f, CancelCall(modelId, downloadId), n);
      case Dispose => DisposingKeepsTracks(w, Followed(w, n, a));
      case OperationSettles(_, _) =>
      case Resume(i, answer, acknowledgement) =>
        ResumingKeepsTracks(w, i, answer, acknowledgement, n);
        ResumingKeepsFlags(w, i, answer, acknowledgement, n);
    }
  }

  lemma {:induction false} RunsKeepTracked(w: World, n: Newest, actions: seq<Action>)
    requires Tracked(w, n) && Feasible(w, actions)
    ensures Tracked(After(w, actions), FollowedAll(w, n, actions))
    decreases |actions|
  {
    if actions != [] {
      StepKeepsTracked(w, n, actions[0]);
      RunsKeepTracked(Step(w, actions[0]), Followed(w, n, actions[0]), actions[1..]);
    }
  }

  predicate NoListInFlight(w: World) {
    forall i :: 0 <= i < |w.tasks| ==> FetchOf(w.tasks[i].at) == None
  }

  /** The newest list number went to something that leaves `loading` and `refreshing` alone. */
  predicate LeavesFlags(n: Newest) {
    || n.issuer == Nobody || n.issuer == ByDisposal
    || (n.issuer == ByLoop && n.fate == Listed)
    || (n.issuer == ByRefresh && n.fate == Ignored)
  }

  /**
   * In every run, with no list call in flight, `loading` is still set if and only if it was set when the newest list
   * number was issued, and that number went to nobody, to a disposal, to an operation or polling loop that got its
   * list, or to a refresh that came back while disposed.
   */
  lemma LoadingStaysExactly(actions: seq<Action>)
    requires Feasible(INITIAL, actions) && NoListInFlight(After(INITIAL, actions))
    ensures var n := FollowedAll(INITIAL, UNISSUED, actions);
            After(INITIAL, actions).f.ui.loading <==> n.loadingThen && LeavesFlags(n)
  {
    RunsKeepTracked(INITIAL, UNISSUED, actions);
    assert !SomeoneHoldsNewest(After(INITIAL, actions));
  }

  /** In particular a load that nothing superseded always ends with `loading` off. */
  lemma UnsupersededLoadFinishes(actions: seq<Action>)
    requires Feasible(INITIAL, actions) && NoListInFlight(After(INITIAL, actions))
    requires FollowedAll(INITIAL, UNISSUED, actions).issuer == ByLoad
    ensures !After(INITIAL, actions).f.ui.loading
  {
    LoadingStaysExactly(actions);
  }

  /** In every run the same decides over `refreshing`. */
  lemma RefreshingStaysExactly(actions: seq<Action>)
    requires Feasible(INITIAL, actions) && NoListInFlight(After(INITIAL, actions))
    ensures var n := FollowedAll(INITIAL, UNISSUED, actions);
            After(INITIAL, actions).f.ui.refreshing <==> n.refreshingThen && LeavesFlags(n)
  {
    RunsKeepTracked(INITIAL, UNISSUED, actions);
    assert !SomeoneHoldsNewest(After(INITIAL, actions));
  }

  /** A refresh that nothing superseded ends with both off, unless it came back while disposed. */
  lemma UnsupersededRefreshFinishes(actions: seq<Action>)
    requires Feasible(INITIAL, actions) && NoListInFlight(After(INITIAL, actions))
    requires FollowedAll(INITIAL, UNISSUED, actions).issuer == ByRefresh
    requires FollowedAll(INITIAL, UNISSUED, actions).fate != Ignored
    ensures !After(INITIAL, actions).f.ui.loading && !After(INITIAL, actions).f.ui.refreshing
  {
    LoadingStaysExactly(actions);
    RefreshingStaysExactly(actions);
  }

  // Runs that end with a live controller, no list call in flight, and `loading` still set

  predicate StuckLoading(w: World) {
    w.f.ui.loading && !w.f.disposed && NoListInFlight(w)
  }

  /** An operation started after a disposal revives the controller, but not the load the disposal cut off. */
  lemma OperationAfterDisposalSticks() returns (actions: seq<Action>)
    ensures Feasible(INITIAL, actions) && StuckLoading(After(INITIAL, actions))
    ensures actions == [Load, Dispose, RunOperation("model"), Resume(0, NO_MODELS, LOST)]
  {
    FeasibleThen(INITIAL, [], Load);
    actions := [] + [Load];
    FeasibleThen(INITIAL, actions, Dispose);
    actions := actions + [Dispose];
    FeasibleThen(INITIAL, actions, RunOperation("model"));
    actions := actions + [RunOperation("model")];
    FeasibleThen(INITIAL, actions, Resume(0, NO_MODELS, LOST));
    actions := actions + [Resume(0, NO_MODELS, LOST)];
  }

  /** A refresh asked for while disposed comes back ignored, and an operation revives the controller. */
  lemma RefreshWhileDisposedSticks() returns (actions: seq<Action>)
    ensures Feasible(INITIAL, actions) && StuckLoading(After(INITIAL, actions))
    ensures actions == [Dispose, Refresh, Resume(0, NO_MODELS, LOST), RunOperation("model")]
  {
    FeasibleThen(INITIAL, [], Dispose);
    actions := [] + [Dispose];
    FeasibleThen(INITIAL, actions, Refresh);
    actions := actions + [Refresh];
    FeasibleThen(INITIAL, actions, Resume(0, NO_MODELS, LOST));
    actions := actions + [Resume(0, NO_MODELS, LOST)];
    FeasibleThen(INITIAL, actions, RunOperation("model"));
    actions := actions + [RunOperation("model")];
  }

  lemma RefreshThenRun() returns (actions: seq<Action>)
    ensures Feasible(INITIAL, actions)
    ensures After(INITIAL, actions) ==
            World(Fields(INITIAL_UI.(refreshing := true, pendingModelId := Some("model")), 1, 1, false), 0,
                  [Task(0, RefreshFetch(1)), Task(0, LoopWait(1, 0))], [Operation("model", Some(Ok(())))], [])
  {
    FeasibleThen(INITIAL, [], Refresh);
    actions := [] + [Refresh];
    FeasibleThen(INITIAL, actions, RunOperation("model"));
    actions := actions + [RunOperation("model")];
    FeasibleThen(INITIAL, actions, OperationSettles(0, Ok(())));
    actions := actions + [OperationSettles(0, Ok(()))];
  }

  lemma RefreshThenInstall() returns (actions: seq<Action>)
    ensures Feasible(INITIAL, actions)
    ensures var w := After(INITIAL, actions);
            && w.f.ui.refreshing && !w.f.disposed && w.f.refreshGeneration == 2 && w.f.operationGeneration == 1
            && w.tasks == [Task(0, RefreshFetch(1)), Task(0, FinalFetch(1, 0, 2))]
            && w.operations == [Operation("model", Some(Ok(())))]
  {
    actions := RefreshThenRun();
    FeasibleThen(INITIAL, actions, Resume(1, NO_MODELS, LOST));
    actions := actions + [Resume(1, NO_MODELS, LOST)];
    FeasibleThen(INITIAL, actions, Resume(1, NO_MODELS, LOST));
    actions := actions + [Resume(1, NO_MODELS, LOST)];
  }

  /** An operation's last list call supersedes a refresh; everything ends well and `refreshing` is still set. */
  lemma RefreshingCanStick() returns (actions: seq<Action>)
    ensures Feasible(INITIAL, actions)
    ensures var w := After(INITIAL, actions);
            && w.f.ui.refreshing && !w.f.disposed && NoListInFlight(w)
            && (forall i :: 0 <= i < |w.operations| ==> w.operations[i].outcome == Some(Ok(())))
  {
    actions := RefreshThenInstall();
    FeasibleThen(INITIAL, actions, Resume(0, NO_MODELS, LOST));
    actions := actions + [Resume(0, NO_MODELS, LOST)];
    FeasibleThen(INITIAL, actions, Resume(1, NO_MODELS, LOST));
    actions := actions + [Resume(1, NO_MODELS, LOST)];
  }
}
