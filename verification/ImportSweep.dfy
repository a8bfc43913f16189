/**
 * Imports running against orphan sweeps and crashes (service.rs, service/audio_store.rs): every file-system and
 * catalog call is one step, a crash may lose any directory change that was not synced.
 */
module ImportSweep {
  /** ORPHAN_GRACE, in nanoseconds. */
  const ORPHAN_GRACE: nat := 600_000_000_000

  /** Import n writes its own temporary name and its own final name; removals go through fresh tombstones. */
  datatype Name = Temp(import_: nat) | Final(import_: nat) | Tombstone(number: nat)

  /** Which file each name leads to; a file is identified by the import that created it. */
  type Directory = map<Name, nat>

  datatype Phase =
    | Writing
    | Written
    | Renamed
    | Synced
    | Checked
    | Committed(at: nat)
    | Discarding
    | Failed

  datatype Import = Import(phase: Phase, modified: nat)

  datatype SweepPhase =
    | ListingRows | ListingNames | Examining | Removing(name: Name, file: nat) | Unlinking(tombstone: Name) | Ended

  /** `referenced` is the imports whose row was listed, `names` the directory entries still to look at. */
  datatype Sweep = Sweep(start: nat, phase: SweepPhase, referenced: set<nat>, names: set<Name>)

  datatype World = World(
    now: nat, dir: Directory, durable: Directory, imports: seq<Import>, sweeps: seq<Sweep>, tombstones: nat)

  datatype Action =
    | Tick(elapsed: nat)
    | Begin
    | Write(n: nat, done: bool, stamp: nat)
    | Rename(n: nat)
    | Sync(n: nat)
    | Check(n: nat)
    | Commit(n: nat, ok: bool)
    | Discard(n: nat)
    | StartSweep
    | ListRows(s: nat)
    | ListNames(s: nat)
    | Examine(s: nat, name: Name)
    | Remove(s: nat)
    | Unlink(s: nat)
    | EndSweep(s: nat)
    | Crash(found: Directory)

  const INITIAL := World(0, map[], map[], [], [], 0)

  function StaleBefore(start: nat): nat {
    if start >= ORPHAN_GRACE then start - ORPHAN_GRACE else 0
  }

  function CommittedImports(imports: seq<Import>): set<nat> {
    set n | 0 <= n < |imports| && imports[n].phase.Committed?
  }

  /** After a power loss each name leads to what it led to in memory or to what was last synced. */
  ghost predicate CrashMayLeave(dir: Directory, durable: Directory, found: Directory) {
    forall name :: SameEntry(found, dir, name) || SameEntry(found, durable, name)
  }

  predicate SameEntry(a: Directory, b: Directory, name: Name) {
    (name in a <==> name in b) && (name in a ==> a[name] == b[name])
  }

  ghost predicate Enabled(w: World, a: Action) {
    match a
    case Write(n, _, stamp) => n < |w.imports| && w.imports[n].phase == Writing && stamp <= w.now
    case Rename(n) => n < |w.imports| && w.imports[n].phase == Written
    case Sync(n) => n < |w.imports| && w.imports[n].phase == Renamed
    case Check(n) => n < |w.imports| && w.imports[n].phase == Synced
    case Commit(n, _) => n < |w.imports| && w.imports[n].phase == Checked
    case Discard(n) => n < |w.imports| && w.imports[n].phase == Discarding
    case ListRows(s) => s < |w.sweeps| && w.sweeps[s].phase == ListingRows
    case ListNames(s) => s < |w.sweeps| && w.sweeps[s].phase.ListingNames?
    case Examine(s, name) => s < |w.sweeps| && w.sweeps[s].phase.Examining? && name in w.sweeps[s].names
    case Remove(s) => s < |w.sweeps| && w.sweeps[s].phase.Removing?
    case Unlink(s) => s < |w.sweeps| && w.sweeps[s].phase.Unlinking?
    case EndSweep(s) => s < |w.sweeps| && w.sweeps[s].phase.Examining?
    case Crash(found) => CrashMayLeave(w.dir, w.durable, found)
    case _ => true
  }

  function AtPhase(w: World, n: nat, phase: Phase): World
    requires n < |w.imports|
  {
    w.(imports := w.imports[n := w.imports[n].(phase := phase)])
  }

  function SweepAt(w: World, s: nat, phase: SweepPhase): World
    requires s < |w.sweeps|
  {
    w.(sweeps := w.sweeps[s := w.sweeps[s].(phase := phase)])
  }

  function DoRename(w: World, n: nat): World
    requires n < |w.imports|
  {
    if Temp(n) in w.dir then AtPhase(w, n, Renamed).(dir := (w.dir - {Temp(n)})[Final(n) := w.dir[Temp(n)]])
    else AtPhase(w, n, Failed)
  }

  /** ensure_stored_current: the final name still leads to the file this import wrote. */
  predicate StoredCurrent(dir: Directory, n: nat) {
    Final(n) in dir && dir[Final(n)] == n
  }

  function ModifiedAt(w: World, file: nat): nat {
    if file < |w.imports| then w.imports[file].modified else 0
  }

  /**
   * One name of the sweep: kept when referenced or young, otherwise up for removal; the sweep fails when it is gone.
   */
  function DoExamine(w: World, s: nat, name: Name): World
    requires s < |w.sweeps|
  {
    var sweep := w.sweeps[s];
    var on := w.(sweeps := w.sweeps[s := sweep.(names := sweep.names - {name})]);
    if name.Final? && name.import_ in sweep.referenced then on
    else if name !in w.dir then SweepAt(w, s, Ended)
    else if ModifiedAt(w, w.dir[name]) <= StaleBefore(sweep.start) then SweepAt(on, s, Removing(name, w.dir[name]))
    else on
  }

  /** cleanup_regular_file up to its rename: nothing happens when the name leads elsewhere by now. */
  function DoRemove(w: World, s: nat): World
    requires s < |w.sweeps| && w.sweeps[s].phase.Removing?
  {
    var phase := w.sweeps[s].phase;
    if phase.name in w.dir && w.dir[phase.name] == phase.file then
      SweepAt(w, s, Unlinking(Tombstone(w.tombstones))).(
        dir := (w.dir - {phase.name})[Tombstone(w.tombstones) := phase.file], tombstones := w.tombstones + 1)
    else SweepAt(w, s, Examining)
  }

  function DoUnlink(w: World, s: nat): World
    requires s < |w.sweeps| && w.sweeps[s].phase.Unlinking?
  {
    var phase := w.sweeps[s].phase;
    if phase.tombstone in w.dir then
      var dir := w.dir - {phase.tombstone};
      SweepAt(w, s, Examining).(dir := dir, durable := dir)
    else SweepAt(w, s, Ended)
  }

  function Interrupted(imports: seq<Import>): (r: seq<Import>)
    ensures |r| == |imports|
    ensures forall n :: 0 <= n < |imports| ==>
              r[n] == if imports[n].phase.Committed? then imports[n] else imports[n].(phase := Failed)
  {
    seq(|imports|, n requires 0 <= n < |imports| =>
      if imports[n].phase.Committed? then imports[n] else imports[n].(phase := Failed))
  }

  ghost function Step(w: World, a: Action): World
    requires Enabled(w, a)
  {
    match a
    case Tick(elapsed) => w.(now := w.now + elapsed)
    case Begin => w.(imports := w.imports + [Import(Writing, w.now)], dir := w.dir[Temp(|w.imports|) := |w.imports|])
    case Write(n, done, stamp) => w.(imports := w.imports[n := Import(if done then Written else Writing, stamp)])
    case Rename(n) => DoRename(w, n)
    case Sync(n) => AtPhase(w, n, Synced).(durable := w.dir)
    case Check(n) => AtPhase(w, n, if StoredCurrent(w.dir, n) then Checked else Discarding)
    case Commit(n, ok) => AtPhase(w, n, if ok then Committed(w.now) else Discarding)
    case Discard(n) => AtPhase(w, n, Failed).(dir := if StoredCurrent(w.dir, n) then w.dir - {Final(n)} else w.dir)
    case StartSweep => w.(sweeps := w.sweeps + [Sweep(w.now, ListingRows, {}, {})])
    case ListRows(s) =>
      w.(sweeps := w.sweeps[s := w.sweeps[s].(phase := ListingNames, referenced := CommittedImports(w.imports))])
    case ListNames(s) => w.(sweeps := w.sweeps[s := w.sweeps[s].(phase := Examining, names := w.dir.Keys)])
    case Examine(s, name) => DoExamine(w, s, name)
    case Remove(s) => DoRemove(w, s)
    case Unlink(s) => DoUnlink(w, s)
    case EndSweep(s) => SweepAt(w, s, Ended).(durable := w.dir)
    case Crash(found) => w.(dir := found, durable := found, imports := Interrupted(w.imports), sweeps := [])
  }

  ghost predicate Feasible(w: World, actions: seq<Action>)
    decreases |actions|
  {
    actions == [] || (Enabled(w, actions[0]) && Feasible(Step(w, actions[0]), actions[1..]))
  }

  ghost function After(w: World, actions: seq<Action>): World
    requires Feasible(w, actions)
    decreases |actions|
  {
    if actions == [] then w else After(Step(w, actions[0]), actions[1..])
  }

  // What every run keeps

  /** Final(n) and Temp(n) only ever lead to the file of import n. */
  ghost predicate NamesLeadHome(dir: Directory) {
    forall n :: (Final(n) in dir ==> dir[Final(n)] == n) && (Temp(n) in dir ==> dir[Temp(n)] == n)
  }

  /** At this time the file is ten minutes old, or so old that no clock can tell. */
  predicate Overdue(modified: nat, now: nat) {
    modified == 0 || modified + ORPHAN_GRACE <= now
  }

  predicate OnDisk(w: World, n: nat) {
    StoredCurrent(w.dir, n) && StoredCurrent(w.durable, n)
  }

  /** A stored file that is not yet ten minutes old is there, and so is one whose row was committed before that. */
  predicate ImportSafe(w: World, n: nat)
    requires n < |w.imports|
  {
    var i := w.imports[n];
    && i.modified <= w.now
    && (i.phase.Renamed? ==> StoredCurrent(w.dir, n) || Overdue(i.modified, w.now))
    && (i.phase.Synced? || i.phase.Checked? ==> OnDisk(w, n) || Overdue(i.modified, w.now))
    && (i.phase.Committed? ==> i.phase.at <= w.now && (OnDisk(w, n) || Overdue(i.modified, i.phase.at)))
  }

  ghost predicate ImportsSafe(w: World) {
    forall n :: 0 <= n < |w.imports| ==> ImportSafe(w, n)
  }

  /** A row the sweep did not see was committed, if at all, after the sweep began. */
  predicate RowsSeen(w: World, start: nat, referenced: set<nat>) {
    forall n :: 0 <= n < |w.imports| && w.imports[n].phase.Committed? && n !in referenced ==>
      start <= w.imports[n].phase.at
  }

  predicate Stored(phase: Phase) {
    !phase.Writing? && !phase.Written?
  }

  /** What a sweep is about to remove is stale, and if it is a stored file, its row is not in the sweep's list. */
  predicate SweepSafe(w: World, sweep: Sweep) {
    && sweep.start <= w.now
    && (sweep.phase != ListingRows ==> RowsSeen(w, sweep.start, sweep.referenced))
    && (sweep.phase.Unlinking? ==> sweep.phase.tombstone.Tombstone?)
    && (sweep.phase.Removing? && sweep.phase.name.Final? ==>
          var n := sweep.phase.name.import_;
          && n < |w.imports| && n !in sweep.referenced && Stored(w.imports[n].phase)
          && w.imports[n].modified <= StaleBefore(sweep.start))
  }

  ghost predicate SweepsSafe(w: World) {
    forall s :: 0 <= s < |w.sweeps| ==> SweepSafe(w, w.sweeps[s])
  }

  /** Only renamed files have a final name. */
  ghost predicate NamesInPhase(w: World) {
    && NamesLeadHome(w.dir) && NamesLeadHome(w.durable)
    && forall n: nat :: Final(n) in w.dir || Final(n) in w.durable ==> n < |w.imports| && Stored(w.imports[n].phase)
  }

  ghost predicate Inv(w: World) {
    NamesInPhase(w) && ImportsSafe(w) && SweepsSafe(w)
  }

  // Each step keeps it

  lemma CrashKeepsNames(w: World, found: Directory)
    requires Enabled(w, Crash(found)) && NamesInPhase(w)
    ensures NamesInPhase(Step(w, Crash(found)))
  {
    forall n: nat
      ensures Final(n) in found ==> found[Final(n)] == n && n < |w.imports| && Stored(w.imports[n].phase)
      ensures Temp(n) in found ==> found[Temp(n)] == n
    {
      assert SameEntry(found, w.dir, Final(n)) || SameEntry(found, w.durable, Final(n));
      assert SameEntry(found, w.dir, Temp(n)) || SameEntry(found, w.durable, Temp(n));
    }
  }

  /** dir may lose names, gain tombstones, and gain the final name of the file just renamed. */
  lemma NamesStay(w: World, t: World)
    requires NamesInPhase(w) && |w.imports| <= |t.imports|
    requires forall n :: 0 <= n < |w.imports| && Stored(w.imports[n].phase) ==> Stored(t.imports[n].phase)
    requires forall n: nat :: Final(n) in t.dir ==>
        t.dir[Final(n)] == n && n < |t.imports| && Stored(t.imports[n].phase)
    requires forall n: nat :: Temp(n) in t.dir ==> t.dir[Temp(n)] == n
    requires t.durable == w.durable || t.durable == t.dir
    ensures NamesInPhase(t)
  {
  }

  lemma RenameKeepsNames(w: World, n: nat)
    requires Enabled(w, Rename(n)) && NamesInPhase(w)
    ensures NamesInPhase(DoRename(w, n))
  {
    var t := DoRename(w, n);
    forall m: nat
      ensures Final(m) in t.dir ==> t.dir[Final(m)] == m && m < |t.imports| && Stored(t.imports[m].phase)
    {
      assert m != n ==> (Final(m) in t.dir <==> Final(m) in w.dir);
    }
  }

  lemma PhasesAdvance(w: World, a: Action)
    requires Enabled(w, a)
    ensures |w.imports| <= |Step(w, a).imports|
    ensures forall n :: 0 <= n < |w.imports| && Stored(w.imports[n].phase) ==> Stored(Step(w, a).imports[n].phase)
  {
  }

  lemma OthersAddNoNames(w: World, a: Action)
    requires Enabled(w, a) && !a.Crash? && !a.Rename? && NamesInPhase(w)
    ensures forall n: nat :: Final(n) in Step(w, a).dir ==> Final(n) in w.dir && Step(w, a).dir[Final(n)] == n
    ensures forall n: nat :: Temp(n) in Step(w, a).dir ==> Step(w, a).dir[Temp(n)] == n
    ensures Step(w, a).durable == w.durable || Step(w, a).durable == Step(w, a).dir
  {
  }

  lemma StepKeepsNames(w: World, a: Action)
    requires Enabled(w, a) && NamesInPhase(w)
    ensures NamesInPhase(Step(w, a))
  {
    if a.Crash? {
      CrashKeepsNames(w, a.found);
    } else {
      var t := Step(w, a);
      PhasesAdvance(w, a);
      if a.Rename? {
        RenameKeepsNames(w, a.n);
      } else {
        OthersAddNoNames(w, a);
        NamesStay(w, t);
      }
    }
  }

  /** At the moment of a removal the file is ten minutes old, and a row committed by then was committed that late. */
  lemma RemovalIsOverdue(w: World, s: nat)
    requires NamesInPhase(w) && ImportsSafe(w) && SweepsSafe(w)
    requires s < |w.sweeps| && w.sweeps[s].phase.Removing? && w.sweeps[s].phase.name.Final?
    ensures var n := w.sweeps[s].phase.name.import_;
            && n < |w.imports| && Overdue(w.imports[n].modified, w.now)
            && (w.imports[n].phase.Committed? ==> Overdue(w.imports[n].modified, w.imports[n].phase.at))
  {
    assert SweepSafe(w, w.sweeps[s]);
  }

  /** Files stay as they are, or one overdue file goes. */
  lemma ImportStays(w: World, t: World, n: nat)
    requires n < |w.imports| && n < |t.imports| && t.imports[n] == w.imports[n] && w.now <= t.now && ImportSafe(w, n)
    requires t.durable == w.durable || t.durable == t.dir
    requires StoredCurrent(w.dir, n) ==>
               || StoredCurrent(t.dir, n)
               || (&& Overdue(w.imports[n].modified, t.now)
                   && (w.imports[n].phase.Committed? ==> Overdue(w.imports[n].modified, w.imports[n].phase.at)))
    ensures ImportSafe(t, n)
  {
  }

  /** An import's own step. */
  lemma OwnStepKeepsImport(w: World, a: Action)
    requires Enabled(w, a) && Inv(w)
    requires a.Write? || a.Rename? || a.Sync? || a.Check? || a.Commit? || a.Discard?
    ensures ImportSafe(Step(w, a), a.n)
  {
    assert ImportSafe(w, a.n);
  }

  predicate OwnStep(a: Action) {
    a.Write? || a.Rename? || a.Sync? || a.Check? || a.Commit? || a.Discard?
  }

  lemma OnlyRemovalsTakeFiles(w: World, a: Action, n: nat)
    requires Enabled(w, a) && SweepsSafe(w) && !a.Crash? && !(OwnStep(a) && a.n == n) && StoredCurrent(w.dir, n)
    ensures StoredCurrent(Step(w, a).dir, n) || (a.Remove? && w.sweeps[a.s].phase.name == Final(n))
  {
    if a.Unlink? {
      assert SweepSafe(w, w.sweeps[a.s]);
    }
  }

  lemma CrashKeepsImports(w: World, found: Directory)
    requires Enabled(w, Crash(found)) && Inv(w)
    ensures ImportsSafe(Step(w, Crash(found)))
  {
    var t := Step(w, Crash(found));
    forall n | 0 <= n < |t.imports|
      ensures ImportSafe(t, n)
    {
      assert ImportSafe(w, n);
      assert SameEntry(found, w.dir, Final(n)) || SameEntry(found, w.durable, Final(n));
    }
  }

  lemma StepKeepsImports(w: World, a: Action)
    requires Enabled(w, a) && Inv(w)
    ensures ImportsSafe(Step(w, a))
  {
    if a.Crash? {
      CrashKeepsImports(w, a.found);
    } else {
      var t := Step(w, a);
      forall n | 0 <= n < |t.imports|
        ensures ImportSafe(t, n)
      {
        if OwnStep(a) && a.n == n {
          OwnStepKeepsImport(w, a);
        } else if n < |w.imports| {
          assert ImportSafe(w, n);
          if StoredCurrent(w.dir, n) {
            OnlyRemovalsTakeFiles(w, a, n);
          }
          if a.Remove? && w.sweeps[a.s].phase.name == Final(n) {
            RemovalIsOverdue(w, a.s);
          }
          ImportStays(w, t, n);
        }
      }
    }
  }

  /** A sweep that does not move stays safe while others do. */
  lemma SweepStays(w: World, a: Action, sweep: Sweep)
    requires Enabled(w, a) && !a.Crash? && SweepSafe(w, sweep)
    ensures SweepSafe(Step(w, a), sweep)
  {
  }

  lemma OwnSweepStep(w: World, a: Action)
    requires Enabled(w, a) && Inv(w)
    requires a.ListRows? || a.ListNames? || a.Examine? || a.Remove? || a.Unlink? || a.EndSweep?
    ensures SweepSafe(Step(w, a), Step(w, a).sweeps[a.s])
  {
    assert SweepSafe(w, w.sweeps[a.s]);
  }

  lemma StepKeepsSweeps(w: World, a: Action)
    requires Enabled(w, a) && Inv(w)
    ensures SweepsSafe(Step(w, a))
  {
    if !a.Crash? {
      var t := Step(w, a);
      forall s | 0 <= s < |t.sweeps|
        ensures SweepSafe(t, t.sweeps[s])
      {
        if s < |w.sweeps| && t.sweeps[s] == w.sweeps[s] {
          SweepStays(w, a, w.sweeps[s]);
        } else if s < |w.sweeps| {
          OwnSweepStep(w, a);
        }
      }
    }
  }

  lemma {:induction false} RunsKeepInv(w: World, actions: seq<Action>)
    requires Inv(w) && Feasible(w, actions)
    ensures Inv(After(w, actions))
    decreases |actions|
  {
    if actions != [] {
      StepKeepsNames(w, actions[0]);
      StepKeepsImports(w, actions[0]);
      StepKeepsSweeps(w, actions[0]);
      RunsKeepInv(Step(w, actions[0]), actions[1..]);
    }
  }

  // Theorems

  /** Over all runs, a file whose row was committed before it was ten minutes old is on disk, crashes included. */
  lemma PromptCommitsKeepTheirFile(actions: seq<Action>, n: nat)
    requires Feasible(INITIAL, actions) && n < |After(INITIAL, actions).imports|
    requires var i := After(INITIAL, actions).imports[n];
             i.phase.Committed? && 0 < i.modified && i.phase.at < i.modified + ORPHAN_GRACE
    ensures OnDisk(After(INITIAL, actions), n)
  {
    RunsKeepInv(INITIAL, actions);
    assert ImportSafe(After(INITIAL, actions), n);
  }

  /** Until its file is ten minutes old an import always finds it, so its check before the commit succeeds. */
  lemma YoungFilesPassTheCheck(actions: seq<Action>, n: nat)
    requires Feasible(INITIAL, actions) && Enabled(After(INITIAL, actions), Check(n))
    requires var w := After(INITIAL, actions);
             0 < w.imports[n].modified && w.now < w.imports[n].modified + ORPHAN_GRACE
    ensures Step(After(INITIAL, actions), Check(n)).imports[n].phase == Checked
    ensures OnDisk(After(INITIAL, actions), n)
  {
    RunsKeepInv(INITIAL, actions);
    assert ImportSafe(After(INITIAL, actions), n);
  }

  predicate RenamedBefore(actions: seq<Action>, n: nat, k: nat) {
    exists i :: 0 <= i < k && i < |actions| && actions[i] == Rename(n)
  }

  predicate SyncedBefore(actions: seq<Action>, n: nat, k: nat) {
    exists i :: 0 <= i < k && i < |actions| && actions[i] == Sync(n) && RenamedBefore(actions, n, i)
  }

  predicate CheckedBefore(actions: seq<Action>, n: nat, k: nat) {
    exists i :: 0 <= i < k && i < |actions| && actions[i] == Check(n) && SyncedBefore(actions, n, i)
  }

  predicate CommittedBefore(actions: seq<Action>, n: nat, k: nat) {
    exists i :: 0 <= i < k && i < |actions| && actions[i] == Commit(n, true) && CheckedBefore(actions, n, i)
  }

  /** What an import's phase says about the steps taken so far. */
  predicate Past(phase: Phase, done: seq<Action>, n: nat) {
    && (phase.Renamed? ==> RenamedBefore(done, n, |done|))
    && (phase.Synced? ==> SyncedBefore(done, n, |done|))
    && (phase.Checked? ==> CheckedBefore(done, n, |done|))
    && (phase.Committed? ==> CommittedBefore(done, n, |done|))
  }

  lemma LaterStillBefore(done: seq<Action>, a: Action, n: nat, k: nat)
    requires k <= |done|
    ensures RenamedBefore(done, n, k) ==> RenamedBefore(done + [a], n, k)
    ensures SyncedBefore(done, n, k) ==> SyncedBefore(done + [a], n, k)
    ensures CheckedBefore(done, n, k) ==> CheckedBefore(done + [a], n, k)
    ensures CommittedBefore(done, n, k) ==> CommittedBefore(done + [a], n, k)
  {
    assert forall i: nat :: i < k ==> (done + [a])[i] == done[i];
    assert forall i: nat :: i < k && RenamedBefore(done, n, i) ==> RenamedBefore(done + [a], n, i);
    assert forall i: nat :: i < k && SyncedBefore(done, n, i) ==> SyncedBefore(done + [a], n, i);
    assert forall i: nat :: i < k && CheckedBefore(done, n, i) ==> CheckedBefore(done + [a], n, i);
  }

  lemma StepKeepsPast(w: World, a: Action, done: seq<Action>, n: nat)
    requires Enabled(w, a) && n < |Step(w, a).imports|
    requires n < |w.imports| ==> Past(w.imports[n].phase, done, n)
    ensures Past(Step(w, a).imports[n].phase, done + [a], n)
  {
    LaterStillBefore(done, a, n, |done|);
    assert (done + [a])[|done|] == a;
    assert n < |w.imports| && Step(w, a).imports[n].phase != w.imports[n].phase ==>
        || a == Rename(n) || a == Sync(n) || a == Check(n) || a == Commit(n, true)
        || Past(Step(w, a).imports[n].phase, done + [a], n);
  }

  lemma {:induction false} RunsKeepPast(w: World, done: seq<Action>, actions: seq<Action>)
    requires Feasible(w, actions) && forall n :: 0 <= n < |w.imports| ==> Past(w.imports[n].phase, done, n)
    ensures forall n :: 0 <= n < |After(w, actions).imports| ==>
        Past(After(w, actions).imports[n].phase, done + actions, n)
    decreases |actions|
  {
    if actions == [] {
      assert done + actions == done;
    } else {
      forall n | 0 <= n < |Step(w, actions[0]).imports|
        ensures Past(Step(w, actions[0]).imports[n].phase, done + [actions[0]], n)
      {
        StepKeepsPast(w, actions[0], done, n);
      }
      RunsKeepPast(Step(w, actions[0]), done + [actions[0]], actions[1..]);
      assert done + [actions[0]] + actions[1..] == done + actions;
    }
  }

  /** In every run a committed row's file was renamed, then its directory synced, then checked, then committed. */
  lemma CommitFollowsRenameAndSync(actions: seq<Action>, n: nat)
    requires Feasible(INITIAL, actions) && n < |After(INITIAL, actions).imports|
    requires After(INITIAL, actions).imports[n].phase.Committed?
    ensures CommittedBefore(actions, n, |actions|)
  {
    RunsKeepPast(INITIAL, [], actions);
    assert [] + actions == actions;
  }

  // The bound is exact

  lemma {:induction false} FeasibleThen(w: World, actions: seq<Action>, a: Action)
    requires Feasible(w, actions) && Enabled(After(w, actions), a)
    ensures Feasible(w, actions + [a]) && After(w, actions + [a]) == Step(After(w, actions), a)
    decreases |actions|
  {
    if actions == [] {
      assert [a][1..] == [];
    } else {
      FeasibleThen(Step(w, actions[0]), actions[1..], a);
      assert (actions + [a])[1..] == actions[1..] + [a];
    }
  }

  lemma RunOneImport(modified: nat) returns (actions: seq<Action>)
    ensures Feasible(INITIAL, actions)
    ensures After(INITIAL, actions) ==
            World(modified, map[Final(0) := 0], map[Final(0) := 0], [Import(Checked, modified)], [], 0)
  {
    FeasibleThen(INITIAL, [], Tick(modified));
    actions := [] + [Tick(modified)];
    FeasibleThen(INITIAL, actions, Begin);
    actions := actions + [Begin];
    FeasibleThen(INITIAL, actions, Write(0, true, modified));
    actions := actions + [Write(0, true, modified)];
    FeasibleThen(INITIAL, actions, Rename(0));
    actions := actions + [Rename(0)];
    FeasibleThen(INITIAL, actions, Sync(0));
    actions := actions + [Sync(0)];
    FeasibleThen(INITIAL, actions, Check(0));
    actions := actions + [Check(0)];
  }

  lemma RunSweepUpToRemoval(modified: nat, delay: nat) returns (actions: seq<Action>)
    requires delay >= ORPHAN_GRACE
    ensures Feasible(INITIAL, actions)
    ensures After(INITIAL, actions) ==
            World(modified + delay, map[Final(0) := 0], map[Final(0) := 0], [Import(Checked, modified)],
                  [Sweep(modified + delay, Removing(Final(0), 0), {}, {})], 0)
  {
    actions := RunOneImport(modified);
    FeasibleThen(INITIAL, actions, Tick(delay));
    actions := actions + [Tick(delay)];
    FeasibleThen(INITIAL, actions, StartSweep);
    actions := actions + [StartSweep];
    FeasibleThen(INITIAL, actions, ListRows(0));
    actions := actions + [ListRows(0)];
    assert After(INITIAL, actions).sweeps[0].referenced == {};
    FeasibleThen(INITIAL, actions, ListNames(0));
    actions := actions + [ListNames(0)];
    assert After(INITIAL, actions).sweeps[0].names == {Final(0)};
    FeasibleThen(INITIAL, actions, Examine(0, Final(0)));
    actions := actions + [Examine(0, Final(0))];
    assert After(INITIAL, actions).sweeps[0].names == {};
  }

  /** For every delay of ten minutes or more there is a run in which the committed row's file is gone. */
  lemma LateCommitCanLoseItsFile(modified: nat, delay: nat) returns (actions: seq<Action>)
    requires delay >= ORPHAN_GRACE
    ensures Feasible(INITIAL, actions)
    ensures var w := After(INITIAL, actions);
            w.imports == [Import(Committed(modified + delay), modified)] && Final(0) !in w.dir
  {
    actions := RunSweepUpToRemoval(modified, delay);
    FeasibleThen(INITIAL, actions, Commit(0, true));
    actions := actions + [Commit(0, true)];
    FeasibleThen(INITIAL, actions, Remove(0));
    actions := actions + [Remove(0)];
  }
}
