/**
 * The sweep of ImportSweep, taken step by step among imports and crashes, and the reconcile call of AudioStore are one
 * operation: they apply the same test to every name, and undisturbed the steps leave what the call leaves.
 */
module SweepReconcile {
  import AudioStore
  import MachineInts
  import opened ImportSweep

  /** What the names stand for: each import has its chunk id, digest and extension, each tombstone its own id. */
  datatype Spelling = Spelling(
    id: nat -> string, digest: nat -> string, extension: nat -> string, tombstone: nat -> string)

  ghost predicate WellSpelled(spelling: Spelling) {
    && (forall n :: AudioStore.IsChunkId(spelling.id(n)) && AudioStore.IsDigest(spelling.digest(n)))
    && (forall n :: AudioStore.IsCanonicalExtension(spelling.extension(n)))
    && (forall n :: AudioStore.IsChunkId(spelling.tombstone(n)))
    && forall m, n :: spelling.id(m) == spelling.id(n) ==> m == n
  }

  function FinalText(spelling: Spelling, n: nat): string {
    AudioStore.FinalName(spelling.digest(n), spelling.id(n), spelling.extension(n))
  }

  function Text(spelling: Spelling, name: Name): string {
    match name
    case Final(n) => FinalText(spelling, n)
    case Temp(n) => AudioStore.TempName(spelling.id(n))
    case Tombstone(k) => AudioStore.TempName(spelling.tombstone(k))
  }

  function Paths(spelling: Spelling, imports: set<nat>): set<string> {
    set n | n in imports :: AudioStore.PathOf(FinalText(spelling, n))
  }

  /** The file a name leads to; its bytes play no part in a sweep. */
  function FileOf(imports: seq<Import>, file: nat): AudioStore.File {
    AudioStore.Regular([], if file < |imports| then imports[file].modified else 0)
  }

  /** The reconcile call's test, on the rows and the time this sweep works with. */
  predicate Orphaned(spelling: Spelling, imports: seq<Import>, sweep: Sweep, dir: Directory, name: Name)
    requires name in dir
  {
    AudioStore.Orphan(
      Text(spelling, name), FileOf(imports, dir[name]), Paths(spelling, sweep.referenced), StaleBefore(sweep.start))
  }

  lemma FinalTextsDiffer(spelling: Spelling, m: nat, n: nat)
    requires WellSpelled(spelling) && FinalText(spelling, m) == FinalText(spelling, n)
    ensures m == n
  {
    AudioStore.FinalNameParses(spelling.digest(m), spelling.id(m), spelling.extension(m));
    AudioStore.FinalNameParses(spelling.digest(n), spelling.id(n), spelling.extension(n));
  }

  lemma SamePathSameText(a: string, b: string)
    requires AudioStore.PathOf(a) == AudioStore.PathOf(b)
    ensures a == b
  {
    assert AudioStore.PathOf(a)[6..] == a && AudioStore.PathOf(b)[6..] == b;
  }

  lemma FinalIsReferencedExactly(spelling: Spelling, referenced: set<nat>, n: nat)
    requires WellSpelled(spelling)
    ensures AudioStore.PathOf(FinalText(spelling, n)) in Paths(spelling, referenced) <==> n in referenced
    ensures AudioStore.IsRecognizedImporterName(FinalText(spelling, n))
    ensures !AudioStore.IsNativeFinalName(FinalText(spelling, n))
  {
    var extension := spelling.extension(n);
    AudioStore.FinalNameParses(spelling.digest(n), spelling.id(n), extension);
    AudioStore.ExtensionsKept(extension);
    AudioStore.ImportNamesAreNotNative(spelling.digest(n), spelling.id(n), MachineInts.Some(extension));
    if m :| m in referenced && AudioStore.PathOf(FinalText(spelling, m)) == AudioStore.PathOf(FinalText(spelling, n)) {
      SamePathSameText(FinalText(spelling, m), FinalText(spelling, n));
      FinalTextsDiffer(spelling, m, n);
    }
  }

  lemma TempIsNeverReferenced(spelling: Spelling, referenced: set<nat>, id: string)
    requires WellSpelled(spelling) && AudioStore.IsChunkId(id)
    ensures AudioStore.PathOf(AudioStore.TempName(id)) !in Paths(spelling, referenced)
    ensures AudioStore.IsRecognizedImporterName(AudioStore.TempName(id))
    ensures !AudioStore.IsNativeFinalName(AudioStore.TempName(id))
  {
    AudioStore.TempNameIsRecognized(id);
    AudioStore.TempIsNotNative(id);
    if m :| m in referenced && AudioStore.PathOf(FinalText(spelling, m))
                               == AudioStore.PathOf(AudioStore.TempName(id))
    {
      SamePathSameText(FinalText(spelling, m), AudioStore.TempName(id));
      AudioStore.FinalNameParses(spelling.digest(m), spelling.id(m), spelling.extension(m));
    }
  }

  /** The interleaved sweep puts a name up for removal exactly when the reconcile call would remove it. */
  lemma ExamineIsTheReconcileTest(spelling: Spelling, w: World, s: nat, name: Name)
    requires WellSpelled(spelling) && Enabled(w, Examine(s, name)) && name in w.dir
    ensures var t := Step(w, Examine(s, name));
            if Orphaned(spelling, w.imports, w.sweeps[s], w.dir, name) then
              t.sweeps[s].phase == Removing(name, w.dir[name])
            else t.sweeps[s].phase == Examining
    ensures AudioStore.Familiar(
              Text(spelling, name), FileOf(w.imports, w.dir[name]), Paths(spelling, w.sweeps[s].referenced))
  {
    match name {
      case Final(n) => FinalIsReferencedExactly(spelling, w.sweeps[s].referenced, n);
      case Temp(n) => TempIsNeverReferenced(spelling, w.sweeps[s].referenced, spelling.id(n));
      case Tombstone(k) => TempIsNeverReferenced(spelling, w.sweeps[s].referenced, spelling.tombstone(k));
    }
  }

  // A sweep that nothing disturbs

  ghost predicate TombstonesFresh(w: World) {
    forall k: nat :: w.tombstones <= k ==> Tombstone(k) !in w.dir && Tombstone(k) !in w.durable
  }

  lemma StepKeepsTombstonesFresh(w: World, a: Action)
    requires Enabled(w, a) && TombstonesFresh(w)
    ensures TombstonesFresh(Step(w, a))
  {
    if a.Crash? {
      forall k: nat | w.tombstones <= k
        ensures Tombstone(k) !in a.found
      {
        assert SameEntry(a.found, w.dir, Tombstone(k)) || SameEntry(a.found, w.durable, Tombstone(k));
      }
    }
  }

  lemma {:induction false} RunsKeepTombstonesFresh(w: World, actions: seq<Action>)
    requires Feasible(w, actions) && TombstonesFresh(w)
    ensures TombstonesFresh(After(w, actions))
    decreases |actions|
  {
    if actions != [] {
      StepKeepsTombstonesFresh(w, actions[0]);
      RunsKeepTombstonesFresh(Step(w, actions[0]), actions[1..]);
    }
  }

  lemma {:induction false} RunsJoin(w: World, first: seq<Action>, second: seq<Action>)
    requires Feasible(w, first) && Feasible(After(w, first), second)
    ensures Feasible(w, first + second) && After(w, first + second) == After(After(w, first), second)
    decreases |first|
  {
    if first == [] {
      assert first + second == second;
    } else {
      RunsJoin(Step(w, first[0]), first[1..], second);
      assert (first + second)[1..] == first[1..] + second;
    }
  }

  /** Nothing but this sweep, the names it removed and the number of tombstones has changed. */
  predicate SweptTo(w: World, s: nat, t: World, removed: set<Name>, examined: set<Name>)
    requires s < |w.sweeps|
  {
    && t.dir == w.dir - removed && t.imports == w.imports && t.now == w.now && w.tombstones <= t.tombstones
    && t.sweeps == w.sweeps[s := w.sweeps[s].(names := w.sweeps[s].names - examined)]
  }

  lemma RemovalTakesOneName(w: World, s: nat)
    requires s < |w.sweeps| && w.sweeps[s].phase.Removing? && TombstonesFresh(w)
    requires w.sweeps[s].phase.name in w.dir && w.dir[w.sweeps[s].phase.name] == w.sweeps[s].phase.file
    ensures Feasible(w, [Remove(s), Unlink(s)])
    ensures var t := After(w, [Remove(s), Unlink(s)]);
            && t.dir == w.dir - {w.sweeps[s].phase.name} && t.imports == w.imports && t.now == w.now
            && w.tombstones <= t.tombstones
            && t.sweeps == w.sweeps[s := w.sweeps[s].(phase := Examining)]
  {
    FeasibleThen(w, [], Remove(s));
    assert [] + [Remove(s)] == [Remove(s)];
    FeasibleThen(w, [Remove(s)], Unlink(s));
    assert [Remove(s)] + [Unlink(s)] == [Remove(s), Unlink(s)];
    assert Tombstone(w.tombstones) !in w.dir;
  }

  lemma SweepOneName(spelling: Spelling, w: World, s: nat, name: Name) returns (actions: seq<Action>)
    requires WellSpelled(spelling) && Enabled(w, Examine(s, name)) && name in w.dir && TombstonesFresh(w)
    ensures Feasible(w, actions)
    ensures var removed := if Orphaned(spelling, w.imports, w.sweeps[s], w.dir, name) then {name} else {};
            SweptTo(w, s, After(w, actions), removed, {name})
  {
    ExamineIsTheReconcileTest(spelling, w, s, name);
    FeasibleThen(w, [], Examine(s, name));
    actions := [] + [Examine(s, name)];
    if Orphaned(spelling, w.imports, w.sweeps[s], w.dir, name) {
      var t := Step(w, Examine(s, name));
      RemovalTakesOneName(t, s);
      RunsJoin(w, actions, [Remove(s), Unlink(s)]);
      actions := actions + [Remove(s), Unlink(s)];
    }
  }

  function NamesIn(names: seq<Name>): set<Name> {
    set name | name in names
  }

  lemma SweptOnAndOn(
      w: World, s: nat, t: World, removed: set<Name>, examined: set<Name>, u: World, removed': set<Name>,
      examined': set<Name>)
    requires s < |w.sweeps| && SweptTo(w, s, t, removed, examined) && SweptTo(t, s, u, removed', examined')
    ensures SweptTo(w, s, u, removed + removed', examined + examined')
  {
    assert w.sweeps[s].names - examined - examined' == w.sweeps[s].names - (examined + examined');
    assert w.dir - removed - removed' == w.dir - (removed + removed');
  }

  function OrphansAmong(spelling: Spelling, w: World, s: nat, names: seq<Name>): set<Name>
    requires s < |w.sweeps|
  {
    set name | name in names && name in w.dir && Orphaned(spelling, w.imports, w.sweeps[s], w.dir, name)
  }

  lemma {:induction false} SweepNames(spelling: Spelling, w: World, s: nat, names: seq<Name>)
    returns (actions: seq<Action>)
    requires WellSpelled(spelling) && s < |w.sweeps| && w.sweeps[s].phase == Examining && TombstonesFresh(w)
    requires forall i :: 0 <= i < |names| ==> names[i] in w.dir && names[i] in w.sweeps[s].names
    requires forall i, j :: 0 <= i < j < |names| ==> names[i] != names[j]
    ensures Feasible(w, actions)
    ensures SweptTo(w, s, After(w, actions), OrphansAmong(spelling, w, s, names), NamesIn(names))
    decreases |names|
  {
    if names == [] {
      actions := [];
      assert w.sweeps[s].names - NamesIn(names) == w.sweeps[s].names;
    } else {
      var first := SweepOneName(spelling, w, s, names[0]);
      var t := After(w, first);
      RunsKeepTombstonesFresh(w, first);
      var rest := SweepNames(spelling, t, s, names[1..]);
      RunsJoin(w, first, rest);
      actions := first + rest;
      assert forall name :: name in names[1..] ==> name in w.dir && name in t.dir;
      var removed := if Orphaned(spelling, w.imports, w.sweeps[s], w.dir, names[0]) then {names[0]} else {};
      SweptOnAndOn(w, s, t, removed, {names[0]}, After(t, rest), OrphansAmong(spelling, t, s, names[1..]),
        NamesIn(names[1..]));
      assert OrphansAmong(spelling, w, s, names) == removed + OrphansAmong(spelling, t, s, names[1..]);
      assert NamesIn(names) == {names[0]} + NamesIn(names[1..]);
    }
  }

  lemma {:induction false} Listing(names: set<Name>) returns (list: seq<Name>)
    ensures forall i, j :: 0 <= i < j < |list| ==> list[i] != list[j]
    ensures forall name :: name in list <==> name in names
  {
    if names == {} {
      list := [];
    } else {
      var name :| name in names;
      var rest := Listing(names - {name});
      list := [name] + rest;
    }
  }

  /**
   * From any point of any run at which a sweep has listed its rows, there is a continuation in which only the sweep
   * moves; it leaves exactly the names that the reconcile call keeps, and the directory synced.
   */
  lemma UndisturbedSweepReconciles(spelling: Spelling, actions: seq<Action>, s: nat) returns (more: seq<Action>)
    requires WellSpelled(spelling) && Feasible(INITIAL, actions) && Enabled(After(INITIAL, actions), ListNames(s))
    ensures Feasible(After(INITIAL, actions), more)
    ensures var w := After(INITIAL, actions);
            var t := After(w, more);
            && t.imports == w.imports && t.durable == t.dir && |t.sweeps| == |w.sweeps| && t.sweeps[s].phase == Ended
            && (forall name :: name in t.dir <==>
                  name in w.dir && !Orphaned(spelling, w.imports, w.sweeps[s], w.dir, name))
            && forall name :: name in t.dir ==> t.dir[name] == w.dir[name]
  {
    var w := After(INITIAL, actions);
    RunsKeepTombstonesFresh(INITIAL, actions);
    FeasibleThen(w, [], ListNames(s));
    more := [] + [ListNames(s)];
    var listed := After(w, more);
    var names := Listing(w.dir.Keys);
    var rest := SweepNames(spelling, listed, s, names);
    RunsJoin(w, more, rest);
    more := more + rest;
    FeasibleThen(w, more, EndSweep(s));
    more := more + [EndSweep(s)];
  }

  // What the two removals leave behind

  /** A file that a sweep has removed is not found again after a power loss. */
  lemma SweptFilesStayGone(w: World, s: nat, found: Directory)
    requires Enabled(w, Unlink(s)) && w.sweeps[s].phase.tombstone in w.dir
    requires var t := Step(w, Unlink(s)); CrashMayLeave(t.dir, t.durable, found)
    ensures found == w.dir - {w.sweeps[s].phase.tombstone}
  {
    var t := Step(w, Unlink(s));
    assert t.durable == t.dir == w.dir - {w.sweeps[s].phase.tombstone};
    assert forall name :: SameEntry(found, t.dir, name) || SameEntry(found, t.durable, name);
    assert forall name :: name in found <==> name in t.dir by {
      forall name
        ensures name in found <==> name in t.dir
      {
        assert SameEntry(found, t.dir, name);
      }
    }
    assert forall name :: name in found ==> SameEntry(found, t.dir, name);
  }

  /** In every run an import that fails its check or its commit takes its own file away, and no other. */
  lemma DiscardTakesOwnFile(actions: seq<Action>, n: nat)
    requires Feasible(INITIAL, actions) && Enabled(After(INITIAL, actions), Discard(n))
    ensures var w := After(INITIAL, actions);
            Step(w, Discard(n)).dir == w.dir - {Final(n)} && Step(w, Discard(n)).imports[n].phase == Failed
  {
    RunsKeepInv(INITIAL, actions);
    var w := After(INITIAL, actions);
    assert Final(n) in w.dir ==> w.dir[Final(n)] == n;
  }
}
