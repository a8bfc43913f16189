/** Chains of manual revisions: what each edit must keep of the revision before it. */
module EvidenceEdits {
  import opened MachineInts
  import opened Domain
  import opened StableSort
  import opened EvidenceCatalog
  import opened EvidenceRuns

  /** What an edit may not touch. */
  datatype Boundary = Boundary(id: string, startMs: i64, endMs: i64, source: AudioSource)

  datatype Binding = Binding(chunkId: Option<string>, chunkStartMs: Option<i64>, chunkEndMs: Option<i64>)

  function Boundaries(segments: seq<Segment>): (r: seq<Boundary>)
    ensures |r| == |segments|
    ensures forall i :: 0 <= i < |segments| ==>
              r[i] == Boundary(segments[i].id, segments[i].startMs, segments[i].endMs, segments[i].source)
  {
    seq(|segments|, i requires 0 <= i < |segments| =>
      Boundary(segments[i].id, segments[i].startMs, segments[i].endMs, segments[i].source))
  }

  function Bindings(segments: seq<Segment>): (r: seq<Binding>)
    ensures |r| == |segments|
    ensures forall i :: 0 <= i < |segments| ==>
              r[i] == Binding(segments[i].chunkId, segments[i].chunkStartMs, segments[i].chunkEndMs)
  {
    seq(|segments|, i requires 0 <= i < |segments| =>
      Binding(segments[i].chunkId, segments[i].chunkStartMs, segments[i].chunkEndMs))
  }

  /** The listed segments of the session's newest revision. */
  function LatestSegments(t: Tables, sessionId: string): seq<Segment> {
    match Latest(t, sessionId)
    case None => []
    case Some(revision) => SegmentsOf(t, revision.id)
  }

  // One edit

  predicate AllFit(latest: seq<Segment>, edited: seq<Segment>)
    requires |latest| == |edited|
  {
    forall i :: 0 <= i < |latest| ==> EditError(latest[i], edited[i]) == None
  }

  lemma AllFitOneMore(latest: seq<Segment>, edited: seq<Segment>, n: nat)
    requires |latest| == |edited| == n + 1
    ensures AllFit(latest, edited) <==> AllFit(latest[..n], edited[..n]) && EditError(latest[n], edited[n]) == None
  {
    assert forall i :: 0 <= i < n ==> latest[..n][i] == latest[i] && edited[..n][i] == edited[i];
  }

  lemma {:induction false} DeriveAllIs(latest: seq<Segment>, edited: seq<Segment>, legacy: Option<ChunkRow>)
    requires |latest| == |edited|
    ensures DeriveAll(latest, edited, legacy).Ok? <==> AllFit(latest, edited)
    ensures DeriveAll(latest, edited, legacy).Ok? ==>
              var derived := DeriveAll(latest, edited, legacy).value;
              && |derived| == |latest|
              && forall i :: 0 <= i < |latest| ==> derived[i] == Derived(latest[i], edited[i], legacy)
  {
    if latest != [] {
      var n := |latest| - 1;
      var front, edits := latest[..n], edited[..n];
      DeriveAllIs(front, edits, legacy);
      AllFitOneMore(latest, edited, n);
      if AllFit(latest, edited) {
        var derived := DeriveAll(front, edits, legacy).value;
        assert DeriveAll(latest, edited, legacy) == Ok(derived + [Derived(latest[n], edited[n], legacy)]);
        assert forall i :: 0 <= i < n ==> front[i] == latest[i] && edits[i] == edited[i];
      }
    }
  }

  /** Everything one accepted edit guarantees about what it derives. */
  lemma EditSegmentsIs(t: Tables, sessionId: string, latest: seq<Segment>, edited: seq<Segment>)
    requires latest != [] && EditSegments(t, sessionId, latest, edited).Ok?
    ensures var derived := EditSegments(t, sessionId, latest, edited).value;
            && Boundaries(derived) == Boundaries(latest) == Boundaries(edited)
            && AllBound(derived)
            && (AllBound(latest) ==> Bindings(derived) == Bindings(latest))
            && (forall i :: 0 <= i < |derived| ==> derived[i].text == Trim(edited[i].text) != "")
  {
    var legacy := Fallback(t, sessionId, latest).value;
    DeriveAllIs(latest, edited, legacy);
    var derived := EditSegments(t, sessionId, latest, edited).value;
    forall i | 0 <= i < |latest|
      ensures derived[i] == Derived(latest[i], edited[i], legacy) && SameBoundaries(latest[i], edited[i])
      ensures Bound(derived[i]) && derived[i].text == Trim(edited[i].text) != ""
    {
      assert EditError(latest[i], edited[i]) == None;
      assert legacy.None? ==> Bound(latest[i]);
    }
  }

  lemma SameBoundariesSameOrder(latest: seq<Segment>, derived: seq<Segment>)
    requires Sorted(latest, SegmentBefore) && Boundaries(derived) == Boundaries(latest)
    ensures Sorted(derived, SegmentBefore)
  {
    forall i, j | 0 <= i < j < |derived|
      ensures !SegmentBefore(derived[j], derived[i])
    {
      assert Boundaries(derived)[i] == Boundaries(latest)[i] && Boundaries(derived)[j] == Boundaries(latest)[j];
      assert !SegmentBefore(latest[j], latest[i]);
    }
  }

  lemma SegmentsAreSorted(t: Tables, id: string)
    ensures Sorted(SegmentsOf(t, id), SegmentBefore)
  {
    SegmentOrderIsWeak();
    SortIsSorted(RowsOf(t.segments, id), SegmentBefore);
  }

  /** What is read of a revision are its rows: each as often as it is stored. */
  lemma {:induction false} RowsOfCounts(rows: seq<SegmentRow>, id: string, segment: Segment)
    ensures multiset(RowsOf(rows, id))[segment] == multiset(rows)[SegmentRow(id, segment)]
  {
    if rows != [] {
      var front, last := rows[..|rows| - 1], rows[|rows| - 1];
      RowsOfCounts(front, id, segment);
      assert rows == front + [last];
    }
  }

  /** list_segments gives a revision's segments, each once, by start, then by end, then by id. */
  lemma SegmentsListedByTime(t: Tables, id: string)
    ensures multiset(SegmentsOf(t, id)) == multiset(RowsOf(t.segments, id))
    ensures forall i, j :: 0 <= i < j < |SegmentsOf(t, id)| ==>
              var a, b := SegmentsOf(t, id)[i], SegmentsOf(t, id)[j];
              || a.startMs < b.startMs
              || (a.startMs == b.startMs && (a.endMs < b.endMs || (a.endMs == b.endMs && !TextBefore(b.id, a.id))))
  {
    SegmentsAreSorted(t, id);
    forall i, j | 0 <= i < j < |SegmentsOf(t, id)|
      ensures !SegmentBefore(SegmentsOf(t, id)[j], SegmentsOf(t, id)[i])
    {
    }
  }

  // An accepted edit is always storable

  predicate DistinctIds(segments: seq<Segment>) {
    forall i, j :: 0 <= i < j < |segments| ==> segments[i].id != segments[j].id
  }

  lemma {:induction false} RowsOfAreStored(rows: seq<SegmentRow>, id: string)
    ensures forall segment :: segment in RowsOf(rows, id) ==> SegmentRow(id, segment) in rows
  {
    if rows != [] {
      RowsOfAreStored(rows[..|rows| - 1], id);
    }
  }

  lemma {:induction false} RowsOfAreDistinct(rows: seq<SegmentRow>, id: string)
    requires SegmentKeysUnique(rows)
    ensures DistinctIds(RowsOf(rows, id))
  {
    if rows != [] {
      var front, last := rows[..|rows| - 1], rows[|rows| - 1];
      RowsOfAreDistinct(front, id);
      RowsOfAreStored(front, id);
      forall segment | segment in RowsOf(front, id) && last.revisionId == id
        ensures segment.id != last.segment.id
      {
        var k :| 0 <= k < |front| && front[k] == SegmentRow(id, segment);
        assert !SameKey(rows[k], last);
      }
    }
  }

  lemma DistinctIdsOfPermutation(a: seq<Segment>, b: seq<Segment>)
    requires DistinctIds(a) && multiset(a) == multiset(b)
    ensures DistinctIds(b)
  {
    SegmentOrderIsWeak();
    forall i, j | 0 <= i < j < |a|
      ensures SegmentBefore(a[i], a[j]) || SegmentBefore(a[j], a[i])
    {
      TextOrderIsStrict(a[i].id, a[j].id);
    }
    SeparatedIsUnordered(a, b, SegmentBefore);
    forall i, j | 0 <= i < j < |b|
      ensures b[i].id != b[j].id
    {
      assert b[i] in multiset(a) && b[j] in multiset(a);
      assert SegmentBefore(b[i], b[j]) || SegmentBefore(b[j], b[i]);
      TextOrderIsStrict(b[i].id, b[i].id);
      var k :| 0 <= k < |a| && a[k] == b[i];
      var l :| 0 <= l < |a| && a[l] == b[j];
      assert k != l;
    }
  }

  lemma ListedChunksAreKnown(t: Tables, id: string, i: nat)
    requires ChunksKnown(t) && i < |SegmentsOf(t, id)| && SegmentsOf(t, id)[i].chunkId.Some?
    ensures KnownChunk(t, SegmentsOf(t, id)[i].chunkId.value)
  {
    RowsOfAreStored(t.segments, id);
    assert SegmentsOf(t, id)[i] in multiset(RowsOf(t.segments, id));
    var k :| 0 <= k < |t.segments| && t.segments[k] == SegmentRow(id, SegmentsOf(t, id)[i]);
  }

  /** The fallback looks at exactly the session's available chunks. */
  lemma {:induction false} AvailableChunksAre(chunks: seq<ChunkRow>, sessionId: string)
    ensures forall chunk :: chunk in AvailableChunks(chunks, sessionId) <==>
              chunk in chunks && chunk.sessionId == sessionId && chunk.available
  {
    if chunks != [] {
      AvailableChunksAre(chunks[..|chunks| - 1], sessionId);
      assert chunks == chunks[..|chunks| - 1] + [chunks[|chunks| - 1]];
    }
  }

  lemma DerivedChunksAreKnown(t: Tables, sessionId: string, id: string, edited: seq<Segment>, i: nat)
    requires ChunksKnown(t) && EditSegments(t, sessionId, SegmentsOf(t, id), edited).Ok? && i < |SegmentsOf(t, id)|
    requires i < |EditSegments(t, sessionId, SegmentsOf(t, id), edited).value|
    ensures var derived := EditSegments(t, sessionId, SegmentsOf(t, id), edited).value;
            derived[i].chunkId.Some? ==> KnownChunk(t, derived[i].chunkId.value)
  {
    var latest := SegmentsOf(t, id);
    var legacy := Fallback(t, sessionId, latest).value;
    DeriveAllIs(latest, edited, legacy);
    if latest[i].chunkId.Some? {
      ListedChunksAreKnown(t, id, i);
    } else if legacy.Some? {
      AvailableChunksAre(t.chunks, sessionId);
      assert legacy.value in t.chunks;
      var k :| 0 <= k < |t.chunks| && t.chunks[k] == legacy.value;
    }
  }

  lemma FreshSegmentsAreInsertable(t: Tables, newId: string, segments: seq<Segment>)
    requires SegmentsBelong(t) && FreshRevisionId(t, newId) && DistinctIds(segments)
    requires forall i :: 0 <= i < |segments| && segments[i].chunkId.Some? ==> KnownChunk(t, segments[i].chunkId.value)
    ensures AllInsertable(t, newId, segments)
  {
    forall i | 0 <= i < |segments|
      ensures Insertable(t, t.segments + RowsFor(newId, segments[..i]), newId, segments[i])
    {
      var rows, n := t.segments + RowsFor(newId, segments[..i]), |t.segments|;
      forall k | 0 <= k < |rows|
        ensures !(rows[k].revisionId == newId && rows[k].segment.id == segments[i].id)
      {
        if k < n {
          assert HasRevision(t.revisions, t.segments[k].revisionId);
        } else {
          assert rows[k].segment == segments[k - n];
        }
      }
    }
  }

  lemma LatestIsLast(t: Tables, sessionId: string)
    requires Inv(t) && Latest(t, sessionId).Some?
    ensures var latest := Latest(t, sessionId).value;
            && latest in t.revisions && latest.sessionId == sessionId && sessionId in t.sessions
            && latest.number == |OfSession(t.revisions, sessionId)|
    ensures forall i :: 0 <= i < |t.revisions| && t.revisions[i].sessionId == sessionId ==>
              t.revisions[i].number <= Latest(t, sessionId).value.number
  {
    RevisionsInAppendOrder(t, sessionId);
    NumbersOfSession(t.revisions, sessionId);
    OfSessionIsStored(t.revisions, sessionId);
    NumbersAreBounded(t.revisions, sessionId);
  }

  /** No constraint of the tables ever refuses an edit that passed its checks, given a fresh revision id. */
  lemma AcceptedEditIsStorable(t: Tables, sessionId: string, edited: seq<Segment>, newId: string)
    requires Inv(t) && ManualEdit(t, sessionId, edited).Ok? && FreshRevisionId(t, newId)
    ensures var (latest, derived) := ManualEdit(t, sessionId, edited).value;
            Appendable(t, RevisionRow(newId, sessionId, latest.number + 1, "manual"), derived)
  {
    var (revision, derived) := ManualEdit(t, sessionId, edited).value;
    LatestIsLast(t, sessionId);
    var latest := SegmentsOf(t, revision.id);
    assert latest != [];
    EditSegmentsIs(t, sessionId, latest, edited);
    RowsOfAreDistinct(t.segments, revision.id);
    DistinctIdsOfPermutation(RowsOf(t.segments, revision.id), latest);
    forall i, j | 0 <= i < j < |derived|
      ensures derived[i].id != derived[j].id
    {
      assert Boundaries(derived)[i] == Boundaries(latest)[i] && Boundaries(derived)[j] == Boundaries(latest)[j];
    }
    forall i | 0 <= i < |derived| && derived[i].chunkId.Some?
      ensures KnownChunk(t, derived[i].chunkId.value)
    {
      DerivedChunksAreKnown(t, sessionId, revision.id, edited, i);
    }
    FreshSegmentsAreInsertable(t, newId, derived);
  }

  // Chains of edits

  lemma {:induction false} OfSessionMore(rows: seq<RevisionRow>, row: RevisionRow, sessionId: string)
    ensures OfSession(rows + [row], sessionId)
         == OfSession(rows, sessionId) + if row.sessionId == sessionId then [row] else []
  {
    assert (rows + [row])[..|rows|] == rows;
  }

  lemma LatestAfterStoring(t: Tables, row: RevisionRow, segments: seq<Segment>, sessionId: string)
    requires Inv(t) && Appendable(t, row, segments) && row.number == |OfSession(t.revisions, row.sessionId)| + 1
    ensures Latest(Appended(t, row, segments), sessionId)
        == if row.sessionId == sessionId then Some(row) else Latest(t, sessionId)
  {
    var u := Appended(t, row, segments);
    StoringKeepsInv(t, row, segments);
    RevisionsInAppendOrder(t, sessionId);
    RevisionsInAppendOrder(u, sessionId);
    OfSessionMore(t.revisions, row, sessionId);
  }

  lemma LatestStaysElsewhere(t: Tables, row: RevisionRow, segments: seq<Segment>, sessionId: string)
    requires Inv(t) && Appendable(t, row, segments) && row.number == |OfSession(t.revisions, row.sessionId)| + 1
    requires row.sessionId != sessionId
    ensures LatestSegments(Appended(t, row, segments), sessionId) == LatestSegments(t, sessionId)
  {
    LatestAfterStoring(t, row, segments, sessionId);
    var latest := Latest(t, sessionId);
    if latest.Some? {
      LatestIsLast(t, sessionId);
      var k :| 0 <= k < |t.revisions| && t.revisions[k] == latest.value;
      assert t.revisions[k].id != row.id;
      SegmentsAfterStoring(t, row, segments, latest.value.id);
    }
  }

  lemma SortedIsListedAsStored(t: Tables, row: RevisionRow, segments: seq<Segment>)
    requires Inv(t) && Appendable(t, row, segments) && Sorted(segments, SegmentBefore)
    requires row.number == |OfSession(t.revisions, row.sessionId)| + 1
    ensures Latest(Appended(t, row, segments), row.sessionId) == Some(row)
    ensures SegmentsOf(Appended(t, row, segments), row.id) == segments
  {
    LatestAfterStoring(t, row, segments, row.sessionId);
    SegmentsAfterStoring(t, row, segments, row.id);
    SortOfSorted(segments, SegmentBefore);
  }

  lemma EditIsOffered(t: Tables, a: Action)
    requires a.Edit?
    ensures Stores(t, a) == EditStores(t, a.sessionId, a.newId, ManualEdit(t, a.sessionId, a.edited))
  {
  }

  lemma OfferedIsStored(t: Tables, a: Action, edit: EditResult)
    requires a.Edit? && edit.Ok? && Stores(t, a) == EditStores(t, a.sessionId, a.newId, edit)
    requires Appendable(t, EditedRow(a.sessionId, a.newId, edit), edit.value.1)
    ensures Step(t, a) == Appended(t, EditedRow(a.sessionId, a.newId, edit), edit.value.1)
  {
  }

  lemma EditStepIs(t: Tables, a: Action)
    requires Inv(t) && a.Edit? && ManualEdit(t, a.sessionId, a.edited).Ok? && FreshRevisionId(t, a.newId)
    ensures var edit := ManualEdit(t, a.sessionId, a.edited);
            Step(t, a) == Appended(t, EditedRow(a.sessionId, a.newId, edit), edit.value.1)
  {
    AcceptedEditIsStorable(t, a.sessionId, a.edited, a.newId);
    EditIsOffered(t, a);
    OfferedIsStored(t, a, ManualEdit(t, a.sessionId, a.edited));
  }

  lemma EditNumberIsNext(t: Tables, sessionId: string, edited: seq<Segment>)
    requires Inv(t) && ManualEdit(t, sessionId, edited).Ok?
    ensures ManualEdit(t, sessionId, edited).value.0.number == |OfSession(t.revisions, sessionId)|
  {
    LatestIsLast(t, sessionId);
  }

  lemma EditStaysSorted(t: Tables, sessionId: string, edited: seq<Segment>)
    requires ManualEdit(t, sessionId, edited).Ok?
    ensures Sorted(ManualEdit(t, sessionId, edited).value.1, SegmentBefore)
  {
    DerivedStaysSorted(t, Latest(t, sessionId).value.id, sessionId, edited);
  }

  lemma EditIsStored(t: Tables, sessionId: string, edited: seq<Segment>, newId: string)
    requires Inv(t) && ManualEdit(t, sessionId, edited).Ok? && FreshRevisionId(t, newId)
    ensures var (latest, derived) := ManualEdit(t, sessionId, edited).value;
            var row := RevisionRow(newId, sessionId, latest.number + 1, "manual");
            && Step(t, Edit(sessionId, edited, newId)) == Appended(t, row, derived) && Appendable(t, row, derived)
            && row.number == |OfSession(t.revisions, sessionId)| + 1 && Sorted(derived, SegmentBefore)
  {
    AcceptedEditIsStorable(t, sessionId, edited, newId);
    EditStepIs(t, Edit(sessionId, edited, newId));
    EditNumberIsNext(t, sessionId, edited);
    EditStaysSorted(t, sessionId, edited);
  }

  /** list_segments of a revision made by an edit returns exactly the segments reported to the caller. */
  lemma EditListsWhatItReports(t: Tables, sessionId: string, edited: seq<Segment>, newId: string)
    requires Inv(t) && ManualEdit(t, sessionId, edited).Ok? && FreshRevisionId(t, newId)
    ensures var (latest, derived) := ManualEdit(t, sessionId, edited).value;
            var u := Step(t, Edit(sessionId, edited, newId));
            && Latest(u, sessionId) == Some(RevisionRow(newId, sessionId, latest.number + 1, "manual"))
            && SegmentsOf(u, newId) == derived
            && u.chunks == t.chunks
  {
    EditIsStored(t, sessionId, edited, newId);
    var (latest, derived) := ManualEdit(t, sessionId, edited).value;
    SortedIsListedAsStored(t, RevisionRow(newId, sessionId, latest.number + 1, "manual"), derived);
  }

  lemma DerivedStaysSorted(t: Tables, id: string, sessionId: string, edited: seq<Segment>)
    requires edited != [] && EditSegments(t, sessionId, SegmentsOf(t, id), edited).Ok?
    ensures Sorted(EditSegments(t, sessionId, SegmentsOf(t, id), edited).value, SegmentBefore)
  {
    SegmentsAreSorted(t, id);
    EditSegmentsIs(t, sessionId, SegmentsOf(t, id), edited);
    SameBoundariesSameOrder(SegmentsOf(t, id), EditSegments(t, sessionId, SegmentsOf(t, id), edited).value);
  }

  /** Once every segment has its chunk, neither boundaries nor bindings differ from these. */
  predicate Keeps(before: seq<Segment>, after: seq<Segment>) {
    && Boundaries(after) == Boundaries(before)
    && (AllBound(before) ==> AllBound(after) && Bindings(after) == Bindings(before))
  }

  lemma KeepsIsTransitive(a: seq<Segment>, b: seq<Segment>, c: seq<Segment>)
    requires Keeps(a, b) && Keeps(b, c)
    ensures Keeps(a, c)
  {
  }

  lemma EditKeeps(t: Tables, sessionId: string, edited: seq<Segment>, newId: string)
    requires Inv(t) && Stores(t, Edit(sessionId, edited, newId)).Some?
    ensures var after := LatestSegments(Step(t, Edit(sessionId, edited, newId)), sessionId);
            Keeps(LatestSegments(t, sessionId), after) && AllBound(after)
            && after == Stores(t, Edit(sessionId, edited, newId)).value.1
  {
    EditListsWhatItReports(t, sessionId, edited, newId);
    EditSegmentsIs(t, sessionId, LatestSegments(t, sessionId), edited);
  }

  lemma StoredRowIs(t: Tables, a: Action)
    requires Inv(t) && Stores(t, a).Some?
    ensures var row := Stores(t, a).value.0;
            row.sessionId == a.sessionId && row.number == |OfSession(t.revisions, row.sessionId)| + 1
    ensures Appendable(t, Stores(t, a).value.0, Stores(t, a).value.1)
    ensures Step(t, a) == Appended(t, Stores(t, a).value.0, Stores(t, a).value.1)
  {
    StoredNumberIsNext(t, a);
  }

  lemma OthersKeep(t: Tables, a: Action, sessionId: string)
    requires Inv(t) && (a.Append? || a.Edit? ==> a.sessionId != sessionId)
    ensures LatestSegments(Step(t, a), sessionId) == LatestSegments(t, sessionId)
  {
    if Stores(t, a).Some? {
      StoredRowIs(t, a);
      LatestStaysElsewhere(t, Stores(t, a).value.0, Stores(t, a).value.1, sessionId);
    } else {
      StoringNothing(t, a);
    }
  }

  predicate NoAppend(actions: seq<Action>, sessionId: string) {
    forall i :: 0 <= i < |actions| && actions[i].Append? ==> actions[i].sessionId != sessionId
  }

  /**
   * Through any calls that append nothing else to the session, the newest revision keeps the ids, times and sources
   * of the one they started from, and its chunk bindings too if that one had them.
   */
  lemma {:induction false} EditsKeepBoundariesAndBindings(t: Tables, actions: seq<Action>, sessionId: string)
    requires Inv(t) && NoAppend(actions, sessionId)
    ensures Keeps(LatestSegments(t, sessionId), LatestSegments(After(t, actions), sessionId))
    decreases |actions|
  {
    if actions != [] {
      var a := actions[0];
      if a.Edit? && a.sessionId == sessionId {
        OwnEditKeeps(t, a);
      } else {
        OthersKeep(t, a, sessionId);
      }
      StepKeepsInv(t, a);
      EditsKeepBoundariesAndBindings(Step(t, a), actions[1..], sessionId);
      KeepsIsTransitive(LatestSegments(t, sessionId), LatestSegments(Step(t, a), sessionId),
                        LatestSegments(After(t, actions), sessionId));
    }
  }

  lemma OwnEditKeeps(t: Tables, a: Action)
    requires Inv(t) && a.Edit?
    ensures Keeps(LatestSegments(t, a.sessionId), LatestSegments(Step(t, a), a.sessionId))
  {
    if Stores(t, a).Some? {
      EditKeeps(t, a.sessionId, a.edited, a.newId);
    }
  }

  /** From the first accepted edit on every segment has its chunk, and its binding never changes again. */
  lemma FirstEditFixesTheBindings(t: Tables, first: Action, later: seq<Action>)
    requires Inv(t) && first.Edit? && Stores(t, first).Some? && NoAppend(later, first.sessionId)
    ensures var reported := Stores(t, first).value.1;
            var after := LatestSegments(After(Step(t, first), later), first.sessionId);
            AllBound(after) && Bindings(after) == Bindings(reported)
              && Boundaries(after) == Boundaries(LatestSegments(t, first.sessionId))
  {
    EditKeeps(t, first.sessionId, first.edited, first.newId);
    StepKeepsInv(t, first);
    EditsKeepBoundariesAndBindings(Step(t, first), later, first.sessionId);
  }

  // The fallback to the session's only chunk

  /** A range that is still valid once shifted to the chunk's own time. */
  predicate Shiftable(segment: Segment, chunk: ChunkRow) {
    chunk.offsetMs <= segment.startMs < segment.endMs && segment.startMs - chunk.offsetMs < I64_MAX
  }

  lemma ShiftedRangeIsValid(segment: Segment, chunk: ChunkRow)
    ensures var start := SaturatingSub(segment.startMs, chunk.offsetMs);
            var end := SaturatingSub(segment.endMs, chunk.offsetMs);
            0 <= start < end <==> Shiftable(segment, chunk)
  {
  }

  predicate RangeValid(segment: Segment)
    requires Bound(segment)
  {
    0 <= segment.chunkStartMs.value < segment.chunkEndMs.value
  }

  lemma {:induction false} BindingErrorIs(t: Tables, sessionId: string, latest: seq<Segment>)
    requires AllBound(latest)
    requires forall i :: 0 <= i < |latest| ==> AvailableChunk(t, latest[i].chunkId.value, sessionId)
    ensures BindingError(t, sessionId, latest)
         == if forall i :: 0 <= i < |latest| ==> RangeValid(latest[i]) then None else Some(InvalidChunkRange)
  {
    if latest != [] {
      var n := |latest| - 1;
      assert forall i :: 0 <= i < n ==> latest[..n][i] == latest[i];
      BindingErrorIs(t, sessionId, latest[..n]);
    }
  }

  /** The fallback chunk is the one available chunk of the session. */
  lemma FallbackChunkIsAvailable(t: Tables, sessionId: string, latest: seq<Segment>)
    requires Fallback(t, sessionId, latest).Ok? && Fallback(t, sessionId, latest).value.Some?
    ensures AvailableChunk(t, Fallback(t, sessionId, latest).value.value.id, sessionId)
  {
    AvailableChunksAre(t.chunks, sessionId);
    var chunk := Fallback(t, sessionId, latest).value.value;
    assert chunk in AvailableChunks(t.chunks, sessionId);
    var k :| 0 <= k < |t.chunks| && t.chunks[k] == chunk;
  }

  /** An edit of bound segments that leaves their boundaries alone, their chunks all available. */
  lemma EditOfBoundSegments(t: Tables, sessionId: string, latest: seq<Segment>, edited: seq<Segment>)
    requires AllBound(latest) && Boundaries(edited) == Boundaries(latest)
    requires forall i :: 0 <= i < |edited| ==> !Blank(edited[i].text)
    requires forall i :: 0 <= i < |latest| ==> AvailableChunk(t, latest[i].chunkId.value, sessionId)
    ensures if forall i :: 0 <= i < |latest| ==> RangeValid(latest[i])
            then EditSegments(t, sessionId, latest, edited).Ok?
            else EditSegments(t, sessionId, latest, edited) == Err(InvalidChunkRange)
  {
    BindingErrorIs(t, sessionId, latest);
    SameBoundariesFit(latest, edited);
    DeriveAllIs(latest, edited, None);
  }

  /** What the fallback gives each segment. */
  lemma FallbackGives(t: Tables, sessionId: string, latest: seq<Segment>, edited: seq<Segment>)
    requires latest != [] && AllUnbound(latest) && EditSegments(t, sessionId, latest, edited).Ok?
    ensures var chunk := Fallback(t, sessionId, latest).value;
            var derived := EditSegments(t, sessionId, latest, edited).value;
            && chunk.Some? && |derived| == |latest| && AllBound(derived)
            && forall i :: 0 <= i < |latest| ==>
                 derived[i].chunkId == Some(chunk.value.id)
                   && (RangeValid(derived[i]) <==> Shiftable(latest[i], chunk.value))
  {
    assert Unbound(latest[0]);
    var chunk := Fallback(t, sessionId, latest).value.value;
    DeriveAllIs(latest, edited, Some(chunk));
    forall i | 0 <= i < |latest|
      ensures EditSegments(t, sessionId, latest, edited).value[i] == Derived(latest[i], edited[i], Some(chunk))
          && Unbound(latest[i])
    {
      ShiftedRangeIsValid(latest[i], chunk);
    }
  }

  /**
   * An edit that fell back to the only chunk always succeeds, but the next edit of its revision does exactly when
   * every segment starts at or after the chunk and is not empty; otherwise it is refused over the stored range.
   */
  lemma FallbackRevisionIsEditableExactly(
      t: Tables, sessionId: string, edited: seq<Segment>, newId: string, again: seq<Segment>)
    requires Inv(t) && ManualEdit(t, sessionId, edited).Ok? && FreshRevisionId(t, newId)
    requires AllUnbound(LatestSegments(t, sessionId))
    requires Boundaries(again) == Boundaries(edited) && forall i :: 0 <= i < |again| ==> !Blank(again[i].text)
    ensures var latest := LatestSegments(t, sessionId);
            var next := ManualEdit(Step(t, Edit(sessionId, edited, newId)), sessionId, again);
            && Fallback(t, sessionId, latest).Ok? && Fallback(t, sessionId, latest).value.Some?
            && var chunk := Fallback(t, sessionId, latest).value.value;
               if forall i :: 0 <= i < |latest| ==> Shiftable(latest[i], chunk)
               then next.Ok? else next == Err(InvalidChunkRange)
  {
    EditListsWhatItReports(t, sessionId, edited, newId);
    var (revision, derived) := ManualEdit(t, sessionId, edited).value;
    var u := Step(t, Edit(sessionId, edited, newId));
    EditAfterFallback(t, u, sessionId, SegmentsOf(t, revision.id), edited, derived, again);
    ManualEditOf(u, sessionId, again, Latest(u, sessionId).value, derived);
  }

  lemma ManualEditOf(t: Tables, sessionId: string, edited: seq<Segment>, revision: RevisionRow, latest: seq<Segment>)
    requires edited != [] && Latest(t, sessionId) == Some(revision) && SegmentsOf(t, revision.id) == latest
    ensures match EditSegments(t, sessionId, latest, edited)
            case Ok(derived) => ManualEdit(t, sessionId, edited) == Ok((revision, derived))
            case Err(error) => ManualEdit(t, sessionId, edited) == Err(error)
  {
  }

  lemma DerivedChunksAreAvailable(t: Tables, u: Tables, sessionId: string, latest: seq<Segment>, derived: seq<Segment>)
    requires Fallback(t, sessionId, latest).Ok? && Fallback(t, sessionId, latest).value.Some? && u.chunks == t.chunks
    requires forall i :: 0 <= i < |derived| ==>
        derived[i].chunkId == Some(Fallback(t, sessionId, latest).value.value.id)
    ensures forall i :: 0 <= i < |derived| ==> AvailableChunk(u, derived[i].chunkId.value, sessionId)
  {
    FallbackChunkIsAvailable(t, sessionId, latest);
  }

  lemma RangesHoldUpTogether(latest: seq<Segment>, derived: seq<Segment>, chunk: ChunkRow)
    requires |derived| == |latest| && AllBound(derived)
    requires forall i :: 0 <= i < |latest| ==> (RangeValid(derived[i]) <==> Shiftable(latest[i], chunk))
    ensures (forall i :: 0 <= i < |derived| ==> RangeValid(derived[i]))
        <==> forall i :: 0 <= i < |latest| ==> Shiftable(latest[i], chunk)
  {
  }

  lemma EditAfterFallback(
      t: Tables, u: Tables, sessionId: string, latest: seq<Segment>, edited: seq<Segment>, derived: seq<Segment>,
      again: seq<Segment>)
    requires latest != [] && AllUnbound(latest) && EditSegments(t, sessionId, latest, edited) == Ok(derived)
    requires u.chunks == t.chunks
    requires Boundaries(again) == Boundaries(edited) && forall i :: 0 <= i < |again| ==> !Blank(again[i].text)
    ensures Fallback(t, sessionId, latest).Ok? && Fallback(t, sessionId, latest).value.Some?
    ensures var chunk := Fallback(t, sessionId, latest).value.value;
            var next := EditSegments(u, sessionId, derived, again);
            if forall i :: 0 <= i < |latest| ==> Shiftable(latest[i], chunk)
            then next.Ok? else next == Err(InvalidChunkRange)
  {
    EditSegmentsIs(t, sessionId, latest, edited);
    FallbackGives(t, sessionId, latest, edited);
    DerivedChunksAreAvailable(t, u, sessionId, latest, derived);
    RangesHoldUpTogether(latest, derived, Fallback(t, sessionId, latest).value.value);
    EditOfBoundSegments(u, sessionId, derived, again);
  }

  lemma SameBoundariesFit(latest: seq<Segment>, edited: seq<Segment>)
    requires Boundaries(edited) == Boundaries(latest) && forall i :: 0 <= i < |edited| ==> !Blank(edited[i].text)
    ensures |latest| == |edited| && AllFit(latest, edited)
  {
    forall i | 0 <= i < |latest|
      ensures EditError(latest[i], edited[i]) == None
    {
      assert Boundaries(edited)[i] == Boundaries(latest)[i];
    }
  }
}
