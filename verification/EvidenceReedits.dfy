/** Editing a revision that an edit made: what the legacy fallback leaves behind, and edits that change nothing. */
module EvidenceReedits {
  import opened MachineInts
  import opened Domain
  import opened StableSort
  import opened EvidenceCatalog
  import opened EvidenceRuns
  import opened EvidenceEdits

  // From the empty catalog to a revision that refuses its next edit

  lemma EmptyTakesTheSegment(t: Tables, row: RevisionRow, segment: Segment)
    requires t.revisions == [] && t.segments == [] && row.sessionId in t.sessions && segment.chunkId.None?
    ensures Appendable(t, row, [segment])
  {
    forall i | 0 <= i < |[segment]|
      ensures Insertable(t, t.segments + RowsFor(row.id, [segment][..i]), row.id, [segment][i])
    {
      assert t.segments + RowsFor(row.id, [segment][..i]) == [];
      assert !StoredSegmentId([], row.id, segment.id);
    }
  }

  /** A session with one chunk and no revision yet. */
  predicate OnlyChunk(t: Tables, chunk: ChunkRow) {
    t == Tables({chunk.sessionId}, [chunk], [], [], [])
  }

  function FirstRow(chunk: ChunkRow, provider: string, id: string): RevisionRow {
    RevisionRow(id, chunk.sessionId, 1, provider)
  }

  lemma FirstAppendStores(t: Tables, chunk: ChunkRow, segment: Segment, provider: string, id: string)
    requires OnlyChunk(t, chunk) && Unbound(segment)
    ensures var row := FirstRow(chunk, provider, id);
            && Appendable(t, row, [segment]) && row.number == |OfSession(t.revisions, row.sessionId)| + 1
            && Step(t, Append(chunk.sessionId, provider, [segment], id)) == Appended(t, row, [segment])
  {
    var row := FirstRow(chunk, provider, id);
    assert OfSession(t.revisions, chunk.sessionId) == [] && MaxNumber([]) == 0;
    assert NextRow(t, chunk.sessionId, provider, id) == row;
    EmptyTakesTheSegment(t, row, segment);
  }

  lemma FirstRevision(t: Tables, chunk: ChunkRow, segment: Segment, provider: string, id: string)
    requires Inv(t) && OnlyChunk(t, chunk) && Unbound(segment)
    ensures var u := Step(t, Append(chunk.sessionId, provider, [segment], id));
            && u.chunks == [chunk] && u.revisions == [FirstRow(chunk, provider, id)]
            && Latest(u, chunk.sessionId) == Some(FirstRow(chunk, provider, id))
            && LatestSegments(u, chunk.sessionId) == [segment]
  {
    FirstAppendStores(t, chunk, segment, provider, id);
    SortedIsListedAsStored(t, FirstRow(chunk, provider, id), [segment]);
  }

  lemma OnlyChunkIsTheFallback(t: Tables, chunk: ChunkRow, segment: Segment)
    requires t.chunks == [chunk] && chunk.available && Unbound(segment)
    ensures Fallback(t, chunk.sessionId, [segment]) == Ok(Some(chunk))
  {
    assert [segment][0] == segment && t.chunks[..0] == [];
    assert AvailableChunks(t.chunks, chunk.sessionId) == AvailableChunks(t.chunks[..0], chunk.sessionId) + [chunk];
  }

  /** The first edit is accepted. */
  lemma FirstEditFallsBack(t: Tables, chunk: ChunkRow, segment: Segment)
    requires chunk.available && Unbound(segment) && !Blank(segment.text)
    requires t.chunks == [chunk] && Latest(t, chunk.sessionId).Some? && LatestSegments(t, chunk.sessionId) == [segment]
    ensures Fallback(t, chunk.sessionId, [segment]) == Ok(Some(chunk)) && ManualEdit(t, chunk.sessionId, [segment]).Ok?
  {
    OnlyChunkIsTheFallback(t, chunk, segment);
    DeriveAllIs([segment], [segment], Some(chunk));
    ManualEditOf(t, chunk.sessionId, [segment], Latest(t, chunk.sessionId).value, [segment]);
  }

  /** The same edit once more: refused exactly when a range cannot be shifted. */
  lemma SecondEditExactly(t: Tables, chunk: ChunkRow, segments: seq<Segment>, newId: string)
    requires Inv(t) && ManualEdit(t, chunk.sessionId, segments).Ok? && FreshRevisionId(t, newId)
    requires AllUnbound(segments) && forall i :: 0 <= i < |segments| ==> !Blank(segments[i].text)
    requires LatestSegments(t, chunk.sessionId) == segments && Fallback(t, chunk.sessionId, segments) == Ok(Some(chunk))
    ensures var next := ManualEdit(Step(t, Edit(chunk.sessionId, segments, newId)), chunk.sessionId, segments);
            if forall i :: 0 <= i < |segments| ==> Shiftable(segments[i], chunk)
            then next.Ok? else next == Err(InvalidChunkRange)
  {
    FallbackRevisionIsEditableExactly(t, chunk.sessionId, segments, newId, segments);
  }

  lemma SecondEditOfOne(t: Tables, chunk: ChunkRow, segment: Segment, newId: string)
    requires Inv(t) && ManualEdit(t, chunk.sessionId, [segment]).Ok? && FreshRevisionId(t, newId)
    requires Unbound(segment) && !Blank(segment.text)
    requires LatestSegments(t, chunk.sessionId) == [segment]
        && Fallback(t, chunk.sessionId, [segment]) == Ok(Some(chunk))
    ensures var next := ManualEdit(Step(t, Edit(chunk.sessionId, [segment], newId)), chunk.sessionId, [segment]);
            if Shiftable(segment, chunk) then next.Ok? else next == Err(InvalidChunkRange)
  {
    var segments := [segment];
    assert segments[0] == segment;
    SecondEditExactly(t, chunk, segments, newId);
  }

  lemma SecondRevision(t: Tables, chunk: ChunkRow, segment: Segment, newId: string)
    requires Inv(t) && ManualEdit(t, chunk.sessionId, [segment]).Ok? && FreshRevisionId(t, newId)
    requires Latest(t, chunk.sessionId).Some? && Latest(t, chunk.sessionId).value.number == 1
    ensures Latest(Step(t, Edit(chunk.sessionId, [segment], newId)), chunk.sessionId)
         == Some(RevisionRow(newId, chunk.sessionId, 2, "manual"))
  {
    EditListsWhatItReports(t, chunk.sessionId, [segment], newId);
  }

  function Setup(chunk: ChunkRow, segment: Segment, provider: string, id: string): seq<Action> {
    [AddSession(chunk.sessionId), AddChunk(chunk), Append(chunk.sessionId, provider, [segment], id)]
  }

  lemma SetupGives(chunk: ChunkRow, segment: Segment, provider: string, id: string)
    requires Unbound(segment)
    ensures var t := After(EMPTY, Setup(chunk, segment, provider, id));
            && Inv(t) && t.chunks == [chunk] && t.revisions == [FirstRow(chunk, provider, id)]
            && Latest(t, chunk.sessionId) == Some(FirstRow(chunk, provider, id))
            && LatestSegments(t, chunk.sessionId) == [segment]
  {
    var session, addChunk, append :=
      AddSession(chunk.sessionId), AddChunk(chunk), Append(chunk.sessionId, provider, [segment], id);
    var t := Step(Step(EMPTY, session), addChunk);
    ThreeSteps(EMPTY, session, addChunk, append);
    FirstRevision(t, chunk, segment, provider, id);
    RunsKeepInv(EMPTY, Setup(chunk, segment, provider, id));
  }

  lemma ThreeSteps(t: Tables, a: Action, b: Action, c: Action)
    ensures After(t, [a, b, c]) == Step(Step(Step(t, a), b), c)
  {
    assert [a, b, c][1..] == [b, c] && [b, c][1..] == [c] && [c][1..] == [];
    assert After(Step(Step(t, a), b), [c]) == Step(Step(Step(t, a), b), c);
  }

  lemma SecondEditAfterSetup(t: Tables, chunk: ChunkRow, segment: Segment, newId: string)
    requires chunk.available && Unbound(segment) && !Blank(segment.text) && Inv(t) && t.chunks == [chunk]
    requires Latest(t, chunk.sessionId).Some? && LatestSegments(t, chunk.sessionId) == [segment]
        && FreshRevisionId(t, newId)
    ensures ManualEdit(t, chunk.sessionId, [segment]).Ok?
    ensures var next := ManualEdit(Step(t, Edit(chunk.sessionId, [segment], newId)), chunk.sessionId, [segment]);
            if Shiftable(segment, chunk) then next.Ok? else next == Err(InvalidChunkRange)
  {
    FirstEditFallsBack(t, chunk, segment);
    SecondEditOfOne(t, chunk, segment, newId);
  }

  /**
   * From the empty catalog, for every chunk and every unbound segment with text: append the segment, edit it, and edit
   * it again. The first edit is always accepted, the second exactly when the range can be shifted to the chunk.
   */
  lemma SecondEditOfTheRunExactly(
      chunk: ChunkRow, segment: Segment, provider: string, firstId: string, secondId: string)
    requires chunk.available && Unbound(segment) && !Blank(segment.text) && firstId != secondId
    ensures var t := After(EMPTY, Setup(chunk, segment, provider, firstId));
            var u := Step(t, Edit(chunk.sessionId, [segment], secondId));
            var next := ManualEdit(u, chunk.sessionId, [segment]);
            && Latest(u, chunk.sessionId) == Some(RevisionRow(secondId, chunk.sessionId, 2, "manual"))
            && if Shiftable(segment, chunk) then next.Ok? else next == Err(InvalidChunkRange)
  {
    var t := After(EMPTY, Setup(chunk, segment, provider, firstId));
    SetupGives(chunk, segment, provider, firstId);
    SecondEditAfterSetup(t, chunk, segment, secondId);
    SecondRevision(t, chunk, segment, secondId);
  }

  /** For instance when the segment begins before a chunk recorded one second into the session. */
  lemma SecondEditCanBeRefused() returns (chunk: ChunkRow, segment: Segment)
    ensures chunk.offsetMs == 1_000 && segment.startMs == 0 && segment.endMs == 500
    ensures var t := After(EMPTY, Setup(chunk, segment, "local", "first"));
            var u := Step(t, Edit(chunk.sessionId, [segment], "second"));
            && Latest(u, chunk.sessionId) == Some(RevisionRow("second", chunk.sessionId, 2, "manual"))
            && ManualEdit(u, chunk.sessionId, [segment]) == Err(InvalidChunkRange)
  {
    var text := "t";
    assert !Blank(text);
    chunk := ChunkRow("chunk", "session", 1_000, true);
    segment := Segment("segment", 0, 500, Microphone, text, None, None, None);
    SecondEditOfTheRunExactly(chunk, segment, "local", "first", "second");
  }

  // Editing without a change

  /** Deriving from a segment that is already trimmed and bound gives it back. */
  lemma DerivedAgain(segment: Segment, text: string)
    requires Bound(segment) && segment.text == Trim(text) != ""
    ensures EditError(segment, segment) == None && Derived(segment, segment, None) == segment
  {
    TrimIdempotent(text);
  }

  predicate TrimmedFrom(derived: seq<Segment>, edited: seq<Segment>) {
    |derived| == |edited| && forall i :: 0 <= i < |derived| ==> derived[i].text == Trim(edited[i].text) != ""
  }

  lemma DeriveAllAgain(derived: seq<Segment>, edited: seq<Segment>)
    requires AllBound(derived) && TrimmedFrom(derived, edited)
    ensures DeriveAll(derived, derived, None) == Ok(derived)
  {
    forall i | 0 <= i < |derived|
      ensures EditError(derived[i], derived[i]) == None && Derived(derived[i], derived[i], None) == derived[i]
    {
      assert Bound(derived[i]);
      DerivedAgain(derived[i], edited[i].text);
    }
    DeriveAllIs(derived, derived, None);
    assert DeriveAll(derived, derived, None).value == derived;
  }

  /** The same segments under the given revision, unless one of their bindings does not hold up. */
  function Unchanged(t: Tables, sessionId: string, revision: RevisionRow, segments: seq<Segment>)
    : Result<(RevisionRow, seq<Segment>), ManualError>
    requires AllBound(segments)
  {
    match BindingError(t, sessionId, segments)
    case Some(error) => Err(error)
    case None => Ok((revision, segments))
  }

  lemma EditedAgain(t: Tables, sessionId: string, revision: RevisionRow, derived: seq<Segment>, edited: seq<Segment>)
    requires derived != [] && Latest(t, sessionId) == Some(revision) && SegmentsOf(t, revision.id) == derived
    requires AllBound(derived) && TrimmedFrom(derived, edited)
    ensures ManualEdit(t, sessionId, derived) == Unchanged(t, sessionId, revision, derived)
  {
    DeriveAllAgain(derived, edited);
    ManualEditOf(t, sessionId, derived, revision, derived);
  }

  lemma ReportedIsTrimmed(t: Tables, sessionId: string, edited: seq<Segment>)
    requires ManualEdit(t, sessionId, edited).Ok?
    ensures var derived := ManualEdit(t, sessionId, edited).value.1;
            derived != [] && AllBound(derived) && TrimmedFrom(derived, edited)
  {
    var (latest, derived) := ManualEdit(t, sessionId, edited).value;
    EditSegmentsIs(t, sessionId, SegmentsOf(t, latest.id), edited);
    assert |derived| == |Boundaries(derived)| == |Boundaries(edited)| == |edited|;
  }

  /**
   * Handing the reported segments of an edit back as the next edit stores the very same segments again; it is refused
   * only over a binding, and then for the first one that does not hold up.
   */
  lemma ResubmittingChangesNothing(t: Tables, sessionId: string, edited: seq<Segment>, newId: string)
    requires Inv(t) && ManualEdit(t, sessionId, edited).Ok? && FreshRevisionId(t, newId)
    ensures var derived := ManualEdit(t, sessionId, edited).value.1;
            var u := Step(t, Edit(sessionId, edited, newId));
            && AllBound(derived)
            && ManualEdit(u, sessionId, derived)
               == Unchanged(
                    u, sessionId,
                    RevisionRow(newId, sessionId, ManualEdit(t, sessionId, edited).value.0.number + 1, "manual"),
                    derived)
  {
    ReportedIsTrimmed(t, sessionId, edited);
    ReportedIsListed(t, sessionId, edited, newId);
    EditedAgain(Step(t, Edit(sessionId, edited, newId)), sessionId,
                RevisionRow(newId, sessionId, ManualEdit(t, sessionId, edited).value.0.number + 1, "manual"),
                ManualEdit(t, sessionId, edited).value.1, edited);
  }

  lemma ReportedIsListed(t: Tables, sessionId: string, edited: seq<Segment>, newId: string)
    requires Inv(t) && ManualEdit(t, sessionId, edited).Ok? && FreshRevisionId(t, newId)
    ensures var u := Step(t, Edit(sessionId, edited, newId));
            && SegmentsOf(u, newId) == ManualEdit(t, sessionId, edited).value.1
            && Latest(u, sessionId)
                 == Some(RevisionRow(newId, sessionId, ManualEdit(t, sessionId, edited).value.0.number + 1, "manual"))
  {
    EditListsWhatItReports(t, sessionId, edited, newId);
  }
}
