/**
 * catalog.rs: revisions, their segments and the search index. Each call runs in one transaction; what it does to
 * the tables is a function, and the method works on copies that it stores when it commits.
 */
module EvidenceCatalog {
  import opened MachineInts
  import opened Domain
  import opened StableSort

  datatype Segment = Segment(
    id: string, startMs: i64, endMs: i64, source: AudioSource, text: string,
    chunkId: Option<string>, chunkStartMs: Option<i64>, chunkEndMs: Option<i64>)

  datatype RevisionRow = RevisionRow(id: string, sessionId: string, number: nat, provider: string)

  datatype SegmentRow = SegmentRow(revisionId: string, segment: Segment)

  datatype IndexRow = IndexRow(segmentId: string, revisionId: string, text: string)

  datatype ChunkRow = ChunkRow(id: string, sessionId: string, offsetMs: i64, available: bool)

  /** Rows in the order they were inserted. */
  datatype Tables = Tables(
    sessions: set<string>, chunks: seq<ChunkRow>, revisions: seq<RevisionRow>, segments: seq<SegmentRow>,
    index: seq<IndexRow>)

  datatype Revision = Revision(row: RevisionRow, segments: seq<Segment>)

  datatype ManualError =
    | NoSegments
    | NoRevision
    | NotEverySegment
    | MixedBindings
    | InvalidChunkRange
    | ChunkUnavailable
    | NoLegacyChunk
    | SeveralLegacyChunks
    | BoundariesDiffer
    | EmptyText
    | Constraint

  // Reading

  function RowsOf(rows: seq<SegmentRow>, revisionId: string): seq<Segment> {
    if rows == [] then []
    else
      var last := rows[|rows| - 1];
      RowsOf(rows[..|rows| - 1], revisionId) + if last.revisionId == revisionId then [last.segment] else []
  }

  /** ORDER BY start_ms, end_ms, id. */
  predicate SegmentBefore(a: Segment, b: Segment) {
    || a.startMs < b.startMs
    || (a.startMs == b.startMs && (a.endMs < b.endMs || (a.endMs == b.endMs && TextBefore(a.id, b.id))))
  }

  function SegmentsOf(t: Tables, revisionId: string): seq<Segment> {
    Sort(RowsOf(t.segments, revisionId), SegmentBefore)
  }

  predicate NumberBefore(a: RevisionRow, b: RevisionRow) {
    a.number < b.number
  }

  function OfSession(rows: seq<RevisionRow>, sessionId: string): seq<RevisionRow> {
    if rows == [] then []
    else
      var last := rows[|rows| - 1];
      OfSession(rows[..|rows| - 1], sessionId) + if last.sessionId == sessionId then [last] else []
  }

  function RevisionsOf(t: Tables, sessionId: string): seq<RevisionRow> {
    Sort(OfSession(t.revisions, sessionId), NumberBefore)
  }

  /** COALESCE(MAX(number), 0). */
  function MaxNumber(rows: seq<RevisionRow>): nat {
    if rows == [] then 0
    else
      var rest := MaxNumber(rows[..|rows| - 1]);
      if rows[|rows| - 1].number > rest then rows[|rows| - 1].number else rest
  }

  lemma {:induction false} MaxOfSessionIs(rows: seq<RevisionRow>, sessionId: string)
    ensures forall i :: 0 <= i < |rows| && rows[i].sessionId == sessionId ==>
              rows[i].number <= MaxNumber(OfSession(rows, sessionId))
    ensures MaxNumber(OfSession(rows, sessionId)) == 0
        || exists i :: 0 <= i < |rows| && rows[i].sessionId == sessionId
                       && rows[i].number == MaxNumber(OfSession(rows, sessionId))
  {
    if rows != [] {
      var front, last := rows[..|rows| - 1], rows[|rows| - 1];
      MaxOfSessionIs(front, sessionId);
      var found, before := OfSession(rows, sessionId), OfSession(front, sessionId);
      assert forall i :: 0 <= i < |front| ==> front[i] == rows[i];
      if last.sessionId == sessionId {
        assert found == before + [last] && found[..|found| - 1] == before;
        assert rows[|rows| - 1] == last;
        if last.number <= MaxNumber(before) && MaxNumber(before) > 0 {
          var i :| 0 <= i < |front| && front[i].sessionId == sessionId && front[i].number == MaxNumber(before);
          assert rows[i] == front[i];
        }
      } else {
        assert found == before;
      }
    }
  }

  /** ORDER BY number DESC LIMIT 1. */
  function Latest(t: Tables, sessionId: string): Option<RevisionRow> {
    var revisions := RevisionsOf(t, sessionId);
    if revisions == [] then None else Some(revisions[|revisions| - 1])
  }

  // Writing

  predicate KnownChunk(t: Tables, chunkId: string) {
    exists i :: 0 <= i < |t.chunks| && t.chunks[i].id == chunkId
  }

  predicate FreshRevisionId(t: Tables, id: string) {
    forall i :: 0 <= i < |t.revisions| ==> t.revisions[i].id != id
  }

  predicate SameNumber(a: RevisionRow, b: RevisionRow) {
    a.sessionId == b.sessionId && a.number == b.number
  }

  predicate FreshNumber(t: Tables, row: RevisionRow) {
    forall i :: 0 <= i < |t.revisions| ==> !SameNumber(t.revisions[i], row)
  }

  predicate StoredSegmentId(rows: seq<SegmentRow>, revisionId: string, id: string) {
    exists i :: 0 <= i < |rows| && rows[i].revisionId == revisionId && rows[i].segment.id == id
  }

  /** The primary key and the chunk reference of one segment row. */
  predicate Insertable(t: Tables, rows: seq<SegmentRow>, revisionId: string, segment: Segment) {
    && !StoredSegmentId(rows, revisionId, segment.id)
    && (segment.chunkId.Some? ==> KnownChunk(t, segment.chunkId.value))
  }

  function RowsFor(revisionId: string, segments: seq<Segment>): (rows: seq<SegmentRow>)
    ensures |rows| == |segments| && forall i :: 0 <= i < |segments| ==> rows[i] == SegmentRow(revisionId, segments[i])
  {
    seq(|segments|, i requires 0 <= i < |segments| => SegmentRow(revisionId, segments[i]))
  }

  function IndexFor(revisionId: string, segments: seq<Segment>): (rows: seq<IndexRow>)
    ensures |rows| == |segments|
    ensures forall i :: 0 <= i < |segments| ==> rows[i] == IndexRow(segments[i].id, revisionId, segments[i].text)
  {
    seq(|segments|, i requires 0 <= i < |segments| => IndexRow(segments[i].id, revisionId, segments[i].text))
  }

  predicate AllInsertable(t: Tables, revisionId: string, segments: seq<Segment>) {
    forall i :: 0 <= i < |segments| ==>
      Insertable(t, t.segments + RowsFor(revisionId, segments[..i]), revisionId, segments[i])
  }

  predicate Appendable(t: Tables, row: RevisionRow, segments: seq<Segment>) {
    && row.sessionId in t.sessions && FreshRevisionId(t, row.id) && FreshNumber(t, row)
    && AllInsertable(t, row.id, segments)
  }

  /** A segment's id is new under its revision, also among the segments before it, and its chunk is known. */
  predicate StorableAfter(t: Tables, revisionId: string, segments: seq<Segment>, i: nat)
    requires i < |segments|
  {
    && (forall k :: 0 <= k < |t.segments| && t.segments[k].revisionId == revisionId ==>
          t.segments[k].segment.id != segments[i].id)
    && (forall k :: 0 <= k < i ==> segments[k].id != segments[i].id)
    && (segments[i].chunkId.Some? ==>
          exists k :: 0 <= k < |t.chunks| && t.chunks[k].id == segments[i].chunkId.value)
  }

  lemma InsertableIs(t: Tables, revisionId: string, segments: seq<Segment>, i: nat)
    requires i < |segments|
    ensures Insertable(t, t.segments + RowsFor(revisionId, segments[..i]), revisionId, segments[i])
        <==> StorableAfter(t, revisionId, segments, i)
  {
    var rows, n := t.segments + RowsFor(revisionId, segments[..i]), |t.segments|;
    assert forall k :: 0 <= k < n ==> rows[k] == t.segments[k];
    forall k | 0 <= k < i
      ensures rows[n + k] == SegmentRow(revisionId, segments[k])
    {
      assert segments[..i][k] == segments[k];
    }
    if StoredSegmentId(rows, revisionId, segments[i].id) {
      var k :| 0 <= k < |rows| && rows[k].revisionId == revisionId && rows[k].segment.id == segments[i].id;
      assert k >= n ==> segments[k - n].id == segments[i].id;
    }
  }

  lemma AppendableIs(t: Tables, row: RevisionRow, segments: seq<Segment>)
    ensures Appendable(t, row, segments)
        <==> && row.sessionId in t.sessions
             && (forall i :: 0 <= i < |t.revisions| ==>
                   && t.revisions[i].id != row.id
                   && (t.revisions[i].sessionId == row.sessionId ==> t.revisions[i].number != row.number))
             && (forall i :: 0 <= i < |segments| ==> StorableAfter(t, row.id, segments, i))
  {
    forall i | 0 <= i < |segments|
      ensures Insertable(t, t.segments + RowsFor(row.id, segments[..i]), row.id, segments[i])
          <==> StorableAfter(t, row.id, segments, i)
    {
      InsertableIs(t, row.id, segments, i);
    }
    assert forall i :: 0 <= i < |t.revisions| ==>
        (SameNumber(t.revisions[i], row)
         <==> t.revisions[i].sessionId == row.sessionId && t.revisions[i].number == row.number);
  }

  function Appended(t: Tables, row: RevisionRow, segments: seq<Segment>): Tables {
    t.(revisions := t.revisions + [row], segments := t.segments + RowsFor(row.id, segments),
       index := t.index + IndexFor(row.id, segments))
  }

  function NextRow(t: Tables, sessionId: string, provider: string, id: string): RevisionRow {
    RevisionRow(id, sessionId, MaxNumber(OfSession(t.revisions, sessionId)) + 1, provider)
  }

  // The manual edit of the latest revision

  predicate Unbound(segment: Segment) {
    segment.chunkId.None? && segment.chunkStartMs.None? && segment.chunkEndMs.None?
  }

  predicate Bound(segment: Segment) {
    segment.chunkId.Some? && segment.chunkStartMs.Some? && segment.chunkEndMs.Some?
  }

  predicate AllBound(segments: seq<Segment>) {
    forall i :: 0 <= i < |segments| ==> Bound(segments[i])
  }

  predicate AllUnbound(segments: seq<Segment>) {
    forall i :: 0 <= i < |segments| ==> Unbound(segments[i])
  }

  function SaturatingSub(a: i64, b: i64): i64 {
    if a - b > I64_MAX then I64_MAX else if a - b < I64_MIN then I64_MIN else a - b
  }

  predicate AvailableChunk(t: Tables, chunkId: string, sessionId: string) {
    exists i ::
      0 <= i < |t.chunks| && t.chunks[i].id == chunkId && t.chunks[i].sessionId == sessionId && t.chunks[i].available
  }

  function AvailableChunks(chunks: seq<ChunkRow>, sessionId: string): seq<ChunkRow> {
    if chunks == [] then []
    else
      var last := chunks[|chunks| - 1];
      AvailableChunks(chunks[..|chunks| - 1], sessionId)
      + if last.sessionId == sessionId && last.available then [last] else []
  }

  /** The first bound segment whose range or chunk does not hold up decides the error. */
  function BindingError(t: Tables, sessionId: string, latest: seq<Segment>): Option<ManualError>
    requires AllBound(latest)
  {
    if latest == [] then None
    else
      var front := latest[..|latest| - 1];
      var before := BindingError(t, sessionId, front);
      var last := latest[|latest| - 1];
      if before.Some? then before
      else if last.chunkStartMs.value < 0 || last.chunkStartMs.value >= last.chunkEndMs.value
      then Some(InvalidChunkRange)
      else if !AvailableChunk(t, last.chunkId.value, sessionId) then Some(ChunkUnavailable)
      else None
  }

  /** The chunk that unbound segments fall back to; None when every segment has its own. */
  function Fallback(t: Tables, sessionId: string, latest: seq<Segment>): Result<Option<ChunkRow>, ManualError> {
    if AllBound(latest) then
      var error := BindingError(t, sessionId, latest);
      if error.Some? then Err(error.value) else Ok(None)
    else if AllUnbound(latest) then
      var available := AvailableChunks(t.chunks, sessionId);
      if |available| == 1 then Ok(Some(available[0]))
      else if available == [] then Err(NoLegacyChunk)
      else Err(SeveralLegacyChunks)
    else Err(MixedBindings)
  }

  predicate SameBoundaries(a: Segment, b: Segment) {
    a.id == b.id && a.startMs == b.startMs && a.endMs == b.endMs && a.source == b.source
  }

  function EditError(latest: Segment, edited: Segment): Option<ManualError> {
    if !SameBoundaries(latest, edited) then Some(BoundariesDiffer)
    else if Blank(edited.text) then Some(EmptyText)
    else None
  }

  function Derived(latest: Segment, edited: Segment, legacy: Option<ChunkRow>): Segment {
    Segment(edited.id, latest.startMs, latest.endMs, latest.source, Trim(edited.text),
            if latest.chunkId.Some? then latest.chunkId else if legacy.Some? then Some(legacy.value.id) else None,
            if latest.chunkStartMs.Some? then latest.chunkStartMs
            else if legacy.Some? then Some(SaturatingSub(latest.startMs, legacy.value.offsetMs)) else None,
            if latest.chunkEndMs.Some? then latest.chunkEndMs
            else if legacy.Some? then Some(SaturatingSub(latest.endMs, legacy.value.offsetMs)) else None)
  }

  /** zip over both lists, stopping at the first edit that does not fit. */
  function DeriveAll(latest: seq<Segment>, edited: seq<Segment>, legacy: Option<ChunkRow>)
    : Result<seq<Segment>, ManualError>
    requires |latest| == |edited|
  {
    if latest == [] then Ok([])
    else
      var n := |latest| - 1;
      match DeriveAll(latest[..n], edited[..n], legacy)
      case Err(error) => Err(error)
      case Ok(derived) =>
        var error := EditError(latest[n], edited[n]);
        if error.Some? then Err(error.value) else Ok(derived + [Derived(latest[n], edited[n], legacy)])
  }

  /** The segments of an edited revision, or why the edit does not fit it. */
  function EditSegments(t: Tables, sessionId: string, latest: seq<Segment>, edited: seq<Segment>)
    : Result<seq<Segment>, ManualError>
  {
    if |latest| != |edited| then Err(NotEverySegment)
    else match Fallback(t, sessionId, latest)
      case Err(error) => Err(error)
      case Ok(legacy) => DeriveAll(latest, edited, legacy)
  }

  /** What append_manual_revision_from_latest would store, or why it refuses. */
  function ManualEdit(t: Tables, sessionId: string, edited: seq<Segment>)
    : Result<(RevisionRow, seq<Segment>), ManualError>
  {
    if edited == [] then Err(NoSegments)
    else match Latest(t, sessionId)
      case None => Err(NoRevision)
      case Some(revision) =>
        match EditSegments(t, sessionId, SegmentsOf(t, revision.id), edited)
        case Err(error) => Err(error)
        case Ok(derived) => Ok((revision, derived))
  }

  // Searching

  datatype Hit = Hit(id: string, startMs: i64, endMs: i64, source: AudioSource, text: string)

  function HitOf(segment: Segment): Hit {
    Hit(segment.id, segment.startMs, segment.endMs, segment.source, segment.text)
  }

  /** The segment rows that join one index row. */
  function Joined(rows: seq<SegmentRow>, entry: IndexRow): seq<Hit> {
    if rows == [] then []
    else
      var last := rows[|rows| - 1];
      Joined(rows[..|rows| - 1], entry)
      + if last.segment.id == entry.segmentId && last.revisionId == entry.revisionId then [HitOf(last.segment)] else []
  }

  /** search_segments up to the order by rank: every matching index row joined with its segments. */
  function IndexedSearch(index: seq<IndexRow>, rows: seq<SegmentRow>, matches: string -> bool): seq<Hit> {
    if index == [] then []
    else
      var last := index[|index| - 1];
      IndexedSearch(index[..|index| - 1], rows, matches) + if matches(last.text) then Joined(rows, last) else []
  }

  // The catalog

  class Catalog {
    var sessions: set<string>
    var chunks: seq<ChunkRow>
    var revisions: seq<RevisionRow>
    var segments: seq<SegmentRow>
    var index: seq<IndexRow>

    constructor ()
      ensures View() == Tables({}, [], [], [], [])
    {
      sessions := {};
      chunks := [];
      revisions := [];
      segments := [];
      index := [];
    }

    ghost function View(): Tables
      reads this
    {
      Tables(sessions, chunks, revisions, segments, index)
    }

    /** The inserts of one revision inside a transaction; nothing is stored when one is refused. */
    method StoreRevision(row: RevisionRow, newSegments: seq<Segment>) returns (stored: bool)
      modifies this
      ensures stored == Appendable(old(View()), row, newSegments)
      ensures View() == if stored then Appended(old(View()), row, newSegments) else old(View())
      ensures stored <==>
                && row.sessionId in old(sessions)
                && (forall i :: 0 <= i < |old(revisions)| ==>
                      && old(revisions)[i].id != row.id
                      && (old(revisions)[i].sessionId == row.sessionId ==> old(revisions)[i].number != row.number))
                && (forall i :: 0 <= i < |newSegments| ==> StorableAfter(old(View()), row.id, newSegments, i))
      ensures stored ==>
                && sessions == old(sessions) && chunks == old(chunks) && revisions == old(revisions) + [row]
                && |segments| == |old(segments)| + |newSegments| && |index| == |old(index)| + |newSegments|
                && old(segments) <= segments && old(index) <= index
                && forall i :: 0 <= i < |newSegments| ==>
                     && segments[|old(segments)| + i] == SegmentRow(row.id, newSegments[i])
                     && index[|old(index)| + i] == IndexRow(newSegments[i].id, row.id, newSegments[i].text)
    {
      AppendableIs(View(), row, newSegments);
      var allowed := CheckRow(row);
      if row.sessionId !in sessions || !allowed {
        return false;
      }
      var newRows, newIndex;
      stored, newRows, newIndex := InsertSegments(row.id, newSegments);
      if stored {
        revisions, segments, index := revisions + [row], newRows, newIndex;
      }
    }

    /** The two unique keys of a revision row. */
    method CheckRow(row: RevisionRow) returns (ok: bool)
      ensures ok == (FreshRevisionId(View(), row.id) && FreshNumber(View(), row))
    {
      for i := 0 to |revisions|
        invariant forall k :: 0 <= k < i ==> revisions[k].id != row.id && !SameNumber(revisions[k], row)
      {
        if revisions[i].id == row.id || SameNumber(revisions[i], row) {
          return false;
        }
      }
      return true;
    }

    method InsertSegments(revisionId: string, newSegments: seq<Segment>)
      returns (ok: bool, newRows: seq<SegmentRow>, newIndex: seq<IndexRow>)
      ensures ok == AllInsertable(View(), revisionId, newSegments)
      ensures ok ==>
          newRows == segments + RowsFor(revisionId, newSegments)
          && newIndex == index + IndexFor(revisionId, newSegments)
    {
      newRows, newIndex := segments, index;
      for i := 0 to |newSegments|
        invariant newRows == segments + RowsFor(revisionId, newSegments[..i])
        invariant newIndex == index + IndexFor(revisionId, newSegments[..i])
        invariant forall k :: 0 <= k < i ==>
                    Insertable(View(), segments + RowsFor(revisionId, newSegments[..k]), revisionId, newSegments[k])
      {
        var segment := newSegments[i];
        assert RowsFor(revisionId, newSegments[..i + 1])
            == RowsFor(revisionId, newSegments[..i]) + [SegmentRow(revisionId, segment)];
        assert IndexFor(revisionId, newSegments[..i + 1])
            == IndexFor(revisionId, newSegments[..i]) + [IndexRow(segment.id, revisionId, segment.text)];
        var insertable := CheckInsertable(newRows, revisionId, segment);
        if !insertable {
          return false, segments, index;
        }
        newRows := newRows + [SegmentRow(revisionId, segment)];
        newIndex := newIndex + [IndexRow(segment.id, revisionId, segment.text)];
      }
      assert newSegments[..|newSegments|] == newSegments;
      ok := true;
    }

    method CheckInsertable(rows: seq<SegmentRow>, revisionId: string, segment: Segment) returns (ok: bool)
      ensures ok == Insertable(View(), rows, revisionId, segment)
    {
      return !StoredSegmentId(rows, revisionId, segment.id)
          && (segment.chunkId.None? || exists i :: 0 <= i < |chunks| && chunks[i].id == segment.chunkId.value);
    }

    method AppendRevision(sessionId: string, provider: string, newSegments: seq<Segment>, newId: string)
      returns (r: Result<Revision, ManualError>)
      modifies this
      ensures var row := NextRow(old(View()), sessionId, provider, newId);
              if Appendable(old(View()), row, newSegments)
              then r == Ok(Revision(row, newSegments)) && View() == Appended(old(View()), row, newSegments)
              else r == Err(Constraint) && View() == old(View())
      ensures r.Ok? ==>
                && r.value.segments == newSegments && r.value.row.id == newId && r.value.row.sessionId == sessionId
                && r.value.row.provider == provider
                && (forall i :: 0 <= i < |old(revisions)| && old(revisions)[i].sessionId == sessionId ==>
                      old(revisions)[i].number < r.value.row.number)
                && (r.value.row.number == 1
                    || exists i :: 0 <= i < |old(revisions)| && old(revisions)[i].sessionId == sessionId
                                   && r.value.row.number == old(revisions)[i].number + 1)
    {
      MaxOfSessionIs(revisions, sessionId);
      var row := RevisionRow(newId, sessionId, MaxNumber(OfSession(revisions, sessionId)) + 1, provider);
      var stored := StoreRevision(row, newSegments);
      return if stored then Ok(Revision(row, newSegments)) else Err(Constraint);
    }

    method ListSegments(revisionId: string) returns (listed: seq<Segment>)
      ensures listed == SegmentsOf(View(), revisionId)
    {
      return Sort(RowsOf(segments, revisionId), SegmentBefore);
    }

    method ListRevisions(sessionId: string) returns (listed: seq<RevisionRow>)
      ensures listed == RevisionsOf(View(), sessionId)
    {
      return Sort(OfSession(revisions, sessionId), NumberBefore);
    }

    method CheckBindings(sessionId: string, latest: seq<Segment>) returns (error: Option<ManualError>)
      requires AllBound(latest)
      ensures error == BindingError(View(), sessionId, latest)
    {
      for i := 0 to |latest|
        invariant AllBound(latest[..i])
        invariant BindingError(View(), sessionId, latest[..i]) == None
      {
        assert latest[..i + 1][..i] == latest[..i];
        if latest[i].chunkStartMs.value < 0 || latest[i].chunkStartMs.value >= latest[i].chunkEndMs.value {
          FirstBindingError(View(), sessionId, latest, i + 1);
          return Some(InvalidChunkRange);
        }
        if !exists k ::
            && 0 <= k < |chunks| && chunks[k].id == latest[i].chunkId.value
            && chunks[k].sessionId == sessionId && chunks[k].available
        {
          assert !AvailableChunk(View(), latest[i].chunkId.value, sessionId);
          FirstBindingError(View(), sessionId, latest, i + 1);
          return Some(ChunkUnavailable);
        }
        assert AvailableChunk(View(), latest[i].chunkId.value, sessionId);
      }
      assert latest[..|latest|] == latest;
      return None;
    }

    /** append_manual_revision_from_latest. */
    method AppendManualRevisionFromLatest(sessionId: string, edited: seq<Segment>, newId: string)
      returns (r: Result<Revision, ManualError>)
      modifies this
      ensures match ManualEdit(old(View()), sessionId, edited)
              case Err(error) => r == Err(error) && View() == old(View())
              case Ok((latest, derived)) =>
                var row := RevisionRow(newId, sessionId, latest.number + 1, "manual");
                if Appendable(old(View()), row, derived)
                then r == Ok(Revision(row, derived)) && View() == Appended(old(View()), row, derived)
                else r == Err(Constraint) && View() == old(View())
    {
      var edit := PrepareManualEdit(sessionId, edited);
      if edit.Err? {
        return Err(edit.error);
      }
      var (latest, derived) := edit.value;
      var row := RevisionRow(newId, sessionId, latest.number + 1, "manual");
      var stored := StoreRevision(row, derived);
      return if stored then Ok(Revision(row, derived)) else Err(Constraint);
    }

    method PrepareManualEdit(sessionId: string, edited: seq<Segment>)
      returns (r: Result<(RevisionRow, seq<Segment>), ManualError>)
      ensures r == ManualEdit(View(), sessionId, edited)
    {
      if edited == [] {
        return Err(NoSegments);
      }
      var revision := LatestRevision(sessionId);
      if revision.None? {
        return Err(NoRevision);
      }
      var latest := ListSegments(revision.value.id);
      var derived := EditLatest(sessionId, latest, edited);
      return if derived.Err? then Err(derived.error) else Ok((revision.value, derived.value));
    }

    method LatestRevision(sessionId: string) returns (revision: Option<RevisionRow>)
      ensures revision == Latest(View(), sessionId)
    {
      var listed := ListRevisions(sessionId);
      return if listed == [] then None else Some(listed[|listed| - 1]);
    }

    method EditLatest(sessionId: string, latest: seq<Segment>, edited: seq<Segment>)
      returns (r: Result<seq<Segment>, ManualError>)
      ensures r == EditSegments(View(), sessionId, latest, edited)
    {
      if |latest| != |edited| {
        return Err(NotEverySegment);
      }
      var legacy := ChooseFallback(sessionId, latest);
      if legacy.Err? {
        return Err(legacy.error);
      }
      r := DeriveSegments(latest, edited, legacy.value);
    }

    method ChooseFallback(sessionId: string, latest: seq<Segment>) returns (r: Result<Option<ChunkRow>, ManualError>)
      ensures r == Fallback(View(), sessionId, latest)
    {
      if AllBound(latest) {
        var error := CheckBindings(sessionId, latest);
        return if error.Some? then Err(error.value) else Ok(None);
      }
      if !AllUnbound(latest) {
        return Err(MixedBindings);
      }
      var available := AvailableChunks(chunks, sessionId);
      if |available| != 1 {
        return Err(if available == [] then NoLegacyChunk else SeveralLegacyChunks);
      }
      return Ok(Some(available[0]));
    }

    method SearchSegments(matches: string -> bool) returns (hits: seq<Hit>)
      ensures hits == IndexedSearch(index, segments, matches)
    {
      hits := [];
      for i := 0 to |index|
        invariant hits == IndexedSearch(index[..i], segments, matches)
      {
        assert index[..i + 1][..i] == index[..i];
        if matches(index[i].text) {
          hits := hits + Joined(segments, index[i]);
        }
      }
      assert index[..|index|] == index;
    }
  }

  method DeriveSegments(latest: seq<Segment>, edited: seq<Segment>, legacy: Option<ChunkRow>)
    returns (r: Result<seq<Segment>, ManualError>)
    requires |latest| == |edited|
    ensures r == DeriveAll(latest, edited, legacy)
  {
    var derived: seq<Segment> := [];
    for i := 0 to |latest|
      invariant DeriveAll(latest[..i], edited[..i], legacy) == Ok(derived)
    {
      assert latest[..i + 1][..i] == latest[..i] && edited[..i + 1][..i] == edited[..i];
      var error := EditError(latest[i], edited[i]);
      if error.Some? {
        FirstEditError(latest, edited, legacy, i + 1);
        return Err(error.value);
      }
      derived := derived + [Derived(latest[i], edited[i], legacy)];
    }
    assert latest[..|latest|] == latest && edited[..|edited|] == edited;
    return Ok(derived);
  }

  /** An error found in the first n edits is the error of all of them. */
  lemma {:induction false} FirstEditError(latest: seq<Segment>, edited: seq<Segment>, legacy: Option<ChunkRow>, n: nat)
    requires |latest| == |edited| && n <= |latest| && DeriveAll(latest[..n], edited[..n], legacy).Err?
    ensures DeriveAll(latest, edited, legacy) == DeriveAll(latest[..n], edited[..n], legacy)
    decreases |latest|
  {
    if n == |latest| {
      assert latest[..n] == latest && edited[..n] == edited;
    } else {
      var m := |latest| - 1;
      assert latest[..m][..n] == latest[..n] && edited[..m][..n] == edited[..n];
      FirstEditError(latest[..m], edited[..m], legacy, n);
    }
  }

  lemma {:induction false} FirstBindingError(t: Tables, sessionId: string, latest: seq<Segment>, n: nat)
    requires AllBound(latest) && n <= |latest| && BindingError(t, sessionId, latest[..n]).Some?
    ensures BindingError(t, sessionId, latest) == BindingError(t, sessionId, latest[..n])
    decreases |latest|
  {
    if n == |latest| {
      assert latest[..n] == latest;
    } else {
      var m := |latest| - 1;
      assert latest[..m][..n] == latest[..n];
      FirstBindingError(t, sessionId, latest[..m], n);
    }
  }
}
