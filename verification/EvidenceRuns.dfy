/** What every sequence of catalog calls keeps: revision chains, segments, bindings and the search index. */
module EvidenceRuns {
  import opened MachineInts
  import opened StableSort
  import opened EvidenceCatalog

  datatype Action =
    | AddSession(id: string)
    | AddChunk(chunk: ChunkRow)
    | SetAvailable(chunkId: string, available: bool)
    | Append(sessionId: string, provider: string, segments: seq<Segment>, newId: string)
    | Edit(sessionId: string, edited: seq<Segment>, newId: string)

  function WithAvailability(chunks: seq<ChunkRow>, chunkId: string, available: bool): (r: seq<ChunkRow>)
    ensures |r| == |chunks|
    ensures forall i :: 0 <= i < |chunks| ==>
        r[i] == if chunks[i].id == chunkId then chunks[i].(available := available) else chunks[i]
  {
    seq(|chunks|, i requires 0 <= i < |chunks| =>
      if chunks[i].id == chunkId then chunks[i].(available := available) else chunks[i])
  }

  function Accepted(t: Tables, row: RevisionRow, segments: seq<Segment>): Option<(RevisionRow, seq<Segment>)> {
    if Appendable(t, row, segments) then Some((row, segments)) else None
  }

  type EditResult = Result<(RevisionRow, seq<Segment>), ManualError>

  function EditedRow(sessionId: string, newId: string, edit: EditResult): RevisionRow
    requires edit.Ok?
  {
    RevisionRow(newId, sessionId, edit.value.0.number + 1, "manual")
  }

  function EditStores(t: Tables, sessionId: string, newId: string, edit: EditResult)
    : Option<(RevisionRow, seq<Segment>)>
  {
    if edit.Err? then None else Accepted(t, EditedRow(sessionId, newId, edit), edit.value.1)
  }

  /** The row and segments a call stores, None when it stores nothing. */
  function Stores(t: Tables, a: Action): Option<(RevisionRow, seq<Segment>)> {
    match a
    case Append(sessionId, provider, segments, newId) => Accepted(t, NextRow(t, sessionId, provider, newId), segments)
    case Edit(sessionId, edited, newId) => EditStores(t, sessionId, newId, ManualEdit(t, sessionId, edited))
    case _ => None
  }

  function Step(t: Tables, a: Action): Tables {
    match a
    case AddSession(id) => t.(sessions := t.sessions + {id})
    case AddChunk(chunk) =>
      if chunk.sessionId in t.sessions && !KnownChunk(t, chunk.id) then t.(chunks := t.chunks + [chunk]) else t
    case SetAvailable(chunkId, available) => t.(chunks := WithAvailability(t.chunks, chunkId, available))
    case _ =>
      match Stores(t, a)
      case None => t
      case Some((row, segments)) => Appended(t, row, segments)
  }

  function After(t: Tables, actions: seq<Action>): Tables
    decreases |actions|
  {
    if actions == [] then t else After(Step(t, actions[0]), actions[1..])
  }

  const EMPTY := Tables({}, [], [], [], [])

  // What every run keeps

  predicate Numbered(rows: seq<RevisionRow>) {
    forall i :: 0 <= i < |rows| ==> rows[i].number == |OfSession(rows[..i], rows[i].sessionId)| + 1
  }

  predicate RevisionIdsUnique(rows: seq<RevisionRow>) {
    forall i, j :: 0 <= i < j < |rows| ==> rows[i].id != rows[j].id
  }

  predicate HasRevision(rows: seq<RevisionRow>, id: string) {
    exists i :: 0 <= i < |rows| && rows[i].id == id
  }

  predicate SegmentsBelong(t: Tables) {
    forall i :: 0 <= i < |t.segments| ==> HasRevision(t.revisions, t.segments[i].revisionId)
  }

  predicate SegmentKeysUnique(rows: seq<SegmentRow>) {
    forall i, j :: 0 <= i < j < |rows| ==>
      !SameKey(rows[i], rows[j])
  }

  predicate ChunksKnown(t: Tables) {
    forall i :: 0 <= i < |t.segments| && t.segments[i].segment.chunkId.Some? ==>
      KnownChunk(t, t.segments[i].segment.chunkId.value)
  }

  function IndexOf(row: SegmentRow): IndexRow {
    IndexRow(row.segment.id, row.revisionId, row.segment.text)
  }

  /** The search index holds exactly one row for every stored segment. */
  predicate IndexInStep(t: Tables) {
    |t.index| == |t.segments| && forall i :: 0 <= i < |t.segments| ==> t.index[i] == IndexOf(t.segments[i])
  }

  predicate SessionsKnown(t: Tables) {
    forall i :: 0 <= i < |t.revisions| ==> t.revisions[i].sessionId in t.sessions
  }

  predicate Inv(t: Tables) {
    && Numbered(t.revisions) && RevisionIdsUnique(t.revisions) && SessionsKnown(t)
    && SegmentsBelong(t) && SegmentKeysUnique(t.segments) && ChunksKnown(t)
    && IndexInStep(t)
  }

  predicate ChunkIdsUnique(t: Tables) {
    forall i, j :: 0 <= i < j < |t.chunks| ==> t.chunks[i].id != t.chunks[j].id
  }

  /** In every run no two chunks have one id, and every chunk has its session. */
  lemma {:induction false} ChunksAreDistinct(t: Tables, actions: seq<Action>)
    requires ChunkIdsUnique(t) && forall i :: 0 <= i < |t.chunks| ==> t.chunks[i].sessionId in t.sessions
    ensures var u := After(t, actions);
            ChunkIdsUnique(u) && forall i :: 0 <= i < |u.chunks| ==> u.chunks[i].sessionId in u.sessions
    decreases |actions|
  {
    if actions != [] {
      ChunksStayDistinct(t, actions[0]);
      ChunksAreDistinct(Step(t, actions[0]), actions[1..]);
    }
  }

  lemma ChunksStayDistinct(t: Tables, a: Action)
    requires ChunkIdsUnique(t) && forall i :: 0 <= i < |t.chunks| ==> t.chunks[i].sessionId in t.sessions
    ensures var u := Step(t, a);
            ChunkIdsUnique(u) && forall i :: 0 <= i < |u.chunks| ==> u.chunks[i].sessionId in u.sessions
  {
    if a.AddChunk? && a.chunk.sessionId in t.sessions && !KnownChunk(t, a.chunk.id) {
      assert forall i :: 0 <= i < |t.chunks| ==> t.chunks[i].id != a.chunk.id;
    }
  }

  // Storing one revision

  predicate SameKey(a: SegmentRow, b: SegmentRow) {
    a.revisionId == b.revisionId && a.segment.id == b.segment.id
  }

  lemma InsertedKeyIsNew(t: Tables, id: string, segments: seq<Segment>, k: nat)
    requires AllInsertable(t, id, segments) && k < |segments|
    ensures forall row :: row in t.segments + RowsFor(id, segments[..k]) ==> !SameKey(row, SegmentRow(id, segments[k]))
    ensures segments[k].chunkId.Some? ==> KnownChunk(t, segments[k].chunkId.value)
  {
    var rows := t.segments + RowsFor(id, segments[..k]);
    assert Insertable(t, rows, id, segments[k]);
    forall row | row in rows
      ensures !SameKey(row, SegmentRow(id, segments[k]))
    {
      var i :| 0 <= i < |rows| && rows[i] == row;
      assert !(rows[i].revisionId == id && rows[i].segment.id == segments[k].id);
    }
  }

  lemma StoringKeepsKeys(t: Tables, id: string, segments: seq<Segment>)
    requires AllInsertable(t, id, segments) && SegmentKeysUnique(t.segments)
    ensures SegmentKeysUnique(t.segments + RowsFor(id, segments))
  {
    var rows, n := t.segments + RowsFor(id, segments), |t.segments|;
    forall i, j | 0 <= i < j < |rows|
      ensures !SameKey(rows[i], rows[j])
    {
      if j >= n {
        InsertedKeyIsNew(t, id, segments, j - n);
        assert rows[i] == (t.segments + RowsFor(id, segments[..j - n]))[i];
      }
    }
  }

  lemma StoringKeepsReferences(t: Tables, row: RevisionRow, segments: seq<Segment>)
    requires AllInsertable(t, row.id, segments) && SegmentsBelong(t) && ChunksKnown(t)
    ensures SegmentsBelong(Appended(t, row, segments)) && ChunksKnown(Appended(t, row, segments))
  {
    var u, n := Appended(t, row, segments), |t.segments|;
    forall i | 0 <= i < |u.segments|
      ensures HasRevision(u.revisions, u.segments[i].revisionId)
      ensures u.segments[i].segment.chunkId.Some? ==> KnownChunk(u, u.segments[i].segment.chunkId.value)
    {
      if i < n {
        assert HasRevision(t.revisions, t.segments[i].revisionId);
        var k :| 0 <= k < |t.revisions| && t.revisions[k].id == t.segments[i].revisionId;
        assert u.revisions[k] == t.revisions[k];
      } else {
        InsertedKeyIsNew(t, row.id, segments, i - n);
        assert u.revisions[|t.revisions|] == row;
      }
    }
  }

  lemma FrontIsNumbered(rows: seq<RevisionRow>)
    requires Numbered(rows) && rows != []
    ensures Numbered(rows[..|rows| - 1])
  {
    var front := rows[..|rows| - 1];
    assert forall i :: 0 <= i < |front| ==> front[i] == rows[i] && front[..i] == rows[..i];
  }

  lemma {:induction false} NumbersOfSession(rows: seq<RevisionRow>, sessionId: string)
    requires Numbered(rows)
    ensures forall k :: 0 <= k < |OfSession(rows, sessionId)| ==> OfSession(rows, sessionId)[k].number == k + 1
  {
    if rows != [] {
      FrontIsNumbered(rows);
      NumbersOfSession(rows[..|rows| - 1], sessionId);
    }
  }

  lemma {:induction false} OfSessionIsStored(rows: seq<RevisionRow>, sessionId: string)
    ensures forall k :: 0 <= k < |OfSession(rows, sessionId)| ==>
              OfSession(rows, sessionId)[k] in rows && OfSession(rows, sessionId)[k].sessionId == sessionId
  {
    if rows != [] {
      OfSessionIsStored(rows[..|rows| - 1], sessionId);
    }
  }

  lemma {:induction false} NumbersAreBounded(rows: seq<RevisionRow>, sessionId: string)
    requires Numbered(rows)
    ensures forall i :: 0 <= i < |rows| && rows[i].sessionId == sessionId ==>
        rows[i].number <= |OfSession(rows, sessionId)|
  {
    if rows != [] {
      FrontIsNumbered(rows);
      NumbersAreBounded(rows[..|rows| - 1], sessionId);
      assert forall i :: 0 <= i < |rows| - 1 ==> rows[..|rows| - 1][i] == rows[i];
    }
  }

  lemma {:induction false} MaxOfSession(rows: seq<RevisionRow>)
    requires forall k :: 0 <= k < |rows| ==> rows[k].number == k + 1
    ensures MaxNumber(rows) == |rows|
  {
    if rows != [] {
      MaxOfSession(rows[..|rows| - 1]);
    }
  }

  lemma RevisionsInAppendOrder(t: Tables, sessionId: string)
    requires Numbered(t.revisions)
    ensures RevisionsOf(t, sessionId) == OfSession(t.revisions, sessionId)
    ensures MaxNumber(OfSession(t.revisions, sessionId)) == |OfSession(t.revisions, sessionId)|
  {
    NumbersOfSession(t.revisions, sessionId);
    MaxOfSession(OfSession(t.revisions, sessionId));
    SortOfSorted(OfSession(t.revisions, sessionId), NumberBefore);
  }

  lemma LatestNumberIsTheCount(t: Tables, sessionId: string)
    requires Numbered(t.revisions) && Latest(t, sessionId).Some?
    ensures Latest(t, sessionId).value.number == |OfSession(t.revisions, sessionId)|
  {
    RevisionsInAppendOrder(t, sessionId);
    NumbersOfSession(t.revisions, sessionId);
  }

  /** Both append paths number the new revision one past the session's count. */
  lemma StoredNumberIsNext(t: Tables, a: Action)
    requires Numbered(t.revisions) && Stores(t, a).Some?
    ensures Stores(t, a).value.0.number == |OfSession(t.revisions, Stores(t, a).value.0.sessionId)| + 1
    ensures Appendable(t, Stores(t, a).value.0, Stores(t, a).value.1)
  {
    if a.Append? {
      RevisionsInAppendOrder(t, a.sessionId);
    } else {
      LatestNumberIsTheCount(t, a.sessionId);
    }
  }

  lemma OneMoreNumbered(rows: seq<RevisionRow>, row: RevisionRow)
    requires Numbered(rows) && row.number == |OfSession(rows, row.sessionId)| + 1
    ensures Numbered(rows + [row])
  {
    var more, n := rows + [row], |rows|;
    forall i | 0 <= i <= n
      ensures more[i].number == |OfSession(more[..i], more[i].sessionId)| + 1
    {
      if i < n {
        assert more[..i] == rows[..i] && more[i] == rows[i];
      } else {
        assert more[..n] == rows && more[n] == row;
      }
    }
  }

  lemma StoringKeepsRevisions(t: Tables, row: RevisionRow, segments: seq<Segment>)
    requires Appendable(t, row, segments) && Numbered(t.revisions) && RevisionIdsUnique(t.revisions) && SessionsKnown(t)
    requires row.number == |OfSession(t.revisions, row.sessionId)| + 1
    ensures var u := Appended(t, row, segments);
        Numbered(u.revisions) && RevisionIdsUnique(u.revisions) && SessionsKnown(u)
  {
    OneMoreNumbered(t.revisions, row);
  }

  lemma ChunkStepKeepsInv(t: Tables, a: Action)
    requires Inv(t) && (a.AddSession? || a.AddChunk? || a.SetAvailable?)
    ensures Inv(Step(t, a))
  {
    var u := Step(t, a);
    forall id | KnownChunk(t, id)
      ensures KnownChunk(u, id)
    {
      var i :| 0 <= i < |t.chunks| && t.chunks[i].id == id;
      assert u.chunks[i].id == id;
    }
  }

  lemma StoringKeepsInv(t: Tables, row: RevisionRow, segments: seq<Segment>)
    requires Inv(t) && Appendable(t, row, segments) && row.number == |OfSession(t.revisions, row.sessionId)| + 1
    ensures Inv(Appended(t, row, segments))
  {
    StoringKeepsRevisions(t, row, segments);
    StoringKeepsKeys(t, row.id, segments);
    StoringKeepsReferences(t, row, segments);
  }

  lemma StepKeepsInv(t: Tables, a: Action)
    requires Inv(t)
    ensures Inv(Step(t, a))
  {
    if a.AddSession? || a.AddChunk? || a.SetAvailable? {
      ChunkStepKeepsInv(t, a);
    } else if Stores(t, a).Some? {
      StoredNumberIsNext(t, a);
      StoringKeepsInv(t, Stores(t, a).value.0, Stores(t, a).value.1);
    }
  }

  lemma {:induction false} RunsKeepInv(t: Tables, actions: seq<Action>)
    requires Inv(t)
    ensures Inv(After(t, actions))
    decreases |actions|
  {
    if actions != [] {
      StepKeepsInv(t, actions[0]);
      RunsKeepInv(Step(t, actions[0]), actions[1..]);
    }
  }

  // What is read back

  lemma Associative<T>(a: seq<T>, b: seq<T>, c: seq<T>)
    ensures (a + b) + c == a + (b + c)
  {
  }

  lemma RowsOfOneMore(rows: seq<SegmentRow>, row: SegmentRow, id: string)
    ensures RowsOf(rows + [row], id) == RowsOf(rows, id) + if row.revisionId == id then [row.segment] else []
  {
    var more := rows + [row];
    assert more[..|more| - 1] == rows;
  }

  lemma {:induction false} RowsOfConcat(front: seq<SegmentRow>, back: seq<SegmentRow>, id: string)
    ensures RowsOf(front + back, id) == RowsOf(front, id) + RowsOf(back, id)
    decreases |back|
  {
    if back == [] {
      assert front + back == front;
    } else {
      var init, last := back[..|back| - 1], back[|back| - 1];
      RowsOfConcat(front, init, id);
      RowsOfOneMore(front + init, last, id);
      RowsOfOneMore(init, last, id);
      assert init + [last] == back;
      Associative(front, init, [last]);
      Associative(RowsOf(front, id), RowsOf(init, id), if last.revisionId == id then [last.segment] else []);
    }
  }

  lemma {:induction false} RowsOfNew(revisionId: string, segments: seq<Segment>, id: string)
    ensures RowsOf(RowsFor(revisionId, segments), id) == if id == revisionId then segments else []
  {
    if segments != [] {
      var front := segments[..|segments| - 1];
      RowsOfNew(revisionId, front, id);
      assert RowsFor(revisionId, segments)[..|segments| - 1] == RowsFor(revisionId, front);
    }
  }

  lemma {:induction false} RowsOfNothing(rows: seq<SegmentRow>, id: string)
    requires forall i :: 0 <= i < |rows| ==> rows[i].revisionId != id
    ensures RowsOf(rows, id) == []
  {
    if rows != [] {
      RowsOfNothing(rows[..|rows| - 1], id);
    }
  }

  lemma FreshRevisionHasNoRows(t: Tables, id: string)
    requires SegmentsBelong(t) && FreshRevisionId(t, id)
    ensures RowsOf(t.segments, id) == []
  {
    forall i | 0 <= i < |t.segments|
      ensures t.segments[i].revisionId != id
    {
      assert HasRevision(t.revisions, t.segments[i].revisionId);
    }
    RowsOfNothing(t.segments, id);
  }

  lemma RowsAfterStoring(t: Tables, row: RevisionRow, segments: seq<Segment>, id: string)
    requires SegmentsBelong(t) && FreshRevisionId(t, row.id)
    ensures RowsOf(t.segments + RowsFor(row.id, segments), id)
        == if id == row.id then segments else RowsOf(t.segments, id)
  {
    RowsOfConcat(t.segments, RowsFor(row.id, segments), id);
    RowsOfNew(row.id, segments, id);
    if id == row.id {
      FreshRevisionHasNoRows(t, row.id);
      assert [] + segments == segments;
    } else {
      assert RowsOf(t.segments, id) + [] == RowsOf(t.segments, id);
    }
  }

  lemma SegmentsAfterStoring(t: Tables, row: RevisionRow, segments: seq<Segment>, id: string)
    requires SegmentsBelong(t) && FreshRevisionId(t, row.id)
    ensures SegmentsOf(Appended(t, row, segments), id)
        == if id == row.id then Sort(segments, SegmentBefore) else SegmentsOf(t, id)
  {
    RowsAfterStoring(t, row, segments, id);
  }

  /** Revisions, segments and index rows are only ever added to, and every existing revision reads the same. */
  predicate Grown(t: Tables, u: Tables) {
    && t.revisions <= u.revisions && t.segments <= u.segments && t.index <= u.index
    && forall i :: 0 <= i < |t.revisions| ==> SegmentsOf(u, t.revisions[i].id) == SegmentsOf(t, t.revisions[i].id)
  }

  lemma StoringGrows(t: Tables, row: RevisionRow, segments: seq<Segment>)
    requires SegmentsBelong(t) && FreshRevisionId(t, row.id)
    ensures Grown(t, Appended(t, row, segments))
  {
    forall i | 0 <= i < |t.revisions|
      ensures SegmentsOf(Appended(t, row, segments), t.revisions[i].id) == SegmentsOf(t, t.revisions[i].id)
    {
      SegmentsAfterStoring(t, row, segments, t.revisions[i].id);
    }
  }

  lemma StepGrows(t: Tables, a: Action)
    requires Inv(t)
    ensures Grown(t, Step(t, a))
  {
    var stored := Stores(t, a);
    if stored.Some? {
      var (row, segments) := stored.value;
      StoresOnlyWhatFits(t, a);
      StoringGrows(t, row, segments);
    } else {
      StoringNothing(t, a);
    }
  }

  lemma StoresOnlyWhatFits(t: Tables, a: Action)
    requires Stores(t, a).Some?
    ensures FreshRevisionId(t, Stores(t, a).value.0.id)
    ensures Step(t, a) == Appended(t, Stores(t, a).value.0, Stores(t, a).value.1)
  {
  }

  lemma StoringNothing(t: Tables, a: Action)
    requires Stores(t, a).None?
    ensures Step(t, a).revisions == t.revisions && Step(t, a).segments == t.segments && Step(t, a).index == t.index
  {
  }

  lemma GrownIsTransitive(t: Tables, u: Tables, v: Tables)
    requires Grown(t, u) && Grown(u, v)
    ensures Grown(t, v)
  {
    assert forall i :: 0 <= i < |t.revisions| ==> u.revisions[i] == t.revisions[i];
  }

  // Theorems

  /** Whatever ran before, later calls leave every earlier revision and what is listed for it as they were. */
  lemma {:induction false} EarlierRevisionsStay(t: Tables, actions: seq<Action>)
    requires Inv(t)
    ensures Grown(t, After(t, actions))
    decreases |actions|
  {
    if actions != [] {
      StepGrows(t, actions[0]);
      StepKeepsInv(t, actions[0]);
      EarlierRevisionsStay(Step(t, actions[0]), actions[1..]);
      GrownIsTransitive(t, Step(t, actions[0]), After(t, actions));
    }
  }

  /** Over all runs each session's revisions are numbered exactly 1 to n, in the order they were appended. */
  lemma NumbersAreOneToN(actions: seq<Action>, sessionId: string)
    ensures var listed := RevisionsOf(After(EMPTY, actions), sessionId);
            && listed == OfSession(After(EMPTY, actions).revisions, sessionId)
            && forall k :: 0 <= k < |listed| ==> listed[k].number == k + 1
  {
    RunsKeepInv(EMPTY, actions);
    RevisionsInAppendOrder(After(EMPTY, actions), sessionId);
    NumbersOfSession(After(EMPTY, actions).revisions, sessionId);
  }

  lemma SegmentOrderIsWeak()
    ensures WeakOrder(SegmentBefore)
  {
    forall a: Segment, b: Segment
      ensures SegmentBefore(a, b) ==> !SegmentBefore(b, a)
    {
      TextOrderIsStrict(a.id, b.id);
    }
    forall a: Segment, b: Segment, c: Segment | !SegmentBefore(b, a) && !SegmentBefore(c, b)
      ensures !SegmentBefore(c, a)
    {
      if !TextBefore(b.id, a.id) && !TextBefore(c.id, b.id) {
        TextOrderChains(a.id, b.id, c.id);
      }
    }
  }

  /** An appended revision lists exactly the segments reported to the caller if and only if they came in time order. */
  lemma AppendListsWhatItReports(t: Tables, row: RevisionRow, segments: seq<Segment>)
    requires SegmentsBelong(t) && Appendable(t, row, segments)
    ensures SegmentsOf(Appended(t, row, segments), row.id) == segments <==> Sorted(segments, SegmentBefore)
    ensures multiset(SegmentsOf(Appended(t, row, segments), row.id)) == multiset(segments)
  {
    SegmentsAfterStoring(t, row, segments, row.id);
    SegmentOrderIsWeak();
    SortIsSorted(segments, SegmentBefore);
    if Sorted(segments, SegmentBefore) {
      SortOfSorted(segments, SegmentBefore);
    }
  }

  // Theorems: searching

  /** What scanning every revision's listed segments finds. */
  function ScanAll(t: Tables, revisions: seq<RevisionRow>, matches: string -> bool): seq<Hit> {
    if revisions == [] then []
    else
      ScanAll(t, revisions[..|revisions| - 1], matches)
      + MatchingHits(SegmentsOf(t, revisions[|revisions| - 1].id), matches)
  }

  function MatchingHits(segments: seq<Segment>, matches: string -> bool): seq<Hit> {
    if segments == [] then []
    else
      var last := segments[|segments| - 1];
      MatchingHits(segments[..|segments| - 1], matches) + if matches(last.text) then [HitOf(last)] else []
  }

  function Segments(rows: seq<SegmentRow>): (r: seq<Segment>)
    ensures |r| == |rows| && forall i :: 0 <= i < |rows| ==> r[i] == rows[i].segment
  {
    seq(|rows|, i requires 0 <= i < |rows| => rows[i].segment)
  }

  lemma {:induction false} JoinFindsItsRow(rows: seq<SegmentRow>, i: nat)
    requires SegmentKeysUnique(rows) && i < |rows|
    ensures Joined(rows, IndexOf(rows[i])) == [HitOf(rows[i].segment)]
  {
    var n := |rows| - 1;
    assert rows[..n] == rows[..n];
    if i == n {
      JoinFindsNothing(rows[..n], IndexOf(rows[n]));
    } else {
      assert rows[..n][i] == rows[i];
      assert !SameKey(rows[i], rows[n]);
      JoinFindsItsRow(rows[..n], i);
    }
  }

  lemma {:induction false} JoinFindsNothing(rows: seq<SegmentRow>, entry: IndexRow)
    requires forall i :: 0 <= i < |rows| ==>
        !(rows[i].segment.id == entry.segmentId && rows[i].revisionId == entry.revisionId)
    ensures Joined(rows, entry) == []
  {
    if rows != [] {
      JoinFindsNothing(rows[..|rows| - 1], entry);
    }
  }

  lemma {:induction false} IndexFindsMatchingRows(
      index: seq<IndexRow>, rows: seq<SegmentRow>, matches: string -> bool, n: nat)
    requires SegmentKeysUnique(rows) && |index| == |rows| && n <= |rows|
    requires forall i :: 0 <= i < |rows| ==> index[i] == IndexOf(rows[i])
    ensures IndexedSearch(index[..n], rows, matches) == MatchingHits(Segments(rows[..n]), matches)
  {
    if n > 0 {
      IndexFindsMatchingRows(index, rows, matches, n - 1);
      JoinFindsItsRow(rows, n - 1);
      assert index[..n][..n - 1] == index[..n - 1];
      assert Segments(rows[..n])[..n - 1] == Segments(rows[..n - 1]);
    }
  }

  lemma HitsOfOneMore(segments: seq<Segment>, segment: Segment, matches: string -> bool)
    ensures MatchingHits(segments + [segment], matches)
         == MatchingHits(segments, matches) + if matches(segment.text) then [HitOf(segment)] else []
  {
    var more := segments + [segment];
    assert more[..|more| - 1] == segments;
  }

  lemma {:induction false} HitsOfConcat(front: seq<Segment>, back: seq<Segment>, matches: string -> bool)
    ensures MatchingHits(front + back, matches) == MatchingHits(front, matches) + MatchingHits(back, matches)
    decreases |back|
  {
    if back == [] {
      assert front + back == front;
    } else {
      var init, last := back[..|back| - 1], back[|back| - 1];
      HitsOfConcat(front, init, matches);
      HitsOfOneMore(front + init, last, matches);
      HitsOfOneMore(init, last, matches);
      assert init + [last] == back;
      Associative(front, init, [last]);
      Associative(MatchingHits(front, matches), MatchingHits(init, matches),
        if matches(last.text) then [HitOf(last)] else []);
    }
  }

  lemma Rearranged<T>(a: seq<T>, b: seq<T>, c: seq<T>)
    ensures multiset(a + (b + c)) == multiset(a + c) + multiset(b)
  {
  }

  function Without<T>(items: seq<T>, i: nat): (rest: seq<T>)
    requires i < |items|
    ensures |rest| == |items| - 1
  {
    items[..i] + items[i + 1..]
  }

  lemma Reassembled<T>(items: seq<T>, i: nat)
    requires i < |items|
    ensures items == items[..i] + ([items[i]] + items[i + 1..])
  {
  }

  lemma TakenOut<T>(items: seq<T>, i: nat)
    requires i < |items|
    ensures multiset(items) == multiset(Without(items, i)) + multiset{items[i]}
  {
    Reassembled(items, i);
    Rearranged(items[..i], [items[i]], items[i + 1..]);
    assert multiset([items[i]]) == multiset{items[i]};
  }

  lemma HitsOfThree(
      whole: seq<Segment>, rest: seq<Segment>, front: seq<Segment>, own: seq<Segment>, back: seq<Segment>,
      matches: string -> bool)
    requires whole == front + (own + back) && rest == front + back
    ensures multiset(MatchingHits(whole, matches))
        == multiset(MatchingHits(rest, matches)) + multiset(MatchingHits(own, matches))
  {
    HitsOfConcat(front, own + back, matches);
    HitsOfConcat(own, back, matches);
    HitsOfConcat(front, back, matches);
    Rearranged(MatchingHits(front, matches), MatchingHits(own, matches), MatchingHits(back, matches));
  }

  lemma HitsOfTakenOut(segments: seq<Segment>, i: nat, matches: string -> bool)
    requires i < |segments|
    ensures multiset(MatchingHits(segments, matches))
         == multiset(MatchingHits(Without(segments, i), matches)) + multiset(MatchingHits([segments[i]], matches))
  {
    Reassembled(segments, i);
    HitsOfThree(segments, Without(segments, i), segments[..i], [segments[i]], segments[i + 1..], matches);
  }

  lemma CancelOne<T>(m: multiset<T>, n: multiset<T>, item: T)
    requires m + multiset{item} == n + multiset{item}
    ensures m == n
  {
    assert m == (m + multiset{item}) - multiset{item};
    assert n == (n + multiset{item}) - multiset{item};
  }

  lemma TakeOutBoth<T>(a: seq<T>, b: seq<T>, i: nat, j: nat)
    requires multiset(a) == multiset(b) && i < |a| && j < |b| && a[i] == b[j]
    ensures multiset(Without(a, i)) == multiset(Without(b, j))
  {
    TakenOut(a, i);
    TakenOut(b, j);
    CancelOne(multiset(Without(a, i)), multiset(Without(b, j)), a[i]);
  }

  lemma SameHitsWithBoth(a: seq<Segment>, b: seq<Segment>, i: nat, j: nat, matches: string -> bool)
    requires i < |a| && j < |b| && a[i] == b[j]
    requires multiset(MatchingHits(Without(a, i), matches)) == multiset(MatchingHits(Without(b, j), matches))
    ensures multiset(MatchingHits(a, matches)) == multiset(MatchingHits(b, matches))
  {
    HitsOfTakenOut(a, i, matches);
    HitsOfTakenOut(b, j, matches);
  }

  lemma {:induction false} HitsOfPermutation(a: seq<Segment>, b: seq<Segment>, matches: string -> bool)
    requires multiset(a) == multiset(b)
    ensures multiset(MatchingHits(a, matches)) == multiset(MatchingHits(b, matches))
    decreases |a|
  {
    if a == [] {
      assert |multiset(b)| == 0;
    } else {
      var j := PlaceIn(a, b);
      TakeOutBoth(a, b, 0, j);
      HitsOfPermutation(Without(a, 0), Without(b, j), matches);
      SameHitsWithBoth(a, b, 0, j, matches);
    }
  }

  lemma PlaceIn<T>(a: seq<T>, b: seq<T>) returns (j: nat)
    requires multiset(a) == multiset(b) && a != []
    ensures j < |b| && b[j] == a[0]
  {
    assert a[0] in multiset(b);
    j :| 0 <= j < |b| && b[j] == a[0];
  }

  /** The rows of the given revisions, in table order. */
  function RowsWithin(rows: seq<SegmentRow>, revisions: seq<RevisionRow>): seq<Segment> {
    if rows == [] then []
    else
      var last := rows[|rows| - 1];
      RowsWithin(rows[..|rows| - 1], revisions) + if HasRevision(revisions, last.revisionId) then [last.segment] else []
  }

  lemma {:induction false} OneMoreRevision(rows: seq<SegmentRow>, revisions: seq<RevisionRow>, row: RevisionRow)
    requires !HasRevision(revisions, row.id)
    ensures multiset(RowsWithin(rows, revisions + [row]))
        == multiset(RowsWithin(rows, revisions)) + multiset(RowsOf(rows, row.id))
  {
    if rows != [] {
      var n := |rows| - 1;
      OneMoreRevision(rows[..n], revisions, row);
      HasOneMore(revisions, row, rows[n].revisionId);
    }
  }

  lemma HasOneMore(revisions: seq<RevisionRow>, row: RevisionRow, id: string)
    ensures HasRevision(revisions + [row], id) <==> HasRevision(revisions, id) || row.id == id
  {
    if HasRevision(revisions, id) {
      var i :| 0 <= i < |revisions| && revisions[i].id == id;
      assert (revisions + [row])[i].id == id;
    }
    assert (revisions + [row])[|revisions|] == row;
  }

  lemma {:induction false} ScanFindsRowsWithin(t: Tables, revisions: seq<RevisionRow>, matches: string -> bool)
    requires RevisionIdsUnique(revisions)
    ensures multiset(ScanAll(t, revisions, matches))
        == multiset(MatchingHits(RowsWithin(t.segments, revisions), matches))
  {
    if revisions == [] {
      NothingWithin(t.segments);
    } else {
      var front, row := revisions[..|revisions| - 1], revisions[|revisions| - 1];
      assert revisions == front + [row];
      ScanFindsRowsWithin(t, front, matches);
      OneMoreRevision(t.segments, front, row);
      var within, own := RowsWithin(t.segments, front), RowsOf(t.segments, row.id);
      HitsOfPermutation(SegmentsOf(t, row.id), own, matches);
      assert multiset(within + own) == multiset(RowsWithin(t.segments, revisions));
      HitsOfPermutation(within + own, RowsWithin(t.segments, revisions), matches);
      HitsOfConcat(within, own, matches);
    }
  }

  lemma {:induction false} NothingWithin(rows: seq<SegmentRow>)
    ensures RowsWithin(rows, []) == []
  {
    if rows != [] {
      NothingWithin(rows[..|rows| - 1]);
    }
  }

  lemma {:induction false} EverythingWithin(rows: seq<SegmentRow>, revisions: seq<RevisionRow>)
    requires forall i :: 0 <= i < |rows| ==> HasRevision(revisions, rows[i].revisionId)
    ensures RowsWithin(rows, revisions) == Segments(rows)
  {
    if rows != [] {
      EverythingWithin(rows[..|rows| - 1], revisions);
      assert Segments(rows) == Segments(rows[..|rows| - 1]) + [rows[|rows| - 1].segment];
    }
  }

  /** Over all runs, searching the index finds exactly what scanning every revision finds, and as often. */
  lemma IndexedSearchFindsWhatScanningFinds(actions: seq<Action>, matches: string -> bool)
    ensures var t := After(EMPTY, actions);
            multiset(IndexedSearch(t.index, t.segments, matches)) == multiset(ScanAll(t, t.revisions, matches))
  {
    RunsKeepInv(EMPTY, actions);
    var t := After(EMPTY, actions);
    IndexFindsMatchingRows(t.index, t.segments, matches, |t.segments|);
    assert t.index[..|t.segments|] == t.index && t.segments[..|t.segments|] == t.segments;
    ScanFindsRowsWithin(t, t.revisions, matches);
    EverythingWithin(t.segments, t.revisions);
  }

  /** Over all runs the index holds one row for every stored segment and none besides. */
  lemma IndexHoldsEverySegmentOnce(actions: seq<Action>)
    ensures IndexInStep(After(EMPTY, actions)) && SegmentKeysUnique(After(EMPTY, actions).segments)
  {
    RunsKeepInv(EMPTY, actions);
  }
}
