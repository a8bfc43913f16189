/** The manual edit of a session's latest revision: exactly which edits are accepted, what they store, and why not. */
module EvidenceManual {
  import opened MachineInts
  import opened Domain
  import opened EvidenceCatalog
  import opened EvidenceRuns
  import opened EvidenceEdits

  // What the stored segments and the edit must be like

  predicate HasWholeBinding(segment: Segment) {
    segment.chunkId.Some? && segment.chunkStartMs.Some? && segment.chunkEndMs.Some?
  }

  predicate HasNoBinding(segment: Segment) {
    segment.chunkId == None && segment.chunkStartMs == None && segment.chunkEndMs == None
  }

  /** Chunk k can be played for this session. */
  predicate Playable(t: Tables, sessionId: string, k: nat) {
    k < |t.chunks| && t.chunks[k].sessionId == sessionId && t.chunks[k].available
  }

  predicate RangeFits(segment: Segment)
    requires HasWholeBinding(segment)
  {
    0 <= segment.chunkStartMs.value < segment.chunkEndMs.value
  }

  ghost predicate HoldsUp(t: Tables, sessionId: string, segment: Segment)
    requires HasWholeBinding(segment)
  {
    RangeFits(segment) && exists k: nat :: Playable(t, sessionId, k) && t.chunks[k].id == segment.chunkId.value
  }

  predicate KeepsBoundaries(stored: Segment, edit: Segment) {
    && edit.id == stored.id && edit.startMs == stored.startMs && edit.endMs == stored.endMs
    && edit.source == stored.source
  }

  /** The edit changes nothing but the text, and leaves some. */
  predicate Fits(stored: Segment, edit: Segment) {
    KeepsBoundaries(stored, edit) && !Blank(edit.text)
  }

  /** Either every stored segment has a binding that holds up, or none has one and one chunk can be played. */
  ghost predicate BindingsHold(t: Tables, sessionId: string, stored: seq<Segment>) {
    || (forall i :: 0 <= i < |stored| ==> HasWholeBinding(stored[i]) && HoldsUp(t, sessionId, stored[i]))
    || ((forall i :: 0 <= i < |stored| ==> HasNoBinding(stored[i])) && OnePlayable(t, sessionId))
  }

  ghost predicate OnePlayable(t: Tables, sessionId: string) {
    exists k: nat :: OnlyPlayable(t, sessionId, k)
  }

  ghost predicate OnlyPlayable(t: Tables, sessionId: string, k: nat) {
    Playable(t, sessionId, k) && forall j: nat :: Playable(t, sessionId, j) ==> j == k
  }

  // The available chunks, counted

  lemma {:induction false} CountedChunks(t: Tables, sessionId: string, n: nat)
    requires n <= |t.chunks|
    ensures var found := AvailableChunks(t.chunks[..n], sessionId);
            && (found == [] <==> forall k: nat :: k < n ==> !Playable(t, sessionId, k))
            && (forall k: nat :: k < n && |found| == 1 && Playable(t, sessionId, k) ==> found[0] == t.chunks[k])
            && (forall j: nat, k: nat :: j < k < n && Playable(t, sessionId, j) && Playable(t, sessionId, k) ==>
                  |found| > 1)
            && (|found| > 1 ==>
                  exists j: nat, k: nat :: j < k < n && Playable(t, sessionId, j) && Playable(t, sessionId, k))
  {
    if n > 0 {
      CountedChunks(t, sessionId, n - 1);
      assert t.chunks[..n][..n - 1] == t.chunks[..n - 1];
      if Playable(t, sessionId, n - 1) && AvailableChunks(t.chunks[..n - 1], sessionId) != [] {
        var j: nat :| j < n - 1 && Playable(t, sessionId, j);
        assert j < n - 1 < n && Playable(t, sessionId, j) && Playable(t, sessionId, n - 1);
      }
    }
  }

  lemma FallbackOfUnbound(t: Tables, sessionId: string, stored: seq<Segment>)
    requires stored != [] && AllUnbound(stored)
    ensures Fallback(t, sessionId, stored).Ok? <==> OnePlayable(t, sessionId)
    ensures forall k: nat :: OnlyPlayable(t, sessionId, k) ==>
              Fallback(t, sessionId, stored) == Ok(Some(t.chunks[k]))
    ensures Fallback(t, sessionId, stored) == Err(NoLegacyChunk) <==> forall k: nat :: !Playable(t, sessionId, k)
    ensures Fallback(t, sessionId, stored) == Err(SeveralLegacyChunks)
        <==> exists j: nat, k: nat :: j < k && Playable(t, sessionId, j) && Playable(t, sessionId, k)
  {
    assert Unbound(stored[0]);
    CountedChunks(t, sessionId, |t.chunks|);
    assert t.chunks[..|t.chunks|] == t.chunks;
    var found := AvailableChunks(t.chunks, sessionId);
    if |found| == 1 {
      var k: nat :| k < |t.chunks| && Playable(t, sessionId, k);
      forall j: nat | Playable(t, sessionId, j)
        ensures j == k
      {
        assert !(j < k) && !(k < j);
      }
      assert OnlyPlayable(t, sessionId, k);
    }
  }

  // The bindings, one after the other

  lemma OneBindingMore(t: Tables, sessionId: string, stored: seq<Segment>, n: nat)
    requires AllBound(stored) && n < |stored|
    ensures HasWholeBinding(stored[n])
    ensures BindingError(t, sessionId, stored[..n + 1])
        == if BindingError(t, sessionId, stored[..n]).Some? then BindingError(t, sessionId, stored[..n])
           else if HoldsUp(t, sessionId, stored[n]) then None
           else Some(if RangeFits(stored[n]) then ChunkUnavailable else InvalidChunkRange)
  {
    assert Bound(stored[n]);
    assert stored[..n + 1][..n] == stored[..n];
    var chunkId := stored[n].chunkId.value;
    assert AvailableChunk(t, chunkId, sessionId)
        <==> exists k: nat :: Playable(t, sessionId, k) && t.chunks[k].id == chunkId by {
      if k: nat :| Playable(t, sessionId, k) && t.chunks[k].id == chunkId {
        assert t.chunks[k].id == chunkId;
      }
      if AvailableChunk(t, chunkId, sessionId) {
        var k :| 0 <= k < |t.chunks| && t.chunks[k].id == chunkId && t.chunks[k].sessionId == sessionId
                 && t.chunks[k].available;
        assert Playable(t, sessionId, k);
      }
    }
  }

  /** No binding is at fault exactly when all hold up; otherwise the first that does not is. */
  lemma FirstBadBindingDecides(t: Tables, sessionId: string, stored: seq<Segment>, n: nat)
    requires AllBound(stored) && n <= |stored|
    requires forall i :: 0 <= i < n ==> HasWholeBinding(stored[i]) && HoldsUp(t, sessionId, stored[i])
    ensures n == |stored| ==> BindingError(t, sessionId, stored) == None
    ensures n < |stored| ==> HasWholeBinding(stored[n])
    ensures n < |stored| && !HoldsUp(t, sessionId, stored[n]) ==>
              BindingError(t, sessionId, stored)
              == Some(if RangeFits(stored[n]) then ChunkUnavailable else InvalidChunkRange)
  {
    for k := 0 to n
      invariant BindingError(t, sessionId, stored[..k]) == None
    {
      OneBindingMore(t, sessionId, stored, k);
    }
    assert stored[..|stored|] == stored;
    if n < |stored| {
      OneBindingMore(t, sessionId, stored, n);
      if !HoldsUp(t, sessionId, stored[n]) {
        FirstBindingError(t, sessionId, stored, n + 1);
      }
    }
  }

  // The edits, one after the other

  lemma EditErrorIs(stored: Segment, edit: Segment)
    ensures EditError(stored, edit)
        == if Fits(stored, edit) then None
           else Some(if KeepsBoundaries(stored, edit) then EmptyText else BoundariesDiffer)
  {
  }

  lemma FirstMisfitDecides(stored: seq<Segment>, edited: seq<Segment>, legacy: Option<ChunkRow>, n: nat)
    requires |stored| == |edited| && n < |stored|
    requires (forall i :: 0 <= i < n ==> Fits(stored[i], edited[i])) && !Fits(stored[n], edited[n])
    ensures DeriveAll(stored, edited, legacy)
        == Err(if KeepsBoundaries(stored[n], edited[n]) then EmptyText else BoundariesDiffer)
  {
    forall i | 0 <= i < n
      ensures EditError(stored[..n][i], edited[..n][i]) == None
    {
      EditErrorIs(stored[i], edited[i]);
    }
    DeriveAllIs(stored[..n], edited[..n], legacy);
    EditErrorIs(stored[n], edited[n]);
    assert stored[..n + 1][..n] == stored[..n] && edited[..n + 1][..n] == edited[..n];
    FirstEditError(stored, edited, legacy, n + 1);
  }

  lemma AllFitMeansFits(stored: seq<Segment>, edited: seq<Segment>)
    requires |stored| == |edited|
    ensures AllFit(stored, edited) <==> forall i :: 0 <= i < |stored| ==> Fits(stored[i], edited[i])
  {
    forall i | 0 <= i < |stored|
      ensures EditError(stored[i], edited[i]) == None <==> Fits(stored[i], edited[i])
    {
      EditErrorIs(stored[i], edited[i]);
    }
  }

  // Theorems

  lemma FallbackExactly(t: Tables, sessionId: string, stored: seq<Segment>)
    requires stored != []
    ensures Fallback(t, sessionId, stored).Ok? <==> BindingsHold(t, sessionId, stored)
  {
    assert AllBound(stored) <==> forall i :: 0 <= i < |stored| ==> HasWholeBinding(stored[i]);
    assert AllUnbound(stored) <==> forall i :: 0 <= i < |stored| ==> HasNoBinding(stored[i]);
    assert !(HasWholeBinding(stored[0]) && HasNoBinding(stored[0]));
    if AllBound(stored) {
      var n := 0;
      while n < |stored| && HoldsUp(t, sessionId, stored[n])
        invariant n <= |stored|
        invariant forall i :: 0 <= i < n ==> HasWholeBinding(stored[i]) && HoldsUp(t, sessionId, stored[i])
        invariant n < |stored| ==> HasWholeBinding(stored[n])
      {
        n := n + 1;
      }
      FirstBadBindingDecides(t, sessionId, stored, n);
    } else if AllUnbound(stored) {
      FallbackOfUnbound(t, sessionId, stored);
    }
  }

  lemma EditSegmentsAccepts(t: Tables, sessionId: string, stored: seq<Segment>, edited: seq<Segment>)
    requires edited != []
    ensures EditSegments(t, sessionId, stored, edited).Ok?
        <==> && |stored| == |edited| && BindingsHold(t, sessionId, stored)
             && forall i :: 0 <= i < |stored| ==> Fits(stored[i], edited[i])
  {
    if |stored| == |edited| {
      FallbackExactly(t, sessionId, stored);
      AllFitMeansFits(stored, edited);
      if Fallback(t, sessionId, stored).Ok? {
        DeriveAllIs(stored, edited, Fallback(t, sessionId, stored).value);
      }
    }
  }

  /** An edit is accepted exactly when it keeps every boundary, empties no text, and the bindings hold up. */
  lemma EditsAcceptedExactly(t: Tables, sessionId: string, edited: seq<Segment>)
    ensures ManualEdit(t, sessionId, edited).Ok?
        <==> && edited != [] && Latest(t, sessionId).Some?
             && var stored := SegmentsOf(t, Latest(t, sessionId).value.id);
                && |stored| == |edited| && BindingsHold(t, sessionId, stored)
                && forall i :: 0 <= i < |stored| ==> Fits(stored[i], edited[i])
  {
    if edited != [] && Latest(t, sessionId).Some? {
      EditSegmentsAccepts(t, sessionId, SegmentsOf(t, Latest(t, sessionId).value.id), edited);
    }
  }

  /** a - b, kept within the 64-bit range. */
  function Clipped(n: int): i64 {
    if n < -0x8000_0000_0000_0000 then -0x8000_0000_0000_0000
    else if n > 0x7FFF_FFFF_FFFF_FFFF then 0x7FFF_FFFF_FFFF_FFFF
    else n
  }

  /** What an edit makes of one stored segment. */
  ghost predicate EditedTo(t: Tables, sessionId: string, stored: Segment, edit: Segment, derived: Segment) {
    && KeepsBoundaries(stored, derived) && derived.text == Trim(edit.text)
    && (HasWholeBinding(stored) ==>
          && derived.chunkId == stored.chunkId && derived.chunkStartMs == stored.chunkStartMs
          && derived.chunkEndMs == stored.chunkEndMs)
    && (!HasWholeBinding(stored) ==> OnePlayable(t, sessionId))
    && (!HasWholeBinding(stored) ==> forall k: nat :: OnlyPlayable(t, sessionId, k) ==>
          && derived.chunkId == Some(t.chunks[k].id)
          && derived.chunkStartMs == Some(Clipped(stored.startMs - t.chunks[k].offsetMs))
          && derived.chunkEndMs == Some(Clipped(stored.endMs - t.chunks[k].offsetMs)))
  }

  lemma EditSegmentsStores(t: Tables, sessionId: string, stored: seq<Segment>, edited: seq<Segment>, i: nat)
    requires EditSegments(t, sessionId, stored, edited).Ok? && i < |edited|
    ensures var derived := EditSegments(t, sessionId, stored, edited).value;
            |derived| == |stored| == |edited| && EditedTo(t, sessionId, stored[i], edited[i], derived[i])
  {
    var legacy := Fallback(t, sessionId, stored).value;
    DeriveAllIs(stored, edited, legacy);
    EditErrorIs(stored[i], edited[i]);
    assert EditError(stored[i], edited[i]) == None;
    DerivedBinding(t, sessionId, stored, edited, i);
  }

  /** What it stores: the edited texts without outer whitespace, over the stored boundaries and bindings. */
  lemma EditsStore(t: Tables, sessionId: string, edited: seq<Segment>, i: nat)
    requires ManualEdit(t, sessionId, edited).Ok? && i < |edited|
    ensures var (latest, derived) := ManualEdit(t, sessionId, edited).value;
            var stored := SegmentsOf(t, latest.id);
            && Latest(t, sessionId) == Some(latest) && |derived| == |stored| == |edited|
            && EditedTo(t, sessionId, stored[i], edited[i], derived[i])
  {
    EditSegmentsStores(t, sessionId, SegmentsOf(t, Latest(t, sessionId).value.id), edited, i);
  }

  lemma DerivedBinding(t: Tables, sessionId: string, stored: seq<Segment>, edited: seq<Segment>, i: nat)
    requires i < |stored| == |edited| && Fallback(t, sessionId, stored).Ok?
    ensures var derived := Derived(stored[i], edited[i], Fallback(t, sessionId, stored).value);
            && (HasWholeBinding(stored[i]) ==>
                  && derived.chunkId == stored[i].chunkId && derived.chunkStartMs == stored[i].chunkStartMs
                  && derived.chunkEndMs == stored[i].chunkEndMs)
            && (!HasWholeBinding(stored[i]) ==> forall k: nat :: OnlyPlayable(t, sessionId, k) ==>
                  && derived.chunkId == Some(t.chunks[k].id)
                  && derived.chunkStartMs == Some(Clipped(stored[i].startMs - t.chunks[k].offsetMs))
                  && derived.chunkEndMs == Some(Clipped(stored[i].endMs - t.chunks[k].offsetMs)))
            && (!HasWholeBinding(stored[i]) ==> OnePlayable(t, sessionId))
  {
    if AllUnbound(stored) {
      assert Unbound(stored[i]);
      FallbackOfUnbound(t, sessionId, stored);
      FallbackBinding(t, sessionId, stored, edited, i);
    } else {
      assert Bound(stored[i]);
    }
  }

  lemma FallbackBinding(t: Tables, sessionId: string, stored: seq<Segment>, edited: seq<Segment>, i: nat)
    requires stored != [] && AllUnbound(stored) && i < |stored| == |edited| && Fallback(t, sessionId, stored).Ok?
    ensures var derived := Derived(stored[i], edited[i], Fallback(t, sessionId, stored).value);
            forall k: nat :: OnlyPlayable(t, sessionId, k) ==>
              && derived.chunkId == Some(t.chunks[k].id)
              && derived.chunkStartMs == Some(Clipped(stored[i].startMs - t.chunks[k].offsetMs))
              && derived.chunkEndMs == Some(Clipped(stored[i].endMs - t.chunks[k].offsetMs))
  {
    FallbackOfUnbound(t, sessionId, stored);
    assert Unbound(stored[i]);
  }

  /** Why an edit is refused, before its texts are looked at. */
  lemma RefusalsBeforeTheTexts(t: Tables, sessionId: string, edited: seq<Segment>)
    ensures ManualEdit(t, sessionId, edited) == Err(NoSegments) <==> edited == []
    ensures ManualEdit(t, sessionId, edited) == Err(NoRevision) <==> edited != [] && Latest(t, sessionId).None?
    ensures edited != [] && Latest(t, sessionId).Some? ==>
              var stored := SegmentsOf(t, Latest(t, sessionId).value.id);
              && (ManualEdit(t, sessionId, edited) == Err(NotEverySegment) <==> |stored| != |edited|)
              && (|stored| == |edited| ==>
                    && (ManualEdit(t, sessionId, edited) == Err(MixedBindings)
                        <==> && (exists i :: 0 <= i < |stored| && !HasWholeBinding(stored[i]))
                             && (exists i :: 0 <= i < |stored| && !HasNoBinding(stored[i])))
                    && (ManualEdit(t, sessionId, edited) == Err(NoLegacyChunk)
                        <==> && (forall i :: 0 <= i < |stored| ==> HasNoBinding(stored[i]))
                             && (forall k: nat :: !Playable(t, sessionId, k)))
                    && (ManualEdit(t, sessionId, edited) == Err(SeveralLegacyChunks)
                        <==> && (forall i :: 0 <= i < |stored| ==> HasNoBinding(stored[i]))
                             && (exists j: nat, k: nat ::
                                   j < k && Playable(t, sessionId, j) && Playable(t, sessionId, k))))
  {
    if edited != [] && Latest(t, sessionId).Some? {
      RefusalsOfEdit(t, sessionId, SegmentsOf(t, Latest(t, sessionId).value.id), edited);
    }
  }

  lemma RefusalsOfEdit(t: Tables, sessionId: string, stored: seq<Segment>, edited: seq<Segment>)
    requires edited != []
    ensures var edit := EditSegments(t, sessionId, stored, edited);
            && (edit.Err? ==> edit.error !in {NoSegments, NoRevision})
            && (edit == Err(NotEverySegment) <==> |stored| != |edited|)
            && (|stored| == |edited| ==>
                  && (edit == Err(MixedBindings)
                      <==> && (exists i :: 0 <= i < |stored| && !HasWholeBinding(stored[i]))
                           && (exists i :: 0 <= i < |stored| && !HasNoBinding(stored[i])))
                  && (edit == Err(NoLegacyChunk)
                      <==> && (forall i :: 0 <= i < |stored| ==> HasNoBinding(stored[i]))
                           && (forall k: nat :: !Playable(t, sessionId, k)))
                  && (edit == Err(SeveralLegacyChunks)
                      <==> && (forall i :: 0 <= i < |stored| ==> HasNoBinding(stored[i]))
                           && (exists j: nat, k: nat ::
                                 j < k && Playable(t, sessionId, j) && Playable(t, sessionId, k))))
  {
    if |stored| == |edited| {
      RefusalsOfFallback(t, sessionId, stored);
      if Fallback(t, sessionId, stored).Ok? {
        RefusalsOfTexts(stored, edited, Fallback(t, sessionId, stored).value);
      }
    }
  }

  lemma RefusalsOfTexts(stored: seq<Segment>, edited: seq<Segment>, legacy: Option<ChunkRow>)
    requires |stored| == |edited|
    ensures DeriveAll(stored, edited, legacy).Err? ==>
              DeriveAll(stored, edited, legacy).error in {BoundariesDiffer, EmptyText}
  {
    DeriveAllIs(stored, edited, legacy);
    AllFitMeansFits(stored, edited);
    if DeriveAll(stored, edited, legacy).Err? {
      var n := 0;
      while Fits(stored[n], edited[n])
        invariant n < |stored| && forall i :: 0 <= i < n ==> Fits(stored[i], edited[i])
        decreases |stored| - n
      {
        n := n + 1;
      }
      FirstMisfitDecides(stored, edited, legacy, n);
    }
  }

  lemma RefusalsOfFallback(t: Tables, sessionId: string, stored: seq<Segment>)
    requires stored != []
    ensures var fallback := Fallback(t, sessionId, stored);
            && (fallback == Err(MixedBindings)
                <==> && (exists i :: 0 <= i < |stored| && !HasWholeBinding(stored[i]))
                     && (exists i :: 0 <= i < |stored| && !HasNoBinding(stored[i])))
            && (fallback == Err(NoLegacyChunk)
                <==> && (forall i :: 0 <= i < |stored| ==> HasNoBinding(stored[i]))
                     && (forall k: nat :: !Playable(t, sessionId, k)))
            && (fallback == Err(SeveralLegacyChunks)
                <==> && (forall i :: 0 <= i < |stored| ==> HasNoBinding(stored[i]))
                     && (exists j: nat, k: nat :: j < k && Playable(t, sessionId, j) && Playable(t, sessionId, k)))
            && (fallback.Err? ==> fallback.error !in {NotEverySegment, NoSegments, NoRevision})
  {
    assert AllBound(stored) <==> forall i :: 0 <= i < |stored| ==> HasWholeBinding(stored[i]);
    assert AllUnbound(stored) <==> forall i :: 0 <= i < |stored| ==> HasNoBinding(stored[i]);
    assert !(HasWholeBinding(stored[0]) && HasNoBinding(stored[0]));
    if AllUnbound(stored) {
      FallbackOfUnbound(t, sessionId, stored);
    } else if AllBound(stored) {
      BindingErrorsAreTwo(t, sessionId, stored);
    }
  }

  lemma {:induction false} BindingErrorsAreTwo(t: Tables, sessionId: string, stored: seq<Segment>)
    requires AllBound(stored)
    ensures BindingError(t, sessionId, stored) in {None, Some(InvalidChunkRange), Some(ChunkUnavailable)}
  {
    if stored != [] {
      BindingErrorsAreTwo(t, sessionId, stored[..|stored| - 1]);
    }
  }

  /** With whole bindings the first that does not hold up decides, and after them the first edit that does not fit. */
  lemma FirstFaultIsReported(t: Tables, sessionId: string, edited: seq<Segment>, n: nat)
    requires Latest(t, sessionId).Some? && n < |edited|
    requires |SegmentsOf(t, Latest(t, sessionId).value.id)| == |edited|
    ensures var stored := SegmentsOf(t, Latest(t, sessionId).value.id);
            && ((forall i :: 0 <= i < |stored| ==> HasWholeBinding(stored[i]))
                && (forall i :: 0 <= i < n ==> HoldsUp(t, sessionId, stored[i]))
                && !HoldsUp(t, sessionId, stored[n]) ==>
                  ManualEdit(t, sessionId, edited)
                  == Err(if RangeFits(stored[n]) then ChunkUnavailable else InvalidChunkRange))
            && (BindingsHold(t, sessionId, stored)
                && (forall i :: 0 <= i < n ==> Fits(stored[i], edited[i])) && !Fits(stored[n], edited[n]) ==>
                  ManualEdit(t, sessionId, edited)
                  == Err(if KeepsBoundaries(stored[n], edited[n]) then EmptyText else BoundariesDiffer))
  {
    var stored := SegmentsOf(t, Latest(t, sessionId).value.id);
    if (forall i :: 0 <= i < |stored| ==> HasWholeBinding(stored[i]))
       && (forall i :: 0 <= i < n ==> HoldsUp(t, sessionId, stored[i])) && !HoldsUp(t, sessionId, stored[n])
    {
      assert AllBound(stored);
      FirstBadBindingDecides(t, sessionId, stored, n);
    }
    FallbackExactly(t, sessionId, stored);
    if BindingsHold(t, sessionId, stored)
       && (forall i :: 0 <= i < n ==> Fits(stored[i], edited[i])) && !Fits(stored[n], edited[n])
    {
      FirstMisfitDecides(stored, edited, Fallback(t, sessionId, stored).value, n);
    }
  }
}
