# LifeSub protocol and arithmetic models

Dafny models of the parts of LifeSub in which correctness depends on arithmetic bounds, on the order of concurrent
steps, or on what survives a crash, with proofs of what they guarantee over all inputs and all runs.
`dafny verify dfyconfig.toml` checks everything.

What is modelled, file by file:

- `AudioRanges`, `AudioDecode`, `VoiceWindows`, `NativeEngine`: from packets to published segments. The decode
  budget and packet loop, the downmix, the resampled length, the cut into provider windows, and the millisecond
  ranges that are published. `MachineInts` and `Domain` hold the machine integers and text helpers.
- `Idempotency`, `Dispatch`: the request table and the mutation flow. Claim, execution and commit are separate
  steps; requests interleave, and a thread can panic or the process die between them.
- `MicrophoneDevices`, `MicrophoneRuns`, `MicrophoneStored`, `MicrophoneShown`, `MicrophoneRefreshing`: the microphone
  controller. Each stretch of code between two awaits is one method and one step; calls in flight settle in any order.
- `ModelManager`, `ModelManagerRuns`, `ModelManagerLoading`: the model controller in the same way, with disposals and
  reloads.
- `ImportSweep`, `AudioStore`, `SweepReconcile`: imports against orphan sweeps and power losses step by step, the
  stored names and the import and reconcile calls run one at a time, and that the two sweeps are one.
- `ManifestPaths`, `Manifest`, `StableSort`: the bundle validators and the canonical artifact order.
- `EvidenceCatalog`, `EvidenceRuns`, `EvidenceEdits`, `EvidenceManual`, `EvidenceReedits`: revisions, segments, the
  search index and manual edits.
- `JobTable`, `JobRuns`, `JobCoordinator`, `LeaseTiming`, `ClaimTiming`: the job rows, the coordinator's claim over
  them, the time that a lease leaves for renewing it, and the two together.
- `LeaseRegistry`, `OperationRegistry`: execution leases against deletions, and model operations with their
  cancellation flags.

Code that updates objects in place is modelled by classes. A method is proved against a function on the old
fields and says what the new fields are; the theorems over runs are about those functions. Storage faults, clock
readings, fresh identifiers, hash values and the answers of libraries are parameters, so every statement holds for
all of them.

Findings where the code does not do what it might be read to promise, each with its exact condition and a run or
input that shows it:

- A claimed idempotency key is never released exactly when it is abandoned, and it becomes that exactly by a process
  death, a panic or a lost commit (`Dispatch.StuckExactlyWhenAbandoned`, `BecomesAbandonedExactly`). A duplicate is
  replayed whatever its method and fingerprint (`Dispatch.DuplicateIsReplayed`).
- Polling every period P with calls of length up to S can lose a live claim exactly when min(S, P) + P + S exceeds
  25 s - 1 ms + 1 ns, or for P = 0 when S exceeds 30 s - 1 ms; so P + 2 S = 25 s is too much (`LeaseTiming`,
  `ClaimTiming`).
- `publish` and the execution snapshot report a lost or cancelled claim and keep it; every other call drops it
  (`JobCoordinator.GivingUpKeepsTheClaimExactly`).
- A commit ten minutes or more after the file's timestamp can leave a row without a file, and no earlier one
  (`ImportSweep`).
- A chunk row that names its file other than as `audio/` and the name reads it all the same, but the sweep takes the
  file for an orphan (`AudioStore.AliasedPathsLoseTheirFile`); no import or capture writes such a row.
- A revision made by the legacy chunk fallback refuses its next edit exactly when a segment cannot be shifted to the
  chunk (`EvidenceEdits`, `EvidenceReedits`).
- `cancel()` of the model controller can write after a reload; `ModelManagerRuns.CancelWritesExactly` says when.
  `loading` and `refreshing` stay set exactly when the newest list number went to something that leaves them alone,
  such as an operation's list call, or a disposal that an operation revives the controller from
  (`ModelManagerLoading`).
- `refreshing` of the microphone controller stays set exactly when a load was issued while it was set, and then until
  another refresh, which the selector disables (`MicrophoneRefreshing`).
- Once the newest selection has reported, the microphone shown differs from the stored one exactly if that selection
  failed and had replaced another than the last saved one; never if no selection is accepted during a save
  (`MicrophoneShown`). A rollback keeps the probe result shown matching exactly under
  `MicrophoneRuns.RollbackMatchesExactly`.
- A live lease count of usize::MAX, and no smaller one, looks like a reserved deletion (`LeaseRegistry`).

## Model

| member | source | states |
|---|---|---|
| AudioRanges.FrameCountAcceptsExactlyTheCap | src-tauri/src/asr/audio.rs:361-383 | a positive frame count at a valid rate is accepted exactly when it is within 24 h of that rate; inside the cap the ratio never overflows and the output-frame cap never fires |
| AudioRanges.DurationNeverOverflows | src-tauri/src/asr/audio.rs:265-283 | within the cap the duration in milliseconds is computed without overflow and fits an i64 |
| AudioRanges.DurationIsWorkLengthInMillis | src-tauri/src/asr/audio.rs:265-283 | the duration of the source equals the resampled length divided by 16, rounded up: the nested ceilings collapse |
| AudioRanges.PublishedRangeFits | src-tauri/src/asr/native_engine.rs:261-284 | every non-empty evidence range inside the working samples publishes floor(start/16)..ceil(end/16), equals sample_range_to_millis at 16 kHz, and is accepted as a transcript time range against the source duration |
| AudioRanges.WholeAudioPublishesItsDuration | src-tauri/src/asr/native_engine.rs:261-284 | evidence covering the whole working audio ends exactly at the source duration |
| AudioRanges.WorkRangeNeverFails | src-tauri/src/asr/audio.rs:416-435 | for a non-empty work range inside the resampled length the mapping never fails, rounds outwards and stays non-empty and inside the source |
| AudioRanges.WholeWorkMapsToWholeSource | src-tauri/src/asr/audio.rs:416-435 | the whole working audio maps onto exactly [0, source_frames) |
| AudioRanges.AdjacentRangesShareAtMostOneFrame | src-tauri/src/asr/audio.rs:416-435 | adjacent work ranges leave no gap in the source and share at most one frame |
| AudioRanges.RoundTripCovers | src-tauri/src/asr/audio.rs:416-435 | mapping the frames back to work samples, rounded outwards, covers the original range and stays inside the working audio |
| AudioRanges.TilingMissesNoFrame | src-tauri/src/asr/audio.rs:416-435 | if work ranges tile the working audio, every source frame lies in the image of one of them |
| AudioRanges.MillisExactly | src-tauri/src/asr/audio.rs:394-414 | the milliseconds of a range exist exactly inside the audio while neither end is too large to scale; then floor and ceiling, never empty |
| AudioRanges.SourceFramesExactly | src-tauri/src/asr/audio.rs:416-435 | the mapping fails exactly for rate zero, an end too large to scale, or a range beyond the source, each with its error |
| AudioRanges.TranscriptRangesExactly | src-tauri/src/domain.rs:294-318 | a transcript range is accepted exactly inside the audio, and otherwise which test fails first |
| AudioDecode.DecodeResourceBudget.New | src-tauri/src/asr/audio.rs:102-118 | a budget exists exactly for a positive rate and channel count whose 24 hours of samples fit a usize, and which error it is otherwise; it starts valid and empty with the frame limit of its rate |
| AudioDecode.DecodeResourceBudget.AcceptPacket | src-tauri/src/asr/audio.rs:120-148 | a packet is accepted exactly when it is non-empty, whole and within the frame limit (the sample limit then follows); a rejected packet leaves the budget unchanged, and which error it is |
| AudioDecode.NoErrorMeansCoherentWithinBudget | src-tauri/src/asr/audio.rs:213-263 | the packet loop takes every packet if and only if all share one format, every buffer is whole and the total is within the cap |
| AudioDecode.CoherentExactly | src-tauri/src/asr/audio.rs:213-263 | a stream is coherent if and only if no packet is an error or a buffer no audio can have and all decoded packets share rate and channels |
| AudioDecode.DeclaredLengthsExactly | src-tauri/src/asr/audio.rs:151-160 | a declared length is accepted exactly within the 24 hours of its rate |
| AudioDecode.InterleavedLength | src-tauri/src/asr/audio.rs:213-263 | for any accepted packet sequence the interleaved buffer holds exactly source_frames times channels samples |
| AudioDecode.InterleavedWithinLimit | src-tauri/src/asr/audio.rs:120-148 | within the frame budget that never exceeds what 24 hours of the format hold, nor u64::MAX |
| AudioDecode.DecodePackets | src-tauri/src/asr/audio.rs:213-263 | the loop returns all samples of all accepted packets in order, their frame total and format, or the error of the first packet that cannot be taken |
| AudioDecode.SanitizeAndDownmix | src-tauri/src/asr/audio.rs:286-307 | succeeds exactly for whole frames, with one sample in [-1, 1] for each; a frame whose channels agree gives their value |
| AudioDecode.OneMonoSamplePerFrame | src-tauri/src/asr/audio.rs:286-307 | the mono signal has exactly one sample per frame |
| AudioDecode.MonoSampleIsFrameMean | src-tauri/src/asr/audio.rs:286-307 | mono sample i is the clamped mean of frame i, non-finite samples counting as silence |
| AudioDecode.InRangeFramesKeepTheirMean | src-tauri/src/asr/audio.rs:286-307 | a frame of finite samples in [-1, 1] is averaged without any clamping |
| AudioDecode.MonoFilesStay | src-tauri/src/asr/audio.rs:286-307 | a mono file is only cut to [-1, 1], with silence for what is not finite |
| AudioDecode.ReorderedChannelsSoundAlike | src-tauri/src/asr/audio.rs:296-305 | reordering the channels within frames changes nothing |
| AudioDecode.ChannelsTrade | src-tauri/src/asr/audio.rs:296-305 | what one channel gains and another of the frame loses changes nothing, however loud they are |
| AudioDecode.NonFiniteIsSilence | src-tauri/src/asr/audio.rs:296-305 | a sample that is not finite counts as silence |
| AudioDecode.OneChannelLouder | src-tauri/src/asr/audio.rs:296-305 | one channel of an in-range frame d louder, still in range, makes its mono sample d / channels louder, and no other |
| AudioDecode.PacketsStandInOrder | src-tauri/src/asr/audio.rs:213-263 | in a coherent stream every packet has the stream's format, and its samples stand where the frames before it end |
| AudioDecode.FirstBadPacketIsReported | src-tauri/src/asr/audio.rs:213-263 | a stream fails with the error of its first packet that does not follow or does not fit, and which of the two |
| AudioDecode.ResampleMono | src-tauri/src/asr/audio.rs:309-359 | the resampled length is the ceiling of frames times 16000 over the rate; a shorter or longer library output is refused |
| AudioDecode.DecodeToWorkingAudio | src-tauri/src/asr/audio.rs:175-283 | once the stream decodes only the resampling library can fail the call; on success mono length, working length and duration agree with the source frames, and at 16 kHz the working audio is the mono signal of the packets, for a mono file its own samples |
| VoiceWindows.AbsoluteGridCandidates | src-tauri/src/asr/vad.rs:406-429 | returns exactly the multiples of the energy frame in the interval, failing only when the first one does not fit a u64 |
| VoiceWindows.SelectSplitBoundary | src-tauri/src/asr/vad.rs:239-300 | the boundary is the quietest admissible grid point, the earliest of equals, or the latest safe end when there is none |
| VoiceWindows.BestBoundaryMeans | src-tauri/src/asr/vad.rs:239-300 | that boundary in samples: on the 320 grid within 32000 of the latest safe end, with its frame in the core, no louder than any such point and before equals |
| VoiceWindows.SilenceHasNoEnergy | src-tauri/src/asr/vad.rs:291-297 | silence around a position has no energy |
| VoiceWindows.EnergyOfUpdate | src-tauri/src/asr/vad.rs:291-297 | a sample counts with its square over 320 within 160 of the position, and otherwise not at all |
| VoiceWindows.PartitionCore | src-tauri/src/asr/vad.rs:350-404 | a valid core is cut into windows that tile it, each padded inside the audio and within the provider limit, each boundary the best one |
| VoiceWindows.ValidateDetectorCores | src-tauri/src/asr/vad.rs:329-348 | accepts exactly ordered, non-overlapping, non-empty cores inside the samples |
| VoiceWindows.PartitionDetectorCores | src-tauri/src/asr/vad.rs:302-317 | one utterance per detected core, in order, with that core as its evidence, correctly partitioned |
| VoiceWindows.PartitionWithoutVad | src-tauri/src/asr/vad.rs:319-327 | fails only on empty audio; otherwise one utterance whose evidence is all of it |
| VoiceWindows.EachSampleInOneWindow | src-tauri/src/asr/vad.rs:350-404 | every sample of a core lies in the core range of exactly one of its windows |
| VoiceWindows.WindowCountBounded | src-tauri/src/asr/vad.rs:350-404 | a core of n samples is cut into at most (n - 1) / 361600 + 1 windows, every one but the last advancing by 361600 samples or more |
| NativeEngine.SegmentIdInjective | src-tauri/src/asr/native_engine.rs:261-284 | segment ids of one chunk are distinct for distinct evidence ranges |
| NativeEngine.BuildSuccess | src-tauri/src/asr/native_engine.rs:163-191 | succeeds exactly when the detector identity matches, there is a non-blank text per non-empty range and the receipt is valid; then publishes each range and text in order |
| NativeEngine.PublishedSegmentsFitTheAudio | src-tauri/src/asr/native_engine.rs:261-284 | published segments are valid ranges of the audio, in order, overlap by at most one millisecond and have distinct ids |
| NativeEngine.TranscribeAllWindows | src-tauri/src/asr/native_engine.rs:193-222 | on success each text is, in order and once each with a space between, what the provider answers to exactly the samples of the utterance's windows; the calls go through the windows of all utterances in order |
| NativeEngine.PartitionedWindowsAlwaysSuit | src-tauri/src/asr/native_engine.rs:286-310 | windows cut by the partition never fail for their range or length: the transcription succeeds exactly when every call is answered |
| NativeEngine.TextsAreSpoken | src-tauri/src/asr/native_engine.rs:193-222 | a list of texts is the result if and only if each is what is said in its utterance |
| NativeEngine.OnlyTheJoinReads | src-tauri/src/asr/native_engine.rs:219 | the answers leave no choice of the text: parts in order with single spaces between them read in one way |
| NativeEngine.CallsAreTheWindows | src-tauri/src/asr/native_engine.rs:202-220 | every call belongs to exactly one window of one utterance |
| NativeEngine.FirstFailureEndsTheRun | src-tauri/src/asr/native_engine.rs:208-218 | the first call that fails ends the run with its own error: a cancellation before, the renewal's error, a cancellation after, the provider's |
| NativeEngine.RunEngine | src-tauri/src/asr/native_engine.rs:163-310 | end to end: succeeds exactly when the file decodes, the cores fit it, every window is answered, something is said in every utterance, the detector identity matches and the receipt is valid; then it publishes for each core in order its range, its id and what was said in it |
| Domain.TrimCutsWhitespace | src-tauri/src/catalog.rs:524-532 | trimming removes whitespace only, from the ends only, and leaves none there |
| Domain.BlankExactly | src-tauri/src/catalog.rs:524-526 | a text is blank if and only if it is made of the 25 Unicode white-space characters |
| Domain.DecimalReadsBack | src-tauri/src/asr/native_engine.rs:278 | a number in a segment id is printed in decimal digits, without leading zeros, that read back as the number |
| Idempotency.RequestTable.CheckOrClaim | src-tauri/src/api/idempotency.rs:38-130 | inserts a fresh in-progress row exactly when the scope has none, otherwise reports what the row holds and changes nothing |
| Idempotency.RequestTable.CommitSuccess | src-tauri/src/api/idempotency.rs:132-159 | the unguarded update of the scope row: whatever its state, it becomes succeeded with this response |
| Idempotency.RequestTable.CommitFailure | src-tauri/src/api/idempotency.rs:161-187 | the unguarded update of the scope row: whatever its state, it becomes failed with this error |
| Dispatch.ToolApi.MutationFlow | src-tauri/src/api/dispatch.rs:743-799 | one uninterrupted mutation: for every row, fault and fresh id what both tables hold afterwards and what is answered, written out |
| Dispatch.MutationRunsAtMostOnce | src-tauri/src/api/dispatch.rs:699-799 | over every interleaving of requests with panics and crashes between the steps, each (contract, version, principal, key) runs its mutation at most once |
| Dispatch.FinalRowsNeverChange | src-tauri/src/api/idempotency.rs:132-187 | although commits are unguarded, a succeeded or failed row is the same after any further run |
| Dispatch.EveryReplyIsAccounted | src-tauri/src/api/dispatch.rs:743-799 | every reply is the claimant's own, a replay of exactly its stored response or error, in-progress, or a storage error |
| Dispatch.SuccessRepliesAgree | src-tauri/src/api/dispatch.rs:743-799 | two success replies of one scope carry the same response, down to the claimant's request id |
| Dispatch.OperationsAreTheExecutions | src-tauri/src/api/dispatch.rs:672-697 | the operation rows are exactly the operations created by executions, in order, with distinct ids |
| Dispatch.OperationsAreAsAsked | src-tauri/src/api/dispatch.rs:672-697 | in every run each operation has the kind, the method and the principal of the request that ran it |
| Dispatch.DuplicateIsReplayed | src-tauri/src/api/dispatch.rs:743-799 | without storage faults a duplicate of a finished scope is answered by replay, even with another method or fingerprint |
| Dispatch.AbandonedKeysStayOpen | src-tauri/src/api/dispatch.rs:699-799 | a key whose claimant died between claim and commit is never released: its row never changes and it never runs again |
| Dispatch.OpenRowsCanClose | src-tauri/src/api/dispatch.rs:743-799 | in every reachable state an open row that is not abandoned has a continuation that closes it |
| Dispatch.StuckExactlyWhenAbandoned | src-tauri/src/api/dispatch.rs:699-799 | a claimed key stays open in every continuation if and only if it is abandoned |
| Dispatch.BecomesAbandonedExactly | src-tauri/src/api/dispatch.rs:743-799 | a step abandons a key if and only if its row is open and the step is a process death, a panic of its claimant or the lost commit of its executed claimant |
| Dispatch.EveryKeyCanBeAbandoned | src-tauri/src/api/dispatch.rs:699-799 | for every request, three runs from the empty state that abandon its key: by a process death and by a panic after the claim, and by a lost commit |
| Dispatch.CrashAbandonsExactlyTheOpenRows | src-tauri/src/api/dispatch.rs:699-799 | a process death abandons exactly the rows in progress |
| MicrophoneDevices.MicrophoneDeviceController.Load | src/microphoneDevices.ts:86-95 | the fields after load up to its await, and whether a list call is issued; no generation falls and availability stays current |
| MicrophoneDevices.MicrophoneDeviceController.LoadAnswer | src/microphoneDevices.ts:96-115 | the fields after the load settles, each written out: only the newest issue replaces the devices or fails the phase, the configuration is always taken, the probe is left alone |
| MicrophoneDevices.MicrophoneDeviceController.RefreshAnswer | src/microphoneDevices.ts:117-137 | the fields after a refresh settles, each written out: only the newest replaces the devices or fails the phase, and ends refreshing; the probe is dropped exactly for a disconnected selection |
| MicrophoneDevices.MicrophoneDeviceController.Select | src/microphoneDevices.ts:139-178 | the fields after a selection is made or refused, and what its queued save captured; a changed selection drops the probe, a refused one changes neither |
| MicrophoneDevices.MicrophoneDeviceController.SelectionAnswer | src/microphoneDevices.ts:180-194 | only the newest selection reports, only its failure rolls back to what it replaced, and the probe is left alone |
| MicrophoneDevices.MicrophoneDeviceController.Probe | src/microphoneDevices.ts:196-207 | when a probe goes out, and the fields either way; it goes out only for a connected selection |
| MicrophoneDevices.MicrophoneDeviceController.ProbeAnswer | src/microphoneDevices.ts:208-222 | a probe answer counts only for its own generation and the still selected microphone |
| MicrophoneDevices.MicrophoneDeviceController.TakeConfig | src/microphoneDevices.ts:224-253 | taking over a stored configuration drops the probe exactly when the selection changes, and the start input that results |
| MicrophoneDevices.UsableMeansConnected | src/microphoneDevices.ts:294-301 | availability is ready exactly when the list is loaded and the selected microphone is connected |
| MicrophoneDevices.AvailabilityMeans | src/microphoneDevices.ts:294-301 | what each of the six availabilities says about phase, list and selection, both ways |
| MicrophoneDevices.CaptureModeMeans | src/microphoneDevices.ts:303-307 | the two spellings of each narrow capture mode are its only ones, anything else is smart |
| MicrophoneRuns.AppliedListsIncrease | src/microphoneDevices.ts:86-137 | over all runs the issue numbers of the lists taken over strictly increase |
| MicrophoneRuns.OnlyTheNewestListIsTakenOver | src/microphoneDevices.ts:86-137 | the shown devices change only when the answer to the newest issued list call arrives |
| MicrophoneRuns.LoadingMeansNewestInFlight | src/microphoneDevices.ts:86-137 | phase loading implies the newest issued list call is still in flight |
| MicrophoneRuns.SavesNeverOverlap | src/microphoneDevices.ts:170-178 | over every interleaving at most one selection save is reading or writing storage |
| MicrophoneRuns.SavesLandInSelectionOrder | src/microphoneDevices.ts:170-178 | the saves that reach storage are exactly the fulfilled selections, in selection order |
| MicrophoneRuns.StorageNamesTheLastSaved | src/microphoneDevices.ts:139-194 | with this controller the only writer, storage names the last selection whose save succeeded |
| MicrophoneStored.StorageIsTheLastSaved | src/microphoneDevices.ts:139-194 | with this controller the only writer, the stored record is the one it found with uid and name of the last selection whose save succeeded, and nothing else of it changed |
| MicrophoneStored.SavesCanGoOn | src/microphoneDevices.ts:170-178 | in every run the next save can begin once all before it have settled, and go on to settle |
| MicrophoneStored.StartsCanGoOn | src/microphoneDevices.ts:224-242 | and a waiting resolveStartInput can read once every selection made before it has settled |
| MicrophoneRuns.StartUsesTheLastSaved | src/microphoneDevices.ts:224-242 | resolveStartInput issued after k selections, none made before it reads, answers with the microphone of the last of them whose save succeeded |
| MicrophoneRuns.ShownResultIsForSelected | src/microphoneDevices.ts:117-253 | from any state with load settled and a matching display, in every run without a probe during a save and without a further load the displayed probe result is for the selected microphone |
| MicrophoneRuns.ShownResultIsForSelectedFromTheStart | src/microphoneDevices.ts:86-253 | the same from construction: load, wait until it settles, then any such run |
| MicrophoneRuns.StepKeepsMatchExactly | src/microphoneDevices.ts:96-103 | while saves are quiet a step breaks the match if and only if it is a load settling with another selection under a shown result |
| MicrophoneRuns.RollbackMatchesExactly | src/microphoneDevices.ts:186-192 | a failed newest selection keeps the match if and only if nothing is shown or it was obtained for the microphone rolled back to |
| MicrophoneRuns.ProbeDuringSaveMisleads | src/components/MicrophoneDeviceSelector.tsx:91 | a concrete run showing that without the selector's guard a probe started during a save is shown for the wrong microphone |
| MicrophoneRuns.FailedSelectionsCanShowUnsaved | src/microphoneDevices.ts:159-194 | a concrete run in which two overlapping failed selections leave one on show that never reached storage |
| MicrophoneShown.ShownIsStoredExactly | src/microphoneDevices.ts:139-194 | in every run that takes no other selection over from outside, once the newest selection has reported, shown and stored microphone agree if and only if it was saved or had replaced the last one that was |
| MicrophoneShown.ShownIsStoredExactlyFromTheStart | src/microphoneDevices.ts:86-194 | the same from construction, after any opening without selections |
| MicrophoneShown.ShownIsStoredWhenGuarded | src/components/MicrophoneDeviceSelector.tsx:48-52 | if no selection is accepted during a save, as the selector sees to, the shown microphone is the stored one whenever nothing is being saved, in every run |
| MicrophoneRefreshing.RefreshingStaysExactly | src/microphoneDevices.ts:86-137 | in every run refreshing is set if and only if the newest refresh has not come back or the newest list number went to a load issued while it was set |
| MicrophoneRefreshing.RefreshingEndsIfLoadsWait | src/microphoneDevices.ts:86-137 | if no load is issued while refreshing is set, it is set exactly while the newest refresh is out |
| MicrophoneRefreshing.CutOffStays | src/components/MicrophoneDeviceSelector.tsx:80 | once cut off by such a load, refreshing stays set in every run without another refresh, which the selector disables while it is set |
| MicrophoneRefreshing.RefreshingCanStick | src/microphoneDevices.ts:86-137 | for every configuration and device list, a run from construction in which a refresh precedes the first load: nothing is in flight and refreshing is still set |
| MicrophoneRuns.ProbesAreForConnectedMicrophones | src/microphoneDevices.ts:196-207 | in every run a probe goes out only for a selected microphone that the loaded list shows as connected |
| ModelManager.ModelManagerController.AnswerFetch | src/modelManager.ts:168-180 | the end of fetchModels: models only for the newest call of a live controller, the error reported only then |
| ModelManager.ModelManagerController.LoadAnswer | src/modelManager.ts:51-58 | the fields after load settles and the poll it starts for a persisted download, which is current; an outdated call changes nothing, the newest ends loading |
| ModelManager.ModelManagerController.RefreshAnswer | src/modelManager.ts:60-66 | the fields after refresh settles and the poll it may start, which is current; an outdated call changes nothing, the newest ends loading |
| ModelManager.ModelManagerController.OperationFinish | src/modelManager.ts:117-130 | the end of runOperation: models, reconciliation, and when the failure is reported |
| ModelManager.ModelManagerController.PollAnswer | src/modelManager.ts:140-154 | one round of the persisted-operation poll, and whether it goes on |
| ModelManager.ModelManagerController.CancelAnswer | src/modelManager.ts:76-86 | what a cancellation writes when it comes back |
| ModelManager.ModelManagerController.Dispose | src/modelManager.ts:88-93 | the controller is disposed, and no list call or loop issued before is current any more |
| ModelManagerRuns.AppliedListsIncrease | src/modelManager.ts:168-180 | over all runs the numbers of the lists taken over strictly increase |
| ModelManagerRuns.OnlyTheNewestListIsShown | src/modelManager.ts:168-180 | the shown models only ever become the answer to the newest list call of a live controller |
| ModelManagerRuns.AppliedListsAreShown | src/modelManager.ts:51-180 | the lists that count as taken over are exactly those whose models are then on show |
| ModelManagerRuns.PollsGoRoundExactly | src/modelManager.ts:140-158 | a poll goes round again exactly while its loop is current and no newest list has said that its download is over |
| ModelManagerRuns.OperationLoopsGoRoundExactly | src/modelManager.ts:95-130 | the loop of an operation goes round exactly until the operation has settled or another has taken its place |
| ModelManagerRuns.DisposedCallsNeverWrite | src/modelManager.ts:88-184 | no fetch or operation continuation made before a disposal changes any field, takes a list over or starts anything afterwards, even after reloads |
| ModelManagerRuns.OneLoopIsCurrent | src/modelManager.ts:95-154 | at most one operation or polling loop is current at any time |
| ModelManagerRuns.CancelWritesExactly | src/modelManager.ts:76-86 | cancel() is not tied to a generation: exactly when its return changes the state |
| ModelManagerRuns.CancelCanWriteAfterReload | src/modelManager.ts:76-86 | a concrete run in which a cancel made before a disposal writes into the reloaded controller |
| ModelManagerRuns.LoadingCanStick | src/modelManager.ts:51-58 | a concrete run in which an operation supersedes a load: it ends with nothing in flight and loading still set |
| ModelManagerLoading.LoadingClearsExactly | src/modelManager.ts:168-180 | a resumed call switches loading off if and only if it ends the newest list call of a live controller and that was a load, a refresh, or failed |
| ModelManagerLoading.LoadingStaysExactly | src/modelManager.ts:51-154 | in every run, with no list call in flight, loading is set exactly when it was set as the newest number was issued and that number went to a disposal, to a loop that got its list, or to a refresh ignored while disposed |
| ModelManagerLoading.UnsupersededLoadFinishes | src/modelManager.ts:51-58 | a load whose number is still the newest always ends with loading off |
| ModelManagerLoading.RefreshingClearsExactly | src/modelManager.ts:168-180 | refreshing is switched off on exactly the occasions on which loading is |
| ModelManagerLoading.RefreshingStaysExactly | src/modelManager.ts:51-154 | in every run, with no list call in flight, the fate of the newest number decides over refreshing as it does over loading |
| ModelManagerLoading.UnsupersededRefreshFinishes | src/modelManager.ts:60-66 | a refresh whose number is still the newest ends with both off, unless it came back while disposed |
| ModelManagerLoading.RefreshingCanStick | src/modelManager.ts:60-130 | a concrete run in which an operation supersedes a refresh: it ends with nothing in flight and refreshing still set |
| ModelManagerLoading.OperationAfterDisposalSticks | src/modelManager.ts:88-99 | a concrete run: load, dispose, run an operation, and the load comes back; the controller is live and loading stays set |
| ModelManagerLoading.RefreshWhileDisposedSticks | src/modelManager.ts:60-99 | a concrete run in which a refresh made while disposed leaves loading set for the revived controller |
| ImportSweep.PromptCommitsKeepTheirFile | src-tauri/src/service.rs:349-367 | over every interleaving of imports, sweeps and crashes, the file of an import committed less than ten minutes after its timestamp is on disk |
| ImportSweep.YoungFilesPassTheCheck | src-tauri/src/service.rs:545-547 | an import whose file is younger than ten minutes finds it at the check before the commit |
| ImportSweep.CommitFollowsRenameAndSync | src-tauri/src/service.rs:528-562 | every committed row's file was renamed, then its directory synced, then checked, before the commit |
| ImportSweep.LateCommitCanLoseItsFile | src-tauri/src/service.rs:31 | the bound is exact: for every delay of ten minutes or more a run exists in which the committed row's file is gone |
| AudioStore.EvidenceStore.ImportAudio | src-tauri/src/service.rs:507-563 | success stores exactly one row and one file that match; a failed import leaves no row and, unless its cleanup fails too, the files as they were |
| AudioStore.EvidenceStore.ReconcileOrphans | src-tauri/src/service/audio_store.rs:319-356 | whatever happens no file is changed, and none that is referenced, native, irregular or modified after the limit is removed; without an unfamiliar entry every other file is removed, and with one exactly those listed before it |
| AudioStore.EvidenceStore.ReconcileAudio | src-tauri/src/service.rs:356-385 | the same with the rows' own paths as references; then every row is missing exactly if its file is not there, and available exactly if it is there with the row's digest and length |
| AudioStore.StoredNameRoundTrip | src-tauri/src/service/audio_store.rs:986-1016 | every final name an import can write parses back into its digest, id and extension, so the sweep recognizes it |
| AudioStore.FinalNamesAreDistinct | src-tauri/src/service/audio_store.rs:219-226 | different imports never share a final name |
| AudioStore.TempNameIsRecognized | src-tauri/src/service/audio_store.rs:972-984 | temporary names and tombstones are recognized and never mistaken for stored files |
| AudioStore.ImportNamesAreNotNative | src-tauri/src/capture/seal.rs:478-499 | no imported file name is taken for a natively captured one, which the sweep would never remove |
| AudioStore.SweepLeavesReferenced | src-tauri/src/service/audio_store.rs:319-356 | a row with the path that an import or a capture writes keeps its file and its verdict through every sweep |
| AudioStore.VerdictChangesExactly | src-tauri/src/service/audio_store.rs:358-382 | a sweep changes the verdict on a row if and only if it takes the row's file |
| AudioStore.AliasedPathsLoseTheirFile | src-tauri/src/service/audio_store.rs:319-356 | a row that names its file with a doubled slash validates as available, and the sweep takes the file for an orphan |
| AudioStore.StoredNameIsWhereThePathLeads | src-tauri/src/service/audio_store.rs:486-499 | a chunk path stands for a file name exactly if it starts with the audio directory, never goes up and leads, from any data directory, to that name in it |
| AudioStore.ImportFinalsAre | src-tauri/src/service/audio_store.rs:986-1004 | the stored names recognized are exactly digest, chunk id and extension, the first two the prints of 32 and of 16 bytes |
| AudioStore.ImportTempsAre | src-tauri/src/service/audio_store.rs:976-984 | the temporary names recognized are exactly those of a chunk id |
| AudioStore.NativeFinalsAre | src-tauri/src/capture/seal.rs:478-499 | the native names recognized are exactly a chunk id of 1 to 64 lower-case letters, digits and underscores and an extension |
| AudioStore.ExtensionsKept | src-tauri/src/service/audio_store.rs:1010-1024 | an extension is kept in lower case exactly if it is one to sixteen ASCII letters and digits |
| SweepReconcile.ExamineIsTheReconcileTest | src-tauri/src/service/audio_store.rs:330-352 | the sweep that runs among imports and crashes puts a name up for removal exactly when the reconcile call would remove it |
| SweepReconcile.UndisturbedSweepReconciles | src-tauri/src/service/audio_store.rs:319-356 | from any point of any run the sweep can go on alone, and then it leaves exactly the names that the reconcile call keeps |
| SweepReconcile.SweptFilesStayGone | src-tauri/src/service/audio_store.rs:319-356 | after a power loss no file that a sweep has removed is found again |
| SweepReconcile.DiscardTakesOwnFile | src-tauri/src/service/audio_store.rs:312-317 | in every run an import that fails its check or its commit takes its own file away, and no other |
| AudioStore.ImportedChunkStaysAvailable | src-tauri/src/service/audio_store.rs:319-356 | an imported chunk that matches its row still validates as available after any sweep with its row listed |
| ManifestPaths.OverlapIsComponentPrefix | src-tauri/src/asr/manifest.rs:674-682 | paths_overlap holds exactly when one component list is a prefix of the other |
| ManifestPaths.ValidPathsLeadDown | src-tauri/src/asr/manifest.rs:663-673 | a path is valid if and only if it has no backslash and no control character and walking its components from any directory enters each of them: none is empty, "." or ".." |
| ManifestPaths.SplitIsTheOnlyOne | src-tauri/src/asr/manifest.rs:669-672 | the components are the one list of slash-free texts that joins to the path |
| Manifest.AcceptedPathsLeadDown | src-tauri/src/asr/manifest.rs:413-473 | whatever directory an accepted bundle is installed under, every artifact, required path and required file lies strictly below it, one level for each component |
| Manifest.DigestsAreThirtyTwoBytes | src-tauri/src/asr/manifest.rs:655-661 | a digest field is accepted if and only if it prints 32 bytes that are not all zero in lower-case hexadecimal |
| Manifest.TotalBytesOfUpdate | src-tauri/src/asr/manifest.rs:472-475 | in the total each file counts with its own bytes and nothing else |
| Manifest.CheckRequiredFiles | src-tauri/src/asr/manifest.rs:460-481 | accepts exactly non-empty, valid, distinct files whose bytes sum and maximum are the declared ones; the overflow check adds nothing |
| Manifest.CheckDeliveries | src-tauri/src/asr/manifest.rs:506-523 | accepts exactly when every artifact delivers a required file and every file has one delivery |
| Manifest.ValidateInstallConstraints | src-tauri/src/asr/manifest.rs:444-530 | accepts exactly the bundles that meet the declarative constraints |
| Manifest.ValidateBundle | src-tauri/src/asr/manifest.rs:413-442 | accepts exactly the accepted bundles, which check fails first otherwise, and every path an accepted bundle names leads strictly below any install root |
| Manifest.BundlesAcceptedExactly | src-tauri/src/asr/manifest.rs:413-530 | which bundles are accepted, without any validator: plain artifacts with distinct ids, plain required paths none at or above another, plain files that add up to what is declared and hold every required path, and the rules of the install mode |
| Manifest.CheckArtifacts | src-tauri/src/asr/manifest.rs:420-428 | the first artifact that repeats an id or is invalid decides the error |
| Manifest.CheckRequiredPaths | src-tauri/src/asr/manifest.rs:429-439 | the first path that is invalid or overlaps a later one decides the error |
| Manifest.DirectBundleIsABijection | src-tauri/src/asr/manifest.rs:501-527 | in an accepted direct bundle artifacts and required files are in bijection on (path, bytes, sha256) |
| Manifest.DirectBundleSizesAddUp | src-tauri/src/asr/manifest.rs:479-527 | hence the artifact bytes sum to max_total_written_bytes and the largest artifact is max_written_file_bytes |
| Manifest.NoRequiredPathIsAnAncestor | src-tauri/src/asr/manifest.rs:429-439 | in an accepted bundle no required path is, or lies above, another |
| Manifest.RequiredPathsAreTheFiles | src-tauri/src/asr/manifest.rs:479-488 | by counting, the required paths are exactly the paths of the required files |
| Manifest.FilesFormATree | src-tauri/src/asr/manifest.rs:413-488 | hence no required file's path is needed as a directory |
| Manifest.IdentityIgnoresListingOrder | src-tauri/src/asr/manifest.rs:238-262 | the artifact order that is hashed does not depend on the order of listing |
| StableSort.TextBeforeIs | src-tauri/src/asr/manifest.rs:238-262 | text is compared at the first difference, and a beginning comes before what it begins |
| EvidenceCatalog.Catalog.AppendRevision | src-tauri/src/catalog.rs:215-263 | stores the next-numbered revision, its segments and their index rows, or changes nothing when a constraint refuses a row |
| EvidenceCatalog.Catalog.StoreRevision | src-tauri/src/catalog.rs:236-261 | all rows of one revision or none |
| EvidenceCatalog.Catalog.AppendManualRevisionFromLatest | src-tauri/src/catalog.rs:399-597 | stores exactly what the edit derives from the latest revision, or changes nothing and says why |
| EvidenceCatalog.Catalog.CheckBindings | src-tauri/src/catalog.rs:471-490 | the first bound segment with a bad range or an unavailable chunk decides the error |
| EvidenceCatalog.DeriveSegments | src-tauri/src/catalog.rs:513-548 | the first edit that moves a boundary or blanks a text decides the error |
| EvidenceCatalog.Catalog.SearchSegments | src-tauri/src/catalog.rs:599-621 | every matching index row joined with its segments |
| EvidenceRuns.NumbersAreOneToN | src-tauri/src/catalog.rs:215-284 | over all runs each session's revisions are numbered exactly 1 to n in append order |
| EvidenceRuns.ChunksAreDistinct | src-tauri/src/catalog/chunks.rs:23-33 | in every run chunk ids are distinct and every chunk has its session |
| EvidenceRuns.EarlierRevisionsStay | src-tauri/src/catalog.rs:215-263 | no later call alters an earlier revision or what list_segments returns for it |
| EvidenceRuns.IndexHoldsEverySegmentOnce | src-tauri/src/catalog.rs:240-260 | over all runs the search index holds exactly one row per stored segment |
| EvidenceRuns.IndexedSearchFindsWhatScanningFinds | src-tauri/src/catalog.rs:599-621 | for any matching predicate, indexed search returns the same multiset of hits as scanning every revision |
| EvidenceRuns.AppendListsWhatItReports | src-tauri/src/catalog.rs:297-320 | an appended revision lists exactly the reported segments if and only if they came in time order |
| EvidenceEdits.EditListsWhatItReports | src-tauri/src/catalog.rs:297-320 | list_segments of an edited revision returns exactly the segments reported to the caller |
| EvidenceEdits.SegmentsListedByTime | src-tauri/src/catalog.rs:297-320 | list_segments gives a revision's segments, each once, by start and then by end |
| EvidenceEdits.RowsOfCounts | src-tauri/src/catalog.rs:297-320 | what is read of a revision are its rows, each as often as it is stored |
| EvidenceEdits.AvailableChunksAre | src-tauri/src/catalog.rs:492-511 | the legacy fallback considers exactly the available chunks of the session |
| EvidenceEdits.AcceptedEditIsStorable | src-tauri/src/catalog.rs:553-587 | no table constraint ever refuses an edit that passed its checks |
| EvidenceManual.EditsAcceptedExactly | src-tauri/src/catalog.rs:399-563 | an edit is accepted if and only if it keeps every boundary, empties no text, and either every binding holds up or there is none and one chunk is playable |
| EvidenceManual.EditsStore | src-tauri/src/catalog.rs:513-548 | an accepted edit stores the trimmed texts over the stored boundaries and bindings, an unbound segment shifted to the one playable chunk |
| EvidenceManual.RefusalsBeforeTheTexts | src-tauri/src/catalog.rs:399-512 | which refusal it is before texts are compared, each if and only if |
| EvidenceManual.FirstFaultIsReported | src-tauri/src/catalog.rs:440-548 | the first binding that does not hold up decides the refusal, and after the bindings the first edit that does not fit |
| EvidenceEdits.EditsKeepBoundariesAndBindings | src-tauri/src/catalog.rs:399-597 | through any chain of edits the (id, start, end, source) sequence stays that of the base revision, and bindings too once present |
| EvidenceEdits.FirstEditFixesTheBindings | src-tauri/src/catalog.rs:457-548 | after the first edit every segment is bound to a chunk and its binding never changes again |
| EvidenceEdits.FallbackRevisionIsEditableExactly | src-tauri/src/catalog.rs:457-548 | after a legacy fallback the next edit is accepted exactly when every segment starts at or after the chunk and is not empty (saturation included), otherwise refused over the stored range |
| EvidenceReedits.SecondEditOfTheRunExactly | src-tauri/src/catalog.rs:457-548 | from the empty catalog, for every chunk and unbound segment: the first edit is accepted, the same edit again exactly when the range shifts to a valid one |
| EvidenceReedits.SecondEditCanBeRefused | src-tauri/src/catalog.rs:471-481 | a concrete run from the empty catalog in which the second edit is refused: a segment that starts before a chunk with a positive offset |
| EvidenceReedits.ResubmittingChangesNothing | src-tauri/src/catalog.rs:513-548 | handing the reported segments back as the next edit derives the very same segments, or is refused over the first binding that does not hold up |
| JobTable.JobCatalog.RecoverJobs | src-tauri/src/catalog/jobs.rs:693-782 | a running job of another boot or with its lease over ends cancelled if and only if that was asked for, else failed if and only if no attempt is left, else queued for 5 s later after one attempt and 30 s after more; no other row changes, and each count is the number of rows that went that way |
| JobTable.PickExists | src-tauri/src/catalog/jobs.rs:510-530 | a claim always has a pick |
| JobTable.PicksAgree | src-tauri/src/catalog/jobs.rs:510-530 | and only one |
| JobRuns.AtMostOneJobRuns | src-tauri/src/catalog/jobs.rs:502-574 | over all runs of any workers at most one job runs, within its attempt limit |
| JobRuns.TokensAreDistinct | src-tauri/src/catalog/jobs.rs:535-571 | no two claims hand out the same job and generation |
| JobRuns.LostForever | src-tauri/src/catalog/jobs.rs:576-691 | a token that has lost its job never owns it again |
| JobRuns.LostTokensChangeNothing | src-tauri/src/catalog/jobs.rs:576-691 | a lost token changes nothing and is told that ownership is lost |
| JobRuns.LapsedClaimsAreFrozen | src-tauri/src/catalog/jobs.rs:576-691 | once a lease is over and clocks do not run back, the owner can change nothing until recovery takes the job |
| JobRuns.CancelledJobsNeverSucceed | src-tauri/src/catalog/jobs.rs:646-691 | a cancellation noted on a running job always wins: the job never succeeds |
| JobRuns.JobsPublishAtMostOnce | src-tauri/src/catalog/publication.rs:383-403 | every job is published at most once |
| JobRuns.NewBootFreesEveryJob | src-tauri/src/catalog/jobs.rs:693-782 | recovery by a new boot leaves no job running |
| JobRuns.CrashCostsAnAttemptOnly | src-tauri/src/catalog/jobs.rs:693-782 | after any run, when a new boot recovers, nobody works, and every job that was running with an attempt left, no cancellation and an available chunk is claimable again from exactly 5 or 30 s on, with the attempts it had |
| JobRuns.ClaimedJobsCanSucceed | src-tauri/src/catalog/jobs.rs:502-644 | the first claimable job, claimed, transcribed, renewed and published in time, has succeeded with one attempt more, and nothing else has changed |
| JobRuns.FailedJobsStartOver | src-tauri/src/catalog/jobs.rs:604-626 | a failed job is retried only with its model ready, then waits from that moment with no attempt used |
| JobRuns.RunningJobsCanBeCancelled | src-tauri/src/catalog/jobs.rs:646-691 | a cancellation of a running job is noted once and told to its owner by every statement until it acknowledges |
| JobRuns.WaitingJobsAreCancelledAtOnce | src-tauri/src/catalog/jobs.rs:646-676 | a waiting job is cancelled at once, and one that has ended is left alone |
| JobRuns.RetriesExactly | src-tauri/src/catalog/jobs.rs:829-893 | a retry takes effect exactly for a blocked or failed job whose model is ready |
| JobRuns.EnqueuedJobsWait | src-tauri/src/catalog/jobs.rs:397-500 | a new job has three attempts and is claimable from its creation on exactly if it was put in the queue |
| JobRuns.OwnedStatementsExactly | src-tauri/src/catalog/jobs.rs:576-691 | each statement of an owner takes effect exactly under a live claim, in the states it needs, and otherwise says why and changes nothing |
| JobRuns.PicksExactly | src-tauri/src/catalog/jobs.rs:502-533 | a claim picks exactly the first waiting job by availability, age and id, and none while one runs |
| JobRuns.LiveOwnersKeepTheirJob | src-tauri/src/catalog/jobs.rs:693-782 | recovery never takes a job from a live owner of the same boot |
| JobCoordinator.JobCoordinator.ClaimNext | src-tauri/src/asr/job.rs:587-594 | the active claim again, or a new one that owns its job with a 30 s lease and a 5 s renewal |
| JobCoordinator.JobCoordinator.RenewIfDue | src-tauri/src/asr/job.rs:600-609 | renews exactly from the local due time on |
| JobCoordinator.JobCoordinator.RenewActiveClaim | src-tauri/src/asr/job.rs:675-684 | table, claim and result of a renewal, the due time from the second clock read |
| JobCoordinator.JobCoordinator.HandleRunningResult | src-tauri/src/asr/job.rs:700-708 | a pending cancellation is acknowledged before it is reported, a lost claim dropped |
| JobCoordinator.JobCoordinator.FailClaim | src-tauri/src/asr/job.rs:618-647 | table, claim and result of failing a job |
| JobCoordinator.JobCoordinator.RecoverClaims | src-tauri/src/asr/job.rs:659-673 | after recovery the claim is kept only if the table still knows it |
| JobCoordinator.GivingUpKeepsTheClaimExactly | src-tauri/src/asr/job.rs:527-708 | for every call and every sequence of repository outcomes: after an answer of ownership lost or cancel requested a claim is left if and only if there was one and the call was publish or the snapshot |
| JobCoordinator.PublishGivesUpExactly | src-tauri/src/asr/job.rs:541-549 | publish answers so exactly when its token does not own an uncancelled transcribing job under a live lease, and then changes nothing |
| JobCoordinator.LapsedPublishKeepsItsClaim | src-tauri/src/asr/job.rs:541-594 | from an empty table: a claim that enters transcription and publishes 30 s later is told it is lost, stays active, and is handed out again |
| JobCoordinator.StateChangesNeedARenewal | src-tauri/src/asr/job.rs:611-622 | enter_transcribing and fail change job state only after a successful renewal |
| JobCoordinator.EnteringTranscribes | src-tauri/src/asr/job.rs:611-616 | success means the claim was owned with a live lease and now transcribes under a renewed one |
| JobCoordinator.RenewalAfterPublishDropsTheClaim | src-tauri/src/asr/job.rs:541-549 | publish keeps the claim; the next renewal reports it lost and drops it |
| JobCoordinator.OneCoordinatorAtATime | src-tauri/src/asr/job.rs:270-283 | under any interleaving at most one reservation is alive, and a try succeeds exactly when there is none |
| LeaseTiming.SafePollingNeverLapses | src-tauri/src/asr/job.rs:387-400 | if the longest delay between two renewals leaves a millisecond of the lease, the stored lease has never lapsed at a renewal, for every schedule |
| LeaseTiming.UnsafePollingCanLapse | src-tauri/src/asr/job.rs:600-609 | otherwise, for every period and span, a schedule in which it has lapsed |
| LeaseTiming.SafePollingExactly | src-tauri/src/asr/job.rs:387-609 | so for every period and span all schedules keep the lease if and only if that delay leaves a millisecond of it |
| LeaseTiming.SafePollingOfShortCalls | src-tauri/src/asr/job.rs:20-21 | for calls no longer than the period that means period + 2 spans at most 25 s - 1 ms + 1 ns |
| LeaseTiming.TwentyFiveSecondsIsTooMuch | src-tauri/src/asr/job.rs:20-21 | 25 s itself is too much, because stored times are cut to milliseconds |
| ClaimTiming.SafePollsSucceed | src-tauri/src/asr/job.rs:600-684 | under safe polling no renewal against the job table ever fails, whatever others do to the table short of cancelling, ending or recovering the job, and the claim stays in step with its row |
| ClaimTiming.ClaimsLastExactly | src-tauri/src/asr/job.rs:600-684 | the bound of the schedule is the bound of the protocol: every such run keeps its claim if and only if polling is safe |
| ClaimTiming.ClaimBegins | src-tauri/src/asr/job.rs:587-594 | every claim begins in step with its row |
| LeaseRegistry.ExecutionLeases.Acquire | src-tauri/src/asr/model_manager.rs:467-493 | refused exactly while a deletion is reserved; the overflow error is unreachable |
| LeaseRegistry.ExecutionLeases.DropLease | src-tauri/src/asr/model_manager.rs:146-157 | one less, and gone at zero |
| LeaseRegistry.ExecutionLeases.ReserveDelete | src-tauri/src/asr/model_manager/delete.rs:25-43 | reserves only a model without leases and with the catalog's consent |
| LeaseRegistry.CountsAreLiveGuards | src-tauri/src/asr/model_manager.rs:139-157 | over all interleavings a model's count equals its live guards, vanishes at zero and never coexists with a deletion |
| LeaseRegistry.RegistriesCountTheirGuards | src-tauri/src/asr/model_manager.rs:139-157 | this holds of every model in every registry that starts empty, so the results on single steps apply to all of them |
| LeaseRegistry.ReservedMeansDeletingExactly | src-tauri/src/asr/model_manager.rs:114 | the reserved value means a deletion exactly as long as live leases stay below usize::MAX |
| LeaseRegistry.AcquireReachesTheReservedValueExactly | src-tauri/src/asr/model_manager.rs:479-482 | the acquire that produces the reserved value is the one over usize::MAX - 1 live leases |
| LeaseRegistry.DeletionExcludesLeases | src-tauri/src/asr/model_manager/delete.rs:91-115 | a deletion begins only without leases, blocks every acquire, and ending it restores the registry |
| OperationRegistry.ModelOperations.Register | src-tauri/src/commands.rs:2255-2279 | all of the ids under one fresh, lowered flag, or nothing |
| OperationRegistry.ModelOperations.DropRegistration | src-tauri/src/commands.rs:2238-2252 | removes exactly the entries that still lead to its own flag |
| OperationRegistry.ModelOperations.LookUp | src-tauri/src/commands.rs:1090-1112 | the first record with the id decides: none, stale, finished, not active, or the flag registered for its model |
| OperationRegistry.ModelOperations.RequestCancellation | src-tauri/src/commands.rs:1090-1118 | without interruption: raises the flag registered for the download's model and no other, or the error |
| OperationRegistry.DropUndoesRegister | src-tauri/src/commands.rs:2232-2279 | dropping right after registering restores the registry |
| OperationRegistry.LiveOperationsAreDisjoint | src-tauri/src/commands.rs:2255-2279 | in every run no two live operations share a model id |
| OperationRegistry.EndFreesExactlyItsIds | src-tauri/src/commands.rs:2238-2252 | ending an operation frees exactly its own ids |
| OperationRegistry.FindsTheLiveOperation | src-tauri/src/commands.rs:1106-1112 | a cancellation finds the one operation live on that model at the lookup, and raises nothing yet |
| OperationRegistry.InstallsCanBeCancelled | src-tauri/src/commands.rs:1090-1298 | in every run a current, unfinished record of either model of a live install leads its cancellation to that install |
| OperationRegistry.RaisesTheFlagItFound | src-tauri/src/commands.rs:1106-1113 | whatever runs between lookup and raise, even the end of that operation and a new one on the same model, the flag raised is that of the operation found and no other |
| OperationRegistry.RaisedExactlyByItsCancellations | src-tauri/src/commands.rs:1106-1113 | in every run a flag is raised if and only if a cancellation that found it has raised it |
| OperationRegistry.OneInstallAtATime | src-tauri/src/commands.rs:1290-1298 | since every install includes the voice detector, at most one install is live |
| OperationRegistry.KnownModelsCanBeInstalled | src-tauri/src/commands.rs:1290-1298 | exactly the known models can be installed; an install that begins holds its model and the voice detector, and begins exactly if both are free |

## Left out

- Decoding, resampling, voice detection and speech recognition themselves: their outputs are parameters, and only
  the facts the code checks about them are used.
- 32-bit float rounding: samples and energies are real numbers, with a separate value for non-finite samples.
- Allocation failures in the audio path, and the injected split candidates and hooks that exist for tests.
- The wording of messages: error texts are fixed stand-ins, and a caught error keeps only its reason.
- JSON, SQL text, digests and identifiers: rows are values, hashes and fresh ids are parameters.
- File-system layout checks against replaced directories and links, and the reuse of inode numbers: a name leads to
  the file of one import. A discard removes its file in one step instead of through a tombstone.
- ImportSweep.PromptCommitsKeepTheirFile: excludes files stamped at the epoch itself, which a sweep within ten
  minutes of the epoch takes for stale because its limit falls back to the epoch.
- ClaimTiming.SafePollsSucceed: excludes storage faults, cancellations of the job, recovery by another boot and the end
  of the job under its own token, each of which ends the claim or fails the poll by itself.
- Entries of the audio directory other than imported files take part only in `AudioStore`, not in `ImportSweep`.
- A data directory without an audio directory, in which nothing is swept and every row is missing.
- Clocks that run back, in `ImportSweep`, `LeaseTiming` and `JobRuns.LapsedClaimsAreFrozen`.
- A failed write that took effect all the same: in `MicrophoneRuns` a save either reaches storage or fails without
  effect, and in `ImportSweep` and `AudioStore` a commit either leaves its row or fails without one.
- A panic while the catalog lock is held, which makes every later call on the catalog panic as well.
- In the two controllers the end of a list call and the code that awaited it are one step.
- The blank, URL and redirect-host checks of an artifact: one boolean, `wellFormed`. The canonical JSON around the
  sorted artifacts is not built.
- The rank order of search results, and notes, dictionaries, voiceprints, settings and statistics in the catalog.
- The publication of a transcription result appends its revision like `append_revision`; its receipt rows are not
  modelled, only what it does to the job row.
- Of the execution snapshot only the checks of ownership, stage, cancellation and lease; its input and values are one
  boolean.
- Fingerprints of queued jobs and the readiness query for retries: an enqueue of an existing id does nothing, and
  readiness is a parameter.
- The debug-only assertion in the drop of an execution lease, which fires when a count equals the reserved value.
- User interface components, commands that only forward calls, sockets, capture and its sealing.
