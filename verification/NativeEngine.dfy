/** asr/native_engine.rs: transcribing provider windows and publishing the evidence as millisecond ranges. */
module NativeEngine {
  import opened MachineInts
  import opened Domain
  import opened AudioRanges
  import opened AudioDecode
  import opened VoiceWindows

  const MAX_AUDIO_SAMPLES: nat := 25 * 16_000

  datatype ProviderCode = ReceiptInvalid | InvalidProviderParameter | CancelledByProvider
    | ProviderFailed(detail: string)

  datatype EngineError =
    | ModelIdentityMismatch
    | InputUnavailable
    | Provider(code: ProviderCode)
    | Cancelled

  datatype TranscriptSegmentPublication = TranscriptSegmentPublication(
    id: string, chunkStartMs: i64, chunkEndMs: i64, source: AudioSource, text: string)

  // Publication

  function SegmentId(chunkId: string, evidence: SampleRange): string {
    "seg_" + chunkId + "_" + (Decimal(evidence.start) + "_" + Decimal(evidence.end))
  }

  function ToI64(n: u64): Option<i64> {
    if n <= I64_MAX then Some(n) else None
  }

  function Publication(source: AudioSource, chunkId: string, utterance: EvidenceUtterance, text: string)
    : Result<TranscriptSegmentPublication, EngineError>
  {
    var start, end := utterance.evidence.start, utterance.evidence.end;
    if Blank(text) || start >= end then Err(InputUnavailable)
    else
      var startMs, endMs := ToI64(start / 16), ToI64((end + 15) / 16);
      if startMs.None? || endMs.None? then Err(InputUnavailable)
      else
        var id := SegmentId(chunkId, utterance.evidence);
        Ok(TranscriptSegmentPublication(id, startMs.value, endMs.value, source, text))
  }

  /** Segment identifiers of one chunk name their evidence range. */
  lemma SegmentIdInjective(chunkId: string, a: SampleRange, b: SampleRange)
    requires SegmentId(chunkId, a) == SegmentId(chunkId, b)
    ensures a == b
  {
    var prefix := "seg_" + chunkId + "_";
    var tailA, tailB := Decimal(a.start) + "_" + Decimal(a.end), Decimal(b.start) + "_" + Decimal(b.end);
    assert SegmentId(chunkId, a) == prefix + tailA && SegmentId(chunkId, b) == prefix + tailB;
    assert (prefix + tailA)[|prefix|..] == tailA && (prefix + tailB)[|prefix|..] == tailB;
    UnderscoreSplits(Decimal(a.start), Decimal(a.end), Decimal(b.start), Decimal(b.end));
    DecimalInjective(a.start, b.start);
    DecimalInjective(a.end, b.end);
  }

  /** The utterances can be published with these texts: one non-blank text per non-empty evidence range. */
  ghost predicate Publishable(utterances: seq<EvidenceUtterance>, texts: seq<string>) {
    && |texts| == |utterances|
    && forall i :: 0 <= i < |texts| ==> !Blank(texts[i]) && utterances[i].evidence.start < utterances[i].evidence.end
  }

  ghost predicate Publishes(
    segments: seq<TranscriptSegmentPublication>, utterances: seq<EvidenceUtterance>, texts: seq<string>,
    source: AudioSource, chunkId: string)
  {
    && |segments| == |utterances| == |texts|
    && forall i :: 0 <= i < |segments| ==>
         var evidence := utterances[i].evidence;
         segments[i] == TranscriptSegmentPublication(
           SegmentId(chunkId, evidence), evidence.start / 16, CeilDiv(evidence.end, 16), source, texts[i])
  }

  lemma PublishesOneMore(
    segments: seq<TranscriptSegmentPublication>, utterances: seq<EvidenceUtterance>, texts: seq<string>,
    source: AudioSource, chunkId: string, n: nat)
    requires n < |utterances| == |texts|
    requires Publishes(segments, utterances[..n], texts[..n], source, chunkId)
        && Publishable(utterances[..n], texts[..n])
    requires Publication(source, chunkId, utterances[n], texts[n]).Ok?
    ensures Publishes(segments + [Publication(source, chunkId, utterances[n], texts[n]).value],
                      utterances[..n + 1], texts[..n + 1], source, chunkId)
    ensures Publishable(utterances[..n + 1], texts[..n + 1])
  {
    assert forall i :: 0 <= i < n ==>
        utterances[..n + 1][i] == utterances[..n][i] && texts[..n + 1][i] == texts[..n][i];
  }

  /** `receiptValid` stands for whether the provider receipt of the run passes its own validation. */
  method BuildSuccess<Vad(==)>(
    snapshotVad: Vad, executedVad: Vad, source: AudioSource, chunkId: string,
    utterances: seq<EvidenceUtterance>, texts: seq<string>, receiptValid: bool)
    returns (r: Result<seq<TranscriptSegmentPublication>, EngineError>)
    ensures r.Ok? <==> snapshotVad == executedVad && Publishable(utterances, texts) && receiptValid
    ensures r.Ok? ==> Publishes(r.value, utterances, texts, source, chunkId)
    ensures r.Err? ==> r.error == if snapshotVad != executedVad then ModelIdentityMismatch
                                  else if !Publishable(utterances, texts) then InputUnavailable
                                  else Provider(ReceiptInvalid)
  {
    if snapshotVad != executedVad {
      return Err(ModelIdentityMismatch);
    }
    if |texts| != |utterances| {
      return Err(InputUnavailable);
    }
    var segments: seq<TranscriptSegmentPublication> := [];
    for next := 0 to |texts|
      invariant Publishes(segments, utterances[..next], texts[..next], source, chunkId)
      invariant Publishable(utterances[..next], texts[..next])
    {
      var segment :- Publication(source, chunkId, utterances[next], texts[next]);
      PublishesOneMore(segments, utterances, texts, source, chunkId, next);
      segments := segments + [segment];
    }
    assert utterances[..|texts|] == utterances && texts[..|texts|] == texts;
    if !receiptValid {
      return Err(Provider(ReceiptInvalid));
    }
    return Ok(segments);
  }

  /**
   * From decoded file to published segments: every segment of every successful run is a valid transcript
   * range of the audio, agrees with SampleRangeToMillis, has its own identifier, and overlaps its
   * successor by at most one millisecond.
   */
  lemma PublishedSegmentsFitTheAudio(
    audio: WorkingAudio, utterances: seq<EvidenceUtterance>, texts: seq<string>,
    source: AudioSource, chunkId: string, segments: seq<TranscriptSegmentPublication>)
    requires Prepared(audio) && |audio.samples| <= MAX_FLOAT_VECTOR
    requires Partitioned(utterances, audio.samples)
    requires Publishes(segments, utterances, texts, source, chunkId)
    ensures audio.durationMs <= I64_MAX
    ensures forall i :: 0 <= i < |segments| ==>
              && NewTranscriptTimeRange(segments[i].chunkStartMs, segments[i].chunkEndMs, audio.durationMs).Ok?
              && SampleRangeToMillis(utterances[i].evidence, WORK_SAMPLE_RATE_HZ, |audio.samples|)
                 == Ok(MillisecondRange(segments[i].chunkStartMs, segments[i].chunkEndMs))
    ensures forall i :: 0 < i < |segments| ==>
              && segments[i - 1].chunkStartMs <= segments[i].chunkStartMs
              && segments[i - 1].chunkEndMs <= segments[i].chunkStartMs + 1
    ensures forall i, j :: 0 <= i < j < |segments| ==> segments[i].id != segments[j].id
  {
    CapBounds(audio.sourceFrames, audio.format.rate);
    forall i | 0 <= i < |segments|
      ensures && NewTranscriptTimeRange(segments[i].chunkStartMs, segments[i].chunkEndMs, audio.durationMs).Ok?
              && SampleRangeToMillis(utterances[i].evidence, WORK_SAMPLE_RATE_HZ, |audio.samples|)
                 == Ok(MillisecondRange(segments[i].chunkStartMs, segments[i].chunkEndMs))
    {
      PublishedRangeFits(utterances[i].evidence, audio.format.rate, audio.sourceFrames);
    }
    forall i, j | 0 <= i < j < |segments|
      ensures segments[i].id != segments[j].id
    {
      EvidenceInOrder(utterances, audio.samples, i, j);
      if segments[i].id == segments[j].id {
        SegmentIdInjective(chunkId, utterances[i].evidence, utterances[j].evidence);
      }
    }
  }

  lemma {:induction false} EvidenceInOrder(utterances: seq<EvidenceUtterance>, samples: FloatVec, i: nat, j: nat)
    requires Partitioned(utterances, samples) && i < j < |utterances|
    ensures utterances[i].evidence.end <= utterances[j].evidence.start
    decreases j
  {
    if i + 1 < j {
      EvidenceInOrder(utterances, samples, i, j - 1);
    }
  }

  // Transcription

  /**
   * What the outside world answers at one window: whether the run was cancelled before the renewal, what
   * the renewal said, whether it was cancelled before the provider call, and what the provider makes of what it hears.
   */
  datatype WindowCall = WindowCall(
    cancelledBefore: bool, renewal: Result<(), EngineError>, cancelledAfter: bool,
    provider: seq<real> -> Result<string, ProviderCode>)

  type Calls = nat -> WindowCall

  function TranscribeWindow(start: u64, end: u64, samples: FloatVec, sampleRateHz: u32, call: WindowCall)
    : Result<string, EngineError>
  {
    if call.cancelledAfter then Err(Cancelled)
    else if start >= end || end > |samples| then Err(InputUnavailable)
    else if sampleRateHz != WORK_SAMPLE_RATE_HZ || end - start > MAX_AUDIO_SAMPLES
    then Err(Provider(InvalidProviderParameter))
    else match call.provider(samples[start..end])
      case Ok(text) => Ok(text)
      case Err(code) => if code == CancelledByProvider then Err(Cancelled) else Err(Provider(code))
  }

  function RunWindow(w: ProviderWindow, samples: FloatVec, call: WindowCall): Result<string, EngineError> {
    if call.cancelledBefore then Err(Cancelled)
    else
      var _ :- call.renewal;
      TranscribeWindow(w.inference.start, w.inference.end, samples, WORK_SAMPLE_RATE_HZ, call)
  }

  function JoinWithSpaces(parts: seq<string>): string {
    if parts == [] then ""
    else if |parts| == 1 then parts[0]
    else JoinWithSpaces(parts[..|parts| - 1]) + (" " + parts[|parts| - 1])
  }

  function WindowTexts(windows: seq<ProviderWindow>, samples: FloatVec, calls: Calls, first: nat)
    : (r: Result<seq<string>, EngineError>)
    ensures r.Ok? ==> |r.value| == |windows|
  {
    if windows == [] then Ok([])
    else
      var init :- WindowTexts(windows[..|windows| - 1], samples, calls, first);
      var text :- RunWindow(windows[|windows| - 1], samples, calls(first + |windows| - 1));
      Ok(init + [text])
  }

  /** The windows of these utterances: the number of the call that comes after them. */
  function WindowCount(utterances: seq<EvidenceUtterance>): nat {
    if utterances == [] then 0
    else WindowCount(utterances[..|utterances| - 1]) + |utterances[|utterances| - 1].windows|
  }

  function UtteranceTexts(utterances: seq<EvidenceUtterance>, samples: FloatVec, calls: Calls)
    : (r: Result<seq<string>, EngineError>)
    ensures r.Ok? ==> |r.value| == |utterances|
  {
    if utterances == [] then Ok([])
    else
      var init, last := utterances[..|utterances| - 1], utterances[|utterances| - 1];
      var texts :- UtteranceTexts(init, samples, calls);
      if last.windows == [] then Err(InputUnavailable)
      else
        var parts :- WindowTexts(last.windows, samples, calls, WindowCount(init));
        Ok(texts + [JoinWithSpaces(parts)])
  }

  // What a transcript says

  /** The provider can be given this window. */
  predicate Suits(w: ProviderWindow, samples: FloatVec) {
    w.inference.start < w.inference.end <= |samples| && w.inference.end - w.inference.start <= MAX_AUDIO_SAMPLES
  }

  /** The provider, given exactly the window's samples, and nobody cancelling, answers this. */
  predicate Answers(call: WindowCall, w: ProviderWindow, samples: FloatVec, answer: string) {
    && !call.cancelledBefore && call.renewal.Ok? && !call.cancelledAfter && Suits(w, samples)
    && call.provider(samples[w.inference.start..w.inference.end]) == Ok(answer)
  }

  /** The calls from the first on give these answers, one for each window in order. */
  ghost predicate AnswersInOrder(
    answers: seq<string>, windows: seq<ProviderWindow>, samples: FloatVec, calls: Calls, first: nat)
  {
    && |answers| == |windows|
    && forall k :: 0 <= k < |windows| ==> Answers(calls(first + k), windows[k], samples, answers[k])
  }

  function LengthBefore(answers: seq<string>, k: nat): nat
    requires k <= |answers|
  {
    if k == 0 then 0 else LengthBefore(answers, k - 1) + |answers[k - 1]|
  }

  /** The part of a text that starts here, if it is long enough. */
  predicate StandsAt(part: string, text: string, at: nat) {
    at + |part| <= |text| && text[at..at + |part|] == part
  }

  /** Answer k stands after those before it and a space for each of these, the last space right before it. */
  predicate AnswerStands(text: string, answers: seq<string>, k: nat)
    requires k < |answers|
  {
    && StandsAt(answers[k], text, LengthBefore(answers, k) + k)
    && (k > 0 ==> StandsAt(" ", text, LengthBefore(answers, k) + k - 1))
  }

  /** The text is the answers in order with a space between them, and no more. */
  ghost predicate ReadsAs(text: string, answers: seq<string>) {
    && |text| == LengthBefore(answers, |answers|) + |answers| - 1
    && forall k :: 0 <= k < |answers| ==> AnswerStands(text, answers, k)
  }

  /** What is said in an utterance whose first window is heard at this call. */
  ghost predicate Spoken(text: string, windows: seq<ProviderWindow>, samples: FloatVec, calls: Calls, first: nat) {
    windows != [] && exists answers :: AnswersInOrder(answers, windows, samples, calls, first) && ReadsAs(text, answers)
  }

  lemma {:induction false} LengthBeforeOfFront(answers: seq<string>, more: string, k: nat)
    requires k <= |answers|
    ensures LengthBefore(answers + [more], k) == LengthBefore(answers, k)
  {
    if k > 0 {
      LengthBeforeOfFront(answers, more, k - 1);
    }
  }

  lemma {:induction false} LengthsGrow(answers: seq<string>, k: nat, n: nat)
    requires k < n <= |answers|
    ensures LengthBefore(answers, k) + |answers[k]| <= LengthBefore(answers, n)
    decreases n
  {
    if k + 1 < n {
      LengthsGrow(answers, k, n - 1);
    }
  }

  lemma StandsStill(part: string, text: string, tail: string, at: nat)
    requires StandsAt(part, text, at)
    ensures StandsAt(part, text + tail, at)
  {
    assert (text + tail)[at..at + |part|] == text[at..at + |part|];
  }

  lemma StandsInFront(part: string, text: string, at: nat, n: nat)
    requires StandsAt(part, text, at) && at + |part| <= n <= |text|
    ensures StandsAt(part, text[..n], at)
  {
    assert text[..n][at..at + |part|] == text[at..at + |part|];
  }

  lemma TailStands(text: string, more: string)
    ensures StandsAt(" ", text + (" " + more), |text|) && StandsAt(more, text + (" " + more), |text| + 1)
  {
    var longer := text + (" " + more);
    assert longer[|text|..|text| + 1] == " ";
    assert longer[|text| + 1..|text| + 1 + |more|] == more;
  }

  lemma TextIsItsParts(text: string, m: nat, last: string)
    requires |text| == m + 1 + |last| && StandsAt(" ", text, m) && StandsAt(last, text, m + 1)
    ensures text == text[..m] + (" " + last)
  {
    assert text == text[..m] + text[m..m + 1] + text[m + 1..m + 1 + |last|];
  }

  /** One answer more is one space and the answer more. */
  lemma ReadsOn(text: string, answers: seq<string>, more: string)
    requires answers != [] && ReadsAs(text, answers)
    ensures ReadsAs(text + (" " + more), answers + [more])
  {
    var longer, all, n := text + (" " + more), answers + [more], |answers|;
    LengthBeforeOfFront(answers, more, n);
    assert LengthBefore(all, n + 1) == LengthBefore(all, n) + |all[n]|;
    TailStands(text, more);
    forall k | 0 <= k < n
      ensures AnswerStands(longer, all, k)
    {
      assert AnswerStands(text, answers, k);
      AnswerStandsOn(text, answers, more, k);
    }
    assert AnswerStands(longer, all, n);
  }

  lemma AnswerStandsOn(text: string, answers: seq<string>, more: string, k: nat)
    requires k < |answers| && AnswerStands(text, answers, k)
    ensures AnswerStands(text + (" " + more), answers + [more], k)
  {
    LengthBeforeOfFront(answers, more, k);
    var at := LengthBefore(answers, k) + k;
    StandsStill(answers[k], text, " " + more, at);
    if k > 0 {
      StandsStill(" ", text, " " + more, at - 1);
    }
  }

  lemma AnswerStandsUpTo(text: string, answers: seq<string>, more: string, m: nat, k: nat)
    requires k < |answers| && m == LengthBefore(answers, |answers|) + |answers| - 1 && m <= |text|
    requires AnswerStands(text, answers + [more], k)
    ensures AnswerStands(text[..m], answers, k)
  {
    LengthBeforeOfFront(answers, more, k);
    LengthsGrow(answers, k, |answers|);
    var at := LengthBefore(answers, k) + k;
    StandsInFront(answers[k], text, at, m);
    if k > 0 {
      StandsInFront(" ", text, at - 1, m);
    }
  }

  /** And the last answer comes off with its space. */
  lemma ReadsUpTo(text: string, answers: seq<string>, more: string) returns (m: nat)
    requires answers != [] && ReadsAs(text, answers + [more])
    ensures m <= |text| && ReadsAs(text[..m], answers) && text == text[..m] + (" " + more)
  {
    var all, n := answers + [more], |answers|;
    LengthBeforeOfFront(answers, more, n);
    m := LengthBefore(answers, n) + n - 1;
    assert LengthBefore(all, n + 1) == LengthBefore(all, n) + |all[n]|;
    assert AnswerStands(text, all, n);
    TextIsItsParts(text, m, more);
    forall k | 0 <= k < n
      ensures AnswerStands(text[..m], answers, k)
    {
      assert AnswerStands(text, all, k);
      AnswerStandsUpTo(text, answers, more, m, k);
    }
  }

  lemma {:induction false} JoinReads(answers: seq<string>)
    requires answers != []
    ensures ReadsAs(JoinWithSpaces(answers), answers)
  {
    var n := |answers| - 1;
    if n == 0 {
      assert LengthBefore(answers, 1) == LengthBefore(answers, 0) + |answers[0]|;
      assert AnswerStands(answers[0], answers, 0);
    } else {
      var front := JoinWithSpaces(answers[..n]);
      JoinReads(answers[..n]);
      ReadsOn(front, answers[..n], answers[n]);
      assert answers[..n] + [answers[n]] == answers;
    }
  }

  /** The answers leave no choice of the text. */
  lemma {:induction false} OnlyTheJoinReads(text: string, answers: seq<string>)
    requires answers != [] && ReadsAs(text, answers)
    ensures text == JoinWithSpaces(answers)
    decreases |answers|
  {
    var n := |answers| - 1;
    if n == 0 {
      assert LengthBefore(answers, 1) == LengthBefore(answers, 0) + |answers[0]|;
      assert AnswerStands(text, answers, 0);
    } else {
      assert answers[..n] + [answers[n]] == answers;
      var m := ReadsUpTo(text, answers[..n], answers[n]);
      OnlyTheJoinReads(text[..m], answers[..n]);
    }
  }

  lemma RunWindowAnswers(w: ProviderWindow, samples: FloatVec, call: WindowCall, answer: string)
    ensures RunWindow(w, samples, call) == Ok(answer) <==> Answers(call, w, samples, answer)
  {
  }

  lemma OneAnswerMore(
      windows: seq<ProviderWindow>, samples: FloatVec, calls: Calls, first: nat, answers: seq<string>, n: nat)
    requires n < |windows| == |answers|
    ensures WindowTexts(windows[..n + 1], samples, calls, first) == Ok(answers[..n + 1])
        <==> && WindowTexts(windows[..n], samples, calls, first) == Ok(answers[..n])
             && Answers(calls(first + n), windows[n], samples, answers[n])
  {
    assert windows[..n + 1][..n] == windows[..n] && windows[..n + 1][n] == windows[n];
    RunWindowAnswers(windows[n], samples, calls(first + n), answers[n]);
    LastOfFront(WindowTexts(windows[..n], samples, calls, first), answers, n);
  }

  lemma {:induction false} TextsMeanAnswers(
      windows: seq<ProviderWindow>, samples: FloatVec, calls: Calls, first: nat, answers: seq<string>, n: nat, k: nat)
    requires k < n <= |windows| == |answers|
    requires WindowTexts(windows[..n], samples, calls, first) == Ok(answers[..n])
    ensures Answers(calls(first + k), windows[k], samples, answers[k])
  {
    OneAnswerMore(windows, samples, calls, first, answers, n - 1);
    if k < n - 1 {
      TextsMeanAnswers(windows, samples, calls, first, answers, n - 1, k);
    }
  }

  lemma {:induction false} AnswersMeanTexts(
      windows: seq<ProviderWindow>, samples: FloatVec, calls: Calls, first: nat, answers: seq<string>, n: nat)
    requires n <= |windows| && AnswersInOrder(answers, windows, samples, calls, first)
    ensures WindowTexts(windows[..n], samples, calls, first) == Ok(answers[..n])
  {
    if n > 0 {
      AnswersMeanTexts(windows, samples, calls, first, answers, n - 1);
      OneAnswerMore(windows, samples, calls, first, answers, n - 1);
    }
  }

  lemma WindowTextsAreTheAnswers(
      windows: seq<ProviderWindow>, samples: FloatVec, calls: Calls, first: nat, answers: seq<string>)
    ensures WindowTexts(windows, samples, calls, first) == Ok(answers)
        <==> AnswersInOrder(answers, windows, samples, calls, first)
  {
    if |answers| == |windows| {
      assert windows[..|windows|] == windows && answers[..|windows|] == answers;
      if WindowTexts(windows, samples, calls, first) == Ok(answers) {
        forall k | 0 <= k < |windows|
          ensures Answers(calls(first + k), windows[k], samples, answers[k])
        {
          TextsMeanAnswers(windows, samples, calls, first, answers, |windows|, k);
        }
      }
      if AnswersInOrder(answers, windows, samples, calls, first) {
        AnswersMeanTexts(windows, samples, calls, first, answers, |windows|);
      }
    }
  }

  /** One utterance more, in terms of its windows. */
  lemma UtteranceTextsGrow(utterances: seq<EvidenceUtterance>, samples: FloatVec, calls: Calls, n: nat)
    requires n < |utterances|
    ensures var init := UtteranceTexts(utterances[..n], samples, calls);
            var windows := utterances[n].windows;
            var parts := WindowTexts(windows, samples, calls, WindowCount(utterances[..n]));
            UtteranceTexts(utterances[..n + 1], samples, calls)
            == if init.Err? then init
               else if windows == [] then Err(InputUnavailable)
               else if parts.Err? then Err(parts.error)
               else Ok(init.value + [JoinWithSpaces(parts.value)])
  {
    assert utterances[..n + 1][..n] == utterances[..n];
  }

  lemma OneTextMore(
      utterances: seq<EvidenceUtterance>, samples: FloatVec, calls: Calls, texts: seq<string>, n: nat)
    requires n < |utterances| == |texts|
    ensures UtteranceTexts(utterances[..n + 1], samples, calls) == Ok(texts[..n + 1])
        <==> && UtteranceTexts(utterances[..n], samples, calls) == Ok(texts[..n])
             && SpokenAt(texts[n], utterances, samples, calls, n)
  {
    UtteranceTextsGrow(utterances, samples, calls, n);
    LastTextIsSpoken(utterances[n].windows, samples, calls, WindowCount(utterances[..n]), texts[n]);
    LastOfFront(UtteranceTexts(utterances[..n], samples, calls), texts, n);
  }

  lemma LastOfFront(init: Result<seq<string>, EngineError>, texts: seq<string>, n: nat)
    requires n < |texts|
    ensures init.Ok? ==> forall text ::
              init.value + [text] == texts[..n + 1] <==> init.value == texts[..n] && text == texts[n]
  {
    if init.Ok? {
      forall text
        ensures init.value + [text] == texts[..n + 1] <==> init.value == texts[..n] && text == texts[n]
      {
        if init.value + [text] == texts[..n + 1] {
          assert init.value == (init.value + [text])[..n] == texts[..n];
        }
      }
    }
  }

  /** What is said in utterance u. */
  ghost predicate SpokenAt(
    text: string, utterances: seq<EvidenceUtterance>, samples: FloatVec, calls: Calls, u: nat)
    requires u < |utterances|
  {
    Spoken(text, utterances[u].windows, samples, calls, WindowCount(utterances[..u]))
  }

  lemma {:induction false} TextsMeanSpoken(
      utterances: seq<EvidenceUtterance>, samples: FloatVec, calls: Calls, texts: seq<string>, n: nat, u: nat)
    requires u < n <= |utterances| == |texts| && UtteranceTexts(utterances[..n], samples, calls) == Ok(texts[..n])
    ensures SpokenAt(texts[u], utterances, samples, calls, u)
  {
    if u == n - 1 {
      OneTextMore(utterances, samples, calls, texts, u);
    } else {
      OneTextLess(utterances, samples, calls, texts, n - 1);
      TextsMeanSpoken(utterances, samples, calls, texts, n - 1, u);
    }
  }

  lemma OneTextLess(
      utterances: seq<EvidenceUtterance>, samples: FloatVec, calls: Calls, texts: seq<string>, n: nat)
    requires n < |utterances| == |texts|
    requires UtteranceTexts(utterances[..n + 1], samples, calls) == Ok(texts[..n + 1])
    ensures UtteranceTexts(utterances[..n], samples, calls) == Ok(texts[..n])
  {
    UtteranceTextsGrow(utterances, samples, calls, n);
    LastOfFront(UtteranceTexts(utterances[..n], samples, calls), texts, n);
  }

  lemma {:induction false} SpokenMeansTexts(
      utterances: seq<EvidenceUtterance>, samples: FloatVec, calls: Calls, texts: seq<string>, n: nat)
    requires n <= |utterances| == |texts|
    requires forall u :: 0 <= u < n ==> SpokenAt(texts[u], utterances, samples, calls, u)
    ensures UtteranceTexts(utterances[..n], samples, calls) == Ok(texts[..n])
  {
    if n > 0 {
      SpokenMeansTexts(utterances, samples, calls, texts, n - 1);
      OneTextMore(utterances, samples, calls, texts, n - 1);
    }
  }

  /** The texts of a run are what is spoken in each utterance, and each text is the only one. */
  lemma TextsAreSpoken(utterances: seq<EvidenceUtterance>, samples: FloatVec, calls: Calls, texts: seq<string>)
    ensures UtteranceTexts(utterances, samples, calls) == Ok(texts)
        <==> && |texts| == |utterances|
             && forall u :: 0 <= u < |utterances| ==> SpokenAt(texts[u], utterances, samples, calls, u)
  {
    if |texts| == |utterances| {
      assert utterances[..|texts|] == utterances && texts[..|texts|] == texts;
      if UtteranceTexts(utterances, samples, calls) == Ok(texts) {
        forall u | 0 <= u < |utterances|
          ensures SpokenAt(texts[u], utterances, samples, calls, u)
        {
          TextsMeanSpoken(utterances, samples, calls, texts, |texts|, u);
        }
      }
      if forall u :: 0 <= u < |utterances| ==> SpokenAt(texts[u], utterances, samples, calls, u) {
        SpokenMeansTexts(utterances, samples, calls, texts, |texts|);
      }
    }
  }

  lemma LastTextIsSpoken(windows: seq<ProviderWindow>, samples: FloatVec, calls: Calls, first: nat, text: string)
    ensures Spoken(text, windows, samples, calls, first)
        <==> && windows != [] && WindowTexts(windows, samples, calls, first).Ok?
             && JoinWithSpaces(WindowTexts(windows, samples, calls, first).value) == text
  {
    var parts := WindowTexts(windows, samples, calls, first);
    if windows != [] && parts.Ok? {
      WindowTextsAreTheAnswers(windows, samples, calls, first, parts.value);
      JoinReads(parts.value);
    }
    if Spoken(text, windows, samples, calls, first) {
      var answers :| AnswersInOrder(answers, windows, samples, calls, first) && ReadsAs(text, answers);
      WindowTextsAreTheAnswers(windows, samples, calls, first, answers);
      OnlyTheJoinReads(text, answers);
    }
  }

  /** Call c is for window k of utterance u. */
  predicate IsCall(utterances: seq<EvidenceUtterance>, c: nat, u: nat, k: nat) {
    u < |utterances| && k < |utterances[u].windows| && c == WindowCount(utterances[..u]) + k
  }

  /** Every call below the count is for exactly one window of one utterance. */
  lemma {:induction false} CallsAreTheWindows(utterances: seq<EvidenceUtterance>, c: nat)
    requires c < WindowCount(utterances)
    ensures exists u, k :: IsCall(utterances, c, u, k)
    ensures forall u, k, v, j :: IsCall(utterances, c, u, k) && IsCall(utterances, c, v, j) ==> u == v && k == j
  {
    var n := |utterances| - 1;
    var init := utterances[..n];
    if c < WindowCount(init) {
      CallsAreTheWindows(init, c);
      var u: nat, k: nat :| IsCall(init, c, u, k);
      assert init[..u] == utterances[..u];
      assert IsCall(utterances, c, u, k);
    } else {
      assert IsCall(utterances, c, n, c - WindowCount(init));
    }
    forall u, k, v, j | IsCall(utterances, c, u, k) && IsCall(utterances, c, v, j)
      ensures u == v && k == j
    {
      if u <= v {
        CountsGrow(utterances, u, v);
      } else {
        CountsGrow(utterances, v, u);
      }
    }
  }

  lemma {:induction false} CountsGrow(utterances: seq<EvidenceUtterance>, u: nat, v: nat)
    requires u <= v < |utterances|
    ensures u < v ==> WindowCount(utterances[..u]) + |utterances[u].windows| <= WindowCount(utterances[..v])
    decreases v
  {
    if u < v {
      assert utterances[..v][..v - 1] == utterances[..v - 1];
      CountsGrow(utterances, u, v - 1);
    }
  }

  // The calls

  lemma {:induction false} WindowErrorsStick(
      windows: seq<ProviderWindow>, samples: FloatVec, calls: Calls, first: nat, k: nat)
    requires k <= |windows|
    ensures WindowTexts(windows[..k], samples, calls, first).Err? ==>
              WindowTexts(windows, samples, calls, first) == WindowTexts(windows[..k], samples, calls, first)
    decreases |windows| - k
  {
    if k < |windows| {
      assert windows[..k + 1][..k] == windows[..k];
      WindowErrorsStick(windows, samples, calls, first, k + 1);
    } else {
      assert windows[..k] == windows;
    }
  }

  lemma {:induction false} UtteranceErrorsStick(
      utterances: seq<EvidenceUtterance>, samples: FloatVec, calls: Calls, k: nat)
    requires k <= |utterances|
    ensures UtteranceTexts(utterances[..k], samples, calls).Err? ==>
              UtteranceTexts(utterances, samples, calls) == UtteranceTexts(utterances[..k], samples, calls)
    decreases |utterances| - k
  {
    if k < |utterances| {
      assert utterances[..k + 1][..k] == utterances[..k];
      UtteranceErrorsStick(utterances, samples, calls, k + 1);
    } else {
      assert utterances[..k] == utterances;
    }
  }

  method TranscribeUtterance(windows: seq<ProviderWindow>, samples: FloatVec, calls: Calls, first: nat)
    returns (r: Result<seq<string>, EngineError>)
    ensures r == WindowTexts(windows, samples, calls, first)
  {
    var windowTexts: seq<string> := [];
    for next := 0 to |windows|
      invariant WindowTexts(windows[..next], samples, calls, first) == Ok(windowTexts)
    {
      assert windows[..next + 1][..next] == windows[..next];
      WindowErrorsStick(windows, samples, calls, first, next + 1);
      var text := RunWindow(windows[next], samples, calls(first + next));
      if text.Err? {
        return Err(text.error);
      }
      windowTexts := windowTexts + [text.value];
    }
    assert windows[..|windows|] == windows;
    return Ok(windowTexts);
  }

  /**
   * transcribe_all_windows. A run that succeeds says in each text, in order and once each, what the provider answers to
   * the samples of the utterance's windows; the calls go through the windows of all utterances in order.
   */
  method TranscribeAllWindows(utterances: seq<EvidenceUtterance>, samples: FloatVec, calls: Calls)
    returns (r: Result<seq<string>, EngineError>)
    ensures r == UtteranceTexts(utterances, samples, calls)
    ensures r.Ok? ==> |r.value| == |utterances| && forall u :: 0 <= u < |utterances| ==>
                SpokenAt(r.value[u], utterances, samples, calls, u)
  {
    var texts: seq<string> := [];
    var call := 0;
    for utteranceIndex := 0 to |utterances|
      invariant UtteranceTexts(utterances[..utteranceIndex], samples, calls) == Ok(texts)
      invariant call == WindowCount(utterances[..utteranceIndex])
    {
      var windows := utterances[utteranceIndex].windows;
      assert utterances[..utteranceIndex + 1][..utteranceIndex] == utterances[..utteranceIndex];
      UtteranceErrorsStick(utterances, samples, calls, utteranceIndex + 1);
      if windows == [] {
        return Err(InputUnavailable);
      }
      var windowTexts :- TranscribeUtterance(windows, samples, calls, call);
      texts := texts + [JoinWithSpaces(windowTexts)];
      call := call + |windows|;
    }
    assert utterances[..|utterances|] == utterances;
    TextsAreSpoken(utterances, samples, calls, texts);
    return Ok(texts);
  }

  /** The outside world answers this window without a cancellation or an error. */
  predicate Succeeds(call: WindowCall, w: ProviderWindow, samples: FloatVec) {
    && !call.cancelledBefore && call.renewal.Ok? && !call.cancelledAfter && w.inference.start <= w.inference.end
    && w.inference.end <= |samples| && call.provider(samples[w.inference.start..w.inference.end]).Ok?
  }

  ghost predicate AllSucceed(windows: seq<ProviderWindow>, samples: FloatVec, calls: Calls, first: nat) {
    forall k :: 0 <= k < |windows| ==> Succeeds(calls(first + k), windows[k], samples)
  }

  /** Utterance u is answered from its first window to its last. */
  ghost predicate AnsweredAt(utterances: seq<EvidenceUtterance>, samples: FloatVec, calls: Calls, u: nat)
    requires u < |utterances|
  {
    AllSucceed(utterances[u].windows, samples, calls, WindowCount(utterances[..u]))
  }

  /**
   * Windows cut by the partition always suit the provider: transcription succeeds exactly when the outside
   * world answers every call, never for want of a window, its range or its length.
   */
  lemma PartitionedWindowsAlwaysSuit(utterances: seq<EvidenceUtterance>, samples: FloatVec, calls: Calls)
    requires Partitioned(utterances, samples)
    ensures UtteranceTexts(utterances, samples, calls).Ok?
        <==> forall u :: 0 <= u < |utterances| ==> AnsweredAt(utterances, samples, calls, u)
  {
    TextsUpToSuit(utterances, samples, calls, |utterances|);
    assert utterances[..|utterances|] == utterances;
  }

  lemma {:induction false} TextsUpToSuit(
      utterances: seq<EvidenceUtterance>, samples: FloatVec, calls: Calls, n: nat)
    requires Partitioned(utterances, samples) && n <= |utterances|
    ensures UtteranceTexts(utterances[..n], samples, calls).Ok?
        <==> forall u :: 0 <= u < n ==> AnsweredAt(utterances, samples, calls, u)
  {
    if n > 0 {
      TextsUpToSuit(utterances, samples, calls, n - 1);
      TextsGrowIfAnswered(utterances, samples, calls, n - 1);
    }
  }

  lemma TextsGrowIfAnswered(utterances: seq<EvidenceUtterance>, samples: FloatVec, calls: Calls, n: nat)
    requires Partitioned(utterances, samples) && n < |utterances|
    ensures UtteranceTexts(utterances[..n + 1], samples, calls).Ok?
        <==> UtteranceTexts(utterances[..n], samples, calls).Ok? && AnsweredAt(utterances, samples, calls, n)
  {
    UtteranceTextsGrow(utterances, samples, calls, n);
    UtteranceSuits(utterances, samples, calls, n);
  }

  lemma UtteranceSuits(utterances: seq<EvidenceUtterance>, samples: FloatVec, calls: Calls, u: nat)
    requires Partitioned(utterances, samples) && u < |utterances|
    ensures utterances[u].windows != []
    ensures WindowTexts(utterances[u].windows, samples, calls, WindowCount(utterances[..u])).Ok?
        <==> AnsweredAt(utterances, samples, calls, u)
  {
    assert PartitionOf(utterances[u].windows, samples, utterances[u].evidence);
    SuitableWindows(utterances[u].windows, samples, utterances[u].evidence, calls, WindowCount(utterances[..u]));
  }

  lemma {:induction false} SuitableWindows(
      windows: seq<ProviderWindow>, samples: FloatVec, core: SampleRange, calls: Calls, first: nat)
    requires forall w :: w in windows ==> GoodWindow(w, samples, core)
    ensures WindowTexts(windows, samples, calls, first).Ok?
        <==> AllSucceed(windows, samples, calls, first)
  {
    if windows != [] {
      var n := |windows| - 1;
      SuitableWindows(windows[..n], samples, core, calls, first);
      assert windows[n] in windows;
      WindowSuits(windows[n], samples, core, calls(first + n));
    }
  }

  /** A window the partition cut is inside the audio and within the provider's limit. */
  lemma WindowSuits(w: ProviderWindow, samples: FloatVec, core: SampleRange, call: WindowCall)
    requires GoodWindow(w, samples, core)
    ensures Suits(w, samples)
    ensures RunWindow(w, samples, call).Ok? <==> Succeeds(call, w, samples)
  {
    assert w.inference.start < w.inference.end <= |samples|;
  }

  /** The error of a window whose call fails: a cancellation comes first, then the renewal, then the provider. */
  predicate EndsWith(error: EngineError, call: WindowCall, w: ProviderWindow, samples: FloatVec) {
    if call.cancelledBefore then error == Cancelled
    else if call.renewal.Err? then error == call.renewal.error
    else if call.cancelledAfter then error == Cancelled
    else
      && w.inference.start < w.inference.end <= |samples|
      && var answer := call.provider(samples[w.inference.start..w.inference.end]);
         answer.Err? && error == if answer.error == CancelledByProvider then Cancelled else Provider(answer.error)
  }

  /** Otherwise the first call that fails ends the run, with its own error. */
  lemma FirstFailureEndsTheRun(
      utterances: seq<EvidenceUtterance>, samples: FloatVec, calls: Calls, u: nat, k: nat)
    requires Partitioned(utterances, samples) && u < |utterances| && k < |utterances[u].windows|
    requires forall v :: 0 <= v < u ==> AnsweredAt(utterances, samples, calls, v)
    requires AllSucceed(utterances[u].windows[..k], samples, calls, WindowCount(utterances[..u]))
    requires !Succeeds(calls(WindowCount(utterances[..u]) + k), utterances[u].windows[k], samples)
    ensures UtteranceTexts(utterances, samples, calls).Err?
    ensures EndsWith(UtteranceTexts(utterances, samples, calls).error, calls(WindowCount(utterances[..u]) + k),
                     utterances[u].windows[k], samples)
  {
    TextsUpToSuit(utterances, samples, calls, u);
    FirstFailureInUtterance(utterances, samples, calls, u, k);
    FailedUtteranceEndsTheRun(utterances, samples, calls, u);
    FailedWindowAt(utterances, samples, calls, u, k);
  }

  lemma FailedUtteranceEndsTheRun(utterances: seq<EvidenceUtterance>, samples: FloatVec, calls: Calls, u: nat)
    requires u < |utterances| && utterances[u].windows != []
    requires UtteranceTexts(utterances[..u], samples, calls).Ok?
    requires WindowTexts(utterances[u].windows, samples, calls, WindowCount(utterances[..u])).Err?
    ensures UtteranceTexts(utterances, samples, calls)
        == Err(WindowTexts(utterances[u].windows, samples, calls, WindowCount(utterances[..u])).error)
  {
    UtteranceTextsGrow(utterances, samples, calls, u);
    UtteranceErrorsStick(utterances, samples, calls, u + 1);
  }

  lemma FirstFailureInUtterance(
      utterances: seq<EvidenceUtterance>, samples: FloatVec, calls: Calls, u: nat, k: nat)
    requires Partitioned(utterances, samples) && u < |utterances| && k < |utterances[u].windows|
    requires AllSucceed(utterances[u].windows[..k], samples, calls, WindowCount(utterances[..u]))
    requires !Succeeds(calls(WindowCount(utterances[..u]) + k), utterances[u].windows[k], samples)
    ensures var run := RunWindow(utterances[u].windows[k], samples, calls(WindowCount(utterances[..u]) + k));
            && run.Err?
            && WindowTexts(utterances[u].windows, samples, calls, WindowCount(utterances[..u])) == Err(run.error)
  {
    assert PartitionOf(utterances[u].windows, samples, utterances[u].evidence);
    FirstWindowErrorDecides(
      utterances[u].windows, samples, utterances[u].evidence, calls, WindowCount(utterances[..u]), k);
  }

  lemma FirstWindowErrorDecides(
      windows: seq<ProviderWindow>, samples: FloatVec, core: SampleRange, calls: Calls, first: nat, k: nat)
    requires k < |windows| && forall w :: w in windows ==> GoodWindow(w, samples, core)
    requires AllSucceed(windows[..k], samples, calls, first)
    requires !Succeeds(calls(first + k), windows[k], samples)
    ensures RunWindow(windows[k], samples, calls(first + k)).Err?
    ensures WindowTexts(windows, samples, calls, first) == Err(RunWindow(windows[k], samples, calls(first + k)).error)
  {
    WindowsBeforeSucceed(windows, samples, core, calls, first, k);
    assert windows[k] in windows;
    WindowSuits(windows[k], samples, core, calls(first + k));
    FirstErrorSticks(windows, samples, calls, first, k);
  }

  lemma WindowsBeforeSucceed(
      windows: seq<ProviderWindow>, samples: FloatVec, core: SampleRange, calls: Calls, first: nat, k: nat)
    requires k < |windows| && forall w :: w in windows ==> GoodWindow(w, samples, core)
    requires AllSucceed(windows[..k], samples, calls, first)
    ensures WindowTexts(windows[..k], samples, calls, first).Ok?
  {
    assert forall w :: w in windows[..k] ==> w in windows;
    SuitableWindows(windows[..k], samples, core, calls, first);
  }

  lemma FirstErrorSticks(windows: seq<ProviderWindow>, samples: FloatVec, calls: Calls, first: nat, k: nat)
    requires k < |windows| && WindowTexts(windows[..k], samples, calls, first).Ok?
    requires RunWindow(windows[k], samples, calls(first + k)).Err?
    ensures WindowTexts(windows, samples, calls, first) == Err(RunWindow(windows[k], samples, calls(first + k)).error)
  {
    assert windows[..k + 1][..k] == windows[..k];
    WindowErrorsStick(windows, samples, calls, first, k + 1);
  }

  lemma FailedWindowAt(
      utterances: seq<EvidenceUtterance>, samples: FloatVec, calls: Calls, u: nat, k: nat)
    requires Partitioned(utterances, samples) && u < |utterances| && k < |utterances[u].windows|
    requires !Succeeds(calls(WindowCount(utterances[..u]) + k), utterances[u].windows[k], samples)
    ensures var run := RunWindow(utterances[u].windows[k], samples, calls(WindowCount(utterances[..u]) + k));
            && run.Err?
            && EndsWith(run.error, calls(WindowCount(utterances[..u]) + k), utterances[u].windows[k], samples)
  {
    assert PartitionOf(utterances[u].windows, samples, utterances[u].evidence);
    assert utterances[u].windows[k] in utterances[u].windows;
    FailedWindowError(utterances[u].windows[k], samples, utterances[u].evidence,
      calls(WindowCount(utterances[..u]) + k));
  }

  lemma FailedWindowError(w: ProviderWindow, samples: FloatVec, core: SampleRange, call: WindowCall)
    requires GoodWindow(w, samples, core) && !Succeeds(call, w, samples)
    ensures RunWindow(w, samples, call).Err?
    ensures EndsWith(RunWindow(w, samples, call).error, call, w, samples)
  {
    WindowSuits(w, samples, core, call);
  }

  // The whole run

  ghost predicate FitsAudio(segments: seq<TranscriptSegmentPublication>, audio: WorkingAudio) {
    && audio.durationMs <= I64_MAX
    && (forall i :: 0 <= i < |segments| ==>
          NewTranscriptTimeRange(segments[i].chunkStartMs, segments[i].chunkEndMs, audio.durationMs).Ok?)
    && (forall i :: 0 < i < |segments| ==> segments[i - 1].chunkEndMs <= segments[i].chunkStartMs + 1)
    && (forall i, j :: 0 <= i < j < |segments| ==> segments[i].id != segments[j].id)
  }

  method PrepareUtterances(samples: FloatVec, cores: Option<seq<SampleRange>>)
    returns (r: Result<seq<EvidenceUtterance>, EngineError>)
    ensures r.Ok? <==> if cores.Some? then OrderedCores(cores.value, |samples|) else samples != []
    ensures r.Err? ==> r.error == InputUnavailable
    ensures r.Ok? ==> Partitioned(r.value, samples)
    ensures r.Ok? ==> EvidenceIs(r.value, cores, |samples|)
  {
    match cores {
      case None =>
        var whole := PartitionWithoutVad(samples);
        return if whole.Ok? then Ok([whole.value]) else Err(InputUnavailable);
      case Some(detected) =>
        var cut := PartitionDetectorCores(samples, detected);
        return if cut.Ok? then Ok(cut.value) else Err(InputUnavailable);
    }
  }

  /** Where the detector's cores, or the whole audio without a detector, become evidence. */
  ghost predicate EvidenceIs(utterances: seq<EvidenceUtterance>, cores: Option<seq<SampleRange>>, total: u64) {
    if cores.Some? then
      && |utterances| == |cores.value|
      && forall u :: 0 <= u < |utterances| ==> utterances[u].evidence == cores.value[u]
    else |utterances| == 1 && utterances[0].evidence == SampleRange(0, total)
  }

  /** What the run publishes about utterance u. */
  ghost predicate PublishedAt(
    segment: TranscriptSegmentPublication, utterances: seq<EvidenceUtterance>, samples: FloatVec, calls: Calls, u: nat,
    source: AudioSource, chunkId: string)
    requires u < |utterances|
  {
    var evidence := utterances[u].evidence;
    && segment.id == "seg_" + chunkId + "_" + (Decimal(evidence.start) + "_" + Decimal(evidence.end))
    && segment.chunkStartMs == evidence.start / 16 && segment.chunkEndMs == CeilDiv(evidence.end, 16)
    && segment.source == source && !Blank(segment.text) && SpokenAt(segment.text, utterances, samples, calls, u)
  }

  /**
   * Decode, cut, transcribe, publish. `cores` is what the voice detector returned, or None without one. The run
   * succeeds exactly when the file decodes, the cores fit it, every window is answered, something is said in every
   * utterance and the receipt holds; it then publishes, for each core in order, what was said in it.
   */
  method RunEngine<Vad(==)>(
    declaredRate: Option<u32>, declaredFrames: Option<u64>, packets: seq<Packet>, produced: Option<seq<Sample>>,
    cores: Option<seq<SampleRange>>, calls: Calls, snapshotVad: Vad, executedVad: Vad,
    source: AudioSource, chunkId: string, receiptValid: bool)
    returns (audio: WorkingAudio, utterances: seq<EvidenceUtterance>,
             r: Result<seq<TranscriptSegmentPublication>, EngineError>)
    requires DecoderContract(packets)
    ensures |audio.samples| <= MAX_FLOAT_VECTOR
    ensures r.Ok? ==> Prepared(audio) && FitsAudio(r.value, audio)
    ensures r.Ok? ==> Partitioned(utterances, audio.samples) && EvidenceIs(utterances, cores, |audio.samples|)
    ensures r.Ok? ==> |r.value| == |utterances| && forall u :: 0 <= u < |utterances| ==>
                PublishedAt(r.value[u], utterances, audio.samples, calls, u, source, chunkId)
    ensures r.Ok? <==>
              && Decodable(declaredRate, declaredFrames, packets, produced)
              && (cores.Some? ==> OrderedCores(cores.value, |audio.samples|))
              && (forall u :: 0 <= u < |utterances| ==> AnsweredAt(utterances, audio.samples, calls, u))
              && (forall u, text :: 0 <= u < |utterances| && SpokenAt(text, utterances, audio.samples, calls, u) ==>
                    !Blank(text))
              && snapshotVad == executedVad && receiptValid
    ensures r.Ok? && cores.None? ==> r.value[0].chunkStartMs == 0 && r.value[0].chunkEndMs == audio.durationMs
  {
    audio := WorkingAudio([], Format(0, 0), 0, 0);
    utterances := [];
    var decoded := DecodeToWorkingAudio(declaredRate, declaredFrames, packets, produced);
    if decoded.Err? {
      r := Err(InputUnavailable);
      return;
    }
    audio := decoded.value;
    CapBounds(audio.sourceFrames, audio.format.rate);
    var prepared := PrepareUtterances(audio.samples, cores);
    if prepared.Err? {
      r := Err(InputUnavailable);
      return;
    }
    utterances := prepared.value;
    var texts := TranscribeAllWindows(utterances, audio.samples, calls);
    PartitionedWindowsAlwaysSuit(utterances, audio.samples, calls);
    if texts.Err? {
      r := Err(texts.error);
      return;
    }
    r := BuildSuccess(snapshotVad, executedVad, source, chunkId, utterances, texts.value, receiptValid);
    BlankExactlyWhenSpokenBlank(utterances, audio.samples, calls, texts.value);
    if r.Ok? {
      SuccessFits(audio, utterances, texts.value, source, chunkId, r.value);
      PublishedWhatWasSpoken(utterances, audio.samples, calls, texts.value, source, chunkId, r.value);
    }
  }

  lemma SpokenOnce(
      text: string, other: string, utterances: seq<EvidenceUtterance>, samples: FloatVec, calls: Calls, u: nat)
    requires u < |utterances|
    requires SpokenAt(text, utterances, samples, calls, u) && SpokenAt(other, utterances, samples, calls, u)
    ensures text == other
  {
    LastTextIsSpoken(utterances[u].windows, samples, calls, WindowCount(utterances[..u]), text);
    LastTextIsSpoken(utterances[u].windows, samples, calls, WindowCount(utterances[..u]), other);
  }

  lemma BlankExactlyWhenSpokenBlank(
      utterances: seq<EvidenceUtterance>, samples: FloatVec, calls: Calls, texts: seq<string>)
    requires |texts| == |utterances| && Partitioned(utterances, samples)
    requires forall u :: 0 <= u < |utterances| ==> SpokenAt(texts[u], utterances, samples, calls, u)
    ensures Publishable(utterances, texts)
        <==> forall u, text :: 0 <= u < |utterances| && SpokenAt(text, utterances, samples, calls, u) ==> !Blank(text)
  {
    forall u, text | 0 <= u < |utterances| && SpokenAt(text, utterances, samples, calls, u)
      ensures text == texts[u]
    {
      SpokenOnce(text, texts[u], utterances, samples, calls, u);
    }
  }

  lemma PublishedWhatWasSpoken(
      utterances: seq<EvidenceUtterance>, samples: FloatVec, calls: Calls, texts: seq<string>,
      source: AudioSource, chunkId: string, segments: seq<TranscriptSegmentPublication>)
    requires Publishes(segments, utterances, texts, source, chunkId) && Publishable(utterances, texts)
    requires forall u :: 0 <= u < |utterances| ==> SpokenAt(texts[u], utterances, samples, calls, u)
    ensures forall u :: 0 <= u < |utterances| ==>
              PublishedAt(segments[u], utterances, samples, calls, u, source, chunkId)
  {
  }

  lemma SuccessFits(
    audio: WorkingAudio, utterances: seq<EvidenceUtterance>, texts: seq<string>,
    source: AudioSource, chunkId: string, segments: seq<TranscriptSegmentPublication>)
    requires Prepared(audio) && |audio.samples| <= MAX_FLOAT_VECTOR && Partitioned(utterances, audio.samples)
    requires Publishable(utterances, texts) && Publishes(segments, utterances, texts, source, chunkId)
    ensures FitsAudio(segments, audio)
    ensures forall i :: 0 <= i < |segments| ==> !Blank(segments[i].text) && segments[i].source == source
    ensures |utterances| == 1 && utterances[0].evidence == SampleRange(0, |audio.samples|) ==>
              segments[0].chunkStartMs == 0 && segments[0].chunkEndMs == audio.durationMs
  {
    PublishedSegmentsFitTheAudio(audio, utterances, texts, source, chunkId, segments);
    DurationIsWorkLengthInMillis(audio.sourceFrames, audio.format.rate);
  }
}
