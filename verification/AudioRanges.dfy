/** The pure sample and time arithmetic of asr/audio.rs, and TranscriptTimeRange::new of domain.rs. */
module AudioRanges {
  import opened MachineInts

  const WORK_SAMPLE_RATE_HZ: u32 := 16_000
  const MAX_DECODED_AUDIO_DURATION_SECONDS: u64 := 24 * 60 * 60

  datatype AudioError =
    | UnsupportedOrCorruptAudio
    | InvalidSampleRate
    | InvalidRange
    | InvalidDetectorCores
    | ArithmeticOverflow
    | IndexOutOfRange
    | ResampleFailed
    | ResourceLimitExceeded

  datatype SampleRange = SampleRange(start: u64, end: u64)

  datatype MillisecondRange = MillisecondRange(startMs: u64, endMs: u64)

  function NewSampleRange(start: u64, end: u64): Result<SampleRange, AudioError> {
    if start >= end then Err(InvalidRange) else Ok(SampleRange(start, end))
  }

  function ValidateRange(range: SampleRange, totalFrames: u64): Result<(), AudioError> {
    if range.start >= range.end || range.end > totalFrames then Err(InvalidRange) else Ok(())
  }

  function CheckedCeilRatio(value: u64, multiplier: u64, denominator: u64): Result<u64, AudioError> {
    if denominator == 0 then Err(InvalidSampleRate)
    else match CheckedMul(value, multiplier)
      case None => Err(ArithmeticOverflow)
      case Some(numerator) =>
        match CheckedAdd(numerator, denominator - 1)
        case None => Err(ArithmeticOverflow)
        case Some(adjusted) => Ok(QuotientFits(adjusted, denominator))
  }

  function QuotientFits(a: u64, b: u64): (q: u64)
    requires b > 0
    ensures q == a / b
  {
    DivAtMost(a, b);
    a / b
  }

  function MaxSourceFrames(sampleRateHz: u32): Result<u64, AudioError> {
    if sampleRateHz == 0 then Err(InvalidSampleRate)
    else match CheckedMul(sampleRateHz, MAX_DECODED_AUDIO_DURATION_SECONDS)
      case None => Err(ResourceLimitExceeded)
      case Some(frames) => Ok(frames)
  }

  function ResampledFrameCount(sourceFrames: u64, sourceRateHz: u32): Result<usize, AudioError> {
    if sourceRateHz == 0 then Err(InvalidSampleRate)
    else
      var maxFrames :- MaxSourceFrames(sourceRateHz);
      if sourceFrames > maxFrames then Err(ResourceLimitExceeded)
      else
        var outputFrames :- CheckedCeilRatio(sourceFrames, WORK_SAMPLE_RATE_HZ, sourceRateHz);
        match CheckedMul(WORK_SAMPLE_RATE_HZ, MAX_DECODED_AUDIO_DURATION_SECONDS)
        case None => Err(ResourceLimitExceeded)
        case Some(maxWorkFrames) =>
          if outputFrames > maxWorkFrames then Err(ResourceLimitExceeded) else Ok(outputFrames)
  }

  function SampleRangeToMillis(range: SampleRange, sampleRateHz: u32, totalFrames: u64)
    : Result<MillisecondRange, AudioError>
  {
    var _ :- ValidateRange(range, totalFrames);
    if sampleRateHz == 0 then Err(InvalidSampleRate)
    else match CheckedMul(range.start, 1_000)
      case None => Err(ArithmeticOverflow)
      case Some(scaled) =>
        var startMs := QuotientFits(scaled, sampleRateHz);
        var endMs :- CheckedCeilRatio(range.end, 1_000, sampleRateHz);
        if startMs >= endMs then Err(InvalidRange) else Ok(MillisecondRange(startMs, endMs))
  }

  function WorkRangeToOriginalFrames(range: SampleRange, sourceRateHz: u32, sourceFrames: u64)
    : Result<SampleRange, AudioError>
  {
    if sourceRateHz == 0 then Err(InvalidSampleRate)
    else match CheckedMul(range.start, sourceRateHz)
      case None => Err(ArithmeticOverflow)
      case Some(scaled) =>
        var start := QuotientFits(scaled, WORK_SAMPLE_RATE_HZ);
        var ceilEnd :- CheckedCeilRatio(range.end, sourceRateHz, WORK_SAMPLE_RATE_HZ);
        var end := if ceilEnd < sourceFrames then ceilEnd else sourceFrames;
        var mapped :- NewSampleRange(start, end);
        var _ :- ValidateRange(mapped, sourceFrames);
        Ok(mapped)
  }

  datatype TimeRangeError = NegativeStart | EmptyOrReversed | ExceedsAudioDuration

  datatype TranscriptTimeRange = TranscriptTimeRange(startMs: i64, endMs: i64, audioDurationMs: i64)

  function NewTranscriptTimeRange(startMs: i64, endMs: i64, audioDurationMs: i64)
    : Result<TranscriptTimeRange, TimeRangeError>
  {
    if startMs < 0 then Err(NegativeStart)
    else if endMs <= startMs then Err(EmptyOrReversed)
    else if endMs > audioDurationMs then Err(ExceedsAudioDuration)
    else Ok(TranscriptTimeRange(startMs, endMs, audioDurationMs))
  }

  // Rounding arithmetic

  /** The mathematical ceiling that CheckedCeilRatio computes when nothing overflows. */
  function CeilDiv(a: nat, b: nat): nat
    requires b > 0
  {
    (a + b - 1) / b
  }

  /** The milliseconds of a range exist exactly when it lies in the audio and neither end is too large to scale. */
  lemma MillisExactly(range: SampleRange, rate: u32, totalFrames: u64)
    ensures var r := SampleRangeToMillis(range, rate, totalFrames);
            if range.start >= range.end || range.end > totalFrames then r == Err(InvalidRange)
            else if rate == 0 then r == Err(InvalidSampleRate)
            else if range.start * 1_000 > U64_MAX || range.end * 1_000 + rate - 1 > U64_MAX then
              r == Err(ArithmeticOverflow)
            else
              && r.Ok? && r.value.startMs == range.start * 1_000 / rate
              && r.value.endMs == CeilDiv(range.end * 1_000, rate) > r.value.startMs
  {
    if range.start < range.end <= totalFrames && rate > 0 {
      FloorBelowCeil(range.start * 1_000, range.end * 1_000, rate);
    }
  }

  lemma FloorBelowCeil(a: nat, b: nat, k: nat)
    requires k > 0 && a < b
    ensures a / k < CeilDiv(b, k)
  {
    var floor, ceil := a / k, CeilDiv(b, k);
    assert floor * k <= a;
    assert b + k - 1 < ceil * k + k by {
      assert b + k - 1 == ceil * k + (b + k - 1) % k;
    }
    assert ceil <= floor ==> ceil * k <= floor * k;
  }

  /** The frames of a working range exist exactly when neither end is too large to scale and the source reaches it. */
  lemma SourceFramesExactly(range: SampleRange, rate: u32, sourceFrames: u64)
    ensures var r := WorkRangeToOriginalFrames(range, rate, sourceFrames);
            if rate == 0 then r == Err(InvalidSampleRate)
            else if range.start * rate > U64_MAX || range.end * rate + 15_999 > U64_MAX then
              r == Err(ArithmeticOverflow)
            else
              var start, end := range.start * rate / 16_000, CeilDiv(range.end * rate, 16_000);
              var clipped := if end < sourceFrames then end else sourceFrames;
              if start >= clipped then r == Err(InvalidRange)
              else r.Ok? && r.value.start == start && r.value.end == clipped
  {
  }

  /** A transcript range is accepted exactly inside the audio; otherwise the first test that fails is named. */
  lemma TranscriptRangesExactly(startMs: i64, endMs: i64, audioDurationMs: i64)
    ensures var r := NewTranscriptTimeRange(startMs, endMs, audioDurationMs);
            && (r.Ok? <==> 0 <= startMs < endMs <= audioDurationMs)
            && (r.Ok? ==> r.value == TranscriptTimeRange(startMs, endMs, audioDurationMs))
            && (r == Err(NegativeStart) <==> startMs < 0)
            && (r == Err(EmptyOrReversed) <==> startMs >= 0 && endMs <= startMs)
  {
  }

  lemma DivAtMost(a: nat, b: nat)
    requires b > 0
    ensures 0 <= a / b <= a
  {
    var q := a / b;
    ProductAtLeast(q, b);
    assert q * b <= a;
  }

  lemma ProductAtLeast(q: nat, b: nat)
    requires b > 0
    ensures q * b >= q
  {
    assert q * b == q * (b - 1) + q;
  }

  lemma FloorGreatest(a: nat, b: nat, q: nat)
    requires b > 0
    ensures q * b <= a <==> q <= a / b
  {
    var f := a / b;
    assert f * b <= a < f * b + b;
    if q <= f { assert q * b <= f * b; }
    if q > f { assert q * b >= (f + 1) * b; }
  }

  /** CeilDiv(a, b) is the least q with q * b >= a. */
  lemma CeilLeast(a: nat, b: nat, q: nat)
    requires b > 0
    ensures CeilDiv(a, b) <= q <==> a <= q * b
  {
    var c := CeilDiv(a, b);
    assert c * b <= a + b - 1 < c * b + b;
    if c <= q { assert c * b <= q * b; }
    if c > q { assert c * b >= (q + 1) * b == q * b + b; }
  }

  lemma Regrouped(q: nat, b: nat, c: nat)
    ensures (q * c) * b == q * (b * c)
  {
  }

  /** A bound is met by the two ceilings exactly when it is met by the one. */
  lemma NestedCeilAtMost(a: nat, b: nat, c: nat, q: nat)
    requires b > 0 && c > 0 && b * c > 0
    ensures CeilDiv(CeilDiv(a, b), c) <= q <==> CeilDiv(a, b * c) <= q
  {
    CeilLeast(CeilDiv(a, b), c, q);
    CeilLeast(a, b, q * c);
    CeilLeast(a, b * c, q);
    Regrouped(q, b, c);
  }

  lemma NestedCeil(a: nat, b: nat, c: nat)
    requires b > 0 && c > 0
    ensures b * c > 0
    ensures CeilDiv(CeilDiv(a, b), c) == CeilDiv(a, b * c)
  {
    ProductAtLeast(b, c);
    NestedCeilAtMost(a, b, c, CeilDiv(a, b * c));
    NestedCeilAtMost(a, b, c, CeilDiv(CeilDiv(a, b), c));
  }

  lemma ScaledCeil(a: nat, b: nat, k: nat)
    requires b > 0 && k > 0
    ensures k * b > 0
    ensures CeilDiv(k * a, k * b) == CeilDiv(a, b)
  {
    assert k * b > 0;
    var x, y := CeilDiv(k * a, k * b), CeilDiv(a, b);
    CeilLeast(k * a, k * b, x);
    CeilLeast(a, b, x);
    CancelFactor(a, x * b, k);
    assert k * (x * b) == x * (k * b);
    CeilLeast(a, b, y);
    CeilLeast(k * a, k * b, y);
    CancelFactor(a, y * b, k);
    assert k * (y * b) == y * (k * b);
  }

  lemma CancelFactor(a: nat, b: nat, k: nat)
    requires k > 0
    ensures a <= b <==> k * a <= k * b
  {
  }

  // What the 24 hour cap buys

  ghost predicate WithinCap(sourceFrames: u64, rateHz: u32) {
    0 < rateHz && sourceFrames <= rateHz * MAX_DECODED_AUDIO_DURATION_SECONDS
  }

  lemma CeilRatioIsCeiling(value: u64, multiplier: u64, denominator: u64)
    requires denominator > 0
    requires 0 <= value * multiplier && value * multiplier + denominator - 1 <= U64_MAX
    ensures CheckedCeilRatio(value, multiplier, denominator) == Ok(CeilDiv(value * multiplier, denominator))
  {
  }

  lemma CapBounds(sourceFrames: u64, rateHz: u32)
    requires WithinCap(sourceFrames, rateHz)
    ensures sourceFrames * 16_000 + rateHz <= U64_MAX
    ensures CeilDiv(sourceFrames * 16_000, rateHz) <= 16_000 * 86_400
    ensures sourceFrames * 1_000 + rateHz <= U64_MAX
    ensures CeilDiv(sourceFrames * 1_000, rateHz) <= 1_000 * 86_400
  {
    CeilLeast(sourceFrames * 16_000, rateHz, 16_000 * 86_400);
    CeilLeast(sourceFrames * 1_000, rateHz, 1_000 * 86_400);
  }

  /** The frame count is rejected exactly beyond the cap: inside it no ratio overflows and the output cap is dead. */
  lemma FrameCountAcceptsExactlyTheCap(sourceFrames: u64, rateHz: u32)
    ensures ResampledFrameCount(sourceFrames, rateHz).Ok? <==> WithinCap(sourceFrames, rateHz)
    ensures WithinCap(sourceFrames, rateHz) ==>
              ResampledFrameCount(sourceFrames, rateHz).value
              == CeilDiv(sourceFrames * 16_000, rateHz) <= 16_000 * 86_400
    ensures rateHz > 0 && !WithinCap(sourceFrames, rateHz) ==>
              ResampledFrameCount(sourceFrames, rateHz) == Err(ResourceLimitExceeded)
  {
    if WithinCap(sourceFrames, rateHz) {
      CapBounds(sourceFrames, rateHz);
      CeilRatioIsCeiling(sourceFrames, WORK_SAMPLE_RATE_HZ, rateHz);
    }
  }

  lemma DurationNeverOverflows(sourceFrames: u64, rateHz: u32)
    requires WithinCap(sourceFrames, rateHz)
    ensures CheckedCeilRatio(sourceFrames, 1_000, rateHz) == Ok(CeilDiv(sourceFrames * 1_000, rateHz))
    ensures CeilDiv(sourceFrames * 1_000, rateHz) <= 1_000 * 86_400
  {
    CapBounds(sourceFrames, rateHz);
    CeilRatioIsCeiling(sourceFrames, 1_000, rateHz);
  }

  // Published millisecond ranges

  /** Sixteen work samples make one millisecond: the source's duration is the working length rounded up. */
  lemma DurationIsWorkLengthInMillis(sourceFrames: nat, rateHz: nat)
    requires rateHz > 0
    ensures CeilDiv(CeilDiv(sourceFrames * 16_000, rateHz), 16) == CeilDiv(sourceFrames * 1_000, rateHz)
  {
    NestedCeil(sourceFrames * 16_000, rateHz, 16);
    ScaledCeil(sourceFrames * 1_000, rateHz, 16);
  }

  lemma CeilMonotone(a: nat, b: nat, d: nat)
    requires d > 0 && a <= b
    ensures CeilDiv(a, d) <= CeilDiv(b, d)
  {
    CeilLeast(b, d, CeilDiv(b, d));
    CeilLeast(a, d, CeilDiv(b, d));
  }

  /**
   * Every non-empty evidence range inside the working samples publishes as [start/16, ceil(end/16)):
   * the same range SampleRangeToMillis gives at 16 kHz, and one NewTranscriptTimeRange accepts
   * against the duration computed from the source frames.
   */
  lemma PublishedRangeFits(evidence: SampleRange, rateHz: u32, sourceFrames: u64)
    requires WithinCap(sourceFrames, rateHz)
    requires evidence.start < evidence.end <= CeilDiv(sourceFrames * 16_000, rateHz)
    ensures var startMs, endMs := evidence.start / 16, CeilDiv(evidence.end, 16);
            var durationMs := CeilDiv(sourceFrames * 1_000, rateHz);
            && 0 <= startMs < endMs <= durationMs <= I64_MAX
            && SampleRangeToMillis(evidence, WORK_SAMPLE_RATE_HZ, CeilDiv(sourceFrames * 16_000, rateHz))
               == Ok(MillisecondRange(startMs, endMs))
            && NewTranscriptTimeRange(startMs, endMs, durationMs) == Ok(TranscriptTimeRange(startMs, endMs, durationMs))
  {
    CapBounds(sourceFrames, rateHz);
    CeilMonotone(evidence.end, CeilDiv(sourceFrames * 16_000, rateHz), 16);
    DurationIsWorkLengthInMillis(sourceFrames, rateHz);
    CeilRatioIsCeiling(evidence.end, 1_000, WORK_SAMPLE_RATE_HZ);
    ScaledCeil(evidence.end, 16, 1_000);
    assert evidence.start * 1_000 / 16_000 == evidence.start / 16;
  }

  /** Evidence that covers the whole working audio ends exactly at the duration. */
  lemma WholeAudioPublishesItsDuration(rateHz: u32, sourceFrames: u64)
    requires WithinCap(sourceFrames, rateHz) && sourceFrames > 0
    ensures var n := CeilDiv(sourceFrames * 16_000, rateHz);
            0 < n <= U64_MAX && SampleRangeToMillis(SampleRange(0, n), WORK_SAMPLE_RATE_HZ, n)
            == Ok(MillisecondRange(0, CeilDiv(sourceFrames * 1_000, rateHz)))
  {
    var n := CeilDiv(sourceFrames * 16_000, rateHz);
    CapBounds(sourceFrames, rateHz);
    CeilLeast(sourceFrames * 16_000, rateHz, 0);
    PublishedRangeFits(SampleRange(0, n), rateHz, sourceFrames);
    DurationIsWorkLengthInMillis(sourceFrames, rateHz);
  }

  // Mapping work samples back to source frames

  ghost predicate WorkRange(range: SampleRange, rateHz: u32, sourceFrames: u64) {
    && WithinCap(sourceFrames, rateHz)
    && range.start < range.end <= CeilDiv(sourceFrames * 16_000, rateHz)
  }

  lemma BelowWorkLength(sample: nat, rateHz: u32, sourceFrames: u64)
    requires rateHz > 0
    ensures sample < CeilDiv(sourceFrames * 16_000, rateHz) <==> sample * rateHz < sourceFrames * 16_000
  {
    CeilLeast(sourceFrames * 16_000, rateHz, sample);
  }

  lemma WorkProductsFit(range: SampleRange, rateHz: u32, sourceFrames: u64)
    requires WorkRange(range, rateHz, sourceFrames)
    ensures 0 <= range.start * rateHz < range.end * rateHz
    ensures range.end * rateHz + 15_999 <= U64_MAX
  {
    CapBounds(sourceFrames, rateHz);
    ProductBound(range.end, 16_000 * 86_400, rateHz, U32_MAX);
    ProductGrows(range.start, range.end, rateHz);
  }

  lemma ProductBound(a: nat, maxA: nat, b: nat, maxB: nat)
    requires a <= maxA && b <= maxB
    ensures 0 <= a * b <= maxA * maxB
  {
    assert (maxA - a) * b >= 0;
    assert maxA * (maxB - b) >= 0;
  }

  lemma ProductGrows(a: nat, b: nat, k: nat)
    requires a < b && k > 0
    ensures 0 <= a * k < b * k
  {
    assert (b - a) * k > 0;
  }

  function Lesser(a: nat, b: nat): nat {
    if a < b then a else b
  }

  /** The mapping never fails inside the working length, and rounds outwards, clipped at the source. */
  lemma WorkRangeNeverFails(range: SampleRange, rateHz: u32, sourceFrames: u64)
    requires WorkRange(range, rateHz, sourceFrames)
    ensures 0 <= range.start * rateHz && 0 <= range.end * rateHz
    ensures var r := WorkRangeToOriginalFrames(range, rateHz, sourceFrames);
            && r.Ok?
            && r.value.start == range.start * rateHz / 16_000
            && r.value.end == Lesser(CeilDiv(range.end * rateHz, 16_000), sourceFrames)
            && r.value.start < r.value.end <= sourceFrames
  {
    WorkProductsFit(range, rateHz, sourceFrames);
    CeilRatioIsCeiling(range.end, rateHz, WORK_SAMPLE_RATE_HZ);
    BelowWorkLength(range.start, rateHz, sourceFrames);
    var start := range.start * rateHz / 16_000;
    FloorGreatest(range.start * rateHz, 16_000, sourceFrames);
    CeilLeast(range.end * rateHz, 16_000, start);
    FloorGreatest(range.start * rateHz, 16_000, start);
  }

  /** The whole working audio maps onto exactly the whole source. */
  lemma WholeWorkMapsToWholeSource(rateHz: u32, sourceFrames: u64)
    requires WithinCap(sourceFrames, rateHz) && sourceFrames > 0
    ensures var n := CeilDiv(sourceFrames * 16_000, rateHz);
            0 < n <= U64_MAX
              && WorkRangeToOriginalFrames(SampleRange(0, n), rateHz, sourceFrames) == Ok(SampleRange(0, sourceFrames))
  {
    var n := CeilDiv(sourceFrames * 16_000, rateHz);
    CapBounds(sourceFrames, rateHz);
    BelowWorkLength(0, rateHz, sourceFrames);
    WorkRangeNeverFails(SampleRange(0, n), rateHz, sourceFrames);
    CeilLeast(sourceFrames * 16_000, rateHz, n);
    CeilLeast(n * rateHz, 16_000, sourceFrames - 1);
    assert sourceFrames * 16_000 <= n * rateHz;
  }

  /** Adjacent work ranges leave no gap in the source and share at most one frame. */
  lemma AdjacentRangesShareAtMostOneFrame(left: SampleRange, right: SampleRange, rateHz: u32, sourceFrames: u64)
    requires WorkRange(left, rateHz, sourceFrames) && WorkRange(right, rateHz, sourceFrames)
    requires left.end == right.start
    ensures var l := WorkRangeToOriginalFrames(left, rateHz, sourceFrames);
            var r := WorkRangeToOriginalFrames(right, rateHz, sourceFrames);
            l.Ok? && r.Ok? && r.value.start <= l.value.end <= r.value.start + 1
  {
    WorkRangeNeverFails(left, rateHz, sourceFrames);
    WorkRangeNeverFails(right, rateHz, sourceFrames);
  }

  /** Rounding the first frame back down reaches the start of the range or before it. */
  lemma RoundTripStart(range: SampleRange, rateHz: u32, sourceFrames: u64)
    requires WorkRange(range, rateHz, sourceFrames) && WorkRangeToOriginalFrames(range, rateHz, sourceFrames).Ok?
    ensures WorkRangeToOriginalFrames(range, rateHz, sourceFrames).value.start * 16_000 / rateHz <= range.start
  {
    var start := WorkRangeToOriginalFrames(range, rateHz, sourceFrames).value.start;
    FloorGreatest(start * 16_000, rateHz, range.start + 1);
    assert start * 16_000 <= range.start * rateHz;
    assert (range.start + 1) * rateHz > range.start * rateHz;
  }

  /** Rounding the last frame back up reaches the end of the range or beyond it, within the working audio. */
  lemma RoundTripEnd(range: SampleRange, rateHz: u32, sourceFrames: u64)
    requires WorkRange(range, rateHz, sourceFrames) && WorkRangeToOriginalFrames(range, rateHz, sourceFrames).Ok?
    ensures var end := WorkRangeToOriginalFrames(range, rateHz, sourceFrames).value.end;
            range.end <= CeilDiv(end * 16_000, rateHz) <= CeilDiv(sourceFrames * 16_000, rateHz)
  {
    var end := WorkRangeToOriginalFrames(range, rateHz, sourceFrames).value.end;
    CeilMonotone(end * 16_000, sourceFrames * 16_000, rateHz);
    if end < sourceFrames {
      CeilLeast(range.end * rateHz, 16_000, end);
      CeilLeast(end * 16_000, rateHz, range.end - 1);
      assert (range.end - 1) * rateHz < range.end * rateHz;
    }
  }

  /** Mapping the frames back to work samples, rounding outwards again, covers the original range. */
  lemma RoundTripCovers(range: SampleRange, rateHz: u32, sourceFrames: u64)
    requires WorkRange(range, rateHz, sourceFrames)
    ensures var r := WorkRangeToOriginalFrames(range, rateHz, sourceFrames);
            && r.Ok?
            && r.value.start * 16_000 / rateHz <= range.start
            && range.end <= CeilDiv(r.value.end * 16_000, rateHz) <= CeilDiv(sourceFrames * 16_000, rateHz)
  {
    WorkRangeNeverFails(range, rateHz, sourceFrames);
    RoundTripStart(range, rateHz, sourceFrames);
    RoundTripEnd(range, rateHz, sourceFrames);
  }

  /** A sequence of non-empty ranges that runs from `from` to `to` without gap or overlap. */
  ghost predicate Tiles(ranges: seq<SampleRange>, from: nat, to: nat) {
    && |ranges| > 0
    && ranges[0].start == from
    && ranges[|ranges| - 1].end == to
    && (forall i :: 0 <= i < |ranges| ==> ranges[i].start < ranges[i].end)
    && (forall i :: 0 < i < |ranges| ==> ranges[i - 1].end == ranges[i].start)
  }

  /** Work ranges that tile the working audio map to frame ranges that miss no source frame. */
  lemma {:induction false} TilingMissesNoFrame(ranges: seq<SampleRange>, rateHz: u32, sourceFrames: u64, frame: nat)
    requires WithinCap(sourceFrames, rateHz) && frame < sourceFrames
    requires Tiles(ranges, 0, CeilDiv(sourceFrames * 16_000, rateHz))
    ensures exists i ::
              && 0 <= i < |ranges|
              && var r := WorkRangeToOriginalFrames(ranges[i], rateHz, sourceFrames);
                 r.Ok? && r.value.start <= frame < r.value.end
  {
    var n := CeilDiv(sourceFrames * 16_000, rateHz);
    TileEndsGrow(ranges, 0, n, |ranges| - 1);
    CapBounds(sourceFrames, rateHz);
    var last := ranges[|ranges| - 1];
    WorkRangeNeverFails(last, rateHz, sourceFrames);
    WholeWorkMapsToWholeSource(rateHz, sourceFrames);
    WorkRangeNeverFails(SampleRange(0, n), rateHz, sourceFrames);
    FirstTileBeyond(ranges, |ranges| - 1, rateHz, sourceFrames, frame);
  }

  lemma {:induction false} TileEndsGrow(ranges: seq<SampleRange>, from: nat, to: nat, k: nat)
    requires Tiles(ranges, from, to) && k < |ranges|
    ensures forall i :: k <= i < |ranges| ==> ranges[k].end <= ranges[i].end <= to
    ensures ranges[k].start >= from
  {
    TileEndFrom(ranges, from, to, k);
    TileStartFrom(ranges, from, to, k);
  }

  lemma {:induction false} TileEndFrom(ranges: seq<SampleRange>, from: nat, to: nat, k: nat)
    requires Tiles(ranges, from, to) && k < |ranges|
    ensures forall i :: k <= i < |ranges| ==> ranges[k].end <= ranges[i].end <= to
    decreases |ranges| - k
  {
    if k + 1 < |ranges| {
      TileEndFrom(ranges, from, to, k + 1);
      assert ranges[k + 1 - 1].end == ranges[k + 1].start;
    }
  }

  lemma {:induction false} TileStartFrom(ranges: seq<SampleRange>, from: nat, to: nat, k: nat)
    requires Tiles(ranges, from, to) && k < |ranges|
    ensures ranges[k].start >= from
  {
    if k > 0 {
      TileStartFrom(ranges, from, to, k - 1);
      assert ranges[k - 1].end == ranges[k].start;
    }
  }

  /** Walks back from tile k, whose image ends beyond the frame, to the tile whose image holds it. */
  lemma {:induction false} FirstTileBeyond(ranges: seq<SampleRange>, k: nat, rateHz: u32, sourceFrames: u64, frame: nat)
    requires WithinCap(sourceFrames, rateHz) && frame < sourceFrames
    requires Tiles(ranges, 0, CeilDiv(sourceFrames * 16_000, rateHz)) && k < |ranges|
    requires WorkRangeToOriginalFrames(ranges[k], rateHz, sourceFrames).Ok?
    requires frame < WorkRangeToOriginalFrames(ranges[k], rateHz, sourceFrames).value.end
    ensures exists i ::
              && 0 <= i < |ranges|
              && var r := WorkRangeToOriginalFrames(ranges[i], rateHz, sourceFrames);
                 r.Ok? && r.value.start <= frame < r.value.end
  {
    var n := CeilDiv(sourceFrames * 16_000, rateHz);
    TileEndsGrow(ranges, 0, n, k);
    WorkRangeNeverFails(ranges[k], rateHz, sourceFrames);
    if frame < WorkRangeToOriginalFrames(ranges[k], rateHz, sourceFrames).value.start {
      assert k > 0;
      assert ranges[k - 1].end == ranges[k].start;
      TileEndsGrow(ranges, 0, n, k - 1);
      AdjacentRangesShareAtMostOneFrame(ranges[k - 1], ranges[k], rateHz, sourceFrames);
      FirstTileBeyond(ranges, k - 1, rateHz, sourceFrames, frame);
    }
  }
}
