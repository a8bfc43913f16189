/** asr/vad.rs: cutting speech cores into provider windows at quiet boundaries. */
module VoiceWindows {
  import opened MachineInts
  import opened AudioRanges

  const PADDING: u64 := 3_200
  const MAX_PROVIDER_WINDOW: u64 := 400_000
  const ENERGY_FRAME: u64 := 320
  const ENERGY_HALF_FRAME: u64 := 160
  const SPLIT_SEARCH_RADIUS: u64 := 32_000

  /** Every window but the last advances by at least this much. */
  const MIN_ADVANCE: nat := 361_600

  /** A vector of 4-byte floats holds at most isize::MAX bytes. */
  const MAX_FLOAT_VECTOR: nat := I64_MAX / 4

  type FloatVec = s: seq<real> | |s| <= MAX_FLOAT_VECTOR

  datatype ProviderWindow = ProviderWindow(core: SampleRange, inference: SampleRange)

  datatype EvidenceUtterance = EvidenceUtterance(evidence: SampleRange, windows: seq<ProviderWindow>)

  datatype Scored = Scored(position: u64, energy: real)

  function CheckedSubOrZero(value: u64, amount: u64): u64 {
    if value >= amount then value - amount else 0
  }

  // Choosing a boundary

  /** Lower energy wins, then the earlier position. */
  predicate Quieter(a: Scored, b: Scored) {
    a.energy < b.energy || (a.energy == b.energy && a.position <= b.position)
  }

  function Quietest(candidates: seq<Scored>): (best: Scored)
    requires candidates != []
    ensures best in candidates
    ensures forall c :: c in candidates ==> Quieter(best, c)
  {
    if |candidates| == 1 then candidates[0]
    else
      var last := candidates[|candidates| - 1];
      var best := Quietest(candidates[..|candidates| - 1]);
      assert candidates == candidates[..|candidates| - 1] + [last];
      if Quieter(best, last) then best else last
  }

  function SelectBoundary(latestSafe: u64, candidates: seq<Scored>): u64 {
    if candidates == [] then latestSafe else Quietest(candidates).position
  }

  function SumOfSquares(frame: seq<real>): real {
    if frame == [] then 0.0
    else SumOfSquares(frame[..|frame| - 1]) + frame[|frame| - 1] * frame[|frame| - 1]
  }

  function Energy(samples: FloatVec, position: u64): real
    requires ENERGY_HALF_FRAME <= position && position + ENERGY_HALF_FRAME <= |samples|
  {
    SumOfSquares(samples[position - ENERGY_HALF_FRAME..position + ENERGY_HALF_FRAME]) / (ENERGY_FRAME as real)
  }

  lemma {:induction false} SquaresOfSilence(frame: seq<real>)
    requires forall i :: 0 <= i < |frame| ==> frame[i] == 0.0
    ensures SumOfSquares(frame) == 0.0
  {
    if frame != [] {
      SquaresOfSilence(frame[..|frame| - 1]);
    }
  }

  lemma {:induction false} SquaresOfUpdate(frame: seq<real>, i: nat, y: real)
    requires i < |frame|
    ensures SumOfSquares(frame[i := y]) == SumOfSquares(frame) - frame[i] * frame[i] + y * y
  {
    var n := |frame| - 1;
    if i == n {
      assert frame[i := y][..n] == frame[..n];
    } else {
      SquaresOfUpdate(frame[..n], i, y);
      assert frame[i := y][..n] == frame[..n][i := y];
    }
  }

  /** Silence around a position has no energy. */
  lemma SilenceHasNoEnergy(samples: FloatVec, position: u64)
    requires ENERGY_HALF_FRAME <= position && position + ENERGY_HALF_FRAME <= |samples|
    requires forall i :: position - 160 <= i < position + 160 ==> samples[i] == 0.0
    ensures Energy(samples, position) == 0.0
  {
    SquaresOfSilence(samples[position - 160..position + 160]);
  }

  /** A sample counts with its square over 320, if it is within 160 of the position, and otherwise not at all. */
  lemma EnergyOfUpdate(samples: FloatVec, position: u64, i: nat, y: real)
    requires ENERGY_HALF_FRAME <= position && position + ENERGY_HALF_FRAME <= |samples| && i < |samples|
    ensures Energy(samples[i := y], position) == Energy(samples, position)
        + if position - 160 <= i < position + 160 then (y * y - samples[i] * samples[i]) / 320.0 else 0.0
  {
    var from, to := position - 160, position + 160;
    var frame := samples[from..to];
    if from <= i < to {
      SquaresOfUpdate(frame, i - from, y);
      assert samples[i := y][from..to] == frame[i - from := y];
    } else {
      assert samples[i := y][from..to] == frame;
    }
  }

  /** A grid point after the cursor, near enough to the latest safe end, whose energy frame lies in the core. */
  predicate Admissible(position: u64, core: SampleRange, cursor: u64, latestSafe: u64) {
    && position % ENERGY_FRAME == 0
    && cursor < position <= latestSafe
    && latestSafe <= position + SPLIT_SEARCH_RADIUS
    && core.start + ENERGY_HALF_FRAME <= position
    && position + ENERGY_HALF_FRAME <= core.end
  }

  /** The boundary is the quietest admissible point, or the latest safe end when there is none. */
  ghost predicate BestBoundary(samples: FloatVec, core: SampleRange, cursor: u64, latestSafe: u64, boundary: u64)
    requires core.end <= |samples|
  {
    if exists p: u64 :: Admissible(p, core, cursor, latestSafe) then
      && Admissible(boundary, core, cursor, latestSafe)
      && forall p: u64 :: Admissible(p, core, cursor, latestSafe) ==>
           && Energy(samples, boundary) <= Energy(samples, p)
           && (Energy(samples, boundary) == Energy(samples, p) ==> boundary <= p)
    else
      boundary == latestSafe
  }

  /** What the best boundary is, in samples: there is one, and it is on the grid unless nothing there will do. */
  lemma BestBoundaryMeans(samples: FloatVec, core: SampleRange, cursor: u64, latestSafe: u64, boundary: u64, p: u64)
    requires core.end <= |samples| && BestBoundary(samples, core, cursor, latestSafe, boundary)
    ensures p % 320 == 0 && cursor < p <= latestSafe <= p + 32_000 && core.start + 160 <= p && p + 160 <= core.end ==>
              && core.start + 160 <= boundary && boundary + 160 <= core.end
              && boundary % 320 == 0 && cursor < boundary <= latestSafe <= boundary + 32_000
              && Energy(samples, boundary) <= Energy(samples, p)
              && (Energy(samples, boundary) == Energy(samples, p) ==> boundary <= p)
    ensures boundary != latestSafe ==>
              && boundary % 320 == 0 && cursor < boundary < latestSafe <= boundary + 32_000
              && core.start + 160 <= boundary && boundary + 160 <= core.end
  {
    assert Admissible(p, core, cursor, latestSafe)
        <==> p % 320 == 0 && cursor < p <= latestSafe <= p + 32_000 && core.start + 160 <= p && p + 160 <= core.end;
  }

  lemma NextGridPoint(a: nat, b: nat)
    requires a % 320 == 0 && b % 320 == 0 && a < b
    ensures a + 320 <= b
  {
    var i, j := a / 320, b / 320;
    assert a == 320 * i && b == 320 * j;
  }

  lemma FirstGridPoint(start: nat, b: nat)
    requires start % 320 != 0 && b % 320 == 0 && start <= b
    ensures (start + 320 - start % 320) % 320 == 0
    ensures start + 320 - start % 320 <= b
  {
    var i, j := start / 320, b / 320;
    assert start == 320 * i + start % 320 && b == 320 * j;
  }

  ghost predicate GridBelow(candidates: seq<u64>, start: u64, end: u64, bound: nat) {
    forall p: u64 :: p in candidates <==> start <= p <= end && p % ENERGY_FRAME == 0 && p < bound
  }

  lemma GridGrows(candidates: seq<u64>, start: u64, end: u64, candidate: u64)
    requires GridBelow(candidates, start, end, candidate)
    requires start <= candidate <= end && candidate % ENERGY_FRAME == 0
    ensures GridBelow(candidates + [candidate], start, end, candidate + ENERGY_FRAME)
  {
    forall p: u64 | candidate < p < candidate + ENERGY_FRAME
      ensures p % ENERGY_FRAME != 0
    {
      if p % ENERGY_FRAME == 0 {
        NextGridPoint(candidate, p);
      }
    }
  }

  /** The first multiple of ENERGY_FRAME at or after start, if a u64 holds it. */
  method FirstOnGrid(start: u64) returns (first: Option<u64>)
    ensures first.Some? <==> start % ENERGY_FRAME == 0 || start + ENERGY_FRAME - start % ENERGY_FRAME <= U64_MAX
    ensures first.Some? ==> first.value % ENERGY_FRAME == 0 && start <= first.value
    ensures first.Some? ==> forall p: u64 :: start <= p && p % ENERGY_FRAME == 0 ==> first.value <= p
  {
    var remainder := start % ENERGY_FRAME;
    if remainder == 0 {
      return Some(start);
    }
    FirstGridPoint(start, (start / 320 + 1) * 320);
    forall p: u64 | start <= p && p % ENERGY_FRAME == 0
      ensures start + ENERGY_FRAME - remainder <= p
    {
      FirstGridPoint(start, p);
    }
    return CheckedAdd(start, ENERGY_FRAME - remainder);
  }

  /** The multiples of ENERGY_FRAME in [start, end]. */
  method AbsoluteGridCandidates(start: u64, end: u64) returns (r: Result<seq<u64>, AudioError>)
    ensures r.Ok? <==>
              start > end || start % ENERGY_FRAME == 0 || start + ENERGY_FRAME - start % ENERGY_FRAME <= U64_MAX
    ensures r.Err? ==> r.error == ArithmeticOverflow
    ensures r.Ok? ==> forall p: u64 :: p in r.value <==> start <= p <= end && p % ENERGY_FRAME == 0
  {
    if start > end {
      return Ok([]);
    }
    var first := FirstOnGrid(start);
    if first.None? {
      return Err(ArithmeticOverflow);
    }
    var candidates: seq<u64> := [];
    var candidate := first.value;
    while candidate <= end
      invariant candidate % ENERGY_FRAME == 0 && start <= candidate
      invariant GridBelow(candidates, start, end, candidate)
      decreases U64_MAX - candidate
    {
      GridGrows(candidates, start, end, candidate);
      candidates := candidates + [candidate];
      var next := CheckedAdd(candidate, ENERGY_FRAME);
      if next.None? {
        break;
      }
      candidate := next.value;
    }
    return Ok(candidates);
  }

  method SelectSplitBoundary(samples: FloatVec, core: SampleRange, cursor: u64, latestSafe: u64)
    returns (r: Result<u64, AudioError>)
    ensures r.Ok? <==> core.start <= cursor < latestSafe < core.end <= |samples|
    ensures r.Err? ==> r.error == InvalidRange
    ensures r.Ok? ==> BestBoundary(samples, core, cursor, latestSafe, r.value)
  {
    if core.start > cursor || cursor >= latestSafe || latestSafe >= core.end || core.end > |samples| {
      return Err(InvalidRange);
    }
    var searchStart := CheckedSubOrZero(latestSafe, SPLIT_SEARCH_RADIUS);
    var searchEnd := latestSafe + SPLIT_SEARCH_RADIUS;
    var grid := AbsoluteGridCandidates(searchStart, latestSafe);
    assert grid.Ok?;
    var candidates := grid.value;
    var scored: seq<Scored> := [];
    var next := 0;
    while next < |candidates|
      invariant 0 <= next <= |candidates|
      invariant forall s :: s in scored ==>
          Admissible(s.position, core, cursor, latestSafe) && s.energy == Energy(samples, s.position)
      invariant forall k :: 0 <= k < next && Admissible(candidates[k], core, cursor, latestSafe) ==>
                  Scored(candidates[k], Energy(samples, candidates[k])) in scored
    {
      var candidate := candidates[next];
      assert candidate in candidates;
      next := next + 1;
      if candidate < ENERGY_HALF_FRAME {
        continue;
      }
      var frameStart, frameEnd := candidate - ENERGY_HALF_FRAME, candidate + ENERGY_HALF_FRAME;
      if candidate % ENERGY_FRAME != 0
         || candidate <= cursor
         || candidate > latestSafe
         || candidate < core.start
         || candidate >= core.end
         || candidate < searchStart
         || candidate > searchEnd
         || frameStart < core.start
         || frameEnd > core.end
         || frameEnd > |samples|
      {
        continue;
      }
      scored := scored + [Scored(candidate, Energy(samples, candidate))];
    }
    forall p: u64 | Admissible(p, core, cursor, latestSafe)
      ensures Scored(p, Energy(samples, p)) in scored
    {
      assert p in candidates;
    }
    if scored != [] {
      assert Admissible(Quietest(scored).position, core, cursor, latestSafe);
    }
    return Ok(SelectBoundary(latestSafe, scored));
  }

  // Cutting a core

  function PaddedStart(cursor: u64): u64 {
    CheckedSubOrZero(cursor, PADDING)
  }

  function PaddedEnd(end: u64, total: nat): nat {
    Lesser(end + PADDING, total)
  }

  /** The latest boundary whose padded inference range still fits a provider window. */
  function LatestSafe(cursor: u64): nat {
    PaddedStart(cursor) + MAX_PROVIDER_WINDOW - PADDING
  }

  /** What a window must be, given its core range and the speech core it is cut from. */
  ghost predicate GoodWindow(w: ProviderWindow, samples: FloatVec, core: SampleRange) {
    && core.start <= w.core.start < w.core.end <= core.end <= |samples|
    && w.inference.start == PaddedStart(w.core.start)
    && w.inference.end == PaddedEnd(w.core.end, |samples|)
    && w.inference.end - w.inference.start <= MAX_PROVIDER_WINDOW
    && LatestSafe(w.core.start) <= U64_MAX
    && (w.core.end < core.end ==>
          && PaddedEnd(core.end, |samples|) - w.inference.start > MAX_PROVIDER_WINDOW
          && w.core.end - w.core.start >= MIN_ADVANCE
          && BestBoundary(samples, core, w.core.start, LatestSafe(w.core.start), w.core.end))
  }

  function Cores(windows: seq<ProviderWindow>): (cores: seq<SampleRange>)
    ensures |cores| == |windows|
    ensures forall i :: 0 <= i < |windows| ==> cores[i] == windows[i].core
  {
    seq(|windows|, i requires 0 <= i < |windows| => windows[i].core)
  }

  /**
   * The windows tile the core; each fits the provider with its padding clipped at the audio's ends; a
   * window ends early only when the rest did not fit, and then at the quietest admissible boundary.
   */
  ghost predicate PartitionOf(windows: seq<ProviderWindow>, samples: FloatVec, core: SampleRange) {
    && Tiles(Cores(windows), core.start, core.end)
    && (forall w :: w in windows ==> GoodWindow(w, samples, core))
  }

  lemma SplitAdvances(samples: FloatVec, core: SampleRange, cursor: u64, boundary: u64)
    requires core.start <= cursor < core.end <= |samples|
    requires PaddedEnd(core.end, |samples|) - PaddedStart(cursor) > MAX_PROVIDER_WINDOW
    requires LatestSafe(cursor) <= U64_MAX
    requires BestBoundary(samples, core, cursor, LatestSafe(cursor), boundary)
    ensures cursor + MIN_ADVANCE <= boundary <= LatestSafe(cursor) < core.end
  {
  }

  lemma LastWindowGood(samples: FloatVec, core: SampleRange, cursor: u64)
    requires core.start <= cursor < core.end <= |samples|
    requires PaddedEnd(core.end, |samples|) - PaddedStart(cursor) <= MAX_PROVIDER_WINDOW
    ensures var inference := SampleRange(PaddedStart(cursor), PaddedEnd(core.end, |samples|));
            GoodWindow(ProviderWindow(SampleRange(cursor, core.end), inference), samples, core)
  {
  }

  lemma SplitWindowGood(samples: FloatVec, core: SampleRange, cursor: u64, boundary: u64)
    requires core.start <= cursor < core.end <= |samples|
    requires PaddedEnd(core.end, |samples|) - PaddedStart(cursor) > MAX_PROVIDER_WINDOW
    requires LatestSafe(cursor) <= U64_MAX
    requires BestBoundary(samples, core, cursor, LatestSafe(cursor), boundary)
    ensures cursor + MIN_ADVANCE <= boundary < core.end
    ensures var inference := SampleRange(PaddedStart(cursor), boundary + PADDING);
            GoodWindow(ProviderWindow(SampleRange(cursor, boundary), inference), samples, core)
  {
    SplitAdvances(samples, core, cursor, boundary);
  }

  method PartitionCore(samples: FloatVec, core: SampleRange) returns (r: Result<seq<ProviderWindow>, AudioError>)
    ensures r.Ok? <==> core.start < core.end <= |samples|
    ensures r.Err? ==> r.error == InvalidRange
    ensures r.Ok? ==> PartitionOf(r.value, samples, core)
    ensures r.Ok? ==> 0 < |r.value| <= (core.end - core.start - 1) / MIN_ADVANCE + 1
  {
    if core.start >= core.end || core.end > |samples| {
      return Err(InvalidRange);
    }
    var windows: seq<ProviderWindow> := [];
    var cursor := core.start;
    while cursor < core.end
      invariant core.start <= cursor <= core.end
      invariant windows == [] ==> cursor == core.start
      invariant windows != [] ==> Tiles(Cores(windows), core.start, cursor)
      invariant forall w :: w in windows ==> GoodWindow(w, samples, core)
    {
      var inferenceStart := CheckedSubOrZero(cursor, PADDING);
      var paddedCoreEnd: u64 := PaddedEnd(core.end, |samples|);
      if paddedCoreEnd - inferenceStart <= MAX_PROVIDER_WINDOW {
        var last := ProviderWindow(SampleRange(cursor, core.end), SampleRange(inferenceStart, paddedCoreEnd));
        LastWindowGood(samples, core, cursor);
        AppendTile(windows, last, core.start, cursor);
        windows := windows + [last];
        cursor := core.end;
        break;
      }
      var latestSafe: u64 := LatestSafe(cursor);
      var split := SelectSplitBoundary(samples, core, cursor, latestSafe);
      assert split.Ok?;
      var boundary := split.value;
      SplitWindowGood(samples, core, cursor, boundary);
      var window := ProviderWindow(SampleRange(cursor, boundary), SampleRange(inferenceStart, boundary + PADDING));
      AppendTile(windows, window, core.start, cursor);
      windows := windows + [window];
      cursor := boundary;
    }
    WindowCountBounded(windows, samples, core);
    return Ok(windows);
  }

  lemma AppendTile(windows: seq<ProviderWindow>, w: ProviderWindow, from: nat, cursor: u64)
    requires windows == [] ==> cursor == from
    requires windows != [] ==> Tiles(Cores(windows), from, cursor)
    requires w.core.start == cursor < w.core.end
    ensures Tiles(Cores(windows + [w]), from, w.core.end)
  {
    var before, after := Cores(windows), Cores(windows + [w]);
    assert after == before + [w.core];
  }

  /** Cores the detector may return: non-empty, inside the audio, in order and disjoint. */
  ghost predicate OrderedCores(cores: seq<SampleRange>, total: nat) {
    && (forall i :: 0 <= i < |cores| ==> cores[i].start < cores[i].end <= total)
    && (forall i :: 0 < i < |cores| ==> cores[i - 1].end <= cores[i].start)
  }

  method ValidateDetectorCores(samples: FloatVec, cores: seq<SampleRange>) returns (r: Result<(), AudioError>)
    ensures r.Ok? <==> OrderedCores(cores, |samples|)
    ensures r.Err? ==> r.error == InvalidDetectorCores
  {
    var previous: Option<SampleRange> := None;
    for next := 0 to |cores|
      invariant previous == if next == 0 then None else Some(cores[next - 1])
      invariant OrderedCores(cores[..next], |samples|)
    {
      var core := cores[next];
      if core.start >= core.end || core.end > |samples| {
        return Err(InvalidDetectorCores);
      }
      if previous.Some? && (core.start <= previous.value.start || core.start < previous.value.end) {
        assert cores[..next][next - 1] == cores[next - 1];
        return Err(InvalidDetectorCores);
      }
      previous := Some(core);
    }
    assert cores[..|cores|] == cores;
    return Ok(());
  }

  /** Utterances with ordered disjoint evidence, each with windows that partition its evidence. */
  ghost predicate Partitioned(utterances: seq<EvidenceUtterance>, samples: FloatVec) {
    && (forall i :: 0 <= i < |utterances| ==>
          && utterances[i].evidence.start < utterances[i].evidence.end <= |samples|
          && PartitionOf(utterances[i].windows, samples, utterances[i].evidence))
    && (forall i :: 0 < i < |utterances| ==> utterances[i - 1].evidence.end <= utterances[i].evidence.start)
  }

  method PartitionDetectorCores(samples: FloatVec, cores: seq<SampleRange>)
    returns (r: Result<seq<EvidenceUtterance>, AudioError>)
    ensures r.Ok? <==> OrderedCores(cores, |samples|)
    ensures r.Err? ==> r.error == InvalidDetectorCores
    ensures r.Ok? ==> && |r.value| == |cores| && Partitioned(r.value, samples)
                      && forall i :: 0 <= i < |cores| ==> r.value[i].evidence == cores[i]
  {
    var _ :- ValidateDetectorCores(samples, cores);
    var utterances: seq<EvidenceUtterance> := [];
    for next := 0 to |cores|
      invariant |utterances| == next
      invariant forall i :: 0 <= i < next ==> utterances[i].evidence == cores[i]
      invariant forall i :: 0 <= i < next ==> PartitionOf(utterances[i].windows, samples, cores[i])
    {
      var windows := PartitionCore(samples, cores[next]);
      assert windows.Ok?;
      utterances := utterances + [EvidenceUtterance(cores[next], windows.value)];
    }
    return Ok(utterances);
  }

  method PartitionWithoutVad(samples: FloatVec) returns (r: Result<EvidenceUtterance, AudioError>)
    ensures r.Ok? <==> samples != []
    ensures r.Err? ==> r.error == InvalidRange
    ensures r.Ok? ==> r.value.evidence == SampleRange(0, |samples|) && Partitioned([r.value], samples)
  {
    var evidence :- NewSampleRange(0, |samples|);
    var windows := PartitionCore(samples, evidence);
    assert windows.Ok?;
    return Ok(EvidenceUtterance(evidence, windows.value));
  }

  /** Every window but the last advances by at least 361600 samples. */
  lemma WindowsStartApart(windows: seq<ProviderWindow>, samples: FloatVec, core: SampleRange, i: nat)
    requires PartitionOf(windows, samples, core) && i < |windows|
    ensures core.start + i * MIN_ADVANCE <= windows[i].core.start < core.end
  {
    var cores := Cores(windows);
    assert GoodWindow(windows[0], samples, core);
    for k := 0 to i
      invariant core.start + k * MIN_ADVANCE <= windows[k].core.start < core.end
    {
      TileEndsGrow(cores, core.start, core.end, k);
      assert GoodWindow(windows[k], samples, core);
      assert cores[k + 1 - 1].end == cores[k + 1].start < core.end;
    }
  }

  /** So a core of n samples needs at most (n - 1) / 361600 + 1 windows. */
  lemma WindowCountBounded(windows: seq<ProviderWindow>, samples: FloatVec, core: SampleRange)
    requires PartitionOf(windows, samples, core)
    ensures 0 < |windows| <= (core.end - core.start - 1) / MIN_ADVANCE + 1
  {
    WindowsStartApart(windows, samples, core, |windows| - 1);
  }

  /** Each sample of the core lies in the core range of exactly one window. */
  lemma {:induction false} EachSampleInOneWindow(
      windows: seq<ProviderWindow>, samples: FloatVec, core: SampleRange, sample: nat)
    requires PartitionOf(windows, samples, core)
    requires core.start <= sample < core.end
    ensures exists i :: 0 <= i < |windows| && windows[i].core.start <= sample < windows[i].core.end
    ensures forall i, j ::
            && 0 <= i < |windows| && 0 <= j < |windows|
            && windows[i].core.start <= sample < windows[i].core.end
            && windows[j].core.start <= sample < windows[j].core.end
            ==> i == j
  {
    var cores := Cores(windows);
    var i := 0;
    while windows[i].core.end <= sample
      invariant 0 <= i < |windows| && cores[i].start <= sample
      decreases |windows| - i
    {
      TileEndsGrow(cores, core.start, core.end, i);
      assert i + 1 < |windows| && cores[i + 1 - 1].end == cores[i + 1].start;
      i := i + 1;
    }
    assert windows[i].core.start <= sample < windows[i].core.end;
    forall a, b | 0 <= a < b < |windows|
      ensures windows[a].core.end <= windows[b].core.start
    {
      TileEndsGrow(cores, core.start, core.end, a);
      assert cores[b - 1].end == cores[b].start;
    }
  }
}
