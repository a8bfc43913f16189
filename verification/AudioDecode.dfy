/** The decode loop of asr/audio.rs: the resource budget, the packet loop, the downmix and the resample check. */
module AudioDecode {
  import opened MachineInts
  import opened AudioRanges

  /** A decoded sample: a real number, or one of the non-finite floats the downmix replaces by silence. */
  datatype Sample = NonFinite | Finite(value: real)

  /** What one turn of the packet loop sees: a reader error, a packet of another track, or a decoder outcome. */
  datatype Packet =
    | ReadFailed
    | OtherTrack
    | DecodeFailed
    | Decoded(rate: u32, channels: usize, frames: usize, samples: seq<Sample>)

  datatype Format = Format(rate: u32, channels: usize)

  datatype DecodedTrack = DecodedTrack(format: Format, sourceFrames: u64, interleaved: seq<Sample>)

  datatype WorkingAudio = WorkingAudio(samples: seq<real>, format: Format, sourceFrames: u64, durationMs: u64)

  function CheckedInterleavedSamples(frames: u64, channels: usize): Result<usize, AudioError> {
    match CheckedMul(frames, channels)
    case None => Err(ResourceLimitExceeded)
    case Some(samples) => Ok(samples)
  }

  // The budget

  class DecodeResourceBudget {
    const channels: usize
    const maxSourceFrames: u64
    const maxInterleavedSamples: usize
    var sourceFrames: u64
    var interleavedSamples: usize

    constructor (channels: usize, maxSourceFrames: u64, maxInterleavedSamples: usize)
      ensures this.channels == channels && this.maxSourceFrames == maxSourceFrames
      ensures this.maxInterleavedSamples == maxInterleavedSamples
      ensures sourceFrames == interleavedSamples == 0
    {
      this.channels := channels;
      this.maxSourceFrames := maxSourceFrames;
      this.maxInterleavedSamples := maxInterleavedSamples;
      sourceFrames := 0;
      interleavedSamples := 0;
    }

    static method New(sampleRateHz: u32, channels: usize) returns (r: Result<DecodeResourceBudget, AudioError>)
      ensures r.Ok? <==> sampleRateHz > 0 && channels > 0 && BudgetExists(Format(sampleRateHz, channels))
      ensures r.Ok? ==> fresh(r.value) && r.value.Valid() && r.value.channels == channels
      ensures r.Ok? ==> r.value.maxSourceFrames == FrameCap(sampleRateHz) && r.value.sourceFrames == 0
      ensures r.Err? ==> r.error == if sampleRateHz == 0 then InvalidSampleRate
                                    else if channels == 0 then UnsupportedOrCorruptAudio
                                    else ResourceLimitExceeded
    {
      if sampleRateHz == 0 {
        return Err(InvalidSampleRate);
      }
      if channels == 0 {
        return Err(UnsupportedOrCorruptAudio);
      }
      var maxFrames :- MaxSourceFrames(sampleRateHz);
      var maxSamples :- CheckedInterleavedSamples(maxFrames, channels);
      var budget := new DecodeResourceBudget(channels, maxFrames, maxSamples);
      return Ok(budget);
    }

    ghost predicate Valid()
      reads this
    {
      && channels > 0
      && maxInterleavedSamples == maxSourceFrames * channels
      && sourceFrames <= maxSourceFrames
      && interleavedSamples == sourceFrames * channels
    }

    /** A packet is taken exactly when it is whole and fits; a rejected packet leaves the budget alone. */
    method AcceptPacket(packetFrames: u64, packetSamples: usize) returns (r: Result<(), AudioError>)
      requires Valid()
      modifies this
      ensures Valid()
      ensures r.Ok? <==> && packetFrames > 0
                         && packetSamples == packetFrames * channels
                         && old(sourceFrames) + packetFrames <= maxSourceFrames
      ensures sourceFrames == old(sourceFrames) + if r.Ok? then packetFrames else 0
      ensures interleavedSamples == old(interleavedSamples) + if r.Ok? then packetSamples else 0
      ensures r.Err? ==> r.error == if packetFrames == 0 || packetSamples == 0
                                       || packetSamples != packetFrames * channels <= U64_MAX
                                    then UnsupportedOrCorruptAudio else ResourceLimitExceeded
    {
      if packetFrames == 0 || packetSamples == 0 {
        return Err(UnsupportedOrCorruptAudio);
      }
      var expectedSamples :- CheckedInterleavedSamples(packetFrames, channels);
      if packetSamples != expectedSamples {
        return Err(UnsupportedOrCorruptAudio);
      }
      ProductsOrdered(sourceFrames + packetFrames, maxSourceFrames, channels);
      var frames := CheckedAdd(sourceFrames, packetFrames);
      if frames.None? {
        return Err(ResourceLimitExceeded);
      }
      var samples := CheckedAdd(interleavedSamples, packetSamples);
      if samples.None? {
        return Err(ResourceLimitExceeded);
      }
      if frames.value > maxSourceFrames || samples.value > maxInterleavedSamples {
        return Err(ResourceLimitExceeded);
      }
      sourceFrames := frames.value;
      interleavedSamples := samples.value;
      return Ok(());
    }
  }

  lemma ProductsOrdered(a: nat, b: nat, k: nat)
    requires k > 0
    ensures a <= b <==> a * k <= b * k
    ensures 0 < a ==> 0 < a * k
  {
    if a > b { assert (a - b) * k > 0; }
    if a <= b { assert (b - a) * k >= 0; }
  }

  // What a packet stream decodes to

  function FrameCap(rate: u32): u64 {
    rate * MAX_DECODED_AUDIO_DURATION_SECONDS
  }

  /** The whole 24 hours of this format have a sample count that a machine word holds. */
  ghost predicate BudgetExists(format: Format) {
    FrameCap(format.rate) * format.channels <= U64_MAX
  }

  /** The decoder's own contract: a non-empty buffer holds frames times channels samples. */
  ghost predicate WholeBuffer(p: Packet) {
    p.Decoded? && p.frames > 0 ==> |p.samples| == p.frames * p.channels
  }

  ghost predicate DecoderContract(packets: seq<Packet>) {
    forall i :: 0 <= i < |packets| ==> WholeBuffer(packets[i])
  }

  function TotalFrames(packets: seq<Packet>): nat {
    if packets == [] then 0
    else
      var last := packets[|packets| - 1];
      TotalFrames(packets[..|packets| - 1]) + if last.Decoded? then last.frames else 0
  }

  function AllSamples(packets: seq<Packet>): seq<Sample> {
    if packets == [] then []
    else
      var last := packets[|packets| - 1];
      AllSamples(packets[..|packets| - 1]) + if last.Decoded? && last.frames > 0 then last.samples else []
  }

  /** The format of the first decoded packet. */
  function StreamFormat(packets: seq<Packet>): Option<Format> {
    if packets == [] then None
    else
      var last := packets[|packets| - 1];
      match StreamFormat(packets[..|packets| - 1])
      case Some(f) => Some(f)
      case None => if last.Decoded? then Some(Format(last.rate, last.channels)) else None
  }

  /** The packet can follow a stream of the given format. */
  predicate Coherent(format: Option<Format>, p: Packet) {
    match p
    case ReadFailed => false
    case OtherTrack => true
    case DecodeFailed => false
    case Decoded(rate, channels, frames, samples) =>
      && rate > 0 && channels > 0
      && (format.Some? ==> format.value == Format(rate, channels))
      && (frames == 0 ==> samples == [])
  }

  ghost predicate WithinBudget(packets: seq<Packet>) {
    TotalFrames(packets) > 0 ==>
      && StreamFormat(packets).Some?
      && BudgetExists(StreamFormat(packets).value)
      && TotalFrames(packets) <= FrameCap(StreamFormat(packets).value.rate)
  }

  ghost predicate CoherentStream(packets: seq<Packet>) {
    forall k :: 0 <= k < |packets| ==> Coherent(StreamFormat(packets[..k]), packets[k])
  }

  /** The error of the first packet that cannot be taken. */
  ghost function FirstError(packets: seq<Packet>): Option<AudioError> {
    if packets == [] then None
    else
      var init := packets[..|packets| - 1];
      match FirstError(init)
      case Some(e) => Some(e)
      case None =>
        if !Coherent(StreamFormat(init), packets[|packets| - 1]) then Some(UnsupportedOrCorruptAudio)
        else if !WithinBudget(packets) then Some(ResourceLimitExceeded)
        else None
  }

  /** The loop takes every packet exactly when the stream is coherent and its total is within the cap. */
  lemma {:induction false} NoErrorMeansCoherentWithinBudget(packets: seq<Packet>)
    ensures FirstError(packets).None? <==> CoherentStream(packets) && WithinBudget(packets)
  {
    if packets != [] {
      var init := packets[..|packets| - 1];
      NoErrorMeansCoherentWithinBudget(init);
      CoherentPrefix(packets);
      if CoherentStream(packets) && WithinBudget(packets) {
        FormatNeverChanges(init, packets);
      }
    }
  }

  lemma FormatNeverChanges(init: seq<Packet>, packets: seq<Packet>)
    requires packets != [] && init == packets[..|packets| - 1]
    ensures StreamFormat(init).Some? ==> StreamFormat(packets) == StreamFormat(init)
    ensures TotalFrames(init) > 0 ==> StreamFormat(init).Some?
    ensures TotalFrames(init) <= TotalFrames(packets)
  {
    FramesNeedFormat(init);
  }

  lemma {:induction false} FramesNeedFormat(packets: seq<Packet>)
    ensures TotalFrames(packets) > 0 ==> StreamFormat(packets).Some?
  {
    if packets != [] {
      FramesNeedFormat(packets[..|packets| - 1]);
    }
  }

  /** The interleaved buffer always holds frames times channels samples. */
  lemma {:induction false} InterleavedLength(packets: seq<Packet>)
    requires DecoderContract(packets) && CoherentStream(packets)
    ensures StreamFormat(packets).None? ==> AllSamples(packets) == [] && TotalFrames(packets) == 0
    ensures StreamFormat(packets).Some? ==>
              |AllSamples(packets)| == TotalFrames(packets) * StreamFormat(packets).value.channels
  {
    if packets != [] {
      var init, last := packets[..|packets| - 1], packets[|packets| - 1];
      CoherentPrefix(packets);
      InterleavedLength(init);
      if last.Decoded? {
        assert WholeBuffer(last);
        assert StreamFormat(packets).value == Format(last.rate, last.channels);
        Distribute(TotalFrames(init), last.frames, last.channels);
      }
    }
  }

  lemma ProductWithin(product: nat, a: nat, b: nat, k: nat)
    requires product == a * k && a <= b
    ensures product <= b * k && (a == 0 ==> product == 0)
  {
    assert (b - a) * k >= 0;
  }

  /** Within the budget that is at most what 24 hours of the format hold, and fits a machine word. */
  lemma InterleavedWithinLimit(packets: seq<Packet>)
    requires DecoderContract(packets) && CoherentStream(packets) && WithinBudget(packets)
    ensures |AllSamples(packets)| <= U64_MAX
    ensures StreamFormat(packets).Some? ==>
              |AllSamples(packets)| <= FrameCap(StreamFormat(packets).value.rate) * StreamFormat(packets).value.channels
  {
    InterleavedLength(packets);
    if StreamFormat(packets).Some? {
      var format := StreamFormat(packets).value;
      var cap := FrameCap(format.rate);
      assert TotalFrames(packets) <= cap;
      ProductWithin(|AllSamples(packets)|, TotalFrames(packets), cap, format.channels);
    }
  }

  lemma CoherentPrefix(packets: seq<Packet>)
    requires packets != []
    ensures var init := packets[..|packets| - 1];
            CoherentStream(packets) <==> CoherentStream(init) && Coherent(StreamFormat(init), packets[|packets| - 1])
  {
    var init := packets[..|packets| - 1];
    assert forall k :: 0 <= k < |init| ==> init[..k] == packets[..k] && init[k] == packets[k];
    assert packets[..|init|] == init;
  }

  lemma Distribute(a: nat, b: nat, k: nat)
    ensures (a + b) * k == a * k + b * k
  {
  }

  lemma {:induction false} ErrorsStick(packets: seq<Packet>, k: nat)
    requires k <= |packets|
    ensures FirstError(packets[..k]).Some? ==> FirstError(packets) == FirstError(packets[..k])
    decreases |packets| - k
  {
    if k < |packets| {
      assert packets[..k + 1][..k] == packets[..k];
      ErrorsStick(packets, k + 1);
    } else {
      assert packets[..k] == packets;
    }
  }

  /** One more packet: how each summary of the stream grows. */
  lemma OneMorePacket(packets: seq<Packet>, k: nat)
    requires k < |packets|
    ensures var init, p := packets[..k], packets[k];
            var frames := if p.Decoded? then p.frames else 0;
            && TotalFrames(packets[..k + 1]) == TotalFrames(init) + frames
            && AllSamples(packets[..k + 1]) == AllSamples(init) + (if frames > 0 then p.samples else [])
            && StreamFormat(packets[..k + 1]) == (if StreamFormat(init).Some? then StreamFormat(init)
                                                  else if p.Decoded? then Some(Format(p.rate, p.channels)) else None)
            && (FirstError(init).None? ==>
                  FirstError(packets[..k + 1])
                  == if !Coherent(StreamFormat(init), p) then Some(UnsupportedOrCorruptAudio)
                     else if !WithinBudget(packets[..k + 1]) then Some(ResourceLimitExceeded)
                     else None)
    ensures FirstError(packets[..k + 1]).Some? ==> FirstError(packets) == FirstError(packets[..k + 1])
    ensures TotalFrames(packets[..k]) > 0 ==> StreamFormat(packets[..k]).Some?
  {
    assert packets[..k + 1][..k] == packets[..k];
    ErrorsStick(packets, k + 1);
    FramesNeedFormat(packets[..k]);
  }

  /** The packet is an error, or a buffer no audio can have. */
  predicate Broken(p: Packet) {
    || p.ReadFailed? || p.DecodeFailed?
    || (p.Decoded? && (p.rate == 0 || p.channels == 0 || (p.frames == 0 && p.samples != [])))
  }

  /** A stream is coherent exactly when no packet is broken and all decoded packets have one format. */
  lemma CoherentExactly(packets: seq<Packet>)
    ensures CoherentStream(packets)
        <==> && (forall k :: 0 <= k < |packets| ==> !Broken(packets[k]))
             && forall j, k :: 0 <= j < k < |packets| && packets[j].Decoded? && packets[k].Decoded? ==>
                  packets[j].rate == packets[k].rate && packets[j].channels == packets[k].channels
  {
    forall k | 0 <= k < |packets|
      ensures StreamFormat(packets[..k]).Some? ==>
                exists j :: 0 <= j < k && packets[j].Decoded?
                            && StreamFormat(packets[..k]) == Some(Format(packets[j].rate, packets[j].channels))
      ensures StreamFormat(packets[..k]).None? ==> forall j :: 0 <= j < k ==> !packets[j].Decoded?
    {
      FormatIsSomePackets(packets, k);
    }
    if CoherentStream(packets) {
      forall k | 0 <= k < |packets|
        ensures !Broken(packets[k])
      {
        assert Coherent(StreamFormat(packets[..k]), packets[k]);
      }
      forall j, k | 0 <= j < k < |packets| && packets[j].Decoded? && packets[k].Decoded?
        ensures packets[j].rate == packets[k].rate && packets[j].channels == packets[k].channels
      {
        EveryPacketHasTheFormat(packets, j);
        EveryPacketHasTheFormat(packets, k);
      }
    }
  }

  lemma {:induction false} FormatIsSomePackets(packets: seq<Packet>, k: nat)
    requires k <= |packets|
    ensures StreamFormat(packets[..k]).Some? ==>
              exists j :: 0 <= j < k && packets[j].Decoded?
                          && StreamFormat(packets[..k]) == Some(Format(packets[j].rate, packets[j].channels))
    ensures StreamFormat(packets[..k]).None? ==> forall j :: 0 <= j < k ==> !packets[j].Decoded?
  {
    if k > 0 {
      assert packets[..k][..k - 1] == packets[..k - 1];
      FormatIsSomePackets(packets, k - 1);
    }
  }

  lemma {:induction false} FormatIsKept(packets: seq<Packet>, k: nat, n: nat)
    requires k <= n <= |packets|
    ensures StreamFormat(packets[..k]).Some? ==> StreamFormat(packets[..n]) == StreamFormat(packets[..k])
    decreases n
  {
    if k < n {
      assert packets[..n][..n - 1] == packets[..n - 1];
      FormatIsKept(packets, k, n - 1);
    }
  }

  lemma {:induction false} SamplesAreKept(packets: seq<Packet>, k: nat, n: nat)
    requires k <= n <= |packets|
    ensures AllSamples(packets[..k]) <= AllSamples(packets[..n])
    decreases n
  {
    if k < n {
      assert packets[..n][..n - 1] == packets[..n - 1];
      SamplesAreKept(packets, k, n - 1);
    }
  }

  lemma SamplesStandAfterThoseBefore(packets: seq<Packet>, k: nat)
    requires k < |packets| && packets[k].Decoded? && packets[k].frames > 0
    ensures var front, all := AllSamples(packets[..k]), AllSamples(packets);
            && |front| + |packets[k].samples| <= |all|
            && all[|front|..|front| + |packets[k].samples|] == packets[k].samples
  {
    var front, all, samples := AllSamples(packets[..k]), AllSamples(packets), packets[k].samples;
    OneMorePacket(packets, k);
    SamplesAreKept(packets, k + 1, |packets|);
    assert packets[..|packets|] == packets;
    assert front + samples <= all;
    assert all[..|front| + |samples|] == front + samples;
    assert all[|front|..|front| + |samples|] == (front + samples)[|front|..];
  }

  lemma EveryPacketHasTheFormat(packets: seq<Packet>, k: nat)
    requires CoherentStream(packets) && k < |packets| && packets[k].Decoded?
    ensures StreamFormat(packets) == Some(Format(packets[k].rate, packets[k].channels))
    ensures StreamFormat(packets[..k]).Some? ==> StreamFormat(packets[..k]) == StreamFormat(packets)
  {
    assert packets[..|packets|] == packets;
    assert Coherent(StreamFormat(packets[..k]), packets[k]);
    OneMorePacket(packets, k);
    FormatIsKept(packets, k + 1, |packets|);
  }

  /** In a coherent stream every packet has the stream's format and its samples stand where the frames before it end. */
  lemma PacketsStandInOrder(packets: seq<Packet>, k: nat)
    requires DecoderContract(packets) && CoherentStream(packets) && k < |packets| && packets[k].Decoded?
    ensures StreamFormat(packets) == Some(Format(packets[k].rate, packets[k].channels))
    ensures packets[k].frames > 0 ==>
              var at := TotalFrames(packets[..k]) * packets[k].channels;
              && at >= 0 && at + |packets[k].samples| <= |AllSamples(packets)|
              && AllSamples(packets)[at..at + |packets[k].samples|] == packets[k].samples
  {
    EveryPacketHasTheFormat(packets, k);
    if packets[k].frames > 0 {
      SamplesStandAfterThoseBefore(packets, k);
      SamplesBefore(packets, k);
    }
  }

  lemma SamplesBefore(packets: seq<Packet>, k: nat)
    requires DecoderContract(packets) && CoherentStream(packets) && k < |packets| && packets[k].Decoded?
    ensures |AllSamples(packets[..k])| == TotalFrames(packets[..k]) * packets[k].channels
  {
    EveryPacketHasTheFormat(packets, k);
    CoherentFront(packets, k);
    InterleavedLength(packets[..k]);
    if StreamFormat(packets[..k]).None? {
      assert TotalFrames(packets[..k]) == 0;
    }
  }

  lemma CoherentFront(packets: seq<Packet>, k: nat)
    requires k <= |packets|
    ensures CoherentStream(packets) ==> CoherentStream(packets[..k])
    ensures DecoderContract(packets) ==> DecoderContract(packets[..k])
  {
    assert forall j :: 0 <= j < k ==> packets[..k][..j] == packets[..j] && packets[..k][j] == packets[j];
  }

  /** A stream that fails fails for its first packet that does not follow, or does not fit: these are told apart. */
  lemma FirstBadPacketIsReported(packets: seq<Packet>, k: nat)
    requires k < |packets| && CoherentStream(packets[..k]) && WithinBudget(packets[..k])
    ensures !CoherentStream(packets[..k + 1]) ==> FirstError(packets) == Some(UnsupportedOrCorruptAudio)
    ensures CoherentStream(packets[..k + 1]) && !WithinBudget(packets[..k + 1]) ==>
              FirstError(packets) == Some(ResourceLimitExceeded)
  {
    NoErrorMeansCoherentWithinBudget(packets[..k]);
    OneMorePacket(packets, k);
    CoherentPrefix(packets[..k + 1]);
    assert packets[..k + 1][..k] == packets[..k];
  }

  /** The budget stands for the frames taken so far; it exists once there are any. */
  ghost predicate BudgetFor(budget: DecodeResourceBudget?, format: Option<Format>, sourceFrames: nat)
    reads budget
  {
    && (budget == null <==> sourceFrames == 0)
    && (budget != null ==>
          && format.Some? && budget.Valid()
          && budget.channels == format.value.channels
          && budget.maxSourceFrames == FrameCap(format.value.rate)
          && budget.sourceFrames == sourceFrames)
  }

  /** The turn of the loop for a non-empty buffer of an agreed format. */
  method TakeBuffer(budget: DecodeResourceBudget?, format: Format, frames: usize, ghost taken: nat)
    returns (r: Result<DecodeResourceBudget, AudioError>)
    requires BudgetFor(budget, Some(format), taken)
    requires format.rate > 0 && format.channels > 0 && frames > 0
    modifies budget
    ensures r.Ok? <==> BudgetExists(format) && taken + frames <= FrameCap(format.rate)
    ensures r.Err? ==> r.error == ResourceLimitExceeded
    ensures r.Ok? ==> BudgetFor(r.value, Some(format), taken + frames) && (r.value == budget || fresh(r.value))
    ensures r.Ok? ==> frames * format.channels <= U64_MAX
  {
    ProductsOrdered(frames, FrameCap(format.rate), format.channels);
    var packetSamples := CheckedMul(frames, format.channels);
    if packetSamples.None? {
      return Err(ResourceLimitExceeded);
    }
    var current: DecodeResourceBudget;
    if budget == null {
      current :- DecodeResourceBudget.New(format.rate, format.channels);
    } else {
      current := budget;
    }
    var _ :- current.AcceptPacket(frames, packetSamples.value);
    return Ok(current);
  }

  /** decode_from_file from the packet loop up to the checks before the downmix. */
  method DecodePackets(packets: seq<Packet>) returns (r: Result<DecodedTrack, AudioError>)
    ensures r.Ok? <==> FirstError(packets).None? && TotalFrames(packets) > 0
    ensures r.Err? ==>
        r.error == (if FirstError(packets).Some? then FirstError(packets).value else UnsupportedOrCorruptAudio)
    ensures r.Ok? ==> && StreamFormat(packets) == Some(r.value.format)
                      && r.value.format.rate > 0 && r.value.format.channels > 0
                      && r.value.sourceFrames == TotalFrames(packets) <= FrameCap(r.value.format.rate)
                      && r.value.interleaved == AllSamples(packets)
  {
    var format: Option<Format> := None;
    var sourceFrames: u64 := 0;
    var interleaved: seq<Sample> := [];
    var resourceBudget: DecodeResourceBudget? := null;
    for next := 0 to |packets|
      invariant FirstError(packets[..next]).None?
      invariant StreamFormat(packets[..next]) == format
      invariant format.Some? ==> format.value.rate > 0 && format.value.channels > 0
      invariant sourceFrames == TotalFrames(packets[..next])
      invariant interleaved == AllSamples(packets[..next])
      invariant BudgetFor(resourceBudget, format, sourceFrames)
      invariant resourceBudget != null ==> fresh(resourceBudget)
    {
      OneMorePacket(packets, next);
      match packets[next] {
        case ReadFailed =>
          return Err(UnsupportedOrCorruptAudio);
        case OtherTrack =>
        case DecodeFailed =>
          return Err(UnsupportedOrCorruptAudio);
        case Decoded(rate, channels, frames, samples) =>
          if rate == 0 || channels == 0 {
            return Err(UnsupportedOrCorruptAudio);
          }
          if format.Some? && format.value != Format(rate, channels) {
            return Err(UnsupportedOrCorruptAudio);
          }
          format := Some(Format(rate, channels));
          if frames == 0 {
            if |samples| != 0 {
              return Err(UnsupportedOrCorruptAudio);
            }
          } else {
            resourceBudget :- TakeBuffer(resourceBudget, format.value, frames, sourceFrames);
            sourceFrames := resourceBudget.sourceFrames;
            interleaved := interleaved + samples;
          }
      }
    }
    assert packets[..|packets|] == packets;
    if format.None? {
      return Err(UnsupportedOrCorruptAudio);
    }
    if sourceFrames == 0 {
      return Err(UnsupportedOrCorruptAudio);
    }
    return Ok(DecodedTrack(format.value, sourceFrames, interleaved));
  }

  // Downmix, resample, duration

  function FiniteSum(frame: seq<Sample>): real {
    if frame == [] then 0.0
    else
      var last := frame[|frame| - 1];
      FiniteSum(frame[..|frame| - 1]) + if last.Finite? then last.value else 0.0
  }

  function Clamp(x: real): real {
    if x < -1.0 then -1.0 else if x > 1.0 then 1.0 else x
  }

  function Sanitized(s: Sample): real {
    if s.Finite? then Clamp(s.value) else 0.0
  }

  ghost predicate InUnitRange(samples: seq<real>) {
    forall i :: 0 <= i < |samples| ==> -1.0 <= samples[i] <= 1.0
  }

  function FrameMean(frame: seq<Sample>): real
    requires frame != []
  {
    Clamp(FiniteSum(frame) / (|frame| as real))
  }

  /** The mono signal of whole frames, front to back, as chunks_exact walks them. */
  function MonoOf(interleaved: seq<Sample>, channels: nat): (mono: seq<real>)
    requires channels > 0
    ensures forall i :: 0 <= i < |mono| ==> -1.0 <= mono[i] <= 1.0
  {
    if |interleaved| < channels then []
    else [FrameMean(interleaved[..channels])] + MonoOf(interleaved[channels..], channels)
  }

  method AverageFrames(interleaved: seq<Sample>, channels: usize) returns (mono: seq<real>)
    requires channels > 0
    ensures mono == MonoOf(interleaved, channels)
  {
    mono := [];
    var rest := interleaved;
    while channels <= |rest|
      invariant mono + MonoOf(rest, channels) == MonoOf(interleaved, channels)
      decreases |rest|
    {
      mono := mono + [FrameMean(rest[..channels])];
      rest := rest[channels..];
    }
  }

  /** Every channel has this value at instant i. */
  ghost predicate SoundsAlike(interleaved: seq<Sample>, channels: nat, i: nat, v: real) {
    forall p :: i * channels <= p < i * channels + channels && p < |interleaved| ==> interleaved[p] == Finite(v)
  }

  /** Averages each frame, taking non-finite samples as silence, and clamps to [-1, 1]. */
  method SanitizeAndDownmix(interleaved: seq<Sample>, channels: usize) returns (r: Result<seq<real>, AudioError>)
    ensures r.Ok? <==> channels > 0 && interleaved != [] && |interleaved| % channels == 0
    ensures r.Err? ==> r.error == UnsupportedOrCorruptAudio
    ensures r.Ok? ==> r.value == MonoOf(interleaved, channels)
    ensures r.Ok? ==> |r.value| == |interleaved| / channels && InUnitRange(r.value)
    ensures r.Ok? ==> forall i, v :: 0 <= i < |r.value| && SoundsAlike(interleaved, channels, i, v) ==>
                r.value[i] == if v > 1.0 then 1.0 else if v < -1.0 then -1.0 else v
  {
    if channels == 0 || interleaved == [] || |interleaved| % channels != 0 {
      return Err(UnsupportedOrCorruptAudio);
    }
    var mono := AverageFrames(interleaved, channels);
    MonoLength(interleaved, channels);
    forall i, v | 0 <= i < |mono| && SoundsAlike(interleaved, channels, i, v)
      ensures mono[i] == if v > 1.0 then 1.0 else if v < -1.0 then -1.0 else v
    {
      EqualChannelsGiveTheirValue(interleaved, channels, i, v);
    }
    return Ok(mono);
  }

  /** The mono signal has one sample per frame. */
  lemma {:induction false} OneMonoSamplePerFrame(interleaved: seq<Sample>, channels: nat, frames: nat)
    requires channels > 0 && |interleaved| == frames * channels
    ensures |MonoOf(interleaved, channels)| == frames
  {
    if frames > 0 {
      Distribute(frames - 1, 1, channels);
      ProductsOrdered(1, frames, channels);
      OneMonoSamplePerFrame(interleaved[channels..], channels, frames - 1);
    }
  }

  /** Mono sample i is the mean of interleaved samples [i * channels, (i + 1) * channels). */
  lemma {:induction false} MonoSampleIsFrameMean(interleaved: seq<Sample>, channels: nat, i: nat)
    requires channels > 0 && i < |MonoOf(interleaved, channels)|
    ensures 0 <= i * channels && i * channels + channels <= |interleaved|
    ensures MonoOf(interleaved, channels)[i] == FrameMean(interleaved[i * channels..i * channels + channels])
  {
    if i > 0 {
      var rest := interleaved[channels..];
      MonoSampleIsFrameMean(rest, channels, i - 1);
      Distribute(i - 1, 1, channels);
      assert rest[(i - 1) * channels..(i - 1) * channels + channels]
          == interleaved[i * channels..i * channels + channels];
    }
  }

  /** Audio that is already finite and in range is averaged without clamping. */
  lemma {:induction false} InRangeFramesKeepTheirMean(frame: seq<Sample>)
    requires frame != [] && InRange(frame)
    ensures FrameMean(frame) == FiniteSum(frame) / (|frame| as real)
  {
    SumBounded(frame);
    var n := |frame| as real;
    assert -1.0 == -n / n && 1.0 == n / n;
    assert FiniteSum(frame) / n <= n / n;
    assert -n / n <= FiniteSum(frame) / n;
  }

  lemma {:induction false} SumBounded(frame: seq<Sample>)
    requires InRange(frame)
    ensures -(|frame| as real) <= FiniteSum(frame) <= |frame| as real
  {
    if frame != [] {
      SumBounded(frame[..|frame| - 1]);
    }
  }

  // What the downmix does to the samples, whatever it computes on the way

  /** Frame i: the samples of all channels at one instant. */
  function FrameAt(interleaved: seq<Sample>, channels: nat, i: nat): seq<Sample>
    requires i * channels + channels <= |interleaved|
  {
    interleaved[i * channels..i * channels + channels]
  }

  function Loudness(s: Sample): real {
    if s.Finite? then s.value else 0.0
  }

  lemma {:induction false} SumOfUpdate(frame: seq<Sample>, c: nat, s: Sample)
    requires c < |frame|
    ensures FiniteSum(frame[c := s]) == FiniteSum(frame) - Loudness(frame[c]) + Loudness(s)
  {
    var n := |frame| - 1;
    if c == n {
      assert frame[c := s][..n] == frame[..n];
    } else {
      SumOfUpdate(frame[..n], c, s);
      assert frame[c := s][..n] == frame[..n][c := s];
    }
  }

  lemma {:induction false} SumOfEqual(frame: seq<Sample>, v: real)
    requires forall c :: 0 <= c < |frame| ==> frame[c] == Finite(v)
    ensures FiniteSum(frame) == v * |frame| as real
  {
    if frame != [] {
      SumOfEqual(frame[..|frame| - 1], v);
    }
  }

  lemma {:induction false} SumOfConcat(front: seq<Sample>, back: seq<Sample>)
    ensures FiniteSum(front + back) == FiniteSum(front) + FiniteSum(back)
  {
    if back == [] {
      assert front + back == front;
    } else {
      var n := |back| - 1;
      SumOfConcat(front, back[..n]);
      assert (front + back)[..|front| + n] == front + back[..n];
    }
  }

  lemma TakeSampleOut(frame: seq<Sample>, c: nat) returns (rest: seq<Sample>)
    requires c < |frame|
    ensures multiset(frame) == multiset(rest) + multiset{frame[c]}
    ensures FiniteSum(frame) == FiniteSum(rest) + Loudness(frame[c])
  {
    var before, one, after := frame[..c], [frame[c]], frame[c + 1..];
    rest := before + after;
    assert frame == before + (one + after);
    SumOfConcat(before, one + after);
    SumOfConcat(one, after);
    SumOfConcat(before, after);
    assert one[..0] == [];
  }

  lemma {:induction false} SumOfReordered(frame: seq<Sample>, other: seq<Sample>)
    requires multiset(frame) == multiset(other)
    ensures FiniteSum(frame) == FiniteSum(other)
    decreases |frame|
  {
    if frame == [] {
      assert |multiset(other)| == 0;
    } else {
      var front, last := frame[..|frame| - 1], frame[|frame| - 1];
      assert frame == front + [last];
      assert last in multiset(other);
      var c :| 0 <= c < |other| && other[c] == last;
      var rest := TakeSampleOut(other, c);
      assert multiset(front) == multiset(frame) - multiset{last} == multiset(rest);
      SumOfReordered(front, rest);
    }
  }

  lemma MonoLength(interleaved: seq<Sample>, channels: nat)
    requires channels > 0
    ensures |MonoOf(interleaved, channels)| == |interleaved| / channels
    decreases |interleaved|
  {
    if |interleaved| >= channels {
      MonoLength(interleaved[channels..], channels);
      OneFrameLess(|interleaved|, channels);
    } else {
      assert |interleaved| / channels == 0;
    }
  }

  lemma OneFrameLess(n: nat, channels: nat)
    requires 0 < channels <= n
    ensures n / channels == (n - channels) / channels + 1
  {
    var q := (n - channels) / channels;
    assert n - channels == q * channels + (n - channels) % channels;
    Distribute(q, 1, channels);
    assert n == (q + 1) * channels + (n - channels) % channels;
    FloorIs(n, channels, q + 1);
  }

  lemma FloorIs(n: nat, channels: nat, q: nat)
    requires 0 < channels && q * channels <= n < q * channels + channels
    ensures n / channels == q
  {
    FloorGreatest(n, channels, q);
    Distribute(q, 1, channels);
    FloorGreatest(n, channels, q + 1);
  }

  lemma FramesFit(interleaved: seq<Sample>, channels: nat, i: nat)
    requires channels > 0 && i < |interleaved| / channels
    ensures 0 <= i * channels && i * channels + channels <= |interleaved|
    ensures i < |MonoOf(interleaved, channels)|
    ensures MonoOf(interleaved, channels)[i] == FrameMean(FrameAt(interleaved, channels, i))
  {
    MonoLength(interleaved, channels);
    MonoSampleIsFrameMean(interleaved, channels, i);
  }

  /** Signals whose frames sum alike sound alike. */
  lemma SameSumsSameMono(interleaved: seq<Sample>, other: seq<Sample>, channels: nat)
    requires channels > 0 && |interleaved| == |other|
    requires forall i :: 0 <= i < |interleaved| / channels ==> SameSumAt(interleaved, other, channels, i)
    ensures MonoOf(interleaved, channels) == MonoOf(other, channels)
  {
    MonoLength(interleaved, channels);
    MonoLength(other, channels);
    forall i | 0 <= i < |MonoOf(interleaved, channels)|
      ensures MonoOf(interleaved, channels)[i] == MonoOf(other, channels)[i]
    {
      FramesFit(interleaved, channels, i);
      FramesFit(other, channels, i);
      assert SameSumAt(interleaved, other, channels, i);
    }
  }

  ghost predicate SameSumAt(interleaved: seq<Sample>, other: seq<Sample>, channels: nat, i: nat) {
    i * channels + channels <= |interleaved| && |interleaved| == |other| ==>
      FiniteSum(FrameAt(interleaved, channels, i)) == FiniteSum(FrameAt(other, channels, i))
  }

  lemma FrameOf(channels: nat, p: nat, i: nat)
    requires channels > 0
    ensures i == p / channels <==> i * channels <= p < i * channels + channels
    ensures i == p / channels ==> p - i * channels == p % channels
  {
    assert p == p / channels * channels + p % channels;
    if i * channels <= p < i * channels + channels {
      FloorIs(p, channels, i);
    }
  }

  lemma UpdateInSlice(s: seq<Sample>, p: nat, v: Sample, from: nat, to: nat)
    requires p < |s| && from <= to <= |s|
    ensures s[p := v][from..to] == if from <= p < to then s[from..to][p - from := v] else s[from..to]
  {
  }

  /** Sample p belongs to channel p % channels of frame p / channels, and to no other frame. */
  lemma UpdateInFrame(interleaved: seq<Sample>, channels: nat, p: nat, s: Sample, i: nat)
    requires channels > 0 && p < |interleaved| && i < |interleaved| / channels
    ensures 0 <= i * channels && i * channels + channels <= |interleaved|
    ensures FrameAt(interleaved[p := s], channels, i)
        == if i == p / channels then FrameAt(interleaved, channels, i)[p % channels := s]
           else FrameAt(interleaved, channels, i)
    ensures i == p / channels ==> FrameAt(interleaved, channels, i)[p % channels] == interleaved[p]
  {
    FramesFit(interleaved, channels, i);
    var from := i * channels;
    FrameOf(channels, p, i);
    UpdateInSlice(interleaved, p, s, from, from + channels);
  }

  /** A frame whose channels agree gives their common value, cut to the unit range. */
  lemma EqualChannelsGiveTheirValue(interleaved: seq<Sample>, channels: nat, i: nat, v: real)
    requires channels > 0 && i < |MonoOf(interleaved, channels)|
    requires SoundsAlike(interleaved, channels, i, v)
    ensures MonoOf(interleaved, channels)[i] == if v > 1.0 then 1.0 else if v < -1.0 then -1.0 else v
  {
    MonoSampleIsFrameMean(interleaved, channels, i);
    var from := i * channels;
    var frame := interleaved[from..from + channels];
    forall c | 0 <= c < |frame|
      ensures frame[c] == Finite(v)
    {
      assert frame[c] == interleaved[from + c];
    }
    MeanOfEqual(frame, v);
  }

  lemma MeanOfEqual(frame: seq<Sample>, v: real)
    requires frame != [] && forall c :: 0 <= c < |frame| ==> frame[c] == Finite(v)
    ensures FrameMean(frame) == Clamp(v)
  {
    SumOfEqual(frame, v);
    var n := |frame| as real;
    assert v * n / n == v;
  }

  /** So a mono file is only cut to the unit range, with silence for what is not finite. */
  lemma MonoFilesStay(interleaved: seq<Sample>)
    ensures MadeFrom(MonoOf(interleaved, 1), interleaved)
  {
    MonoLength(interleaved, 1);
    forall i | 0 <= i < |MonoOf(interleaved, 1)|
      ensures interleaved[i].Finite? ==>
                var v := interleaved[i].value;
                MonoOf(interleaved, 1)[i] == if v > 1.0 then 1.0 else if v < -1.0 then -1.0 else v
      ensures interleaved[i].NonFinite? ==> MonoOf(interleaved, 1)[i] == 0.0
    {
      if interleaved[i].Finite? {
        EqualChannelsGiveTheirValue(interleaved, 1, i, interleaved[i].value);
      } else {
        NonFiniteIsSilence(interleaved, 1, i);
        EqualChannelsGiveTheirValue(interleaved[i := Finite(0.0)], 1, i, 0.0);
      }
    }
  }

  /** Which channel a sample is in makes no difference. */
  lemma ReorderedChannelsSoundAlike(interleaved: seq<Sample>, other: seq<Sample>, channels: nat)
    requires channels > 0 && |interleaved| == |other|
    requires forall i :: 0 <= i && i * channels + channels <= |interleaved| ==>
        multiset(FrameAt(interleaved, channels, i)) == multiset(FrameAt(other, channels, i))
    ensures MonoOf(interleaved, channels) == MonoOf(other, channels)
  {
    forall i | 0 <= i < |interleaved| / channels
      ensures SameSumAt(interleaved, other, channels, i)
    {
      if i * channels + channels <= |interleaved| {
        SumOfReordered(FrameAt(interleaved, channels, i), FrameAt(other, channels, i));
      }
    }
    SameSumsSameMono(interleaved, other, channels);
  }

  lemma UpdateKeepsSum(interleaved: seq<Sample>, channels: nat, p: nat, s: Sample)
    requires channels > 0 && p < |interleaved| && Loudness(s) == Loudness(interleaved[p])
    ensures MonoOf(interleaved[p := s], channels) == MonoOf(interleaved, channels)
  {
    var other := interleaved[p := s];
    forall i | 0 <= i < |interleaved| / channels
      ensures SameSumAt(interleaved, other, channels, i)
    {
      UpdateInFrame(interleaved, channels, p, s, i);
      if i == p / channels {
        SumOfUpdate(FrameAt(interleaved, channels, i), p % channels, s);
      }
    }
    SameSumsSameMono(interleaved, other, channels);
  }

  /** A sample that is not finite is silence. */
  lemma NonFiniteIsSilence(interleaved: seq<Sample>, channels: nat, p: nat)
    requires channels > 0 && p < |interleaved| && interleaved[p].NonFinite?
    ensures MonoOf(interleaved[p := Finite(0.0)], channels) == MonoOf(interleaved, channels)
  {
    UpdateKeepsSum(interleaved, channels, p, Finite(0.0));
  }

  /** What one channel gains and another of the same frame loses makes no difference, however loud they are. */
  lemma ChannelsTrade(interleaved: seq<Sample>, channels: nat, p: nat, q: nat, d: real)
    requires channels > 0 && p < |interleaved| && q < |interleaved| && p != q && p / channels == q / channels
    requires interleaved[p].Finite? && interleaved[q].Finite?
    ensures var other := interleaved[p := Finite(interleaved[p].value + d)][q := Finite(interleaved[q].value - d)];
            MonoOf(other, channels) == MonoOf(interleaved, channels)
  {
    var louder := interleaved[p := Finite(interleaved[p].value + d)];
    var other := louder[q := Finite(interleaved[q].value - d)];
    forall i | 0 <= i < |interleaved| / channels
      ensures SameSumAt(interleaved, other, channels, i)
    {
      UpdateInFrame(interleaved, channels, p, louder[p], i);
      UpdateInFrame(louder, channels, q, other[q], i);
      if i == p / channels {
        SumOfUpdate(FrameAt(interleaved, channels, i), p % channels, louder[p]);
        SumOfUpdate(FrameAt(louder, channels, i), q % channels, other[q]);
      }
    }
    SameSumsSameMono(interleaved, other, channels);
  }

  ghost predicate InRange(frame: seq<Sample>) {
    forall c :: 0 <= c < |frame| ==> frame[c].Finite? && -1.0 <= frame[c].value <= 1.0
  }

  /** One channel of an in-range frame d louder makes its mono sample d / channels louder, and no other. */
  lemma OneChannelLouder(interleaved: seq<Sample>, channels: nat, i: nat, c: nat, d: real)
    requires i * channels + channels <= |interleaved| && c < channels && InRange(FrameAt(interleaved, channels, i))
    requires -1.0 <= FrameAt(interleaved, channels, i)[c].value + d <= 1.0
    ensures var louder := interleaved[i * channels + c := Finite(FrameAt(interleaved, channels, i)[c].value + d)];
            var mono := MonoOf(interleaved, channels);
            && i < |mono|
            && MonoOf(louder, channels) == mono[i := mono[i] + d / (channels as real)]
  {
    var p, frame := i * channels + c, FrameAt(interleaved, channels, i);
    var s := Finite(frame[c].value + d);
    assert frame[c] == interleaved[p];
    FrameOf(channels, p, i);
    LouderFrame(frame, c, d);
    MonoLength(interleaved, channels);
    FloorGreatest(|interleaved|, channels, i + 1);
    Distribute(i, 1, channels);
    OneFrameChanges(interleaved, channels, p, s, i, c, d / (channels as real));
  }

  lemma OneFrameChanges(
      interleaved: seq<Sample>, channels: nat, p: nat, s: Sample, i: nat, c: nat, change: real)
    requires channels > 0 && p < |interleaved| && i == p / channels < |interleaved| / channels && c == p % channels
    requires i * channels + channels <= |interleaved|
    requires var frame := FrameAt(interleaved, channels, i); FrameMean(frame[c := s]) == FrameMean(frame) + change
    ensures var mono := MonoOf(interleaved, channels);
            i < |mono| && MonoOf(interleaved[p := s], channels) == mono[i := mono[i] + change]
  {
    var mono, other := MonoOf(interleaved, channels), interleaved[p := s];
    var changed := MonoOf(other, channels);
    MonoLength(interleaved, channels);
    MonoLength(other, channels);
    forall j | 0 <= j < |mono|
      ensures changed[j] == mono[j] + if j == i then change else 0.0
    {
      FramesFit(interleaved, channels, j);
      FramesFit(other, channels, j);
      UpdateInFrame(interleaved, channels, p, s, j);
    }
    OneEntryMore(mono, changed, i, change);
  }

  lemma OneEntryMore(mono: seq<real>, other: seq<real>, i: nat, share: real)
    requires i < |mono| == |other|
    requires forall j :: 0 <= j < |mono| ==> other[j] == mono[j] + if j == i then share else 0.0
    ensures other == mono[i := mono[i] + share]
  {
  }

  lemma LouderFrame(frame: seq<Sample>, c: nat, d: real)
    requires c < |frame| && InRange(frame) && -1.0 <= frame[c].value + d <= 1.0
    ensures FrameMean(frame[c := Finite(frame[c].value + d)]) == FrameMean(frame) + d / (|frame| as real)
  {
    var other := frame[c := Finite(frame[c].value + d)];
    SumOfUpdate(frame, c, other[c]);
    InRangeFramesKeepTheirMean(frame);
    InRangeFramesKeepTheirMean(other);
    QuotientOfSum(FiniteSum(frame), d, |frame| as real);
  }

  lemma QuotientOfSum(a: real, b: real, n: real)
    requires n != 0.0
    ensures (a + b) / n == a / n + b / n
  {
  }

  /** Each sample cut to the unit range, with silence for what is not finite. */
  ghost predicate MadeFrom(samples: seq<real>, produced: seq<Sample>) {
    && |samples| == |produced|
    && forall i :: 0 <= i < |samples| ==>
         match produced[i]
         case NonFinite => samples[i] == 0.0
         case Finite(v) => samples[i] == if v > 1.0 then 1.0 else if v < -1.0 then -1.0 else v
  }

  /** `produced` stands for what the resampling library wrote, or None for its failure. */
  method ResampleMono(samples: seq<real>, sourceRateHz: u32, produced: Option<seq<Sample>>)
    returns (r: Result<seq<real>, AudioError>)
    requires |samples| <= U64_MAX && InUnitRange(samples)
    ensures r.Ok? <==> && samples != [] && WithinCap(|samples|, sourceRateHz)
                       && (sourceRateHz != WORK_SAMPLE_RATE_HZ ==>
                             produced.Some? && |produced.value| == CeilDiv(|samples| * 16_000, sourceRateHz))
    ensures r.Ok? ==> |r.value| == CeilDiv(|samples| * 16_000, sourceRateHz) && InUnitRange(r.value)
    ensures r.Ok? && sourceRateHz == WORK_SAMPLE_RATE_HZ ==> r.value == samples
    ensures r.Ok? && sourceRateHz != WORK_SAMPLE_RATE_HZ ==> MadeFrom(r.value, produced.value)
    ensures r.Err? ==> r.error == if sourceRateHz == 0 then InvalidSampleRate
                                  else if samples == [] then UnsupportedOrCorruptAudio
                                  else if !WithinCap(|samples|, sourceRateHz) then ResourceLimitExceeded
                                  else ResampleFailed
  {
    if sourceRateHz == 0 {
      return Err(InvalidSampleRate);
    }
    if samples == [] {
      return Err(UnsupportedOrCorruptAudio);
    }
    FrameCountAcceptsExactlyTheCap(|samples|, sourceRateHz);
    var expectedOutputFrames :- ResampledFrameCount(|samples|, sourceRateHz);
    if sourceRateHz == WORK_SAMPLE_RATE_HZ {
      return Ok(samples);
    }
    if produced.None? {
      return Err(ResampleFailed);
    }
    if |produced.value| != expectedOutputFrames {
      return Err(ResampleFailed);
    }
    var output: seq<real> := [];
    while |output| < |produced.value|
      invariant |output| <= |produced.value|
      invariant forall i :: 0 <= i < |output| ==> output[i] == Sanitized(produced.value[i])
      decreases |produced.value| - |output|
    {
      output := output + [Sanitized(produced.value[|output|])];
    }
    return Ok(output);
  }

  /** The declared length is checked before a decoder exists, when the container states a rate. */
  function ValidateDeclaredSourceFrames(declaredFrames: Option<u64>, sampleRateHz: u32): Result<(), AudioError> {
    var maxFrames :- MaxSourceFrames(sampleRateHz);
    if declaredFrames.Some? && declaredFrames.value > maxFrames then Err(ResourceLimitExceeded) else Ok(())
  }

  /** A declared length is accepted exactly within the 24 hours of its rate. */
  lemma DeclaredLengthsExactly(declaredFrames: Option<u64>, rate: u32)
    ensures var r := ValidateDeclaredSourceFrames(declaredFrames, rate);
            && (r == Err(InvalidSampleRate) <==> rate == 0)
            && (r == Err(ResourceLimitExceeded)
                <==> rate > 0 && declaredFrames.Some? && declaredFrames.value > rate * 86_400)
            && (r == Ok(()) <==> rate > 0 && (declaredFrames.Some? ==> declaredFrames.value <= rate * 86_400))
  {
  }

  /** What a file must be for its decode to succeed. */
  ghost predicate Decodable(
    declaredRate: Option<u32>, declaredFrames: Option<u64>, packets: seq<Packet>, produced: Option<seq<Sample>>)
  {
    && (declaredRate.Some? ==> ValidateDeclaredSourceFrames(declaredFrames, declaredRate.value).Ok?)
    && CoherentStream(packets) && WithinBudget(packets) && TotalFrames(packets) > 0 && StreamFormat(packets).Some?
    && var rate := StreamFormat(packets).value.rate;
       rate != WORK_SAMPLE_RATE_HZ ==>
         produced.Some? && rate > 0 && |produced.value| == CeilDiv(TotalFrames(packets) * 16_000, rate)
  }

  /**
   * decode_from_file. Once the stream decodes, only the resampling library can still fail it: no later
   * check or ratio can, the mono signal has one sample per source frame and the working audio has the
   * ceiling of sourceFrames * 16000 / rate samples.
   */
  method DecodeToWorkingAudio(
      declaredRate: Option<u32>, declaredFrames: Option<u64>, packets: seq<Packet>, produced: Option<seq<Sample>>)
    returns (r: Result<WorkingAudio, AudioError>)
    requires DecoderContract(packets)
    ensures r.Ok? <==> Decodable(declaredRate, declaredFrames, packets, produced)
    ensures r.Ok? ==>
        Prepared(r.value) && r.value.sourceFrames == TotalFrames(packets)
        && StreamFormat(packets) == Some(r.value.format)
    ensures r.Ok? && r.value.format.rate == 16_000 ==>
              r.value.samples == MonoOf(AllSamples(packets), r.value.format.channels)
    ensures r.Ok? && r.value.format == Format(16_000, 1) ==> MadeFrom(r.value.samples, AllSamples(packets))
    ensures r.Ok? && r.value.format.rate != 16_000 ==>
              produced.Some? && MadeFrom(r.value.samples, produced.value)
    ensures && (declaredRate.Some? ==> ValidateDeclaredSourceFrames(declaredFrames, declaredRate.value).Ok?)
            && FirstError(packets).None? && TotalFrames(packets) > 0
            ==> r.Ok? || r.error == ResampleFailed
  {
    if declaredRate.Some? {
      var _ :- ValidateDeclaredSourceFrames(declaredFrames, declaredRate.value);
    }
    NoErrorMeansCoherentWithinBudget(packets);
    FramesNeedFormat(packets);
    var track :- DecodePackets(packets);
    var rate, channels := track.format.rate, track.format.channels;
    InterleavedLength(packets);
    WholeFrames(track.sourceFrames, channels);
    OneMonoSamplePerFrame(track.interleaved, channels, track.sourceFrames);
    // The two error returns the source has here and below are dead: the asserts show it.
    var mono := SanitizeAndDownmix(track.interleaved, channels);
    assert mono.Ok?;
    MonoFilesStay(track.interleaved);
    var samples :- ResampleMono(mono.value, rate, produced);
    DurationNeverOverflows(track.sourceFrames, rate);
    var durationMs := CheckedCeilRatio(track.sourceFrames, 1_000, rate);
    assert durationMs.Ok?;
    return Ok(WorkingAudio(samples, track.format, track.sourceFrames, durationMs.value));
  }

  /** What every successful decode establishes. */
  ghost predicate Prepared(audio: WorkingAudio) {
    && 0 < audio.sourceFrames
    && WithinCap(audio.sourceFrames, audio.format.rate)
    && audio.format.channels > 0
    && |audio.samples| == CeilDiv(audio.sourceFrames * 16_000, audio.format.rate)
    && audio.durationMs == CeilDiv(audio.sourceFrames * 1_000, audio.format.rate)
    && InUnitRange(audio.samples)
  }

  lemma WholeFrames(frames: nat, channels: nat)
    requires frames > 0 && channels > 0
    ensures frames * channels > 0 && frames * channels % channels == 0
  {
    var length := frames * channels;
    ProductsOrdered(frames, frames, channels);
    var q := length / channels;
    assert length == q * channels + length % channels;
    FloorGreatest(length, channels, frames);
    ProductsOrdered(frames, q, channels);
  }
}
