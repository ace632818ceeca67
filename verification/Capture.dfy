/**
 Microphone capture: packets of interleaved device samples are mixed down to mono, resampled to
 48 kHz by a cursor that survives from packet to packet, and handed on in frames of 960 samples.

 Samples are reals and the cursor is the exact numerator over 48000.
 */
module Capture {
  import opened Interpolation
  import opened Numbers

  const TARGET_RATE: nat := 48000
  const FRAME_SAMPLES: nat := 960

  /** How many interleaved samples a number of frames has. */
  function Samples(frames: nat, channels: nat): nat {
    if frames == 0 then 0 else Samples(frames - 1, channels) + channels
  }

  lemma {:induction false} SamplesIs(frames: nat, channels: nat)
    ensures Samples(frames, channels) == frames * channels
  {
    if frames > 0 {
      SamplesIs(frames - 1, channels);
    }
  }

  lemma {:induction false} SamplesAdd(m: nat, n: nat, channels: nat)
    ensures Samples(m + n, channels) == Samples(m, channels) + Samples(n, channels)
  {
    if n > 0 {
      SamplesAdd(m, n - 1, channels);
    }
  }

  /** One mono sample: the mean over the channels of a device frame. */
  function Mean(frame: seq<real>): real
    requires frame != []
  {
    Sum(frame) / |frame| as real
  }

  /** The device frames of an interleaved recording. */
  function Chop(interleaved: seq<real>, frames: nat, channels: nat): (fs: seq<seq<real>>)
    requires |interleaved| == Samples(frames, channels)
    ensures |fs| == frames && forall i :: 0 <= i < frames ==> |fs[i]| == channels
    decreases frames
  {
    if frames == 0 then []
    else
      var cut := |interleaved| - channels;
      Chop(interleaved[..cut], frames - 1, channels) + [interleaved[cut..]]
  }

  function Means(frames: seq<seq<real>>): (means: seq<real>)
    requires forall i :: 0 <= i < |frames| ==> frames[i] != []
    ensures |means| == |frames|
  {
    seq(|frames|, i requires 0 <= i < |frames| => Mean(frames[i]))
  }

  /** The mono signal of `frames` device frames of `channels` interleaved samples each. */
  function Downmix(interleaved: seq<real>, frames: nat, channels: nat): (mono: seq<real>)
    requires channels > 0 && |interleaved| == Samples(frames, channels)
    ensures |mono| == frames
  {
    Means(Chop(interleaved, frames, channels))
  }

  lemma {:induction false} ChopConcat(a: seq<real>, m: nat, b: seq<real>, n: nat, channels: nat)
    requires |a| == Samples(m, channels) && |b| == Samples(n, channels)
    ensures |a + b| == Samples(m + n, channels)
    ensures Chop(a + b, m + n, channels) == Chop(a, m, channels) + Chop(b, n, channels)
    decreases n
  {
    SamplesAdd(m, n, channels);
    if n == 0 {
      assert a + b == a;
    } else {
      var cut := |b| - channels;
      ChopConcat(a, m, b[..cut], n - 1, channels);
      assert (a + b)[..|a| + cut] == a + b[..cut];
      assert (a + b)[|a| + cut..] == b[cut..];
    }
  }

  /** Downmixing does not see packet boundaries. */
  lemma {:induction false} DownmixConcat(a: seq<real>, m: nat, b: seq<real>, n: nat, channels: nat)
    requires channels > 0 && |a| == Samples(m, channels) && |b| == Samples(n, channels)
    ensures |a + b| == Samples(m + n, channels)
    ensures Downmix(a + b, m + n, channels) == Downmix(a, m, channels) + Downmix(b, n, channels)
  {
    ChopConcat(a, m, b, n, channels);
  }

  lemma {:induction false} ChopMono(xs: seq<real>)
    ensures |xs| == Samples(|xs|, 1)
    ensures forall k :: 0 <= k < |xs| ==> Chop(xs, |xs|, 1)[k] == [xs[k]]
  {
    SamplesIs(|xs|, 1);
    if xs != [] {
      ChopMono(xs[..|xs| - 1]);
    }
  }

  lemma {:induction false} DownmixMono(xs: seq<real>)
    ensures |xs| == Samples(|xs|, 1) && Downmix(xs, |xs|, 1) == xs
  {
    ChopMono(xs);
    forall k | 0 <= k < |xs|
      ensures Downmix(xs, |xs|, 1)[k] == xs[k]
    {
      SumOne(xs[k]);
    }
  }

  lemma {:induction false} ChopOne(frame: seq<real>)
    ensures Samples(1, |frame|) == |frame| && Chop(frame, 1, |frame|) == [frame]
  {
    assert Samples(1, |frame|) == Samples(0, |frame|) + |frame|;
    assert frame[0..] == frame;
  }

  /** Wherever a frame stands in a recording, its mono sample is the mean of its channels. */
  lemma {:induction false} MonoIsMean(before: seq<real>, m: nat, frame: seq<real>, after: seq<real>, n: nat)
    requires frame != [] && |before| == Samples(m, |frame|) && |after| == Samples(n, |frame|)
    ensures |before + frame + after| == Samples(m + 1 + n, |frame|)
    ensures Downmix(before + frame + after, m + 1 + n, |frame|)[m] * |frame| as real == Sum(frame)
  {
    ChopOne(frame);
    ChopConcat(before, m, frame, 1, |frame|);
    ChopConcat(before + frame, m + 1, after, n, |frame|);
    MeanTimes(frame);
  }

  lemma {:induction false} MeanTimes(frame: seq<real>)
    requires frame != []
    ensures Mean(frame) * |frame| as real == Sum(frame)
  {
  }

  /** What one more frame adds. */
  lemma {:induction false} DownmixSnoc(before: seq<real>, m: nat, frame: seq<real>)
    requires frame != [] && |before| == Samples(m, |frame|)
    ensures |before + frame| == Samples(m + 1, |frame|)
    ensures Downmix(before + frame, m + 1, |frame|) == Downmix(before, m, |frame|) + [Mean(frame)]
  {
    ChopOne(frame);
    ChopConcat(before, m, frame, 1, |frame|);
  }

  function Flatten(frames: seq<seq<real>>): seq<real> {
    if frames == [] then [] else Flatten(frames[..|frames| - 1]) + frames[|frames| - 1]
  }

  ghost predicate WholeFrames(frames: seq<seq<real>>) {
    forall i :: 0 <= i < |frames| ==> |frames[i]| == FRAME_SAMPLES
  }

  /** `frames` and `rest` are the one way to cut `s` into 960-sample frames and a shorter rest. */
  ghost predicate CutOf(s: seq<real>, frames: seq<seq<real>>, rest: seq<real>) {
    WholeFrames(frames) && |rest| < FRAME_SAMPLES && Flatten(frames) + rest == s
  }

  lemma {:induction false} FlattenLength(frames: seq<seq<real>>)
    requires WholeFrames(frames)
    ensures |Flatten(frames)| == |frames| * FRAME_SAMPLES
  {
    if frames != [] {
      FlattenLength(frames[..|frames| - 1]);
    }
  }

  lemma {:induction false} FlattenUnique(f: seq<seq<real>>, g: seq<seq<real>>)
    requires WholeFrames(f) && WholeFrames(g) && Flatten(f) == Flatten(g)
    ensures f == g
  {
    FlattenLength(f);
    FlattenLength(g);
    if f != [] {
      var n := |f| - 1;
      FlattenLength(f[..n]);
      FlattenLength(g[..n]);
      assert Flatten(f)[..n * FRAME_SAMPLES] == Flatten(f[..n]);
      assert Flatten(g)[..n * FRAME_SAMPLES] == Flatten(g[..n]);
      FlattenUnique(f[..n], g[..n]);
      assert f[n] == Flatten(f)[n * FRAME_SAMPLES..];
      assert g[n] == Flatten(g)[n * FRAME_SAMPLES..];
      assert f == f[..n] + [f[n]];
      assert g == g[..n] + [g[n]];
    }
  }

  lemma {:induction false} CutUnique(s: seq<real>, f: seq<seq<real>>, r: seq<real>, g: seq<seq<real>>, q: seq<real>)
    requires CutOf(s, f, r) && CutOf(s, g, q)
    ensures f == g && r == q
  {
    FlattenLength(f);
    FlattenLength(g);
    assert Flatten(f) == s[..|f| * FRAME_SAMPLES];
    assert Flatten(g) == s[..|g| * FRAME_SAMPLES];
    FlattenUnique(f, g);
    assert r == s[|f| * FRAME_SAMPLES..];
  }

  /** Everything a stream of mono samples yields at 48 kHz, computed at once. */
  ghost function Resampled(mono: seq<real>, rate: nat): (out: seq<real>)
    requires rate > 0
    ensures |out| == OutputCount(|mono|, rate, TARGET_RATE)
  {
    var n := OutputCount(|mono|, rate, TARGET_RATE);
    if n > 0 then OutputCountIff(|mono|, rate, TARGET_RATE, n - 1); OneShot(Lerp, mono, rate, TARGET_RATE, n)
    else []
  }

  /** One output for each position before the last recorded sample. */
  ghost predicate Counted(mono: seq<real>, rate: nat, out: seq<real>) {
    if |mono| <= 1 then out == [] else out != [] && (|out| - 1) * rate < (|mono| - 1) * 48000 <= |out| * rate
  }

  /** Straight lines are kept as they are but for the change of rate. */
  ghost predicate Straight(mono: seq<real>, rate: nat, out: seq<real>) {
    forall slope, start :: Ramp(mono, slope, start) ==> Ramp(out, slope * (rate as real / 48000.0), start)
  }

  /** What a capture session owes its recording; at 48 kHz that is the recording itself without its last sample. */
  ghost predicate Linear(mono: seq<real>, rate: nat, out: seq<real>) {
    && Counted(mono, rate, out) && Between(mono, rate, 48000, out) && Straight(mono, rate, out)
    && (rate == 48000 && mono != [] ==> out == mono[..|mono| - 1])
  }

  lemma {:induction false} ResampledReadOff(mono: seq<real>, rate: nat)
    requires rate > 0
    ensures ReadOff(Lerp, mono, rate, TARGET_RATE, Resampled(mono, rate))
  {
    var n := OutputCount(|mono|, rate, TARGET_RATE);
    if n > 0 {
      OutputCountIff(|mono|, rate, TARGET_RATE, n - 1);
      OneShotReadOff(Lerp, mono, rate, TARGET_RATE, n);
    }
  }

  lemma {:induction false} ResampledCount(mono: seq<real>, rate: nat)
    requires rate > 0
    ensures Counted(mono, rate, Resampled(mono, rate))
  {
    var n := OutputCount(|mono|, rate, TARGET_RATE);
    OutputCountIff(|mono|, rate, TARGET_RATE, n);
    ReadyIff(|mono|, n * rate, TARGET_RATE);
    if n > 0 {
      OutputCountIff(|mono|, rate, TARGET_RATE, n - 1);
      ReadyIff(|mono|, (n - 1) * rate, TARGET_RATE);
    }
  }

  lemma {:induction false} ReadOffStraight(mono: seq<real>, rate: nat, out: seq<real>)
    requires ReadOff(Lerp, mono, rate, TARGET_RATE, out)
    ensures Straight(mono, rate, out)
  {
    forall slope, start | Ramp(mono, slope, start)
      ensures Ramp(out, slope * (rate as real / 48000.0), start)
    {
      RampKept(mono, rate, TARGET_RATE, out, slope, start);
    }
  }

  lemma {:induction false} ReadOffLinear(mono: seq<real>, rate: nat, out: seq<real>)
    requires ReadOff(Lerp, mono, rate, TARGET_RATE, out) && Counted(mono, rate, out)
    ensures Linear(mono, rate, out)
  {
    ReadOffBetween(mono, rate, TARGET_RATE, out);
    ReadOffStraight(mono, rate, out);
    if rate == 48000 && mono != [] {
      Passthrough(mono, rate, out);
    }
  }

  lemma {:induction false} ResampledLinear(mono: seq<real>, rate: nat)
    requires rate > 0
    ensures Linear(mono, rate, Resampled(mono, rate))
  {
    ResampledReadOff(mono, rate);
    ResampledCount(mono, rate);
    ReadOffLinear(mono, rate, Resampled(mono, rate));
  }

  /** Mixing down an interleaved buffer, frame by frame and channel by channel. */
  method MixDown(interleaved: seq<real>, frameCount: nat, channels: nat) returns (mono: seq<real>)
    requires channels > 0 && |interleaved| == Samples(frameCount, channels)
    ensures mono == Downmix(interleaved, frameCount, channels)
  {
    mono := [];
    var i := 0;
    var base := 0;
    while i < frameCount
      invariant i <= frameCount && base == Samples(i, channels) <= |interleaved|
      invariant mono == Downmix(interleaved[..base], i, channels)
    {
      SamplesAdd(i + 1, frameCount - i - 1, channels);
      var sum := SumChannels(interleaved, base, channels);
      DownmixSnoc(interleaved[..base], i, interleaved[base..base + channels]);
      assert interleaved[..base] + interleaved[base..base + channels] == interleaved[..base + channels];
      mono := mono + [sum / channels as real];
      i := i + 1;
      base := base + channels;
    }
    assert interleaved[..base] == interleaved;
  }

  method SumChannels(interleaved: seq<real>, base: nat, channels: nat) returns (sum: real)
    requires base + channels <= |interleaved|
    ensures sum == Sum(interleaved[base..base + channels])
  {
    sum := 0.0;
    for c := 0 to channels
      invariant sum == Sum(interleaved[base..base + c])
    {
      sum := sum + interleaved[base + c];
      assert interleaved[base..base + c + 1][..c] == interleaved[base..base + c];
    }
  }

  /** A recording of one channel is mono already. */
  method ToMono(interleaved: seq<real>, frameCount: nat, channels: nat) returns (mono: seq<real>)
    requires channels > 0 && |interleaved| == Samples(frameCount, channels)
    ensures mono == Downmix(interleaved, frameCount, channels)
  {
    if channels <= 1 {
      SamplesIs(frameCount, 1);
      DownmixMono(interleaved);
      mono := interleaved;
    } else {
      mono := MixDown(interleaved, frameCount, channels);
    }
  }

  /** Adding one sample to a cut: the rest grows, or becomes a frame when it reaches 960. */
  lemma {:induction false} CutPush(s: seq<real>, frames: seq<seq<real>>, rest: seq<real>, x: real)
    requires CutOf(s, frames, rest)
    ensures |rest| + 1 < FRAME_SAMPLES ==> CutOf(s + [x], frames, rest + [x])
    ensures |rest| + 1 >= FRAME_SAMPLES ==>
              |rest + [x]| == FRAME_SAMPLES && CutOf(s + [x], frames + [rest + [x]], [])
  {
    assert Flatten(frames) + (rest + [x]) == s + [x];
    assert (frames + [rest + [x]])[..|frames|] == frames;
    assert Flatten(frames) + (rest + [x]) + [] == s + [x];
  }

  /** When the cursor has no second neighbour left, the whole stream has been resampled. */
  lemma {:induction false} Drained(stream: seq<real>, rate: nat, produced: nat)
    requires rate > 0
    requires produced == 0 || Ready(|stream|, (produced - 1) * rate, TARGET_RATE)
    requires !Ready(|stream|, produced * rate, TARGET_RATE)
    ensures Resampled(stream, rate) == OneShot(Lerp, stream, rate, TARGET_RATE, produced)
  {
    OutputCountIff(|stream|, rate, TARGET_RATE, produced);
    if produced > 0 {
      OutputCountIff(|stream|, rate, TARGET_RATE, produced - 1);
    }
  }

  /** One device session of the capture engine. */
  class CaptureEngine {
    const nativeSampleRate: nat
    var nativeMono: seq<real>
    var cursor: nat
    var frameBuffer: seq<real>
    var emitted: seq<seq<real>>      // frames handed to the callback, oldest first
    ghost var stream: seq<real>      // every mono sample of the session
    ghost var dropped: nat           // how many of them nativeMono has given up
    ghost var produced: nat          // how many 48 kHz samples were computed

    ghost predicate Valid()
      reads this
    {
      && dropped <= |stream|
      && nativeMono == stream[dropped..]
      && cursor + dropped * TARGET_RATE == produced * nativeSampleRate
      && (produced == 0 || Ready(|stream|, (produced - 1) * nativeSampleRate, TARGET_RATE))
      && CutOf(OneShot(Lerp, stream, nativeSampleRate, TARGET_RATE, produced), emitted, frameBuffer)
    }

    constructor (rate: nat)
      ensures Valid() && nativeSampleRate == rate && stream == [] && emitted == [] && frameBuffer == []
    {
      nativeSampleRate := rate;
      nativeMono, cursor, frameBuffer, emitted := [], 0, [], [];
      stream, dropped, produced := [], 0, 0;
    }

    method AppendNativeSamples(interleaved: seq<real>, frameCount: nat, channels: nat)
      requires Valid()
      requires channels > 0 && |interleaved| == Samples(frameCount, channels)
      modifies this
      ensures Valid()
      ensures emitted == old(emitted) && frameBuffer == old(frameBuffer)
      ensures stream == old(stream) + Downmix(interleaved, frameCount, channels)
    {
      var mono := ToMono(interleaved, frameCount, channels);
      OneShotExtends(Lerp, stream, mono, nativeSampleRate, TARGET_RATE, produced);
      nativeMono := nativeMono + mono;
      stream := stream + mono;
    }

    /** Appends a 48 kHz sample, and hands on the frame it may complete. */
    method PushSample(sample: real, ghost signal: seq<real>)
      requires CutOf(signal, emitted, frameBuffer)
      modifies this`frameBuffer, this`emitted
      ensures CutOf(signal + [sample], emitted, frameBuffer)
    {
      CutPush(signal, emitted, frameBuffer, sample);
      frameBuffer := frameBuffer + [sample];
      if |frameBuffer| >= FRAME_SAMPLES {
        assert frameBuffer[..FRAME_SAMPLES] == frameBuffer;
        emitted := emitted + [frameBuffer[..FRAME_SAMPLES]];
        frameBuffer := frameBuffer[FRAME_SAMPLES..];
      }
    }

    method ReadSample(idx0: nat) returns (sample: real)
      requires idx0 == cursor / TARGET_RATE && idx0 + 1 < |nativeMono|
      ensures sample == At(Lerp, nativeMono, cursor, TARGET_RATE)
    {
      var frac := (cursor % TARGET_RATE) as real / TARGET_RATE as real;
      sample := Lerp(nativeMono[idx0], nativeMono[idx0 + 1], frac);
    }

    /** Computes one sample at the cursor. */
    method EmitSample(idx0: nat)
      requires Valid() && idx0 == cursor / TARGET_RATE && idx0 + 1 < |nativeMono|
      modifies this`cursor, this`produced, this`frameBuffer, this`emitted
      ensures Valid() && cursor == old(cursor) + nativeSampleRate
    {
      NextOutput(Lerp, stream, nativeSampleRate, TARGET_RATE, dropped, cursor, produced);
      assert (produced + 1) * nativeSampleRate == produced * nativeSampleRate + nativeSampleRate;
      var sample := ReadSample(idx0);
      PushSample(sample, OneShot(Lerp, stream, nativeSampleRate, TARGET_RATE, produced));
      cursor := cursor + nativeSampleRate;
      produced := produced + 1;
    }

    method ResampleAndEmit()
      requires Valid()
      modifies this
      ensures Valid() && stream == old(stream)
      ensures nativeSampleRate == 0 ==> emitted == old(emitted) && frameBuffer == old(frameBuffer)
      ensures nativeSampleRate > 0 ==> CutOf(Resampled(stream, nativeSampleRate), emitted, frameBuffer)
    {
      if nativeSampleRate == 0 || nativeMono == [] {
        NextOutput(Lerp, stream, nativeSampleRate, TARGET_RATE, dropped, cursor, produced);
        if nativeSampleRate > 0 {
          Drained(stream, nativeSampleRate, produced);
        }
        return;
      }
      while true
        invariant Valid() && stream == old(stream) && nativeMono == old(nativeMono)
        decreases |nativeMono| * TARGET_RATE - cursor
      {
        var idx0 := cursor / TARGET_RATE;
        if idx0 + 1 >= |nativeMono| {
          break;
        }
        EmitSample(idx0);
      }
      NextOutput(Lerp, stream, nativeSampleRate, TARGET_RATE, dropped, cursor, produced);
      Drained(stream, nativeSampleRate, produced);
      DropConsumed();
    }

    /** Gives up the input behind the cursor. */
    method DropConsumed()
      requires Valid()
      modifies this`nativeMono, this`cursor, this`dropped
      ensures Valid()
    {
      var consumed := cursor / TARGET_RATE;
      if consumed > 0 && consumed <= |nativeMono| {
        nativeMono := nativeMono[consumed..];
        cursor := cursor - consumed * TARGET_RATE;
        dropped := dropped + consumed;
      }
    }
  }

  /** What the device delivers at once: `frameCount` interleaved frames. */
  datatype Packet = Packet(interleaved: seq<real>, frameCount: nat)

  function Recording(packets: seq<Packet>): seq<real> {
    if packets == [] then [] else Recording(packets[..|packets| - 1]) + packets[|packets| - 1].interleaved
  }

  function FrameTotal(packets: seq<Packet>): nat {
    if packets == [] then 0 else FrameTotal(packets[..|packets| - 1]) + packets[|packets| - 1].frameCount
  }

  ghost predicate WellFormed(packets: seq<Packet>, channels: nat) {
    forall p :: p in packets ==> |p.interleaved| == Samples(p.frameCount, channels)
  }

  lemma {:induction false} RecordingLength(packets: seq<Packet>, channels: nat)
    requires WellFormed(packets, channels)
    ensures |Recording(packets)| == Samples(FrameTotal(packets), channels)
  {
    if packets != [] {
      var init, last := packets[..|packets| - 1], packets[|packets| - 1];
      RecordingLength(init, channels);
      assert last in packets;
      SamplesAdd(FrameTotal(init), last.frameCount, channels);
    }
  }

  /** What one more packet adds to the mono stream. */
  lemma {:induction false} NextPacket(packets: seq<Packet>, i: nat, channels: nat)
    requires channels > 0 && WellFormed(packets, channels) && i < |packets|
    ensures var p := packets[i];
            && |p.interleaved| == Samples(p.frameCount, channels)
            && |Recording(packets[..i])| == Samples(FrameTotal(packets[..i]), channels)
            && |Recording(packets[..i + 1])| == Samples(FrameTotal(packets[..i + 1]), channels)
            && Downmix(Recording(packets[..i + 1]), FrameTotal(packets[..i + 1]), channels) ==
               Downmix(Recording(packets[..i]), FrameTotal(packets[..i]), channels) + Downmix(p.interleaved, p.frameCount, channels)
  {
    var p := packets[i];
    assert p in packets;
    assert packets[..i + 1][..i] == packets[..i];
    RecordingLength(packets[..i], channels);
    RecordingLength(packets[..i + 1], channels);
    DownmixConcat(Recording(packets[..i]), FrameTotal(packets[..i]), p.interleaved, p.frameCount, channels);
  }

  /** A whole recording mixed down. */
  ghost function Mono(packets: seq<Packet>, channels: nat): seq<real>
    requires channels > 0 && WellFormed(packets, channels)
  {
    RecordingLength(packets, channels);
    Downmix(Recording(packets), FrameTotal(packets), channels)
  }

  /** The 48 kHz signal of a whole recording. */
  ghost function Signal(packets: seq<Packet>, channels: nat, rate: nat): seq<real>
    requires channels > 0 && rate > 0 && WellFormed(packets, channels)
  {
    Resampled(Mono(packets, channels), rate)
  }

  /** What the session emits is linear in its recording. */
  lemma {:induction false} SessionLinear(packets: seq<Packet>, channels: nat, rate: nat, frames: seq<seq<real>>, leftover: seq<real>)
    requires channels > 0 && rate > 0 && WellFormed(packets, channels) && CutOf(Signal(packets, channels, rate), frames, leftover)
    ensures Linear(Mono(packets, channels), rate, Flatten(frames) + leftover)
  {
    ResampledLinear(Mono(packets, channels), rate);
  }

  /** A whole capture session: append and resample, packet after packet. */
  method CaptureSession(packets: seq<Packet>, channels: nat, rate: nat)
    returns (frames: seq<seq<real>>, leftover: seq<real>)
    requires channels > 0 && WellFormed(packets, channels)
    ensures rate == 0 ==> frames == [] && leftover == []
    ensures rate > 0 ==> CutOf(Signal(packets, channels, rate), frames, leftover)
    ensures rate > 0 ==> Linear(Mono(packets, channels), rate, Flatten(frames) + leftover)
  {
    var engine := new CaptureEngine(rate);
    for i := 0 to |packets|
      invariant engine.Valid() && fresh(engine) && engine.nativeSampleRate == rate
      invariant |Recording(packets[..i])| == Samples(FrameTotal(packets[..i]), channels)
      invariant engine.stream == Downmix(Recording(packets[..i]), FrameTotal(packets[..i]), channels)
      invariant rate == 0 ==> engine.emitted == [] && engine.frameBuffer == []
      invariant rate > 0 ==> CutOf(Resampled(engine.stream, rate), engine.emitted, engine.frameBuffer)
    {
      var p := packets[i];
      NextPacket(packets, i, channels);
      engine.AppendNativeSamples(p.interleaved, p.frameCount, channels);
      engine.ResampleAndEmit();
    }
    assert packets[..|packets|] == packets;
    frames, leftover := engine.emitted, engine.frameBuffer;
    if rate > 0 {
      SessionLinear(packets, channels, rate, frames, leftover);
    }
  }

  /** However one recording is cut into packets, the session emits the same frames and keeps the same leftover. */
  lemma {:induction false} PacketisationIndependent(p: seq<Packet>, q: seq<Packet>, channels: nat, rate: nat,
                                 f: seq<seq<real>>, r: seq<real>, g: seq<seq<real>>, s: seq<real>)
    requires channels > 0 && rate > 0 && WellFormed(p, channels) && WellFormed(q, channels)
    requires Recording(p) == Recording(q)
    requires CutOf(Signal(p, channels, rate), f, r) && CutOf(Signal(q, channels, rate), g, s)
    ensures f == g && r == s
  {
    RecordingLength(p, channels);
    RecordingLength(q, channels);
    SamplesCancel(FrameTotal(p), FrameTotal(q), channels);
    CutUnique(Signal(p, channels, rate), f, r, g, s);
  }

  lemma {:induction false} SamplesCancel(m: nat, n: nat, channels: nat)
    requires channels > 0 && Samples(m, channels) == Samples(n, channels)
    ensures m == n
  {
    if m > 0 && n > 0 {
      SamplesCancel(m - 1, n - 1, channels);
    }
  }
}
