/**
 The transmit side of a talkspurt: automatic gain, the gate that decides per captured frame, and the
 explicit end-of-talkspurt frame.

 Root-mean-square levels arrive as reals and the encoder as the payload it returned, empty when it
 failed. Times are milliseconds.
 */
module Transmit {
  import opened Numbers

  type Payload = seq<int>

  datatype Frame = Frame(data: Payload, isLast: bool)

  datatype Mode = PushToTalk | VoiceActivation | AlwaysOn

  datatype Controls = Controls(mode: Mode, pttHeld: bool, micMuted: bool, hasOverride: bool, overrideValue: bool,
                               vadThreshold: real, micVolume: real)

  /** One captured frame: its level, the clock, the controls in force, and what the encoder returned. */
  datatype Captured = Captured(rawRms: real, now: int, controls: Controls, payload: Payload)

  datatype Sender = Sender(autoGain: real, hangoverUntil: int, wasTransmitting: bool)

  const AGC_TARGET := 0.08
  const AGC_MIN := 1.0
  const AGC_MAX := 12.0
  const AGC_ATTACK := 0.4
  const AGC_RELEASE := 0.05
  const RMS_FLOOR := 0.0001
  const VAD_HANGOVER := 300

  const INITIAL := Sender(1.0, 0, false)

  /** The gain this level asks for. */
  function Desired(rms: real): real
    requires rms >= RMS_FLOOR
  {
    Clamp(AGC_TARGET / rms, AGC_MIN, AGC_MAX)
  }

  function Agc(gain: real, rms: real, voiceLike: bool): real {
    if rms < RMS_FLOOR then gain
    else
      var desired := Desired(rms);
      if desired < gain then gain + (desired - gain) * AGC_ATTACK
      else if voiceLike then gain + (desired - gain) * AGC_RELEASE
      else gain
  }

  function VadLevel(c: Captured): real { c.rawRms * c.controls.micVolume }

  predicate VoiceLike(c: Captured) { VadLevel(c) >= c.controls.vadThreshold }

  /** Only voice activation is consulted, and only then does the hangover move. */
  predicate Listening(c: Captured) {
    !c.controls.hasOverride && !c.controls.micMuted && c.controls.mode.VoiceActivation?
  }

  function Hangover(s: Sender, c: Captured): int {
    if Listening(c) && VoiceLike(c) then c.now + VAD_HANGOVER else s.hangoverUntil
  }

  predicate ShouldTransmit(s: Sender, c: Captured) {
    if c.controls.hasOverride then c.controls.overrideValue
    else if c.controls.micMuted then false
    else
      match c.controls.mode
      case AlwaysOn => true
      case PushToTalk => c.controls.pttHeld
      case VoiceActivation => VoiceLike(c) || c.now < s.hangoverUntil
  }

  function Step(s: Sender, c: Captured): Sender {
    Sender(Agc(s.autoGain, c.rawRms, VoiceLike(c)), Hangover(s, c), ShouldTransmit(s, c))
  }

  /** What one captured frame puts on the wire. */
  function Emitted(s: Sender, c: Captured): seq<Frame> {
    if c.payload == [] then []
    else if ShouldTransmit(s, c) then [Frame(c.payload, false)]
    else if s.wasTransmitting then [Frame(c.payload, true)]
    else []
  }

  function After(inputs: seq<Captured>): Sender {
    if inputs == [] then INITIAL else Step(After(inputs[..|inputs| - 1]), inputs[|inputs| - 1])
  }

  function Sent(inputs: seq<Captured>): seq<Frame> {
    if inputs == [] then []
    else
      var n := |inputs| - 1;
      Sent(inputs[..n]) + Emitted(After(inputs[..n]), inputs[n])
  }

  ghost predicate Encodes(inputs: seq<Captured>) {
    forall k :: 0 <= k < |inputs| ==> inputs[k].payload != []
  }

  /** (data+ last)* data*: an end frame is always preceded by a data frame. */
  ghost predicate Talkspurts(frames: seq<Frame>) {
    forall k :: 0 <= k < |frames| && frames[k].isLast ==> k > 0 && !frames[k - 1].isLast
  }

  /** Whether a data frame is out that no end frame has followed yet. */
  predicate Open(inputs: seq<Captured>) {
    if inputs == [] then false
    else
      var n := |inputs| - 1;
      var s := After(inputs[..n]);
      if inputs[n].payload == [] then Open(inputs[..n])
      else ShouldTransmit(s, inputs[n]) || (!s.wasTransmitting && Open(inputs[..n]))
  }

  /** An end frame goes out at `k`. */
  predicate EndsAt(inputs: seq<Captured>, k: nat)
    requires k < |inputs|
  {
    var s := After(inputs[..k]);
    inputs[k].payload != [] && !ShouldTransmit(s, inputs[k]) && s.wasTransmitting
  }

  lemma {:induction false} OpenIff(inputs: seq<Captured>)
    ensures Open(inputs) <==> Sent(inputs) != [] && !Sent(inputs)[|Sent(inputs)| - 1].isLast
  {
    if inputs != [] {
      OpenIff(inputs[..|inputs| - 1]);
    }
  }

  lemma {:induction false} TalkspurtsSnoc(frames: seq<Frame>, f: Frame)
    ensures Talkspurts(frames + [f]) <==>
            Talkspurts(frames) && (f.isLast ==> frames != [] && !frames[|frames| - 1].isLast)
  {
    var all := frames + [f];
    if Talkspurts(all) {
      assert forall k :: 0 <= k < |frames| ==> frames[k] == all[k];
      assert all[|frames|] == f;
    }
  }

  ghost predicate EndsFollowData(inputs: seq<Captured>) {
    forall k :: 0 <= k < |inputs| && EndsAt(inputs, k) ==> Open(inputs[..k])
  }

  lemma {:induction false} EndsFollowDataSnoc(inputs: seq<Captured>, n: nat)
    requires n + 1 == |inputs|
    ensures EndsFollowData(inputs) <==> EndsFollowData(inputs[..n]) && (EndsAt(inputs, n) ==> Open(inputs[..n]))
  {
    forall k | 0 <= k < n
      ensures inputs[..n][..k] == inputs[..k] && EndsAt(inputs[..n], k) == EndsAt(inputs, k)
    {
      assert inputs[..n][..k] == inputs[..k];
    }
  }

  /**
   Whatever the encoder does, the wire carries (data+ last)* data* if and only if no end frame goes out unless
   a data frame has gone out since the last one.
   */
  lemma {:induction false} TalkspurtsIff(inputs: seq<Captured>)
    ensures Talkspurts(Sent(inputs)) <==> EndsFollowData(inputs)
  {
    if inputs != [] {
      var n := |inputs| - 1;
      TalkspurtsIff(inputs[..n]);
      OpenIff(inputs[..n]);
      EndsFollowDataSnoc(inputs, n);
      SentSnoc(inputs, n);
    }
  }

  /** What the last frame adds to the wire. */
  lemma {:induction false} SentSnoc(inputs: seq<Captured>, n: nat)
    requires n + 1 == |inputs|
    ensures Talkspurts(Sent(inputs)) <==>
            Talkspurts(Sent(inputs[..n])) &&
            (EndsAt(inputs, n) ==> Sent(inputs[..n]) != [] && !Sent(inputs[..n])[|Sent(inputs[..n])| - 1].isLast)
  {
    var sent, emitted := Sent(inputs[..n]), Emitted(After(inputs[..n]), inputs[n]);
    if emitted == [] {
      assert Sent(inputs) == sent;
    } else {
      assert Sent(inputs) == sent + [emitted[0]];
      TalkspurtsSnoc(sent, emitted[0]);
    }
  }

  lemma {:induction false} EncodesOpen(inputs: seq<Captured>)
    requires Encodes(inputs)
    ensures Open(inputs) <==> After(inputs).wasTransmitting
  {
    if inputs != [] {
      EncodesOpen(inputs[..|inputs| - 1]);
    }
  }

  /** With an encoder that succeeds, the wire carries whole talkspurts and the sender knows whether one is open. */
  lemma {:induction false} SentIsTalkspurts(inputs: seq<Captured>)
    requires Encodes(inputs)
    ensures Talkspurts(Sent(inputs))
    ensures After(inputs).wasTransmitting <==>
            Sent(inputs) != [] && !Sent(inputs)[|Sent(inputs)| - 1].isLast
  {
    forall k | 0 <= k < |inputs| && EndsAt(inputs, k)
      ensures Open(inputs[..k])
    {
      EncodesOpen(inputs[..k]);
    }
    TalkspurtsIff(inputs);
    EncodesOpen(inputs);
    OpenIff(inputs);
  }

  /** One failing encode is enough to put an end frame on the wire with no data before it. */
  lemma {:induction false} TalkspurtsNeedTheEncoder(on: Captured, off: Captured)
    requires ShouldTransmit(INITIAL, on) && on.payload == []
    requires !ShouldTransmit(Step(INITIAL, on), off) && off.payload != []
    ensures Sent([on, off]) == [Frame(off.payload, true)] && !Talkspurts(Sent([on, off]))
  {
    var inputs := [on, off];
    assert inputs[..1] == [on] && [on][..0] == [] && inputs[..0] == [];
    assert Sent([on]) == [] && EndsAt(inputs, 1) && !Open(inputs[..1]);
    TalkspurtsIff(inputs);
  }

  lemma {:induction false} AgcStep(gain: real, rms: real, voiceLike: bool)
    requires AGC_MIN <= gain <= AGC_MAX
    ensures AGC_MIN <= Agc(gain, rms, voiceLike) <= AGC_MAX
    ensures Agc(gain, rms, voiceLike) > gain ==> rms >= RMS_FLOOR && voiceLike && Agc(gain, rms, voiceLike) < Desired(rms)
    ensures Agc(gain, rms, voiceLike) < gain ==> rms >= RMS_FLOOR && Desired(rms) < Agc(gain, rms, voiceLike)
  {
  }

  /** The gain stays within its limits over every run. */
  lemma {:induction false} GainBounded(inputs: seq<Captured>)
    ensures AGC_MIN <= After(inputs).autoGain <= AGC_MAX
  {
    if inputs != [] {
      var n := |inputs| - 1;
      GainBounded(inputs[..n]);
      AgcStep(After(inputs[..n]).autoGain, inputs[n].rawRms, VoiceLike(inputs[n]));
    }
  }

  function Power(x: real, n: nat): real {
    if n == 0 then 1.0 else x * Power(x, n - 1)
  }

  function Repeat(gain: real, rms: real, n: nat): real {
    if n == 0 then gain else Agc(Repeat(gain, rms, n - 1), rms, true)
  }

  /** The share of the distance to the desired gain that one frame leaves over. */
  function Remaining(gain: real, rms: real): real
    requires rms >= RMS_FLOOR
  {
    if Desired(rms) < gain then 1.0 - AGC_ATTACK else 1.0 - AGC_RELEASE
  }

  lemma {:induction false} AgcShrinks(gain: real, rms: real)
    requires rms >= RMS_FLOOR
    ensures Agc(gain, rms, true) - Desired(rms) == (gain - Desired(rms)) * Remaining(gain, rms)
    ensures Remaining(Agc(gain, rms, true), rms) == Remaining(gain, rms)
  {
  }

  lemma {:induction false} Associate(x: real, y: real, z: real)
    ensures (x * y) * z == x * (z * y)
  {
  }

  /** At a steady voice level the distance to the desired gain decays geometrically, without overshoot. */
  lemma {:induction false} GainConverges(gain: real, rms: real, n: nat)
    requires rms >= RMS_FLOOR
    ensures Repeat(gain, rms, n) - Desired(rms) == (gain - Desired(rms)) * Power(Remaining(gain, rms), n)
    ensures Remaining(Repeat(gain, rms, n), rms) == Remaining(gain, rms)
  {
    if n > 0 {
      GainConverges(gain, rms, n - 1);
      AgcShrinks(Repeat(gain, rms, n - 1), rms);
      Associate(gain - Desired(rms), Power(Remaining(gain, rms), n - 1), Remaining(gain, rms));
    }
  }

  ghost predicate Monotone(inputs: seq<Captured>) {
    forall j, k :: 0 <= j <= k < |inputs| ==> 0 <= inputs[j].now <= inputs[k].now
  }

  /** The latest voice-like frame heard within the hangover, if any, keeps the gate open. */
  ghost predicate HeardRecently(inputs: seq<Captured>, now: int) {
    exists j :: 0 <= j < |inputs| && Listening(inputs[j]) && VoiceLike(inputs[j]) && now < inputs[j].now + VAD_HANGOVER
  }

  lemma {:induction false} HangoverIff(inputs: seq<Captured>, now: int)
    requires Monotone(inputs) && now >= 0 && forall k :: 0 <= k < |inputs| ==> inputs[k].now <= now
    ensures now < After(inputs).hangoverUntil <==> HeardRecently(inputs, now)
    ensures After(inputs).hangoverUntil >= 0
  {
    if inputs != [] {
      var n := |inputs| - 1;
      HangoverIff(inputs[..n], now);
      assert HeardRecently(inputs[..n], now) ==> HeardRecently(inputs, now);
      assert forall j :: 0 <= j < n ==> inputs[j].now <= inputs[n].now;
    }
  }

  /** Under voice activation a frame goes out exactly when it, or one less than 300 ms before it, was voice-like. */
  lemma {:induction false} VoiceActivationIff(inputs: seq<Captured>, c: Captured)
    requires Monotone(inputs + [c]) && Listening(c)
    ensures ShouldTransmit(After(inputs), c) <==> VoiceLike(c) || HeardRecently(inputs, c.now)
  {
    assert forall k :: 0 <= k < |inputs| ==> (inputs + [c])[k] == inputs[k];
    assert (inputs + [c])[|inputs|] == c;
    HangoverIff(inputs, c.now);
  }

  // ---------------------------------------------------------------- what goes out, said of the captured frames

  /** The level, at the microphone volume, reaches the threshold. */
  ghost predicate Loud(c: Captured) { c.rawRms * c.controls.micVolume >= c.controls.vadThreshold }

  /** A frame captured while the voice was listened for, loud, and less than 300 ms before `now`. */
  ghost predicate LoudRecently(inputs: seq<Captured>, now: int) {
    exists j :: 0 <= j < |inputs| &&
                !inputs[j].controls.hasOverride && !inputs[j].controls.micMuted && inputs[j].controls.mode.VoiceActivation? &&
                Loud(inputs[j]) && now - inputs[j].now < 300
  }

  /** Whether a frame is to go out: as the override says, never when muted, and otherwise as the mode says. */
  ghost predicate Gate(inputs: seq<Captured>, c: Captured) {
    if c.controls.hasOverride then c.controls.overrideValue
    else
      && !c.controls.micMuted
      && (c.controls.mode.PushToTalk? ==> c.controls.pttHeld)
      && (c.controls.mode.VoiceActivation? ==> Loud(c) || LoudRecently(inputs, c.now))
  }

  lemma {:induction false} GateIff(inputs: seq<Captured>, c: Captured)
    requires Monotone(inputs + [c])
    ensures ShouldTransmit(After(inputs), c) <==> Gate(inputs, c)
  {
    if Listening(c) {
      VoiceActivationIff(inputs, c);
      assert HeardRecently(inputs, c.now) <==> LoudRecently(inputs, c.now);
    }
  }

  /** The sender remembers whether the gate was open for the frame before. */
  lemma {:induction false} WasOpen(inputs: seq<Captured>)
    requires Monotone(inputs)
    ensures After(inputs).wasTransmitting <==> inputs != [] && Gate(inputs[..|inputs| - 1], inputs[|inputs| - 1])
  {
    if inputs != [] {
      var n := |inputs| - 1;
      assert inputs[..n] + [inputs[n]] == inputs;
      GateIff(inputs[..n], inputs[n]);
    }
  }

  /**
   Over every run, an encoded frame goes out as data if and only if the gate is open for it, and as an end frame if
   and only if the gate is closed for it and was open for the frame before; a frame that was not encoded never does.
   */
  lemma {:induction false} SentIff(inputs: seq<Captured>, c: Captured)
    requires Monotone(inputs + [c])
    ensures var wasOpen := inputs != [] && Gate(inputs[..|inputs| - 1], inputs[|inputs| - 1]);
            Sent(inputs + [c]) == Sent(inputs) +
                                  if c.payload != [] && Gate(inputs, c) then [Frame(c.payload, false)]
                                  else if c.payload != [] && wasOpen then [Frame(c.payload, true)] else []
  {
    assert (inputs + [c])[..|inputs|] == inputs;
    assert Monotone(inputs) by {
      assert forall k :: 0 <= k < |inputs| ==> (inputs + [c])[k] == inputs[k];
    }
    GateIff(inputs, c);
    WasOpen(inputs);
  }

  lemma {:induction false} LevelOrder(x: real, y: real, rms: real)
    requires rms > 0.0
    ensures x < y <==> x * rms < y * rms
  {
    var gap := (y - x) * rms;
    assert gap == y * rms - x * rms;
    if x < y {
      assert gap > 0.0;
    } else {
      assert (x - y) * rms >= 0.0 && gap == -((x - y) * rms);
    }
  }

  lemma {:induction false} DesiredIs(rms: real) returns (d: real)
    requires rms > 0.0 && rms <= 0.08 <= rms * 12.0
    ensures rms >= RMS_FLOOR && d == Desired(rms) && d * rms == 0.08
  {
    d := 0.08 / rms;
    assert d * rms == 0.08;
    LevelOrder(d, 1.0, rms);
    LevelOrder(12.0, d, rms);
  }

  lemma {:induction false} DesiredLevel(rms: real, gain: real)
    requires rms > 0.0 && rms <= 0.08 <= rms * 12.0
    ensures rms >= RMS_FLOOR && Desired(rms) * rms == 0.08
    ensures Desired(rms) < gain <==> 0.08 < gain * rms
  {
    var d := DesiredIs(rms);
    var target, level := d * rms, gain * rms;
    LevelOrder(d, gain, rms);
    assert d < gain <==> target < level;
  }

  lemma {:induction false} Distributed(x: real, y: real, d: real, p: real, r: real)
    requires x - d == (y - d) * p
    ensures x * r - d * r == (y * r - d * r) * p
  {
    assert x * r - d * r == (x - d) * r;
    assert y * r - d * r == (y - d) * r;
    assert (y - d) * p * r == (y - d) * r * p;
  }

  /**
   A voice that a gain between 1 and 12 can bring to the target level is brought there: of the distance a frame leaves
   60 % when the voice is too loud and 95 % when it is too quiet.
   */
  lemma {:induction false} LevelReached(gain: real, rms: real, n: nat)
    requires rms > 0.0 && rms <= 0.08 <= rms * 12.0
    ensures Repeat(gain, rms, n) * rms - 0.08 == (gain * rms - 0.08) * Power(if gain * rms > 0.08 then 0.6 else 0.95, n)
  {
    DesiredLevel(rms, gain);
    GainConverges(gain, rms, n);
    var p := if gain * rms > 0.08 then 0.6 else 0.95;
    assert Remaining(gain, rms) == p;
    Distributed(Repeat(gain, rms, n), gain, Desired(rms), Power(p, n), rms);
  }

  /** The controller as the capture callback drives it. */
  class TransmitController {
    var autoGain: real
    var hangoverUntil: int
    var wasTransmitting: bool
    var sent: seq<Frame>
    ghost var heard: seq<Captured>

    ghost predicate Valid()
      reads this
    {
      Sender(autoGain, hangoverUntil, wasTransmitting) == After(heard) && sent == Sent(heard)
    }

    constructor ()
      ensures Valid() && heard == []
    {
      autoGain, hangoverUntil, wasTransmitting := 1.0, 0, false;
      sent, heard := [], [];
    }

    method EvaluateVoiceActivation(c: Captured) returns (open: bool)
      modifies this`hangoverUntil
      ensures open == (VoiceLike(c) || c.now < old(hangoverUntil))
      ensures hangoverUntil == if VoiceLike(c) then c.now + VAD_HANGOVER else old(hangoverUntil)
    {
      if VoiceLike(c) {
        hangoverUntil := c.now + VAD_HANGOVER;
        return true;
      }
      open := c.now < hangoverUntil;
    }

    method DetermineShouldTransmit(c: Captured) returns (transmit: bool)
      modifies this`hangoverUntil
      ensures transmit == ShouldTransmit(old(Sender(autoGain, hangoverUntil, wasTransmitting)), c)
      ensures hangoverUntil == Hangover(old(Sender(autoGain, hangoverUntil, wasTransmitting)), c)
    {
      if c.controls.hasOverride {
        return c.controls.overrideValue;
      }
      if c.controls.micMuted {
        return false;
      }
      match c.controls.mode {
        case AlwaysOn => transmit := true;
        case PushToTalk => transmit := c.controls.pttHeld;
        case VoiceActivation => transmit := EvaluateVoiceActivation(c);
      }
    }

    method UpdateGain(rawRms: real, levelIsVoiceLike: bool)
      modifies this`autoGain
      ensures autoGain == Agc(old(autoGain), rawRms, levelIsVoiceLike)
    {
      if rawRms >= RMS_FLOOR {
        var desired := Clamp(AGC_TARGET / rawRms, AGC_MIN, AGC_MAX);
        if desired < autoGain {
          autoGain := autoGain + (desired - autoGain) * AGC_ATTACK;
        } else if levelIsVoiceLike {
          autoGain := autoGain + (desired - autoGain) * AGC_RELEASE;
        }
      }
    }

    method OnFrameCaptured(c: Captured)
      requires Valid()
      modifies this
      ensures Valid() && heard == old(heard) + [c]
      ensures sent == old(sent) + Emitted(After(old(heard)), c)
    {
      UpdateGain(c.rawRms, VoiceLike(c));
      var shouldTransmit := DetermineShouldTransmit(c);
      if shouldTransmit {
        if |c.payload| > 0 {
          sent := sent + [Frame(c.payload, false)];
        }
        wasTransmitting := true;
      } else if wasTransmitting {
        if |c.payload| > 0 {
          sent := sent + [Frame(c.payload, true)];
        }
        wasTransmitting := false;
      }
      heard := heard + [c];
      assert heard[..|heard| - 1] == old(heard);
    }
  }
}
