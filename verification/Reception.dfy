/**
 Hearing one remote's transmission: in the listener's own radio, and out of other people's speakers.
 Positions are already extrapolated; the distance, attenuation and direction formulas are given.
 */
module Reception {
  import opened Numbers
  import opened Wrappers
  import opened Towers
  import opened Sequences

  datatype Fx = Sw | Lr | Airborne | Dd | Phone | FromSpeaker

  datatype Vehicle = Vehicle(name: string, isolation: real)

  /** A radio the listener is tuned with. */
  datatype Setting = Setting(volume: int, stereoMode: int, classname: string)

  datatype Listener = Listener(pos: Pos, view: Pos, canUseSw: bool, canUseLr: bool, canSpeak: bool, vehicle: Vehicle,
                               sw: map<string, Setting>, lr: map<string, Setting>, headsetLowered: bool, fullDuplex: bool,
                               tangentPressed: bool, txClassname: string, wavesLevel: real, speakerDistance: real)

  datatype Sender = Sender(nickname: string, pos: Pos, canUseSw: bool, canSpeak: bool, isSpectating: bool, effectiveDistance: real)

  datatype Transmission = Transmission(frequency: string, range: real, subtype: string)

  /** `pos` is the null vector when the speaker is carried by its owner. */
  datatype Speaker = Speaker(frequencies: seq<string>, owner: string, pos: Pos, volume: int, vehicle: Vehicle)

  datatype Physics = Physics(dist: Metric, underwater: Metric, volumeMultiplier: int -> real,
                             attenuation: (real, bool, real, real) -> real, muffling: real -> real, azimuth: (Pos, Pos, Pos) -> real)

  datatype Unit = Unit(nickname: string, fx: Fx, gain: real, az: real, stereoMode: int, err: real)

  const DD_MIN_DISTANCE := 70.0
  const DD_MAX_DISTANCE := 300.0
  const SPEAKER_GAIN := 4.0

  function FxOf(subtype: string, underwater: bool): Option<Fx> {
    if subtype == "digital" then Some(if underwater then Dd else Sw)
    else if subtype == "digital_lr" then Some(Lr)
    else if subtype == "airborne" then Some(Airborne)
    else if subtype == "dd" then Some(Dd)
    else if subtype == "phone" then Some(Phone)
    else None
  }

  predicate InRange(tx: Transmission, him: Sender, loss: real) {
    (tx.range > 0.0 && him.effectiveDistance <= tx.range) || loss < NO_LOSS
  }

  /** The radio that receives, and whether it is a long-range one; half duplex rules out the one being transmitted with. */
  function Receiver(me: Listener, tx: Transmission): Option<(Setting, bool)> {
    var chosen :=
      if tx.frequency in me.lr && me.canUseLr then Some((me.lr[tx.frequency], true))
      else if tx.frequency in me.sw && me.canUseSw then Some((me.sw[tx.frequency], false))
      else None;
    if chosen.Some? && !me.fullDuplex && me.tangentPressed && me.txClassname != "" && chosen.value.0.classname == me.txClassname
    then None else chosen
  }

  function Reach(tx: Transmission): (r: real)
    ensures r >= 1.0
  {
    if tx.range > 1.0 then tx.range else 1.0
  }

  /** The error a distance causes by itself. */
  function DistanceError(w: Physics, me: Listener, him: Sender, tx: Transmission, fx: Fx): real {
    if fx == Dd then
      var reach := DD_MIN_DISTANCE + (DD_MAX_DISTANCE - DD_MIN_DISTANCE) * (1.0 - me.wavesLevel);
      var uw := w.underwater(me.pos, him.pos);
      (uw * (Reach(tx) / (if reach > 0.0 then reach else 1.0)) + (w.dist(me.pos, him.pos) - uw)) / Reach(tx)
    else him.effectiveDistance / Reach(tx)
  }

  function ErrorLevel(distanceError: real, loss: real): real {
    Clamp(Better(distanceError, loss), 0.0, 1.0)
  }

  function RadioGain(w: Physics, me: Listener, setting: Setting, fx: Fx): real {
    var level := w.volumeMultiplier(setting.volume);
    var lowered := if me.headsetLowered then level * 0.1 else level;
    if fx == Phone then lowered * 10.0 else lowered * 0.35
  }

  /** The transmission in the listener's own radio. */
  function RadioPath(w: Physics, me: Listener, him: Sender, tx: Transmission, loss: real): Option<Unit> {
    var receiver := Receiver(me, tx);
    var fx := FxOf(tx.subtype, him.pos.z < 0.0 && !him.canUseSw);
    if receiver.None? || fx.None? then None
    else
      var setting := receiver.value.0;
      var unit := Unit(him.nickname, fx.value, RadioGain(w, me, setting, fx.value), 0.0, setting.stereoMode,
                       ErrorLevel(DistanceError(w, me, him, tx, fx.value), loss));
      if unit.gain > 0.0 then Some(unit) else None
  }

  /** A loud long-range reception asks for the intercom to be ducked. */
  predicate AsksDucking(me: Listener, him: Sender, tx: Transmission) {
    var receiver := Receiver(me, tx);
    && receiver.Some? && receiver.value.1 && receiver.value.0.volume > 2
    && FxOf(tx.subtype, him.pos.z < 0.0 && !him.canUseSw).Some?
  }

  predicate IsNull(p: Pos) { p.x == 0.0 && p.y == 0.0 && p.z == 0.0 }

  /** Where a speaker sounds, if it does. */
  function SoundsAt(s: Speaker, clients: map<string, Pos>): Option<Pos> {
    var at := if !IsNull(s.pos) then Some(s.pos)
              else if s.owner in clients then Some(clients[s.owner]) else None;
    if at.None? || IsNull(at.value) || at.value.z < 0.0 then None else at
  }

  function SpeakerReach(me: Listener, s: Speaker): real {
    if s.volume < 20 then s.volume as real / 10.0 * me.speakerDistance else s.volume as real * 1.9
  }

  function SpeakerGain(w: Physics, me: Listener, him: Sender, s: Speaker, at: Pos): real {
    var isolation := if me.vehicle.name == s.vehicle.name then 0.0
                     else Clamp(me.vehicle.isolation + s.vehicle.isolation, 0.0, 0.99);
    var reach := SpeakerReach(me, s);
    var hear := him.canSpeak && me.canSpeak;
    var attenuation := if isolation < 0.01 then w.attenuation(w.dist(me.pos, at), hear, reach, 1.0)
                       else w.attenuation(w.dist(me.pos, at), hear, reach, 1.0 - isolation) * w.muffling(1.0 - isolation);
    attenuation * SPEAKER_GAIN
  }

  /** The transmission out of one speaker. */
  function SpeakerPath(w: Physics, me: Listener, him: Sender, tx: Transmission, clients: map<string, Pos>, loss: real, s: Speaker)
    : Option<Unit>
  {
    var at := SoundsAt(s, clients);
    if s.owner == him.nickname || tx.frequency !in s.frequencies || at.None? then None
    else
      var unit := Unit(him.nickname, FromSpeaker, SpeakerGain(w, me, him, s, at.value), w.azimuth(me.pos, me.view, at.value), 0,
                       ErrorLevel(him.effectiveDistance / Reach(tx), loss));
      if unit.gain > 0.0 then Some(unit) else None
  }

  function Listed(u: Option<Unit>): seq<Unit> { if u.Some? then [u.value] else [] }

  function SpeakerPaths(w: Physics, me: Listener, him: Sender, tx: Transmission, clients: map<string, Pos>, loss: real,
                        speakers: seq<Speaker>): seq<Unit>
  {
    if speakers == [] then []
    else
      var n := |speakers| - 1;
      SpeakerPaths(w, me, him, tx, clients, loss, speakers[..n]) + Listed(SpeakerPath(w, me, him, tx, clients, loss, speakers[n]))
  }

  /** Every way the transmission is heard. */
  function Heard(w: Physics, me: Listener, him: Sender, tx: Transmission, clients: map<string, Pos>, loss: real,
                 speakers: seq<Speaker>): seq<Unit>
  {
    if him.isSpectating || !InRange(tx, him, loss) then []
    else Listed(RadioPath(w, me, him, tx, loss)) + SpeakerPaths(w, me, him, tx, clients, loss, speakers)
  }

  // ---------------------------------------------------------------- who is heard, said of the unit alone

  /** The set that is listened to: the long-range one if it is tuned in and usable, otherwise the short-range one if it is. */
  ghost predicate Wins(me: Listener, frequency: string, setting: Setting) {
    if frequency in me.lr && me.canUseLr then setting == me.lr[frequency]
    else frequency in me.sw && me.canUseSw && setting == me.sw[frequency]
  }

  /** It is the one being transmitted with, in half duplex. */
  ghost predicate TransmittedWith(me: Listener, setting: Setting) {
    !me.fullDuplex && me.tangentPressed && me.txClassname != "" && setting.classname == me.txClassname
  }

  /** Only a digital transmission is garbled by a sender who is under water without a short-range radio. */
  ghost predicate FxMatches(him: Sender, subtype: string, fx: Fx) {
    || (subtype == "digital" && fx == if him.pos.z < 0.0 && !him.canUseSw then Dd else Sw)
    || (subtype == "digital_lr" && fx == Lr)
    || (subtype == "airborne" && fx == Airborne)
    || (subtype == "dd" && fx == Dd)
    || (subtype == "phone" && fx == Phone)
  }

  ghost predicate InRadio(w: Physics, me: Listener, tx: Transmission, setting: Setting) {
    && Wins(me, tx.frequency, setting) && !TransmittedWith(me, setting)
    && tx.subtype in ["digital", "digital_lr", "airborne", "dd", "phone"] && w.volumeMultiplier(setting.volume) > 0.0
  }

  /** The lesser of the two, but not less than none nor more than all. */
  ghost predicate Errs(err: real, share: real, loss: real) {
    && 0.0 <= err <= 1.0
    && (share < 0.0 || loss < 0.0 ==> err == 0.0)
    && (0.0 <= share <= loss && share <= 1.0 ==> err == share)
    && (0.0 <= loss <= share && loss <= 1.0 ==> err == loss)
    && (share > 1.0 && loss > 1.0 ==> err == 1.0)
  }

  /** The unit heard in a set: a tenth as loud with the headset lowered, and off by the share of the range or the loss. */
  ghost predicate RadioUnit(w: Physics, me: Listener, him: Sender, tx: Transmission, loss: real, setting: Setting, u: Unit) {
    && u.nickname == him.nickname && FxMatches(him, tx.subtype, u.fx) && u.az == 0.0 && u.stereoMode == setting.stereoMode
    && u.gain == w.volumeMultiplier(setting.volume) * (if me.headsetLowered then 0.1 else 1.0) * (if u.fx == Phone then 10.0 else 0.35)
    && Errs(u.err, if u.fx == Dd then DistanceError(w, me, him, tx, Dd)
                   else him.effectiveDistance / (if tx.range > 1.0 then tx.range else 1.0), loss)
  }

  lemma {:induction false} ErrorErrs(share: real, loss: real)
    ensures Errs(ErrorLevel(share, loss), share, loss)
  {
  }

  /** A metre under water counts as many as the range has in the 70 to 300 m the waves leave of it; every other metre as one. */
  lemma {:induction false} UnderWaterCounts(w: Physics, me: Listener, him: Sender, tx: Transmission, reach: real, left: real)
    requires left == 70.0 + 230.0 * (1.0 - me.wavesLevel) && left > 0.0
    requires reach == if tx.range > 1.0 then tx.range else 1.0
    ensures var uw := w.underwater(me.pos, him.pos);
            DistanceError(w, me, him, tx, Dd) * reach == uw * (reach / left) + (w.dist(me.pos, him.pos) - uw)
  {
    var uw := w.underwater(me.pos, him.pos);
    assert DD_MIN_DISTANCE + (DD_MAX_DISTANCE - DD_MIN_DISTANCE) * (1.0 - me.wavesLevel) == left;
    Undivided(uw * (reach / left) + (w.dist(me.pos, him.pos) - uw), reach);
  }

  lemma {:induction false} Undivided(x: real, d: real)
    requires d > 0.0
    ensures x / d * d == x
  {
  }

  lemma {:induction false} ReceiverIs(me: Listener, tx: Transmission)
    ensures Receiver(me, tx).Some? <==> exists setting :: Wins(me, tx.frequency, setting) && !TransmittedWith(me, setting)
    ensures Receiver(me, tx).Some? ==>
              var (setting, viaLr) := Receiver(me, tx).value;
              && Wins(me, tx.frequency, setting) && !TransmittedWith(me, setting)
              && (viaLr <==> tx.frequency in me.lr && me.canUseLr)
  {
    if tx.frequency in me.lr && me.canUseLr {
      assert Wins(me, tx.frequency, me.lr[tx.frequency]);
    } else if tx.frequency in me.sw && me.canUseSw {
      assert Wins(me, tx.frequency, me.sw[tx.frequency]);
    }
  }

  lemma {:induction false} FxIs(him: Sender, subtype: string)
    ensures var fx := FxOf(subtype, him.pos.z < 0.0 && !him.canUseSw);
            && (fx.Some? <==> subtype in ["digital", "digital_lr", "airborne", "dd", "phone"])
            && (fx.Some? ==> FxMatches(him, subtype, fx.value))
  {
  }

  lemma {:induction false} GainIs(w: Physics, me: Listener, setting: Setting, fx: Fx)
    ensures var level := w.volumeMultiplier(setting.volume);
            && RadioGain(w, me, setting, fx) == level * (if me.headsetLowered then 0.1 else 1.0) * (if fx == Phone then 10.0 else 0.35)
            && (RadioGain(w, me, setting, fx) > 0.0 <==> level > 0.0)
  {
  }

  /** The radio section hears the transmission if and only if a tuned set does, and then once. */
  lemma {:induction false} RadioPathIff(w: Physics, me: Listener, him: Sender, tx: Transmission, loss: real)
    ensures RadioPath(w, me, him, tx, loss).Some? <==> exists setting :: InRadio(w, me, tx, setting)
    ensures RadioPath(w, me, him, tx, loss).Some? ==>
              exists setting :: InRadio(w, me, tx, setting) && RadioUnit(w, me, him, tx, loss, setting, RadioPath(w, me, him, tx, loss).value)
  {
    ReceiverIs(me, tx);
    FxIs(him, tx.subtype);
    var fx := FxOf(tx.subtype, him.pos.z < 0.0 && !him.canUseSw);
    if Receiver(me, tx).Some? && fx.Some? {
      var setting := Receiver(me, tx).value.0;
      GainIs(w, me, setting, fx.value);
      ErrorErrs(DistanceError(w, me, him, tx, fx.value), loss);
      assert InRadio(w, me, tx, setting) <==> RadioGain(w, me, setting, fx.value) > 0.0;
    }
    if exists setting :: InRadio(w, me, tx, setting) {
      var setting :| InRadio(w, me, tx, setting);
      OneWinner(me, tx.frequency, setting, if Receiver(me, tx).Some? then Receiver(me, tx).value.0 else setting);
    }
  }

  lemma {:induction false} OneWinner(me: Listener, frequency: string, a: Setting, b: Setting)
    requires Wins(me, frequency, a) && Wins(me, frequency, b)
    ensures a == b
  {
  }

  /** A long-range set that is turned up asks for the intercom to be ducked. */
  ghost predicate Ducks(me: Listener, tx: Transmission) {
    && tx.frequency in me.lr && me.canUseLr && me.lr[tx.frequency].volume > 2 && !TransmittedWith(me, me.lr[tx.frequency])
    && tx.subtype in ["digital", "digital_lr", "airborne", "dd", "phone"]
  }

  lemma {:induction false} DuckingIff(me: Listener, him: Sender, tx: Transmission)
    ensures AsksDucking(me, him, tx) <==> Ducks(me, tx)
  {
    FxIs(him, tx.subtype);
  }

  /** A speaker of somebody else that is tuned in, at a place that is known and not under water. */
  ghost predicate SpeakerTuned(him: Sender, tx: Transmission, clients: map<string, Pos>, s: Speaker, at: Pos) {
    && s.owner != him.nickname && tx.frequency in s.frequencies
    && (if !IsNull(s.pos) then at == s.pos else s.owner in clients && at == clients[s.owner])
    && !IsNull(at) && at.z >= 0.0
  }

  ghost predicate OutOfSpeaker(w: Physics, me: Listener, him: Sender, tx: Transmission, clients: map<string, Pos>, s: Speaker) {
    exists at :: SpeakerTuned(him, tx, clients, s, at) && SpeakerGain(w, me, him, s, at) > 0.0
  }

  ghost predicate SpeakerUnit(w: Physics, me: Listener, him: Sender, tx: Transmission, clients: map<string, Pos>, loss: real,
                              s: Speaker, u: Unit) {
    && u.nickname == him.nickname && u.fx == FromSpeaker && u.stereoMode == 0
    && Errs(u.err, him.effectiveDistance / (if tx.range > 1.0 then tx.range else 1.0), loss)
    && exists at :: SpeakerTuned(him, tx, clients, s, at) && u.gain == SpeakerGain(w, me, him, s, at) && u.az == w.azimuth(me.pos, me.view, at)
  }

  lemma {:induction false} SoundsAtIff(him: Sender, tx: Transmission, clients: map<string, Pos>, s: Speaker, at: Pos)
    ensures SpeakerTuned(him, tx, clients, s, at) <==>
            s.owner != him.nickname && tx.frequency in s.frequencies && SoundsAt(s, clients) == Some(at)
  {
  }

  lemma {:induction false} SpeakerPathIff(w: Physics, me: Listener, him: Sender, tx: Transmission, clients: map<string, Pos>, loss: real, s: Speaker)
    ensures var u := SpeakerPath(w, me, him, tx, clients, loss, s);
            && (u.Some? <==> OutOfSpeaker(w, me, him, tx, clients, s))
            && (u.Some? ==> SpeakerUnit(w, me, him, tx, clients, loss, s, u.value))
  {
    var u := SpeakerPath(w, me, him, tx, clients, loss, s);
    var at := SoundsAt(s, clients);
    forall p
      ensures SpeakerTuned(him, tx, clients, s, p) <==> s.owner != him.nickname && tx.frequency in s.frequencies && at == Some(p)
    {
      SoundsAtIff(him, tx, clients, s, p);
    }
    ErrorErrs(him.effectiveDistance / Reach(tx), loss);
    if u.Some? {
      assert SpeakerTuned(him, tx, clients, s, at.value);
    }
  }

  /** How far a speaker carries at its volume. */
  ghost predicate Carries(me: Listener, s: Speaker, reach: real) {
    if s.volume < 20 then reach * 10.0 == s.volume as real * me.speakerDistance else reach * 10.0 == s.volume as real * 19.0
  }

  /**
   The loudness of a speaker: four times the attenuated volume, as through air from the listener's own vehicle or
   between hardly isolated ones, and muffled otherwise, but never by more than 0.99.
   */
  lemma {:induction false} SpeakerGainIs(w: Physics, me: Listener, him: Sender, s: Speaker, at: Pos) returns (reach: real, isolation: real)
    ensures Carries(me, s, reach)
    ensures me.vehicle.name == s.vehicle.name ==> isolation == 0.0
    ensures me.vehicle.name != s.vehicle.name ==> Errs(isolation / 0.99, (me.vehicle.isolation + s.vehicle.isolation) / 0.99, 1.0)
    ensures var clear := w.attenuation(w.dist(me.pos, at), him.canSpeak && me.canSpeak, reach, 1.0);
            var dull := w.attenuation(w.dist(me.pos, at), him.canSpeak && me.canSpeak, reach, 1.0 - isolation);
            SpeakerGain(w, me, him, s, at) == (if isolation < 0.01 then clear else dull * w.muffling(1.0 - isolation)) * 4.0
  {
    reach := SpeakerReach(me, s);
    isolation := if me.vehicle.name == s.vehicle.name then 0.0 else Clamp(me.vehicle.isolation + s.vehicle.isolation, 0.0, 0.99);
  }

  /** Which of the speakers the transmission is heard from. */
  ghost function Sounding(w: Physics, me: Listener, him: Sender, tx: Transmission, clients: map<string, Pos>, speakers: seq<Speaker>)
    : (flags: seq<bool>)
    ensures |flags| == |speakers|
    ensures forall k :: 0 <= k < |speakers| ==> flags[k] == OutOfSpeaker(w, me, him, tx, clients, speakers[k])
  {
    seq(|speakers|, k requires 0 <= k < |speakers| => OutOfSpeaker(w, me, him, tx, clients, speakers[k]))
  }

  /** One unit for each of the speakers at `ix`, in order. */
  ghost predicate UnitsOf(w: Physics, me: Listener, him: Sender, tx: Transmission, clients: map<string, Pos>, loss: real,
                          speakers: seq<Speaker>, ix: seq<nat>, units: seq<Unit>) {
    && |units| == |ix|
    && forall i :: 0 <= i < |ix| ==> ix[i] < |speakers| && SpeakerUnit(w, me, him, tx, clients, loss, speakers[ix[i]], units[i])
  }

  lemma {:induction false} UnitsNext(w: Physics, me: Listener, him: Sender, tx: Transmission, clients: map<string, Pos>, loss: real,
                                     speakers: seq<Speaker>, ix: seq<nat>, units: seq<Unit>, k: nat, u: Unit)
    requires UnitsOf(w, me, him, tx, clients, loss, speakers, ix, units)
    requires k < |speakers| && SpeakerUnit(w, me, him, tx, clients, loss, speakers[k], u)
    ensures UnitsOf(w, me, him, tx, clients, loss, speakers, ix + [k], units + [u])
  {
  }

  lemma {:induction false} SpeakersStep(w: Physics, me: Listener, him: Sender, tx: Transmission, clients: map<string, Pos>, loss: real,
                                        speakers: seq<Speaker>, n: nat, ix: seq<nat>, units: seq<Unit>)
    requires n < |speakers| && Places(Sounding(w, me, him, tx, clients, speakers), n, ix)
    requires UnitsOf(w, me, him, tx, clients, loss, speakers, ix, units)
    ensures var u, flags := SpeakerPath(w, me, him, tx, clients, loss, speakers[n]), Sounding(w, me, him, tx, clients, speakers);
            if u.Some?
            then Places(flags, n + 1, ix + [n]) && UnitsOf(w, me, him, tx, clients, loss, speakers, ix + [n], units + [u.value])
            else Places(flags, n + 1, ix)
  {
    PlacesNext(Sounding(w, me, him, tx, clients, speakers), n, ix);
    SpeakerPathIff(w, me, him, tx, clients, loss, speakers[n]);
    var u := SpeakerPath(w, me, him, tx, clients, loss, speakers[n]);
    if u.Some? {
      UnitsNext(w, me, him, tx, clients, loss, speakers, ix, units, n, u.value);
    }
  }

  lemma {:induction false} SpeakersListed(w: Physics, me: Listener, him: Sender, tx: Transmission, clients: map<string, Pos>, loss: real,
                                          speakers: seq<Speaker>, n: nat) returns (ix: seq<nat>)
    requires n <= |speakers|
    ensures Places(Sounding(w, me, him, tx, clients, speakers), n, ix)
    ensures UnitsOf(w, me, him, tx, clients, loss, speakers, ix, SpeakerPaths(w, me, him, tx, clients, loss, speakers[..n]))
  {
    ix := [];
    if n > 0 {
      ix := SpeakersListed(w, me, him, tx, clients, loss, speakers, n - 1);
      SpeakersStep(w, me, him, tx, clients, loss, speakers, n - 1, ix, SpeakerPaths(w, me, him, tx, clients, loss, speakers[..n - 1]));
      PathsNext(w, me, him, tx, clients, loss, speakers, n - 1);
      if SpeakerPath(w, me, him, tx, clients, loss, speakers[n - 1]).Some? {
        ix := ix + [n - 1];
      }
    }
  }

  lemma {:induction false} PathsNext(w: Physics, me: Listener, him: Sender, tx: Transmission, clients: map<string, Pos>, loss: real,
                                     speakers: seq<Speaker>, n: nat)
    requires n < |speakers|
    ensures var before, u := SpeakerPaths(w, me, him, tx, clients, loss, speakers[..n]), SpeakerPath(w, me, him, tx, clients, loss, speakers[n]);
            SpeakerPaths(w, me, him, tx, clients, loss, speakers[..n + 1]) == if u.Some? then before + [u.value] else before
  {
    assert speakers[..n + 1][..n] == speakers[..n];
  }

  /**
   What a transmission adds to the units heard. Nothing, if the sender spectates or is neither within the range nor
   connected over a tower. Otherwise one unit in the radio if a tuned set hears it, and then one for each speaker that does.
   */
  ghost predicate Adds(w: Physics, me: Listener, him: Sender, tx: Transmission, clients: map<string, Pos>, loss: real,
                       speakers: seq<Speaker>, added: seq<Unit>) {
    if him.isSpectating || !((tx.range > 0.0 && him.effectiveDistance <= tx.range) || loss < 7.0) then added == []
    else
      var inRadio := exists setting :: InRadio(w, me, tx, setting);
      var first := if inRadio then 1 else 0;
      && |added| >= first
      && (inRadio ==> exists setting :: InRadio(w, me, tx, setting) && RadioUnit(w, me, him, tx, loss, setting, added[0]))
      && exists ix :: Places(Sounding(w, me, him, tx, clients, speakers), |speakers|, ix) &&
                      UnitsOf(w, me, him, tx, clients, loss, speakers, ix, added[first..])
  }

  lemma {:induction false} HeardAdds(w: Physics, me: Listener, him: Sender, tx: Transmission, clients: map<string, Pos>, loss: real,
                                     speakers: seq<Speaker>)
    ensures Adds(w, me, him, tx, clients, loss, speakers, Heard(w, me, him, tx, clients, loss, speakers))
  {
    RadioPathIff(w, me, him, tx, loss);
    var ix := SpeakersListed(w, me, him, tx, clients, loss, speakers, |speakers|);
    assert speakers[..|speakers|] == speakers;
    var radio, out := Listed(RadioPath(w, me, him, tx, loss)), SpeakerPaths(w, me, him, tx, clients, loss, speakers);
    assert (radio + out)[|radio|..] == out;
  }

  // ---------------------------------------------------------------- what a better connection does

  /** The same paths, none with more error. */
  ghost predicate Clearer(before: seq<Unit>, after: seq<Unit>) {
    && |after| == |before|
    && forall k :: 0 <= k < |before| ==> after[k] == before[k].(err := after[k].err) && after[k].err <= before[k].err
  }

  lemma {:induction false} ErrorFalls(distanceError: real, loss: real, lower: real)
    requires lower <= loss
    ensures ErrorLevel(distanceError, lower) <= ErrorLevel(distanceError, loss)
    ensures 0.0 <= ErrorLevel(distanceError, loss) <= 1.0
  {
  }

  lemma {:induction false} ClearerConcat(a: seq<Unit>, b: seq<Unit>, c: seq<Unit>, d: seq<Unit>)
    requires Clearer(a, b) && Clearer(c, d)
    ensures Clearer(a + c, b + d)
  {
  }

  lemma {:induction false} RadioClearer(w: Physics, me: Listener, him: Sender, tx: Transmission, loss: real, lower: real)
    requires lower <= loss
    ensures Clearer(Listed(RadioPath(w, me, him, tx, loss)), Listed(RadioPath(w, me, him, tx, lower)))
  {
    var fx := FxOf(tx.subtype, him.pos.z < 0.0 && !him.canUseSw);
    if fx.Some? {
      ErrorFalls(DistanceError(w, me, him, tx, fx.value), loss, lower);
    }
  }

  lemma {:induction false} SpeakersClearer(w: Physics, me: Listener, him: Sender, tx: Transmission, clients: map<string, Pos>,
                                           loss: real, lower: real, speakers: seq<Speaker>)
    requires lower <= loss
    ensures Clearer(SpeakerPaths(w, me, him, tx, clients, loss, speakers), SpeakerPaths(w, me, him, tx, clients, lower, speakers))
  {
    if speakers != [] {
      var n := |speakers| - 1;
      SpeakersClearer(w, me, him, tx, clients, loss, lower, speakers[..n]);
      ErrorFalls(him.effectiveDistance / Reach(tx), loss, lower);
      ClearerConcat(SpeakerPaths(w, me, him, tx, clients, loss, speakers[..n]),
                    SpeakerPaths(w, me, him, tx, clients, lower, speakers[..n]),
                    Listed(SpeakerPath(w, me, him, tx, clients, loss, speakers[n])),
                    Listed(SpeakerPath(w, me, him, tx, clients, lower, speakers[n])));
    }
  }

  /** A smaller loss takes no path away and makes none worse; it can only bring a sender that was out of range into it. */
  lemma {:induction false} LowerLossHelps(w: Physics, me: Listener, him: Sender, tx: Transmission, clients: map<string, Pos>, loss: real, lower: real,
                       speakers: seq<Speaker>)
    requires lower <= loss
    ensures var before := Heard(w, me, him, tx, clients, loss, speakers);
            before == [] || Clearer(before, Heard(w, me, him, tx, clients, lower, speakers))
  {
    RadioClearer(w, me, him, tx, loss, lower);
    SpeakersClearer(w, me, him, tx, clients, loss, lower, speakers);
    ClearerConcat(Listed(RadioPath(w, me, him, tx, loss)), Listed(RadioPath(w, me, him, tx, lower)),
                  SpeakerPaths(w, me, him, tx, clients, loss, speakers), SpeakerPaths(w, me, him, tx, clients, lower, speakers));
  }

  lemma {:induction false} DistanceErrorFalls(w: Physics, me: Listener, him: Sender, nearer: real, tx: Transmission, fx: Fx)
    requires nearer <= him.effectiveDistance
    ensures DistanceError(w, me, him.(effectiveDistance := nearer), tx, fx) <= DistanceError(w, me, him, tx, fx)
    ensures nearer / Reach(tx) <= him.effectiveDistance / Reach(tx)
  {
    var r := Reach(tx);
    assert (him.effectiveDistance - nearer) / r >= 0.0;
  }

  lemma {:induction false} NearerErr(share: real, nearer: real, loss: real)
    requires nearer <= share
    ensures ErrorLevel(nearer, loss) <= ErrorLevel(share, loss)
  {
  }

  lemma {:induction false} NearerSpeakers(w: Physics, me: Listener, him: Sender, nearer: real, tx: Transmission, clients: map<string, Pos>,
                                          loss: real, speakers: seq<Speaker>)
    requires nearer <= him.effectiveDistance
    ensures Clearer(SpeakerPaths(w, me, him, tx, clients, loss, speakers),
                    SpeakerPaths(w, me, him.(effectiveDistance := nearer), tx, clients, loss, speakers))
  {
    if speakers != [] {
      var n := |speakers| - 1;
      var he := him.(effectiveDistance := nearer);
      NearerSpeakers(w, me, him, nearer, tx, clients, loss, speakers[..n]);
      DistanceErrorFalls(w, me, him, nearer, tx, Sw);
      NearerErr(him.effectiveDistance / Reach(tx), nearer / Reach(tx), loss);
      ClearerConcat(SpeakerPaths(w, me, him, tx, clients, loss, speakers[..n]), SpeakerPaths(w, me, he, tx, clients, loss, speakers[..n]),
                    Listed(SpeakerPath(w, me, him, tx, clients, loss, speakers[n])),
                    Listed(SpeakerPath(w, me, he, tx, clients, loss, speakers[n])));
    }
  }

  lemma {:induction false} NearerRadio(w: Physics, me: Listener, him: Sender, nearer: real, tx: Transmission, loss: real)
    requires nearer <= him.effectiveDistance
    ensures Clearer(Listed(RadioPath(w, me, him, tx, loss)), Listed(RadioPath(w, me, him.(effectiveDistance := nearer), tx, loss)))
  {
    var fx := FxOf(tx.subtype, him.pos.z < 0.0 && !him.canUseSw);
    if fx.Some? {
      DistanceErrorFalls(w, me, him, nearer, tx, fx.value);
      NearerErr(DistanceError(w, me, him, tx, fx.value), DistanceError(w, me, him.(effectiveDistance := nearer), tx, fx.value), loss);
    }
  }

  /** A smaller effective distance takes no path away and makes none worse. */
  lemma {:induction false} NearerHelps(w: Physics, me: Listener, him: Sender, nearer: real, tx: Transmission, clients: map<string, Pos>,
                                       loss: real, speakers: seq<Speaker>)
    requires nearer <= him.effectiveDistance
    ensures var before := Heard(w, me, him, tx, clients, loss, speakers);
            before == [] || Clearer(before, Heard(w, me, him.(effectiveDistance := nearer), tx, clients, loss, speakers))
  {
    var he := him.(effectiveDistance := nearer);
    NearerRadio(w, me, him, nearer, tx, loss);
    NearerSpeakers(w, me, him, nearer, tx, clients, loss, speakers);
    ClearerConcat(Listed(RadioPath(w, me, him, tx, loss)), Listed(RadioPath(w, me, he, tx, loss)),
                  SpeakerPaths(w, me, him, tx, clients, loss, speakers), SpeakerPaths(w, me, he, tx, clients, loss, speakers));
  }

  /** A new tower never takes away a way of hearing anybody, and never makes one worse. */
  lemma {:induction false} NewTowerHelps(towers: seq<Antenna>, a: Antenna, w: Physics, me: Listener, him: Sender, tx: Transmission,
                      clients: map<string, Pos>, speakers: seq<Speaker>)
    requires a.netId !in Ids(towers)
    ensures var before := Heard(w, me, him, tx, clients, Loss(towers, w.dist, him.pos, tx.range, me.pos), speakers);
            var after := Heard(w, me, him, tx, clients, Loss(Put(towers, a), w.dist, him.pos, tx.range, me.pos), speakers);
            before == [] || Clearer(before, after)
  {
    assert Put(towers, a) == towers + [a];
    MoreTowersHelp(towers, Put(towers, a), w.dist, him.pos, tx.range, me.pos);
    LowerLossHelps(w, me, him, tx, clients, Loss(towers, w.dist, him.pos, tx.range, me.pos),
                   Loss(Put(towers, a), w.dist, him.pos, tx.range, me.pos), speakers);
  }

  // ---------------------------------------------------------------- the code

  method TunedTo(frequencies: seq<string>, frequency: string) returns (matches: bool)
    ensures matches == (frequency in frequencies)
  {
    matches := false;
    for f := 0 to |frequencies|
      invariant !matches && frequency !in frequencies[..f]
    {
      if frequencies[f] == frequency {
        return true;
      }
    }
  }

  /** The radio section: at most one path, and whether ducking is asked for. */
  method AddRadio(w: Physics, me: Listener, him: Sender, tx: Transmission, loss: real, sofar: seq<Unit>)
    returns (out: seq<Unit>, ducking: bool)
    ensures out == sofar + Listed(RadioPath(w, me, him, tx, loss))
    ensures ducking == AsksDucking(me, him, tx)
  {
    out, ducking := sofar, false;
    var onSw, onLr := tx.frequency in me.sw, tx.frequency in me.lr;
    if !onSw && !onLr {
      return;
    }
    var setting, viaLr := None, false;
    if onLr && me.canUseLr {
      setting, viaLr := Some(me.lr[tx.frequency]), true;
    } else if onSw && me.canUseSw {
      setting := Some(me.sw[tx.frequency]);
    }
    if setting.Some? && !me.fullDuplex && me.tangentPressed && me.txClassname != "" && setting.value.classname == me.txClassname {
      setting := None;
    }
    if setting.Some? {
      var fx := FxOf(tx.subtype, him.pos.z < 0.0 && !him.canUseSw);
      if fx.Some? {
        var gain := RadioGain(w, me, setting.value, fx.value);
        var unit := Unit(him.nickname, fx.value, gain, 0.0, setting.value.stereoMode,
                         ErrorLevel(DistanceError(w, me, him, tx, fx.value), loss));
        ducking := viaLr && setting.value.volume > 2;
        if unit.gain > 0.0 {
          out := out + [unit];
        }
      }
    }
  }

  /** The speaker section: one path for each speaker that can be heard. */
  method AddSpeakers(w: Physics, me: Listener, him: Sender, tx: Transmission, clients: map<string, Pos>, loss: real,
                     speakers: seq<Speaker>, sofar: seq<Unit>) returns (out: seq<Unit>)
    ensures out == sofar + SpeakerPaths(w, me, him, tx, clients, loss, speakers)
  {
    out := sofar;
    for i := 0 to |speakers|
      invariant out == sofar + SpeakerPaths(w, me, him, tx, clients, loss, speakers[..i])
    {
      assert speakers[..i + 1][..i] == speakers[..i];
      var speaker := speakers[i];
      if speaker.owner != him.nickname {
        var matches := TunedTo(speaker.frequencies, tx.frequency);
        var at := SoundsAt(speaker, clients);
        if matches && at.Some? {
          var gain := SpeakerGain(w, me, him, speaker, at.value);
          var unit := Unit(him.nickname, FromSpeaker, gain, w.azimuth(me.pos, me.view, at.value), 0,
                           ErrorLevel(him.effectiveDistance / Reach(tx), loss));
          if unit.gain > 0.0 {
            out := out + [unit];
          }
        }
      }
    }
    assert speakers[..|speakers|] == speakers;
  }

  method AddTransmission(towers: RadioTowers, w: Physics, me: Listener, him: Sender, tx: Transmission, clients: map<string, Pos>,
                         speakers: seq<Speaker>, sofar: seq<Unit>) returns (out: seq<Unit>, ducking: bool)
    ensures var loss := Loss(towers.antennas, w.dist, him.pos, tx.range, me.pos);
            && out == sofar + Heard(w, me, him, tx, clients, loss, speakers)
            && ducking == (!him.isSpectating && InRange(tx, him, loss) && AsksDucking(me, him, tx))
    ensures var loss := Loss(towers.antennas, w.dist, him.pos, tx.range, me.pos);
            && sofar <= out && Adds(w, me, him, tx, clients, loss, speakers, out[|sofar|..])
            && (ducking <==> !him.isSpectating && ((tx.range > 0.0 && him.effectiveDistance <= tx.range) || loss < 7.0) && Ducks(me, tx))
  {
    ghost var lossOver := Loss(towers.antennas, w.dist, him.pos, tx.range, me.pos);
    HeardAdds(w, me, him, tx, clients, lossOver, speakers);
    DuckingIff(me, him, tx);
    out, ducking := sofar, false;
    if him.isSpectating {
      return;
    }
    var loss := towers.AntennaLoss(w.dist, him.pos, tx.range, me.pos);
    if InRange(tx, him, loss) {
      out, ducking := AddRadio(w, me, him, tx, loss, out);
      out := AddSpeakers(w, me, him, tx, clients, loss, speakers, out);
      Associative(sofar, Listed(RadioPath(w, me, him, tx, loss)), SpeakerPaths(w, me, him, tx, clients, loss, speakers));
    }
  }
}
