/**
 The messages of the relay protocol: their bytes, the client's and the relay's encoders and decoders, and
 what a message is after it went through the relay.
 */
module Messages {
  import opened Wrappers
  import opened Sequences
  import opened Utf8
  import opened Wire

  const VERSION_MAJOR: byte := 1

  const CONNECT_REQUEST: byte := 1
  const VOICE_UP: byte := 7
  const VOICE_DOWN: byte := 8
  const CLIENT_JOINED: byte := 9
  const CLIENT_LEFT: byte := 10
  const RADIO_TX_UPDATE: byte := 12
  const RADIO_TX_BROADCAST: byte := 13

  const LAST_FRAME: byte := 1

  // ---------------------------------------------------------------- layouts

  function RadioTxBody(active: byte, freq: seq<byte>, range: uint16, sub: seq<byte>): seq<byte> {
    [active] + (Str8(freq) + (PutU16(range) + Str8(sub)))
  }

  function VoiceBody(sequence: uint16, flags: byte, opus: seq<byte>): seq<byte> {
    PutU16(sequence) + ([flags] + opus)
  }

  function NamesBody(uid: seq<byte>, name: seq<byte>): seq<byte> { Str8(uid) + Str8(name) }

  function RadioTxUpdate(active: byte, freq: seq<byte>, range: uint16, sub: seq<byte>): seq<byte> {
    [RADIO_TX_UPDATE] + RadioTxBody(active, freq, range, sub)
  }

  function RadioTxBroadcast(sender: uint32, active: byte, freq: seq<byte>, range: uint16, sub: seq<byte>): seq<byte> {
    [RADIO_TX_BROADCAST] + (PutU32(sender) + RadioTxBody(active, freq, range, sub))
  }

  function VoiceUp(sequence: uint16, flags: byte, opus: seq<byte>): seq<byte> { [VOICE_UP] + VoiceBody(sequence, flags, opus) }

  function VoiceDown(sender: uint32, sequence: uint16, flags: byte, opus: seq<byte>): seq<byte> {
    [VOICE_DOWN] + (PutU32(sender) + VoiceBody(sequence, flags, opus))
  }

  function ConnectRequest(hash: seq<byte>, uid: seq<byte>, name: seq<byte>): seq<byte> {
    [CONNECT_REQUEST] + ([VERSION_MAJOR] + (hash + NamesBody(uid, name)))
  }

  function ClientJoined(id: uint32, uid: seq<byte>, name: seq<byte>): seq<byte> {
    [CLIENT_JOINED] + (PutU32(id) + NamesBody(uid, name))
  }

  function ClientLeft(id: uint32): seq<byte> { [CLIENT_LEFT] + PutU32(id) }

  // ---------------------------------------------------------------- decoding

  datatype Tx = Tx(active: byte, freq: seq<byte>, range: uint16, sub: seq<byte>)

  function TakeTx(b: seq<byte>): Option<Tx> {
    var active :- TakeU8(b);
    var freq :- TakeStr8(active.1, MAX_FREQ);
    var range :- TakeU16(freq.1);
    var sub :- TakeStr8(range.1, MAX_SUBTYPE);
    Some(Tx(active.0, freq.0, range.0, sub.0))
  }

  function TakeNames(b: seq<byte>): Option<(seq<byte>, seq<byte>)> {
    var uid :- TakeStr8(b, MAX_UID);
    var name :- TakeStr8(uid.1, MAX_NAME);
    Some((uid.0, name.0))
  }

  datatype Frame = Frame(sequence: uint16, flags: byte, opus: seq<byte>)

  function TakeFrame(b: seq<byte>): Option<Frame> {
    var sequence :- TakeU16(b);
    var flags :- TakeU8(sequence.1);
    Some(Frame(sequence.0, flags.0, flags.1))
  }

  /** What a datagram tells the client. */
  datatype Inbound =
    | Voice(sender: uint32, sequence: uint16, isLast: bool, opus: seq<byte>)
    | Joined(id: uint32, uid: seq<byte>, name: seq<byte>)
    | Left(id: uint32)
    | Transmission(sender: uint32, active: bool, freq: seq<byte>, range: uint16, sub: seq<byte>)
    | Ignored

  predicate HasLastFrame(flags: byte) { flags % 2 == 1 }

  /** Nothing, if the datagram is malformed. */
  function ForClient(b: seq<byte>): Option<Inbound> {
    var kind :- TakeU8(b);
    if kind.0 == VOICE_DOWN then
      var sender :- TakeU32(kind.1);
      var frame :- TakeFrame(sender.1);
      Some(Voice(sender.0, frame.sequence, HasLastFrame(frame.flags), frame.opus))
    else if kind.0 == CLIENT_JOINED then
      var id :- TakeU32(kind.1);
      var names :- TakeNames(id.1);
      Some(Joined(id.0, names.0, names.1))
    else if kind.0 == CLIENT_LEFT then
      var id :- TakeU32(kind.1);
      Some(Left(id.0))
    else if kind.0 == RADIO_TX_BROADCAST then
      var sender :- TakeU32(kind.1);
      var tx :- TakeTx(sender.1);
      Some(Transmission(sender.0, tx.active != 0, tx.freq, tx.range, tx.sub))
    else Some(Ignored)
  }

  // ---------------------------------------------------------------- the relay

  /** A request as the relay reads it; a missing length byte drops the packet instead of refusing it. */
  datatype Request = WrongVersion | Malformed | Dropped | Fields(hash: seq<byte>, uid: string, name: string)

  function TakeText(b: seq<byte>, max: nat, replace: Replacement): (TextRead, seq<byte>) {
    var t := TakeStr8(b, max);
    if b == [] then (NoLength, [])
    else if t.None? then (Invalid, b[1..])
    else (Read(TextOf(t.value.0, replace)), t.value.1)
  }

  /** What follows the type byte of a ConnectRequest. */
  function RequestOf(b: seq<byte>, replace: Replacement): Request {
    var version := TakeU8(b);
    if version.None? then Dropped
    else if version.value.0 != VERSION_MAJOR then WrongVersion
    else if |version.value.1| < HASH_LENGTH then Malformed
    else
      var (uid, rest) := TakeText(version.value.1[HASH_LENGTH..], MAX_UID, replace);
      var name := TakeText(rest, MAX_NAME, replace).0;
      if uid.NoLength? then Dropped
      else if uid.Invalid? then Malformed
      else if name.NoLength? then Dropped
      else if name.Invalid? then Malformed
      else Fields(version.value.1[..HASH_LENGTH], uid.text, name.text)
  }

  /** An empty name is replaced by the uid. */
  function NameOf(uid: string, name: string): string { if name == [] then uid else name }

  /** The announcement of a session, if it fits the relay's buffer. */
  function JoinedPacket(id: uint32, uid: string, name: string): Option<seq<byte>> {
    if Fits(uid, name) then Some(ClientJoined(id, Encode(uid), Encode(name))) else None
  }

  /** What the relay sends on for a VoiceUp without its type byte. */
  function RelayedVoice(b: seq<byte>, sender: uint32): Option<seq<byte>> {
    var frame :- TakeFrame(b);
    if |frame.opus| > MAX_OPUS then None else Some(VoiceDown(sender, frame.sequence, frame.flags, frame.opus))
  }

  /** What the relay sends on for a RadioTxUpdate without its type byte. */
  function RelayedTx(b: seq<byte>, sender: uint32, replace: Replacement): Option<seq<byte>> {
    var tx :- TakeTx(b);
    var freq, sub := Encode(TextOf(tx.freq, replace)), Encode(TextOf(tx.sub, replace));
    if |freq| + |sub| <= MAX_FREQ + MAX_SUBTYPE then Some(RadioTxBroadcast(sender, tx.active, freq, tx.range, sub)) else None
  }

  // ---------------------------------------------------------------- round trips

  lemma {:induction false} SecondOnly(head: byte, rest: seq<byte>)
    ensures TakeU8([head] + rest) == Some((head, rest))
  {
    assert ([head] + rest)[1..] == rest;
  }

  lemma {:induction false} TakeLastStr8(value: seq<byte>, max: nat)
    requires |value| <= 255
    ensures TakeStr8(Str8(value), max) == if |value| <= max then Some((value, [])) else None
  {
    TakePutStr8(value, max, []);
    assert Str8(value) + [] == Str8(value);
  }

  lemma {:induction false} TxRoundTrip(active: byte, freq: seq<byte>, range: uint16, sub: seq<byte>)
    requires |freq| <= MAX_FREQ && |sub| <= MAX_SUBTYPE
    ensures TakeTx(RadioTxBody(active, freq, range, sub)) == Some(Tx(active, freq, range, sub))
  {
    SecondOnly(active, Str8(freq) + (PutU16(range) + Str8(sub)));
    TakePutStr8(freq, MAX_FREQ, PutU16(range) + Str8(sub));
    TakePutU16(range, Str8(sub));
    TakeLastStr8(sub, MAX_SUBTYPE);
  }

  lemma {:induction false} FrameRoundTrip(sequence: uint16, flags: byte, opus: seq<byte>)
    ensures TakeFrame(VoiceBody(sequence, flags, opus)) == Some(Frame(sequence, flags, opus))
  {
    TakePutU16(sequence, [flags] + opus);
    SecondOnly(flags, opus);
  }

  lemma {:induction false} NamesRoundTrip(uid: seq<byte>, name: seq<byte>)
    requires |uid| <= MAX_UID && |name| <= 255
    ensures TakeNames(NamesBody(uid, name)) == if |name| <= MAX_NAME then Some((uid, name)) else None
  {
    TakePutStr8(uid, MAX_UID, Str8(name));
    TakeLastStr8(name, MAX_NAME);
  }

  /** Well-formed text survives the relay's decoding and encoding. */
  lemma {:induction false} TextRoundTrip(bytes: seq<byte>, replace: Replacement)
    requires Valid(bytes)
    ensures Encode(TextOf(bytes, replace)) == bytes
  {
    EncodeDecode(bytes);
  }

  lemma {:induction false} BroadcastRoundTrip(sender: uint32, active: byte, freq: seq<byte>, range: uint16, sub: seq<byte>)
    requires |freq| <= MAX_FREQ && |sub| <= MAX_SUBTYPE
    ensures ForClient(RadioTxBroadcast(sender, active, freq, range, sub)) == Some(Transmission(sender, active != 0, freq, range, sub))
  {
    SecondOnly(RADIO_TX_BROADCAST, PutU32(sender) + RadioTxBody(active, freq, range, sub));
    TakePutU32(sender, RadioTxBody(active, freq, range, sub));
    TxRoundTrip(active, freq, range, sub);
  }

  /** A transmission arrives at the other clients as it was announced, cut to the limits. */
  lemma {:induction false} TransmissionThroughRelay(active: bool, freq: seq<byte>, range: uint16, sub: seq<byte>, sender: uint32, replace: Replacement)
    requires Valid(freq) && Valid(sub)
    ensures var f, s := Truncated(freq, MAX_FREQ), Truncated(sub, MAX_SUBTYPE);
            var relayed := RelayedTx(RadioTxUpdate(if active then 1 else 0, f, range, s)[1..], sender, replace);
            relayed.Some? && ForClient(relayed.value) == Some(Transmission(sender, active, f, range, s))
  {
    var f, s, a: byte := Truncated(freq, MAX_FREQ), Truncated(sub, MAX_SUBTYPE), if active then 1 else 0;
    TruncatedValid(freq, MAX_FREQ);
    TruncatedValid(sub, MAX_SUBTYPE);
    TxRoundTrip(a, f, range, s);
    TextRoundTrip(f, replace);
    TextRoundTrip(s, replace);
    BroadcastRoundTrip(sender, a, f, range, s);
    assert RadioTxUpdate(a, f, range, s)[1..] == RadioTxBody(a, f, range, s);
  }

  /** A voice frame arrives at the other clients as it was sent. */
  lemma {:induction false} VoiceThroughRelay(sequence: uint16, isLast: bool, opus: seq<byte>, sender: uint32)
    requires |opus| <= MAX_OPUS
    ensures var relayed := RelayedVoice(VoiceUp(sequence, if isLast then LAST_FRAME else 0, opus)[1..], sender);
            relayed.Some? && ForClient(relayed.value) == Some(Voice(sender, sequence, isLast, opus))
  {
    var flags: byte := if isLast then LAST_FRAME else 0;
    assert VoiceUp(sequence, flags, opus)[1..] == VoiceBody(sequence, flags, opus);
    FrameRoundTrip(sequence, flags, opus);
    SecondOnly(VOICE_DOWN, PutU32(sender) + VoiceBody(sequence, flags, opus));
    TakePutU32(sender, VoiceBody(sequence, flags, opus));
  }

  /** The relay reads the request that was sent. */
  lemma {:induction false} RequestRoundTrip(hash: seq<byte>, uid: seq<byte>, name: seq<byte>, replace: Replacement)
    requires |hash| == HASH_LENGTH && |uid| <= MAX_UID && |name| <= MAX_NAME
    ensures RequestOf(ConnectRequest(hash, uid, name)[1..], replace) == Fields(hash, TextOf(uid, replace), TextOf(name, replace))
  {
    var body := hash + NamesBody(uid, name);
    assert ConnectRequest(hash, uid, name)[1..] == [VERSION_MAJOR] + body;
    SecondOnly(VERSION_MAJOR, body);
    assert body[..HASH_LENGTH] == hash && body[HASH_LENGTH..] == NamesBody(uid, name);
    TakePutStr8(uid, MAX_UID, Str8(name));
    TakeLastStr8(name, MAX_NAME);
  }

  lemma {:induction false} JoinedRoundTrip(id: uint32, uid: seq<byte>, name: seq<byte>)
    requires |uid| <= MAX_UID && |name| <= 255
    ensures ForClient(ClientJoined(id, uid, name)) == if |name| <= MAX_NAME then Some(Joined(id, uid, name)) else None
  {
    SecondOnly(CLIENT_JOINED, PutU32(id) + NamesBody(uid, name));
    TakePutU32(id, NamesBody(uid, name));
    NamesRoundTrip(uid, name);
  }

  /** What the other clients learn of a request that was accepted: nothing, if the announcement does not fit or does not parse. */
  function Announced(request: Request, id: uint32): Option<Inbound>
    requires request.Fields?
  {
    var packet :- JoinedPacket(id, request.uid, NameOf(request.uid, request.name));
    ForClient(packet)
  }

  lemma {:induction false} EmptyText(bytes: seq<byte>, replace: Replacement)
    requires Valid(bytes)
    ensures TextOf(bytes, replace) == [] <==> bytes == []
  {
    EncodeDecode(bytes);
  }

  /**
   The other clients learn the uid and the name of a request exactly when it has a name, or its uid is short
   enough to stand in for one.
   */
  lemma {:induction false} IdentityThroughRelayIff(hash: seq<byte>, uid: seq<byte>, name: seq<byte>, id: uint32, replace: Replacement)
    requires |hash| == HASH_LENGTH && Valid(uid) && Valid(name)
    ensures var u, n := Truncated(uid, MAX_UID), Truncated(name, MAX_NAME);
            var request := RequestOf(ConnectRequest(hash, u, n)[1..], replace);
            && request.Fields?
            && (Announced(request, id) == Some(Joined(id, u, if n == [] then u else n)) <==> n != [] || |u| <= MAX_NAME)
            && (Announced(request, id).Some? <==> n != [] || |u| <= MAX_NAME)
  {
    var u, n := Truncated(uid, MAX_UID), Truncated(name, MAX_NAME);
    TruncatedValid(uid, MAX_UID);
    TruncatedValid(name, MAX_NAME);
    RequestRoundTrip(hash, u, n, replace);
    TextRoundTrip(u, replace);
    TextRoundTrip(n, replace);
    EmptyText(n, replace);
    JoinedRoundTrip(id, u, if n == [] then u else n);
  }

  /** The client reads an announced departure. */
  lemma {:induction false} LeftRoundTrip(id: uint32)
    ensures ForClient(ClientLeft(id)) == Some(Left(id))
  {
    SecondOnly(CLIENT_LEFT, PutU32(id));
    TakePutU32(id, []);
    assert PutU32(id) + [] == PutU32(id);
  }

  // ---------------------------------------------------------------- the bytes themselves

  /** Voice on its way up: type 7, sequence, flags and the frame; on its way down type 8 and the sender come first. */
  lemma {:induction false} VoiceBytes(sender: uint32, sequence: uint16, flags: byte, opus: seq<byte>)
    ensures VoiceUp(sequence, flags, opus) == [7] + PutU16(sequence) + [flags] + opus
    ensures VoiceDown(sender, sequence, flags, opus) == [8] + PutU32(sender) + PutU16(sequence) + [flags] + opus
  {
  }

  /** A transmission: type 12, active, frequency, range and subtype; passed on type 13 and the sender come first. */
  lemma {:induction false} TransmissionBytes(sender: uint32, active: byte, freq: seq<byte>, range: uint16, sub: seq<byte>)
    ensures RadioTxUpdate(active, freq, range, sub) == [12, active] + Str8(freq) + PutU16(range) + Str8(sub)
    ensures RadioTxBroadcast(sender, active, freq, range, sub) == [13] + PutU32(sender) + [active] + Str8(freq) + PutU16(range) + Str8(sub)
  {
  }

  /** A request: type 1, version 1, password hash, uid and name; an announcement: type 9, id, uid and name; a departure: type 10 and id. */
  lemma {:induction false} RosterBytes(hash: seq<byte>, id: uint32, uid: seq<byte>, name: seq<byte>)
    ensures ConnectRequest(hash, uid, name) == [1, 1] + hash + Str8(uid) + Str8(name)
    ensures ClientJoined(id, uid, name) == [9] + PutU32(id) + Str8(uid) + Str8(name)
    ensures ClientLeft(id) == [10] + PutU32(id)
  {
  }

  /** What the relay makes of the bytes behind the type of a request, byte by byte. */
  ghost predicate ReadsAs(b: seq<byte>, replace: Replacement, r: Request) {
    if b == [] then r == Dropped
    else if b[0] != 1 then r == WrongVersion
    else if |b| < 33 then r == Malformed
    else if |b| == 33 then r == Dropped
    else
      var u := b[33] as int;
      if u > 40 || |b| < 34 + u then r == Malformed
      else if |b| == 34 + u then r == Dropped
      else
        var n := b[34 + u] as int;
        if n > 32 || |b| < 35 + u + n then r == Malformed
        else r == Fields(b[1..33], TextOf(b[34..34 + u], replace), TextOf(b[35 + u..35 + u + n], replace))
  }

  lemma {:induction false} TextAt(b: seq<byte>, pos: nat, max: nat, replace: Replacement)
    requires pos < |b|
    ensures var n := b[pos] as int;
            var (t, rest) := TakeText(b[pos..], max, replace);
            if n > max || |b| < pos + 1 + n then t == Invalid
            else t == Read(TextOf(b[pos + 1..pos + 1 + n], replace)) && rest == b[pos + 1 + n..]
  {
    TakeStr8At(b, pos, max);
  }

  /** A request is read field by field, and each way in which it can fall short is told apart. */
  lemma {:induction false} RequestRead(b: seq<byte>, replace: Replacement)
    ensures ReadsAs(b, replace, RequestOf(b, replace))
  {
    if |b| >= 33 && b[0] == 1 {
      assert b[1..][HASH_LENGTH..] == b[33..] && b[1..][..HASH_LENGTH] == b[1..33];
      if |b| > 33 {
        TextAt(b, 33, MAX_UID, replace);
        var u := b[33] as int;
        if u <= 40 && |b| > 34 + u {
          TextAt(b, 34 + u, MAX_NAME, replace);
        }
      }
    }
  }
}
