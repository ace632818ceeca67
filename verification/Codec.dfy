/**
 The client's and the relay's encoders over their fixed buffers, and their decoders: each writes or reads
 exactly the message's bytes.
 */
module Codec {
  import opened Wrappers
  import opened Sequences
  import opened Utf8
  import opened Wire
  import opened Messages

  lemma {:induction false} Nest3<T>(a: seq<T>, b: seq<T>, c: seq<T>)
    ensures [] + a + b + c == a + (b + c)
  {
    Associative(a, b, c);
  }

  lemma {:induction false} Nest4<T>(a: seq<T>, b: seq<T>, c: seq<T>, d: seq<T>)
    ensures [] + a + b + c + d == a + (b + (c + d))
  {
    Nest3(a, b, c);
    Associative(a, b + c, d);
    Associative(b, c, d);
  }

  lemma {:induction false} Nest5<T>(a: seq<T>, b: seq<T>, c: seq<T>, d: seq<T>, e: seq<T>)
    ensures [] + a + b + c + d + e == a + (b + (c + (d + e)))
  {
    Nest4(a, b, c, d);
    Associative(a, b + (c + d), e);
    Associative(b, c + d, e);
    Associative(c, d, e);
  }

  lemma {:induction false} Nest6<T>(a: seq<T>, b: seq<T>, c: seq<T>, d: seq<T>, e: seq<T>, f: seq<T>)
    ensures [] + a + b + c + d + e + f == a + (b + (c + (d + (e + f))))
  {
    Nest5(a, b, c, d, e);
    Associative(a, b + (c + (d + e)), f);
    Associative(b, c + (d + e), f);
    Associative(c, d + e, f);
    Associative(d, e, f);
  }

  // ---------------------------------------------------------------- the client

  method EncodeRadioTx(active: bool, freq: seq<byte>, range: uint16, sub: seq<byte>) returns (packet: seq<byte>)
    ensures packet == RadioTxUpdate(if active then 1 else 0, Truncated(freq, MAX_FREQ), range, Truncated(sub, MAX_SUBTYPE))
  {
    var truncFreq := TruncateUtf8(freq, MAX_FREQ);
    var truncSub := TruncateUtf8(sub, MAX_SUBTYPE);
    var flag: byte := if active then 1 else 0;
    var buffer := new byte[1 + 1 + 1 + MAX_FREQ + 2 + 1 + MAX_SUBTYPE](_ => 0);
    var writer := new PacketWriter(buffer);
    var a := writer.WriteByte(RADIO_TX_UPDATE);
    var b := writer.WriteByte(flag);
    var c := writer.WriteString8(truncFreq);
    var d := writer.WriteUInt16(range);
    var e := writer.WriteString8(truncSub);
    assert a && b && c && d && e;
    packet := buffer[..writer.pos];
    Nest5([RADIO_TX_UPDATE], [flag], Str8(truncFreq), PutU16(range), Str8(truncSub));
  }

  /** Nothing is sent for an empty or oversized frame. */
  method EncodeVoice(sequence: uint16, isLast: bool, opus: seq<byte>) returns (packet: Option<seq<byte>>)
    ensures packet == if 0 < |opus| <= MAX_OPUS then Some(VoiceUp(sequence, if isLast then LAST_FRAME else 0, opus)) else None
  {
    if |opus| == 0 || |opus| > MAX_OPUS {
      return None;
    }
    var flags: byte := if isLast then LAST_FRAME else 0;
    var buffer := new byte[1 + 2 + 1 + MAX_OPUS](_ => 0);
    var writer := new PacketWriter(buffer);
    var a := writer.WriteByte(VOICE_UP);
    var b := writer.WriteUInt16(sequence);
    var c := writer.WriteByte(flags);
    var d := writer.WriteBytes(opus);
    assert a && b && c && d;
    packet := Some(buffer[..writer.pos]);
    Nest4([VOICE_UP], PutU16(sequence), [flags], opus);
  }

  method EncodeConnectRequest(hash: seq<byte>, uid: seq<byte>, name: seq<byte>) returns (packet: seq<byte>)
    requires |hash| == HASH_LENGTH
    ensures packet == ConnectRequest(hash, Truncated(uid, MAX_UID), Truncated(name, MAX_NAME))
  {
    var truncUid := TruncateUtf8(uid, MAX_UID);
    var truncName := TruncateUtf8(name, MAX_NAME);
    var buffer := new byte[1 + 1 + HASH_LENGTH + 1 + MAX_UID + 1 + MAX_NAME](_ => 0);
    var writer := new PacketWriter(buffer);
    var a := writer.WriteByte(CONNECT_REQUEST);
    var b := writer.WriteByte(VERSION_MAJOR);
    var c := writer.WriteBytes(hash);
    var d := writer.WriteString8(truncUid);
    var e := writer.WriteString8(truncName);
    assert a && b && c && d && e;
    packet := buffer[..writer.pos];
    Nest5([CONNECT_REQUEST], [VERSION_MAJOR], hash, Str8(truncUid), Str8(truncName));
  }

  method ReadFrame(reader: PacketReader) returns (frame: Option<Frame>)
    requires reader.Valid()
    modifies reader
    ensures reader.Valid() && frame == TakeFrame(old(reader.Rest()))
  {
    var sequence :- reader.ReadUInt16();
    var flags :- reader.ReadByte();
    var opus := reader.ReadRemaining();
    frame := Some(Frame(sequence, flags, opus));
  }

  method ReadNames(reader: PacketReader) returns (names: Option<(seq<byte>, seq<byte>)>)
    requires reader.Valid()
    modifies reader
    ensures reader.Valid() && names == TakeNames(old(reader.Rest()))
  {
    var uid :- reader.ReadString8(MAX_UID);
    var name :- reader.ReadString8(MAX_NAME);
    names := Some((uid, name));
  }

  method ReadTx(reader: PacketReader) returns (tx: Option<Tx>)
    requires reader.Valid()
    modifies reader
    ensures reader.Valid() && tx == TakeTx(old(reader.Rest()))
  {
    var active :- reader.ReadByte();
    var freq :- reader.ReadString8(MAX_FREQ);
    var range :- reader.ReadUInt16();
    var sub :- reader.ReadString8(MAX_SUBTYPE);
    tx := Some(Tx(active, freq, range, sub));
  }

  /** Reads one datagram; a malformed one is dropped. */
  method HandlePacket(data: seq<byte>) returns (inbound: Option<Inbound>)
    ensures inbound == ForClient(data)
  {
    if |data| < 1 {
      return None;
    }
    var reader := new PacketReader(data);
    var first := reader.ReadByte();
    var kind := first.value;
    if kind == VOICE_DOWN {
      var sender :- reader.ReadUInt32();
      var frame :- ReadFrame(reader);
      inbound := Some(Voice(sender, frame.sequence, HasLastFrame(frame.flags), frame.opus));
    } else if kind == CLIENT_JOINED {
      var id :- reader.ReadUInt32();
      var names :- ReadNames(reader);
      inbound := Some(Joined(id, names.0, names.1));
    } else if kind == CLIENT_LEFT {
      var id :- reader.ReadUInt32();
      inbound := Some(Left(id));
    } else if kind == RADIO_TX_BROADCAST {
      var sender :- reader.ReadUInt32();
      var tx :- ReadTx(reader);
      inbound := Some(Transmission(sender, tx.active != 0, tx.freq, tx.range, tx.sub));
    } else {
      inbound := Some(Ignored);
    }
  }

  // ---------------------------------------------------------------- the relay

  method ParseConnectRequest(reader: PacketReader, replace: Replacement) returns (request: Request)
    requires reader.Valid()
    modifies reader
    ensures request == RequestOf(old(reader.Rest()), replace)
  {
    var version := reader.ReadByte();
    if version.None? {
      return Dropped;
    }
    if version.value != VERSION_MAJOR {
      return WrongVersion;
    }
    if |reader.data| - reader.pos < HASH_LENGTH {
      return Malformed;
    }
    var hash := reader.data[reader.pos..reader.pos + HASH_LENGTH];
    HashSplits(reader.data, reader.pos);
    reader.pos := reader.pos + HASH_LENGTH;
    var uid := reader.ReadText(MAX_UID, replace);
    if !uid.Read? {
      return if uid.NoLength? then Dropped else Malformed;
    }
    var name := reader.ReadText(MAX_NAME, replace);
    if !name.Read? {
      return if name.NoLength? then Dropped else Malformed;
    }
    request := Fields(hash, uid.text, name.text);
  }

  lemma {:induction false} HashSplits(data: seq<byte>, pos: nat)
    requires pos + HASH_LENGTH <= |data|
    ensures data[pos..][..HASH_LENGTH] == data[pos..pos + HASH_LENGTH] && data[pos..][HASH_LENGTH..] == data[pos + HASH_LENGTH..]
  {
  }

  /** The relay's announcement of a session, unless its strings overrun the buffer. */
  method EncodeClientJoined(id: uint32, uid: string, name: string) returns (packet: Option<seq<byte>>)
    ensures packet == JoinedPacket(id, uid, name)
  {
    var buffer := new byte[1 + 4 + 1 + MAX_UID + 1 + MAX_NAME](_ => 0);
    var writer := new PacketWriter(buffer);
    var a := writer.WriteByte(CLIENT_JOINED);
    var b := writer.WriteUInt32(id);
    assert a && b;
    var c := writer.WriteText(uid);
    if !c {
      return None;
    }
    var d := writer.WriteText(name);
    if !d {
      return None;
    }
    packet := Some(buffer[..writer.pos]);
    Nest4([CLIENT_JOINED], PutU32(id), Str8(Encode(uid)), Str8(Encode(name)));
  }

  /** Relays a voice frame, unless it is cut short or too long. */
  method RelayVoice(reader: PacketReader, sender: uint32) returns (packet: Option<seq<byte>>)
    requires reader.Valid()
    modifies reader
    ensures packet == RelayedVoice(old(reader.Rest()), sender)
  {
    var frame :- ReadFrame(reader);
    if |frame.opus| > MAX_OPUS {
      return None;
    }
    var buffer := new byte[1 + 4 + 2 + 1 + MAX_OPUS](_ => 0);
    var writer := new PacketWriter(buffer);
    var a := writer.WriteByte(VOICE_DOWN);
    var b := writer.WriteUInt32(sender);
    var c := writer.WriteUInt16(frame.sequence);
    var d := writer.WriteByte(frame.flags);
    var e := writer.WriteBytes(frame.opus);
    assert a && b && c && d && e;
    packet := Some(buffer[..writer.pos]);
    Nest5([VOICE_DOWN], PutU32(sender), PutU16(frame.sequence), [frame.flags], frame.opus);
  }

  method EncodeBroadcast(sender: uint32, active: byte, freq: string, range: uint16, sub: string) returns (packet: Option<seq<byte>>)
    ensures packet == if |Encode(freq)| + |Encode(sub)| <= MAX_FREQ + MAX_SUBTYPE
                      then Some(RadioTxBroadcast(sender, active, Encode(freq), range, Encode(sub))) else None
  {
    var buffer := new byte[1 + 4 + 1 + 1 + MAX_FREQ + 2 + 1 + MAX_SUBTYPE](_ => 0);
    var writer := new PacketWriter(buffer);
    var a := writer.WriteByte(RADIO_TX_BROADCAST);
    var b := writer.WriteUInt32(sender);
    var c := writer.WriteByte(active);
    assert a && b && c;
    var d := writer.WriteText(freq);
    if !d {
      return None;
    }
    var e := writer.WriteUInt16(range);
    if !e {
      return None;
    }
    var f := writer.WriteText(sub);
    if !f {
      return None;
    }
    packet := Some(buffer[..writer.pos]);
    Nest6([RADIO_TX_BROADCAST], PutU32(sender), [active], Str8(Encode(freq)), PutU16(range), Str8(Encode(sub)));
  }

  /** Relays a transmission, unless it is malformed or its text no longer fits. */
  method RelayRadioTx(reader: PacketReader, sender: uint32, replace: Replacement) returns (packet: Option<seq<byte>>)
    requires reader.Valid()
    modifies reader
    ensures packet == RelayedTx(old(reader.Rest()), sender, replace)
  {
    var active :- reader.ReadByte();
    var freq := reader.ReadText(MAX_FREQ, replace);
    if !freq.Read? {
      return None;
    }
    var range :- reader.ReadUInt16();
    var sub := reader.ReadText(MAX_SUBTYPE, replace);
    if !sub.Read? {
      return None;
    }
    packet := EncodeBroadcast(sender, active, freq.text, range, sub.text);
  }
}
