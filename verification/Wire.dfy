/**
 The bytes of the relay protocol: little-endian integers and strings with a length byte, the writer over a
 caller's buffer and the reader over a datagram. The client's and the relay's writers and readers do the
 same but for strings, which the client keeps as bytes and the relay as text. A failed call is what the
 code answers with an exception.
 */
module Wire {
  import opened Wrappers
  import opened Utf8

  type uint16 = v: int | 0 <= v < 0x10000
  type uint32 = v: int | 0 <= v < 0x1_0000_0000

  /** What decoding makes of ill-formed bytes. */
  type Replacement = seq<byte> -> string

  const MAX_NAME := 32
  const MAX_UID := 40
  const MAX_OPUS := 500
  const MAX_FREQ := 16
  const MAX_SUBTYPE := 16
  const HASH_LENGTH := 32

  // ---------------------------------------------------------------- layout

  function PutU16(v: uint16): seq<byte> { [(v % 0x100) as byte, (v / 0x100) as byte] }

  function PutU32(v: uint32): seq<byte> {
    [(v % 0x100) as byte, (v / 0x100 % 0x100) as byte, (v / 0x10000 % 0x100) as byte, (v / 0x1000000) as byte]
  }

  /** A string and its length; the length byte holds what fits into it. */
  function Str8(value: seq<byte>): (bytes: seq<byte>)
    ensures |bytes| == 1 + |value|
  {
    [(|value| % 0x100) as byte] + value
  }

  function TakeU8(b: seq<byte>): Option<(byte, seq<byte>)> {
    if |b| < 1 then None else Some((b[0], b[1..]))
  }

  function TakeU16(b: seq<byte>): Option<(uint16, seq<byte>)> {
    if |b| < 2 then None else Some((b[0] as int + 0x100 * b[1] as int, b[2..]))
  }

  function TakeU32(b: seq<byte>): Option<(uint32, seq<byte>)> {
    if |b| < 4 then None
    else Some((b[0] as int + 0x100 * b[1] as int + 0x10000 * b[2] as int + 0x1000000 * b[3] as int, b[4..]))
  }

  function TakeStr8(b: seq<byte>, max: nat): Option<(seq<byte>, seq<byte>)> {
    if |b| < 1 || b[0] as int > max || b[0] as int > |b| - 1 then None
    else Some((b[1..1 + b[0] as int], b[1 + b[0] as int..]))
  }

  /** The low byte comes first. */
  lemma {:induction false} LittleEndian(v: uint16, u: uint32)
    ensures |PutU16(v)| == 2 && PutU16(v)[0] as int + 256 * PutU16(v)[1] as int == v
    ensures |PutU32(u)| == 4
    ensures PutU32(u)[0] as int + 256 * (PutU32(u)[1] as int + 256 * (PutU32(u)[2] as int + 256 * PutU32(u)[3] as int)) == u
  {
    TakePutU32(u, []);
    assert PutU32(u) + [] == PutU32(u);
  }

  lemma {:induction false} TakePutU16(v: uint16, rest: seq<byte>)
    ensures TakeU16(PutU16(v) + rest) == Some((v, rest))
  {
    assert (PutU16(v) + rest)[2..] == rest;
  }

  lemma {:induction false} TakePutU32(v: uint32, rest: seq<byte>)
    ensures TakeU32(PutU32(v) + rest) == Some((v, rest))
  {
    assert v / 0x100 == v / 0x10000 * 0x100 + v / 0x100 % 0x100;
    assert v / 0x10000 == v / 0x1000000 * 0x100 + v / 0x10000 % 0x100;
    assert (PutU32(v) + rest)[4..] == rest;
  }

  lemma {:induction false} TakePutStr8(value: seq<byte>, max: nat, rest: seq<byte>)
    requires |value| <= 255
    ensures TakeStr8(Str8(value) + rest, max) == if |value| <= max then Some((value, rest)) else None
  {
    var b := Str8(value) + rest;
    assert b[0] as int == |value|;
    assert b[1..1 + |value|] == value && b[1 + |value|..] == rest;
  }

  /** The same at a position of a longer datagram. */
  lemma {:induction false} TakeStr8At(data: seq<byte>, pos: nat, max: nat)
    requires pos < |data|
    ensures var n := data[pos] as int;
            TakeStr8(data[pos..], max) ==
            if n > max || n > |data| - pos - 1 then None else Some((data[pos + 1..pos + 1 + n], data[pos + 1 + n..]))
  {
    var b, n := data[pos..], data[pos] as int;
    assert b[0] == data[pos];
    if n <= |data| - pos - 1 {
      assert b[1..1 + n] == data[pos + 1..pos + 1 + n];
      assert b[1 + n..] == data[pos + 1 + n..];
    }
  }

  // ---------------------------------------------------------------- announcements

  /** An announcement of these names fits the relay's buffer. */
  predicate Fits(uid: string, name: string) { |Encode(uid)| + |Encode(name)| <= MAX_UID + MAX_NAME }

  /** A client reads it: each string is within its own limit. */
  predicate Readable(uid: string, name: string) { |Encode(uid)| <= MAX_UID && |Encode(name)| <= MAX_NAME }

  // ---------------------------------------------------------------- writer

  class PacketWriter {
    const buffer: array<byte>
    var pos: nat

    ghost predicate Valid()
      reads this
    {
      pos <= buffer.Length
    }

    ghost function Written(): seq<byte>
      requires Valid()
      reads this, buffer
    {
      buffer[..pos]
    }

    constructor (buffer: array<byte>)
      ensures Valid() && this.buffer == buffer && pos == 0
    {
      this.buffer := buffer;
      pos := 0;
    }

    method WriteBytes(data: seq<byte>) returns (ok: bool)
      requires Valid()
      modifies this, buffer
      ensures Valid() && ok == (old(pos) + |data| <= buffer.Length)
      ensures Written() == if ok then old(Written()) + data else old(Written())
    {
      ok := pos + |data| <= buffer.Length;
      if ok {
        for k := 0 to |data|
          invariant pos == old(pos)
          invariant buffer[..pos + k] == old(buffer[..pos]) + data[..k]
        {
          buffer[pos + k] := data[k];
          assert data[..k + 1] == data[..k] + [data[k]];
        }
        assert data[..|data|] == data;
        pos := pos + |data|;
      }
    }

    method WriteByte(value: byte) returns (ok: bool)
      requires Valid()
      modifies this, buffer
      ensures Valid() && ok == (old(pos) + 1 <= buffer.Length)
      ensures Written() == if ok then old(Written()) + [value] else old(Written())
    {
      ok := WriteBytes([value]);
    }

    method WriteUInt16(value: uint16) returns (ok: bool)
      requires Valid()
      modifies this, buffer
      ensures Valid() && ok == (old(pos) + 2 <= buffer.Length)
      ensures Written() == if ok then old(Written()) + PutU16(value) else old(Written())
    {
      ok := WriteBytes([(value % 0x100) as byte, (value / 0x100 % 0x100) as byte]);
    }

    method WriteUInt32(value: uint32) returns (ok: bool)
      requires Valid()
      modifies this, buffer
      ensures Valid() && ok == (old(pos) + 4 <= buffer.Length)
      ensures Written() == if ok then old(Written()) + PutU32(value) else old(Written())
    {
      ok := WriteBytes([(value % 0x100) as byte, (value / 0x100 % 0x100) as byte, (value / 0x10000 % 0x100) as byte,
                        (value / 0x1000000 % 0x100) as byte]);
    }

    /** The client's string: refused when the length byte cannot hold its length. */
    method WriteString8(value: seq<byte>) returns (ok: bool)
      requires Valid()
      modifies this, buffer
      ensures Valid() && ok == (|value| <= 255 && old(pos) + 1 + |value| <= buffer.Length)
      ensures Written() == if ok then old(Written()) + Str8(value) else old(Written())
    {
      if |value| > 255 {
        return false;
      }
      ok := WriteBytes([|value| as byte] + value);
    }

    /** The relay's string: encoded on the way out. */
    method WriteText(value: string) returns (ok: bool)
      requires Valid()
      modifies this, buffer
      ensures Valid() && ok == (old(pos) + 1 + |Encode(value)| <= buffer.Length)
      ensures Written() == if ok then old(Written()) + Str8(Encode(value)) else old(Written())
    {
      var bytes := Encode(value);
      ok := WriteBytes([(|bytes| % 0x100) as byte] + bytes);
    }
  }

  // ---------------------------------------------------------------- reader

  /** Decoding never fails: ill-formed bytes are replaced. */
  function TextOf(bytes: seq<byte>, replace: Replacement): string {
    if Decode(bytes).Some? then Decode(bytes).value else replace(bytes)
  }

  /** The relay tells a missing length byte from a string that is too long or cut off. */
  datatype TextRead = Read(text: string) | Invalid | NoLength

  class PacketReader {
    const data: seq<byte>
    var pos: nat

    ghost predicate Valid()
      reads this
    {
      pos <= |data|
    }

    ghost function Rest(): seq<byte>
      requires Valid()
      reads this
    {
      data[pos..]
    }

    constructor (data: seq<byte>)
      ensures Valid() && this.data == data && Rest() == data
    {
      this.data := data;
      pos := 0;
    }

    method ReadByte() returns (value: Option<byte>)
      requires Valid()
      modifies this
      ensures Valid() && value.Some? == TakeU8(old(Rest())).Some?
      ensures if value.Some? then TakeU8(old(Rest())) == Some((value.value, Rest())) else Rest() == old(Rest())
    {
      if |data| - pos < 1 {
        return None;
      }
      value := Some(data[pos]);
      pos := pos + 1;
    }

    method ReadUInt16() returns (value: Option<uint16>)
      requires Valid()
      modifies this
      ensures Valid() && value.Some? == TakeU16(old(Rest())).Some?
      ensures if value.Some? then TakeU16(old(Rest())) == Some((value.value, Rest())) else Rest() == old(Rest())
    {
      if |data| - pos < 2 {
        return None;
      }
      value := Some(data[pos] as int + 0x100 * data[pos + 1] as int);
      pos := pos + 2;
    }

    method ReadUInt32() returns (value: Option<uint32>)
      requires Valid()
      modifies this
      ensures Valid() && value.Some? == TakeU32(old(Rest())).Some?
      ensures if value.Some? then TakeU32(old(Rest())) == Some((value.value, Rest())) else Rest() == old(Rest())
    {
      if |data| - pos < 4 {
        return None;
      }
      value := Some(data[pos] as int + 0x100 * data[pos + 1] as int + 0x10000 * data[pos + 2] as int + 0x1000000 * data[pos + 3] as int);
      pos := pos + 4;
    }

    /** The client's string; a failure past the length byte leaves the reader behind it. */
    method ReadString8(maxLength: nat) returns (value: Option<seq<byte>>)
      requires Valid()
      modifies this
      ensures Valid() && value.Some? == TakeStr8(old(Rest()), maxLength).Some?
      ensures if value.Some? then TakeStr8(old(Rest()), maxLength) == Some((value.value, Rest()))
              else Rest() == if old(Rest()) == [] then [] else old(Rest())[1..]
    {
      if pos < |data| {
        TakeStr8At(data, pos, maxLength);
      }
      var len :- ReadByte();
      if len as int > maxLength || |data| - pos < len as int {
        return None;
      }
      value := Some(data[pos..pos + len as int]);
      pos := pos + len as int;
    }

    /** The relay's string. */
    method ReadText(maxLength: nat, replace: Replacement) returns (value: TextRead)
      requires Valid()
      modifies this
      ensures Valid() && value.NoLength? == (old(Rest()) == []) && value.Read? == TakeStr8(old(Rest()), maxLength).Some?
      ensures value.Read? ==> TakeStr8(old(Rest()), maxLength).value.1 == Rest() &&
                              value.text == TextOf(TakeStr8(old(Rest()), maxLength).value.0, replace)
      ensures !value.Read? ==> Rest() == if old(Rest()) == [] then [] else old(Rest())[1..]
    {
      if pos < |data| {
        TakeStr8At(data, pos, maxLength);
      }
      var length := ReadByte();
      if length.None? {
        return NoLength;
      }
      var byteCount := length.value as int;
      if byteCount > maxLength || pos + byteCount > |data| {
        return Invalid;
      }
      value := Read(TextOf(data[pos..pos + byteCount], replace));
      pos := pos + byteCount;
    }

    method ReadRemaining() returns (value: seq<byte>)
      requires Valid()
      modifies this
      ensures Valid() && value == old(Rest()) && Rest() == []
    {
      value := data[pos..];
      pos := |data|;
    }
  }
}
