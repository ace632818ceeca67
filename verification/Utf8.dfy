/**
 UTF-8 as RFC 3629 defines it (encoding in section 3, well-formed byte sequences in section 4), and
 truncation to a byte limit at a code point boundary.
 */
module Utf8 {
  import opened Wrappers
  import opened Sequences

  newtype byte = b: int | 0 <= b < 0x100

  /** The bytes of one character, that is, of one Unicode scalar value. */
  function EncodeScalar(c: char): (bytes: seq<byte>)
    ensures 1 <= |bytes| <= 4
  {
    var n := c as int;
    if n < 0x80 then [n as byte]
    else if n < 0x800 then [(0xC0 + n / 0x40) as byte, Tail(n)]
    else if n < 0x10000 then [(0xE0 + n / 0x1000) as byte, Tail(n / 0x40), Tail(n)]
    else [(0xF0 + n / 0x40000) as byte, Tail(n / 0x1000), Tail(n / 0x40), Tail(n)]
  }

  /** The continuation byte that carries the low six bits. */
  function Tail(c: nat): byte { (0x80 + c % 0x40) as byte }

  /** The two high bits are 10. */
  predicate IsTail(b: byte) { 0x80 <= b < 0xC0 }

  function Encode(s: string): seq<byte> {
    if s == [] then [] else Encode(s[..|s| - 1]) + EncodeScalar(s[|s| - 1])
  }

  lemma {:induction false} AsciiLength(s: string)
    requires forall i :: 0 <= i < |s| ==> s[i] as int < 0x80
    ensures |Encode(s)| == |s|
  {
    if s != "" {
      AsciiLength(s[..|s| - 1]);
    }
  }

  // ---------------------------------------------------------------- well-formed bytes

  /** The sequences of section 4 of RFC 3629, byte range by byte range. */
  predicate Char(b: seq<byte>) {
    match |b|
    case 1 => b[0] <= 0x7F
    case 2 => 0xC2 <= b[0] <= 0xDF && IsTail(b[1])
    case 3 =>
      && (   (b[0] == 0xE0 && 0xA0 <= b[1] <= 0xBF)
          || (0xE1 <= b[0] <= 0xEC && IsTail(b[1]))
          || (b[0] == 0xED && 0x80 <= b[1] <= 0x9F)
          || (0xEE <= b[0] <= 0xEF && IsTail(b[1])))
      && IsTail(b[2])
    case 4 =>
      && (   (b[0] == 0xF0 && 0x90 <= b[1] <= 0xBF)
          || (0xF1 <= b[0] <= 0xF3 && IsTail(b[1]))
          || (b[0] == 0xF4 && 0x80 <= b[1] <= 0x8F))
      && IsTail(b[2]) && IsTail(b[3])
    case _ => false
  }

  function Six(b: byte): int { b as int - 0x80 }

  /** The code point of a well-formed sequence. */
  function CodePoint(b: seq<byte>): (n: int)
    requires Char(b)
    ensures 0 <= n < 0xD800 || 0xE000 <= n < 0x110000
  {
    if |b| == 1 then b[0] as int
    else if |b| == 2 then (b[0] as int - 0xC0) * 0x40 + Six(b[1])
    else if |b| == 3 then ((b[0] as int - 0xE0) * 0x40 + Six(b[1])) * 0x40 + Six(b[2])
    else (((b[0] as int - 0xF0) * 0x40 + Six(b[1])) * 0x40 + Six(b[2])) * 0x40 + Six(b[3])
  }

  function DecodeChar(b: seq<byte>): char
    requires Char(b)
  {
    CodePoint(b) as char
  }

  function LeadLength(b: byte): (n: nat)
    ensures 1 <= n <= 4
  {
    if b < 0xC0 then 1 else if b < 0xE0 then 2 else if b < 0xF0 then 3 else 4
  }

  function Decode(b: seq<byte>): Option<string> {
    if b == [] then Some([])
    else
      var n := LeadLength(b[0]);
      if n > |b| || !Char(b[..n]) then None
      else
        var rest := Decode(b[n..]);
        if rest.None? then None else Some([DecodeChar(b[..n])] + rest.value)
  }

  lemma {:induction false} CharLength(b: seq<byte>)
    requires Char(b)
    ensures |b| == LeadLength(b[0])
  {
  }

  lemma {:induction false} EncodedIsChar(c: char)
    ensures Char(EncodeScalar(c)) && DecodeChar(EncodeScalar(c)) == c
  {
    var n := c as int;
    if n < 0x80 {
    } else if n < 0x800 {
      assert n == n / 0x40 * 0x40 + n % 0x40;
    } else if n < 0x10000 {
      assert n / 0x40 == n / 0x1000 * 0x40 + n / 0x40 % 0x40;
    } else {
      assert n / 0x1000 == n / 0x40000 * 0x40 + n / 0x1000 % 0x40;
      assert n / 0x40 == n / 0x1000 * 0x40 + n / 0x40 % 0x40;
    }
  }

  /** The low six bits and the rest. */
  lemma {:induction false} LowSix(high: nat, b: byte)
    requires IsTail(b)
    ensures (high * 0x40 + Six(b)) / 0x40 == high && Tail(high * 0x40 + Six(b)) == b
  {
  }

  lemma {:induction false} Char2(b: seq<byte>)
    requires Char(b) && |b| == 2
    ensures EncodeScalar(DecodeChar(b)) == b
  {
    LowSix(b[0] as int - 0xC0, b[1]);
  }

  lemma {:induction false} Char3(b: seq<byte>)
    requires Char(b) && |b| == 3
    ensures EncodeScalar(DecodeChar(b)) == b
  {
    var lead := b[0] as int - 0xE0;
    LowSix(lead, b[1]);
    LowSix(lead * 0x40 + Six(b[1]), b[2]);
    assert CodePoint(b) / 0x1000 == lead;
  }

  lemma {:induction false} Char4(b: seq<byte>)
    requires Char(b) && |b| == 4
    ensures EncodeScalar(DecodeChar(b)) == b
  {
    var lead := b[0] as int - 0xF0;
    var two := lead * 0x40 + Six(b[1]);
    LowSix(lead, b[1]);
    LowSix(two, b[2]);
    LowSix(two * 0x40 + Six(b[2]), b[3]);
    assert CodePoint(b) / 0x1000 == two && CodePoint(b) / 0x40000 == lead;
  }

  lemma {:induction false} CharIsEncoded(b: seq<byte>)
    requires Char(b)
    ensures EncodeScalar(DecodeChar(b)) == b
  {
    match |b|
    case 1 => assert b == [b[0]];
    case 2 => Char2(b);
    case 3 => Char3(b);
    case _ => Char4(b);
  }

  lemma {:induction false} EncodeCons(c: char, s: string)
    ensures Encode([c] + s) == EncodeScalar(c) + Encode(s)
  {
    if s == [] {
      assert [c] + s == [c] && [c][..0] == [];
    } else {
      var n := |s| - 1;
      EncodeCons(c, s[..n]);
      assert ([c] + s)[..n + 1] == [c] + s[..n];
      Associative(EncodeScalar(c), Encode(s[..n]), EncodeScalar(s[n]));
    }
  }

  lemma {:induction false} DecodeCons(b: seq<byte>, rest: seq<byte>)
    requires Char(b)
    ensures Decode(b + rest) == if Decode(rest).Some? then Some([DecodeChar(b)] + Decode(rest).value) else None
  {
    CharLength(b);
    assert (b + rest)[0] == b[0] && (b + rest)[..|b|] == b && (b + rest)[|b|..] == rest;
  }

  /** Decoding gives back what was encoded. */
  lemma {:induction false} DecodeEncode(s: string)
    ensures Decode(Encode(s)) == Some(s)
  {
    if s != [] {
      DecodeEncode(s[1..]);
      EncodeCons(s[0], s[1..]);
      assert [s[0]] + s[1..] == s;
      EncodedIsChar(s[0]);
      DecodeCons(EncodeScalar(s[0]), Encode(s[1..]));
    }
  }

  /** What decodes is an encoding, and of nothing else. */
  lemma {:induction false} EncodeDecode(b: seq<byte>)
    requires Decode(b).Some?
    ensures Encode(Decode(b).value) == b
  {
    if b != [] {
      var n := LeadLength(b[0]);
      EncodeDecode(b[n..]);
      EncodeCons(DecodeChar(b[..n]), Decode(b[n..]).value);
      CharIsEncoded(b[..n]);
      assert b[..n] + b[n..] == b;
    }
  }

  /** The well-formed byte sequences are the encodings. */
  predicate Valid(b: seq<byte>) { Decode(b).Some? }

  lemma {:induction false} ValidIff(b: seq<byte>)
    ensures Valid(b) <==> exists s :: Encode(s) == b
  {
    if Valid(b) {
      EncodeDecode(b);
    }
    if exists s :: Encode(s) == b {
      var s :| Encode(s) == b;
      DecodeEncode(s);
    }
  }

  // ---------------------------------------------------------------- truncation

  /** Where the last sequence starts: at the last byte that does not continue one. */
  function Cut(b: seq<byte>): (cut: nat)
    requires b != []
    ensures cut < |b|
  {
    var n := |b| - 1;
    if n > 0 && IsTail(b[n]) then Cut(b[..n]) else n
  }

  function Truncated(b: seq<byte>, max: nat): (r: seq<byte>)
    ensures |r| <= max && r <= b
  {
    if |b| <= max then b else Truncated(b[..Cut(b)], max)
  }

  lemma {:induction false} CutAt(b: seq<byte>, k: nat)
    requires k < |b| && !IsTail(b[k]) && forall i :: k < i < |b| ==> IsTail(b[i])
    ensures Cut(b) == k
  {
    if k < |b| - 1 {
      CutAt(b[..|b| - 1], k);
    }
  }

  lemma {:induction false} EncodedShape(c: char)
    ensures var e := EncodeScalar(c); !IsTail(e[0]) && forall i :: 1 <= i < |e| ==> IsTail(e[i])
  {
    EncodedIsChar(c);
  }

  lemma {:induction false} CutLast(s: string)
    requires s != []
    ensures Encode(s) != [] && Encode(s)[..Cut(Encode(s))] == Encode(s[..|s| - 1])
  {
    var n := |s| - 1;
    EncodedShape(s[n]);
    var head := Encode(s[..n]);
    CutAt(Encode(s), |head|);
    assert Encode(s)[..|head|] == head;
  }

  /** `k` code points fit and `k` + 1 do not, if there are more. */
  ghost predicate Longest(s: string, k: nat, max: nat) {
    k <= |s| && |Encode(s[..k])| <= max && (k < |s| ==> |Encode(s[..k + 1])| > max)
  }

  lemma {:induction false} LongestExtends(s: string, k: nat, max: nat)
    requires |Encode(s)| > max && s != [] && Longest(s[..|s| - 1], k, max)
    ensures Longest(s, k, max) && s[..|s| - 1][..k] == s[..k]
  {
    var n := |s| - 1;
    assert s[..n][..k] == s[..k];
    if k < n {
      assert s[..n][..k + 1] == s[..k + 1];
    } else {
      assert s[..n + 1] == s;
    }
  }

  /** Of a well-formed text, truncation keeps the longest prefix of whole code points that fits. */
  lemma {:induction false} TruncatedIsLongest(s: string, max: nat) returns (k: nat)
    ensures Longest(s, k, max) && Truncated(Encode(s), max) == Encode(s[..k])
  {
    if |Encode(s)| <= max {
      k := |s|;
      assert s[..k] == s;
    } else {
      CutLast(s);
      k := TruncatedIsLongest(s[..|s| - 1], max);
      LongestExtends(s, k, max);
    }
  }

  lemma {:induction false} EncodeGrows(s: string, i: nat, j: nat)
    requires i <= j <= |s|
    ensures |Encode(s[..i])| + (j - i) <= |Encode(s[..j])|
  {
    if i < j {
      EncodeGrows(s, i, j - 1);
      assert s[..j][..j - 1] == s[..j - 1];
    }
  }

  /** There is only one such prefix. */
  lemma {:induction false} LongestUnique(s: string, j: nat, k: nat, max: nat)
    requires Longest(s, j, max) && Longest(s, k, max)
    ensures j == k
  {
    if j < k {
      EncodeGrows(s, j + 1, k);
      assert false;
    } else if k < j {
      EncodeGrows(s, k + 1, j);
      assert false;
    }
  }

  /** A text that fits, or was truncated, stays well-formed. */
  lemma {:induction false} TruncatedValid(b: seq<byte>, max: nat)
    requires Valid(b)
    ensures Valid(Truncated(b, max))
  {
    EncodeDecode(b);
    var k := TruncatedIsLongest(Decode(b).value, max);
    DecodeEncode(Decode(b).value[..k]);
  }

  /** Cuts whole sequences off the end until the text fits; on any bytes it ends with a prefix that fits. */
  method TruncateUtf8(value: seq<byte>, maxUtf8Bytes: nat) returns (result: seq<byte>)
    ensures result == Truncated(value, maxUtf8Bytes)
    ensures |result| <= maxUtf8Bytes && result <= value
  {
    result := value;
    while |result| > maxUtf8Bytes
      invariant Truncated(result, maxUtf8Bytes) == Truncated(value, maxUtf8Bytes)
      decreases |result|
    {
      var cut: nat := |result| - 1;
      assert result[..cut + 1] == result;
      while cut > 0 && IsTail(result[cut])
        invariant cut < |result| && Cut(result[..cut + 1]) == Cut(result)
      {
        assert result[..cut + 1][..cut] == result[..cut];
        cut := cut - 1;
      }
      result := result[..cut];
    }
  }
}
