/**
 Speaker playback: the mixer is asked for any number of device frames at a time, generates 48 kHz
 chunks of 960 stereo frames when it runs short, and interpolates at the device rate with a cursor
 that survives from request to request.

 Samples are reals and the cursor is the exact numerator over the device rate.
 */
module Playback {
  import opened Interpolation
  import opened Numbers

  const INTERNAL_RATE: nat := 48000
  const CHUNK_FRAMES: nat := 960

  datatype Stereo = Stereo(left: real, right: real)

  /** What one chunk is mixed from: a render per source, the rest of the local beep, the master settings. */
  datatype ChunkInput = ChunkInput(renders: seq<seq<Stereo>>, beep: seq<real>, volume: real, muted: bool) {
    ghost predicate Valid() {
      forall j :: 0 <= j < |renders| ==> |renders[j]| == CHUNK_FRAMES
    }
  }

  function Abs(x: real): real { if x < 0.0 then -x else x }

  /** The soft-clip limiter. */
  function Limit(x: real): real { x / (1.0 + Abs(x)) }

  function Blend2(a: Stereo, b: Stereo, frac: real): Stereo {
    Stereo(Lerp(a.left, b.left, frac), Lerp(a.right, b.right, frac))
  }

  /** Frame `i` summed over the first `n` sources. */
  function SourceSum(renders: seq<seq<Stereo>>, n: nat, i: nat): Stereo
    requires n <= |renders| && forall j :: 0 <= j < n ==> i < |renders[j]|
  {
    if n == 0 then Stereo(0.0, 0.0)
    else
      var s := SourceSum(renders, n - 1, i);
      Stereo(s.left + renders[n - 1][i].left, s.right + renders[n - 1][i].right)
  }

  function Finish(x: real, input: ChunkInput): real {
    if input.muted then 0.0 else Limit(x * input.volume)
  }

  function MixedFrame(input: ChunkInput, i: nat): Stereo
    requires input.Valid() && i < CHUNK_FRAMES
  {
    var s := SourceSum(input.renders, |input.renders|, i);
    var b := if i < |input.beep| then input.beep[i] else 0.0;
    Stereo(Finish(s.left + b, input), Finish(s.right + b, input))
  }

  function Chunk(input: ChunkInput): (c: seq<Stereo>)
    requires input.Valid()
    ensures |c| == CHUNK_FRAMES
  {
    seq(CHUNK_FRAMES, i requires 0 <= i < CHUNK_FRAMES => MixedFrame(input, i))
  }

  function Lefts(frames: seq<Stereo>): seq<real> {
    seq(|frames|, i requires 0 <= i < |frames| => frames[i].left)
  }

  function Rights(frames: seq<Stereo>): seq<real> {
    seq(|frames|, i requires 0 <= i < |frames| => frames[i].right)
  }

  /** What the sources contribute to frame `i`. */
  function Across(renders: seq<seq<Stereo>>, i: nat): seq<Stereo>
    requires forall j :: 0 <= j < |renders| ==> i < |renders[j]|
  {
    seq(|renders|, j requires 0 <= j < |renders| => renders[j][i])
  }

  /** The limited level: the level over one more than its size. */
  ghost predicate SoftClipped(limited: real, level: real) {
    limited * (1.0 + (if level < 0.0 then -level else level)) == level
  }

  /** What becomes of a level: silence when muted, otherwise the level at the volume, limited. */
  ghost predicate Finishes(input: ChunkInput, level: real, y: real) {
    if input.muted then y == 0.0 else SoftClipped(y, level * input.volume)
  }

  /** What frame `i` of a chunk is to be: in either ear all sources and the beep. */
  ghost predicate Mixes(input: ChunkInput, i: nat, frame: Stereo)
    requires input.Valid() && i < CHUNK_FRAMES
  {
    var heard := Across(input.renders, i);
    var beep := if i < |input.beep| then input.beep[i] else 0.0;
    Finishes(input, Sum(Lefts(heard)) + beep, frame.left) && Finishes(input, Sum(Rights(heard)) + beep, frame.right)
  }

  lemma {:induction false} SourceSumIs(renders: seq<seq<Stereo>>, n: nat, i: nat)
    requires n <= |renders| && forall j :: 0 <= j < |renders| ==> i < |renders[j]|
    ensures SourceSum(renders, n, i) == Stereo(Sum(Lefts(Across(renders, i))[..n]), Sum(Rights(Across(renders, i))[..n]))
  {
    if n > 0 {
      SourceSumIs(renders, n - 1, i);
      var ls, rs := Lefts(Across(renders, i)), Rights(Across(renders, i));
      assert ls[..n][..n - 1] == ls[..n - 1] && rs[..n][..n - 1] == rs[..n - 1];
    }
  }

  lemma {:induction false} LimitClips(x: real)
    ensures SoftClipped(Limit(x), x)
  {
    var d := 1.0 + Abs(x);
    assert x / d * d == x;
  }

  /** Limiting keeps the order of levels: what is louder stays louder. */
  lemma {:induction false} LimitOrder(x: real, y: real)
    requires x < y
    ensures Limit(x) < Limit(y)
  {
    LimitClips(x);
    LimitClips(y);
    var p, q, dx, dy := Limit(x), Limit(y), 1.0 + Abs(x), 1.0 + Abs(y);
    assert x * dy < y * dx by {
      assert x * dy == x + x * Abs(y) && y * dx == y + y * Abs(x);
      if x >= 0.0 || y <= 0.0 {
        assert x * Abs(y) == y * Abs(x);
      }
    }
    assert p * dx * dy < q * dy * dx;
    assert (q - p) * (dx * dy) > 0.0;
    SignOfProduct(q - p, dx * dy);
  }

  lemma {:induction false} FinishIs(x: real, input: ChunkInput)
    ensures Finishes(input, x, Finish(x, input))
  {
    LimitClips(x * input.volume);
  }

  lemma {:induction false} MixedFrameMixes(input: ChunkInput, i: nat)
    requires input.Valid() && i < CHUNK_FRAMES
    ensures Mixes(input, i, MixedFrame(input, i))
  {
    var n := |input.renders|;
    var ls, rs := Lefts(Across(input.renders, i)), Rights(Across(input.renders, i));
    SourceSumIs(input.renders, n, i);
    assert ls[..n] == ls && rs[..n] == rs;
    var b := if i < |input.beep| then input.beep[i] else 0.0;
    FinishIs(Sum(ls) + b, input);
    FinishIs(Sum(rs) + b, input);
  }

  ghost predicate Inside(x: real) { -1.0 < x < 1.0 }

  ghost predicate FrameInside(f: Stereo) { Inside(f.left) && Inside(f.right) }

  ghost predicate AllInside(fs: seq<Stereo>) { forall i :: 0 <= i < |fs| ==> FrameInside(fs[i]) }

  lemma {:induction false} LimitInside(x: real)
    ensures Inside(Limit(x))
  {
    var d := 1.0 + Abs(x);
    var q := x / d;
    assert q * d == x;
    SignOfProduct(1.0 - q, d);
    SignOfProduct(q + 1.0, d);
  }

  lemma {:induction false} SignOfProduct(a: real, d: real)
    requires d > 0.0
    ensures a > 0.0 ==> a * d > 0.0
    ensures a <= 0.0 ==> a * d <= 0.0
  {
  }

  lemma {:induction false} FinishInside(x: real, input: ChunkInput)
    ensures Inside(Finish(x, input))
  {
    LimitInside(x * input.volume);
  }

  lemma {:induction false} ChunkInside(input: ChunkInput)
    requires input.Valid()
    ensures AllInside(Chunk(input))
  {
    forall i | 0 <= i < CHUNK_FRAMES
      ensures FrameInside(Chunk(input)[i])
    {
      var s := SourceSum(input.renders, |input.renders|, i);
      var b := if i < |input.beep| then input.beep[i] else 0.0;
      FinishInside(s.left + b, input);
      FinishInside(s.right + b, input);
    }
  }

  lemma {:induction false} Scaled(a: real, c: real)
    requires Inside(a) && c >= 0.0
    ensures -c <= a * c <= c && (c > 0.0 ==> -c < a * c < c)
  {
    if c > 0.0 {
      SignOfProduct(1.0 - a, c);
      SignOfProduct(1.0 + a, c);
    }
  }

  lemma {:induction false} WeightedInside(a: real, b: real, c: real, d: real)
    requires Inside(a) && Inside(b) && c > 0.0 && d >= 0.0
    ensures -(c + d) < Weighted(a, b, c, d) < c + d
  {
    Scaled(a, c);
    Scaled(b, d);
  }

  lemma {:induction false} LerpInside(a: real, b: real, frac: real)
    requires Inside(a) && Inside(b) && 0.0 <= frac < 1.0
    ensures Inside(Lerp(a, b, frac))
  {
    WeightedInside(a, b, 1.0 - frac, frac);
  }

  /** Interpolation between limited frames never reaches full scale. */
  lemma {:induction false} OneShotInside(xs: seq<Stereo>, step: nat, den: nat, n: nat)
    requires den > 0 && AllInside(xs)
    requires n == 0 || Ready(|xs|, (n - 1) * step, den)
    ensures AllInside(OneShot(Blend2, xs, step, den, n))
  {
    if n > 0 {
      var num := (n - 1) * step;
      StepEarlier(|xs|, n, step, den);
      OneShotInside(xs, step, den, n - 1);
      AtInside(xs, num, den);
    }
  }

  lemma {:induction false} AtInside(xs: seq<Stereo>, num: nat, den: nat)
    requires den > 0 && AllInside(xs) && Ready(|xs|, num, den)
    ensures FrameInside(At(Blend2, xs, num, den))
  {
    QuotientNonNegative(num, den);
    FractionInUnit(num, den);
    var frac := (num % den) as real / den as real;
    LerpInside(xs[num / den].left, xs[num / den + 1].left, frac);
    LerpInside(xs[num / den].right, xs[num / den + 1].right, frac);
  }

  lemma {:induction false} FractionInUnit(num: nat, den: nat)
    requires den > 0
    ensures 0.0 <= (num % den) as real / den as real < 1.0
  {
    var q := (num % den) as real / den as real;
    assert q * den as real == (num % den) as real;
    SignOfProduct(-q, den as real);
    SignOfProduct(1.0 - q, den as real);
  }

  /** The first `n` chunks, end to end. */
  ghost function Stream(inputs: nat -> ChunkInput, n: nat): (s: seq<Stereo>)
    requires forall k :: inputs(k).Valid()
    ensures |s| == n * CHUNK_FRAMES
  {
    if n == 0 then [] else Stream(inputs, n - 1) + Chunk(inputs(n - 1))
  }

  lemma {:induction false} StreamInside(inputs: nat -> ChunkInput, n: nat)
    requires forall k :: inputs(k).Valid()
    ensures AllInside(Stream(inputs, n))
  {
    if n > 0 {
      StreamInside(inputs, n - 1);
      ChunkInside(inputs(n - 1));
    }
  }

  /** Generates one chunk in place: sum the sources, overlay the beep, limit. */
  method GenerateChunk(input: ChunkInput) returns (chunk: seq<Stereo>)
    requires input.Valid()
    ensures chunk == Chunk(input)
    ensures |chunk| == 960 && forall i :: 0 <= i < 960 ==> Mixes(input, i, chunk[i])
  {
    var mix := new Stereo[CHUNK_FRAMES](_ => Stereo(0.0, 0.0));
    for j := 0 to |input.renders|
      invariant forall i :: 0 <= i < CHUNK_FRAMES ==> mix[i] == SourceSum(input.renders, j, i)
    {
      AddRender(mix, input.renders, j);
    }
    for i := 0 to CHUNK_FRAMES
      invariant forall k :: 0 <= k < i ==> mix[k] == MixedFrame(input, k)
      invariant forall k :: i <= k < CHUNK_FRAMES ==> mix[k] == SourceSum(input.renders, |input.renders|, k)
    {
      var b := if i < |input.beep| then input.beep[i] else 0.0;
      mix[i] := Stereo(Finish(mix[i].left + b, input), Finish(mix[i].right + b, input));
    }
    chunk := mix[..];
    forall i | 0 <= i < CHUNK_FRAMES
      ensures Mixes(input, i, chunk[i])
    {
      MixedFrameMixes(input, i);
    }
  }

  method AddRender(mix: array<Stereo>, renders: seq<seq<Stereo>>, j: nat)
    requires mix.Length == CHUNK_FRAMES && j < |renders|
    requires forall k :: 0 <= k < |renders| ==> |renders[k]| == CHUNK_FRAMES
    requires forall i :: 0 <= i < CHUNK_FRAMES ==> mix[i] == SourceSum(renders, j, i)
    modifies mix
    ensures forall i :: 0 <= i < CHUNK_FRAMES ==> mix[i] == SourceSum(renders, j + 1, i)
  {
    for i := 0 to CHUNK_FRAMES
      invariant forall k :: 0 <= k < i ==> mix[k] == SourceSum(renders, j + 1, k)
      invariant forall k :: i <= k < CHUNK_FRAMES ==> mix[k] == SourceSum(renders, j, k)
    {
      mix[i] := Stereo(mix[i].left + renders[j][i].left, mix[i].right + renders[j][i].right);
    }
  }

  /** Output `delivered - 1` has both neighbours, and without the last chunk it would not have had them. */
  ghost predicate Lazy(generated: nat, delivered: nat, rate: nat)
    requires rate > 0
  {
    if delivered == 0 then generated == 0
    else
      && generated > 0
      && Ready(generated * CHUNK_FRAMES, (delivered - 1) * INTERNAL_RATE, rate)
      && !Ready((generated - 1) * CHUNK_FRAMES, (delivered - 1) * INTERNAL_RATE, rate)
  }

  /** At most one chunk and one frame are ever held beyond the position of the next output. */
  lemma {:induction false} LookAhead(generated: nat, delivered: nat, dropped: nat, cursor: nat, rate: nat)
    requires rate > 0 && Lazy(generated, delivered, rate)
    requires cursor + dropped * rate == delivered * INTERNAL_RATE
    ensures generated * CHUNK_FRAMES - dropped <= cursor / rate + CHUNK_FRAMES + 1
  {
    if delivered > 0 {
      var pos := delivered * INTERNAL_RATE;
      NotReadyLater((generated - 1) * CHUNK_FRAMES, (delivered - 1) * INTERNAL_RATE, pos, rate);
      QuotientShift(cursor, dropped, rate);
    }
  }

  lemma {:induction false} NotReadyLater(len: nat, num: nat, later: nat, den: nat)
    requires den > 0 && num <= later && !Ready(len, num, den)
    ensures !Ready(len, later, den)
  {
    ReadyIff(len, num, den);
    ReadyIff(len, later, den);
  }

  lemma {:induction false} QuotientShift(num: nat, dropped: nat, den: nat)
    requires den > 0
    ensures (num + dropped * den) / den == num / den + dropped
  {
    DivBounds(num, den);
    assert den * (num / den + dropped) == den * (num / den) + dropped * den;
    DivUnique(num + dropped * den, den, num / den + dropped);
  }

  /** The next frame read through the dropped prefix is the next frame of the whole stream. */
  lemma {:induction false} NextPlayed(stream: seq<Stereo>, rate: nat, dropped: nat, cursor: nat, delivered: nat)
    requires rate > 0 && dropped <= |stream| && cursor + dropped * rate == delivered * INTERNAL_RATE
    requires delivered == 0 || Ready(|stream|, (delivered - 1) * INTERNAL_RATE, rate)
    ensures Ready(|stream| - dropped, cursor, rate) <==> Ready(|stream|, delivered * INTERNAL_RATE, rate)
    ensures Ready(|stream|, delivered * INTERNAL_RATE, rate) ==>
              OneShot(Blend2, stream, INTERNAL_RATE, rate, delivered + 1) ==
              OneShot(Blend2, stream, INTERNAL_RATE, rate, delivered) + [At(Blend2, stream[dropped..], cursor, rate)]
  {
    NextOutput(Blend2, stream, INTERNAL_RATE, rate, dropped, cursor, delivered);
  }

  /** Generating one more chunk changes nothing that was played. */
  lemma {:induction false} PlayedExtends(inputs: nat -> ChunkInput, generated: nat, delivered: nat, rate: nat)
    requires rate > 0 && forall k :: inputs(k).Valid()
    requires delivered == 0 || Ready(generated * CHUNK_FRAMES, (delivered - 1) * INTERNAL_RATE, rate)
    ensures delivered == 0 || Ready((generated + 1) * CHUNK_FRAMES, (delivered - 1) * INTERNAL_RATE, rate)
    ensures OneShot(Blend2, Stream(inputs, generated + 1), INTERNAL_RATE, rate, delivered) ==
            OneShot(Blend2, Stream(inputs, generated), INTERNAL_RATE, rate, delivered)
  {
    OneShotExtends(Blend2, Stream(inputs, generated), Chunk(inputs(generated)), INTERNAL_RATE, rate, delivered);
  }

  /** What one more chunk does to the buffer: it was needed, what was played stays, and it lands at the end. */
  lemma {:induction false} ChunkAppended(inputs: nat -> ChunkInput, generated: nat, dropped: nat, cursor: nat, delivered: nat, rate: nat)
    requires rate > 0 && forall k :: inputs(k).Valid()
    requires dropped <= generated * CHUNK_FRAMES && cursor + dropped * rate == delivered * INTERNAL_RATE
    requires delivered == 0 || Ready(generated * CHUNK_FRAMES, (delivered - 1) * INTERNAL_RATE, rate)
    requires !Ready(generated * CHUNK_FRAMES - dropped, cursor, rate)
    ensures delivered == 0 || Ready((generated + 1) * CHUNK_FRAMES, (delivered - 1) * INTERNAL_RATE, rate)
    ensures OneShot(Blend2, Stream(inputs, generated + 1), INTERNAL_RATE, rate, delivered) ==
            OneShot(Blend2, Stream(inputs, generated), INTERNAL_RATE, rate, delivered)
    ensures !Ready(generated * CHUNK_FRAMES, delivered * INTERNAL_RATE, rate)
    ensures Stream(inputs, generated + 1)[dropped..] == Stream(inputs, generated)[dropped..] + Chunk(inputs(generated))
  {
    NextPlayed(Stream(inputs, generated), rate, dropped, cursor, delivered);
    PlayedExtends(inputs, generated, delivered, rate);
  }

  /** What one more frame does: it continues what was played, and the chunks generated so far were all needed for it. */
  lemma {:induction false} FramePlayed(inputs: nat -> ChunkInput, generated: nat, dropped: nat, cursor: nat, delivered: nat, rate: nat)
    requires rate > 0 && forall k :: inputs(k).Valid()
    requires dropped <= generated * CHUNK_FRAMES && cursor + dropped * rate == delivered * INTERNAL_RATE
    requires delivered == 0 || Ready(generated * CHUNK_FRAMES, (delivered - 1) * INTERNAL_RATE, rate)
    requires generated > 0 ==> !Ready((generated - 1) * CHUNK_FRAMES, delivered * INTERNAL_RATE, rate)
    requires Ready(generated * CHUNK_FRAMES - dropped, cursor, rate)
    ensures Ready(generated * CHUNK_FRAMES, delivered * INTERNAL_RATE, rate) && Lazy(generated, delivered + 1, rate)
    ensures cursor + INTERNAL_RATE + dropped * rate == (delivered + 1) * INTERNAL_RATE
    ensures OneShot(Blend2, Stream(inputs, generated), INTERNAL_RATE, rate, delivered + 1) ==
            OneShot(Blend2, Stream(inputs, generated), INTERNAL_RATE, rate, delivered)
            + [At(Blend2, Stream(inputs, generated)[dropped..], cursor, rate)]
  {
    NextPlayed(Stream(inputs, generated), rate, dropped, cursor, delivered);
    QuotientNonNegative(delivered * INTERNAL_RATE, rate);
  }

  /** One device session of the mixer; `inputs(k)` is what the k-th chunk finds when it is generated. */
  class PlaybackEngine {
    const deviceRate: nat
    const inputs: nat -> ChunkInput
    var mixed48k: seq<Stereo>
    var cursor: nat
    var generated: nat
    ghost var dropped: nat
    ghost var delivered: nat

    ghost predicate Valid()
      reads this
    {
      Buffered() && Lazy(generated, delivered, deviceRate)
    }

    /** Everything but laziness, which the refill loop suspends. */
    ghost predicate Buffered()
      reads this
    {
      && deviceRate > 0
      && (forall k :: inputs(k).Valid())
      && dropped <= generated * CHUNK_FRAMES
      && mixed48k == Stream(inputs, generated)[dropped..]
      && cursor + dropped * deviceRate == delivered * INTERNAL_RATE
      && (delivered == 0 || Ready(generated * CHUNK_FRAMES, (delivered - 1) * INTERNAL_RATE, deviceRate))
    }

    /** Everything delivered so far, as the one-shot resampling of the chunks generated so far. */
    ghost function Played(): seq<Stereo>
      requires Buffered()
      reads this
    {
      OneShot(Blend2, Stream(inputs, generated), INTERNAL_RATE, deviceRate, delivered)
    }

    constructor (rate: nat, inputs: nat -> ChunkInput)
      requires rate > 0 && forall k :: inputs(k).Valid()
      ensures Valid() && deviceRate == rate && this.inputs == inputs && generated == 0 && delivered == 0
    {
      deviceRate := rate;
      this.inputs := inputs;
      mixed48k, cursor, generated := [], 0, 0;
      dropped, delivered := 0, 0;
    }

    /** The last chunk, if any, was needed for the next output. */
    ghost predicate NoSurplus()
      requires Buffered()
      reads this
    {
      generated > 0 ==> !Ready((generated - 1) * CHUNK_FRAMES, delivered * INTERNAL_RATE, deviceRate)
    }

    method AppendChunk()
      requires Buffered() && !Ready(|mixed48k|, cursor, deviceRate)
      modifies this`mixed48k, this`generated
      ensures Buffered() && Played() == old(Played()) && NoSurplus()
      ensures |mixed48k| == old(|mixed48k|) + CHUNK_FRAMES
    {
      ChunkAppended(inputs, generated, dropped, cursor, delivered, deviceRate);
      var chunk := GenerateChunk(inputs(generated));
      mixed48k := mixed48k + chunk;
      generated := generated + 1;
    }

    /** Tops up the mix until the cursor has both neighbours, and not further. */
    method Refill()
      requires Buffered() && NoSurplus()
      modifies this`mixed48k, this`generated
      ensures Buffered() && Played() == old(Played()) && NoSurplus()
      ensures Ready(|mixed48k|, cursor, deviceRate)
    {
      QuotientNonNegative(cursor, deviceRate);
      var whole := cursor / deviceRate;
      while whole + 1 >= |mixed48k|
        invariant Buffered() && Played() == old(Played()) && NoSurplus()
        decreases whole + 2 - |mixed48k|
      {
        AppendChunk();
      }
    }

    /** Interpolates one device frame at the cursor. */
    method ReadFrame() returns (frame: Stereo)
      requires deviceRate > 0 && Ready(|mixed48k|, cursor, deviceRate)
      ensures frame == At(Blend2, mixed48k, cursor, deviceRate)
    {
      QuotientNonNegative(cursor, deviceRate);
      var idx0 := cursor / deviceRate;
      var frac := (cursor % deviceRate) as real / deviceRate as real;
      frame := Stereo(Lerp(mixed48k[idx0].left, mixed48k[idx0 + 1].left, frac),
                      Lerp(mixed48k[idx0].right, mixed48k[idx0 + 1].right, frac));
    }

    method Advance()
      requires Buffered() && NoSurplus() && Ready(|mixed48k|, cursor, deviceRate)
      modifies this`cursor, this`delivered
      ensures Valid() && delivered == old(delivered) + 1
      ensures Played() == old(Played()) + [old(At(Blend2, mixed48k, cursor, deviceRate))]
    {
      FramePlayed(inputs, generated, dropped, cursor, delivered, deviceRate);
      cursor := cursor + INTERNAL_RATE;
      delivered := delivered + 1;
    }

    method NextFrame() returns (frame: Stereo)
      requires Buffered() && NoSurplus()
      modifies this
      ensures Valid() && delivered == old(delivered) + 1
      ensures Played() == old(Played()) + [frame]
    {
      Refill();
      frame := ReadFrame();
      Advance();
    }

    lemma {:induction false} LazyNoSurplus()
      requires Valid()
      ensures NoSurplus()
    {
      if generated > 0 {
        NotReadyLater((generated - 1) * CHUNK_FRAMES, (delivered - 1) * INTERNAL_RATE,
                      delivered * INTERNAL_RATE, deviceRate);
      }
    }

    /** Fills one device buffer of `framesNeeded` frames. */
    method Request(framesNeeded: nat) returns (out: seq<Stereo>)
      requires Valid()
      modifies this
      ensures Valid() && delivered == old(delivered) + framesNeeded
      ensures Played() == old(Played()) + out
      ensures |mixed48k| <= cursor / deviceRate + CHUNK_FRAMES + 1
    {
      out := [];
      for f := 0 to framesNeeded
        invariant Valid() && delivered == old(delivered) + f
        invariant Played() == old(Played()) + out
      {
        LazyNoSurplus();
        var frame := NextFrame();
        out := out + [frame];
      }
      DropConsumed();
    }

    method DropConsumed()
      requires Valid()
      modifies this`mixed48k, this`cursor, this`dropped
      ensures Valid() && Played() == old(Played())
      ensures |mixed48k| <= cursor / deviceRate + CHUNK_FRAMES + 1
    {
      var consumed := cursor / deviceRate;
      DivBounds(cursor, deviceRate);
      if consumed > 0 && consumed <= |mixed48k| {
        mixed48k := mixed48k[consumed..];
        cursor := cursor - consumed * deviceRate;
        dropped := dropped + consumed;
      }
      LookAhead(generated, delivered, dropped, cursor, deviceRate);
    }
  }

  /** The `k`-th chunk stands at its place in the stream. */
  lemma {:induction false} StreamAt(inputs: nat -> ChunkInput, n: nat, k: nat, i: nat)
    requires (forall j :: inputs(j).Valid()) && k < n && i < CHUNK_FRAMES
    ensures k * CHUNK_FRAMES + i < n * CHUNK_FRAMES && Stream(inputs, n)[k * CHUNK_FRAMES + i] == Chunk(inputs(k))[i]
  {
    if k < n - 1 {
      StreamAt(inputs, n - 1, k, i);
    }
  }

  lemma {:induction false} ReadOffEars(stream: seq<Stereo>, step: nat, den: nat, out: seq<Stereo>)
    requires den > 0 && ReadOff(Blend2, stream, step, den, out)
    ensures ReadOff(Lerp, Lefts(stream), step, den, Lefts(out)) && ReadOff(Lerp, Rights(stream), step, den, Rights(out))
  {
    forall k, num: nat | 0 <= k < |out| && Position(k, num, step)
      ensures Ready(|stream|, num, den) && out[k] == Stereo(At(Lerp, Lefts(stream), num, den), At(Lerp, Rights(stream), num, den))
    {
      QuotientNonNegative(num, den);
      assert out[k] == At(Blend2, stream, num, den);
    }
  }

  /**
   What a playback session owes the chunks: linear interpolation in each ear by itself. So straight lines are kept
   as they are but for the change of rate, and at 48 kHz everything is.
   */
  ghost predicate Linear(stream: seq<Stereo>, rate: nat, out: seq<Stereo>)
    requires rate > 0
  {
    && Between(Lefts(stream), 48000, rate, Lefts(out)) && Between(Rights(stream), 48000, rate, Rights(out))
    && (forall slope, start :: Ramp(Lefts(stream), slope, start) ==> Ramp(Lefts(out), slope * (48000.0 / rate as real), start))
    && (forall slope, start :: Ramp(Rights(stream), slope, start) ==> Ramp(Rights(out), slope * (48000.0 / rate as real), start))
    && (rate == 48000 ==> out <= stream)
  }

  lemma {:induction false} ReadOffLinear(stream: seq<Stereo>, rate: nat, out: seq<Stereo>)
    requires rate > 0 && ReadOff(Blend2, stream, INTERNAL_RATE, rate, out)
    ensures Linear(stream, rate, out)
  {
    ReadOffEars(stream, INTERNAL_RATE, rate, out);
    ReadOffBetween(Lefts(stream), INTERNAL_RATE, rate, Lefts(out));
    ReadOffBetween(Rights(stream), INTERNAL_RATE, rate, Rights(out));
    forall slope, start | Ramp(Lefts(stream), slope, start)
      ensures Ramp(Lefts(out), slope * (48000.0 / rate as real), start)
    {
      RampKept(Lefts(stream), INTERNAL_RATE, rate, Lefts(out), slope, start);
    }
    forall slope, start | Ramp(Rights(stream), slope, start)
      ensures Ramp(Rights(out), slope * (48000.0 / rate as real), start)
    {
      RampKept(Rights(stream), INTERNAL_RATE, rate, Rights(out), slope, start);
    }
    if rate == 48000 {
      EarsPassThrough(stream, out);
    }
  }

  lemma {:induction false} EarsPassThrough(stream: seq<Stereo>, out: seq<Stereo>)
    requires ReadOff(Lerp, Lefts(stream), 48000, 48000, Lefts(out)) && ReadOff(Lerp, Rights(stream), 48000, 48000, Rights(out))
    ensures out <= stream
  {
    Passthrough(Lefts(stream), 48000, Lefts(out));
    Passthrough(Rights(stream), 48000, Rights(out));
    forall k | 0 <= k < |out|
      ensures out[k] == stream[k]
    {
      assert Lefts(out)[k] == Lefts(stream)[k] && Rights(out)[k] == Rights(stream)[k];
    }
  }

  function Total(requests: seq<nat>): nat {
    if requests == [] then 0 else Total(requests[..|requests| - 1]) + requests[|requests| - 1]
  }

  /**
   A whole device session. What is delivered, and how many chunks are generated for it, depend only
   on how many frames were asked for in total, and no delivered sample reaches full scale.
   */
  method PlaybackSession(requests: seq<nat>, rate: nat, inputs: nat -> ChunkInput)
    returns (out: seq<Stereo>, chunks: nat)
    requires rate > 0 && forall k :: inputs(k).Valid()
    ensures Lazy(chunks, Total(requests), rate)
    ensures out == OneShot(Blend2, Stream(inputs, chunks), INTERNAL_RATE, rate, Total(requests))
    ensures AllInside(out) && |out| == Total(requests) && Linear(Stream(inputs, chunks), rate, out)
  {
    var engine := new PlaybackEngine(rate, inputs);
    out := [];
    for i := 0 to |requests|
      invariant engine.Valid() && fresh(engine) && engine.deviceRate == rate && engine.inputs == inputs
      invariant engine.delivered == Total(requests[..i]) && out == engine.Played()
    {
      assert requests[..i + 1][..i] == requests[..i];
      var frames := engine.Request(requests[i]);
      out := out + frames;
    }
    assert requests[..|requests|] == requests;
    chunks := engine.generated;
    StreamInside(inputs, chunks);
    OneShotInside(Stream(inputs, chunks), INTERNAL_RATE, rate, Total(requests));
    OneShotReadOff(Blend2, Stream(inputs, chunks), INTERNAL_RATE, rate, Total(requests));
    ReadOffLinear(Stream(inputs, chunks), rate, out);
  }

  /** The number of chunks is a function of the frames delivered, so request sizes cannot change the sound. */
  lemma {:induction false} LazyUnique(a: nat, b: nat, delivered: nat, rate: nat)
    requires rate > 0 && Lazy(a, delivered, rate) && Lazy(b, delivered, rate)
    ensures a == b
  {
    if delivered > 0 {
      var num := (delivered - 1) * INTERNAL_RATE;
      assert num / rate + 1 < a * CHUNK_FRAMES && num / rate + 1 < b * CHUNK_FRAMES;
      assert (a - 1) * CHUNK_FRAMES <= num / rate + 1 && (b - 1) * CHUNK_FRAMES <= num / rate + 1;
    }
  }
}
