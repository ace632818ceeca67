/**
 Linear resampling of a whole recorded stream at once: the reference that both streaming
 resamplers (microphone capture, speaker playback) are proved to refine.

 A read position is the exact fraction `num / den`; output number `k` is read at `k * step / den`.
 The element type is a parameter because capture works on mono samples and playback on stereo frames.
 */
module Interpolation {

  /** Blends two neighbouring elements; the third argument is the fraction in [0, 1). */
  type Blend<!T> = (T, T, real) -> T

  function Weighted(a: real, b: real, c: real, d: real): real { a * c + b * d }

  /** Linear interpolation between two samples. */
  function Lerp(a: real, b: real, frac: real): real { Weighted(a, b, 1.0 - frac, frac) }

  /** Both neighbours of the position are inside a stream of `len` elements. */
  predicate Ready(len: nat, num: nat, den: nat)
    requires den > 0
  {
    num / den + 1 < len
  }

  function At<T>(blend: Blend<T>, xs: seq<T>, num: nat, den: nat): T
    requires den > 0 && Ready(|xs|, num, den)
  {
    blend(xs[num / den], xs[num / den + 1], (num % den) as real / den as real)
  }

  /** The first `n` outputs of resampling `xs`, each read straight from the whole stream. */
  ghost function OneShot<T>(blend: Blend<T>, xs: seq<T>, step: nat, den: nat, n: nat): (out: seq<T>)
    requires den > 0
    requires n == 0 || Ready(|xs|, (n - 1) * step, den)
    ensures |out| == n
  {
    if n == 0 then []
    else
      StepEarlier(|xs|, n, step, den);
      OneShot(blend, xs, step, den, n - 1) + [At(blend, xs, (n - 1) * step, den)]
  }

  /** How many outputs a stream of `len` elements allows: the positions strictly before its last element. */
  function OutputCount(len: nat, step: nat, den: nat): nat
    requires step > 0
  {
    if len < 2 then 0 else ((len - 1) * den + step - 1) / step
  }

  lemma {:induction false} DivBounds(a: int, d: int)
    requires d > 0
    ensures d * (a / d) <= a < d * (a / d) + d
    ensures a % d == a - d * (a / d)
  {
  }

  lemma {:induction false} QuotientNonNegative(a: nat, d: nat)
    requires d > 0
    ensures a / d >= 0
  {
    DivBounds(a, d);
    MulAtLeast(d, a / d);
  }

  /** Euclidean quotients are determined by their remainder bound. */
  lemma {:induction false} DivUnique(a: int, d: int, q: int)
    requires d > 0 && d * q <= a < d * q + d
    ensures a / d == q
  {
    DivBounds(a, d);
    assert -d < d * (a / d - q) < d;
    MulAtLeast(d, a / d - q);
  }

  lemma {:induction false} MulAtLeast(d: int, x: int)
    requires d > 0
    ensures x >= 1 ==> d * x >= d
    ensures x <= -1 ==> d * x <= -d
  {
    if x >= 1 {
      assert d * (x - 1) >= 0;
    } else if x <= -1 {
      assert d * (-1 - x) >= 0;
    }
  }

  lemma {:induction false} ReadyIff(len: nat, num: nat, den: nat)
    requires den > 0
    ensures Ready(len, num, den) <==> len >= 1 && num < (len - 1) * den
  {
    DivBounds(num, den);
    var q := num / den;
    if q + 1 < len {
      assert den * (q + 1) <= den * (len - 1);
    } else if len >= 1 {
      assert den * q >= den * (len - 1);
    }
  }

  lemma {:induction false} ReadyEarlier(len: nat, earlier: nat, num: nat, den: nat)
    requires den > 0 && Ready(len, num, den) && earlier <= num
    ensures Ready(len, earlier, den)
  {
    ReadyIff(len, num, den);
    ReadyIff(len, earlier, den);
  }

  /** If an output is ready, so is the one before it. */
  lemma {:induction false} StepEarlier(len: nat, n: nat, step: nat, den: nat)
    requires den > 0 && n >= 1 && Ready(len, (n - 1) * step, den)
    ensures n >= 2 ==> 0 <= (n - 2) * step && Ready(len, (n - 2) * step, den)
  {
    if n >= 2 {
      assert (n - 1) * step == (n - 2) * step + step;
      ReadyEarlier(len, (n - 2) * step, (n - 1) * step, den);
    }
  }

  lemma {:induction false} MulMonotone(d: nat, a: int, b: int)
    requires a <= b
    ensures d * a <= d * b
  {
    assert d * (b - a) >= 0;
  }

  /** Rounding up: the quotient counts the multiples below the total. */
  lemma {:induction false} RoundedUpIff(total: nat, step: nat, k: nat, c: int)
    requires step > 0 && c == (total + step - 1) / step
    ensures k < c <==> step * k < total
  {
    DivBounds(total + step - 1, step);
    assert step * (k + 1) == step * k + step;
    if k < c {
      MulMonotone(step, k + 1, c);
    } else {
      MulMonotone(step, c, k);
    }
  }

  /** `OutputCount` is exactly the number of positions that are ready. */
  lemma {:induction false} OutputCountIff(len: nat, step: nat, den: nat, k: nat)
    requires step > 0 && den > 0
    ensures k < OutputCount(len, step, den) <==> Ready(len, k * step, den)
  {
    ReadyIff(len, k * step, den);
    if len >= 2 {
      var total := (len - 1) * den;
      RoundedUpIff(total, step, k, (total + step - 1) / step);
    } else {
      assert len == 1 ==> (len - 1) * den == 0;
    }
  }

  lemma {:induction false} ShiftedPosition(num: nat, dropped: nat, den: nat)
    requires den > 0
    ensures (num + dropped * den) / den == num / den + dropped && (num + dropped * den) % den == num % den
  {
    DivBounds(num, den);
    var later := num + dropped * den;
    assert den * (num / den + dropped) == den * (num / den) + dropped * den;
    DivUnique(later, den, num / den + dropped);
    DivBounds(later, den);
  }

  /** Reading past a dropped prefix with a cursor moved back by as much reads the same element. */
  lemma {:induction false} AtShifted<T>(blend: Blend<T>, xs: seq<T>, dropped: nat, num: nat, den: nat)
    requires den > 0 && dropped <= |xs|
    ensures Ready(|xs| - dropped, num, den) <==> Ready(|xs|, num + dropped * den, den)
    ensures Ready(|xs| - dropped, num, den) ==>
              At(blend, xs[dropped..], num, den) == At(blend, xs, num + dropped * den, den)
  {
    ShiftedPosition(num, dropped, den);
    QuotientNonNegative(num, den);
  }

  /** The next output read through a dropped prefix is the next output of the whole stream. */
  lemma {:induction false} NextOutput<T>(blend: Blend<T>, xs: seq<T>, step: nat, den: nat, dropped: nat, cursor: nat, n: nat)
    requires den > 0 && dropped <= |xs| && cursor + dropped * den == n * step
    requires n == 0 || Ready(|xs|, (n - 1) * step, den)
    ensures Ready(|xs| - dropped, cursor, den) <==> Ready(|xs|, n * step, den)
    ensures Ready(|xs|, n * step, den) ==>
              OneShot(blend, xs, step, den, n + 1) == OneShot(blend, xs, step, den, n) + [At(blend, xs[dropped..], cursor, den)]
  {
    AtShifted(blend, xs, dropped, cursor, den);
  }

  /** More input never changes an output that was already determined. */
  lemma {:induction false} OneShotExtends<T>(blend: Blend<T>, xs: seq<T>, ys: seq<T>, step: nat, den: nat, n: nat)
    requires den > 0
    requires n == 0 || Ready(|xs|, (n - 1) * step, den)
    ensures n == 0 || Ready(|xs + ys|, (n - 1) * step, den)
    ensures OneShot(blend, xs + ys, step, den, n) == OneShot(blend, xs, step, den, n)
  {
    if n > 0 {
      StepEarlier(|xs|, n, step, den);
      OneShotExtends(blend, xs, ys, step, den, n - 1);
    }
  }

  // ---------------------------------------------------------------- what linear resampling computes

  lemma {:induction false} OneShotAt<T>(blend: Blend<T>, xs: seq<T>, step: nat, den: nat, n: nat, k: nat, num: nat)
    requires den > 0 && k < n && Ready(|xs|, (n - 1) * step, den) && num == k * step
    ensures Ready(|xs|, num, den) && OneShot(blend, xs, step, den, n)[k] == At(blend, xs, num, den)
  {
    if k < n - 1 {
      StepEarlier(|xs|, n, step, den);
      OneShotAt(blend, xs, step, den, n - 1, k, num);
    }
  }

  lemma {:induction false} WeightedScaled(a: real, b: real, frac: real, d: real, r: real)
    requires frac * d == r
    ensures Weighted(a, b, 1.0 - frac, frac) * d == a * (d - r) + b * r
  {
    assert (1.0 - frac) * d == d - r;
    assert a * (1.0 - frac) * d == a * ((1.0 - frac) * d);
    assert b * frac * d == b * (frac * d);
  }

  /** Between two neighbours the value is weighted by how near the position is to each. */
  lemma {:induction false} LerpAt(xs: seq<real>, num: nat, den: nat, i: nat)
    requires den > 0 && i * den <= num < i * den + den && i + 1 < |xs|
    ensures Ready(|xs|, num, den)
    ensures At(Lerp, xs, num, den) * den as real ==
            xs[i] * (den - (num - i * den)) as real + xs[i + 1] * (num - i * den) as real
  {
    DivUnique(num, den, i);
    DivBounds(num, den);
    var r := num - i * den;
    var frac := r as real / den as real;
    assert frac * den as real == r as real;
    WeightedScaled(xs[i], xs[i + 1], frac, den as real, r as real);
  }

  /** Element `i` is `slope * i + start`. */
  ghost predicate Ramp(xs: seq<real>, slope: real, start: real) {
    forall i :: 0 <= i < |xs| ==> xs[i] == slope * i as real + start
  }

  lemma {:induction false} RampBetween(slope: real, start: real, i: real, d: real, r: real)
    ensures (slope * i + start) * (d - r) + (slope * (i + 1.0) + start) * r == slope * (i * d + r) + start * d
  {
    var low := slope * i + start;
    assert slope * (i + 1.0) + start == low + slope;
    assert low * (d - r) + (low + slope) * r == low * d + slope * r;
    assert low * d == slope * (i * d) + start * d;
  }

  lemma {:induction false} CancelReal(x: real, y: real, d: real)
    requires d > 0.0 && x * d == y * d
    ensures x == y
  {
    assert (x - y) * d == 0.0;
  }

  lemma {:induction false} RampAt(xs: seq<real>, num: nat, den: nat, slope: real, start: real)
    requires den > 0 && Ready(|xs|, num, den) && Ramp(xs, slope, start)
    ensures At(Lerp, xs, num, den) == slope * (num as real / den as real) + start
  {
    QuotientNonNegative(num, den);
    DivBounds(num, den);
    var i: nat, d := num / den, den as real;
    var r := num - i * den;
    assert i * den == den * i;
    LerpAt(xs, num, den, i);
    RampBetween(slope, start, i as real, d, r as real);
    assert i as real * d + r as real == num as real;
    assert (num as real / d) * d == num as real;
    assert (slope * (num as real / d) + start) * d == slope * ((num as real / d) * d) + start * d;
    CancelReal(At(Lerp, xs, num, den), slope * (num as real / d) + start, d);
  }

  lemma {:induction false} StretchedPosition(slope: real, k: nat, step: nat, num: nat, den: nat)
    requires den > 0 && num == k * step
    ensures slope * (num as real / den as real) == slope * (step as real / den as real) * k as real
  {
    var f := step as real / den as real;
    assert f * den as real == step as real;
    assert num as real == k as real * step as real;
    assert (k as real * f) * den as real == k as real * (f * den as real);
    CancelReal(num as real / den as real, k as real * f, den as real);
  }

  /** The outputs are read off the stream one by one. */
  ghost predicate ReadOff<T>(blend: Blend<T>, xs: seq<T>, step: nat, den: nat, out: seq<T>)
    requires den > 0
  {
    forall k, num: nat {:trigger Position(k, num, step)} :: 0 <= k < |out| && Position(k, num, step) ==>
      Ready(|xs|, num, den) && out[k] == At(blend, xs, num, den)
  }

  ghost predicate Position(k: int, num: nat, step: nat) { num == k * step }

  lemma {:induction false} OneShotReadOff<T>(blend: Blend<T>, xs: seq<T>, step: nat, den: nat, n: nat)
    requires den > 0 && (n == 0 || Ready(|xs|, (n - 1) * step, den))
    ensures ReadOff(blend, xs, step, den, OneShot(blend, xs, step, den, n))
  {
    var out := OneShot(blend, xs, step, den, n);
    forall k, num: nat | 0 <= k < n && Position(k, num, step)
      ensures Ready(|xs|, num, den) && out[k] == At(blend, xs, num, den)
    {
      OneShotAt(blend, xs, step, den, n, k, num);
    }
  }

  /** Resampling stretches a ramp and does nothing else to it. */
  lemma {:induction false} RampKept(xs: seq<real>, step: nat, den: nat, out: seq<real>, slope: real, start: real)
    requires den > 0 && ReadOff(Lerp, xs, step, den, out) && Ramp(xs, slope, start)
    ensures Ramp(out, slope * (step as real / den as real), start)
  {
    forall k | 0 <= k < |out|
      ensures out[k] == slope * (step as real / den as real) * k as real + start
    {
      var num := k * step;
      assert Position(k, num, step);
      RampAt(xs, num, den, slope, start);
      StretchedPosition(slope, k, step, num, den);
    }
  }

  lemma {:induction false} UnchangedAt(xs: seq<real>, rate: nat, k: nat, num: nat)
    requires rate > 0 && num == k * rate && Ready(|xs|, num, rate)
    ensures k + 1 < |xs| && At(Lerp, xs, num, rate) == xs[k]
  {
    DivUnique(num, rate, k);
    LerpAt(xs, num, rate, k);
    CancelReal(At(Lerp, xs, num, rate), xs[k], rate as real);
  }

  /** At equal rates nothing is changed. */
  lemma {:induction false} Passthrough(xs: seq<real>, rate: nat, out: seq<real>)
    requires rate > 0 && ReadOff(Lerp, xs, rate, rate, out)
    ensures |out| <= |xs| && out == xs[..|out|]
  {
    forall k | 0 <= k < |out|
      ensures k < |xs| && out[k] == xs[k]
    {
      var num := k * rate;
      assert Position(k, num, rate);
      UnchangedAt(xs, rate, k, num);
    }
    if out != [] {
      var last: nat := |out| - 1;
      var num := last * rate;
      assert Position(last, num, rate);
      UnchangedAt(xs, rate, last, num);
    }
  }

  /** The position lies between elements `i` and `i + 1`. */
  ghost predicate Cell(i: int, num: nat, den: nat) { i * den <= num < i * den + den }

  /** Linear interpolation, said of the outputs: each is its two neighbours, weighted by how near it is to either. */
  ghost predicate Between(xs: seq<real>, step: nat, den: nat, out: seq<real>) {
    forall k, num: nat, i: nat {:trigger Position(k, num, step), Cell(i, num, den)} ::
      0 <= k < |out| && Position(k, num, step) && Cell(i, num, den) ==>
        i + 1 < |xs| && out[k] * den as real == xs[i] * (den - (num - i * den)) as real + xs[i + 1] * (num - i * den) as real
  }

  lemma {:induction false} ReadOffBetween(xs: seq<real>, step: nat, den: nat, out: seq<real>)
    requires den > 0 && ReadOff(Lerp, xs, step, den, out)
    ensures Between(xs, step, den, out)
  {
    forall k, num: nat, i: nat | 0 <= k < |out| && Position(k, num, step) && Cell(i, num, den)
      ensures i + 1 < |xs|
      ensures out[k] * den as real == xs[i] * (den - (num - i * den)) as real + xs[i + 1] * (num - i * den) as real
    {
      DivUnique(num, den, i);
      LerpAt(xs, num, den, i);
    }
  }
}
