/**
 Regularly repeated messages, some of which are lost: how long a receiver can go without one.
 Times are milliseconds.
 */
module Pacing {
  import opened Wrappers

  /** The times at which things happened. */
  function Dates<T>(things: seq<T>, at: T -> int): (times: seq<int>)
    ensures |times| == |things| && forall k :: 0 <= k < |things| ==> times[k] == at(things[k])
  {
    seq(|things|, k requires 0 <= k < |things| => at(things[k]))
  }

  /** The time before the k-th, counting `from` as the first. */
  function Previous(times: seq<int>, from: int, k: nat): int
    requires k <= |times|
  {
    if k == 0 then from else times[k - 1]
  }

  /** Consecutive times are less than `gap` apart, and the last one is that recent at `now`. */
  ghost predicate Regular(times: seq<int>, from: int, now: int, gap: int) {
    && (forall k {:trigger Previous(times, from, k)} :: 0 <= k < |times| ==>
          Previous(times, from, k) <= times[k] < Previous(times, from, k) + gap)
    && Previous(times, from, |times|) <= now < Previous(times, from, |times|) + gap
  }

  lemma {:induction false} RegularExtends(times: seq<int>, from: int, now: int, gap: int, next: int)
    requires Regular(times, from, now, gap)
    requires Previous(times, from, |times|) <= next < Previous(times, from, |times|) + gap
    ensures Regular(times + [next], from, next, gap)
  {
    forall k | 0 <= k < |times| + 1
      ensures Previous(times + [next], from, k) <= (times + [next])[k] < Previous(times + [next], from, k) + gap
    {
      assert Previous(times + [next], from, k) == Previous(times, from, k);
    }
  }

  /** Consecutive clock readings, starting from `from`, are at most `step` apart. */
  ghost predicate Spaced(clock: seq<int>, from: int, step: int) {
    forall k {:trigger Previous(clock, from, k)} :: 0 <= k < |clock| ==>
      Previous(clock, from, k) <= clock[k] <= Previous(clock, from, k) + step
  }

  lemma {:induction false} SpacedPrefix(clock: seq<int>, from: int, step: int, n: nat)
    requires Spaced(clock, from, step) && n <= |clock|
    ensures Spaced(clock[..n], from, step)
  {
    forall k | 0 <= k < n
      ensures Previous(clock[..n], from, k) <= clock[..n][k] <= Previous(clock[..n], from, k) + step
    {
      assert Previous(clock[..n], from, k) == Previous(clock, from, k);
    }
  }

  /** Those that arrive take between `least` and `least + jitter`, and of any `window` in a row one does. */
  ghost predicate Delivered(times: seq<int>, arrivals: seq<Option<int>>, least: int, jitter: nat, window: nat) {
    && |arrivals| == |times|
    && (forall k :: 0 <= k < |times| && arrivals[k].Some? ==>
                      times[k] + least <= arrivals[k].value <= times[k] + least + jitter)
    && (forall k :: 0 <= k <= |times| - window ==> SomeArrives(arrivals, k, window))
  }

  ghost predicate SomeArrives(arrivals: seq<Option<int>>, k: nat, window: nat)
    requires k + window <= |arrivals|
  {
    exists j :: k <= j < k + window && arrivals[j].Some?
  }

  /** How many are certain to have arrived by `at`, if they arrive. */
  function DueBy(times: seq<int>, at: int, delay: int): (m: nat)
    ensures m <= |times|
  {
    if times != [] && times[|times| - 1] + delay > at then DueBy(times[..|times| - 1], at, delay) else |times|
  }

  lemma {:induction false} DueBySplits(times: seq<int>, at: int, delay: int)
    ensures DueBy(times, at, delay) < |times| ==> times[DueBy(times, at, delay)] + delay > at
    ensures DueBy(times, at, delay) > 0 ==> times[DueBy(times, at, delay) - 1] + delay <= at
  {
    if times != [] && times[|times| - 1] + delay > at {
      DueBySplits(times[..|times| - 1], at, delay);
    }
  }

  /** `i` steps back the time is at most `i` gaps earlier. */
  lemma {:induction false} StepsBack(times: seq<int>, from: int, now: int, gap: int, m: nat, i: nat)
    requires Regular(times, from, now, gap) && i <= m <= |times|
    ensures Previous(times, from, m - i) <= Previous(times, from, m) <= Previous(times, from, m - i) + i * gap
  {
    if i > 0 {
      StepsBack(times, from, now, gap, m - 1, i - 1);
      assert times[m - 1] == Previous(times, from, m);
      assert Previous(times, from, m - 1) <= times[m - 1] < Previous(times, from, m - 1) + gap;
      assert (i - 1) * gap + gap == i * gap;
    }
  }

  /** One gap more than `i` is still within `window` gaps. */
  lemma {:induction false} OneMoreGap(i: nat, window: nat, gap: nat)
    requires i < window
    ensures i * gap + gap <= window * gap
  {
    if i == window - 1 {
      assert (i + 1) * gap == i * gap + gap;
    } else {
      OneMoreGap(i, window - 1, gap);
      assert window * gap == (window - 1) * gap + gap;
    }
  }

  /** The last message due by `at` was sent less than a gap and the jitter ago. */
  lemma {:induction false} DueRecently(times: seq<int>, from: int, now: int, gap: nat, least: int, jitter: nat, at: int)
    requires Regular(times, from, now, gap) && at <= now + least
    ensures at - least - jitter < Previous(times, from, DueBy(times, at, least + jitter)) + gap
  {
    var m := DueBy(times, at, least + jitter);
    DueBySplits(times, at, least + jitter);
    if m < |times| {
      assert times[m] < Previous(times, from, m) + gap;
    }
  }

  /** Among the last `window` messages due by `at`, one has arrived. */
  lemma {:induction false} RecentArrival(times: seq<int>, arrivals: seq<Option<int>>, from: int, now: int, gap: nat,
                      least: int, jitter: nat, window: nat, at: int) returns (k: nat)
    requires Regular(times, from, now, gap) && Delivered(times, arrivals, least, jitter, window)
    requires window <= DueBy(times, at, least + jitter)
    ensures k < DueBy(times, at, least + jitter) <= k + window
    ensures arrivals[k].Some? && arrivals[k].value <= at
  {
    var m := DueBy(times, at, least + jitter);
    DueBySplits(times, at, least + jitter);
    k := ArrivalIn(times, arrivals, least, jitter, window, m - window);
    Ordered(times, from, now, gap, k, m - 1);
  }

  /** Of the `window` messages from `first` on, one arrives. */
  lemma {:induction false} ArrivalIn(times: seq<int>, arrivals: seq<Option<int>>, least: int, jitter: nat, window: nat, first: nat) returns (k: nat)
    requires Delivered(times, arrivals, least, jitter, window) && first <= |times| - window
    ensures first <= k < first + window && arrivals[k].Some? && arrivals[k].value <= times[k] + least + jitter
  {
    assert SomeArrives(arrivals, first, window);
    k :| first <= k < first + window && arrivals[k].Some?;
  }

  lemma {:induction false} Ordered(times: seq<int>, from: int, now: int, gap: int, i: nat, j: nat)
    requires Regular(times, from, now, gap) && i <= j < |times|
    ensures times[i] <= times[j]
  {
    if i < j {
      Ordered(times, from, now, gap, i, j - 1);
      assert Previous(times, from, j) <= times[j];
    }
  }

  /** At any time one has arrived within `window` gaps and the jitter, or `from` itself is that recent. */
  lemma {:induction false} HeardWithin(times: seq<int>, arrivals: seq<Option<int>>, from: int, now: int, gap: nat,
                    least: int, jitter: nat, window: nat, at: int) returns (k: int)
    requires Regular(times, from, now, gap) && Delivered(times, arrivals, least, jitter, window) && at <= now + least
    requires window > 0
    ensures -1 <= k < |times|
    ensures k == -1 ==> at - (from + least) < window * gap + jitter
    ensures k >= 0 ==> arrivals[k].Some? && arrivals[k].value <= at && at - arrivals[k].value < window * gap + jitter
  {
    var m := DueBy(times, at, least + jitter);
    DueRecently(times, from, now, gap, least, jitter, at);
    if m < window {
      StepsBack(times, from, now, gap, m, m);
      OneMoreGap(m, window, gap);
      k := -1;
    } else {
      k := RecentArrival(times, arrivals, from, now, gap, least, jitter, window, at);
      StepsBack(times, from, now, gap, m, m - 1 - k);
      assert Previous(times, from, k + 1) == times[k];
      OneMoreGap(m - 1 - k, window, gap);
    }
  }
}
