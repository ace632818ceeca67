/**
 The receiving end of one remote voice: a bounded queue with a start-up cushion, packet-loss
 concealment, and the fate of every frame that ever entered it.
 */
module JitterBuffer {
  import opened Numbers
  import opened Transmit

  const CUSHION := 4
  const MAX_CONCEALMENT := 10
  const MAX_QUEUED := 10

  datatype Buffer = Buffer(pending: seq<Frame>, playing: bool, concealed: nat)

  /** What one pull yields: nothing, a decoded frame, or a concealment frame. */
  datatype Outcome = Silent | Decoded(frame: Frame) | Concealed

  predicate HoldsLast(frames: seq<Frame>) {
    exists i :: 0 <= i < |frames| && frames[i].isLast
  }

  function Enqueue(b: Buffer, f: Frame): Buffer {
    var q := b.pending + [f];
    b.(pending := if |q| > MAX_QUEUED then q[|q| - MAX_QUEUED..] else q)
  }

  /** A talkspurt that has not started, is short of the cushion and has not arrived whole. */
  predicate Waiting(b: Buffer) {
    b.pending != [] && !b.playing && |b.pending| < CUSHION && !HoldsLast(b.pending)
  }

  function Pulled(b: Buffer, audible: bool): Outcome {
    if !audible then Silent
    else if b.pending != [] then (if Waiting(b) then Silent else Decoded(b.pending[0]))
    else if b.playing && b.concealed < MAX_CONCEALMENT then Concealed
    else Silent
  }

  function Pull(b: Buffer, audible: bool): Buffer {
    if !audible then Buffer([], false, 0)
    else if b.pending != [] then
      (if Waiting(b) then b else Buffer(b.pending[1..], !b.pending[0].isLast, 0))
    else if !b.playing then b
    else if b.concealed >= MAX_CONCEALMENT then b.(playing := false, concealed := 0)
    else b.(concealed := b.concealed + 1)
  }

  /** Where a frame that has left the queue went. */
  datatype Fate = Played | Evicted | Drained

  datatype Op = Enq(frame: Frame) | Pl(audible: bool)

  /** A buffer together with everything that happened to it. */
  datatype Trace = Trace(buf: Buffer, enqueued: seq<Frame>, fates: seq<Fate>, outcomes: seq<Outcome>)

  const START := Trace(Buffer([], false, 0), [], [], [])

  function Times(f: Fate, n: nat): (s: seq<Fate>)
    ensures |s| == n && forall i :: 0 <= i < n ==> s[i] == f
  {
    seq(n, _ => f)
  }

  function Next(t: Trace, op: Op): Trace {
    match op
    case Enq(f) =>
      Trace(Enqueue(t.buf, f), t.enqueued + [f],
            t.fates + (if |t.buf.pending| >= MAX_QUEUED then Times(Evicted, |t.buf.pending| + 1 - MAX_QUEUED) else []),
            t.outcomes)
    case Pl(audible) =>
      Trace(Pull(t.buf, audible), t.enqueued,
            t.fates + (if !audible then Times(Drained, |t.buf.pending|)
                       else if Pulled(t.buf, audible).Decoded? then [Played] else []),
            t.outcomes + [Pulled(t.buf, audible)])
  }

  function Run(ops: seq<Op>): Trace {
    if ops == [] then START else Next(Run(ops[..|ops| - 1]), ops[|ops| - 1])
  }

  /** The frames whose fate is `Played`, in the order they were enqueued. */
  function PlayedOf(frames: seq<Frame>, fates: seq<Fate>): seq<Frame>
    requires |fates| <= |frames|
  {
    if fates == [] then []
    else
      var n := |fates| - 1;
      PlayedOf(frames, fates[..n]) + (if fates[n] == Played then [frames[n]] else [])
  }

  function DecodedOf(outcomes: seq<Outcome>): seq<Frame> {
    if outcomes == [] then []
    else
      var n := |outcomes| - 1;
      DecodedOf(outcomes[..n]) + (if outcomes[n].Decoded? then [outcomes[n].frame] else [])
  }

  /** Each enqueued frame has exactly one fate or is pending; the decoder sees the `Played` ones in order. */
  ghost predicate Conserved(t: Trace) {
    && |t.fates| + |t.buf.pending| == |t.enqueued|
    && t.buf.pending == t.enqueued[|t.fates|..]
    && |t.buf.pending| <= MAX_QUEUED
    && DecodedOf(t.outcomes) == PlayedOf(t.enqueued, t.fates)
  }

  /** How many concealment frames the outcomes end with. */
  function Trailing(outcomes: seq<Outcome>): (n: nat)
    ensures n <= |outcomes|
  {
    if outcomes != [] && outcomes[|outcomes| - 1].Concealed? then 1 + Trailing(outcomes[..|outcomes| - 1]) else 0
  }

  /** Before the concealment the outcomes end with comes a decoded frame that is not a last frame. */
  ghost predicate Anchored(outcomes: seq<Outcome>) {
    var anchor := |outcomes| - 1 - Trailing(outcomes);
    anchor >= 0 && outcomes[anchor].Decoded? && !outcomes[anchor].frame.isLast
  }

  ghost predicate PlayingJustified(t: Trace) {
    && t.buf.concealed <= MAX_CONCEALMENT
    && (t.buf.playing ==> t.buf.concealed == Trailing(t.outcomes) && Anchored(t.outcomes))
    && (!t.buf.playing ==> t.buf.concealed == 0)
  }

  /** While playing, the frame that left the queue last was played and not a last frame, or was evicted. */
  ghost predicate PlayingMeansOpen(t: Trace)
    requires |t.fates| <= |t.enqueued|
  {
    t.buf.playing ==>
      && |t.fates| > 0
      && var n := |t.fates| - 1;
         (t.fates[n] == Played && !t.enqueued[n].isLast) || (t.fates[n] == Evicted && t.buf.pending != [])
  }

  ghost predicate Inv(t: Trace) {
    Conserved(t) && PlayingJustified(t) && PlayingMeansOpen(t)
  }

  lemma {:induction false} PlayedOfExtends(frames: seq<Frame>, more: seq<Frame>, fates: seq<Fate>, f: Fate, n: nat)
    requires |fates| <= |frames| && f != Played && |fates| + n <= |frames + more|
    ensures PlayedOf(frames + more, fates + Times(f, n)) == PlayedOf(frames, fates)
    decreases |fates| + n
  {
    if n > 0 {
      assert (fates + Times(f, n))[..|fates| + n - 1] == fates + Times(f, n - 1);
      PlayedOfExtends(frames, more, fates, f, n - 1);
    } else if fates != [] {
      var m := |fates| - 1;
      PlayedOfExtends(frames, more, fates[..m], f, 0);
      assert fates + Times(f, 0) == fates && fates[..m] + Times(f, 0) == fates[..m];
    }
  }

  lemma {:induction false} EnqueueKeepsConserved(t: Trace, f: Frame)
    requires Conserved(t)
    ensures Conserved(Next(t, Enq(f)))
  {
    var n := if |t.buf.pending| >= MAX_QUEUED then |t.buf.pending| + 1 - MAX_QUEUED else 0;
    PlayedOfExtends(t.enqueued, [f], t.fates, Evicted, n);
    assert Next(t, Enq(f)).fates == t.fates + Times(Evicted, n);
  }

  lemma {:induction false} PullKeepsConserved(t: Trace, audible: bool)
    requires Conserved(t)
    ensures Conserved(Next(t, Pl(audible)))
  {
    var o := Pulled(t.buf, audible);
    assert (t.outcomes + [o])[..|t.outcomes|] == t.outcomes;
    assert DecodedOf(t.outcomes + [o]) == DecodedOf(t.outcomes) + (if o.Decoded? then [o.frame] else []);
    if !audible {
      PlayedOfExtends(t.enqueued, [], t.fates, Drained, |t.buf.pending|);
      assert t.enqueued + [] == t.enqueued;
    } else if o.Decoded? {
      assert (t.fates + [Played])[..|t.fates|] == t.fates;
      assert t.buf.pending[0] == t.enqueued[|t.fates|];
    } else {
      assert t.fates + [] == t.fates;
    }
  }

  lemma {:induction false} PullKeepsJustified(t: Trace, audible: bool)
    requires PlayingJustified(t)
    ensures PlayingJustified(Next(t, Pl(audible)))
  {
    var o := Pulled(t.buf, audible);
    assert (t.outcomes + [o])[..|t.outcomes|] == t.outcomes;
    assert Trailing(t.outcomes + [o]) == if o.Concealed? then 1 + Trailing(t.outcomes) else 0;
  }

  lemma {:induction false} PullKeepsOpen(t: Trace, audible: bool)
    requires Conserved(t) && PlayingMeansOpen(t) && Conserved(Next(t, Pl(audible)))
    ensures PlayingMeansOpen(Next(t, Pl(audible)))
  {
  }

  lemma {:induction false} EnqueueKeepsOpen(t: Trace, f: Frame)
    requires Conserved(t) && PlayingMeansOpen(t) && Conserved(Next(t, Enq(f)))
    ensures PlayingMeansOpen(Next(t, Enq(f)))
  {
  }

  lemma {:induction false} NextKeepsInv(t: Trace, op: Op)
    requires Inv(t)
    ensures Inv(Next(t, op))
  {
    match op
    case Enq(f) =>
      EnqueueKeepsConserved(t, f);
      EnqueueKeepsOpen(t, f);
    case Pl(audible) =>
      PullKeepsConserved(t, audible);
      PullKeepsJustified(t, audible);
      PullKeepsOpen(t, audible);
  }

  lemma {:induction false} RunInv(ops: seq<Op>)
    ensures Inv(Run(ops))
  {
    if ops != [] {
      RunInv(ops[..|ops| - 1]);
      NextKeepsInv(Run(ops[..|ops| - 1]), ops[|ops| - 1]);
    }
  }

  /** Every concealment frame is at most the tenth in a row, and the row starts right after a decoded frame that is not a last frame. */
  ghost predicate ConcealmentJustified(outcomes: seq<Outcome>) {
    forall k :: 0 <= k < |outcomes| && outcomes[k].Concealed? ==>
                  Trailing(outcomes[..k + 1]) <= MAX_CONCEALMENT && Anchored(outcomes[..k + 1])
  }

  lemma {:induction false} RunConcealment(ops: seq<Op>)
    ensures ConcealmentJustified(Run(ops).outcomes)
  {
    if ops != [] {
      var n := |ops| - 1;
      var t, u := Run(ops[..n]), Run(ops);
      RunConcealment(ops[..n]);
      RunInv(ops);
      forall k | 0 <= k < |u.outcomes| && u.outcomes[k].Concealed?
        ensures Trailing(u.outcomes[..k + 1]) <= MAX_CONCEALMENT && Anchored(u.outcomes[..k + 1])
      {
        if k < |t.outcomes| {
          assert u.outcomes[..k + 1] == t.outcomes[..k + 1];
        } else {
          assert u.outcomes[..k + 1] == u.outcomes;
        }
      }
    }
  }

  function Pulls(t: Trace, n: nat): Trace {
    if n == 0 then t else Next(Pulls(t, n - 1), Pl(true))
  }

  function Decodes(frames: seq<Frame>): seq<Outcome> {
    seq(|frames|, i requires 0 <= i < |frames| => Decoded(frames[i]))
  }

  function Silence(n: nat): seq<Outcome> {
    seq(n, _ => Silent)
  }

  lemma {:induction false} DecodeStep(t: Trace)
    requires HoldsLast(t.buf.pending)
    ensures var u := Next(t, Pl(true));
            && u.buf.pending == t.buf.pending[1..] && u.enqueued == t.enqueued
            && u.fates == t.fates + [Played] && u.outcomes == t.outcomes + [Decoded(t.buf.pending[0])]
  {
  }

  lemma {:induction false} PullsKeepInv(t: Trace, n: nat)
    requires Inv(t)
    ensures Inv(Pulls(t, n)) && Pulls(t, n).enqueued == t.enqueued
  {
    if n > 0 {
      PullsKeepInv(t, n - 1);
      NextKeepsInv(Pulls(t, n - 1), Pl(true));
    }
  }

  /** A queue that ends with an end frame empties with one decode per pull. */
  lemma {:induction false} DrainsOnePerPull(t: Trace, n: nat)
    requires n <= |t.buf.pending|
    requires t.buf.pending != [] ==> t.buf.pending[|t.buf.pending| - 1].isLast
    ensures Pulls(t, n).buf.pending == t.buf.pending[n..]
    ensures Pulls(t, n).fates == t.fates + Times(Played, n)
    ensures Pulls(t, n).outcomes == t.outcomes + Decodes(t.buf.pending[..n])
  {
    if n > 0 {
      DrainsOnePerPull(t, n - 1);
      var p := Pulls(t, n - 1);
      assert p.buf.pending[|p.buf.pending| - 1].isLast;
      DecodeStep(p);
    }
  }

  /** Nothing pending after an end frame means not playing, and stays silent for ever. */
  lemma {:induction false} SilentAfterEnd(t: Trace, n: nat)
    requires Inv(t) && t.buf.pending == []
    requires t.enqueued != [] ==> t.enqueued[|t.enqueued| - 1].isLast
    ensures !t.buf.playing
    ensures Pulls(t, n).buf == t.buf && Pulls(t, n).outcomes == t.outcomes + Silence(n)
  {
    if n > 0 {
      SilentAfterEnd(t, n - 1);
    }
  }

  // ---------------------------------------------------------------- when a talkspurt starts, goes on and stops

  /** Over every run, the source is playing if and only if concealment alone followed a decoded frame that was not a last one. */
  lemma {:induction false} PlayingIff(ops: seq<Op>)
    ensures Run(ops).buf.playing <==> Anchored(Run(ops).outcomes)
  {
    if ops != [] {
      var n := |ops| - 1;
      PlayingIff(ops[..n]);
      RunInv(ops[..n]);
      var t := Run(ops[..n]);
      match ops[n]
      case Enq(f) =>
      case Pl(audible) => assert (t.outcomes + [Pulled(t.buf, audible)])[..|t.outcomes|] == t.outcomes;
    }
  }

  /**
   Over every run, an audible pull with frames pending decodes the oldest if and only if the source is playing,
   four frames are there, or one of them is a last frame; otherwise it is silent and the frames stay.
   */
  lemma {:induction false} DecodesIff(ops: seq<Op>)
    requires Run(ops).buf.pending != []
    ensures var t, u := Run(ops), Run(ops + [Pl(true)]);
            if t.buf.playing || |t.buf.pending| >= 4 || exists f :: f in t.buf.pending && f.isLast
            then u.outcomes == t.outcomes + [Decoded(t.buf.pending[0])] && u.buf.pending == t.buf.pending[1..]
            else u.outcomes == t.outcomes + [Silent] && u.buf == t.buf
  {
    var pending := Run(ops).buf.pending;
    assert (ops + [Pl(true)])[..|ops|] == ops;
    assert HoldsLast(pending) <==> exists f :: f in pending && f.isLast;
  }

  /** Each of the frames arrives and is followed by an audible pull. */
  function Alternate(t: Trace, frames: seq<Frame>): Trace {
    if frames == [] then t
    else
      var n := |frames| - 1;
      Next(Next(Alternate(t, frames[..n]), Enq(frames[n])), Pl(true))
  }

  lemma {:induction false} MoreSilence(before: seq<Outcome>, n: nat)
    ensures before + Silence(n) + Decodes([]) + [Silent] == before + Silence(n + 1) + Decodes([])
  {
  }

  lemma {:induction false} MoreDecodes(before: seq<Outcome>, frames: seq<Frame>, k: nat)
    requires k < |frames|
    ensures before + Decodes(frames[..k]) + [Decoded(frames[k])] == before + Decodes(frames[..k + 1])
  {
  }

  lemma {:induction false} MorePlayed(before: seq<Fate>, n: nat)
    ensures before + Times(Played, n) + [Played] == before + Times(Played, n + 1)
  {
  }

  /** The state of an open microphone's source after some frames of a talkspurt. */
  ghost predicate Flowing(t: Trace, frames: seq<Frame>, u: Trace) {
    var held := Min(3, |frames|);
    && u.outcomes == t.outcomes + Silence(held) + Decodes(frames[..|frames| - held])
    && u.buf.pending == frames[|frames| - held..] && (u.buf.playing <==> |frames| > 3)
    && u.fates == t.fates + Times(Played, |frames| - held)
  }

  lemma {:induction false} FlowsOn(t: Trace, frames: seq<Frame>, f: Frame, u: Trace)
    requires Flowing(t, frames, u) && !f.isLast && forall g :: g in frames ==> !g.isLast
    ensures Flowing(t, frames + [f], Next(Next(u, Enq(f)), Pl(true)))
  {
    var n, all, w := |frames|, frames + [f], Next(Next(u, Enq(f)), Pl(true));
    AlternateStep(u, f);
    if n < 3 {
      assert u.buf.pending == frames && frames[..0] == [] && all[..0] == [];
      MoreSilence(t.outcomes, n);
    } else {
      assert u.buf.pending + [f] == all[n - 3..];
      assert frames[..n - 3] == all[..n - 3];
      MoreDecodes(t.outcomes + Silence(3), all, n - 3);
      MorePlayed(t.fates, n - 3);
    }
  }

  /**
   An open microphone: of a talkspurt without an end, from an idle source on, the first three pulls are silent and
   from the fourth on every pull decodes a frame, in order; three frames stay pending and none is evicted.
   */
  lemma {:induction false} StartsWithFour(t: Trace, frames: seq<Frame>)
    requires t.buf.pending == [] && !t.buf.playing && forall f :: f in frames ==> !f.isLast
    ensures Flowing(t, frames, Alternate(t, frames))
  {
    if frames == [] {
      assert t.outcomes + Silence(0) + Decodes([]) == t.outcomes && t.fates + Times(Played, 0) == t.fates;
    } else {
      var n := |frames| - 1;
      StartsWithFour(t, frames[..n]);
      assert frames[n] in frames && frames[..n] + [frames[n]] == frames;
      FlowsOn(t, frames[..n], frames[n], Alternate(t, frames[..n]));
    }
  }

  lemma {:induction false} AlternateStep(t: Trace, f: Frame)
    requires |t.buf.pending| <= 3 && !f.isLast && forall g :: g in t.buf.pending ==> !g.isLast
    requires t.buf.playing ==> |t.buf.pending| == 3
    ensures var u, all := Next(Next(t, Enq(f)), Pl(true)), t.buf.pending + [f];
            if |all| < 4
            then u.outcomes == t.outcomes + [Silent] && u.buf == t.buf.(pending := all) && u.fates == t.fates
            else u.outcomes == t.outcomes + [Decoded(all[0])] && u.buf == Buffer(all[1..], true, 0) && u.fates == t.fates + [Played]
  {
    var all := t.buf.pending + [f];
    assert !HoldsLast(all);
    assert t.fates + [] == t.fates;
  }

  lemma {:induction false} EnqueueEvicts(b: Buffer, f: Frame)
    requires |b.pending| <= 10
    ensures Enqueue(b, f).pending == if |b.pending| < 10 then b.pending + [f] else b.pending[1..] + [f]
  {
    assert b.pending != [] ==> (b.pending + [f])[1..] == b.pending[1..] + [f];
  }

  /** An arrival pushes the oldest frame out if and only if ten are pending, and no other. */
  lemma {:induction false} EvictsIff(ops: seq<Op>, f: Frame)
    ensures var t, u := Run(ops), Run(ops + [Enq(f)]);
            if |t.buf.pending| < 10 then u.buf.pending == t.buf.pending + [f] && u.fates == t.fates
            else u.buf.pending == t.buf.pending[1..] + [f] && u.fates == t.fates + [Evicted]
  {
    RunInv(ops);
    var t := Run(ops);
    EnqueueEvicts(t.buf, f);
    assert (ops + [Enq(f)])[..|ops|] == ops;
    assert t.fates + [] == t.fates && Times(Evicted, 1) == [Evicted];
  }

  function Fill(n: nat): seq<Outcome> {
    seq(n, _ => Concealed)
  }

  /** When the frames stop coming in mid-talkspurt, ten pulls are concealed and all later ones silent. */
  lemma {:induction false} ConcealsTen(t: Trace, n: nat)
    requires t.buf == Buffer([], true, 0)
    ensures Pulls(t, n).outcomes == t.outcomes + Fill(Min(10, n)) + Silence(n - Min(10, n))
    ensures Pulls(t, n).buf == if n <= 10 then Buffer([], true, n) else Buffer([], false, 0)
  {
    if n > 0 {
      ConcealsTen(t, n - 1);
    }
  }

  /** Whenever the source cannot be heard, the queue is emptied and the talkspurt is over. */
  lemma {:induction false} InaudibleDrains(ops: seq<Op>)
    ensures var t, u := Run(ops), Run(ops + [Pl(false)]);
            && u.buf == Buffer([], false, 0) && u.outcomes == t.outcomes + [Silent]
            && u.fates == t.fates + Times(Drained, |t.buf.pending|)
  {
    assert (ops + [Pl(false)])[..|ops|] == ops;
  }

  function Enqueues(ops: seq<Op>): seq<Frame> {
    if ops == [] then []
    else
      var n := |ops| - 1;
      Enqueues(ops[..n]) + (if ops[n].Enq? then [ops[n].frame] else [])
  }

  ghost predicate AlwaysAudible(ops: seq<Op>) {
    forall k :: 0 <= k < |ops| && ops[k].Pl? ==> ops[k].audible
  }

  ghost predicate AllPlayed(fates: seq<Fate>) {
    forall k :: 0 <= k < |fates| ==> fates[k] == Played
  }

  lemma {:induction false} RunEnqueued(ops: seq<Op>)
    ensures Run(ops).enqueued == Enqueues(ops)
  {
    if ops != [] {
      RunEnqueued(ops[..|ops| - 1]);
    }
  }

  /** An audible run without overflow plays everything that leaves the queue. */
  lemma {:induction false} AudibleRunPlays(ops: seq<Op>)
    requires AlwaysAudible(ops) && Evicted !in Run(ops).fates
    ensures AllPlayed(Run(ops).fates)
  {
    if ops != [] {
      var n := |ops| - 1;
      var t := Run(ops[..n]);
      assert t.fates <= Run(ops).fates;
      assert forall k :: 0 <= k < |t.fates| ==> Run(ops).fates[k] == t.fates[k];
      AudibleRunPlays(ops[..n]);
      if ops[n].Enq? && |t.buf.pending| >= MAX_QUEUED {
        assert Run(ops).fates[|t.fates|] == Evicted;
      }
    }
  }

  lemma {:induction false} AllPlayedOf(frames: seq<Frame>, fates: seq<Fate>)
    requires |fates| <= |frames| && AllPlayed(fates)
    ensures PlayedOf(frames, fates) == frames[..|fates|]
  {
    if fates != [] {
      AllPlayedOf(frames, fates[..|fates| - 1]);
    }
  }

  /**
   After an end frame: one pull per pending frame decodes it, the source is then not playing, and every
   further pull is silent.
   */
  lemma {:induction false} EmptiesAfterEnd(t: Trace, later: nat)
    requires Inv(t)
    requires t.enqueued != [] ==> t.enqueued[|t.enqueued| - 1].isLast
    ensures
      var done := Pulls(t, |t.buf.pending|);
      && Inv(done) && done.enqueued == t.enqueued
      && done.fates == t.fates + Times(Played, |t.buf.pending|)
      && done.outcomes == t.outcomes + Decodes(t.buf.pending)
      && done.buf.pending == [] && !done.buf.playing
      && Pulls(done, later).outcomes == done.outcomes + Silence(later)
  {
    PullsKeepInv(t, |t.buf.pending|);
    DrainsOnePerPull(t, |t.buf.pending|);
    SilentAfterEnd(Pulls(t, |t.buf.pending|), later);
    assert t.buf.pending[..|t.buf.pending|] == t.buf.pending;
  }

  /** A trace with nothing pending whose every frame was played has decoded exactly what was enqueued. */
  lemma {:induction false} AllDecoded(t: Trace)
    requires Conserved(t) && t.buf.pending == [] && AllPlayed(t.fates)
    ensures DecodedOf(t.outcomes) == t.enqueued
  {
    AllPlayedOf(t.enqueued, t.fates);
    assert t.enqueued[..|t.fates|] == t.enqueued;
  }

  /**
   From the wire to the decoder, whatever the encoder did. The receiver enqueued what was sent, in whatever
   interleaving with its own pulls, and no talkspurt is open. Then one pull per pending frame decodes it; with
   no frame overflowed and every pull audible, the decoder has by then seen every sent frame exactly once, in
   order; and from then on the source is not playing and every further pull is silent.
   */
  lemma {:induction false} ClosedWireDelivered(inputs: seq<Captured>, ops: seq<Op>, later: nat)
    requires Enqueues(ops) == Sent(inputs) && !Open(inputs)
    ensures
      var t := Run(ops);
      var done := Pulls(t, |t.buf.pending|);
      && (AlwaysAudible(ops) && Evicted !in t.fates ==> DecodedOf(done.outcomes) == Sent(inputs))
      && done.outcomes == t.outcomes + Decodes(t.buf.pending)
      && done.buf.pending == [] && !done.buf.playing
      && Pulls(done, later).outcomes == done.outcomes + Silence(later)
  {
    RunInv(ops);
    RunEnqueued(ops);
    OpenIff(inputs);
    EmptiesAfterEnd(Run(ops), later);
    if AlwaysAudible(ops) && Evicted !in Run(ops).fates {
      AudibleRunPlays(ops);
      AllDecoded(Pulls(Run(ops), |Run(ops).buf.pending|));
    }
  }

  /** From microphone to decoder: the same once a sender whose encoder succeeds has gone idle. */
  lemma {:induction false} TalkspurtDelivered(inputs: seq<Captured>, ops: seq<Op>, later: nat)
    requires Encodes(inputs) && Enqueues(ops) == Sent(inputs) && !After(inputs).wasTransmitting
    ensures
      var t := Run(ops);
      var done := Pulls(t, |t.buf.pending|);
      && (AlwaysAudible(ops) && Evicted !in t.fates ==> DecodedOf(done.outcomes) == Sent(inputs))
      && done.outcomes == t.outcomes + Decodes(t.buf.pending)
      && done.buf.pending == [] && !done.buf.playing
      && Pulls(done, later).outcomes == done.outcomes + Silence(later)
  {
    EncodesOpen(inputs);
    ClosedWireDelivered(inputs, ops, later);
  }
}
