/**
 One remote source from its queue to the mixer: produced frames of 960 stereo samples are copied out
 over as many requests as it takes, and silence fills in when nothing can be produced.

 The decoder and the effect chains are one function of the outcomes so far and the paths being heard.
 */
module Rendering {
  import opened Transmit
  import opened JitterBuffer
  import opened Playback
  import opened Sequences

  const FRAME := CHUNK_FRAMES

  /** One way the listener hears the source. */
  datatype PathState = PathState(gain: real, muted: bool)

  predicate Carries(p: PathState) { !p.muted && p.gain > 0.0 }

  function Active(states: seq<PathState>): seq<PathState> {
    if states == [] then []
    else
      var n := |states| - 1;
      Active(states[..n]) + (if Carries(states[n]) then [states[n]] else [])
  }

  type Synth = (seq<Outcome>, seq<PathState>) -> seq<Stereo>

  ghost predicate AlwaysFullFrames(synth: Synth) {
    forall o, p :: |synth(o, p)| == FRAME
  }

  /** A rendered sample: copied from a produced frame, or inserted silence. */
  datatype Sample = Voice(value: Stereo) | Quiet

  datatype Source = Source(trace: Trace, frame: seq<Stereo>, pos: nat, produced: seq<seq<Stereo>>) {
    ghost predicate Valid() {
      |frame| == FRAME && pos <= FRAME
    }

    /** What is left of the frame last produced. */
    function Rest(): seq<Stereo>
      requires pos <= |frame|
    {
      frame[pos..]
    }
  }

  /** One attempt to produce the next frame. */
  function Attempt(s: Source, states: seq<PathState>, synth: Synth): Source {
    var audible := Active(states) != [];
    var t := Next(s.trace, Pl(audible));
    if Pulled(s.trace.buf, audible).Silent? then s.(trace := t)
    else
      var frame := synth(t.outcomes, Active(states));
      Source(t, frame, 0, s.produced + [frame])
  }

  function Voices(values: seq<Stereo>): seq<Sample> {
    seq(|values|, i requires 0 <= i < |values| => Voice(values[i]))
  }

  function Quiets(n: nat): seq<Sample> {
    seq(n, _ => Quiet)
  }

  /** Copies `n` samples of the current frame. */
  function Copy(s: Source, n: nat): Source { s.(pos := s.pos + n) }

  /** The source with something left to copy, if an attempt can provide it. */
  function Refreshed(s: Source, states: seq<PathState>, synth: Synth): Source {
    if s.pos >= |s.frame| then Attempt(s, states, synth) else s
  }

  function Portion(s: Source, n: nat): nat
    requires s.pos <= |s.frame|
  {
    if |s.frame| - s.pos < n then |s.frame| - s.pos else n
  }

  /** The source after a request for `n` samples, and the samples. */
  function Render(s: Source, states: seq<PathState>, synth: Synth, n: nat): (r: (Source, seq<Sample>))
    requires s.Valid() && AlwaysFullFrames(synth)
    ensures r.0.Valid()
    decreases n
  {
    if n == 0 then (s, [])
    else
      var s1 := Refreshed(s, states, synth);
      if s1.pos >= |s1.frame| then (s1, Quiets(n))
      else
        var take := Portion(s1, n);
        var r := Render(Copy(s1, take), states, synth, n - take);
        (r.0, Voices(s1.frame[s1.pos..s1.pos + take]) + r.1)
  }

  /** The rendered samples without the inserted silence. */
  function Heard(out: seq<Sample>): seq<Stereo> {
    if out == [] then []
    else
      var n := |out| - 1;
      Heard(out[..n]) + (if out[n].Voice? then [out[n].value] else [])
  }

  function Flat(frames: seq<seq<Stereo>>): seq<Stereo> {
    if frames == [] then [] else Flat(frames[..|frames| - 1]) + frames[|frames| - 1]
  }

  lemma {:induction false} HeardConcat(a: seq<Sample>, b: seq<Sample>)
    ensures Heard(a + b) == Heard(a) + Heard(b)
  {
    if b == [] {
      assert a + b == a;
    } else {
      var n := |b| - 1;
      HeardConcat(a, b[..n]);
      assert (a + b)[..|a| + n] == a + b[..n];
    }
  }

  lemma {:induction false} HeardVoices(values: seq<Stereo>)
    ensures Heard(Voices(values)) == values
  {
    if values != [] {
      var n := |values| - 1;
      HeardVoices(values[..n]);
      assert Voices(values)[..n] == Voices(values[..n]);
    }
  }

  lemma {:induction false} HeardQuiets(n: nat)
    ensures Heard(Quiets(n)) == []
  {
    if n > 0 {
      HeardQuiets(n - 1);
      assert Quiets(n)[..n - 1] == Quiets(n - 1);
    }
  }

  /** So far, what was heard followed by the rest of the current frame is everything produced. */
  ghost predicate Accounted(s: Source, heard: seq<Stereo>) {
    s.Valid() && Flat(s.produced) == heard + s.Rest()
  }

  lemma {:induction false} AttemptAccounted(s: Source, states: seq<PathState>, synth: Synth, heard: seq<Stereo>)
    requires Accounted(s, heard) && s.pos >= FRAME && AlwaysFullFrames(synth)
    ensures Accounted(Attempt(s, states, synth), heard)
  {
    var u := Attempt(s, states, synth);
    assert s.Rest() == [] && heard + [] == heard;
    if u.produced != s.produced {
      assert u.produced[..|s.produced|] == s.produced;
      assert u.frame[0..] == u.frame;
    }
  }

  /** A request hears the produced frames on, without skipping or repeating a sample, whatever its size. */
  lemma {:induction false} RenderNeverReplays(s: Source, states: seq<PathState>, synth: Synth, n: nat, heard: seq<Stereo>)
    requires AlwaysFullFrames(synth) && Accounted(s, heard)
    ensures Accounted(Render(s, states, synth, n).0, heard + Heard(Render(s, states, synth, n).1))
    decreases n
  {
    assert heard + [] == heard;
    if n > 0 {
      var s1 := Refreshed(s, states, synth);
      if s.pos >= |s.frame| {
        AttemptAccounted(s, states, synth, heard);
      }
      if s1.pos >= |s1.frame| {
        HeardQuiets(n);
      } else {
        var take := Portion(s1, n);
        var piece := s1.frame[s1.pos..s1.pos + take];
        CopyAccounted(s1, take, heard);
        RenderNeverReplays(Copy(s1, take), states, synth, n - take, heard + piece);
        HeardPiece(heard, piece, Render(Copy(s1, take), states, synth, n - take).1);
      }
    }
  }

  lemma {:induction false} RenderLength(s: Source, states: seq<PathState>, synth: Synth, n: nat)
    requires AlwaysFullFrames(synth) && s.Valid()
    ensures |Render(s, states, synth, n).1| == n
    decreases n
  {
    if n > 0 {
      var s1 := Refreshed(s, states, synth);
      if s1.pos < |s1.frame| {
        RenderLength(Copy(s1, Portion(s1, n)), states, synth, n - Portion(s1, n));
      }
    }
  }

  lemma {:induction false} RenderUnfolds(s: Source, states: seq<PathState>, synth: Synth, n: nat)
    requires AlwaysFullFrames(synth) && s.Valid() && n > 0
    ensures
      var s1 := Refreshed(s, states, synth);
      var take := Portion(s1, n);
      if s1.pos >= |s1.frame| then Render(s, states, synth, n).0 == s1 && Render(s, states, synth, n).1 == Quiets(n)
      else
        && Render(s, states, synth, n).0 == Render(Copy(s1, take), states, synth, n - take).0
        && Render(s, states, synth, n).1 ==
           Voices(s1.frame[s1.pos..s1.pos + take]) + Render(Copy(s1, take), states, synth, n - take).1
  {
  }

  lemma {:induction false} CopyAccounted(s: Source, take: nat, heard: seq<Stereo>)
    requires Accounted(s, heard) && s.pos + take <= FRAME
    ensures Accounted(Copy(s, take), heard + s.frame[s.pos..s.pos + take])
  {
    assert s.Rest() == s.frame[s.pos..s.pos + take] + Copy(s, take).Rest();
  }

  lemma {:induction false} HeardPiece(heard: seq<Stereo>, piece: seq<Stereo>, out: seq<Sample>)
    ensures heard + Heard(Voices(piece) + out) == heard + piece + Heard(out)
  {
    HeardVoices(piece);
    HeardConcat(Voices(piece), out);
  }

  /** The mixer's 960-frame request makes exactly one attempt, and leaves the source at a frame boundary again. */
  lemma {:induction false} WholeFrameRequest(s: Source, states: seq<PathState>, synth: Synth)
    requires s.Valid() && AlwaysFullFrames(synth) && s.pos == FRAME
    ensures
      var (s', out) := Render(s, states, synth, FRAME);
      var u := Attempt(s, states, synth);
      && s'.pos == FRAME && s'.trace == Next(s.trace, Pl(Active(states) != []))
      && |s'.trace.outcomes| == |s.trace.outcomes| + 1
      && out == (if Pulled(s.trace.buf, Active(states) != []).Silent? then Quiets(FRAME) else Voices(u.frame))
  {
    var u := Attempt(s, states, synth);
    if u.pos < FRAME {
      assert u.frame[0..0 + FRAME] == u.frame;
      assert Render(Copy(u, FRAME), states, synth, 0) == (Copy(u, FRAME), []);
      assert Voices(u.frame) + [] == Voices(u.frame);
    }
  }

  /** Exactly the paths that are not muted and have a gain are heard, in their order. */
  lemma {:induction false} ActiveIs(states: seq<PathState>, p: PathState)
    ensures Active([]) == []
    ensures Active(states + [p]) == Active(states) + if !p.muted && p.gain > 0.0 then [p] else []
    ensures p in Active(states) <==> p in states && !p.muted && p.gain > 0.0
  {
    assert (states + [p])[..|states|] == states;
    ActiveMembers(states, p);
  }

  lemma {:induction false} ActiveMembers(states: seq<PathState>, p: PathState)
    ensures p in Active(states) <==> p in states && !p.muted && p.gain > 0.0
  {
    if states != [] {
      var n := |states| - 1;
      ActiveMembers(states[..n], p);
      assert states == states[..n] + [states[n]];
    }
  }

  /** The frame is used up and the last attempt came to nothing. */
  ghost predicate Dry(s: Source) {
    s.pos == FRAME && s.trace.outcomes != [] && s.trace.outcomes[|s.trace.outcomes| - 1].Silent?
  }

  lemma {:induction false} RefreshedDry(s: Source, states: seq<PathState>, synth: Synth)
    requires AlwaysFullFrames(synth) && s.Valid() && Refreshed(s, states, synth).pos >= FRAME
    ensures Dry(Refreshed(s, states, synth))
  {
  }

  lemma {:induction false} VoicesNotQuiet(values: seq<Stereo>, rest: seq<Sample>)
    ensures Quiet in Voices(values) + rest ==> Quiet in rest
  {
  }

  /** Of a request only what no attempt could provide is silence. */
  lemma {:induction false} SilentOnlyWhenDry(s: Source, states: seq<PathState>, synth: Synth, n: nat)
    requires AlwaysFullFrames(synth) && s.Valid()
    ensures var r := Render(s, states, synth, n); Quiet in r.1 ==> Dry(r.0)
    decreases n
  {
    if n > 0 {
      var r, s1 := Render(s, states, synth, n), Refreshed(s, states, synth);
      RenderUnfolds(s, states, synth, n);
      if s1.pos < |s1.frame| {
        var take := Portion(s1, n);
        var later := Render(Copy(s1, take), states, synth, n - take);
        SilentOnlyWhenDry(Copy(s1, take), states, synth, n - take);
        assert r.0 == later.0 && r.1 == Voices(s1.frame[s1.pos..s1.pos + take]) + later.1;
        VoicesNotQuiet(s1.frame[s1.pos..s1.pos + take], later.1);
      } else {
        RefreshedDry(s, states, synth);
        assert r.0 == s1;
      }
    }
  }

  datatype Event = Arrive(frame: Frame) | Request(states: seq<PathState>, n: nat)

  function SilentFrame(): (f: seq<Stereo>)
    ensures |f| == FRAME
  {
    seq(FRAME, _ => Stereo(0.0, 0.0))
  }

  function Run(events: seq<Event>, synth: Synth): (r: (Source, seq<Sample>))
    requires AlwaysFullFrames(synth)
    ensures r.0.Valid()
  {
    if events == [] then (Source(START, SilentFrame(), FRAME, []), [])
    else
      var n := |events| - 1;
      var r := Run(events[..n], synth);
      match events[n]
      case Arrive(f) => (r.0.(trace := Next(r.0.trace, Enq(f))), r.1)
      case Request(states, k) =>
        var q := Render(r.0, states, synth, k);
        (q.0, r.1 + q.1)
  }

  /** Over every run of arrivals and requests, what was heard is a prefix of the frames produced. */
  lemma {:induction false} RunNeverReplays(events: seq<Event>, synth: Synth)
    requires AlwaysFullFrames(synth)
    ensures Accounted(Run(events, synth).0, Heard(Run(events, synth).1))
    ensures Heard(Run(events, synth).1) <= Flat(Run(events, synth).0.produced)
  {
    if events != [] {
      var n := |events| - 1;
      RunNeverReplays(events[..n], synth);
      var (s, out) := Run(events[..n], synth);
      match events[n]
      case Arrive(f) =>
      case Request(states, k) =>
        RenderNeverReplays(s, states, synth, k, Heard(out));
        HeardConcat(out, Render(s, states, synth, k).1);
    }
  }

  class RemoteVoiceSource {
    const synth: Synth
    var pending: seq<Frame>
    var isPlaying: bool
    var concealmentCount: nat
    var stereoFrame: seq<Stereo>
    var stereoFramePos: nat
    var states: seq<PathState>
    var history: seq<Outcome>    // all the decoder has gone through
    ghost var trace: Trace
    ghost var produced: seq<seq<Stereo>>

    ghost predicate Valid()
      reads this
    {
      && AlwaysFullFrames(synth) && View().Valid()
      && trace.buf == Buffer(pending, isPlaying, concealmentCount) && trace.outcomes == history
    }

    ghost function View(): Source
      reads this
    {
      Source(trace, stereoFrame, stereoFramePos, produced)
    }

    ghost function Queue(): Buffer
      reads this
    {
      Buffer(pending, isPlaying, concealmentCount)
    }

    constructor (synth: Synth)
      requires AlwaysFullFrames(synth)
      ensures Valid() && this.synth == synth && View() == Source(START, SilentFrame(), FRAME, []) && states == []
    {
      this.synth := synth;
      pending, isPlaying, concealmentCount, states := [], false, 0, [];
      stereoFrame, stereoFramePos := SilentFrame(), FRAME;
      history, trace, produced := [], START, [];
    }

    method EnqueueOpusFrame(f: Frame)
      requires Valid()
      modifies this`pending, this`trace
      ensures Valid() && View() == old(View()).(trace := Next(old(trace), Enq(f)))
    {
      PushBounded(f);
      trace := Next(trace, Enq(f));
    }

    method PushBounded(f: Frame)
      modifies this`pending
      ensures Queue() == Enqueue(old(Queue()), f)
    {
      ghost var all := pending + [f];
      pending := pending + [f];
      while |pending| > MAX_QUEUED
        invariant |pending| <= |all| && pending == all[|all| - |pending|..]
        invariant |pending| >= MAX_QUEUED || pending == all
      {
        pending := pending[1..];
      }
    }

    method SetStates(paths: seq<PathState>)
      requires Valid()
      modifies this`states
      ensures Valid() && states == paths
    {
      states := paths;
    }

    method ActivePaths() returns (active: seq<PathState>)
      ensures active == Active(states)
    {
      active := [];
      for i := 0 to |states|
        invariant active == Active(states[..i])
      {
        assert states[..i + 1][..i] == states[..i];
        if Carries(states[i]) {
          active := active + [states[i]];
        }
      }
      assert states[..|states|] == states;
    }

    /** Updates the queue for one pull; `outcome` says what there is to play. */
    method PullQueue(audible: bool) returns (outcome: Outcome)
      requires Valid()
      modifies this`pending, this`isPlaying, this`concealmentCount, this`history, this`trace
      ensures Valid() && outcome == Pulled(old(trace.buf), audible)
      ensures trace == Next(old(trace), Pl(audible))
    {
      outcome := TakeFrame(audible);
      history := history + [outcome];
      trace := Next(trace, Pl(audible));
    }

    method TakeFrame(audible: bool) returns (outcome: Outcome)
      modifies this`pending, this`isPlaying, this`concealmentCount
      ensures outcome == Pulled(old(Queue()), audible) && Queue() == Pull(old(Queue()), audible)
    {
      ghost var was := Queue();
      if !audible {
        isPlaying, concealmentCount, pending := false, 0, [];
        return Silent;
      }
      if pending != [] {
        var frame := pending[0];
        var rest := pending[1..];
        if !isPlaying && |rest| < CUSHION - 1 {
          assert frame.isLast || HoldsLast(rest) <==> HoldsLast(was.pending) by {
            assert was.pending == [frame] + rest;
          }
          var whole := frame.isLast || exists i :: 0 <= i < |rest| && rest[i].isLast;
          if !whole {
            return Silent;
          }
        }
        pending, isPlaying, concealmentCount := rest, !frame.isLast, 0;
        return Decoded(frame);
      }
      if !isPlaying {
        return Silent;
      }
      if concealmentCount >= MAX_CONCEALMENT {
        isPlaying, concealmentCount := false, 0;
        return Silent;
      }
      concealmentCount := concealmentCount + 1;
      outcome := Concealed;
    }

    method TryProduceNextFrame() returns (ok: bool)
      requires Valid() && stereoFramePos == FRAME
      modifies this`pending, this`isPlaying, this`concealmentCount, this`stereoFrame, this`history, this`trace, this`produced
      ensures AlwaysFullFrames(synth) && |stereoFrame| == FRAME
      ensures trace.buf == Buffer(pending, isPlaying, concealmentCount) && trace.outcomes == history
      ensures ok == !Pulled(old(trace.buf), Active(states) != []).Silent?
      ensures View().(pos := if ok then 0 else FRAME) == Attempt(old(View()), states, synth)
    {
      var active := ActivePaths();
      var outcome := PullQueue(active != []);
      ok := !outcome.Silent?;
      if ok {
        stereoFrame := synth(history, active);
        produced := produced + [stereoFrame];
      }
    }

    /** Makes an attempt when the current frame is used up. */
    method Refresh() returns (ready: bool)
      requires Valid()
      modifies this
      ensures Valid() && states == old(states)
      ensures View() == Refreshed(old(View()), states, synth) && ready == (stereoFramePos < |stereoFrame|)
    {
      ready := true;
      if stereoFramePos >= |stereoFrame| {
        ready := TryProduceNextFrame();
        if ready {
          stereoFramePos := 0;
        }
      }
    }

    /** Copies what the current frame can give to a request for `wanted` samples. */
    method CopyOut(wanted: nat) returns (piece: seq<Stereo>)
      requires Valid()
      modifies this`stereoFramePos
      ensures Valid() && View() == Copy(old(View()), Portion(old(View()), wanted))
      ensures piece == stereoFrame[old(stereoFramePos)..stereoFramePos]
    {
      var availableFrames := |stereoFrame| - stereoFramePos;
      var toCopy := if availableFrames < wanted then availableFrames else wanted;
      piece := stereoFrame[stereoFramePos..stereoFramePos + toCopy];
      stereoFramePos := stereoFramePos + toCopy;
    }

    /** The next piece of a request: what the current frame has left, or silence for all of it. */
    method RenderPiece(wanted: nat) returns (piece: seq<Sample>)
      requires Valid() && wanted > 0
      modifies this
      ensures Valid() && states == old(states) && 0 < |piece| <= wanted
      ensures Render(old(View()), states, synth, wanted).0 == Render(View(), states, synth, wanted - |piece|).0
      ensures Render(old(View()), states, synth, wanted).1 == piece + Render(View(), states, synth, wanted - |piece|).1
    {
      RenderUnfolds(View(), states, synth, wanted);
      var ready := Refresh();
      if ready {
        var samples := CopyOut(wanted);
        piece := Voices(samples);
      } else {
        piece := Quiets(wanted);
      }
    }

    method RenderInto(frameCount: nat) returns (out: seq<Sample>)
      requires Valid()
      modifies this
      ensures Valid() && states == old(states)
      ensures View() == Render(old(View()), states, synth, frameCount).0
      ensures out == Render(old(View()), states, synth, frameCount).1
    {
      out := [];
      ghost var whole := Render(View(), states, synth, frameCount);
      var written := 0;
      while written < frameCount
        invariant Valid() && states == old(states) && written <= frameCount
        invariant whole.0 == Render(View(), states, synth, frameCount - written).0
        invariant whole.1 == out + Render(View(), states, synth, frameCount - written).1
      {
        var piece := RenderPiece(frameCount - written);
        Associative(out, piece, Render(View(), states, synth, frameCount - written - |piece|).1);
        out := out + piece;
        written := written + |piece|;
      }
    }
  }
}
