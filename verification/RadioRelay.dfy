/**
 A radio transmission from the sender's tick to the receiver's: no dropout although announcements are lost.
 */
module RadioRelay {
  import opened Pacing
  import opened Wrappers
  import opened RadioReceiver
  import RadioSender

  /** A local transmission that goes on. */
  ghost predicate Talks(ticks: seq<RadioSender.Tick>) {
    forall k :: 0 <= k < |ticks| ==> ticks[k].local.active && ticks[k].local.freq != ""
  }

  /** Every announcement that arrived before a tick was handed over before it, and none other of the session was. */
  ghost predicate Carries(sent: seq<Announcement>, arrivals: seq<Option<int>>, events: seq<Event>, session: nat, uid: string)
    requires |arrivals| == |sent|
  {
    && (forall k, j :: 0 <= k < |sent| && 0 <= j < |events| && arrivals[k].Some? && events[j].Poll? && arrivals[k].value < events[j].now ==>
          HandedOver(events, j, Deliver(session, uid, sent[k], arrivals[k].value)))
    && (forall j :: 0 <= j < |events| && events[j].Deliver? && events[j].session == session ==>
          events[j].uid == uid && events[j].a in sent)
  }

  ghost predicate HandedOver(events: seq<Event>, j: nat, e: Event)
    requires j <= |events|
  {
    exists i :: 0 <= i < j && events[i] == e
  }

  lemma {:induction false} AnnouncesTalk(s: RadioSender.Sender, ticks: seq<RadioSender.Tick>)
    requires Talks(ticks)
    ensures forall a :: a in RadioSender.Announced(s, ticks) ==> a.active && a.freq != ""
  {
    if ticks != [] {
      AnnouncesTalk(s, ticks[..|ticks| - 1]);
    }
  }

  /** A delivery stays recent as the run goes on. */
  lemma {:induction false} LastHeardGrows(events: seq<Event>, session: nat, from: int, n: nat)
    requires n <= |events|
    requires forall k :: 0 <= k < |events| ==> Clocked(events[k]) && LastHeard(events[..k], session, from) <= At(events[k])
    ensures LastHeard(events[..n], session, from) >= from
    ensures forall i :: 0 <= i < n && events[i].Deliver? && events[i].session == session ==>
                          LastHeard(events[..n], session, from) >= events[i].at
  {
    if n > 0 {
      LastHeardGrows(events, session, from, n - 1);
      assert events[..n][..n - 1] == events[..n - 1];
      assert LastHeard(events[..n - 1], session, from) <= At(events[n - 1]);
    }
  }

  /** How long a receiver goes without an announcement of which one in every `window` arrives. */
  lemma {:induction false} HeardBefore(s: RadioSender.Sender, ticks: seq<RadioSender.Tick>, sendTick: nat, arrivals: seq<Option<int>>,
                    delay: int, jitter: nat, window: nat, events: seq<Event>, session: nat, uid: string, from: int, j: nat)
    requires Talks(ticks) && Spaced(RadioSender.Clock(ticks), s.lastSend, sendTick) && window > 0
    requires var sent := RadioSender.Announced(s, ticks);
             Delivered(RadioSender.Times(sent), arrivals, delay, jitter, window) && Carries(sent, arrivals, events, session, uid)
    requires s.lastSend + delay <= from
    requires forall k :: 0 <= k < |events| ==> Clocked(events[k]) && LastHeard(events[..k], session, from) <= At(events[k])
    requires j < |events| && events[j].Poll? && events[j].now <= Previous(RadioSender.Clock(ticks), s.lastSend, |ticks|) + delay
    ensures events[j].now <= LastHeard(events[..j], session, from) + window * (RadioSender.REFRESH + sendTick) + jitter
  {
    var sent := RadioSender.Announced(s, ticks);
    RadioSender.RefreshedWhileActive(s, ticks, sendTick);
    var k := HeardWithin(RadioSender.Times(sent), arrivals, s.lastSend, Previous(RadioSender.Clock(ticks), s.lastSend, |ticks|),
                         RadioSender.REFRESH + sendTick, delay, jitter, window, events[j].now - 1);
    LastHeardGrows(events, session, from, j);
    if k >= 0 {
      assert HandedOver(events, j, Deliver(session, uid, sent[k], arrivals[k].value));
    }
  }

  /**
   No dropout end to end. From the first delivered announcement on, while the sender keeps transmitting, its
   name counts at every receiver tick: of any `window` announcements in a row one must arrive, and `window`
   refresh intervals with their ticks, the jitter and one receiver tick must fit into the two expiries.
   */
  lemma {:induction false} NoDropout(s: RadioSender.Sender, ticks: seq<RadioSender.Tick>, sendTick: nat, arrivals: seq<Option<int>>,
                  delay: int, jitter: nat, window: nat,
                  r: Receiver, events: seq<Event>, session: nat, uid: string, name: string, from: int, tick: nat)
    requires Talks(ticks) && Spaced(RadioSender.Clock(ticks), s.lastSend, sendTick) && window > 0
    requires var sent := RadioSender.Announced(s, ticks);
             Delivered(RadioSender.Times(sent), arrivals, delay, jitter, window) && Carries(sent, arrivals, events, session, uid)
    requires s.lastSend + delay <= from
    requires session in r.cache && r.cache[session].uid == uid && r.cache[session].freq != "" && r.cache[session].receivedAt == from
    requires uid != "" && name != "" && Attends(r, events, session, uid, name, from, tick)
    requires forall j :: 0 <= j < |events| && events[j].Poll? ==>
                           events[j].now <= Previous(RadioSender.Clock(ticks), s.lastSend, |ticks|) + delay
    requires tick < TX_EXPIRY && window * (RadioSender.REFRESH + sendTick) + jitter < 2 * TX_EXPIRY - tick
    ensures events != [] && events[|events| - 1].Poll? ==> name in Talking(Run(r, events), events[|events| - 1].now)
  {
    AnnouncesTalk(s, ticks);
    forall j | 0 <= j < |events| && events[j].Poll?
      ensures events[j].now < LastHeard(events[..j], session, from) + 2 * TX_EXPIRY - tick
    {
      HeardBefore(s, ticks, sendTick, arrivals, delay, jitter, window, events, session, uid, from, j);
    }
    assert KeepsHearing(events, session, uid, from, 2 * TX_EXPIRY - tick);
    CountsWhileHeard(r, events, session, uid, name, from, tick);
  }

  /** With a constant delay and ticks at most 83 ms apart, any four announcements in a row may be lost. */
  lemma {:induction false} FourMayBeLost(s: RadioSender.Sender, ticks: seq<RadioSender.Tick>, arrivals: seq<Option<int>>, delay: int,
                      r: Receiver, events: seq<Event>, session: nat, uid: string, name: string, from: int)
    requires Talks(ticks) && Spaced(RadioSender.Clock(ticks), s.lastSend, 83)
    requires var sent := RadioSender.Announced(s, ticks);
             Delivered(RadioSender.Times(sent), arrivals, delay, 0, 5) && Carries(sent, arrivals, events, session, uid)
    requires s.lastSend + delay <= from
    requires session in r.cache && r.cache[session].uid == uid && r.cache[session].freq != "" && r.cache[session].receivedAt == from
    requires uid != "" && name != "" && Attends(r, events, session, uid, name, from, 83)
    requires forall j :: 0 <= j < |events| && events[j].Poll? ==>
                           events[j].now <= Previous(RadioSender.Clock(ticks), s.lastSend, |ticks|) + delay
    ensures events != [] && events[|events| - 1].Poll? ==> name in Talking(Run(r, events), events[|events| - 1].now)
  {
    NoDropout(s, ticks, 83, arrivals, delay, 0, 5, r, events, session, uid, name, from, 83);
  }
}
