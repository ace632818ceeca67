/**
 Announcing what the local radio transmits: on every change, refreshed while active, and repeated a few
 times after it stops. One tick is one turn of the sender loop; times are milliseconds.
 */
module RadioSender {
  import opened Numbers
  import opened Pacing

  const REFRESH := 500
  const STOP_REPEATS := 2

  /** The local transmission as the game reports it. */
  datatype Local = Local(active: bool, freq: string, range: real, subtype: string)

  /** An announcement as it is handed to the network. */
  datatype Announcement = Announcement(at: int, active: bool, freq: string, range: int, subtype: string)

  datatype Sender = Sender(active: bool, freq: string, range: int, subtype: string, lastSend: int, repeatsLeft: nat)

  datatype Tick = Tick(local: Local, now: int)

  const IDLE := Sender(false, "", 0, "", 0, 0)

  function ClampRange(range: real): (r: int)
    ensures 0 <= r <= 65535
    ensures 0.0 <= range <= 65535.0 ==> r as real <= range < r as real + 1.0
    ensures (range < 0.0 ==> r == 0) && (range > 65535.0 ==> r == 65535)
  {
    if range < 0.0 then 0 else if range > 65535.0 then 65535 else range.Floor
  }

  predicate Changed(s: Sender, l: Local) {
    l.active != s.active || (l.active && (l.freq != s.freq || ClampRange(l.range) != s.range || l.subtype != s.subtype))
  }

  predicate Repeats(s: Sender, l: Local) { !Changed(s, l) && !l.active && s.repeatsLeft > 0 }

  predicate Sends(s: Sender, t: Tick) {
    Changed(s, t.local) || Repeats(s, t.local) || (t.local.active && t.now - s.lastSend >= REFRESH)
  }

  function Step(s: Sender, t: Tick): Sender {
    var left := if Changed(s, t.local) && !t.local.active then STOP_REPEATS
                else if Repeats(s, t.local) then s.repeatsLeft - 1
                else s.repeatsLeft;
    if Sends(s, t) then Sender(t.local.active, t.local.freq, ClampRange(t.local.range), t.local.subtype, t.now, left)
    else s.(repeatsLeft := left)
  }

  function Announce(t: Tick): Announcement {
    Announcement(t.now, t.local.active, t.local.freq, ClampRange(t.local.range), t.local.subtype)
  }

  function Run(s: Sender, ticks: seq<Tick>): Sender {
    if ticks == [] then s else Step(Run(s, ticks[..|ticks| - 1]), ticks[|ticks| - 1])
  }

  function Announced(s: Sender, ticks: seq<Tick>): seq<Announcement> {
    if ticks == [] then []
    else
      var n := |ticks| - 1;
      Announced(s, ticks[..n]) + (if Sends(Run(s, ticks[..n]), ticks[n]) then [Announce(ticks[n])] else [])
  }

  function Times(sent: seq<Announcement>): seq<int> { Dates(sent, (a: Announcement) => a.at) }

  function Clock(ticks: seq<Tick>): seq<int> { Dates(ticks, (t: Tick) => t.now) }

  ghost predicate AllActive(ticks: seq<Tick>) {
    forall k :: 0 <= k < |ticks| ==> ticks[k].local.active
  }

  ghost predicate AllInactive(ticks: seq<Tick>) {
    forall k :: 0 <= k < |ticks| ==> !ticks[k].local.active
  }

  lemma {:induction false} ActiveTick(s: Sender, t: Tick)
    requires t.local.active
    ensures Step(s, t).lastSend == (if Sends(s, t) then t.now else s.lastSend)
    ensures !Sends(s, t) ==> t.now - s.lastSend < REFRESH
  {
  }

  lemma {:induction false} TimesSnoc(sent: seq<Announcement>, a: Announcement)
    ensures Times(sent + [a]) == Times(sent) + [a.at]
  {
  }

  /** While active, announcements follow each other within the refresh interval and a tick, and all say so. */
  lemma {:induction false} RefreshedWhileActive(s: Sender, ticks: seq<Tick>, tick: nat)
    requires AllActive(ticks) && Spaced(Clock(ticks), s.lastSend, tick)
    ensures var sent := Announced(s, ticks);
            var now := Previous(Clock(ticks), s.lastSend, |ticks|);
            && Regular(Times(sent), s.lastSend, now, 500 + tick)
            && Run(s, ticks).lastSend == Previous(Times(sent), s.lastSend, |sent|)
            && now - Run(s, ticks).lastSend < 500
            && forall k :: 0 <= k < |sent| ==> sent[k].active
  {
    if ticks != [] {
      var n := |ticks| - 1;
      SpacedPrefix(Clock(ticks), s.lastSend, tick, n);
      assert Clock(ticks)[..n] == Clock(ticks[..n]);
      RefreshedWhileActive(s, ticks[..n], tick);
      assert Previous(Clock(ticks), s.lastSend, n) == Previous(Clock(ticks[..n]), s.lastSend, n);
      var sent := Announced(s, ticks[..n]);
      ActiveTick(Run(s, ticks[..n]), ticks[n]);
      if Sends(Run(s, ticks[..n]), ticks[n]) {
        TimesSnoc(sent, Announce(ticks[n]));
        RegularExtends(Times(sent), s.lastSend, Previous(Clock(ticks), s.lastSend, n), REFRESH + tick, ticks[n].now);
      } else {
        assert sent + [] == sent;
      }
    }
  }

  /** How many announcements an inactive sender still owes. */
  function Owed(s: Sender): nat { if s.active then 1 + STOP_REPEATS else s.repeatsLeft }

  /** Once inactive, the sender announces the stop on each of the next ticks until three are out, and then nothing at all. */
  lemma {:induction false} StopsThenSilent(s: Sender, ticks: seq<Tick>)
    requires AllInactive(ticks)
    ensures |Announced(s, ticks)| == Min(|ticks|, Owed(s))
    ensures ticks != [] ==> !Run(s, ticks).active && Run(s, ticks).repeatsLeft == Owed(s) - Min(|ticks|, Owed(s))
    ensures forall k :: 0 <= k < |Announced(s, ticks)| ==> Announced(s, ticks)[k].at == ticks[k].now && !Announced(s, ticks)[k].active
  {
    if ticks != [] {
      var n := |ticks| - 1;
      StopsThenSilent(s, ticks[..n]);
      assert n == 0 ==> Run(s, ticks[..n]) == s;
    }
  }

  // ---------------------------------------------------------------- exactly what is announced

  /** The announcement says what the local radio does. */
  ghost predicate SaysSo(a: Announcement, l: Local) {
    a.active == l.active && a.freq == l.freq && a.range == ClampRange(l.range) && a.subtype == l.subtype
  }

  /** How many stops the announcements end with. */
  function Stops(sent: seq<Announcement>): nat {
    if sent == [] || sent[|sent| - 1].active then 0 else 1 + Stops(sent[..|sent| - 1])
  }

  /** What the sender remembers is what it announced last. */
  ghost predicate Remembers(s: Sender, sent: seq<Announcement>) {
    if sent == [] then s == IDLE
    else
      var last := sent[|sent| - 1];
      && s.active == last.active && s.freq == last.freq && s.range == last.range && s.subtype == last.subtype && s.lastSend == last.at
      && Stops(sent) <= 3 && (!s.active ==> s.repeatsLeft == 3 - Stops(sent))
  }

  lemma {:induction false} TickRemembers(s: Sender, sent: seq<Announcement>, t: Tick)
    requires Remembers(s, sent)
    ensures Remembers(Step(s, t), if Sends(s, t) then sent + [Announce(t)] else sent)
  {
    assert (sent + [Announce(t)])[..|sent|] == sent;
  }

  lemma {:induction false} RunRemembers(ticks: seq<Tick>)
    ensures Remembers(Run(IDLE, ticks), Announced(IDLE, ticks))
  {
    if ticks != [] {
      var n := |ticks| - 1;
      RunRemembers(ticks[..n]);
      TickRemembers(Run(IDLE, ticks[..n]), Announced(IDLE, ticks[..n]), ticks[n]);
      assert Announced(IDLE, ticks[..n]) + [] == Announced(IDLE, ticks[..n]);
    }
  }

  /**
   Over every run, a tick announces what the local radio does, and nothing only if that is known already: while it
   transmits, if the last announcement says so and is less than 500 ms old; while it does not, if nothing was ever
   announced or three stops in a row were.
   */
  lemma {:induction false} AnnouncesIff(ticks: seq<Tick>, t: Tick)
    ensures var sent, all := Announced(IDLE, ticks), Announced(IDLE, ticks + [t]);
            var known := if t.local.active
                         then sent != [] && SaysSo(sent[|sent| - 1], t.local) && t.now - sent[|sent| - 1].at < 500
                         else sent == [] || Stops(sent) == 3;
            if known then all == sent
            else |all| == |sent| + 1 && all[..|sent|] == sent && all[|sent|].at == t.now && SaysSo(all[|sent|], t.local)
  {
    RunRemembers(ticks);
    assert (ticks + [t])[..|ticks|] == ticks;
    assert Announced(IDLE, ticks) + [] == Announced(IDLE, ticks);
  }

  /** After every tick the last announcement says what the local radio does; before the first it transmits nothing. */
  lemma {:induction false} UpToDate(ticks: seq<Tick>, t: Tick)
    ensures var all := Announced(IDLE, ticks + [t]);
            if all == [] then !t.local.active
            else if t.local.active then SaysSo(all[|all| - 1], t.local) else !all[|all| - 1].active
  {
    AnnouncesIff(ticks, t);
  }

  /** The loop's announcing half, with what it has sent. */
  class RadioAnnouncer {
    var sentActive: bool
    var sentFreq: string
    var sentRange: int
    var sentSubtype: string
    var lastSend: int
    var inactiveRepeatsLeft: nat
    var announced: seq<Announcement>

    ghost function View(): Sender
      reads this
    {
      Sender(sentActive, sentFreq, sentRange, sentSubtype, lastSend, inactiveRepeatsLeft)
    }

    constructor ()
      ensures View() == IDLE && announced == []
    {
      sentActive, sentFreq, sentRange, sentSubtype := false, "", 0, "";
      lastSend, inactiveRepeatsLeft, announced := 0, 0, [];
    }

    method OnTick(local: Local, now: int)
      modifies this
      ensures View() == Step(old(View()), Tick(local, now))
      ensures announced == old(announced) + if Sends(old(View()), Tick(local, now)) then [Announce(Tick(local, now))] else []
    {
      var clampedRange := ClampRange(local.range);
      var changed := local.active != sentActive ||
                     (local.active && (local.freq != sentFreq || clampedRange != sentRange || local.subtype != sentSubtype));
      var send := changed;
      if changed && !local.active {
        inactiveRepeatsLeft := STOP_REPEATS;
      }
      if !send && !local.active && inactiveRepeatsLeft > 0 {
        inactiveRepeatsLeft := inactiveRepeatsLeft - 1;
        send := true;
      }
      if !send && local.active && now - lastSend >= REFRESH {
        send := true;
      }
      if send {
        announced := announced + [Announcement(now, local.active, local.freq, clampedRange, local.subtype)];
        sentActive, sentFreq, sentSubtype, sentRange, lastSend := local.active, local.freq, local.subtype, clampedRange, now;
      }
    }
  }
}
