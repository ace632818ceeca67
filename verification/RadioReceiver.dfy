/**
 Who is transmitting, as one client sees it: a cache of announcements that expires after 1500 ms, copied
 on every tick into the audibility state, which expires after 1500 ms of its own.

 A tick reads the clock once. The order in which the cache is enumerated is an input, and so are the
 reported uids and the known clients.
 */
module RadioReceiver {
  import opened Pacing
  import opened Wrappers
  import RadioSender

  type Announcement = RadioSender.Announcement

  const TX_EXPIRY := 1500

  datatype Entry = Entry(uid: string, freq: string, range: int, subtype: string, receivedAt: int)

  datatype Remote = Remote(freq: string, range: int, subtype: string, received: int)

  /** Cached announcements by session, and transmissions by name. */
  datatype Receiver = Receiver(cache: map<nat, Entry>, remote: map<string, Remote>)

  /** The uids reported for names, the order in which the names are visited, and the known clients. */
  datatype Directory = Directory(uids: map<string, string>, visit: seq<string>, clients: set<string>)

  datatype Event =
    | Deliver(session: nat, uid: string, a: Announcement, at: int)   // uid "" when the session is not in the roster
    | Poll(now: int, order: seq<nat>, names: Directory)
    | Disconnected
    | MissionEnd

  const NOTHING := Receiver(map[], map[])

  function OnRadioTx(cache: map<nat, Entry>, session: nat, uid: string, a: Announcement, at: int): map<nat, Entry> {
    if uid == "" then cache
    else if a.active then cache[session := Entry(uid, a.freq, a.range, a.subtype, at)]
    else cache - {session}
  }

  /** A start or end beep to be played in front of a session's voice. */
  datatype Cue = Cue(session: nat, subtype: string, start: bool)

  /** Only a change between active and inactive is cued; the end cue is that of the cached subtype. */
  function CueOf(cache: map<nat, Entry>, session: nat, uid: string, a: Announcement): Option<Cue> {
    if uid == "" then None
    else if a.active && session !in cache then Some(Cue(session, a.subtype, true))
    else if !a.active && session in cache then Some(Cue(session, cache[session].subtype, false))
    else None
  }

  predicate Fresh(e: Entry, now: int) { now - e.receivedAt < TX_EXPIRY }

  /** The unexpired entries of the listed sessions. */
  function Current(cache: map<nat, Entry>, order: seq<nat>, now: int): seq<Entry> {
    if order == [] then []
    else
      var i := order[|order| - 1];
      Current(cache, order[..|order| - 1], now) + (if i in cache && Fresh(cache[i], now) then [cache[i]] else [])
  }

  /** The first name, in the order of visits, that was reported with the uid; "" if none was. */
  function FirstNamed(uids: map<string, string>, visit: seq<string>, uid: string): string {
    if visit == [] then ""
    else
      var before := FirstNamed(uids, visit[..|visit| - 1], uid);
      var n := visit[|visit| - 1];
      if before == "" && n in uids && uids[n] == uid then n else before
  }

  /** The name a transmission is filed under: a reported one, or the uid itself if that is a client's nickname. */
  function NameOf(d: Directory, uid: string): string {
    var name := FirstNamed(d.uids, d.visit, uid);
    if uid == "" then "" else if name != "" then name else if uid in d.clients then uid else ""
  }

  function SetRemote(remote: map<string, Remote>, name: string, e: Entry, now: int): map<string, Remote> {
    if name == "" then remote
    else if e.freq == "" then remote - {name}
    else remote[name := Remote(e.freq, e.range, e.subtype, now)]
  }

  function Forward(remote: map<string, Remote>, heard: seq<Entry>, names: Directory, now: int): map<string, Remote> {
    if heard == [] then remote
    else
      var e := heard[|heard| - 1];
      SetRemote(Forward(remote, heard[..|heard| - 1], names, now), NameOf(names, e.uid), e, now)
  }

  function Step(r: Receiver, e: Event): Receiver {
    match e
    case Deliver(session, uid, a, at) => r.(cache := OnRadioTx(r.cache, session, uid, a, at))
    case Poll(now, order, names) => r.(remote := Forward(r.remote, Current(r.cache, order, now), names, now))
    case Disconnected => r.(cache := map[])
    case MissionEnd => r.(remote := map[])
  }

  function Run(r: Receiver, events: seq<Event>): Receiver {
    if events == [] then r else Step(Run(r, events[..|events| - 1]), events[|events| - 1])
  }

  /** Whether a name counts as transmitting at a time. */
  predicate Counts(r: Receiver, name: string, now: int) {
    name in r.remote && now - r.remote[name].received < TX_EXPIRY
  }

  /** The talking set is rebuilt from nothing on every tick. */
  function Talking(r: Receiver, now: int): (names: set<string>)
    ensures forall n :: n in names <==> Counts(r, n, now)
  {
    set n | n in r.remote && now - r.remote[n].received < TX_EXPIRY
  }

  predicate Clocked(e: Event) { e.Deliver? || e.Poll? }

  function At(e: Event): int
    requires Clocked(e)
  {
    if e.Deliver? then e.at else e.now
  }

  /** The clock does not go back. */
  ghost predicate Timely(events: seq<Event>) {
    forall i, j :: 0 <= i <= j < |events| && Clocked(events[i]) && Clocked(events[j]) ==> At(events[i]) <= At(events[j])
  }

  lemma {:induction false} CurrentIff(cache: map<nat, Entry>, order: seq<nat>, now: int, e: Entry)
    ensures e in Current(cache, order, now) <==> exists i :: i in order && i in cache && cache[i] == e && Fresh(e, now)
  {
    if order != [] {
      var n := |order| - 1;
      CurrentIff(cache, order[..n], now, e);
      assert order == order[..n] + [order[n]];
    }
  }

  /** One session after the other, and of each the entry if it is less than 1500 ms old. */
  lemma {:induction false} CurrentInOrder(cache: map<nat, Entry>, order: seq<nat>, i: nat, now: int)
    ensures Current(cache, [], now) == []
    ensures Current(cache, order + [i], now) ==
            Current(cache, order, now) + if i in cache && now - cache[i].receivedAt < 1500 then [cache[i]] else []
  {
    assert (order + [i])[..|order|] == order;
  }

  /** The uid was reported for the name visited at `j`, and for none visited before. */
  ghost predicate FoundAt(uids: map<string, string>, visit: seq<string>, uid: string, j: nat) {
    && j < |visit| && visit[j] in uids && uids[visit[j]] == uid
    && forall i :: 0 <= i < j ==> !(visit[i] in uids && uids[visit[i]] == uid)
  }

  /** The first name in the order of visits is found, if there is one. */
  lemma {:induction false} FirstNamedIff(uids: map<string, string>, visit: seq<string>, uid: string)
    requires "" !in uids
    ensures var n := FirstNamed(uids, visit, uid);
            && (n != "" <==> exists k :: k in visit && k in uids && uids[k] == uid)
            && (n != "" ==> exists j: nat :: FoundAt(uids, visit, uid, j) && n == visit[j])
  {
    if visit != [] {
      var m := |visit| - 1;
      FirstNamedIff(uids, visit[..m], uid);
      assert visit == visit[..m] + [visit[m]];
      if FirstNamed(uids, visit[..m], uid) != "" {
        var j: nat :| FoundAt(uids, visit[..m], uid, j) && FirstNamed(uids, visit[..m], uid) == visit[j];
        assert FoundAt(uids, visit, uid, j);
      } else if visit[m] in uids && uids[visit[m]] == uid {
        assert FoundAt(uids, visit, uid, m);
      }
    }
  }

  /**
   A uid resolves if and only if it was reported for some name or is a client's nickname; to a name it was
   reported for if there is one, and otherwise to itself.
   */
  lemma {:induction false} NameOfIff(d: Directory, uid: string)
    requires "" !in d.uids && uid != "" && forall k :: k in d.uids ==> k in d.visit
    ensures NameOf(d, uid) != "" <==> (exists k :: k in d.uids && d.uids[k] == uid) || uid in d.clients
    ensures NameOf(d, uid) != "" ==>
              (NameOf(d, uid) in d.uids && d.uids[NameOf(d, uid)] == uid) ||
              (NameOf(d, uid) == uid && forall k :: k in d.uids ==> d.uids[k] != uid)
  {
    FirstNamedIff(d.uids, d.visit, uid);
  }

  /** The last entry filed under a name. */
  function LastFor(heard: seq<Entry>, names: Directory, name: string): Option<Entry> {
    if heard == [] then None
    else
      var e := heard[|heard| - 1];
      if NameOf(names, e.uid) == name then Some(e) else LastFor(heard[..|heard| - 1], names, name)
  }

  lemma {:induction false} LastForIff(heard: seq<Entry>, names: Directory, name: string)
    ensures LastFor(heard, names, name).Some? <==> exists e :: e in heard && NameOf(names, e.uid) == name
    ensures LastFor(heard, names, name).Some? ==>
              LastFor(heard, names, name).value in heard && NameOf(names, LastFor(heard, names, name).value.uid) == name
  {
    if heard != [] {
      var n := |heard| - 1;
      LastForIff(heard[..n], names, name);
      assert heard == heard[..n] + [heard[n]];
    }
  }

  /** Forwarding leaves a name as the last entry filed under it says, dated now, and alone if there is none. */
  lemma {:induction false} ForwardIs(remote: map<string, Remote>, heard: seq<Entry>, names: Directory, now: int, n: string)
    requires n != ""
    ensures var after := Forward(remote, heard, names, now);
            var last := LastFor(heard, names, n);
            if last.None? then (n in after <==> n in remote) && (n in after ==> after[n] == remote[n])
            else if last.value.freq == "" then n !in after
            else n in after && after[n] == Remote(last.value.freq, last.value.range, last.value.subtype, now)
  {
    if heard != [] {
      ForwardIs(remote, heard[..|heard| - 1], names, now, n);
    }
  }

  /** Nothing is ever filed under an empty name. */
  lemma {:induction false} NamesResolve(remote: map<string, Remote>, heard: seq<Entry>, names: Directory, now: int)
    ensures "" in Forward(remote, heard, names, now) ==> "" in remote && Forward(remote, heard, names, now)[""] == remote[""]
  {
    if heard != [] {
      NamesResolve(remote, heard[..|heard| - 1], names, now);
    }
  }

  // ---------------------------------------------------------------- staleness

  /** Event `k` is the active announcement that made session `i`'s cache entry. */
  ghost predicate Made(events: seq<Event>, k: nat, i: nat, e: Entry) {
    && k < |events| && events[k].Deliver? && events[k].a.active
    && events[k].session == i && events[k].uid == e.uid && events[k].at == e.receivedAt
  }

  /**
   The tick at `p` filed under `name`, dated `received`, what event `k` announced less than 1500 ms before:
   the uid it came with resolves to the name at that tick.
   */
  ghost predicate Filed(events: seq<Event>, k: nat, p: nat, name: string, received: int) {
    && k < p < |events| && events[p].Poll? && events[p].now == received
    && events[k].Deliver? && events[k].a.active && NameOf(events[p].names, events[k].uid) == name
    && received - 1500 < events[k].at <= received
  }

  /** Cache entries come from active announcements, transmissions from ticks that filed one. */
  ghost predicate Dated(events: seq<Event>) {
    var r := Run(NOTHING, events);
    && (forall i :: i in r.cache ==> exists k :: Made(events, k, i, r.cache[i]))
    && (forall n :: n in r.remote ==> n != "" && exists k, p :: Filed(events, k, p, n, r.remote[n].received))
  }

  lemma {:induction false} LaterToo(events: seq<Event>, e: Event)
    ensures forall k, i, x :: Made(events, k, i, x) ==> Made(events + [e], k, i, x)
    ensures forall k, p, n, at :: Filed(events, k, p, n, at) ==> Filed(events + [e], k, p, n, at)
  {
    assert forall k :: 0 <= k < |events| ==> (events + [e])[k] == events[k];
  }

  lemma {:induction false} RunDated(events: seq<Event>)
    requires Timely(events)
    ensures Dated(events)
  {
    if events != [] {
      var n := |events| - 1;
      var e := events[n];
      RunDated(events[..n]);
      assert events == events[..n] + [e];
      LaterToo(events[..n], e);
      match e
      case Poll(now, order, names) => PollDated(events, now, order, names);
      case Deliver(session, uid, a, at) =>
        if uid != "" && a.active {
          assert Made(events, n, session, Entry(uid, a.freq, a.range, a.subtype, at));
        }
      case _ =>
    }
  }

  /** A name a tick refreshes was announced less than 1500 ms before that tick. */
  lemma {:induction false} FiledFromCache(events: seq<Event>, e: Entry) returns (k: nat)
    requires events != [] && events[|events| - 1].Poll? && Timely(events)
    requires Dated(events[..|events| - 1])
    requires var n := |events| - 1; e in Current(Run(NOTHING, events[..n]).cache, events[n].order, events[n].now)
    ensures var n := |events| - 1; Filed(events, k, n, NameOf(events[n].names, e.uid), events[n].now)
  {
    var n := |events| - 1;
    var cache := Run(NOTHING, events[..n]).cache;
    CurrentIff(cache, events[n].order, events[n].now, e);
    var i :| i in cache && cache[i] == e && Fresh(e, events[n].now);
    k :| Made(events[..n], k, i, e);
    assert At(events[k]) <= At(events[n]);
  }

  lemma {:induction false} PollDated(events: seq<Event>, now: int, order: seq<nat>, names: Directory)
    requires events != [] && events[|events| - 1] == Poll(now, order, names)
    requires Timely(events) && Dated(events[..|events| - 1])
    ensures Dated(events)
  {
    var n := |events| - 1;
    var r, u := Run(NOTHING, events[..n]), Run(NOTHING, events);
    assert events == events[..n] + [events[n]];
    LaterToo(events[..n], events[n]);
    var heard := Current(r.cache, order, now);
    NamesResolve(r.remote, heard, names, now);
    forall name | name in u.remote
      ensures name != "" && exists k, p :: Filed(events, k, p, name, u.remote[name].received)
    {
      LastForIff(heard, names, name);
      ForwardIs(r.remote, heard, names, now, name);
      if exists e :: e in heard && NameOf(names, e.uid) == name {
        var e :| e in heard && NameOf(names, e.uid) == name;
        var k := FiledFromCache(events, e);
      }
    }
  }

  /**
   Staleness: over every run, a name counts only if an active announcement, of a uid that resolved to that
   name, was delivered less than 3000 ms before, and less than 1500 ms before the tick that filed it.
   */
  lemma {:induction false} CountsOnlyIfHeard(events: seq<Event>, name: string, now: int) returns (k: nat, p: nat)
    requires Timely(events) && Counts(Run(NOTHING, events), name, now)
    ensures Filed(events, k, p, name, Run(NOTHING, events).remote[name].received)
    ensures now - 3000 < events[k].at
  {
    RunDated(events);
    k, p :| Filed(events, k, p, name, Run(NOTHING, events).remote[name].received);
  }

  // ---------------------------------------------------------------- exactly when a name counts

  /** What a session's announcements leave cached; nothing once it stopped or the connection was lost. */
  function Announced(events: seq<Event>, session: nat): Option<Entry> {
    if events == [] then None
    else
      var n := |events| - 1;
      match events[n]
      case Deliver(i, uid, a, at) =>
        if i == session && uid != "" then (if a.active then Some(Entry(uid, a.freq, a.range, a.subtype, at)) else None)
        else Announced(events[..n], session)
      case Disconnected => None
      case _ => Announced(events[..n], session)
  }

  lemma {:induction false} CachedIff(events: seq<Event>, session: nat)
    ensures var cache := Run(NOTHING, events).cache;
            && (session in cache <==> Announced(events, session).Some?)
            && (session in cache ==> cache[session] == Announced(events, session).value)
  {
    if events != [] {
      CachedIff(events[..|events| - 1], session);
    }
  }

  /** What the tick at `p` forwards last under a name. */
  function FiledAt(events: seq<Event>, p: nat, name: string): Option<Entry>
    requires p < |events| && events[p].Poll?
  {
    LastFor(Current(Run(NOTHING, events[..p]).cache, events[p].order, events[p].now), events[p].names, name)
  }

  predicate Files(events: seq<Event>, p: nat, name: string)
    requires p < |events|
  {
    events[p].Poll? && FiledAt(events, p, name).Some? && FiledAt(events, p, name).value.freq != ""
  }

  predicate Drops(events: seq<Event>, p: nat, name: string)
    requires p < |events|
  {
    events[p].MissionEnd? || (events[p].Poll? && FiledAt(events, p, name).Some? && FiledAt(events, p, name).value.freq == "")
  }

  /** At the tick `p` the session is listed, and its last announcement is active, unexpired and of a uid that resolves to the name. */
  predicate Backs(events: seq<Event>, p: nat, session: nat, name: string)
    requires p < |events| && events[p].Poll?
  {
    var said := Announced(events[..p], session);
    session in events[p].order && said.Some? && events[p].now - said.value.receivedAt < 1500 && NameOf(events[p].names, said.value.uid) == name
  }

  /** What a tick forwards under a name is what some session that backs it announced. */
  lemma {:induction false} FiledAtIff(events: seq<Event>, p: nat, name: string)
    requires p < |events| && events[p].Poll?
    ensures FiledAt(events, p, name).Some? <==> exists i :: Backs(events, p, i, name)
    ensures FiledAt(events, p, name).Some? ==>
              exists i :: Backs(events, p, i, name) && Announced(events[..p], i) == FiledAt(events, p, name)
  {
    var cache, order, now, names := Run(NOTHING, events[..p]).cache, events[p].order, events[p].now, events[p].names;
    var heard := Current(cache, order, now);
    LastForIff(heard, names, name);
    if FiledAt(events, p, name).Some? {
      CurrentIff(cache, order, now, FiledAt(events, p, name).value);
      var i :| i in order && i in cache && cache[i] == FiledAt(events, p, name).value;
      CachedIff(events[..p], i);
      assert Backs(events, p, i, name);
    }
    forall i | Backs(events, p, i, name)
      ensures exists e :: e in heard && NameOf(names, e.uid) == name
    {
      CachedIff(events[..p], i);
      CurrentIff(cache, order, now, cache[i]);
      assert cache[i] in heard;
    }
  }

  /**
   Unless something under the name lacks a frequency, a tick files the name if and only if some listed session,
   announced as active less than 1500 ms before and not stopped since, resolves to it.
   */
  lemma {:induction false} FilesIff(events: seq<Event>, p: nat, name: string)
    requires p < |events| && events[p].Poll?
    requires forall i :: Backs(events, p, i, name) ==> Announced(events[..p], i).value.freq != ""
    ensures Files(events, p, name) <==> exists i :: Backs(events, p, i, name)
  {
    FiledAtIff(events, p, name);
  }

  /** When a name was last filed, if it was not dropped since. */
  function LastFiling(events: seq<Event>, name: string): Option<int> {
    if events == [] then None
    else
      var n := |events| - 1;
      if Drops(events, n, name) then None
      else if Files(events, n, name) then Some(events[n].now)
      else LastFiling(events[..n], name)
  }

  lemma {:induction false} DatedByLastFiling(events: seq<Event>, name: string)
    requires name != ""
    ensures var remote := Run(NOTHING, events).remote;
            && (name in remote <==> LastFiling(events, name).Some?)
            && (name in remote ==> remote[name].received == LastFiling(events, name).value)
  {
    if events != [] {
      var n := |events| - 1;
      DatedByLastFiling(events[..n], name);
      if events[n].Poll? {
        var r := Run(NOTHING, events[..n]);
        ForwardIs(r.remote, Current(r.cache, events[n].order, events[n].now), events[n].names, events[n].now, name);
      }
    }
  }

  lemma {:induction false} SameTick(events: seq<Event>, n: nat, j: nat, name: string)
    requires j < n <= |events|
    ensures Drops(events[..n], j, name) == Drops(events, j, name) && Files(events[..n], j, name) == Files(events, j, name)
  {
    assert events[..n][..j] == events[..j];
  }

  lemma {:induction false} LastFilingAt(events: seq<Event>, name: string) returns (p: nat)
    requires LastFiling(events, name).Some?
    ensures p < |events| && Files(events, p, name) && events[p].now == LastFiling(events, name).value
    ensures forall j :: p < j < |events| ==> !Drops(events, j, name)
  {
    var n := |events| - 1;
    if Files(events, n, name) {
      p := n;
    } else {
      p := LastFilingAt(events[..n], name);
      SameTick(events, n, p, name);
      forall j | p < j < n
        ensures !Drops(events, j, name)
      {
        SameTick(events, n, j, name);
      }
    }
  }

  lemma {:induction false} LastFilingLatest(events: seq<Event>, name: string, p: nat)
    requires Timely(events) && p < |events| && Files(events, p, name)
    requires forall j :: p < j < |events| ==> !Drops(events, j, name)
    ensures LastFiling(events, name).Some? && LastFiling(events, name).value >= events[p].now
  {
    var n := |events| - 1;
    if Files(events, n, name) {
      assert At(events[p]) <= At(events[n]);
    } else {
      SameTick(events, n, p, name);
      forall j | p < j < n
        ensures !Drops(events[..n], j, name)
      {
        SameTick(events, n, j, name);
      }
      LastFilingLatest(events[..n], name, p);
    }
  }

  /** A tick at `p` keeps the name counted until `now`. */
  ghost predicate Supports(events: seq<Event>, p: nat, name: string, now: int) {
    && p < |events| && Files(events, p, name) && now - events[p].now < 1500
    && forall j :: p < j < |events| ==> !Drops(events, j, name)
  }

  /**
   Over every run, a name counts at a time if and only if some tick less than 1500 ms before filed it, and
   neither the mission's end nor an entry without frequency has dropped it since.
   */
  lemma {:induction false} CountsIff(events: seq<Event>, name: string, now: int)
    requires Timely(events) && name != ""
    ensures name in Talking(Run(NOTHING, events), now) <==> exists p :: Supports(events, p, name, now)
  {
    DatedByLastFiling(events, name);
    if name in Talking(Run(NOTHING, events), now) {
      var p := LastFilingAt(events, name);
      assert Supports(events, p, name, now);
    }
    if exists p :: Supports(events, p, name, now) {
      var p :| Supports(events, p, name, now);
      LastFilingLatest(events, name, p);
    }
  }

  // ---------------------------------------------------------------- when a stop is respected

  /** Event `k` is a stop of the session, and no active announcement of it is taken since. */
  ghost predicate Stopped(events: seq<Event>, k: nat, session: nat) {
    && k < |events| && events[k].Deliver? && events[k].session == session && events[k].uid != "" && !events[k].a.active
    && forall j :: k < j < |events| && events[j].Deliver? && events[j].session == session && events[j].uid != "" ==>
                     !events[j].a.active
  }

  /** Nothing of a stopped session is cached. */
  lemma {:induction false} StoppedSilent(events: seq<Event>, k: nat, session: nat)
    requires Stopped(events, k, session)
    ensures Announced(events, session).None?
  {
    var n := |events| - 1;
    if k < n {
      StoppedSilent(events[..n], k, session);
    }
  }

  /** The name was last filed by a tick after event `k`, for another session than `session`. */
  ghost predicate OtherKeeps(events: seq<Event>, k: nat, p: nat, session: nat, name: string, now: int) {
    && k < p && Supports(events, p, name, now)
    && exists i :: i != session && Backs(events, p, i, name) && Announced(events[..p], i) == FiledAt(events, p, name)
  }

  /**
   A stop is respected unless somebody else speaks up: from 1500 ms after it on, a name counts if and only if a
   tick since the stop filed under it what another session, not stopped or expired at that tick, had announced.
   */
  lemma {:induction false} StopIff(events: seq<Event>, k: nat, session: nat, name: string, now: int)
    requires Timely(events) && name != "" && Stopped(events, k, session) && now >= events[k].at + 1500
    ensures name in Talking(Run(NOTHING, events), now) <==> exists p :: OtherKeeps(events, k, p, session, name, now)
  {
    CountsIff(events, name, now);
    forall p: nat | Supports(events, p, name, now)
      ensures OtherKeeps(events, k, p, session, name, now)
    {
      FiledAtIff(events, p, name);
      assert Stopped(events[..p], k, session);
      StoppedSilent(events[..p], k, session);
    }
  }

  /** If since the stop no tick finds another session behind the name, the name does not count from 1500 ms on. */
  lemma {:induction false} StopRespected(events: seq<Event>, k: nat, session: nat, name: string, now: int)
    requires Timely(events) && name != "" && Stopped(events, k, session) && now >= events[k].at + 1500
    requires forall p, i :: k < p < |events| && events[p].Poll? && i != session ==> !Backs(events, p, i, name)
    ensures name !in Talking(Run(NOTHING, events), now)
  {
    StopIff(events, k, session, name, now);
  }

  /** A departure leaves the cache alone: one who comes back as session 2 and stops is kept talking by session 1's entry. */
  function CameBack(names: Directory): seq<Event> {
    [Deliver(1, "u", RadioSender.Announcement(990, true, "50", 100, "digital"), 1000),
     Deliver(2, "u", RadioSender.Announcement(991, false, "", 0, ""), 1001),
     Poll(2499, [1], names), Poll(2501, [1], names)]
  }

  lemma {:induction false} StopIgnored(names: Directory)
    requires NameOf(names, "u") != ""
    ensures Timely(CameBack(names)) && Stopped(CameBack(names), 1, 2)
    ensures 2501 >= CameBack(names)[1].at + 1500
    ensures NameOf(names, "u") in Talking(Run(NOTHING, CameBack(names)), 2501)
  {
    var events, name := CameBack(names), NameOf(names, "u");
    var a := Deliver(1, "u", RadioSender.Announcement(990, true, "50", 100, "digital"), 1000);
    assert events[..2][..1][..0] == [] && events[..2] == [a, events[1]] && events[..2][..1] == [a];
    assert Announced([a], 1) == Some(Entry("u", "50", 100, "digital", 1000));
    assert Announced(events[..2], 1) == Announced([a], 1);
    assert Backs(events, 2, 1, name);
    forall i | Backs(events, 2, i, name)
      ensures i == 1
    {
    }
    FilesIff(events, 2, name);
    assert !Drops(events, 3, name) by {
      assert events[..3] == events[..2] + [events[2]] && Announced(events[..3], 1) == Announced(events[..2], 1);
      forall i | Backs(events, 3, i, name)
        ensures i == 1
      {
      }
      FiledAtIff(events, 3, name);
    }
    assert Supports(events, 2, name, 2501);
    CountsIff(events, name, 2501);
  }

  // ---------------------------------------------------------------- cues

  /** The cues of a session since the connection was last lost. */
  function Cues(events: seq<Event>, session: nat): seq<Cue> {
    if events == [] then []
    else
      var n := |events| - 1;
      match events[n]
      case Disconnected => []
      case Deliver(i, uid, a, _) =>
        var cue := CueOf(Run(NOTHING, events[..n]).cache, i, uid, a);
        Cues(events[..n], session) + (if i == session && cue.Some? then [cue.value] else [])
      case _ => Cues(events[..n], session)
  }

  /**
   However often announcements are repeated, a session's cues are a start, an end, a start and so on, and the
   last one is a start exactly while the session is cached.
   */
  lemma {:induction false} CuesAlternate(events: seq<Event>, session: nat)
    ensures forall k :: 0 <= k < |Cues(events, session)| ==>
                          Cues(events, session)[k].session == session && (Cues(events, session)[k].start <==> k % 2 == 0)
    ensures session in Run(NOTHING, events).cache <==> |Cues(events, session)| % 2 == 1
  {
    if events != [] {
      CuesAlternate(events[..|events| - 1], session);
    }
  }

  /** A start is cued in the subtype it is announced with, an end in that of the last active announcement. */
  lemma {:induction false} CueSubtypes(events: seq<Event>, session: nat, uid: string, a: Announcement, at: int)
    ensures var before, all := Cues(events, session), Cues(events + [Deliver(session, uid, a, at)], session);
            var cached := Announced(events, session);
            all == before + if uid != "" && a.active && cached.None? then [Cue(session, a.subtype, true)]
                            else if uid != "" && !a.active && cached.Some? then [Cue(session, cached.value.subtype, false)] else []
  {
    CachedIff(events, session);
    assert (events + [Deliver(session, uid, a, at)])[..|events|] == events;
  }

  // ---------------------------------------------------------------- no dropout

  /** The last time session `i` was delivered, `from` if it was not. */
  function LastHeard(events: seq<Event>, i: nat, from: int): int {
    if events == [] then from
    else
      var e := events[|events| - 1];
      if e.Deliver? && e.session == i then e.at else LastHeard(events[..|events| - 1], i, from)
  }

  /** The last tick, `from` if there was none. */
  function LastPoll(events: seq<Event>, from: int): int {
    if events == [] then from
    else
      var e := events[|events| - 1];
      if e.Poll? then e.now else LastPoll(events[..|events| - 1], from)
  }

  /** The whole cache is listed, `uid` resolves to `name`, and nothing under that name lacks a frequency. */
  ghost predicate Resolves(cache: map<nat, Entry>, e: Event, uid: string, name: string)
    requires e.Poll?
  {
    && (forall i :: i in cache ==> i in e.order)
    && NameOf(e.names, uid) == name
    && forall i :: i in cache && NameOf(e.names, cache[i].uid) == name ==> cache[i].freq != ""
  }

  /**
   From `from` on the client stays connected and in the mission, its clock does not go back, and it ticks
   within `tick` of the tick before.
   */
  ghost predicate Attends(r: Receiver, events: seq<Event>, session: nat, uid: string, name: string, from: int, tick: nat) {
    forall k :: 0 <= k < |events| ==>
      && Clocked(events[k])
      && LastPoll(events[..k], from) <= At(events[k]) && LastHeard(events[..k], session, from) <= At(events[k])
      && (events[k].Poll? ==>
            && events[k].now <= LastPoll(events[..k], from) + tick
            && Resolves(Run(r, events[..k]).cache, events[k], uid, name))
  }

  /** The session is only heard transmitting, as `uid`, and each tick comes within `gap` of the last delivery. */
  ghost predicate KeepsHearing(events: seq<Event>, session: nat, uid: string, from: int, gap: int) {
    forall k :: 0 <= k < |events| ==>
      && (events[k].Deliver? && events[k].session == session ==>
            events[k].uid == uid && events[k].a.active && events[k].a.freq != "")
      && (events[k].Poll? ==> events[k].now < LastHeard(events[..k], session, from) + gap)
  }

  /** The session is cached, and unless it was heard after the last tick its name is dated late enough. */
  ghost predicate Carried(r: Receiver, session: nat, uid: string, name: string, heard: int, polled: int, tick: nat) {
    && session in r.cache && r.cache[session].uid == uid && r.cache[session].freq != "" && r.cache[session].receivedAt == heard
    && (heard < polled ==> name in r.remote && Late(r.remote[name].received, heard, polled, tick))
  }

  predicate Late(received: int, heard: int, polled: int, tick: nat) {
    received == polled || (polled - heard >= TX_EXPIRY && polled >= received >= heard + TX_EXPIRY - tick)
  }

  /** One tick keeps the name counted. */
  lemma {:induction false} PollCounts(r: Receiver, e: Event, session: nat, uid: string, name: string, heard: int, polled: int, tick: nat)
    requires Carried(r, session, uid, name, heard, polled, tick) && name != ""
    requires e.Poll? && Resolves(r.cache, e, uid, name)
    requires polled <= e.now <= polled + tick && heard <= e.now < heard + 2 * TX_EXPIRY - tick && tick < TX_EXPIRY
    ensures Carried(Step(r, e), session, uid, name, heard, e.now, tick)
    ensures Counts(Step(r, e), name, e.now)
  {
    var current := Current(r.cache, e.order, e.now);
    forall x | x in current && NameOf(e.names, x.uid) == name
      ensures x.freq != ""
    {
      CurrentIff(r.cache, e.order, e.now, x);
    }
    CurrentIff(r.cache, e.order, e.now, r.cache[session]);
    LastForIff(current, e.names, name);
    ForwardIs(r.remote, current, e.names, e.now, name);
  }

  /** A delivery keeps the session cached. */
  lemma {:induction false} DeliveryCarries(r: Receiver, e: Event, session: nat, uid: string, name: string, heard: int, polled: int, tick: nat)
    requires Carried(r, session, uid, name, heard, polled, tick) && uid != ""
    requires e.Deliver? && polled <= e.at
    requires e.session == session ==> e.uid == uid && e.a.active && e.a.freq != ""
    ensures Carried(Step(r, e), session, uid, name, if e.session == session then e.at else heard, polled, tick)
  {
  }

  lemma {:induction false} PrefixOfPrefix(events: seq<Event>, n: nat)
    requires n <= |events|
    ensures forall j :: 0 <= j <= n ==> events[..n][..j] == events[..j]
  {
  }

  lemma {:induction false} AttendsPrefix(r: Receiver, events: seq<Event>, session: nat, uid: string, name: string, from: int, tick: nat, gap: int, n: nat)
    requires n <= |events|
    requires Attends(r, events, session, uid, name, from, tick) && KeepsHearing(events, session, uid, from, gap)
    ensures Attends(r, events[..n], session, uid, name, from, tick) && KeepsHearing(events[..n], session, uid, from, gap)
  {
    PrefixOfPrefix(events, n);
  }

  /** From first delivery on the name counts at every tick, as long as deliveries are less than 3000 ms minus a tick apart. */
  lemma {:induction false} CountsWhileHeard(r: Receiver, events: seq<Event>, session: nat, uid: string, name: string,
                                            from: int, tick: nat)
    requires session in r.cache && r.cache[session].uid == uid && r.cache[session].freq != "" && r.cache[session].receivedAt == from
    requires uid != "" && name != "" && tick < TX_EXPIRY
    requires Attends(r, events, session, uid, name, from, tick) && KeepsHearing(events, session, uid, from, 2 * TX_EXPIRY - tick)
    ensures Carried(Run(r, events), session, uid, name, LastHeard(events, session, from), LastPoll(events, from), tick)
    ensures events != [] && events[|events| - 1].Poll? ==> name in Talking(Run(r, events), events[|events| - 1].now)
  {
    if events != [] {
      var m := |events| - 1;
      AttendsPrefix(r, events, session, uid, name, from, tick, 2 * TX_EXPIRY - tick, m);
      CountsWhileHeard(r, events[..m], session, uid, name, from, tick);
      var before, heard, polled := Run(r, events[..m]), LastHeard(events[..m], session, from), LastPoll(events[..m], from);
      if events[m].Poll? {
        PollCounts(before, events[m], session, uid, name, heard, polled, tick);
      } else {
        DeliveryCarries(before, events[m], session, uid, name, heard, polled, tick);
      }
    }
  }
}
