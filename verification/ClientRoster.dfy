/**
 From the relay's table to the client's own lookups. The client forgets a departed session by erasing the
 first entry that leads to it; over every run of the relay this is as good as erasing all of them.
 */
module ClientRoster {
  import opened Relay
  import opened RosterView
  import opened Wrappers
  import Client = VoiceSession
  import Wire

  // ---------------------------------------------------------------- a session keeps its names

  predicate Describes(m: Msg, s: Session) { m.Joined? && m == JoinedOf(s) }

  /** Announcements concern known ids and say of a live session what the table says. */
  ghost predicate Truthful(t: Table, log: seq<Packet>) {
    forall p :: p in log && p.msg.Joined? ==> p.msg.id < t.nextId && (p.msg.id in t.byId ==> Describes(p.msg, t.byId[p.msg.id]))
  }

  /** Announcements never contradict each other. */
  ghost predicate Consistent(log: seq<Packet>) {
    forall p, q :: p in log && q in log && p.msg.Joined? && q.msg.Joined? && p.msg.id == q.msg.id ==> p.msg == q.msg
  }

  lemma {:induction false} DumpDescribes(byId: map<nat, Session>, ids: seq<nat>, self: nat, to: EndPoint, p: Packet)
    requires p in Dump(byId, ids, self, to)
    ensures exists i :: i in byId && Describes(p.msg, byId[i])
  {
    var n := |ids| - 1;
    if p in Dump(byId, ids[..n], self, to) {
      DumpDescribes(byId, ids[..n], self, to, p);
    } else {
      assert Describes(p.msg, byId[ids[n]]);
    }
  }

  /** What a step announces is in the table it leaves behind. */
  lemma {:induction false} AnnouncesLive(t: Table, e: Event, max: int, p: Packet)
    requires Inv(t, max) && p in Step(t, e, max).1 && p.msg.Joined?
    ensures var u := Step(t, e, max).0; exists i :: i in u.byId && Describes(p.msg, u.byId[i])
  {
    match e
    case Connect(remote, r, now, order) =>
      if Granted(r) {
        ConnectAnnouncesLive(t, remote, r, now, order, max, p);
      }
    case Roster(remote, order) =>
      DumpDescribes(t.byId, FitPrefix(t.byId, order(t.byId.Keys), t.byEndPoint[remote].id), t.byEndPoint[remote].id, remote, p);
    case Voice(_, _, _, _) => RelayedNeutral(t, e, max);
    case Transmission(_, _, _, _) => RelayedNeutral(t, e, max);
    case Disconnect(remote, order) =>
      var u := DisconnectStep(t, remote, order).0;
      BroadcastTargets(u.byId, order(u.byId.Keys), -1, Left(t.byEndPoint[remote].id), p);
    case Sweep(id, cutoff, order) =>
      var u := SweepOut(t, t.byId[id], order).0;
      BroadcastTargets(u.byId, order(u.byId.Keys), -1, Left(id), p);
    case Ping(_, _, _) =>
  }

  lemma {:induction false} ConnectAnnouncesLive(t: Table, remote: EndPoint, r: Request, now: int, order: Order, max: int, p: Packet)
    requires Inv(t, max) && Granted(r) && p in ConnectStep(t, remote, r, now, order, max).1 && p.msg.Joined?
    ensures var u := ConnectStep(t, remote, r, now, order, max).0; exists i :: i in u.byId && Describes(p.msg, u.byId[i])
  {
    DropStaleKeepsInv(t, r.uid, order, max);
    var d := DropStale(t, r.uid, order);
    var s := NewSession(d.0, remote, r.uid, r.name);
    var u := Insert(d.0, s, now);
    var ids := order(u.byId.Keys);
    if p in d.1 {
      BroadcastTargets(d.0.byId, order(d.0.byId.Keys), -1, Left(t.byUid[r.uid].id), p);
    } else if |d.0.byId| >= max {
    } else if p in RosterDump(u.byId, ids, s.id, remote) {
      DumpDescribes(u.byId, FitPrefix(u.byId, ids, s.id), s.id, remote, p);
    } else if p in JoinedToOthers(u.byId, ids, s) {
      BroadcastTargets(u.byId, ids, s.id, JoinedOf(s), p);
      assert Describes(p.msg, u.byId[s.id]);
    }
  }

  lemma {:induction false} StepTruthful(t: Table, log: seq<Packet>, e: Event, max: int)
    requires Inv(t, max) && Truthful(t, log) && Consistent(log)
    ensures Truthful(Step(t, e, max).0, log + Step(t, e, max).1) && Consistent(log + Step(t, e, max).1)
  {
    var (u, out) := Step(t, e, max);
    StepKeepsInv(t, e, max);
    forall p | p in log + out && p.msg.Joined?
      ensures p.msg.id < u.nextId && (p.msg.id in u.byId ==> Describes(p.msg, u.byId[p.msg.id]))
      ensures p in out ==> p.msg.id in u.byId
    {
      if p in out {
        AnnouncesLive(t, e, max, p);
      } else if p.msg.id in u.byId {
        StepKeepsSessions(t, e, max, p.msg.id);
      }
    }
  }

  lemma {:induction false} RunTruthful(events: seq<Event>, max: int)
    ensures Truthful(Run(events, max).0, Run(events, max).1) && Consistent(Run(events, max).1)
  {
    if events != [] {
      var n := |events| - 1;
      RunTruthful(events[..n], max);
      RunInv(events[..n], max);
      StepTruthful(Run(events[..n], max).0, Run(events[..n], max).1, events[n], max);
    }
  }

  // ---------------------------------------------------------------- one key per session

  /** Every entry of the view was announced. */
  ghost predicate FromLog(v: View, log: seq<Packet>) {
    && (forall k :: k in v.uidToSession ==> exists p :: p in log && p.msg.Joined? && p.msg.id == v.uidToSession[k] && p.msg.uid == k)
    && (forall k :: k in v.nameToSession ==> exists p :: p in log && p.msg.Joined? && p.msg.id == v.nameToSession[k] && p.msg.name == k)
  }

  lemma {:induction false} FoldFromLog(log: seq<Packet>, e: EndPoint)
    ensures FromLog(Fold(NOBODY, log, e), log)
  {
    if log != [] {
      var n := |log| - 1;
      FoldFromLog(log[..n], e);
      assert log == log[..n] + [log[n]];
      var v, w := Fold(NOBODY, log[..n], e), Fold(NOBODY, log, e);
      forall k | k in w.uidToSession
        ensures exists p :: p in log && p.msg.Joined? && p.msg.id == w.uidToSession[k] && p.msg.uid == k
      {
        if k in v.uidToSession && v.uidToSession[k] == w.uidToSession[k] {
          var p :| p in log[..n] && p.msg.Joined? && p.msg.id == v.uidToSession[k] && p.msg.uid == k;
          assert p in log;
        } else {
          assert log[n] in log;
        }
      }
      forall k | k in w.nameToSession
        ensures exists p :: p in log && p.msg.Joined? && p.msg.id == w.nameToSession[k] && p.msg.name == k
      {
        if k in v.nameToSession && v.nameToSession[k] == w.nameToSession[k] {
          var p :| p in log[..n] && p.msg.Joined? && p.msg.id == v.nameToSession[k] && p.msg.name == k;
          assert p in log;
        } else {
          assert log[n] in log;
        }
      }
    }
  }

  lemma {:induction false} OneKeyEach(v: View, log: seq<Packet>)
    requires FromLog(v, log) && Consistent(log)
    ensures forall a, b :: a in v.uidToSession && b in v.uidToSession && v.uidToSession[a] == v.uidToSession[b] ==> a == b
    ensures forall a, b :: a in v.nameToSession && b in v.nameToSession && v.nameToSession[a] == v.nameToSession[b] ==> a == b
  {
  }

  // ---------------------------------------------------------------- exact agreement

  /** A source of the view was announced readably. */
  lemma {:induction false} SourceAnnounced(log: seq<Packet>, e: EndPoint, id: nat) returns (p: Packet)
    requires id in Fold(NOBODY, log, e).sources
    ensures p in log && p.msg.Joined? && p.msg.id == id && Wire.Readable(p.msg.uid, p.msg.name)
  {
    var n := |log| - 1;
    if id in Fold(NOBODY, log[..n], e).sources {
      p := SourceAnnounced(log[..n], e, id);
    } else {
      p := log[n];
    }
  }

  /** Every session that has another one beside it can be announced. */
  ghost predicate OthersKnown(t: Table) {
    forall i, j :: i in t.byId && j in t.byId && i != j ==> Known(t.byId[i])
  }

  /** Every live client knows exactly the other sessions. */
  ghost predicate AllExactly(t: Table, log: seq<Packet>) {
    forall i :: i in t.byId ==> Exact(t, i, Fold(NOBODY, log, t.byId[i].endPoint))
  }

  lemma {:induction false} ExactlyIff(t: Table, log: seq<Packet>)
    requires Indexed(t) && Truthful(t, log)
    ensures AllExactly(t, log) <==> AllAgree(t, log) && OthersKnown(t)
  {
    if AllExactly(t, log) {
      forall i, j | i in t.byId && j in t.byId && i != j
        ensures Known(t.byId[i])
      {
        var p := SourceAnnounced(log, t.byId[j].endPoint, i);
      }
      forall j | j in t.byId
        ensures Agrees(t, j, Fold(NOBODY, log, t.byId[j].endPoint))
      {
        AllOthersKnown(t, j);
      }
    } else if AllAgree(t, log) && OthersKnown(t) {
      forall j | j in t.byId
        ensures Exact(t, j, Fold(NOBODY, log, t.byId[j].endPoint))
      {
        ExactIff(t, j, Fold(NOBODY, log, t.byId[j].endPoint));
      }
    }
  }

  /** The indexes are in bijection and every live client knows exactly the other sessions. */
  ghost predicate ExactAfter(events: seq<Event>, max: int, k: nat)
    requires k <= |events|
  {
    ThreeWay(Run(events[..k], max).0) && AllExactly(Run(events[..k], max).0, Run(events[..k], max).1)
  }

  ghost predicate OthersKnownAfter(events: seq<Event>, max: int, k: nat)
    requires k <= |events|
  {
    OthersKnown(Run(events[..k], max).0)
  }

  /**
   Along a run every live client knows exactly the other sessions after every step if and only if no step takes
   over an endpoint or cuts its announcements short, and never is there a session beside one that cannot be announced.
   */
  lemma {:induction false} RunExactIff(events: seq<Event>, max: int)
    requires forall e :: e in events ==> FairEvent(e)
    ensures (forall k :: 0 <= k <= |events| ==> ExactAfter(events, max, k)) <==>
            NeverDisturbed(events, max) &&
            (forall k :: 0 <= k <= |events| ==> OthersKnownAfter(events, max, k))
  {
    RunAgreesIff(events, max);
    forall k | 0 <= k <= |events|
      ensures ExactAfter(events, max, k) <==> AgreesAfter(events, max, k) && OthersKnownAfter(events, max, k)
    {
      RunInv(events[..k], max);
      RunTruthful(events[..k], max);
      ExactlyIff(Run(events[..k], max).0, Run(events[..k], max).1);
    }
  }

  // ---------------------------------------------------------------- the client

  /** How the client's session takes a message; an accept follows on a lost connection, and what cannot be read is dropped. */
  ghost predicate Takes(s: Client.State, m: Msg, u: Client.State) {
    match m
    case Accept(_) => exists debug :: u == Client.Step(Client.Step(s, Client.Connection(false, false)), Client.Connection(true, debug))
    case Joined(id, uid, name) => u == if Wire.Readable(uid, name) then Client.Step(s, Client.Joined(id, uid, name)) else s
    case Left(id) =>
      exists uid, name ::
        Client.Finds(s.uids, id, uid) && Client.Finds(s.names, id, name) && u == Client.Step(s, Client.Left(id, uid, name))
    case _ => u == s
  }

  /** The states of the client at `e` along the packets of the log. */
  ghost predicate Follows(states: seq<Client.State>, log: seq<Packet>, e: EndPoint) {
    && |states| == |log| + 1 && states[0] == Client.START
    && forall k :: 0 <= k < |log| ==> if log[k].to == e then Takes(states[k], log[k].msg, states[k + 1]) else states[k + 1] == states[k]
  }

  lemma {:induction false} TakesUpdates(s: Client.State, m: Msg, u: Client.State, log: seq<Packet>)
    requires Takes(s, m, u) && FromLog(Client.Roster(s), log) && Consistent(log)
    ensures Client.Roster(u) == Update(Client.Roster(s), m)
  {
    match m
    case Joined(id, uid, name) => Client.JoinsRoster(s, id, uid, name);
    case Left(id) =>
      var uid, name :|
        Client.Finds(s.uids, id, uid) && Client.Finds(s.names, id, name) && u == Client.Step(s, Client.Left(id, uid, name));
      OneKeyEach(Client.Roster(s), log);
      Client.EraseOnly(s.uids, id, uid);
      Client.EraseOnly(s.names, id, name);
      assert (s.sources - {id}).Keys == s.sources.Keys - {id};
    case _ =>
  }

  lemma {:induction false} ConsistentPrefix(log: seq<Packet>, n: nat)
    requires n <= |log| && Consistent(log)
    ensures Consistent(log[..n])
  {
    assert forall p :: p in log[..n] ==> p in log;
  }

  /** Erasing first matches keeps up with the view that erases all. */
  lemma {:induction false} FollowsFold(states: seq<Client.State>, log: seq<Packet>, e: EndPoint)
    requires Follows(states, log, e) && Consistent(log)
    ensures Client.Roster(states[|log|]) == Fold(NOBODY, log, e)
  {
    if log != [] {
      var n := |log| - 1;
      ConsistentPrefix(log, n);
      FollowsFold(states[..n + 1], log[..n], e);
      FoldFromLog(log[..n], e);
      if log[n].to == e {
        TakesUpdates(states[n], log[n].msg, states[n + 1], log[..n]);
      }
    }
  }

  /** As long as nothing disturbs the run, the client's own lookups agree with the relay's table. */
  lemma {:induction false} UndisturbedClientAgrees(events: seq<Event>, max: int, id: nat, states: seq<Client.State>)
    requires Undisturbed(events, max) && id in Run(events, max).0.byId
    requires Follows(states, Run(events, max).1, Run(events, max).0.byId[id].endPoint)
    ensures Agrees(Run(events, max).0, id, Client.Roster(states[|states| - 1]))
  {
    UndisturbedAgrees(events, max);
    RunTruthful(events, max);
    FollowsFold(states, Run(events, max).1, Run(events, max).0.byId[id].endPoint);
  }

  /**
   The client's own lookups, however it visits them, are exactly the relay's other sessions at the end of every
   run in which no endpoint is taken over by another uid and every admitted request can be announced.
   */
  lemma {:induction false} ClientAgrees(events: seq<Event>, max: int, id: nat, states: seq<Client.State>)
    requires OneUidPerEndPoint(events, max) && AllAnnounceable(events, max) && forall e :: e in events ==> FairEvent(e)
    requires id in Run(events, max).0.byId
    requires Follows(states, Run(events, max).1, Run(events, max).0.byId[id].endPoint)
    ensures Exact(Run(events, max).0, id, Client.Roster(states[|states| - 1]))
  {
    RosterAgreement(events, max);
    RunTruthful(events, max);
    FollowsFold(states, Run(events, max).1, Run(events, max).0.byId[id].endPoint);
  }

  // ---------------------------------------------------------------- names

  /** The session announced last, and readably, to `e` under a name since its accept. */
  function LastNamed(log: seq<Packet>, e: EndPoint, name: string): Option<nat> {
    if log == [] then None
    else
      var n := |log| - 1;
      var m := log[n].msg;
      if log[n].to == e && m.Accept? then None
      else if log[n].to == e && m.Joined? && m.name == name && Wire.Readable(m.uid, m.name) then Some(m.id)
      else LastNamed(log[..n], e, name)
  }

  ghost predicate AnnouncedAs(log: seq<Packet>, p: Packet, id: nat, name: string) {
    p in log && p.msg.Joined? && p.msg.id == id && p.msg.name == name && Wire.Readable(p.msg.uid, p.msg.name)
  }

  lemma {:induction false} LastNamedAnnounced(log: seq<Packet>, e: EndPoint, name: string) returns (p: Packet)
    requires LastNamed(log, e, name).Some?
    ensures AnnouncedAs(log, p, LastNamed(log, e, name).value, name)
  {
    var n := |log| - 1;
    var m := log[n].msg;
    if log[n].to == e && m.Joined? && m.name == name && Wire.Readable(m.uid, m.name) {
      p := log[n];
    } else {
      p := LastNamedAnnounced(log[..n], e, name);
    }
  }

  /** A name is found exactly while the session announced last under it is a source, and leads to that session. */
  ghost predicate NameFound(v: View, last: Option<nat>, name: string) {
    && (name in v.nameToSession <==> last.Some? && last.value in v.sources)
    && (name in v.nameToSession ==> v.nameToSession[name] == last.value)
  }

  lemma {:induction false} FoldNames(log: seq<Packet>, e: EndPoint, name: string)
    requires Consistent(log) && name != ""
    ensures NameFound(Fold(NOBODY, log, e), LastNamed(log, e, name), name)
  {
    if log != [] {
      var n := |log| - 1;
      ConsistentPrefix(log, n);
      FoldNames(log[..n], e, name);
      var last := LastNamed(log[..n], e, name);
      if log[n].msg.Joined? && last.Some? && log[n].msg.id == last.value {
        var p := LastNamedAnnounced(log[..n], e, name);
        assert p in log && log[n] in log;
      }
    }
  }

  /** A session that was announced readably can be announced. */
  lemma {:induction false} LastNamedOther(t: Table, log: seq<Packet>, e: EndPoint, name: string, self: nat)
    requires Truthful(t, log) && LastNamed(log, e, name).Some?
    ensures var id := LastNamed(log, e, name).value;
            && (Other(t, id, self) <==> id in t.byId && id != self)
            && (id in t.byId ==> t.byId[id].name == name)
  {
    var p := LastNamedAnnounced(log, e, name);
  }

  /**
   The client finds a session under a name if and only if it is the one announced last under that name and is
   still there: when a namesake that came later leaves, the earlier one is not found any more.
   */
  lemma {:induction false} NameLookupIff(events: seq<Event>, max: int, id: nat, states: seq<Client.State>, name: string)
    requires Undisturbed(events, max) && id in Run(events, max).0.byId && name != ""
    requires Follows(states, Run(events, max).1, Run(events, max).0.byId[id].endPoint)
    ensures var (t, log) := Run(events, max);
            var last := LastNamed(log, t.byId[id].endPoint, name);
            var names := states[|states| - 1].names;
            && (name in names <==> last.Some? && last.value in t.byId && last.value != id)
            && (name in names ==> names[name] == last.value && t.byId[last.value].name == name)
  {
    var (t, log) := Run(events, max);
    var e := t.byId[id].endPoint;
    UndisturbedClientAgrees(events, max, id, states);
    RunTruthful(events, max);
    FollowsFold(states, log, e);
    FoldNames(log, e, name);
    if LastNamed(log, e, name).Some? {
      LastNamedOther(t, log, e, name, id);
    }
  }
}
