/**
 What the relay does for its clients, said of requests, packets and sessions: who is let in and what the others
 are answered, which sessions a step ends, whom it has heard from, and who is sent what.
 */
module RelayService {
  import opened Wrappers
  import opened Relay
  import opened RosterView

  // ---------------------------------------------------------------- who is let in

  /** The request is complete, names a uid and has the right password. */
  predicate Legitimate(r: Request) { r.Fields? && r.uid != "" && r.passwordOk }

  /** There is a place for it: its own old one or a free one. */
  predicate LetIn(t: Table, e: Event, max: int) {
    e.Connect? && Legitimate(e.request) && (e.request.uid in t.byUid || |t.byId| < max)
  }

  /** The session a request asks for. */
  function Asked(id: nat, remote: EndPoint, uid: string, name: string): Session {
    Session(id, remote, uid, if name == "" then uid else name)
  }

  lemma {:induction false} LetInAdmitted(t: Table, e: Event, max: int)
    requires Inv(t, max) && e.Connect?
    ensures LetIn(t, e, max) <==> IsAdmitted(t, e, max)
  {
    if Granted(e.request) && e.request.uid in t.byUid {
      var stale := t.byUid[e.request.uid];
      ForgetSize(t, stale);
      assert stale.id in t.byId;
      assert Forget(t, stale).(byUid := t.byUid - {e.request.uid}) == Forget(t, stale);
    }
  }

  /** What a request that is not let in is answered, if anything. */
  function Answer(r: Request): seq<Reason> {
    match r
    case WrongVersion => [VersionMismatch]
    case Malformed => [BadRequest]
    case Dropped => []
    case Fields(uid, _, passwordOk) => if uid == "" then [BadRequest] else if !passwordOk then [BadPassword] else [ServerFull]
  }

  /** A request that is not let in changes nothing, and is told why unless it was dropped. */
  lemma {:induction false} TurnedAway(t: Table, e: Event, max: int)
    requires Inv(t, max) && e.Connect? && !LetIn(t, e, max)
    ensures Step(t, e, max).0 == t
    ensures var answer := Answer(e.request);
            Step(t, e, max).1 == if answer == [] then [] else [Packet(e.remote, Reject(answer[0]))]
  {
    if Legitimate(e.request) {
      assert DropStale(t, e.request.uid, e.order) == (t, []);
      assert [] + [Packet(e.remote, Reject(ServerFull))] == [Packet(e.remote, Reject(ServerFull))];
    }
  }

  lemma {:induction false} AdmissionRejectsNobody(t: Table, e: Event, max: int, p: Packet)
    requires IsAdmitted(t, e, max) && p in Step(t, e, max).1
    ensures !p.msg.Reject?
  {
    AdmittedStep(t, e, max);
    var (d, s) := Admitted(t, e);
    if p in DropStale(t, e.request.uid, e.order).1 {
      BroadcastTargets(d.byId, e.order(d.byId.Keys), -1, Left(t.byUid[e.request.uid].id), p);
    } else {
      var u := Insert(d, s, e.now);
      AnnouncementsName(u.byId, e.order(u.byId.Keys), s, p);
    }
  }

  /** A request that is let in gets the next id, is accepted under it, and nobody is rejected. */
  lemma {:induction false} Accepted(t: Table, e: Event, max: int)
    requires Inv(t, max) && LetIn(t, e, max)
    ensures var (u, out) := Step(t, e, max);
            && t.nextId in u.byId && u.byId[t.nextId] == Asked(t.nextId, e.remote, e.request.uid, e.request.name)
            && Packet(e.remote, Accept(t.nextId)) in out
            && forall p :: p in out ==> !p.msg.Reject?
  {
    LetInAdmitted(t, e, max);
    AdmittedStep(t, e, max);
    forall p | p in Step(t, e, max).1
      ensures !p.msg.Reject?
    {
      AdmissionRejectsNobody(t, e, max, p);
    }
  }

  /** The requester is told that the reason for turning it away is `reason`. */
  predicate Told(out: seq<Packet>, e: Event, reason: Reason)
    requires e.Connect?
  {
    Packet(e.remote, Reject(reason)) in out
  }

  /**
   Exactly who is turned away and why, always with the table unchanged: a wrong version, a malformed request or one
   without a uid, a wrong password, and one more uid than there are places.
   */
  lemma {:induction false} AnswerIff(t: Table, e: Event, max: int)
    requires Inv(t, max) && e.Connect?
    ensures var (u, out) := Step(t, e, max);
            && (Told(out, e, VersionMismatch) <==> e.request.WrongVersion?)
            && (Told(out, e, BadRequest) <==> e.request.Malformed? || (e.request.Fields? && e.request.uid == ""))
            && (Told(out, e, BadPassword) <==> e.request.Fields? && e.request.uid != "" && !e.request.passwordOk)
            && (Told(out, e, ServerFull) <==> e.request.Fields? && e.request.uid != "" && e.request.passwordOk &&
                                              e.request.uid !in t.byUid && |t.byId| >= max)
            && (Packet(e.remote, Accept(t.nextId)) in out <==> e.request.Fields? && e.request.uid != "" && e.request.passwordOk &&
                                                               (e.request.uid in t.byUid || |t.byId| < max))
            && (Packet(e.remote, Accept(t.nextId)) !in out ==> u == t)
  {
    if LetIn(t, e, max) {
      Accepted(t, e, max);
    } else {
      TurnedAway(t, e, max);
    }
  }

  // ---------------------------------------------------------------- which sessions there are

  /** A ping with a timestamp, a voice packet or a transmission, even one that does not parse, from the session's endpoint. */
  predicate Speaks(t: Table, e: Event, i: nat) {
    match e
    case Ping(remote, timestamp, _) => timestamp.Some? && remote in t.byEndPoint && t.byEndPoint[remote].id == i
    case Voice(remote, _, _, _) => remote in t.byEndPoint && t.byEndPoint[remote].id == i
    case Transmission(remote, _, _, _) => remote in t.byEndPoint && t.byEndPoint[remote].id == i
    case _ => false
  }

  /** What ends a session: a request of its uid, a disconnect from its endpoint, a sweep that finds it silent. */
  predicate Ends(t: Table, e: Event, i: nat)
    requires i in t.byId && i in t.lastSeen
  {
    match e
    case Connect(_, r, _, _) => Legitimate(r) && r.uid == t.byId[i].uid
    case Disconnect(remote, _) => remote in t.byEndPoint && t.byEndPoint[remote].id == i
    case Sweep(id, cutoff, _) => id == i && t.lastSeen[i] < cutoff
    case _ => false
  }

  lemma {:induction false} NotEnded(t: Table, e: Event, max: int, i: nat)
    requires Inv(t, max) && e.Connect? && !LetIn(t, e, max)
    ensures i in t.byId ==> !Ends(t, e, i)
  {
  }

  lemma {:induction false} AdmissionSessions(t: Table, e: Event, max: int, i: nat)
    requires Inv(t, max) && LetIn(t, e, max)
    ensures var u := Step(t, e, max).0;
            && (i in u.byId <==> (i in t.byId && !Ends(t, e, i)) || i == t.nextId)
            && (i in u.byId && i in t.byId ==> u.byId[i] == t.byId[i])
            && (i in u.byId ==> i in u.lastSeen && u.lastSeen[i] == if i in t.byId then t.lastSeen[i] else e.now)
  {
    var uid := e.request.uid;
    LetInAdmitted(t, e, max);
    AdmittedStep(t, e, max);
    var d := DropStale(t, uid, e.order).0;
    assert i in d.byId <==> i in t.byId && t.byId[i].uid != uid;
  }

  lemma {:induction false} RequestSessions(t: Table, e: Event, max: int, i: nat)
    requires Inv(t, max) && e.Connect?
    ensures var u := Step(t, e, max).0;
            && (i in u.byId <==> (i in t.byId && !Ends(t, e, i)) || (i == t.nextId && LetIn(t, e, max)))
            && (i in u.byId && i in t.byId ==> u.byId[i] == t.byId[i])
            && (i in u.byId ==> i in u.lastSeen && u.lastSeen[i] == if i in t.byId then t.lastSeen[i] else e.now)
  {
    if LetIn(t, e, max) {
      AdmissionSessions(t, e, max, i);
    } else {
      TurnedAway(t, e, max);
      NotEnded(t, e, max, i);
    }
  }

  lemma {:induction false} DepartureSessions(t: Table, e: Event, max: int, i: nat)
    requires Inv(t, max) && (e.Disconnect? || e.Sweep?)
    ensures var u := Step(t, e, max).0;
            && (i in u.byId <==> i in t.byId && !Ends(t, e, i))
            && (i in u.byId ==> u.byId[i] == t.byId[i] && i in u.lastSeen && u.lastSeen[i] == t.lastSeen[i])
  {
  }

  lemma {:induction false} TrafficSessions(t: Table, e: Event, max: int, i: nat)
    requires Inv(t, max) && !e.Connect? && !e.Disconnect? && !e.Sweep?
    ensures var u := Step(t, e, max).0;
            && u.byId == t.byId
            && (i in u.byId ==> i in u.lastSeen && u.lastSeen[i] == if Speaks(t, e, i) then e.now else t.lastSeen[i])
  {
  }

  /** After a step there are the sessions it did not end, as they were, and the one it let in. */
  lemma {:induction false} SessionsIff(t: Table, e: Event, max: int, i: nat)
    requires Inv(t, max)
    ensures var u := Step(t, e, max).0;
            && (i in u.byId <==> (i in t.byId && !Ends(t, e, i)) || (i == t.nextId && LetIn(t, e, max)))
            && (i in u.byId && i in t.byId ==> u.byId[i] == t.byId[i])
  {
    if e.Connect? {
      RequestSessions(t, e, max, i);
    } else if e.Disconnect? || e.Sweep? {
      DepartureSessions(t, e, max, i);
    } else {
      TrafficSessions(t, e, max, i);
    }
  }

  /** Event `k` asked for the session and had the right to. */
  ghost predicate AskedFor(events: seq<Event>, k: nat, s: Session) {
    && k < |events| && events[k].Connect? && events[k].remote == s.endPoint
    && exists name :: events[k].request == Fields(s.uid, name, true) && s.uid != "" && s.name == if name == "" then s.uid else name
  }

  /** Over every run, each session was asked for from its endpoint, under its uid and with the right password. */
  lemma {:induction false} EverybodyAsked(events: seq<Event>, max: int, i: nat) returns (k: nat)
    requires i in Run(events, max).0.byId
    ensures AskedFor(events, k, Run(events, max).0.byId[i])
  {
    var n := |events| - 1;
    var t := Run(events[..n], max).0;
    RunInv(events[..n], max);
    SessionsIff(t, events[n], max, i);
    if i in t.byId {
      k := EverybodyAsked(events[..n], max, i);
    } else {
      k := n;
      Accepted(t, events[n], max);
      var r := events[n].request;
      assert r == Fields(r.uid, r.name, true);
    }
  }

  // ---------------------------------------------------------------- whom the relay has heard from

  /** A session was last heard from now if it spoke or was let in just now, and otherwise when it was before. */
  lemma {:induction false} HeardIff(t: Table, e: Event, max: int, i: nat)
    requires Inv(t, max) && i in Step(t, e, max).0.byId
    ensures var u := Step(t, e, max).0;
            && i in u.lastSeen && (i !in t.byId ==> e.Connect?)
            && u.lastSeen[i] == if i !in t.byId || Speaks(t, e, i) then e.now else t.lastSeen[i]
  {
    if e.Connect? {
      RequestSessions(t, e, max, i);
    } else if e.Disconnect? || e.Sweep? {
      DepartureSessions(t, e, max, i);
    } else {
      TrafficSessions(t, e, max, i);
    }
  }

  // ---------------------------------------------------------------- who is sent what

  /** One packet for each of the sessions, in their order. */
  ghost predicate OneEach(byId: map<nat, Session>, ids: seq<nat>, msg: Msg, out: seq<Packet>) {
    |out| == |ids| && forall k :: 0 <= k < |ids| ==> ids[k] in byId && out[k] == Packet(byId[ids[k]].endPoint, msg)
  }

  lemma {:induction false} BroadcastEach(byId: map<nat, Session>, ids: seq<nat>, except: int, msg: Msg) returns (others: seq<nat>)
    requires Distinct(ids)
    ensures Distinct(others) && forall i :: i in others <==> i in ids && i in byId && i != except
    ensures OneEach(byId, others, msg, Broadcast(byId, ids, except, msg))
  {
    others := [];
    if ids != [] {
      var n := |ids| - 1;
      others := BroadcastEach(byId, ids[..n], except, msg);
      WithLast(ids, n);
      if ids[n] in byId && ids[n] != except {
        OneMore(byId, others, msg, Broadcast(byId, ids[..n], except, msg), ids[n]);
        others := others + [ids[n]];
      } else {
        assert Broadcast(byId, ids[..n], except, msg) + [] == Broadcast(byId, ids[..n], except, msg);
      }
    }
  }

  lemma {:induction false} WithLast(ids: seq<nat>, n: nat)
    requires n + 1 == |ids| && Distinct(ids)
    ensures ids[n] !in ids[..n] && forall i :: i in ids <==> i in ids[..n] || i == ids[n]
  {
    assert ids == ids[..n] + [ids[n]];
  }

  lemma {:induction false} OneMore(byId: map<nat, Session>, ids: seq<nat>, msg: Msg, out: seq<Packet>, i: nat)
    requires OneEach(byId, ids, msg, out) && i in byId && Distinct(ids) && i !in ids
    ensures OneEach(byId, ids + [i], msg, out + [Packet(byId[i].endPoint, msg)]) && Distinct(ids + [i])
  {
  }

  /** What a registered sender's packet becomes for the others; nothing if it does not parse or is too long. */
  function PassedOn(t: Table, e: Event): Option<Msg>
    requires (e.Voice? || e.Transmission?) && e.remote in t.byEndPoint
  {
    var id := t.byEndPoint[e.remote].id;
    if e.Voice? then
      if e.frame.Some? && |e.frame.value.opus| <= 500
      then Some(VoiceDown(id, e.frame.value.sequence, e.frame.value.flags, e.frame.value.opus)) else None
    else if e.tx.Some? then Some(RadioTx(id, e.tx.value)) else None
  }

  /**
   A voice packet or transmission reaches every other session once and the sender not at all, with the fields it was
   sent with and the sender's id; from an unregistered endpoint, malformed or with over 500 bytes of voice, nobody.
   */
  lemma {:induction false} PassedOnToOthers(t: Table, e: Event, max: int) returns (others: seq<nat>)
    requires Inv(t, max) && (e.Voice? || e.Transmission?) && Fair(e.order)
    ensures Distinct(others)
    ensures if e.remote in t.byEndPoint && PassedOn(t, e).Some?
            then (forall i :: i in others <==> i in t.byId && i != t.byEndPoint[e.remote].id) &&
                 OneEach(t.byId, others, PassedOn(t, e).value, Step(t, e, max).1)
            else Step(t, e, max).1 == []
  {
    others := [];
    if e.remote in t.byEndPoint && PassedOn(t, e).Some? {
      var ids := e.order(t.byId.Keys);
      assert Enumerates(ids, t.byId.Keys);
      others := BroadcastEach(t.byId, ids, t.byEndPoint[e.remote].id, PassedOn(t, e).value);
    }
  }

  /** One announcement for each of the sessions, in their order, all to one endpoint. */
  ghost predicate Announced(byId: map<nat, Session>, ids: seq<nat>, to: EndPoint, out: seq<Packet>) {
    |out| == |ids| && forall k :: 0 <= k < |ids| ==> ids[k] in byId && out[k] == Packet(to, Joined(ids[k], byId[ids[k]].uid, byId[ids[k]].name))
  }

  lemma {:induction false} DumpEach(byId: map<nat, Session>, ids: seq<nat>, self: nat, to: EndPoint) returns (others: seq<nat>)
    requires Distinct(ids) && forall i :: i in byId ==> byId[i].id == i
    ensures Distinct(others) && forall i :: i in others <==> i in ids && i in byId && i != self
    ensures Announced(byId, others, to, Dump(byId, ids, self, to))
  {
    others := [];
    if ids != [] {
      var n := |ids| - 1;
      WithLast(ids, n);
      var before := DumpEach(byId, ids[..n], self, to);
      others := if ids[n] in byId && ids[n] != self then before + [ids[n]] else before;
    }
  }

  /** A roster request is answered with one announcement of every other session, if all of them fit; nobody else is sent any. */
  lemma {:induction false} RosterAnswered(t: Table, remote: EndPoint, order: Order, max: int) returns (others: seq<nat>)
    requires Inv(t, max) && Fair(order) && forall i :: i in t.byId ==> Fits(t.byId[i])
    ensures Step(t, Roster(remote, order), max).0 == t && Distinct(others)
    ensures if remote in t.byEndPoint
            then (forall i :: i in others <==> i in t.byId && i != t.byEndPoint[remote].id) &&
                 Announced(t.byId, others, remote, Step(t, Roster(remote, order), max).1)
            else Step(t, Roster(remote, order), max).1 == []
  {
    others := [];
    if remote in t.byEndPoint {
      var ids, self := order(t.byId.Keys), t.byEndPoint[remote].id;
      assert Enumerates(ids, t.byId.Keys);
      assert AllFit(t.byId, ids, self) && FitPrefix(t.byId, ids, self) == ids;
      others := DumpEach(t.byId, ids, self, remote);
    }
  }

  /** When a session does not fit, announcing goes on exactly up to the first such session in the order of visits. */
  lemma {:induction false} UpToFirstOverrun(byId: map<nat, Session>, ids: seq<nat>, self: nat)
    ensures var prefix := FitPrefix(byId, ids, self);
            && prefix <= ids
            && (forall k :: 0 <= k < |prefix| ==> !(prefix[k] in byId && prefix[k] != self && !Fits(byId[prefix[k]])))
            && (|prefix| < |ids| ==> var next := ids[|prefix|]; next in byId && next != self && !Fits(byId[next]))
  {
    if !AllFit(byId, ids, self) {
      var n := |ids| - 1;
      UpToFirstOverrun(byId, ids[..n], self);
      if FitPrefix(byId, ids[..n], self) == ids[..n] {
        assert ids == ids[..n] + [ids[n]];
      }
    }
  }

  /** A ping is echoed to a registered sender, and to nobody else. */
  lemma {:induction false} PingEchoed(t: Table, e: Event, max: int, p: Packet)
    requires e.Ping?
    ensures p in Step(t, e, max).1 <==>
            e.remote in t.byEndPoint && e.timestamp.Some? && p == Packet(e.remote, Pong(e.timestamp.value))
    ensures |Step(t, e, max).1| <= 1 && Step(t, e, max).0.byId == t.byId
  {
  }
}
