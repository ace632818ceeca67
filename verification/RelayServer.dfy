/**
 The relay server itself: three dictionaries of shared session objects, proved to take the steps of the
 session table. Sending appends to a log; the enumeration order of a dictionary is a parameter.
 */
module RelayServer {
  import opened Relay
  import opened Wrappers
  import opened Sequences

  class ClientSession {
    const info: Session
    var lastSeen: int

    constructor (info: Session, now: int)
      ensures this.info == info && lastSeen == now
    {
      this.info := info;
      lastSeen := now;
    }
  }

  ghost function Infos<K(!new)>(m: map<K, ClientSession>): (r: map<K, Session>)
    ensures r.Keys == m.Keys
  {
    map k | k in m :: m[k].info
  }

  ghost function Seen(m: map<nat, ClientSession>): (r: map<nat, int>)
    reads m.Values
    ensures r.Keys == m.Keys
  {
    map k | k in m :: m[k].lastSeen
  }

  /** Each dictionary keys an object by its own field, and two that hold the same session hold the same object. */
  ghost predicate Linked(byEndPoint: map<EndPoint, ClientSession>, byId: map<nat, ClientSession>,
                         byUid: map<string, ClientSession>, nextId: nat) {
    && (forall i :: i in byId ==> byId[i].info.id == i && i < nextId)
    && (forall e :: e in byEndPoint ==>
                      byEndPoint[e].info.endPoint == e && byEndPoint[e].info.id in byId && byId[byEndPoint[e].info.id] == byEndPoint[e])
    && (forall u :: u in byUid ==>
                      byUid[u].info.uid == u && byUid[u].info.id in byId && byId[byUid[u].info.id] == byUid[u])
  }

  lemma {:induction false} LinkedWithout(byEndPoint: map<EndPoint, ClientSession>, byId: map<nat, ClientSession>,
                      byUid: map<string, ClientSession>, nextId: nat, s: ClientSession)
    requires Linked(byEndPoint, byId, byUid, nextId) && s.info.id in byId && byId[s.info.id] == s
    ensures Linked(byEndPoint - {s.info.endPoint}, byId - {s.info.id}, byUid - {s.info.uid}, nextId)
  {
  }

  lemma {:induction false} LinkedWith(byEndPoint: map<EndPoint, ClientSession>, byId: map<nat, ClientSession>,
                   byUid: map<string, ClientSession>, nextId: nat, s: ClientSession)
    requires Linked(byEndPoint, byId, byUid, nextId) && s.info.id == nextId
    ensures Linked(byEndPoint[s.info.endPoint := s], byId[s.info.id := s], byUid[s.info.uid := s], nextId + 1)
  {
  }

  lemma {:induction false} InfosWithout<K(!new)>(m: map<K, ClientSession>, k: K)
    ensures Infos(m - {k}) == Infos(m) - {k}
  {
  }

  lemma {:induction false} InfosWith<K(!new)>(m: map<K, ClientSession>, k: K, s: ClientSession)
    ensures Infos(m[k := s]) == Infos(m)[k := s.info]
  {
  }

  /** The announcements stop at the first session that does not fit. */
  lemma {:induction false} FitPrefixIs(byId: map<nat, Session>, ids: seq<nat>, self: nat, k: nat)
    requires k < |ids| && AllFit(byId, ids[..k], self)
    requires ids[k] in byId && ids[k] != self && !Fits(byId[ids[k]])
    ensures FitPrefix(byId, ids, self) == ids[..k] && !AllFit(byId, ids, self)
  {
    assert ids[k] in ids;
    var n := |ids| - 1;
    if k < n {
      assert ids[..n][..k] == ids[..k];
      FitPrefixIs(byId, ids[..n], self, k);
    }
  }

  lemma {:induction false} DumpNext(byId: map<nat, Session>, ids: seq<nat>, self: nat, to: EndPoint, k: nat)
    requires k < |ids| && ids[k] in byId
    ensures AllFit(byId, ids[..k + 1], self) <==> AllFit(byId, ids[..k], self) && (ids[k] != self ==> Fits(byId[ids[k]]))
    ensures Dump(byId, ids[..k + 1], self, to) ==
            Dump(byId, ids[..k], self, to) + if ids[k] != self then [Packet(to, JoinedOf(byId[ids[k]]))] else []
  {
    assert ids[..k + 1] == ids[..k] + [ids[k]] && ids[..k + 1][..k] == ids[..k];
  }

  /** What the next of the listed sessions adds to a broadcast. */
  lemma {:induction false} BroadcastNext(byId: map<nat, Session>, ids: seq<nat>, k: nat, except: int, msg: Msg)
    requires k < |ids|
    ensures var before := Broadcast(byId, ids[..k], except, msg);
            Broadcast(byId, ids[..k + 1], except, msg) ==
            before + if ids[k] in byId && ids[k] != except then [Packet(byId[ids[k]].endPoint, msg)] else []
  {
    assert ids[..k + 1][..k] == ids[..k];
  }

  class Server {
    const maxClients: int
    var byEndPoint: map<EndPoint, ClientSession>
    var byId: map<nat, ClientSession>
    var byUid: map<string, ClientSession>
    var nextId: nat
    var sent: seq<Packet>

    ghost predicate Valid()
      reads this
    {
      Linked(byEndPoint, byId, byUid, nextId)
    }

    /** The session table the dictionaries stand for. */
    ghost function View(): Table
      reads this, byId.Values
    {
      Table(Infos(byEndPoint), Infos(byId), Infos(byUid), Seen(byId), nextId)
    }

    constructor (maxClients: int)
      ensures Valid() && View() == EMPTY && sent == [] && this.maxClients == maxClients
    {
      this.maxClients := maxClients;
      byEndPoint, byId, byUid, nextId, sent := map[], map[], map[], 1, [];
    }

    method Send(to: EndPoint, msg: Msg)
      modifies this`sent
      ensures sent == old(sent) + [Packet(to, msg)]
    {
      sent := sent + [Packet(to, msg)];
    }

    method SendToOthers(ids: seq<nat>, except: int, msg: Msg)
      requires Enumerates(ids, byId.Keys)
      modifies this`sent
      ensures sent == old(sent) + Broadcast(Infos(byId), ids, except, msg)
    {
      for k := 0 to |ids|
        invariant sent == old(sent) + Broadcast(Infos(byId), ids[..k], except, msg)
      {
        assert ids[..k + 1][..k] == ids[..k];
        assert ids[k] in ids;
        if ids[k] != except {
          Send(byId[ids[k]].info.endPoint, msg);
        }
      }
      assert ids[..|ids|] == ids;
    }

    /** One announcement; `ok` is false when its names overrun the buffer, which ends the packet's handling. */
    method SendClientJoined(to: EndPoint, subject: Session) returns (ok: bool)
      modifies this`sent
      ensures ok == Fits(subject)
      ensures sent == old(sent) + if ok then [Packet(to, JoinedOf(subject))] else []
    {
      ok := Fits(subject);
      if ok {
        Send(to, JoinedOf(subject));
      }
    }

    method SendRoster(ids: seq<nat>, self: nat, to: EndPoint) returns (ok: bool)
      requires Enumerates(ids, byId.Keys)
      modifies this`sent
      ensures ok == AllFit(Infos(byId), ids, self)
      ensures sent == old(sent) + RosterDump(Infos(byId), ids, self, to)
    {
      for k := 0 to |ids|
        invariant AllFit(Infos(byId), ids[..k], self)
        invariant sent == old(sent) + Dump(Infos(byId), ids[..k], self, to)
      {
        assert ids[k] in ids;
        DumpNext(Infos(byId), ids, self, to, k);
        if ids[k] != self {
          ok := SendClientJoined(to, byId[ids[k]].info);
          if !ok {
            FitPrefixIs(Infos(byId), ids, self, k);
            return;
          }
        }
      }
      assert ids[..|ids|] == ids;
      ok := true;
    }

    /** Announces a session to everybody else. */
    method BroadcastClientJoined(subject: Session, ids: seq<nat>)
      requires Enumerates(ids, byId.Keys)
      modifies this`sent
      ensures sent == old(sent) + JoinedToOthers(Infos(byId), ids, subject)
    {
      for k := 0 to |ids|
        invariant sent == old(sent) + if Fits(subject) then Broadcast(Infos(byId), ids[..k], subject.id, JoinedOf(subject)) else []
      {
        BroadcastNext(Infos(byId), ids, k, subject.id, JoinedOf(subject));
        assert ids[k] in ids;
        if ids[k] != subject.id {
          var ok := SendClientJoined(byId[ids[k]].info.endPoint, subject);
          if !ok {
            return;
          }
        }
      }
      assert ids[..|ids|] == ids;
    }

    /** Removes a registered session from the three indexes. */
    method Remove(s: ClientSession)
      requires Valid() && s.info.id in byId && byId[s.info.id] == s
      modifies this`byEndPoint, this`byId, this`byUid
      ensures Valid() && View() == Forget(old(View()), s.info)
      ensures byId == old(byId) - {s.info.id}
    {
      LinkedWithout(byEndPoint, byId, byUid, nextId, s);
      InfosWithout(byEndPoint, s.info.endPoint);
      InfosWithout(byId, s.info.id);
      InfosWithout(byUid, s.info.uid);
      assert Seen(byId - {s.info.id}) == Seen(byId) - {s.info.id};
      byEndPoint := byEndPoint - {s.info.endPoint};
      byId := byId - {s.info.id};
      byUid := byUid - {s.info.uid};
    }

    method BroadcastClientLeft(id: nat, order: Order)
      requires Fair(order)
      modifies this`sent
      ensures sent == old(sent) + Broadcast(Infos(byId), order(byId.Keys), -1, Left(id))
    {
      assert Enumerates(order(byId.Keys), byId.Keys);
      SendToOthers(order(byId.Keys), -1, Left(id));
    }

    method HandleDisconnect(remote: EndPoint, order: Order)
      requires Valid() && Fair(order)
      modifies this
      ensures Valid() && View() == DisconnectStep(old(View()), remote, order).0
      ensures sent == old(sent) + DisconnectStep(old(View()), remote, order).1
    {
      if remote !in byEndPoint {
        return;
      }
      var s := byEndPoint[remote];
      Remove(s);
      BroadcastClientLeft(s.info.id, order);
    }

    /** One swept session. */
    method SweepOne(id: nat, cutoff: int, order: Order)
      requires Valid() && Fair(order) && id in byId
      modifies this
      ensures Valid() && View() == SweepStep(old(View()), id, cutoff, order).0
      ensures sent == old(sent) + SweepStep(old(View()), id, cutoff, order).1
    {
      var s := byId[id];
      if s.lastSeen >= cutoff {
        return;
      }
      Remove(s);
      BroadcastClientLeft(id, order);
    }

    method HandleRosterRequest(remote: EndPoint, order: Order)
      requires Valid() && Fair(order)
      modifies this`sent
      ensures Valid() && View() == old(View())
      ensures sent == old(sent) + RosterReply(old(View()), remote, order).1
    {
      if remote !in byEndPoint {
        return;
      }
      assert Enumerates(order(byId.Keys), byId.Keys);
      var ok := SendRoster(order(byId.Keys), byEndPoint[remote].info.id, remote);
    }

    /** Stamps the session registered at an endpoint. */
    method TouchSession(s: ClientSession, now: int)
      requires Valid() && s.info.id in byId && byId[s.info.id] == s
      modifies s
      ensures Valid() && View() == Touch(old(View()), s.info.id, now)
    {
      s.lastSeen := now;
      assert forall i :: i in byId && i != s.info.id ==> byId[i] != s;
    }

    method HandlePing(remote: EndPoint, timestamp: Option<uint32>, now: int)
      requires Valid()
      modifies this`sent, byId.Values
      ensures Valid() && View() == PingStep(old(View()), remote, timestamp, now).0
      ensures sent == old(sent) + PingStep(old(View()), remote, timestamp, now).1
    {
      if timestamp.None? {
        return;
      }
      if remote !in byEndPoint {
        return;
      }
      var s := byEndPoint[remote];
      TouchSession(s, now);
      Send(remote, Pong(timestamp.value));
    }

    /** Stamps the sender and passes its message on. */
    method RelayFrom(s: ClientSession, msg: Option<Msg>, now: int, order: Order)
      requires Valid() && Fair(order) && s.info.id in byId && byId[s.info.id] == s
      modifies this`sent, s
      ensures Valid() && View() == RelayOn(old(View()), s.info.id, msg, now, order).0
      ensures sent == old(sent) + RelayOn(old(View()), s.info.id, msg, now, order).1
    {
      TouchSession(s, now);
      if msg.None? {
        return;
      }
      assert Enumerates(order(byId.Keys), byId.Keys);
      SendToOthers(order(byId.Keys), s.info.id, msg.value);
    }

    method HandleVoiceUp(remote: EndPoint, frame: Option<VoiceFrame>, now: int, order: Order)
      requires Valid() && Fair(order)
      modifies this`sent, byId.Values
      ensures Valid() && View() == VoiceStep(old(View()), remote, frame, now, order).0
      ensures sent == old(sent) + VoiceStep(old(View()), remote, frame, now, order).1
    {
      if remote !in byEndPoint {
        return;
      }
      var s := byEndPoint[remote];
      RelayFrom(s, Forward(s.info.id, frame), now, order);
    }

    method HandleRadioTxUpdate(remote: EndPoint, tx: Option<Tx>, now: int, order: Order)
      requires Valid() && Fair(order)
      modifies this`sent, byId.Values
      ensures Valid() && View() == TransmissionStep(old(View()), remote, tx, now, order).0
      ensures sent == old(sent) + TransmissionStep(old(View()), remote, tx, now, order).1
    {
      if remote !in byEndPoint {
        return;
      }
      var s := byEndPoint[remote];
      RelayFrom(s, ForwardTx(s.info.id, tx), now, order);
    }

    /** Registers a new session under the three indexes. */
    method Register(remote: EndPoint, uid: string, name: string, now: int) returns (s: ClientSession)
      requires Valid()
      modifies this`byEndPoint, this`byId, this`byUid, this`nextId
      ensures Valid() && s.info == NewSession(old(View()), remote, uid, name)
      ensures View() == Insert(old(View()), s.info, now)
    {
      s := new ClientSession(Session(nextId, remote, uid, if name == "" then uid else name), now);
      LinkedWith(byEndPoint, byId, byUid, nextId, s);
      InfosWith(byEndPoint, remote, s);
      InfosWith(byId, nextId, s);
      InfosWith(byUid, uid, s);
      assert Seen(byId[s.info.id := s]) == old(Seen(byId))[s.info.id := now];
      nextId := nextId + 1;
      byEndPoint := byEndPoint[remote := s];
      byId := byId[s.info.id := s];
      byUid := byUid[uid := s];
    }

    /** Drops the session a uid already has, and tells the others. */
    method DropExisting(uid: string, order: Order)
      requires Valid() && Fair(order)
      modifies this
      ensures Valid() && View() == DropStale(old(View()), uid, order).0
      ensures sent == old(sent) + DropStale(old(View()), uid, order).1
    {
      if uid in byUid {
        var stale := byUid[uid];
        Remove(stale);
        BroadcastClientLeft(stale.info.id, order);
      }
    }

    /** Accepts a registered session, tells it who is there, and tells them it is there, unless that is cut short. */
    method Announce(s: ClientSession, order: Order)
      requires Valid() && Fair(order)
      modifies this`sent
      ensures sent == old(sent) + Announcements(Infos(byId), order(byId.Keys), s.info)
    {
      ghost var was := sent;
      ghost var ids := order(byId.Keys);
      Send(s.info.endPoint, Accept(s.info.id));
      assert Enumerates(order(byId.Keys), byId.Keys);
      var ok := SendRoster(order(byId.Keys), s.info.id, s.info.endPoint);
      ghost var accept, dump := [Packet(s.info.endPoint, Accept(s.info.id))], RosterDump(Infos(byId), ids, s.info.id, s.info.endPoint);
      Associative(was, accept, dump);
      if !ok {
        assert accept + dump + [] == accept + dump;
        return;
      }
      BroadcastClientJoined(s.info, order(byId.Keys));
      Associative(was, accept + dump, JoinedToOthers(Infos(byId), ids, s.info));
    }

    method AdmitClient(remote: EndPoint, uid: string, name: string, now: int, order: Order)
      requires Valid() && Fair(order)
      modifies this
      ensures Valid() && View() == AdmitIfRoom(old(View()), remote, uid, name, now, order, maxClients).0
      ensures sent == old(sent) + AdmitIfRoom(old(View()), remote, uid, name, now, order, maxClients).1
    {
      assert |byId| == |byId.Keys| && |Infos(byId)| == |Infos(byId).Keys|;
      if |byId| >= maxClients {
        Send(remote, Reject(ServerFull));
        return;
      }
      var s := Register(remote, uid, name, now);
      Announce(s, order);
    }

    method ReplaceSession(remote: EndPoint, uid: string, name: string, now: int, order: Order)
      requires Valid() && Fair(order)
      modifies this
      ensures Valid() && View() == Reconnect(old(View()), remote, uid, name, now, order, maxClients).0
      ensures sent == old(sent) + Reconnect(old(View()), remote, uid, name, now, order, maxClients).1
    {
      ghost var dropped := DropStale(View(), uid, order);
      DropExisting(uid, order);
      ghost var admitted := AdmitIfRoom(View(), remote, uid, name, now, order, maxClients);
      AdmitClient(remote, uid, name, now, order);
      Associative(old(sent), dropped.1, admitted.1);
    }

    method HandleConnectRequest(remote: EndPoint, r: Request, now: int, order: Order)
      requires Valid() && Fair(order)
      modifies this
      ensures Valid() && View() == ConnectStep(old(View()), remote, r, now, order, maxClients).0
      ensures sent == old(sent) + ConnectStep(old(View()), remote, r, now, order, maxClients).1
    {
      if r.WrongVersion? {
        Send(remote, Reject(VersionMismatch));
        return;
      }
      if r.Dropped? {
        return;
      }
      if r.Malformed? || r.uid == "" {
        Send(remote, Reject(BadRequest));
        return;
      }
      if !r.passwordOk {
        Send(remote, Reject(BadPassword));
        return;
      }
      ReplaceSession(remote, r.uid, r.name, now, order);
    }

    /** One packet, or one swept session. */
    method Handle(e: Event)
      requires Valid() && FairEvent(e) && (e.Sweep? ==> e.id in byId)
      modifies this, byId.Values
      ensures Valid() && View() == Step(old(View()), e, maxClients).0
      ensures sent == old(sent) + Step(old(View()), e, maxClients).1
    {
      match e {
        case Connect(remote, r, now, order) => HandleConnectRequest(remote, r, now, order);
        case Roster(remote, order) => HandleRosterRequest(remote, order);
        case Ping(remote, timestamp, now) => HandlePing(remote, timestamp, now);
        case Voice(remote, frame, now, order) => HandleVoiceUp(remote, frame, now, order);
        case Transmission(remote, tx, now, order) => HandleRadioTxUpdate(remote, tx, now, order);
        case Disconnect(remote, order) => HandleDisconnect(remote, order);
        case Sweep(id, cutoff, order) => SweepOne(id, cutoff, order);
      }
    }
  }
}
