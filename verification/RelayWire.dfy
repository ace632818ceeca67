/**
 The relay's table steps and the bytes they stand for: every announcement a step sends fits its buffer, a
 view takes notice of exactly those the client can read, and which requests can be announced.
 */
module RelayWire {
  import opened Wrappers
  import opened Relay
  import opened RosterView
  import opened Utf8
  import Wire
  import Messages

  const ID_LIMIT := 0x1_0000_0000

  /** The bytes of what the relay passes on, if they fit its buffer. */
  function OnWire(m: Msg): Option<seq<byte>>
    requires m.Joined? || m.Left? ==> m.id < ID_LIMIT
    requires m.VoiceDown? || m.RadioTx? ==> m.sender < ID_LIMIT
  {
    match m
    case Joined(id, uid, name) => Messages.JoinedPacket(id, uid, name)
    case Left(id) => Some(Messages.ClientLeft(id))
    case VoiceDown(sender, sequence, flags, opus) => Some(Messages.VoiceDown(sender, sequence, flags, opus))
    case RadioTx(sender, tx) =>
      if |Encode(tx.freq)| + |Encode(tx.sub)| <= Wire.MAX_FREQ + Wire.MAX_SUBTYPE
      then Some(Messages.RadioTxBroadcast(sender, tx.active, Encode(tx.freq), tx.range, Encode(tx.sub))) else None
    case _ => None
  }

  /** An announcement goes out if and only if it fits, and is read if and only if each of its strings is within its limit. */
  lemma {:induction false} JoinedOnWire(id: nat, uid: string, name: string)
    requires id < ID_LIMIT
    ensures OnWire(Joined(id, uid, name)).Some? <==> Wire.Fits(uid, name)
    ensures Wire.Fits(uid, name) ==>
              Messages.ForClient(OnWire(Joined(id, uid, name)).value) ==
              if Wire.Readable(uid, name) then Some(Messages.Joined(id, Encode(uid), Encode(name))) else None
  {
    if Wire.Fits(uid, name) {
      var u, n := Encode(uid), Encode(name);
      var body := Messages.NamesBody(u, n);
      Messages.SecondOnly(Messages.CLIENT_JOINED, Wire.PutU32(id) + body);
      Wire.TakePutU32(id, body);
      Wire.TakePutStr8(u, Wire.MAX_UID, Wire.Str8(n));
      Messages.TakeLastStr8(n, Wire.MAX_NAME);
    }
  }

  /** A view takes notice of an announcement if and only if the client can read its bytes. */
  lemma {:induction false} UpdateIsRead(v: View, id: nat, uid: string, name: string)
    requires id < ID_LIMIT && Wire.Fits(uid, name)
    ensures Update(v, Joined(id, uid, name)) ==
            if Messages.ForClient(OnWire(Joined(id, uid, name)).value).Some? then Join(v, id, uid, name) else v
  {
    JoinedOnWire(id, uid, name);
  }

  // ---------------------------------------------------------------- what a step sends

  lemma {:induction false} DumpFits(byId: map<nat, Session>, ids: seq<nat>, self: nat, to: EndPoint, p: Packet)
    requires p in Dump(byId, ids, self, to) && AllFit(byId, ids, self)
    ensures p.msg.Joined? && Wire.Fits(p.msg.uid, p.msg.name)
  {
    var n := |ids| - 1;
    if p in Dump(byId, ids[..n], self, to) {
      DumpFits(byId, ids[..n], self, to, p);
    } else {
      assert ids[n] in ids && Fits(byId[ids[n]]);
    }
  }

  lemma {:induction false} AnnouncementsFit(byId: map<nat, Session>, ids: seq<nat>, s: Session, p: Packet)
    requires p in Announcements(byId, ids, s) && p.msg.Joined?
    ensures Wire.Fits(p.msg.uid, p.msg.name)
  {
    if p in RosterDump(byId, ids, s.id, s.endPoint) {
      DumpFits(byId, FitPrefix(byId, ids, s.id), s.id, s.endPoint, p);
    } else {
      assert Fits(s);
      BroadcastTargets(byId, ids, s.id, JoinedOf(s), p);
    }
  }

  /** Every announcement a step sends fits the relay's buffer. */
  lemma {:induction false} StepFits(t: Table, e: Event, max: int, p: Packet)
    requires p in Step(t, e, max).1 && p.msg.Joined?
    ensures Wire.Fits(p.msg.uid, p.msg.name)
  {
    match e
    case Connect(remote, r, now, order) =>
      if IsAdmitted(t, e, max) {
        AdmissionFits(t, e, max, p);
      } else if Granted(r) {
        RefusedForRoom(t, e, max, p);
      }
    case Roster(remote, order) =>
      var self := t.byEndPoint[remote].id;
      DumpFits(t.byId, FitPrefix(t.byId, order(t.byId.Keys), self), self, remote, p);
    case Voice(_, _, _, _) => RelayedNeutral(t, e, max);
    case Transmission(_, _, _, _) => RelayedNeutral(t, e, max);
    case Disconnect(remote, order) =>
      var u := DisconnectStep(t, remote, order).0;
      BroadcastTargets(u.byId, order(u.byId.Keys), -1, Left(t.byEndPoint[remote].id), p);
    case Sweep(id, cutoff, order) =>
      var s := t.byId[id];
      var u := SweepOut(t, s, order).0;
      BroadcastTargets(u.byId, order(u.byId.Keys), -1, Left(s.id), p);
    case Ping(_, _, _) =>
  }

  lemma {:induction false} DropStaleNeutral(t: Table, uid: string, order: Order, p: Packet)
    requires p in DropStale(t, uid, order).1
    ensures p.msg.Left?
  {
    var u := DropStale(t, uid, order).0;
    BroadcastTargets(u.byId, order(u.byId.Keys), -1, Left(t.byUid[uid].id), p);
  }

  lemma {:induction false} AdmissionFits(t: Table, e: Event, max: int, p: Packet)
    requires IsAdmitted(t, e, max) && p in Step(t, e, max).1 && p.msg.Joined?
    ensures Wire.Fits(p.msg.uid, p.msg.name)
  {
    AdmittedStep(t, e, max);
    var (d, s) := Admitted(t, e);
    if p in DropStale(t, e.request.uid, e.order).1 {
      DropStaleNeutral(t, e.request.uid, e.order, p);
    } else {
      var u := Insert(d, s, e.now);
      AnnouncementsFit(u.byId, e.order(u.byId.Keys), s, p);
    }
  }

  lemma {:induction false} RefusedForRoom(t: Table, e: Event, max: int, p: Packet)
    requires e.Connect? && Granted(e.request) && !IsAdmitted(t, e, max) && p in Step(t, e, max).1
    ensures !p.msg.Joined?
  {
    if p in DropStale(t, e.request.uid, e.order).1 {
      DropStaleNeutral(t, e.request.uid, e.order, p);
    }
  }

  /** A departure announced by a step is that of a session the step removed. */
  lemma {:induction false} LeftIsGone(t: Table, e: Event, max: int, p: Packet)
    requires Inv(t, max) && p in Step(t, e, max).1 && p.msg.Left?
    ensures p.msg.id in t.byId && p.msg.id !in Step(t, e, max).0.byId
  {
    match e
    case Connect(remote, r, now, order) =>
      if Granted(r) {
        AdmissionLefts(t, e, max, p);
      }
    case Roster(remote, order) =>
      var self := t.byEndPoint[remote].id;
      DumpTargets(t.byId, FitPrefix(t.byId, order(t.byId.Keys), self), self, remote, p);
    case Voice(remote, frame, _, order) =>
      var id := t.byEndPoint[remote].id;
      BroadcastTargets(t.byId, order(t.byId.Keys), id, DownOf(id, frame.value), p);
    case Transmission(remote, tx, _, order) =>
      var id := t.byEndPoint[remote].id;
      BroadcastTargets(t.byId, order(t.byId.Keys), id, RadioTx(id, tx.value), p);
    case Disconnect(remote, order) =>
      var u := DisconnectStep(t, remote, order).0;
      BroadcastTargets(u.byId, order(u.byId.Keys), -1, Left(t.byEndPoint[remote].id), p);
    case Sweep(id, cutoff, order) =>
      var s := t.byId[id];
      var u := SweepOut(t, s, order).0;
      BroadcastTargets(u.byId, order(u.byId.Keys), -1, Left(s.id), p);
    case Ping(_, _, _) =>
  }

  lemma {:induction false} AdmissionLefts(t: Table, e: Event, max: int, p: Packet)
    requires Inv(t, max) && e.Connect? && Granted(e.request) && p in Step(t, e, max).1 && p.msg.Left?
    ensures p.msg.id in t.byId && p.msg.id !in Step(t, e, max).0.byId
  {
    var (d, s) := Admitted(t, e);
    if p in DropStale(t, e.request.uid, e.order).1 {
      BroadcastTargets(d.byId, e.order(d.byId.Keys), -1, Left(t.byUid[e.request.uid].id), p);
    } else if IsAdmitted(t, e, max) {
      var u := Insert(d, s, e.now);
      AdmittedStep(t, e, max);
      AnnouncementsName(u.byId, e.order(u.byId.Keys), s, p);
    }
  }

  /** As long as ids fit 32 bits, every departure a step announces is read by the clients as that of the removed session. */
  lemma {:induction false} LeftsRead(t: Table, e: Event, max: int, p: Packet)
    requires Inv(t, max) && t.nextId <= ID_LIMIT && p in Step(t, e, max).1 && p.msg.Left?
    ensures p.msg.id in t.byId && p.msg.id !in Step(t, e, max).0.byId
    ensures p.msg.id < ID_LIMIT && OnWire(p.msg).Some?
    ensures Messages.ForClient(OnWire(p.msg).value) == Some(Messages.Left(p.msg.id))
  {
    LeftIsGone(t, e, max, p);
    Messages.LeftRoundTrip(p.msg.id);
  }

  // ---------------------------------------------------------------- which requests can be announced

  /** The request of the table step for a request as it was read. */
  function ReadAs(m: Messages.Request, expectedHash: seq<byte>): Request {
    match m
    case WrongVersion => WrongVersion
    case Malformed => Malformed
    case Dropped => Dropped
    case Fields(hash, uid, name) => Fields(uid, name, hash == expectedHash)
  }

  /**
   A request that a client sends with well-formed names can be announced if and only if its name is not empty
   or its uid, cut to its limit, has at most 32 bytes.
   */
  lemma {:induction false} AnnounceableIff(hash: seq<byte>, uid: seq<byte>, name: seq<byte>, expectedHash: seq<byte>,
                                           replace: Wire.Replacement)
    requires |hash| == Wire.HASH_LENGTH && Valid(uid) && Valid(name)
    ensures var u, n := Truncated(uid, Wire.MAX_UID), Truncated(name, Wire.MAX_NAME);
            var r := ReadAs(Messages.RequestOf(Messages.ConnectRequest(hash, u, n)[1..], replace), expectedHash);
            r.Fields? && (Announceable(r) <==> n != [] || |u| <= Wire.MAX_NAME)
  {
    var u, n := Truncated(uid, Wire.MAX_UID), Truncated(name, Wire.MAX_NAME);
    TruncatedValid(uid, Wire.MAX_UID);
    TruncatedValid(name, Wire.MAX_NAME);
    Messages.RequestRoundTrip(hash, u, n, replace);
    Messages.TextRoundTrip(u, replace);
    Messages.TextRoundTrip(n, replace);
    Messages.EmptyText(n, replace);
  }

  /** A uid of 40 characters without a name is enough to cut the next admission short. */
  lemma {:induction false} HiddenReachable(a: EndPoint, b: EndPoint, uid: string, now: int, order: Order, max: int)
    requires a != b && max >= 2 && Fair(order) && |uid| == Wire.MAX_UID && forall i :: 0 <= i < |uid| ==> uid[i] == 'x'
    ensures var first, second := Connect(a, Fields(uid, "", true), now, order), Connect(b, Fields("u", "n", true), now, order);
            Hides(Run([first], max).0, second, max)
  {
    var first, second := Connect(a, Fields(uid, "", true), now, order), Connect(b, Fields("u", "n", true), now, order);
    var t := Run([first], max).0;
    FirstAdmitted(first, max);
    AsciiLength(uid);
    AsciiLength("u");
    AsciiLength("n");
    assert |t.byId| == 1;
    assert DropStale(t, "u", order).0 == t;
    var s := NewSession(t, b, "u", "n");
    var u := Insert(t, s, now);
    var ids := order(u.byId.Keys);
    assert Enumerates(ids, u.byId.Keys);
    assert 1 in u.byId && 1 in ids && u.byId[1] == t.byId[1] && !Fits(u.byId[1]);
    assert Known(s) && CutShort(u, s, ids);
  }
}
