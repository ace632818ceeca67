/**
 The relay server's session table: three indexes over the same sessions, changed one packet or one
 swept session at a time, and the packets each change sends.

 The clock, the order in which a dictionary is enumerated and the outcome of parsing a packet are
 inputs. Session ids do not wrap.
 */
module Relay {
  import opened Wrappers
  import opened Utf8
  import Wire

  type uint16 = Wire.uint16
  type uint32 = Wire.uint32

  datatype EndPoint = EndPoint(address: int, port: int)

  datatype Session = Session(id: nat, endPoint: EndPoint, uid: string, name: string)

  /** `lastSeen` holds the one mutable field of the sessions in `byId`. */
  datatype Table = Table(byEndPoint: map<EndPoint, Session>, byId: map<nat, Session>, byUid: map<string, Session>,
                         lastSeen: map<nat, int>, nextId: nat)

  datatype Reason = BadPassword | ServerFull | VersionMismatch | BadRequest

  datatype Tx = Tx(active: byte, freq: string, range: uint16, sub: string)

  datatype Msg =
    | Accept(id: nat)
    | Reject(reason: Reason)
    | Pong(timestamp: uint32)
    | VoiceDown(sender: nat, sequence: uint16, flags: byte, opus: seq<byte>)
    | Joined(id: nat, uid: string, name: string)
    | Left(id: nat)
    | RadioTx(sender: nat, tx: Tx)

  datatype Packet = Packet(to: EndPoint, msg: Msg)

  /** A parsed ConnectRequest; one that lacks a length byte is dropped without an answer. */
  datatype Request = WrongVersion | Malformed | Dropped | Fields(uid: string, name: string, passwordOk: bool)

  type Order = set<nat> -> seq<nat>

  /** A parsed VoiceUp. */
  datatype VoiceFrame = VoiceFrame(sequence: uint16, flags: byte, opus: seq<byte>)

  /** What a packet carries is `None` if it does not parse, or is a transmission whose text no longer fits. */
  datatype Event =
    | Connect(remote: EndPoint, request: Request, now: int, order: Order)
    | Roster(remote: EndPoint, order: Order)
    | Ping(remote: EndPoint, timestamp: Option<uint32>, now: int)
    | Voice(remote: EndPoint, frame: Option<VoiceFrame>, now: int, order: Order)
    | Transmission(remote: EndPoint, tx: Option<Tx>, now: int, order: Order)
    | Disconnect(remote: EndPoint, order: Order)
    | Sweep(id: nat, cutoff: int, order: Order)

  const MAX_OPUS := 500
  const EMPTY := Table(map[], map[], map[], map[], 1)

  /** `ids` lists the members of `s`, each once. */
  ghost predicate Enumerates(ids: seq<nat>, s: set<nat>) {
    && (forall i :: i in ids <==> i in s)
    && (forall i, j :: 0 <= i < j < |ids| ==> ids[i] != ids[j])
  }

  ghost predicate Fair(order: Order) {
    forall s :: Enumerates(order(s), s)
  }

  ghost predicate FairEvent(e: Event) {
    e.Ping? || Fair(e.order)
  }

  /** `msg` to the sessions of `ids` in turn, passing over `except`. */
  function Broadcast(byId: map<nat, Session>, ids: seq<nat>, except: int, msg: Msg): seq<Packet> {
    if ids == [] then []
    else
      var n := |ids| - 1;
      Broadcast(byId, ids[..n], except, msg) +
      (if ids[n] in byId && ids[n] != except then [Packet(byId[ids[n]].endPoint, msg)] else [])
  }

  function DownOf(id: nat, f: VoiceFrame): Msg { VoiceDown(id, f.sequence, f.flags, f.opus) }

  function JoinedOf(s: Session): Msg { Joined(s.id, s.uid, s.name) }

  /** The relay can announce the session: its names fit the buffer. */
  predicate Fits(s: Session) { Wire.Fits(s.uid, s.name) }

  /** The other clients can read the announcement. */
  predicate Known(s: Session) { Wire.Readable(s.uid, s.name) }

  predicate AllFit(byId: map<nat, Session>, ids: seq<nat>, self: nat) {
    forall i :: i in ids && i in byId && i != self ==> Fits(byId[i])
  }

  /** The sessions announced before the first one that does not fit, which ends the handling of the packet. */
  function FitPrefix(byId: map<nat, Session>, ids: seq<nat>, self: nat): (prefix: seq<nat>)
    ensures prefix <= ids && AllFit(byId, prefix, self)
  {
    if AllFit(byId, ids, self) then ids else FitPrefix(byId, ids[..|ids| - 1], self)
  }

  /** A Joined message to `to` for each session of `ids` in turn, passing over `self`. */
  function Dump(byId: map<nat, Session>, ids: seq<nat>, self: nat, to: EndPoint): seq<Packet> {
    if ids == [] then []
    else
      var n := |ids| - 1;
      Dump(byId, ids[..n], self, to) +
      (if ids[n] in byId && ids[n] != self then [Packet(to, JoinedOf(byId[ids[n]]))] else [])
  }

  function RosterDump(byId: map<nat, Session>, ids: seq<nat>, self: nat, to: EndPoint): seq<Packet> {
    Dump(byId, FitPrefix(byId, ids, self), self, to)
  }

  /** The announcement of `s` to everybody else, unless it does not fit. */
  function JoinedToOthers(byId: map<nat, Session>, ids: seq<nat>, s: Session): seq<Packet> {
    if Fits(s) then Broadcast(byId, ids, s.id, JoinedOf(s)) else []
  }

  /** What a newcomer is told, and what the others are told of it, unless that was cut short. */
  function Announcements(byId: map<nat, Session>, ids: seq<nat>, s: Session): seq<Packet> {
    [Packet(s.endPoint, Accept(s.id))] + RosterDump(byId, ids, s.id, s.endPoint)
    + (if AllFit(byId, ids, s.id) then JoinedToOthers(byId, ids, s) else [])
  }

  /** Removes a session object from wherever its own keys point. */
  function Forget(t: Table, s: Session): Table {
    t.(byEndPoint := t.byEndPoint - {s.endPoint}, byId := t.byId - {s.id}, byUid := t.byUid - {s.uid},
       lastSeen := t.lastSeen - {s.id})
  }

  function DropStale(t: Table, uid: string, order: Order): (Table, seq<Packet>) {
    if uid in t.byUid then
      var u := Forget(t, t.byUid[uid]).(byUid := t.byUid - {uid});
      (u, Broadcast(u.byId, order(u.byId.Keys), -1, Left(t.byUid[uid].id)))
    else (t, [])
  }

  function NewSession(t: Table, remote: EndPoint, uid: string, name: string): Session {
    Session(t.nextId, remote, uid, if name == "" then uid else name)
  }

  function Insert(t: Table, s: Session, now: int): Table {
    Table(t.byEndPoint[s.endPoint := s], t.byId[s.id := s], t.byUid[s.uid := s], t.lastSeen[s.id := now], t.nextId + 1)
  }

  function Admit(t: Table, s: Session, now: int, order: Order): (Table, seq<Packet>) {
    var u := Insert(t, s, now);
    (u, Announcements(u.byId, order(u.byId.Keys), s))
  }

  function AdmitIfRoom(t: Table, remote: EndPoint, uid: string, name: string, now: int, order: Order, max: int): (Table, seq<Packet>) {
    if |t.byId| >= max then (t, [Packet(remote, Reject(ServerFull))])
    else Admit(t, NewSession(t, remote, uid, name), now, order)
  }

  function Reconnect(t: Table, remote: EndPoint, uid: string, name: string, now: int, order: Order, max: int): (Table, seq<Packet>) {
    var dropped := DropStale(t, uid, order);
    var admitted := AdmitIfRoom(dropped.0, remote, uid, name, now, order, max);
    (admitted.0, dropped.1 + admitted.1)
  }

  /** The reason a request is refused before the table is looked at, if it is. */
  function Refusal(r: Request): Option<Reason> {
    match r
    case WrongVersion => Some(VersionMismatch)
    case Malformed => Some(BadRequest)
    case Dropped => None
    case Fields(uid, _, passwordOk) =>
      if uid == "" then Some(BadRequest) else if !passwordOk then Some(BadPassword) else None
  }

  predicate Granted(r: Request) { r.Fields? && Refusal(r).None? }

  function ConnectStep(t: Table, remote: EndPoint, r: Request, now: int, order: Order, max: int): (Table, seq<Packet>) {
    var refusal := Refusal(r);
    if refusal.Some? then (t, [Packet(remote, Reject(refusal.value))])
    else if r.Dropped? then (t, [])
    else Reconnect(t, remote, r.uid, r.name, now, order, max)
  }

  function Touch(t: Table, id: nat, now: int): Table {
    if id in t.byId then t.(lastSeen := t.lastSeen[id := now]) else t
  }

  function DisconnectStep(t: Table, remote: EndPoint, order: Order): (Table, seq<Packet>) {
    if remote !in t.byEndPoint then (t, [])
    else
      var s := t.byEndPoint[remote];
      var u := Forget(t, s).(byEndPoint := t.byEndPoint - {remote});
      (u, Broadcast(u.byId, order(u.byId.Keys), -1, Left(s.id)))
  }

  /** The sweep removes a session it found in an earlier snapshot, whether or not it is still registered. */
  function SweepOut(t: Table, s: Session, order: Order): (Table, seq<Packet>) {
    var u := Forget(t, s);
    (u, Broadcast(u.byId, order(u.byId.Keys), -1, Left(s.id)))
  }

  predicate Expired(t: Table, id: nat, cutoff: int) {
    id in t.byId && id in t.lastSeen && t.lastSeen[id] < cutoff
  }

  function SweepStep(t: Table, id: nat, cutoff: int, order: Order): (Table, seq<Packet>) {
    if Expired(t, id, cutoff) then SweepOut(t, t.byId[id], order) else (t, [])
  }

  function RosterReply(t: Table, remote: EndPoint, order: Order): (Table, seq<Packet>) {
    if remote !in t.byEndPoint then (t, [])
    else (t, RosterDump(t.byId, order(t.byId.Keys), t.byEndPoint[remote].id, remote))
  }

  /** A ping too short to carry a timestamp is dropped before anybody is stamped. */
  function PingStep(t: Table, remote: EndPoint, timestamp: Option<uint32>, now: int): (Table, seq<Packet>) {
    if timestamp.None? || remote !in t.byEndPoint then (t, [])
    else (Touch(t, t.byEndPoint[remote].id, now), [Packet(remote, Pong(timestamp.value))])
  }

  /** What a sender's packet becomes for the others, if it is passed on. */
  function Forward(id: nat, frame: Option<VoiceFrame>): Option<Msg> {
    if frame.None? || |frame.value.opus| > MAX_OPUS then None else Some(DownOf(id, frame.value))
  }

  function ForwardTx(id: nat, tx: Option<Tx>): Option<Msg> {
    if tx.None? then None else Some(RadioTx(id, tx.value))
  }

  /** Stamps the sender and passes its message on to everybody else. */
  function RelayOn(t: Table, id: nat, msg: Option<Msg>, now: int, order: Order): (Table, seq<Packet>) {
    (Touch(t, id, now), if msg.None? then [] else Broadcast(t.byId, order(t.byId.Keys), id, msg.value))
  }

  function VoiceStep(t: Table, remote: EndPoint, frame: Option<VoiceFrame>, now: int, order: Order): (Table, seq<Packet>) {
    if remote !in t.byEndPoint then (t, [])
    else RelayOn(t, t.byEndPoint[remote].id, Forward(t.byEndPoint[remote].id, frame), now, order)
  }

  function TransmissionStep(t: Table, remote: EndPoint, tx: Option<Tx>, now: int, order: Order): (Table, seq<Packet>) {
    if remote !in t.byEndPoint then (t, [])
    else RelayOn(t, t.byEndPoint[remote].id, ForwardTx(t.byEndPoint[remote].id, tx), now, order)
  }

  function Step(t: Table, e: Event, max: int): (Table, seq<Packet>) {
    match e
    case Connect(remote, r, now, order) => ConnectStep(t, remote, r, now, order, max)
    case Roster(remote, order) => RosterReply(t, remote, order)
    case Ping(remote, timestamp, now) => PingStep(t, remote, timestamp, now)
    case Voice(remote, frame, now, order) => VoiceStep(t, remote, frame, now, order)
    case Transmission(remote, tx, now, order) => TransmissionStep(t, remote, tx, now, order)
    case Disconnect(remote, order) => DisconnectStep(t, remote, order)
    case Sweep(id, cutoff, order) => SweepStep(t, id, cutoff, order)
  }

  /** The table after a run, and everything sent in it. */
  function Run(events: seq<Event>, max: int): (Table, seq<Packet>) {
    if events == [] then (EMPTY, [])
    else
      var before := Run(events[..|events| - 1], max);
      var last := Step(before.0, events[|events| - 1], max);
      (last.0, before.1 + last.1)
  }

  // ---------------------------------------------------------------- the indexes agree

  ghost predicate Indexed(t: Table) {
    && (forall i :: i in t.byId ==> t.byId[i].id == i && i < t.nextId)
    && (forall i :: i in t.byId ==> t.byId[i].uid in t.byUid && t.byUid[t.byId[i].uid] == t.byId[i])
    && (forall u :: u in t.byUid ==> u != "" && t.byUid[u].uid == u && t.byUid[u].id in t.byId && t.byId[t.byUid[u].id] == t.byUid[u])
    && t.lastSeen.Keys == t.byId.Keys
  }

  ghost predicate EndPointsLive(t: Table) {
    forall e :: e in t.byEndPoint ==>
                  t.byEndPoint[e].endPoint == e && t.byEndPoint[e].id in t.byId && t.byId[t.byEndPoint[e].id] == t.byEndPoint[e]
  }

  /** What every reachable table satisfies. */
  ghost predicate Inv(t: Table, max: int) {
    Indexed(t) && EndPointsLive(t) && (|t.byId| <= max || t.byId == map[])
  }

  /** Every live session is also found through its endpoint: the three indexes are in bijection. */
  ghost predicate ThreeWay(t: Table) {
    forall i :: i in t.byId ==> t.byId[i].endPoint in t.byEndPoint && t.byEndPoint[t.byId[i].endPoint] == t.byId[i]
  }

  lemma {:induction false} ForgetSize(t: Table, s: Session)
    ensures |Forget(t, s).byId| == |t.byId| - (if s.id in t.byId then 1 else 0)
  {
    assert Forget(t, s).byId.Keys == t.byId.Keys - {s.id};
    assert |Forget(t, s).byId| == |Forget(t, s).byId.Keys|;
  }

  lemma {:induction false} ForgetIndexed(t: Table, s: Session)
    requires Indexed(t) && s.id in t.byId && t.byId[s.id] == s
    ensures Indexed(Forget(t, s))
  {
  }

  lemma {:induction false} ForgetLive(t: Table, s: Session)
    requires Indexed(t) && EndPointsLive(t) && s.id in t.byId && t.byId[s.id] == s
    ensures EndPointsLive(Forget(t, s))
    ensures ThreeWay(t) ==> ThreeWay(Forget(t, s))
  {
  }

  lemma {:induction false} ForgetKeepsInv(t: Table, s: Session, max: int)
    requires Inv(t, max) && s.id in t.byId && t.byId[s.id] == s
    ensures Inv(Forget(t, s), max)
    ensures ThreeWay(t) ==> ThreeWay(Forget(t, s))
  {
    ForgetIndexed(t, s);
    ForgetLive(t, s);
    ForgetSize(t, s);
  }

  ghost predicate Fresh(t: Table, s: Session) {
    s.id == t.nextId && s.uid != "" && s.uid !in t.byUid
  }

  lemma {:induction false} InsertSize(t: Table, s: Session, now: int)
    requires s.id !in t.byId
    ensures |Insert(t, s, now).byId| == |t.byId| + 1
  {
    assert Insert(t, s, now).byId.Keys == t.byId.Keys + {s.id};
    assert |Insert(t, s, now).byId| == |Insert(t, s, now).byId.Keys|;
  }

  lemma {:induction false} InsertKeys(t: Table, s: Session, now: int)
    requires t.lastSeen.Keys == t.byId.Keys
    ensures Insert(t, s, now).lastSeen.Keys == Insert(t, s, now).byId.Keys
  {
    assert Insert(t, s, now).lastSeen.Keys == t.lastSeen.Keys + {s.id};
    assert Insert(t, s, now).byId.Keys == t.byId.Keys + {s.id};
  }

  lemma {:induction false} InsertKeepsIndexed(t: Table, s: Session, now: int)
    requires Indexed(t) && Fresh(t, s)
    ensures Indexed(Insert(t, s, now)) && s.id !in t.byId
  {
    InsertKeys(t, s, now);
  }

  lemma {:induction false} InsertKeepsInv(t: Table, s: Session, now: int, max: int)
    requires Inv(t, max) && |t.byId| < max && Fresh(t, s)
    ensures Inv(Insert(t, s, now), max)
  {
    InsertKeepsIndexed(t, s, now);
    InsertSize(t, s, now);
  }

  lemma {:induction false} InsertThreeWayIff(t: Table, s: Session, now: int)
    requires Indexed(t) && EndPointsLive(t) && Fresh(t, s) && ThreeWay(t)
    ensures ThreeWay(Insert(t, s, now)) <==> s.endPoint !in t.byEndPoint
  {
    var u := Insert(t, s, now);
    if s.endPoint in t.byEndPoint {
      var lost := t.byEndPoint[s.endPoint];
      assert u.byId[lost.id] == lost && u.byEndPoint[lost.endPoint] != lost;
    }
  }

  lemma {:induction false} DropStaleKeepsInv(t: Table, uid: string, order: Order, max: int)
    requires Inv(t, max)
    ensures var u := DropStale(t, uid, order).0;
            && Inv(u, max) && uid !in u.byUid && u.nextId == t.nextId
            && u.byEndPoint.Keys == t.byEndPoint.Keys - (if uid in t.byUid then {t.byUid[uid].endPoint} else {})
            && (forall e :: e in u.byEndPoint ==> u.byEndPoint[e] == t.byEndPoint[e])
            && |u.byId| == |t.byId| - (if uid in t.byUid then 1 else 0)
            && (ThreeWay(t) ==> ThreeWay(u))
  {
    if uid in t.byUid {
      ForgetKeepsInv(t, t.byUid[uid], max);
      ForgetSize(t, t.byUid[uid]);
    }
  }

  lemma {:induction false} ReconnectKeepsInv(t: Table, remote: EndPoint, uid: string, name: string, now: int, order: Order, max: int)
    requires Inv(t, max) && uid != ""
    ensures var u := Reconnect(t, remote, uid, name, now, order, max).0;
            Inv(u, max) && t.nextId <= u.nextId
  {
    DropStaleKeepsInv(t, uid, order, max);
    var u := DropStale(t, uid, order).0;
    if |u.byId| < max {
      InsertKeepsInv(u, NewSession(u, remote, uid, name), now, max);
    }
  }

  lemma {:induction false} TouchKeepsInv(t: Table, id: nat, now: int, max: int)
    requires Inv(t, max)
    ensures Inv(Touch(t, id, now), max) && (ThreeWay(t) ==> ThreeWay(Touch(t, id, now)))
  {
  }

  lemma {:induction false} StepKeepsInv(t: Table, e: Event, max: int)
    requires Inv(t, max)
    ensures Inv(Step(t, e, max).0, max) && t.nextId <= Step(t, e, max).0.nextId
  {
    match e
    case Connect(remote, r, now, order) =>
      if Granted(r) {
        ReconnectKeepsInv(t, remote, r.uid, r.name, now, order, max);
      }
    case Disconnect(remote, order) =>
      if remote in t.byEndPoint {
        ForgetKeepsInv(t, t.byEndPoint[remote], max);
      }
    case Sweep(id, cutoff, order) =>
      if Expired(t, id, cutoff) {
        ForgetKeepsInv(t, t.byId[id], max);
      }
    case Roster(_, _) =>
    case _ =>
      if e.remote in t.byEndPoint {
        TouchKeepsInv(t, t.byEndPoint[e.remote].id, e.now, max);
      }
  }

  lemma {:induction false} RunInv(events: seq<Event>, max: int)
    ensures Inv(Run(events, max).0, max)
  {
    if events != [] {
      RunInv(events[..|events| - 1], max);
      StepKeepsInv(Run(events[..|events| - 1], max).0, events[|events| - 1], max);
    }
  }

  lemma {:induction false} KnownUidReplaced(t: Table, e: Event, max: int)
    requires Inv(t, max) && e.Connect? && Granted(e.request) && e.request.uid in t.byUid
    ensures var s := NewSession(t, e.remote, e.request.uid, e.request.name);
            Step(t, e, max).0 == Insert(Forget(t, t.byUid[e.request.uid]), s, e.now)
    ensures |Step(t, e, max).0.byId| == |t.byId|
  {
    var stale := t.byUid[e.request.uid];
    assert Forget(t, stale).(byUid := t.byUid - {e.request.uid}) == Forget(t, stale);
    ForgetSize(t, stale);
    assert t.byId[stale.id] == stale;
    InsertSize(Forget(t, stale), NewSession(t, e.remote, e.request.uid, e.request.name), e.now);
  }

  /** In every reachable state, a uid that already has a session is given a new one: never turned away as ServerFull. */
  lemma {:induction false} KnownUidAdmitted(events: seq<Event>, max: int, e: Event)
    requires e.Connect? && Granted(e.request)
    requires e.request.uid in Run(events, max).0.byUid
    ensures var t := Run(events, max).0;
            var u := Step(t, e, max).0;
            && e.request.uid in u.byUid && u.byUid[e.request.uid].id == t.nextId
            && u.byUid[e.request.uid].endPoint == e.remote && |u.byId| == |t.byId|
  {
    RunInv(events, max);
    KnownUidReplaced(Run(events, max).0, e, max);
  }

  /** A request that will be admitted from an endpoint registered under another uid. */
  predicate Overwrites(t: Table, e: Event, max: int) {
    && e.Connect? && Granted(e.request)
    && e.remote in t.byEndPoint && t.byEndPoint[e.remote].uid != e.request.uid
    && |t.byId| - (if e.request.uid in t.byUid then 1 else 0) < max
  }

  /** The three indexes stay in bijection exactly as long as no endpoint is taken over by another uid. */
  lemma {:induction false} StepThreeWayIff(t: Table, e: Event, max: int)
    requires Inv(t, max) && ThreeWay(t)
    ensures ThreeWay(Step(t, e, max).0) <==> !Overwrites(t, e, max)
  {
    match e
    case Connect(remote, r, now, order) =>
      if Granted(r) {
        ReconnectThreeWayIff(t, remote, r.uid, r.name, now, order, max);
      }
    case Disconnect(remote, order) =>
      if remote in t.byEndPoint {
        ForgetKeepsInv(t, t.byEndPoint[remote], max);
      }
    case Sweep(id, cutoff, order) =>
      if Expired(t, id, cutoff) {
        ForgetKeepsInv(t, t.byId[id], max);
      }
    case Roster(_, _) =>
    case _ =>
      if e.remote in t.byEndPoint {
        TouchKeepsInv(t, t.byEndPoint[e.remote].id, e.now, max);
      }
  }

  /** The first request of all, if it is granted, is admitted. */
  lemma {:induction false} FirstAdmitted(e: Event, max: int)
    requires e.Connect? && Granted(e.request) && max >= 1
    ensures var s := NewSession(EMPTY, e.remote, e.request.uid, e.request.name);
            Run([e], max).0 == Insert(EMPTY, s, e.now) && Run([e], max).0.byId == map[1 := s]
  {
    assert [e][..0] == [] && Run([], max).0 == EMPTY;
    assert DropStale(EMPTY, e.request.uid, e.order).0 == EMPTY && |EMPTY.byId| == 0;
    assert Run([e], max).0 == Step(EMPTY, e, max).0 == Reconnect(EMPTY, e.remote, e.request.uid, e.request.name, e.now, e.order, max).0;
  }

  lemma {:induction false} RunOfTwo(e: Event, f: Event, max: int)
    ensures Run([e, f], max).0 == Step(Run([e], max).0, f, max).0
  {
    assert [e, f][..1] == [e];
  }

  /** Two clients behind one endpoint are enough to lose the bijection. */
  lemma {:induction false} TakeoverReachable(remote: EndPoint, now: int, order: Order, max: int)
    requires max >= 2
    ensures var first, second := Connect(remote, Fields("a", "", true), now, order), Connect(remote, Fields("b", "", true), now, order);
            && Overwrites(Run([first], max).0, second, max)
            && !ThreeWay(Run([first, second], max).0)
  {
    var first, second := Connect(remote, Fields("a", "", true), now, order), Connect(remote, Fields("b", "", true), now, order);
    FirstAdmitted(first, max);
    RunOfTwo(first, second, max);
    RunInv([first], max);
    var t := Run([first], max).0;
    assert |t.byId| == 1 && t.byEndPoint[remote].uid == "a" && "b" !in t.byUid;
    assert ThreeWay(t) && Overwrites(t, second, max);
    StepThreeWayIff(t, second, max);
  }

  lemma {:induction false} ReconnectThreeWayIff(t: Table, remote: EndPoint, uid: string, name: string, now: int, order: Order, max: int)
    requires Inv(t, max) && ThreeWay(t) && uid != ""
    ensures ThreeWay(Reconnect(t, remote, uid, name, now, order, max).0) <==>
            !(remote in t.byEndPoint && t.byEndPoint[remote].uid != uid && |t.byId| - (if uid in t.byUid then 1 else 0) < max)
  {
    DropStaleKeepsInv(t, uid, order, max);
    var u := DropStale(t, uid, order).0;
    if |u.byId| < max {
      InsertThreeWayIff(u, NewSession(u, remote, uid, name), now);
      assert remote in u.byEndPoint <==> remote in t.byEndPoint && t.byEndPoint[remote].uid != uid;
    }
  }

  /** No admitted request of the run comes from an endpoint registered under another uid. */
  ghost predicate OneUidPerEndPoint(events: seq<Event>, max: int) {
    forall k :: 0 <= k < |events| ==> !Overwrites(Run(events[..k], max).0, events[k], max)
  }

  lemma {:induction false} OneUidPrefix(events: seq<Event>, max: int)
    requires events != [] && OneUidPerEndPoint(events, max)
    ensures OneUidPerEndPoint(events[..|events| - 1], max)
  {
    var init := events[..|events| - 1];
    forall k | 0 <= k < |init|
      ensures !Overwrites(Run(init[..k], max).0, init[k], max)
    {
      assert init[..k] == events[..k];
    }
  }

  lemma {:induction false} RunThreeWay(events: seq<Event>, max: int)
    requires OneUidPerEndPoint(events, max)
    ensures ThreeWay(Run(events, max).0)
  {
    if events != [] {
      var n := |events| - 1;
      OneUidPrefix(events, max);
      RunThreeWay(events[..n], max);
      RunInv(events[..n], max);
      StepThreeWayIff(Run(events[..n], max).0, events[n], max);
    }
  }

  lemma {:induction false} StaleSweepBreaks(t: Table, s: Session, order: Order)
    requires Indexed(t) && s.uid in t.byUid && s.id !in t.byId
    ensures !Indexed(SweepOut(t, s, order).0)
  {
    var u := SweepOut(t, s, order).0;
    var id := t.byUid[s.uid].id;
    assert id in u.byId && u.byId[id].uid !in u.byUid;
  }

  lemma {:induction false} StaleSweepHarmless(t: Table, s: Session, order: Order)
    requires s.uid !in t.byUid && s.id !in t.byId && t.lastSeen.Keys == t.byId.Keys
    ensures SweepOut(t, s, order).0 == t.(byEndPoint := t.byEndPoint - {s.endPoint})
  {
    assert t.byId - {s.id} == t.byId && t.byUid - {s.uid} == t.byUid && t.lastSeen - {s.id} == t.lastSeen;
  }

  /**
   Why a swept session must be one atomic step: sweeping a session that is no longer registered keeps the id
   and uid indexes in agreement if and only if its uid has not been registered again in the meantime, and all
   three in bijection if and only if its endpoint has not been either.
   */
  lemma {:induction false} StaleSweepIff(t: Table, s: Session, order: Order, max: int)
    requires Inv(t, max) && s.id !in t.byId
    ensures Inv(SweepOut(t, s, order).0, max) <==> s.uid !in t.byUid
    ensures ThreeWay(t) ==>
              (Inv(SweepOut(t, s, order).0, max) && ThreeWay(SweepOut(t, s, order).0) <==>
               s.uid !in t.byUid && s.endPoint !in t.byEndPoint)
  {
    if s.uid in t.byUid {
      StaleSweepBreaks(t, s, order);
    } else {
      StaleSweepHarmless(t, s, order);
      EndPointLossIff(t, s.endPoint);
    }
  }

  /** A client that reconnects between the snapshot and the removal is enough for a stale sweep to break the indexes. */
  lemma {:induction false} StaleSweepReachable(a: EndPoint, b: EndPoint, now: int, order: Order, max: int)
    requires max >= 1
    ensures var first, second := Connect(a, Fields("u", "", true), now, order), Connect(b, Fields("u", "", true), now, order);
            var t, s := Run([first, second], max).0, Session(1, a, "u", "u");
            && Run([first], max).0.byId == map[1 := s]
            && s.id !in t.byId && !Inv(SweepOut(t, s, order).0, max)
  {
    var first, second := Connect(a, Fields("u", "", true), now, order), Connect(b, Fields("u", "", true), now, order);
    FirstAdmitted(first, max);
    RunOfTwo(first, second, max);
    RunInv([first], max);
    RunInv([first, second], max);
    KnownUidReplaced(Run([first], max).0, second, max);
    StaleSweepIff(Run([first, second], max).0, Session(1, a, "u", "u"), order, max);
  }

  /** Losing an endpoint entry ends the bijection if and only if there was one. */
  lemma {:induction false} EndPointLossIff(t: Table, e: EndPoint)
    requires Indexed(t) && EndPointsLive(t)
    ensures var u := t.(byEndPoint := t.byEndPoint - {e});
            Indexed(u) && EndPointsLive(u) && (ThreeWay(t) ==> (ThreeWay(u) <==> e !in t.byEndPoint))
  {
    var u := t.(byEndPoint := t.byEndPoint - {e});
    if e in t.byEndPoint {
      assert t.byEndPoint[e].id in u.byId;
    } else {
      assert u == t;
    }
  }

  // ---------------------------------------------------------------- who is sent anything

  ghost predicate HasSession(t: Table, e: EndPoint) {
    exists i :: i in t.byId && t.byId[i].endPoint == e
  }

  lemma {:induction false} BroadcastTargets(byId: map<nat, Session>, ids: seq<nat>, except: int, msg: Msg, p: Packet)
    requires p in Broadcast(byId, ids, except, msg)
    ensures p.msg == msg && exists i :: i in byId && byId[i].endPoint == p.to
  {
    var n := |ids| - 1;
    if p in Broadcast(byId, ids[..n], except, msg) {
      BroadcastTargets(byId, ids[..n], except, msg, p);
    } else {
      assert byId[ids[n]].endPoint == p.to;
    }
  }

  lemma {:induction false} DumpTargets(byId: map<nat, Session>, ids: seq<nat>, self: nat, to: EndPoint, p: Packet)
    requires p in Dump(byId, ids, self, to)
    ensures p.to == to && p.msg.Joined?
  {
    var n := |ids| - 1;
    if p in Dump(byId, ids[..n], self, to) {
      DumpTargets(byId, ids[..n], self, to, p);
    }
  }

  /** Every packet goes to a live session, or answers the ConnectRequest being handled. */
  lemma {:induction false} StepTargets(t: Table, e: Event, max: int, p: Packet)
    requires Inv(t, max) && p in Step(t, e, max).1
    ensures HasSession(Step(t, e, max).0, p.to) || (e.Connect? && p.to == e.remote)
  {
    match e
    case Connect(remote, r, now, order) =>
      if Granted(r) {
        ConnectTargets(t, remote, r, now, order, max, p);
      }
    case Roster(remote, order) =>
      DumpTargets(t.byId, FitPrefix(t.byId, order(t.byId.Keys), t.byEndPoint[remote].id), t.byEndPoint[remote].id, remote, p);
      assert t.byId[t.byEndPoint[remote].id].endPoint == remote;
    case Ping(remote, timestamp, now) =>
      assert Touch(t, t.byEndPoint[remote].id, now).byId[t.byEndPoint[remote].id].endPoint == remote;
    case Voice(remote, frame, now, order) =>
      var id := t.byEndPoint[remote].id;
      BroadcastTargets(t.byId, order(t.byId.Keys), id, DownOf(id, frame.value), p);
    case Transmission(remote, tx, now, order) =>
      var id := t.byEndPoint[remote].id;
      BroadcastTargets(t.byId, order(t.byId.Keys), id, RadioTx(id, tx.value), p);
    case Disconnect(remote, order) =>
      var u := DisconnectStep(t, remote, order).0;
      BroadcastTargets(u.byId, order(u.byId.Keys), -1, Left(t.byEndPoint[remote].id), p);
    case Sweep(id, cutoff, order) =>
      var u := SweepOut(t, t.byId[id], order).0;
      BroadcastTargets(u.byId, order(u.byId.Keys), -1, Left(id), p);
  }

  lemma {:induction false} AnnouncementsTargets(byId: map<nat, Session>, ids: seq<nat>, s: Session, p: Packet)
    requires p in Announcements(byId, ids, s)
    ensures p.to == s.endPoint || exists i :: i in byId && byId[i].endPoint == p.to
  {
    if p in RosterDump(byId, ids, s.id, s.endPoint) {
      DumpTargets(byId, FitPrefix(byId, ids, s.id), s.id, s.endPoint, p);
    } else if p in JoinedToOthers(byId, ids, s) {
      BroadcastTargets(byId, ids, s.id, JoinedOf(s), p);
    }
  }

  lemma {:induction false} AnnouncementsName(byId: map<nat, Session>, ids: seq<nat>, s: Session, p: Packet)
    requires p in Announcements(byId, ids, s)
    ensures p.msg.Accept? || p.msg.Joined?
  {
    if p in RosterDump(byId, ids, s.id, s.endPoint) {
      DumpTargets(byId, FitPrefix(byId, ids, s.id), s.id, s.endPoint, p);
    } else if p in JoinedToOthers(byId, ids, s) {
      BroadcastTargets(byId, ids, s.id, JoinedOf(s), p);
    }
  }

  lemma {:induction false} ConnectTargets(t: Table, remote: EndPoint, r: Request, now: int, order: Order, max: int, p: Packet)
    requires Inv(t, max) && Granted(r) && p in ConnectStep(t, remote, r, now, order, max).1
    ensures p.to == remote || HasSession(ConnectStep(t, remote, r, now, order, max).0, p.to)
  {
    DropStaleKeepsInv(t, r.uid, order, max);
    var d := DropStale(t, r.uid, order);
    var s := NewSession(d.0, remote, r.uid, r.name);
    var u := Insert(d.0, s, now);
    if p in d.1 {
      BroadcastTargets(d.0.byId, order(d.0.byId.Keys), -1, Left(t.byUid[r.uid].id), p);
      var i :| i in d.0.byId && d.0.byId[i].endPoint == p.to;
      assert u.byId[i].endPoint == p.to;
    } else if |d.0.byId| < max {
      AnnouncementsTargets(u.byId, order(u.byId.Keys), s, p);
    }
  }

  function RunFrom(t: Table, events: seq<Event>, max: int): (Table, seq<Packet>) {
    if events == [] then (t, [])
    else
      var before := RunFrom(t, events[..|events| - 1], max);
      var last := Step(before.0, events[|events| - 1], max);
      (last.0, before.1 + last.1)
  }

  ghost predicate NeverConnects(events: seq<Event>, e: EndPoint) {
    forall k :: 0 <= k < |events| && events[k].Connect? ==> events[k].remote != e
  }

  /** An endpoint without a session gets none, and hears nothing, until it asks to connect. */
  lemma {:induction false} SilentUntilConnect(t: Table, events: seq<Event>, max: int, e: EndPoint)
    requires Inv(t, max) && !HasSession(t, e) && NeverConnects(events, e)
    ensures Inv(RunFrom(t, events, max).0, max) && !HasSession(RunFrom(t, events, max).0, e)
    ensures forall p :: p in RunFrom(t, events, max).1 ==> p.to != e
  {
    if events != [] {
      var n := |events| - 1;
      SilentUntilConnect(t, events[..n], max, e);
      var u := RunFrom(t, events[..n], max).0;
      StepKeepsInv(u, events[n], max);
      NoNewSession(u, events[n], max, e);
      forall p | p in Step(u, events[n], max).1
        ensures p.to != e
      {
        StepTargets(u, events[n], max, p);
      }
    }
  }

  lemma {:induction false} NoNewSession(t: Table, e: Event, max: int, ep: EndPoint)
    requires Inv(t, max) && !HasSession(t, ep) && (e.Connect? ==> e.remote != ep)
    ensures !HasSession(Step(t, e, max).0, ep)
  {
    var u := Step(t, e, max).0;
    if e.Connect? {
      forall i | i in u.byId
        ensures u.byId[i].endPoint != ep
      {
        ConnectSession(t, e, max, i);
      }
    } else {
      assert forall i :: i in u.byId ==> i in t.byId && u.byId[i] == t.byId[i];
    }
  }

  /** After a request a session is an old one, or the one the request asked for. */
  lemma {:induction false} ConnectSession(t: Table, e: Event, max: int, i: nat)
    requires e.Connect? && i in Step(t, e, max).0.byId
    ensures var u := Step(t, e, max).0;
            || (i in t.byId && u.byId[i] == t.byId[i])
            || (Granted(e.request) && u.byId[i].endPoint == e.remote && u.byId[i].uid == e.request.uid &&
                u.byId[i].name == if e.request.name == "" then e.request.uid else e.request.name)
  {
    if Granted(e.request) {
      var d := DropStale(t, e.request.uid, e.order).0;
      assert Step(t, e, max).0 == if |d.byId| >= max then d
                                  else Insert(d, NewSession(d, e.remote, e.request.uid, e.request.name), e.now);
    } else {
      assert Step(t, e, max).0 == t;
    }
  }

  /** A step changes no session: those with a known id were there before. */
  lemma {:induction false} StepKeepsSessions(t: Table, e: Event, max: int, i: nat)
    requires Inv(t, max) && i in Step(t, e, max).0.byId && i < t.nextId
    ensures i in t.byId && Step(t, e, max).0.byId[i] == t.byId[i]
  {
    var u := Step(t, e, max).0;
    if e.Connect? && Granted(e.request) {
      var d := DropStale(t, e.request.uid, e.order).0;
      assert d.nextId == t.nextId && forall j :: j in d.byId ==> j in t.byId && d.byId[j] == t.byId[j];
      assert u == if |d.byId| >= max then d else Insert(d, NewSession(d, e.remote, e.request.uid, e.request.name), e.now);
    } else if e.Connect? {
      assert u == t;
    } else {
      assert forall j :: j in u.byId ==> j in t.byId && u.byId[j] == t.byId[j];
    }
  }
}
