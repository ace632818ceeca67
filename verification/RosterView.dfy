/**
 The roster a client rebuilds from the relay's messages, and its agreement with the relay's table under
 lossless in-order delivery.
 */
module RosterView {
  import opened Relay
  import opened Wrappers
  import opened Sequences
  import Wire

  /** Playback sources, and the two lookups from a name to a session. */
  datatype View = View(sources: set<nat>, uidToSession: map<string, nat>, nameToSession: map<string, nat>)

  const NOBODY := View({}, map[], map[])

  /** Removes every entry that leads to `id`. */
  function Without<K>(m: map<K, nat>, id: nat): map<K, nat> {
    map k | k in m && m[k] != id :: m[k]
  }

  function Join(v: View, id: nat, uid: string, name: string): View {
    View(v.sources + {id}, v.uidToSession[uid := id],
         if name == "" then v.nameToSession else v.nameToSession[name := id])
  }

  function Leave(v: View, id: nat): View {
    View(v.sources - {id}, Without(v.uidToSession, id), Without(v.nameToSession, id))
  }

  /** An accepted handshake starts from an empty roster; an announcement that cannot be read is ignored. */
  function Update(v: View, m: Msg): View {
    match m
    case Accept(_) => NOBODY
    case Joined(id, uid, name) => if Wire.Readable(uid, name) then Join(v, id, uid, name) else v
    case Left(id) => Leave(v, id)
    case _ => v
  }

  /** The view of the client at `e` after the packets of `log`, in order. */
  function Fold(v: View, log: seq<Packet>, e: EndPoint): View {
    if log == [] then v
    else
      var n := |log| - 1;
      var before := Fold(v, log[..n], e);
      if log[n].to == e then Update(before, log[n].msg) else before
  }

  lemma {:induction false} FoldConcat(v: View, a: seq<Packet>, b: seq<Packet>, e: EndPoint)
    ensures Fold(v, a + b, e) == Fold(Fold(v, a, e), b, e)
  {
    if b == [] {
      assert a + b == a;
    } else {
      FoldConcat(v, a, b[..|b| - 1], e);
      assert (a + b)[..|a| + |b| - 1] == a + b[..|b| - 1];
    }
  }

  /** A session that `self` is to know of: another one that can be announced. */
  predicate Other(t: Table, id: nat, self: nat) { id in t.byId && id != self && Known(t.byId[id]) }

  function OtherIds(t: Table, self: nat): set<nat> { set i | i in t.byId && Other(t, i, self) }

  /** Some of the sessions, by uid. */
  function UidsOf(t: Table, ids: set<nat>): map<string, nat> {
    map u | u in t.byUid && t.byUid[u].id in ids :: t.byUid[u].id
  }

  /** Name entries are sound: they lead to another live session of that name, so at most one name leads to each. */
  ghost predicate NamesSound(t: Table, self: nat, names: map<string, nat>) {
    forall n :: n in names ==> n != "" && names[n] != self && names[n] in t.byId && t.byId[names[n]].name == n
  }

  /** The view of session `self` is exactly the table's other sessions that can be announced. */
  ghost predicate Agrees(t: Table, self: nat, v: View) {
    && v.sources == OtherIds(t, self)
    && v.uidToSession == UidsOf(t, OtherIds(t, self))
    && NamesSound(t, self, v.nameToSession)
  }

  ghost predicate AllAgree(t: Table, log: seq<Packet>) {
    forall i :: i in t.byId ==> Agrees(t, i, Fold(NOBODY, log, t.byId[i].endPoint))
  }

  /** A message that leaves every view alone. */
  predicate Neutral(m: Msg) { !m.Accept? && !m.Joined? && !m.Left? }

  lemma {:induction false} FoldNeutral(v: View, log: seq<Packet>, e: EndPoint)
    requires forall p :: p in log && p.to == e ==> Neutral(p.msg)
    ensures Fold(v, log, e) == v
  {
    if log != [] {
      FoldNeutral(v, log[..|log| - 1], e);
      assert log[|log| - 1] in log;
    }
  }

  ghost predicate Distinct(ids: seq<nat>) {
    forall i, j :: 0 <= i < j < |ids| ==> ids[i] != ids[j]
  }

  /** Different live sessions have different endpoints. */
  lemma {:induction false} EndPointsDiffer(t: Table, i: nat, j: nat)
    requires ThreeWay(t) && Indexed(t) && i in t.byId && j in t.byId && i != j
    ensures t.byId[i].endPoint != t.byId[j].endPoint
  {
  }

  /** A broadcast reaches each listed session once. */
  lemma {:induction false} FoldBroadcast(t: Table, ids: seq<nat>, except: int, msg: Msg, i: nat, v: View)
    requires ThreeWay(t) && Indexed(t) && i in t.byId && Distinct(ids)
    ensures Fold(v, Broadcast(t.byId, ids, except, msg), t.byId[i].endPoint) ==
            if i in ids && i != except then Update(v, msg) else v
  {
    if ids != [] {
      var n := |ids| - 1;
      FoldBroadcast(t, ids[..n], except, msg, i, v);
      FoldConcat(v, Broadcast(t.byId, ids[..n], except, msg),
                 if ids[n] in t.byId && ids[n] != except then [Packet(t.byId[ids[n]].endPoint, msg)] else [],
                 t.byId[i].endPoint);
      if ids[n] in t.byId && ids[n] != i {
        EndPointsDiffer(t, ids[n], i);
      }
      assert i in ids <==> i in ids[..n] || i == ids[n];
      FoldOne(Fold(v, Broadcast(t.byId, ids[..n], except, msg), t.byId[i].endPoint), ids[n], t, except, msg, t.byId[i].endPoint);
    }
  }

  lemma {:induction false} FoldOne(v: View, id: nat, t: Table, except: int, msg: Msg, e: EndPoint)
    ensures Fold(v, if id in t.byId && id != except then [Packet(t.byId[id].endPoint, msg)] else [], e) ==
            if id in t.byId && id != except && t.byId[id].endPoint == e then Update(v, msg) else v
  {
    if id in t.byId && id != except {
      var p := Packet(t.byId[id].endPoint, msg);
      assert [p][..0] == [];
      assert Fold(v, [p], e) == if p.to == e then Update(v, msg) else v;
    }
  }

  /** The view `w` has the given sessions more than `v`. */
  ghost predicate Adds(t: Table, ids: set<nat>, self: nat, v: View, w: View) {
    && w.sources == v.sources + ids
    && w.uidToSession == v.uidToSession + UidsOf(t, ids)
    && (NamesSound(t, self, v.nameToSession) ==> NamesSound(t, self, w.nameToSession))
  }

  /** What a roster dump adds to a view: those of the listed sessions that can be announced. */
  ghost predicate Dumped(t: Table, ids: seq<nat>, self: nat, v: View, w: View) {
    Adds(t, DumpedIds(t, ids, self), self, v, w)
  }

  function DumpedIds(t: Table, ids: seq<nat>, self: nat): set<nat> { set i | i in ids && Other(t, i, self) }

  lemma {:induction false} UidsStep(t: Table, ids: set<nat>, id: nat)
    requires Indexed(t) && id in t.byId
    ensures UidsOf(t, ids + {id}) == UidsOf(t, ids)[t.byId[id].uid := id]
  {
    assert forall u :: u in t.byUid && t.byUid[u].id == id ==> u == t.byId[id].uid;
  }

  lemma {:induction false} JoinKeepsNames(t: Table, id: nat, self: nat, w: View)
    requires Indexed(t) && NamesSound(t, self, w.nameToSession) && id in t.byId && id != self
    ensures NamesSound(t, self, Join(w, id, t.byId[id].uid, t.byId[id].name).nameToSession)
  {
  }

  lemma {:induction false} DumpedIdsStep(t: Table, ids: seq<nat>, id: nat, self: nat)
    ensures DumpedIds(t, ids + [id], self) == if Other(t, id, self) then DumpedIds(t, ids, self) + {id} else DumpedIds(t, ids, self)
  {
  }

  lemma {:induction false} DumpedNames(t: Table, id: nat, self: nat, w: View)
    requires Indexed(t) && id in t.byId && id != self
    ensures NamesSound(t, self, w.nameToSession) ==>
              NamesSound(t, self, Join(w, id, t.byId[id].uid, t.byId[id].name).nameToSession)
  {
    if NamesSound(t, self, w.nameToSession) {
      JoinKeepsNames(t, id, self, w);
    }
  }

  lemma {:induction false} AddedLast(v: map<string, nat>, w: map<string, nat>, uid: string, id: nat)
    ensures v + w[uid := id] == (v + w)[uid := id]
  {
  }

  lemma {:induction false} JoinAdds(t: Table, ids: set<nat>, id: nat, self: nat, v: View, w: View)
    requires Indexed(t) && id in t.byId && id != self && Adds(t, ids, self, v, w)
    ensures Adds(t, ids + {id}, self, v, Join(w, id, t.byId[id].uid, t.byId[id].name))
  {
    UidsStep(t, ids, id);
    AddedLast(v.uidToSession, UidsOf(t, ids), t.byId[id].uid, id);
    DumpedNames(t, id, self, w);
  }

  lemma {:induction false} DumpedStep(t: Table, ids: seq<nat>, id: nat, self: nat, v: View, w: View)
    requires Indexed(t) && Dumped(t, ids, self, v, w)
    ensures var x := if Other(t, id, self) then Join(w, id, t.byId[id].uid, t.byId[id].name) else w;
            Dumped(t, ids + [id], self, v, x)
  {
    DumpedIdsStep(t, ids, id, self);
    if Other(t, id, self) {
      JoinAdds(t, DumpedIds(t, ids, self), id, self, v, w);
    }
  }

  lemma {:induction false} DumpSnoc(byId: map<nat, Session>, ids: seq<nat>, id: nat, self: nat, to: EndPoint)
    ensures var before := Dump(byId, ids, self, to);
            Dump(byId, ids + [id], self, to) ==
            if id in byId && id != self then before + [Packet(to, JoinedOf(byId[id]))] else before
  {
    assert (ids + [id])[..|ids|] == ids;
    assert Dump(byId, ids, self, to) + [] == Dump(byId, ids, self, to);
  }

  /** What the last of the listed sessions adds to the view. */
  lemma {:induction false} FoldDumpStep(t: Table, ids: seq<nat>, id: nat, self: nat, to: EndPoint, v: View)
    requires Indexed(t)
    ensures var w := Fold(v, Dump(t.byId, ids, self, to), to);
            Fold(v, Dump(t.byId, ids + [id], self, to), to) ==
            if Other(t, id, self) then Join(w, id, t.byId[id].uid, t.byId[id].name) else w
  {
    var before := Dump(t.byId, ids, self, to);
    DumpSnoc(t.byId, ids, id, self, to);
    if id in t.byId && id != self {
      var p := Packet(to, JoinedOf(t.byId[id]));
      FoldConcat(v, before, [p], to);
      FoldSingle(Fold(v, before, to), p, to);
    }
  }

  lemma {:induction false} FoldDump(t: Table, ids: seq<nat>, self: nat, to: EndPoint, v: View)
    requires Indexed(t)
    ensures Dumped(t, ids, self, v, Fold(v, Dump(t.byId, ids, self, to), to))
  {
    if ids != [] {
      var n := |ids| - 1;
      FoldDump(t, ids[..n], self, to, v);
      DumpedStep(t, ids[..n], ids[n], self, v, Fold(v, Dump(t.byId, ids[..n], self, to), to));
      FoldDumpStep(t, ids[..n], ids[n], self, to, v);
      assert ids[..n] + [ids[n]] == ids;
    }
  }

  lemma {:induction false} FoldSingle(v: View, p: Packet, e: EndPoint)
    ensures Fold(v, [p], e) == if p.to == e then Update(v, p.msg) else v
  {
    assert [p][..0] == [];
  }

  // ---------------------------------------------------------------- what each step does to a view

  lemma {:induction false} LeaveIds(t: Table, s: Session, self: nat)
    ensures OtherIds(Forget(t, s), self) == OtherIds(t, self) - {s.id}
  {
  }

  lemma {:induction false} LeaveUids(t: Table, s: Session, ids: set<nat>)
    requires Indexed(t) && s.id in t.byId && t.byId[s.id] == s
    ensures UidsOf(Forget(t, s), ids - {s.id}) == Without(UidsOf(t, ids), s.id)
  {
    assert forall k :: k in t.byUid ==> (k == s.uid <==> t.byUid[k].id == s.id);
  }

  lemma {:induction false} LeaveAgrees(t: Table, s: Session, self: nat, v: View)
    requires Indexed(t) && s.id in t.byId && t.byId[s.id] == s && self in t.byId && self != s.id
    requires Agrees(t, self, v)
    ensures Agrees(Forget(t, s), self, Leave(v, s.id))
  {
    LeaveIds(t, s, self);
    LeaveUids(t, s, OtherIds(t, self));
  }

  lemma {:induction false} JoinIds(t: Table, s: Session, now: int, self: nat)
    requires Indexed(t) && Fresh(t, s) && self in t.byId
    ensures OtherIds(Insert(t, s, now), self) == OtherIds(t, self) + (if Known(s) then {s.id} else {})
  {
    var u := Insert(t, s, now);
    forall i
      ensures i in OtherIds(u, self) <==> i in OtherIds(t, self) || (Known(s) && i == s.id)
    {
    }
  }

  lemma {:induction false} JoinUids(t: Table, s: Session, now: int, ids: set<nat>)
    requires Indexed(t) && Fresh(t, s) && ids <= t.byId.Keys
    ensures UidsOf(Insert(t, s, now), ids + {s.id}) == UidsOf(t, ids)[s.uid := s.id]
    ensures UidsOf(Insert(t, s, now), ids) == UidsOf(t, ids)
  {
    assert s.id !in t.byId;
  }

  lemma {:induction false} JoinAgrees(t: Table, s: Session, now: int, self: nat, v: View)
    requires Indexed(t) && Fresh(t, s) && self in t.byId && Agrees(t, self, v)
    ensures Agrees(Insert(t, s, now), self, if Known(s) then Join(v, s.id, s.uid, s.name) else v)
  {
    JoinIds(t, s, now, self);
    JoinUids(t, s, now, OtherIds(t, self));
    JoinNames(t, s, now, self, v.nameToSession);
  }

  lemma {:induction false} JoinNames(t: Table, s: Session, now: int, self: nat, names: map<string, nat>)
    requires Indexed(t) && Fresh(t, s) && self in t.byId && NamesSound(t, self, names)
    ensures NamesSound(Insert(t, s, now), self, names)
    ensures s.name != "" ==> NamesSound(Insert(t, s, now), self, names[s.name := s.id])
  {
  }

  /** A dump of any sessions leaves an agreeing view as it is but for the names. */
  lemma {:induction false} RepeatAgrees(t: Table, ids: seq<nat>, self: nat, v: View, w: View)
    requires Indexed(t) && Dumped(t, ids, self, v, w) && Agrees(t, self, v)
    ensures Agrees(t, self, w)
  {
    assert v.sources + DumpedIds(t, ids, self) == v.sources;
    assert v.uidToSession + UidsOf(t, DumpedIds(t, ids, self)) == v.uidToSession;
  }

  /** A dump makes an empty view agree if and only if it lists every session that can be announced. */
  lemma {:induction false} DumpAgreesIff(t: Table, ids: seq<nat>, self: nat, w: View)
    requires Indexed(t) && Dumped(t, ids, self, NOBODY, w)
    ensures Agrees(t, self, w) <==> forall i :: Other(t, i, self) ==> i in ids
  {
    assert w.sources == DumpedIds(t, ids, self) && w.uidToSession == UidsOf(t, DumpedIds(t, ids, self));
    DumpedAllIff(t, ids, self);
  }

  lemma {:induction false} DumpedAllIff(t: Table, ids: seq<nat>, self: nat)
    ensures DumpedIds(t, ids, self) == OtherIds(t, self) <==> forall i :: Other(t, i, self) ==> i in ids
  {
    if exists i :: Other(t, i, self) && i !in ids {
      var i :| Other(t, i, self) && i !in ids;
      assert i in OtherIds(t, self) && i !in DumpedIds(t, ids, self);
    }
  }

  lemma {:induction false} HearsOfLeaving(t: Table, s: Session, log: seq<Packet>, ids: seq<nat>, i: nat)
    requires Indexed(t) && ThreeWay(t) && s.id in t.byId && t.byId[s.id] == s
    requires var u := Forget(t, s);
             Indexed(u) && ThreeWay(u) && Enumerates(ids, u.byId.Keys) && i in u.byId
    requires Agrees(t, i, Fold(NOBODY, log, t.byId[i].endPoint))
    ensures var u := Forget(t, s);
            Agrees(u, i, Fold(NOBODY, log + Broadcast(u.byId, ids, -1, Left(s.id)), u.byId[i].endPoint))
  {
    var u := Forget(t, s);
    var v := Fold(NOBODY, log, t.byId[i].endPoint);
    var out := Broadcast(u.byId, ids, -1, Left(s.id));
    FoldConcat(NOBODY, log, out, u.byId[i].endPoint);
    FoldBroadcast(u, ids, -1, Left(s.id), i, v);
    LeaveAgrees(t, s, i, v);
  }

  /** The remaining sessions hear that `s` left. */
  lemma {:induction false} ForgetStep(t: Table, s: Session, log: seq<Packet>, order: Order)
    requires Indexed(t) && EndPointsLive(t) && ThreeWay(t) && s.id in t.byId && t.byId[s.id] == s && Fair(order)
    requires AllAgree(t, log)
    ensures var u := Forget(t, s);
            AllAgree(u, log + Broadcast(u.byId, order(u.byId.Keys), -1, Left(s.id)))
  {
    var u := Forget(t, s);
    ForgetIndexed(t, s);
    ForgetLive(t, s);
    assert Enumerates(order(u.byId.Keys), u.byId.Keys);
    forall i | i in u.byId
      ensures Agrees(u, i, Fold(NOBODY, log + Broadcast(u.byId, order(u.byId.Keys), -1, Left(s.id)), u.byId[i].endPoint))
    {
      HearsOfLeaving(t, s, log, order(u.byId.Keys), i);
    }
  }

  /** Packets that no view takes notice of. */
  lemma {:induction false} NeutralStep(t: Table, u: Table, log: seq<Packet>, out: seq<Packet>)
    requires AllAgree(t, log) && u.byId == t.byId && u.byUid == t.byUid
    requires forall p :: p in out ==> Neutral(p.msg)
    ensures AllAgree(u, log + out)
  {
    forall i | i in u.byId
      ensures Agrees(u, i, Fold(NOBODY, log + out, u.byId[i].endPoint))
    {
      FoldConcat(NOBODY, log, out, u.byId[i].endPoint);
      FoldNeutral(Fold(NOBODY, log, u.byId[i].endPoint), out, u.byId[i].endPoint);
      assert OtherIds(u, i) == OtherIds(t, i) && UidsOf(u, OtherIds(u, i)) == UidsOf(t, OtherIds(t, i));
    }
  }

  /** A roster reply, complete or cut short, confirms what its client already knows, and nobody else hears it. */
  lemma {:induction false} RosterStep(t: Table, log: seq<Packet>, remote: EndPoint, order: Order)
    requires Indexed(t) && EndPointsLive(t) && ThreeWay(t) && remote in t.byEndPoint
    requires AllAgree(t, log)
    ensures AllAgree(t, log + RosterDump(t.byId, order(t.byId.Keys), t.byEndPoint[remote].id, remote))
  {
    var self := t.byEndPoint[remote].id;
    var ids := FitPrefix(t.byId, order(t.byId.Keys), self);
    var out := Dump(t.byId, ids, self, remote);
    forall i | i in t.byId
      ensures Agrees(t, i, Fold(NOBODY, log + out, t.byId[i].endPoint))
    {
      var v := Fold(NOBODY, log, t.byId[i].endPoint);
      FoldConcat(NOBODY, log, out, t.byId[i].endPoint);
      if i == self {
        FoldDump(t, ids, self, remote, v);
        RepeatAgrees(t, ids, self, v, Fold(v, out, remote));
      } else {
        EndPointsDiffer(t, i, self);
        DumpElsewhere(t, ids, self, remote, v, t.byId[i].endPoint);
      }
    }
  }

  lemma {:induction false} DumpElsewhere(t: Table, ids: seq<nat>, self: nat, to: EndPoint, v: View, e: EndPoint)
    requires e != to
    ensures Fold(v, Dump(t.byId, ids, self, to), e) == v
  {
    forall p | p in Dump(t.byId, ids, self, to)
      ensures p.to != e
    {
      DumpTargets(t.byId, ids, self, to, p);
    }
    FoldNeutral(v, Dump(t.byId, ids, self, to), e);
  }

  // ---------------------------------------------------------------- an admission

  /**
   The announcements of an admission leave something unsaid: a session that does not fit cuts them short
   before the newcomer, which can be announced, is announced, or before some other such session is.
   */
  ghost predicate CutShort(u: Table, s: Session, ids: seq<nat>) {
    && !AllFit(u.byId, ids, s.id)
    && (Known(s) || exists i :: Other(u, i, s.id) && i !in FitPrefix(u.byId, ids, s.id))
  }

  /** A session that can be announced fits the buffer. */
  lemma {:induction false} KnownFits(s: Session)
    ensures Known(s) ==> Fits(s)
  {
  }

  /** The three parts of an admission, as one client sees them. */
  lemma {:induction false} FoldAdmit(u: Table, s: Session, ids: seq<nat>, log: seq<Packet>, i: nat)
    requires Indexed(u) && ThreeWay(u) && Enumerates(ids, u.byId.Keys)
    requires s.id in u.byId && u.byId[s.id] == s && i in u.byId
    ensures
      var e := u.byId[i].endPoint;
      Fold(NOBODY, log + Announcements(u.byId, ids, s), e) ==
      if i == s.id then Fold(NOBODY, RosterDump(u.byId, ids, s.id, s.endPoint), e)
      else if AllFit(u.byId, ids, s.id) && Known(s) then Join(Fold(NOBODY, log, e), s.id, s.uid, s.name)
      else Fold(NOBODY, log, e)
  {
    var e := u.byId[i].endPoint;
    var v := Fold(NOBODY, log, e);
    var accept := Packet(s.endPoint, Accept(s.id));
    var dump := RosterDump(u.byId, ids, s.id, s.endPoint);
    var all := if AllFit(u.byId, ids, s.id) then JoinedToOthers(u.byId, ids, s) else [];
    KnownFits(s);
    FoldConcat(NOBODY, log, [accept] + dump + all, e);
    FoldConcat(v, [accept] + dump, all, e);
    FoldConcat(v, [accept], dump, e);
    FoldSingle(v, accept, e);
    FoldOthers(u, s, ids, i, Fold(v, [accept] + dump, e));
    if i != s.id {
      EndPointsDiffer(u, i, s.id);
      DumpElsewhere(u, FitPrefix(u.byId, ids, s.id), s.id, s.endPoint, v, e);
    }
  }

  lemma {:induction false} FoldOthers(u: Table, s: Session, ids: seq<nat>, i: nat, v: View)
    requires Indexed(u) && ThreeWay(u) && Enumerates(ids, u.byId.Keys)
    requires s.id in u.byId && u.byId[s.id] == s && i in u.byId
    ensures Fold(v, if AllFit(u.byId, ids, s.id) then JoinedToOthers(u.byId, ids, s) else [], u.byId[i].endPoint) ==
            if i != s.id && AllFit(u.byId, ids, s.id) && Known(s) then Join(v, s.id, s.uid, s.name) else v
  {
    var out := if AllFit(u.byId, ids, s.id) then JoinedToOthers(u.byId, ids, s) else [];
    KnownFits(s);
    if AllFit(u.byId, ids, s.id) && Fits(s) {
      assert out == Broadcast(u.byId, ids, s.id, JoinedOf(s));
      FoldBroadcast(u, ids, s.id, JoinedOf(s), i, v);
    } else {
      assert out == [];
    }
  }

  /** After an admission the newcomer agrees if and only if every session that can be announced was. */
  lemma {:induction false} NewcomerAgreesIff(u: Table, s: Session, ids: seq<nat>, log: seq<Packet>)
    requires Indexed(u) && ThreeWay(u) && Enumerates(ids, u.byId.Keys) && s.id in u.byId && u.byId[s.id] == s
    ensures Agrees(u, s.id, Fold(NOBODY, log + Announcements(u.byId, ids, s), s.endPoint)) <==>
            forall i :: Other(u, i, s.id) ==> i in FitPrefix(u.byId, ids, s.id)
  {
    var prefix := FitPrefix(u.byId, ids, s.id);
    FoldAdmit(u, s, ids, log, s.id);
    FoldDump(u, prefix, s.id, s.endPoint, NOBODY);
    DumpAgreesIff(u, prefix, s.id, Fold(NOBODY, Dump(u.byId, prefix, s.id, s.endPoint), s.endPoint));
  }

  /** After an admission an older client agrees if and only if the newcomer was announced or cannot be. */
  lemma {:induction false} OlderAgreesIff(t: Table, s: Session, now: int, ids: seq<nat>, log: seq<Packet>, i: nat)
    requires Indexed(t) && Fresh(t, s) && ThreeWay(Insert(t, s, now)) && Enumerates(ids, Insert(t, s, now).byId.Keys)
    requires i in t.byId && Agrees(t, i, Fold(NOBODY, log, t.byId[i].endPoint))
    ensures var u := Insert(t, s, now);
            Agrees(u, i, Fold(NOBODY, log + Announcements(u.byId, ids, s), t.byId[i].endPoint)) <==>
            AllFit(u.byId, ids, s.id) || !Known(s)
  {
    var u := Insert(t, s, now);
    var v := Fold(NOBODY, log, t.byId[i].endPoint);
    InsertKeepsIndexed(t, s, now);
    FoldAdmit(u, s, ids, log, i);
    JoinAgrees(t, s, now, i, v);
    if !AllFit(u.byId, ids, s.id) && Known(s) {
      assert Other(u, s.id, i) && s.id in OtherIds(u, i) && s.id !in v.sources;
    }
  }

  /** The older clients agree after an admission if and only if the newcomer was announced or cannot be. */
  lemma {:induction false} OlderAllAgreeIff(t: Table, s: Session, now: int, ids: seq<nat>, log: seq<Packet>)
    requires Indexed(t) && Fresh(t, s) && ThreeWay(Insert(t, s, now)) && Enumerates(ids, Insert(t, s, now).byId.Keys)
    requires AllAgree(t, log)
    ensures var u := Insert(t, s, now);
            (forall i :: i in t.byId ==> Agrees(u, i, Fold(NOBODY, log + Announcements(u.byId, ids, s), t.byId[i].endPoint))) <==>
            AllFit(u.byId, ids, s.id) || !Known(s)
  {
    var u := Insert(t, s, now);
    forall i | i in t.byId
      ensures Agrees(u, i, Fold(NOBODY, log + Announcements(u.byId, ids, s), t.byId[i].endPoint)) <==>
              AllFit(u.byId, ids, s.id) || !Known(s)
    {
      OlderAgreesIff(t, s, now, ids, log, i);
    }
    if !AllFit(u.byId, ids, s.id) {
      var x :| x in ids && x in u.byId && x != s.id && !Fits(u.byId[x]);
      assert x in t.byId;
    }
  }

  /** An admission from a free endpoint keeps everybody in agreement if and only if it is not cut short. */
  lemma {:induction false} AdmitAgreesIff(t: Table, s: Session, now: int, log: seq<Packet>, order: Order)
    requires Indexed(t) && EndPointsLive(t) && ThreeWay(t) && Fresh(t, s) && s.endPoint !in t.byEndPoint && Fair(order)
    requires AllAgree(t, log)
    ensures var (u, out) := Admit(t, s, now, order);
            AllAgree(u, log + out) <==> !CutShort(u, s, order(u.byId.Keys))
  {
    var (u, out) := Admit(t, s, now, order);
    InsertKeepsIndexed(t, s, now);
    InsertThreeWayIff(t, s, now);
    assert Enumerates(order(u.byId.Keys), u.byId.Keys);
    NewcomerAgreesIff(u, s, order(u.byId.Keys), log);
    OlderAllAgreeIff(t, s, now, order(u.byId.Keys), log);
    EverybodyAgreesIff(t, s, now, log + out);
    CutShortIff(u, s, order(u.byId.Keys));
  }

  lemma {:induction false} CutShortIff(u: Table, s: Session, ids: seq<nat>)
    requires Enumerates(ids, u.byId.Keys)
    ensures !CutShort(u, s, ids) <==>
            (forall i :: Other(u, i, s.id) ==> i in FitPrefix(u.byId, ids, s.id)) && (AllFit(u.byId, ids, s.id) || !Known(s))
  {
    FitPrefixComplete(u, s, ids);
  }

  /** The clients after an admission are the older ones and the newcomer. */
  lemma {:induction false} EverybodyAgreesIff(t: Table, s: Session, now: int, log: seq<Packet>)
    requires s.id !in t.byId
    ensures var u := Insert(t, s, now);
            AllAgree(u, log) <==>
            Agrees(u, s.id, Fold(NOBODY, log, s.endPoint)) &&
            forall i :: i in t.byId ==> Agrees(u, i, Fold(NOBODY, log, t.byId[i].endPoint))
  {
    var u := Insert(t, s, now);
    forall i
      ensures i in u.byId <==> i == s.id || i in t.byId
      ensures i in t.byId ==> u.byId[i] == t.byId[i]
    {
    }
    assert u.byId[s.id] == s;
  }

  /** If everything fits, nothing is left out of the dump. */
  lemma {:induction false} FitPrefixComplete(u: Table, s: Session, ids: seq<nat>)
    requires Enumerates(ids, u.byId.Keys)
    ensures AllFit(u.byId, ids, s.id) ==> forall i :: Other(u, i, s.id) ==> i in FitPrefix(u.byId, ids, s.id)
  {
  }

  /** Pings, voice and transmissions leave every view alone. */
  lemma {:induction false} TrafficAgrees(t: Table, log: seq<Packet>, e: Event, max: int)
    requires AllAgree(t, log) && (e.Ping? || e.Voice? || e.Transmission?)
    ensures AllAgree(Step(t, e, max).0, log + Step(t, e, max).1)
  {
    if !e.Ping? {
      RelayedNeutral(t, e, max);
    }
    NeutralStep(t, Step(t, e, max).0, log, Step(t, e, max).1);
  }

  lemma {:induction false} DepartureAgrees(t: Table, log: seq<Packet>, e: Event, max: int)
    requires Inv(t, max) && ThreeWay(t) && AllAgree(t, log) && FairEvent(e) && (e.Disconnect? || e.Sweep?)
    ensures AllAgree(Step(t, e, max).0, log + Step(t, e, max).1)
  {
    if e.Disconnect? && e.remote in t.byEndPoint {
      ForgetStep(t, t.byEndPoint[e.remote], log, e.order);
    } else if e.Sweep? && Expired(t, e.id, e.cutoff) {
      ForgetStep(t, t.byId[e.id], log, e.order);
    } else {
      NeutralStep(t, t, log, []);
    }
  }

  lemma {:induction false} RelayedNeutral(t: Table, e: Event, max: int)
    requires e.Voice? || e.Transmission?
    ensures forall p :: p in Step(t, e, max).1 ==> Neutral(p.msg)
  {
    if e.remote in t.byEndPoint {
      var id := t.byEndPoint[e.remote].id;
      forall p | p in Step(t, e, max).1
        ensures Neutral(p.msg)
      {
        var msg := if e.Voice? then DownOf(id, e.frame.value) else RadioTx(id, e.tx.value);
        BroadcastTargets(t.byId, e.order(t.byId.Keys), id, msg, p);
      }
    }
  }

  lemma {:induction false} DropAgrees(t: Table, log: seq<Packet>, uid: string, order: Order, max: int)
    requires Inv(t, max) && ThreeWay(t) && AllAgree(t, log) && Fair(order)
    ensures AllAgree(DropStale(t, uid, order).0, log + DropStale(t, uid, order).1)
  {
    if uid in t.byUid {
      assert Forget(t, t.byUid[uid]).(byUid := t.byUid - {uid}) == Forget(t, t.byUid[uid]);
      ForgetStep(t, t.byUid[uid], log, order);
    } else {
      assert log + [] == log;
    }
  }

  /** The table, and the newcomer, of a request that is admitted. */
  function Admitted(t: Table, e: Event): (Table, Session)
    requires e.Connect? && Granted(e.request)
  {
    var d := DropStale(t, e.request.uid, e.order).0;
    (d, NewSession(d, e.remote, e.request.uid, e.request.name))
  }

  predicate IsAdmitted(t: Table, e: Event, max: int) {
    e.Connect? && Granted(e.request) && |Admitted(t, e).0.byId| < max
  }

  /** An admission whose announcements are cut short. */
  ghost predicate Hides(t: Table, e: Event, max: int) {
    && IsAdmitted(t, e, max)
    && var (d, s) := Admitted(t, e);
       var u := Insert(d, s, e.now);
       CutShort(u, s, e.order(u.byId.Keys))
  }

  /** An admission as the dropping of the old session and the entry of the new one. */
  lemma {:induction false} AdmittedStep(t: Table, e: Event, max: int)
    requires IsAdmitted(t, e, max)
    ensures var (d, s) := Admitted(t, e);
            Step(t, e, max) == (Admit(d, s, e.now, e.order).0, DropStale(t, e.request.uid, e.order).1 + Admit(d, s, e.now, e.order).1)
  {
  }

  lemma {:induction false} AdmissionAgreesIff(t: Table, log: seq<Packet>, e: Event, max: int)
    requires Inv(t, max) && ThreeWay(t) && AllAgree(t, log) && IsAdmitted(t, e, max) && Fair(e.order)
    requires !Overwrites(t, e, max)
    ensures AllAgree(Step(t, e, max).0, log + Step(t, e, max).1) <==> !Hides(t, e, max)
  {
    var (d, s) := Admitted(t, e);
    var dropped := DropStale(t, e.request.uid, e.order).1;
    DropStaleKeepsInv(t, e.request.uid, e.order, max);
    DropAgrees(t, log, e.request.uid, e.order, max);
    FreeEndPoint(t, e.remote, e.request, e.now, e.order, max);
    AdmittedStep(t, e, max);
    Associative(log, dropped, Admit(d, s, e.now, e.order).1);
    AdmitAgreesIff(d, s, e.now, log + dropped, e.order);
  }

  lemma {:induction false} ConnectAgreesIff(t: Table, log: seq<Packet>, e: Event, max: int)
    requires Inv(t, max) && ThreeWay(t) && AllAgree(t, log) && e.Connect? && Fair(e.order) && Granted(e.request)
    requires !Overwrites(t, e, max)
    ensures AllAgree(Step(t, e, max).0, log + Step(t, e, max).1) <==> !Hides(t, e, max)
  {
    if IsAdmitted(t, e, max) {
      AdmissionAgreesIff(t, log, e, max);
    } else {
      var (d, dropped) := DropStale(t, e.request.uid, e.order);
      DropAgrees(t, log, e.request.uid, e.order, max);
      Associative(log, dropped, [Packet(e.remote, Reject(ServerFull))]);
      NeutralStep(d, d, log + dropped, [Packet(e.remote, Reject(ServerFull))]);
    }
  }

  lemma {:induction false} FreeEndPoint(t: Table, remote: EndPoint, r: Request, now: int, order: Order, max: int)
    requires Inv(t, max) && ThreeWay(t) && Granted(r)
    requires !Overwrites(t, Connect(remote, r, now, order), max) && |DropStale(t, r.uid, order).0.byId| < max
    ensures remote !in DropStale(t, r.uid, order).0.byEndPoint
  {
    DropStaleKeepsInv(t, r.uid, order, max);
  }

  /** A request that is not granted changes nothing and tells nobody of anybody. */
  lemma {:induction false} RefusedAgrees(t: Table, log: seq<Packet>, e: Event, max: int)
    requires AllAgree(t, log) && e.Connect? && !Granted(e.request)
    ensures AllAgree(Step(t, e, max).0, log + Step(t, e, max).1)
  {
    NeutralStep(t, t, log, Step(t, e, max).1);
  }

  lemma {:induction false} OtherStepAgrees(t: Table, log: seq<Packet>, e: Event, max: int)
    requires Inv(t, max) && ThreeWay(t) && AllAgree(t, log) && FairEvent(e) && !e.Connect?
    ensures AllAgree(Step(t, e, max).0, log + Step(t, e, max).1)
  {
    if e.Roster? {
      if e.remote in t.byEndPoint {
        RosterStep(t, log, e.remote, e.order);
      } else {
        NeutralStep(t, t, log, []);
      }
    } else if e.Disconnect? || e.Sweep? {
      DepartureAgrees(t, log, e, max);
    } else {
      TrafficAgrees(t, log, e, max);
    }
  }

  /**
   A step keeps the indexes in bijection and every live client in agreement if and only if it neither takes
   over an endpoint nor is an admission whose announcements are cut short.
   */
  lemma {:induction false} StepAgreesIff(t: Table, log: seq<Packet>, e: Event, max: int)
    requires Inv(t, max) && ThreeWay(t) && AllAgree(t, log) && FairEvent(e)
    ensures ThreeWay(Step(t, e, max).0) && AllAgree(Step(t, e, max).0, log + Step(t, e, max).1) <==>
            !Overwrites(t, e, max) && !Hides(t, e, max)
  {
    StepThreeWayIff(t, e, max);
    if !Overwrites(t, e, max) {
      if !e.Connect? {
        OtherStepAgrees(t, log, e, max);
      } else if Granted(e.request) {
        ConnectAgreesIff(t, log, e, max);
      } else {
        RefusedAgrees(t, log, e, max);
      }
    }
  }

  // ---------------------------------------------------------------- runs

  ghost predicate Disturbs(events: seq<Event>, max: int, k: nat)
    requires k < |events|
  {
    var t := Run(events[..k], max).0;
    Overwrites(t, events[k], max) || Hides(t, events[k], max)
  }

  ghost predicate AgreesAfter(events: seq<Event>, max: int, k: nat)
    requires k <= |events|
  {
    ThreeWay(Run(events[..k], max).0) && AllAgree(Run(events[..k], max).0, Run(events[..k], max).1)
  }

  ghost predicate AlwaysAgrees(events: seq<Event>, max: int) {
    forall k :: 0 <= k <= |events| ==> AgreesAfter(events, max, k)
  }

  ghost predicate NeverDisturbed(events: seq<Event>, max: int) {
    forall k :: 0 <= k < |events| ==> !Disturbs(events, max, k)
  }

  lemma {:induction false} AlwaysAgreesSnoc(events: seq<Event>, max: int)
    requires events != []
    ensures AlwaysAgrees(events, max) <==> AlwaysAgrees(events[..|events| - 1], max) && AgreesAfter(events, max, |events|)
  {
    var init := events[..|events| - 1];
    forall k | 0 <= k <= |init|
      ensures AgreesAfter(init, max, k) == AgreesAfter(events, max, k)
    {
      assert init[..k] == events[..k];
    }
  }

  lemma {:induction false} NeverDisturbedSnoc(events: seq<Event>, max: int)
    requires events != []
    ensures NeverDisturbed(events, max) <==> NeverDisturbed(events[..|events| - 1], max) && !Disturbs(events, max, |events| - 1)
  {
    var init := events[..|events| - 1];
    forall k | 0 <= k < |init|
      ensures Disturbs(init, max, k) == Disturbs(events, max, k)
    {
      assert init[..k] == events[..k];
    }
  }

  lemma {:induction false} AgreesBefore(events: seq<Event>, max: int)
    requires events != [] && AlwaysAgrees(events[..|events| - 1], max)
    ensures AgreesAfter(events, max, |events| - 1)
  {
    var init := events[..|events| - 1];
    assert AgreesAfter(init, max, |init|) && init[..|init|] == init;
  }

  /**
   Along a run all clients agree with the table after every step if and only if no step of it takes over an
   endpoint or cuts its announcements short.
   */
  lemma {:induction false} RunAgreesIff(events: seq<Event>, max: int)
    requires forall e :: e in events ==> FairEvent(e)
    ensures AlwaysAgrees(events, max) <==> NeverDisturbed(events, max)
  {
    if events == [] {
      assert AgreesAfter(events, max, 0);
    } else {
      var n := |events| - 1;
      RunAgreesIff(events[..n], max);
      AlwaysAgreesSnoc(events, max);
      NeverDisturbedSnoc(events, max);
      if AlwaysAgrees(events[..n], max) {
        AgreesBefore(events, max);
        LastStepAgreesIff(events, max);
      }
    }
  }

  lemma {:induction false} LastStepAgreesIff(events: seq<Event>, max: int)
    requires events != [] && FairEvent(events[|events| - 1]) && AgreesAfter(events, max, |events| - 1)
    ensures AgreesAfter(events, max, |events|) <==> !Disturbs(events, max, |events| - 1)
  {
    var n := |events| - 1;
    assert events[..n + 1] == events;
    RunInv(events[..n], max);
    StepAgreesIff(Run(events[..n], max).0, Run(events[..n], max).1, events[n], max);
  }

  ghost predicate Undisturbed(events: seq<Event>, max: int) {
    (forall e :: e in events ==> FairEvent(e)) && NeverDisturbed(events, max)
  }

  lemma {:induction false} UndisturbedAgrees(events: seq<Event>, max: int)
    requires Undisturbed(events, max)
    ensures ThreeWay(Run(events, max).0) && AllAgree(Run(events, max).0, Run(events, max).1)
  {
    RunAgreesIff(events, max);
    assert AgreesAfter(events, max, |events|);
    assert events[..|events|] == events;
  }

  /** The view is all of the table's other sessions. */
  ghost predicate Exact(t: Table, self: nat, v: View) {
    && v.sources == t.byId.Keys - {self}
    && v.uidToSession == UidsOf(t, t.byId.Keys - {self})
    && NamesSound(t, self, v.nameToSession)
  }

  lemma {:induction false} AllOthersKnown(t: Table, self: nat)
    requires forall i :: i in t.byId && i != self ==> Known(t.byId[i])
    ensures OtherIds(t, self) == t.byId.Keys - {self}
  {
  }

  /** An agreeing view is complete if and only if every other session can be announced. */
  lemma {:induction false} ExactIff(t: Table, self: nat, v: View)
    requires Indexed(t) && Agrees(t, self, v)
    ensures Exact(t, self, v) <==> forall i :: i in t.byId && i != self ==> Known(t.byId[i])
  {
    if forall i :: i in t.byId && i != self ==> Known(t.byId[i]) {
      AllOthersKnown(t, self);
    } else {
      var i :| i in t.byId && i != self && !Known(t.byId[i]);
      assert i in t.byId.Keys - {self} && i !in v.sources;
    }
  }

  /** A request under whose names a session can be announced to the others. */
  predicate Announceable(r: Request)
    requires r.Fields?
  {
    Wire.Readable(r.uid, if r.name == "" then r.uid else r.name)
  }

  /** Every request that the run admits can be announced. */
  predicate AllAnnounceable(events: seq<Event>, max: int) {
    forall k :: 0 <= k < |events| && IsAdmitted(Run(events[..k], max).0, events[k], max) ==> Announceable(events[k].request)
  }

  lemma {:induction false} AnnounceablePrefix(events: seq<Event>, max: int, n: nat)
    requires AllAnnounceable(events, max) && n <= |events|
    ensures AllAnnounceable(events[..n], max)
  {
    forall k | 0 <= k < n
      ensures events[..n][..k] == events[..k]
    {
    }
  }

  ghost predicate AllKnown(t: Table) { forall i :: i in t.byId ==> Known(t.byId[i]) }

  lemma {:induction false} StepKeepsKnown(t: Table, e: Event, max: int)
    requires AllKnown(t)
    requires IsAdmitted(t, e, max) ==> Announceable(e.request)
    ensures AllKnown(Step(t, e, max).0)
  {
    var u := Step(t, e, max).0;
    if IsAdmitted(t, e, max) {
      forall i | i in u.byId
        ensures Known(u.byId[i])
      {
        ConnectSession(t, e, max, i);
      }
    } else {
      assert forall i :: i in u.byId ==> i in t.byId && u.byId[i] == t.byId[i];
    }
  }

  lemma {:induction false} RunKnown(events: seq<Event>, max: int)
    requires AllAnnounceable(events, max)
    ensures AllKnown(Run(events, max).0)
  {
    if events != [] {
      var n := |events| - 1;
      AnnounceablePrefix(events, max, n);
      RunKnown(events[..n], max);
      StepKeepsKnown(Run(events[..n], max).0, events[n], max);
    }
  }

  lemma {:induction false} KnownAllFit(byId: map<nat, Session>, ids: seq<nat>, self: nat)
    requires forall i :: i in byId && i != self ==> Known(byId[i])
    ensures AllFit(byId, ids, self)
  {
    forall i | i in ids && i in byId && i != self
      ensures Fits(byId[i])
    {
      KnownFits(byId[i]);
    }
  }

  lemma {:induction false} OthersStillKnown(t: Table, e: Event)
    requires AllKnown(t) && e.Connect? && Granted(e.request)
    ensures var (d, s) := Admitted(t, e); var u := Insert(d, s, e.now);
            forall i :: i in u.byId && i != s.id ==> Known(u.byId[i])
  {
    var (d, s) := Admitted(t, e);
    forall i | i in Insert(d, s, e.now).byId && i != s.id
      ensures i in t.byId && Insert(d, s, e.now).byId[i] == t.byId[i]
    {
      assert i in d.byId;
    }
  }

  /** An announceable request is never cut short in a table of announceable sessions. */
  lemma {:induction false} AnnounceableNotHidden(t: Table, e: Event, max: int)
    requires AllKnown(t)
    ensures !Hides(t, e, max)
  {
    if IsAdmitted(t, e, max) {
      var (d, s) := Admitted(t, e);
      OthersStillKnown(t, e);
      KnownAllFit(Insert(d, s, e.now).byId, e.order(Insert(d, s, e.now).byId.Keys), s.id);
    }
  }

  lemma {:induction false} AnnounceableUndisturbed(events: seq<Event>, max: int)
    requires OneUidPerEndPoint(events, max) && AllAnnounceable(events, max) && forall e :: e in events ==> FairEvent(e)
    ensures Undisturbed(events, max)
  {
    forall k | 0 <= k < |events|
      ensures !Disturbs(events, max, k)
    {
      AnnounceablePrefix(events, max, k);
      RunKnown(events[..k], max);
      AnnounceableNotHidden(Run(events[..k], max).0, events[k], max);
    }
  }

  lemma {:induction false} AllExact(t: Table, log: seq<Packet>)
    requires Indexed(t) && AllKnown(t) && AllAgree(t, log)
    ensures forall i :: i in t.byId ==> Exact(t, i, Fold(NOBODY, log, t.byId[i].endPoint))
  {
    forall i | i in t.byId
      ensures Exact(t, i, Fold(NOBODY, log, t.byId[i].endPoint))
    {
      ExactIff(t, i, Fold(NOBODY, log, t.byId[i].endPoint));
    }
  }

  /**
   Roster agreement. In every reachable state of a run in which no endpoint is taken over by another uid and
   every admitted request can be announced, the messages sent to a live client fold to exactly the relay's
   other sessions: its playback sources and its uid lookup are equal to them, and its name lookup never
   misleads.
   */
  lemma {:induction false} RosterAgreement(events: seq<Event>, max: int)
    requires OneUidPerEndPoint(events, max) && AllAnnounceable(events, max) && forall e :: e in events ==> FairEvent(e)
    ensures var (t, log) := Run(events, max);
            forall i :: i in t.byId ==> Exact(t, i, Fold(NOBODY, log, t.byId[i].endPoint))
  {
    AnnounceableUndisturbed(events, max);
    UndisturbedAgrees(events, max);
    RunInv(events, max);
    RunKnown(events, max);
    AllExact(Run(events, max).0, Run(events, max).1);
  }
}
