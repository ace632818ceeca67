/**
 The client's worker loop: reconnecting on a changed configuration, draining datagrams, pinging and
 watching for a server that has gone quiet. Times are milliseconds.

 The handshake is an input: the time at which an accept was taken, or nothing.
 */
module NetClient {
  import opened Relay
  import opened Wrappers
  import opened Pacing

  const PING_INTERVAL := 5000
  const SERVER_TIMEOUT := 15000
  const MAX_PER_PUMP := 256

  datatype Config = Config(host: string, port: int, password: string)

  datatype Client = Client(connected: bool, activeConfig: Config, activeUid: string, lastPing: int, lastRecv: int)

  datatype Datagram = Datagram(at: int, packet: Packet)

  /** What one turn of the loop finds: settings, the outcome of a handshake if one is made, datagrams, the clock. */
  datatype Turn = Turn(config: Config, uid: string, handshake: Option<int>, received: seq<Datagram>, now: int)

  predicate Configured(turn: Turn) { turn.config.host != "" && turn.config.port != 0 }

  /** An unknown own uid is not a reason to reconnect. */
  predicate Changed(c: Client, turn: Turn) {
    turn.config != c.activeConfig || (turn.uid != "" && turn.uid != c.activeUid)
  }

  /** Reconnects when the settings changed or there is no connection; the caller goes on only if connected. */
  function Establish(c: Client, turn: Turn): Client {
    if c.connected && !Changed(c, turn) then c
    else
      match turn.handshake
      case None => c.(connected := false)
      case Some(at) => Client(true, turn.config, turn.uid, at, at)
  }

  function Drain(c: Client, received: seq<Datagram>): Client {
    if received == [] then c else c.(lastRecv := received[|received| - 1].at)
  }

  predicate PingDue(c: Client, now: int) { now - c.lastPing >= PING_INTERVAL }

  function Housekeep(c: Client, now: int): Client {
    var d := if PingDue(c, now) then c.(lastPing := now) else c;
    if now - d.lastRecv > SERVER_TIMEOUT then d.(connected := false) else d
  }

  function AfterTurn(c: Client, turn: Turn): Client {
    if !Configured(turn) then c
    else
      var e := Establish(c, turn);
      if e.connected then Housekeep(Drain(e, turn.received), turn.now) else e
  }

  /** Whether the turn sends a ping (and asks for the roster). */
  predicate Pings(c: Client, turn: Turn) {
    Configured(turn) && Establish(c, turn).connected && PingDue(Establish(c, turn), turn.now)
  }

  function AfterTurns(c: Client, turns: seq<Turn>): Client {
    if turns == [] then c else AfterTurn(AfterTurns(c, turns[..|turns| - 1]), turns[|turns| - 1])
  }

  /** The times at which a run pings. */
  function PingTimes(c: Client, turns: seq<Turn>): seq<int> {
    if turns == [] then []
    else
      var n := |turns| - 1;
      PingTimes(c, turns[..n]) + (if Pings(AfterTurns(c, turns[..n]), turns[n]) then [turns[n].now] else [])
  }

  /** Whenever there are settings, they are those the client connected with. */
  ghost predicate Steady(c: Client, turns: seq<Turn>) {
    forall k :: 0 <= k < |turns| && Configured(turns[k]) ==> !Changed(c, turns[k])
  }

  ghost predicate AllConfigured(turns: seq<Turn>) {
    forall k :: 0 <= k < |turns| ==> Configured(turns[k])
  }

  function Clock(turns: seq<Turn>): seq<int> { Dates(turns, (t: Turn) => t.now) }

  /** The last datagram a run drains; a turn without settings drains nothing. */
  function LastDatagram(seen: int, turns: seq<Turn>): int {
    if turns == [] then seen
    else
      var last := turns[|turns| - 1];
      if Configured(last) && last.received != [] then last.received[|last.received| - 1].at
      else LastDatagram(seen, turns[..|turns| - 1])
  }

  /** A turn with settings that comes more than 15 s after the last datagram. */
  predicate Late(c: Client, turns: seq<Turn>, k: nat)
    requires k < |turns|
  {
    Configured(turns[k]) && turns[k].now - LastDatagram(c.lastRecv, turns[..k + 1]) > 15000
  }

  predicate ConnectedAfter(c: Client, turns: seq<Turn>, k: nat)
    requires k < |turns|
  {
    AfterTurns(c, turns[..k + 1]).connected
  }

  /** What one turn does to a connected client with the settings it connected with, if any. */
  lemma {:induction false} WatchdogStep(c: Client, turn: Turn)
    requires c.connected && (Configured(turn) ==> !Changed(c, turn))
    ensures var recv := if Configured(turn) && turn.received != [] then turn.received[|turn.received| - 1].at else c.lastRecv;
            && AfterTurn(c, turn).lastRecv == recv
            && (AfterTurn(c, turn).connected <==> !(Configured(turn) && turn.now - recv > SERVER_TIMEOUT))
    ensures AfterTurn(c, turn).activeConfig == c.activeConfig && AfterTurn(c, turn).activeUid == c.activeUid
  {
  }

  /** If no turn was late so far, the client is connected after the next one if and only if that one is not late either. */
  lemma {:induction false} WatchdogIff(c: Client, turns: seq<Turn>)
    requires c.connected && Steady(c, turns) && turns != []
    requires forall k :: 0 <= k < |turns| - 1 ==> !Late(c, turns, k)
    ensures AfterTurns(c, turns).connected <==> !Late(c, turns, |turns| - 1)
    ensures AfterTurns(c, turns).lastRecv == LastDatagram(c.lastRecv, turns)
    ensures AfterTurns(c, turns).activeConfig == c.activeConfig && AfterTurns(c, turns).activeUid == c.activeUid
  {
    var n := |turns| - 1;
    assert turns[..n + 1] == turns;
    if n == 0 {
      assert turns[..n] == [];
    } else {
      forall k | 0 <= k < n
        ensures Late(c, turns[..n], k) == Late(c, turns, k)
      {
        assert turns[..n][..k + 1] == turns[..k + 1];
      }
      WatchdogIff(c, turns[..n]);
      assert |turns[..n]| == n && !Late(c, turns, n - 1);
    }
    var before := AfterTurns(c, turns[..n]);
    assert before.connected && before.lastRecv == LastDatagram(c.lastRecv, turns[..n]);
    WatchdogStep(before, turns[n]);
    assert Late(c, turns, n) <==> Configured(turns[n]) && turns[n].now - LastDatagram(c.lastRecv, turns) > SERVER_TIMEOUT;
  }

  lemma {:induction false} WatchdogAt(c: Client, turns: seq<Turn>, k: nat)
    requires c.connected && Steady(c, turns) && k < |turns|
    requires forall j :: 0 <= j < k ==> !Late(c, turns, j)
    ensures ConnectedAfter(c, turns, k) <==> !Late(c, turns, k)
  {
    var p := turns[..k + 1];
    forall j | 0 <= j <= k
      ensures Late(c, p, j) == Late(c, turns, j)
    {
      assert p[..j + 1] == turns[..j + 1];
    }
    WatchdogIff(c, p);
  }

  /** The first of the turns that is late, if one is. */
  lemma {:induction false} FirstLateTurn(c: Client, turns: seq<Turn>, n: nat) returns (k: nat)
    requires n < |turns| && Late(c, turns, n)
    ensures k <= n && Late(c, turns, k) && forall j :: 0 <= j < k ==> !Late(c, turns, j)
  {
    k := 0;
    while !Late(c, turns, k)
      invariant k <= n && forall j :: 0 <= j < k ==> !Late(c, turns, j)
      decreases n - k
    {
      k := k + 1;
    }
  }

  /**
   Whatever turns with and without settings a run mixes, the client leaves the connected state if and only if
   some turn with settings comes more than 15 s after the last datagram.
   */
  lemma {:induction false} LeavesIff(c: Client, turns: seq<Turn>)
    requires c.connected && Steady(c, turns)
    ensures (exists k :: 0 <= k < |turns| && !ConnectedAfter(c, turns, k)) <==>
            (exists k :: 0 <= k < |turns| && Late(c, turns, k))
  {
    if exists k :: 0 <= k < |turns| && Late(c, turns, k) {
      var n :| 0 <= n < |turns| && Late(c, turns, n);
      var k := FirstLateTurn(c, turns, n);
      WatchdogAt(c, turns, k);
    } else {
      forall k | 0 <= k < |turns|
        ensures ConnectedAfter(c, turns, k)
      {
        WatchdogAt(c, turns, k);
      }
    }
  }

  /** Without any settings the loop stops short of its watchdog, and the client stays as it is. */
  lemma {:induction false} UnconfiguredNeverLeaves(c: Client, turns: seq<Turn>)
    requires forall k :: 0 <= k < |turns| ==> !Configured(turns[k])
    ensures AfterTurns(c, turns) == c
  {
    if turns != [] {
      UnconfiguredNeverLeaves(c, turns[..|turns| - 1]);
    }
  }

  /** The turns that find settings. */
  function WithSettings(turns: seq<Turn>): seq<Turn> {
    if turns == [] then []
    else
      var n := |turns| - 1;
      WithSettings(turns[..n]) + (if Configured(turns[n]) then [turns[n]] else [])
  }

  lemma {:induction false} WithSettingsAt(turns: seq<Turn>, k: nat)
    requires k < |turns| && Configured(turns[k])
    ensures var m := |WithSettings(turns[..k])|;
            m < |WithSettings(turns)| && WithSettings(turns)[m] == turns[k] && WithSettings(turns)[..m] == WithSettings(turns[..k])
  {
    var n := |turns| - 1;
    if k < n {
      WithSettingsAt(turns[..n], k);
      assert turns[..n][..k] == turns[..k];
    }
  }

  lemma {:induction false} WithSettingsFrom(turns: seq<Turn>, t: Turn)
    requires t in WithSettings(turns)
    ensures exists j :: 0 <= j < |turns| && turns[j] == t && Configured(turns[j])
  {
    var n := |turns| - 1;
    if t in WithSettings(turns[..n]) {
      WithSettingsFrom(turns[..n], t);
      var j :| 0 <= j < n && turns[..n][j] == t && Configured(t);
      assert turns[j] == t;
    } else {
      assert turns[n] == t;
    }
  }

  lemma {:induction false} NothingDrained(seen: int, turns: seq<Turn>)
    requires forall k :: 0 <= k < |turns| && Configured(turns[k]) ==> turns[k].received == []
    ensures LastDatagram(seen, turns) == seen
  {
    if turns != [] {
      NothingDrained(seen, turns[..|turns| - 1]);
    }
  }

  /**
   A client that hears nothing leaves the connected state within 15 s and the time between two turns that find
   settings, and not before; turns without settings may come in between.
   */
  lemma {:induction false} SilenceDetected(c: Client, turns: seq<Turn>, from: int, turn: nat) returns (k: nat)
    requires c.connected && Steady(c, turns)
    requires Spaced(Clock(WithSettings(turns)), from, turn) && from <= c.lastRecv + SERVER_TIMEOUT
    requires forall k :: 0 <= k < |turns| && Configured(turns[k]) ==> turns[k].received == []
    requires exists k :: 0 <= k < |turns| && Configured(turns[k]) && turns[k].now > c.lastRecv + SERVER_TIMEOUT
    ensures k < |turns| && !ConnectedAfter(c, turns, k)
    ensures turns[k].now <= c.lastRecv + 15000 + turn
    ensures forall j :: 0 <= j < k ==> ConnectedAfter(c, turns, j)
  {
    var n :| 0 <= n < |turns| && Configured(turns[n]) && turns[n].now > c.lastRecv + SERVER_TIMEOUT;
    forall j | 0 <= j < |turns|
      ensures Late(c, turns, j) <==> Configured(turns[j]) && turns[j].now > c.lastRecv + SERVER_TIMEOUT
    {
      NothingDrained(c.lastRecv, turns[..j + 1]);
    }
    k := FirstLateTurn(c, turns, n);
    forall j | 0 <= j <= k
      ensures ConnectedAfter(c, turns, j) <==> !Late(c, turns, j)
    {
      WatchdogAt(c, turns, j);
    }
    BeforeFirstLate(c, turns, k, from, turn);
  }

  /** The turn with settings before the first late one was in time, so the late one is late by a turn at most. */
  lemma {:induction false} BeforeFirstLate(c: Client, turns: seq<Turn>, k: nat, from: int, turn: nat)
    requires k < |turns| && Configured(turns[k])
    requires Spaced(Clock(WithSettings(turns)), from, turn) && from <= c.lastRecv + SERVER_TIMEOUT
    requires forall j :: 0 <= j < k && Configured(turns[j]) ==> turns[j].now <= c.lastRecv + SERVER_TIMEOUT
    ensures turns[k].now <= c.lastRecv + 15000 + turn
  {
    WithSettingsAt(turns, k);
    var before, all := WithSettings(turns[..k]), WithSettings(turns);
    var m := |before|;
    assert Previous(Clock(all), from, m) + turn >= all[m].now;
    if m > 0 {
      assert all[..m][m - 1] == before[m - 1];
      WithSettingsFrom(turns[..k], before[m - 1]);
    }
  }

  /** The client is connected after every turn. */
  ghost predicate StaysConnected(c: Client, turns: seq<Turn>) {
    forall k :: 0 <= k <= |turns| ==> AfterTurns(c, turns[..k]).connected
  }

  /** One turn of a connected client with unchanged settings. */
  lemma {:induction false} SteadyTurn(c: Client, turn: Turn)
    requires c.connected && Configured(turn) && !Changed(c, turn)
    ensures Pings(c, turn) <==> PingDue(c, turn.now)
    ensures AfterTurn(c, turn).lastPing == (if PingDue(c, turn.now) then turn.now else c.lastPing)
    ensures AfterTurn(c, turn).activeConfig == c.activeConfig && AfterTurn(c, turn).activeUid == c.activeUid
  {
  }

  /** A turn without an address or a port changes nothing; any other that ends connected does so with the settings it found. */
  lemma {:induction false} SettingsCurrent(c: Client, turn: Turn)
    ensures turn.config.host == "" || turn.config.port == 0 ==> AfterTurn(c, turn) == c
    ensures turn.config.host != "" && turn.config.port != 0 && AfterTurn(c, turn).connected ==>
              AfterTurn(c, turn).activeConfig == turn.config && (turn.uid == "" || AfterTurn(c, turn).activeUid == turn.uid)
  {
  }

  /**
   If a handshake would fail, a turn that finds an address and a recent datagram leaves the client connected if and
   only if the address, port and password are those it connected with, and the own uid is that or not known.
   */
  lemma {:induction false} ReconnectsIff(c: Client, turn: Turn)
    requires c.connected && turn.config.host != "" && turn.config.port != 0 && turn.handshake.None?
    requires turn.received == [] && turn.now - c.lastRecv <= 15000
    ensures AfterTurn(c, turn).connected <==> turn.config == c.activeConfig && (turn.uid == "" || turn.uid == c.activeUid)
  {
  }

  /** A handshake starts both clocks: a turn without datagrams stays connected for 15 s from the accept and pings from 5 s on. */
  lemma {:induction false} FreshConnection(c: Client, turn: Turn, at: int)
    requires !c.connected && turn.config.host != "" && turn.config.port != 0
    requires turn.handshake == Some(at) && turn.received == []
    ensures AfterTurn(c, turn).connected <==> turn.now - at <= 15000
    ensures AfterTurn(c, turn).lastRecv == at && AfterTurn(c, turn).lastPing == if turn.now - at >= 5000 then turn.now else at
    ensures Pings(c, turn) <==> turn.now - at >= 5000
  {
  }

  /** No two pings of a client that stays connected are less than 5 s apart. */
  lemma {:induction false} PingsNotSooner(c: Client, turns: seq<Turn>, k: nat)
    requires Steady(c, turns) && AllConfigured(turns) && StaysConnected(c, turns) && k < |PingTimes(c, turns)|
    ensures PingTimes(c, turns)[k] >= Previous(PingTimes(c, turns), c.lastPing, k) + 5000
  {
    var n := |turns| - 1;
    PrefixConnected(c, turns, n);
    LastPinged(c, turns[..n]);
    assert AfterTurns(c, turns[..n]).connected;
    SteadyTurn(AfterTurns(c, turns[..n]), turns[n]);
    if k < |PingTimes(c, turns[..n])| {
      PingsNotSooner(c, turns[..n], k);
    }
  }

  lemma {:induction false} LastPinged(c: Client, turns: seq<Turn>)
    requires Steady(c, turns) && AllConfigured(turns) && StaysConnected(c, turns)
    ensures var u, pings := AfterTurns(c, turns), PingTimes(c, turns);
            u.lastPing == Previous(pings, c.lastPing, |pings|) && u.activeConfig == c.activeConfig && u.activeUid == c.activeUid
  {
    if turns != [] {
      var n := |turns| - 1;
      PrefixConnected(c, turns, n);
      LastPinged(c, turns[..n]);
      assert AfterTurns(c, turns[..n]).connected;
      SteadyTurn(AfterTurns(c, turns[..n]), turns[n]);
    }
  }

  lemma {:induction false} PrefixConnected(c: Client, turns: seq<Turn>, n: nat)
    requires StaysConnected(c, turns) && n <= |turns|
    ensures StaysConnected(c, turns[..n])
  {
    forall k | 0 <= k <= n
      ensures AfterTurns(c, turns[..n][..k]).connected
    {
      assert turns[..n][..k] == turns[..k];
    }
  }

  lemma {:induction false} PingsRegular(c: Client, turns: seq<Turn>, turn: nat)
    requires Steady(c, turns) && AllConfigured(turns) && StaysConnected(c, turns) && Spaced(Clock(turns), c.lastPing, turn)
    ensures var now := Previous(Clock(turns), c.lastPing, |turns|);
            var pings := PingTimes(c, turns);
            && Regular(pings, c.lastPing, now, 5000 + turn)
            && AfterTurns(c, turns).lastPing == Previous(pings, c.lastPing, |pings|)
            && now - AfterTurns(c, turns).lastPing < 5000
            && AfterTurns(c, turns).activeConfig == c.activeConfig && AfterTurns(c, turns).activeUid == c.activeUid
  {
    if turns != [] {
      var n := |turns| - 1;
      PrefixConnected(c, turns, n);
      SpacedPrefix(Clock(turns), c.lastPing, turn, n);
      assert Clock(turns)[..n] == Clock(turns[..n]);
      PingsRegular(c, turns[..n], turn);
      assert AfterTurns(c, turns[..n]).connected;
      SteadyTurn(AfterTurns(c, turns[..n]), turns[n]);
      assert Previous(Clock(turns), c.lastPing, n) == Previous(Clock(turns[..n]), c.lastPing, n);
      var pings := PingTimes(c, turns[..n]);
      if Pings(AfterTurns(c, turns[..n]), turns[n]) {
        RegularExtends(pings, c.lastPing, Previous(Clock(turns), c.lastPing, n), PING_INTERVAL + turn, turns[n].now);
      } else {
        assert pings + [] == pings;
      }
    }
  }

  class VoiceNetworkClient {
    var connected: bool
    var activeConfig: Config
    var activeUid: string
    var lastPingTime: int
    var lastRecvTime: int
    var pingsSent: nat

    ghost function View(): Client
      reads this
    {
      Client(connected, activeConfig, activeUid, lastPingTime, lastRecvTime)
    }

    constructor ()
      ensures !connected && pingsSent == 0
    {
      connected, activeConfig, activeUid := false, Config("", 0, ""), "";
      lastPingTime, lastRecvTime, pingsSent := 0, 0, 0;
    }

    /** Drains at most 256 of the datagrams that have arrived. */
    method PumpReceive(arrived: seq<Datagram>) returns (drained: nat)
      modifies this`lastRecvTime
      ensures drained == if |arrived| < MAX_PER_PUMP then |arrived| else MAX_PER_PUMP
      ensures View() == Drain(old(View()), arrived[..drained])
    {
      drained := 0;
      while drained < MAX_PER_PUMP && drained < |arrived|
        invariant drained <= MAX_PER_PUMP && drained <= |arrived|
        invariant View() == Drain(old(View()), arrived[..drained])
      {
        lastRecvTime := arrived[drained].at;
        drained := drained + 1;
      }
    }

    method LoopTurn(config: Config, uid: string, handshake: Option<int>, arrived: seq<Datagram>, now: int)
      returns (drained: nat)
      modifies this
      ensures drained <= |arrived| && drained <= MAX_PER_PUMP
      ensures View() == AfterTurn(old(View()), Turn(config, uid, handshake, arrived[..drained], now))
      ensures pingsSent == old(pingsSent) + if Pings(old(View()), Turn(config, uid, handshake, arrived[..drained], now)) then 1 else 0
    {
      drained := 0;
      if config.host == "" || config.port == 0 {
        return;
      }
      if connected && (config != activeConfig || (uid != "" && uid != activeUid)) {
        connected := false;
      }
      if !connected {
        if handshake.None? {
          return;
        }
        activeConfig, activeUid := config, uid;
        lastPingTime := handshake.value;
        lastRecvTime := lastPingTime;
        connected := true;
      }
      drained := PumpReceive(arrived);
      KeepAlive(now);
    }

    /** The timers of one turn: a ping when it is due, and the watchdog. */
    method KeepAlive(now: int)
      modifies this`connected, this`lastPingTime, this`pingsSent
      ensures View() == Housekeep(old(View()), now)
      ensures pingsSent == old(pingsSent) + if PingDue(old(View()), now) then 1 else 0
    {
      if now - lastPingTime >= PING_INTERVAL {
        pingsSent := pingsSent + 1;
        lastPingTime := now;
      }
      if now - lastRecvTime > SERVER_TIMEOUT {
        connected := false;
      }
    }
  }
}

/** What the client's loop and the relay's table guarantee each other. */
module Liveness {
  import opened Relay
  import RelayService
  import opened Wrappers
  import opened NetClient
  import opened Pacing

  lemma {:induction false} NothingReceived(t: Table, events: seq<Event>, max: int, e: EndPoint, turns: seq<Turn>)
    requires Inv(t, max) && !HasSession(t, e) && NeverConnects(events, e)
    requires forall j, d :: 0 <= j < |turns| && d in turns[j].received ==>
                              d.packet.to == e && d.packet in RunFrom(t, events, max).1
    ensures forall j :: 0 <= j < |turns| ==> turns[j].received == []
  {
    SilentUntilConnect(t, events, max, e);
    forall j | 0 <= j < |turns|
      ensures turns[j].received == []
    {
      NoneFrom(turns[j].received, RunFrom(t, events, max).1, e);
    }
  }

  lemma {:induction false} NoneFrom(received: seq<Datagram>, log: seq<Packet>, e: EndPoint)
    requires forall d :: d in received ==> d.packet.to == e && d.packet in log
    requires forall p :: p in log ==> p.to != e
    ensures received == []
  {
    if received != [] {
      var d := First(received);
      assert false;
    }
  }

  lemma {:induction false} First(received: seq<Datagram>) returns (d: Datagram)
    requires received != []
    ensures d in received
  {
    d := received[0];
  }

  /**
   Restart detection. The relay has no session for endpoint `e` (it restarted, say) and no ConnectRequest
   comes from `e`; whatever else the relay handles, a client at `e` that can only receive what the relay
   sends leaves the connected state within 15 s of its last datagram plus one turn of its loop.
   */
  lemma {:induction false} RestartDetected(t: Table, events: seq<Event>, max: int, e: EndPoint,
                        c: Client, turns: seq<Turn>, from: int, turn: nat) returns (k: nat)
    requires Inv(t, max) && !HasSession(t, e) && NeverConnects(events, e)
    requires c.connected && Steady(c, turns)
    requires Spaced(Clock(WithSettings(turns)), from, turn) && from <= c.lastRecv + SERVER_TIMEOUT
    requires forall j, d :: 0 <= j < |turns| && d in turns[j].received ==>
                              d.packet.to == e && d.packet in RunFrom(t, events, max).1
    requires exists k :: 0 <= k < |turns| && Configured(turns[k]) && turns[k].now > c.lastRecv + SERVER_TIMEOUT
    ensures k < |turns| && !ConnectedAfter(c, turns, k)
    ensures turns[k].now <= c.lastRecv + 15000 + turn
  {
    NothingReceived(t, events, max, e, turns);
    k := SilenceDetected(c, turns, from, turn);
  }

  /** The events concern the session `id` at `e` only by pinging or sweeping. */
  ghost predicate OnlyPings(events: seq<Event>, e: EndPoint, uid: string) {
    forall k :: 0 <= k < |events| ==>
                  && ((events[k].Disconnect? || events[k].Voice? || events[k].Transmission? || events[k].Connect?) ==> events[k].remote != e)
                  && (events[k].Connect? && events[k].request.Fields? ==> events[k].request.uid != uid)
  }

  /** A ping from `e` that the relay takes notice of. */
  predicate PingFrom(ev: Event, e: EndPoint) { ev.Ping? && ev.timestamp.Some? && ev.remote == e }

  /** When the relay last heard from `e`, having last heard at `seen`. */
  function LastHeard(events: seq<Event>, e: EndPoint, seen: int): int {
    if events == [] then seen
    else
      var last := events[|events| - 1];
      if PingFrom(last, e) then last.now else LastHeard(events[..|events| - 1], e, seen)
  }

  /** Every sweep that looks at `id` finds that it was heard from recently enough. */
  ghost predicate SweptInTime(events: seq<Event>, e: EndPoint, id: nat, seen: int) {
    forall k :: 0 <= k < |events| && events[k].Sweep? && events[k].id == id ==>
                  LastHeard(events[..k], e, seen) >= events[k].cutoff
  }

  ghost predicate Live(t: Table, e: EndPoint, s: Session) {
    && e in t.byEndPoint && t.byEndPoint[e] == s && s.endPoint == e
    && s.id in t.byId && t.byId[s.id] == s && s.uid in t.byUid && t.byUid[s.uid] == s
  }

  /** Dropping any other session keeps one live if and only if they do not share the endpoint. */
  lemma {:induction false} ForgetLiveIff(t: Table, e: EndPoint, s: Session, gone: Session)
    requires Indexed(t) && EndPointsLive(t) && Live(t, e, s)
    requires gone.id in t.byId && t.byId[gone.id] == gone && gone.id != s.id
    ensures Live(Forget(t, gone), e, s) <==> gone.endPoint != e
    ensures Forget(t, gone).lastSeen[s.id] == t.lastSeen[s.id]
  {
    assert t.byUid[gone.uid] == gone;
  }

  /** A client that enters elsewhere, under a new id and another uid, disturbs nobody. */
  lemma {:induction false} InsertLiveIff(t: Table, newcomer: Session, now: int, e: EndPoint, s: Session)
    requires Indexed(t) && Fresh(t, newcomer) && newcomer.endPoint != e && newcomer.uid != s.uid && s.id in t.byId
    ensures Live(Insert(t, newcomer, now), e, s) <==> Live(t, e, s)
    ensures Insert(t, newcomer, now).lastSeen[s.id] == t.lastSeen[s.id]
  {
  }

  /** The event drops another session that shares the endpoint, and with it the endpoint's entry. */
  predicate Evicts(t: Table, ev: Event, e: EndPoint, id: nat) {
    || (ev.Connect? && Granted(ev.request) && ev.request.uid in t.byUid && t.byUid[ev.request.uid].endPoint == e)
    || (ev.Sweep? && Expired(t, ev.id, ev.cutoff) && ev.id != id && t.byId[ev.id].endPoint == e)
  }

  lemma {:induction false} ConnectLiveIff(t: Table, ev: Event, max: int, e: EndPoint, s: Session)
    requires Inv(t, max) && Live(t, e, s)
    requires ev.Connect? && Granted(ev.request) && ev.remote != e && ev.request.uid != s.uid
    ensures Live(Step(t, ev, max).0, e, s) <==> !Evicts(t, ev, e, s.id)
    ensures s.id in Step(t, ev, max).0.lastSeen && Step(t, ev, max).0.lastSeen[s.id] == t.lastSeen[s.id]
  {
    var uid := ev.request.uid;
    DropStaleKeepsInv(t, uid, ev.order, max);
    var d := DropStale(t, uid, ev.order).0;
    if uid in t.byUid {
      ForgetLiveIff(t, e, s, t.byUid[uid]);
      assert d == Forget(t, t.byUid[uid]);
    }
    if |d.byId| < max {
      InsertLiveIff(d, NewSession(d, ev.remote, uid, ev.request.name), ev.now, e, s);
    }
  }

  /** A session nobody disconnects or replaces, and no sweep finds silent, stays live unless its endpoint's entry is lost. */
  lemma {:induction false} StepKeepsLiveIff(t: Table, ev: Event, max: int, e: EndPoint, s: Session)
    requires Inv(t, max) && Live(t, e, s) && OnlyPings([ev], e, s.uid)
    requires ev.Sweep? && ev.id == s.id ==> t.lastSeen[s.id] >= ev.cutoff
    ensures var u := Step(t, ev, max).0;
            && (Live(u, e, s) <==> !Evicts(t, ev, e, s.id))
            && s.id in u.lastSeen && u.lastSeen[s.id] == (if PingFrom(ev, e) then ev.now else t.lastSeen[s.id])
  {
    assert [ev][0] == ev;
    match ev
    case Connect(remote, r, now, order) =>
      if Granted(r) {
        ConnectLiveIff(t, ev, max, e, s);
      }
    case Disconnect(remote, order) =>
      if remote in t.byEndPoint {
        ForgetLiveIff(t, e, s, t.byEndPoint[remote]);
      }
    case Sweep(id, cutoff, order) =>
      if Expired(t, id, cutoff) {
        ForgetLiveIff(t, e, s, t.byId[id]);
      }
    case _ =>
  }

  ghost predicate LiveAfter(t: Table, events: seq<Event>, max: int, k: nat, e: EndPoint, s: Session)
    requires k <= |events|
  {
    Live(RunFrom(t, events[..k], max).0, e, s)
  }

  predicate EvictsAt(t: Table, events: seq<Event>, max: int, k: nat, e: EndPoint, s: Session)
    requires k < |events|
  {
    Evicts(RunFrom(t, events[..k], max).0, events[k], e, s.id)
  }

  /** The session is live after every event of the run. */
  ghost predicate StaysLive(t: Table, events: seq<Event>, max: int, e: EndPoint, s: Session) {
    forall k :: 0 <= k <= |events| ==> LiveAfter(t, events, max, k, e, s)
  }

  ghost predicate NeverEvicted(t: Table, events: seq<Event>, max: int, e: EndPoint, s: Session) {
    forall k :: 0 <= k < |events| ==> !EvictsAt(t, events, max, k, e, s)
  }

  lemma {:induction false} StaysLiveSnoc(t: Table, events: seq<Event>, max: int, e: EndPoint, s: Session)
    requires events != []
    ensures StaysLive(t, events, max, e, s) <==>
            StaysLive(t, events[..|events| - 1], max, e, s) && LiveAfter(t, events, max, |events|, e, s)
  {
    var init := events[..|events| - 1];
    forall k | 0 <= k <= |init|
      ensures LiveAfter(t, init, max, k, e, s) == LiveAfter(t, events, max, k, e, s)
    {
      assert init[..k] == events[..k];
    }
  }

  lemma {:induction false} NeverEvictedSnoc(t: Table, events: seq<Event>, max: int, e: EndPoint, s: Session)
    requires events != []
    ensures NeverEvicted(t, events, max, e, s) <==>
            NeverEvicted(t, events[..|events| - 1], max, e, s) && !EvictsAt(t, events, max, |events| - 1, e, s)
  {
    var init := events[..|events| - 1];
    forall k | 0 <= k < |init|
      ensures EvictsAt(t, init, max, k, e, s) == EvictsAt(t, events, max, k, e, s)
    {
      assert init[..k] == events[..k];
    }
  }

  lemma {:induction false} SweptPrefix(events: seq<Event>, e: EndPoint, id: nat, seen: int, n: nat)
    requires SweptInTime(events, e, id, seen) && n <= |events|
    ensures SweptInTime(events[..n], e, id, seen)
  {
    forall k | 0 <= k < n
      ensures events[..n][..k] == events[..k]
    {
    }
  }

  /** The relay's record of when it last heard from the session is right. */
  ghost predicate Stamped(u: Table, max: int, id: nat, heard: int) {
    Inv(u, max) && id in u.lastSeen && u.lastSeen[id] == heard
  }

  /** A session that is heard in time is live throughout a run if and only if no other one is dropped at its endpoint. */
  lemma {:induction false} KeptIff(t: Table, events: seq<Event>, max: int, e: EndPoint, s: Session, seen: int)
    requires Live(t, e, s) && Stamped(t, max, s.id, seen) && OnlyPings(events, e, s.uid) && SweptInTime(events, e, s.id, seen)
    ensures StaysLive(t, events, max, e, s) <==> NeverEvicted(t, events, max, e, s)
    ensures StaysLive(t, events, max, e, s) ==>
              Stamped(RunFrom(t, events, max).0, max, s.id, LastHeard(events, e, seen))
  {
    if events == [] {
      assert LiveAfter(t, events, max, 0, e, s);
    } else {
      var n := |events| - 1;
      SweptPrefix(events, e, s.id, seen, n);
      KeptIff(t, events[..n], max, e, s, seen);
      StaysLiveSnoc(t, events, max, e, s);
      NeverEvictedSnoc(t, events, max, e, s);
      if StaysLive(t, events[..n], max, e, s) {
        LiveAtEnd(t, events, max, e, s);
        LastKeptIff(t, events, max, e, s, seen);
      }
    }
  }

  lemma {:induction false} LiveAtEnd(t: Table, events: seq<Event>, max: int, e: EndPoint, s: Session)
    requires events != [] && StaysLive(t, events[..|events| - 1], max, e, s)
    ensures LiveAfter(t, events, max, |events| - 1, e, s)
  {
    var init := events[..|events| - 1];
    assert LiveAfter(t, init, max, |init|, e, s) && init[..|init|] == init;
  }

  lemma {:induction false} LastKeptIff(t: Table, events: seq<Event>, max: int, e: EndPoint, s: Session, seen: int)
    requires events != [] && OnlyPings(events, e, s.uid) && SweptInTime(events, e, s.id, seen)
    requires LiveAfter(t, events, max, |events| - 1, e, s)
    requires var before := events[..|events| - 1]; Stamped(RunFrom(t, before, max).0, max, s.id, LastHeard(before, e, seen))
    ensures LiveAfter(t, events, max, |events|, e, s) <==> !EvictsAt(t, events, max, |events| - 1, e, s)
    ensures Stamped(RunFrom(t, events, max).0, max, s.id, LastHeard(events, e, seen))
  {
    var n := |events| - 1;
    var u := RunFrom(t, events[..n], max).0;
    assert events[..n + 1] == events;
    assert OnlyPings([events[n]], e, s.uid);
    StepKeepsInv(u, events[n], max);
    StepKeepsLiveIff(u, events[n], max, e, s);
  }

  /** No other session has the endpoint; other clients may share theirs. */
  ghost predicate Alone(t: Table, e: EndPoint, s: Session) {
    forall i :: i in t.byId && t.byId[i].endPoint == e ==> t.byId[i] == s
  }

  lemma {:induction false} StepStaysAlone(t: Table, ev: Event, max: int, e: EndPoint, s: Session)
    requires Alone(t, e, s) && (ev.Connect? ==> ev.remote != e)
    ensures Alone(Step(t, ev, max).0, e, s)
  {
    var u := Step(t, ev, max).0;
    if ev.Connect? {
      forall i | i in u.byId && u.byId[i].endPoint == e
        ensures u.byId[i] == s
      {
        ConnectSession(t, ev, max, i);
      }
    } else {
      assert forall i :: i in u.byId ==> i in t.byId && u.byId[i] == t.byId[i];
    }
  }

  lemma {:induction false} StaysAlone(t: Table, events: seq<Event>, max: int, e: EndPoint, s: Session)
    requires Inv(t, max) && Alone(t, e, s) && NeverConnects(events, e)
    ensures Inv(RunFrom(t, events, max).0, max) && Alone(RunFrom(t, events, max).0, e, s)
  {
    if events != [] {
      var n := |events| - 1;
      StaysAlone(t, events[..n], max, e, s);
      StepKeepsInv(RunFrom(t, events[..n], max).0, events[n], max);
      StepStaysAlone(RunFrom(t, events[..n], max).0, events[n], max, e, s);
    }
  }

  lemma {:induction false} NobodyEvicted(t: Table, ev: Event, max: int, e: EndPoint, s: Session)
    requires Inv(t, max) && Alone(t, e, s)
    requires ev.Connect? && ev.request.Fields? ==> ev.request.uid != s.uid
    ensures !Evicts(t, ev, e, s.id)
  {
  }

  /** A session that has its endpoint to itself is kept while it is heard, whoever else shares an endpoint. */
  lemma {:induction false} KeptWhileHeard(t: Table, events: seq<Event>, max: int, e: EndPoint, s: Session, seen: int)
    requires Live(t, e, s) && Stamped(t, max, s.id, seen) && OnlyPings(events, e, s.uid) && SweptInTime(events, e, s.id, seen)
    requires Alone(t, e, s)
    ensures StaysLive(t, events, max, e, s)
    ensures Stamped(RunFrom(t, events, max).0, max, s.id, LastHeard(events, e, seen))
  {
    forall k | 0 <= k < |events|
      ensures !EvictsAt(t, events, max, k, e, s)
    {
      StaysAlone(t, events[..k], max, e, s);
      NobodyEvicted(RunFrom(t, events[..k], max).0, events[k], max, e, s);
    }
    KeptIff(t, events, max, e, s, seen);
  }

  const SWEEP_TIMEOUT := 20000

  /** The relay handles the pings of `e` in the order of its clock. */
  ghost predicate PingsInOrder(events: seq<Event>, e: EndPoint, seen: int) {
    && (forall i :: 0 <= i < |events| && PingFrom(events[i], e) ==> seen <= events[i].now)
    && (forall i, j :: 0 <= i <= j < |events| && PingFrom(events[i], e) && PingFrom(events[j], e) ==>
                         events[i].now <= events[j].now)
  }

  lemma {:induction false} LastHeardIsLatest(events: seq<Event>, e: EndPoint, seen: int, i: int)
    requires PingsInOrder(events, e, seen) && -1 <= i < |events|
    requires i >= 0 ==> PingFrom(events[i], e)
    ensures LastHeard(events, e, seen) >= (if i < 0 then seen else events[i].now)
  {
    if events != [] {
      var n := |events| - 1;
      if !PingFrom(events[n], e) {
        LastHeardIsLatest(events[..n], e, seen, i);
      }
    }
  }

  /** By the time a sweep looks at `id`, the relay has handled every ping that has arrived. */
  ghost predicate Handled(events: seq<Event>, e: EndPoint, id: nat, arrivals: seq<Option<int>>, now: int) {
    forall k :: 0 <= k < |events| && events[k].Sweep? && events[k].id == id ==>
                  && events[k].cutoff + SWEEP_TIMEOUT <= now
                  && forall j :: 0 <= j < |arrivals| && arrivals[j].Some? && arrivals[j].value <= events[k].cutoff + SWEEP_TIMEOUT ==>
                                   exists i :: 0 <= i < k && PingFrom(events[i], e) && events[i].now == arrivals[j].value
  }

  lemma {:induction false} PingsSweptInTime(events: seq<Event>, e: EndPoint, id: nat, seen: int, pings: seq<int>, arrivals: seq<Option<int>>,
                         from: int, now: int, gap: nat, delay: nat, accept: nat)
    requires Regular(pings, from, now, gap) && Delivered(pings, arrivals, 0, delay, 3)
    requires seen <= from <= seen + accept && 3 * gap + delay + accept <= SWEEP_TIMEOUT
    requires PingsInOrder(events, e, seen) && Handled(events, e, id, arrivals, now)
    ensures SweptInTime(events, e, id, seen)
  {
    forall k | 0 <= k < |events| && events[k].Sweep? && events[k].id == id
      ensures LastHeard(events[..k], e, seen) >= events[k].cutoff
    {
      var at := events[k].cutoff + SWEEP_TIMEOUT;
      var j := HeardWithin(pings, arrivals, from, now, gap, 0, delay, 3, at);
      if j < 0 {
        LastHeardIsLatest(events[..k], e, seen, -1);
      } else {
        var i :| 0 <= i < k && PingFrom(events[i], e) && events[i].now == arrivals[j].value;
        LastHeardIsLatest(events[..k], e, seen, i);
      }
    }
  }

  /**
   Keepalive. A connected client that sends nothing but pings, whose loop turn takes at most `turn`, whose
   accept and pings take at most `accept` and `delay` to arrive, and of whose pings one in any three
   arrives, is never swept, provided three gaps of (5 s + turn) and the two delays fit into the 20 s timeout:
   a turn of 1.6 s leaves 200 ms for them. It keeps its session exactly if no other one is dropped at its
   endpoint, which cannot be if it has the endpoint to itself.
   */
  lemma {:induction false} KeepAlive(t: Table, events: seq<Event>, max: int, e: EndPoint, s: Session,
                  c: Client, turns: seq<Turn>, turn: nat, arrivals: seq<Option<int>>, delay: nat, accept: nat)
    requires Inv(t, max) && Live(t, e, s) && OnlyPings(events, e, s.uid)
    requires Steady(c, turns) && AllConfigured(turns) && StaysConnected(c, turns)
    requires Spaced(Clock(turns), c.lastPing, turn) && turns != []
    requires t.lastSeen[s.id] <= c.lastPing <= t.lastSeen[s.id] + accept
    requires Delivered(PingTimes(c, turns), arrivals, 0, delay, 3)
    requires 3 * (5000 + turn) + delay + accept <= 20000
    requires PingsInOrder(events, e, t.lastSeen[s.id]) && Handled(events, e, s.id, arrivals, turns[|turns| - 1].now)
    ensures StaysLive(t, events, max, e, s) <==> NeverEvicted(t, events, max, e, s)
    ensures Alone(t, e, s) ==> StaysLive(t, events, max, e, s)
  {
    PingsRegular(c, turns, turn);
    PingsSweptInTime(events, e, s.id, t.lastSeen[s.id], PingTimes(c, turns), arrivals, c.lastPing, turns[|turns| - 1].now,
                     PING_INTERVAL + turn, delay, accept);
    KeptIff(t, events, max, e, s, t.lastSeen[s.id]);
    if Alone(t, e, s) {
      KeptWhileHeard(t, events, max, e, s, t.lastSeen[s.id]);
    }
  }

  /** A session that is not found through its endpoint; `heard` is when the relay last heard from it. */
  ghost predicate Unfound(t: Table, max: int, e: EndPoint, s: Session, heard: int) {
    && Inv(t, max) && e !in t.byEndPoint && s.endPoint == e && s.id < t.nextId
    && (s.id in t.byId ==> t.byId[s.id] == s && t.lastSeen[s.id] == heard)
  }

  lemma {:induction false} ReconnectLost(t: Table, remote: EndPoint, uid: string, name: string, now: int, order: Order, max: int, e: EndPoint)
    requires e !in DropStale(t, uid, order).0.byEndPoint && remote != e
    ensures e !in Reconnect(t, remote, uid, name, now, order, max).0.byEndPoint
  {
  }

  lemma {:induction false} StaysLost(t: Table, ev: Event, max: int, e: EndPoint)
    requires e !in t.byEndPoint && (ev.Connect? ==> ev.remote != e)
    ensures e !in Step(t, ev, max).0.byEndPoint
  {
    match ev
    case Connect(remote, r, now, order) =>
      if Granted(r) {
        ReconnectLost(t, remote, r.uid, r.name, now, order, max, e);
      }
    case _ =>
  }

  lemma {:induction false} SameStamp(t: Table, ev: Event, max: int, s: Session)
    requires Inv(t, max) && s.id in t.byId && t.byId[s.id] == s && s.id in Step(t, ev, max).0.lastSeen
    requires s.endPoint !in t.byEndPoint
    ensures Step(t, ev, max).0.lastSeen[s.id] == t.lastSeen[s.id]
  {
    StepKeepsInv(t, ev, max);
    RelayService.HeardIff(t, ev, max, s.id);
  }

  lemma {:induction false} StepUnheard(t: Table, ev: Event, max: int, e: EndPoint, s: Session, heard: int)
    requires Unfound(t, max, e, s, heard) && (ev.Connect? ==> ev.remote != e)
    ensures Unfound(Step(t, ev, max).0, max, e, s, heard)
  {
    StepKeepsInv(t, ev, max);
    StaysLost(t, ev, max, e);
    if s.id in Step(t, ev, max).0.byId {
      StepKeepsSessions(t, ev, max, s.id);
      SameStamp(t, ev, max, s);
    }
  }

  /** Once the entry of its endpoint is lost, the relay hears no ping of the session until its client connects again. */
  lemma {:induction false} Unheard(t: Table, events: seq<Event>, max: int, e: EndPoint, s: Session, heard: int)
    requires Unfound(t, max, e, s, heard) && NeverConnects(events, e)
    ensures Unfound(RunFrom(t, events, max).0, max, e, s, heard)
  {
    if events != [] {
      var n := |events| - 1;
      Unheard(t, events[..n], max, e, s, heard);
      StepUnheard(RunFrom(t, events[..n], max).0, events[n], max, e, s, heard);
    }
  }

  /** One whose predecessor at the endpoint comes back from elsewhere is not found any more. */
  lemma {:induction false} EvictedUnfound(t: Table, ev: Event, max: int, e: EndPoint, s: Session)
    requires Inv(t, max) && Live(t, e, s)
    requires ev.Connect? && Granted(ev.request) && ev.remote != e && ev.request.uid != s.uid && Evicts(t, ev, e, s.id)
    ensures Unfound(Step(t, ev, max).0, max, e, s, t.lastSeen[s.id]) && s.id in Step(t, ev, max).0.byId
  {
    StepKeepsInv(t, ev, max);
    KnownUidReplaced(t, ev, max);
    assert t.byUid[ev.request.uid].id != s.id;
  }

  /** The table of two clients behind one endpoint. */
  lemma {:induction false} SharedEndPoint(e: EndPoint, now: int, order: Order, max: int)
    requires max >= 2
    ensures var first, second := Connect(e, Fields("a", "", true), now, order), Connect(e, Fields("b", "", true), now, order);
            var t, s := Run([first, second], max).0, Session(2, e, "b", "b");
            && Live(t, e, s) && t.lastSeen[s.id] == now && "a" in t.byUid && t.byUid["a"] == Session(1, e, "a", "a")
  {
    var first, second := Connect(e, Fields("a", "", true), now, order), Connect(e, Fields("b", "", true), now, order);
    FirstAdmitted(first, max);
    RunOfTwo(first, second, max);
    var t := Run([first], max).0;
    assert DropStale(t, "b", order).0 == t && |t.byId| == 1;
    assert Run([first, second], max).0 == Insert(t, Session(2, e, "b", "b"), now);
  }

  /** A client that takes over an endpoint is no longer found through it once its predecessor reconnects from elsewhere. */
  lemma {:induction false} EvictionReachable(e: EndPoint, other: EndPoint, now: int, order: Order, max: int)
    requires max >= 2 && e != other
    ensures var first, second := Connect(e, Fields("a", "", true), now, order), Connect(e, Fields("b", "", true), now, order);
            var third := Connect(other, Fields("a", "", true), now, order);
            var t, s := Run([first, second], max).0, Session(2, e, "b", "b");
            && Live(t, e, s) && Evicts(t, third, e, s.id)
            && s.id in Step(t, third, max).0.byId && Unfound(Step(t, third, max).0, max, e, s, now)
  {
    var first, second := Connect(e, Fields("a", "", true), now, order), Connect(e, Fields("b", "", true), now, order);
    var third := Connect(other, Fields("a", "", true), now, order);
    SharedEndPoint(e, now, order, max);
    RunInv([first, second], max);
    EvictedUnfound(Run([first, second], max).0, third, max, e, Session(2, e, "b", "b"));
  }
}
