/**
 The client's voice session: the roster, the cached transmissions, and which ways of hearing each remote
 source has. Unordered containers are visited in any order.
 */
module VoiceSession {
  import opened Wrappers
  import RadioReceiver
  import RosterView
  import Text

  datatype Effect = Direct | Sw | Lr | Airborne | Dd | Phone | Speaker | Intercom

  /** One way of hearing a source. */
  datatype Path = Path(gain: real, azimuth: real, muted: bool, effect: Effect, errorLevel: real, stereoMode: int)

  /** One line of the audibility solver. */
  datatype Row = Row(uid: string, nickname: string, path: Path)

  datatype State = State(uids: map<string, nat>, names: map<string, nat>, sources: map<nat, seq<Path>>,
                         lastActive: set<nat>, debug: bool)

  /** The roster keys erased by a departure are part of the event. */
  datatype Event =
    | Joined(id: nat, uid: string, name: string)
    | Left(id: nat, uidKey: Option<string>, nameKey: Option<string>)
    | Connection(connected: bool, debug: bool)
    | Apply(rows: seq<Row>)

  const START := State(map[], map[], map[], {}, false)

  const FORCED := [Path(1.0, 0.0, false, Direct, 0.0, 0)]

  /** The session a row is about: by uid, and failing that by a nickname. */
  function Resolve(uids: map<string, nat>, names: map<string, nat>, row: Row): Option<nat> {
    if row.uid in uids then Some(uids[row.uid])
    else if row.nickname != "" && row.nickname in names then Some(names[row.nickname])
    else None
  }

  /** The paths of the rows about `id`, in order. */
  function PathsOf(uids: map<string, nat>, names: map<string, nat>, rows: seq<Row>, id: nat): seq<Path> {
    if rows == [] then []
    else
      var n := |rows| - 1;
      PathsOf(uids, names, rows[..n], id) + (if Resolve(uids, names, rows[n]) == Some(id) then [rows[n].path] else [])
  }

  /** The sessions some row is about. */
  function Seen(uids: map<string, nat>, names: map<string, nat>, rows: seq<Row>): set<nat> {
    if rows == [] then {}
    else
      var n := |rows| - 1;
      var id := Resolve(uids, names, rows[n]);
      Seen(uids, names, rows[..n]) + (if id.Some? then {id.value} else {})
  }

  function Erase(m: map<string, nat>, key: Option<string>): map<string, nat> {
    if key.Some? then m - {key.value} else m
  }

  function AddSource(sources: map<nat, seq<Path>>, id: nat, debug: bool): map<nat, seq<Path>> {
    if id in sources then sources else sources[id := if debug then FORCED else []]
  }

  /** The sources among `ids` hear exactly what the rows say, the others keep what they had. */
  function Replaced(s: State, rows: seq<Row>, ids: set<nat>): map<nat, seq<Path>> {
    map id | id in s.sources :: if id in ids then PathsOf(s.uids, s.names, rows, id) else s.sources[id]
  }

  function Step(s: State, e: Event): State {
    match e
    case Joined(id, uid, name) =>
      s.(uids := s.uids[uid := id], names := if name == "" then s.names else s.names[name := id],
         sources := AddSource(s.sources, id, s.debug))
    case Left(id, uid, name) => s.(uids := Erase(s.uids, uid), names := Erase(s.names, name), sources := s.sources - {id})
    case Connection(connected, debug) =>
      if connected then s.(debug := debug) else s.(debug := false, uids := map[], names := map[], sources := map[])
    case Apply(rows) =>
      if s.debug then s
      else
        var seen := Seen(s.uids, s.names, rows);
        s.(sources := Replaced(s, rows, seen + s.lastActive), lastActive := seen)
  }

  function Run(events: seq<Event>): State {
    if events == [] then START else Step(Run(events[..|events| - 1]), events[|events| - 1])
  }

  /** Every source's list is the subsequence of rows about it; no row, no sound. */
  ghost predicate Exact(s: State, rows: seq<Row>) {
    forall id :: id in s.sources ==> s.sources[id] == PathsOf(s.uids, s.names, rows, id)
  }

  /** Whoever can be heard was in the last snapshot. */
  ghost predicate Covered(s: State) {
    forall id :: id in s.sources && s.sources[id] != [] ==> id in s.lastActive
  }

  lemma {:induction false} SeenIff(uids: map<string, nat>, names: map<string, nat>, rows: seq<Row>, id: nat)
    ensures id in Seen(uids, names, rows) <==> PathsOf(uids, names, rows, id) != []
  {
    if rows != [] {
      SeenIff(uids, names, rows[..|rows| - 1], id);
    }
  }

  /** A snapshot replaces everything, whatever it says, exactly when nobody outside the last one can be heard. */
  lemma {:induction false} FullReplaceIff(s: State)
    requires !s.debug
    ensures Covered(s) <==> forall rows :: Exact(Step(s, Apply(rows)), rows)
  {
    if Covered(s) {
      forall rows
        ensures Exact(Step(s, Apply(rows)), rows)
      {
        forall id | id in s.sources
          ensures Step(s, Apply(rows)).sources[id] == PathsOf(s.uids, s.names, rows, id)
        {
          SeenIff(s.uids, s.names, rows, id);
        }
      }
    } else {
      var id :| id in s.sources && s.sources[id] != [] && id !in s.lastActive;
      var u := Step(s, Apply([]));
      assert u.sources[id] == s.sources[id];
      assert !Exact(u, []);
    }
  }

  /** Whenever a connection ends debug mode, there are no sources that debug mode could have forced audible. */
  ghost predicate DebugEndsEmpty(events: seq<Event>) {
    forall k :: 0 <= k < |events| && events[k] == Connection(true, false) && Run(events[..k]).debug ==>
                  Run(events[..k]).sources == map[]
  }

  lemma {:induction false} DebugEndsPrefix(events: seq<Event>, n: nat)
    requires DebugEndsEmpty(events) && n <= |events|
    ensures DebugEndsEmpty(events[..n])
  {
    forall k | 0 <= k < n
      ensures events[..n][..k] == events[..k]
    {
    }
  }

  lemma {:induction false} RunCovered(events: seq<Event>)
    requires DebugEndsEmpty(events)
    ensures Run(events).debug || Covered(Run(events))
  {
    if events != [] {
      var n := |events| - 1;
      DebugEndsPrefix(events, n);
      RunCovered(events[..n]);
      var s := Run(events[..n]);
      if events[n].Apply? && !s.debug {
        forall id | id in s.sources && Run(events).sources[id] != []
          ensures id in Run(events).lastActive
        {
          SeenIff(s.uids, s.names, events[n].rows, id);
        }
      }
    }
  }

  /** Whether the last report of the connection said that there is one. */
  function Up(events: seq<Event>): bool {
    if events == [] then false
    else
      var n := |events| - 1;
      if events[n].Connection? then events[n].connected else Up(events[..n])
  }

  /** As the worker loop reports: a connection only after none, and who joined only while there is one. */
  ghost predicate Reported(events: seq<Event>) {
    forall k :: 0 <= k < |events| ==>
      && (events[k].Joined? ==> Up(events[..k]))
      && (events[k].Connection? && events[k].connected ==> !Up(events[..k]))
  }

  lemma {:induction false} ReportedEmpty(events: seq<Event>)
    requires Reported(events)
    ensures !Up(events) ==> Run(events).sources == map[] && !Run(events).debug
  {
    if events != [] {
      var n := |events| - 1;
      forall k | 0 <= k < n
        ensures events[..n][..k] == events[..k]
      {
      }
      ReportedEmpty(events[..n]);
    }
  }

  /** What the worker loop reports never ends debug mode in front of sources. */
  lemma {:induction false} ReportedEndsEmpty(events: seq<Event>)
    requires Reported(events)
    ensures DebugEndsEmpty(events)
  {
    forall k | 0 <= k < |events| && events[k] == Connection(true, false)
      ensures Run(events[..k]).sources == map[]
    {
      forall j | 0 <= j < k
        ensures events[..k][..j] == events[..j]
      {
      }
      ReportedEmpty(events[..k]);
    }
  }

  /**
   Over every run of joins, departures, reconnects and snapshots, each snapshot outside debug mode leaves every
   source exact, also after debug mode was on, as long as debug mode never ended in front of sources.
   */
  lemma {:induction false} AudibilityIsFullReplace(events: seq<Event>, rows: seq<Row>)
    requires DebugEndsEmpty(events) && !Run(events).debug
    ensures Exact(Run(events + [Apply(rows)]), rows)
    ensures Run(events + [Apply(rows)]).sources.Keys == Run(events).sources.Keys
  {
    RunCovered(events);
    FullReplaceIff(Run(events));
    assert (events + [Apply(rows)])[..|events|] == events;
  }

  // ---------------------------------------------------------------- what a snapshot leaves behind

  /** The row is about the session: by its uid, and only if that leads nowhere, by its nickname. */
  ghost predicate About(s: State, row: Row, id: nat) {
    || (row.uid in s.uids && s.uids[row.uid] == id)
    || (row.uid !in s.uids && row.nickname != "" && row.nickname in s.names && s.names[row.nickname] == id)
  }

  /** The places of the rows about the session among the first `n`, in order. */
  ghost predicate Places(s: State, rows: seq<Row>, n: nat, id: nat, ix: seq<nat>)
    requires n <= |rows|
  {
    && (forall i, j :: 0 <= i < j < |ix| ==> ix[i] < ix[j])
    && forall k: nat :: k in ix <==> k < n && About(s, rows[k], id)
  }

  lemma {:induction false} PlacesNext(s: State, rows: seq<Row>, n: nat, id: nat, ix: seq<nat>)
    requires n < |rows| && Places(s, rows, n, id, ix)
    ensures Places(s, rows, n + 1, id, if About(s, rows[n], id) then ix + [n] else ix)
  {
    forall i | 0 <= i < |ix|
      ensures ix[i] < n
    {
      assert ix[i] in ix;
    }
  }

  /** The paths of the rows about the session, each once and in the order of the rows; `ix` are the places of the rows. */
  ghost predicate Lists(s: State, rows: seq<Row>, n: nat, id: nat, ix: seq<nat>, paths: seq<Path>)
    requires n <= |rows|
  {
    && Places(s, rows, n, id, ix)
    && |paths| == |ix| && forall i :: 0 <= i < |ix| ==> ix[i] < n && paths[i] == rows[ix[i]].path
  }

  lemma {:induction false} ListsNext(s: State, rows: seq<Row>, n: nat, id: nat, ix: seq<nat>, paths: seq<Path>)
    requires n < |rows| && Lists(s, rows, n, id, ix, paths)
    ensures if About(s, rows[n], id) then Lists(s, rows, n + 1, id, ix + [n], paths + [rows[n].path])
            else Lists(s, rows, n + 1, id, ix, paths)
  {
    PlacesNext(s, rows, n, id, ix);
  }

  lemma {:induction false} PathsNext(s: State, rows: seq<Row>, n: nat, id: nat)
    requires n < |rows|
    ensures var before := PathsOf(s.uids, s.names, rows[..n], id);
            PathsOf(s.uids, s.names, rows[..n + 1], id) == if About(s, rows[n], id) then before + [rows[n].path] else before
  {
    assert rows[..n + 1][..n] == rows[..n];
  }

  lemma {:induction false} PathsListed(s: State, rows: seq<Row>, n: nat, id: nat) returns (ix: seq<nat>)
    requires n <= |rows|
    ensures Lists(s, rows, n, id, ix, PathsOf(s.uids, s.names, rows[..n], id))
  {
    ix := [];
    if n > 0 {
      var before := PathsListed(s, rows, n - 1, id);
      ListsNext(s, rows, n - 1, id, before, PathsOf(s.uids, s.names, rows[..n - 1], id));
      PathsNext(s, rows, n - 1, id);
      ix := if About(s, rows[n - 1], id) then before + [n - 1] else before;
    }
  }

  /**
   Outside debug mode a snapshot leaves with every source exactly the paths of the rows about it, in order: a row
   whose uid is known is about that session and no other, whatever its nickname.
   */
  lemma {:induction false} SnapshotIs(events: seq<Event>, rows: seq<Row>, id: nat) returns (ix: seq<nat>)
    requires DebugEndsEmpty(events) && !Run(events).debug && id in Run(events).sources
    ensures id in Run(events + [Apply(rows)]).sources
    ensures Lists(Run(events), rows, |rows|, id, ix, Run(events + [Apply(rows)]).sources[id])
  {
    AudibilityIsFullReplace(events, rows);
    assert (events + [Apply(rows)])[..|events|] == events;
    ix := PathsListed(Run(events), rows, |rows|, id);
    assert rows[..|rows|] == rows;
  }

  /** In debug mode every source is heard at full gain, straight ahead, whatever snapshots say. */
  lemma {:induction false} DebugForcesAudible(events: seq<Event>)
    requires Reported(events) && Run(events).debug
    ensures forall id :: id in Run(events).sources ==> Run(events).sources[id] == [Path(1.0, 0.0, false, Direct, 0.0, 0)]
  {
    if events != [] {
      var n := |events| - 1;
      forall k | 0 <= k < n
        ensures events[..n][..k] == events[..k]
      {
      }
      if events[n].Connection? {
        ReportedEmpty(events[..n]);
      } else {
        DebugForcesAudible(events[..n]);
      }
    }
  }

  // ---------------------------------------------------------------- the roster

  /** A key that leads to `id`, if there is one. */
  ghost predicate Finds(m: map<string, nat>, id: nat, key: Option<string>) {
    match key
    case Some(k) => k in m && m[k] == id
    case None => forall k :: k in m ==> m[k] != id
  }

  function Roster(s: State): RosterView.View {
    RosterView.View(s.sources.Keys, s.uids, s.names)
  }

  lemma {:induction false} EraseOnly(m: map<string, nat>, id: nat, key: Option<string>)
    requires Finds(m, id, key)
    requires forall a, b :: a in m && b in m && m[a] == m[b] ==> a == b
    ensures Erase(m, key) == RosterView.Without(m, id)
  {
  }

  lemma {:induction false} JoinsRoster(s: State, id: nat, uid: string, name: string)
    ensures Roster(Step(s, Joined(id, uid, name))) == RosterView.Join(Roster(s), id, uid, name)
  {
    assert AddSource(s.sources, id, s.debug).Keys == s.sources.Keys + {id};
  }

  // ---------------------------------------------------------------- the session itself

  /** Grouped sources get their group, formerly active ones fall silent, the others are left alone. */
  lemma {:induction false} ReplacedIs(s: State, rows: seq<Row>, seen: set<nat>, after: map<nat, seq<Path>>)
    requires seen == Seen(s.uids, s.names, rows) && after.Keys == s.sources.Keys
    requires forall id :: id in after ==> after[id] == if id in seen then PathsOf(s.uids, s.names, rows, id)
                                                       else if id in s.lastActive then [] else s.sources[id]
    ensures after == Replaced(s, rows, seen + s.lastActive)
  {
    forall id | id in after
      ensures after[id] == Replaced(s, rows, seen + s.lastActive)[id]
    {
      SeenIff(s.uids, s.names, rows, id);
    }
  }

  class VoiceSession {
    var uidToSession: map<string, nat>
    var nameToSession: map<string, nat>
    var sources: map<nat, seq<Path>>
    var lastActiveSessionIds: seq<nat>
    var debugForceAudible: bool
    var txCache: map<nat, RadioReceiver.Entry>

    ghost function View(): State
      reads this
    {
      State(uidToSession, nameToSession, sources, (set i | i in lastActiveSessionIds), debugForceAudible)
    }

    constructor ()
      ensures View() == START && txCache == map[]
    {
      uidToSession, nameToSession, sources, lastActiveSessionIds := map[], map[], map[], [];
      debugForceAudible, txCache := false, map[];
    }

    method OnRemoteJoined(id: nat, uid: string, name: string)
      modifies this
      ensures View() == Step(old(View()), Joined(id, uid, name)) && txCache == old(txCache)
    {
      if id !in sources {
        sources := sources[id := []];
        if debugForceAudible {
          sources := sources[id := FORCED];
        }
      }
      uidToSession := uidToSession[uid := id];
      if name != "" {
        nameToSession := nameToSession[name := id];
      }
    }

    /** The first key found to lead to a session. */
    static method FindKey(m: map<string, nat>, id: nat) returns (key: Option<string>)
      ensures Finds(m, id, key)
    {
      var todo := m.Keys;
      while todo != {}
        invariant todo <= m.Keys
        invariant forall k :: k in m && k !in todo ==> m[k] != id
        decreases |todo|
      {
        var k :| k in todo;
        if m[k] == id {
          return Some(k);
        }
        todo := todo - {k};
      }
      key := None;
    }

    method OnRemoteLeft(id: nat) returns (uid: Option<string>, name: Option<string>)
      modifies this
      ensures Finds(old(uidToSession), id, uid) && Finds(old(nameToSession), id, name)
      ensures View() == Step(old(View()), Left(id, uid, name)) && txCache == old(txCache)
    {
      sources := sources - {id};
      uid := FindKey(uidToSession, id);
      if uid.Some? {
        uidToSession := uidToSession - {uid.value};
      }
      name := FindKey(nameToSession, id);
      if name.Some? {
        nameToSession := nameToSession - {name.value};
      }
    }

    method OnConnectionStateChanged(connected: bool, debug: bool)
      modifies this
      ensures View() == Step(old(View()), Connection(connected, debug))
      ensures txCache == if connected then old(txCache) else map[]
    {
      debugForceAudible := connected && debug;
      if !connected {
        sources := map[];
        uidToSession, nameToSession := map[], map[];
        txCache := map[];
      }
    }

    /** Groups the rows by the session they resolve to. */
    method GroupBySession(units: seq<Row>) returns (paths: map<nat, seq<Path>>)
      ensures paths.Keys == Seen(uidToSession, nameToSession, units)
      ensures forall id :: id in paths ==> paths[id] == PathsOf(uidToSession, nameToSession, units, id)
    {
      paths := map[];
      for k := 0 to |units|
        invariant paths.Keys == Seen(uidToSession, nameToSession, units[..k])
        invariant forall id :: id in paths ==> paths[id] == PathsOf(uidToSession, nameToSession, units[..k], id)
      {
        var unit := units[k];
        assert units[..k + 1][..k] == units[..k];
        var resolved := None;
        if unit.uid in uidToSession {
          resolved := Some(uidToSession[unit.uid]);
        } else if unit.nickname != "" {
          if unit.nickname in nameToSession {
            resolved := Some(nameToSession[unit.nickname]);
          }
        }
        if resolved.Some? {
          var id := resolved.value;
          SeenIff(uidToSession, nameToSession, units[..k], id);
          paths := paths[id := (if id in paths then paths[id] else []) + [unit.path]];
        }
      }
      assert units[..|units|] == units;
    }

    method SetSourceStates(id: nat, states: seq<Path>)
      modifies this`sources
      ensures sources == if id in old(sources) then old(sources)[id := states] else old(sources)
    {
      if id in sources {
        sources := sources[id := states];
      }
    }

    /** Hands each group to its source; the sessions that had one. */
    method SetGroups(paths: map<nat, seq<Path>>) returns (seen: seq<nat>)
      modifies this`sources
      ensures forall id :: id in seen <==> id in paths
      ensures sources.Keys == old(sources).Keys
      ensures forall id :: id in sources ==> sources[id] == if id in paths then paths[id] else old(sources)[id]
    {
      seen := [];
      var todo := paths.Keys;
      while todo != {}
        invariant todo <= paths.Keys
        invariant forall id :: id in seen <==> id in paths && id !in todo
        invariant sources.Keys == old(sources).Keys
        invariant forall id :: id in sources ==> sources[id] == if id in paths && id !in todo then paths[id] else old(sources)[id]
        decreases |todo|
      {
        var id :| id in todo;
        seen := seen + [id];
        SetSourceStates(id, paths[id]);
        todo := todo - {id};
      }
    }

    /** Silences the sessions that were heard before and are not now. */
    method SilenceMissing(seen: seq<nat>)
      modifies this`sources
      ensures sources.Keys == old(sources).Keys
      ensures forall id :: id in sources ==>
                             sources[id] == if id in lastActiveSessionIds && id !in seen then [] else old(sources)[id]
    {
      for k := 0 to |lastActiveSessionIds|
        invariant sources.Keys == old(sources).Keys
        invariant forall id :: id in sources ==>
                                 sources[id] == if id in lastActiveSessionIds[..k] && id !in seen then [] else old(sources)[id]
      {
        var id := lastActiveSessionIds[k];
        if id !in seen {
          SetSourceStates(id, []);
        }
      }
    }

    method ApplyAudibility(units: seq<Row>)
      modifies this`sources, this`lastActiveSessionIds
      ensures View() == Step(old(View()), Apply(units))
    {
      if debugForceAudible {
        return;
      }
      var paths := GroupBySession(units);
      var seen := SetGroups(paths);
      SilenceMissing(seen);
      ReplacedIs(old(View()), units, paths.Keys, sources);
      lastActiveSessionIds := seen;
      assert (set i | i in seen) == paths.Keys;
    }

    /** Caches or forgets a transmission, and cues its start or end; the sender's uid is whichever key leads to it. */
    method OnRadioTx(session: nat, a: RadioReceiver.Announcement, now: int)
      returns (found: Option<string>, cue: Option<RadioReceiver.Cue>)
      modifies this`txCache
      ensures Finds(uidToSession, session, found)
      ensures var uid := if found.Some? then found.value else "";
              && txCache == RadioReceiver.OnRadioTx(old(txCache), session, uid, a, now)
              && cue == RadioReceiver.CueOf(old(txCache), session, uid, a)
    {
      cue := None;
      found := FindKey(uidToSession, session);
      if found.None? || found.value == "" {
        return;
      }
      var wasActive := session in txCache;
      var lastSubtype := if wasActive then txCache[session].subtype else "";
      if a.active {
        txCache := txCache[session := RadioReceiver.Entry(found.value, a.freq, a.range, a.subtype, now)];
      } else {
        txCache := txCache - {session};
      }
      if a.active && !wasActive {
        cue := Some(RadioReceiver.Cue(session, a.subtype, true));
      } else if !a.active && wasActive {
        cue := Some(RadioReceiver.Cue(session, lastSubtype, false));
      }
    }

    method CurrentRadioTx(now: int, order: seq<nat>) returns (result: seq<RadioReceiver.Entry>)
      ensures result == RadioReceiver.Current(txCache, order, now)
    {
      result := [];
      for k := 0 to |order|
        invariant result == RadioReceiver.Current(txCache, order[..k], now)
      {
        assert order[..k + 1][..k] == order[..k];
        if order[k] in txCache && now - txCache[order[k]].receivedAt < RadioReceiver.TX_EXPIRY {
          result := result + [txCache[order[k]]];
        }
      }
      assert order[..|order|] == order;
    }
  }

  /** The transmissions the audibility solver knows, by name, and what it resolves uids with. */
  class RemoteTransmissions {
    var nameToUid: map<string, string>
    var clients: set<string>
    var remoteTx: map<string, RadioReceiver.Remote>
    var talkingNames: set<string>

    ghost predicate Valid()
      reads this
    {
      "" !in nameToUid
    }

    constructor ()
      ensures Valid() && nameToUid == map[] && clients == {} && remoteTx == map[] && talkingNames == {}
    {
      nameToUid, clients := map[], {};
      remoteTx, talkingNames := map[], {};
    }

    function Names(visit: seq<string>): RadioReceiver.Directory
      reads this
    {
      RadioReceiver.Directory(nameToUid, visit, clients)
    }

    /** Reports a player's uid; an empty name or uid is ignored. */
    method HandleUid(nickname: string, uid: string)
      requires Valid()
      modifies this`nameToUid
      ensures Valid()
      ensures nameToUid == if nickname == "" || uid == "" then old(nameToUid) else old(nameToUid)[Text.Convert(nickname) := uid]
    {
      var name := Text.ConvertNickname(nickname);
      if name == "" || uid == "" {
        return;
      }
      nameToUid := nameToUid[name := uid];
    }

    /** Looks the uid up among the reported names, and falls back to the client of that nickname. */
    method ResolveName(uid: string, visit: seq<string>) returns (name: string)
      requires Valid() && uid != ""
      ensures name == RadioReceiver.NameOf(Names(visit), uid)
    {
      name := "";
      for k := 0 to |visit|
        invariant name == "" && RadioReceiver.FirstNamed(nameToUid, visit[..k], uid) == ""
      {
        assert visit[..k + 1][..k] == visit[..k];
        if visit[k] in nameToUid && nameToUid[visit[k]] == uid {
          FoundFirst(nameToUid, visit, k, uid);
          return visit[k];
        }
      }
      assert visit[..|visit|] == visit;
      if uid in clients {
        name := uid;
      }
    }

    method SetRemoteTx(tx: RadioReceiver.Entry, visit: seq<string>, now: int)
      requires Valid()
      modifies this`remoteTx
      ensures remoteTx == RadioReceiver.SetRemote(old(remoteTx), RadioReceiver.NameOf(Names(visit), tx.uid), tx, now)
    {
      if tx.uid == "" {
        return;
      }
      var name := ResolveName(tx.uid, visit);
      if name == "" {
        return;
      }
      if tx.freq == "" {
        remoteTx := remoteTx - {name};
        return;
      }
      remoteTx := remoteTx[name := RadioReceiver.Remote(tx.freq, tx.range, tx.subtype, now)];
    }

    /** One tick: forwards what the session has cached and rebuilds who is talking. */
    method Poll(voice: VoiceSession, now: int, order: seq<nat>, visit: seq<string>)
      requires Valid()
      modifies this`remoteTx, this`talkingNames
      ensures var was := RadioReceiver.Receiver(voice.txCache, old(remoteTx));
              && RadioReceiver.Receiver(voice.txCache, remoteTx) == RadioReceiver.Step(was, RadioReceiver.Poll(now, order, Names(visit)))
              && talkingNames == RadioReceiver.Talking(RadioReceiver.Receiver(voice.txCache, remoteTx), now)
    {
      var current := voice.CurrentRadioTx(now, order);
      for k := 0 to |current|
        invariant remoteTx == RadioReceiver.Forward(old(remoteTx), current[..k], Names(visit), now)
      {
        assert current[..k + 1][..k] == current[..k];
        SetRemoteTx(current[k], visit, now);
      }
      assert current[..|current|] == current;
      RebuildTalking(now);
    }

    method RebuildTalking(now: int)
      modifies this`talkingNames
      ensures forall n :: n in talkingNames <==> n in remoteTx && now - remoteTx[n].received < RadioReceiver.TX_EXPIRY
    {
      talkingNames := {};
      var todo := remoteTx.Keys;
      while todo != {}
        invariant todo <= remoteTx.Keys
        invariant forall n :: n in talkingNames <==> n in remoteTx && n !in todo && now - remoteTx[n].received < RadioReceiver.TX_EXPIRY
        decreases |todo|
      {
        var n :| n in todo;
        if now - remoteTx[n].received < RadioReceiver.TX_EXPIRY {
          talkingNames := talkingNames + {n};
        }
        todo := todo - {n};
      }
    }

    method EndMission()
      modifies this`remoteTx, this`clients
      ensures remoteTx == map[] && clients == {}
    {
      remoteTx, clients := map[], {};
    }
  }

  /** The first match ends the search. */
  lemma {:induction false} FoundFirst(uids: map<string, string>, visit: seq<string>, k: nat, uid: string)
    requires "" !in uids && k < |visit| && visit[k] in uids && uids[visit[k]] == uid
    requires RadioReceiver.FirstNamed(uids, visit[..k], uid) == ""
    ensures RadioReceiver.FirstNamed(uids, visit, uid) == visit[k]
  {
    var n := |visit| - 1;
    if k < n {
      assert visit[..n][..k] == visit[..k];
      FoundFirst(uids, visit[..n], k, uid);
    }
  }
}
