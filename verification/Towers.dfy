/**
 Radio towers: the vector of towers refines a table keyed by network id, and the loss of a connection over
 them does not depend on their order. Distances are given, loss is computed without rounding.
 */
module Towers {
  import opened Wrappers
  import Text

  datatype Pos = Pos(x: real, y: real, z: real)

  datatype Antenna = Antenna(netId: string, pos: Pos, range: real)

  type Metric = (Pos, Pos) -> real

  // ---------------------------------------------------------------- the vector and the table

  /** The first tower with the id, the length if there is none. */
  function Index(s: seq<Antenna>, id: string): (i: nat)
    ensures i <= |s| && (i < |s| ==> s[i].netId == id) && forall k :: 0 <= k < i ==> s[k].netId != id
  {
    if s == [] then 0
    else
      var n := |s| - 1;
      var i := Index(s[..n], id);
      if i < n || s[n].netId == id then i else |s|
  }

  function Put(s: seq<Antenna>, a: Antenna): seq<Antenna> {
    var i := Index(s, a.netId);
    if i < |s| then s[i := a] else s + [a]
  }

  function Erase(s: seq<Antenna>, id: string): seq<Antenna> {
    var i := Index(s, id);
    if i < |s| then s[..i] + s[i + 1..] else s
  }

  ghost predicate Unique(s: seq<Antenna>) {
    forall i, j :: 0 <= i < j < |s| ==> s[i].netId != s[j].netId
  }

  function Ids(s: seq<Antenna>): set<string> { set a | a in s :: a.netId }

  /** The towers by id. */
  function Table(s: seq<Antenna>): map<string, Antenna> {
    map id | id in Ids(s) && Index(s, id) < |s| :: s[Index(s, id)]
  }

  predicate Maps(m: map<string, Antenna>, id: string, a: Antenna) { id in m && m[id] == a }

  lemma {:induction false} TableIff(s: seq<Antenna>, id: string, a: Antenna)
    requires Unique(s)
    ensures Maps(Table(s), id, a) <==> a in s && a.netId == id
  {
    if a in s && a.netId == id {
      var k :| 0 <= k < |s| && s[k] == a;
      assert id in Ids(s);
      var i := Index(s, id);
      assert i == k;
    }
  }

  /** The table of a vector is the map that holds exactly its towers. */
  lemma {:induction false} TableIs(s: seq<Antenna>, m: map<string, Antenna>)
    requires Unique(s) && forall id, a :: Maps(m, id, a) <==> a in s && a.netId == id
    ensures Table(s) == m
  {
    forall id | id in m
      ensures id in Table(s) && Table(s)[id] == m[id]
    {
      assert Maps(m, id, m[id]);
      TableIff(s, id, m[id]);
    }
    forall id | id in Table(s)
      ensures id in m
    {
      TableIff(s, id, Table(s)[id]);
      assert Maps(m, id, Table(s)[id]);
    }
  }

  /** Two vectors with the same towers stand for the same table, and the other way round. */
  lemma {:induction false} SameTableIff(s: seq<Antenna>, t: seq<Antenna>)
    requires Unique(s) && Unique(t)
    ensures Table(s) == Table(t) <==> forall a :: a in s <==> a in t
  {
    forall a
      ensures a in s <==> Maps(Table(s), a.netId, a)
      ensures a in t <==> Maps(Table(t), a.netId, a)
    {
      TableIff(s, a.netId, a);
      TableIff(t, a.netId, a);
    }
    if forall a :: a in s <==> a in t {
      forall id, a
        ensures Maps(Table(t), id, a) <==> a in s && a.netId == id
      {
        TableIff(t, id, a);
      }
      TableIs(s, Table(t));
    }
  }

  lemma {:induction false} PutHolds(s: seq<Antenna>, a: Antenna, b: Antenna)
    requires Unique(s)
    ensures Unique(Put(s, a))
    ensures b in Put(s, a) <==> b == a || (b in s && b.netId != a.netId)
  {
    var i := Index(s, a.netId);
    var t := Put(s, a);
    if i < |s| {
      assert forall k :: 0 <= k < |s| && k != i ==> s[k].netId != a.netId && t[k] == s[k];
      assert t[i] == a;
      if b in s && b.netId != a.netId {
        var k :| 0 <= k < |s| && s[k] == b;
        assert t[k] == b;
      }
    } else {
      assert t == s + [a];
    }
  }

  lemma {:induction false} EraseUnique(s: seq<Antenna>, id: string)
    requires Unique(s)
    ensures Unique(Erase(s, id))
  {
    var i, t := Index(s, id), Erase(s, id);
    assert i < |s| ==> forall k :: 0 <= k < |t| ==> t[k] == s[if k < i then k else k + 1];
  }

  lemma {:induction false} EraseHolds(s: seq<Antenna>, id: string, b: Antenna)
    requires Unique(s)
    ensures b in Erase(s, id) <==> b in s && b.netId != id
  {
    var i := Index(s, id);
    var t := Erase(s, id);
    if i < |s| {
      assert forall k :: 0 <= k < |t| ==> t[k] == s[if k < i then k else k + 1];
      if b in s && b.netId != id {
        var k :| 0 <= k < |s| && s[k] == b;
        assert t[if k < i then k else k - 1] == b;
      }
    }
  }

  /** Replacing in place or appending is an update of the table. */
  lemma {:induction false} PutRefines(s: seq<Antenna>, a: Antenna)
    requires Unique(s)
    ensures Unique(Put(s, a)) && Table(Put(s, a)) == Table(s)[a.netId := a]
  {
    var t, m := Put(s, a), Table(s)[a.netId := a];
    PutHolds(s, a, a);
    forall id, b
      ensures Maps(m, id, b) <==> b in t && b.netId == id
    {
      PutHolds(s, a, b);
      TableIff(s, id, b);
      assert Maps(m, id, b) <==> if id == a.netId then b == a else Maps(Table(s), id, b);
    }
    TableIs(t, m);
  }

  lemma {:induction false} MapsWithout(m: map<string, Antenna>, gone: string, id: string, a: Antenna)
    ensures Maps(m - {gone}, id, a) <==> id != gone && Maps(m, id, a)
  {
  }

  /** Erasing the first match removes the id from the table. */
  lemma {:induction false} EraseRefines(s: seq<Antenna>, id: string)
    requires Unique(s)
    ensures Unique(Erase(s, id)) && Table(Erase(s, id)) == Table(s) - {id}
  {
    var t, m := Erase(s, id), Table(s) - {id};
    EraseUnique(s, id);
    forall k, b
      ensures Maps(m, k, b) <==> b in t && b.netId == k
    {
      EraseHolds(s, id, b);
      TableIff(s, k, b);
      MapsWithout(Table(s), id, k, b);
    }
    TableIs(t, m);
  }

  // ---------------------------------------------------------------- messages

  datatype Message = Add(towers: seq<Antenna>) | Del(ids: seq<string>) | MissionEnd

  function AddAll(s: seq<Antenna>, towers: seq<Antenna>): seq<Antenna> {
    if towers == [] then s else Put(AddAll(s, towers[..|towers| - 1]), towers[|towers| - 1])
  }

  function DelAll(s: seq<Antenna>, ids: seq<string>): seq<Antenna> {
    if ids == [] then s else Erase(DelAll(s, ids[..|ids| - 1]), ids[|ids| - 1])
  }

  function Run(messages: seq<Message>): seq<Antenna> {
    if messages == [] then []
    else
      var s := Run(messages[..|messages| - 1]);
      match messages[|messages| - 1]
      case Add(towers) => AddAll(s, towers)
      case Del(ids) => DelAll(s, ids)
      case MissionEnd => []
  }

  /** The same on the table: updates and removals, one key at a time. */
  function AddedTo(m: map<string, Antenna>, towers: seq<Antenna>): map<string, Antenna> {
    if towers == [] then m
    else
      var a := towers[|towers| - 1];
      AddedTo(m, towers[..|towers| - 1])[a.netId := a]
  }

  function RemovedFrom(m: map<string, Antenna>, ids: seq<string>): map<string, Antenna> {
    if ids == [] then m else RemovedFrom(m, ids[..|ids| - 1]) - {ids[|ids| - 1]}
  }

  function RunTable(messages: seq<Message>): map<string, Antenna> {
    if messages == [] then map[]
    else
      var m := RunTable(messages[..|messages| - 1]);
      match messages[|messages| - 1]
      case Add(towers) => AddedTo(m, towers)
      case Del(ids) => RemovedFrom(m, ids)
      case MissionEnd => map[]
  }

  lemma {:induction false} AddAllRefines(s: seq<Antenna>, towers: seq<Antenna>)
    requires Unique(s)
    ensures Unique(AddAll(s, towers)) && Table(AddAll(s, towers)) == AddedTo(Table(s), towers)
  {
    if towers != [] {
      var n := |towers| - 1;
      AddAllRefines(s, towers[..n]);
      PutRefines(AddAll(s, towers[..n]), towers[n]);
    }
  }

  lemma {:induction false} DelAllRefines(s: seq<Antenna>, ids: seq<string>)
    requires Unique(s)
    ensures Unique(DelAll(s, ids)) && Table(DelAll(s, ids)) == RemovedFrom(Table(s), ids)
  {
    if ids != [] {
      var n := |ids| - 1;
      DelAllRefines(s, ids[..n]);
      EraseRefines(DelAll(s, ids[..n]), ids[n]);
    }
  }

  /** Under any messages the vector holds each id once and stands for the table. */
  lemma {:induction false} VectorRefinesTable(messages: seq<Message>)
    ensures Unique(Run(messages)) && Table(Run(messages)) == RunTable(messages)
  {
    if messages != [] {
      var n := |messages| - 1;
      VectorRefinesTable(messages[..n]);
      match messages[n]
      case Add(towers) => AddAllRefines(Run(messages[..n]), towers);
      case Del(ids) => DelAllRefines(Run(messages[..n]), ids);
      case MissionEnd =>
    }
  }

  // ---------------------------------------------------------------- loss

  const NO_LOSS := 7.0

  function Share(distance: real, reach: real): real
    requires reach > 0.0
  {
    distance / reach
  }

  function Better(a: real, b: real): real { if a < b then a else b }

  /** The loss over one tower: none unless both ends are within reach and the shares stay below 1. */
  function TowerLoss(a: Antenna, dist: Metric, from: Pos, reach: real, to: Pos): real
    requires reach > 0.0
  {
    if a.range > 0.0 && dist(a.pos, from) < reach && dist(a.pos, to) < a.range then
      var loss := Share(dist(a.pos, to), a.range) + Share(dist(a.pos, from), reach);
      if loss < 1.0 then loss else NO_LOSS
    else NO_LOSS
  }

  function Loss(s: seq<Antenna>, dist: Metric, from: Pos, reach: real, to: Pos): real {
    if s == [] || reach <= 0.0 then NO_LOSS
    else Better(Loss(s[..|s| - 1], dist, from, reach, to), TowerLoss(s[|s| - 1], dist, from, reach, to))
  }

  /** The loss is the least over all towers, and 7 if none offers less than 1. */
  lemma {:induction false} LossIsLeast(s: seq<Antenna>, dist: Metric, from: Pos, reach: real, to: Pos)
    requires reach > 0.0
    ensures forall a :: a in s ==> Loss(s, dist, from, reach, to) <= TowerLoss(a, dist, from, reach, to)
    ensures Loss(s, dist, from, reach, to) == NO_LOSS ||
            (Loss(s, dist, from, reach, to) < 1.0 &&
             exists a :: a in s && Loss(s, dist, from, reach, to) == TowerLoss(a, dist, from, reach, to))
  {
    if s != [] {
      var n := |s| - 1;
      LossIsLeast(s[..n], dist, from, reach, to);
      assert s[n] in s && forall a :: a in s <==> a in s[..n] || a == s[n];
    }
  }

  /** The tower connects the two places with this loss: the shares of its range and of the sender's, together below 1. */
  ghost predicate Connects(a: Antenna, dist: Metric, from: Pos, reach: real, to: Pos, loss: real)
    requires reach > 0.0
  {
    && a.range > 0.0 && dist(a.pos, from) < reach && dist(a.pos, to) < a.range
    && loss == dist(a.pos, to) / a.range + dist(a.pos, from) / reach && loss < 1.0
  }

  /** The loss is 7 if no tower connects, and otherwise the least with which one does; a sender without a range has 7. */
  lemma {:induction false} LossIs(s: seq<Antenna>, dist: Metric, from: Pos, reach: real, to: Pos)
    ensures reach <= 0.0 ==> Loss(s, dist, from, reach, to) == 7.0
    ensures reach > 0.0 ==>
              && (forall a, loss :: a in s && Connects(a, dist, from, reach, to, loss) ==> Loss(s, dist, from, reach, to) <= loss)
              && (Loss(s, dist, from, reach, to) == 7.0 || exists a :: a in s && Connects(a, dist, from, reach, to, Loss(s, dist, from, reach, to)))
  {
    if reach > 0.0 {
      LossIsLeast(s, dist, from, reach, to);
      forall a, loss | a in s && Connects(a, dist, from, reach, to, loss)
        ensures loss == TowerLoss(a, dist, from, reach, to)
      {
      }
      if Loss(s, dist, from, reach, to) != NO_LOSS {
        var a :| a in s && Loss(s, dist, from, reach, to) == TowerLoss(a, dist, from, reach, to);
        assert Connects(a, dist, from, reach, to, Loss(s, dist, from, reach, to));
      }
    }
  }

  lemma {:induction false} MoreTowersHelp(s: seq<Antenna>, t: seq<Antenna>, dist: Metric, from: Pos, reach: real, to: Pos)
    requires forall a :: a in s ==> a in t
    ensures Loss(t, dist, from, reach, to) <= Loss(s, dist, from, reach, to)
  {
    if reach > 0.0 {
      LossIsLeast(s, dist, from, reach, to);
      LossIsLeast(t, dist, from, reach, to);
    }
  }

  /** Only which towers there are matters, not their order: the loss is a function of the table. */
  lemma {:induction false} LossFromTable(s: seq<Antenna>, t: seq<Antenna>, dist: Metric, from: Pos, reach: real, to: Pos)
    requires Unique(s) && Unique(t) && Table(s) == Table(t)
    ensures Loss(s, dist, from, reach, to) == Loss(t, dist, from, reach, to)
  {
    SameTableIff(s, t);
    MoreTowersHelp(s, t, dist, from, reach, to);
    MoreTowersHelp(t, s, dist, from, reach, to);
  }

  /** Putting a tower up leaves the better of it and the others. */
  lemma {:induction false} PutLoss(s: seq<Antenna>, a: Antenna, dist: Metric, from: Pos, reach: real, to: Pos)
    requires Unique(s) && reach > 0.0
    ensures Loss(Put(s, a), dist, from, reach, to) ==
            Better(Loss(Erase(s, a.netId), dist, from, reach, to), TowerLoss(a, dist, from, reach, to))
  {
    var t, r := Put(s, a), Erase(s, a.netId);
    forall b
      ensures b in t <==> b in r + [a]
    {
      PutHolds(s, a, b);
      EraseHolds(s, a.netId, b);
    }
    MoreTowersHelp(t, r + [a], dist, from, reach, to);
    MoreTowersHelp(r + [a], t, dist, from, reach, to);
    assert (r + [a])[..|r|] == r;
  }

  // ---------------------------------------------------------------- the code

  function ParseTower(entry: string, number: string -> real, vector: string -> Pos): Option<Antenna> {
    var fields := Text.Tokens(entry, ';', 0);
    if entry == "" || |fields| != 3 || fields[0] == "" then None
    else Some(Antenna(fields[0], vector(fields[2]), number(fields[1])))
  }

  /** The well-formed lines. */
  function ParseTowers(entries: seq<string>, number: string -> real, vector: string -> Pos): seq<Antenna> {
    if entries == [] then []
    else
      var n := |entries| - 1;
      var a := ParseTower(entries[n], number, vector);
      ParseTowers(entries[..n], number, vector) + (if a.Some? then [a.value] else [])
  }

  function NonEmpty(entries: seq<string>): seq<string> {
    if entries == [] then []
    else
      var n := |entries| - 1;
      NonEmpty(entries[..n]) + (if entries[n] != "" then [entries[n]] else [])
  }

  /** The towers of a list of lines given by their fields: id, range and position, and an id there must be. */
  function Described(lines: seq<seq<string>>, number: string -> real, vector: string -> Pos): seq<Antenna> {
    if lines == [] then []
    else
      var n := |lines| - 1;
      Described(lines[..n], number, vector) +
      (if |lines[n]| == 3 && lines[n][0] != "" then [Antenna(lines[n][0], vector(lines[n][2]), number(lines[n][1]))] else [])
  }

  /** A line put together from fields without semicolons reads as the tower they describe, or is skipped. */
  lemma {:induction false} LineRead(fields: seq<string>, number: string -> real, vector: string -> Pos)
    requires Text.Clean(fields, ';')
    ensures ParseTower(Text.Join(fields, ';'), number, vector) ==
            if |fields| == 3 && fields[0] != "" then Some(Antenna(fields[0], vector(fields[2]), number(fields[1]))) else None
  {
    Text.TokensIff(Text.Join(fields, ';'), ';', fields);
    if Text.Join(fields, ';') == "" {
      Text.TokensIff("", ';', [""]);
    }
  }

  ghost predicate Lines(entries: seq<string>, lines: seq<seq<string>>) {
    |entries| == |lines| &&
    forall k :: 0 <= k < |lines| ==> Text.Clean(lines[k], ';') && entries[k] == Text.Join(lines[k], ';')
  }

  lemma {:induction false} LinesRead(entries: seq<string>, lines: seq<seq<string>>, number: string -> real, vector: string -> Pos)
    requires Lines(entries, lines)
    ensures ParseTowers(entries, number, vector) == Described(lines, number, vector)
  {
    if lines != [] {
      var n := |lines| - 1;
      LinesRead(entries[..n], lines[..n], number, vector);
      LineRead(lines[n], number, vector);
    }
  }

  /** A payload put together from such lines reads as the towers they describe. */
  lemma {:induction false} PayloadRead(entries: seq<string>, lines: seq<seq<string>>, number: string -> real, vector: string -> Pos)
    requires Lines(entries, lines) && Text.Clean(entries, '\n')
    ensures ParseTowers(Text.Tokens(Text.Join(entries, '\n'), '\n', 0), number, vector) == Described(lines, number, vector)
  {
    Text.TokensIff(Text.Join(entries, '\n'), '\n', entries);
    LinesRead(entries, lines, number, vector);
  }

  /** After a list of towers there are, of every id, its last tower in the list, or the one there was if it is not listed. */
  lemma {:induction false} AddedAre(s: seq<Antenna>, towers: seq<Antenna>, b: Antenna)
    requires Unique(s)
    ensures Unique(AddAll(s, towers))
    ensures b in AddAll(s, towers) <==>
            (exists k :: LastOf(towers, b, k)) || (b in s && forall k :: 0 <= k < |towers| ==> towers[k].netId != b.netId)
  {
    if towers != [] {
      var n := |towers| - 1;
      AddedAre(s, towers[..n], b);
      PutHolds(AddAll(s, towers[..n]), towers[n], b);
      assert b == towers[n] ==> LastOf(towers, b, n);
      assert b.netId != towers[n].netId ==> forall k :: LastOf(towers, b, k) <==> LastOf(towers[..n], b, k);
    }
  }

  ghost predicate LastOf(towers: seq<Antenna>, b: Antenna, k: int) {
    0 <= k < |towers| && towers[k] == b && forall j :: k < j < |towers| ==> towers[j].netId != b.netId
  }

  /** After a list of ids exactly the towers with those ids are gone; an empty one names none. */
  lemma {:induction false} DeletedAre(s: seq<Antenna>, entries: seq<string>, b: Antenna)
    requires Unique(s)
    ensures b in DelAll(s, NonEmpty(entries)) <==> b in s && (b.netId == "" || b.netId !in entries)
  {
    if entries != [] {
      var n := |entries| - 1;
      DeletedAre(s, entries[..n], b);
      DelNext(s, entries, n);
      DelAllRefines(s, NonEmpty(entries[..n]));
      assert entries[..n + 1] == entries && entries == entries[..n] + [entries[n]];
      if entries[n] != "" {
        EraseHolds(DelAll(s, NonEmpty(entries[..n])), entries[n], b);
      }
    }
  }

  class RadioTowers {
    const number: string -> real
    const vector: string -> Pos
    var antennas: seq<Antenna>

    constructor (number: string -> real, vector: string -> Pos)
      ensures antennas == [] && this.number == number && this.vector == vector
    {
      this.number, this.vector, antennas := number, vector, [];
    }

    method FindTower(id: string) returns (i: nat)
      ensures i == Index(antennas, id)
    {
      i := 0;
      while i < |antennas| && antennas[i].netId != id
        invariant i <= |antennas| && forall k :: 0 <= k < i ==> antennas[k].netId != id
      {
        i := i + 1;
      }
      IndexIs(antennas, id, i);
    }

    method PutTower(a: Antenna)
      modifies this`antennas
      ensures antennas == Put(old(antennas), a)
    {
      var i := FindTower(a.netId);
      if i < |antennas| {
        antennas := antennas[i := a];
      } else {
        antennas := antennas + [a];
      }
    }

    method HandleAddRadioTowers(payload: string)
      modifies this`antennas
      ensures antennas == AddAll(old(antennas), ParseTowers(Text.Tokens(payload, '\n', 0), number, vector))
    {
      var entries := Text.Split(payload, '\n');
      for k := 0 to |entries|
        invariant antennas == AddAll(old(antennas), ParseTowers(entries[..k], number, vector))
      {
        AddNext(old(antennas), entries, k, number, vector);
        if entries[k] != "" {
          var fields := Text.Split(entries[k], ';');
          if |fields| == 3 {
            var antenna := Antenna(fields[0], vector(fields[2]), number(fields[1]));
            if antenna.netId != "" {
              PutTower(antenna);
            }
          }
        }
      }
      assert entries[..|entries|] == entries;
    }

    method HandleDelRadioTowers(payload: string)
      modifies this`antennas
      ensures antennas == DelAll(old(antennas), NonEmpty(Text.Tokens(payload, '\n', 0)))
    {
      var entries := Text.Split(payload, '\n');
      for k := 0 to |entries|
        invariant antennas == DelAll(old(antennas), NonEmpty(entries[..k]))
      {
        DelNext(old(antennas), entries, k);
        if entries[k] != "" {
          var i := FindTower(entries[k]);
          if i < |antennas| {
            antennas := antennas[..i] + antennas[i + 1..];
          }
        }
      }
      assert entries[..|entries|] == entries;
    }

    method AntennaLoss(dist: Metric, from: Pos, reach: real, to: Pos) returns (loss: real)
      ensures loss == Loss(antennas, dist, from, reach, to)
    {
      if antennas == [] || reach <= 0.0 {
        return NO_LOSS;
      }
      var lowest, found := 1.0, false;
      for k := 0 to |antennas|
        invariant found ==> lowest < 1.0 && lowest == Loss(antennas[..k], dist, from, reach, to)
        invariant !found ==> lowest == 1.0 && Loss(antennas[..k], dist, from, reach, to) == NO_LOSS
      {
        assert antennas[..k + 1][..k] == antennas[..k];
        var antenna := antennas[k];
        if antenna.range > 0.0 {
          var distToSender, distToReceiver := dist(antenna.pos, from), dist(antenna.pos, to);
          if distToSender < reach {
            if distToReceiver < antenna.range {
              var loss := Share(distToReceiver, antenna.range) + Share(distToSender, reach);
              if loss < lowest {
                lowest, found := loss, true;
              }
            }
          }
        }
      }
      assert antennas[..|antennas|] == antennas;
      loss := if found then lowest else NO_LOSS;
    }
  }

  lemma {:induction false} IndexIs(s: seq<Antenna>, id: string, i: nat)
    requires i <= |s| && (i < |s| ==> s[i].netId == id) && forall k :: 0 <= k < i ==> s[k].netId != id
    ensures Index(s, id) == i
  {
    var j := Index(s, id);
    assert !(j < i) && !(i < j);
  }

  lemma {:induction false} AddNext(s: seq<Antenna>, entries: seq<string>, k: nat, number: string -> real, vector: string -> Pos)
    requires k < |entries|
    ensures var a := ParseTower(entries[k], number, vector);
            var t := AddAll(s, ParseTowers(entries[..k], number, vector));
            AddAll(s, ParseTowers(entries[..k + 1], number, vector)) == if a.Some? then Put(t, a.value) else t
  {
    assert entries[..k + 1][..k] == entries[..k];
    var towers := ParseTowers(entries[..k], number, vector);
    var a := ParseTower(entries[k], number, vector);
    if a.Some? {
      assert (towers + [a.value])[..|towers|] == towers;
    } else {
      assert towers + [] == towers;
    }
  }

  lemma {:induction false} DelNext(s: seq<Antenna>, entries: seq<string>, k: nat)
    requires k < |entries|
    ensures var t := DelAll(s, NonEmpty(entries[..k]));
            DelAll(s, NonEmpty(entries[..k + 1])) == if entries[k] != "" then Erase(t, entries[k]) else t
  {
    assert entries[..k + 1][..k] == entries[..k];
    var ids := NonEmpty(entries[..k]);
    if entries[k] != "" {
      assert (ids + [entries[k]])[..|ids|] == ids;
    } else {
      assert ids + [] == ids;
    }
  }
}
