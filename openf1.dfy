/** The data-shaping parts of lib/openf1.ts: the filter that keeps race
    sessions, and the reduction of a session's position samples to one final
    position per driver. Fetching is left to the caller: the provider's
    lists are parameters, and ISO dates are integer timestamps. */
module OpenF1 {
  import opened Common
  import opened Sorting

  datatype Session = Session(
    sessionKey: int, sessionName: string, dateStart: int, location: string, year: int)

  /** One position sample of a driver during a session. */
  datatype Position = Position(date: int, driverNumber: int, position: int, sessionKey: int)

  /** fetchRaceSessions: the sessions named "Race", in their given order. */
  function RaceSessions(sessions: seq<Session>): (r: seq<Session>)
    ensures forall s :: s in r <==> s in sessions && s.sessionName == "Race"
    ensures |r| <= |sessions|
  {
    if sessions == [] then []
    else (if sessions[0].sessionName == "Race" then [sessions[0]] else []) + RaceSessions(sessions[1..])
  }

  /** The filter keeps order: filtering a concatenation is concatenating the
      filtered parts. */
  lemma {:induction false} RaceSessionsAppend(a: seq<Session>, b: seq<Session>)
    ensures RaceSessions(a + b) == RaceSessions(a) + RaceSessions(b)
  {
    if a != [] {
      var head := if a[0].sessionName == "Race" then [a[0]] else [];
      assert (a + b)[0] == a[0];
      assert (a + b)[1..] == a[1..] + b;
      RaceSessionsAppend(a[1..], b);
      calc {
        RaceSessions(a + b);
        head + RaceSessions(a[1..] + b);
        head + (RaceSessions(a[1..]) + RaceSessions(b));
        (head + RaceSessions(a[1..])) + RaceSessions(b);
      }
    } else {
      assert a + b == b;
    }
  }

  /** A JavaScript Map from driver number to sample: its keys in insertion
      order, and the table. */
  datatype DriverMap = DriverMap(keys: seq<int>, table: map<int, Position>)

  ghost predicate ValidMap(m: DriverMap)
  {
    (forall i, j :: 0 <= i < j < |m.keys| ==> m.keys[i] != m.keys[j])
    && (forall i :: 0 <= i < |m.keys| ==> m.keys[i] in m.table)
    && (forall d :: d in m.table ==> d in m.keys)
  }

  /** Map.prototype.set: a new key goes to the end, an existing key keeps its place. */
  function Set(m: DriverMap, d: int, p: Position): (r: DriverMap)
    ensures r.table == m.table[d := p]
    ensures d in m.table ==> r.keys == m.keys
    ensures d !in m.table ==> r.keys == m.keys + [d]
  {
    if d in m.table then DriverMap(m.keys, m.table[d := p])
    else DriverMap(m.keys + [d], m.table[d := p])
  }

  lemma SetValid(m: DriverMap, d: int, p: Position)
    requires ValidMap(m)
    ensures ValidMap(Set(m, d, p))
  {
  }

  /** One step of the loop: a sample replaces the stored one only when it is
      strictly later. */
  function Step(m: DriverMap, pos: Position): DriverMap
  {
    if pos.driverNumber !in m.table || pos.date > m.table[pos.driverNumber].date then
      Set(m, pos.driverNumber, pos)
    else m
  }

  /** The Map after the loop has seen every sample of ps. */
  function Latest(ps: seq<Position>): (m: DriverMap)
    ensures ValidMap(m)
  {
    if ps == [] then DriverMap([], map[])
    else Step(Latest(ps[..|ps| - 1]), ps[|ps| - 1])
  }

  /** The values of the driver map: the stored samples in key order. */
  function Values(keys: seq<int>, table: map<int, Position>): (vs: seq<Position>)
    requires forall i :: 0 <= i < |keys| ==> keys[i] in table
    ensures |vs| == |keys|
    ensures forall i :: 0 <= i < |keys| ==> vs[i] == table[keys[i]]
  {
    if keys == [] then [] else [table[keys[0]]] + Values(keys[1..], table)
  }

  /** The sort key of an ordering by position, lowest first. */
  function PositionKey(p: Position): int
  {
    p.position
  }

  function DriverNumberOf(p: Position): int
  {
    p.driverNumber
  }

  /** The Map's values after the loop, before the sort. */
  function LatestValues(ps: seq<Position>): seq<Position>
  {
    Values(Latest(ps).keys, Latest(ps).table)
  }

  /** The value of fetchSessionResults for the samples ps. */
  function SessionResults(ps: seq<Position>): seq<Position>
  {
    SortBy(LatestValues(ps), PositionKey)
  }

  /** ps[i] is the sample kept for its driver: no sample of that driver is
      later, and every earlier sample of that driver is strictly earlier. */
  ghost predicate KeptAt(ps: seq<Position>, i: int)
    requires 0 <= i < |ps|
  {
    (forall j :: 0 <= j < |ps| && ps[j].driverNumber == ps[i].driverNumber ==> ps[j].date <= ps[i].date)
    && (forall j :: 0 <= j < i && ps[j].driverNumber == ps[i].driverNumber ==> ps[j].date < ps[i].date)
  }

  /** The Map holds exactly the drivers of the samples, and for each one the
      sample KeptAt picks, stored under its own number. */
  lemma LatestKeeps(ps: seq<Position>, d: int)
    ensures d in Latest(ps).table <==> exists i :: 0 <= i < |ps| && ps[i].driverNumber == d
    ensures d in Latest(ps).table ==>
              exists i :: 0 <= i < |ps| && ps[i] == Latest(ps).table[d] && ps[i].driverNumber == d && KeptAt(ps, i)
  {
    LatestDomain(ps, d);
    if d in Latest(ps).table {
      LatestKept(ps, d);
    }
  }

  /** The last step of the loop stores the sample or leaves the Map alone. */
  lemma LatestStep(ps: seq<Position>)
    requires ps != []
    ensures var m := Latest(ps[..|ps| - 1]); var p := ps[|ps| - 1];
            if p.driverNumber !in m.table || p.date > m.table[p.driverNumber].date
            then Latest(ps).table == m.table[p.driverNumber := p]
            else Latest(ps) == m
  {
  }

  lemma {:induction false} LatestDomain(ps: seq<Position>, d: int)
    ensures d in Latest(ps).table <==> exists i :: 0 <= i < |ps| && ps[i].driverNumber == d
    decreases |ps|
  {
    if ps != [] {
      var n := |ps| - 1;
      var prefix := ps[..n];
      LatestDomain(prefix, d);
      LatestStep(ps);
      if d in Latest(prefix).table {
        var i :| 0 <= i < n && prefix[i].driverNumber == d;
        assert ps[i] == prefix[i];
      }
      if exists i :: 0 <= i < |ps| && ps[i].driverNumber == d {
        var i :| 0 <= i < |ps| && ps[i].driverNumber == d;
        if i < n {
          assert prefix[i] == ps[i];
        }
      }
    }
  }

  lemma {:induction false} LatestKept(ps: seq<Position>, d: int)
    requires d in Latest(ps).table
    ensures exists i :: 0 <= i < |ps| && ps[i] == Latest(ps).table[d] && ps[i].driverNumber == d && KeptAt(ps, i)
    decreases |ps|
  {
    var n := |ps| - 1;
    var prefix := ps[..n];
    var m := Latest(prefix);
    var p := ps[n];
    LatestStep(ps);
    if d in m.table {
      LatestKept(prefix, d);
      var i :| 0 <= i < n && prefix[i] == m.table[d] && prefix[i].driverNumber == d && KeptAt(prefix, i);
      if d != p.driverNumber || p.date <= m.table[d].date {
        KeptStays(ps, i);
      } else {
        KeptOvertaken(ps, i);
      }
    } else {
      LatestDomain(prefix, d);
      KeptLast(ps);
    }
  }

  /** A kept sample stays kept when the next sample is of another driver or
      not later. */
  lemma KeptStays(ps: seq<Position>, i: int)
    requires 0 <= i < |ps| - 1 && KeptAt(ps[..|ps| - 1], i)
    requires ps[|ps| - 1].driverNumber == ps[i].driverNumber ==> ps[|ps| - 1].date <= ps[i].date
    ensures KeptAt(ps, i)
  {
    assert forall j :: 0 <= j < |ps| - 1 ==> ps[..|ps| - 1][j] == ps[j];
  }

  /** A strictly later sample of the kept sample's driver is kept in its place. */
  lemma KeptOvertaken(ps: seq<Position>, i: int)
    requires 0 <= i < |ps| - 1 && KeptAt(ps[..|ps| - 1], i)
    requires ps[|ps| - 1].driverNumber == ps[i].driverNumber && ps[|ps| - 1].date > ps[i].date
    ensures KeptAt(ps, |ps| - 1)
  {
    assert forall j :: 0 <= j < |ps| - 1 ==> ps[..|ps| - 1][j] == ps[j];
    KeptLast(ps);
  }

  /** The last sample is kept when every earlier sample of its driver is
      strictly earlier. */
  lemma KeptLast(ps: seq<Position>)
    requires ps != []
    requires forall j :: 0 <= j < |ps| - 1 && ps[j].driverNumber == ps[|ps| - 1].driverNumber ==> ps[j].date < ps[|ps| - 1].date
    ensures KeptAt(ps, |ps| - 1)
  {
  }

  /** fetchSessionResults after the fetch: the reduction loop over the
      samples, then the copy of the Map's values and the sort by position. */
  method FetchSessionResults(positions: seq<Position>) returns (result: seq<Position>)
    ensures result == SessionResults(positions)
  {
    var latestPositions := DriverMap([], map[]);
    for n := 0 to |positions|
      invariant latestPositions == Latest(positions[..n])
    {
      var pos := positions[n];
      assert positions[..n + 1][..n] == positions[..n];
      if pos.driverNumber !in latestPositions.table || pos.date > latestPositions.table[pos.driverNumber].date {
        latestPositions := Set(latestPositions, pos.driverNumber, pos);
      }
    }
    assert positions[..|positions|] == positions;
    var values := Values(latestPositions.keys, latestPositions.table);
    var a := new Position[|values|](i requires 0 <= i < |values| => values[i]);
    assert a[..] == values;
    SortInPlace(a, PositionKey);
    result := a[..];
  }

  /** The values of the Map are the kept samples, with distinct drivers. */
  lemma ValuesShape(ps: seq<Position>)
    ensures forall i, j :: 0 <= i < j < |LatestValues(ps)| ==>
              LatestValues(ps)[i].driverNumber != LatestValues(ps)[j].driverNumber
    ensures forall q :: q in LatestValues(ps) <==> q.driverNumber in Latest(ps).table && Latest(ps).table[q.driverNumber] == q
  {
    var m := Latest(ps);
    var vs := LatestValues(ps);
    forall i | 0 <= i < |vs| ensures vs[i].driverNumber == m.keys[i] {
      LatestKeeps(ps, m.keys[i]);
    }
    forall q: Position | q.driverNumber in m.table && m.table[q.driverNumber] == q ensures q in vs {
      var i :| 0 <= i < |m.keys| && m.keys[i] == q.driverNumber;
      assert vs[i] == q;
    }
  }

  /** The result is sorted by position, and drivers with equal positions keep
      the order in which they first appeared. */
  lemma SessionResultsSorted(ps: seq<Position>)
    ensures SortedBy(SessionResults(ps), PositionKey)
    ensures SameOrderPerKey(LatestValues(ps), SessionResults(ps), PositionKey)
  {
    SortByCorrect(LatestValues(ps), PositionKey);
  }

  /** At most one sample per driver. */
  lemma SessionResultsDistinct(ps: seq<Position>)
    ensures forall i, j :: 0 <= i < j < |SessionResults(ps)| ==>
              SessionResults(ps)[i].driverNumber != SessionResults(ps)[j].driverNumber
  {
    var vs := LatestValues(ps);
    var r := SessionResults(ps);
    SortByCorrect(vs, PositionKey);
    ValuesShape(ps);
    assert forall i, j :: 0 <= i < j < |vs| ==> DriverNumberOf(vs[i]) != DriverNumberOf(vs[j]);
    PermutationKeepsDistinct(vs, r, DriverNumberOf);
    forall i, j | 0 <= i < j < |r| ensures r[i].driverNumber != r[j].driverNumber {
      assert DriverNumberOf(r[i]) != DriverNumberOf(r[j]);
    }
  }

  /** Every driver with a sample has an entry. */
  lemma SessionResultsComplete(ps: seq<Position>, k: int)
    requires 0 <= k < |ps|
    ensures exists q :: q in SessionResults(ps) && q.driverNumber == ps[k].driverNumber
  {
    var m := Latest(ps);
    var d := ps[k].driverNumber;
    LatestKeeps(ps, d);
    var q := m.table[d];
    var i :| 0 <= i < |ps| && ps[i] == q && ps[i].driverNumber == d && KeptAt(ps, i);
    ValuesShape(ps);
    SortByMembers(LatestValues(ps), PositionKey, q);
  }

  /** Every entry is a sample of the input, the one KeptAt picks for its driver. */
  lemma SessionResultsKept(ps: seq<Position>, q: Position)
    requires q in SessionResults(ps)
    ensures exists i :: 0 <= i < |ps| && ps[i] == q && KeptAt(ps, i)
  {
    SortByMembers(LatestValues(ps), PositionKey, q);
    ValuesShape(ps);
    LatestKeeps(ps, q.driverNumber);
  }
}
