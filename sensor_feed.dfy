/**
 * The live sensor table of the dashboard home page: every `sensor-data`
 * message pushed by the server is folded into a bounded list of readings
 * keyed by sensor id, and logging out clears the list.
 *
 * A reading for a sensor already in the list overwrites that entry where it
 * stands (it is not moved to the front); a reading for a new sensor is put at
 * the front and the old list is cut to its first 49 entries. Timestamps are
 * never compared: the reading that arrives last wins.
 */
module SensorFeed {
  import opened Common

  /** One telemetry sample as the server pushes it. */
  datatype SensorData = SensorData(
    sensorId: string,
    timestamp: int,     // Unix seconds, assigned by the producer
    temperature: real,  // degrees Celsius
    humidity: real)     // percent

  /** The table never holds more readings than this. */
  const Capacity: nat := 50
  /** How many old entries survive when a new sensor is put at the front. */
  const Kept: nat := Capacity - 1

  /** No two entries of `s` share a sensor id. */
  ghost predicate UniqueIds(s: seq<SensorData>) {
    forall i, j :: 0 <= i < j < |s| ==> s[i].sensorId != s[j].sensorId
  }

  /** Some entry of `s` carries sensor id `id`. */
  predicate HasSensor(s: seq<SensorData>, id: string) {
    exists i :: 0 <= i < |s| && s[i].sensorId == id
  }

  /** The set of sensor ids occurring in `s`. */
  function Ids(s: seq<SensorData>): set<string> {
    set i | 0 <= i < |s| :: s[i].sensorId
  }

  /**
   * `Array.prototype.findIndex` with the predicate "same sensor id": the
   * first index whose entry carries `id`, or -1 when there is none.
   */
  function FindIndex(s: seq<SensorData>, id: string): (r: int)
    ensures -1 <= r < |s|
    ensures r >= 0 ==> s[r].sensorId == id
    ensures forall j :: 0 <= j < |s| && (r < 0 || j < r) ==> s[j].sensorId != id
  {
    if |s| == 0 then -1
    else if s[0].sensorId == id then 0
    else
      var k := FindIndex(s[1..], id);
      if k < 0 then -1 else k + 1
  }

  /** The reading stored for sensor `id`: the first entry carrying it. */
  function Lookup(s: seq<SensorData>, id: string): (r: Option<SensorData>)
    ensures r.None? <==> !HasSensor(s, id)
    ensures r.Some? ==> r.value.sensorId == id
  {
    var i := FindIndex(s, id);
    if i < 0 then None else Some(s[i])
  }

  /** The list the `setData` updater returns for the previous list `prev` and the message `msg`. */
  function Merged(prev: seq<SensorData>, msg: SensorData): (r: seq<SensorData>)
    ensures msg in r
    ensures |r| == |prev| || |r| <= Capacity
  {
    var i := FindIndex(prev, msg.sensorId);
    if i >= 0 then assert prev[i := msg][i] == msg; prev[i := msg]
    else [msg] + prev[..Min(|prev|, Kept)]
  }

  /**
   * Folds a sequence of messages into `prev`, in arrival order: the list
   * after all of them is the last one merged into the list after the others.
   * Whatever came before, the sensor of the last message shows that message.
   */
  function MergedAll(prev: seq<SensorData>, msgs: seq<SensorData>): (r: seq<SensorData>)
    ensures msgs != [] ==> Lookup(r, msgs[|msgs| - 1].sensorId) == Some(msgs[|msgs| - 1])
    decreases |msgs|
  {
    if msgs == [] then prev
    else
      var before := MergedAll(prev, msgs[..|msgs| - 1]);
      MergeLastWriteWins(before, msgs[|msgs| - 1]);
      Merged(before, msgs[|msgs| - 1])
  }

  /** FindIndex is pinned down by its contract: the first index carrying `id`. */
  lemma FindIndexIs(s: seq<SensorData>, id: string, k: int)
    requires -1 <= k < |s|
    requires k >= 0 ==> s[k].sensorId == id
    requires forall j :: 0 <= j < |s| && (k < 0 || j < k) ==> s[j].sensorId != id
    ensures FindIndex(s, id) == k
  {
  }

  /**
   * A reading for a known sensor replaces exactly the first entry carrying
   * its id; the length and every other entry, with its position, stay.
   */
  lemma MergeKnown(prev: seq<SensorData>, msg: SensorData, i: nat)
    requires i < |prev| && prev[i].sensorId == msg.sensorId
    requires forall j :: 0 <= j < i ==> prev[j].sensorId != msg.sensorId
    ensures |Merged(prev, msg)| == |prev|
    ensures Merged(prev, msg)[i] == msg
    ensures forall j :: 0 <= j < |prev| && j != i ==> Merged(prev, msg)[j] == prev[j]
  {
  }

  /**
   * A reading for a new sensor goes to index 0, followed by the first 49
   * entries of the old list in their old order.
   */
  lemma MergeNew(prev: seq<SensorData>, msg: SensorData)
    requires !HasSensor(prev, msg.sensorId)
    ensures Merged(prev, msg) == [msg] + prev[..Min(|prev|, Kept)]
    ensures Merged(prev, msg)[0] == msg
    ensures forall j :: 0 <= j < Min(|prev|, Kept) ==> Merged(prev, msg)[j + 1] == prev[j]
  {
  }

  /** A known id keeps the length; a new id gives min(|prev| + 1, 50); never more than 50 from at most 50. */
  lemma MergeLength(prev: seq<SensorData>, msg: SensorData)
    ensures HasSensor(prev, msg.sensorId) ==> |Merged(prev, msg)| == |prev|
    ensures !HasSensor(prev, msg.sensorId) ==> |Merged(prev, msg)| == Min(|prev| + 1, Capacity)
    ensures |prev| <= Capacity ==> |Merged(prev, msg)| <= Capacity
  {
  }

  /** Merging keeps sensor ids pairwise distinct. */
  lemma MergeUnique(prev: seq<SensorData>, msg: SensorData)
    requires UniqueIds(prev)
    ensures UniqueIds(Merged(prev, msg))
  {
  }

  /**
   * Arrival order decides: after a merge the table stores `msg` for its
   * sensor, whatever the timestamps of the reading it displaces.
   */
  lemma MergeLastWriteWins(prev: seq<SensorData>, msg: SensorData)
    ensures Lookup(Merged(prev, msg), msg.sensorId) == Some(msg)
  {
    var i := FindIndex(prev, msg.sensorId);
    var r := Merged(prev, msg);
    if i >= 0 {
      FindIndexIs(r, msg.sensorId, i);
    } else {
      FindIndexIs(r, msg.sensorId, 0);
    }
  }

  /**
   * Every other sensor keeps its stored reading, except the one a new sensor
   * pushes off the end: the sensor whose entry sat at index 49 or beyond.
   */
  lemma MergeKeepsOthers(prev: seq<SensorData>, msg: SensorData, id: string)
    requires id != msg.sensorId
    ensures Lookup(Merged(prev, msg), id) ==
      if !HasSensor(prev, msg.sensorId) && FindIndex(prev, id) >= Kept then None
      else Lookup(prev, id)
  {
    var r := Merged(prev, msg);
    var i := FindIndex(prev, msg.sensorId);
    var k := FindIndex(prev, id);
    if i >= 0 {
      assert forall j :: 0 <= j < |r| ==> r[j].sensorId == prev[j].sensorId;
      FindIndexIs(r, id, k);
      if k >= 0 { assert k != i; }
    } else {
      MergeNew(prev, msg);
      if k >= 0 && k < Kept {
        FindIndexIs(r, id, k + 1);
      } else {
        FindIndexIs(r, id, -1);
      }
    }
  }

  /**
   * Which sensors are present after a merge: the same ones for a known id;
   * for a new id, the new one and those among the first 49 entries.
   */
  lemma MergeIds(prev: seq<SensorData>, msg: SensorData)
    ensures HasSensor(prev, msg.sensorId) ==> Ids(Merged(prev, msg)) == Ids(prev)
    ensures !HasSensor(prev, msg.sensorId) ==>
      Ids(Merged(prev, msg)) == {msg.sensorId} + Ids(prev[..Min(|prev|, Kept)])
  {
    var r := Merged(prev, msg);
    var i := FindIndex(prev, msg.sensorId);
    if i >= 0 {
      assert forall j :: 0 <= j < |r| ==> r[j].sensorId == prev[j].sensorId;
      assert Ids(r) == Ids(prev) by {
        forall x | x in Ids(r) ensures x in Ids(prev) {
          var j :| 0 <= j < |r| && r[j].sensorId == x;
          assert prev[j].sensorId == x;
        }
        forall x | x in Ids(prev) ensures x in Ids(r) {
          var j :| 0 <= j < |prev| && prev[j].sensorId == x;
          assert r[j].sensorId == x;
        }
      }
    } else {
      MergeNew(prev, msg);
      var p := prev[..Min(|prev|, Kept)];
      forall x | x in Ids(r) ensures x in {msg.sensorId} + Ids(p) {
        var j :| 0 <= j < |r| && r[j].sensorId == x;
        if j > 0 { assert p[j - 1].sensorId == x; }
      }
      forall x | x in {msg.sensorId} + Ids(p) ensures x in Ids(r) {
        if x == msg.sensorId {
          assert r[0].sensorId == x;
        } else {
          var j :| 0 <= j < |p| && p[j].sensorId == x;
          assert r[j + 1].sensorId == x;
        }
      }
    }
  }

  /**
   * At capacity, a new sensor evicts the entry at the back (index 49) and no
   * other: with distinct ids, exactly that sensor disappears.
   */
  lemma MergeEvictsLast(prev: seq<SensorData>, msg: SensorData)
    requires |prev| == Capacity && UniqueIds(prev)
    requires !HasSensor(prev, msg.sensorId)
    ensures Ids(Merged(prev, msg)) == Ids(prev) - {prev[Kept].sensorId} + {msg.sensorId}
  {
    MergeIds(prev, msg);
    var p := prev[..Kept];
    assert prev == p + [prev[Kept]];
    forall x | x in Ids(prev) - {prev[Kept].sensorId} ensures x in Ids(p) {
      var j :| 0 <= j < |prev| && prev[j].sensorId == x;
      assert j != Kept;
      assert p[j].sensorId == x;
    }
    forall x | x in Ids(p) ensures x in Ids(prev) - {prev[Kept].sensorId} {
      var j :| 0 <= j < |p| && p[j].sensorId == x;
      assert prev[j].sensorId == x;
    }
  }

  /** Any stream of messages folded into a valid table leaves it valid: at most 50 entries, distinct ids. */
  lemma {:induction false} MergedAllValid(prev: seq<SensorData>, msgs: seq<SensorData>)
    requires |prev| <= Capacity && UniqueIds(prev)
    ensures |MergedAll(prev, msgs)| <= Capacity
    ensures UniqueIds(MergedAll(prev, msgs))
    decreases |msgs|
  {
    if msgs != [] {
      var before := MergedAll(prev, msgs[..|msgs| - 1]);
      MergedAllValid(prev, msgs[..|msgs| - 1]);
      MergeLength(before, msgs[|msgs| - 1]);
      MergeUnique(before, msgs[|msgs| - 1]);
    }
  }

  /**
   * Sensor "A" reports (t=100, 32 C), then "B" (t=101, 5 C), then "A" again
   * (t=105, 33 C): the refreshed "A" stays behind "B" at index 1, it is not
   * moved to the front.
   */
  lemma RefreshKeepsPosition()
    ensures MergedAll([], [SensorData("A", 100, 32.0, 40.0), SensorData("B", 101, 5.0, 40.0),
                           SensorData("A", 105, 33.0, 40.0)])
         == [SensorData("B", 101, 5.0, 40.0), SensorData("A", 105, 33.0, 40.0)]
  {
    var a1, b, a2 := SensorData("A", 100, 32.0, 40.0), SensorData("B", 101, 5.0, 40.0),
                     SensorData("A", 105, 33.0, 40.0);
    var msgs := [a1, b, a2];
    MergeNew([], a1);
    assert [a1][..0] == [];
    assert MergedAll([], [a1]) == [a1];
    MergeNew([a1], b);
    assert [a1, b][..1] == [a1];
    assert MergedAll([], [a1, b]) == [b, a1];
    MergeKnown([b, a1], a2, 1);
    assert msgs[..2] == [a1, b];
    assert MergedAll([], msgs) == Merged([b, a1], a2) == [b, a2];
  }

  /**
   * Eviction goes by first arrival, not by last update: a sensor refreshed in
   * place at index 49 of a full table is still the one the next new sensor
   * pushes out.
   */
  lemma RefreshedLastIsEvicted(prev: seq<SensorData>, refresh: SensorData, newcomer: SensorData)
    requires |prev| == Capacity && UniqueIds(prev)
    requires prev[Kept].sensorId == refresh.sensorId
    requires !HasSensor(prev, newcomer.sensorId)
    ensures Lookup(Merged(prev, refresh), refresh.sensorId) == Some(refresh)
    ensures Lookup(Merged(Merged(prev, refresh), newcomer), refresh.sensorId) == None
  {
    MergeKnown(prev, refresh, Kept);
    MergeLastWriteWins(prev, refresh);
    var mid := Merged(prev, refresh);
    assert forall j :: 0 <= j < |mid| ==> mid[j].sensorId == prev[j].sensorId;
    FindIndexIs(mid, refresh.sensorId, Kept);
    MergeKeepsOthers(mid, newcomer, refresh.sensorId);
  }

  /**
   * The table of readings held by the page: `setData` on each `sensor-data`
   * message, `setData([])` on logout.
   */
  class SensorTable {
    var readings: seq<SensorData>

    ghost predicate Valid()
      reads this
    {
      |readings| <= Capacity && UniqueIds(readings)
    }

    /** The page starts with an empty list. */
    constructor ()
      ensures Valid() && readings == []
    {
      readings := [];
    }

    /** Handles one `sensor-data` message; no validation is done on it. */
    method Merge(msg: SensorData)
      requires Valid()
      modifies this
      ensures Valid()
      ensures readings == Merged(old(readings), msg)
    {
      MergeLength(readings, msg);
      MergeUnique(readings, msg);
      readings := Merged(readings, msg);
    }

    /** Logout: the list is emptied. */
    method Reset()
      modifies this
      ensures Valid() && readings == []
    {
      readings := [];
    }
  }
}
