/**
 * What the home page derives from the current table on every render: the
 * colour bands of the temperature and humidity tags, and the three stat cards
 * (active sensors, average temperature, average humidity).
 */
module SensorStats {
  import opened Common
  import opened SensorFeed

  /** Colour of a temperature tag: hot above 30, cold below 10. */
  function TempColor(temp: real): (c: string)
    ensures c == "red" <==> temp > 30.0
    ensures c == "blue" <==> temp < 10.0
    ensures c == "green" <==> 10.0 <= temp <= 30.0
  {
    if temp > 30.0 then "red"
    else if temp < 10.0 then "blue"
    else "green"
  }

  /** Colour of a humidity tag: humid above 70, dry below 30. */
  function HumidityColor(humidity: real): (c: string)
    ensures c == "blue" <==> humidity > 70.0
    ensures c == "orange" <==> humidity < 30.0
    ensures c == "green" <==> 30.0 <= humidity <= 70.0
  {
    if humidity > 70.0 then "blue"
    else if humidity < 30.0 then "orange"
    else "green"
  }

  /** The "Active Sensors" card: the number of distinct sensor ids. */
  function ActiveSensors(s: seq<SensorData>): (n: nat)
    ensures n == 0 <==> s == []
  {
    assert s != [] ==> s[0].sensorId in Ids(s);
    |Ids(s)|
  }

  /** Sum of the temperatures, folded from the front as `reduce` does. */
  function TemperatureSum(s: seq<SensorData>): (r: real)
    ensures |s| == 1 ==> r == s[0].temperature
  {
    if s == [] then 0.0 else TemperatureSum(s[..|s| - 1]) + s[|s| - 1].temperature
  }

  /** Folding a concatenation gives the sum of the two folds: the order of the readings does not change the total. */
  lemma {:induction false} TemperatureSumAppend(a: seq<SensorData>, b: seq<SensorData>)
    ensures TemperatureSum(a + b) == TemperatureSum(a) + TemperatureSum(b)
    decreases |b|
  {
    if b == [] {
      assert a + b == a;
    } else {
      assert (a + b)[..|a + b| - 1] == a + b[..|b| - 1];
      TemperatureSumAppend(a, b[..|b| - 1]);
    }
  }

  /** Sum of the humidities, folded from the front as `reduce` does. */
  function HumiditySum(s: seq<SensorData>): (r: real)
    ensures |s| == 1 ==> r == s[0].humidity
  {
    if s == [] then 0.0 else HumiditySum(s[..|s| - 1]) + s[|s| - 1].humidity
  }

  /** Folding a concatenation gives the sum of the two folds: the order of the readings does not change the total. */
  lemma {:induction false} HumiditySumAppend(a: seq<SensorData>, b: seq<SensorData>)
    ensures HumiditySum(a + b) == HumiditySum(a) + HumiditySum(b)
    decreases |b|
  {
    if b == [] {
      assert a + b == a;
    } else {
      assert (a + b)[..|a + b| - 1] == a + b[..|b| - 1];
      HumiditySumAppend(a, b[..|b| - 1]);
    }
  }

  /** Average temperature, or None where the card shows "-" (an empty table). */
  function MeanTemperature(s: seq<SensorData>): (m: Option<real>)
    ensures m.None? <==> s == []
    ensures m.Some? ==> m.value * (|s| as real) == TemperatureSum(s)
  {
    if |s| == 0 then None else Some(TemperatureSum(s) / (|s| as real))
  }

  /** Average humidity, or None where the card shows "-" (an empty table). */
  function MeanHumidity(s: seq<SensorData>): (m: Option<real>)
    ensures m.None? <==> s == []
    ensures m.Some? ==> m.value * (|s| as real) == HumiditySum(s)
  {
    if |s| == 0 then None else Some(HumiditySum(s) / (|s| as real))
  }

  /** The three stat cards: the count, each average (None for "-") and its band colour. */
  datatype Stats = Stats(
    activeSensors: nat,
    avgTemperature: Option<real>,
    avgTemperatureColor: string,
    avgHumidity: Option<real>,
    avgHumidityColor: string)

  /** The cards for table `s`; the colour of an absent average is computed from 0. */
  function StatsOf(s: seq<SensorData>): (r: Stats)
    ensures r.avgTemperature.None? <==> s == []
    ensures r.avgHumidity.None? <==> s == []
    ensures s == [] ==> r.avgTemperatureColor == "blue" && r.avgHumidityColor == "orange"
  {
    var t := MeanTemperature(s);
    var h := MeanHumidity(s);
    Stats(
      ActiveSensors(s),
      t, TempColor(if t.Some? then t.value else 0.0),
      h, HumidityColor(if h.Some? then h.value else 0.0))
  }

  /** Sets of ids of a list with its first entry split off. */
  lemma IdsCons(s: seq<SensorData>)
    requires s != []
    ensures Ids(s) == {s[0].sensorId} + Ids(s[1..])
  {
  }

  /** There are never more active sensors than entries; with distinct ids, exactly as many. */
  lemma {:induction false} ActiveSensorsCount(s: seq<SensorData>)
    ensures ActiveSensors(s) <= |s|
    ensures UniqueIds(s) ==> ActiveSensors(s) == |s|
  {
    if s != [] {
      IdsCons(s);
      ActiveSensorsCount(s[1..]);
      if UniqueIds(s) {
        assert UniqueIds(s[1..]);
        assert s[0].sensorId !in Ids(s[1..]);
      }
    }
  }

  /** The table kept by the page always shows as many active sensors as rows. */
  lemma ActiveSensorsOfTable(t: SensorTable)
    requires t.Valid()
    ensures ActiveSensors(t.readings) == |t.readings| <= Capacity
  {
    ActiveSensorsCount(t.readings);
  }

  /** Temperatures between `lo` and `hi` sum to between n*lo and n*hi. */
  lemma {:induction false} TemperatureSumBounds(s: seq<SensorData>, lo: real, hi: real)
    requires forall i :: 0 <= i < |s| ==> lo <= s[i].temperature <= hi
    ensures (|s| as real) * lo <= TemperatureSum(s) <= (|s| as real) * hi
  {
    if s != [] {
      TemperatureSumBounds(s[..|s| - 1], lo, hi);
    }
  }

  /** Humidities between `lo` and `hi` sum to between n*lo and n*hi. */
  lemma {:induction false} HumiditySumBounds(s: seq<SensorData>, lo: real, hi: real)
    requires forall i :: 0 <= i < |s| ==> lo <= s[i].humidity <= hi
    ensures (|s| as real) * lo <= HumiditySum(s) <= (|s| as real) * hi
  {
    if s != [] {
      HumiditySumBounds(s[..|s| - 1], lo, hi);
    }
  }

  /** The average temperature lies within any bounds all readings respect. */
  lemma MeanTemperatureBounds(s: seq<SensorData>, lo: real, hi: real)
    requires s != []
    requires forall i :: 0 <= i < |s| ==> lo <= s[i].temperature <= hi
    ensures lo <= MeanTemperature(s).value <= hi
  {
    TemperatureSumBounds(s, lo, hi);
    var n := |s| as real;
    var m := MeanTemperature(s).value;
    assert m * n >= n * lo && m * n <= n * hi;
  }

  /** The average humidity lies within any bounds all readings respect. */
  lemma MeanHumidityBounds(s: seq<SensorData>, lo: real, hi: real)
    requires s != []
    requires forall i :: 0 <= i < |s| ==> lo <= s[i].humidity <= hi
    ensures lo <= MeanHumidity(s).value <= hi
  {
    HumiditySumBounds(s, lo, hi);
    var n := |s| as real;
    var m := MeanHumidity(s).value;
    assert m * n >= n * lo && m * n <= n * hi;
  }

  /** When every reading is in the green temperature band, so is the average card. */
  lemma AllGreenTemperatureCard(s: seq<SensorData>)
    requires s != []
    requires forall i :: 0 <= i < |s| ==> TempColor(s[i].temperature) == "green"
    ensures StatsOf(s).avgTemperatureColor == "green"
  {
    MeanTemperatureBounds(s, 10.0, 30.0);
  }

  /** When every reading is in the green humidity band, so is the average card. */
  lemma AllGreenHumidityCard(s: seq<SensorData>)
    requires s != []
    requires forall i :: 0 <= i < |s| ==> HumidityColor(s[i].humidity) == "green"
    ensures StatsOf(s).avgHumidityColor == "green"
  {
    MeanHumidityBounds(s, 30.0, 70.0);
  }

  /**
   * Sensor "A" at 32 C, then "B" at 5 C, then "A" again at 33 C: two rows,
   * "B" first, two active sensors, the refreshed "A" red and "B" blue.
   */
  lemma RefreshScenarioStats()
    ensures var t := MergedAll([], [SensorData("A", 100, 32.0, 40.0), SensorData("B", 101, 5.0, 40.0),
                                    SensorData("A", 105, 33.0, 40.0)]);
      |t| == 2 && ActiveSensors(t) == 2
      && t[0].sensorId == "B" && TempColor(t[0].temperature) == "blue"
      && t[1].sensorId == "A" && TempColor(t[1].temperature) == "red"
  {
    RefreshKeepsPosition();
    var t := [SensorData("B", 101, 5.0, 40.0), SensorData("A", 105, 33.0, 40.0)];
    ActiveSensorsCount(t);
  }

  /**
   * An empty table (as after logout): no active sensors, both averages "-",
   * and the cards coloured as for 0, blue for temperature, orange for humidity.
   */
  lemma EmptyStats()
    ensures StatsOf([]) == Stats(0, None, "blue", None, "orange")
  {
  }
}
