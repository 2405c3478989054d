/** The reading side of `WaterDataService`: the real-time CSV of one
    station turned into its detail view, and the mock readings that stand in
    for it. Number and date parsing are library calls and come in as
    functions that answer None where `TryParse` fails. */
module WaterReadings {
  import opened Wrappers
  import opened Text
  import opened Calendar
  import opened Models
  import opened Sequences
  import opened WaterStations

  const WaterLevelParameter := "46"
  const DischargeParameter := "47"

  /** `RecentData` keeps this many readings. */
  const RecentCount: nat := 10

  /** The mock series: ten instants six minutes apart, ending at `now`. */
  const MockSteps: nat := 10
  const MockInterval: nat := 6 * TicksPerMinute
  const MockSpan: nat := (MockSteps - 1) * MockInterval

  /** `double.TryParse` (invariant culture) and `DateTime.TryParse`. */
  datatype CsvParsers = CsvParsers(number: string -> Option<real>, timestamp: string -> Option<Instant>)

  // ---------------------------------------------------------------------
  // Rows
  // ---------------------------------------------------------------------

  /** The reading on one data line: none when it has fewer than six
      comma-separated columns; otherwise columns 2, 3 and 5 trimmed, the
      value of column 4 (0 when it does not parse) and the timestamp of
      columns 0 and 1 joined by a space (`now` when it does not parse). */
  function Reading(stationId: string, line: string, parsers: CsvParsers, now: Instant): (r: Option<WaterStationData>)
    ensures r.Some? <==> |Split(line, ',')| >= 6
    ensures r.Some? ==> r.value.stationId == stationId
  {
    var columns := Split(line, ',');
    if |columns| < 6 then None
    else
      Some(WaterStationData(stationId, Trim(columns[2]), Trim(columns[3]),
                            parsers.number(columns[4]).GetOr(0.0), Trim(columns[5]),
                            parsers.timestamp(columns[0] + " " + columns[1]).GetOr(now)))
  }

  /** The readings of the data lines, in file order. */
  function Readings(stationId: string, lines: seq<string>, parsers: CsvParsers, now: Instant): seq<WaterStationData>
  {
    Collect(lines, line => Reading(stationId, line, parsers, now))
  }

  lemma ReadingsStep(stationId: string, lines: seq<string>, line: string, parsers: CsvParsers, now: Instant)
    ensures var r := Reading(stationId, line, parsers, now);
      Readings(stationId, lines + [line], parsers, now)
        == Readings(stationId, lines, parsers, now) + if r.Some? then [r.value] else []
  {
    CollectStep(lines, line, l => Reading(stationId, l, parsers, now));
  }

  /** Every reading belongs to the station and comes from one data line,
      and every line with six columns or more gives one. */
  lemma ReadingsFromLines(stationId: string, lines: seq<string>, parsers: CsvParsers, now: Instant)
    ensures var rows := Readings(stationId, lines, parsers, now);
      && |rows| <= |lines|
      && (forall k :: 0 <= k < |rows| ==> rows[k].stationId == stationId)
      && (forall line :: line in lines && |Split(line, ',')| >= 6 ==> Reading(stationId, line, parsers, now).value in rows)
  {
    var f := line => Reading(stationId, line, parsers, now);
    var rows := Readings(stationId, lines, parsers, now);
    CollectElements(lines, f);
    forall k | 0 <= k < |rows| ensures rows[k].stationId == stationId {
      assert Yields(lines, f, rows[k]);
      var line :| line in lines && f(line) == Some(rows[k]);
    }
  }

  // ---------------------------------------------------------------------
  // Current values
  // ---------------------------------------------------------------------

  /** The value of the last reading of `parameter`, or 0 when there is
      none: each matching row overwrites the running value. */
  function LastValue(rows: seq<WaterStationData>, parameter: string): real
  {
    if rows == [] then 0.0
    else if rows[|rows| - 1].parameter == parameter then rows[|rows| - 1].value
    else LastValue(rows[..|rows| - 1], parameter)
  }

  lemma LastValueStep(rows: seq<WaterStationData>, row: WaterStationData, parameter: string)
    ensures LastValue(rows + [row], parameter) == if row.parameter == parameter then row.value else LastValue(rows, parameter)
  {
    assert (rows + [row])[..|rows|] == rows;
  }

  /** Row `k` has the parameter and no later row has it. */
  predicate LastOf(rows: seq<WaterStationData>, parameter: string, k: int)
    requires 0 <= k < |rows|
  {
    rows[k].parameter == parameter && forall j :: k < j < |rows| ==> rows[j].parameter != parameter
  }

  /** The running value is 0 when no row has the parameter, and otherwise
      the value of the last row that has it. */
  lemma {:induction false} LastValueIsLast(rows: seq<WaterStationData>, parameter: string)
    ensures (forall k :: 0 <= k < |rows| ==> rows[k].parameter != parameter) ==> LastValue(rows, parameter) == 0.0
    ensures forall k :: 0 <= k < |rows| && LastOf(rows, parameter, k) ==> LastValue(rows, parameter) == rows[k].value
  {
    if rows != [] {
      var n := |rows|;
      var init := rows[..n - 1];
      LastValueIsLast(init, parameter);
      assert forall k :: 0 <= k < n - 1 ==> init[k] == rows[k];
      if rows[n - 1].parameter != parameter {
        forall k | 0 <= k < n && LastOf(rows, parameter, k) ensures LastValue(rows, parameter) == rows[k].value {
          assert k < n - 1;
          assert LastOf(init, parameter, k);
        }
      }
    }
  }

  /** LINQ `FirstOrDefault(d => d.Parameter == parameter)?.Value ?? 0`. */
  function FirstValue(rows: seq<WaterStationData>, parameter: string): real
  {
    if rows == [] then 0.0
    else if rows[0].parameter == parameter then rows[0].value
    else FirstValue(rows[1..], parameter)
  }

  /** `RecentData`: the readings newest first, at most ten. */
  function MostRecent(rows: seq<WaterStationData>): seq<WaterStationData> {
    Take(OrderByDescending(rows, TimestampOf), RecentCount)
  }

  /** The ten newest readings (all of them when fewer), newest first, and
      no left-out reading is newer than a kept one; of the readings that
      share a timestamp (a row's level and discharge) the earliest in file
      order are kept, in file order. */
  lemma MostRecentAreNewest(rows: seq<WaterStationData>)
    ensures var r := MostRecent(rows);
      && |r| == (if |rows| < RecentCount then |rows| else RecentCount)
      && SortedDescBy(r, TimestampOf)
      && multiset(r) <= multiset(rows)
      && (forall x, k :: x in multiset(rows) - multiset(r) && 0 <= k < |r| ==> x.timestamp <= r[k].timestamp)
      && forall v :: Filter(r, KeyIs(TimestampOf, v)) <= Filter(rows, KeyIs(TimestampOf, v))
  {
    TopByKey(rows, RecentCount, TimestampOf);
  }

  // ---------------------------------------------------------------------
  // Mock readings
  // ---------------------------------------------------------------------

  /** The water-level reading of iteration `i`: 2.5 m plus half a metre
      times the draw, `6i` minutes before `now`. */
  function MockLevel(stationId: string, now: Instant, i: nat, draw: real): WaterStationData
    requires i < MockSteps && now >= MockSpan
  {
    WaterStationData(stationId, WaterLevelParameter, "Water Level", 2.5 + draw * 0.5, "m", now - i * MockInterval)
  }

  /** The discharge reading of iteration `i`: 150 plus 50 times the draw. */
  function MockDischarge(stationId: string, now: Instant, i: nat, draw: real): WaterStationData
    requires i < MockSteps && now >= MockSpan
  {
    WaterStationData(stationId, DischargeParameter, "Discharge", 150.0 + draw * 50.0, "m\U{00B3}/s", now - i * MockInterval)
  }

  /** The draws of `random.NextDouble()`, two per iteration (level first),
      each in [0, 1). */
  predicate ValidMockDraws(draws: seq<real>) {
    |draws| == 2 * MockSteps && forall k :: 0 <= k < |draws| ==> 0.0 <= draws[k] < 1.0
  }

  /** The first `n` iterations of `GenerateMockData`. */
  function MockData(stationId: string, now: Instant, draws: seq<real>, n: nat): (r: seq<WaterStationData>)
    requires n <= MockSteps && |draws| >= 2 * n && now >= MockSpan
    ensures |r| == 2 * n
  {
    if n == 0 then []
    else
      MockData(stationId, now, draws, n - 1)
        + [MockLevel(stationId, now, n - 1, draws[2 * (n - 1)]), MockDischarge(stationId, now, n - 1, draws[2 * (n - 1) + 1])]
  }

  /** Position `2i` holds the level reading of iteration `i` and position
      `2i + 1` its discharge reading. */
  lemma {:induction false} MockLayout(stationId: string, now: Instant, draws: seq<real>, n: nat, i: nat)
    requires i < n <= MockSteps && |draws| >= 2 * n && now >= MockSpan
    ensures MockData(stationId, now, draws, n)[2 * i] == MockLevel(stationId, now, i, draws[2 * i])
    ensures MockData(stationId, now, draws, n)[2 * i + 1] == MockDischarge(stationId, now, i, draws[2 * i + 1])
  {
    if i < n - 1 {
      MockLayout(stationId, now, draws, n - 1, i);
    }
  }

  /** `GetFallbackStationData`: the station's record, the twenty mock
      readings, the first level and discharge among them, and both
      statuses set to Normal without consulting the ladders. */
  function FallbackStationData(stationId: string, now: Instant, draws: seq<real>): StationDetailResponse
    requires |draws| == 2 * MockSteps && now >= MockSpan
  {
    var mock := MockData(stationId, now, draws, MockSteps);
    StationDetailResponse(StationInfo(stationId, now), mock,
                          FirstValue(mock, WaterLevelParameter), FirstValue(mock, DischargeParameter),
                          Normal, Normal)
  }

  /** The mock answer holds twenty readings, ten timestamps six minutes
      apart each with a level and a discharge; its current values are those
      of the newest pair, 2.5 to 3 m and 150 to 200, and the ladders would
      rate both Normal as well, so the forced statuses agree with them. */
  lemma FallbackStationDataFacts(stationId: string, now: Instant, draws: seq<real>)
    requires ValidMockDraws(draws) && now >= MockSpan
    ensures var d := FallbackStationData(stationId, now, draws);
      && |d.recentData| == 2 * MockSteps
      && (forall i :: 0 <= i < MockSteps ==>
            && d.recentData[2 * i].parameter == WaterLevelParameter
            && d.recentData[2 * i + 1].parameter == DischargeParameter
            && d.recentData[2 * i].timestamp == d.recentData[2 * i + 1].timestamp == now - i * MockInterval)
      && d.currentWaterLevel == 2.5 + draws[0] * 0.5 && 2.5 <= d.currentWaterLevel < 3.0
      && d.currentDischarge == 150.0 + draws[1] * 50.0 && 150.0 <= d.currentDischarge < 200.0
      && d.waterLevelStatus == WaterLevelStatusOf(d.currentWaterLevel) == Normal
      && d.dischargeStatus == DischargeStatusOf(d.currentDischarge) == Normal
  {
    var mock := MockData(stationId, now, draws, MockSteps);
    forall i | 0 <= i < MockSteps
      ensures mock[2 * i] == MockLevel(stationId, now, i, draws[2 * i])
      ensures mock[2 * i + 1] == MockDischarge(stationId, now, i, draws[2 * i + 1])
    {
      MockLayout(stationId, now, draws, MockSteps, i);
    }
    MockLayout(stationId, now, draws, MockSteps, 0);
    assert FirstValue(mock, DischargeParameter) == FirstValue(mock[1..], DischargeParameter);
    assert 0.0 <= draws[0] < 1.0 && 0.0 <= draws[1] < 1.0;
  }

  /** `GenerateMockData`: ten iterations, each appending a level reading and
      a discharge reading at the same instant. */
  method GenerateMockData(stationId: string, now: Instant, draws: seq<real>) returns (data: seq<WaterStationData>)
    requires |draws| == 2 * MockSteps && now >= MockSpan
    ensures data == MockData(stationId, now, draws, MockSteps)
  {
    data := [];
    for i := 0 to MockSteps
      invariant data == MockData(stationId, now, draws, i)
    {
      var timestamp := now - i * MockInterval;
      data := data + [WaterStationData(stationId, WaterLevelParameter, "Water Level", 2.5 + draws[2 * i] * 0.5, "m", timestamp)];
      data := data + [WaterStationData(stationId, DischargeParameter, "Discharge", 150.0 + draws[2 * i + 1] * 50.0, "m\U{00B3}/s", timestamp)];
    }
  }

  // ---------------------------------------------------------------------
  // The detail view
  // ---------------------------------------------------------------------

  /** `ParseStationDataFromCsv`: with fewer than two non-empty lines the
      fallback; otherwise the readings of every line after the header, the
      last level and discharge among them rated by the two ladders, and the
      ten newest readings. */
  function DetailFromCsv(stationId: string, csv: string, parsers: CsvParsers, now: Instant, draws: seq<real>): (r: StationDetailResponse)
    requires |draws| == 2 * MockSteps && now >= MockSpan
    ensures r.station == StationInfo(stationId, now)
    ensures |SplitNonEmpty(csv, '\n')| < 2 ==> r.waterLevelStatus == Normal && r.dischargeStatus == Normal
    ensures |SplitNonEmpty(csv, '\n')| >= 2 ==>
      && r.waterLevelStatus == WaterLevelStatusOf(r.currentWaterLevel)
      && r.dischargeStatus == DischargeStatusOf(r.currentDischarge)
      && |r.recentData| <= RecentCount
      && SortedDescBy(r.recentData, TimestampOf)
      && forall k :: 0 <= k < |r.recentData| ==> r.recentData[k].stationId == stationId
  {
    var lines := SplitNonEmpty(csv, '\n');
    if |lines| < 2 then FallbackStationData(stationId, now, draws)
    else
      var rows := Readings(stationId, lines[1..], parsers, now);
      RecentOfStation(stationId, lines[1..], parsers, now);
      var level := LastValue(rows, WaterLevelParameter);
      var discharge := LastValue(rows, DischargeParameter);
      StationDetailResponse(StationInfo(stationId, now), MostRecent(rows), level, discharge,
                            WaterLevelStatusOf(level), DischargeStatusOf(discharge))
  }

  /** The readings a view shows are at most ten of the station's own,
      newest first. */
  lemma RecentOfStation(stationId: string, lines: seq<string>, parsers: CsvParsers, now: Instant)
    ensures var r := MostRecent(Readings(stationId, lines, parsers, now));
      && |r| <= RecentCount
      && SortedDescBy(r, TimestampOf)
      && forall k :: 0 <= k < |r| ==> r[k].stationId == stationId
  {
    var rows := Readings(stationId, lines, parsers, now);
    ReadingsFromLines(stationId, lines, parsers, now);
    MostRecentAreNewest(rows);
    var r := MostRecent(rows);
    forall k | 0 <= k < |r| ensures r[k].stationId == stationId {
      assert r[k] in multiset(rows);
    }
  }

  /** `ParseStationDataFromCsv`. */
  method ParseStationDataFromCsv(stationId: string, csv: string, parsers: CsvParsers, now: Instant, draws: seq<real>)
    returns (detail: StationDetailResponse)
    requires |draws| == 2 * MockSteps && now >= MockSpan
    ensures detail == DetailFromCsv(stationId, csv, parsers, now, draws)
  {
    var lines := SplitNonEmpty(csv, '\n');
    if |lines| < 2 {
      detail := GetFallbackStationData(stationId, now, draws);
    } else {
      var recentData, currentWaterLevel, currentDischarge := ReadDataLines(stationId, lines, parsers, now);
      detail := StationDetailResponse(StationInfo(stationId, now), MostRecent(recentData), currentWaterLevel, currentDischarge,
                                      WaterLevelStatusOf(currentWaterLevel), DischargeStatusOf(currentDischarge));
    }
  }

  /** One data line extends the readings before it by its row, when it has
      six columns or more. */
  lemma ReadLineStep(stationId: string, lines: seq<string>, i: int, parsers: CsvParsers, now: Instant)
    requires 1 <= i < |lines|
    ensures var columns := Split(lines[i], ',');
      Readings(stationId, lines[1..i + 1], parsers, now)
        == if |columns| >= 6
           then Readings(stationId, lines[1..i], parsers, now)
                + [WaterStationData(stationId, Trim(columns[2]), Trim(columns[3]),
                                    parsers.number(columns[4]).GetOr(0.0), Trim(columns[5]),
                                    parsers.timestamp(columns[0] + " " + columns[1]).GetOr(now))]
           else Readings(stationId, lines[1..i], parsers, now)
  {
    assert lines[1..i + 1] == lines[1..i] + [lines[i]];
    ReadingsStep(stationId, lines[1..i], lines[i], parsers, now);
  }

  /** The loop of `ParseStationDataFromCsv`: every line after the header,
      skipping those with fewer than six columns, appending the reading and
      overwriting the current level or discharge by its parameter. */
  method ReadDataLines(stationId: string, lines: seq<string>, parsers: CsvParsers, now: Instant)
    returns (recentData: seq<WaterStationData>, currentWaterLevel: real, currentDischarge: real)
    requires |lines| >= 1
    ensures recentData == Readings(stationId, lines[1..], parsers, now)
    ensures currentWaterLevel == LastValue(recentData, WaterLevelParameter)
    ensures currentDischarge == LastValue(recentData, DischargeParameter)
  {
    recentData := [];
    currentWaterLevel := 0.0;
    currentDischarge := 0.0;
    for i := 1 to |lines|
      invariant recentData == Readings(stationId, lines[1..i], parsers, now)
      invariant currentWaterLevel == LastValue(recentData, WaterLevelParameter)
      invariant currentDischarge == LastValue(recentData, DischargeParameter)
    {
      ReadLineStep(stationId, lines, i, parsers, now);
      var columns := Split(lines[i], ',');
      if |columns| >= 6 {
        var data := WaterStationData(stationId, Trim(columns[2]), Trim(columns[3]),
                                     parsers.number(columns[4]).GetOr(0.0), Trim(columns[5]),
                                     parsers.timestamp(columns[0] + " " + columns[1]).GetOr(now));
        LastValueStep(recentData, data, WaterLevelParameter);
        LastValueStep(recentData, data, DischargeParameter);
        recentData := recentData + [data];
        if data.parameter == WaterLevelParameter {
          currentWaterLevel := data.value;
        } else if data.parameter == DischargeParameter {
          currentDischarge := data.value;
        }
      }
    }
    assert lines[1..|lines|] == lines[1..];
  }

  /** `GetFallbackStationData`. */
  method GetFallbackStationData(stationId: string, now: Instant, draws: seq<real>) returns (detail: StationDetailResponse)
    requires |draws| == 2 * MockSteps && now >= MockSpan
    ensures detail == FallbackStationData(stationId, now, draws)
  {
    var mock := GenerateMockData(stationId, now, draws);
    detail := StationDetailResponse(StationInfo(stationId, now), mock,
                                    FirstValue(mock, WaterLevelParameter), FirstValue(mock, DischargeParameter),
                                    Normal, Normal);
  }
}
