/** `WaterDataService`: the station list and the per-station detail view,
    each served through the memory cache. The HTTP download is a function
    parameter from a URL to the body it returns (None where the request
    throws), the XML parser is a function parameter from the body to the
    document's `station` elements (None where `XDocument.Parse` throws),
    the clock is `now` and the random source of the mock readings is
    `draws`. */
module WaterService {
  import opened Wrappers
  import Text
  import Sequences
  import opened Calendar
  import opened Models
  import opened Cache
  import opened WaterStations
  import opened WaterReadings
  import BirdService

  const CurrentConditionsUrl := "https://wateroffice.ec.gc.ca/services/current_conditions/xml/inline?lang=en"
  const RealTimeDataUrl := "https://wateroffice.ec.gc.ca/services/real_time_data/csv/inline"
  const StationsCacheKey := "WaterStations"
  const StationDataPrefix := "StationData_"

  /** The station list is cached for five minutes, a detail view for two. */
  const StationsDuration: nat := 5 * TicksPerMinute
  const StationDataDuration: nat := 2 * TicksPerMinute

  /** The real-time query asks for the last two hours of readings. */
  const DataWindow: nat := 2 * TicksPerHour

  /** The mock series fits inside the query window. */
  lemma MockSpanWithinWindow()
    ensures MockSpan < DataWindow
  {
  }

  function StationDataKey(stationId: string): string {
    StationDataPrefix + stationId
  }

  /** Every key is tied to one entry: detail keys name their station, and
      no detail key, the station-list key or an observation key of the
      bird service coincide, so one cache per value type loses nothing. */
  lemma CacheKeysDisjoint(a: string, b: string, q: BirdService.ObservationQuery)
    ensures StationDataKey(a) == StationDataKey(b) <==> a == b
    ensures StationDataKey(a) != StationsCacheKey
    ensures StationDataKey(a) != BirdService.CacheKey(q) && StationsCacheKey != BirdService.CacheKey(q)
  {
    if StationDataKey(a) == StationDataKey(b) {
      assert a == StationDataKey(a)[|StationDataPrefix|..];
    }
    assert StationDataKey(a)[0] == 'S';
    assert BirdService.CacheKey(q)[0] == 'B';
  }

  /** The real-time CSV request: the station, the level and discharge
      parameters, and the two hours up to `now` in the invariant
      "yyyy-MM-dd HH:mm:ss" format. */
  function CsvUrl(stationId: string, now: Instant): string
    requires now >= DataWindow
  {
    RealTimeDataUrl + "?stations[]=" + stationId
      + "&parameters[]=" + WaterLevelParameter + "&parameters[]=" + DischargeParameter
      + "&start_date=" + FormatYmdHms(now - DataWindow) + "&end_date=" + FormatYmdHms(now)
  }

  // ---------------------------------------------------------------------
  // The factories
  // ---------------------------------------------------------------------

  /** The station-list factory: the parsed list when the download
      succeeds, the fallback list when it throws. */
  function StationsAnswer(body: Option<string>, parseXml: string -> Option<seq<StationElement>>, now: Instant): seq<WaterStation>
  {
    if body.None? then FallbackStations(now) else StationsFromXml(parseXml(body.value), now)
  }

  /** Whatever the download and the document, the list is non-empty and
      holds only table stations as the table places them. */
  lemma StationsAnswerFromTable(body: Option<string>, parseXml: string -> Option<seq<StationElement>>, now: Instant)
    ensures |StationsAnswer(body, parseXml, now)| > 0
    ensures forall k :: 0 <= k < |StationsAnswer(body, parseXml, now)| ==> FromTable(StationsAnswer(body, parseXml, now)[k], now)
  {
    if body.None? {
      FallbackFromTable(now);
    }
  }

  /** The detail factory: the view read from the CSV when the download
      succeeds, the mock view when it throws. */
  function DetailAnswer(stationId: string, body: Option<string>, parsers: CsvParsers, now: Instant, draws: seq<real>): StationDetailResponse
    requires |draws| == 2 * MockSteps && now >= DataWindow
  {
    if body.None? then FallbackStationData(stationId, now, draws)
    else DetailFromCsv(stationId, body.value, parsers, now, draws)
  }

  /** Whatever the download, each status shown is the ladder's verdict on
      the value shown beside it, the readings are newest first when they
      came from the CSV, and there are never more than twenty. */
  lemma DetailAnswerRated(stationId: string, body: Option<string>, parsers: CsvParsers, now: Instant, draws: seq<real>)
    requires ValidMockDraws(draws) && now >= DataWindow
    ensures var d := DetailAnswer(stationId, body, parsers, now, draws);
      && d.station == StationInfo(stationId, now)
      && d.waterLevelStatus == WaterLevelStatusOf(d.currentWaterLevel)
      && d.dischargeStatus == DischargeStatusOf(d.currentDischarge)
      && |d.recentData| <= 2 * MockSteps
      && (body.Some? && |Text.SplitNonEmpty(body.value, '\n')| >= 2 ==> Sequences.SortedDescBy(d.recentData, TimestampOf))
  {
    if body.None? || |Text.SplitNonEmpty(body.value, '\n')| < 2 {
      FallbackStationDataFacts(stationId, now, draws);
    }
  }

  // ---------------------------------------------------------------------
  // Get-or-create
  // ---------------------------------------------------------------------

  /** One `GetAlbertaWaterStationsAsync` call against the cache contents. */
  function ServeStations(entries: map<string, CacheEntry<seq<WaterStation>>>, now: Instant,
                         download: string -> Option<string>, parseXml: string -> Option<seq<StationElement>>): Lookup<seq<WaterStation>>
  {
    GetOrCreate(entries, StationsCacheKey, now, StationsDuration, StationsAnswer(download(CurrentConditionsUrl), parseXml, now))
  }

  /** One `GetStationDataAsync` call against the cache contents. */
  function ServeDetail(entries: map<string, CacheEntry<StationDetailResponse>>, stationId: string, now: Instant,
                       download: string -> Option<string>, parsers: CsvParsers, draws: seq<real>): Lookup<StationDetailResponse>
    requires |draws| == 2 * MockSteps && now >= DataWindow
  {
    GetOrCreate(entries, StationDataKey(stationId), now, StationDataDuration,
                DetailAnswer(stationId, download(CsvUrl(stationId, now)), parsers, now, draws))
  }

  lemma StationsMiss(entries: map<string, CacheEntry<seq<WaterStation>>>, now: Instant,
                     download: string -> Option<string>, parseXml: string -> Option<seq<StationElement>>)
    requires Live(entries, StationsCacheKey, now).None?
    ensures var r := StationsAnswer(download(CurrentConditionsUrl), parseXml, now);
      ServeStations(entries, now, download, parseXml) == Lookup(r, entries[StationsCacheKey := CacheEntry(r, now + StationsDuration)])
  {
    GetOrCreateMiss(entries, StationsCacheKey, now, StationsDuration, StationsAnswer(download(CurrentConditionsUrl), parseXml, now));
  }

  lemma DetailMiss(entries: map<string, CacheEntry<StationDetailResponse>>, stationId: string, now: Instant,
                   download: string -> Option<string>, parsers: CsvParsers, draws: seq<real>)
    requires |draws| == 2 * MockSteps && now >= DataWindow
    requires Live(entries, StationDataKey(stationId), now).None?
    ensures var r := DetailAnswer(stationId, download(CsvUrl(stationId, now)), parsers, now, draws);
      ServeDetail(entries, stationId, now, download, parsers, draws)
        == Lookup(r, entries[StationDataKey(stationId) := CacheEntry(r, now + StationDataDuration)])
  {
    GetOrCreateMiss(entries, StationDataKey(stationId), now, StationDataDuration,
                    DetailAnswer(stationId, download(CsvUrl(stationId, now)), parsers, now, draws));
  }

  /** The station list found missing is stored, and every call in the next
      five minutes returns it unchanged, whatever the service would now
      download. */
  lemma StationsCachedForFiveMinutes(entries: map<string, CacheEntry<seq<WaterStation>>>,
                                     t1: Instant, download1: string -> Option<string>, parseXml1: string -> Option<seq<StationElement>>,
                                     t2: Instant, download2: string -> Option<string>, parseXml2: string -> Option<seq<StationElement>>)
    requires Live(entries, StationsCacheKey, t1).None? && t1 <= t2 < t1 + StationsDuration
    ensures var s1 := ServeStations(entries, t1, download1, parseXml1);
      ServeStations(s1.entries, t2, download2, parseXml2) == s1
  {
    CachedUntilExpiry(entries, StationsCacheKey, StationsDuration, t1, StationsAnswer(download1(CurrentConditionsUrl), parseXml1, t1),
                      t2, StationsAnswer(download2(CurrentConditionsUrl), parseXml2, t2));
  }

  /** Five minutes after a miss the list is built afresh. */
  lemma StationsExpireAfterFiveMinutes(entries: map<string, CacheEntry<seq<WaterStation>>>,
                                       t1: Instant, download1: string -> Option<string>, parseXml1: string -> Option<seq<StationElement>>,
                                       t2: Instant, download2: string -> Option<string>, parseXml2: string -> Option<seq<StationElement>>)
    requires Live(entries, StationsCacheKey, t1).None? && t1 + StationsDuration <= t2
    ensures var s1 := ServeStations(entries, t1, download1, parseXml1);
      ServeStations(s1.entries, t2, download2, parseXml2).value == StationsAnswer(download2(CurrentConditionsUrl), parseXml2, t2)
  {
    ExpiresAfterTtl(entries, StationsCacheKey, StationsDuration, t1, StationsAnswer(download1(CurrentConditionsUrl), parseXml1, t1),
                    t2, StationsAnswer(download2(CurrentConditionsUrl), parseXml2, t2));
  }

  /** A station's view found missing is stored, and every call for that
      station in the next two minutes returns it unchanged. */
  lemma DetailCachedForTwoMinutes(entries: map<string, CacheEntry<StationDetailResponse>>, stationId: string,
                                  t1: Instant, download1: string -> Option<string>, parsers1: CsvParsers, draws1: seq<real>,
                                  t2: Instant, download2: string -> Option<string>, parsers2: CsvParsers, draws2: seq<real>)
    requires |draws1| == 2 * MockSteps && |draws2| == 2 * MockSteps && t1 >= DataWindow
    requires Live(entries, StationDataKey(stationId), t1).None? && t1 <= t2 < t1 + StationDataDuration
    ensures var s1 := ServeDetail(entries, stationId, t1, download1, parsers1, draws1);
      ServeDetail(s1.entries, stationId, t2, download2, parsers2, draws2) == s1
  {
    CachedUntilExpiry(entries, StationDataKey(stationId), StationDataDuration,
                      t1, DetailAnswer(stationId, download1(CsvUrl(stationId, t1)), parsers1, t1, draws1),
                      t2, DetailAnswer(stationId, download2(CsvUrl(stationId, t2)), parsers2, t2, draws2));
  }

  /** Two minutes after a miss the station's view is built afresh. */
  lemma DetailExpiresAfterTwoMinutes(entries: map<string, CacheEntry<StationDetailResponse>>, stationId: string,
                                     t1: Instant, download1: string -> Option<string>, parsers1: CsvParsers, draws1: seq<real>,
                                     t2: Instant, download2: string -> Option<string>, parsers2: CsvParsers, draws2: seq<real>)
    requires |draws1| == 2 * MockSteps && |draws2| == 2 * MockSteps && t1 >= DataWindow
    requires Live(entries, StationDataKey(stationId), t1).None? && t1 + StationDataDuration <= t2
    ensures var s1 := ServeDetail(entries, stationId, t1, download1, parsers1, draws1);
      ServeDetail(s1.entries, stationId, t2, download2, parsers2, draws2).value
        == DetailAnswer(stationId, download2(CsvUrl(stationId, t2)), parsers2, t2, draws2)
  {
    ExpiresAfterTtl(entries, StationDataKey(stationId), StationDataDuration,
                    t1, DetailAnswer(stationId, download1(CsvUrl(stationId, t1)), parsers1, t1, draws1),
                    t2, DetailAnswer(stationId, download2(CsvUrl(stationId, t2)), parsers2, t2, draws2));
  }

  /** Serving one station leaves every other station's cached view as it
      was. */
  lemma DetailKeepsOtherStations(entries: map<string, CacheEntry<StationDetailResponse>>, stationId: string, other: string,
                                 now: Instant, download: string -> Option<string>, parsers: CsvParsers, draws: seq<real>)
    requires |draws| == 2 * MockSteps && now >= DataWindow && other != stationId
    ensures var s := ServeDetail(entries, stationId, now, download, parsers, draws);
      && (StationDataKey(other) in s.entries <==> StationDataKey(other) in entries)
      && (StationDataKey(other) in entries ==> s.entries[StationDataKey(other)] == entries[StationDataKey(other)])
  {
    var q := BirdService.ObservationQuery("", None, None, None, 0);
    CacheKeysDisjoint(other, stationId, q);
    GetOrCreateStores(entries, StationDataKey(stationId), now, StationDataDuration,
                      DetailAnswer(stationId, download(CsvUrl(stationId, now)), parsers, now, draws));
  }

  // ---------------------------------------------------------------------
  // The service
  // ---------------------------------------------------------------------

  class WaterDataService {
    const stationsCache: MemoryCache<seq<WaterStation>>
    const detailCache: MemoryCache<StationDetailResponse>

    constructor ()
      ensures fresh(stationsCache) && fresh(detailCache)
      ensures stationsCache.entries == map[] && detailCache.entries == map[]
    {
      stationsCache := new MemoryCache<seq<WaterStation>>();
      detailCache := new MemoryCache<StationDetailResponse>();
    }

    /** `GetAlbertaWaterStationsAsync`. */
    method GetAlbertaWaterStations(now: Instant, download: string -> Option<string>, parseXml: string -> Option<seq<StationElement>>)
      returns (stations: seq<WaterStation>)
      modifies stationsCache
      ensures stations == ServeStations(old(stationsCache.entries), now, download, parseXml).value
      ensures stationsCache.entries == ServeStations(old(stationsCache.entries), now, download, parseXml).entries
    {
      var hit := stationsCache.TryGetValue(StationsCacheKey, now);
      if hit.Some? {
        stations := hit.value;
      } else {
        StationsMiss(stationsCache.entries, now, download, parseXml);
        stations := CreateStations(now, download, parseXml);
        StoreStations(stations, now);
      }
    }

    /** The factory of `GetAlbertaWaterStationsAsync`: download, parse, and
        on an exception the fallback list. */
    static method CreateStations(now: Instant, download: string -> Option<string>, parseXml: string -> Option<seq<StationElement>>)
      returns (stations: seq<WaterStation>)
      ensures stations == StationsAnswer(download(CurrentConditionsUrl), parseXml, now)
    {
      var body := download(CurrentConditionsUrl);
      if body.None? {
        stations := FallbackStations(now);
      } else {
        stations := ParseStationsFromXml(parseXml(body.value), now);
      }
    }

    /** The store half of the station list's miss path: five minutes. */
    method StoreStations(stations: seq<WaterStation>, now: Instant)
      modifies stationsCache
      ensures stationsCache.entries == old(stationsCache.entries)[StationsCacheKey := CacheEntry(stations, now + StationsDuration)]
    {
      stationsCache.Set(StationsCacheKey, stations, now, StationsDuration);
    }

    /** `GetStationDataAsync`. */
    method GetStationData(stationId: string, now: Instant, download: string -> Option<string>, parsers: CsvParsers, draws: seq<real>)
      returns (detail: StationDetailResponse)
      requires |draws| == 2 * MockSteps && now >= DataWindow
      modifies detailCache
      ensures detail == ServeDetail(old(detailCache.entries), stationId, now, download, parsers, draws).value
      ensures detailCache.entries == ServeDetail(old(detailCache.entries), stationId, now, download, parsers, draws).entries
    {
      var key := StationDataKey(stationId);
      var hit := detailCache.TryGetValue(key, now);
      if hit.Some? {
        detail := hit.value;
      } else {
        DetailMiss(detailCache.entries, stationId, now, download, parsers, draws);
        detail := CreateDetail(stationId, now, download, parsers, draws);
        StoreDetail(key, detail, now);
      }
    }

    /** The factory of `GetStationDataAsync`: download the last two hours,
        parse, and on an exception the mock view. */
    static method CreateDetail(stationId: string, now: Instant, download: string -> Option<string>, parsers: CsvParsers, draws: seq<real>)
      returns (detail: StationDetailResponse)
      requires |draws| == 2 * MockSteps && now >= DataWindow
      ensures detail == DetailAnswer(stationId, download(CsvUrl(stationId, now)), parsers, now, draws)
    {
      MockSpanWithinWindow();
      var url := CsvUrl(stationId, now);
      var body := download(url);
      if body.None? {
        detail := GetFallbackStationData(stationId, now, draws);
      } else {
        detail := ParseStationDataFromCsv(stationId, body.value, parsers, now, draws);
      }
    }

    /** The store half of a detail view's miss path: two minutes. */
    method StoreDetail(key: string, detail: StationDetailResponse, now: Instant)
      modifies detailCache
      ensures detailCache.entries == old(detailCache.entries)[key := CacheEntry(detail, now + StationDataDuration)]
    {
      detailCache.Set(key, detail, now, StationDataDuration);
    }
  }
}
