/** `BirdMigrationService`'s public operations: the cache key of a query,
    the eBird request it sends, the 15-minute get-or-create cache around the
    fetch with its fallback, and the routes view on top of it. The HTTP
    call is a function parameter from the request URL to the parsed JSON
    array, or None when the call or the deserialisation throws. */
module BirdService {
  import opened Wrappers
  import opened Text
  import opened Calendar
  import opened Models
  import opened Cache
  import opened BirdRecords
  import opened BirdRoutes
  import opened BirdFallback

  const CacheKeyPrefix := "BirdObservations_"

  /** `TimeSpan.FromMinutes(15)`. */
  const CacheDuration: nat := 15 * TicksPerMinute

  /** Spans longer than this go to the historic endpoint (`TotalDays > 30`). */
  const HistoricSpan: nat := 30 * TicksPerDay

  /** The `maxResults` the routes view asks for. */
  const RouteMaxResults := 1000

  /** The arguments of `GetObservationsAsync`. */
  datatype ObservationQuery = ObservationQuery(
    regionCode: string,
    speciesCode: Option<string>,
    start: Option<Instant>,
    end: Option<Instant>,
    maxResults: int)

  // ---------------------------------------------------------------------
  // Cache key
  // ---------------------------------------------------------------------

  /** `{date:yyyyMMdd}` of a nullable date: empty when absent. */
  function DateKey(d: Option<Instant>): string {
    if d.Some? then FormatYmd(d.value) else ""
  }

  /** The cache key: region, species (or "all") and the two dates as
      yyyyMMdd. `maxResults` is not part of it. */
  function CacheKey(q: ObservationQuery): (r: string)
    ensures CacheKeyPrefix <= r
    ensures Renderable(q.start) && Renderable(q.end) ==>
      |r| == |CacheKeyPrefix| + |q.regionCode| + |q.speciesCode.GetOr("all")| + 3
             + (if q.start.Some? then 8 else 0) + (if q.end.Some? then 8 else 0)
  {
    var head := CacheKeyPrefix + q.regionCode + "_" + q.speciesCode.GetOr("all") + "_";
    var from, to := DateKey(q.start), DateKey(q.end);
    KeyParts(CacheKeyPrefix, head, from, to);
    if Renderable(q.start) && Renderable(q.end) then
      DateKeyShape(q.start);
      DateKeyShape(q.end);
      head + from + "_" + to
    else
      head + from + "_" + to
  }

  lemma KeyParts(prefix: string, head: string, from: string, to: string)
    requires prefix <= head
    ensures prefix <= head + from + "_" + to
    ensures |head + from + "_" + to| == |head| + |from| + 1 + |to|
  {
    assert (head + from + "_" + to)[..|prefix|] == head[..|prefix|];
  }

  /** Both absent, or both present on the same calendar day. */
  predicate SameDay(a: Option<Instant>, b: Option<Instant>) {
    (a.None? && b.None?) || (a.Some? && b.Some? && a.value / TicksPerDay == b.value / TicksPerDay)
  }

  predicate Renderable(d: Option<Instant>) {
    d.Some? ==> InDateTimeRange(d.value)
  }

  /** What a date key looks like: empty, or eight digits. */
  predicate DateKeyLike(s: string) {
    s == "" || (|s| == 8 && AllDigits(s))
  }

  lemma DateKeyShape(d: Option<Instant>)
    requires Renderable(d)
    ensures DateKeyLike(DateKey(d)) && (DateKey(d) == "" <==> d.None?)
  {
    if d.Some? {
      FormatYmdDistinguishesDays(d.value, d.value);
      var t := DateOf(d.value);
      assert FormatYmd(d.value) == Padded(t.year, 4) + Padded(t.month, 2) + Padded(t.day, 2);
    }
  }

  /** Two date keys render alike exactly when the dates fall on the same day. */
  lemma DateKeyDecides(a: Option<Instant>, b: Option<Instant>)
    requires Renderable(a) && Renderable(b)
    ensures DateKey(a) == DateKey(b) <==> SameDay(a, b)
  {
    DateKeyShape(a);
    DateKeyShape(b);
    if a.Some? && b.Some? {
      FormatYmdDistinguishesDays(a.value, b.value);
    }
  }

  /** Two keys with a common head and date keys joined by '_' can be told
      apart: the separator sits at the same place only when the first date
      keys agree. */
  lemma JoinedKeysDecide(p: string, a1: string, b1: string, a2: string, b2: string)
    requires DateKeyLike(a1) && DateKeyLike(b1) && DateKeyLike(a2) && DateKeyLike(b2)
    ensures p + a1 + "_" + b1 == p + a2 + "_" + b2 <==> a1 == a2 && b1 == b2
  {
    var t1, t2 := a1 + "_" + b1, a2 + "_" + b2;
    assert p + a1 + "_" + b1 == p + t1 && p + a2 + "_" + b2 == p + t2;
    assert p + t1 == p + t2 ==> t1 == t2 by {
      if p + t1 == p + t2 {
        assert t1 == (p + t1)[|p|..] == (p + t2)[|p|..] == t2;
      }
    }
    if a1 == "" && a2 != "" {
      assert t1[0] == '_' && t2[0] == a2[0] && IsDigit(a2[0]);
    } else if a1 != "" && a2 == "" {
      assert t2[0] == '_' && t1[0] == a1[0] && IsDigit(a1[0]);
    } else if a1 != "" {
      if t1 == t2 {
        assert a1 == t1[..8] == t2[..8] == a2;
        assert b1 == t1[9..] == t2[9..] == b2;
      }
    } else if t1 == t2 {
      assert t1 == "_" + b1 && t2 == "_" + b2;
      assert b1 == t1[1..] == t2[1..] == b2;
    }
  }

  /** For one region and species, two queries share a cache entry exactly
      when their dates fall on the same days, whatever their times of day
      and their `maxResults`. */
  lemma CacheKeyDecides(q1: ObservationQuery, q2: ObservationQuery)
    requires q1.regionCode == q2.regionCode && q1.speciesCode.GetOr("all") == q2.speciesCode.GetOr("all")
    requires Renderable(q1.start) && Renderable(q1.end) && Renderable(q2.start) && Renderable(q2.end)
    ensures CacheKey(q1) == CacheKey(q2) <==> SameDay(q1.start, q2.start) && SameDay(q1.end, q2.end)
  {
    var p := CacheKeyPrefix + q1.regionCode + "_" + q1.speciesCode.GetOr("all") + "_";
    DateKeyShape(q1.start);
    DateKeyShape(q1.end);
    DateKeyShape(q2.start);
    DateKeyShape(q2.end);
    JoinedKeysDecide(p, DateKey(q1.start), DateKey(q1.end), DateKey(q2.start), DateKey(q2.end));
    DateKeyDecides(q1.start, q2.start);
    DateKeyDecides(q1.end, q2.end);
  }

  // ---------------------------------------------------------------------
  // The eBird request
  // ---------------------------------------------------------------------

  /** A start date with an end more than thirty days later. */
  predicate Historic(q: ObservationQuery) {
    q.start.Some? && q.end.Some? && q.end.value - q.start.value > HistoricSpan
  }

  predicate HasSpeciesFilter(q: ObservationQuery) {
    q.speciesCode.Some? && q.speciesCode.value != ""
  }

  /** The endpoint path: the historic one for long spans, else the recent
      observations of the species, else of the whole region. */
  function Endpoint(q: ObservationQuery): string {
    if Historic(q) then "/data/obs/" + q.regionCode + "/historic/" + FormatMdy(q.start.value)
    else if HasSpeciesFilter(q) then "/data/obs/" + q.regionCode + "/recent/" + q.speciesCode.value
    else "/data/obs/" + q.regionCode + "/recent"
  }

  const LocaleParam := "sppLocale=en"
  const FormatParam := "fmt=json"
  const ProvisionalParam := "includeProvisional=true"

  function MaxResultsParam(n: int): string {
    "maxResults=" + IntToString(n)
  }

  /** The query parameters, in order: `maxResults` is capped at 500 only
      when a start date is given, and provisional sightings are asked for
      only when it is not. */
  function QueryParams(q: ObservationQuery): seq<string> {
    if q.start.Some? then
      [LocaleParam, FormatParam, MaxResultsParam(if q.maxResults < 500 then q.maxResults else 500)]
    else
      [MaxResultsParam(q.maxResults), LocaleParam, FormatParam, ProvisionalParam]
  }

  /** The URL: the endpoint, '?', and the parameters joined by '&'. When
      the region and species carry no '?', it splits at '?' back into the
      endpoint and the query string, and the query string splits at '&'
      back into the parameters. */
  function RequestUrl(q: ObservationQuery): (r: string)
    ensures '?' !in q.regionCode && (q.speciesCode.Some? ==> '?' !in q.speciesCode.value) ==>
      var query := Join(QueryParams(q), "&");
      && Split(r, '?') == [Endpoint(q), query]
      && Split(query, '&') == QueryParams(q)
  {
    if '?' !in q.regionCode && (q.speciesCode.Some? ==> '?' !in q.speciesCode.value) then
      UrlParts(q);
      Endpoint(q) + "?" + Join(QueryParams(q), "&")
    else
      Endpoint(q) + "?" + Join(QueryParams(q), "&")
  }

  /** The request's `maxResults` is the query's, capped at 500 exactly when
      a start date is given, and `includeProvisional=true` is sent exactly
      when it is not; locale and format are always sent. */
  lemma RequestParameters(q: ObservationQuery)
    ensures MaxResultsParam(if q.start.Some? && q.maxResults > 500 then 500 else q.maxResults) in QueryParams(q)
    ensures ProvisionalParam in QueryParams(q) <==> q.start.None?
    ensures LocaleParam in QueryParams(q) && FormatParam in QueryParams(q)
    ensures |QueryParams(q)| == if q.start.Some? then 3 else 4
  {
    var m := if q.start.Some? && q.maxResults > 500 then 500 else q.maxResults;
    var mp := MaxResultsParam(m);
    if q.start.Some? {
      assert QueryParams(q) == [LocaleParam, FormatParam, mp];
      assert mp[0] == 'm';
      assert ProvisionalParam[0] == 'i';
    }
  }

  /** The parameters carry neither '&' nor '?'. */
  lemma ParametersPlain(q: ObservationQuery)
    ensures forall k :: 0 <= k < |QueryParams(q)| ==> '&' !in QueryParams(q)[k] && '?' !in QueryParams(q)[k]
  {
    var params := QueryParams(q);
    FixedParametersPlain();
    if q.start.Some? {
      var capped := if q.maxResults < 500 then q.maxResults else 500;
      MaxResultsPlain(capped);
      assert params == [LocaleParam, FormatParam, MaxResultsParam(capped)];
    } else {
      MaxResultsPlain(q.maxResults);
      assert params == [MaxResultsParam(q.maxResults), LocaleParam, FormatParam, ProvisionalParam];
    }
  }

  lemma FixedParametersPlain()
    ensures '&' !in LocaleParam && '?' !in LocaleParam
    ensures '&' !in FormatParam && '?' !in FormatParam
    ensures '&' !in ProvisionalParam && '?' !in ProvisionalParam
  {
  }

  lemma MaxResultsPlain(n: int)
    ensures '&' !in MaxResultsParam(n) && '?' !in MaxResultsParam(n)
  {
    NumberPlain(n);
    assert MaxResultsParam(n) == "maxResults=" + IntToString(n);
  }

  /** Rendered numbers carry neither '&' nor '?'. */
  lemma NumberPlain(n: int)
    ensures '&' !in IntToString(n) && '?' !in IntToString(n)
  {
    var d := NatToString(if n < 0 then -n else n);
    assert forall k :: 0 <= k < |d| ==> d[k] != '&' && d[k] != '?';
  }

  /** When the region and species carry no '?', neither does the endpoint. */
  lemma EndpointPlain(q: ObservationQuery)
    requires '?' !in q.regionCode
    requires q.speciesCode.Some? ==> '?' !in q.speciesCode.value
    ensures '?' !in Endpoint(q)
  {
    if Historic(q) { MdyFree(q.start.value); }
  }

  /** The splitting argument behind `RequestUrl`'s contract. */
  lemma UrlParts(q: ObservationQuery)
    requires '?' !in q.regionCode
    requires q.speciesCode.Some? ==> '?' !in q.speciesCode.value
    ensures var query := Join(QueryParams(q), "&");
      && Split(Endpoint(q) + "?" + query, '?') == [Endpoint(q), query]
      && Split(query, '&') == QueryParams(q)
  {
    var params := QueryParams(q);
    var query := Join(params, "&");
    ParametersPlain(q);
    SplitJoin(params, '&');
    QuestionMarkFree(params);
    EndpointPlain(q);
    SplitAfter(Endpoint(q), query, '?');
    SplitNoSeparator(query, '?');
    assert Endpoint(q) + "?" + query == Endpoint(q) + ['?'] + query;
  }

  lemma MdyFree(t: Instant)
    ensures '?' !in FormatMdy(t)
  {
    var d := DateOf(t);
    var a, b, c := Padded(d.month, 2), Padded(d.day, 2), Padded(d.year, 4);
    assert FormatMdy(t) == a + "/" + b + "/" + c;
    assert forall k :: 0 <= k < |a| ==> a[k] != '?';
    assert forall k :: 0 <= k < |b| ==> b[k] != '?';
    assert forall k :: 0 <= k < |c| ==> c[k] != '?';
  }

  lemma {:induction false} QuestionMarkFree(params: seq<string>)
    requires forall k :: 0 <= k < |params| ==> '?' !in params[k]
    ensures '?' !in Join(params, "&")
  {
    if |params| > 1 {
      QuestionMarkFree(params[1..]);
    }
  }

  /** The historic endpoint ignores the species filter. */
  lemma HistoricIgnoresSpecies(q: ObservationQuery, speciesCode: Option<string>)
    requires Historic(q)
    ensures RequestUrl(q.(speciesCode := speciesCode)) == RequestUrl(q)
  {
  }

  /** `FetchObservationsFromApi`'s request: the endpoint is reassigned as
      the filters are examined and the parameters are appended in order. */
  method BuildRequestUrl(q: ObservationQuery) returns (url: string)
    ensures url == RequestUrl(q)
  {
    var endpoint := "/data/obs/" + q.regionCode + "/recent";
    var queryParams: seq<string> := [];
    if q.speciesCode.Some? && q.speciesCode.value != "" {
      endpoint := "/data/obs/" + q.regionCode + "/recent/" + q.speciesCode.value;
    }
    if q.start.Some? {
      queryParams := queryParams + [LocaleParam];
      queryParams := queryParams + [FormatParam];
      var capped := if q.maxResults < 500 then q.maxResults else 500;
      queryParams := queryParams + [MaxResultsParam(capped)];
      assert queryParams == [LocaleParam, FormatParam, MaxResultsParam(capped)];
      if q.end.Some? && q.end.value - q.start.value > HistoricSpan {
        endpoint := "/data/obs/" + q.regionCode + "/historic/" + FormatMdy(q.start.value);
      }
    } else {
      queryParams := queryParams + [MaxResultsParam(q.maxResults)];
      queryParams := queryParams + [LocaleParam];
      queryParams := queryParams + [FormatParam];
      queryParams := queryParams + [ProvisionalParam];
      assert queryParams == [MaxResultsParam(q.maxResults), LocaleParam, FormatParam, ProvisionalParam];
    }
    assert queryParams == QueryParams(q);
    assert endpoint == Endpoint(q);
    url := endpoint + "?" + Join(queryParams, "&");
  }

  // ---------------------------------------------------------------------
  // Get-or-create
  // ---------------------------------------------------------------------

  /** The cache factory: the processed answer when the fetch succeeds and
      processing does not throw, otherwise the generated fallback. */
  function Fresh(t: Tables, q: ObservationQuery, fetched: Option<seq<RawObservation>>, draws: seq<Draw>, now: Instant): BirdMigrationResponse
    requires ValidTables(t) && now >= FallbackWindow
  {
    var processed := if fetched.Some? then Processed(fetched.value, q.regionCode, q.start, q.end, now) else None;
    if processed.Some? then processed.value
    else FallbackResponse(t, draws, q.regionCode, q.speciesCode, q.start, q.end, now)
  }

  /** The factory passed to `GetOrCreateAsync`: fetch and process, and
      on any exception generate the fallback instead. */
  method CreateEntry(t: Tables, q: ObservationQuery, now: Instant,
                     fetch: string -> Option<seq<RawObservation>>, draws: seq<Draw>)
    returns (r: BirdMigrationResponse)
    requires ValidTables(t) && ValidDraws(t, draws) && now >= FallbackWindow
    ensures r == Fresh(t, q, fetch(RequestUrl(q)), draws, now)
  {
    var url := BuildRequestUrl(q);
    var fetched := fetch(url);
    var processed: Option<BirdMigrationResponse> := None;
    if fetched.Some? {
      processed := ProcessObservations(fetched.value, q.regionCode, q.start, q.end, now);
    }
    if processed.Some? {
      r := processed.value;
    } else {
      r := GetFallbackObservations(t, q.regionCode, q.speciesCode, q.start, q.end, now, draws);
    }
  }

  /** One `GetObservationsAsync` call against the cache contents `entries`:
      a live entry under the query's key is returned as stored; otherwise
      the factory's answer is returned and stored for 15 minutes. */
  function Serve(t: Tables, entries: map<string, CacheEntry<BirdMigrationResponse>>, q: ObservationQuery, now: Instant,
                 fetch: string -> Option<seq<RawObservation>>, draws: seq<Draw>): Lookup<BirdMigrationResponse>
    requires ValidTables(t) && now >= FallbackWindow
  {
    GetOrCreate(entries, CacheKey(q), now, CacheDuration, Fresh(t, q, fetch(RequestUrl(q)), draws, now))
  }

  lemma ServeMiss(t: Tables, entries: map<string, CacheEntry<BirdMigrationResponse>>, q: ObservationQuery, now: Instant,
                  fetch: string -> Option<seq<RawObservation>>, draws: seq<Draw>)
    requires ValidTables(t) && now >= FallbackWindow && Live(entries, CacheKey(q), now).None?
    ensures var r := Fresh(t, q, fetch(RequestUrl(q)), draws, now);
      Serve(t, entries, q, now, fetch, draws) == Lookup(r, entries[CacheKey(q) := CacheEntry(r, now + CacheDuration)])
  {
    GetOrCreateMiss(entries, CacheKey(q), now, CacheDuration, Fresh(t, q, fetch(RequestUrl(q)), draws, now));
  }

  /** A call that finds nothing stores its answer; any call with the same
      key in the next 15 minutes returns that answer unchanged, whatever it
      fetches or draws and whatever its `maxResults`, and changes nothing. */
  lemma CachedForFifteenMinutes(t: Tables, entries: map<string, CacheEntry<BirdMigrationResponse>>,
                                q1: ObservationQuery, t1: Instant, fetch1: string -> Option<seq<RawObservation>>, draws1: seq<Draw>,
                                q2: ObservationQuery, t2: Instant, fetch2: string -> Option<seq<RawObservation>>, draws2: seq<Draw>)
    requires ValidTables(t) && t1 >= FallbackWindow && Live(entries, CacheKey(q1), t1).None?
    requires CacheKey(q2) == CacheKey(q1) && t1 <= t2 < t1 + CacheDuration
    ensures var s1 := Serve(t, entries, q1, t1, fetch1, draws1);
      Serve(t, s1.entries, q2, t2, fetch2, draws2) == s1
  {
    CachedUntilExpiry(entries, CacheKey(q1), CacheDuration, t1, Fresh(t, q1, fetch1(RequestUrl(q1)), draws1, t1),
                      t2, Fresh(t, q2, fetch2(RequestUrl(q2)), draws2, t2));
  }

  /** From 15 minutes after a miss, the same key misses again and the
      answer is computed afresh. */
  lemma ExpiresAfterFifteenMinutes(t: Tables, entries: map<string, CacheEntry<BirdMigrationResponse>>,
                                   q1: ObservationQuery, t1: Instant, fetch1: string -> Option<seq<RawObservation>>, draws1: seq<Draw>,
                                   q2: ObservationQuery, t2: Instant, fetch2: string -> Option<seq<RawObservation>>, draws2: seq<Draw>)
    requires ValidTables(t) && t1 >= FallbackWindow && Live(entries, CacheKey(q1), t1).None?
    requires CacheKey(q2) == CacheKey(q1) && t1 + CacheDuration <= t2
    ensures var s1 := Serve(t, entries, q1, t1, fetch1, draws1);
      Serve(t, s1.entries, q2, t2, fetch2, draws2).value == Fresh(t, q2, fetch2(RequestUrl(q2)), draws2, t2)
  {
    ExpiresAfterTtl(entries, CacheKey(q1), CacheDuration, t1, Fresh(t, q1, fetch1(RequestUrl(q1)), draws1, t1),
                    t2, Fresh(t, q2, fetch2(RequestUrl(q2)), draws2, t2));
  }

  /** A failed fetch, or records that leave nothing to summarise without
      both bounds, give the fallback answer, which is never empty. */
  lemma FreshFallsBack(t: Tables, q: ObservationQuery, fetched: Option<seq<RawObservation>>, draws: seq<Draw>, now: Instant)
    requires ValidTables(t) && now >= FallbackWindow
    requires fetched.None? || Processed(fetched.value, q.regionCode, q.start, q.end, now).None?
    ensures Fresh(t, q, fetched, draws, now) == FallbackResponse(t, draws, q.regionCode, q.speciesCode, q.start, q.end, now)
    ensures |Fresh(t, q, fetched, draws, now).observations| >= 1
  {
  }

  // ---------------------------------------------------------------------
  // The service
  // ---------------------------------------------------------------------

  class BirdMigrationService {
    const cache: MemoryCache<BirdMigrationResponse>
    /** The fallback's species and location lists. */
    const tables: Tables

    constructor ()
      ensures fresh(cache) && cache.entries == map[]
      ensures tables == Alberta && ValidTables(tables)
    {
      cache := new MemoryCache<BirdMigrationResponse>();
      tables := Alberta;
      AlbertaTablesValid();
    }

    /** `GetObservationsAsync`, with the HTTP call as `fetch`, the clock as
        `now` and the random source of the fallback as `draws`. */
    method GetObservations(q: ObservationQuery, now: Instant,
                           fetch: string -> Option<seq<RawObservation>>, draws: seq<Draw>)
      returns (r: BirdMigrationResponse)
      requires ValidTables(tables) && ValidDraws(tables, draws) && now >= FallbackWindow
      modifies cache
      ensures r == Serve(tables, old(cache.entries), q, now, fetch, draws).value
      ensures cache.entries == Serve(tables, old(cache.entries), q, now, fetch, draws).entries
    {
      var key := CacheKey(q);
      var hit := cache.TryGetValue(key, now);
      if hit.Some? {
        r := hit.value;
      } else {
        ServeMiss(tables, cache.entries, q, now, fetch, draws);
        r := CreateEntry(tables, q, now, fetch, draws);
        Store(key, r, now);
      }
    }

    /** The store half of `GetOrCreateAsync`'s miss path: the factory's
        answer under `key`, expiring 15 minutes from `now`. */
    method Store(key: string, r: BirdMigrationResponse, now: Instant)
      modifies cache
      ensures cache.entries == old(cache.entries)[key := CacheEntry(r, now + CacheDuration)]
    {
      cache.Set(key, r, now, CacheDuration);
    }

    /** `GetMigrationRoutesAsync`: the observations of a species over a
        date range (at most 1000 asked for), grouped into routes. */
    method GetMigrationRoutes(regionCode: string, speciesCode: string, start: Instant, end: Instant, now: Instant,
                              fetch: string -> Option<seq<RawObservation>>, draws: seq<Draw>)
      returns (routes: seq<MigrationRouteData>)
      requires ValidTables(tables) && ValidDraws(tables, draws) && now >= FallbackWindow
      modifies cache
      ensures var s := Serve(tables, old(cache.entries), ObservationQuery(regionCode, Some(speciesCode), Some(start), Some(end), RouteMaxResults),
                             now, fetch, draws);
        cache.entries == s.entries && routes == Routes(s.value.observations)
    {
      var observations := GetObservations(ObservationQuery(regionCode, Some(speciesCode), Some(start), Some(end), RouteMaxResults),
                                          now, fetch, draws);
      routes := BuildRoutes(observations.observations);
    }
  }
}
