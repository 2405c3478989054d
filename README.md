# Alberta environment dashboard services, modelled in Dafny

This project models the three back-end services of the dashboard and the
data-transfer objects they exchange:

- **BirdMigrationService**: eBird observations for a region.
  - The answers are cached for 15 minutes under a key built from the region, the species and the two dates.
  - The model builds the request URL: the recent, species or historic endpoint, and its query parameters.
  - It normalises the loosely-typed JSON records, skipping each one that throws.
  - It catalogs the species in first-seen order and filters by the date bounds.
  - It rates the date range with `Min`/`Max`.
  - When the request fails, it generates the fallback observations from the fixed Alberta species and site tables.
  - It groups sightings into migration routes: one per species sighted more than once.
- **WaterDataService**: the Alberta water stations and their real-time readings.
  - The station list is cached for five minutes and each station's view for two.
  - Stations are placed by the fixed coordinate table.
  - The model reads the real-time CSV: the current level and discharge, and the ten newest readings.
  - When a download fails, it generates the mock series.
  - It rates levels and discharges on two four-step ladders.
- **CarbonCalculatorService**: converts air travel and red meat to kilograms of CO2.
  - It reports the rounded total.
  - It writes a message that rates the total in one of four tiers.

Modules, one per file:

- `Wrappers`: `Option`.
- `Text`: `Split`, `Join`, `Trim` and decimal rendering.
- `Calendar`: `DateTime` as ticks, and the custom date formats.
- `Models`: the DTOs, as datatypes.
- `Cache`: `IMemoryCache` with absolute expiry, as a class over a map.
- `Sequences`: the LINQ operators the services use.
- `BirdRecords`, `BirdRoutes`, `BirdFallback`, `BirdService`: the bird service.
- `WaterStations`, `WaterReadings`, `WaterService`: the water service.
- `Carbon`: the carbon calculator.

The loops of the source are methods proved against the functions that specify them:

- `ProcessObservations`
- `BuildRoutes`
- `GenerateCandidates`
- `ParseStationsFromXml`
- `ReadDataLines`
- `GenerateMockData`

The services are classes whose caches are updated in place.

The outside world enters as parameters:

- The clock is a `now` instant.
- The HTTP downloads are functions from a URL to the body, or `None` when the request throws.
- `JsonSerializer`, `XDocument.Parse`, `double.TryParse` and `DateTime.TryParse` are functions.
- `Math.Round` and the "F2" formatting are functions.
- `Random` is a sequence of draws, constrained to the ranges `Next` and `NextDouble` return.

Where the written design and the code disagree, the model follows the code:

- The observation cache key leaves out `maxResults`.
  - So two queries that differ only in `maxResults` share an answer (`BirdService.CacheKeyDecides`).
- The fallback observation added when the generated list is empty ignores the species and date filters.
- The design's example of a batch where one record lacks its date expects that record to be dropped. The code does not drop it: it dates it now (`BirdRecords.NormalizedFields`).

## Model

| member | source | states |
|---|---|---|
| Cache.LiveUntilExpiry | backend/Services/BirdMigrationService.cs:47 | an entry stored with a time-to-live is returned unchanged strictly before its expiry and not at or after it |
| Cache.GetOrCreate | backend/Services/BirdMigrationService.cs:45-59 | a live entry under the key is returned as stored and nothing changes; otherwise the factory's answer is returned and stored under the key to expire ttl after now; either way the key holds the answer returned, it is the only key that may be added, and every other entry is kept |
| Cache.GetOrCreateStores | backend/Services/BirdMigrationService.cs:45-59 | with a positive lifetime, the answer returned is live under the key right after the call, on a hit and on a miss |
| Cache.CachedUntilExpiry | backend/Services/BirdMigrationService.cs:45-47 | after a miss, every later call with the key before the expiry returns the stored answer, whatever its own factory gives, and changes nothing |
| Cache.ExpiresAfterTtl | backend/Services/BirdMigrationService.cs:45-47 | from the expiry on, the key misses again and the new factory answer is returned and stored |
| Cache.MemoryCache.constructor | backend/Services/BirdMigrationService.cs:17 | a new cache holds no entries |
| Cache.MemoryCache.TryGetValue | backend/Services/BirdMigrationService.cs:45 | a hit exactly when a live entry is stored under the key |
| Cache.MemoryCache.Set | backend/Services/BirdMigrationService.cs:47 | the key now maps to the value with expiry now + ttl; every other entry is unchanged |
| BirdService.CacheKey | backend/Services/BirdMigrationService.cs:43 | every observation key starts with "BirdObservations_"; with renderable dates it is as long as the prefix, the region, the species or "all", three separators and eight digits per date given |
| BirdService.DateKeyShape | backend/Services/BirdMigrationService.cs:43 | a date key is empty exactly for a missing date, otherwise eight digits |
| BirdService.DateKeyDecides | backend/Services/BirdMigrationService.cs:43 | two date keys are equal exactly when both dates are missing or both fall on the same calendar day |
| BirdService.JoinedKeysDecide | backend/Services/BirdMigrationService.cs:43 | two keys with the same head and '_'-joined date keys are equal exactly when both date keys are |
| BirdService.CacheKeyDecides | backend/Services/BirdMigrationService.cs:43 | for one region and species, two queries share a cache entry exactly when their start dates and end dates fall on the same days, whatever their time of day or maxResults |
| BirdService.RequestParameters | backend/Services/BirdMigrationService.cs:66-91 | maxResults is capped at 500 exactly when a start date is given; includeProvisional=true is sent exactly when it is not; locale and format are always sent; 3 or 4 parameters |
| BirdService.ParametersPlain | backend/Services/BirdMigrationService.cs:73-91 | no query parameter contains '&' or '?' |
| BirdService.EndpointPlain | backend/Services/BirdMigrationService.cs:65-83 | when region and species contain no '?', neither does the endpoint |
| BirdService.RequestUrl | backend/Services/BirdMigrationService.cs:93 | when the region and species carry no '?', the URL splits at '?' into the endpoint and the query string, and the query string splits at '&' back into the parameters |
| BirdService.HistoricIgnoresSpecies | backend/Services/BirdMigrationService.cs:68-83 | for a span of more than 30 days the request URL does not depend on the species filter |
| BirdService.BuildRequestUrl | backend/Services/BirdMigrationService.cs:62-93 | the URL built step by step equals the endpoint chosen by the filters, '?', and the parameters joined by '&' |
| BirdService.CreateEntry | backend/Services/BirdMigrationService.cs:45-58 | the factory returns the processed answer when the fetch and processing succeed, otherwise the generated fallback |
| BirdService.ServeMiss | backend/Services/BirdMigrationService.cs:43-59 | on a miss the call returns the factory's answer and stores it for 15 minutes under the query's key |
| BirdService.CachedForFifteenMinutes | backend/Services/BirdMigrationService.cs:43-59 | any call with the same key within 15 minutes of a miss returns the stored answer unchanged, whatever it fetches, draws or asks as maxResults, and leaves the cache as it was |
| BirdService.ExpiresAfterFifteenMinutes | backend/Services/BirdMigrationService.cs:43-59 | from 15 minutes after a miss, the same key's answer is computed afresh |
| BirdService.FreshFallsBack | backend/Services/BirdMigrationService.cs:54-58 | a failed fetch, or records that leave nothing to summarise with a bound missing, give the fallback answer, which always lists at least one observation |
| BirdService.BirdMigrationService.constructor | backend/Services/BirdMigrationService.cs:23-27 | the service starts with an empty cache and the Alberta lists, which are valid |
| BirdService.BirdMigrationService.GetObservations | backend/Services/BirdMigrationService.cs:40-60 | the answer and the new cache are those of one get-or-create call with the query's key, the 15-minute lifetime and the fetch-or-fallback factory |
| BirdService.BirdMigrationService.Store | backend/Services/BirdMigrationService.cs:45-47 | the answer is stored under the key to expire 15 minutes from now; nothing else changes |
| BirdService.BirdMigrationService.GetMigrationRoutes | backend/Services/BirdMigrationService.cs:171-205 | the routes are those of the observations served for the species, both dates and maxResults 1000, and the cache changes as that call changes it |
| BirdRecords.Normalize | backend/Services/BirdMigrationService.cs:107-145 | a record fails exactly when one of its conversions throws; a converted record carries the queried region, and its catalog entry carries the observation's code and names |
| BirdRecords.NormalizedFields | backend/Services/BirdMigrationService.cs:109-138 | each of the nine text fields (code, both names, location, observer, checklist, family, order) is the given text or "" when absent; a given date, count, latitude or longitude is kept, and when absent the date is now cut to the whole second, the count 1 and each coordinate 0; a flag is true exactly when given as true; the region is the queried one |
| BirdRecords.ParseAll | backend/Services/BirdMigrationService.cs:105-146 | each failing record is skipped on its own: converted plus failing records make up the input; every converted record has the region and a matching catalog entry |
| BirdRecords.FirstSeenDistinct | backend/Services/BirdMigrationService.cs:129-139 | no species code is catalogued twice |
| BirdRecords.FirstSeenFrom | backend/Services/BirdMigrationService.cs:129-139 | every catalog entry is one of the proposed entries |
| BirdRecords.FirstSeenCovers | backend/Services/BirdMigrationService.cs:129-139 | every proposed code is catalogued |
| BirdRecords.FirstSeenWins | backend/Services/BirdMigrationService.cs:129-139 | for each code, the entry proposed first is the one kept |
| BirdRecords.CatalogCountsDistinctCodes | backend/Services/BirdMigrationService.cs:161-166 | the species count equals the number of distinct codes among the converted records |
| BirdRecords.DateFilterInclusive | backend/Services/BirdMigrationService.cs:148-156 | the filters keep exactly the observations within both given bounds, inclusive, each as often as it occurs |
| BirdRecords.Earliest | backend/Services/BirdMigrationService.cs:162 | `Min` is the date of one of the observations, and no observation date lies before it |
| BirdRecords.Latest | backend/Services/BirdMigrationService.cs:163 | `Max` is the date of one of the observations, and no observation date lies after it |
| BirdRecords.SummarizedFails | backend/Services/BirdMigrationService.cs:149-163 | processing throws exactly when no observation is within the bounds and a bound is missing (Min or Max of an empty list) |
| BirdRecords.Processed | backend/Services/BirdMigrationService.cs:99-169 | every observation the response lists is of the requested region and they are newest first; the catalog names no species code twice; both counts are the lengths of the two lists |
| BirdRecords.Summarized | backend/Services/BirdMigrationService.cs:147-168 | the response lists every observation within the bounds as often as it occurs, newest first; it carries the catalog, both counts, the region and now |
| BirdRecords.SummarizedRegion | backend/Services/BirdMigrationService.cs:158 | the response lists only observations it was given, so when they all have the region, so does every listed one |
| BirdRecords.SummarizedRange | backend/Services/BirdMigrationService.cs:160-163 | the response reports the given bounds, or else the earliest and latest kept date: every listed observation lies between the reported dates, and a reported date no bound gave is the date of a listed observation |
| BirdRecords.AttainedAfterReorder | backend/Services/BirdMigrationService.cs:160-163 | a date that one observation has is still had by one after the list is reordered |
| BirdRecords.ProcessedAsWritten | backend/Services/BirdMigrationService.cs:96-168 | as written every record is skipped, so without both bounds processing fails (Min of an empty list) and with both it answers an empty list with no species, reporting the two bounds |
| BirdRecords.AsWrittenLosesRecord | backend/Services/BirdMigrationService.cs:96-168 | one fully given record without date bounds: the intended processing lists it, the code as written fails and the fallback answers |
| BirdRecords.SortedRange | backend/Services/BirdMigrationService.cs:332-335 | sorted oldest first, a list starts at its minimum date and ends at its maximum |
| BirdRecords.RegisterStep | backend/Services/BirdMigrationService.cs:129-139 | adding an entry under a code not yet in the dictionary, or skipping one whose code is present, keeps the dictionary and its key order holding the first-seen catalog |
| BirdRecords.RegisteredCatalog | backend/Services/BirdMigrationService.cs:161 | the dictionary's values, read in key-insertion order, are the catalog |
| BirdRecords.ProcessObservations | backend/Services/BirdMigrationService.cs:99-169 | the loop over the records, with its list and its species dictionary, gives the filtered, newest-first response over the first-seen catalog, or fails where Min or Max would throw |
| BirdRoutes.GroupOf | backend/Services/BirdMigrationService.cs:177 | a species' group holds exactly the observations with that code, each as often as in the input, and every member has the code |
| BirdRoutes.GroupInInputOrder | backend/Services/BirdMigrationService.cs:177 | a group keeps input order: the group of two concatenated lists is the first list's group followed by the second's, and a single observation's group is itself when it has the code and empty otherwise |
| BirdRoutes.RouteFacts | backend/Services/BirdMigrationService.cs:181-200 | a route carries its species code and the group's first common name; its points are the group's sightings (same multiset) ordered by date; its first and last dates are the earliest and latest sighting dates, both attained; its total is the sum of the group's counts |
| BirdRoutes.PointsSum | backend/Services/BirdMigrationService.cs:199 | summing the points' counts equals summing the sightings' counts |
| BirdRoutes.RouteFor | backend/Services/BirdMigrationService.cs:190-201 | a species gets a route exactly when it is sighted more than once, and the route carries its code |
| BirdRoutes.RoutesSound | backend/Services/BirdMigrationService.cs:177-204 | every route is the route of its species' group, that species is sighted more than once, and no species has two routes |
| BirdRoutes.RoutesComplete | backend/Services/BirdMigrationService.cs:177-204 | every species sighted more than once has a route |
| BirdRoutes.BuildRoutes | backend/Services/BirdMigrationService.cs:176-204 | the loop over the groups, in order of first sighting, gives exactly the routes specified by the group-and-filter definition |
| BirdFallback.AlbertaTablesValid | backend/Services/BirdMigrationService.cs:211-248 | the species list and the site list have fifteen rows each, and no two species share a code |
| BirdFallback.AlbertaCodesDiffer | backend/Services/BirdMigrationService.cs:211-228 | the codes of rows lo to hi - 1 differ from every later code |
| BirdFallback.FirstBirdWithCode | backend/Services/BirdMigrationService.cs:326-327 | the lookup finds a table bird with the code, or reports that none has it |
| BirdFallback.LookupFindsBird | backend/Services/BirdMigrationService.cs:326-327 | with distinct codes, looking a bird up by its own code finds that bird |
| BirdFallback.CandidateDate | backend/Services/BirdMigrationService.cs:254-265 | a generated date lies between the two window ends |
| BirdFallback.FloorBetween | backend/Services/BirdMigrationService.cs:256-265 | a fraction of the window, rounded down to whole ticks, lies between zero and the window's length |
| BirdFallback.CandidateStep | backend/Services/BirdMigrationService.cs:263-292 | a valid draw yields the generated observation exactly when none of the three skip conditions holds |
| BirdFallback.GenerateStep | backend/Services/BirdMigrationService.cs:261-295 | one iteration extends the observations kept so far by the draw's observation, or leaves them as they are when a skip condition holds |
| BirdFallback.FallbackList | backend/Services/BirdMigrationService.cs:297-319 | the list is never empty, because the forced sighting is added when the filters keep nothing |
| BirdFallback.FallbackSpeciesEntries | backend/Services/BirdMigrationService.cs:321-328 | one catalog proposal per listed observation: its code and names, with the family and order of the table bird with its code |
| BirdFallback.CandidateFacts | backend/Services/BirdMigrationService.cs:263-292 | a kept iteration yields a table species with its names, a count from 1 to 50, approved, the queried region, and it passes the species filter and both date bounds |
| BirdFallback.CandidatesFiltered | backend/Services/BirdMigrationService.cs:261-295 | every kept observation passes the species filter and both date bounds and is such a record |
| BirdFallback.CandidatesComplete | backend/Services/BirdMigrationService.cs:261-295 | every iteration whose species and date pass the filters is kept |
| BirdFallback.FallbackSize | backend/Services/BirdMigrationService.cs:259-340 | the answer lists at most 30 observations, one per iteration at most; when the filters keep nothing it is exactly the forced sighting, which need not satisfy them |
| BirdFallback.FallbackResponse | backend/Services/BirdMigrationService.cs:297-339 | the answer lists the kept observations (or the forced one), at least one, oldest first; its range runs from the first listed date to the last; its catalog names no species twice; it counts both lists and carries the region and now |
| BirdFallback.FallbackListFromTable | backend/Services/BirdMigrationService.cs:277-318 | every listed observation is of a table species under that species' names |
| BirdFallback.FallbackCatalog | backend/Services/BirdMigrationService.cs:321-338 | the catalog has one entry per distinct listed species and counts them; each entry is a table row with that species' names, family and order |
| BirdFallback.SameCodes | backend/Services/BirdMigrationService.cs:321-332 | a reordered list and the catalog proposals of the original carry the same set of codes |
| BirdFallback.GetFallbackObservations | backend/Services/BirdMigrationService.cs:207-341 | the generated answer equals the fallback specification: kept candidates, or the forced sighting, ordered oldest first, with the first-seen catalog and the list's own date range |
| BirdFallback.GenerateCandidates | backend/Services/BirdMigrationService.cs:250-295 | the generating loop keeps, in draw order, exactly the candidates the filters let through |
| WaterStations.AlbertaStationsValid | backend/Services/WaterDataService.cs:24-32 | the coordinate table has six stations under six distinct ids |
| WaterStations.SiteOf | backend/Services/WaterDataService.cs:218 | the lookup returns a table entry under the id, or reports that no entry has it |
| WaterStations.SiteOfEntry | backend/Services/WaterDataService.cs:218 | with distinct ids, looking up an entry's id finds that entry |
| WaterStations.TableIds | backend/Services/WaterDataService.cs:278-290 | an id is in the coordinate table exactly when the names switch has a case for it |
| WaterStations.StationName | backend/Services/WaterDataService.cs:278-290 | an id gets the generic "Station <id>" name exactly when it is none of the six ids the switch names, and no name is the unknown-station placeholder |
| WaterStations.StationNamesMatchTable | backend/Services/WaterDataService.cs:278-290 | an id gets the generic "Station <id>" name exactly when it is not in the coordinate table, and no name is the unknown-station placeholder |
| WaterStations.StationInfo | backend/Services/WaterDataService.cs:216-240 | the record carries the id, Alberta, the Normal status and now |
| WaterStations.StationInfoKnown | backend/Services/WaterDataService.cs:216-240 | the record is named "Unknown Station" exactly when the id is not in the table; a table station carries the table's position |
| WaterStations.ClassifyBands | backend/Services/WaterDataService.cs:292-312 | with ordered bounds each state is one band, open below and closed above, so a bound value falls to the lower state |
| WaterStations.ClassifyMonotone | backend/Services/WaterDataService.cs:292-312 | a larger reading never gets a lower state |
| WaterStations.WaterLevelStatusOf | backend/Services/WaterDataService.cs:292-301 | above 3.0 m High, above 1.5 Normal, above 0.5 Low, otherwise CriticalLow, each in both directions; so 3.0, 1.5 and 0.5 themselves fall to the lower state |
| WaterStations.DischargeStatusOf | backend/Services/WaterDataService.cs:303-312 | above 200 m³/s High, above 100 Normal, above 50 Low, otherwise CriticalLow, each in both directions; so the bounds fall to the lower state |
| WaterStations.FallbackStations | backend/Services/WaterDataService.cs:186-198 | one record per table station, in table order, with its river name and table position, Normal, at now |
| WaterStations.StationsFromXml | backend/Services/WaterDataService.cs:85-123 | the station list is never empty, and every station in it is a table station at its table position, Normal, in Alberta, at now |
| WaterStations.FallbackFromTable | backend/Services/WaterDataService.cs:186-198 | the fallback list is non-empty and every station in it is a table station at its table position, Normal, in Alberta |
| WaterStations.ListedFromTable | backend/Services/WaterDataService.cs:94-114 | every record collected from a document's elements is a table station at its table position, Normal, in Alberta |
| WaterStations.StationsComplete | backend/Services/WaterDataService.cs:94-114 | every element of a parsed document that names a table station is reported, under the name the element gives or "Unknown Station" |
| WaterStations.FallbackStationsNamed | backend/Services/WaterDataService.cs:186-198 | the fallback list names each of the six stations once, each by its river name |
| WaterStations.ParseStationsFromXml | backend/Services/WaterDataService.cs:85-123 | the loop over the elements keeps, in document order, exactly the table stations, and falls back to the fixed list when the document does not parse or yields none |
| WaterReadings.Reading | backend/Services/WaterDataService.cs:140-153 | a data line gives a reading exactly when it has six columns or more, and the reading belongs to the station |
| WaterReadings.ReadingsStep | backend/Services/WaterDataService.cs:138-172 | one more line extends the readings by that line's reading, if it has one |
| WaterReadings.ReadingsFromLines | backend/Services/WaterDataService.cs:138-172 | there are no more readings than data lines; every reading belongs to the station; every line with six columns or more contributes its reading |
| WaterReadings.LastValueStep | backend/Services/WaterDataService.cs:157-165 | a new row of the parameter overwrites the running value; any other row leaves it |
| WaterReadings.LastValueIsLast | backend/Services/WaterDataService.cs:134-165 | the current value is 0 when no row has the parameter, and otherwise the value of the last row that has it |
| WaterReadings.MostRecentAreNewest | backend/Services/WaterDataService.cs:178 | the recent data are the ten newest readings (all of them when fewer), newest first, and no left-out reading is newer than a kept one; of the readings sharing a timestamp, those kept are the first of them in file order, in file order |
| WaterReadings.MockData | backend/Services/WaterDataService.cs:242-276 | n iterations give 2n readings |
| WaterReadings.MockLayout | backend/Services/WaterDataService.cs:248-273 | position 2i holds iteration i's level reading and position 2i + 1 its discharge reading |
| WaterReadings.FallbackStationDataFacts | backend/Services/WaterDataService.cs:200-276 | the mock answer holds twenty readings: ten instants six minutes apart, each with a level and a discharge; the current values are the newest pair's, 2.5 to 3 m and 150 to 200; the forced Normal statuses agree with the ladders |
| WaterReadings.GenerateMockData | backend/Services/WaterDataService.cs:242-276 | the loop appends, for i = 0 to 9, a level and a discharge reading at now - 6i minutes, as the mock specification lists them |
| WaterReadings.DetailFromCsv | backend/Services/WaterDataService.cs:125-184 | the view carries the station's record; with fewer than two non-empty lines both statuses are Normal; otherwise each status is the ladder's verdict on the value shown beside it, and the readings are at most ten of the station's own, newest first |
| WaterReadings.RecentOfStation | backend/Services/WaterDataService.cs:174-178 | the readings a view shows are at most ten of the station's own, newest first |
| WaterReadings.ParseStationDataFromCsv | backend/Services/WaterDataService.cs:125-184 | fewer than two non-empty lines give the fallback; otherwise the detail built from the data lines, as the specification defines it |
| WaterReadings.ReadLineStep | backend/Services/WaterDataService.cs:140-155 | a data line with six columns or more appends its row to the readings; a shorter line is skipped |
| WaterReadings.ReadDataLines | backend/Services/WaterDataService.cs:133-172 | the loop over the lines after the header gives the readings in file order, with the last level and the last discharge among them (0 when there is none) |
| WaterReadings.GetFallbackStationData | backend/Services/WaterDataService.cs:200-214 | the fallback detail is the station's record, the mock readings, their first level and discharge, and Normal for both statuses |
| WaterService.MockSpanWithinWindow | backend/Services/WaterDataService.cs:69-70 | the mock series' span is shorter than the two-hour query window |
| WaterService.CacheKeysDisjoint | backend/Services/WaterDataService.cs:19-20 | detail keys name their station one to one, and no detail key, the station-list key or a bird observation key coincide |
| WaterService.StationsAnswerFromTable | backend/Services/WaterDataService.cs:40-57 | whatever the download and the document, the station list is non-empty and holds only table stations as the table places them |
| WaterService.DetailAnswerRated | backend/Services/WaterDataService.cs:59-83 | whatever the download, the detail names the station's record, each status is the ladder's verdict on the value beside it, there are at most twenty readings, and they are newest first when read from the CSV |
| WaterService.StationsMiss | backend/Services/WaterDataService.cs:42-56 | when no live list is cached, the call returns the freshly built list and stores it for five minutes |
| WaterService.DetailMiss | backend/Services/WaterDataService.cs:61-82 | when no live view of the station is cached, the call returns the freshly built view and stores it under the station's key for two minutes |
| WaterService.StationsCachedForFiveMinutes | backend/Services/WaterDataService.cs:40-57 | within five minutes of a miss every call returns the stored list unchanged, whatever would now be downloaded |
| WaterService.StationsExpireAfterFiveMinutes | backend/Services/WaterDataService.cs:40-57 | five minutes or more after a miss the list is built afresh |
| WaterService.DetailCachedForTwoMinutes | backend/Services/WaterDataService.cs:61-82 | within two minutes of a miss every call for that station returns the stored view unchanged |
| WaterService.DetailExpiresAfterTwoMinutes | backend/Services/WaterDataService.cs:61-82 | two minutes or more after a miss the station's view is built afresh |
| WaterService.DetailKeepsOtherStations | backend/Services/WaterDataService.cs:61-65 | serving one station leaves every other station's cached view, and its presence, as they were |
| WaterService.WaterDataService.constructor | backend/Services/WaterDataService.cs:34-38 | the service starts with empty caches of its own |
| WaterService.WaterDataService.GetAlbertaWaterStations | backend/Services/WaterDataService.cs:40-57 | the list returned and the new cache contents are those of one get-or-create call under the station-list key |
| WaterService.WaterDataService.CreateStations | backend/Services/WaterDataService.cs:44-55 | the parsed list when the download succeeds, the fallback list when it throws |
| WaterService.WaterDataService.StoreStations | backend/Services/WaterDataService.cs:46 | the list is stored under its key with a five-minute expiry, and nothing else in the cache changes |
| WaterService.WaterDataService.GetStationData | backend/Services/WaterDataService.cs:59-83 | the view returned and the new cache contents are those of one get-or-create call under the station's key |
| WaterService.WaterDataService.CreateDetail | backend/Services/WaterDataService.cs:67-81 | the view read from the two-hour CSV when the download succeeds, the mock view when it throws |
| WaterService.WaterDataService.StoreDetail | backend/Services/WaterDataService.cs:65 | the view is stored under its key with a two-minute expiry, and nothing else in the cache changes |
| Carbon.EmissionsNonNegative | backend/Services/CarbonCalculatorService.cs:21-28 | for the non-negative inputs a request may carry, each amount is non-negative and at most the total, and the total is zero exactly when both inputs are |
| Carbon.EmissionsMonotone | backend/Services/CarbonCalculatorService.cs:24-28 | more of either activity never lowers the total, and strictly more of one with no less of the other raises it |
| Carbon.EmissionsAdditive | backend/Services/CarbonCalculatorService.cs:24-28 | two requests together emit what they emit apart |
| Carbon.TierBands | backend/Services/CarbonCalculatorService.cs:60-75 | each tier is the half-open band below its bound (under 10, 10 to 50, 50 to 100, 100 and above), in both directions |
| Carbon.TierMonotone | backend/Services/CarbonCalculatorService.cs:60-75 | a larger total never gets a lower tier |
| Carbon.TierSentenceInjective | backend/Services/CarbonCalculatorService.cs:60-75 | no two tiers share a closing sentence |
| Carbon.GenerateMessage | backend/Services/CarbonCalculatorService.cs:47-78 | the message is the zero-footprint one exactly when the total is zero, and otherwise ends with the sentence of the total's tier |
| Carbon.MessageShape | backend/Services/CarbonCalculatorService.cs:54-77 | a non-zero message opens with the formatted total and carries the breakdown after it |
| Carbon.CalculateCO2 | backend/Services/CarbonCalculatorService.cs:21-38 | the response's total is the rounded sum of the two conversions; its message is the zero-footprint one exactly when that sum is zero, and otherwise ends with the sentence of the unrounded sum's tier |
| Carbon.CalculateCO2Reports | backend/Services/CarbonCalculatorService.cs:21-38 | the response's total is the rounded sum of the two conversions; its message is the zero-footprint one exactly when nothing was flown or eaten, and otherwise ends with the sentence of the unrounded total's tier |
| Sequences.Filter | backend/Services/BirdMigrationService.cs:148-156 | `Where` keeps exactly the elements that satisfy the predicate, with their multiplicities, and only those |
| Sequences.FilterConcat | backend/Services/BirdMigrationService.cs:148-156 | `Where` keeps input order: filtering two concatenated sequences gives the first one's kept elements followed by the second one's |
| Sequences.FilterOne | backend/Services/BirdMigrationService.cs:148-156 | a single element is kept exactly when it satisfies the predicate |
| Sequences.SumByPermutation | backend/Services/BirdMigrationService.cs:199 | a sum of counts does not depend on the order of the points |
| Sequences.DistinctElements | backend/Services/BirdMigrationService.cs:177 | the group keys are the species codes present, each exactly once |
| Sequences.DistinctOrder | backend/Services/BirdMigrationService.cs:177 | the group keys come in order of first occurrence: each is from the input, and a key listed before another occurs in the input before every occurrence of the other |
| Sequences.OrderBy | backend/Services/BirdMigrationService.cs:188 | `OrderBy` gives a rearrangement of its input, sorted ascending by the key, and stable: the elements with any one key keep their input order |
| Sequences.OrderByDescending | backend/Services/BirdMigrationService.cs:160 | `OrderByDescending` gives a rearrangement of its input, sorted descending by the key, and stable: the elements with any one key keep their input order |
| Sequences.Take | backend/Services/WaterDataService.cs:178 | `Take(n)` is the prefix of length n, or the whole sequence when it is shorter |
| Sequences.TopByKey | backend/Services/WaterDataService.cs:178 | `OrderByDescending(key).Take(n)` keeps n elements (all when fewer) of the input, sorted descending, and leaves out none with a larger key than one kept; of the elements sharing a key, those kept are the first of them in input order, in that order |
| Sequences.TakeSorted | backend/Services/WaterDataService.cs:178 | the first n of a descending sequence are sorted, nothing left out has a larger key than anything kept, and for each key the kept elements with it are the first ones with it |
| Sequences.MinOf | backend/Services/BirdMigrationService.cs:162 | `Min` over a non-empty sequence is one of its elements and no larger than any |
| Sequences.MaxOf | backend/Services/BirdMigrationService.cs:163 | `Max` over a non-empty sequence is one of its elements and no smaller than any |
| Sequences.SortedBounds | backend/Services/BirdMigrationService.cs:197-198 | in a sequence sorted ascending the least key is the first element's and the greatest the last element's |
| Text.Split | backend/Services/WaterDataService.cs:140 | `Split(',')` gives one more piece than there are separators, no piece holds the separator, and joining the pieces back gives the input |
| Text.SplitJoin | backend/Services/WaterDataService.cs:140 | splitting a join of separator-free pieces gives the pieces back |
| Text.NonEmpty | backend/Services/WaterDataService.cs:127 | `RemoveEmptyEntries` is a `Where` on non-empty pieces: it keeps exactly the non-empty pieces, in order |
| Text.SplitNonEmpty | backend/Services/WaterDataService.cs:127 | the lines are the non-empty pieces of the split at the line break, in order, and none holds a line break |
| Text.TrimStart | backend/Services/WaterDataService.cs:148-151 | the leading white space, and only it, is removed |
| Text.TrimEnd | backend/Services/WaterDataService.cs:148-151 | the trailing white space, and only it, is removed |
| Text.NatToString | backend/Services/BirdMigrationService.cs:43 | the decimal rendering is a non-empty digit string that reads back as the number |
| Text.PaddedRoundTrip | backend/Services/BirdMigrationService.cs:43 | a zero-padded rendering reads back as the number and is exactly the width when the number fits |
| Calendar.FormatYmdDistinguishesDays | backend/Services/BirdMigrationService.cs:43 | "yyyyMMdd" is eight characters wide, and two instants render alike exactly when they fall on the same day |
| Calendar.WholeSeconds | backend/Services/BirdMigrationService.cs:115 | rendering now with the general format and parsing it back cuts it to the whole second: at most now, less than a second earlier, and a whole number of seconds |

## Left out

- HTTP, headers, the API key lookup (`GetApiKey`, `IConfiguration`) and the base address: requests are a download parameter, so a failure is `None`.
- JSON deserialisation and the `dynamic` member access: a raw record is a datatype whose fields are absent, present, or present but rejected by their conversion.
- BirdRecords.Normalize models the record reading the code intends. As written, `System.Text.Json` yields `JsonElement`s, whose missing string indexer makes every record throw; that behaviour is `BirdRecords.ProcessedAsWritten` (see "## Findings"), and the services use the intended reading.
- XML parsing: the document is a parameter that yields the `station` elements, or `None` when `XDocument.Parse` throws.
- `double.TryParse`, `DateTime.TryParse`, `Math.Round(x, 2)` and the "F2" formatting are function parameters, because their culture and floating-point rules are outside the model.
- Floating point: amounts, coordinates, levels and discharges are exact reals, so rounding error and the `double` precision of `TimeSpan.TotalDays` are not modelled.
- `async`/`await`, concurrent callers and the atomicity of `GetOrCreateAsync` are not modelled: each call runs to completion against the cache's contents.
- The one `IMemoryCache` the services share is modelled as one cache per value type, because the key prefixes keep the entries apart (`WaterService.CacheKeysDisjoint`). The cache's size limits and eviction under memory pressure are not modelled.
- BirdRecords.Normalize: a missing date is `DateTime.Now` printed with the current culture's general format and parsed back. The model takes a format that keeps the seconds and drops their fraction, and a culture that parses its own output.
- `DateTime.Now` is read once per call as `now`. The source reads it several times, but within one call the readings are taken to agree.
- BirdFallback.GetFallbackObservations requires the clock to be at least 30 days past the epoch, and WaterService.WaterDataService.GetStationData requires two hours, because the instants are natural numbers. `AddDays` with a fractional day is floored to whole ticks.
- The fixed species and site tables of the bird fallback are a parameter of its functions, and the service holds the Alberta values. Their validity is proved once, in `BirdFallback.AlbertaTablesValid`.
- The '/' in the "MM/dd/yyyy" historic endpoint is written as '/'. The source's culture-dependent date separator is not modelled.
- The ':' in the "HH:mm:ss" times of the real-time CSV request (`WaterService.CsvUrl`) is written as ':'. The culture-dependent time separator of .NET formatting is not modelled; the URL only feeds the download parameter.
- The `catch` around a CSV row's conversion is left out: `TryParse` and `Trim` do not throw there, so that path cannot be taken.
- BirdRoutes.RouteFacts: the total count is an unbounded integer, so the 32-bit overflow of `Sum` over `int` counts is not modelled.
- The `Console.WriteLine` logging of skipped records and caught exceptions is left out: it has no effect on the results.
- The ASP.NET controllers are left out. Only the request validation that guarantees non-negative inputs to the calculator is assumed, as the precondition of `Carbon.EmissionsNonNegative` and `Carbon.CalculateCO2Reports`. `Carbon.CalculateCO2` itself states its message for any inputs.

## Findings

| source | as written | input that shows it | evidently intended | confidence | as-written member | corrected member |
|---|---|---|---|---|---|---|
| backend/Services/BirdMigrationService.cs:96-141 | `JsonSerializer.Deserialize<List<dynamic>>` (System.Text.Json) gives `JsonElement` records; `JsonElement` has no string indexer, so `obs["speciesCode"]` throws on every record and the catch skips it: no record is ever converted | one record with every field given and no date bounds (`BirdRecords.AsWrittenLosesRecord`): the list stays empty, `Min` throws, and the generated fallback is served although eBird answered; with both bounds an empty answer is cached, so the routes view, which always passes both, finds no routes | each record is read field by field with the documented defaults, and a record is skipped only when one of its own conversions throws | not executed; high | BirdRecords.ProcessedAsWritten | BirdRecords.Processed |
