/** The station side of `WaterDataService`: the fixed table of Alberta
    stations, their display names, the two status ladders, the filter over
    the current-conditions document and the fallback station list. */
module WaterStations {
  import opened Wrappers
  import opened Calendar
  import opened Models
  import opened Sequences

  // ---------------------------------------------------------------------
  // The station table
  // ---------------------------------------------------------------------

  /** One entry of the coordinate table: a station id and its position. */
  datatype StationSite = StationSite(id: string, latitude: real, longitude: real)

  /** `_albertaStations`, in insertion order (the order a `Dictionary`
      without removals enumerates). */
  const AlbertaStations: seq<StationSite> := [
    StationSite("07EA004", 53.917, -118.885),
    StationSite("07BE001", 52.283, -113.785),
    StationSite("07DA001", 51.045, -114.058),
    StationSite("07ED001", 53.200, -117.567),
    StationSite("07AE001", 49.685, -112.835),
    StationSite("07BB004", 52.825, -113.285)
  ]

  const Province := "Alberta"
  const UnknownStation := "Unknown Station"
  const GenericNamePrefix := "Station "

  predicate DistinctIds(sites: seq<StationSite>) {
    forall i, j :: 0 <= i < j < |sites| ==> sites[i].id != sites[j].id
  }

  /** The table has six stations under six distinct ids. */
  lemma AlbertaStationsValid()
    ensures |AlbertaStations| == 6 && DistinctIds(AlbertaStations)
  {
  }

  /** `TryGetValue` on the table: the entry under `id`, if any. */
  function SiteOf(sites: seq<StationSite>, id: string): (r: Option<StationSite>)
    ensures r.Some? ==> r.value in sites && r.value.id == id
    ensures r.None? <==> forall k :: 0 <= k < |sites| ==> sites[k].id != id
  {
    if sites == [] then None
    else if sites[0].id == id then Some(sites[0])
    else
      var rest := SiteOf(sites[1..], id);
      assert forall k :: 1 <= k < |sites| ==> sites[k] == sites[1..][k - 1];
      rest
  }

  /** With distinct ids, the lookup of an entry's id finds that entry. */
  lemma {:induction false} SiteOfEntry(sites: seq<StationSite>, k: nat)
    requires DistinctIds(sites) && k < |sites|
    ensures SiteOf(sites, sites[k].id) == Some(sites[k])
  {
    if k > 0 {
      assert sites[1..][k - 1] == sites[k];
      SiteOfEntry(sites[1..], k - 1);
    }
  }

  // ---------------------------------------------------------------------
  // Names and station records
  // ---------------------------------------------------------------------

  /** `GetStationName`: the river name of a table station, and a generic
      name built from the id otherwise. */
  function StationName(id: string): (r: string)
    ensures r == GenericNamePrefix + id <==> !NamedId(id)
    ensures r != UnknownStation
  {
    assert UnknownStation[0] == 'U' && (GenericNamePrefix + id)[0] == 'S';
    if id == "07EA004" then "Athabasca River at Athabasca"
    else if id == "07BE001" then "Red Deer River at Red Deer"
    else if id == "07DA001" then "Bow River at Calgary"
    else if id == "07ED001" then "North Saskatchewan River at Edmonton"
    else if id == "07AE001" then "Oldman River at Lethbridge"
    else if id == "07BB004" then "Battle River near Gadsby"
    else GenericNamePrefix + id
  }

  /** The ids the names switch knows. */
  predicate NamedId(id: string) {
    id == "07EA004" || id == "07BE001" || id == "07DA001" || id == "07ED001" || id == "07AE001" || id == "07BB004"
  }

  lemma TableIds(id: string)
    ensures SiteOf(AlbertaStations, id).Some? <==> NamedId(id)
  {
    var t := AlbertaStations;
    if NamedId(id) {
      AlbertaStationsValid();
      var k := if id == t[0].id then 0 else if id == t[1].id then 1 else if id == t[2].id then 2
               else if id == t[3].id then 3 else if id == t[4].id then 4 else 5;
      SiteOfEntry(t, k);
    }
  }

  /** The names switch and the coordinate table list the same stations:
      an id gets a river name exactly when it is in the table, and no name
      is the unknown-station placeholder. */
  lemma StationNamesMatchTable(id: string)
    ensures StationName(id) == GenericNamePrefix + id <==> SiteOf(AlbertaStations, id).None?
    ensures StationName(id) != UnknownStation
  {
    TableIds(id);
  }

  /** `GetStationInfo`: the table station with its river name and position,
      or an "Unknown Station" at the default position for an id the table
      does not list; the status is Normal and the time is `now` either way. */
  function StationInfo(id: string, now: Instant): (r: WaterStation)
    ensures r.stationId == id && r.province == Province && r.status == Normal && r.lastUpdated == now
  {
    match SiteOf(AlbertaStations, id)
    case Some(site) => WaterStation(id, StationName(id), Province, site.latitude, site.longitude, Normal, now)
    case None => WaterStation(id, UnknownStation, Province, 0.0, 0.0, Normal, now)
  }

  /** A station's record is the unknown-station placeholder exactly when its
      id is not in the table; a table station carries the table position. */
  lemma StationInfoKnown(id: string, now: Instant)
    ensures StationInfo(id, now).stationName == UnknownStation <==> SiteOf(AlbertaStations, id).None?
    ensures SiteOf(AlbertaStations, id).Some? ==>
      var site := SiteOf(AlbertaStations, id).value;
      StationInfo(id, now).latitude == site.latitude && StationInfo(id, now).longitude == site.longitude
  {
    StationNamesMatchTable(id);
  }

  // ---------------------------------------------------------------------
  // Status ladders
  // ---------------------------------------------------------------------

  /** The four states from lowest to highest. */
  function Rank(s: WaterLevelStatus): nat {
    match s
    case CriticalLow => 0
    case Low => 1
    case Normal => 2
    case High => 3
  }

  /** A switch over three strict lower bounds, highest first: above `high`
      is High, above `normal` Normal, above `low` Low, anything else
      CriticalLow. */
  function Classify(x: real, high: real, normal: real, low: real): WaterLevelStatus
  {
    if x > high then High
    else if x > normal then Normal
    else if x > low then Low
    else CriticalLow
  }

  /** With ordered bounds, each state is one band, open below and closed
      above, so a bound itself falls to the lower state. */
  lemma ClassifyBands(x: real, high: real, normal: real, low: real)
    requires low < normal < high
    ensures Classify(x, high, normal, low) == High <==> high < x
    ensures Classify(x, high, normal, low) == Normal <==> normal < x <= high
    ensures Classify(x, high, normal, low) == Low <==> low < x <= normal
    ensures Classify(x, high, normal, low) == CriticalLow <==> x <= low
  {
  }

  /** A larger reading never gets a lower state. */
  lemma ClassifyMonotone(x: real, y: real, high: real, normal: real, low: real)
    requires low < normal < high && x <= y
    ensures Rank(Classify(x, high, normal, low)) <= Rank(Classify(y, high, normal, low))
  {
  }

  /** `DetermineWaterLevelStatus`, in metres: above 3.0 High, above 1.5
      Normal, above 0.5 Low, otherwise CriticalLow. */
  function WaterLevelStatusOf(level: real): (r: WaterLevelStatus)
    ensures r == High <==> 3.0 < level
    ensures r == Normal <==> 1.5 < level <= 3.0
    ensures r == Low <==> 0.5 < level <= 1.5
    ensures r == CriticalLow <==> level <= 0.5
  {
    ClassifyBands(level, 3.0, 1.5, 0.5);
    Classify(level, 3.0, 1.5, 0.5)
  }

  /** `DetermineDischargeStatus`, in cubic metres per second: above 200
      High, above 100 Normal, above 50 Low, otherwise CriticalLow. */
  function DischargeStatusOf(discharge: real): (r: WaterLevelStatus)
    ensures r == High <==> 200.0 < discharge
    ensures r == Normal <==> 100.0 < discharge <= 200.0
    ensures r == Low <==> 50.0 < discharge <= 100.0
    ensures r == CriticalLow <==> discharge <= 50.0
  {
    ClassifyBands(discharge, 200.0, 100.0, 50.0);
    Classify(discharge, 200.0, 100.0, 50.0)
  }

  // ---------------------------------------------------------------------
  // The station list
  // ---------------------------------------------------------------------

  /** A `station` element of the current-conditions document: its `id`
      attribute and its `name` child element, either possibly absent. */
  datatype StationElement = StationElement(id: Option<string>, name: Option<string>)

  /** The record an element contributes: none unless its id is present,
      non-empty and in the table; the name defaults to "Unknown Station". */
  function ListedStation(e: StationElement, now: Instant): Option<WaterStation>
  {
    if e.id.None? || e.id.value == "" then None
    else
      match SiteOf(AlbertaStations, e.id.value)
      case None => None
      case Some(site) =>
        Some(WaterStation(e.id.value, e.name.GetOr(UnknownStation), Province, site.latitude, site.longitude, Normal, now))
  }

  /** `GetFallbackAlbertaStations`: one record per table station, in table
      order, named by `GetStationName`. */
  function FallbackStations(now: Instant): (r: seq<WaterStation>)
    ensures |r| == |AlbertaStations|
    ensures forall k :: 0 <= k < |r| ==>
      r[k] == WaterStation(AlbertaStations[k].id, StationName(AlbertaStations[k].id), Province,
                           AlbertaStations[k].latitude, AlbertaStations[k].longitude, Normal, now)
  {
    seq(|AlbertaStations|, k requires 0 <= k < |AlbertaStations| =>
      WaterStation(AlbertaStations[k].id, StationName(AlbertaStations[k].id), Province,
                   AlbertaStations[k].latitude, AlbertaStations[k].longitude, Normal, now))
  }

  /** The station list built from the document's elements (None when the
      document does not parse): the listed table stations in document
      order, or the fallback list when the document does not parse or lists
      none of them. */
  function StationsFromXml(document: Option<seq<StationElement>>, now: Instant): (r: seq<WaterStation>)
    ensures |r| > 0
    ensures forall k :: 0 <= k < |r| ==> FromTable(r[k], now)
  {
    FallbackFromTable(now);
    if document.None? then FallbackStations(now)
    else
      var kept := Collect(document.value, Listed(now));
      ListedFromTable(document.value, now);
      if kept == [] then FallbackStations(now) else kept
  }

  /** `ListedStation` at a fixed time, as the function the list collects. */
  function Listed(now: Instant): StationElement -> Option<WaterStation> {
    e => ListedStation(e, now)
  }

  /** A table station as the list reports it. */
  predicate FromTable(s: WaterStation, now: Instant) {
    var site := SiteOf(AlbertaStations, s.stationId);
    && site.Some?
    && s.latitude == site.value.latitude && s.longitude == site.value.longitude
    && s.province == Province && s.status == Normal && s.lastUpdated == now
  }

  /** The fallback list is non-empty and holds table stations only. */
  lemma FallbackFromTable(now: Instant)
    ensures |FallbackStations(now)| > 0
    ensures forall k :: 0 <= k < |FallbackStations(now)| ==> FromTable(FallbackStations(now)[k], now)
  {
    AlbertaStationsValid();
    var fallback := FallbackStations(now);
    forall k | 0 <= k < |fallback| ensures FromTable(fallback[k], now) {
      SiteOfEntry(AlbertaStations, k);
    }
  }

  /** Every record collected from a document is a table station. */
  lemma ListedFromTable(elements: seq<StationElement>, now: Instant)
    ensures forall k :: 0 <= k < |Collect(elements, Listed(now))| ==> FromTable(Collect(elements, Listed(now))[k], now)
  {
    var f := Listed(now);
    var kept := Collect(elements, f);
    CollectElements(elements, f);
    forall k | 0 <= k < |kept| ensures FromTable(kept[k], now) {
      assert Yields(elements, f, kept[k]);
      var e :| e in elements && f(e) == Some(kept[k]);
    }
  }

  /** When the document parses and lists a table station, every element
      naming a table station is reported, under the name it gives. */
  lemma StationsComplete(document: seq<StationElement>, now: Instant, e: StationElement)
    requires e in document && e.id.Some? && SiteOf(AlbertaStations, e.id.value).Some?
    ensures var site := SiteOf(AlbertaStations, e.id.value).value;
      WaterStation(e.id.value, e.name.GetOr(UnknownStation), Province, site.latitude, site.longitude, Normal, now)
        in StationsFromXml(Some(document), now)
  {
    var f := Listed(now);
    CollectElements(document, f);
    assert f(e).Some?;
  }

  /** The fallback list names each of the six table stations once, each by
      its river name. */
  lemma FallbackStationsNamed(now: Instant)
    ensures |FallbackStations(now)| == 6
    ensures forall i, j :: 0 <= i < j < 6 ==> FallbackStations(now)[i].stationId != FallbackStations(now)[j].stationId
    ensures forall k :: 0 <= k < 6 ==> StationName(FallbackStations(now)[k].stationId) != GenericNamePrefix + FallbackStations(now)[k].stationId
  {
    AlbertaStationsValid();
    forall k | 0 <= k < 6
      ensures StationName(FallbackStations(now)[k].stationId) != GenericNamePrefix + FallbackStations(now)[k].stationId
    {
      SiteOfEntry(AlbertaStations, k);
      StationNamesMatchTable(AlbertaStations[k].id);
    }
  }

  /** `ParseStationsFromXml`: visits the elements in order, appending the
      record of each table station, and falls back when the document does
      not parse or yields nothing. */
  method ParseStationsFromXml(document: Option<seq<StationElement>>, now: Instant) returns (stations: seq<WaterStation>)
    ensures stations == StationsFromXml(document, now)
  {
    if document.None? {
      return FallbackStations(now);
    }
    var elements := document.value;
    stations := [];
    var i := 0;
    while i < |elements|
      invariant 0 <= i <= |elements|
      invariant stations == Collect(elements[..i], Listed(now))
    {
      var e := elements[i];
      assert elements[..i + 1] == elements[..i] + [e];
      CollectStep(elements[..i], e, Listed(now));
      if e.id.Some? && e.id.value != "" {
        var site := SiteOf(AlbertaStations, e.id.value);
        if site.Some? {
          var name := if e.name.Some? then e.name.value else UnknownStation;
          stations := stations + [WaterStation(e.id.value, name, Province, site.value.latitude, site.value.longitude, Normal, now)];
        }
      }
      i := i + 1;
    }
    assert elements[..i] == elements;
    if |stations| == 0 {
      stations := FallbackStations(now);
    }
  }
}
