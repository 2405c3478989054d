/** The synthetic observation set served when eBird cannot be reached or its
    answer cannot be summarised: 15 to 30 random sightings of Alberta birds at
    Alberta sites, filtered like a real answer, with one fixed sighting when
    the filters leave nothing. The random source is a list of draws, one per
    generated candidate. */
module BirdFallback {
  import opened Wrappers
  import opened Text
  import opened Calendar
  import opened Sequences
  import opened Models
  import opened BirdRecords

  // ---------------------------------------------------------------------
  // Tables
  // ---------------------------------------------------------------------

  /** The generator's two lookup lists. The proofs hold for any tables
      whose codes are distinct; `Alberta` is the pair the service uses. */

  datatype Bird = Bird(speciesCode: string, commonName: string, scientificName: string,
                       family: string, order: string)

  datatype Location = Location(lat: real, lng: real, name: string)

  /** The fifteen species, in table order (the Bald Eagle's code is written "bal Eagle"). */
  const AlbertaBirds: seq<Bird> := [
    Bird("canwar", "Canada Warbler", "Cardellina canadensis", "Parulidae", "Passeriformes"),
    Bird("amerobin", "American Robin", "Turdus migratorius", "Turdidae", "Passeriformes"),
    Bird("whiwoo", "White-throated Sparrow", "Zonotrichia albicollis", "Passerellidae", "Passeriformes"),
    Bird("mallar", "Mallard", "Anas platyrhynchos", "Anatidae", "Anseriformes"),
    Bird("cangoo", "Canada Goose", "Branta canadensis", "Anatidae", "Anseriformes"),
    Bird("redtai", "Red-tailed Hawk", "Buteo jamaicensis", "Accipitridae", "Accipitriformes"),
    Bird("blujay", "Blue Jay", "Cyanocitta cristata", "Corvidae", "Passeriformes"),
    Bird("blkcap", "Black-capped Chickadee", "Poecile atricapillus", "Paridae", "Passeriformes"),
    Bird("comgra", "Common Grackle", "Quiscalus quiscula", "Icteridae", "Passeriformes"),
    Bird("houfin", "House Finch", "Haemorhous mexicanus", "Fringillidae", "Passeriformes"),
    Bird("amekes", "American Kestrel", "Falco sparverius", "Falconidae", "Falconiformes"),
    Bird("killde", "Killdeer", "Charadrius vociferus", "Charadriidae", "Charadriiformes"),
    Bird("commer", "Common Merganser", "Mergus merganser", "Anatidae", "Anseriformes"),
    Bird("bal Eagle", "Bald Eagle", "Haliaeetus leucocephalus", "Accipitridae", "Accipitriformes"),
    Bird("yelwar", "Yellow Warbler", "Setophaga petechia", "Parulidae", "Passeriformes")
  ]

  /** The fifteen sites, in table order. */
  const AlbertaLocations: seq<Location> := [
    Location(53.544, -113.491, "Edmonton River Valley"),
    Location(51.045, -114.058, "Calgary Wetlands"),
    Location(52.268, -113.811, "Red Deer Nature Reserve"),
    Location(49.695, -112.833, "Lethbridge Nature Center"),
    Location(56.726, -111.380, "Fort McMurray Boreal Forest"),
    Location(52.321, -114.071, "Sylvan Lake Bird Sanctuary"),
    Location(53.917, -118.796, "Jasper National Park"),
    Location(51.424, -115.361, "Banff National Park"),
    Location(54.775, -113.284, "Athabasca River Delta"),
    Location(50.724, -113.974, "Chain Lakes Provincial Park"),
    Location(55.154, -118.797, "Grande Prairie Regional Park"),
    Location(52.881, -118.055, "Hinton Wetlands"),
    Location(53.797, -114.165, "Slave Lake Wildlife Area"),
    Location(50.041, -110.676, "Medicine Hat River Valley"),
    Location(58.377, -114.016, "Wood Buffalo National Park")
  ]

  datatype Tables = Tables(birds: seq<Bird>, locations: seq<Location>)

  const Alberta := Tables(AlbertaBirds, AlbertaLocations)

  predicate UniqueCodes(birds: seq<Bird>) {
    forall i, j :: 0 <= i < j < |birds| ==> birds[i].speciesCode != birds[j].speciesCode
  }

  /** Both lists are non-empty (the forced sighting takes their first
      rows) and no two birds share a code. */
  predicate ValidTables(t: Tables) {
    |t.birds| > 0 && |t.locations| > 0 && UniqueCodes(t.birds)
  }

  /** The Alberta tables have fifteen rows each and fifteen distinct codes. */
  lemma AlbertaTablesValid()
    ensures ValidTables(Alberta)
    ensures |Alberta.birds| == 15 && |Alberta.locations| == 15
  {
    AlbertaCodesDiffer(0, 5);
    AlbertaCodesDiffer(5, 10);
    AlbertaCodesDiffer(10, 15);
  }

  /** The codes of rows `lo` to `hi - 1` differ from every later code. */
  lemma AlbertaCodesDiffer(lo: int, hi: int)
    requires (lo, hi) in {(0, 5), (5, 10), (10, 15)}
    ensures forall i, j :: lo <= i < hi && i < j < |AlbertaBirds| ==> AlbertaBirds[i].speciesCode != AlbertaBirds[j].speciesCode
  {
  }

  /** `albertaBirds.First(b => b.speciesCode == code)`. */
  function FirstBirdWithCode(birds: seq<Bird>, code: string): (r: Option<Bird>)
    ensures r.Some? ==> r.value in birds && r.value.speciesCode == code
    ensures r.None? ==> forall k :: 0 <= k < |birds| ==> birds[k].speciesCode != code
  {
    if birds == [] then None
    else if birds[0].speciesCode == code then Some(birds[0])
    else FirstBirdWithCode(birds[1..], code)
  }

  /** With distinct codes, looking a bird up by its code finds that bird. */
  lemma {:induction false} LookupFindsBird(birds: seq<Bird>, i: int)
    requires UniqueCodes(birds) && 0 <= i < |birds|
    ensures FirstBirdWithCode(birds, birds[i].speciesCode) == Some(birds[i])
  {
    if i > 0 {
      assert birds[0].speciesCode != birds[i].speciesCode;
      assert birds[1..][i - 1] == birds[i];
      LookupFindsBird(birds[1..], i - 1);
    }
  }

  // ---------------------------------------------------------------------
  // Random draws
  // ---------------------------------------------------------------------

  /** The values one loop iteration draws, in the order it draws them. An
      iteration that skips its candidate draws only the first three. */
  datatype Draw = Draw(
    bird: int,            // index into the species list
    location: int,        // index into the site list
    dateFraction: real,   // share of the window, in [0, 1)
    latJitter: real,      // in [0, 1), shifted to +-0.05 degrees
    lngJitter: real,      // in [0, 1), shifted to +-0.05 degrees
    count: int,           // 1 to 50 birds
    observer: int,        // observer number, 1 to 10
    mediaRoll: real,      // in [0, 1); media above 0.6
    checklist: int)       // checklist number, 1000 to 9998

  predicate UnitInterval(x: real) { 0.0 <= x < 1.0 }

  /** The ranges `Random` guarantees. */
  predicate ValidDraw(t: Tables, d: Draw) {
    && 0 <= d.bird < |t.birds|
    && 0 <= d.location < |t.locations|
    && UnitInterval(d.dateFraction) && UnitInterval(d.latJitter) && UnitInterval(d.lngJitter)
    && 1 <= d.count <= 50
    && 1 <= d.observer <= 10
    && UnitInterval(d.mediaRoll)
    && 1000 <= d.checklist <= 9998
  }

  /** `random.Next(15, 31)` iterations, each with valid draws. */
  predicate ValidDraws(t: Tables, draws: seq<Draw>) {
    15 <= |draws| <= 30 && forall k :: 0 <= k < |draws| ==> ValidDraw(t, draws[k])
  }

  // ---------------------------------------------------------------------
  // Candidates
  // ---------------------------------------------------------------------

  const FallbackWindow: nat := 30 * TicksPerDay

  /** The generation window: the given bounds, or the last thirty days up to now. */
  function WindowStart(start: Option<Instant>, now: Instant): Instant
    requires now >= FallbackWindow
  {
    if start.Some? then start.value else now - FallbackWindow
  }

  function WindowEnd(end: Option<Instant>, now: Instant): Instant {
    if end.Some? then end.value else now
  }

  /** `startDateValue.AddDays(fraction * dateRange)`, truncated to whole ticks:
      a point between the two window ends. */
  function CandidateDate(fraction: real, startValue: Instant, endValue: Instant): (t: Instant)
    requires UnitInterval(fraction)
    ensures startValue <= endValue ==> startValue <= t <= endValue
    ensures endValue < startValue ==> endValue <= t <= startValue
  {
    var range := endValue - startValue;
    var offset := (fraction * range as real).Floor;
    FloorBetween(fraction, range);
    startValue + offset
  }

  /** A fraction of a range, rounded down, lies between zero and the range. */
  lemma FloorBetween(fraction: real, range: int)
    requires UnitInterval(fraction)
    ensures range >= 0 ==> 0 <= (fraction * range as real).Floor <= range
    ensures range < 0 ==> range <= (fraction * range as real).Floor <= 0
  {
    var r := range as real;
    var x := fraction * r;
    if range >= 0 {
      MulNonNegative(fraction, r);
      MulNonNegative(1.0 - fraction, r);
      assert x <= r;
    } else {
      MulNonNegative(fraction, -r);
      MulNonNegative(1.0 - fraction, -r);
      assert r <= x;
    }
  }

  lemma MulNonNegative(a: real, b: real)
    requires 0.0 <= a && 0.0 <= b
    ensures 0.0 <= a * b
  {
  }

  /** The species filter lets the bird through: no code given, an empty
      code, or the bird's own code. */
  predicate SpeciesAdmits(speciesCode: Option<string>, b: Bird) {
    speciesCode.None? || speciesCode.value == "" || b.speciesCode == speciesCode.value
  }

  /** The observation an iteration that passes the filters generates. */
  function GeneratedObservation(t: Tables, d: Draw, regionCode: string, date: Instant): BirdObservation
    requires ValidDraw(t, d)
  {
    var b := t.birds[d.bird];
    var loc := t.locations[d.location];
    BirdObservation(
      b.speciesCode, b.commonName, b.scientificName,
      loc.lat + (d.latJitter - 0.5) * 0.1, loc.lng + (d.lngJitter - 0.5) * 0.1,
      date, d.count, loc.name, regionCode,
      "observer" + IntToString(d.observer), d.mediaRoll > 0.6, true,
      "check" + IntToString(d.checklist))
  }

  /** The outcome of one iteration: its observation, or None when a filter
      skips it. Draws outside the ranges `Random` guarantees yield nothing. */
  function Candidate(t: Tables, d: Draw, regionCode: string, speciesCode: Option<string>,
                     start: Option<Instant>, end: Option<Instant>, now: Instant): Option<BirdObservation>
    requires now >= FallbackWindow
  {
    if !ValidDraw(t, d) then None
    else
      var date := CandidateDate(d.dateFraction, WindowStart(start, now), WindowEnd(end, now));
      if !SpeciesAdmits(speciesCode, t.birds[d.bird]) then None
      else if start.Some? && date < start.value then None
      else if end.Some? && date > end.value then None
      else Some(GeneratedObservation(t, d, regionCode, date))
  }

  /** The observations the loop keeps, in draw order. */
  function Candidates(t: Tables, draws: seq<Draw>, regionCode: string, speciesCode: Option<string>,
                      start: Option<Instant>, end: Option<Instant>, now: Instant): seq<BirdObservation>
    requires now >= FallbackWindow
  {
    Collect(draws, CandidateMaker(t, regionCode, speciesCode, start, end, now))
  }

  function CandidateMaker(t: Tables, regionCode: string, speciesCode: Option<string>,
                          start: Option<Instant>, end: Option<Instant>, now: Instant): Draw -> Option<BirdObservation>
    requires now >= FallbackWindow
  {
    d => Candidate(t, d, regionCode, speciesCode, start, end, now)
  }

  /** One iteration of the loop, as the loop tests it. */
  lemma CandidateStep(t: Tables, d: Draw, regionCode: string, speciesCode: Option<string>,
                      start: Option<Instant>, end: Option<Instant>, now: Instant)
    requires ValidDraw(t, d) && now >= FallbackWindow
    ensures var date := CandidateDate(d.dateFraction, WindowStart(start, now), WindowEnd(end, now));
      CandidateMaker(t, regionCode, speciesCode, start, end, now)(d)
        == if !(speciesCode.Some? && speciesCode.value != "" && t.birds[d.bird].speciesCode != speciesCode.value)
              && !(start.Some? && date < start.value)
              && !(end.Some? && date > end.value)
           then Some(GeneratedObservation(t, d, regionCode, date))
           else None
  {
  }

  /** One iteration of the generating loop extends the candidates of the
      draws before it by the outcome of `draws[i]`. */
  lemma GenerateStep(t: Tables, draws: seq<Draw>, i: int, regionCode: string, speciesCode: Option<string>,
                     start: Option<Instant>, end: Option<Instant>, now: Instant, prev: seq<BirdObservation>)
    requires ValidDraws(t, draws) && 0 <= i < |draws| && now >= FallbackWindow
    requires prev == Candidates(t, draws[..i], regionCode, speciesCode, start, end, now)
    ensures ValidDraw(t, draws[i])
    ensures var d := draws[i];
      var date := CandidateDate(d.dateFraction, WindowStart(start, now), WindowEnd(end, now));
      Candidates(t, draws[..i + 1], regionCode, speciesCode, start, end, now)
        == if !(speciesCode.Some? && speciesCode.value != "" && t.birds[d.bird].speciesCode != speciesCode.value)
              && !(start.Some? && date < start.value)
              && !(end.Some? && date > end.value)
           then prev + [GeneratedObservation(t, d, regionCode, date)]
           else prev
  {
    CollectPrefixStep(draws, i, CandidateMaker(t, regionCode, speciesCode, start, end, now));
    CandidateStep(t, draws[i], regionCode, speciesCode, start, end, now);
  }

  /** The sighting added when the filters leave nothing: the first species
      at the first site, one day before now, regardless of the filters. */
  function ForcedObservation(t: Tables, regionCode: string, now: Instant): BirdObservation
    requires |t.birds| > 0 && |t.locations| > 0 && now >= TicksPerDay
  {
    var b := t.birds[0];
    var loc := t.locations[0];
    BirdObservation(b.speciesCode, b.commonName, b.scientificName, loc.lat, loc.lng,
                    now - TicksPerDay, 5, loc.name, regionCode, "observer1", true, true, "check1001")
  }

  /** The observation list of the fallback answer, before ordering. */
  function FallbackList(t: Tables, draws: seq<Draw>, regionCode: string, speciesCode: Option<string>,
                        start: Option<Instant>, end: Option<Instant>, now: Instant): (r: seq<BirdObservation>)
    requires |t.birds| > 0 && |t.locations| > 0 && now >= FallbackWindow
    ensures |r| > 0
  {
    var kept := Candidates(t, draws, regionCode, speciesCode, start, end, now);
    if kept == [] then [ForcedObservation(t, regionCode, now)] else kept
  }

  /** The catalog entry of a listed observation: its code and names, and
      the family and order of the first table bird with its code. */
  function FallbackSpecies(t: Tables, o: BirdObservation): BirdSpecies {
    var b := FirstBirdWithCode(t.birds, o.speciesCode);
    // Every listed code is a table code (FallbackListFromTable), so the lookup succeeds.
    var family := if b.Some? then b.value.family else "";
    var order := if b.Some? then b.value.order else "";
    BirdSpecies(o.speciesCode, o.commonName, o.scientificName, family, order)
  }

  function FallbackSpeciesEntries(t: Tables, list: seq<BirdObservation>): (r: seq<BirdSpecies>)
    ensures |r| == |list|
    ensures forall k :: 0 <= k < |r| ==> r[k] == FallbackSpecies(t, list[k])
  {
    seq(|list|, k requires 0 <= k < |list| => FallbackSpecies(t, list[k]))
  }

  /** The fallback answer: the kept candidates (or the forced sighting)
      oldest first, one catalog entry per species in order of first
      sighting, and the list's own date range, from the first listed date
      to the last. */
  function FallbackResponse(t: Tables, draws: seq<Draw>, regionCode: string, speciesCode: Option<string>,
                            start: Option<Instant>, end: Option<Instant>, now: Instant): (r: BirdMigrationResponse)
    requires |t.birds| > 0 && |t.locations| > 0 && now >= FallbackWindow
    ensures |r.observations| >= 1 && r.totalObservations == |r.observations|
    ensures multiset(r.observations) == multiset(FallbackList(t, draws, regionCode, speciesCode, start, end, now))
    ensures SortedBy(r.observations, ObservationDateOf)
    ensures r.startDate == r.observations[0].observationDate
    ensures r.endDate == r.observations[|r.observations| - 1].observationDate
    ensures DistinctCodes(r.species) && r.totalSpecies == |r.species|
    ensures r.regionCode == regionCode && r.lastUpdated == now
  {
    var list := FallbackList(t, draws, regionCode, speciesCode, start, end, now);
    var catalog := FirstSeen(FallbackSpeciesEntries(t, list));
    SortedRange(list, OrderBy(list, ObservationDateOf));
    FirstSeenDistinct(FallbackSpeciesEntries(t, list));
    BirdMigrationResponse(OrderBy(list, ObservationDateOf), catalog, Earliest(list), Latest(list),
                          regionCode, |list|, |catalog|, now)
  }

  // ---------------------------------------------------------------------
  // Properties
  // ---------------------------------------------------------------------

  /** The observation's code is a table code, and its names are those of
      the table bird with that code. */
  predicate TableBird(birds: seq<Bird>, o: BirdObservation) {
    var b := FirstBirdWithCode(birds, o.speciesCode);
    b.Some? && b.value.commonName == o.commonName && b.value.scientificName == o.scientificName
  }

  /** What every generated sighting carries: a table species, a count from
      1 to 50, the approved flag and the queried region. */
  predicate FallbackRecord(t: Tables, o: BirdObservation, regionCode: string) {
    TableBird(t.birds, o) && 1 <= o.count <= 50 && o.approved && o.regionCode == regionCode
  }

  /** The species filter and both date bounds hold. */
  predicate PassesFilters(o: BirdObservation, speciesCode: Option<string>, start: Option<Instant>, end: Option<Instant>) {
    (speciesCode.None? || speciesCode.value == "" || o.speciesCode == speciesCode.value)
    && WithinBounds(o, start, end)
  }

  /** A kept iteration yields a sighting that passes the filters. */
  lemma CandidateFacts(t: Tables, d: Draw, regionCode: string, speciesCode: Option<string>,
                       start: Option<Instant>, end: Option<Instant>, now: Instant)
    requires UniqueCodes(t.birds) && now >= FallbackWindow
    ensures var c := Candidate(t, d, regionCode, speciesCode, start, end, now);
      c.Some? ==> FallbackRecord(t, c.value, regionCode) && PassesFilters(c.value, speciesCode, start, end)
  {
    var c := Candidate(t, d, regionCode, speciesCode, start, end, now);
    if c.Some? {
      LookupFindsBird(t.birds, d.bird);
    }
  }

  /** Every kept candidate passes both filters and is a fallback record. */
  lemma CandidatesFiltered(t: Tables, draws: seq<Draw>, regionCode: string, speciesCode: Option<string>,
                           start: Option<Instant>, end: Option<Instant>, now: Instant)
    requires UniqueCodes(t.birds) && now >= FallbackWindow
    ensures var r := Candidates(t, draws, regionCode, speciesCode, start, end, now);
      forall k :: 0 <= k < |r| ==> FallbackRecord(t, r[k], regionCode) && PassesFilters(r[k], speciesCode, start, end)
  {
    var f := d => Candidate(t, d, regionCode, speciesCode, start, end, now);
    var r := Candidates(t, draws, regionCode, speciesCode, start, end, now);
    CollectElements(draws, f);
    forall k | 0 <= k < |r|
      ensures FallbackRecord(t, r[k], regionCode) && PassesFilters(r[k], speciesCode, start, end)
    {
      assert Yields(draws, f, r[k]);
      var d :| d in draws && f(d) == Some(r[k]);
      CandidateFacts(t, d, regionCode, speciesCode, start, end, now);
    }
  }

  /** Every iteration that passes the filters is kept. */
  lemma CandidatesComplete(t: Tables, draws: seq<Draw>, regionCode: string, speciesCode: Option<string>,
                           start: Option<Instant>, end: Option<Instant>, now: Instant, d: Draw)
    requires now >= FallbackWindow && d in draws && ValidDraw(t, d)
    requires SpeciesAdmits(speciesCode, t.birds[d.bird])
    requires WithinBounds(GeneratedObservation(t, d, regionCode,
               CandidateDate(d.dateFraction, WindowStart(start, now), WindowEnd(end, now))), start, end)
    ensures GeneratedObservation(t, d, regionCode,
              CandidateDate(d.dateFraction, WindowStart(start, now), WindowEnd(end, now)))
            in Candidates(t, draws, regionCode, speciesCode, start, end, now)
  {
    CollectElements(draws, d => Candidate(t, d, regionCode, speciesCode, start, end, now));
  }

  /** The answer is never longer than the number of iterations; when the
      filters keep nothing it is exactly the forced sighting, which need not
      satisfy them. */
  lemma FallbackSize(t: Tables, draws: seq<Draw>, regionCode: string, speciesCode: Option<string>,
                     start: Option<Instant>, end: Option<Instant>, now: Instant)
    requires |t.birds| > 0 && |t.locations| > 0 && now >= FallbackWindow && |draws| <= 30
    ensures var r := FallbackResponse(t, draws, regionCode, speciesCode, start, end, now);
      && |r.observations| <= 30
      && (Candidates(t, draws, regionCode, speciesCode, start, end, now) == [] ==>
            r.observations == [ForcedObservation(t, regionCode, now)])
  {
  }

  /** Every listed observation is of a table species under that species' names. */
  lemma FallbackListFromTable(t: Tables, draws: seq<Draw>, regionCode: string, speciesCode: Option<string>,
                              start: Option<Instant>, end: Option<Instant>, now: Instant)
    requires ValidTables(t) && now >= FallbackWindow
    ensures var list := FallbackList(t, draws, regionCode, speciesCode, start, end, now);
      forall k :: 0 <= k < |list| ==> TableBird(t.birds, list[k])
  {
    CandidatesFiltered(t, draws, regionCode, speciesCode, start, end, now);
    if Candidates(t, draws, regionCode, speciesCode, start, end, now) == [] {
      LookupFindsBird(t.birds, 0);
    }
  }

  function BirdOfSpecies(s: BirdSpecies): Bird {
    Bird(s.speciesCode, s.commonName, s.scientificName, s.family, s.order)
  }

  /** The catalog has one entry per species listed, and each entry is a
      table row: the species' names, family and order. */
  lemma FallbackCatalog(t: Tables, draws: seq<Draw>, regionCode: string, speciesCode: Option<string>,
                        start: Option<Instant>, end: Option<Instant>, now: Instant)
    requires ValidTables(t) && now >= FallbackWindow
    ensures var r := FallbackResponse(t, draws, regionCode, speciesCode, start, end, now);
      && r.totalSpecies == |r.species| == |set o | o in r.observations :: o.speciesCode|
      && (forall k :: 0 <= k < |r.species| ==> BirdOfSpecies(r.species[k]) in t.birds)
  {
    var list := FallbackList(t, draws, regionCode, speciesCode, start, end, now);
    var entries := FallbackSpeciesEntries(t, list);
    var r := FallbackResponse(t, draws, regionCode, speciesCode, start, end, now);
    CatalogCountsDistinctCodes(entries);
    SameCodes(list, r.observations, entries);
    FallbackListFromTable(t, draws, regionCode, speciesCode, start, end, now);
    FirstSeenFrom(entries);
    forall k | 0 <= k < |r.species| ensures BirdOfSpecies(r.species[k]) in t.birds {
      var j :| 0 <= j < |entries| && entries[j] == r.species[k];
      assert TableBird(t.birds, list[j]);
    }
  }

  /** A reordered list and the catalog entries of the original carry the same codes. */
  lemma SameCodes(list: seq<BirdObservation>, sorted: seq<BirdObservation>, entries: seq<BirdSpecies>)
    requires multiset(sorted) == multiset(list)
    requires |entries| == |list| && forall k :: 0 <= k < |list| ==> entries[k].speciesCode == list[k].speciesCode
    ensures (set e | e in entries :: e.speciesCode) == (set o | o in sorted :: o.speciesCode)
  {
    var a := set e | e in entries :: e.speciesCode;
    var b := set o | o in sorted :: o.speciesCode;
    forall c | c in a ensures c in b {
      var e :| e in entries && e.speciesCode == c;
      var k :| 0 <= k < |entries| && entries[k] == e;
      assert list[k] in multiset(sorted);
    }
    forall c | c in b ensures c in a {
      var o :| o in sorted && o.speciesCode == c;
      assert o in multiset(list);
      var k :| 0 <= k < |list| && list[k] == o;
      assert entries[k] in entries;
    }
  }

  // ---------------------------------------------------------------------
  // The generator
  // ---------------------------------------------------------------------

  /** `GetFallbackObservations`: one iteration per draw, each kept unless a
      filter skips it, the forced sighting when none is kept, then ordering
      and the catalog. The source's method reads its own static lists; here
      they are the argument `t`, which the service sets to `Alberta`. */
  method GetFallbackObservations(t: Tables, regionCode: string, speciesCode: Option<string>,
                                 start: Option<Instant>, end: Option<Instant>, now: Instant,
                                 draws: seq<Draw>)
    returns (r: BirdMigrationResponse)
    requires |t.birds| > 0 && |t.locations| > 0 && ValidDraws(t, draws) && now >= FallbackWindow
    ensures r == FallbackResponse(t, draws, regionCode, speciesCode, start, end, now)
  {
    var observations := GenerateCandidates(t, regionCode, speciesCode, start, end, now, draws);
    if |observations| == 0 {
      observations := [ForcedObservation(t, regionCode, now)];
    }
    var species := FirstSeen(FallbackSpeciesEntries(t, observations));
    r := BirdMigrationResponse(OrderBy(observations, ObservationDateOf), species,
                               Earliest(observations), Latest(observations),
                               regionCode, |observations|, |species|, now);
  }

  /** The generating loop of `GetFallbackObservations`: per draw, the
      species, the date within the window, the three filters, and the
      observation appended when none of them skips it. */
  method GenerateCandidates(t: Tables, regionCode: string, speciesCode: Option<string>,
                            start: Option<Instant>, end: Option<Instant>, now: Instant,
                            draws: seq<Draw>)
    returns (observations: seq<BirdObservation>)
    requires ValidDraws(t, draws) && now >= FallbackWindow
    ensures observations == Candidates(t, draws, regionCode, speciesCode, start, end, now)
  {
    var startValue := if start.Some? then start.value else now - FallbackWindow;
    var endValue := if end.Some? then end.value else now;
    assert startValue == WindowStart(start, now) && endValue == WindowEnd(end, now);
    observations := [];
    var i := 0;
    while i < |draws|
      invariant 0 <= i <= |draws|
      invariant observations == Candidates(t, draws[..i], regionCode, speciesCode, start, end, now)
    {
      GenerateStep(t, draws, i, regionCode, speciesCode, start, end, now, observations);
      var d := draws[i];
      var bird := t.birds[d.bird];
      var observationDate := CandidateDate(d.dateFraction, startValue, endValue);
      if !(speciesCode.Some? && speciesCode.value != "" && bird.speciesCode != speciesCode.value)
         && !(start.Some? && observationDate < start.value)
         && !(end.Some? && observationDate > end.value)
      {
        observations := observations + [GeneratedObservation(t, d, regionCode, observationDate)];
      }
      i := i + 1;
    }
    assert draws[..i] == draws;
  }
}
