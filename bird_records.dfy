/** Normalising eBird's loosely-typed observation records into
    `BirdObservation`s, building the first-seen-wins species catalog, and
    deriving the date-filtered, newest-first observation view. */
module BirdRecords {
  import opened Wrappers
  import opened Calendar
  import opened Sequences
  import opened Models

  // ---------------------------------------------------------------------
  // Raw records
  // ---------------------------------------------------------------------

  /** A JSON field that goes through a conversion: absent, present and
      convertible, or present and rejected by the conversion (which throws). */
  datatype Field<T> = Missing | Given(value: T) | Invalid {
    /** The converted value, or `default` when absent. */
    function Or(default: T): T {
      match this
      case Given(v) => v
      case _ => default
    }
  }

  /** One element of the JSON array eBird returns, as the processing code
      means to read it: text fields through `ToString()`, the others through
      a conversion that may throw. The code as written never gets this far
      (see `ProcessedAsWritten`). */
  datatype RawObservation = RawObservation(
    speciesCode: Option<string>,
    comName: Option<string>,
    sciName: Option<string>,
    lat: Field<real>,
    lng: Field<real>,
    obsDt: Field<Instant>,
    howMany: Field<int>,
    locName: Option<string>,
    obsId: Option<string>,
    hasMedia: Field<bool>,
    approved: Field<bool>,
    subId: Option<string>,
    family: Option<string>,
    order: Option<string>)

  /** Some conversion of the record throws, so the record is skipped. */
  predicate ConversionFails(raw: RawObservation) {
    raw.lat.Invalid? || raw.lng.Invalid? || raw.obsDt.Invalid? || raw.howMany.Invalid?
    || raw.hasMedia.Invalid? || raw.approved.Invalid?
  }

  /** A converted record: the observation and the catalog entry it proposes. */
  datatype Normalized = Normalized(observation: BirdObservation, species: BirdSpecies)

  /** Converts one raw record, or fails when one of its conversions throws.
      Absent text is empty, an absent date is `now` to the whole second, an absent count is 1, an
      absent flag is false, and the region is always the queried one. */
  function Normalize(raw: RawObservation, regionCode: string, now: Instant): (r: Option<Normalized>)
    ensures r.None? <==> ConversionFails(raw)
    ensures r.Some? ==> r.value.observation.regionCode == regionCode
    ensures r.Some? ==> SpeciesMatches(r.value)
  {
    if ConversionFails(raw) then None
    else
      var o := BirdObservation(
        raw.speciesCode.GetOr(""), raw.comName.GetOr(""), raw.sciName.GetOr(""),
        raw.lat.Or(0.0), raw.lng.Or(0.0), raw.obsDt.Or(WholeSeconds(now)), raw.howMany.Or(1),
        raw.locName.GetOr(""), regionCode, raw.obsId.GetOr(""),
        raw.hasMedia.Or(false), raw.approved.Or(false), raw.subId.GetOr(""));
      Some(Normalized(o, BirdSpecies(o.speciesCode, o.commonName, o.scientificName,
                                     raw.family.GetOr(""), raw.order.GetOr(""))))
  }

  /** The catalog entry carries the observation's own code and names. */
  predicate SpeciesMatches(n: Normalized) {
    && n.species.speciesCode == n.observation.speciesCode
    && n.species.commonName == n.observation.commonName
    && n.species.scientificName == n.observation.scientificName
  }

  /** The text a record gives for a field, or "" when it is absent. */
  predicate TextOf(field: Option<string>, text: string) {
    && (field.None? ==> text == "")
    && (field.Some? ==> text == field.value)
  }

  /** The per-field defaults of a record that converts: every given value
      is kept, and each absent one takes its default. */
  lemma NormalizedFields(raw: RawObservation, regionCode: string, now: Instant)
    requires !ConversionFails(raw)
    ensures var n := Normalize(raw, regionCode, now).value;
      var o := n.observation;
      && TextOf(raw.speciesCode, o.speciesCode)
      && TextOf(raw.comName, o.commonName)
      && TextOf(raw.sciName, o.scientificName)
      && TextOf(raw.locName, o.locationName)
      && TextOf(raw.obsId, o.observerId)
      && TextOf(raw.subId, o.checklistId)
      && TextOf(raw.family, n.species.family)
      && TextOf(raw.order, n.species.order)
      && (raw.obsDt.Missing? ==> o.observationDate == WholeSeconds(now))
      && (raw.obsDt.Given? ==> o.observationDate == raw.obsDt.value)
      && (raw.howMany.Missing? ==> o.count == 1)
      && (raw.howMany.Given? ==> o.count == raw.howMany.value)
      && (raw.lat.Missing? ==> o.latitude == 0.0)
      && (raw.lat.Given? ==> o.latitude == raw.lat.value)
      && (raw.lng.Missing? ==> o.longitude == 0.0)
      && (raw.lng.Given? ==> o.longitude == raw.lng.value)
      && o.hasMedia == (raw.hasMedia.Given? && raw.hasMedia.value)
      && o.approved == (raw.approved.Given? && raw.approved.value)
      && o.regionCode == regionCode
  {
  }

  /** Number of records that a conversion rejects. */
  function FailingCount(raws: seq<RawObservation>): nat
  {
    if raws == [] then 0
    else FailingCount(raws[..|raws| - 1]) + (if ConversionFails(raws[|raws| - 1]) then 1 else 0)
  }

  /** The converted records, in input order, each failing record skipped on
      its own: one bad record costs that record and no other. */
  function ParseAll(raws: seq<RawObservation>, regionCode: string, now: Instant): (r: seq<Normalized>)
    ensures |r| + FailingCount(raws) == |raws|
    ensures forall k :: 0 <= k < |r| ==> r[k].observation.regionCode == regionCode && SpeciesMatches(r[k])
  {
    if raws == [] then []
    else
      var prev := ParseAll(raws[..|raws| - 1], regionCode, now);
      match Normalize(raws[|raws| - 1], regionCode, now)
      case None => prev
      case Some(n) => prev + [n]
  }

  function ObservationsOf(parsed: seq<Normalized>): (r: seq<BirdObservation>)
    ensures |r| == |parsed|
    ensures forall k :: 0 <= k < |r| ==> r[k] == parsed[k].observation
  {
    seq(|parsed|, k requires 0 <= k < |parsed| => parsed[k].observation)
  }

  function SpeciesEntriesOf(parsed: seq<Normalized>): (r: seq<BirdSpecies>)
    ensures |r| == |parsed|
    ensures forall k :: 0 <= k < |r| ==> r[k] == parsed[k].species
  {
    seq(|parsed|, k requires 0 <= k < |parsed| => parsed[k].species)
  }

  // ---------------------------------------------------------------------
  // Species catalog
  // ---------------------------------------------------------------------

  function CodesOf(s: seq<BirdSpecies>): (r: seq<string>)
    ensures |r| == |s|
    ensures forall k :: 0 <= k < |s| ==> r[k] == s[k].speciesCode
  {
    seq(|s|, k requires 0 <= k < |s| => s[k].speciesCode)
  }

  /** No entry at an index before i has the code of entry i. */
  predicate FirstOfItsCode(entries: seq<BirdSpecies>, i: int)
    requires 0 <= i < |entries|
  {
    forall j :: 0 <= j < i ==> entries[j].speciesCode != entries[i].speciesCode
  }

  /** The catalog the species dictionary ends up holding, in insertion order:
      an entry is added when its code is not yet present. */
  function FirstSeen(entries: seq<BirdSpecies>): seq<BirdSpecies>
  {
    if entries == [] then []
    else
      var prev := FirstSeen(entries[..|entries| - 1]);
      var e := entries[|entries| - 1];
      if e.speciesCode in CodesOf(prev) then prev else prev + [e]
  }

  lemma FirstSeenStep(entries: seq<BirdSpecies>, e: BirdSpecies)
    ensures FirstSeen(entries + [e])
         == if e.speciesCode in CodesOf(FirstSeen(entries)) then FirstSeen(entries) else FirstSeen(entries) + [e]
  {
    assert (entries + [e])[..|entries|] == entries;
  }

  /** No code is catalogued twice. */
  predicate DistinctCodes(catalog: seq<BirdSpecies>) {
    forall i, j :: 0 <= i < j < |catalog| ==> catalog[i].speciesCode != catalog[j].speciesCode
  }

  lemma {:induction false} FirstSeenDistinct(entries: seq<BirdSpecies>)
    ensures DistinctCodes(FirstSeen(entries))
  {
    if entries != [] {
      var init, e := entries[..|entries| - 1], entries[|entries| - 1];
      assert entries == init + [e];
      FirstSeenDistinct(init);
      FirstSeenStep(init, e);
      var prev := FirstSeen(init);
      var r := FirstSeen(entries);
      if e.speciesCode !in CodesOf(prev) {
        forall i, j | 0 <= i < j < |r| ensures r[i].speciesCode != r[j].speciesCode {
          if j == |prev| {
            assert CodesOf(prev)[i] == r[i].speciesCode;
          }
        }
      }
    }
  }

  /** Every catalog entry is one of the proposed entries. */
  lemma {:induction false} FirstSeenFrom(entries: seq<BirdSpecies>)
    ensures var r := FirstSeen(entries);
      forall k :: 0 <= k < |r| ==> r[k] in entries
  {
    if entries != [] {
      var init, e := entries[..|entries| - 1], entries[|entries| - 1];
      assert entries == init + [e];
      FirstSeenFrom(init);
      FirstSeenStep(init, e);
    }
  }

  /** Every proposed code is catalogued. */
  lemma {:induction false} FirstSeenCovers(entries: seq<BirdSpecies>)
    ensures var r := FirstSeen(entries);
      forall i :: 0 <= i < |entries| ==> entries[i].speciesCode in CodesOf(r)
  {
    if entries != [] {
      var init, e := entries[..|entries| - 1], entries[|entries| - 1];
      assert entries == init + [e];
      FirstSeenCovers(init);
      FirstSeenStep(init, e);
      var prev := FirstSeen(init);
      var r := FirstSeen(entries);
      forall i | 0 <= i < |entries| ensures entries[i].speciesCode in CodesOf(r) {
        if i < |init| {
          assert entries[i] == init[i];
          var k :| 0 <= k < |prev| && CodesOf(prev)[k] == init[i].speciesCode;
          assert CodesOf(r)[k] == init[i].speciesCode;
        } else if e.speciesCode !in CodesOf(prev) {
          assert CodesOf(r)[|prev|] == e.speciesCode;
        }
      }
    }
  }

  /** For each code, the entry proposed first is the one catalogued. */
  lemma {:induction false} FirstSeenWins(entries: seq<BirdSpecies>)
    ensures var r := FirstSeen(entries);
      forall i :: 0 <= i < |entries| && FirstOfItsCode(entries, i) ==> entries[i] in r
  {
    if entries != [] {
      var init, e := entries[..|entries| - 1], entries[|entries| - 1];
      assert entries == init + [e];
      FirstSeenWins(init);
      FirstSeenStep(init, e);
      FirstSeenFrom(init);
      var prev := FirstSeen(init);
      forall i | 0 <= i < |init| && FirstOfItsCode(entries, i) ensures FirstOfItsCode(init, i) {
        assert forall j :: 0 <= j < i ==> entries[j] == init[j];
      }
      if e.speciesCode in CodesOf(prev) {
        assert !FirstOfItsCode(entries, |init|) by {
          var k :| 0 <= k < |prev| && CodesOf(prev)[k] == e.speciesCode;
          var j :| 0 <= j < |init| && init[j] == prev[k];
          assert entries[j].speciesCode == e.speciesCode;
        }
      }
    }
  }

  /** `TotalSpecies`: the catalog has exactly as many entries as there are
      distinct codes among the entries. */
  lemma CatalogCountsDistinctCodes(entries: seq<BirdSpecies>)
    ensures |FirstSeen(entries)| == |set e | e in entries :: e.speciesCode|
  {
    var r := FirstSeen(entries);
    FirstSeenDistinct(entries);
    FirstSeenFrom(entries);
    FirstSeenCovers(entries);
    var codes := set e | e in entries :: e.speciesCode;
    var rcodes := set k | 0 <= k < |r| :: r[k].speciesCode;
    assert rcodes == codes by {
      forall c | c in codes ensures c in rcodes {
        var e :| e in entries && e.speciesCode == c;
        var i :| 0 <= i < |entries| && entries[i] == e;
        var k :| 0 <= k < |r| && CodesOf(r)[k] == c;
      }
      forall c | c in rcodes ensures c in codes {
        var k :| 0 <= k < |r| && r[k].speciesCode == c;
        assert r[k] in entries;
      }
    }
    DistinctCodesCount(r);
  }

  lemma {:induction false} DistinctCodesCount(r: seq<BirdSpecies>)
    requires forall i, j :: 0 <= i < j < |r| ==> r[i].speciesCode != r[j].speciesCode
    ensures |set k | 0 <= k < |r| :: r[k].speciesCode| == |r|
  {
    if r != [] {
      var init := r[..|r| - 1];
      DistinctCodesCount(init);
      var s0 := set k | 0 <= k < |init| :: init[k].speciesCode;
      var s1 := set k | 0 <= k < |r| :: r[k].speciesCode;
      assert s1 == s0 + {r[|r| - 1].speciesCode};
      assert r[|r| - 1].speciesCode !in s0;
    }
  }

  // ---------------------------------------------------------------------
  // Date filter and the observation view
  // ---------------------------------------------------------------------

  function OnOrAfter(start: Instant): BirdObservation -> bool {
    (o: BirdObservation) => o.observationDate >= start
  }

  function OnOrBefore(end: Instant): BirdObservation -> bool {
    (o: BirdObservation) => o.observationDate <= end
  }

  /** Both given bounds hold, inclusively. */
  predicate WithinBounds(o: BirdObservation, start: Option<Instant>, end: Option<Instant>) {
    (start.None? || start.value <= o.observationDate) && (end.None? || o.observationDate <= end.value)
  }

  /** The start filter followed by the end filter, each applied when its bound is given. */
  function DateFiltered(obs: seq<BirdObservation>, start: Option<Instant>, end: Option<Instant>): seq<BirdObservation>
  {
    var afterStart := if start.Some? then Filter(obs, OnOrAfter(start.value)) else obs;
    if end.Some? then Filter(afterStart, OnOrBefore(end.value)) else afterStart
  }

  /** The two filters keep exactly the observations within both bounds,
      inclusive at both ends, each as often as it occurs. */
  lemma DateFilterInclusive(obs: seq<BirdObservation>, start: Option<Instant>, end: Option<Instant>)
    ensures var r := DateFiltered(obs, start, end);
      && (forall k :: 0 <= k < |r| ==> WithinBounds(r[k], start, end))
      && (forall o :: multiset(r)[o] == if WithinBounds(o, start, end) then multiset(obs)[o] else 0)
  {
    var afterStart := if start.Some? then Filter(obs, OnOrAfter(start.value)) else obs;
    var r := DateFiltered(obs, start, end);
    forall o: BirdObservation ensures multiset(afterStart)[o] == if start.None? || start.value <= o.observationDate then multiset(obs)[o] else 0 {
      if start.Some? { assert OnOrAfter(start.value)(o) == (start.value <= o.observationDate); }
    }
    forall o: BirdObservation ensures multiset(r)[o] == if WithinBounds(o, start, end) then multiset(obs)[o] else 0 {
      if end.Some? { assert OnOrBefore(end.value)(o) == (o.observationDate <= end.value); }
    }
    forall k | 0 <= k < |r| ensures WithinBounds(r[k], start, end) {
      assert r[k] in multiset(r);
    }
  }

  function DatesOf(obs: seq<BirdObservation>): (r: seq<int>)
    ensures |r| == |obs|
    ensures forall k :: 0 <= k < |r| ==> r[k] == obs[k].observationDate
  {
    seq(|obs|, k requires 0 <= k < |obs| => obs[k].observationDate)
  }

  /** The response built from the records, or None where it throws: `Min`
      or `Max` of an empty list when a bound is missing. Every observation
      it lists is of the requested region, newest first, and its catalog
      names no species twice. */
  function Processed(raws: seq<RawObservation>, regionCode: string,
                     start: Option<Instant>, end: Option<Instant>, now: Instant): (r: Option<BirdMigrationResponse>)
    ensures r.Some? ==>
      && (forall k :: 0 <= k < |r.value.observations| ==> r.value.observations[k].regionCode == regionCode)
      && SortedDescBy(r.value.observations, ObservationDateOf)
      && DistinctCodes(r.value.species)
      && r.value.totalObservations == |r.value.observations|
      && r.value.totalSpecies == |r.value.species|
  {
    var parsed := ParseAll(raws, regionCode, now);
    var observations := ObservationsOf(parsed);
    var catalog := FirstSeen(SpeciesEntriesOf(parsed));
    FirstSeenDistinct(SpeciesEntriesOf(parsed));
    SummarizedRegion(observations, catalog, regionCode, start, end, now);
    Summarized(observations, catalog, regionCode, start, end, now)
  }

  /** `ProcessObservations` as the code is written. The records come from
      `JsonSerializer.Deserialize<List<dynamic>>` of System.Text.Json, so
      each one is a `JsonElement`, which has no string indexer: the first
      `obs["speciesCode"]` throws, the catch skips the record, and so every
      record is skipped. What remains is the tail over an empty list: `Min`
      throws without both bounds, and with both the answer is empty. */
  function ProcessedAsWritten(raws: seq<RawObservation>, regionCode: string,
                              start: Option<Instant>, end: Option<Instant>, now: Instant): (r: Option<BirdMigrationResponse>)
    ensures start.None? || end.None? ==> r.None?
    ensures start.Some? && end.Some? ==>
      r == Some(BirdMigrationResponse([], [], start.value, end.value, regionCode, 0, 0, now))
  {
    DateFilterInclusive([], start, end);
    Summarized([], [], regionCode, start, end, now)
  }

  /** A record with every field given, from an answer that eBird did send.
      Its date is one day after the epoch. */
  const SampleRecord := RawObservation(
    Some("amecro"), Some("American Crow"), Some("Corvus brachyrhynchos"), Given(53.5), Given(-113.5),
    Given(TicksPerDay), Given(2), Some("Edmonton"), Some("obsr1"), Given(false), Given(true), Some("S1"),
    Some("Corvidae"), Some("Passeriformes"))

  /** The discrepancy on one input: without date bounds the intended
      processing lists the one valid record, while the code as written
      lists nothing and fails, so the service answers with generated
      observations although eBird answered. */
  lemma AsWrittenLosesRecord(now: Instant)
    ensures var r := Processed([SampleRecord], "CA-AB", None, None, now);
      r.Some? && r.value.totalObservations == 1
    ensures ProcessedAsWritten([SampleRecord], "CA-AB", None, None, now).None?
  {
    var raws := [SampleRecord];
    assert raws[..0] == [];
    assert FailingCount(raws) == 0;
    var parsed := ParseAll(raws, "CA-AB", now);
    var observations := ObservationsOf(parsed);
    assert |observations| == 1;
    var catalog := FirstSeen(SpeciesEntriesOf(parsed));
    SummarizedFails(observations, catalog, "CA-AB", None, None, now);
    assert WithinBounds(observations[0], None, None);
    var r := Summarized(observations, catalog, "CA-AB", None, None, now);
    assert multiset(r.value.observations) == multiset(observations);
    assert |r.value.observations| == |multiset(observations)| == 1;
  }

  /** The LINQ tail of `ProcessObservations`: filter the observations by
      date, order them newest first, and assemble the response. It lists
      every observation within the bounds, as often as it occurs and newest
      first, and counts its list and its catalog. */
  function Summarized(observations: seq<BirdObservation>, catalog: seq<BirdSpecies>, regionCode: string,
                      start: Option<Instant>, end: Option<Instant>, now: Instant): (r: Option<BirdMigrationResponse>)
    ensures r.Some? ==>
      && (forall o :: multiset(r.value.observations)[o]
                      == if WithinBounds(o, start, end) then multiset(observations)[o] else 0)
      && SortedDescBy(r.value.observations, ObservationDateOf)
      && r.value.species == catalog
      && r.value.totalObservations == |r.value.observations|
      && r.value.totalSpecies == |catalog|
      && r.value.regionCode == regionCode
      && r.value.lastUpdated == now
  {
    var kept := DateFiltered(observations, start, end);
    DateFilterInclusive(observations, start, end);
    if kept == [] && (start.None? || end.None?) then None
    else
      Some(BirdMigrationResponse(
        OrderByDescending(kept, ObservationDateOf),
        catalog,
        if start.Some? then start.value else Earliest(kept),
        if end.Some? then end.value else Latest(kept),
        regionCode, |kept|, |catalog|, now))
  }

  /** The response lists only observations it was given, so a property
      they all share carries over; here, their region. */
  lemma SummarizedRegion(observations: seq<BirdObservation>, catalog: seq<BirdSpecies>, regionCode: string,
                         start: Option<Instant>, end: Option<Instant>, now: Instant)
    requires forall k :: 0 <= k < |observations| ==> observations[k].regionCode == regionCode
    ensures var r := Summarized(observations, catalog, regionCode, start, end, now);
      r.Some? ==> forall k :: 0 <= k < |r.value.observations| ==> r.value.observations[k].regionCode == regionCode
  {
    var r := Summarized(observations, catalog, regionCode, start, end, now);
    if r.Some? {
      forall k | 0 <= k < |r.value.observations| ensures r.value.observations[k].regionCode == regionCode {
        var o := r.value.observations[k];
        assert o in multiset(r.value.observations);
        assert o in multiset(observations);
      }
    }
  }

  /** LINQ `Min` of the observation dates. */
  function Earliest(obs: seq<BirdObservation>): (t: Instant)
    requires |obs| > 0
    ensures forall k :: 0 <= k < |obs| ==> t <= obs[k].observationDate
    ensures exists k :: 0 <= k < |obs| && t == obs[k].observationDate
  {
    var m := MinOf(DatesOf(obs));
    assert m in DatesOf(obs);
    assert forall k :: 0 <= k < |obs| ==> DatesOf(obs)[k] in DatesOf(obs);
    assert exists k :: 0 <= k < |obs| && DatesOf(obs)[k] == m;
    m
  }

  /** LINQ `Max` of the observation dates. */
  function Latest(obs: seq<BirdObservation>): (t: Instant)
    requires |obs| > 0
    ensures forall k :: 0 <= k < |obs| ==> obs[k].observationDate <= t
    ensures exists k :: 0 <= k < |obs| && t == obs[k].observationDate
  {
    var m := MaxOf(DatesOf(obs));
    assert m in DatesOf(obs);
    assert forall k :: 0 <= k < |obs| ==> DatesOf(obs)[k] in DatesOf(obs);
    assert exists k :: 0 <= k < |obs| && DatesOf(obs)[k] == m;
    m
  }

  /** The response fails exactly when nothing survives the filter and a
      bound is missing. */
  lemma SummarizedFails(observations: seq<BirdObservation>, catalog: seq<BirdSpecies>, regionCode: string,
                        start: Option<Instant>, end: Option<Instant>, now: Instant)
    ensures Summarized(observations, catalog, regionCode, start, end, now).None?
        <==> (start.None? || end.None?) && forall k :: 0 <= k < |observations| ==> !WithinBounds(observations[k], start, end)
  {
    var kept := DateFiltered(observations, start, end);
    DateFilterInclusive(observations, start, end);
    if kept == [] {
      forall k | 0 <= k < |observations| ensures !WithinBounds(observations[k], start, end) {
        assert multiset(kept)[observations[k]] == 0;
      }
    } else {
      assert kept[0] in multiset(kept);
    }
  }

  /** The response reports the given bounds, or else the earliest and the
      latest date kept: every listed observation lies between the reported
      dates, and a reported date that no bound gave is a listed one. */
  lemma SummarizedRange(observations: seq<BirdObservation>, catalog: seq<BirdSpecies>, regionCode: string,
                        start: Option<Instant>, end: Option<Instant>, now: Instant)
    ensures var r := Summarized(observations, catalog, regionCode, start, end, now);
      r.Some? ==>
        && (start.Some? ==> r.value.startDate == start.value)
        && (end.Some? ==> r.value.endDate == end.value)
        && (forall k :: 0 <= k < |r.value.observations| ==>
              r.value.startDate <= r.value.observations[k].observationDate <= r.value.endDate)
        && (start.None? ==> exists k :: 0 <= k < |r.value.observations| && r.value.startDate == r.value.observations[k].observationDate)
        && (end.None? ==> exists k :: 0 <= k < |r.value.observations| && r.value.endDate == r.value.observations[k].observationDate)
  {
    var kept := DateFiltered(observations, start, end);
    if !(kept == [] && (start.None? || end.None?)) {
      var sorted := OrderByDescending(kept, ObservationDateOf);
      var lo := if start.Some? then start.value else Earliest(kept);
      var hi := if end.Some? then end.value else Latest(kept);
      assert Summarized(observations, catalog, regionCode, start, end, now).value
          == BirdMigrationResponse(sorted, catalog, lo, hi, regionCode, |kept|, |catalog|, now);
      DateFilterInclusive(observations, start, end);
      KeptRange(kept, start, end);
      PermutationKeepsRange(kept, sorted, lo, hi);
      if start.None? {
        AttainedAfterReorder(kept, sorted, lo);
      }
      if end.None? {
        AttainedAfterReorder(kept, sorted, hi);
      }
    }
  }

  /** A date some observation has is still had by one after reordering. */
  lemma AttainedAfterReorder(a: seq<BirdObservation>, b: seq<BirdObservation>, t: int)
    requires multiset(a) == multiset(b)
    requires exists j :: 0 <= j < |a| && t == a[j].observationDate
    ensures exists k :: 0 <= k < |b| && t == b[k].observationDate
  {
    var j :| 0 <= j < |a| && t == a[j].observationDate;
    assert a[j] in multiset(b);
    var k :| 0 <= k < |b| && b[k] == a[j];
  }

  /** Observations within the bounds lie between the reported dates. */
  lemma KeptRange(kept: seq<BirdObservation>, start: Option<Instant>, end: Option<Instant>)
    requires forall k :: 0 <= k < |kept| ==> WithinBounds(kept[k], start, end)
    requires kept != [] || (start.Some? && end.Some?)
    ensures forall j :: 0 <= j < |kept| ==>
      (if start.Some? then start.value else Earliest(kept)) <= kept[j].observationDate
      <= (if end.Some? then end.value else Latest(kept))
  {
  }

  /** Reordering a list keeps its dates within a range. */
  lemma PermutationKeepsRange(a: seq<BirdObservation>, b: seq<BirdObservation>, lo: int, hi: int)
    requires multiset(a) == multiset(b)
    requires forall j :: 0 <= j < |a| ==> lo <= a[j].observationDate <= hi
    ensures forall k :: 0 <= k < |b| ==> lo <= b[k].observationDate <= hi
  {
    forall k | 0 <= k < |b| ensures lo <= b[k].observationDate <= hi {
      assert b[k] in multiset(a);
      var j :| 0 <= j < |a| && a[j] == b[k];
    }
  }

  /** Sorted oldest first, a list runs from its earliest date to its latest. */
  lemma SortedRange(list: seq<BirdObservation>, sorted: seq<BirdObservation>)
    requires |list| > 0 && multiset(sorted) == multiset(list) && SortedBy(sorted, ObservationDateOf)
    ensures Earliest(list) == sorted[0].observationDate
    ensures Latest(list) == sorted[|sorted| - 1].observationDate
  {
    SortedPermutationBounds(list, sorted, ObservationDateOf);
    var lo, hi := Earliest(list), Latest(list);
    assert lo in DatesOf(list) && hi in DatesOf(list);
    var a :| 0 <= a < |list| && DatesOf(list)[a] == lo;
    var b :| 0 <= b < |list| && DatesOf(list)[b] == hi;
    assert ObservationDateOf(sorted[0]) <= ObservationDateOf(list[a]);
    assert ObservationDateOf(list[b]) <= ObservationDateOf(sorted[|sorted| - 1]);
  }

  lemma ParseAllStep(raws: seq<RawObservation>, raw: RawObservation, regionCode: string, now: Instant)
    ensures ParseAll(raws + [raw], regionCode, now)
         == ParseAll(raws, regionCode, now)
            + match Normalize(raw, regionCode, now) case None => [] case Some(n) => [n]
  {
    assert (raws + [raw])[..|raws|] == raws;
  }

  /** The species dictionary and the order of its keys hold the catalog. */
  ghost predicate Registered(speciesMap: map<string, BirdSpecies>, insertionOrder: seq<string>, catalog: seq<BirdSpecies>) {
    && insertionOrder == CodesOf(catalog)
    && (forall c :: c in speciesMap <==> c in insertionOrder)
    && (forall k :: 0 <= k < |insertionOrder| ==> speciesMap[insertionOrder[k]] == catalog[k])
  }

  /** Adding an entry under a code not yet in the dictionary keeps it
      holding the first-seen catalog. */
  lemma RegisterStep(speciesMap: map<string, BirdSpecies>, insertionOrder: seq<string>,
                     entries: seq<BirdSpecies>, e: BirdSpecies)
    requires Registered(speciesMap, insertionOrder, FirstSeen(entries))
    ensures e.speciesCode !in speciesMap ==>
      Registered(speciesMap[e.speciesCode := e], insertionOrder + [e.speciesCode], FirstSeen(entries + [e]))
    ensures e.speciesCode in speciesMap ==>
      Registered(speciesMap, insertionOrder, FirstSeen(entries + [e]))
  {
    FirstSeenStep(entries, e);
    var prev := FirstSeen(entries);
    if e.speciesCode !in speciesMap {
      var m, ord := speciesMap[e.speciesCode := e], insertionOrder + [e.speciesCode];
      assert CodesOf(prev + [e]) == CodesOf(prev) + [e.speciesCode];
      forall k | 0 <= k < |ord| ensures m[ord[k]] == (prev + [e])[k] {
        if k < |insertionOrder| {
          assert ord[k] in insertionOrder;
          assert ord[k] != e.speciesCode;
        }
      }
    }
  }

  /** Reading the dictionary in key-insertion order gives the catalog back. */
  lemma RegisteredCatalog(speciesMap: map<string, BirdSpecies>, insertionOrder: seq<string>, catalog: seq<BirdSpecies>)
    requires Registered(speciesMap, insertionOrder, catalog)
    ensures seq(|insertionOrder|, k requires 0 <= k < |insertionOrder| => speciesMap[insertionOrder[k]]) == catalog
  {
  }

  lemma ProjectionsStep(parsed: seq<Normalized>, n: Normalized)
    ensures SpeciesEntriesOf(parsed + [n]) == SpeciesEntriesOf(parsed) + [n.species]
    ensures ObservationsOf(parsed + [n]) == ObservationsOf(parsed) + [n.observation]
  {
  }

  /** `ProcessObservations`: converts the records one at a time, appending
      each that converts to the observation list and registering its
      species in a dictionary under a code not seen before, then filters,
      orders and summarises. */
  method ProcessObservations(raws: seq<RawObservation>, regionCode: string,
                             start: Option<Instant>, end: Option<Instant>, now: Instant)
    returns (r: Option<BirdMigrationResponse>)
    ensures r == Processed(raws, regionCode, start, end, now)
  {
    var observations: seq<BirdObservation> := [];
    var speciesMap: map<string, BirdSpecies> := map[];
    var insertionOrder: seq<string> := [];
    ghost var parsed: seq<Normalized> := [];
    var i := 0;
    while i < |raws|
      invariant 0 <= i <= |raws|
      invariant parsed == ParseAll(raws[..i], regionCode, now)
      invariant observations == ObservationsOf(parsed)
      invariant Registered(speciesMap, insertionOrder, FirstSeen(SpeciesEntriesOf(parsed)))
    {
      assert raws[..i + 1] == raws[..i] + [raws[i]];
      ParseAllStep(raws[..i], raws[i], regionCode, now);
      match Normalize(raws[i], regionCode, now) {
        case None =>
        case Some(n) =>
          var o := n.observation;
          observations := observations + [o];
          ProjectionsStep(parsed, n);
          RegisterStep(speciesMap, insertionOrder, SpeciesEntriesOf(parsed), n.species);
          if o.speciesCode !in speciesMap {
            speciesMap := speciesMap[o.speciesCode := n.species];
            insertionOrder := insertionOrder + [o.speciesCode];
          }
          parsed := parsed + [n];
      }
      i := i + 1;
    }
    assert raws[..i] == raws;
    assert parsed == ParseAll(raws, regionCode, now);
    RegisteredCatalog(speciesMap, insertionOrder, FirstSeen(SpeciesEntriesOf(parsed)));
    var species := seq(|insertionOrder|, k requires 0 <= k < |insertionOrder| => speciesMap[insertionOrder[k]]);
    r := Summarized(observations, species, regionCode, start, end, now);
  }
}
