/** The records the services exchange with their callers (the backend's
    Models folder). Times are instants in ticks; `double` values are reals. */
module Models {
  import opened Calendar

  // ---------------------------------------------------------------------
  // Bird observations
  // ---------------------------------------------------------------------

  /** One sighting of one species. */
  datatype BirdObservation = BirdObservation(
    speciesCode: string,
    commonName: string,
    scientificName: string,
    latitude: real,
    longitude: real,
    observationDate: Instant,
    count: int,
    locationName: string,
    regionCode: string,
    observerId: string,
    hasMedia: bool,
    approved: bool,
    checklistId: string)

  /** Catalog entry for a species. */
  datatype BirdSpecies = BirdSpecies(
    speciesCode: string,
    commonName: string,
    scientificName: string,
    family: string,
    order: string)

  /** The observation-set view served for a query. */
  datatype BirdMigrationResponse = BirdMigrationResponse(
    observations: seq<BirdObservation>,
    species: seq<BirdSpecies>,
    startDate: Instant,
    endDate: Instant,
    regionCode: string,
    totalObservations: int,
    totalSpecies: int,
    lastUpdated: Instant)

  /** One point of a migration route. */
  datatype ObservationPoint = ObservationPoint(
    latitude: real,
    longitude: real,
    date: Instant,
    count: int,
    locationName: string)

  /** The sightings of one species in time order. */
  datatype MigrationRouteData = MigrationRouteData(
    speciesCode: string,
    commonName: string,
    points: seq<ObservationPoint>,
    firstObservation: Instant,
    lastObservation: Instant,
    totalCount: int)

  function ObservationDateOf(o: BirdObservation): int { o.observationDate }

  function PointDateOf(p: ObservationPoint): int { p.date }

  // ---------------------------------------------------------------------
  // Water stations
  // ---------------------------------------------------------------------

  /** The four-state vocabulary shared by the water-level and discharge ladders. */
  datatype WaterLevelStatus = High | Normal | Low | CriticalLow

  /** A hydrometric station. */
  datatype WaterStation = WaterStation(
    stationId: string,
    stationName: string,
    province: string,
    latitude: real,
    longitude: real,
    status: WaterLevelStatus,
    lastUpdated: Instant)

  /** One reading of one parameter ("46" water level, "47" discharge). */
  datatype WaterStationData = WaterStationData(
    stationId: string,
    parameter: string,
    parameterName: string,
    value: real,
    unit: string,
    timestamp: Instant)

  /** The station-detail view. */
  datatype StationDetailResponse = StationDetailResponse(
    station: WaterStation,
    recentData: seq<WaterStationData>,
    currentWaterLevel: real,
    currentDischarge: real,
    waterLevelStatus: WaterLevelStatus,
    dischargeStatus: WaterLevelStatus)

  function TimestampOf(d: WaterStationData): int { d.timestamp }

  // ---------------------------------------------------------------------
  // Carbon calculator
  // ---------------------------------------------------------------------

  datatype CarbonCalculationResponse = CarbonCalculationResponse(totalCO2: real, message: string)
}
