/** Migration routes: the observations of a response grouped by species,
    each group of more than one sighting turned into a time-ordered route. */
module BirdRoutes {
  import opened Wrappers
  import opened Sequences
  import opened Models

  function SpeciesCodeOf(o: BirdObservation): string { o.speciesCode }

  function ObservationCountOf(o: BirdObservation): int { o.count }

  function PointCountOf(p: ObservationPoint): int { p.count }

  /** The group keys, in order of first occurrence. */
  function GroupKeys(observations: seq<BirdObservation>): seq<string>
  {
    Distinct(seq(|observations|, k requires 0 <= k < |observations| => observations[k].speciesCode))
  }

  function HasCode(code: string): BirdObservation -> bool {
    (o: BirdObservation) => o.speciesCode == code
  }

  /** The group of one key: the observations with that code, each as often
      as it occurs. */
  function GroupOf(observations: seq<BirdObservation>, code: string): (g: seq<BirdObservation>)
    ensures forall k :: 0 <= k < |g| ==> g[k].speciesCode == code
    ensures forall o :: multiset(g)[o] == if o.speciesCode == code then multiset(observations)[o] else 0
  {
    Filter(observations, HasCode(code))
  }

  /** A group keeps the input order: the group of a concatenation is the
      groups of its parts in turn, and a single sighting is in the group
      exactly when it has the code. */
  lemma GroupInInputOrder(a: seq<BirdObservation>, b: seq<BirdObservation>, code: string, o: BirdObservation)
    ensures GroupOf(a + b, code) == GroupOf(a, code) + GroupOf(b, code)
    ensures GroupOf([o], code) == if o.speciesCode == code then [o] else []
  {
    FilterConcat(a, b, HasCode(code));
    FilterOne(o, HasCode(code));
  }

  function PointOf(o: BirdObservation): (p: ObservationPoint)
  {
    ObservationPoint(o.latitude, o.longitude, o.observationDate, o.count, o.locationName)
  }

  function PointsOf(group: seq<BirdObservation>): (r: seq<ObservationPoint>)
    ensures |r| == |group|
    ensures forall k :: 0 <= k < |r| ==> r[k] == PointOf(group[k])
  {
    seq(|group|, k requires 0 <= k < |group| => PointOf(group[k]))
  }

  /** The species is sighted more than once, so its group makes a route. */
  predicate SightedMoreThanOnce(observations: seq<BirdObservation>, code: string) {
    |GroupOf(observations, code)| > 1
  }

  /** The route of a group of at least two sightings. */
  function RouteOf(code: string, group: seq<BirdObservation>): MigrationRouteData
    requires |group| > 1
  {
    var points := OrderBy(PointsOf(group), PointDateOf);
    MigrationRouteData(code, group[0].commonName, points,
                       points[0].date, points[|points| - 1].date, SumBy(points, PointCountOf))
  }

  /** A route lists the group's sightings as points ordered by date, from the
      earliest to the latest, and totals the group's counts. */
  lemma RouteFacts(code: string, group: seq<BirdObservation>)
    requires |group| > 1
    ensures var r := RouteOf(code, group);
      && r.speciesCode == code
      && r.commonName == group[0].commonName
      && |r.points| == |group|
      && multiset(r.points) == multiset(PointsOf(group))
      && SortedBy(r.points, PointDateOf)
      && (forall k :: 0 <= k < |group| ==> r.firstObservation <= group[k].observationDate <= r.lastObservation)
      && (exists k :: 0 <= k < |group| && group[k].observationDate == r.firstObservation)
      && (exists k :: 0 <= k < |group| && group[k].observationDate == r.lastObservation)
      && r.totalCount == SumBy(group, ObservationCountOf)
  {
    var pts := PointsOf(group);
    var r := RouteOf(code, group);
    var points := r.points;
    SumByPermutation(points, pts, PointCountOf);
    PointsSum(group);
    SortedPermutationBounds(pts, points, PointDateOf);
    forall k | 0 <= k < |group| ensures r.firstObservation <= group[k].observationDate <= r.lastObservation {
      assert PointDateOf(pts[k]) == group[k].observationDate;
      assert PointDateOf(points[0]) <= PointDateOf(pts[k]);
      assert r.firstObservation == PointDateOf(points[0]);
    }
    var i0 :| 0 <= i0 < |pts| && pts[i0] == points[0];
    assert group[i0].observationDate == r.firstObservation;
    var i1 :| 0 <= i1 < |pts| && pts[i1] == points[|points| - 1];
    assert group[i1].observationDate == r.lastObservation;
  }

  lemma {:induction false} PointsSum(group: seq<BirdObservation>)
    ensures SumBy(PointsOf(group), PointCountOf) == SumBy(group, ObservationCountOf)
  {
    if group != [] {
      assert PointsOf(group)[..|group| - 1] == PointsOf(group[..|group| - 1]);
      PointsSum(group[..|group| - 1]);
    }
  }

  /** The route of one key, when its group has more than one sighting. */
  function RouteFor(observations: seq<BirdObservation>, code: string): (r: Option<MigrationRouteData>)
    ensures r.Some? <==> SightedMoreThanOnce(observations, code)
    ensures r.Some? ==> r.value.speciesCode == code
  {
    var group := GroupOf(observations, code);
    if |group| > 1 then Some(RouteOf(code, group)) else None
  }

  function RouteCodeOf(r: MigrationRouteData): string { r.speciesCode }

  function RouteMaker(observations: seq<BirdObservation>): string -> Option<MigrationRouteData> {
    code => RouteFor(observations, code)
  }

  /** The routes of a list of observations, in order of each species' first sighting. */
  function Routes(observations: seq<BirdObservation>): seq<MigrationRouteData>
  {
    Collect(GroupKeys(observations), RouteMaker(observations))
  }

  /** Every route is the route of its species' group, that species is
      sighted more than once, and no species has two routes. */
  lemma RoutesSound(observations: seq<BirdObservation>)
    ensures var routes := Routes(observations);
      && (forall i :: 0 <= i < |routes| ==>
            && SightedMoreThanOnce(observations, routes[i].speciesCode)
            && routes[i] == RouteOf(routes[i].speciesCode, GroupOf(observations, routes[i].speciesCode)))
      && (forall i, j :: 0 <= i < j < |routes| ==> routes[i].speciesCode != routes[j].speciesCode)
  {
    var codes := seq(|observations|, k requires 0 <= k < |observations| => observations[k].speciesCode);
    var keys := GroupKeys(observations);
    var f := RouteMaker(observations);
    var routes := Routes(observations);
    DistinctElements(codes);
    CollectElements(keys, f);
    CollectDistinct(keys, f, RouteCodeOf);
    forall i | 0 <= i < |routes|
      ensures SightedMoreThanOnce(observations, routes[i].speciesCode)
      ensures routes[i] == RouteOf(routes[i].speciesCode, GroupOf(observations, routes[i].speciesCode))
    {
      assert Yields(keys, f, routes[i]);
      var k :| k in keys && f(k) == Some(routes[i]);
    }
  }

  /** A species sighted more than once is one of the group keys. */
  lemma GroupedCode(observations: seq<BirdObservation>, c: string)
    requires SightedMoreThanOnce(observations, c)
    ensures c in GroupKeys(observations)
  {
    var codes := seq(|observations|, k requires 0 <= k < |observations| => observations[k].speciesCode);
    DistinctElements(codes);
    var g := GroupOf(observations, c);
    assert g[0] in multiset(observations);
    var j :| 0 <= j < |observations| && observations[j] == g[0];
    assert codes[j] == c;
  }

  /** Every species sighted more than once has a route. */
  lemma RoutesComplete(observations: seq<BirdObservation>, c: string)
    requires SightedMoreThanOnce(observations, c)
    ensures exists i :: 0 <= i < |Routes(observations)| && Routes(observations)[i].speciesCode == c
  {
    var keys := GroupKeys(observations);
    var f := RouteMaker(observations);
    GroupedCode(observations, c);
    CollectIncludes(keys, f, c);
    var route := f(c).value;
    var i :| 0 <= i < |Routes(observations)| && Routes(observations)[i] == route;
  }

  lemma RouteForUnfolded(observations: seq<BirdObservation>, code: string)
    ensures var group := GroupOf(observations, code);
      var points := OrderBy(PointsOf(group), PointDateOf);
      RouteFor(observations, code)
        == if |points| > 1 then Some(MigrationRouteData(code, group[0].commonName, points, points[0].date,
                                                        points[|points| - 1].date, SumBy(points, PointCountOf)))
           else None
  {
  }

  /** One more group extends the routes by its route, if it has one. */
  lemma RoutesStep(observations: seq<BirdObservation>, keys: seq<string>, i: int)
    requires 0 <= i < |keys|
    ensures var r := RouteFor(observations, keys[i]);
      Collect(keys[..i + 1], RouteMaker(observations))
        == Collect(keys[..i], RouteMaker(observations)) + if r.Some? then [r.value] else []
  {
    assert keys[..i + 1] == keys[..i] + [keys[i]];
    CollectStep(keys[..i], keys[i], RouteMaker(observations));
  }

  /** The foreach loop over the groups: a route is added for each group
      with more than one point. */
  method BuildRoutes(observations: seq<BirdObservation>) returns (routes: seq<MigrationRouteData>)
    ensures routes == Routes(observations)
  {
    var keys := GroupKeys(observations);
    routes := [];
    var i := 0;
    while i < |keys|
      invariant 0 <= i <= |keys|
      invariant routes == Collect(keys[..i], RouteMaker(observations))
    {
      RoutesStep(observations, keys, i);
      var group := GroupOf(observations, keys[i]);
      var points := OrderBy(PointsOf(group), PointDateOf);
      if |points| > 1 {
        var route := MigrationRouteData(keys[i], group[0].commonName, points,
                                        points[0].date, points[|points| - 1].date,
                                        SumBy(points, PointCountOf));
        RouteForUnfolded(observations, keys[i]);
        routes := routes + [route];
      }
      i := i + 1;
    }
    assert keys[..i] == keys;
  }
}
