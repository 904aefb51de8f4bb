/**
 * The ETA rule the three repair scripts share: trust a routed duration only if
 * the route is present, has a truthy duration and passes the plausibility check;
 * otherwise fall back to the straight-line estimate at 35 mph.
 */
module EtaRules {
  import opened Wrappers
  import opened Geo
  import opened Pools

  /** The request the scripts send: origin then destination, longitude first. */
  function Leg(olat: real, olng: real, dlat: real, dlng: real): (coords: seq<LonLat>)
    ensures |coords| == 2
  {
    [LonLat(olng, olat), LonLat(dlng, dlat)]
  }

  /** What `route_any` answers for the origin-to-destination leg. */
  function LegRoute(s: Services, olat: real, olng: real, dlat: real, dlng: real): Option<Route>
  {
    RouteAny(s, Leg(olat, olng, dlat, dlng))
  }

  /** `route and route.get('duration_seconds') and route_result_is_reasonable(route, ...)`. */
  predicate UsableRoute(s: Services, gc: GreatCircle, olat: real, olng: real, dlat: real, dlng: real)
    // a route with a truthy duration but no distance cannot be judged, and is used as is
    ensures var route := LegRoute(s, olat, olng, dlat, dlng);
      route.Some? && Present(route.value.durationSeconds) && route.value.distanceMeters.None? ==>
      UsableRoute(s, gc, olat, olng, dlat, dlng)
  {
    var route := LegRoute(s, olat, olng, dlat, dlng);
    route.Some? && Present(route.value.durationSeconds)
    && IsReasonable(gc, route, Some(olat), Some(olng), Some(dlat), Some(dlng), MaxDurationSeconds, MaxDistanceRatio)
  }

  /** A usable route is present, has a truthy duration, and keeps to the 24 h cap whenever it reports a distance. */
  lemma UsableRouteIsTrusted(s: Services, gc: GreatCircle, olat: real, olng: real, dlat: real, dlng: real)
    requires UsableRoute(s, gc, olat, olng, dlat, dlng)
    ensures var route := LegRoute(s, olat, olng, dlat, dlng);
      route.Some? && Present(route.value.durationSeconds)
      && (route.value.distanceMeters.Some? ==> route.value.durationSeconds.value <= MaxDurationSeconds)
  {
  }

  /** The routed duration, rounded, when the route can be trusted. */
  function RoutedSeconds(s: Services, gc: GreatCircle, olat: real, olng: real, dlat: real, dlng: real): (secs: Option<int>)
    ensures secs.Some? <==> UsableRoute(s, gc, olat, olng, dlat, dlng)
    ensures secs.Some? ==>
      var dur := LegRoute(s, olat, olng, dlat, dlng).value.durationSeconds.value;
      dur - 0.5 <= secs.value as real <= dur + 0.5
  {
    if UsableRoute(s, gc, olat, olng, dlat, dlng)
    then Some(RoundHalfEven(LegRoute(s, olat, olng, dlat, dlng).value.durationSeconds.value))
    else None
  }

  /** The straight-line estimate: haversine miles in metres at 35 mph. */
  function EstimatedSeconds(gc: GreatCircle, olat: real, olng: real, dlat: real, dlng: real): (secs: Option<int>)
    ensures secs.Some?
    ensures var exact := StraightMeters(gc, olat, olng, dlat, dlng) / (DefaultSpeedMph * MpsPerMph);
            exact - 0.5 <= secs.value as real <= exact + 0.5
  {
    var miles := HaversineMiles(gc, Some(olat), Some(olng), Some(dlat), Some(dlng));
    if miles.None? then None
    else EstimateDurationSeconds(Some(miles.value * MetersPerMile), DefaultSpeedMph)
  }

  /**
   * The rule of geocode_backfill.py and regeocode_fix.py: the trusted routed
   * duration, else a truthy straight-line estimate, else nothing.
   */
  function RouteOrEstimate(s: Services, gc: GreatCircle, olat: real, olng: real, dlat: real, dlng: real): (secs: Option<int>)
    ensures UsableRoute(s, gc, olat, olng, dlat, dlng) ==> secs == RoutedSeconds(s, gc, olat, olng, dlat, dlng)
    ensures !UsableRoute(s, gc, olat, olng, dlat, dlng) ==>
      secs == (if EstimatedSeconds(gc, olat, olng, dlat, dlng).value != 0
               then EstimatedSeconds(gc, olat, olng, dlat, dlng) else None)
  {
    var routed := RoutedSeconds(s, gc, olat, olng, dlat, dlng);
    if routed.Some? then routed
    else
      var est := EstimatedSeconds(gc, olat, olng, dlat, dlng);
      if est.Some? && est.value != 0 then est else None
  }

  /**
   * A trusted route whose answer carries a distance never yields more than the
   * 24 h cap: the plausibility check has bounded it.
   */
  lemma RoutedWithinCap(s: Services, gc: GreatCircle, olat: real, olng: real, dlat: real, dlng: real)
    requires RoutedSeconds(s, gc, olat, olng, dlat, dlng).Some?
    requires LegRoute(s, olat, olng, dlat, dlng).value.distanceMeters.Some?
    ensures RoutedSeconds(s, gc, olat, olng, dlat, dlng).value <= MaxDurationSeconds.Floor
  {
    var dur := LegRoute(s, olat, olng, dlat, dlng).value.durationSeconds.value;
    assert dur <= MaxDurationSeconds;
    RoundMonotone(dur, MaxDurationSeconds);
    RoundWhole(86400);
  }

  /**
   * A route answer without a distance cannot be judged and is trusted as is,
   * however long: 100000 s (over 27 h) is accepted.
   */
  lemma UnjudgeableRouteTrusted(s: Services, gc: GreatCircle, olat: real, olng: real, dlat: real, dlng: real)
    requires LegRoute(s, olat, olng, dlat, dlng) == Some(Route(None, Some(100000.0)))
    ensures RoutedSeconds(s, gc, olat, olng, dlat, dlng) == Some(100000)
  {
    RoundWhole(100000);
  }

  /** All four coordinates are truthy (the guard before any ETA is computed). */
  predicate AllPresent(row: PoolRow)
  {
    Present(row.originLat) && Present(row.originLng) && Present(row.destLat) && Present(row.destLng)
  }

  /** `RouteOrEstimate` for the coordinates stored in a row. */
  function RowEta(s: Services, gc: GreatCircle, row: PoolRow): Option<int>
    requires AllPresent(row)
  {
    RouteOrEstimate(s, gc, row.originLat.value, row.originLng.value, row.destLat.value, row.destLng.value)
  }
}
