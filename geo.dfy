/**
 * The geocoding and routing gateway of app/geo.py: provider fallback chains,
 * the straight-line distance and duration estimators, the route plausibility
 * check and the directions link builder.
 *
 * What the network answers is an input: a `Services` value carries whether each
 * credential is configured and what each external service would answer to a
 * request. The adapters add exactly the guards the source applies before it
 * sends a request. Floating point is modelled by exact reals.
 */
module Geo {
  import opened Wrappers

  /** A geocoder's answer: latitude first. */
  datatype LatLon = LatLon(lat: real, lon: real)

  /** A routing waypoint: longitude first, as the routers take it. */
  datatype LonLat = LonLat(lon: real, lat: real)

  /** What a router reports; either metric may be missing from its answer. */
  datatype Route = Route(distanceMeters: Option<real>, durationSeconds: Option<real>)

  /** The great-circle distance in miles between (lat1, lon1) and (lat2, lon2). */
  type GreatCircle = (real, real, real, real) -> real

  /** Configured credentials and the answers of the external services. */
  datatype Services = Services(
    hasMapboxToken: bool,
    hasOrsKey: bool,
    mapboxGeocoder: string -> Option<LatLon>,
    orsGeocoder: string -> Option<LatLon>,
    nominatimGeocoder: string -> Option<LatLon>,
    mapboxRouter: seq<LonLat> -> Option<Route>,
    orsRouter: seq<LonLat> -> Option<Route>,
    osrmRouter: seq<LonLat> -> Option<Route>)

  datatype GeoProvider = Ors | Mapbox | Nominatim

  /** The result of `geocode_any`: a coordinate and the provider credited with it. */
  datatype Geocoded = Geocoded(lat: real, lon: real, provider: GeoProvider)

  const MetersPerMile: real := 1.609344 * 1000.0
  const MpsPerMph: real := 0.44704
  const DefaultSpeedMph: real := 35.0
  const MaxDurationSeconds: real := 86400.0
  const MaxDistanceRatio: real := 10.0
  const MaxDurationRatio: real := 5.0

  /** Python truthiness of a float. */
  predicate Truthy(x: real) { x != 0.0 }

  /** Python truthiness of an optional float: neither None nor zero. */
  predicate Present(x: Option<real>) { x.Some? && x.value != 0.0 }

  /** A geocoder answer whose latitude and longitude are both truthy. */
  predicate TruthyPair(ll: Option<LatLon>) { ll.Some? && Truthy(ll.value.lat) && Truthy(ll.value.lon) }

  // ---------------------------------------------------------------------------
  // Distance and duration estimators
  // ---------------------------------------------------------------------------

  /** `haversine_miles`: absent as soon as any coordinate is absent. */
  function HaversineMiles(gc: GreatCircle, lat1: Option<real>, lon1: Option<real>,
                          lat2: Option<real>, lon2: Option<real>): (miles: Option<real>)
    ensures miles.None? <==> lat1.None? || lon1.None? || lat2.None? || lon2.None?
    ensures miles.Some? ==> miles.value == gc(lat1.value, lon1.value, lat2.value, lon2.value)
  {
    if lat1.None? || lon1.None? || lat2.None? || lon2.None? then None
    else Some(gc(lat1.value, lon1.value, lat2.value, lon2.value))
  }

  /** Python's `round` on a float: nearest integer, ties to the even one. */
  function RoundHalfEven(x: real): (n: int)
    ensures x - 0.5 <= n as real <= x + 0.5
    ensures (x - n as real == 0.5 || n as real - x == 0.5) ==> n % 2 == 0
  {
    var f := x.Floor;
    var frac := x - f as real;
    if frac < 0.5 then f
    else if frac > 0.5 then f + 1
    else if f % 2 == 0 then f
    else f + 1
  }

  /** Rounding never reverses the order of two values. */
  lemma RoundMonotone(x: real, y: real)
    requires x <= y
    ensures RoundHalfEven(x) <= RoundHalfEven(y)
  {
    if x < y {
      var a, b := RoundHalfEven(x), RoundHalfEven(y);
      assert (a - b) as real <= x - y + 1.0;
    }
  }

  /** A whole number of seconds rounds to itself. */
  lemma RoundWhole(k: int)
    ensures RoundHalfEven(k as real) == k
  {
    var n := RoundHalfEven(k as real);
    assert (k as real).Floor == k;
  }

  /** `estimate_duration_seconds_from_meters`: seconds to cover the distance at the given speed. */
  function EstimateDurationSeconds(distanceMeters: Option<real>, avgSpeedMph: real): (secs: Option<int>)
    ensures secs.Some? <==> distanceMeters.Some? && avgSpeedMph > 0.0
    ensures secs.Some? ==>
      var exact := distanceMeters.value / (avgSpeedMph * MpsPerMph);
      exact - 0.5 <= secs.value as real <= exact + 0.5
  {
    if distanceMeters.None? then None
    else
      var avgMps := avgSpeedMph * MpsPerMph;
      if avgMps <= 0.0 then None
      else Some(RoundHalfEven(distanceMeters.value / avgMps))
  }

  lemma DivAntitone(d: real, a: real, b: real)
    requires d >= 0.0 && 0.0 < a <= b
    ensures d / b <= d / a
  {
    assert d / b * b == d;
    assert d / a * a == d;
    assert d / b * a <= d / b * b;
  }

  /** A faster assumed speed never gives a longer estimate. */
  lemma EstimateAntitoneInSpeed(d: real, slow: real, fast: real)
    requires d >= 0.0 && 0.0 < slow <= fast
    ensures EstimateDurationSeconds(Some(d), fast).value <= EstimateDurationSeconds(Some(d), slow).value
  {
    DivAntitone(d, slow * MpsPerMph, fast * MpsPerMph);
    RoundMonotone(d / (fast * MpsPerMph), d / (slow * MpsPerMph));
  }

  /** A longer distance never gives a shorter estimate. */
  lemma EstimateMonotoneInDistance(d1: real, d2: real, mph: real)
    requires d1 <= d2 && mph > 0.0
    ensures EstimateDurationSeconds(Some(d1), mph).value <= EstimateDurationSeconds(Some(d2), mph).value
  {
    var m := mph * MpsPerMph;
    assert d1 / m <= d2 / m by {
      assert d1 / m * m == d1 && d2 / m * m == d2;
    }
    RoundMonotone(d1 / m, d2 / m);
  }

  /**
   * Because the estimate is rounded, doubling the speed need not shorten it:
   * one metre takes 0 s at 35 mph and 0 s at 70 mph.
   */
  lemma EstimateDoubledSpeedNotStrict()
    ensures EstimateDurationSeconds(Some(1.0), 2.0 * DefaultSpeedMph) == EstimateDurationSeconds(Some(1.0), DefaultSpeedMph) == Some(0)
  {
    var slow := 1.0 / (DefaultSpeedMph * MpsPerMph);
    var fast := 1.0 / (2.0 * DefaultSpeedMph * MpsPerMph);
    assert 0.0 <= fast < 0.5 && 0.0 <= slow < 0.5;
    assert slow.Floor == 0 && fast.Floor == 0;
  }

  // ---------------------------------------------------------------------------
  // Geocoding gateway
  // ---------------------------------------------------------------------------

  /** `geocode_ors`: no request without an address or without the ORS key. */
  function GeocodeOrs(s: Services, address: string): (ll: Option<LatLon>)
    ensures address == "" || !s.hasOrsKey ==> ll.None?
  {
    if address == "" || !s.hasOrsKey then None else s.orsGeocoder(address)
  }

  /** `geocode_nominatim`: no request without an address. */
  function GeocodeNominatim(s: Services, address: string): (ll: Option<LatLon>)
    ensures address == "" ==> ll.None?
  {
    if address == "" then None else s.nominatimGeocoder(address)
  }

  /** `geocode_mapbox`: without a token it answers what Nominatim answers. */
  function GeocodeMapbox(s: Services, address: string): (ll: Option<LatLon>)
    ensures address == "" ==> ll.None?
    ensures !s.hasMapboxToken ==> ll == GeocodeNominatim(s, address)
  {
    if address == "" then None
    else if !s.hasMapboxToken then GeocodeNominatim(s, address)
    else s.mapboxGeocoder(address)
  }

  /** Credits a truthy answer to `provider`; a falsy one is a failed attempt. */
  function Attempt(ll: Option<LatLon>, provider: GeoProvider): Option<Geocoded>
  {
    if TruthyPair(ll) then Some(Geocoded(ll.value.lat, ll.value.lon, provider)) else None
  }

  /** The name `geocode_any` reports for the Mapbox step. */
  function MapboxStepLabel(s: Services): GeoProvider
  {
    if s.hasMapboxToken then Mapbox else Nominatim
  }

  /** `geocode_any`: ORS (only with a key), then Mapbox, then Nominatim; first truthy answer wins. */
  function GeocodeAny(s: Services, address: string): (g: Option<Geocoded>)
    ensures address == "" ==> g.None?
    ensures g.Some? ==> Truthy(g.value.lat) && Truthy(g.value.lon)
    ensures g.Some? && g.value.provider == Ors ==>
      s.hasOrsKey && s.orsGeocoder(address) == Some(LatLon(g.value.lat, g.value.lon))
    ensures g.Some? && g.value.provider == Mapbox ==>
      s.hasMapboxToken && s.mapboxGeocoder(address) == Some(LatLon(g.value.lat, g.value.lon))
    ensures g.Some? && g.value.provider == Nominatim ==>
      s.nominatimGeocoder(address) == Some(LatLon(g.value.lat, g.value.lon))
  {
    if address == "" then None
    else
      var ors := if s.hasOrsKey then GeocodeOrs(s, address) else None;
      if TruthyPair(ors) then Some(Geocoded(ors.value.lat, ors.value.lon, Ors))
      else
        var mb := GeocodeMapbox(s, address);
        if TruthyPair(mb) then Some(Geocoded(mb.value.lat, mb.value.lon, MapboxStepLabel(s)))
        else
          var nm := GeocodeNominatim(s, address);
          if TruthyPair(nm) then Some(Geocoded(nm.value.lat, nm.value.lon, Nominatim))
          else None
  }

  /** The three geocoding attempts of `geocode_any`, in the order they are made. */
  function GeocodeAttempts(s: Services, address: string): (attempts: seq<Option<Geocoded>>)
    ensures |attempts| == 3
  {
    [ Attempt(if s.hasOrsKey then GeocodeOrs(s, address) else None, Ors),
      Attempt(GeocodeMapbox(s, address), MapboxStepLabel(s)),
      Attempt(GeocodeNominatim(s, address), Nominatim) ]
  }

  /** `geocode_any` is the ordered chain of its three attempts. */
  lemma GeocodeAnyIsChain(s: Services, address: string)
    requires address != ""
    ensures GeocodeAny(s, address) == FirstSome(GeocodeAttempts(s, address))
  {
    var a := GeocodeAttempts(s, address);
    assert FirstSome(a) == if a[0].Some? then a[0] else FirstSome(a[1..]);
    assert FirstSome(a[1..]) == if a[1].Some? then a[1] else FirstSome(a[2..]);
    assert FirstSome(a[2..]) == if a[2].Some? then a[2] else FirstSome(a[3..]);
    assert a[3..] == [];
  }

  /** Every attempt fails exactly when `geocode_any` reports nothing. */
  lemma GeocodeAnyFailsIffAllFail(s: Services, address: string)
    requires address != ""
    ensures GeocodeAny(s, address).None? <==>
      !TruthyPair(if s.hasOrsKey then GeocodeOrs(s, address) else None)
      && !TruthyPair(GeocodeMapbox(s, address))
      && !TruthyPair(GeocodeNominatim(s, address))
  {
    GeocodeAnyIsChain(s, address);
    FirstSomeNoneIffAllNone(GeocodeAttempts(s, address));
  }

  /** Without a Mapbox token no result is credited to Mapbox. */
  lemma GeocodeAnyNoTokenNoMapbox(s: Services, address: string)
    requires !s.hasMapboxToken
    ensures GeocodeAny(s, address).Some? ==> GeocodeAny(s, address).value.provider != Mapbox
  {
  }

  // ---------------------------------------------------------------------------
  // Routing gateway
  // ---------------------------------------------------------------------------

  /** `route_mapbox`: nothing without a token or with fewer than two waypoints. */
  function RouteMapbox(s: Services, coords: seq<LonLat>): (r: Option<Route>)
    ensures !s.hasMapboxToken || |coords| < 2 ==> r.None?
  {
    if !s.hasMapboxToken then None
    else if |coords| < 2 then None
    else s.mapboxRouter(coords)
  }

  /** `route_ors`: nothing without the key or with fewer than two waypoints. */
  function RouteOrs(s: Services, coords: seq<LonLat>): (r: Option<Route>)
    ensures !s.hasOrsKey || |coords| < 2 ==> r.None?
  {
    if !s.hasOrsKey || |coords| < 2 then None else s.orsRouter(coords)
  }

  /** `route_osrm`: nothing with fewer than two waypoints; needs no credential. */
  function RouteOsrm(s: Services, coords: seq<LonLat>): (r: Option<Route>)
    ensures |coords| < 2 ==> r.None?
  {
    if |coords| < 2 then None else s.osrmRouter(coords)
  }

  /** `route_any`: Mapbox (with token), then ORS (with key), then OSRM; the first answer, unchanged. */
  function RouteAny(s: Services, coords: seq<LonLat>): (r: Option<Route>)
    ensures |coords| < 2 ==> r.None?
    ensures r.Some? ==>
      (s.hasMapboxToken && r == s.mapboxRouter(coords))
      || (s.hasOrsKey && r == s.orsRouter(coords))
      || r == s.osrmRouter(coords)
  {
    var m := if s.hasMapboxToken then RouteMapbox(s, coords) else None;
    if m.Some? then m
    else
      var o := if s.hasOrsKey then RouteOrs(s, coords) else None;
      if o.Some? then o
      else
        var o2 := RouteOsrm(s, coords);
        if o2.Some? then o2 else None
  }

  /** The three routing attempts of `route_any`, in the order they are made. */
  function RouteAttempts(s: Services, coords: seq<LonLat>): (attempts: seq<Option<Route>>)
    ensures |attempts| == 3
  {
    [ if s.hasMapboxToken then RouteMapbox(s, coords) else None,
      if s.hasOrsKey then RouteOrs(s, coords) else None,
      RouteOsrm(s, coords) ]
  }

  /** `route_any` is the ordered chain of its three attempts. */
  lemma RouteAnyIsChain(s: Services, coords: seq<LonLat>)
    ensures RouteAny(s, coords) == FirstSome(RouteAttempts(s, coords))
  {
    var a := RouteAttempts(s, coords);
    assert FirstSome(a) == if a[0].Some? then a[0] else FirstSome(a[1..]);
    assert FirstSome(a[1..]) == if a[1].Some? then a[1] else FirstSome(a[2..]);
    assert FirstSome(a[2..]) == if a[2].Some? then a[2] else FirstSome(a[3..]);
    assert a[3..] == [];
  }

  /** With neither credential configured the public OSRM answer is returned as is. */
  lemma RouteAnyWithoutCredentials(s: Services, coords: seq<LonLat>)
    requires !s.hasMapboxToken && !s.hasOrsKey
    ensures RouteAny(s, coords) == RouteOsrm(s, coords)
  {
  }

  // ---------------------------------------------------------------------------
  // Route plausibility
  // ---------------------------------------------------------------------------

  /** `route_result_is_reasonable`: sanity checks of a route against the straight line. */
  function IsReasonable(gc: GreatCircle, route: Option<Route>,
                        lat1: Option<real>, lon1: Option<real>, lat2: Option<real>, lon2: Option<real>,
                        maxDurationSeconds: real, maxDistanceRatio: real): (ok: bool)
    ensures route.None? ==> !ok
    ensures route.Some? && (route.value.durationSeconds.None? || route.value.distanceMeters.None?) ==> ok
    ensures (route.Some? && route.value.durationSeconds.Some? && route.value.distanceMeters.Some?
             && route.value.durationSeconds.value > maxDurationSeconds) ==> !ok
  {
    if route.None? then false
    else
      var dur := route.value.durationSeconds;
      var dist := route.value.distanceMeters;
      if dur.None? || dist.None? then true
      else if dur.value > maxDurationSeconds then false
      else
        var miles := HaversineMiles(gc, lat1, lon1, lat2, lon2);
        if miles.None? then true
        else
          var straight := miles.value * MetersPerMile;
          if straight <= 0.0 then true
          else if dist.value / straight > maxDistanceRatio then false
          else
            var est := EstimateDurationSeconds(Some(straight), DefaultSpeedMph);
            if est.Some? && est.value != 0 && dur.value / est.value as real > MaxDurationRatio then false
            else true
  }

  /** The straight-line distance in metres the plausibility check compares against. */
  function StraightMeters(gc: GreatCircle, lat1: real, lon1: real, lat2: real, lon2: real): real
  {
    gc(lat1, lon1, lat2, lon2) * MetersPerMile
  }

  lemma DivGreaterIff(a: real, b: real, c: real)
    requires b > 0.0
    ensures a / b > c <==> a > c * b
  {
    assert a / b * b == a;
    if a / b > c {
      assert a / b * b > c * b;
    } else {
      assert a / b * b <= c * b;
    }
  }

  /**
   * What passing the check means when it can judge: a plausible route is at most
   * `maxDurationSeconds` long, at most `maxDistanceRatio` times the straight line,
   * and at most five times the 35 mph straight-line estimate.
   */
  lemma ReasonableMeansBounded(gc: GreatCircle, dist: real, dur: real,
                               lat1: real, lon1: real, lat2: real, lon2: real,
                               maxDurationSeconds: real, maxDistanceRatio: real)
    requires StraightMeters(gc, lat1, lon1, lat2, lon2) > 0.0
    requires IsReasonable(gc, Some(Route(Some(dist), Some(dur))), Some(lat1), Some(lon1), Some(lat2), Some(lon2),
                          maxDurationSeconds, maxDistanceRatio)
    ensures dur <= maxDurationSeconds
    ensures dist <= maxDistanceRatio * StraightMeters(gc, lat1, lon1, lat2, lon2)
    ensures var est := EstimateDurationSeconds(Some(StraightMeters(gc, lat1, lon1, lat2, lon2)), DefaultSpeedMph).value;
            est > 0 ==> dur <= MaxDurationRatio * est as real
  {
    var straight := StraightMeters(gc, lat1, lon1, lat2, lon2);
    DivGreaterIff(dist, straight, maxDistanceRatio);
    var est := EstimateDurationSeconds(Some(straight), DefaultSpeedMph).value;
    if est > 0 {
      DivGreaterIff(dur, est as real, MaxDurationRatio);
    }
  }

  /** Conversely, a judgeable route within all three bounds passes the check. */
  lemma BoundedMeansReasonable(gc: GreatCircle, dist: real, dur: real,
                               lat1: real, lon1: real, lat2: real, lon2: real,
                               maxDurationSeconds: real, maxDistanceRatio: real)
    requires StraightMeters(gc, lat1, lon1, lat2, lon2) > 0.0
    requires dur <= maxDurationSeconds
    requires dist <= maxDistanceRatio * StraightMeters(gc, lat1, lon1, lat2, lon2)
    requires var est := EstimateDurationSeconds(Some(StraightMeters(gc, lat1, lon1, lat2, lon2)), DefaultSpeedMph).value;
             est > 0 ==> dur <= MaxDurationRatio * est as real
    ensures IsReasonable(gc, Some(Route(Some(dist), Some(dur))), Some(lat1), Some(lon1), Some(lat2), Some(lon2),
                         maxDurationSeconds, maxDistanceRatio)
  {
    var straight := StraightMeters(gc, lat1, lon1, lat2, lon2);
    DivGreaterIff(dist, straight, maxDistanceRatio);
    var est := EstimateDurationSeconds(Some(straight), DefaultSpeedMph).value;
    if est > 0 {
      DivGreaterIff(dur, est as real, MaxDurationRatio);
    }
  }

  /** Without a usable straight line (missing coordinate or zero distance) only the 24 h cap applies. */
  lemma NoBaselineOnlyCapApplies(gc: GreatCircle, dist: real, dur: real,
                                 lat1: Option<real>, lon1: Option<real>, lat2: Option<real>, lon2: Option<real>,
                                 maxDurationSeconds: real, maxDistanceRatio: real)
    requires HaversineMiles(gc, lat1, lon1, lat2, lon2).None?
             || HaversineMiles(gc, lat1, lon1, lat2, lon2).value * MetersPerMile <= 0.0
    ensures (IsReasonable(gc, Some(Route(Some(dist), Some(dur))), lat1, lon1, lat2, lon2,
                          maxDurationSeconds, maxDistanceRatio)) <==> dur <= maxDurationSeconds
  {
  }

  // ---------------------------------------------------------------------------
  // Directions link
  // ---------------------------------------------------------------------------

  const MapsBase: string := "https://www.google.com/maps/dir/?api=1"
  const TravelMode: string := "travelmode=driving"

  /** Python truthiness of an optional string. */
  predicate Given(s: Option<string>) { s.Some? && s.value != "" }

  /** The `origin=` or `destination=` parameter: the address if given, else both coordinates, else none. */
  function EndpointParam(key: string, quote: string -> string, show: real -> string,
                         address: Option<string>, lat: Option<real>, lng: Option<real>): (ps: seq<string>)
    ensures |ps| <= 1
    ensures ps != [] <==> Given(address) || (lat.Some? && lng.Some?)
    ensures Given(address) ==> ps == [key + quote(address.value)]
    ensures !Given(address) && ps != [] ==> ps == [key + quote(show(lat.value) + "," + show(lng.value))]
  {
    if Given(address) then [key + quote(address.value)]
    else if lat.Some? && lng.Some? then [key + quote(show(lat.value) + "," + show(lng.value))]
    else []
  }

  /** The query parameters of the directions link, in order. */
  function DirectionsParams(quote: string -> string, show: real -> string,
                            origin: Option<string>, destination: Option<string>,
                            originLat: Option<real>, originLng: Option<real>,
                            destLat: Option<real>, destLng: Option<real>): (ps: seq<string>)
    ensures 1 <= |ps| <= 3 && ps[|ps| - 1] == TravelMode
    // one entry per endpoint that has an address or both coordinates, origin first
    ensures |ps| == 1 + (if Given(origin) || (originLat.Some? && originLng.Some?) then 1 else 0)
                      + (if Given(destination) || (destLat.Some? && destLng.Some?) then 1 else 0)
    ensures Given(origin) ==> ps[0] == "origin=" + quote(origin.value)
    ensures !Given(origin) && originLat.Some? && originLng.Some? ==>
      ps[0] == "origin=" + quote(show(originLat.value) + "," + show(originLng.value))
    ensures Given(destination) ==> ps[|ps| - 2] == "destination=" + quote(destination.value)
    ensures !Given(destination) && destLat.Some? && destLng.Some? ==>
      ps[|ps| - 2] == "destination=" + quote(show(destLat.value) + "," + show(destLng.value))
  {
    EndpointParam("origin=", quote, show, origin, originLat, originLng)
      + EndpointParam("destination=", quote, show, destination, destLat, destLng)
      + [TravelMode]
  }

  /** The summed length of the parts. */
  function TotalLength(parts: seq<string>): nat
  {
    if parts == [] then 0 else |parts[0]| + TotalLength(parts[1..])
  }

  /** `"&".join(parts)`: exactly one separator between consecutive parts, none around a single part. */
  function JoinAmp(parts: seq<string>): (joined: string)
    ensures parts == [] ==> joined == ""
    ensures |parts| == 1 ==> joined == parts[0]
  {
    if parts == [] then ""
    else if |parts| == 1 then parts[0]
    else parts[0] + "&" + JoinAmp(parts[1..])
  }

  /** A join adds exactly one separator between consecutive parts and nothing else. */
  lemma {:induction false} JoinAmpLength(parts: seq<string>)
    requires parts != []
    ensures |JoinAmp(parts)| == TotalLength(parts) + |parts| - 1
  {
    if |parts| > 1 {
      JoinAmpLength(parts[1..]);
    }
  }

  /** A join of several parts starts with the first part and ends with the last. */
  lemma {:induction false} JoinAmpEnds(parts: seq<string>)
    requires parts != []
    ensures |JoinAmp(parts)| >= |parts[0]| && JoinAmp(parts)[..|parts[0]|] == parts[0]
    ensures |JoinAmp(parts)| >= |parts[|parts| - 1]|
    ensures JoinAmp(parts)[|JoinAmp(parts)| - |parts[|parts| - 1]|..] == parts[|parts| - 1]
  {
    if |parts| > 1 {
      JoinAmpEnds(parts[1..]);
      var rest := JoinAmp(parts[1..]);
      var last := parts[|parts| - 1];
      assert parts[1..][|parts[1..]| - 1] == last;
      assert JoinAmp(parts) == parts[0] + "&" + rest;
      assert (parts[0] + "&" + rest)[|parts[0] + "&" + rest| - |last|..] == rest[|rest| - |last|..];
    }
  }

  /** A link built from parameters ending in the travel mode starts with the base and ends with the mode. */
  lemma LinkShape(params: seq<string>)
    requires params != [] && params[|params| - 1] == TravelMode
    ensures var url := MapsBase + "&" + JoinAmp(params);
            |url| >= |MapsBase| + 1 + |TravelMode| && url[..|MapsBase| + 1] == MapsBase + "&"
            && url[|url| - |TravelMode|..] == TravelMode
  {
    JoinAmpEnds(params);
    var joined := JoinAmp(params);
    var url := (MapsBase + "&") + joined;
    assert url[|url| - |TravelMode|..] == joined[|joined| - |TravelMode|..];
  }

  /** `google_maps_directions_url`: builds the parameter list by appending, then joins it. */
  method DirectionsUrl(quote: string -> string, show: real -> string,
                       origin: Option<string>, destination: Option<string>,
                       originLat: Option<real>, originLng: Option<real>,
                       destLat: Option<real>, destLng: Option<real>) returns (url: string)
    ensures url == MapsBase + "&" + JoinAmp(DirectionsParams(quote, show, origin, destination,
                                                           originLat, originLng, destLat, destLng))
    ensures |url| >= |MapsBase| + 1 + |TravelMode| && url[..|MapsBase| + 1] == MapsBase + "&"
    ensures url[|url| - |TravelMode|..] == TravelMode
  {
    var params: seq<string> := [];
    params := AppendEndpoint(params, "origin=", quote, show, origin, originLat, originLng);
    params := AppendEndpoint(params, "destination=", quote, show, destination, destLat, destLng);
    params := params + [TravelMode];
    if |params| == 1 {
      url := MapsBase + "&" + params[0];
    } else {
      url := MapsBase + "&" + JoinAmp(params);
    }
    LinkShape(params);
  }

  /** One endpoint's `params.append(...)`: the address if truthy, else the coordinates if both are given. */
  method AppendEndpoint(params: seq<string>, key: string, quote: string -> string, show: real -> string,
                        address: Option<string>, lat: Option<real>, lng: Option<real>) returns (ps: seq<string>)
    ensures ps == params + EndpointParam(key, quote, show, address, lat, lng)
  {
    ps := params;
    if Given(address) {
      ps := ps + [key + quote(address.value)];
    } else if lat.Some? && lng.Some? {
      ps := ps + [key + quote(show(lat.value) + "," + show(lng.value))];
    }
  }
}
