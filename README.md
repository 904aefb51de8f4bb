# PoolParty trip-time estimation, modelled in Dafny

PoolParty is a car-pooling web application. A pool stores an origin and a
destination address, their coordinates, and an estimated trip time
(`eta_seconds`, with `eta_updated_at`). This project models the logic that
produces those values:

- **The geocoding and routing gateway** (`app/geo.py`):
  - the fallback chains `geocode_any` (ORS, then Mapbox, then Nominatim) and
    `route_any` (Mapbox, then ORS, then OSRM), with the guards each adapter
    applies before it sends a request;
  - the straight-line duration estimate and the route plausibility check
    `route_result_is_reasonable`;
  - the Google Maps directions link builder.
- **Three repair scripts** that update pools in place:
  - `scripts/geocode_backfill.py` geocodes missing coordinates and computes a
    missing ETA;
  - `scripts/regeocode_fix.py` re-geocodes pools with a suspiciously long ETA
    with Mapbox, replaces coordinates that are missing or far off, and
    recomputes the ETA;
  - `scripts/auto_select_geocodes.py` collects every provider's geocode plus the
    stored coordinates for both ends. It picks the origin/destination pair with
    the least duration, the first one on ties, and writes back only the fields
    that differ.

Files:

- `wrappers.dfy` holds `Option` and the ordered chain `FirstSome`.
- `geo.dfy` models the gateway.
- `pool.dfy` holds the pool record, as a class with a value snapshot `PoolRow`.
- `eta_rules.dfy` holds the route-or-estimate rule the scripts share.
- `first_minimum.dfy` holds the selection rule of the nested loop, over a grid of durations.
- One file per script.

Each script's per-pool loop body is a method on a `Pool` object. It is proved
equal to a pure function of the old row (`BackfillRow`, `RegeocodeRow`,
`ApplyBestRow`), and the promised properties are stated about those functions.

How the environment is represented:

- The external services are an input, `Services`. It records which credentials
  are configured and what each service would answer.
- The haversine trigonometry is an uninterpreted function `gc`.
- `quote_plus` and `str` of a float are function parameters of the link builder.
- The time of a run is a parameter `now`.
- The thresholds read from the environment (`ETA_FLAG_THRESHOLD_SECONDS`,
  `REGEOCODE_DIFF_METERS`) are parameters.
- Floats are exact reals. Python's `round` is `RoundHalfEven`, which rounds
  half to even.
- Python truthiness is explicit: a float is truthy when non-zero, so a `0.0`
  coordinate counts as missing wherever the code tests `if lat and lon`.

Where the docstrings and the code disagree, the model follows the code:

- The docstring of `route_result_is_reasonable` promises to reject any route
  longer than 24 h. The code returns True before the cap whenever the
  distance is missing (app/geo.py:229-230), so such a route is trusted however
  long it is (`UnjudgeableRouteTrusted`).
- The docstring of `route_any` names only Mapbox and OSRM. The code also tries
  ORS between them (app/geo.py:270-278).
- Because the estimate is rounded, a faster assumed speed gives a duration
  that is no longer, but not always strictly shorter
  (`EstimateAntitoneInSpeed`, `EstimateDoubledSpeedNotStrict`).

## Model

| member | source | states |
|---|---|---|
| Wrappers.FirstSome | app/geo.py:256-288 | an ordered chain's answer is one of its attempts, and a present first attempt is the answer |
| Wrappers.FirstSomeNoneIffAllNone | app/geo.py:256-288 | an ordered chain of attempts yields nothing exactly when every attempt yields nothing |
| Wrappers.FirstSomePicksFirst | app/geo.py:256-288 | an ordered chain yields the answer of the first attempt that has one |
| Geo.HaversineMiles | app/geo.py:9-18 | the distance is absent iff any of the four coordinates is absent; otherwise it is the great-circle distance of the four |
| Geo.RoundHalfEven | app/geo.py:210 | Python `round`: the result is within 0.5 of the input, and an exact tie goes to the even integer |
| Geo.RoundMonotone | app/geo.py:210 | rounding preserves the order of two values |
| Geo.RoundWhole | app/geo.py:210 | a whole number rounds to itself |
| Geo.EstimateDurationSeconds | app/geo.py:201-212 | an estimate exists iff a distance is given and the speed is positive; it is then within 0.5 s of distance / (mph × 0.44704) |
| Geo.EstimateAntitoneInSpeed | app/geo.py:201-212 | a faster assumed speed never gives a longer estimate |
| Geo.EstimateMonotoneInDistance | app/geo.py:201-212 | a longer distance never gives a shorter estimate |
| Geo.EstimateDoubledSpeedNotStrict | app/geo.py:201-212 | one metre estimates to 0 s at both 35 and 70 mph, so a faster speed is not always strictly shorter |
| Geo.GeocodeOrs | app/geo.py:44-50 | there is no answer for an empty address or without the ORS key |
| Geo.GeocodeNominatim | app/geo.py:67-73 | there is no answer for an empty address |
| Geo.GeocodeMapbox | app/geo.py:21-30 | there is no answer for an empty address; without a token the answer is Nominatim's |
| Geo.GeocodeAny | app/geo.py:90-124 | an empty address gives nothing; a result has a truthy latitude and longitude; a result credited to ORS is the ORS answer and needs the key; one credited to Mapbox is the Mapbox answer and needs the token; one credited to Nominatim is the Nominatim answer |
| Geo.GeocodeAnyIsChain | app/geo.py:96-124 | for a non-empty address, `geocode_any` is the first truthy answer among ORS (only with a key), Mapbox (credited to Nominatim without a token) and Nominatim |
| Geo.GeocodeAnyFailsIffAllFail | app/geo.py:96-124 | for a non-empty address, the result is absent exactly when none of the three attempts has a truthy latitude and longitude |
| Geo.GeocodeAnyNoTokenNoMapbox | app/geo.py:108-112 | without a Mapbox token no result is credited to Mapbox |
| Geo.RouteMapbox | app/geo.py:127-136 | there is no route without a token or with fewer than two waypoints |
| Geo.RouteOrs | app/geo.py:151-157 | there is no route without the key or with fewer than two waypoints |
| Geo.RouteOsrm | app/geo.py:176-183 | there is no route with fewer than two waypoints |
| Geo.RouteAny | app/geo.py:256-288 | fewer than two waypoints give no route; a route is, unchanged, the answer of Mapbox (with token), ORS (with key) or OSRM |
| Geo.RouteAnyIsChain | app/geo.py:256-288 | `route_any` is the first answer of Mapbox (only with a token), then ORS (only with a key), then OSRM |
| Geo.RouteAnyWithoutCredentials | app/geo.py:262-288 | with neither credential the OSRM answer is returned as is |
| Geo.IsReasonable | app/geo.py:215-253 | no route is never reasonable; a route missing its duration or distance is always reasonable; a judgeable route over the duration cap is not |
| Geo.ReasonableMeansBounded | app/geo.py:233-251 | with a positive straight-line distance, a reasonable route is within the duration cap, within the distance ratio of the straight line, and within five times the nonzero 35 mph estimate |
| Geo.BoundedMeansReasonable | app/geo.py:233-251 | conversely, a route within those three bounds is reasonable |
| Geo.NoBaselineOnlyCapApplies | app/geo.py:231-239 | without a straight-line distance (a missing coordinate or zero metres) a route is reasonable iff it is within the duration cap |
| Geo.EndpointParam | app/geo.py:315-323 | an endpoint parameter is the quoted address when it is truthy, else the quoted "lat,lng" when both coordinates are given, else absent |
| Geo.DirectionsParams | app/geo.py:309-326 | there is one parameter per endpoint that has a truthy address or both coordinates, then `travelmode=driving`; the origin's comes first and the destination's just before the travel mode; each is the quoted address when truthy, else the quoted "lat,lng" |
| Geo.JoinAmp | app/geo.py:328-331 | `"&".join` of no parts is empty and of one part is that part, so the `len(params) == 1` branch agrees with the join |
| Geo.JoinAmpLength | app/geo.py:331 | a join adds exactly one separator between consecutive parts: its length is the parts' total length plus one less than their number |
| Geo.JoinAmpEnds | app/geo.py:331 | an `&`-join starts with its first part and ends with its last |
| Geo.LinkShape | app/geo.py:328-331 | a link built from such a list starts with the base URL and "&" and ends with `travelmode=driving` |
| Geo.DirectionsUrl | app/geo.py:301-331 | the link is the base URL, "&", and the origin, destination and travel-mode parameters joined by "&"; it starts with the base and "&" and ends with `travelmode=driving` |
| Geo.AppendEndpoint | app/geo.py:315-323 | the appending step adds exactly the endpoint parameter to the list |
| Pools.Pool.constructor | app/models.py:26-37 | a new pool object holds exactly the given field values |
| Pools.Flagged | scripts/auto_select_geocodes.py:31 | a selected pool has an ETA above the threshold; with a non-negative threshold every such ETA is selected; an ETA of 0 is never selected |
| EtaRules.UsableRoute | scripts/regeocode_fix.py:83 | a route with a truthy duration and no distance is always used, because the plausibility check cannot judge it |
| EtaRules.UsableRouteIsTrusted | scripts/regeocode_fix.py:83 | a usable route is present, has a truthy duration, and is within 86400 s whenever it reports a distance |
| EtaRules.RoutedSeconds | scripts/geocode_backfill.py:67-72 | a routed duration exists iff the route is present, has a truthy duration and is reasonable; it is then within 0.5 s of that duration |
| EtaRules.EstimatedSeconds | scripts/geocode_backfill.py:78-81 | the straight-line estimate always exists and is within 0.5 s of the straight-line metres at 35 mph |
| EtaRules.RouteOrEstimate | scripts/regeocode_fix.py:82-92 | a usable route gives its rounded duration; otherwise a nonzero estimate is taken, and a zero one gives nothing |
| EtaRules.RoutedWithinCap | scripts/regeocode_fix.py:83-84 | a trusted route that reports a distance never yields more than 86400 s |
| EtaRules.UnjudgeableRouteTrusted | app/geo.py:229-230 | a route answer without a distance is trusted even at 100000 s |
| GeocodeBackfill.SideGeocode | scripts/geocode_backfill.py:39-40 | a side is geocoded only when one of its coordinates is missing and its address is non-empty |
| GeocodeBackfill.GeocodedRow | scripts/geocode_backfill.py:37-58 | each side takes the coordinates of its own geocode when it gets one and keeps the stored ones otherwise; no other field changes |
| GeocodeBackfill.FilledEtaRow | scripts/geocode_backfill.py:63-98 | only the ETA fields change; with a stored ETA or a falsy coordinate nothing changes; otherwise the ETA is the route-or-estimate value and the timestamp is now exactly when there is one |
| GeocodeBackfill.BackfillRow | scripts/geocode_backfill.py:36-98 | addresses are kept; a side with both coordinates is never touched; a side with a missing coordinate and a non-empty address gets the `geocode_any` answer whenever there is one; coordinates change only together, to a truthy `geocode_any` answer; an existing ETA is never overwritten; a missing ETA is computed exactly when all four coordinates are truthy; the timestamp changes exactly when the ETA does |
| GeocodeBackfill.BackfillPool | scripts/geocode_backfill.py:37-98 | the pool afterwards is `BackfillRow` of the pool before; the `updated` flag is set iff coordinates were written |
| GeocodeBackfill.GeocodeMissing | scripts/geocode_backfill.py:37-58 | the coordinate half of the loop body, equal to the geocoded row; `updated` is set iff the pool changed |
| GeocodeBackfill.FillEta | scripts/geocode_backfill.py:63-98 | the ETA half of the loop body, equal to the row with the ETA filled in |
| GeocodeBackfill.BackfillAll | scripts/geocode_backfill.py:35-98 | every pool ends as `BackfillRow` of its old state |
| RegeocodeFix.MetersBetween | scripts/regeocode_fix.py:17-24 | the distance is absent iff any coordinate is absent; otherwise it is the great-circle miles times 1609.344 |
| RegeocodeFix.ReplaceSide | scripts/regeocode_fix.py:57-66 | a side is replaced iff the new latitude and longitude are truthy, and the stored ones are missing or a nonzero distance above the threshold away |
| RegeocodeFix.SideAfter | scripts/regeocode_fix.py:57-76 | a replaced side takes the new coordinates; any other side keeps its own |
| RegeocodeFix.RegeocodeRow | scripts/regeocode_fix.py:41-98 | each side follows the replacement rule on its own; without a replacement the pool is untouched; after one, with all four coordinates truthy, the timestamp is now and the ETA is the route-or-estimate value or else the old one; otherwise the ETA fields are kept |
| RegeocodeFix.ZeroDiffKeepsStored | scripts/regeocode_fix.py:61 | a geocode at zero distance from the stored point never replaces it |
| RegeocodeFix.RegeocodePool | scripts/regeocode_fix.py:41-98 | the pool afterwards is `RegeocodeRow` of the pool before; `changed` is set iff a side was replaced |
| RegeocodeFix.ReplaceOrigin | scripts/regeocode_fix.py:57-66 | the origin follows the replacement rule and nothing else changes |
| RegeocodeFix.ReplaceDestination | scripts/regeocode_fix.py:67-76 | the destination follows the replacement rule and nothing else changes |
| RegeocodeFix.RecomputeEta | scripts/regeocode_fix.py:78-95 | with all four coordinates truthy, the ETA becomes the route-or-estimate value (else it stays) and the timestamp becomes now; otherwise nothing changes |
| RegeocodeFix.RegeocodeAll | scripts/regeocode_fix.py:30-98 | only pools whose ETA is truthy and above the threshold change, each to `RegeocodeRow` of its old state |
| AutoSelectGeocodes.GatherCandidates | scripts/auto_select_geocodes.py:17-24 | one candidate, labelled with the adapter's function name, when the adapter answers; none otherwise |
| AutoSelectGeocodes.ProviderHit | scripts/auto_select_geocodes.py:43-47 | a provider contributes one candidate exactly when it answers: the adapter's latitude and longitude under the provider's short name |
| AutoSelectGeocodes.HitsFrom | scripts/auto_select_geocodes.py:41-53 | the providers contribute at most one candidate each, and none at all exactly when no provider answers |
| AutoSelectGeocodes.StoredCandidate | scripts/auto_select_geocodes.py:55-58 | the stored point is a candidate, labelled "stored", iff both stored coordinates are truthy |
| AutoSelectGeocodes.OriginCandidates | scripts/auto_select_geocodes.py:41-56 | at most four origin candidates; the stored origin is the last one whenever both its coordinates are truthy; the list is empty exactly when no provider answers and the stored origin is incomplete |
| AutoSelectGeocodes.DestCandidates | scripts/auto_select_geocodes.py:41-58 | the same for the destination |
| AutoSelectGeocodes.CandidatesInProviderOrder | scripts/auto_select_geocodes.py:41-58 | candidates come in the order ors, mapbox, nominatim, with the stored point last |
| AutoSelectGeocodes.CollectCandidates | scripts/auto_select_geocodes.py:39-58 | the collection loop builds exactly the origin and destination candidate lists in that order |
| AutoSelectGeocodes.PairDuration | scripts/auto_select_geocodes.py:69-83 | every pair has a duration: the rounded route duration when the route is usable, else the straight-line estimate |
| AutoSelectGeocodes.MeasurePair | scripts/auto_select_geocodes.py:67-81 | the loop body's duration of a pair is `PairDuration` |
| AutoSelectGeocodes.SelectBest | scripts/auto_select_geocodes.py:63-86 | the nested loop's choice is absent iff a candidate list is empty; otherwise it is the pair of least duration, and no earlier pair in origin-major order has the same duration |
| AutoSelectGeocodes.ScanOrigins | scripts/auto_select_geocodes.py:63-86 | the outer loop over the origins ends with the sequential reference selection over all pairs |
| AutoSelectGeocodes.DurationsRow | scripts/auto_select_geocodes.py:66-83 | the grid's row for an origin holds that origin's pair durations, destination by destination |
| AutoSelectGeocodes.SelectionIsBestPair | scripts/auto_select_geocodes.py:63-86 | the sequential reference selection over all pairs is the first pair of least duration |
| AutoSelectGeocodes.ScanDestinations | scripts/auto_select_geocodes.py:66-86 | one pass over the destinations extends the selection to the end of that origin's row |
| AutoSelectGeocodes.ConsiderPair | scripts/auto_select_geocodes.py:67-86 | a pair becomes the best only if none is chosen yet or its duration is strictly smaller |
| AutoSelectGeocodes.GridMinimumIsBestPair | scripts/auto_select_geocodes.py:63-86 | the first minimum of the duration grid is the first pair of least duration |
| AutoSelectGeocodes.ApplyBestRow | scripts/auto_select_geocodes.py:87-111 | with no pair or a zero duration nothing changes; otherwise the chosen coordinates and duration are written, and the timestamp is now iff one of them differed |
| AutoSelectGeocodes.ApplyBest | scripts/auto_select_geocodes.py:87-106 | the field-by-field write-back with the `update` flag equals `ApplyBestRow` |
| AutoSelectGeocodes.AutoSelectPool | scripts/auto_select_geocodes.py:36-111 | an unflagged pool is untouched; a flagged one gets the first minimum of its candidates written back |
| AutoSelectGeocodes.AutoSelectAll | scripts/auto_select_geocodes.py:30-111 | every pool goes through that step, in order |
| FirstMinimum.Better | scripts/auto_select_geocodes.py:84-86 | a pair replaces the best only when none exists or it is strictly shorter, so the kept duration never grows |
| FirstMinimum.BestUpToIsLeast | scripts/auto_select_geocodes.py:63-86 | after any prefix of pairs the selection is absent only before the first pair, and is otherwise the least of the visited pairs and strictly below every earlier one |
| FirstMinimum.BestIsFirstMinimum | scripts/auto_select_geocodes.py:63-86 | after all pairs the selection is the first minimum of the grid, and exists iff the grid has a pair |
| FirstMinimum.FirstMinimumUnique | scripts/auto_select_geocodes.py:84 | there is only one first minimum, so ties are always broken the same way |

## Left out

- HTTP requests, JSON parsing, timeouts and the exceptions the adapters swallow: each service's outcome is an input of `Services`, and an exception is the same as no answer.
- The haversine trigonometry and float arithmetic: the great-circle distance is an uninterpreted function, and floats are exact reals, so rounding errors in the metres and seconds are not modelled.
- `quote_plus` URL encoding and `str` of a float: these are function parameters of the link builder.
- The database session, `ALTER TABLE`, commits and printing. The model describes the in-memory pool objects. In `scripts/regeocode_fix.py`, a replacement that leaves a coordinate falsy is not committed on that pool's path (lines 81-95); whether a later commit persists it is not modelled.
- The query that loads the pools and its ordering: the scripts' loops run over a given sequence of distinct pools.
- The second OSRM attempt after the final `return None` of `route_any` (app/geo.py:290-298) is unreachable and has no counterpart.
- Repeated service calls: each service is a fixed function of its input, so asking it twice gives the same answer. Without a Mapbox token, `geocode_any` asks Nominatim twice, once through `geocode_mapbox` (app/geo.py:30, reached from app/geo.py:110) and again at app/geo.py:118; in the model the second request cannot recover from a transient failure of the first.
- The routers' result dictionaries: only the two metrics the callers read are kept (`Route`).
- The other scripts, the Flask application and the forms are not part of this model.
- Skipping a pair without a duration (scripts/auto_select_geocodes.py:82-83): the branch exists in `ConsiderPair` but never fires, because candidates always carry both coordinates.
