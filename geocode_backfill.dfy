/**
 * scripts/geocode_backfill.py: fill in missing coordinates with `geocode_any`
 * and, where all four coordinates are known and no ETA is stored yet, compute one.
 */
module GeocodeBackfill {
  import opened Wrappers
  import opened Geo
  import opened Pools
  import opened EtaRules

  /** The geocode a side receives: only when a coordinate is missing and the address is non-empty. */
  function SideGeocode(s: Services, address: string, lat: Option<real>, lng: Option<real>): (g: Option<Geocoded>)
    ensures lat.Some? && lng.Some? ==> g.None?
    ensures address == "" ==> g.None?
    ensures (lat.None? || lng.None?) && address != "" ==> g == GeocodeAny(s, address)
  {
    if (lat.None? || lng.None?) && address != "" then GeocodeAny(s, address) else None
  }

  /** The coordinates of a pool after the geocoding half of the backfill. */
  function GeocodedRow(s: Services, row: PoolRow): (r: PoolRow)
    // each side takes its own geocode when it gets one, and keeps its stored pair otherwise
    ensures var g := SideGeocode(s, row.origin, row.originLat, row.originLng);
      (r.originLat, r.originLng) == if g.Some? then (Some(g.value.lat), Some(g.value.lon)) else (row.originLat, row.originLng)
    ensures var g := SideGeocode(s, row.destination, row.destLat, row.destLng);
      (r.destLat, r.destLng) == if g.Some? then (Some(g.value.lat), Some(g.value.lon)) else (row.destLat, row.destLng)
    // only coordinates change
    ensures r == row.(originLat := r.originLat, originLng := r.originLng, destLat := r.destLat, destLng := r.destLng)
  {
    var o := SideGeocode(s, row.origin, row.originLat, row.originLng);
    var row1 := if o.Some? then row.(originLat := Some(o.value.lat), originLng := Some(o.value.lon)) else row;
    var d := SideGeocode(s, row1.destination, row1.destLat, row1.destLng);
    if d.Some? then row1.(destLat := Some(d.value.lat), destLng := Some(d.value.lon)) else row1
  }

  /** What the backfill does to one pool. */
  function BackfillRow(s: Services, gc: GreatCircle, now: Timestamp, row: PoolRow): (r: PoolRow)
    ensures r.origin == row.origin && r.destination == row.destination
    // a side whose coordinates are both stored is never re-geocoded
    ensures row.originLat.Some? && row.originLng.Some? ==>
      r.originLat == row.originLat && r.originLng == row.originLng
    ensures row.destLat.Some? && row.destLng.Some? ==>
      r.destLat == row.destLat && r.destLng == row.destLng
    // coordinates change only together, to a truthy `geocode_any` answer for a non-empty address
    ensures r.originLat != row.originLat || r.originLng != row.originLng ==>
      var g := GeocodeAny(s, row.origin);
      row.origin != "" && g.Some? && r.originLat == Some(g.value.lat) && r.originLng == Some(g.value.lon)
      && Truthy(g.value.lat) && Truthy(g.value.lon)
    ensures r.destLat != row.destLat || r.destLng != row.destLng ==>
      var g := GeocodeAny(s, row.destination);
      row.destination != "" && g.Some? && r.destLat == Some(g.value.lat) && r.destLng == Some(g.value.lon)
      && Truthy(g.value.lat) && Truthy(g.value.lon)
    // a side with a missing coordinate and a non-empty address gets the `geocode_any` answer, when there is one
    ensures var g := GeocodeAny(s, row.origin);
      (row.originLat.None? || row.originLng.None?) && row.origin != "" && g.Some? ==>
      r.originLat == Some(g.value.lat) && r.originLng == Some(g.value.lon)
    ensures var g := GeocodeAny(s, row.destination);
      (row.destLat.None? || row.destLng.None?) && row.destination != "" && g.Some? ==>
      r.destLat == Some(g.value.lat) && r.destLng == Some(g.value.lon)
    // an existing ETA is never overwritten
    ensures row.etaSeconds.Some? ==> r.etaSeconds == row.etaSeconds && r.etaUpdatedAt == row.etaUpdatedAt
    // a missing ETA is computed exactly when all four coordinates are now truthy
    ensures row.etaSeconds.None? && AllPresent(r) ==> r.etaSeconds == RowEta(s, gc, r)
    ensures row.etaSeconds.None? && !AllPresent(r) ==> r.etaSeconds.None?
    // the timestamp moves in lockstep with the ETA
    ensures r.etaUpdatedAt == if r.etaSeconds != row.etaSeconds then Some(now) else row.etaUpdatedAt
  {
    FilledEtaRow(s, gc, now, GeocodedRow(s, row))
  }

  /** The ETA half of the backfill, on the coordinates the geocoding half left. */
  function FilledEtaRow(s: Services, gc: GreatCircle, now: Timestamp, row: PoolRow): (r: PoolRow)
    // only the ETA fields change, and only when no ETA is stored and all four coordinates are truthy
    ensures r == row.(etaSeconds := r.etaSeconds, etaUpdatedAt := r.etaUpdatedAt)
    ensures row.etaSeconds.Some? || !AllPresent(row) ==> r == row
    ensures row.etaSeconds.None? && AllPresent(row) ==>
      r.etaSeconds == RowEta(s, gc, row)
      && r.etaUpdatedAt == if RowEta(s, gc, row).Some? then Some(now) else row.etaUpdatedAt
  {
    if AllPresent(row) && row.etaSeconds.None? then
      var eta := RowEta(s, gc, row);
      if eta.Some? then row.(etaSeconds := eta, etaUpdatedAt := Some(now)) else row
    else row
  }

  /** The per-pool body of the backfill loop; `updated` tells whether coordinates were written. */
  method BackfillPool(p: Pool, s: Services, gc: GreatCircle, now: Timestamp) returns (updated: bool)
    modifies p
    ensures p.Row() == BackfillRow(s, gc, now, old(p.Row()))
    ensures updated <==> GeocodedRow(s, old(p.Row())) != old(p.Row())
  {
    updated := GeocodeMissing(p, s);
    FillEta(p, s, gc, now);
  }

  /** The geocoding half: geocode each side whose coordinates are incomplete. */
  method GeocodeMissing(p: Pool, s: Services) returns (updated: bool)
    modifies p
    ensures p.Row() == GeocodedRow(s, old(p.Row()))
    ensures updated <==> p.Row() != old(p.Row())
  {
    updated := false;
    // Origin
    if (p.originLat.None? || p.originLng.None?) && p.origin != "" {
      var g := GeocodeAny(s, p.origin);
      if g.Some? && Truthy(g.value.lat) && Truthy(g.value.lon) {
        p.originLat, p.originLng := Some(g.value.lat), Some(g.value.lon);
        updated := true;
      }
    }
    // Destination
    if (p.destLat.None? || p.destLng.None?) && p.destination != "" {
      var g := GeocodeAny(s, p.destination);
      if g.Some? && Truthy(g.value.lat) && Truthy(g.value.lon) {
        p.destLat, p.destLng := Some(g.value.lat), Some(g.value.lon);
        updated := true;
      }
    }
  }

  /** The ETA half: compute an ETA when all four coordinates are truthy and none is stored. */
  method FillEta(p: Pool, s: Services, gc: GreatCircle, now: Timestamp)
    modifies p
    ensures p.Row() == FilledEtaRow(s, gc, now, old(p.Row()))
  {
    if Present(p.originLat) && Present(p.originLng) && Present(p.destLat) && Present(p.destLng)
       && p.etaSeconds.None? {
      var olat, olng, dlat, dlng := p.originLat.value, p.originLng.value, p.destLat.value, p.destLng.value;
      var route := RouteAny(s, Leg(olat, olng, dlat, dlng));
      if route.Some? && Present(route.value.durationSeconds) {
        if IsReasonable(gc, route, p.originLat, p.originLng, p.destLat, p.destLng,
                        MaxDurationSeconds, MaxDistanceRatio) {
          p.etaSeconds := Some(RoundHalfEven(route.value.durationSeconds.value));
          p.etaUpdatedAt := Some(now);
        } else {
          var miles := HaversineMiles(gc, p.originLat, p.originLng, p.destLat, p.destLng);
          if miles.Some? {
            var est := EstimateDurationSeconds(Some(miles.value * MetersPerMile), DefaultSpeedMph);
            if est.Some? && est.value != 0 {
              p.etaSeconds := est;
              p.etaUpdatedAt := Some(now);
            }
          }
        }
      } else {
        var miles := HaversineMiles(gc, p.originLat, p.originLng, p.destLat, p.destLng);
        if miles.Some? {
          var est := EstimateDurationSeconds(Some(miles.value * MetersPerMile), DefaultSpeedMph);
          if est.Some? && est.value != 0 {
            p.etaSeconds := est;
            p.etaUpdatedAt := Some(now);
          }
        }
      }
    }
  }

  /** `main`: every pool is visited once, in order. */
  method BackfillAll(pools: seq<Pool>, s: Services, gc: GreatCircle, now: Timestamp)
    requires Distinct(pools)
    modifies set p | p in pools
    ensures forall k :: 0 <= k < |pools| ==> pools[k].Row() == BackfillRow(s, gc, now, old(pools[k].Row()))
  {
    var i := 0;
    while i < |pools|
      invariant 0 <= i <= |pools|
      invariant forall k :: 0 <= k < i ==> pools[k].Row() == BackfillRow(s, gc, now, old(pools[k].Row()))
      invariant forall k :: i <= k < |pools| ==> pools[k].Row() == old(pools[k].Row())
    {
      var _ := BackfillPool(pools[i], s, gc, now);
      i := i + 1;
    }
  }
}
