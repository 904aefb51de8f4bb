/**
 * scripts/regeocode_fix.py: for pools with a suspiciously long ETA, re-geocode
 * both addresses with `geocode_mapbox`, replace stored coordinates that are
 * missing or far off, and recompute the ETA after a replacement.
 */
module RegeocodeFix {
  import opened Wrappers
  import opened Geo
  import opened Pools
  import opened EtaRules

  /** `meters_between`: the straight-line distance in metres, absent if any coordinate is. */
  function MetersBetween(gc: GreatCircle, lat1: Option<real>, lon1: Option<real>,
                         lat2: Option<real>, lon2: Option<real>): (m: Option<real>)
    ensures m.None? <==> lat1.None? || lon1.None? || lat2.None? || lon2.None?
    ensures m.Some? ==> m.value == StraightMeters(gc, lat1.value, lon1.value, lat2.value, lon2.value)
  {
    if lat1.None? || lon1.None? || lat2.None? || lon2.None? then None
    else
      var miles := HaversineMiles(gc, lat1, lon1, lat2, lon2);
      if miles.None? then None else Some(miles.value * MetersPerMile)
  }

  /**
   * Whether one side's stored coordinates are replaced by the found geocode: the
   * found coordinates must be truthy, and the stored ones missing or more than
   * `distDiff` metres away; a distance of exactly zero never counts as far.
   */
  function ReplaceSide(gc: GreatCircle, distDiff: int, storedLat: Option<real>, storedLng: Option<real>,
                       found: Option<LatLon>): (replace: bool)
    ensures replace <==>
      TruthyPair(found)
      && (storedLat.None? || storedLng.None?
          || (var m := StraightMeters(gc, storedLat.value, storedLng.value, found.value.lat, found.value.lon);
              m != 0.0 && m > distDiff as real))
  {
    var diff := if TruthyPair(found) && storedLat.Some? && storedLng.Some?
                then MetersBetween(gc, storedLat, storedLng, Some(found.value.lat), Some(found.value.lon))
                else None;
    (diff.None? || (diff.value != 0.0 && diff.value > distDiff as real)) && TruthyPair(found)
  }

  /** One side's coordinates after the replacement rule. */
  function SideAfter(gc: GreatCircle, distDiff: int, lat: Option<real>, lng: Option<real>,
                     found: Option<LatLon>): (c: (Option<real>, Option<real>))
    ensures ReplaceSide(gc, distDiff, lat, lng, found) ==> c == (Some(found.value.lat), Some(found.value.lon))
    ensures !ReplaceSide(gc, distDiff, lat, lng, found) ==> c == (lat, lng)
  {
    if ReplaceSide(gc, distDiff, lat, lng, found) then (Some(found.value.lat), Some(found.value.lon))
    else (lat, lng)
  }

  /** What the re-geocode does to one flagged pool. */
  function RegeocodeRow(s: Services, gc: GreatCircle, distDiff: int, now: Timestamp, row: PoolRow): (r: PoolRow)
    ensures r.origin == row.origin && r.destination == row.destination
    // each side follows the replacement rule on its own inputs only
    ensures (r.originLat, r.originLng)
            == SideAfter(gc, distDiff, row.originLat, row.originLng, GeocodeMapbox(s, row.origin))
    ensures (r.destLat, r.destLng)
            == SideAfter(gc, distDiff, row.destLat, row.destLng, GeocodeMapbox(s, row.destination))
    // without a replacement the pool is untouched
    ensures !ReplaceSide(gc, distDiff, row.originLat, row.originLng, GeocodeMapbox(s, row.origin))
            && !ReplaceSide(gc, distDiff, row.destLat, row.destLng, GeocodeMapbox(s, row.destination))
            ==> r == row
    // after a replacement, with all four coordinates truthy: new ETA if one is available, new timestamp
    ensures (ReplaceSide(gc, distDiff, row.originLat, row.originLng, GeocodeMapbox(s, row.origin))
             || ReplaceSide(gc, distDiff, row.destLat, row.destLng, GeocodeMapbox(s, row.destination)))
            && AllPresent(r) ==>
      r.etaUpdatedAt == Some(now)
      && r.etaSeconds == (if RowEta(s, gc, r).Some? then RowEta(s, gc, r) else row.etaSeconds)
    // otherwise the ETA fields are left alone
    ensures !AllPresent(r) ==> r.etaSeconds == row.etaSeconds && r.etaUpdatedAt == row.etaUpdatedAt
  {
    var fo := GeocodeMapbox(s, row.origin);
    var fd := GeocodeMapbox(s, row.destination);
    var ro := ReplaceSide(gc, distDiff, row.originLat, row.originLng, fo);
    var rd := ReplaceSide(gc, distDiff, row.destLat, row.destLng, fd);
    if !ro && !rd then row
    else
      var o := SideAfter(gc, distDiff, row.originLat, row.originLng, fo);
      var d := SideAfter(gc, distDiff, row.destLat, row.destLng, fd);
      var row1 := row.(originLat := o.0, originLng := o.1, destLat := d.0, destLng := d.1);
      if AllPresent(row1) then
        var eta := RowEta(s, gc, row1);
        row1.(etaSeconds := if eta.Some? then eta else row.etaSeconds, etaUpdatedAt := Some(now))
      else row1
  }

  /** A re-geocode landing exactly on the stored point never replaces it. */
  lemma ZeroDiffKeepsStored(s: Services, gc: GreatCircle, distDiff: int, now: Timestamp, row: PoolRow)
    requires row.originLat.Some? && row.originLng.Some?
    requires GeocodeMapbox(s, row.origin) == Some(LatLon(row.originLat.value, row.originLng.value))
    requires gc(row.originLat.value, row.originLng.value, row.originLat.value, row.originLng.value) == 0.0
    ensures RegeocodeRow(s, gc, distDiff, now, row).originLat == row.originLat
    ensures RegeocodeRow(s, gc, distDiff, now, row).originLng == row.originLng
  {
    assert !ReplaceSide(gc, distDiff, row.originLat, row.originLng, GeocodeMapbox(s, row.origin));
  }

  /** The per-pool body of the loop; `changed` tells whether coordinates were replaced. */
  method RegeocodePool(p: Pool, s: Services, gc: GreatCircle, distDiff: int, now: Timestamp)
    returns (changed: bool)
    modifies p
    ensures p.Row() == RegeocodeRow(s, gc, distDiff, now, old(p.Row()))
    ensures changed <==> ReplaceSide(gc, distDiff, old(p.originLat), old(p.originLng), GeocodeMapbox(s, old(p.origin)))
                         || ReplaceSide(gc, distDiff, old(p.destLat), old(p.destLng), GeocodeMapbox(s, old(p.destination)))
  {
    var fo := GeocodeMapbox(s, p.origin);
    var fd := GeocodeMapbox(s, p.destination);
    var originChanged := ReplaceOrigin(p, gc, distDiff, fo);
    var destChanged := ReplaceDestination(p, gc, distDiff, fd);
    changed := originChanged || destChanged;
    if changed {
      RecomputeEta(p, s, gc, now);
    }
  }

  /** The origin half of the replacement rule, as the loop body writes it. */
  method ReplaceOrigin(p: Pool, gc: GreatCircle, distDiff: int, found: Option<LatLon>) returns (changed: bool)
    modifies p
    ensures changed == ReplaceSide(gc, distDiff, old(p.originLat), old(p.originLng), found)
    ensures p.Row() == old(p.Row()).(originLat := SideAfter(gc, distDiff, old(p.originLat), old(p.originLng), found).0,
                                     originLng := SideAfter(gc, distDiff, old(p.originLat), old(p.originLng), found).1)
  {
    changed := false;
    var diff: Option<real>;
    if TruthyPair(found) && p.originLat.Some? && p.originLng.Some? {
      diff := MetersBetween(gc, p.originLat, p.originLng, Some(found.value.lat), Some(found.value.lon));
    } else {
      diff := None;
    }
    if diff.None? || (diff.value != 0.0 && diff.value > distDiff as real) {
      if TruthyPair(found) {
        p.originLat, p.originLng := Some(found.value.lat), Some(found.value.lon);
        changed := true;
      }
    }
  }

  /** The destination half of the replacement rule, independent of the origin. */
  method ReplaceDestination(p: Pool, gc: GreatCircle, distDiff: int, found: Option<LatLon>) returns (changed: bool)
    modifies p
    ensures changed == ReplaceSide(gc, distDiff, old(p.destLat), old(p.destLng), found)
    ensures p.Row() == old(p.Row()).(destLat := SideAfter(gc, distDiff, old(p.destLat), old(p.destLng), found).0,
                                     destLng := SideAfter(gc, distDiff, old(p.destLat), old(p.destLng), found).1)
  {
    changed := false;
    var ddiff: Option<real>;
    if TruthyPair(found) && p.destLat.Some? && p.destLng.Some? {
      ddiff := MetersBetween(gc, p.destLat, p.destLng, Some(found.value.lat), Some(found.value.lon));
    } else {
      ddiff := None;
    }
    if ddiff.None? || (ddiff.value != 0.0 && ddiff.value > distDiff as real) {
      if TruthyPair(found) {
        p.destLat, p.destLng := Some(found.value.lat), Some(found.value.lon);
        changed := true;
      }
    }
  }

  /** The recomputation after a replacement: routed, else estimated, else the old ETA. */
  method RecomputeEta(p: Pool, s: Services, gc: GreatCircle, now: Timestamp)
    modifies p
    ensures AllPresent(old(p.Row())) ==>
      var eta := RowEta(s, gc, old(p.Row()));
      p.Row() == old(p.Row()).(etaSeconds := if eta.Some? then eta else old(p.etaSeconds), etaUpdatedAt := Some(now))
    ensures !AllPresent(old(p.Row())) ==> p.Row() == old(p.Row())
  {
    if Present(p.originLat) && Present(p.originLng) && Present(p.destLat) && Present(p.destLng) {
      var olat, olng, dlat, dlng := p.originLat.value, p.originLng.value, p.destLat.value, p.destLng.value;
      var route := RouteAny(s, Leg(olat, olng, dlat, dlng));
      if route.Some? && Present(route.value.durationSeconds)
         && IsReasonable(gc, route, p.originLat, p.originLng, p.destLat, p.destLng,
                         MaxDurationSeconds, MaxDistanceRatio) {
        p.etaSeconds := Some(RoundHalfEven(route.value.durationSeconds.value));
      } else {
        var miles := HaversineMiles(gc, p.originLat, p.originLng, p.destLat, p.destLng);
        if miles.Some? {
          var est := EstimateDurationSeconds(Some(miles.value * MetersPerMile), DefaultSpeedMph);
          if est.Some? && est.value != 0 {
            p.etaSeconds := est;
          }
        }
      }
      p.etaUpdatedAt := Some(now);
    }
  }

  /** `main`: only flagged pools are re-geocoded, one after the other. */
  method RegeocodeAll(pools: seq<Pool>, s: Services, gc: GreatCircle, etaThresh: int, distDiff: int, now: Timestamp)
    requires Distinct(pools)
    modifies set p | p in pools
    ensures forall k :: 0 <= k < |pools| ==>
      pools[k].Row() == if Flagged(old(pools[k].etaSeconds), etaThresh)
                        then RegeocodeRow(s, gc, distDiff, now, old(pools[k].Row()))
                        else old(pools[k].Row())
  {
    var i := 0;
    while i < |pools|
      invariant 0 <= i <= |pools|
      invariant forall k :: 0 <= k < i ==>
        pools[k].Row() == if Flagged(old(pools[k].etaSeconds), etaThresh)
                          then RegeocodeRow(s, gc, distDiff, now, old(pools[k].Row()))
                          else old(pools[k].Row())
      invariant forall k :: i <= k < |pools| ==> pools[k].Row() == old(pools[k].Row())
    {
      if Flagged(pools[i].etaSeconds, etaThresh) {
        var _ := RegeocodePool(pools[i], s, gc, distDiff, now);
      }
      i := i + 1;
    }
  }
}
