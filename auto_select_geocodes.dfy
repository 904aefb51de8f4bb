/**
 * scripts/auto_select_geocodes.py: for pools with a suspiciously long ETA, geocode
 * both addresses with every provider, add the stored coordinates, and keep the
 * origin/destination pair with the shortest duration.
 */
module AutoSelectGeocodes {
  import opened Wrappers
  import opened Geo
  import opened Pools
  import opened EtaRules
  import opened FirstMinimum

  /** A candidate point and where it came from. */
  datatype Candidate = Candidate(lat: real, lng: real, source: string)

  /** The adapter a provider entry stands for. */
  function Adapter(s: Services, g: GeoProvider, address: string): Option<LatLon>
  {
    match g
    case Ors => GeocodeOrs(s, address)
    case Mapbox => GeocodeMapbox(s, address)
    case Nominatim => GeocodeNominatim(s, address)
  }

  /** The Python function name of an adapter (`geocode_fn.__name__`). */
  function AdapterName(g: GeoProvider): string
  {
    match g
    case Ors => "geocode_ors"
    case Mapbox => "geocode_mapbox"
    case Nominatim => "geocode_nominatim"
  }

  /** `gather_candidates`: at most one candidate, labelled with the adapter's function name. */
  function GatherCandidates(s: Services, g: GeoProvider, address: string): (cands: seq<Candidate>)
    ensures |cands| <= 1
    ensures cands == [] <==> Adapter(s, g, address).None?
    ensures cands != [] ==>
      cands[0] == Candidate(Adapter(s, g, address).value.lat, Adapter(s, g, address).value.lon, AdapterName(g))
  {
    var ll := Adapter(s, g, address);
    if ll.Some? then [Candidate(ll.value.lat, ll.value.lon, AdapterName(g))] else []
  }

  /** `PROVIDERS`, in the order they are tried. */
  const ProviderList: seq<(string, GeoProvider)> := [("ors", Ors), ("mapbox", Mapbox), ("nominatim", Nominatim)]

  /** The candidate one provider contributes: its answer, whenever it has one. */
  function ProviderHit(s: Services, name: string, g: GeoProvider, address: string): (cands: seq<Candidate>)
    ensures |cands| <= 1
    ensures cands == [] <==> Adapter(s, g, address).None?
    ensures cands != [] ==>
      cands[0] == Candidate(Adapter(s, g, address).value.lat, Adapter(s, g, address).value.lon, name)
  {
    var ll := Adapter(s, g, address);
    if ll.Some? then [Candidate(ll.value.lat, ll.value.lon, name)] else []
  }

  /** The candidates the providers in `provs` contribute, in list order. */
  function HitsFrom(s: Services, address: string, provs: seq<(string, GeoProvider)>): (cands: seq<Candidate>)
    ensures |cands| <= |provs|
    ensures cands == [] <==> forall k :: 0 <= k < |provs| ==> Adapter(s, provs[k].1, address).None?
    decreases |provs|
  {
    if provs == [] then []
    else
      var last := provs[|provs| - 1];
      HitsFrom(s, address, provs[..|provs| - 1]) + ProviderHit(s, last.0, last.1, address)
  }

  /** The stored coordinates as a candidate, when both are truthy. */
  function StoredCandidate(lat: Option<real>, lng: Option<real>): (cands: seq<Candidate>)
    ensures cands != [] <==> Present(lat) && Present(lng)
    ensures cands != [] ==> cands == [Candidate(lat.value, lng.value, "stored")]
  {
    if Present(lat) && Present(lng) then [Candidate(lat.value, lng.value, "stored")] else []
  }

  /** `orig_cands`: at most one point per provider, then the stored origin when it is complete. */
  function OriginCandidates(s: Services, row: PoolRow): (cands: seq<Candidate>)
    ensures |cands| <= 4
    ensures Present(row.originLat) && Present(row.originLng) ==>
      cands != [] && cands[|cands| - 1] == Candidate(row.originLat.value, row.originLng.value, "stored")
    ensures cands == [] <==>
      (!(Present(row.originLat) && Present(row.originLng))
       && Adapter(s, Ors, row.origin).None? && Adapter(s, Mapbox, row.origin).None?
       && Adapter(s, Nominatim, row.origin).None?)
  {
    assert ProviderList[0].1 == Ors && ProviderList[1].1 == Mapbox && ProviderList[2].1 == Nominatim;
    HitsFrom(s, row.origin, ProviderList) + StoredCandidate(row.originLat, row.originLng)
  }

  /** `dest_cands`: at most one point per provider, then the stored destination when it is complete. */
  function DestCandidates(s: Services, row: PoolRow): (cands: seq<Candidate>)
    ensures |cands| <= 4
    ensures Present(row.destLat) && Present(row.destLng) ==>
      cands != [] && cands[|cands| - 1] == Candidate(row.destLat.value, row.destLng.value, "stored")
    ensures cands == [] <==>
      (!(Present(row.destLat) && Present(row.destLng))
       && Adapter(s, Ors, row.destination).None? && Adapter(s, Mapbox, row.destination).None?
       && Adapter(s, Nominatim, row.destination).None?)
  {
    assert ProviderList[0].1 == Ors && ProviderList[1].1 == Mapbox && ProviderList[2].1 == Nominatim;
    HitsFrom(s, row.destination, ProviderList) + StoredCandidate(row.destLat, row.destLng)
  }

  /** Candidates come in provider order ors, mapbox, nominatim, with the stored point last. */
  lemma {:induction false} CandidatesInProviderOrder(s: Services, address: string, lat: Option<real>, lng: Option<real>)
    ensures HitsFrom(s, address, ProviderList) + StoredCandidate(lat, lng)
            == ProviderHit(s, "ors", Ors, address) + ProviderHit(s, "mapbox", Mapbox, address)
               + ProviderHit(s, "nominatim", Nominatim, address) + StoredCandidate(lat, lng)
  {
    var p := ProviderList;
    assert p[..2][..1] == p[..1] && p[..2][1] == ("mapbox", Mapbox);
    assert p[..1][..0] == [] && p[..1][0] == ("ors", Ors);
    assert HitsFrom(s, address, p[..1]) == ProviderHit(s, "ors", Ors, address);
    assert HitsFrom(s, address, p[..2])
           == ProviderHit(s, "ors", Ors, address) + ProviderHit(s, "mapbox", Mapbox, address);
  }

  /** one pass over the providers, then the stored coordinates. */
  method CollectCandidates(s: Services, row: PoolRow) returns (orig: seq<Candidate>, dest: seq<Candidate>)
    ensures orig == OriginCandidates(s, row) && dest == DestCandidates(s, row)
  {
    orig, dest := [], [];
    var i := 0;
    while i < |ProviderList|
      invariant 0 <= i <= |ProviderList|
      invariant orig == HitsFrom(s, row.origin, ProviderList[..i])
      invariant dest == HitsFrom(s, row.destination, ProviderList[..i])
    {
      var (name, fn) := ProviderList[i];
      assert ProviderList[..i + 1][..i] == ProviderList[..i];
      var latlng := Adapter(s, fn, row.origin);
      if latlng.Some? {
        orig := orig + [Candidate(latlng.value.lat, latlng.value.lon, name)];
      }
      latlng := Adapter(s, fn, row.destination);
      if latlng.Some? {
        dest := dest + [Candidate(latlng.value.lat, latlng.value.lon, name)];
      }
      i := i + 1;
    }
    assert ProviderList[..i] == ProviderList;
    if Present(row.originLat) && Present(row.originLng) {
      orig := orig + [Candidate(row.originLat.value, row.originLng.value, "stored")];
    }
    if Present(row.destLat) && Present(row.destLng) {
      dest := dest + [Candidate(row.destLat.value, row.destLng.value, "stored")];
    }
  }

  /**
   * The duration of one origin/destination pair: the trusted routed duration,
   * else the straight-line estimate. Candidates always carry both coordinates,
   * so no pair is ever skipped.
   */
  function PairDuration(s: Services, gc: GreatCircle, o: Candidate, d: Candidate): (dur: Option<int>)
    ensures dur.Some?
    ensures UsableRoute(s, gc, o.lat, o.lng, d.lat, d.lng) ==> dur == RoutedSeconds(s, gc, o.lat, o.lng, d.lat, d.lng)
    ensures !UsableRoute(s, gc, o.lat, o.lng, d.lat, d.lng) ==> dur == EstimatedSeconds(gc, o.lat, o.lng, d.lat, d.lng)
  {
    var routed := RoutedSeconds(s, gc, o.lat, o.lng, d.lat, d.lng);
    if routed.Some? then routed else EstimatedSeconds(gc, o.lat, o.lng, d.lat, d.lng)
  }

  /** The grid of pair durations: row `i` holds the durations from origin candidate `i`. */
  ghost function Durations(s: Services, gc: GreatCircle, orig: seq<Candidate>, dest: seq<Candidate>): (m: seq<seq<int>>)
    ensures |m| == |orig| && Grid(m, |dest|)
  {
    seq(|orig|, i requires 0 <= i < |orig| =>
      seq(|dest|, j requires 0 <= j < |dest| => PairDuration(s, gc, orig[i], dest[j]).value))
  }

  /** Entry (i, j) of the grid is the duration of origin `i` to destination `j`. */
  lemma DurationAt(s: Services, gc: GreatCircle, orig: seq<Candidate>, dest: seq<Candidate>, i: nat, j: nat)
    requires i < |orig| && j < |dest|
    ensures PairDuration(s, gc, orig[i], dest[j]) == Some(Durations(s, gc, orig, dest)[i][j])
  {
  }

  /** `row` holds the durations from origin `o` to each destination, in order. */
  ghost predicate RowDurations(s: Services, gc: GreatCircle, o: Candidate, dest: seq<Candidate>, row: seq<int>)
  {
    |row| == |dest| && forall j :: 0 <= j < |dest| ==> PairDuration(s, gc, o, dest[j]) == Some(row[j])
  }

  /** Row `i` of the grid holds the durations from origin `i`. */
  lemma DurationsRow(s: Services, gc: GreatCircle, orig: seq<Candidate>, dest: seq<Candidate>, i: nat)
    requires i < |orig|
    ensures RowDurations(s, gc, orig[i], dest, Durations(s, gc, orig, dest)[i])
  {
    forall j | 0 <= j < |dest| {
      DurationAt(s, gc, orig, dest, i, j);
    }
  }

  /** `c` is the first origin/destination pair of least duration. */
  ghost predicate IsBestPair(s: Services, gc: GreatCircle, orig: seq<Candidate>, dest: seq<Candidate>, c: Choice)
  {
    c.oi < |orig| && c.di < |dest|
    && PairDuration(s, gc, orig[c.oi], dest[c.di]) == Some(c.eta)
    && forall i, j :: 0 <= i < |orig| && 0 <= j < |dest| ==>
         c.eta <= PairDuration(s, gc, orig[i], dest[j]).value
         && (Before(i, j, c.oi, c.di) ==> c.eta < PairDuration(s, gc, orig[i], dest[j]).value)
  }

  /** The first minimum of the duration grid is the best pair of candidates. */
  lemma GridMinimumIsBestPair(s: Services, gc: GreatCircle, orig: seq<Candidate>, dest: seq<Candidate>, c: Choice)
    requires IsFirstMinimum(Durations(s, gc, orig, dest), |dest|, c)
    ensures IsBestPair(s, gc, orig, dest, c)
  {
    forall i, j | 0 <= i < |orig| && 0 <= j < |dest| {
      DurationAt(s, gc, orig, dest, i, j);
    }
  }

  /** the duration of one pair, as the loop body computes it. */
  method MeasurePair(s: Services, gc: GreatCircle, o: Candidate, d: Candidate) returns (dur: Option<int>)
    ensures dur == PairDuration(s, gc, o, d)
  {
    var route := RouteAny(s, Leg(o.lat, o.lng, d.lat, d.lng));
    if route.Some? && Present(route.value.durationSeconds)
       && IsReasonable(gc, route, Some(o.lat), Some(o.lng), Some(d.lat), Some(d.lng),
                       MaxDurationSeconds, MaxDistanceRatio) {
      dur := Some(RoundHalfEven(route.value.durationSeconds.value));
    } else {
      var miles := HaversineMiles(gc, Some(o.lat), Some(o.lng), Some(d.lat), Some(d.lng));
      if miles.None? {
        dur := None;
      } else {
        dur := EstimateDurationSeconds(Some(miles.value * MetersPerMile), DefaultSpeedMph);
      }
    }
  }

  /** the nested loop keeping the strictly smaller duration. */
  method SelectBest(s: Services, gc: GreatCircle, orig: seq<Candidate>, dest: seq<Candidate>)
    returns (best: Option<Choice>)
    ensures best == BestUpTo(Durations(s, gc, orig, dest), |dest|, |orig|, 0)
    ensures best.None? <==> orig == [] || dest == []
    ensures best.Some? ==> IsBestPair(s, gc, orig, dest, best.value)
  {
    best := ScanOrigins(s, gc, orig, dest);
    SelectionIsBestPair(s, gc, orig, dest);
  }

  /** the outer loop over the origins; each pass scans every destination. */
  method ScanOrigins(s: Services, gc: GreatCircle, orig: seq<Candidate>, dest: seq<Candidate>)
    returns (best: Option<Choice>)
    ensures best == BestUpTo(Durations(s, gc, orig, dest), |dest|, |orig|, 0)
  {
    ghost var m := Durations(s, gc, orig, dest);
    best := None;
    var i := 0;
    while i < |orig|
      invariant 0 <= i <= |orig|
      invariant best == BestUpTo(m, |dest|, i, 0)
    {
      DurationsRow(s, gc, orig, dest, i);
      best := ScanDestinations(s, gc, orig, dest, i, best, m);
      i := i + 1;
    }
  }

  /** After every pair, the selection exists iff both lists are non-empty, and is then the best pair. */
  lemma SelectionIsBestPair(s: Services, gc: GreatCircle, orig: seq<Candidate>, dest: seq<Candidate>)
    ensures var b := BestUpTo(Durations(s, gc, orig, dest), |dest|, |orig|, 0);
            (b.None? <==> orig == [] || dest == [])
            && (b.Some? ==> IsBestPair(s, gc, orig, dest, b.value))
  {
    var m := Durations(s, gc, orig, dest);
    BestIsFirstMinimum(m, |dest|);
    var b := BestUpTo(m, |dest|, |orig|, 0);
    if b.Some? {
      GridMinimumIsBestPair(s, gc, orig, dest, b.value);
    }
  }

  /** one pass of the inner loop, over the destinations for origin `i`; `m` is the duration grid. */
  method ScanDestinations(s: Services, gc: GreatCircle, orig: seq<Candidate>, dest: seq<Candidate>,
                          i: nat, best0: Option<Choice>, ghost m: seq<seq<int>>) returns (best: Option<Choice>)
    requires i < |orig| == |m| && Grid(m, |dest|)
    requires RowDurations(s, gc, orig[i], dest, m[i])
    requires best0 == BestUpTo(m, |dest|, i, 0)
    ensures best == BestUpTo(m, |dest|, i, |dest|)
  {
    best := best0;
    var j := 0;
    while j < |dest|
      invariant 0 <= j <= |dest|
      invariant best == BestUpTo(m, |dest|, i, j)
    {
      best := ConsiderPair(s, gc, orig[i], dest[j], i, j, best, m[i][j]);
      j := j + 1;
    }
  }

  /** one pair is measured and becomes the best only if strictly shorter. */
  method ConsiderPair(s: Services, gc: GreatCircle, o: Candidate, d: Candidate,
                      i: nat, j: nat, best0: Option<Choice>, ghost dur0: int) returns (best: Option<Choice>)
    requires PairDuration(s, gc, o, d) == Some(dur0)
    ensures best == Better(best0, i, j, dur0)
  {
    best := best0;
    var dur := MeasurePair(s, gc, o, d);
    if dur.Some? {
      if best.None? || dur.value < best.value.eta {
        best := Some(Choice(i, j, dur.value));
      }
    }
  }

  /**
   * With a truthy best duration, write the chosen coordinates and
   * duration; the timestamp moves exactly when one of them differed.
   */
  function ApplyBestRow(row: PoolRow, orig: seq<Candidate>, dest: seq<Candidate>, best: Option<Choice>,
                        now: Timestamp): (r: PoolRow)
    requires best.Some? ==> best.value.oi < |orig| && best.value.di < |dest|
    ensures r.origin == row.origin && r.destination == row.destination
    ensures best.None? || best.value.eta == 0 ==> r == row
    ensures best.Some? && best.value.eta != 0 ==>
      var o, d := orig[best.value.oi], dest[best.value.di];
      r.originLat == Some(o.lat) && r.originLng == Some(o.lng)
      && r.destLat == Some(d.lat) && r.destLng == Some(d.lng)
      && r.etaSeconds == Some(best.value.eta)
      && r.etaUpdatedAt == if (row.originLat, row.originLng, row.destLat, row.destLng, row.etaSeconds)
                              == (r.originLat, r.originLng, r.destLat, r.destLng, r.etaSeconds)
                           then row.etaUpdatedAt else Some(now)
  {
    if best.None? || best.value.eta == 0 then row
    else
      var o, d, eta := orig[best.value.oi], dest[best.value.di], best.value.eta;
      var update := row.originLat != Some(o.lat) || row.originLng != Some(o.lng)
                    || row.destLat != Some(d.lat) || row.destLng != Some(d.lng)
                    || row.etaSeconds != Some(eta);
      var written := row.(originLat := Some(o.lat), originLng := Some(o.lng),
                          destLat := Some(d.lat), destLng := Some(d.lng), etaSeconds := Some(eta));
      if update then written.(etaUpdatedAt := Some(now)) else row
  }

  /** The write-back of the chosen pair, field by field with the `update` flag. */
  method ApplyBest(p: Pool, orig: seq<Candidate>, dest: seq<Candidate>, best: Option<Choice>, now: Timestamp)
    returns (update: bool)
    requires best.Some? ==> best.value.oi < |orig| && best.value.di < |dest|
    modifies p
    ensures p.Row() == ApplyBestRow(old(p.Row()), orig, dest, best, now)
  {
    update := false;
    if best.Some? && best.value.eta != 0 {
      var o, d := orig[best.value.oi], dest[best.value.di];
      if p.originLat != Some(o.lat) || p.originLng != Some(o.lng) {
        p.originLat, p.originLng := Some(o.lat), Some(o.lng);
        update := true;
      }
      if p.destLat != Some(d.lat) || p.destLng != Some(d.lng) {
        p.destLat, p.destLng := Some(d.lat), Some(d.lng);
        update := true;
      }
      if p.etaSeconds != Some(best.value.eta) {
        p.etaSeconds := Some(best.value.eta);
        update := true;
      }
      if update {
        p.etaUpdatedAt := Some(now);
      }
    }
  }

  /** What one pool goes through: untouched unless flagged, else the first minimum is written back. */
  ghost predicate AutoSelectStep(s: Services, gc: GreatCircle, thresh: int, now: Timestamp,
                                 before: PoolRow, after: PoolRow, best: Option<Choice>)
  {
    if !Flagged(before.etaSeconds, thresh) then after == before && best.None?
    else
      var orig, dest := OriginCandidates(s, before), DestCandidates(s, before);
      (best.None? <==> orig == [] || dest == [])
      && (best.Some? ==> IsBestPair(s, gc, orig, dest, best.value))
      && after == ApplyBestRow(before, orig, dest, best, now)
  }

  /** The per-pool body of `main`. */
  method AutoSelectPool(p: Pool, s: Services, gc: GreatCircle, thresh: int, now: Timestamp)
    returns (best: Option<Choice>)
    modifies p
    ensures AutoSelectStep(s, gc, thresh, now, old(p.Row()), p.Row(), best)
  {
    best := None;
    if Flagged(p.etaSeconds, thresh) {
      var orig, dest := CollectCandidates(s, p.Row());
      best := SelectBest(s, gc, orig, dest);
      var _ := ApplyBest(p, orig, dest, best, now);
    }
  }

  /** `main`: every flagged pool in turn; `picks[k]` is the pair chosen for `pools[k]`. */
  method AutoSelectAll(pools: seq<Pool>, s: Services, gc: GreatCircle, thresh: int, now: Timestamp)
    returns (picks: seq<Option<Choice>>)
    requires Distinct(pools)
    modifies set p | p in pools
    ensures |picks| == |pools|
    ensures forall k :: 0 <= k < |pools| ==>
      AutoSelectStep(s, gc, thresh, now, old(pools[k].Row()), pools[k].Row(), picks[k])
  {
    picks := [];
    var i := 0;
    while i < |pools|
      invariant 0 <= i <= |pools| && |picks| == i
      invariant forall k :: 0 <= k < i ==>
        AutoSelectStep(s, gc, thresh, now, old(pools[k].Row()), pools[k].Row(), picks[k])
      invariant forall k :: i <= k < |pools| ==> pools[k].Row() == old(pools[k].Row())
    {
      var best := AutoSelectPool(pools[i], s, gc, thresh, now);
      picks := picks + [best];
      i := i + 1;
    }
  }
}
