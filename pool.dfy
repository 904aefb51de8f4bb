/**
 * The fields of a pool record that the trip-time scripts read and write
 * (app/models.py), as a mutable object and as a value snapshot.
 */
module Pools {
  import opened Wrappers

  /** The time a script runs, standing for `datetime.utcnow()`. */
  type Timestamp = int

  /** A snapshot of the estimation fields of one pool. */
  datatype PoolRow = PoolRow(
    origin: string,
    originLat: Option<real>,
    originLng: Option<real>,
    destination: string,
    destLat: Option<real>,
    destLng: Option<real>,
    etaSeconds: Option<int>,
    etaUpdatedAt: Option<Timestamp>)

  /** A pool row as the scripts see it: its fields are assigned in place. */
  class Pool {
    var origin: string
    var originLat: Option<real>
    var originLng: Option<real>
    var destination: string
    var destLat: Option<real>
    var destLng: Option<real>
    var etaSeconds: Option<int>
    var etaUpdatedAt: Option<Timestamp>

    constructor (row: PoolRow)
      ensures Row() == row
    {
      origin, originLat, originLng := row.origin, row.originLat, row.originLng;
      destination, destLat, destLng := row.destination, row.destLat, row.destLng;
      etaSeconds, etaUpdatedAt := row.etaSeconds, row.etaUpdatedAt;
    }

    /** The current values of the pool's fields. */
    function Row(): PoolRow
      reads this
    {
      PoolRow(origin, originLat, originLng, destination, destLat, destLng, etaSeconds, etaUpdatedAt)
    }
  }

  /** No pool occurs twice in the list the scripts iterate over. */
  ghost predicate Distinct(pools: seq<Pool>)
  {
    forall i, j :: 0 <= i < j < |pools| ==> pools[i] != pools[j]
  }

  /**
   * The selection filter of the repair scripts: `eta_seconds` is truthy and
   * exceeds the flag threshold.
   */
  predicate Flagged(eta: Option<int>, thresh: int)
    ensures Flagged(eta, thresh) ==> eta.Some? && eta.value > thresh
    // with a non-negative threshold the truthiness test adds nothing; with a negative one it drops a zero ETA
    ensures thresh >= 0 && eta.Some? && eta.value > thresh ==> Flagged(eta, thresh)
    ensures eta == Some(0) ==> !Flagged(eta, thresh)
  {
    eta.Some? && eta.value != 0 && eta.value > thresh
  }
}
