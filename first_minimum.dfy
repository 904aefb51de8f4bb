/**
 * The selection rule of the nested candidate loop in
 * scripts/auto_select_geocodes.py, stated over the grid of pair durations:
 * pairs are visited origin-major, and a pair replaces the best so far only
 * when its duration is strictly smaller, so the first pair of least duration
 * wins.
 */
module FirstMinimum {
  import opened Wrappers

  /** A chosen pair: origin index, destination index and its duration. */
  datatype Choice = Choice(oi: nat, di: nat, eta: int)

  /** Every row of the grid has `n` entries (one per destination). */
  ghost predicate Grid(m: seq<seq<int>>, n: nat)
  {
    forall i :: 0 <= i < |m| ==> |m[i]| == n
  }

  /** Pair (i, j) is visited before pair (k, l): origin-major, destination-minor. */
  predicate Before(i: int, j: int, k: int, l: int)
  {
    i < k || (i == k && j < l)
  }

  /**
   * `c` is a pair among those visited before (i, j) whose duration is minimal
   * among them and strictly below that of every pair visited before it.
   */
  ghost predicate LeastSoFar(m: seq<seq<int>>, n: nat, c: Choice, i: int, j: int)
    requires Grid(m, n)
  {
    c.oi < |m| && c.di < n && Before(c.oi, c.di, i, j) && m[c.oi][c.di] == c.eta
    && forall i', j' :: 0 <= i' < |m| && 0 <= j' < n && Before(i', j', i, j) ==>
         c.eta <= m[i'][j'] && (Before(i', j', c.oi, c.di) ==> c.eta < m[i'][j'])
  }

  /** `c` has the least duration of the grid, and no earlier pair has the same duration. */
  ghost predicate IsFirstMinimum(m: seq<seq<int>>, n: nat, c: Choice)
    requires Grid(m, n)
  {
    c.oi < |m| && c.di < n && m[c.oi][c.di] == c.eta
    && forall i, j :: 0 <= i < |m| && 0 <= j < n ==>
         c.eta <= m[i][j] && (Before(i, j, c.oi, c.di) ==> c.eta < m[i][j])
  }

  /** The best pair after pair (i, j) of duration `dur` is looked at: only a strictly shorter one wins. */
  function Better(best: Option<Choice>, i: nat, j: nat, dur: int): (r: Option<Choice>)
    ensures r.Some?
    ensures best.Some? ==> r.value.eta <= best.value.eta && r.value.eta <= dur
    ensures r == best || r == Some(Choice(i, j, dur))
    ensures best.Some? && best.value.eta <= dur ==> r == best
  {
    if best.None? || dur < best.value.eta then Some(Choice(i, j, dur)) else best
  }

  /** The best pair among those visited before (i, j): the sequential reference for the loop. */
  ghost function BestUpTo(m: seq<seq<int>>, n: nat, i: nat, j: nat): Option<Choice>
    requires Grid(m, n) && i <= |m| && j <= n && (i < |m| || j == 0)
    decreases i, j
  {
    if j == 0 then
      if i == 0 then None else BestUpTo(m, n, i - 1, n)
    else
      Better(BestUpTo(m, n, i, j - 1), i, j - 1, m[i][j - 1])
  }

  /** A first pair, or one strictly shorter than the best so far, becomes the best. */
  lemma TakeShorter(m: seq<seq<int>>, n: nat, best: Option<Choice>, i: nat, j: nat)
    requires Grid(m, n) && i < |m| && j < n
    requires best.None? ==> i == 0 && j == 0
    requires best.Some? ==> LeastSoFar(m, n, best.value, i, j) && m[i][j] < best.value.eta
    ensures LeastSoFar(m, n, Choice(i, j, m[i][j]), i, j + 1)
  {
  }

  /** A pair that is not strictly shorter leaves the best so far in place. */
  lemma KeepBest(m: seq<seq<int>>, n: nat, c: Choice, i: nat, j: nat)
    requires Grid(m, n) && i < |m| && j < n
    requires LeastSoFar(m, n, c, i, j) && c.eta <= m[i][j]
    ensures LeastSoFar(m, n, c, i, j + 1)
  {
  }

  /** Finishing a row of destinations is starting the next origin. */
  lemma NextOrigin(m: seq<seq<int>>, n: nat, c: Choice, i: nat)
    requires Grid(m, n) && LeastSoFar(m, n, c, i, n)
    ensures LeastSoFar(m, n, c, i + 1, 0)
  {
    assert forall i', j' :: 0 <= j' < n ==> (Before(i', j', i + 1, 0) <==> Before(i', j', i, n));
  }

  /** Looking at pair (i, j) extends the first minimum so far by that pair. */
  lemma LookAtPair(m: seq<seq<int>>, n: nat, b: Option<Choice>, i: nat, j: nat)
    requires Grid(m, n) && i < |m| && j < n
    requires b.None? ==> i == 0 && j == 0
    requires b.Some? ==> LeastSoFar(m, n, b.value, i, j)
    ensures LeastSoFar(m, n, Better(b, i, j, m[i][j]).value, i, j + 1)
  {
    if b.None? || m[i][j] < b.value.eta {
      TakeShorter(m, n, b, i, j);
    } else {
      KeepBest(m, n, b.value, i, j);
    }
  }

  /** The reference is absent exactly before any pair, and is otherwise the first minimum so far. */
  lemma {:induction false} BestUpToIsLeast(m: seq<seq<int>>, n: nat, i: nat, j: nat)
    requires Grid(m, n) && i <= |m| && j <= n && (i < |m| || j == 0)
    ensures BestUpTo(m, n, i, j).None? <==> (i == 0 && j == 0) || n == 0
    ensures BestUpTo(m, n, i, j).Some? ==> LeastSoFar(m, n, BestUpTo(m, n, i, j).value, i, j)
    decreases i, j
  {
    if j == 0 {
      if i > 0 {
        BestUpToIsLeast(m, n, i - 1, n);
        var b := BestUpTo(m, n, i - 1, n);
        if b.Some? {
          NextOrigin(m, n, b.value, i - 1);
        }
      }
    } else {
      BestUpToIsLeast(m, n, i, j - 1);
      LookAtPair(m, n, BestUpTo(m, n, i, j - 1), i, j - 1);
    }
  }

  /** After every pair, the reference is the first minimum, and exists whenever the grid has a pair. */
  lemma BestIsFirstMinimum(m: seq<seq<int>>, n: nat)
    requires Grid(m, n)
    ensures BestUpTo(m, n, |m|, 0).None? <==> |m| == 0 || n == 0
    ensures BestUpTo(m, n, |m|, 0).Some? ==> IsFirstMinimum(m, n, BestUpTo(m, n, |m|, 0).value)
  {
    BestUpToIsLeast(m, n, |m|, 0);
    var b := BestUpTo(m, n, |m|, 0);
    if b.Some? {
      assert forall i', j' :: 0 <= i' < |m| ==> Before(i', j', |m|, 0);
    }
  }

  /** There is only one first minimum, so the selection is determined by the durations. */
  lemma FirstMinimumUnique(m: seq<seq<int>>, n: nat, c1: Choice, c2: Choice)
    requires Grid(m, n) && IsFirstMinimum(m, n, c1) && IsFirstMinimum(m, n, c2)
    ensures c1 == c2
  {
    assert c1.eta <= m[c2.oi][c2.di] && c2.eta <= m[c1.oi][c1.di];
    assert !Before(c1.oi, c1.di, c2.oi, c2.di);
    assert !Before(c2.oi, c2.di, c1.oi, c1.di);
  }
}
