/**
 * The counting rule of `np.histogram(a, bins)` for an array of bin edges:
 * the edges must not decrease (otherwise NumPy raises ValueError), every bin
 * is half-open [e[i], e[i+1]) except the last, which is closed, and values
 * outside [e[0], e[last]] are not counted at all.
 */
module Histograms {
  import opened Wrappers
  import opened Tables

  /**
   * The edges never decrease, read from the front: the first two are in order
   * and so is the rest. This is NumPy's check on the edge array, which
   * raises ValueError when some edge is greater than the next.
   */
  predicate Monotonic(e: seq<real>)
    ensures Monotonic(e) <==> forall i :: 0 <= i < |e| - 1 ==> e[i] <= e[i + 1]
    decreases |e|
  {
    |e| < 2 || (e[0] <= e[1] && Monotonic(e[1..]))
  }

  lemma {:induction false} MonotonicPairwise(e: seq<real>, i: nat, j: nat)
    requires Monotonic(e) && i <= j < |e|
    ensures e[i] <= e[j]
    decreases j - i
  {
    if i < j {
      MonotonicPairwise(e, i + 1, j);
    }
  }

  /** The number of values NumPy puts in bin `i`. */
  function CountInBin(s: seq<real>, e: seq<real>, i: nat): (r: nat)
    requires 0 <= i < |e| - 1
    ensures r <= |s|
    ensures r == 0 <==> forall x :: x in s ==> x < e[i] || x > e[i + 1] || (x == e[i + 1] && i < |e| - 2)
  {
    var c := if i < |e| - 2 then HalfOpen(e[i], e[i + 1]) else Closed(e[i], e[i + 1]);
    SelectKeepsNone(s, c);
    assert forall x :: x in s ==> (Holds(c, x) <==> !(x < e[i] || x > e[i + 1] || (x == e[i + 1] && i < |e| - 2)));
    |Select(s, c)|
  }

  /** `np.histogram(s, e)[0]`, or None where NumPy raises because the edges decrease. */
  function Histogram(s: seq<real>, e: seq<real>): (r: Option<seq<nat>>)
    requires |e| >= 2
    ensures r.Some? <==> Monotonic(e)
    ensures r.Some? ==> |r.value| == |e| - 1
  {
    if Monotonic(e) then Some(seq(|e| - 1, i requires 0 <= i < |e| - 1 => CountInBin(s, e, i)))
    else None
  }

  /** `sum(counts)`: zero exactly when every bin is empty. */
  function Total(q: seq<nat>): (r: nat)
    ensures r == 0 <==> forall i :: 0 <= i < |q| ==> q[i] == 0
  {
    if q == [] then 0
    else
      assert forall i :: 0 < i < |q| ==> q[i] == q[1..][i - 1];
      q[0] + Total(q[1..])
  }

  /**
   * The bin counts add up to the number of values in the closed range
   * [e[0], e[last]]: no value is counted twice, and none inside the range is lost.
   */
  lemma {:induction false} CountsTelescope(s: seq<real>, e: seq<real>, q: seq<nat>)
    requires |e| >= 2 && Monotonic(e) && |q| == |e| - 1
    requires forall i :: 0 <= i < |q| ==> q[i] == CountInBin(s, e, i)
    ensures Total(q) == |Select(s, Closed(e[0], e[|e| - 1]))|
    decreases |e|
  {
    var last := |e| - 1;
    if |e| == 2 {
      assert q[1..] == [];
    } else {
      var e', q' := e[1..], q[1..];
      forall i | 0 <= i < |q'| ensures q'[i] == CountInBin(s, e', i) {
        assert q'[i] == q[i + 1];
        assert e'[i] == e[i + 1] && e'[i + 1] == e[i + 2];
        assert CountInBin(s, e', i) == CountInBin(s, e, i + 1);
      }
      assert Monotonic(e') by {
        forall i | 0 <= i < |e'| - 1 ensures e'[i] <= e'[i + 1] {
          assert e'[i] == e[i + 1] && e'[i + 1] == e[i + 2];
        }
      }
      CountsTelescope(s, e', q');
      MonotonicPairwise(e, 1, last);
      assert e'[|e'| - 1] == e[last];
      assert e[0] <= e[1] <= e[last];
      ClosedHolds(e[0], e[last]);
      HalfOpenHolds(e[0], e[1]);
      ClosedHolds(e[1], e[last]);
      SelectPartition(s, Closed(e[0], e[last]), HalfOpen(e[0], e[1]), Closed(e[1], e[last]));
    }
  }

  /** The histogram counts every value exactly when all values lie in [e[0], e[last]]. */
  lemma HistogramCountsAll(s: seq<real>, e: seq<real>)
    requires |e| >= 2 && Monotonic(e)
    ensures Total(Histogram(s, e).value) == |s| <==> forall x :: x in s ==> e[0] <= x <= e[|e| - 1]
  {
    CountsTelescope(s, e, Histogram(s, e).value);
    SelectKeepsAll(s, Closed(e[0], e[|e| - 1]));
  }

  /**
   * A single value lands in exactly one bin: the bin whose range holds it,
   * an interior edge belonging to the bin above it and the last edge to the last bin.
   */
  lemma OneValueOneBin(x: real, e: seq<real>, i: nat)
    requires |e| >= 2 && Monotonic(e) && i < |e| - 1
    requires if i < |e| - 2 then e[i] <= x < e[i + 1] else e[i] <= x <= e[i + 1]
    ensures forall j :: 0 <= j < |e| - 1 ==> Histogram([x], e).value[j] == if j == i then 1 else 0
  {
    forall j | 0 <= j < |e| - 1 ensures CountInBin([x], e, j) == if j == i then 1 else 0 {
      SelectSingleton(x, if j < |e| - 2 then HalfOpen(e[j], e[j + 1]) else Closed(e[j], e[j + 1]));
      if j < i {
        MonotonicPairwise(e, j + 1, i);
      } else if j > i {
        MonotonicPairwise(e, i + 1, j);
      }
    }
  }
}
