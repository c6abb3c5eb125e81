/**
 * The three functions of the particle pipeline: geometric bin edges
 * (`bin_creator`), the two-stage size filter (`size_filter`) and the
 * area-per-bin normalisation (`normalise_data`).
 *
 * Areas are reals; the bin ratio `10**bin_multiplier` is the parameter
 * `binRatio`, since only its value enters the edges.
 */
module ParticleFunctions {
  import opened Wrappers
  import opened Tables
  import opened Histograms

  /** `bin_creator` fills an array of this many edges, so there are one fewer bins. */
  const EdgeCount: nat := 46
  const BinCount: nat := EdgeCount - 1

  function Pow(r: real, n: nat): (p: real) {
    if n == 0 then 1.0 else r * Pow(r, n - 1)
  }

  lemma {:induction false} PowPositive(r: real, n: nat)
    requires r > 0.0
    ensures Pow(r, n) > 0.0
  {
    if n > 0 {
      PowPositive(r, n - 1);
    }
  }

  lemma {:induction false} PowIncreasing(r: real, i: nat, j: nat)
    requires r > 1.0 && i < j
    ensures Pow(r, i) < Pow(r, j)
    decreases j - i
  {
    PowPositive(r, j - 1);
    if i < j - 1 {
      PowIncreasing(r, i, j - 1);
    }
    MulLeftStrict(Pow(r, j - 1), 1.0, r);
    assert Pow(r, j) == r * Pow(r, j - 1);
  }

  /** The edges `bin_creator` produces: edge i is minBinSize * binRatio^i. */
  function GeometricEdges(minBinSize: real, binRatio: real): (e: seq<real>)
    ensures |e| == EdgeCount && e[0] == minBinSize
  {
    seq(EdgeCount, i requires 0 <= i < EdgeCount => minBinSize * Pow(binRatio, i))
  }

  /** Each edge is the previous one times the ratio. */
  lemma GeometricRecurrence(minBinSize: real, binRatio: real)
    ensures var e := GeometricEdges(minBinSize, binRatio);
      forall i :: 0 <= i < BinCount ==> e[i + 1] == e[i] * binRatio
  {
    forall i | 0 <= i < BinCount {
      GeometricStep(minBinSize, binRatio, i);
    }
  }

  lemma GeometricStep(minBinSize: real, binRatio: real, i: nat)
    requires i < BinCount
    ensures GeometricEdges(minBinSize, binRatio)[i + 1] == GeometricEdges(minBinSize, binRatio)[i] * binRatio
  {
    assert Pow(binRatio, i + 1) == binRatio * Pow(binRatio, i);
  }

  /** A positive first edge and a ratio above one give strictly increasing edges. */
  lemma GeometricIncreasing(minBinSize: real, binRatio: real)
    requires minBinSize > 0.0 && binRatio > 1.0
    ensures var e := GeometricEdges(minBinSize, binRatio);
      forall i, j :: 0 <= i < j < EdgeCount ==> e[i] < e[j]
  {
    var e := GeometricEdges(minBinSize, binRatio);
    forall i, j | 0 <= i < j < EdgeCount ensures e[i] < e[j] {
      PowIncreasing(binRatio, i, j);
      MulLeftStrict(minBinSize, Pow(binRatio, i), Pow(binRatio, j));
    }
  }

  lemma MulLeftStrict(m: real, a: real, b: real)
    requires m > 0.0 && a < b
    ensures m * a < m * b
  {
    assert m * b - m * a == m * (b - a);
  }

  /**
   * For a positive ratio (as every power of ten is), NumPy accepts the edges
   * exactly when the first edge and (ratio - 1) do not have opposite signs.
   */
  lemma GeometricMonotonic(minBinSize: real, binRatio: real)
    requires binRatio > 0.0
    ensures Monotonic(GeometricEdges(minBinSize, binRatio)) <==> minBinSize * (binRatio - 1.0) >= 0.0
  {
    var e := GeometricEdges(minBinSize, binRatio);
    GeometricRecurrence(minBinSize, binRatio);
    if minBinSize * (binRatio - 1.0) >= 0.0 {
      forall i | 0 <= i < |e| - 1 ensures e[i] <= e[i + 1] {
        PowPositive(binRatio, i);
        var p := Pow(binRatio, i);
        assert e[i + 1] - e[i] == p * (minBinSize * (binRatio - 1.0));
        NonNegativeProduct(p, minBinSize * (binRatio - 1.0));
      }
    } else {
      assert e[1] - e[0] == minBinSize * (binRatio - 1.0);
    }
  }

  lemma NonNegativeProduct(a: real, b: real)
    requires a >= 0.0 && b >= 0.0
    ensures a * b >= 0.0
  {
  }

  /**
   * A NumPy float quotient. Division by zero produces inf or nan in NumPy
   * (with a warning, not an exception); the model only records that the
   * result is not a finite number.
   */
  datatype Quotient = Finite(value: real) | NotFinite

  function Divide(x: real, d: real): (q: Quotient)
    ensures q.Finite? <==> d != 0.0
    ensures q.Finite? ==> q.value * d == x
  {
    if d == 0.0 then NotFinite else Finite(x / d)
  }

  /** `sum` over NumPy quotients: any non-finite term makes the sum non-finite. */
  function QuotientSum(q: seq<Quotient>): (r: Quotient)
    ensures r.Finite? <==> forall i :: 0 <= i < |q| ==> q[i].Finite?
  {
    if q == [] then Finite(0.0)
    else
      assert forall i :: 0 < i < |q| ==> q[i] == q[1..][i - 1];
      match (q[0], QuotientSum(q[1..]))
      case (Finite(a), Finite(b)) => Finite(a + b)
      case _ => NotFinite
  }

  /**
   * The `bins_df` data frame: one row per bin, the columns `Bins lower` and
   * `Bins upper` set when it is built, and `Counts`, `Total bin values` and
   * `Normal bin values` (None until assigned) added later in place.
   */
  class BinsFrame {
    var lower: seq<real>
    var upper: seq<real>
    var counts: Option<seq<nat>>
    var totals: Option<seq<real>>
    var normals: Option<seq<Quotient>>

    /** Every column has one entry per row, and each bin ends where the next begins. */
    ghost predicate Valid()
      reads this
    {
      && |upper| == |lower|
      && (forall i :: 0 <= i < |lower| - 1 ==> upper[i] == lower[i + 1])
      && (counts.Some? ==> |counts.value| == |lower|)
      && (totals.Some? ==> |totals.value| == |lower|)
      && (normals.Some? ==> |normals.value| == |lower|)
    }

    /** `pd.DataFrame(data = bins[:-1], ...)` followed by `bins_df['Bins upper'] = bins[1:]`. */
    constructor (bins: seq<real>)
      requires |bins| >= 1
      ensures Valid()
      ensures lower == bins[..|bins| - 1] && upper == bins[1..]
      ensures counts == None && totals == None && normals == None
    {
      lower := bins[..|bins| - 1];
      upper := bins[1..];
      counts, totals, normals := None, None, None;
    }

    /** `bins_df['Counts'] = c`; pandas rejects a column of the wrong length. */
    method SetCounts(c: seq<nat>)
      requires Valid() && |c| == |lower|
      modifies this
      ensures Valid() && counts == Some(c)
      ensures lower == old(lower) && upper == old(upper)
      ensures totals == old(totals) && normals == old(normals)
    {
      counts := Some(c);
    }

    /** `bins_df["Total bin values"] = t`. */
    method SetTotals(t: seq<real>)
      requires Valid() && |t| == |lower|
      modifies this
      ensures Valid() && totals == Some(t)
      ensures lower == old(lower) && upper == old(upper)
      ensures counts == old(counts) && normals == old(normals)
    {
      totals := Some(t);
    }

    /** `bins_df["Normal bin values"] = n`. */
    method SetNormals(n: seq<Quotient>)
      requires Valid() && |n| == |lower|
      modifies this
      ensures Valid() && normals == Some(n)
      ensures lower == old(lower) && upper == old(upper)
      ensures counts == old(counts) && totals == old(totals)
    {
      normals := Some(n);
    }
  }

  /**
   * `bin_creator`: fills a zeroed array of 46 edges in place, each from the
   * one before, and builds the 45-row lower/upper frame from it.
   */
  method BinCreator(minBinSize: real, binRatio: real) returns (binsDf: BinsFrame, bins: seq<real>)
    ensures bins == GeometricEdges(minBinSize, binRatio)
    ensures |bins| == EdgeCount && bins[0] == minBinSize
    ensures fresh(binsDf) && binsDf.Valid()
    ensures binsDf.lower == bins[..BinCount] && binsDf.upper == bins[1..]
    ensures binsDf.counts == None && binsDf.totals == None && binsDf.normals == None
  {
    ghost var edges := GeometricEdges(minBinSize, binRatio);
    var a := new real[EdgeCount](_ => 0.0);
    a[0] := minBinSize;
    a[1] := a[0] * binRatio;
    for index := 0 to EdgeCount
      invariant forall k :: 0 <= k <= index && k < EdgeCount ==> a[k] == edges[k]
    {
      var value := a[index];
      if index < EdgeCount - 1 {
        a[index + 1] := value * binRatio;
        GeometricStep(minBinSize, binRatio, index);
      }
    }
    assert forall k :: 0 <= k < EdgeCount ==> a[..][k] == edges[k];
    bins := a[..];
    assert bins == edges;
    binsDf := new BinsFrame(bins);
  }

  /** The seven values `size_filter` returns. */
  datatype FilterResult = FilterResult(
    dataNotBigs: seq<real>,
    filtered: seq<real>,
    totalAreaNotBigs: real,
    areaTooBig: real,
    tooSmall: int,
    tooBig: int,
    totalArea: real)

  /**
   * `size_filter`: drop the rows with area >= maxArea, then from what is left
   * the rows with area <= minArea; both stages keep row order.
   */
  function SizeFilter(areas: seq<real>, maxArea: real, minArea: real): (r: FilterResult)
    // stage one keeps, in order, exactly the rows with area < maxArea
    ensures IsSubsequence(r.dataNotBigs, areas)
    ensures forall x :: multiset(r.dataNotBigs)[x] == if x < maxArea then multiset(areas)[x] else 0
    // stage two keeps, in order, exactly the rows of stage one with area > minArea
    ensures IsSubsequence(r.filtered, r.dataNotBigs)
    ensures forall x :: multiset(r.filtered)[x] == if x > minArea then multiset(r.dataNotBigs)[x] else 0
    ensures r.filtered == Select(areas, Both(Less(maxArea), Greater(minArea)))
    // the counts are the numbers of rows each stage drops
    ensures r.tooBig == |Select(areas, AtLeast(maxArea))|
    ensures r.tooSmall == |Select(r.dataNotBigs, AtMost(minArea))|
    ensures r.tooBig + r.tooSmall + |r.filtered| == |areas|
    // area accounting
    ensures r.totalArea == Sum(areas)
    ensures r.totalAreaNotBigs == Sum(r.dataNotBigs)
    ensures r.areaTooBig == Sum(Select(areas, AtLeast(maxArea)))
  {
    var totalArea := Sum(areas);
    var dataNotBigs := Select(areas, Less(maxArea));
    var tooBig := |areas| - |dataNotBigs|;
    var totalAreaNotBigs := Sum(dataNotBigs);
    var areaTooBig := totalArea - totalAreaNotBigs;
    var filtered := Select(dataNotBigs, Greater(minArea));
    var tooSmall := |dataNotBigs| - |filtered|;
    SelectIsSubsequence(areas, Less(maxArea));
    SelectMultiset(areas, Less(maxArea));
    SelectIsSubsequence(dataNotBigs, Greater(minArea));
    SelectMultiset(dataNotBigs, Greater(minArea));
    SelectSelect(areas, Less(maxArea), Greater(minArea));
    SelectSplit(areas, Less(maxArea));
    SelectSame(areas, Not(Less(maxArea)), AtLeast(maxArea));
    SelectSplit(dataNotBigs, Greater(minArea));
    SelectSame(dataNotBigs, Not(Greater(minArea)), AtMost(minArea));
    FilterResult(dataNotBigs, filtered, totalAreaNotBigs, areaTooBig, tooSmall, tooBig, totalArea)
  }

  /** With non-negative areas, the area removed as too big is non-negative. */
  lemma AreaTooBigNonNegative(areas: seq<real>, maxArea: real, minArea: real)
    requires NonNegative(areas)
    ensures SizeFilter(areas, maxArea, minArea).areaTooBig >= 0.0
  {
    assert NonNegative(Select(areas, AtLeast(maxArea)));
  }

  /** Filtering the filtered table again with the same thresholds changes nothing. */
  lemma SizeFilterIdempotent(areas: seq<real>, maxArea: real, minArea: real)
    ensures var once := SizeFilter(areas, maxArea, minArea).filtered;
      var twice := SizeFilter(once, maxArea, minArea);
      && twice.dataNotBigs == once && twice.filtered == once
      && twice.tooBig == 0 && twice.tooSmall == 0 && twice.areaTooBig == 0.0
  {
    var once := SizeFilter(areas, maxArea, minArea).filtered;
    SelectKeepsAll(once, Less(maxArea));
    SelectKeepsAll(once, Greater(minArea));
  }

  /**
   * `normalise_data`: for each bin, selects the areas with lower <= area and
   * then area < upper, stores their sum in a zeroed array, and divides the
   * array by `totalAreaNotBigs`.
   */
  method NormaliseData(filtered: seq<real>, bins: seq<real>, totalAreaNotBigs: real)
    returns (totalBinValues: seq<real>, normalBinValues: seq<Quotient>)
    requires |bins| >= 1
    ensures |totalBinValues| == |bins| - 1 && |normalBinValues| == |bins| - 1
    ensures forall i :: 0 <= i < |bins| - 1 ==>
      totalBinValues[i] == Sum(Select(filtered, HalfOpen(bins[i], bins[i + 1])))
    ensures forall i :: 0 <= i < |bins| - 1 ==>
      normalBinValues[i] == Divide(totalBinValues[i], totalAreaNotBigs)
  {
    var totals := new real[|bins| - 1](_ => 0.0);
    for index := 0 to |bins| - 1
      invariant forall k :: 0 <= k < index ==> totals[k] == Sum(Select(filtered, HalfOpen(bins[k], bins[k + 1])))
    {
      var binTotal := Select(filtered, AtLeast(bins[index]));
      binTotal := Select(binTotal, Less(bins[index + 1]));
      SelectSelect(filtered, AtLeast(bins[index]), Less(bins[index + 1]));
      totals[index] := Sum(binTotal);
    }
    totalBinValues := totals[..];
    normalBinValues := seq(|totalBinValues|, i requires 0 <= i < |totalBinValues| =>
      Divide(totalBinValues[i], totalAreaNotBigs));
  }

  /**
   * Over non-decreasing edges, the bin totals add up to the area of the values
   * in [e[0], e[last]): every bin is half-open, the last one included.
   */
  lemma {:induction false} TotalsTelescope(s: seq<real>, e: seq<real>, t: seq<real>)
    requires |e| >= 2 && Monotonic(e) && |t| == |e| - 1
    requires forall i :: 0 <= i < |t| ==> t[i] == Sum(Select(s, HalfOpen(e[i], e[i + 1])))
    ensures Sum(t) == Sum(Select(s, HalfOpen(e[0], e[|e| - 1])))
    decreases |e|
  {
    var last := |e| - 1;
    if |e| == 2 {
      assert t[1..] == [];
    } else {
      var e', t' := e[1..], t[1..];
      forall i | 0 <= i < |t'| ensures t'[i] == Sum(Select(s, HalfOpen(e'[i], e'[i + 1]))) {
        assert t'[i] == t[i + 1];
        assert e'[i] == e[i + 1] && e'[i + 1] == e[i + 2];
      }
      assert Monotonic(e') by {
        forall i | 0 <= i < |e'| - 1 ensures e'[i] <= e'[i + 1] {
          assert e'[i] == e[i + 1] && e'[i + 1] == e[i + 2];
        }
      }
      TotalsTelescope(s, e', t');
      MonotonicPairwise(e, 1, last);
      assert e'[|e'| - 1] == e[last];
      assert e[0] <= e[1] <= e[last];
      HalfOpenHolds(e[0], e[last]);
      HalfOpenHolds(e[0], e[1]);
      HalfOpenHolds(e[1], e[last]);
      SelectPartition(s, HalfOpen(e[0], e[last]), HalfOpen(e[0], e[1]), HalfOpen(e[1], e[last]));
    }
  }

  /**
   * The normalised values add up to the bin totals' sum over the same
   * denominator; for a zero denominator every one of them is non-finite.
   */
  lemma {:induction false} NormalisedTotal(t: seq<real>, d: real, n: seq<Quotient>)
    requires |n| == |t|
    requires forall i :: 0 <= i < |t| ==> n[i] == Divide(t[i], d)
    ensures d != 0.0 ==> QuotientSum(n) == Finite(Sum(t) / d)
    ensures d == 0.0 && t != [] ==> QuotientSum(n) == NotFinite
  {
    if t != [] {
      forall i | 0 <= i < |t| - 1 ensures n[1..][i] == Divide(t[1..][i], d) {
        assert n[1..][i] == n[i + 1];
      }
      NormalisedTotal(t[1..], d, n[1..]);
      if d != 0.0 {
        assert n[0] == Finite(t[0] / d);
        assert QuotientSum(n) == Finite(t[0] / d + Sum(t[1..]) / d);
        DivideSum(t[0], Sum(t[1..]), d);
      } else {
        assert n[0] == NotFinite;
      }
    }
  }

  lemma DivideSum(a: real, b: real, d: real)
    requires d != 0.0
    ensures (a + b) / d == a / d + b / d
  {
  }
}
