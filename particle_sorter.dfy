/**
 * The accounting in `Particle_sorter`: filter the table, record the counts,
 * build the bins, count the filtered areas with `np.histogram`, raise
 * `MinBinTooBig` when the histogram has not counted every filtered area, and
 * normalise the bin totals by the area of the particles that were not too big.
 *
 * The thresholds `min_area` and `max_area` are parameters here; reading the
 * table, plotting, the geometric means and the CSV export are not modelled.
 */
module ParticleSorter {
  import opened Wrappers
  import opened Tables
  import opened Histograms
  import opened ParticleFunctions

  datatype SorterError =
    | BinsNotMonotonic              // `np.histogram` raises ValueError on decreasing edges
    | MinBinTooBig(minBinSize: real)
    | AxisLimitNotFinite            // matplotlib's `set_ylim` raises ValueError on a NaN or Inf limit

  /** The columns of the `stats` frame that the accounting fills in. */
  datatype Stats = Stats(
    minParticleArea: real,
    maxParticleArea: real,
    inputtedParticles: nat,
    inputtedArea: real,
    tooSmall: int,
    tooBig: int,
    particlesRemoved: int,
    particlesRemaining: int,
    areaRemaining: real)

  /** What `Particle_sorter` returns: `bins_df, bins, filtered_data, area_too_big, stats`. */
  datatype SorterOutput = SorterOutput(
    binsDf: BinsFrame,
    bins: seq<real>,
    filtered: seq<real>,
    areaTooBig: real,
    stats: Stats)

  /**
   * The statistics recorded after `size_filter`: the particles counted as
   * remaining are exactly the rows of the filtered table, and removed plus
   * remaining is the number of input rows.
   */
  function Accounting(areas: seq<real>, minArea: real, maxArea: real): (st: Stats)
    ensures st.minParticleArea == minArea && st.maxParticleArea == maxArea
    ensures st.inputtedParticles == |areas|
    ensures st.tooSmall == SizeFilter(areas, maxArea, minArea).tooSmall
    ensures st.tooBig == SizeFilter(areas, maxArea, minArea).tooBig
    ensures st.particlesRemaining == |SizeFilter(areas, maxArea, minArea).filtered|
    ensures st.particlesRemoved + st.particlesRemaining == st.inputtedParticles
    ensures st.particlesRemoved == |Select(areas, AtLeast(maxArea))|
      + |Select(SizeFilter(areas, maxArea, minArea).dataNotBigs, AtMost(minArea))|
    ensures st.inputtedArea == Sum(areas)
    ensures st.areaRemaining == Sum(Select(areas, Both(Less(maxArea), Greater(minArea))))
  {
    var particlesInputted := |areas|;
    var f := SizeFilter(areas, maxArea, minArea);
    Stats(
      minParticleArea := minArea,
      maxParticleArea := maxArea,
      inputtedParticles := particlesInputted,
      inputtedArea := f.totalArea,
      tooSmall := f.tooSmall,
      tooBig := f.tooBig,
      particlesRemoved := f.tooSmall + f.tooBig,
      particlesRemaining := particlesInputted - f.tooSmall - f.tooBig,
      areaRemaining := Sum(f.filtered))
  }

  /**
   * `np.histogram(filtered_data["Area"], bins)` followed by the coverage check:
   * `MinBinTooBig` exactly when some filtered area lies outside the closed
   * range [bins[0], bins[last]], the histogram counts otherwise.
   */
  function CoverageCheck(filtered: seq<real>, bins: seq<real>, minBinSize: real): (r: Result<seq<nat>, SorterError>)
    requires |bins| >= 2
    ensures r == Failure(BinsNotMonotonic) <==> !Monotonic(bins)
    ensures r == Failure(MinBinTooBig(minBinSize)) <==>
      Monotonic(bins) && exists x :: x in filtered && !(bins[0] <= x <= bins[|bins| - 1])
    ensures r.Success? <==>
      Monotonic(bins) && forall x :: x in filtered ==> bins[0] <= x <= bins[|bins| - 1]
    ensures r.Success? ==> Some(r.value) == Histogram(filtered, bins) && Total(r.value) == |filtered|
  {
    match Histogram(filtered, bins)
    case None => Failure(BinsNotMonotonic)
    case Some(counts) =>
      HistogramCountsAll(filtered, bins);
      if Total(counts) != |filtered| then Failure(MinBinTooBig(minBinSize)) else Success(counts)
  }

  /**
   * The upper limit `max(normal_bin_values) + 0.05` handed to `plt.ylim` is
   * finite. Every normalised value has the same denominator, so either all of
   * them are finite or none is; Python's `max` over values that are all NaN
   * or infinite is itself NaN or infinite.
   */
  predicate AxisLimitFinite(normals: seq<Quotient>) {
    forall i :: 0 <= i < |normals| ==> normals[i].Finite?
  }

  /**
   * What `AxisLimitFinite` relies on: values divided by one common
   * denominator are either all finite or all not finite, and which of the two
   * depends only on whether the denominator is zero.
   */
  lemma AxisLimitUniform(t: seq<real>, d: real, n: seq<Quotient>)
    requires |n| == |t| > 0
    requires forall i :: 0 <= i < |t| ==> n[i] == Divide(t[i], d)
    ensures AxisLimitFinite(n) <==> d != 0.0
    ensures !AxisLimitFinite(n) ==> forall i :: 0 <= i < |n| ==> n[i].NotFinite?
  {
    assert n[0] == Divide(t[0], d);
  }

  /**
   * `Particle_sorter` without its I/O. The edges and the coverage check
   * decide the first two errors. After the frame is filled, the plot of the
   * normalised values fails when its axis limit is not finite, which is
   * exactly when the not-too-big area is zero. On success the bins frame
   * holds the edges, the histogram counts, the per-bin area totals and
   * those totals over the not-too-big area.
   */
  method ParticleSorter(areas: seq<real>, minArea: real, maxArea: real, minBinSize: real, binRatio: real)
    returns (out: Result<SorterOutput, SorterError>)
    ensures out == Failure(BinsNotMonotonic) <==> !Monotonic(GeometricEdges(minBinSize, binRatio))
    ensures out == Failure(MinBinTooBig(minBinSize)) <==>
      CoverageCheck(SizeFilter(areas, maxArea, minArea).filtered, GeometricEdges(minBinSize, binRatio), minBinSize)
        == Failure(MinBinTooBig(minBinSize))
    ensures out == Failure(AxisLimitNotFinite) <==>
      CoverageCheck(SizeFilter(areas, maxArea, minArea).filtered, GeometricEdges(minBinSize, binRatio), minBinSize).Success?
      && SizeFilter(areas, maxArea, minArea).totalAreaNotBigs == 0.0
    ensures out.Success? <==>
      CoverageCheck(SizeFilter(areas, maxArea, minArea).filtered, GeometricEdges(minBinSize, binRatio), minBinSize).Success?
      && SizeFilter(areas, maxArea, minArea).totalAreaNotBigs != 0.0
    ensures out.Success? ==>
      var o, f, e := out.value, SizeFilter(areas, maxArea, minArea), GeometricEdges(minBinSize, binRatio);
      && o.bins == e && o.filtered == f.filtered && o.areaTooBig == f.areaTooBig
      && o.stats == Accounting(areas, minArea, maxArea)
      && o.binsDf.Valid()
      && o.binsDf.lower == e[..BinCount] && o.binsDf.upper == e[1..]
      && o.binsDf.counts == Histogram(f.filtered, e)
      && o.binsDf.totals.Some? && o.binsDf.normals.Some?
      && (forall i :: 0 <= i < BinCount ==>
            o.binsDf.totals.value[i] == Sum(Select(f.filtered, HalfOpen(e[i], e[i + 1]))))
      && (forall i :: 0 <= i < BinCount ==>
            o.binsDf.normals.value[i] == Divide(o.binsDf.totals.value[i], f.totalAreaNotBigs))
  {
    var f := SizeFilter(areas, maxArea, minArea);
    var stats := Accounting(areas, minArea, maxArea);
    var binsDf, bins := BinCreator(minBinSize, binRatio);
    var check := CoverageCheck(f.filtered, bins, minBinSize);
    if check.Failure? {
      return Failure(check.error);
    }
    binsDf.SetCounts(check.value);
    var totalBinValues, normalBinValues := NormaliseData(f.filtered, bins, f.totalAreaNotBigs);
    binsDf.SetTotals(totalBinValues);
    binsDf.SetNormals(normalBinValues);
    if !AxisLimitFinite(normalBinValues) {
      return Failure(AxisLimitNotFinite);
    }
    out := Success(SorterOutput(binsDf, bins, f.filtered, f.areaTooBig, stats));
  }

  /**
   * Once the coverage check passes, the bin totals miss exactly the areas
   * equal to the last edge: the histogram's last bin is closed, the
   * normalisation's is not. With no area on the last edge they add up to the
   * filtered area.
   */
  lemma CheckedBinTotals(filtered: seq<real>, bins: seq<real>, minBinSize: real, totals: seq<real>)
    requires |bins| >= 2 && CoverageCheck(filtered, bins, minBinSize).Success?
    requires |totals| == |bins| - 1
    requires forall i :: 0 <= i < |totals| ==> totals[i] == Sum(Select(filtered, HalfOpen(bins[i], bins[i + 1])))
    ensures Sum(totals) == Sum(filtered) - Sum(Select(filtered, AtLeast(bins[|bins| - 1])))
    ensures (forall x :: x in filtered ==> x < bins[|bins| - 1]) ==> Sum(totals) == Sum(filtered)
  {
    var last := bins[|bins| - 1];
    TotalsTelescope(filtered, bins, totals);
    SelectPartition(filtered, AtLeast(bins[0]), HalfOpen(bins[0], last), AtLeast(last));
    SelectKeepsAll(filtered, AtLeast(bins[0]));
    if forall x :: x in filtered ==> x < last {
      SelectKeepsNone(filtered, AtLeast(last));
    }
  }

  /**
   * With the bins the pipeline builds (positive first edge, ratio above one),
   * a single particle whose area is the last edge passes the coverage check
   * yet adds nothing to any bin total, though its area is positive.
   */
  lemma LastEdgeAreaIsDropped(minBinSize: real, binRatio: real)
    requires minBinSize > 0.0 && binRatio > 1.0
    ensures var e := GeometricEdges(minBinSize, binRatio); var filtered := [e[BinCount]];
      && CoverageCheck(filtered, e, minBinSize).Success?
      && (forall i :: 0 <= i < BinCount ==> Sum(Select(filtered, HalfOpen(e[i], e[i + 1]))) == 0.0)
      && Sum(filtered) > 0.0
  {
    var e := GeometricEdges(minBinSize, binRatio);
    var x := e[BinCount];
    GeometricIncreasing(minBinSize, binRatio);
    forall i | 0 <= i < BinCount ensures Sum(Select([x], HalfOpen(e[i], e[i + 1]))) == 0.0 {
      SelectSingleton(x, HalfOpen(e[i], e[i + 1]));
    }
    assert Monotonic(e);
    assert [x][1..] == [];
  }

  /**
   * With a positive ratio, the pipeline fails on decreasing edges exactly when
   * the first edge and (ratio - 1) have opposite signs; otherwise it fails
   * only with MinBinTooBig, and exactly when a filtered area is outside the bins.
   */
  lemma GeometricCoverage(filtered: seq<real>, minBinSize: real, binRatio: real)
    requires binRatio > 0.0
    ensures var r := CoverageCheck(filtered, GeometricEdges(minBinSize, binRatio), minBinSize);
      && (r == Failure(BinsNotMonotonic) <==> minBinSize * (binRatio - 1.0) < 0.0)
      && (minBinSize * (binRatio - 1.0) >= 0.0 ==>
            (r.Success? <==> forall x :: x in filtered ==>
               minBinSize <= x <= GeometricEdges(minBinSize, binRatio)[BinCount]))
  {
    var e := GeometricEdges(minBinSize, binRatio);
    GeometricMonotonic(minBinSize, binRatio);
    assert e[BinCount] == e[|e| - 1] && e[0] == minBinSize;
    var r := CoverageCheck(filtered, e, minBinSize);
    assert r == Failure(BinsNotMonotonic) <==> !Monotonic(e);
  }

  /** The scenario of a five-particle table: two particles are dropped, one per stage. */
  lemma FilterScenario()
    ensures var r := SizeFilter([1.0, 5.0, 12.0, 50.0, 999.0], 500.0, 2.0);
      && r.filtered == [5.0, 12.0, 50.0] && r.tooSmall == 1 && r.tooBig == 1
      && r.totalAreaNotBigs == 68.0 && r.areaTooBig == 999.0
      && Accounting([1.0, 5.0, 12.0, 50.0, 999.0], 2.0, 500.0).particlesRemaining == 3
  {
    var s := [1.0, 5.0, 12.0, 50.0, 999.0];
    assert s[1..] == [5.0, 12.0, 50.0, 999.0];
    assert s[1..][1..] == [12.0, 50.0, 999.0];
    assert s[1..][1..][1..] == [50.0, 999.0];
    assert s[1..][1..][1..][1..] == [999.0];
    var notBigs := [1.0, 5.0, 12.0, 50.0];
    assert Select(s, Less(500.0)) == notBigs;
    assert notBigs[1..] == [5.0, 12.0, 50.0];
    assert notBigs[1..][1..] == [12.0, 50.0];
    assert notBigs[1..][1..][1..] == [50.0];
    assert Select(notBigs, Greater(2.0)) == [5.0, 12.0, 50.0];
    assert Sum(notBigs) == 68.0;
    assert Sum(s) == 1067.0;
  }
}
