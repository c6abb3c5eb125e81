# Particle filter / bin / normalise pipeline, modelled in Dafny

This project models the core of a particle-size analysis script for
microscopy images. The script starts from a table of measured particles and
works in three steps:

1. `bin_creator` builds 46 geometric bin edges. The first edge is
   `min_bin_size` and each later edge is the previous one times
   `10**bin_multiplier`. It also builds a 45-row lower/upper frame from them.
2. `size_filter` drops the particles whose area is too big (`Area >= max_area`).
   It then drops the ones that are too small (`Area <= min_area`). Both stages
   keep row order. It returns the counts and area totals for each stage.
3. `normalise_data` adds up the areas in each half-open bin
   `[bins[i], bins[i+1])`. It divides each sum by the area of the particles
   that were not too big.

`Particle_sorter` ties the three together. It records the particle counts in
a `stats` record. It counts the filtered areas with `np.histogram` and raises
`MinBinTooBig` when the histogram has not counted every filtered particle.
Then it fills the `bins_df` frame with the counts, the bin totals and the
normalised values. Finally it plots the normalised values. That plot fails
when the not-too-big area is zero, because `plt.ylim` is then handed a limit
that is not finite.

Files:

- `wrappers.dfy`: `Option` and `Result`.
- `tables.dfy` (module `Tables`): a table is the sequence of its areas, in row
  order. A boolean mask on the Area column is a `Cond`, and applying it is
  `Select`. Both come with lemmas: a selection is the stable filter (order and
  multiplicity), it splits sums and lengths, and two masks in a row are one
  mask. `Sum` is `sum(column)`.
- `histograms.dfy` (module `Histograms`): the counting rule of
  `np.histogram(a, bins)` when `bins` is an array of edges. NumPy raises
  ValueError if an edge is greater than the next one. Every bin is half-open
  except the last, which is closed. Areas outside `[bins[0], bins[last]]` are
  not counted.
- `particle_functions.dfy` (module `ParticleFunctions`): `bin_creator`,
  `size_filter`, `normalise_data` and the `bins_df` frame (class `BinsFrame`,
  whose columns are assigned in place).
- `particle_sorter.dfy` (module `ParticleSorter`): the accounting and the
  coverage check of `Particle_sorter`, the failure of the normalised plot's
  axis limit, and the last-edge property.

Where the source's behaviour is easy to misread, the model follows the
source as written:

- The source has no explicit check of its parameters. Nothing tests
  `min_bin_size`, `bin_multiplier`, `max_area` or `min_area` for sign, nor
  `max_area <= min_area`. What a bad value leads to depends on the parameter:
  - Only when `min_bin_size` and `bin_multiplier` have opposite signs do the
    edges decrease, so only then does `np.histogram` raise ValueError.
  - A non-positive `max_area`, with non-negative areas, treats every particle
    as too big. `total_area_not_bigs` is then zero, and the run fails at the
    axis limit of the normalised plot.
  - A non-positive `min_area` is accepted: no particle is then too small.
  - With both bin parameters negative, or a zero `min_bin_size`, the edges do
    not decrease but lie at or below zero. The run then raises `MinBinTooBig`
    as soon as any particle with a positive area is kept.
- The coverage check sits in `Particle_sorter`, not in `normalise_data`. It
  uses `np.histogram`, whose last bin is closed, and it raises `MinBinTooBig(min_bin_size)`.
- A zero denominator in `normalise_data` gives NumPy's inf/nan, not an error
  there. The run fails later, at the axis limit of the normalised plot
  (`AxisLimitNotFinite`).
- The number of bins is fixed at 45. Line 23 sets `bins[0]` and line 24
  sets `bins[1]`. The loop then writes `bins[1]` to `bins[45]`, each from the
  entry before it, so `bins[1]` is written a second time with the same value.
  At index 45 the loop writes nothing. No computed edge is lost.
- Edges that decrease make `np.histogram` raise ValueError, modelled as
  `BinsNotMonotonic`. With a positive ratio this happens exactly when
  `min_bin_size` and `ratio - 1` have opposite signs (`GeometricCoverage`).

## Model

| member | source | states |
|---|---|---|
| `Tables.Select` | B1_Particle_sorter/Particle_functions_area_fixedbins.py:63 | a mask selection keeps no more rows than the table has, and each kept row is a row of the table that satisfies the condition |
| `Tables.SelectMultiset` | B1_Particle_sorter/Particle_functions_area_fixedbins.py:63 | a selection holds every satisfying row with its full multiplicity and no other row |
| `Tables.SelectIsSubsequence` | B1_Particle_sorter/Particle_functions_area_fixedbins.py:63 | a selection keeps the rows in input order |
| `Tables.SelectIsUniqueStableFilter` | B1_Particle_sorter/Particle_functions_area_fixedbins.py:68 | order plus multiplicity pin the result down: any order-preserving sub-table holding exactly the satisfying rows is the selection |
| `Tables.SelectSplit` | B1_Particle_sorter/Particle_functions_area_fixedbins.py:64-66 | kept and dropped rows together make up the table, in count and in total area |
| `Tables.SelectPartition` | B1_Particle_sorter/Particle_functions_area_fixedbins.py:101-105 | selecting by a union of two disjoint conditions adds their counts and their area sums |
| `Tables.SelectSelect` | B1_Particle_sorter/Particle_functions_area_fixedbins.py:102-103 | a mask applied after another equals one mask by their conjunction |
| `Tables.SelectKeepsAll` | B1_Particle_sorter/Particle_functions_area_fixedbins.py:68 | a mask keeps every row if and only if every row satisfies it, and then the table is returned unchanged |
| `Tables.SelectKeepsNone` | B1_Particle_sorter/Particle_functions_area_fixedbins.py:102-103 | a mask keeps no row if and only if no row satisfies it |
| `Tables.Sum` | B1_Particle_sorter/Particle_functions_area_fixedbins.py:105 | `sum(column)` of a table of non-negative areas is non-negative; how it splits over selections is stated by `SelectSplit` and `SelectPartition` |
| `Histograms.Monotonic` | B1_Particle_sorter/Particle_sorter_perarea_fixedbins.py:91 | the edge check `np.histogram` applies before counting: the edges never decrease exactly when no edge is greater than the one after it |
| `Histograms.CountInBin` | B1_Particle_sorter/Particle_sorter_perarea_fixedbins.py:91 | a bin counts at most every value, and counts none exactly when every value lies below its lower edge, above its upper edge, or on its upper edge when that bin is not the last |
| `Histograms.Total` | B1_Particle_sorter/Particle_sorter_perarea_fixedbins.py:93 | `sum(counts)` is zero exactly when every bin is empty |
| `Histograms.Histogram` | B1_Particle_sorter/Particle_sorter_perarea_fixedbins.py:91 | the histogram exists exactly when the edges do not decrease, and then has one count per bin |
| `Histograms.CountsTelescope` | B1_Particle_sorter/Particle_sorter_perarea_fixedbins.py:91 | the counts add up to the number of areas in the closed range [first edge, last edge]: nothing is counted twice and nothing in range is lost |
| `Histograms.HistogramCountsAll` | B1_Particle_sorter/Particle_sorter_perarea_fixedbins.py:91-93 | the counts add up to the number of areas if and only if every area lies in [first edge, last edge] |
| `Histograms.OneValueOneBin` | B1_Particle_sorter/Particle_sorter_perarea_fixedbins.py:91 | a single area is counted in exactly the bin that holds it; an interior edge belongs to the upper bin and the last edge to the last bin |
| `ParticleFunctions.GeometricEdges` | B1_Particle_sorter/Particle_functions_area_fixedbins.py:22-23 | there are 46 edges and the first is `min_bin_size` |
| `ParticleFunctions.GeometricRecurrence` | B1_Particle_sorter/Particle_functions_area_fixedbins.py:24-28 | each of edges 1..45 is the edge before it times the ratio |
| `ParticleFunctions.GeometricIncreasing` | B1_Particle_sorter/Particle_functions_area_fixedbins.py:24-28 | a positive first edge and a ratio above one give strictly increasing edges |
| `ParticleFunctions.GeometricMonotonic` | B1_Particle_sorter/Particle_functions_area_fixedbins.py:24-28 | for a positive ratio, the edges never decrease if and only if `min_bin_size * (ratio - 1) >= 0` |
| `ParticleFunctions.BinCreator` | B1_Particle_sorter/Particle_functions_area_fixedbins.py:21-35 | the loop over a zeroed 46-entry array writes the geometric edges, and the new frame's lower column is edges 0..44 and its upper column edges 1..45 |
| `ParticleFunctions.BinsFrame.constructor` | B1_Particle_sorter/Particle_functions_area_fixedbins.py:30-33 | lower = all edges but the last, upper = all edges but the first, each bin's upper edge being the next bin's lower edge |
| `ParticleFunctions.BinsFrame.SetCounts` | B1_Particle_sorter/Particle_sorter_perarea_fixedbins.py:99 | assigns the Counts column, one entry per row, and leaves every other column as it was |
| `ParticleFunctions.BinsFrame.SetTotals` | B1_Particle_sorter/Particle_sorter_perarea_fixedbins.py:130 | assigns the bin totals column and leaves every other column as it was |
| `ParticleFunctions.BinsFrame.SetNormals` | B1_Particle_sorter/Particle_sorter_perarea_fixedbins.py:131 | assigns the normalised values column and leaves every other column as it was |
| `ParticleFunctions.Divide` | B1_Particle_sorter/Particle_functions_area_fixedbins.py:113 | the quotient is finite exactly when the denominator is non-zero, and then multiplying it by the denominator gives back the numerator |
| `ParticleFunctions.QuotientSum` | B1_Particle_sorter/Particle_sorter_perarea_fixedbins.py:137 | Python's `sum` over the normalised values is finite exactly when every term is finite |
| `ParticleFunctions.SizeFilter` | B1_Particle_sorter/Particle_functions_area_fixedbins.py:61-76 | stage one keeps, in order and with multiplicity, exactly the rows with area < max_area; stage two keeps exactly those with area > min_area; the filtered table is the rows with min < area < max; too_big is the number of rows with area >= max_area and too_small the number of stage-one rows with area <= min_area; the counts and the filtered rows add up to the input size; total_area is the sum of all areas, total_area_not_bigs the sum over stage one, and area_too_big the sum over the rows with area >= max_area |
| `ParticleFunctions.AreaTooBigNonNegative` | B1_Particle_sorter/Particle_functions_area_fixedbins.py:62-66 | with non-negative areas the area removed as too big is non-negative |
| `ParticleFunctions.SizeFilterIdempotent` | B1_Particle_sorter/Particle_functions_area_fixedbins.py:63-69 | filtering the filtered table again returns it unchanged from both stages, with no particle and no area removed |
| `ParticleFunctions.NormaliseData` | B1_Particle_sorter/Particle_functions_area_fixedbins.py:98-115 | one total per bin, total i being the area sum of the rows with bins[i] <= area < bins[i+1], and each normalised value that total divided by total_area_not_bigs (not finite when it is zero) |
| `ParticleFunctions.TotalsTelescope` | B1_Particle_sorter/Particle_functions_area_fixedbins.py:99-110 | over non-decreasing edges the bin totals add up to the area in [first edge, last edge). This is what the commented-out check at line 108 evidently means to confirm; as written, that check compares against the `Eq Di` column instead of the area |
| `ParticleFunctions.NormalisedTotal` | B1_Particle_sorter/Particle_functions_area_fixedbins.py:113 | the normalised values add up to the totals' sum over the denominator; with a zero denominator they are not finite |
| `ParticleSorter.Accounting` | B1_Particle_sorter/Particle_sorter_perarea_fixedbins.py:66-83 | the min and max particle areas are the thresholds; too_small and too_big are the counts `size_filter` returns; particles_remaining = inputted - too_small - too_big equals the filtered row count, removed plus remaining is the input count, removed is the number of too-big plus too-small rows, and the remaining area is the area with min < area < max |
| `ParticleSorter.CoverageCheck` | B1_Particle_sorter/Particle_sorter_perarea_fixedbins.py:91-96 | MinBinTooBig(min_bin_size) exactly when the edges are accepted and some filtered area lies outside [bins[0], bins[45]]; when the check passes, the histogram counts add up to the filtered row count |
| `ParticleSorter.ParticleSorter` | B1_Particle_sorter/Particle_sorter_perarea_fixedbins.py:70-149 | the run fails with BinsNotMonotonic or MinBinTooBig exactly as the coverage check on the geometric edges fails; it fails with AxisLimitNotFinite (the `plt.ylim` of line 149) exactly when the check passes and total_area_not_bigs is zero; it succeeds exactly when the check passes and total_area_not_bigs is non-zero, and then it returns the geometric edges, the filtered table, area_too_big and the stats, and the frame holds the edges, the histogram counts, and per-bin totals divided by total_area_not_bigs (not by the filtered area) |
| `ParticleSorter.AxisLimitFinite` | B1_Particle_sorter/Particle_sorter_perarea_fixedbins.py:149 | whether `plt.ylim([0, max(normal_bin_values) + 0.05])` receives a finite limit, modelled as "every normalised value is finite". This is not Python's condition in general: for a mixed list such as `[1.0, nan]`, `max` returns 1.0. It is right here only because all the values share one denominator (`AxisLimitUniform`) |
| `ParticleSorter.AxisLimitUniform` | B1_Particle_sorter/Particle_functions_area_fixedbins.py:113 | values divided by one denominator are all finite when it is non-zero and all not finite when it is zero, so "every value finite" and "the maximum is finite" coincide |
| `ParticleSorter.CheckedBinTotals` | B1_Particle_sorter/Particle_sorter_perarea_fixedbins.py:91-129 | after the check passes, the bin totals equal the filtered area minus the area of the particles on the last edge, and equal the filtered area when no particle is on it |
| `ParticleSorter.LastEdgeAreaIsDropped` | B1_Particle_sorter/Particle_sorter_perarea_fixedbins.py:91-129 | with increasing geometric edges, one particle on the last edge passes the check yet adds nothing to any bin total, though its area is positive |
| `ParticleSorter.GeometricCoverage` | B1_Particle_sorter/Particle_sorter_perarea_fixedbins.py:87-94 | with a positive ratio the edges are rejected exactly when `min_bin_size * (ratio - 1) < 0`; otherwise the check passes exactly when every filtered area lies in [min_bin_size, bins[45]] |
| `ParticleSorter.FilterScenario` | B1_Particle_sorter/Particle_functions_area_fixedbins.py:61-76 | areas 1, 5, 12, 50, 999 with min 2 and max 500 keep 5, 12, 50, drop one particle per stage, and leave a not-too-big area of 68 |

## Left out

- Reading the CSV file, path handling, `print`, every matplotlib call and the
  `stats.to_csv` export are I/O and are not modelled.
- The threshold derivations are not modelled; `min_area` and `max_area` are
  parameters. `min_area` uses `math.pi` and a float power, and `max_area` uses
  `round(im_area / 100, 1)`.
- The two geometric means use `log10` and `10**a` and only feed the plots,
  so they are not modelled.
- `10**bin_multiplier` is the parameter `binRatio`. The model works with its
  value and does not compute the power.
- Floating point: areas, edges and sums are exact reals. IEEE rounding of
  products and sums is not modelled.
- ParticleFunctions.SizeFilter: `total_area` and `total_area_not_bigs` are
  exact sums. The source rounds both to one decimal with `round(..., 1)`, so
  the model's `area_too_big` is the exact difference.
- ParticleFunctions.Divide: NumPy's division by zero gives inf or nan. The
  model records only that the result is not finite; it does not say which.
- ParticleFunctions.BinCreator: the recurrence is not in the method's own
  contract, which gives the closed form `bins == GeometricEdges(...)`. The
  lemma `GeometricRecurrence` states the recurrence on that closed form.
- Histograms.Histogram: defined for at least two edges. The pipeline always
  passes 46, and NumPy's behaviour on shorter edge arrays is not modelled.
- Only the Area column is modelled. Other columns, row labels and
  `reset_index` do not affect any count or sum.
- `stats` is built as one record, not one column at a time. Nothing reads it
  before it is exported, so the order of the assignments cannot be observed.
- ParticleSorter.ParticleSorter: of the plotting, only the `plt.ylim` failure of
  line 149 is modelled. The model does not compute the limit. It uses the fact
  that the limit is not finite exactly when some normalised value is not
  finite. Because the source rounds `total_area_not_bigs` and the model does
  not, the model reaches this failure only when the exact not-too-big area is
  zero. The source also reaches it whenever that area rounds to 0.0 at one
  decimal.
- Particle_errors is not part of this model. `MinBinTooBig` is an error
  variant that carries `min_bin_size`.
