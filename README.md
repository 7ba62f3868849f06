# Fractal dimension by 3D box counting

This project is a Dafny model of `fractal_analysis` in `data_pipeline/utils.py`.
That function estimates the fractal dimension (FD) of a 3D brain-structure
volume in six steps:

1. It lists the occupied (strictly positive) voxels in row-major order.
2. It builds the box sizes 1, 2, 4, … up to the first power of two that covers
   the largest image extent.
3. For every box size it runs twenty trials. Each trial shifts a grid of boxes
   by a pseudo-random offset in `[0, scale]` per axis, histograms the occupied
   voxels over that grid and counts the non-empty boxes. The estimate for the
   box size is the mean of the twenty counts.
4. It enumerates every contiguous window of at least five box sizes, longest
   first and left to right within a length.
5. It fits a log-log line over every window. It keeps the first window whose
   adjusted R², rounded to three decimals, is strictly greatest. FD is minus
   that window's slope.
6. It converts the window's end box sizes to millimetres using the voxel
   spacing of the first axis.

Modules, one per file:

- `Outcomes` (`outcomes.dfy`): `Option` and `Result`, plus the four ways the
  function can fail.
- `Voxels` (`voxels.dfy`): extraction of the occupied voxels from an
  `array3<real>`.
- `Scales` (`scales.dfy`): the largest extent, the ceiling of log2, and the
  powers of two.
- `BoxCounting` (`boxcounting.dfy`): `arange` bin edges and `histogramdd` bin
  lookup. It also holds the per-trial histogram count, the mean over twenty
  trials and the loop over all box sizes.
- `Windows` (`windows.dfy`): enumeration of the scaling windows.
- `Selection` (`selection.dfy`): the running-maximum choice of the window.
- `FractalAnalysis` (`fractal.dfy`): the whole pipeline and its report.

The histogram is modelled literally:

- The bin edges along each axis are `arange(-offset, extent + 1 + scale, scale)`.
- A coordinate lands in the half-open bin whose lower edge it reaches.
- The last bin is closed on the right.
- A coordinate outside the edges is dropped.
- The method keeps a tally per bin and counts the bins with a positive tally.

Lemmas relate this to the set of boxes `⌊(c + offset) / scale⌋` hit by the
voxels. From that follow these facts:

- the count lies between 1 and the number of voxels;
- at box size 1 it equals the number of voxels;
- the estimate for the smallest box size is exactly the number of voxels.

Points of the code that the model keeps as written:

- `L_min` is `voxels_size[0]` (`utils.py:146`), the spacing of the first
  axis, although the comment at `utils.py:145` and the message at
  `utils.py:149` call it the minimum size. The millimetre bounds are the end
  scales times that spacing (`utils.py:223-224`).
- The function has no error values of its own. Its failures are the Python
  errors it raises: `math.log2(0)` for an empty extent (`utils.py:172`),
  `histogramdd` on an empty sample (`utils.py:189`), reading `FD` before it
  is bound when the first window does not beat −1 (`utils.py:221`), and
  reading `mfs` before it is bound when there is no window at all
  (`utils.py:223`). `Outcomes.Failure` names these four.
- `FD = round(FD, 4)` sits inside the selection loop (`utils.py:221`), so
  the analysis fails when the first window enumerated does not beat −1,
  even when a later window would have.
- The function returns only FD (`utils.py:229`). The model also returns the
  selected window and its millimetre bounds, which the code computes at
  `utils.py:217-224` but does not return.

## Model

| member | source | states |
|---|---|---|
| Voxels.Extract | data_pipeline/utils.py:161-166 | the result lists exactly the in-grid coordinates whose value is > 0, each once, in strictly increasing row-major order |
| Voxels.RowMajorUnique | data_pipeline/utils.py:161-166 | two strictly row-major lists holding the same voxels are equal, so the order of the extracted list is forced |
| Voxels.ExtractionDeterministic | data_pipeline/utils.py:161-166 | any two lists meeting the extraction contract for the same volume are identical |
| Scales.MaxExtent | data_pipeline/utils.py:150-158 | the result is at least each of the three extents and equal to one of them |
| Scales.CeilLog2 | data_pipeline/utils.py:172 | 2^e covers n and 2^(e-1) does not (e is ceil(log2 n)) |
| Scales.CeilLog2Least | data_pipeline/utils.py:172 | every exponent whose power of two covers n is at least CeilLog2(n) |
| Scales.PowersOfTwo | data_pipeline/utils.py:173-175 | stop+1 scales, starting at 1, each double the previous, scale n = 2^n |
| Scales.ScaleSequenceShape | data_pipeline/utils.py:172-175 | a scale sequence starts at 1, doubles, its last scale covers the largest extent, the one before does not, and no smaller power of two covers it |
| Scales.FewScales | data_pipeline/utils.py:172-175 | there are fewer than five scales exactly when the largest extent is at most 8 |
| BoxCounting.ArangeEnds | data_pipeline/utils.py:182-189 | arange is empty iff start >= stop; otherwise it starts at start and its last edge is below stop and at least stop - step |
| BoxCounting.ArangeAt | data_pipeline/utils.py:182-189 | edge n of arange is start + n·step |
| BoxCounting.BinIndex | data_pipeline/utils.py:189 | a found bin n has edges[n] <= c, with c below the next edge, or equal to it when n is the last bin |
| BoxCounting.BinIndexDrops | data_pipeline/utils.py:189 | over increasing edges, a coordinate is dropped exactly when there is no bin or it lies below the first edge or above the last |
| BoxCounting.ArangeIncreasing | data_pipeline/utils.py:182-189 | the edges produced by arange with a positive step increase strictly, as histogramdd requires |
| BoxCounting.AxisEdges | data_pipeline/utils.py:182-187 | the edges of one axis number at least two, start at -offset, reach at least extent + 1 and increase strictly |
| BoxCounting.BinOfArange | data_pipeline/utils.py:189 | a coordinate at least one step below the end of an arange falls in bin ⌊(c - start)/step⌋ |
| BoxCounting.AxisBin | data_pipeline/utils.py:182-189 | every in-grid coordinate falls in bin ⌊(c + offset)/scale⌋ of its axis |
| BoxCounting.GridBinOfVoxel | data_pipeline/utils.py:182-189 | every in-grid voxel lands in the box given by flooring its offset coordinates by the scale |
| BoxCounting.GridBin | data_pipeline/utils.py:189 | a sample given a box lies, along each of the three axes, inside that box's bin |
| BoxCounting.GridBinDrops | data_pipeline/utils.py:189 | over increasing edges, a sample is dropped exactly when one of its coordinates lies outside its axis's edges |
| BoxCounting.QuotientBounds | data_pipeline/utils.py:189 | the box index q of a coordinate satisfies q·d <= x < q·d + d |
| BoxCounting.BoxesHitBounds | data_pipeline/utils.py:189-190 | the number of boxes hit is at most the number of voxels and at least one for a non-empty list |
| BoxCounting.BoxesHitMembers | data_pipeline/utils.py:189-190 | a box is hit iff some voxel of the list lies in it |
| BoxCounting.InjectiveBoxCount | data_pipeline/utils.py:189-190 | distinct voxels in distinct boxes give a count equal to the number of voxels |
| BoxCounting.UnitScaleCountsVoxels | data_pipeline/utils.py:189-190 | at scale 1 the count of distinct voxels is their number, whatever the offset |
| BoxCounting.HistogramCount | data_pipeline/utils.py:189-190 | the number of histogram bins with a positive tally equals the number of distinct boxes hit by the voxels |
| BoxCounting.SumBounds | data_pipeline/utils.py:192 | a sum of values in [lo, hi] lies in [n·lo, n·hi] |
| BoxCounting.TrialCountsBounds | data_pipeline/utils.py:189-190 | every trial count is at most the number of voxels, and at least one for a non-empty sample |
| BoxCounting.MeanCount | data_pipeline/utils.py:192 | the mean of the twenty trial counts lies between 0 and the number of voxels |
| BoxCounting.MeanCountBounds | data_pipeline/utils.py:192 | the mean over the twenty trials lies between 1 and the number of voxels for a non-empty sample |
| BoxCounting.UnitScaleMean | data_pipeline/utils.py:180-192 | at scale 1 the mean count equals the number of distinct voxels |
| BoxCounting.ScaleEstimate | data_pipeline/utils.py:180-192 | each trial's count is its number of boxes hit and the estimate is their mean |
| BoxCounting.CountAllScales | data_pipeline/utils.py:176-192 | one estimate per scale, estimate s from trials 20·s to 20·s+19 of the offsets |
| Windows.WindowsFromClosedForm | data_pipeline/utils.py:197-200 | the number of windows of length at least `from` has its closed form |
| Windows.WindowCountClosedForm | data_pipeline/utils.py:197-200 | no window for fewer than five scales; otherwise (count-4)(count-3)/2 windows |
| Windows.EnumerateWindows | data_pipeline/utils.py:194-200 | every window of at least five scales appears exactly once, longest first, left to right within a length, and nothing else does |
| Selection.SelectWindow | data_pipeline/utils.py:202-221 | fails when there is no window or the first does not beat -1; otherwise it picks the first window with the greatest rounded score, FD = -slope and the window's end scales |
| FractalAnalysis.EstimateBounds | data_pipeline/utils.py:178-192 | the estimate at the smallest scale is the number of voxels and every estimate lies between 1 and it |
| FractalAnalysis.CountAndSelect | data_pipeline/utils.py:176-221 | estimates, window list and selection all meet their contracts; fewer than five scales means no window is selected |
| FractalAnalysis.Reported | data_pipeline/utils.py:223-224 | a failure passes through unchanged; a report carries the chosen FD, score and window, and with a non-negative spacing its lower mm bound does not exceed its upper one |
| FractalAnalysis.ReportSpan | data_pipeline/utils.py:194-224 | for a choice of a valid window with its end scales from the doubling sequence, the reported window has at least five scales, its mm bounds are its end scales times L_min, and the upper bound is at least 16 times the lower one |
| FractalAnalysis.Analyse | data_pipeline/utils.py:136-229 | extraction contract; log2 of 0 fails; the scale sequence covers the largest extent; an empty sample fails; otherwise all stages meet their contracts, an image no larger than 8 voxels per side has no window, and the report converts the chosen window to millimetres |

## Left out

- Loading the NIfTI file and reading `pixdim` (`utils.py:137-144`) are not modelled. The volume arrives as an `array3<real>` and the spacing as a parameter.
- The pseudo-random generator (`random.seed(1)` and `randint`) is not modelled. Offsets arrive as a sequence of draws, and draw 20·s + t serves trial t of scale s; each draw is only known to lie in `[0, scale]`.
- The least-squares fit, `r2_score` and the adjustment for the number of points are not modelled. They are floating point. They are a `regress` parameter that returns the adjusted R² already rounded to thousandths, together with the slope.
- `Selection.SelectWindow`: the rounding of FD to four decimals is not modelled. FD is the exact negated slope.
- NaN scores are not modelled, and neither are the floating-point behaviour of `math.log2` for very large extents or the bounds the regression places on the adjusted R².
- No numeric property of FD itself is stated, such as its range or its value for a filled cube. FD is the regression's slope, which is abstract here.
- `FractalAnalysis.Analyse` takes an `array3`. The code reads three extents at `utils.py:150-152` and would fail on an image with fewer dimensions, an input the type rules out.
- The progress messages printed when `verbose` is set are not modelled, and neither is the unconditional `print` of FD at `utils.py:227`. They are output only.
- `BoxCounting.MeanCount`: `np.mean` returns a 64-bit float, but the model computes the exact rational mean. Only the abstract regression reads the estimates.
- The rest of the repository is not part of this model: the Docker helpers, the depth visualisation, and the skull-stripping and segmentation wrappers (`synthstrip.py`, `synthseg.py`).
