/**
 * The whole estimator, `fractal_analysis`: extraction, scale sequence,
 * offset box counting, window enumeration, window selection and the report
 * in millimetres.
 */
module FractalAnalysis {
  import opened Outcomes
  import opened Voxels
  import opened Scales
  import opened BoxCounting
  import opened Windows
  import opened Selection

  /** voxels_size: the spacing in mm along the first, second and third axis. */
  datatype Spacing = Spacing(y: real, x: real, z: real)

  /**
   * The result: FD, the scaling window's end scales in mm (mfs and Mfs), the
   * winning adjusted R² in thousandths and the winning window.
   */
  datatype Report = Report(fd: real, minSizeMm: real, maxSizeMm: real, score: int, window: Window)

  /** A scale in voxel units converted to mm with the first-axis spacing L_min. */
  function InMm(scale: nat, lMin: real): real {
    scale as real * lMin
  }

  /** The conversion to mm keeps the order of scales when the spacing is non-negative. */
  lemma InMmMonotone(a: nat, b: nat, lMin: real)
    ensures a <= b && lMin >= 0.0 ==> InMm(a, lMin) <= InMm(b, lMin)
  {
    if a <= b && lMin >= 0.0 {
      assert (b - a) as real * lMin >= 0.0;
    }
  }

  /** A factor of 16 between two scales is kept by the conversion to mm. */
  lemma InMmSpan(lo: nat, hi: nat, lMin: real)
    requires 16 * lo <= hi && lMin >= 0.0
    ensures 16.0 * InMm(lo, lMin) <= InMm(hi, lMin)
  {
    assert (hi - 16 * lo) as real * lMin >= 0.0;
  }

  /** Each draw lies in [0, 2^s] for the scale 2^s whose trials consume it. */
  predicate DrawsBounded(offsets: seq<Offset>) {
    forall n :: 0 <= n < |offsets| ==> OffsetFits(offsets[n], Pow2(n / Trials))
  }

  /**
   * Every per-scale estimate lies between 1 and the number of occupied
   * voxels, and the estimate at scale 1 is exactly that number.
   */
  lemma EstimateBounds(ns: seq<real>, voxels: seq<Voxel>, scales: seq<nat>, offsets: seq<Offset>)
    requires IsCountEstimate(ns, voxels, scales, offsets)
    requires voxels != [] && forall m, n :: 0 <= m < n < |voxels| ==> voxels[m] != voxels[n]
    requires scales != [] && scales[0] == 1
    ensures ns[0] == |voxels| as real
    ensures forall s :: 0 <= s < |ns| ==> 1.0 <= ns[s] <= |voxels| as real
  {
    forall s | 0 <= s < |ns|
      ensures 1.0 <= ns[s] <= |voxels| as real
    {
      MeanCountBounds(voxels, offsets[Trials * s .. Trials * s + Trials], scales[s]);
    }
    var first := offsets[..Trials];
    forall t | 0 <= t < Trials
      ensures OffsetFits(first[t], 1)
    {
      assert t / Trials == 0;
    }
    assert offsets[Trials * 0 .. Trials * 0 + Trials] == first;
    UnitScaleMean(voxels, first);
  }

  /** The stages that follow the scale sequence: the estimates Ns, the windows and the selection. */
  ghost predicate Estimated(voxels: seq<Voxel>, scales: seq<nat>, offsets: seq<Offset>,
                            regress: (seq<nat>, seq<real>) -> Fit,
                            ns: seq<real>, windows: seq<Window>, choice: Result<Choice>)
  {
    IsCountEstimate(ns, voxels, scales, offsets) &&
    IsWindowList(windows, |scales|) &&
    IsSelection(choice, regress, scales, ns, windows)
  }

  /** Box counting over every scale, window enumeration and window selection. */
  method CountAndSelect(voxels: seq<Voxel>, ly: nat, lx: nat, lz: nat, scales: seq<nat>,
                        offsets: seq<Offset>, regress: (seq<nat>, seq<real>) -> Fit)
    returns (ns: seq<real>, windows: seq<Window>, choice: Result<Choice>)
    requires forall s :: 0 <= s < |scales| ==> scales[s] >= 1
    requires DrawsFit(offsets, scales)
    requires forall n :: 0 <= n < |voxels| ==> InGrid(voxels[n], ly, lx, lz)
    ensures Estimated(voxels, scales, offsets, regress, ns, windows, choice)
    ensures |scales| < MinWindowSize ==> choice == Err(NoWindowSelected)
  {
    ns := CountAllScales(voxels, ly, lx, lz, scales, offsets);
    windows := EnumerateWindows(|scales|);
    choice := SelectWindow(regress, scales, ns, windows);
  }

  /**
   * The report: FD and the window's end scales times L_min = voxels_size[0].
   * A failure passes through unchanged; with a non-negative spacing the mm
   * bounds keep the order of the end scales.
   */
  function Reported(choice: Result<Choice>, windows: seq<Window>, spacing: Spacing): (r: Result<Report>)
    requires choice.Ok? ==> choice.value.index < |windows|
    ensures r.Err? <==> choice.Err?
    ensures choice.Err? ==> r.failure == choice.failure
    ensures choice.Ok? ==>
      r.value.fd == choice.value.fd && r.value.score == choice.value.score &&
      r.value.window == windows[choice.value.index]
    ensures choice.Ok? && spacing.y >= 0.0 && choice.value.minScale <= choice.value.maxScale ==>
      r.value.minSizeMm <= r.value.maxSizeMm
  {
    match choice
    case Err(failure) => Err(failure)
    case Ok(c) =>
      InMmMonotone(c.minScale, c.maxScale, spacing.y);
      Ok(Report(c.fd, InMm(c.minScale, spacing.y), InMm(c.maxScale, spacing.y), c.score, windows[c.index]))
  }

  /**
   * The reported scaling window spans at least four doublings: for a choice
   * as the selection makes it (a valid window, its end scales taken from the
   * doubling scale sequence), the mm bounds are the end scales times L_min,
   * and the upper one is at least 16 times the lower one.
   */
  lemma ReportSpan(scales: seq<nat>, windows: seq<Window>, choice: Result<Choice>, spacing: Spacing)
    requires forall n :: 0 <= n < |scales| ==> scales[n] == Pow2(n)
    requires choice.Ok? && choice.value.index < |windows|
    requires ValidWindow(windows[choice.value.index], |scales|)
    requires choice.value.minScale == scales[windows[choice.value.index].start]
    requires choice.value.maxScale == scales[windows[choice.value.index].end]
    requires spacing.y >= 0.0
    ensures var report := Reported(choice, windows, spacing).value;
      var w := report.window;
      ValidWindow(w, |scales|) &&
      report.minSizeMm == InMm(scales[w.start], spacing.y) &&
      report.maxSizeMm == InMm(scales[w.end], spacing.y) &&
      16.0 * report.minSizeMm <= report.maxSizeMm
  {
    var c := choice.value;
    var w := windows[c.index];
    Pow2Gap(w.start, w.end);
    InMmSpan(c.minScale, c.maxScale, spacing.y);
  }

  /** `fractal_analysis` on a loaded volume, with its draws and its regression given. */
  method Analyse(volume: array3<real>, spacing: Spacing, offsets: seq<Offset>,
                 regress: (seq<nat>, seq<real>) -> Fit)
    returns (voxels: seq<Voxel>, scales: seq<nat>, ns: seq<real>, windows: seq<Window>,
             choice: Result<Choice>, r: Result<Report>)
    requires DrawsBounded(offsets)
    requires var lMax := MaxExtent(volume.Length0, volume.Length1, volume.Length2);
      lMax >= 1 ==> |offsets| >= Trials * (CeilLog2(lMax) + 1)
    ensures ExtractedFrom(voxels, volume)
    ensures var lMax := MaxExtent(volume.Length0, volume.Length1, volume.Length2);
      (lMax == 0 ==> r == Err(LogOfZero)) &&
      (lMax >= 1 ==> IsScaleSequence(scales, lMax)) &&
      (lMax >= 1 && voxels == [] ==> r == Err(EmptyHistogramSample)) &&
      (lMax >= 1 && voxels != [] ==>
        Estimated(voxels, scales, offsets, regress, ns, windows, choice) &&
        (lMax <= 8 ==> r == Err(NoWindowSelected)) &&
        r == Reported(choice, windows, spacing))
  {
    var ly, lx, lz := volume.Length0, volume.Length1, volume.Length2;
    var lMax := MaxExtent(ly, lx, lz);
    voxels := Extract(volume);
    scales, ns, windows, choice := [], [], [], Err(LogOfZero);
    if lMax == 0 {
      // math.log2(0) is a domain error
      r := Err(LogOfZero);
      return;
    }
    var stop := CeilLog2(lMax);
    scales := PowersOfTwo(stop);
    if voxels == [] {
      // np.histogramdd rejects the empty voxel array
      r := Err(EmptyHistogramSample);
      return;
    }
    assert DrawsFit(offsets, scales) by {
      forall n | 0 <= n < Trials * |scales|
        ensures OffsetFits(offsets[n], scales[n / Trials])
      {
      }
    }
    assert forall n :: 0 <= n < |voxels| ==> InGrid(voxels[n], ly, lx, lz) by {
      forall n | 0 <= n < |voxels|
        ensures InGrid(voxels[n], ly, lx, lz)
      {
        assert Occupied(volume, voxels[n]);
      }
    }
    FewScales(lMax);
    ns, windows, choice := CountAndSelect(voxels, ly, lx, lz, scales, offsets, regress);
    // mfs = mfs * L_min and Mfs = Mfs * L_min happen inside Reported
    r := Reported(choice, windows, spacing);
  }
}
