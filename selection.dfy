/**
 * Selection of the fractal scaling window: a running maximum over the
 * windows, in enumeration order, of the adjusted coefficient of
 * determination rounded to three decimals.
 */
module Selection {
  import opened Outcomes
  import opened Windows

  /**
   * What the log-log regression over one window yields: the adjusted R²
   * rounded to three decimals, in thousandths, and the fitted slope.
   */
  datatype Fit = Fit(score: int, slope: real)

  /** The starting value of the running best, -1, in thousandths. */
  const Unscored: int := -1000

  /** The regression applied to the scales and counts that lie inside the window. */
  function FitOf(regress: (seq<nat>, seq<real>) -> Fit, scales: seq<nat>, ns: seq<real>, w: Window): Fit
    requires w.start <= w.end < |scales| == |ns|
  {
    regress(scales[w.start..w.end + 1], ns[w.start..w.end + 1])
  }

  /** The winning window: its index in the enumeration, its score, FD = -slope and its end scales. */
  datatype Choice = Choice(index: nat, score: int, fd: real, minScale: nat, maxScale: nat)

  predicate WindowsInside(ws: seq<Window>, count: nat) {
    forall n :: 0 <= n < |ws| ==> ws[n].start <= ws[n].end < count
  }

  /**
   * `r` is what the selection loop yields: it fails when there is no window,
   * or when the first window does not beat -1 (FD is then read before it is
   * ever set); otherwise it is the first window whose score is maximal, and
   * FD and both end scales come from that one window.
   */
  ghost predicate IsSelection(r: Result<Choice>, regress: (seq<nat>, seq<real>) -> Fit,
                              scales: seq<nat>, ns: seq<real>, ws: seq<Window>)
    requires |scales| == |ns| && WindowsInside(ws, |scales|)
  {
    (r.Err? <==> (ws == [] || FitOf(regress, scales, ns, ws[0]).score <= Unscored)) &&
    (r.Err? ==> r.failure == if ws == [] then NoWindowSelected else FirstWindowNotSelected) &&
    (r.Ok? ==>
      var c := r.value;
      c.index < |ws| &&
      var fit := FitOf(regress, scales, ns, ws[c.index]);
      c.score == fit.score && c.score > Unscored &&
      (forall k :: 0 <= k < c.index ==> FitOf(regress, scales, ns, ws[k]).score < c.score) &&
      (forall k :: 0 <= k < |ws| ==> FitOf(regress, scales, ns, ws[k]).score <= c.score) &&
      c.fd == -fit.slope &&
      c.minScale == scales[ws[c.index].start] &&
      c.maxScale == scales[ws[c.index].end])
  }

  /** The loop over the windows that keeps the best rounded adjusted R² with a strict `>`. */
  method SelectWindow(regress: (seq<nat>, seq<real>) -> Fit, scales: seq<nat>, ns: seq<real>, ws: seq<Window>)
    returns (r: Result<Choice>)
    requires |scales| == |ns| && WindowsInside(ws, |scales|)
    ensures IsSelection(r, regress, scales, ns, ws)
  {
    var best := Unscored;
    var found := false;
    var fd: real, minScale: nat, maxScale: nat, index: nat := 0.0, 0, 0, 0;
    var k := 0;
    while k < |ws|
      invariant 0 <= k <= |ws|
      invariant found <==> k > 0
      invariant !found ==> best == Unscored
      invariant found ==> FitOf(regress, scales, ns, ws[0]).score > Unscored
      invariant found ==>
        index < k && best > Unscored &&
        best == FitOf(regress, scales, ns, ws[index]).score &&
        fd == -FitOf(regress, scales, ns, ws[index]).slope &&
        minScale == scales[ws[index].start] && maxScale == scales[ws[index].end] &&
        (forall m :: 0 <= m < index ==> FitOf(regress, scales, ns, ws[m]).score < best) &&
        (forall m :: 0 <= m < k ==> FitOf(regress, scales, ns, ws[m]).score <= best)
    {
      var fit := FitOf(regress, scales, ns, ws[k]);
      if fit.score > best {
        best, fd, index, found := fit.score, -fit.slope, k, true;
        minScale, maxScale := scales[ws[k].start], scales[ws[k].end];
      }
      if !found {
        // round(FD, 4) is reached with FD never assigned
        return Err(FirstWindowNotSelected);
      }
      k := k + 1;
    }
    if !found {
      // mfs * L_min is reached with mfs never assigned
      return Err(NoWindowSelected);
    }
    r := Ok(Choice(index, best, fd, minScale, maxScale));
  }
}
