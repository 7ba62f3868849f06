/** Enumeration of the candidate scaling windows over the scale indices. */
module Windows {
  /** Fewest scales a scaling window may span. */
  const MinWindowSize: nat := 5

  /** A contiguous range [start, end] of indices into the scale sequence. */
  datatype Window = Window(start: nat, end: nat)

  function Length(w: Window): int {
    w.end - w.start + 1
  }

  /** A window of at least MinWindowSize scales inside a sequence of `count` scales. */
  predicate ValidWindow(w: Window, count: nat) {
    Length(w) >= MinWindowSize && w.end < count
  }

  /** Enumeration order: longer windows first, then by ascending start. */
  predicate WindowBefore(u: Window, w: Window) {
    Length(u) > Length(w) || (Length(u) == Length(w) && u.start < w.start)
  }

  /** Sum over len = from .. count of (count - len + 1). */
  function WindowsFrom(count: nat, from: nat): nat
    decreases count + 1 - from
  {
    if from > count then 0 else (count - from + 1) + WindowsFrom(count, from + 1)
  }

  /** Number of windows of length at least MinWindowSize over `count` scales. */
  function WindowCount(count: nat): nat {
    WindowsFrom(count, MinWindowSize)
  }

  lemma {:induction false} WindowsFromClosedForm(count: nat, from: nat)
    requires 1 <= from <= count + 1
    ensures 2 * WindowsFrom(count, from) == (count - from + 1) * (count - from + 2)
    decreases count + 1 - from
  {
    if from <= count {
      WindowsFromClosedForm(count, from + 1);
    }
  }

  /** In closed form, (S - 4)(S - 3) / 2 windows over S >= 4 scales, none over fewer than 5. */
  lemma WindowCountClosedForm(count: nat)
    ensures count < MinWindowSize ==> WindowCount(count) == 0
    ensures count >= MinWindowSize - 1 ==> 2 * WindowCount(count) == (count - 4) * (count - 3)
  {
    if count >= MinWindowSize - 1 {
      WindowsFromClosedForm(count, MinWindowSize);
    }
  }

  /** The windows, each once, in enumeration order, and every window exactly once. */
  ghost predicate IsWindowList(ws: seq<Window>, count: nat) {
    (forall n :: 0 <= n < |ws| ==> ValidWindow(ws[n], count)) &&
    (forall w :: ValidWindow(w, count) ==> w in ws) &&
    (forall m, n :: 0 <= m < n < |ws| ==> WindowBefore(ws[m], ws[n])) &&
    |ws| == WindowCount(count)
  }

  /**
   * The nested loops over window length (from `count` down to MinWindowSize)
   * and start index that append (start, start + length - 1).
   */
  method EnumerateWindows(count: nat) returns (ws: seq<Window>)
    ensures IsWindowList(ws, count)
    ensures count < MinWindowSize ==> ws == []
  {
    ws := [];
    var step: int := count;
    while step >= MinWindowSize
      invariant 0 <= step <= count
      invariant step == count || step >= MinWindowSize - 1
      invariant |ws| == WindowsFrom(count, step + 1)
      invariant forall n :: 0 <= n < |ws| ==> ValidWindow(ws[n], count) && Length(ws[n]) > step
      invariant forall w :: ValidWindow(w, count) && Length(w) > step ==> w in ws
      invariant forall m, n :: 0 <= m < n < |ws| ==> WindowBefore(ws[m], ws[n])
    {
      var start := 0;
      while start < count - step + 1
        invariant 0 <= start <= count - step + 1
        invariant |ws| == WindowsFrom(count, step + 1) + start
        invariant forall n :: 0 <= n < |ws| ==>
          ValidWindow(ws[n], count) && (Length(ws[n]) > step || (Length(ws[n]) == step && ws[n].start < start))
        invariant forall w :: ValidWindow(w, count) && (Length(w) > step || (Length(w) == step && w.start < start)) ==>
          w in ws
        invariant forall m, n :: 0 <= m < n < |ws| ==> WindowBefore(ws[m], ws[n])
      {
        ws := ws + [Window(start, start + step - 1)];
        start := start + 1;
      }
      step := step - 1;
    }
    assert step == count || step == MinWindowSize - 1;
    assert WindowsFrom(count, step + 1) == WindowCount(count);
  }
}
