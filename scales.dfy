/** The largest extent of the volume and the dyadic sequence of box sizes. */
module Scales {
  function Pow2(e: nat): (r: nat)
    ensures r >= 1
  {
    if e == 0 then 1 else 2 * Pow2(e - 1)
  }

  lemma {:induction false} Pow2Monotone(d: nat, e: nat)
    requires d <= e
    ensures Pow2(d) <= Pow2(e)
    decreases e
  {
    if d < e {
      Pow2Monotone(d, e - 1);
    }
  }

  /** Powers of two four or more exponents apart differ by a factor of at least 16. */
  lemma {:induction false} Pow2Gap(d: nat, e: nat)
    requires d + 4 <= e
    ensures 16 * Pow2(d) <= Pow2(e)
    decreases e
  {
    if d + 4 < e {
      Pow2Gap(d, e - 1);
    } else {
      assert Pow2(d + 1) == 2 * Pow2(d);
      assert Pow2(d + 2) == 2 * Pow2(d + 1);
      assert Pow2(d + 3) == 2 * Pow2(d + 2);
      assert Pow2(d + 4) == 2 * Pow2(d + 3);
    }
  }

  /** L_Max: the largest of the three extents (Ly, Lx, Lz). */
  function MaxExtent(ly: nat, lx: nat, lz: nat): (lMax: nat)
    ensures lMax >= ly && lMax >= lx && lMax >= lz
    ensures lMax == ly || lMax == lx || lMax == lz
  {
    var m := if lx > ly then lx else ly;
    if lz > m then lz else m
  }

  /** ceil(log2(n)): the exponent of the least power of two that is at least n. */
  function CeilLog2(n: nat): (e: nat)
    requires n >= 1
    ensures Pow2(e) >= n
    ensures e == 0 || Pow2(e - 1) < n
    decreases n
  {
    if n == 1 then 0 else 1 + CeilLog2((n + 1) / 2)
  }

  /** No smaller exponent than CeilLog2(n) gives a power of two covering n. */
  lemma {:induction false} CeilLog2Least(n: nat, e: nat)
    requires n >= 1 && Pow2(e) >= n
    ensures CeilLog2(n) <= e
    decreases n
  {
    if n > 1 {
      CeilLog2Least((n + 1) / 2, e - 1);
    }
  }

  lemma Pow2UpToThree(e: nat)
    ensures e <= 3 ==> Pow2(e) <= 8
  {
    if e <= 3 {
      Pow2Monotone(e, 3);
    }
  }

  /**
   * Fewer than five scales exactly when the largest extent is at most 8:
   * such volumes leave no window of five scales to fit.
   */
  lemma FewScales(lMax: nat)
    requires lMax >= 1
    ensures CeilLog2(lMax) + 1 < 5 <==> lMax <= 8
  {
    var e := CeilLog2(lMax);
    Pow2UpToThree(e);
    if lMax <= 8 {
      CeilLog2Least(lMax, 3);
    }
  }

  /** Box edge lengths 2^0, 2^1, ..., 2^stop, appended one exponent at a time. */
  method PowersOfTwo(stop: nat) returns (scales: seq<nat>)
    ensures |scales| == stop + 1
    ensures scales[0] == 1
    ensures forall n :: 1 <= n < |scales| ==> scales[n] == 2 * scales[n - 1]
    ensures forall n :: 0 <= n < |scales| ==> scales[n] == Pow2(n)
  {
    scales := [];
    var exp := 0;
    while exp < stop + 1
      invariant 0 <= exp <= stop + 1
      invariant |scales| == exp
      invariant forall n :: 0 <= n < exp ==> scales[n] == Pow2(n)
    {
      scales := scales + [Pow2(exp)];
      exp := exp + 1;
    }
    forall n | 1 <= n < |scales|
      ensures scales[n] == 2 * scales[n - 1]
    {
      assert scales[n] == Pow2(n) && scales[n - 1] == Pow2(n - 1);
    }
  }

  /**
   * The box sizes of an image whose largest extent is `lMax`: they start at
   * 1, double at each step, and the last one is the least power of two that
   * is at least `lMax`.
   */
  predicate IsScaleSequence(scales: seq<nat>, lMax: nat)
    requires lMax >= 1
  {
    |scales| == CeilLog2(lMax) + 1 &&
    (forall n :: 0 <= n < |scales| ==> scales[n] == Pow2(n))
  }

  /** The scale sequence is the doubling sequence ending at the least covering power of two. */
  lemma ScaleSequenceShape(scales: seq<nat>, lMax: nat)
    requires lMax >= 1 && IsScaleSequence(scales, lMax)
    ensures scales[0] == 1
    ensures forall n :: 1 <= n < |scales| ==> scales[n] == 2 * scales[n - 1]
    ensures scales[|scales| - 1] >= lMax
    ensures |scales| == 1 || scales[|scales| - 2] < lMax
    ensures forall e: nat :: Pow2(e) >= lMax ==> scales[|scales| - 1] <= Pow2(e)
  {
    forall e: nat | Pow2(e) >= lMax
      ensures scales[|scales| - 1] <= Pow2(e)
    {
      CeilLog2Least(lMax, e);
      Pow2Monotone(|scales| - 1, e);
    }
  }
}
