/**
 * Box counting with pseudo-randomly offset grids: for every scale, twenty
 * trials each histogram the occupied voxels over a grid shifted by a drawn
 * offset and count the non-empty boxes; the estimate is their mean.
 */
module BoxCounting {
  import opened Outcomes
  import opened Voxels

  /** Number of offset trials per scale. */
  const Trials: nat := 20

  /** The three draws randint(0, scale) of one trial, for the first, second and third axis. */
  datatype Offset = Offset(y: nat, x: nat, z: nat)

  /** A box of the offset grid, by its bin index along each axis. */
  datatype Bin = Bin(y: nat, x: nat, z: nat)

  predicate OffsetFits(o: Offset, scale: nat) {
    o.y <= scale && o.x <= scale && o.z <= scale
  }

  /**
   * The offsets consumed by the counting loop: trial t of the scale at index s
   * uses draw Trials * s + t, and each draw lies in [0, scale].
   */
  predicate DrawsFit(offsets: seq<Offset>, scales: seq<nat>) {
    |offsets| >= Trials * |scales| &&
    forall n :: 0 <= n < Trials * |scales| ==> OffsetFits(offsets[n], scales[n / Trials])
  }

  /** np.arange(start, stop, step) over integers. */
  function Arange(start: int, stop: int, step: nat): seq<int>
    requires step >= 1
    decreases stop - start
  {
    if start >= stop then [] else [start] + Arange(start + step, stop, step)
  }

  /** The edges are empty exactly when start >= stop; otherwise the last is within one step below stop. */
  lemma {:induction false} ArangeEnds(start: int, stop: int, step: nat)
    requires step >= 1
    ensures var edges := Arange(start, stop, step);
      (start < stop <==> edges != []) &&
      (edges != [] ==> edges[0] == start && edges[|edges| - 1] < stop <= edges[|edges| - 1] + step)
    decreases stop - start
  {
    if start < stop {
      ArangeEnds(start + step, stop, step);
    }
  }

  /** Bin n covers [edges[n], edges[n+1]), and the last bin also holds its right edge. */
  predicate InBin(edges: seq<int>, n: nat, c: int) {
    n + 1 < |edges| && edges[n] <= c &&
    (c < edges[n + 1] || (n + 2 == |edges| && c == edges[n + 1]))
  }

  /** Bin edges as np.histogramdd requires them: strictly increasing. */
  predicate Increasing(edges: seq<int>) {
    forall m, n :: 0 <= m < n < |edges| ==> edges[m] < edges[n]
  }

  /** c lies in no bin: there is no bin at all, or c is below the first edge or above the last. */
  predicate Outside(edges: seq<int>, c: int) {
    |edges| < 2 || c < edges[0] || c > edges[|edges| - 1]
  }

  /**
   * The bin of np.histogramdd along one axis that holds c; a value outside
   * every bin is dropped (None).
   */
  function BinIndex(edges: seq<int>, c: int): (r: Option<nat>)
    ensures r.Some? ==> InBin(edges, r.value, c)
    decreases |edges|
  {
    if |edges| < 2 || c < edges[0] then None
    else if c < edges[1] || (|edges| == 2 && c == edges[1]) then Some(0)
    else match BinIndex(edges[1..], c)
      case None => None
      case Some(n) => Some(n + 1)
  }

  /** Over increasing edges, a value is dropped exactly when it lies outside the edges. */
  lemma {:induction false} BinIndexDrops(edges: seq<int>, c: int)
    requires Increasing(edges)
    ensures BinIndex(edges, c).None? <==> Outside(edges, c)
    decreases |edges|
  {
    if |edges| >= 2 && edges[0] <= c {
      if c < edges[1] || (|edges| == 2 && c == edges[1]) {
        assert edges[1] <= edges[|edges| - 1];
      } else if |edges| > 2 {
        var rest := edges[1..];
        assert Increasing(rest) by {
          forall m, n | 0 <= m < n < |rest|
            ensures rest[m] < rest[n]
          {
            assert rest[m] == edges[m + 1] && rest[n] == edges[n + 1];
          }
        }
        BinIndexDrops(rest, c);
        assert rest[|rest| - 1] == edges[|edges| - 1];
      }
    }
  }

  /**
   * The bin edges along an axis of extent `extent` for box size `scale` and
   * draw `off`: np.arange(-off, extent + 1 + scale, scale). They start at
   * -off and reach at least extent + 1.
   */
  function AxisEdges(extent: nat, scale: nat, off: nat): (edges: seq<int>)
    requires scale >= 1 && off <= scale
    ensures |edges| >= 2
    ensures edges[0] == -(off as int) && edges[|edges| - 1] >= extent + 1
    ensures Increasing(edges)
  {
    ArangeIncreasing(-(off as int), extent + 1 + scale, scale);
    ArangeEnds(-(off as int), extent + 1 + scale, scale);
    ArangeEnds(-(off as int) + scale, extent + 1 + scale, scale);
    Arange(-(off as int), extent + 1 + scale, scale)
  }

  /** The edges of np.arange with a positive step increase strictly. */
  lemma {:induction false} ArangeIncreasing(start: int, stop: int, step: nat)
    requires step >= 1
    ensures Increasing(Arange(start, stop, step))
    decreases stop - start
  {
    if start < stop {
      var rest := Arange(start + step, stop, step);
      ArangeIncreasing(start + step, stop, step);
      ArangeEnds(start + step, stop, step);
      var edges := Arange(start, stop, step);
      assert edges == [start] + rest;
      forall m, n | 0 <= m < n < |edges|
        ensures edges[m] < edges[n]
      {
        assert edges[n] == rest[n - 1];
        if m == 0 {
          assert rest[0] <= rest[n - 1];
        } else {
          assert edges[m] == rest[m - 1];
        }
      }
    }
  }

  /** Edge n of np.arange(start, stop, step) is start + n * step. */
  lemma {:induction false} ArangeAt(start: int, stop: int, step: nat, n: nat)
    requires step >= 1 && n < |Arange(start, stop, step)|
    ensures Arange(start, stop, step)[n] == start + n * step
    decreases n
  {
    if n > 0 {
      ArangeAt(start + step, stop, step, n - 1);
      assert (n - 1) * step + step == n * step;
    }
  }

  /**
   * Floor division of a non-negative numerator, by repeated subtraction
   * (QuotientBounds); spelled out so that proofs about bins can follow the
   * grid one box at a time.
   */
  function Quotient(x: nat, d: nat): nat
    requires d >= 1
    decreases x
  {
    if x < d then 0 else 1 + Quotient(x - d, d)
  }

  /** Quotient is floor division: q * d <= x < q * d + d. */
  lemma {:induction false} QuotientBounds(x: nat, d: nat)
    requires d >= 1
    ensures Quotient(x, d) * d <= x < Quotient(x, d) * d + d
    decreases x
  {
    if x >= d {
      QuotientBounds(x - d, d);
      var q := Quotient(x - d, d);
      assert (q + 1) * d == q * d + d;
    }
  }

  lemma {:induction false} QuotientByOne(x: nat)
    ensures Quotient(x, 1) == x
    decreases x
  {
    if x >= 1 {
      QuotientByOne(x - 1);
    }
  }

  /** The first two edges of an arange with at least two, and what follows the first. */
  lemma ArangeFront(start: int, stop: int, step: nat)
    requires step >= 1 && start + step < stop
    ensures var edges := Arange(start, stop, step);
      |edges| >= 2 && edges[0] == start && edges[1] == start + step &&
      edges[1..] == Arange(start + step, stop, step)
  {
    var tail := Arange(start + step, stop, step);
    assert tail == [start + step] + Arange(start + step + step, stop, step);
    assert Arange(start, stop, step) == [start] + tail;
  }

  /** A value c at least one step below `stop` and not below `start` lands in bin (c - start) div step. */
  lemma {:induction false} BinOfArange(start: int, stop: int, step: nat, c: int)
    requires step >= 1 && start <= c && c + step < stop
    ensures BinIndex(Arange(start, stop, step), c) == Some(Quotient(c - start, step))
    decreases c - start
  {
    ArangeFront(start, stop, step);
    var edges := Arange(start, stop, step);
    if c < start + step {
      assert BinIndex(edges, c) == Some(0);
      assert Quotient(c - start, step) == 0;
    } else {
      ArangeFront(start + step, stop, step);
      BinOfArange(start + step, stop, step, c);
      var n := Quotient(c - (start + step), step);
      assert BinIndex(edges, c) == Some(n + 1);
      assert Quotient(c - start, step) == 1 + n;
    }
  }

  /**
   * No occupied coordinate is dropped by the histogram: for every draw in
   * [0, scale], coordinate c in [0, extent) falls into bin (c + off) div scale.
   */
  lemma AxisBin(extent: nat, scale: nat, off: nat, c: nat)
    requires scale >= 1 && off <= scale && c < extent
    ensures BinIndex(AxisEdges(extent, scale, off), c) == Some(Quotient(c + off, scale))
  {
    BinOfArange(-(off as int), extent + 1 + scale, scale, c);
  }

  /** The histogram bin of a sample given the edges along each axis; None when it is dropped. */
  function GridBin(edgesY: seq<int>, edgesX: seq<int>, edgesZ: seq<int>, v: Voxel): (r: Option<Bin>)
    ensures r.Some? ==> InBin(edgesY, r.value.y, v.i) && InBin(edgesX, r.value.x, v.j) && InBin(edgesZ, r.value.z, v.k)
  {
    var binY, binX, binZ := BinIndex(edgesY, v.i), BinIndex(edgesX, v.j), BinIndex(edgesZ, v.k);
    if binY.Some? && binX.Some? && binZ.Some? then Some(Bin(binY.value, binX.value, binZ.value))
    else None
  }

  /** Over increasing edges, a sample is dropped exactly when one of its coordinates lies outside its axis's edges. */
  lemma GridBinDrops(edgesY: seq<int>, edgesX: seq<int>, edgesZ: seq<int>, v: Voxel)
    requires Increasing(edgesY) && Increasing(edgesX) && Increasing(edgesZ)
    ensures GridBin(edgesY, edgesX, edgesZ, v).None? <==>
      (Outside(edgesY, v.i) || Outside(edgesX, v.j) || Outside(edgesZ, v.k))
  {
    BinIndexDrops(edgesY, v.i);
    BinIndexDrops(edgesX, v.j);
    BinIndexDrops(edgesZ, v.k);
  }

  /** The box of the grid offset by `o` that holds voxel `v`. */
  function BoxOf(v: Voxel, o: Offset, scale: nat): Bin
    requires scale >= 1
  {
    Bin(Quotient(v.i + o.y, scale), Quotient(v.j + o.x, scale), Quotient(v.k + o.z, scale))
  }

  /** The set of boxes that hold at least one of the voxels. */
  function BoxesHit(vs: seq<Voxel>, o: Offset, scale: nat): set<Bin>
    requires scale >= 1
  {
    if vs == [] then {}
    else BoxesHit(vs[..|vs| - 1], o, scale) + {BoxOf(vs[|vs| - 1], o, scale)}
  }

  /** A trial counts at most one box per voxel, and at least one box when there is a voxel. */
  lemma {:induction false} BoxesHitBounds(vs: seq<Voxel>, o: Offset, scale: nat)
    requires scale >= 1
    ensures |BoxesHit(vs, o, scale)| <= |vs|
    ensures vs != [] ==> |BoxesHit(vs, o, scale)| >= 1
  {
    if vs != [] {
      BoxesHitBounds(vs[..|vs| - 1], o, scale);
    }
  }

  lemma BoxesHitAppend(vs: seq<Voxel>, v: Voxel, o: Offset, scale: nat)
    requires scale >= 1
    ensures BoxesHit(vs + [v], o, scale) == BoxesHit(vs, o, scale) + {BoxOf(v, o, scale)}
  {
    assert (vs + [v])[..|vs|] == vs;
  }

  /** A box is hit exactly when some voxel lies in it. */
  lemma {:induction false} BoxesHitMembers(vs: seq<Voxel>, o: Offset, scale: nat, b: Bin)
    requires scale >= 1
    ensures b in BoxesHit(vs, o, scale) <==> exists n :: 0 <= n < |vs| && b == BoxOf(vs[n], o, scale)
  {
    if vs != [] {
      var init := vs[..|vs| - 1];
      assert forall n :: 0 <= n < |init| ==> init[n] == vs[n];
      BoxesHitMembers(init, o, scale, b);
    }
  }

  /** Every voxel inside the volume is histogrammed, into the box BoxOf gives. */
  lemma GridBinOfVoxel(ly: nat, lx: nat, lz: nat, scale: nat, o: Offset, v: Voxel)
    requires scale >= 1 && OffsetFits(o, scale) && InGrid(v, ly, lx, lz)
    ensures GridBin(AxisEdges(ly, scale, o.y), AxisEdges(lx, scale, o.x), AxisEdges(lz, scale, o.z), v)
      == Some(BoxOf(v, o, scale))
  {
    AxisBin(ly, scale, o.y, v.i);
    AxisBin(lx, scale, o.x, v.j);
    AxisBin(lz, scale, o.z, v.k);
  }

  /** When distinct voxels land in distinct boxes, there are as many boxes as voxels. */
  lemma {:induction false} InjectiveBoxCount(vs: seq<Voxel>, o: Offset, scale: nat)
    requires scale >= 1
    requires forall m, n :: 0 <= m < n < |vs| ==> BoxOf(vs[m], o, scale) != BoxOf(vs[n], o, scale)
    ensures |BoxesHit(vs, o, scale)| == |vs|
  {
    if vs != [] {
      var init := vs[..|vs| - 1];
      assert forall n :: 0 <= n < |init| ==> init[n] == vs[n];
      InjectiveBoxCount(init, o, scale);
      BoxesHitMembers(init, o, scale, BoxOf(vs[|vs| - 1], o, scale));
      assert BoxOf(vs[|vs| - 1], o, scale) !in BoxesHit(init, o, scale);
    }
  }

  /** At scale 1 every voxel is its own box, so a trial counts every occupied voxel. */
  lemma UnitScaleCountsVoxels(vs: seq<Voxel>, o: Offset)
    requires OffsetFits(o, 1)
    requires forall m, n :: 0 <= m < n < |vs| ==> vs[m] != vs[n]
    ensures |BoxesHit(vs, o, 1)| == |vs|
  {
    forall v: Voxel
      ensures BoxOf(v, o, 1) == Bin(v.i + o.y, v.j + o.x, v.k + o.z)
    {
      QuotientByOne(v.i + o.y);
      QuotientByOne(v.j + o.x);
      QuotientByOne(v.k + o.z);
    }
    InjectiveBoxCount(vs, o, 1);
  }

  /**
   * One trial: the 3-D histogram of the voxels over the offset grid, then the
   * number of bins whose tally is positive.
   */
  method HistogramCount(voxels: seq<Voxel>, ly: nat, lx: nat, lz: nat, scale: nat, o: Offset)
    returns (count: nat)
    requires scale >= 1 && OffsetFits(o, scale)
    requires forall n :: 0 <= n < |voxels| ==> InGrid(voxels[n], ly, lx, lz)
    ensures count == |BoxesHit(voxels, o, scale)|
  {
    var edgesY := AxisEdges(ly, scale, o.y);
    var edgesX := AxisEdges(lx, scale, o.x);
    var edgesZ := AxisEdges(lz, scale, o.z);
    var tally: map<Bin, nat> := map[];
    var n := 0;
    while n < |voxels|
      invariant 0 <= n <= |voxels|
      invariant tally.Keys == BoxesHit(voxels[..n], o, scale)
      invariant forall b :: b in tally ==> tally[b] >= 1
    {
      var v := voxels[n];
      var bin := GridBin(edgesY, edgesX, edgesZ, v);
      assert bin == Some(BoxOf(v, o, scale)) by {
        GridBinOfVoxel(ly, lx, lz, scale, o, v);
      }
      ghost var before := tally;
      if bin.Some? {
        var b := bin.value;
        tally := tally[b := if b in tally then tally[b] + 1 else 1];
      }
      assert tally.Keys == BoxesHit(voxels[..n + 1], o, scale) by {
        assert voxels[..n + 1] == voxels[..n] + [v];
        BoxesHitAppend(voxels[..n], v, o, scale);
        assert tally.Keys == before.Keys + {bin.value};
      }
      n := n + 1;
    }
    assert voxels[..n] == voxels;
    var nonEmpty := set b | b in tally && tally[b] > 0;
    assert nonEmpty == tally.Keys;
    count := |nonEmpty|;
  }

  function Sum(xs: seq<nat>): nat {
    if xs == [] then 0 else Sum(xs[..|xs| - 1]) + xs[|xs| - 1]
  }

  /** Every term in [lo, hi] puts the sum in [|xs| * lo, |xs| * hi]. */
  lemma {:induction false} SumBounds(xs: seq<nat>, lo: nat, hi: nat)
    requires forall n :: 0 <= n < |xs| ==> lo <= xs[n] <= hi
    ensures |xs| * lo <= Sum(xs) <= |xs| * hi
  {
    if xs != [] {
      var init := xs[..|xs| - 1];
      assert forall n :: 0 <= n < |init| ==> init[n] == xs[n];
      SumBounds(init, lo, hi);
      assert |xs| * lo == |init| * lo + lo;
      assert |xs| * hi == |init| * hi + hi;
    }
  }

  /** The counts of the trials that use the given draws. */
  function TrialCounts(voxels: seq<Voxel>, draws: seq<Offset>, scale: nat): seq<nat>
    requires scale >= 1
  {
    seq(|draws|, t requires 0 <= t < |draws| => |BoxesHit(voxels, draws[t], scale)|)
  }

  /** Every trial counts at most one box per voxel, and at least one when there is a voxel. */
  lemma TrialCountsBounds(voxels: seq<Voxel>, draws: seq<Offset>, scale: nat)
    requires scale >= 1
    ensures forall t :: 0 <= t < |draws| ==>
      TrialCounts(voxels, draws, scale)[t] <= |voxels| &&
      (voxels != [] ==> 1 <= TrialCounts(voxels, draws, scale)[t])
  {
    forall t | 0 <= t < |draws|
      ensures |BoxesHit(voxels, draws[t], scale)| <= |voxels|
      ensures voxels != [] ==> 1 <= |BoxesHit(voxels, draws[t], scale)|
    {
      BoxesHitBounds(voxels, draws[t], scale);
    }
  }

  /** np.mean of the trial counts: never more than the number of voxels. */
  function MeanCount(voxels: seq<Voxel>, draws: seq<Offset>, scale: nat): (mean: real)
    requires scale >= 1 && |draws| == Trials
    ensures 0.0 <= mean <= |voxels| as real
  {
    var counts := TrialCounts(voxels, draws, scale);
    TrialCountsBounds(voxels, draws, scale);
    SumBounds(counts, 0, |voxels|);
    Sum(counts) as real / Trials as real
  }

  /** A non-empty voxel list has a mean count between 1 and the number of voxels. */
  lemma MeanCountBounds(voxels: seq<Voxel>, draws: seq<Offset>, scale: nat)
    requires scale >= 1 && |draws| == Trials && voxels != []
    ensures 1.0 <= MeanCount(voxels, draws, scale) <= |voxels| as real
  {
    TrialCountsBounds(voxels, draws, scale);
    SumBounds(TrialCounts(voxels, draws, scale), 1, |voxels|);
  }

  /** At scale 1 the mean count is exactly the number of (distinct) occupied voxels. */
  lemma UnitScaleMean(voxels: seq<Voxel>, draws: seq<Offset>)
    requires |draws| == Trials && forall t :: 0 <= t < Trials ==> OffsetFits(draws[t], 1)
    requires forall m, n :: 0 <= m < n < |voxels| ==> voxels[m] != voxels[n]
    ensures MeanCount(voxels, draws, 1) == |voxels| as real
  {
    var counts := TrialCounts(voxels, draws, 1);
    forall t | 0 <= t < Trials
      ensures counts[t] == |voxels|
    {
      UnitScaleCountsVoxels(voxels, draws[t]);
    }
    SumBounds(counts, |voxels|, |voxels|);
  }

  /** The twenty trials of one scale: their counts and their mean. */
  method ScaleEstimate(voxels: seq<Voxel>, ly: nat, lx: nat, lz: nat, scale: nat, draws: seq<Offset>)
    returns (counts: seq<nat>, mean: real)
    requires scale >= 1 && |draws| == Trials
    requires forall t :: 0 <= t < Trials ==> OffsetFits(draws[t], scale)
    requires forall n :: 0 <= n < |voxels| ==> InGrid(voxels[n], ly, lx, lz)
    ensures counts == TrialCounts(voxels, draws, scale)
    ensures mean == MeanCount(voxels, draws, scale)
    ensures mean * Trials as real == Sum(counts) as real
  {
    counts := [];
    var t := 0;
    while t < Trials
      invariant 0 <= t <= Trials
      invariant |counts| == t
      invariant forall u :: 0 <= u < t ==> counts[u] == |BoxesHit(voxels, draws[u], scale)|
    {
      var c := HistogramCount(voxels, ly, lx, lz, scale, draws[t]);
      counts := counts + [c];
      t := t + 1;
    }
    mean := Sum(counts) as real / Trials as real;
  }

  /** The per-scale estimates Ns: one mean count per scale, in scale order. */
  predicate IsCountEstimate(ns: seq<real>, voxels: seq<Voxel>, scales: seq<nat>, offsets: seq<Offset>)
  {
    DrawsFit(offsets, scales) &&
    (forall s :: 0 <= s < |scales| ==> scales[s] >= 1) &&
    |ns| == |scales| &&
    forall s :: 0 <= s < |scales| ==>
      ns[s] == MeanCount(voxels, offsets[Trials * s .. Trials * s + Trials], scales[s])
  }

  /** The loop over the scales, each scale consuming the next twenty draws. */
  method CountAllScales(voxels: seq<Voxel>, ly: nat, lx: nat, lz: nat, scales: seq<nat>, offsets: seq<Offset>)
    returns (ns: seq<real>)
    requires forall s :: 0 <= s < |scales| ==> scales[s] >= 1
    requires DrawsFit(offsets, scales)
    requires forall n :: 0 <= n < |voxels| ==> InGrid(voxels[n], ly, lx, lz)
    ensures IsCountEstimate(ns, voxels, scales, offsets)
  {
    ns := [];
    var s := 0;
    while s < |scales|
      invariant 0 <= s <= |scales|
      invariant |ns| == s
      invariant forall u :: 0 <= u < s ==>
        ns[u] == MeanCount(voxels, offsets[Trials * u .. Trials * u + Trials], scales[u])
    {
      var draws := offsets[Trials * s .. Trials * s + Trials];
      forall t | 0 <= t < Trials
        ensures OffsetFits(draws[t], scales[s])
      {
        assert draws[t] == offsets[Trials * s + t];
        assert (Trials * s + t) / Trials == s;
      }
      var counts, mean := ScaleEstimate(voxels, ly, lx, lz, scales[s], draws);
      ns := ns + [mean];
      s := s + 1;
    }
  }
}
