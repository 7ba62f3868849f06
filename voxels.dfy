/** Extraction of the occupied voxels of a volume, in row-major order. */
module Voxels {
  /** Integer coordinates (first, second, third axis) of one voxel. */
  datatype Voxel = Voxel(i: nat, j: nat, k: nat)

  /** (i, j, k) comes strictly before (a, b, c) in row-major (lexicographic) order. */
  predicate Precedes(i: int, j: int, k: int, a: int, b: int, c: int) {
    i < a || (i == a && (j < b || (j == b && k < c)))
  }

  predicate Before(u: Voxel, w: Voxel) {
    Precedes(u.i, u.j, u.k, w.i, w.j, w.k)
  }

  predicate InGrid(v: Voxel, ly: nat, lx: nat, lz: nat) {
    v.i < ly && v.j < lx && v.k < lz
  }

  /** Strictly increasing in row-major order, hence also free of duplicates. */
  predicate RowMajor(vs: seq<Voxel>) {
    forall m, n :: 0 <= m < n < |vs| ==> Before(vs[m], vs[n])
  }

  /** The voxel is inside the volume and its value is strictly positive. */
  predicate Occupied(volume: array3<real>, v: Voxel)
    reads volume
  {
    InGrid(v, volume.Length0, volume.Length1, volume.Length2) && volume[v.i, v.j, v.k] > 0.0
  }

  /**
   * `voxels` lists exactly the occupied voxels of `volume`, each once,
   * in row-major order.
   */
  predicate ExtractedFrom(voxels: seq<Voxel>, volume: array3<real>)
    reads volume
  {
    (forall n :: 0 <= n < |voxels| ==> Occupied(volume, voxels[n])) &&
    (forall a: nat, b: nat, c: nat ::
       a < volume.Length0 && b < volume.Length1 && c < volume.Length2 && volume[a, b, c] > 0.0 ==>
       Voxel(a, b, c) in voxels) &&
    RowMajor(voxels)
  }

  /** The triple loop that appends every occupied (i, j, k) to `voxels`. */
  method Extract(volume: array3<real>) returns (voxels: seq<Voxel>)
    ensures ExtractedFrom(voxels, volume)
    ensures forall m, n :: 0 <= m < n < |voxels| ==> voxels[m] != voxels[n]
  {
    var ly, lx, lz := volume.Length0, volume.Length1, volume.Length2;
    voxels := [];
    var i := 0;
    while i < ly
      invariant 0 <= i <= ly
      invariant forall n :: 0 <= n < |voxels| ==> Occupied(volume, voxels[n]) && voxels[n].i < i
      invariant forall a: nat, b: nat, c: nat ::
        a < i && b < lx && c < lz && volume[a, b, c] > 0.0 ==> Voxel(a, b, c) in voxels
      invariant RowMajor(voxels)
    {
      var j := 0;
      while j < lx
        invariant 0 <= j <= lx
        invariant forall n :: 0 <= n < |voxels| ==>
          Occupied(volume, voxels[n]) && Precedes(voxels[n].i, voxels[n].j, 0, i, j, 0)
        invariant forall a: nat, b: nat, c: nat ::
          a < ly && b < lx && c < lz && Precedes(a, b, 0, i, j, 0) && volume[a, b, c] > 0.0 ==>
          Voxel(a, b, c) in voxels
        invariant RowMajor(voxels)
      {
        var k := 0;
        while k < lz
          invariant 0 <= k <= lz
          invariant forall n :: 0 <= n < |voxels| ==>
            Occupied(volume, voxels[n]) && Precedes(voxels[n].i, voxels[n].j, voxels[n].k, i, j, k)
          invariant forall a: nat, b: nat, c: nat ::
            a < ly && b < lx && c < lz && Precedes(a, b, c, i, j, k) && volume[a, b, c] > 0.0 ==>
            Voxel(a, b, c) in voxels
          invariant RowMajor(voxels)
        {
          if volume[i, j, k] > 0.0 {
            voxels := voxels + [Voxel(i, j, k)];
          }
          k := k + 1;
        }
        j := j + 1;
      }
      i := i + 1;
    }
  }

  /** The first element of a row-major list comes before every other element. */
  lemma RowMajorHead(s: seq<Voxel>, x: Voxel)
    requires RowMajor(s) && x in s
    ensures x == s[0] || Before(s[0], x)
  {
    var p :| 0 <= p < |s| && s[p] == x;
    if p > 0 {
      assert Before(s[0], s[p]);
    }
  }

  /**
   * The extraction is determined by the volume: two row-major lists with the
   * same elements are the same list.
   */
  lemma {:induction false} RowMajorUnique(a: seq<Voxel>, b: seq<Voxel>)
    requires RowMajor(a) && RowMajor(b)
    requires forall x :: x in a <==> x in b
    ensures a == b
    decreases |a|
  {
    assert b != [] ==> b[0] in a;
    if a != [] {
      assert a[0] in b;
      RowMajorHead(b, a[0]);
      RowMajorHead(a, b[0]);
      forall x
        ensures x in a[1..] <==> x in b[1..]
      {
        if x in a[1..] {
          var p :| 1 <= p < |a| && a[p] == x;
          assert Before(a[0], a[p]);
          assert x in b && x != b[0];
          var q :| 0 <= q < |b| && b[q] == x;
          assert x in b[1..];
        }
        if x in b[1..] {
          var p :| 1 <= p < |b| && b[p] == x;
          assert Before(b[0], b[p]);
          assert x in a && x != a[0];
          var q :| 0 <= q < |a| && a[q] == x;
          assert x in a[1..];
        }
      }
      RowMajorUnique(a[1..], b[1..]);
      assert a == [a[0]] + a[1..];
      assert b == [b[0]] + b[1..];
    }
  }

  /** Any two extractions of the same volume agree. */
  lemma ExtractionDeterministic(volume: array3<real>, a: seq<Voxel>, b: seq<Voxel>)
    requires ExtractedFrom(a, volume) && ExtractedFrom(b, volume)
    ensures a == b
  {
    forall x
      ensures x in a <==> x in b
    {
      if x in a {
        var p :| 0 <= p < |a| && a[p] == x;
        assert Occupied(volume, a[p]);
      }
      if x in b {
        var p :| 0 <= p < |b| && b[p] == x;
        assert Occupied(volume, b[p]);
      }
    }
    RowMajorUnique(a, b);
  }
}
