/** The histogram part of `skydet2b` in `skysb_sub.c`: overlapping meshes of pixels are counted
    quarter by quarter, in a buffer that holds only two rows of quarters. */
module SkyHistogram {

  /** The image, the pixel value to ignore, the bins, and the size of a mesh. */
  datatype Sky = Sky(g: seq<seq<real>>, npx: nat, npy: nat, pixignr: real, vmin: real, huinv: real,
                     meshX: nat, meshY: nat)

  predicate Shaped(q: Sky) {
    |q.g| == q.npy && forall j | 0 <= j < q.npy :: |q.g[j]| == q.npx
  }

  /** The value falls into bin `n`: it is nearer to its middle `vmin + n / huinv` than half a bin,
      or exactly half a bin below. */
  ghost predicate InBin(q: Sky, v: real, n: int) {
    n as real - 0.5 <= (v - q.vmin) * q.huinv < n as real + 0.5
  }

  /** The pixel lies on the image, is not ignored, and falls into bin `n`. */
  ghost predicate Hit(q: Sky, i: nat, j: nat, n: int)
    requires Shaped(q)
  {
    i < q.npx && j < q.npy && q.g[j][i] != q.pixignr && InBin(q, q.g[j][i], n)
  }

  /** The bin that the program counts a value in is the one it falls into. */
  lemma OneBin(q: Sky, v: real, mm: int, n: int)
    requires mm == ((v - q.vmin) * q.huinv + 0.5).Floor
    ensures InBin(q, v, n) <==> n == mm
  {}

  /** Where quarter `k` begins: half a mesh after the one before, cut to a whole pixel. */
  ghost function Edge(k: nat, meshsiz: nat): (e: nat)
    ensures 2 * e <= k * meshsiz < 2 * e + 2
  {
    k * meshsiz / 2
  }

  /** The hits of line `j` in columns `i0..i1`. */
  ghost function LineCount(q: Sky, j: nat, i0: nat, i1: nat, n: int): nat
    requires Shaped(q)
  {
    if i1 <= i0 then 0 else LineCount(q, j, i0, i1 - 1, n) + (if Hit(q, i1 - 1, j, n) then 1 else 0)
  }

  /** The direct histogram of a rectangle: its hits in bin `n`. */
  ghost function Count(q: Sky, i0: nat, i1: nat, j0: nat, j1: nat, n: int): nat
    requires Shaped(q)
  {
    if j1 <= j0 then 0 else Count(q, i0, i1, j0, j1 - 1, n) + LineCount(q, j1 - 1, i0, i1, n)
  }

  /** Those hits as a set. */
  ghost function Hits(q: Sky, i0: nat, i1: nat, j0: nat, j1: nat, n: int): set<(nat, nat)>
    requires Shaped(q)
  {
    set i: nat, j: nat | i0 <= i < i1 && j0 <= j < j1 && Hit(q, i, j, n) :: (i, j)
  }

  /** Each is counted once. */
  lemma {:induction false} CountIsSize(q: Sky, i0: nat, i1: nat, j0: nat, j1: nat, n: int)
    requires Shaped(q)
    ensures Count(q, i0, i1, j0, j1, n) == |Hits(q, i0, i1, j0, j1, n)|
  {
    hide Hit;
    if j0 < j1 {
      CountIsSize(q, i0, i1, j0, j1 - 1, n);
      LineIsSize(q, j1 - 1, i0, i1, n);
      assert Hits(q, i0, i1, j0, j1, n) == Hits(q, i0, i1, j0, j1 - 1, n) + Hits(q, i0, i1, j1 - 1, j1, n);
    }
  }

  lemma {:induction false} LineIsSize(q: Sky, j: nat, i0: nat, i1: nat, n: int)
    requires Shaped(q)
    ensures LineCount(q, j, i0, i1, n) == |Hits(q, i0, i1, j, j + 1, n)|
  {
    hide Hit;
    if i0 < i1 {
      LineIsSize(q, j, i0, i1 - 1, n);
      var rest, all := Hits(q, i0, i1 - 1, j, j + 1, n), Hits(q, i0, i1, j, j + 1, n);
      assert all == if Hit(q, i1 - 1, j, n) then rest + {(i1 - 1, j)} else rest;
    }
  }

  /** The direct histogram of mesh (a, b): a full mesh size wide and high. */
  ghost function MeshCount(q: Sky, a: nat, b: nat, n: int): nat
    requires Shaped(q)
  {
    Count(q, Edge(a, q.meshX), Edge(a, q.meshX) + q.meshX, Edge(b, q.meshY), Edge(b, q.meshY) + q.meshY, n)
  }

  /** The histogram of quarter (im, jm). */
  ghost function Quarter(q: Sky, im: nat, jm: nat, n: int): nat
    requires Shaped(q)
  {
    Count(q, Edge(im, q.meshX), Edge(im + 1, q.meshX), Edge(jm, q.meshY), Edge(jm + 1, q.meshY), n)
  }

  lemma {:induction false} LineSplits(q: Sky, j: nat, i0: nat, i1: nat, i2: nat, n: int)
    requires Shaped(q) && i0 <= i1 <= i2
    ensures LineCount(q, j, i0, i2, n) == LineCount(q, j, i0, i1, n) + LineCount(q, j, i1, i2, n)
  {
    hide Hit;
    if i1 < i2 { LineSplits(q, j, i0, i1, i2 - 1, n); }
  }

  lemma {:induction false} SplitsAcross(q: Sky, i0: nat, i1: nat, i2: nat, j0: nat, j1: nat, n: int)
    requires Shaped(q) && i0 <= i1 <= i2
    ensures Count(q, i0, i2, j0, j1, n) == Count(q, i0, i1, j0, j1, n) + Count(q, i1, i2, j0, j1, n)
  {
    if j0 < j1 {
      SplitsAcross(q, i0, i1, i2, j0, j1 - 1, n);
      LineSplits(q, j1 - 1, i0, i1, i2, n);
    }
  }

  lemma {:induction false} SplitsAlong(q: Sky, i0: nat, i1: nat, j0: nat, j1: nat, j2: nat, n: int)
    requires Shaped(q) && j0 <= j1 <= j2
    ensures Count(q, i0, i1, j0, j2, n) == Count(q, i0, i1, j0, j1, n) + Count(q, i0, i1, j1, j2, n)
  {
    if j1 < j2 { SplitsAlong(q, i0, i1, j0, j1, j2 - 1, n); }
  }

  lemma Edges(k: nat, m: nat)
    ensures Edge(k, m) <= Edge(k + 1, m) <= Edge(k + 2, m) == Edge(k, m) + m
  {
    assert (k + 1) * m == k * m + m && (k + 2) * m == k * m + 2 * m;
  }

  /** Four quarters make a mesh. */
  lemma FourQuarters(q: Sky, a: nat, b: nat, n: int)
    requires Shaped(q)
    ensures MeshCount(q, a, b, n)
         == Quarter(q, a, b, n) + Quarter(q, a + 1, b, n) + Quarter(q, a, b + 1, n) + Quarter(q, a + 1, b + 1, n)
  {
    hide Count, Edge;
    Edges(a, q.meshX);
    Edges(b, q.meshY);
    var i0, i1, i2 := Edge(a, q.meshX), Edge(a + 1, q.meshX), Edge(a + 2, q.meshX);
    var j0, j1, j2 := Edge(b, q.meshY), Edge(b + 1, q.meshY), Edge(b + 2, q.meshY);
    SplitsAlong(q, i0, i2, j0, j1, j2, n);
    SplitsAcross(q, i0, i1, i2, j0, j1, n);
    SplitsAcross(q, i0, i1, i2, j1, j2, n);
  }

  // ----- The program

  /** The bins of one place of the buffer hold the quarter (im, jm). */
  ghost predicate Holds(q: Sky, khist: array3<int>, off: nat, im: nat, jm: nat)
    requires Shaped(q) && off < khist.Length0 && im < khist.Length1
    reads khist
  {
    forall n | 0 <= n < khist.Length2 :: khist[off, im, n] == Quarter(q, im, jm, n)
  }

  /** The counting of one quarter into a place that was cleared. */
  method FillQuarter(q: Sky, khist: array3<int>, off: nat, im: nat, jm: nat)
    requires Shaped(q) && off < khist.Length0 && im < khist.Length1
    requires forall n | 0 <= n < khist.Length2 :: khist[off, im, n] == 0
    modifies khist
    ensures Holds(q, khist, off, im, jm)
    ensures forall r, i, n | 0 <= r < khist.Length0 && 0 <= i < khist.Length1 && 0 <= n < khist.Length2 && (r != off || i != im) ::
              khist[r, i, n] == old(khist[r, i, n])
  {
    hide Edge, InBin;
    Edges(im, q.meshX);
    Edges(jm, q.meshY);
    var i0, i1, j0, j1 := im * q.meshX / 2, (im + 1) * q.meshX / 2, jm * q.meshY / 2, (jm + 1) * q.meshY / 2;
    for j := j0 to j1
      invariant forall n | 0 <= n < khist.Length2 :: khist[off, im, n] == Count(q, i0, i1, j0, j, n)
      invariant forall r, i, n | 0 <= r < khist.Length0 && 0 <= i < khist.Length1 && 0 <= n < khist.Length2 && (r != off || i != im) ::
                  khist[r, i, n] == old(khist[r, i, n])
    {
      for i := i0 to i1
        invariant forall n | 0 <= n < khist.Length2 :: khist[off, im, n] == Count(q, i0, i1, j0, j, n) + LineCount(q, j, i0, i, n)
        invariant forall r, i, n | 0 <= r < khist.Length0 && 0 <= i < khist.Length1 && 0 <= n < khist.Length2 && (r != off || i != im) ::
                    khist[r, i, n] == old(khist[r, i, n])
      {
        if i < q.npx && j < q.npy && q.g[j][i] != q.pixignr {
          var mm := ((q.g[j][i] - q.vmin) * q.huinv + 0.5).Floor;
          forall n | 0 <= n < khist.Length2 ensures Hit(q, i, j, n) <==> n == mm { OneBin(q, q.g[j][i], mm, n); }
          if 0 <= mm < khist.Length2 {
            khist[off, im, mm] := khist[off, im, mm] + 1;
          }
        }
      }
    }
  }

  /** The places `from..to` of a row of the buffer hold the quarters of row `jm`. */
  ghost predicate RowHolds(q: Sky, khist: array3<int>, off: nat, from: int, to: int, jm: nat)
    requires Shaped(q) && off < khist.Length0 && 0 <= from && to <= khist.Length1
    reads khist
  {
    forall i | from <= i < to :: Holds(q, khist, off, i, jm)
  }

  /** The merging at (a + 1, b + 1): place `a` of row `off1` takes the other three quarters. */
  method Merge(q: Sky, khist: array3<int>, off0: nat, off1: nat, a: nat, b: nat) returns (merged: seq<int>)
    requires Shaped(q) && khist.Length0 == 2 && off0 < 2 && off1 == 1 - off0 && a + 1 < khist.Length1
    requires RowHolds(q, khist, off1, a, khist.Length1, b) && RowHolds(q, khist, off0, 0, a + 2, b + 1)
    modifies khist
    ensures merged == MeshHistogram(q, khist.Length2, a, b)
    ensures RowHolds(q, khist, off1, a + 1, khist.Length1, b) && RowHolds(q, khist, off0, 0, a + 2, b + 1)
    ensures forall i, n | 0 <= i < khist.Length1 && 0 <= n < khist.Length2 :: khist[off0, i, n] == old(khist[off0, i, n])
  {
    hide Quarter, MeshCount;
    assert Holds(q, khist, off1, a, b) && Holds(q, khist, off1, a + 1, b);
    assert Holds(q, khist, off0, a, b + 1) && Holds(q, khist, off0, a + 1, b + 1);
    for n := 0 to khist.Length2
      invariant forall m | 0 <= m < n :: khist[off1, a, m] == MeshCount(q, a, b, m)
      invariant forall m | n <= m < khist.Length2 :: khist[off1, a, m] == Quarter(q, a, b, m)
      invariant forall r, i, m | 0 <= r < 2 && 0 <= i < khist.Length1 && 0 <= m < khist.Length2 && (r != off1 || i != a) ::
                  khist[r, i, m] == old(khist[r, i, m])
    {
      FourQuarters(q, a, b, n);
      khist[off1, a, n] := khist[off1, a, n] + khist[off1, a + 1, n] + khist[off0, a, n] + khist[off0, a + 1, n];
    }
    merged := seq(khist.Length2, n requires 0 <= n < khist.Length2 reads khist => khist[off1, a, n]);
    forall i | a < i < khist.Length1 ensures Holds(q, khist, off1, i, b) { assert old(Holds(q, khist, off1, i, b)); }
    ghost var c := b + 1;
    forall i | 0 <= i < a + 2 ensures Holds(q, khist, off0, i, c) { assert old(Holds(q, khist, off0, i, c)); }
  }

  /** What the rest of the loop makes of a merged histogram: the mode and the width. */
  type Fit = seq<int> -> (real, real)

  ghost function MeshHistogram(q: Sky, nh: nat, a: nat, b: nat): (h: seq<int>)
    requires Shaped(q)
    ensures |h| == nh && forall n | 0 <= n < nh :: h[n] == MeshCount(q, a, b, n)
  {
    seq(nh, n requires 0 <= n < nh => MeshCount(q, a, b, n))
  }

  /** The results for a mesh are the fit of its direct histogram. */
  ghost predicate Fitted(q: Sky, nh: nat, fit: Fit, rmesh: array2<real>, sgmesh: array2<real>, a: nat, b: nat)
    requires Shaped(q) && b < rmesh.Length0 && b < sgmesh.Length0 && a < rmesh.Length1 && a < sgmesh.Length1
    reads rmesh, sgmesh
  {
    (rmesh[b, a], sgmesh[b, a]) == fit(MeshHistogram(q, nh, a, b))
  }

  /** The bins of a row of the buffer are 0 from place `from` on. */
  ghost predicate Cleared(khist: array3<int>, off: nat, from: nat)
    requires off < khist.Length0
    reads khist
  {
    forall i, n | from <= i < khist.Length1 && 0 <= n < khist.Length2 :: khist[off, i, n] == 0
  }

  /** The clearing of a row of the buffer. */
  method ClearRow(q: Sky, khist: array3<int>, off0: nat, off1: nat, ghost b: nat, ghost filled: bool)
    requires Shaped(q) && khist.Length0 == 2 && off0 < 2 && off1 == 1 - off0
    requires filled ==> RowHolds(q, khist, off1, 0, khist.Length1, b)
    modifies khist
    ensures Cleared(khist, off0, 0) && (filled ==> RowHolds(q, khist, off1, 0, khist.Length1, b))
  {
    hide Quarter;
    forall i, n | 0 <= i < khist.Length1 && 0 <= n < khist.Length2 { khist[off0, i, n] := 0; }
    if filled {
      forall i | 0 <= i < khist.Length1 ensures Holds(q, khist, off1, i, b) { assert old(Holds(q, khist, off1, i, b)); }
    }
  }

  /** The state of the buffer before place `im` of row `jm`: row `off0` is filled up to it and
      cleared from there on; row `off1` still holds the quarters of the row before from im - 1 on. */
  ghost predicate Underway(q: Sky, khist: array3<int>, off0: nat, im: nat, jm: nat)
    requires Shaped(q) && khist.Length0 == 2 && off0 < 2
    reads khist
  {
    && im <= khist.Length1
    && RowHolds(q, khist, off0, 0, im, jm) && Cleared(khist, off0, im)
    && (jm > 0 ==> RowHolds(q, khist, 1 - off0, if im == 0 then 0 else im - 1, khist.Length1, jm - 1))
  }

  /** The counting of place `im`. */
  method CountPlace(q: Sky, khist: array3<int>, off0: nat, im: nat, jm: nat)
    requires Shaped(q) && khist.Length0 == 2 && off0 < 2 && im < khist.Length1 && Underway(q, khist, off0, im, jm)
    modifies khist
    ensures RowHolds(q, khist, off0, 0, im + 1, jm) && Cleared(khist, off0, im + 1)
    ensures jm > 0 ==> RowHolds(q, khist, 1 - off0, if im == 0 then 0 else im - 1, khist.Length1, jm - 1)
  {
    hide Quarter;
    FillQuarter(q, khist, off0, im, jm);
    forall i | 0 <= i < im ensures Holds(q, khist, off0, i, jm) { assert old(Holds(q, khist, off0, i, jm)); }
    if jm > 0 {
      ghost var from, off1, b := if im == 0 then 0 else im - 1, 1 - off0, jm - 1;
      forall i | from <= i < khist.Length1 ensures Holds(q, khist, off1, i, b) { assert old(Holds(q, khist, off1, i, b)); }
    }
  }

  /** One place of the row: its quarter is counted, and the mesh it completes is merged and fitted. */
  method OnePlace(q: Sky, khist: array3<int>, off0: nat, im: nat, jm: nat, fit: Fit,
                  rmesh: array2<real>, sgmesh: array2<real>)
    requires Shaped(q) && khist.Length0 == 2 && off0 < 2 && im < khist.Length1 && Underway(q, khist, off0, im, jm)
    requires rmesh != sgmesh && rmesh.Length0 == sgmesh.Length0 >= jm && rmesh.Length1 == sgmesh.Length1 == khist.Length1 - 1
    modifies khist, rmesh, sgmesh
    ensures Underway(q, khist, off0, im + 1, jm)
    ensures im > 0 && jm > 0 ==> Fitted(q, khist.Length2, fit, rmesh, sgmesh, im - 1, jm - 1)
    ensures forall b, a | 0 <= b < rmesh.Length0 && 0 <= a < rmesh.Length1 && (b != jm - 1 || a != im - 1) ::
              rmesh[b, a] == old(rmesh[b, a]) && sgmesh[b, a] == old(sgmesh[b, a])
  {
    hide RowHolds, MeshHistogram;
    CountPlace(q, khist, off0, im, jm);
    if jm != 0 && im != 0 {
      var merged := Merge(q, khist, off0, 1 - off0, im - 1, jm - 1);
      rmesh[jm - 1, im - 1], sgmesh[jm - 1, im - 1] := fit(merged).0, fit(merged).1;
    }
  }

  /** The main loop of `skydet2b`: every mesh is fitted on its direct histogram, although the
      buffer holds two rows only, which change places. */
  method SkyDet(q: Sky, nh: nat, nmeshX: nat, nmeshY: nat, fit: Fit, rmesh: array2<real>, sgmesh: array2<real>)
    requires Shaped(q) && rmesh != sgmesh && rmesh.Length0 == sgmesh.Length0 == nmeshY && rmesh.Length1 == sgmesh.Length1 == nmeshX
    modifies rmesh, sgmesh
    ensures forall b, a | 0 <= b < nmeshY && 0 <= a < nmeshX :: Fitted(q, nh, fit, rmesh, sgmesh, a, b)
  {
    hide RowHolds, MeshHistogram;
    var khist := new int[2, nmeshX + 1, nh];
    var offset0, offset1 := 0, 1;
    for jm := 0 to nmeshY + 1
      invariant fresh(khist) && (offset0 == 0 || offset0 == 1) && offset1 == 1 - offset0
      invariant jm > 0 ==> RowHolds(q, khist, offset1, 0, khist.Length1, jm - 1)
      invariant forall b, a | 0 <= b < jm - 1 && 0 <= a < nmeshX :: Fitted(q, nh, fit, rmesh, sgmesh, a, b)
    {
      ClearRow(q, khist, offset0, offset1, if jm > 0 then jm - 1 else 0, jm > 0);
      assert RowHolds(q, khist, offset0, 0, 0, jm) by { NoPlaces(q, khist, offset0, jm); }
      for im := 0 to nmeshX + 1
        invariant Underway(q, khist, offset0, im, jm)
        invariant forall b, a | 0 <= b < jm && 0 <= a < nmeshX && (b < jm - 1 || a < im - 1) :: Fitted(q, nh, fit, rmesh, sgmesh, a, b)
      {
        label Before:
        OnePlace(q, khist, offset0, im, jm, fit, rmesh, sgmesh);
        forall b, a | 0 <= b < jm && 0 <= a < nmeshX && (b < jm - 1 || a < im)
          ensures Fitted(q, nh, fit, rmesh, sgmesh, a, b)
        {
          if b != jm - 1 || a != im - 1 { assert old@Before(Fitted(q, nh, fit, rmesh, sgmesh, a, b)); }
        }
      }
      if offset0 == 0 {
        offset0, offset1 := 1, 0;
      } else {
        offset1, offset0 := 1, 0;
      }
    }
  }

  lemma NoPlaces(q: Sky, khist: array3<int>, off: nat, jm: nat)
    requires Shaped(q) && off < khist.Length0
    ensures RowHolds(q, khist, off, 0, 0, jm)
  {}
}
