/** `mativ2`: in-place inversion of a square matrix by Gauss-Jordan exchange
    steps with pivoting along a row. Reals stand for doubles, and
    `alpha[i + npar * j]` is written `alpha[i, j]`. */
module MatrixInverse {
  import opened Sequences
  import opened Sums
  import opened MatrixAlgebra
  import opened Determinants
  import opened Cofactors

  ghost function Rows(alpha: array2<real>): (m: Matrix)
    reads alpha
    ensures |m| == alpha.Length0 && forall i :: 0 <= i < |m| ==> |m[i]| == alpha.Length1
    ensures forall i, j :: 0 <= i < alpha.Length0 && 0 <= j < alpha.Length1 ==> m[i][j] == alpha[i, j]
  {
    seq(alpha.Length0, i requires 0 <= i < alpha.Length0 reads alpha =>
      seq(alpha.Length1, j requires 0 <= j < alpha.Length1 reads alpha => alpha[i, j]))
  }

  // ----- What the elimination does, on values

  /** The first column of largest size in `row`, among the columns from `k` up to `t`. */
  function Best(row: Vector, k: nat, t: nat): (l: nat)
    requires k < t <= |row|
    ensures k <= l < t && (forall j | k <= j < t :: Abs(row[j]) <= Abs(row[l]))
    ensures forall j | k <= j < l :: Abs(row[j]) < Abs(row[l])
  {
    if t == k + 1 then k
    else
      var b := Best(row, k, t - 1);
      if Abs(row[t - 1]) > Abs(row[b]) then t - 1 else b
  }

  function Largest(ps: seq<real>): (r: real)
    ensures r >= 0.0 && forall p | p in ps :: Abs(p) <= r
    ensures r == 0.0 || exists p :: p in ps && Abs(p) == r
  {
    if ps == [] then 0.0
    else
      var r, p := Largest(ps[..|ps| - 1]), ps[|ps| - 1];
      assert ps == ps[..|ps| - 1] + [p] && p in ps;
      if Abs(p) > r then Abs(p) else r
  }

  /** The matrix after some steps, and the pivots they took. */
  datatype Stage = Stage(m: Matrix, pivots: seq<real>)

  /** `m` with column `l` in place `k`. */
  function Brought(m: Matrix, k: nat, l: nat): (r: Matrix)
    requires Square(m, |m|) && k < |m| && l < |m|
    ensures Square(r, |m|) && r[k][k] == m[k][l]
  {
    if l == k then m else SwapColumns(m, k, l)
  }

  /** Step `k` on column `l`: the columns are exchanged and the matrix is swept. */
  ghost function Reduced(m: Matrix, k: nat, l: nat): (r: Matrix)
    requires Square(m, |m|) && k < |m| && l < |m| && m[k][l] != 0.0
    ensures Square(r, |m|)
  {
    var m' := Brought(m, k, l);
    var q := 1.0 / m'[k][k];
    Sweep(m', k, q, Scaled(q, m'[k]))
  }

  /** The first `k` steps on `a`; a step without any pivot changes nothing. */
  ghost function Eliminating(a: Matrix, k: nat): (s: Stage)
    requires Square(a, |a|) && k <= |a|
    ensures Square(s.m, |a|)
  {
    if k == 0 then Stage(a, [])
    else
      var s := Eliminating(a, k - 1);
      var l := Best(s.m[k - 1], k - 1, |a|);
      if s.m[k - 1][l] == 0.0 then s else Stage(Reduced(s.m, k - 1, l), s.pivots + [s.m[k - 1][l]])
  }

  /** Step `k` finds no usable pivot: the largest entry left of row `k` is at most a hundred
      millionth of the largest pivot taken before. */
  ghost predicate Unusable(a: Matrix, k: nat)
    requires Square(a, |a|) && k < |a|
  {
    var s := Eliminating(a, k);
    Abs(s.m[k][Best(s.m[k], k, |a|)]) <= Largest(s.pivots) * 0.000001 * 0.01
  }

  // ----- The loops

  /** The entry of largest size in row `k`, from column `k` on, the first of several; `l` is left
      as it was if they are all zero. */
  method FindPivot(alpha: array2<real>, k: nat, l0: nat) returns (max: real, l: nat)
    requires alpha.Length0 == alpha.Length1 && k < alpha.Length0
    ensures max == Abs(alpha[k, Best(Rows(alpha)[k], k, alpha.Length1)])
    ensures l == if max == 0.0 then l0 else Best(Rows(alpha)[k], k, alpha.Length1)
  {
    max, l := 0.0, l0;
    ghost var row := Rows(alpha)[k];
    for j := k to alpha.Length1
      invariant j == k ==> max == 0.0 && l == l0
      invariant j > k ==> max == Abs(row[Best(row, k, j)]) && l == if max == 0.0 then l0 else Best(row, k, j)
    {
      var w := Abs(alpha[k, j]);
      if w > max {
        max, l := w, j;
      }
    }
  }

  method ExchangeColumns(alpha: array2<real>, n: nat, k: nat, l: nat)
    requires alpha.Length0 == alpha.Length1 == n && k < n && l < n
    modifies alpha
    ensures Rows(alpha) == SwapColumns(old(Rows(alpha)), k, l)
  {
    for i := 0 to n
      invariant forall r, j :: i <= r < n && 0 <= j < n ==> alpha[r, j] == old(alpha[r, j])
      invariant forall r, j :: 0 <= r < i && 0 <= j < n ==>
        alpha[r, j] == old(alpha[r, if j == k then l else if j == l then k else j])
    {
      var w := alpha[i, k];
      alpha[i, k] := alpha[i, l];
      alpha[i, l] := w;
    }
    ghost var m, m' := old(Rows(alpha)), Rows(alpha);
    forall r | 0 <= r < n
      ensures m'[r] == Swapped(m[r], k, l)
    {}
  }

  method ExchangeRows(alpha: array2<real>, n: nat, i: nat, k: nat)
    requires alpha.Length0 == alpha.Length1 == n && i < n && k < n
    modifies alpha
    ensures Rows(alpha) == Swapped(old(Rows(alpha)), i, k)
  {
    for j := 0 to n
      invariant forall r, c :: 0 <= r < n && j <= c < n ==> alpha[r, c] == old(alpha[r, c])
      invariant forall r, c :: 0 <= r < n && 0 <= c < j ==>
        alpha[r, c] == old(alpha[if r == i then k else if r == k then i else r, c])
    {
      var w := alpha[i, j];
      alpha[i, j] := alpha[k, j];
      alpha[k, j] := w;
    }
    SameMatrix(Rows(alpha), Swapped(old(Rows(alpha)), i, k), n);
  }

  /** Divides row `k` by the pivot, keeping the quotients in `x`. */
  method ScaleRow(alpha: array2<real>, x: array<real>, n: nat, k: nat, pivi: real)
    requires alpha.Length0 == alpha.Length1 == x.Length == n && k < n
    modifies alpha, x
    ensures forall j :: 0 <= j < n ==> x[j] == old(alpha[k, j]) * pivi && alpha[k, j] == x[j]
    ensures forall i, j :: 0 <= i < n && 0 <= j < n && i != k ==> alpha[i, j] == old(alpha[i, j])
  {
    for j := 0 to n
      invariant forall c :: j <= c < n ==> alpha[k, c] == old(alpha[k, c])
      invariant forall c :: 0 <= c < j ==> x[c] == old(alpha[k, c]) * pivi && alpha[k, c] == x[c]
      invariant forall r, c :: 0 <= r < n && 0 <= c < n && r != k ==> alpha[r, c] == old(alpha[r, c])
    {
      x[j] := alpha[k, j] * pivi;
      alpha[k, j] := x[j];
    }
  }

  /** Subtracts its multiple of row `k` from row `i`. */
  method EliminateRow(alpha: array2<real>, x: array<real>, n: nat, k: nat, i: nat, pivi: real, ghost m: Matrix)
    requires alpha.Length0 == alpha.Length1 == x.Length == n && k < n && i < n && i != k && Square(m, n)
    requires forall j :: 0 <= j < n ==> alpha[i, j] == m[i][j]
    modifies alpha
    ensures forall j :: 0 <= j < n ==> alpha[i, j] == SweptEntry(m, k, pivi, x[..], i, j)
    ensures forall r, j :: 0 <= r < n && 0 <= j < n && r != i ==> alpha[r, j] == old(alpha[r, j])
  {
    var w := alpha[i, k];
    if w != 0.0 {
      for j := 0 to n
        invariant alpha[i, k] == w && forall c :: j <= c < n ==> alpha[i, c] == m[i][c]
        invariant forall c :: 0 <= c < j && c != k ==> alpha[i, c] == SweptEntry(m, k, pivi, x[..], i, c)
        invariant forall r, c :: 0 <= r < n && 0 <= c < n && r != i ==> alpha[r, c] == old(alpha[r, c])
      {
        if j != k { alpha[i, j] := alpha[i, j] - w * x[j]; }
      }
      alpha[i, k] := -w * pivi;
    }
  }

  /** One elimination step on pivot (k, k). */
  method Eliminate(alpha: array2<real>, x: array<real>, n: nat, k: nat, pivi: real)
    requires alpha.Length0 == alpha.Length1 == x.Length == n && k < n
    modifies alpha, x
    ensures x[..] == Scaled(pivi, old(Rows(alpha))[k])
    ensures Rows(alpha) == Sweep(old(Rows(alpha)), k, pivi, x[..])
  {
    ScaleRow(alpha, x, n, k, pivi);
    ghost var m, row := old(Rows(alpha)), x[..];
    IsScaled(row, pivi, m[k]);
    for i := 0 to n
      invariant x[..] == row && forall j :: 0 <= j < n ==> alpha[k, j] == row[j]
      invariant forall r, j :: i <= r < n && 0 <= j < n && r != k ==> alpha[r, j] == m[r][j]
      invariant forall r, j :: 0 <= r < i && 0 <= j < n && r != k ==>
        alpha[r, j] == SweptEntry(m, k, pivi, row, r, j)
    {
      if i != k { EliminateRow(alpha, x, n, k, i, pivi, m); }
    }
    alpha[k, k] := pivi;
    SameMatrix(Rows(alpha), Sweep(m, k, pivi, row), n);
  }

  function Product(ps: seq<real>): real {
    if ps == [] then 1.0 else Product(ps[..|ps| - 1]) * ps[|ps| - 1]
  }

  /** What the elimination keeps of the determinant: the pivots taken out of it,
      times the sign of the exchanges, times that of the rest. */
  ghost predicate Tracks(D: Matrix -> real, a: Matrix, m: Matrix, perm: seq<nat>, k: nat, pivots: seq<real>) {
    && Square(m, |m|) && Product(pivots) != 0.0
    && (IsDeterminant(D, |perm|) ==>
          D(a) == Product(pivots) * (D(PermutationMatrix(perm)) * D(Trailing(m, k))))
  }

  lemma TracksInitially(D: Matrix -> real, a: Matrix, n: nat)
    requires Square(a, n)
    ensures Tracks(D, a, a, Identity(n), 0, [])
  {
    PermutationIdentity(Identity(n));
    TrailingEnds(a, n);
  }

  lemma TracksColumns(D: Matrix -> real, a: Matrix, m: Matrix, perm: seq<nat>, k: nat, l: nat, pivots: seq<real>)
    requires Tracks(D, a, m, perm, k, pivots) && |m| == |perm| && k < l < |perm|
    ensures Tracks(D, a, SwapColumns(m, k, l), Swapped(perm, k, l), k, pivots)
  {
    TrailingSwap(m, k, l);
    PermutationSwap(perm, k, l);
    if IsDeterminant(D, |perm|) {
      assert D(SwapColumns(Trailing(m, k), k, l)) == -D(Trailing(m, k));
      assert D(SwapColumns(PermutationMatrix(perm), k, l)) == -D(PermutationMatrix(perm));
    }
  }

  lemma TracksSweep(D: Matrix -> real, a: Matrix, m: Matrix, perm: seq<nat>, k: nat,
                    p: real, q: real, row: Vector, pivots: seq<real>)
    requires Tracks(D, a, m, perm, k, pivots) && |m| == |perm| && Pivots(m, k, p, q, row)
    ensures Tracks(D, a, Sweep(m, k, q, row), perm, k + 1, pivots + [p])
  {
    ProductSnoc(pivots, p, Product(pivots), Product(pivots) * p);
    NonZeroProduct(Product(pivots), p, q, Product(pivots + [p]));
    if IsDeterminant(D, |perm|) {
      SweepDivides(D, m, k, p, q, row);
      Reassociate(Product(pivots), D(PermutationMatrix(perm)), p, D(Trailing(Sweep(m, k, q, row), k + 1)),
                  D(Trailing(m, k)), Product(pivots + [p]));
    }
  }

  lemma ProductSnoc(ps: seq<real>, p: real, d: real, dp: real)
    requires d == Product(ps) && dp == d * p
    ensures Product(ps + [p]) == dp
  {
    assert (ps + [p])[..|ps|] == ps;
  }

  lemma NonZeroProduct(d: real, p: real, q: real, dp: real)
    requires d != 0.0 && p * q == 1.0 && dp == d * p
    ensures dp != 0.0
  {
    assert d == d * (p * q) == (d * p) * q;
  }

  lemma Reassociate(d: real, s: real, p: real, e: real, pe: real, dp: real)
    requires pe == p * e && dp == d * p
    ensures d * (s * pe) == dp * (s * e)
  {}

  /** In the final loop rows are exchanged, and the sign changes with them. */
  ghost predicate Signed(D: Matrix -> real, a: Matrix, perm: seq<nat>, det: real) {
    det != 0.0 && (IsDeterminant(D, |perm|) ==> D(a) == det * D(PermutationMatrix(perm)))
  }

  lemma Eliminated(D: Matrix -> real, a: Matrix, m: Matrix, perm: seq<nat>, pivots: seq<real>)
    requires Tracks(D, a, m, perm, |perm|, pivots) && |m| == |perm|
    ensures Signed(D, a, perm, Product(pivots))
  {
    TrailingEnds(m, |perm|);
    assert IsDeterminant(D, |perm|) ==> D(Trailing(m, |perm|)) == 1.0;
  }

  lemma SignedStep(D: Matrix -> real, a: Matrix, perm: seq<nat>, i: nat, k: nat, det: real)
    requires Signed(D, a, perm, det) && i < |perm| && k < |perm| && i != k
    ensures Signed(D, a, Swapped(perm, i, k), -det)
  {
    PermutationSwap(perm, i, k);
    assert IsDeterminant(D, |perm|) ==>
      D(SwapColumns(PermutationMatrix(perm), i, k)) == -D(PermutationMatrix(perm));
  }

  lemma Unscrambled(D: Matrix -> real, a: Matrix, perm: seq<nat>, det: real)
    requires Signed(D, a, perm, det) && forall i :: 0 <= i < |perm| ==> perm[i] == i
    ensures IsDeterminant(D, |perm|) ==> D(a) == det
  {
    PermutationIdentity(perm);
    assert IsDeterminant(D, |perm|) ==> D(PermutationMatrix(perm)) == 1.0;
  }

  /** The relation that holds after `k` steps of eliminating `a`. */
  datatype Mix = Mix(a: Matrix, m: Matrix, perm: seq<nat>, k: nat)

  type Mixture = x: Mix | Mixed(x.a, x.m, x.perm, x.k)
    ghost witness Mix([], [], [], 0)

  /** The determinant function `D`, followed through the same steps. */
  datatype Track = Track(D: Matrix -> real, a: Matrix, m: Matrix, perm: seq<nat>, k: nat, pivots: seq<real>)

  type Tracking = t: Track | |t.m| == |t.perm| && Tracks(t.D, t.a, t.m, t.perm, t.k, t.pivots)
    ghost witness Track(_ => 1.0, [], [], [], 0, [])

  ghost function MixBegun(a: Matrix, n: nat): Mixture
    requires Square(a, n)
  {
    MixedInitially(a, n);
    Mix(a, a, Identity(n), 0)
  }

  ghost function TrackBegun(D: Matrix -> real, a: Matrix, n: nat): Tracking
    requires Square(a, n)
  {
    TracksInitially(D, a, n);
    Track(D, a, a, Identity(n), 0, [])
  }

  ghost function MixExchanged(x: Mixture, l: nat): Mixture
    requires x.k < l < |x.perm|
  {
    MixedColumns(x.a, x.m, x.perm, x.k, l);
    x.(m := SwapColumns(x.m, x.k, l), perm := Swapped(x.perm, x.k, l))
  }

  ghost function TrackExchanged(t: Tracking, l: nat): Tracking
    requires t.k < l < |t.perm|
  {
    TracksColumns(t.D, t.a, t.m, t.perm, t.k, l, t.pivots);
    t.(m := SwapColumns(t.m, t.k, l), perm := Swapped(t.perm, t.k, l))
  }

  ghost function MixSwept(x: Mixture, p: real, q: real, row: Vector): Mixture
    requires x.k < |x.perm| && Pivots(x.m, x.k, p, q, row)
  {
    MixedSweep(x.a, x.m, x.perm, x.k, p, q, row);
    x.(m := Sweep(x.m, x.k, q, row), k := x.k + 1)
  }

  ghost function TrackSwept(t: Tracking, p: real, q: real, row: Vector): Tracking
    requires t.k < |t.perm| && Pivots(t.m, t.k, p, q, row)
  {
    TracksSweep(t.D, t.a, t.m, t.perm, t.k, p, q, row, t.pivots);
    t.(m := Sweep(t.m, t.k, q, row), k := t.k + 1, pivots := t.pivots + [p])
  }

  /** In the final loop only rows are exchanged, and the sign with them. */
  ghost function MixRowsExchanged(x: Mixture, i: nat, k: nat): Mixture
    requires i < |x.perm| && k < |x.perm| && x.k == |x.perm|
  {
    MixedRows(x.a, x.m, x.perm, i, k);
    x.(m := Swapped(x.m, i, k), perm := Swapped(x.perm, i, k))
  }

  /** Puts every row in its place. */
  method Unscramble(alpha: array2<real>, perm: array<nat>, n: nat, det0: real,
                    ghost mix0: Mixture, ghost D: Matrix -> real) returns (det: real)
    requires alpha.Length0 == alpha.Length1 == perm.Length == n
    requires mix0.m == Rows(alpha) && mix0.perm == perm[..] && mix0.k == n
    requires Signed(D, mix0.a, perm[..], det0)
    modifies alpha, perm
    ensures IsInverse(mix0.a, Rows(alpha), n) && det != 0.0
    ensures IsDeterminant(D, n) ==> D(mix0.a) == det
  {
    ghost var mix := mix0;
    det := det0;
    for i := 0 to n
      invariant mix == Mix(mix0.a, Rows(alpha), perm[..], n) && Signed(D, mix0.a, perm[..], det)
      invariant forall j :: 0 <= j < i ==> perm[j] == j
    {
      while true
        invariant mix == Mix(mix0.a, Rows(alpha), perm[..], n) && Signed(D, mix0.a, perm[..], det)
        invariant forall j :: 0 <= j < i ==> perm[j] == j
        decreases Misplaced(perm[..])
      {
        var k := perm[i];
        if k == i { break; }
        MisplacedShrinks(perm[..], i);
        SignedStep(D, mix0.a, perm[..], i, k, det);
        mix := MixRowsExchanged(mix, i, k);
        var iw := perm[k];
        perm[k] := perm[i];
        perm[i] := iw;
        assert perm[..] == mix.perm;
        ExchangeRows(alpha, n, i, k);
        det := -det;
      }
    }
    MixedFinally(mix.a, mix.m, mix.perm);
    Unscrambled(D, mix0.a, perm[..], det);
  }

  ghost function Misplaced(perm: seq<nat>): set<nat> {
    set i: nat | i < |perm| && perm[i] != i
  }

  /** Each exchange puts one more row in its place. */
  lemma MisplacedShrinks(perm: seq<nat>, i: nat)
    requires IsPermutation(perm) && i < |perm| && perm[i] != i
    ensures perm[i] > i || perm[perm[i]] != perm[i]
    ensures Misplaced(Swapped(perm, i, perm[i])) < Misplaced(perm)
  {
    var k := perm[i];
    assert perm[k] != k;
    assert k in Misplaced(perm) && k !in Misplaced(Swapped(perm, i, k));
  }

  /** The solving stopped before step `k`: the relation solved so far holds. */
  ghost predicate GaveUp(a: Matrix, m: Matrix, perm: seq<nat>, k: nat) {
    && Square(a, |perm|) && k < |perm| && Mixed(a, m, perm, k)
    && m == Eliminating(a, k).m && Unusable(a, k)
  }

  /** The result is zero exactly when some step finds no usable pivot, and the matrix is then left
      half solved. Otherwise `alpha` holds the inverse of the matrix it held before, and the
      result is the determinant of that matrix. */
  method Mativ2(npar: nat, alpha: array2<real>) returns (det: real)
    requires alpha.Length0 == alpha.Length1 == npar
    modifies alpha
    ensures det != 0.0 ==> IsInverse(old(Rows(alpha)), Rows(alpha), npar)
    ensures det != 0.0 ==> det == Det(old(Rows(alpha)))
    ensures det == 0.0 <==> exists k: nat :: k < npar && Unusable(old(Rows(alpha)), k)
    ensures det == 0.0 ==> exists perm, k :: |perm| == npar && GaveUp(old(Rows(alpha)), Rows(alpha), perm, k)
  {
    hide Eliminating, Best, Unusable, Largest, Mixed, Tracks, Product, IsInverse, Reduced, Det;
    var n := npar;
    ghost var D: Matrix -> real := m => Det(m);
    DetIsDeterminant(n);
    ghost var a := Rows(alpha);
    var perm := new nat[n](i requires 0 <= i < n => i);
    var x := new real[n](_ => 0.0);
    assert perm[..] == Identity(n);
    ghost var mix: Mixture := MixBegun(a, n);
    ghost var track: Tracking := TrackBegun(D, a, n);
    NoSteps(a);
    det := 1.0;
    var eps := 0.0;
    var l: nat := 0;
    for k := 0 to n
      invariant mix == Mix(a, Rows(alpha), perm[..], k)
      invariant track == Track(D, a, Rows(alpha), perm[..], k, track.pivots)
      invariant det == Product(track.pivots)
      invariant Stage(Rows(alpha), track.pivots) == Eliminating(a, k) && eps == Largest(track.pivots) * 0.000001
      invariant forall i: nat | i < k :: !Unusable(a, i)
    {
      var max;
      max, l := FindPivot(alpha, k, l);
      Verdict(a, k, max, eps);
      if eps * 0.01 >= max {
        assert GaveUp(a, Rows(alpha), perm[..], k);
        return 0.0;
      }
      OneStep(a, k, l);
      LargestSnoc(track.pivots, alpha[k, l]);
      det, mix, track := Step(alpha, perm, x, n, k, l, det, mix, track);
      if max * 0.000001 > eps { eps := max * 0.000001; }
    }
    Eliminated(D, track.a, track.m, track.perm, track.pivots);
    det := Unscramble(alpha, perm, n, det, mix, D);
  }

  lemma NoSteps(a: Matrix)
    requires Square(a, |a|)
    ensures Eliminating(a, 0) == Stage(a, []) && Largest([]) == 0.0 && Product([]) == 1.0
  {}

  lemma Verdict(a: Matrix, k: nat, max: real, eps: real)
    requires Square(a, |a|) && k < |a|
    requires max == Abs(Eliminating(a, k).m[k][Best(Eliminating(a, k).m[k], k, |a|)])
    requires eps == Largest(Eliminating(a, k).pivots) * 0.000001
    ensures Unusable(a, k) <==> eps * 0.01 >= max
    ensures 0.0 <= eps
  {}

  lemma OneStep(a: Matrix, k: nat, l: nat)
    requires Square(a, |a|) && k < |a|
    requires var m := Eliminating(a, k).m; l == Best(m[k], k, |a|) && m[k][l] != 0.0
    ensures var s := Eliminating(a, k); Eliminating(a, k + 1) == Stage(Reduced(s.m, k, l), s.pivots + [s.m[k][l]])
  {}

  lemma LargestSnoc(ps: seq<real>, p: real)
    ensures Largest(ps + [p]) == if Abs(p) > Largest(ps) then Abs(p) else Largest(ps)
  {
    assert (ps + [p])[..|ps|] == ps;
  }

  /** Exchanges columns `k` and `l`, unless they are the same. */
  method Bring(alpha: array2<real>, perm: array<nat>, n: nat, k: nat, l: nat, ghost mix0: Mixture, ghost track0: Tracking)
    returns (ghost mix: Mixture, ghost track: Tracking)
    requires alpha.Length0 == alpha.Length1 == perm.Length == n && k <= l < n
    requires mix0 == Mix(mix0.a, Rows(alpha), perm[..], k)
    requires track0 == Track(track0.D, mix0.a, Rows(alpha), perm[..], k, track0.pivots)
    modifies alpha, perm
    ensures mix == Mix(mix0.a, Rows(alpha), perm[..], k)
    ensures track == Track(track0.D, mix0.a, Rows(alpha), perm[..], k, track0.pivots)
    ensures Rows(alpha) == Brought(old(Rows(alpha)), k, l)
  {
    hide Mixed, Tracks, Product;
    mix, track := mix0, track0;
    if l != k {
      mix, track := MixExchanged(mix, l), TrackExchanged(track, l);
      var iw := perm[k];
      perm[k] := perm[l];
      perm[l] := iw;
      ExchangeColumns(alpha, n, k, l);
      assert perm[..] == mix.perm;
    }
  }

  /** Brings the pivot from column `l` to the diagonal and eliminates with it. */
  method Step(alpha: array2<real>, perm: array<nat>, x: array<real>, n: nat, k: nat, l: nat, det0: real,
              ghost mix0: Mixture, ghost track0: Tracking)
    returns (det: real, ghost mix: Mixture, ghost track: Tracking)
    requires alpha.Length0 == alpha.Length1 == perm.Length == x.Length == n && k <= l < n
    requires mix0 == Mix(mix0.a, Rows(alpha), perm[..], k)
    requires track0 == Track(track0.D, mix0.a, Rows(alpha), perm[..], k, track0.pivots)
    requires det0 == Product(track0.pivots) && alpha[k, l] != 0.0
    modifies alpha, perm, x
    ensures mix == Mix(mix0.a, Rows(alpha), perm[..], k + 1)
    ensures track == Track(track0.D, mix0.a, Rows(alpha), perm[..], k + 1, track.pivots)
    ensures det == Product(track.pivots)
    ensures Rows(alpha) == Reduced(old(Rows(alpha)), k, l) && track.pivots == track0.pivots + [old(alpha[k, l])]
  {
    hide Mixed, Tracks, Product, Brought, Sweep, Scaled;
    var pivot := alpha[k, l];
    det := det0 * pivot;
    ProductSnoc(track0.pivots, pivot, det0, det);
    var pivi := Inverse(pivot);
    mix, track := Bring(alpha, perm, n, k, l, mix0, track0);
    assert mix.m[k][k] == pivot;
    Eliminate(alpha, x, n, k, pivi);
    mix, track := MixSwept(mix, pivot, pivi, x[..]), TrackSwept(track, pivot, pivi, x[..]);
  }

  method Inverse(p: real) returns (q: real)
    requires p != 0.0
    ensures p * q == 1.0 && q == 1.0 / p
  {
    q := 1.0 / p;
  }
}
