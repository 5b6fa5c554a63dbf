/** Row vectors, square matrices, and what a Gauss-Jordan exchange step does to
    the linear relation a matrix stands for. */
module MatrixAlgebra {
  import opened Sequences
  import opened Sums

  type Vector = seq<real>
  type Matrix = seq<seq<real>>

  ghost predicate Square(m: Matrix, n: nat) {
    |m| == n && forall i :: 0 <= i < n ==> |m[i]| == n
  }

  /** The summands of entry `j` of the row vector `x` times `m`. */
  function Terms(x: Vector, m: Matrix, j: nat): (t: seq<real>)
    requires Square(m, |x|) && j < |x|
    ensures |t| == |x|
  {
    seq(|x|, i requires 0 <= i < |x| => x[i] * m[i][j])
  }

  function Entry(x: Vector, m: Matrix, j: nat): real
    requires Square(m, |x|) && j < |x|
  {
    Sum(Terms(x, m, j))
  }

  /** `x` times `m` is `y`. */
  ghost predicate Maps(x: Vector, m: Matrix, y: Vector)
    requires Square(m, |x|) && |y| == |x|
  {
    forall j :: 0 <= j < |x| ==> Entry(x, m, j) == y[j]
  }

  // ----- One exchange step

  /** Entry (i, j) after eliminating with pivot (k, k), whose inverse is `q`,
      where `row` is row `k` divided by the pivot. */
  function SweptEntry(m: Matrix, k: nat, q: real, row: Vector, i: nat, j: nat): real
    requires Square(m, |row|) && k < |row| && i < |row| && j < |row|
  {
    if i == k then (if j == k then q else row[j])
    else if j == k then -m[i][k] * q
    else m[i][j] - m[i][k] * row[j]
  }

  function Sweep(m: Matrix, k: nat, q: real, row: Vector): (r: Matrix)
    requires Square(m, |row|) && k < |row|
    ensures Square(r, |row|)
    ensures forall i, j :: 0 <= i < |row| && 0 <= j < |row| ==> r[i][j] == SweptEntry(m, k, q, row, i, j)
  {
    seq(|row|, i requires 0 <= i < |row| => seq(|row|, j requires 0 <= j < |row| => SweptEntry(m, k, q, row, i, j)))
  }

  /** The summands of entry `j` but that of row `k`. */
  function OtherTerms(x: Vector, m: Matrix, k: nat, j: nat): (t: seq<real>)
    requires Square(m, |x|) && k < |x| && j < |x|
    ensures |t| == |x|
  {
    Terms(x, m, j)[k := 0.0]
  }

  function Rest(x: Vector, m: Matrix, k: nat, j: nat): real
    requires Square(m, |x|) && k < |x| && j < |x|
  {
    Sum(OtherTerms(x, m, k, j))
  }

  lemma SplitEntry(x: Vector, m: Matrix, k: nat, j: nat, xk: real, mkj: real)
    requires Square(m, |x|) && k < |x| && j < |x| && xk == x[k] && mkj == m[k][j]
    ensures Entry(x, m, j) == Rest(x, m, k, j) + xk * mkj
  {
    SumUpdate(Terms(x, m, j), k, 0.0);
  }

  lemma SweptPivotTerm(m: Matrix, k: nat, x: Vector, x': Vector, q: real, row: Vector, i: nat)
    requires Square(m, |x|) && k < |x| == |x'| == |row| && i < |x| && (i != k ==> x'[i] == x[i])
    ensures OtherTerms(x', Sweep(m, k, q, row), k, k)[i] == Scaled(-q, OtherTerms(x, m, k, k))[i]
  {
    ScaledAt(-q, OtherTerms(x, m, k, k), i);
    if i != k {
      assert Sweep(m, k, q, row)[i][k] == -m[i][k] * q;
      PivotProduct(x[i], m[i][k], q, Sweep(m, k, q, row)[i][k], OtherTerms(x, m, k, k)[i]);
    }
  }

  lemma SweptRestPivot(m: Matrix, k: nat, x: Vector, x': Vector, q: real, row: Vector)
    requires Square(m, |x|) && k < |x| == |x'| == |row|
    requires forall i :: 0 <= i < |x| && i != k ==> x'[i] == x[i]
    ensures Rest(x', Sweep(m, k, q, row), k, k) == -q * Rest(x, m, k, k)
  {
    var a, b := OtherTerms(x', Sweep(m, k, q, row), k, k), Scaled(-q, OtherTerms(x, m, k, k));
    forall i | 0 <= i < |x|
      ensures a[i] == b[i]
    {
      SweptPivotTerm(m, k, x, x', q, row, i);
    }
    assert a == b;
    SumScaled(-q, OtherTerms(x, m, k, k));
  }

  lemma SweptTerm(m: Matrix, k: nat, x: Vector, x': Vector, j: nat, q: real, row: Vector, i: nat)
    requires Square(m, |x|) && k < |x| == |x'| == |row| && i < |x| && (i != k ==> x'[i] == x[i])
    requires j < |x| && j != k
    ensures OtherTerms(x', Sweep(m, k, q, row), k, j)[i]
         == OtherTerms(x, m, k, j)[i] + Scaled(-row[j], OtherTerms(x, m, k, k))[i]
  {
    ScaledAt(-row[j], OtherTerms(x, m, k, k), i);
    if i != k {
      assert Sweep(m, k, q, row)[i][j] == m[i][j] - m[i][k] * row[j];
      OtherProduct(x[i], m[i][j], m[i][k], row[j], Sweep(m, k, q, row)[i][j], OtherTerms(x, m, k, k)[i]);
    }
  }

  lemma SweptRest(m: Matrix, k: nat, x: Vector, x': Vector, j: nat, q: real, row: Vector)
    requires Square(m, |x|) && k < |x| == |x'| == |row| && j < |x| && j != k
    requires forall i :: 0 <= i < |x| && i != k ==> x'[i] == x[i]
    ensures Rest(x', Sweep(m, k, q, row), k, j) == Rest(x, m, k, j) + -row[j] * Rest(x, m, k, k)
  {
    forall i | 0 <= i < |x|
      ensures OtherTerms(x', Sweep(m, k, q, row), k, j)[i]
           == OtherTerms(x, m, k, j)[i] + Scaled(-row[j], OtherTerms(x, m, k, k))[i]
    {
      SweptTerm(m, k, x, x', j, q, row, i);
    }
    SumPlusScaled(OtherTerms(x', Sweep(m, k, q, row), k, j), OtherTerms(x, m, k, j),
                  -row[j], OtherTerms(x, m, k, k));
  }

  lemma PivotProduct(x: real, a: real, q: real, e: real, t: real)
    requires e == -a * q && t == x * a
    ensures x * e == -q * t
  {}

  lemma OtherProduct(x: real, a: real, b: real, c: real, e: real, t: real)
    requires e == a - b * c && t == x * b
    ensures x * e == x * a + -c * t
  {}

  /** The pivot equation, solved for the other unknown: `e` and `e'` are the
      entries before and after the step. */
  lemma Solve(p: real, q: real, x: real, y: real, rest: real, e: real, e': real)
    requires p * q == 1.0 && e == rest + x * p && e' == -q * rest + y * q
    ensures e == y <==> e' == x
  {
    if e == y {
      assert -q * rest + y * q == x * (p * q);
    }
    if e' == x {
      assert x * p == (y - rest) * (p * q);
    }
  }

  /** The other equations, once the pivot equation holds. */
  lemma Substitute(p: real, q: real, x: real, y: real, rest: real, a: real, aq: real, r: real, e: real, e': real)
    requires p * q == 1.0 && y == rest + x * p && aq == q * a
    requires e == r + x * a && e' == (r + -aq * rest) + y * aq
    ensures e == e'
  {
    assert (a * q) * (y - rest) == (a * x) * (p * q);
  }

  /** `p` is the pivot (k, k), `q` its inverse, and `row` row `k` divided by it. */
  ghost predicate Pivots(m: Matrix, k: nat, p: real, q: real, row: Vector) {
    k < |m| && Square(m, |m|) && m[k][k] == p && p * q == 1.0 && row == Scaled(q, m[k])
  }

  /** Sweeping on (k, k) exchanges the roles of entry `k` of the argument and
      entry `k` of the result. */
  lemma SweepExchanges(m: Matrix, n: nat, k: nat, x: Vector, y: Vector, p: real, q: real, row: Vector)
    requires Square(m, n) && Pivots(m, k, p, q, row) && |x| == |y| == n
    ensures Maps(x, m, y) <==> Maps(x[k := y[k]], Sweep(m, k, q, row), y[k := x[k]])
  {
    var x', m', y' := x[k := y[k]], Sweep(m, k, q, row), y[k := x[k]];
    if Maps(x, m, y) || Maps(x', m', y') {
      forall j | 0 <= j < n
        ensures Entry(x, m, j) == y[j] && Entry(x', m', j) == y'[j]
      {
        EquationsAgree(m, n, k, x, y, p, q, row, j);
      }
    }
  }

  lemma EquationsAgree(m: Matrix, n: nat, k: nat, x: Vector, y: Vector, p: real, q: real, row: Vector, j: nat)
    requires Square(m, n) && Pivots(m, k, p, q, row) && |x| == |y| == n && j < n
    requires Maps(x, m, y) || Maps(x[k := y[k]], Sweep(m, k, q, row), y[k := x[k]])
    ensures Entry(x, m, j) == y[j]
    ensures Entry(x[k := y[k]], Sweep(m, k, q, row), j) == y[k := x[k]][j]
  {
    PivotEquation(m, n, k, x, y, p, q, row);
    if j != k { OtherEquation(m, n, k, x, y, p, q, row, j); }
  }

  lemma PivotEquation(m: Matrix, n: nat, k: nat, x: Vector, y: Vector, p: real, q: real, row: Vector)
    requires Square(m, n) && Pivots(m, k, p, q, row) && |x| == |y| == n
    ensures Entry(x, m, k) == y[k] <==> Entry(x[k := y[k]], Sweep(m, k, q, row), k) == x[k]
  {
    PivotEntries(m, n, k, x, x[k], y[k], p, q, row);
    Solve(p, q, x[k], y[k], Rest(x, m, k, k), Entry(x, m, k), Entry(x[k := y[k]], Sweep(m, k, q, row), k));
  }

  lemma PivotEntries(m: Matrix, n: nat, k: nat, x: Vector, xk: real, yk: real, p: real, q: real, row: Vector)
    requires Square(m, n) && k < n && |x| == |row| == n && m[k][k] == p && xk == x[k]
    ensures Entry(x, m, k) == Rest(x, m, k, k) + xk * p
    ensures Entry(x[k := yk], Sweep(m, k, q, row), k) == -q * Rest(x, m, k, k) + yk * q
  {
    SplitEntry(x, m, k, k, xk, p);
    SplitEntry(x[k := yk], Sweep(m, k, q, row), k, k, yk, q);
    SweptRestPivot(m, k, x, x[k := yk], q, row);
  }

  lemma OtherEquation(m: Matrix, n: nat, k: nat, x: Vector, y: Vector, p: real, q: real, row: Vector, j: nat)
    requires Square(m, n) && Pivots(m, k, p, q, row) && |x| == |y| == n && j < n && j != k
    requires Entry(x, m, k) == y[k]
    ensures Entry(x, m, j) == Entry(x[k := y[k]], Sweep(m, k, q, row), j)
  {
    ScaledIs(q, m[k], j, m[k][j], row[j]);
    OtherEquationAt(m, n, k, x, x[k], y[k], p, q, row, j, m[k][j], row[j]);
  }

  lemma OtherEquationAt(m: Matrix, n: nat, k: nat, x: Vector, xk: real, yk: real, p: real, q: real, row: Vector,
                        j: nat, a: real, aq: real)
    requires Square(m, n) && k < n && |x| == |row| == n && j < n && j != k
    requires xk == x[k] && m[k][k] == p && a == m[k][j] && aq == row[j]
    requires p * q == 1.0 && aq == q * a && Entry(x, m, k) == yk
    ensures Entry(x, m, j) == Entry(x[k := yk], Sweep(m, k, q, row), j)
  {
    PivotEntries(m, n, k, x, xk, yk, p, q, row);
    OtherEntries(m, n, k, x, xk, yk, q, row, j, a, aq);
    Substitute(p, q, xk, yk, Rest(x, m, k, k), a, aq, Rest(x, m, k, j),
               Entry(x, m, j), Entry(x[k := yk], Sweep(m, k, q, row), j));
  }

  lemma OtherEntries(m: Matrix, n: nat, k: nat, x: Vector, xk: real, yk: real, q: real, row: Vector, j: nat,
                     a: real, aq: real)
    requires Square(m, n) && k < n && |x| == |row| == n && j < n && j != k
    requires xk == x[k] && a == m[k][j] && aq == row[j]
    ensures Entry(x, m, j) == Rest(x, m, k, j) + xk * a
    ensures Entry(x[k := yk], Sweep(m, k, q, row), j)
         == (Rest(x, m, k, j) + -aq * Rest(x, m, k, k)) + yk * aq
  {
    SplitEntry(x, m, k, j, xk, a);
    SplitEntry(x[k := yk], Sweep(m, k, q, row), k, j, yk, aq);
    SweptRest(m, k, x, x[k := yk], j, q, row);
  }

  // ----- Exchanging columns, rows and unit vectors

  function SwapColumns(m: Matrix, k: nat, l: nat): (r: Matrix)
    requires Square(m, |m|) && k < |m| && l < |m|
    ensures Square(r, |m|) && forall i :: 0 <= i < |m| ==> r[i] == Swapped(m[i], k, l)
  {
    seq(|m|, i requires 0 <= i < |m| => Swapped(m[i], k, l))
  }

  lemma ColumnsSwap(m: Matrix, k: nat, l: nat, x: Vector, y: Vector)
    requires Square(m, |x|) && |y| == |x| && k < |x| && l < |x|
    ensures Maps(x, m, y) <==> Maps(x, SwapColumns(m, k, l), Swapped(y, k, l))
  {
    var m', y' := SwapColumns(m, k, l), Swapped(y, k, l);
    forall j | 0 <= j < |x|
      ensures Entry(x, m', j) == Entry(x, m, if j == k then l else if j == l then k else j)
    {
      var j' := if j == k then l else if j == l then k else j;
      forall i | 0 <= i < |x|
        ensures Terms(x, m', j)[i] == Terms(x, m, j')[i]
      {
        assert m'[i] == Swapped(m[i], k, l);
      }
      assert Terms(x, m', j) == Terms(x, m, j');
    }
    assert Maps(x, m', y') ==> Entry(x, m', k) == y'[k] && Entry(x, m', l) == y'[l];
    assert Maps(x, m, y) ==> Entry(x, m, k) == y[k] && Entry(x, m, l) == y[l];
  }

  lemma RowsSwap(m: Matrix, i: nat, k: nat, x: Vector, y: Vector)
    requires Square(m, |x|) && |y| == |x| && i < |x| && k < |x|
    ensures Maps(x, m, y) <==> Maps(Swapped(x, i, k), Swapped(m, i, k), y)
  {
    forall j | 0 <= j < |x|
      ensures Entry(Swapped(x, i, k), Swapped(m, i, k), j) == Entry(x, m, j)
    {
      TermsSwap(m, i, k, x, j);
      SumSwap(Terms(x, m, j), i, k);
    }
  }

  lemma TermsSwap(m: Matrix, i: nat, k: nat, x: Vector, j: nat)
    requires Square(m, |x|) && i < |x| && k < |x| && j < |x|
    ensures Terms(Swapped(x, i, k), Swapped(m, i, k), j) == Swapped(Terms(x, m, j), i, k)
  {
    var t, t' := Terms(x, m, j), Terms(Swapped(x, i, k), Swapped(m, i, k), j);
    forall r | 0 <= r < |x|
      ensures t'[r] == Swapped(t, i, k)[r]
    {
      assert Swapped(m, i, k)[r] == m[if r == i then k else if r == k then i else r];
    }
  }

  function Unit(n: nat, r: nat): (e: Vector)
    ensures |e| == n && forall i :: 0 <= i < n ==> e[i] == if i == r then 1.0 else 0.0
  {
    seq(n, i => if i == r then 1.0 else 0.0)
  }

  lemma UnitPicksRow(m: Matrix, n: nat, r: nat)
    requires Square(m, n) && r < n
    ensures Maps(Unit(n, r), m, m[r])
  {
    forall j | 0 <= j < n
      ensures Entry(Unit(n, r), m, j) == m[r][j]
    {
      SplitEntry(Unit(n, r), m, r, j, 1.0, m[r][j]);
      SumZero(OtherTerms(Unit(n, r), m, r, j));
    }
  }

  // ----- What every elimination step keeps

  ghost predicate IsPermutation(perm: seq<nat>) {
    && (forall i :: 0 <= i < |perm| ==> perm[i] < |perm|)
    && (forall i, j :: 0 <= i < j < |perm| ==> perm[i] != perm[j])
  }

  /** The argument of the relation in which the first `k` unknowns have been
      solved for, and its value. */
  function Input(perm: seq<nat>, k: nat, u: Vector, v: Vector): (r: Vector)
    requires |perm| == |u| == |v| && forall i :: 0 <= i < |perm| ==> perm[i] < |perm|
    ensures |r| == |u|
  {
    seq(|u|, i requires 0 <= i < |u| => if i < k then v[perm[i]] else u[i])
  }

  function Output(perm: seq<nat>, k: nat, u: Vector, v: Vector): (r: Vector)
    requires |perm| == |u| == |v| && forall i :: 0 <= i < |perm| ==> perm[i] < |perm|
    ensures |r| == |u|
  {
    seq(|u|, j requires 0 <= j < |u| => if j < k then u[j] else v[perm[j]])
  }

  ghost predicate Relates(m: Matrix, perm: seq<nat>, k: nat, u: Vector, v: Vector)
    requires |u| == |v| == |perm| && IsPermutation(perm) && Square(m, |perm|)
  {
    Maps(Input(perm, k, u, v), m, Output(perm, k, u, v))
  }

  /** `m`, after `k` steps, still says exactly when `u` times `a` is `v`. */
  ghost predicate Mixed(a: Matrix, m: Matrix, perm: seq<nat>, k: nat) {
    && IsPermutation(perm) && Square(a, |perm|) && Square(m, |perm|)
    && forall u: Vector, v: Vector :: |u| == |v| == |perm| ==> (Maps(u, a, v) <==> Relates(m, perm, k, u, v))
  }

  function Identity(n: nat): (p: seq<nat>)
    ensures |p| == n && forall i :: 0 <= i < n ==> p[i] == i
  {
    seq(n, i requires 0 <= i < n => i)
  }

  lemma MixedInitially(a: Matrix, n: nat)
    requires Square(a, n)
    ensures Mixed(a, a, Identity(n), 0)
  {
    forall u: Vector, v: Vector | |u| == |v| == n
      ensures Maps(u, a, v) <==> Relates(a, Identity(n), 0, u, v)
    {
      assert Input(Identity(n), 0, u, v) == u && Output(Identity(n), 0, u, v) == v;
    }
  }

  lemma MixedColumns(a: Matrix, m: Matrix, perm: seq<nat>, k: nat, l: nat)
    requires Mixed(a, m, perm, k) && k <= l < |perm|
    ensures Mixed(a, SwapColumns(m, k, l), Swapped(perm, k, l), k)
  {
    var perm' := Swapped(perm, k, l);
    forall u: Vector, v: Vector | |u| == |v| == |perm|
      ensures Maps(u, a, v) <==> Relates(SwapColumns(m, k, l), perm', k, u, v)
    {
      ColumnsSwap(m, k, l, Input(perm, k, u, v), Output(perm, k, u, v));
      assert Input(perm', k, u, v) == Input(perm, k, u, v);
      assert Output(perm', k, u, v) == Swapped(Output(perm, k, u, v), k, l);
      assert Relates(m, perm, k, u, v) <==> Maps(u, a, v);
    }
  }

  lemma MixedSweep(a: Matrix, m: Matrix, perm: seq<nat>, k: nat, p: real, q: real, row: Vector)
    requires Mixed(a, m, perm, k) && k < |perm| && Pivots(m, k, p, q, row)
    ensures Mixed(a, Sweep(m, k, q, row), perm, k + 1)
  {
    forall u: Vector, v: Vector | |u| == |v| == |perm|
      ensures Maps(u, a, v) <==> Relates(Sweep(m, k, q, row), perm, k + 1, u, v)
    {
      var x, y := Input(perm, k, u, v), Output(perm, k, u, v);
      SweepExchanges(m, |perm|, k, x, y, p, q, row);
      assert Input(perm, k + 1, u, v) == x[k := y[k]];
      assert Output(perm, k + 1, u, v) == y[k := x[k]];
      assert Relates(m, perm, k, u, v) <==> Maps(u, a, v);
    }
  }

  lemma MixedRows(a: Matrix, m: Matrix, perm: seq<nat>, i: nat, k: nat)
    requires Mixed(a, m, perm, |perm|) && i < |perm| && k < |perm|
    ensures Mixed(a, Swapped(m, i, k), Swapped(perm, i, k), |perm|)
  {
    var perm', n := Swapped(perm, i, k), |perm|;
    forall u: Vector, v: Vector | |u| == |v| == n
      ensures Maps(u, a, v) <==> Relates(Swapped(m, i, k), perm', n, u, v)
    {
      RowsSwap(m, i, k, Input(perm, n, u, v), Output(perm, n, u, v));
      assert Input(perm', n, u, v) == Swapped(Input(perm, n, u, v), i, k);
      assert Output(perm', n, u, v) == Output(perm, n, u, v);
      assert Relates(m, perm, n, u, v) <==> Maps(u, a, v);
    }
  }

  /** `b` is the inverse of `a` from both sides. */
  ghost predicate IsInverse(a: Matrix, b: Matrix, n: nat) {
    && Square(a, n) && Square(b, n)
    && forall r :: 0 <= r < n ==> Maps(a[r], b, Unit(n, r)) && Maps(b[r], a, Unit(n, r))
  }

  lemma MixedFinally(a: Matrix, m: Matrix, perm: seq<nat>)
    requires Mixed(a, m, perm, |perm|) && forall i :: 0 <= i < |perm| ==> perm[i] == i
    ensures IsInverse(a, m, |perm|)
  {
    var n := |perm|;
    forall r | 0 <= r < n
      ensures Maps(a[r], m, Unit(n, r)) && Maps(m[r], a, Unit(n, r))
    {
      var e := Unit(n, r);
      UnitPicksRow(a, n, r);
      assert Relates(m, perm, n, e, a[r]);
      assert Input(perm, n, e, a[r]) == a[r] && Output(perm, n, e, a[r]) == e;
      UnitPicksRow(m, n, r);
      assert Input(perm, n, m[r], e) == e && Output(perm, n, m[r], e) == m[r];
      assert Relates(m, perm, n, m[r], e);
    }
  }
}
