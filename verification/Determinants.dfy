/** How elimination steps change the determinant. */
module Determinants {
  import opened Sequences
  import opened Sums
  import opened MatrixAlgebra

  function IdentityMatrix(n: nat): (m: Matrix)
    ensures Square(m, n)
  {
    seq(n, i requires 0 <= i < n => Unit(n, i))
  }

  /** `m` with `c` times column `k` added to column `l`. */
  function AddColumn(m: Matrix, k: nat, l: nat, c: real): (r: Matrix)
    requires Square(m, |m|) && k < |m| && l < |m|
    ensures Square(r, |m|)
    ensures forall i, j :: 0 <= i < |m| && 0 <= j < |m| ==>
      r[i][j] == if j == l then m[i][l] + c * m[i][k] else m[i][j]
  {
    seq(|m|, i requires 0 <= i < |m| => m[i][l := m[i][l] + c * m[i][k]])
  }

  function ScaleColumn(m: Matrix, k: nat, c: real): (r: Matrix)
    requires Square(m, |m|) && k < |m|
    ensures Square(r, |m|)
    ensures forall i, j :: 0 <= i < |m| && 0 <= j < |m| ==> r[i][j] == if j == k then m[i][k] * c else m[i][j]
  {
    seq(|m|, i requires 0 <= i < |m| => m[i][k := m[i][k] * c])
  }

  /** `m` with `c` times row `k` added to row `l`. */
  function AddRow(m: Matrix, k: nat, l: nat, c: real): (r: Matrix)
    requires Square(m, |m|) && k < |m| && l < |m|
    ensures Square(r, |m|)
  {
    m[l := seq(|m|, j requires 0 <= j < |m| => m[l][j] + c * m[k][j])]
  }

  /** The laws of determinants that elimination uses. */
  ghost predicate IsDeterminant(D: Matrix -> real, n: nat) {
    && D(IdentityMatrix(n)) == 1.0
    && (forall m: Matrix, k: nat, l: nat :: Square(m, n) && k < n && l < n && k != l ==>
          D(SwapColumns(m, k, l)) == -D(m))
    && (forall m: Matrix, k: nat, c: real :: Square(m, n) && k < n ==> D(ScaleColumn(m, k, c)) == c * D(m))
    && (forall m: Matrix, k: nat, l: nat, c: real :: Square(m, n) && k < n && l < n && k != l ==>
          D(AddColumn(m, k, l, c)) == D(m))
    && (forall m: Matrix, k: nat, l: nat, c: real :: Square(m, n) && k < n && l < n && k != l ==>
          D(AddRow(m, k, l, c)) == D(m))
  }

  function Delta(i: nat, j: nat): real {
    if i == j then 1.0 else 0.0
  }

  /** The part of `m` still to be eliminated, from (k, k) on, within the
      identity. */
  function Trailing(m: Matrix, k: nat): (r: Matrix)
    requires Square(m, |m|)
    ensures Square(r, |m|)
    ensures forall i, j :: 0 <= i < |m| && 0 <= j < |m| ==>
      r[i][j] == if i < k || j < k then Delta(i, j) else m[i][j]
  {
    seq(|m|, i requires 0 <= i < |m| =>
      seq(|m|, j requires 0 <= j < |m| => if i < k || j < k then Delta(i, j) else m[i][j]))
  }

  lemma SameMatrix(m: Matrix, m': Matrix, n: nat)
    requires Square(m, n) && Square(m', n)
    requires forall i, j :: 0 <= i < n && 0 <= j < n ==> m[i][j] == m'[i][j]
    ensures m == m'
  {
    forall i | 0 <= i < n
      ensures m[i] == m'[i]
    {}
  }

  lemma TrailingSwap(m: Matrix, k: nat, l: nat)
    requires Square(m, |m|) && k <= l < |m|
    ensures Trailing(SwapColumns(m, k, l), k) == SwapColumns(Trailing(m, k), k, l)
  {
    SameMatrix(Trailing(SwapColumns(m, k, l), k), SwapColumns(Trailing(m, k), k, l), |m|);
  }

  lemma TrailingEnds(m: Matrix, n: nat)
    requires Square(m, n)
    ensures Trailing(m, 0) == m && Trailing(m, n) == IdentityMatrix(n)
  {
    SameMatrix(Trailing(m, 0), m, n);
    SameMatrix(Trailing(m, n), IdentityMatrix(n), n);
  }

  /** Row `k` cleared in the columns between `k` and `t`. */
  function ColumnsCleared(m: Matrix, k: nat, row: Vector, t: nat): (r: Matrix)
    requires Square(m, |m|) && |row| == |m| && k < |m|
    ensures Square(r, |m|)
    ensures forall i, j :: 0 <= i < |m| && 0 <= j < |m| ==>
      r[i][j] == if k < j < t && k <= i then m[i][j] - m[i][k] * row[j] else Trailing(m, k)[i][j]
  {
    seq(|m|, i requires 0 <= i < |m| =>
      seq(|m|, j requires 0 <= j < |m| =>
        if k < j < t && k <= i then m[i][j] - m[i][k] * row[j] else Trailing(m, k)[i][j]))
  }

  lemma {:induction false} ClearColumns(D: Matrix -> real, m: Matrix, k: nat, row: Vector, t: nat)
    requires Square(m, |m|) && |row| == |m| && k < t <= |m| && IsDeterminant(D, |m|)
    ensures D(ColumnsCleared(m, k, row, t)) == D(Trailing(m, k))
  {
    if t == k + 1 {
      SameMatrix(ColumnsCleared(m, k, row, t), Trailing(m, k), |m|);
    } else {
      ClearColumns(D, m, k, row, t - 1);
      var before := ColumnsCleared(m, k, row, t - 1);
      SameMatrix(ColumnsCleared(m, k, row, t), AddColumn(before, k, t - 1, -row[t - 1]), |m|);
    }
  }

  /** Row `k` cleared but for the pivot, column `k` divided by it, and column
      `k` cleared in the rows between `k` and `t`. */
  function RowsCleared(m: Matrix, k: nat, q: real, row: Vector, t: nat): (r: Matrix)
    requires Square(m, |m|) && |row| == |m| && k < |m|
    ensures Square(r, |m|)
    ensures forall i, j :: 0 <= i < |m| && 0 <= j < |m| ==>
      r[i][j] == if j == k && k <= i then (if k < i < t then 0.0 else m[i][k] * q)
                 else ColumnsCleared(m, k, row, |m|)[i][j]
  {
    seq(|m|, i requires 0 <= i < |m| =>
      seq(|m|, j requires 0 <= j < |m| =>
        if j == k && k <= i then (if k < i < t then 0.0 else m[i][k] * q)
        else ColumnsCleared(m, k, row, |m|)[i][j]))
  }

  lemma {:induction false} ClearRows(D: Matrix -> real, m: Matrix, k: nat, p: real, q: real, row: Vector, t: nat)
    requires Pivots(m, k, p, q, row) && k < t <= |m| && IsDeterminant(D, |m|)
    ensures D(RowsCleared(m, k, q, row, t)) == q * D(Trailing(m, k))
  {
    if t == k + 1 {
      ClearColumns(D, m, k, row, |m|);
      var cleared := ColumnsCleared(m, k, row, |m|);
      SameMatrix(RowsCleared(m, k, q, row, t), ScaleColumn(cleared, k, q), |m|);
    } else {
      ClearRows(D, m, k, p, q, row, t - 1);
      ClearRow(m, k, p, q, row, t - 1);
    }
  }

  lemma ClearRow(m: Matrix, k: nat, p: real, q: real, row: Vector, t: nat)
    requires Pivots(m, k, p, q, row) && k < t < |m|
    ensures RowsCleared(m, k, q, row, t + 1) == AddRow(RowsCleared(m, k, q, row, t), k, t, -(m[t][k] * q))
  {
    var before, after := RowsCleared(m, k, q, row, t), RowsCleared(m, k, q, row, t + 1);
    var c := -(m[t][k] * q);
    forall j | 0 <= j < |m|
      ensures before[k][j] == Delta(k, j)
    {
      PivotRow(m, k, p, q, row, t, j);
    }
    SameMatrix(after, AddRow(before, k, t, c), |m|);
  }

  lemma PivotRow(m: Matrix, k: nat, p: real, q: real, row: Vector, t: nat, j: nat)
    requires Pivots(m, k, p, q, row) && k < t <= |m| && j < |m|
    ensures RowsCleared(m, k, q, row, t)[k][j] == Delta(k, j)
  {
    if k < j {
      assert ColumnsCleared(m, k, row, |m|)[k][j] == m[k][j] - p * row[j];
      ScaledAt(q, m[k], j);
      Restore(p, q, m[k][j], row[j]);
    } else if k == j {
      assert RowsCleared(m, k, q, row, t)[k][k] == m[k][k] * q;
    }
  }

  lemma Restore(p: real, q: real, x: real, qx: real)
    requires p * q == 1.0 && qx == q * x
    ensures p * qx == x
  {
    assert p * (q * x) == (p * q) * x;
  }

  /** A sweep takes the pivot out of the determinant of the part still to be
      eliminated. */
  lemma SweepDivides(D: Matrix -> real, m: Matrix, k: nat, p: real, q: real, row: Vector)
    requires Pivots(m, k, p, q, row) && IsDeterminant(D, |m|)
    ensures D(Trailing(m, k)) == p * D(Trailing(Sweep(m, k, q, row), k + 1))
  {
    ClearRows(D, m, k, p, q, row, |m|);
    forall j | 0 <= j < |m|
      ensures RowsCleared(m, k, q, row, |m|)[k][j] == Delta(k, j)
    {
      PivotRow(m, k, p, q, row, |m|, j);
    }
    SameMatrix(RowsCleared(m, k, q, row, |m|), Trailing(Sweep(m, k, q, row), k + 1), |m|);
    Undo(p, q, D(Trailing(m, k)), D(Trailing(Sweep(m, k, q, row), k + 1)));
  }

  lemma Undo(p: real, q: real, d: real, e: real)
    requires p * q == 1.0 && e == q * d
    ensures d == p * e
  {
    assert p * (q * d) == (p * q) * d;
  }

  function PermutationMatrix(perm: seq<nat>): (r: Matrix)
    ensures Square(r, |perm|)
    ensures forall i, j :: 0 <= i < |perm| && 0 <= j < |perm| ==> r[i][j] == Delta(i, perm[j])
  {
    seq(|perm|, i requires 0 <= i < |perm| =>
      seq(|perm|, j requires 0 <= j < |perm| => Delta(i, perm[j])))
  }

  lemma PermutationSwap(perm: seq<nat>, k: nat, l: nat)
    requires k < |perm| && l < |perm|
    ensures PermutationMatrix(Swapped(perm, k, l)) == SwapColumns(PermutationMatrix(perm), k, l)
  {
    SameMatrix(PermutationMatrix(Swapped(perm, k, l)), SwapColumns(PermutationMatrix(perm), k, l), |perm|);
  }

  lemma PermutationIdentity(perm: seq<nat>)
    requires forall i :: 0 <= i < |perm| ==> perm[i] == i
    ensures PermutationMatrix(perm) == IdentityMatrix(|perm|)
  {
    SameMatrix(PermutationMatrix(perm), IdentityMatrix(|perm|), |perm|);
  }
}
