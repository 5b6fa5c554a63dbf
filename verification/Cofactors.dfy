/** The determinant by expansion along the first row. It obeys the laws that elimination uses. */
module Cofactors {
  import opened MatrixAlgebra
  import opened Determinants

  /** `m` without its first row and without column `j`. */
  function Minor(m: Matrix, j: nat): (r: Matrix)
    requires Square(m, |m|) && j < |m|
    ensures Square(r, |m| - 1)
    ensures forall i, c :: 0 <= i < |m| - 1 && 0 <= c < |m| - 1 ==> r[i][c] == m[i + 1][if c < j then c else c + 1]
  {
    seq(|m| - 1, i requires 0 <= i < |m| - 1 =>
      seq(|m| - 1, c requires 0 <= c < |m| - 1 => m[i + 1][if c < j then c else c + 1]))
  }

  /** The term of an entry `x` in column `j` whose minor has the determinant `d`. */
  function SignedProduct(j: nat, x: real, d: real): real {
    if j % 2 == 0 then x * d else -(x * d)
  }

  /** The determinant of a square matrix. */
  ghost function Det(m: Matrix): real
    decreases |m|, |m| + 1
  {
    if !Square(m, |m|) then 0.0 else if m == [] then 1.0 else Along(m, |m|)
  }

  /** The first `t` terms of the expansion. */
  ghost function Along(m: Matrix, t: nat): real
    requires Square(m, |m|) && m != [] && t <= |m|
    decreases |m|, t
  {
    if t == 0 then 0.0 else Along(m, t - 1) + SignedProduct(t - 1, m[0][t - 1], Det(Minor(m, t - 1)))
  }

  ghost function Term(m: Matrix, j: nat): real
    requires Square(m, |m|) && j < |m|
  {
    SignedProduct(j, m[0][j], Det(Minor(m, j)))
  }

  lemma AlongStep(m: Matrix, t: nat)
    requires Square(m, |m|) && t < |m|
    ensures Along(m, 0) == 0.0 && Along(m, t + 1) == Along(m, t) + Term(m, t)
    ensures Det(m) == Along(m, |m|)
  {}

  // ----- Columns

  function Blend(a: real, x: real, b: real, y: real): real {
    a * x + b * y
  }

  /** The three matrices differ in column `k` only, where `z` is `a` times `x` plus `b` times `y`. */
  ghost predicate Blends(x: Matrix, y: Matrix, z: Matrix, k: nat, a: real, b: real) {
    && Square(x, |x|) && Square(y, |x|) && Square(z, |x|) && k < |x|
    && (forall i, j | 0 <= i < |x| && 0 <= j < |x| ::
          z[i][j] == if j == k then Blend(a, x[i][j], b, y[i][j]) else x[i][j])
    && (forall i, j | 0 <= i < |x| && 0 <= j < |x| && j != k :: y[i][j] == x[i][j])
  }

  lemma BlendPlus(a: real, x: real, b: real, y: real, x': real, y': real)
    ensures Blend(a, x, b, y) + Blend(a, x', b, y') == Blend(a, x + x', b, y + y')
    ensures Blend(a, 0.0, b, 0.0) == 0.0
  {}

  /** A term whose entry, or whose minor, is blended. */
  lemma TermOfBlend(j: nat, a: real, x: real, b: real, y: real, z: real, d: real)
    requires z == Blend(a, x, b, y)
    ensures SignedProduct(j, z, d) == Blend(a, SignedProduct(j, x, d), b, SignedProduct(j, y, d))
    ensures SignedProduct(j, d, z) == Blend(a, SignedProduct(j, d, x), b, SignedProduct(j, d, y))
  {
    assert z * d == a * (x * d) + b * (y * d);
  }

  lemma MinorsBlend(x: Matrix, y: Matrix, z: Matrix, k: nat, a: real, b: real, j: nat)
    requires Blends(x, y, z, k, a, b) && j < |x|
    ensures j == k ==> Minor(x, j) == Minor(y, j) == Minor(z, j)
    ensures j != k ==> Blends(Minor(x, j), Minor(y, j), Minor(z, j), if k < j then k else k - 1, a, b)
  {
    hide Blend;
    if j == k {
      SameMatrix(Minor(x, j), Minor(y, j), |x| - 1);
      SameMatrix(Minor(x, j), Minor(z, j), |x| - 1);
    }
  }

  lemma {:induction false} TermBlends(x: Matrix, y: Matrix, z: Matrix, k: nat, a: real, b: real, j: nat)
    requires Blends(x, y, z, k, a, b) && j < |x|
    ensures Term(z, j) == Blend(a, Term(x, j), b, Term(y, j))
    decreases |x|, 0
  {
    hide Blend, Det, Minor, SignedProduct;
    MinorsBlend(x, y, z, k, a, b, j);
    if j == k {
      TermOfBlend(j, a, x[0][j], b, y[0][j], z[0][j], Det(Minor(x, j)));
    } else {
      DetBlends(Minor(x, j), Minor(y, j), Minor(z, j), if k < j then k else k - 1, a, b);
      TermOfBlend(j, a, Det(Minor(x, j)), b, Det(Minor(y, j)), Det(Minor(z, j)), x[0][j]);
    }
  }

  /** If every term is blended, so is the expansion. */
  lemma {:induction false} AlongBlends(x: Matrix, y: Matrix, z: Matrix, a: real, b: real, t: nat)
    requires Square(x, |x|) && Square(y, |x|) && Square(z, |x|) && x != [] && t <= |x|
    requires forall j | 0 <= j < t :: Term(z, j) == Blend(a, Term(x, j), b, Term(y, j))
    ensures Along(z, t) == Blend(a, Along(x, t), b, Along(y, t))
  {
    hide Blend, Term, Det;
    if t == 0 {
      BlendPlus(a, 0.0, b, 0.0, 0.0, 0.0);
      AlongStep(x, 0);
      AlongStep(y, 0);
      AlongStep(z, 0);
    } else {
      AlongBlends(x, y, z, a, b, t - 1);
      AlongStep(x, t - 1);
      AlongStep(y, t - 1);
      AlongStep(z, t - 1);
      BlendPlus(a, Along(x, t - 1), b, Along(y, t - 1), Term(x, t - 1), Term(y, t - 1));
    }
  }

  /** The determinant is linear in each column. */
  lemma {:induction false} DetBlends(x: Matrix, y: Matrix, z: Matrix, k: nat, a: real, b: real)
    requires Blends(x, y, z, k, a, b)
    ensures Det(z) == Blend(a, Det(x), b, Det(y))
    decreases |x|, 1
  {
    assert Square(x, |x|) && Square(y, |x|) && Square(z, |x|) && x != [];
    hide Blend, Blends, Term, Det;
    forall j | 0 <= j < |x|
      ensures Term(z, j) == Blend(a, Term(x, j), b, Term(y, j))
    {
      TermBlends(x, y, z, k, a, b, j);
    }
    AlongBlends(x, y, z, a, b, |x|);
    AlongStep(x, 0);
    AlongStep(y, 0);
    AlongStep(z, 0);
  }

  lemma MinorOfSwapped(m: Matrix, k: nat, j: nat)
    requires Square(m, |m|) && k + 1 < |m| && j < |m|
    ensures var m' := SwapColumns(m, k, k + 1);
      && (j < k ==> Minor(m', j) == SwapColumns(Minor(m, j), k - 1, k))
      && (j > k + 1 ==> Minor(m', j) == SwapColumns(Minor(m, j), k, k + 1))
      && Minor(m', k) == Minor(m, k + 1) && Minor(m', k + 1) == Minor(m, k)
  {
    var m' := SwapColumns(m, k, k + 1);
    if j < k { SameMatrix(Minor(m', j), SwapColumns(Minor(m, j), k - 1, k), |m| - 1); }
    if j > k + 1 { SameMatrix(Minor(m', j), SwapColumns(Minor(m, j), k, k + 1), |m| - 1); }
    SameMatrix(Minor(m', k), Minor(m, k + 1), |m| - 1);
    SameMatrix(Minor(m', k + 1), Minor(m, k), |m| - 1);
  }

  lemma {:induction false} AlongSwapped(m: Matrix, k: nat, t: nat)
    requires Square(m, |m|) && k + 1 < |m| && t <= |m| && t != k + 1
    ensures Along(SwapColumns(m, k, k + 1), t) == -Along(m, t)
    decreases |m|, t
  {
    var m' := SwapColumns(m, k, k + 1);
    if t == 0 {
      AlongStep(m, 0);
      AlongStep(m', 0);
    } else if t == k + 2 {
      AlongSwapped(m, k, k);
      AlongPair(m, k);
    } else {
      AlongSwapped(m, k, t - 1);
      TermSwapped(m, k, t - 1);
      hide Term, Det;
      AlongStep(m, t - 1);
      AlongStep(m', t - 1);
    }
  }

  /** The terms of the two columns exchanged. */
  lemma AlongPair(m: Matrix, k: nat)
    requires Square(m, |m|) && k + 1 < |m| && Along(SwapColumns(m, k, k + 1), k) == -Along(m, k)
    ensures Along(SwapColumns(m, k, k + 1), k + 2) == -Along(m, k + 2)
  {
    hide Term, Det, Along, Square;
    var m' := SwapColumns(m, k, k + 1);
    TermsExchange(m, k);
    AlongTwo(m, k);
    AlongTwo(m', k);
  }

  lemma AlongTwo(m: Matrix, k: nat)
    requires Square(m, |m|) && k + 1 < |m|
    ensures Along(m, k + 2) == Along(m, k) + Term(m, k) + Term(m, k + 1)
  {
    hide Term, Det, Square;
    AlongStep(m, k);
    AlongStep(m, k + 1);
  }

  lemma SignTurns(j: nat, x: real, d: real, e: real)
    requires e == -d
    ensures SignedProduct(j, x, e) == -SignedProduct(j, x, d) && SignedProduct(j + 1, x, d) == -SignedProduct(j, x, d)
    ensures SignedProduct(j, 0.0, d) == SignedProduct(j, x, 0.0) == 0.0
  {
    assert x * -d == -(x * d);
  }

  lemma TermsExchange(m: Matrix, k: nat)
    requires Square(m, |m|) && k + 1 < |m|
    ensures var m' := SwapColumns(m, k, k + 1); Term(m', k) == -Term(m, k + 1) && Term(m', k + 1) == -Term(m, k)
  {
    hide Det, Minor, SignedProduct;
    MinorOfSwapped(m, k, k);
    SignTurns(k, m[0][k], Det(Minor(m, k)), -Det(Minor(m, k)));
    SignTurns(k, m[0][k + 1], Det(Minor(m, k + 1)), -Det(Minor(m, k + 1)));
  }

  lemma {:induction false} TermSwapped(m: Matrix, k: nat, j: nat)
    requires Square(m, |m|) && k + 1 < |m| && j < |m| && j != k && j != k + 1
    ensures Term(SwapColumns(m, k, k + 1), j) == -Term(m, j)
    decreases |m|, 0
  {
    hide Det, SignedProduct;
    MinorOfSwapped(m, k, j);
    NextSwapped(Minor(m, j), if j < k then k - 1 else k);
    SignTurns(j, m[0][j], Det(Minor(m, j)), Det(SwapColumns(Minor(m, j), if j < k then k - 1 else k, if j < k then k else k + 1)));
  }

  lemma {:induction false} NextSwapped(m: Matrix, k: nat)
    requires Square(m, |m|) && k + 1 < |m|
    ensures Det(SwapColumns(m, k, k + 1)) == -Det(m)
    decreases |m|, |m| + 1
  {
    AlongSwapped(m, k, |m|);
  }

  /** Exchanging two columns turns the sign. */
  lemma {:induction false} DetSwapped(m: Matrix, k: nat, l: nat)
    requires Square(m, |m|) && k < l < |m|
    ensures Det(SwapColumns(m, k, l)) == -Det(m)
    decreases l - k
  {
    hide Det;
    if l == k + 1 {
      NextSwapped(m, k);
    } else {
      var once := SwapColumns(m, l - 1, l);
      var twice := SwapColumns(once, k, l - 1);
      NextSwapped(m, l - 1);
      DetSwapped(once, k, l - 1);
      NextSwapped(twice, l - 1);
      SameMatrix(SwapColumns(twice, l - 1, l), SwapColumns(m, k, l), |m|);
    }
  }

  lemma DetScaled(m: Matrix, k: nat, c: real)
    requires Square(m, |m|) && k < |m|
    ensures Det(ScaleColumn(m, k, c)) == c * Det(m)
  {
    hide Det;
    DetBlends(m, m, ScaleColumn(m, k, c), k, c, 0.0);
  }

  /** `m` with column `k` in place of column `l`. */
  function CopyColumn(m: Matrix, k: nat, l: nat): (r: Matrix)
    requires Square(m, |m|) && k < |m| && l < |m|
    ensures Square(r, |m|)
    ensures forall i, j :: 0 <= i < |m| && 0 <= j < |m| ==> r[i][j] == if j == l then m[i][k] else m[i][j]
  {
    seq(|m|, i requires 0 <= i < |m| => m[i][l := m[i][k]])
  }

  lemma EqualColumns(m: Matrix, k: nat, l: nat)
    requires Square(m, |m|) && k < |m| && l < |m| && k != l && forall i | 0 <= i < |m| :: m[i][k] == m[i][l]
    ensures Det(m) == 0.0
  {
    hide Det;
    if k < l { DetSwapped(m, k, l); } else { DetSwapped(m, l, k); }
    SameMatrix(SwapColumns(m, k, l), m, |m|);
    SameMatrix(SwapColumns(m, l, k), m, |m|);
  }

  lemma AddBlends(m: Matrix, k: nat, l: nat, c: real)
    requires Square(m, |m|) && k < |m| && l < |m|
    ensures Blends(m, CopyColumn(m, k, l), AddColumn(m, k, l, c), l, 1.0, c)
  {
    var z := AddColumn(m, k, l, c);
    forall i, j | 0 <= i < |m| && 0 <= j < |m|
      ensures z[i][j] == if j == l then Blend(1.0, m[i][l], c, m[i][k]) else m[i][j]
    {}
  }

  lemma DetColumnAdded(m: Matrix, k: nat, l: nat, c: real)
    requires Square(m, |m|) && k < |m| && l < |m| && k != l
    ensures Det(AddColumn(m, k, l, c)) == Det(m)
  {
    AddBlends(m, k, l, c);
    hide Det, Blends, CopyColumn, AddColumn;
    EqualColumns(CopyColumn(m, k, l), k, l);
    DetBlends(m, CopyColumn(m, k, l), AddColumn(m, k, l, c), l, 1.0, c);
  }

  // ----- Rows

  lemma {:induction false} AlongZero(m: Matrix, t: nat)
    requires Square(m, |m|) && m != [] && t <= |m| && forall j | 0 <= j < t :: Term(m, j) == 0.0
    ensures Along(m, t) == 0.0
  {
    hide Term, Det;
    AlongStep(m, 0);
    if t > 0 {
      AlongZero(m, t - 1);
      AlongStep(m, t - 1);
    }
  }

  lemma {:induction false} ZeroRow(m: Matrix, r: nat)
    requires Square(m, |m|) && r < |m| && forall j | 0 <= j < |m| :: m[r][j] == 0.0
    ensures Det(m) == 0.0
    decreases |m|
  {
    hide Det;
    forall j | 0 <= j < |m|
      ensures Term(m, j) == 0.0
    {
      if r > 0 { ZeroRow(Minor(m, j), r - 1); }
    }
    AlongZero(m, |m|);
    AlongStep(m, 0);
  }

  lemma StillEqual(m: Matrix, r: nat, p: nat, t: nat, c: real)
    requires Square(m, |m|) && 0 < r < |m| && m[0] == m[r] && p < |m| && t < |m| && t != p
    requires m[0][p] != 0.0 && c == -m[0][t] / m[0][p]
    ensures var m' := AddColumn(m, p, t, c);
      m'[0] == m'[r] && m'[0][t] == 0.0 && forall j | 0 <= j < |m| && j != t :: m'[0][j] == m[0][j]
  {
    var m' := AddColumn(m, p, t, c);
    forall j | 0 <= j < |m|
      ensures m'[0][j] == m'[r][j]
    {}
  }

  /** The first row and row `r` are equal; column `p` clears them from column `t` on, which leaves
      a minor with a zero row. */
  lemma {:induction false} EqualToFirst(m: Matrix, r: nat, p: nat, t: nat)
    requires Square(m, |m|) && 0 < r < |m| && m[0] == m[r] && p < |m| && m[0][p] != 0.0 && t <= |m|
    requires forall j | 0 <= j < t && j != p :: m[0][j] == 0.0
    ensures Det(m) == 0.0
    decreases |m| - t
  {
    hide Det;
    if t == |m| {
      forall j | 0 <= j < |m|
        ensures Term(m, j) == 0.0
      {
        if j == p { ZeroRow(Minor(m, j), r - 1); }
      }
      AlongZero(m, |m|);
      AlongStep(m, 0);
    } else if t == p || m[0][t] == 0.0 {
      EqualToFirst(m, r, p, t + 1);
    } else {
      var c := -m[0][t] / m[0][p];
      StillEqual(m, r, p, t, c);
      DetColumnAdded(m, p, t, c);
      EqualToFirst(AddColumn(m, p, t, c), r, p, t + 1);
    }
  }

  lemma {:induction false} EqualRows(m: Matrix, k: nat, l: nat)
    requires Square(m, |m|) && k < l < |m| && m[k] == m[l]
    ensures Det(m) == 0.0
    decreases |m|
  {
    hide Det;
    if k == 0 {
      if forall j | 0 <= j < |m| :: m[0][j] == 0.0 {
        ZeroRow(m, 0);
      } else {
        var p :| 0 <= p < |m| && m[0][p] != 0.0;
        EqualToFirst(m, l, p, 0);
      }
    } else {
      forall j | 0 <= j < |m|
        ensures Term(m, j) == 0.0
      {
        var minor := Minor(m, j);
        assert minor[k - 1] == minor[l - 1];
        EqualRows(minor, k - 1, l - 1);
      }
      AlongZero(m, |m|);
      AlongStep(m, 0);
    }
  }

  /** The three matrices differ in row `r` only, where `z` is `x` plus `c` times `y`. */
  ghost predicate RowBlends(x: Matrix, y: Matrix, z: Matrix, r: nat, c: real) {
    && Square(x, |x|) && Square(y, |x|) && Square(z, |x|) && r < |x|
    && (forall i, j | 0 <= i < |x| && 0 <= j < |x| ::
          z[i][j] == if i == r then Blend(1.0, x[i][j], c, y[i][j]) else x[i][j])
    && (forall i, j | 0 <= i < |x| && 0 <= j < |x| && i != r :: y[i][j] == x[i][j])
  }

  lemma MinorsRowBlend(x: Matrix, y: Matrix, z: Matrix, r: nat, c: real, j: nat)
    requires RowBlends(x, y, z, r, c) && j < |x|
    ensures r == 0 ==> Minor(x, j) == Minor(y, j) == Minor(z, j)
    ensures r > 0 ==> RowBlends(Minor(x, j), Minor(y, j), Minor(z, j), r - 1, c)
  {
    hide Blend;
    if r == 0 {
      SameMatrix(Minor(x, j), Minor(y, j), |x| - 1);
      SameMatrix(Minor(x, j), Minor(z, j), |x| - 1);
    }
  }

  lemma {:induction false} TermRowBlends(x: Matrix, y: Matrix, z: Matrix, r: nat, c: real, j: nat)
    requires RowBlends(x, y, z, r, c) && j < |x|
    ensures Term(z, j) == Blend(1.0, Term(x, j), c, Term(y, j))
    decreases |x|, 0
  {
    hide Blend, Det, Minor, SignedProduct;
    MinorsRowBlend(x, y, z, r, c, j);
    if r == 0 {
      TermOfBlend(j, 1.0, x[0][j], c, y[0][j], z[0][j], Det(Minor(x, j)));
    } else {
      DetRowBlends(Minor(x, j), Minor(y, j), Minor(z, j), r - 1, c);
      TermOfBlend(j, 1.0, Det(Minor(x, j)), c, Det(Minor(y, j)), Det(Minor(z, j)), x[0][j]);
    }
  }

  /** The determinant is linear in each row. */
  lemma {:induction false} DetRowBlends(x: Matrix, y: Matrix, z: Matrix, r: nat, c: real)
    requires RowBlends(x, y, z, r, c)
    ensures Det(z) == Blend(1.0, Det(x), c, Det(y))
    decreases |x|, 1
  {
    assert Square(x, |x|) && Square(y, |x|) && Square(z, |x|) && x != [];
    hide Blend, RowBlends, Term, Det;
    forall j | 0 <= j < |x|
      ensures Term(z, j) == Blend(1.0, Term(x, j), c, Term(y, j))
    {
      TermRowBlends(x, y, z, r, c, j);
    }
    AlongBlends(x, y, z, 1.0, c, |x|);
    AlongStep(x, 0);
    AlongStep(y, 0);
    AlongStep(z, 0);
  }

  lemma AddRowBlends(m: Matrix, k: nat, l: nat, c: real)
    requires Square(m, |m|) && k < |m| && l < |m|
    ensures RowBlends(m, m[l := m[k]], AddRow(m, k, l, c), l, c)
  {
    var z := AddRow(m, k, l, c);
    forall i, j | 0 <= i < |m| && 0 <= j < |m|
      ensures z[i][j] == if i == l then Blend(1.0, m[l][j], c, m[k][j]) else m[i][j]
    {}
  }

  lemma DetRowAdded(m: Matrix, k: nat, l: nat, c: real)
    requires Square(m, |m|) && k < |m| && l < |m| && k != l
    ensures Det(AddRow(m, k, l, c)) == Det(m)
  {
    AddRowBlends(m, k, l, c);
    hide Det, RowBlends, AddRow;
    var twin := m[l := m[k]];
    if k < l { EqualRows(twin, k, l); } else { EqualRows(twin, l, k); }
    DetRowBlends(m, twin, AddRow(m, k, l, c), l, c);
  }

  // ----- The laws

  lemma {:induction false} DetIdentity(n: nat)
    ensures Det(IdentityMatrix(n)) == 1.0
  {
    var m := IdentityMatrix(n);
    if n > 0 {
      SameMatrix(Minor(m, 0), IdentityMatrix(n - 1), n - 1);
      DetIdentity(n - 1);
      AlongIdentity(n, n);
    }
  }

  lemma {:induction false} AlongIdentity(n: nat, t: nat)
    requires 0 < t <= n && Det(Minor(IdentityMatrix(n), 0)) == 1.0
    ensures Along(IdentityMatrix(n), t) == 1.0
  {
    hide Det;
    var m := IdentityMatrix(n);
    AlongStep(m, t - 1);
    if t > 1 {
      AlongIdentity(n, t - 1);
      assert m[0][t - 1] == 0.0;
    }
  }

  /** There is a determinant. */
  lemma DetIsDeterminant(n: nat)
    ensures IsDeterminant(m => Det(m), n)
  {
    hide Det;
    DetIdentity(n);
    forall m: Matrix, k: nat, l: nat | Square(m, n) && k < n && l < n && k != l
      ensures Det(SwapColumns(m, k, l)) == -Det(m)
    {
      if k < l {
        DetSwapped(m, k, l);
      } else {
        DetSwapped(m, l, k);
        SameMatrix(SwapColumns(m, k, l), SwapColumns(m, l, k), n);
      }
    }
    forall m: Matrix, k: nat, c: real | Square(m, n) && k < n
      ensures Det(ScaleColumn(m, k, c)) == c * Det(m)
    {
      DetScaled(m, k, c);
    }
    forall m: Matrix, k: nat, l: nat, c: real | Square(m, n) && k < n && l < n && k != l
      ensures Det(AddColumn(m, k, l, c)) == Det(m) && Det(AddRow(m, k, l, c)) == Det(m)
    {
      DetColumnAdded(m, k, l, c);
      DetRowAdded(m, k, l, c);
    }
  }
}
