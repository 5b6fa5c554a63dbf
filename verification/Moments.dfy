/** `moment2d.c`: weighted central moments in two dimensions, kept up to date one
    point at a time by re-centring the table in place. Reals stand for doubles. */
module Moments {
  import Sums

  /** `pow(x, (double)n)`. */
  function Pow(x: real, n: nat): real {
    if n == 0 then 1.0 else Pow(x, n - 1) * x
  }

  /** This is the power: one factor for each unit of the exponent. */
  lemma {:induction false} PowAdds(x: real, m: nat, n: nat)
    ensures Pow(x, 0) == 1.0 && Pow(x, 1) == x && Pow(x, m + n) == Pow(x, m) * Pow(x, n)
  {
    if n > 0 {
      PowAdds(x, m, n - 1);
      assert Pow(x, m) * Pow(x, n - 1) * x == Pow(x, m) * (Pow(x, n - 1) * x);
    }
  }

  function Factorial(n: nat): (f: nat)
    ensures f >= 1
  {
    if n == 0 then 1 else n * Factorial(n - 1)
  }

  /** Binomial coefficients, by Pascal's rule. */
  function Choose(n: nat, k: nat): nat
    requires k <= n
  {
    if k == 0 || k == n then 1 else Choose(n - 1, k - 1) + Choose(n - 1, k)
  }

  /** The factorials the code tabulates. */
  const GAMMA: seq<nat> := [1, 1, 2, 6, 24, 120, 720, 5040, 40320, 362880, 3628800]

  lemma {:induction false} GammaIsFactorial(i: nat)
    requires i <= 10
    ensures GAMMA[i] == Factorial(i)
  {
    if i > 0 { GammaIsFactorial(i - 1); }
  }

  lemma {:induction false} ChooseFactorial(n: nat, k: nat)
    requires k <= n
    ensures Choose(n, k) * (Factorial(k) * Factorial(n - k)) == Factorial(n)
  {
    if k == 0 || k == n {
    } else {
      ChooseFactorial(n - 1, k - 1);
      ChooseFactorial(n - 1, k);
      var a, b := Factorial(k - 1), Factorial(n - k - 1);
      Pascal(Choose(n - 1, k - 1), Choose(n - 1, k), k, n - k, a, b, Factorial(n - 1));
    }
  }

  lemma Pascal(c: nat, d: nat, k: nat, l: nat, a: nat, b: nat, f: nat)
    requires c * (a * (l * b)) == f && d * ((k * a) * b) == f
    ensures (c + d) * ((k * a) * (l * b)) == (k + l) * f
  {
    assert (c + d) * ((k * a) * (l * b)) == k * (c * (a * (l * b))) + l * (d * ((k * a) * b));
  }

  function Gamma(i: nat): (g: nat)
    requires i <= 10
    ensures g == Factorial(i)
  {
    GammaIsFactorial(i);
    GAMMA[i]
  }

  /** Two integer divisions in a row. */
  function Over(n: nat, a: nat, b: nat): nat
    requires a >= 1 && b >= 1
  {
    n / a / b
  }

  /** The integer coefficient as the code computes it, from the left. */
  function Coefficient(i: nat, s: nat, j: nat, t: nat): nat
    requires s <= i <= 10 && t <= j <= 10
  {
    Over(Over(Gamma(i), Gamma(s), Gamma(i - s)) * Gamma(j), Gamma(t), Gamma(j - t))
  }

  /** The integer coefficient as the code computes it, division by division from
      the left, is the product of the two binomial coefficients; no division
      leaves a remainder, and every intermediate value fits in 32 bits. */
  lemma CoefficientIsExact(i: nat, s: nat, j: nat, t: nat)
    requires s <= i <= 10 && t <= j <= 10
    ensures Coefficient(i, s, j, t) == Choose(i, s) * Choose(j, t)
    ensures Over(Gamma(i), Gamma(s), Gamma(i - s)) * Gamma(j) < 0x8000_0000
  {
    ChooseFactorial(i, s);
    OverIs(Choose(i, s), Factorial(s), Factorial(i - s), Factorial(i));
    ChooseFactorial(j, t);
    CoefficientParts(Choose(i, s), Choose(j, t), Factorial(t), Factorial(j - t), Factorial(j));
    ChooseAtMost(i, s);
    FactorialAtMost(j);
    Bounded(Choose(i, s), Factorial(j));
  }

  lemma CoefficientParts(c: nat, d: nat, a: nat, b: nat, f: nat)
    requires a >= 1 && b >= 1 && d * (a * b) == f
    ensures Over(c * f, a, b) == c * d
  {
    Regroup(c, d, a, b, f);
    OverIs(c * d, a, b, c * f);
  }

  lemma FactorialAtMost(j: nat)
    requires j <= 10
    ensures Factorial(j) <= 3628800
  {
    FactorialMonotone(j, 10);
    GammaIsFactorial(10);
  }

  lemma OverIs(c: nat, a: nat, b: nat, f: nat)
    requires a >= 1 && b >= 1 && c * (a * b) == f
    ensures Over(f, a, b) == c
  {
    assert (c * b) * a == c * (a * b);
    ExactDivision(f, a, c * b);
    ExactDivision(c * b, b, c);
  }

  lemma ExactDivision(x: nat, a: nat, q: nat)
    requires a >= 1 && x == q * a
    ensures x / a == q
  {
    var d, r := q - x / a, x % a;
    assert x == a * (x / a) + r;
    assert a * d == a * q - a * (x / a);
    AtLeast(a, d);
    AtLeast(a, -d);
  }

  lemma AtLeast(a: nat, d: int)
    ensures d >= 1 ==> a * d >= a
    ensures a * -d == -(a * d)
  {}

  lemma ChooseAtMost(i: nat, s: nat)
    requires s <= i <= 10
    ensures Choose(i, s) <= 512
  {
    ChooseBounded(i, s);
    if i > 0 { TwoMonotone(i - 1, 9); }
    assert Two(9) == 512 by { assert Two(5) == 32; }
  }

  lemma Regroup(c: nat, d: nat, a: nat, b: nat, f: nat)
    requires d * (a * b) == f
    ensures (c * d) * (a * b) == c * f
  {}

  lemma Bounded(c: nat, f: nat)
    requires c <= 512 && f <= 3628800
    ensures c * f < 0x8000_0000
  {
    assert c * f <= 512 * f;
  }

  function Two(n: nat): nat {
    if n == 0 then 1 else 2 * Two(n - 1)
  }

  lemma {:induction false} ChooseBounded(n: nat, k: nat)
    requires k <= n
    ensures n == 0 ==> Choose(n, k) == 1
    ensures n > 0 ==> Choose(n, k) <= Two(n - 1)
  {
    if 0 < k < n {
      ChooseBounded(n - 1, k - 1);
      ChooseBounded(n - 1, k);
    } else if n > 1 {
      ChooseBounded(n - 1, 0);
    }
  }

  lemma {:induction false} TwoMonotone(m: nat, n: nat)
    requires m <= n
    ensures Two(m) <= Two(n)
  {
    if m < n { TwoMonotone(m, n - 1); }
  }

  lemma {:induction false} FactorialMonotone(m: nat, n: nat)
    requires m <= n
    ensures Factorial(m) <= Factorial(n)
  {
    if m < n {
      FactorialMonotone(m, n - 1);
      assert n * Factorial(n - 1) >= Factorial(n - 1);
    }
  }

  // ----- The binomial theorem

  /** One summand of the expansion of (x + d)^i; zero outside it. */
  function NewtonTerm(x: real, d: real, i: nat, s: int): real {
    if 0 <= s <= i then Choose(i, s) as real * (Pow(d, s) * Pow(x, i - s)) else 0.0
  }

  /** The first `n` summands. */
  function Newton(x: real, d: real, i: nat, n: int): real {
    if n <= 0 then 0.0 else Newton(x, d, i, n - 1) + NewtonTerm(x, d, i, n - 1)
  }

  lemma PascalTerm(c: nat, c1: nat, pd: real, pd': real, px: real, px': real, x: real, d: real)
    requires pd' == pd * d && px' == px * x
    ensures (c1 + c) as real * (pd' * px') == x * (c as real * (pd' * px)) + d * (c1 as real * (pd * px'))
  {
    var k, k1 := c as real, c1 as real;
    assert (c1 + c) as real == k1 + k;
    PascalReal(k, k1, pd, pd', px, px', x, d);
  }

  lemma PascalReal(k: real, k1: real, pd: real, pd': real, px: real, px': real, x: real, d: real)
    requires pd' == pd * d && px' == px * x
    ensures (k1 + k) * (pd' * px') == x * (k * (pd' * px)) + d * (k1 * (pd * px'))
  {}

  lemma PowStep(x: real, n: nat)
    requires n >= 1
    ensures Pow(x, n) == Pow(x, n - 1) * x
  {}

  /** Each summand comes from two of the expansion one degree below. */
  lemma TermStep(x: real, d: real, i: nat, s: nat)
    ensures NewtonTerm(x, d, i + 1, s)
         == x * NewtonTerm(x, d, i, s) + d * NewtonTerm(x, d, i, s - 1)
  {
    if s > i + 1 {
    } else if s == 0 {
      PowStep(x, i + 1);
      FirstTerm(Pow(x, i), x, Pow(x, i + 1), NewtonTerm(x, d, i, 0), NewtonTerm(x, d, i + 1, 0));
    } else if s == i + 1 {
      PowStep(d, i + 1);
      FirstTerm(Pow(d, i), d, Pow(d, i + 1), NewtonTerm(x, d, i, i), NewtonTerm(x, d, i + 1, i + 1));
    } else {
      PowStep(d, s);
      PowStep(x, i + 1 - s);
      PascalTerm(Choose(i, s), Choose(i, s - 1), Pow(d, s - 1), Pow(d, s), Pow(x, i - s), Pow(x, i + 1 - s), x, d);
    }
  }

  lemma FirstTerm(p: real, x: real, p': real, t: real, t': real)
    requires p' == p * x && t == p && t' == p'
    ensures t' == x * t
  {}

  lemma {:induction false} NewtonStep(x: real, d: real, i: nat, n: nat)
    ensures Newton(x, d, i + 1, n) == x * Newton(x, d, i, n) + d * Newton(x, d, i, n - 1)
  {
    hide NewtonTerm, Choose, Pow;
    if n > 0 {
      NewtonStep(x, d, i, n - 1);
      TermStep(x, d, i, n - 1);
      assert n == 1 ==> NewtonTerm(x, d, i, n - 2) == 0.0 by { OutsideIsZero(x, d, i, n - 2); }
      Collect(x, d, Newton(x, d, i, n - 1), Newton(x, d, i, n - 2), NewtonTerm(x, d, i, n - 1),
              NewtonTerm(x, d, i, n - 2), Newton(x, d, i, n), Newton(x, d, i, n - 1));
    }
  }

  lemma OutsideIsZero(x: real, d: real, i: nat, s: int)
    ensures s < 0 ==> NewtonTerm(x, d, i, s) == 0.0
  {}

  lemma Collect(x: real, d: real, a: real, b: real, ta: real, tb: real, a': real, b': real)
    requires a' == a + ta && b' == b + tb
    ensures (x * a + d * b) + (x * ta + d * tb) == x * a' + d * b'
  {}

  lemma {:induction false} BinomialTheorem(x: real, d: real, e: real, i: nat)
    requires e == x + d
    ensures Newton(x, d, i, i + 1) == Pow(e, i)
  {
    if i == 0 {
      assert Newton(x, d, 0, 1) == Newton(x, d, 0, 0) + NewtonTerm(x, d, 0, 0);
    } else {
      BinomialTheorem(x, d, e, i - 1);
      assert Newton(x, d, i - 1, i + 1) == Newton(x, d, i - 1, i) by { OutsideIsZero(x, d, i - 1, i); }
      NewtonStep(x, d, i - 1, i + 1);
      PowStep(e, i);
      hide Newton, Pow;
      TwoParts(x, d, e, Pow(e, i - 1));
    }
  }

  lemma TwoParts(x: real, d: real, e: real, v: real)
    requires e == x + d
    ensures x * v + d * v == v * e
  {}

  // ----- Moments and their re-centring

  datatype Mass = Mass(x: real, y: real, m: real)

  /** What one mass adds to the moment of order (i, j) about (cx, cy). */
  function Term(p: Mass, cx: real, cy: real, i: nat, j: nat): real {
    p.m * Pow(p.x - cx, i) * Pow(p.y - cy, j)
  }

  /** The moment of order (i, j) about (cx, cy), straight from the definition. */
  function Moment(ps: seq<Mass>, cx: real, cy: real, i: nat, j: nat): real {
    if ps == [] then 0.0 else Moment(ps[..|ps| - 1], cx, cy, i, j) + Term(ps[|ps| - 1], cx, cy, i, j)
  }

  /** How far the centre moves, and where it is now. */
  datatype Shift = Shift(cx: real, cy: real, ddx: real, ddy: real)

  /** The factor of one old table entry in the inner loop. */
  function Factor(h: Shift, i: nat, j: nat, s: nat, t: nat): real
    requires s <= i <= 10 && t <= j <= 10
  {
    Coefficient(i, s, j, t) as real * Pow(-h.ddx, s) * Pow(-h.ddy, t)
  }

  /** The inner loop after `n` rounds, reading the moments about the old centre. */
  function Inner(ps: seq<Mass>, h: Shift, i: nat, j: nat, t: nat, n: nat): real
    requires n <= i + 1 && i <= 10 && t <= j <= 10
  {
    if n == 0 then 0.0
    else Inner(ps, h, i, j, t, n - 1) + Factor(h, i, j, n - 1, t) * Moment(ps, h.cx, h.cy, i - (n - 1), j - t)
  }

  lemma InnerStarts(ps: seq<Mass>, h: Shift, i: nat, j: nat, t: nat)
    requires i <= 10 && t <= j <= 10
    ensures Inner(ps, h, i, j, t, 0) == 0.0
  {}

  lemma InnerNext(ps: seq<Mass>, h: Shift, i: nat, j: nat, t: nat, s: nat, v: real, m: real)
    requires s <= i <= 10 && t <= j <= 10
    requires v == Factor(h, i, j, s, t) && m == Moment(ps, h.cx, h.cy, i - s, j - t)
    ensures Inner(ps, h, i, j, t, s + 1) == Inner(ps, h, i, j, t, s) + v * m
  {
    hide Factor, Moment;
  }

  /** The outer loop after `n` rounds. */
  function Outer(ps: seq<Mass>, h: Shift, i: nat, j: nat, n: nat): real
    requires n <= j + 1 && i <= 10 && j <= 10
  {
    if n == 0 then 0.0 else Outer(ps, h, i, j, n - 1) + Inner(ps, h, i, j, n - 1, i + 1)
  }

  lemma {:induction false} InnerSplits(ps: seq<Mass>, p: Mass, h: Shift, i: nat, j: nat, t: nat, n: nat)
    requires n <= i + 1 && i <= 10 && t <= j <= 10
    ensures Inner(ps + [p], h, i, j, t, n) == Inner(ps, h, i, j, t, n) + Inner([p], h, i, j, t, n)
  {
    hide Moment, Term, Factor, Coefficient, Pow;
    if n > 0 {
      InnerSplits(ps, p, h, i, j, t, n - 1);
      MomentSnoc(ps, p, h.cx, h.cy, i - (n - 1), j - t);
      MomentOfOne(p, h.cx, h.cy, i - (n - 1), j - t);
      Sums.Distribute(Factor(h, i, j, n - 1, t), Moment(ps, h.cx, h.cy, i - (n - 1), j - t),
                 Moment([p], h.cx, h.cy, i - (n - 1), j - t), Moment(ps + [p], h.cx, h.cy, i - (n - 1), j - t));
    }
  }

  lemma MomentSnoc(ps: seq<Mass>, p: Mass, cx: real, cy: real, i: nat, j: nat)
    ensures Moment(ps + [p], cx, cy, i, j) == Moment(ps, cx, cy, i, j) + Term(p, cx, cy, i, j)
  {
    assert (ps + [p])[..|ps|] == ps;
  }

  lemma MomentOfOne(p: Mass, cx: real, cy: real, i: nat, j: nat)
    ensures Moment([p], cx, cy, i, j) == Term(p, cx, cy, i, j)
  {
    MomentSnoc([], p, cx, cy, i, j);
    assert [] + [p] == [p];
  }

  lemma {:induction false} OuterSplits(ps: seq<Mass>, p: Mass, h: Shift, i: nat, j: nat, n: nat)
    requires n <= j + 1 && i <= 10 && j <= 10
    ensures Outer(ps + [p], h, i, j, n) == Outer(ps, h, i, j, n) + Outer([p], h, i, j, n)
  {
    if n > 0 {
      OuterSplits(ps, p, h, i, j, n - 1);
      InnerSplits(ps, p, h, i, j, n - 1, i + 1);
    }
  }

  lemma {:induction false} InnerOfNone(h: Shift, i: nat, j: nat, t: nat, n: nat)
    requires n <= i + 1 && i <= 10 && t <= j <= 10
    ensures Inner([], h, i, j, t, n) == 0.0
  {
    if n > 0 {
      InnerOfNone(h, i, j, t, n - 1);
      TimesZero(Factor(h, i, j, n - 1, t), Moment([], h.cx, h.cy, i - (n - 1), j - t));
    }
  }

  lemma TimesZero(a: real, z: real)
    requires z == 0.0
    ensures a * z == 0.0
  {}

  lemma {:induction false} OuterOfNone(h: Shift, i: nat, j: nat, n: nat)
    requires n <= j + 1 && i <= 10 && j <= 10
    ensures Outer([], h, i, j, n) == 0.0
  {
    if n > 0 {
      OuterOfNone(h, i, j, n - 1);
      InnerOfNone(h, i, j, n - 1, i + 1);
    }
  }

  /** For a single mass, the inner loop collects the expansion in x. */
  lemma {:induction false} InnerOfOne(p: Mass, h: Shift, i: nat, j: nat, t: nat, n: nat)
    requires n <= i + 1 && i <= 10 && t <= j <= 10
    ensures Inner([p], h, i, j, t, n)
         == p.m * NewtonTerm(p.y - h.cy, -h.ddy, j, t) * Newton(p.x - h.cx, -h.ddx, i, n)
  {
    hide Moment, Term, Factor, Coefficient, Pow, Choose, NewtonTerm;
    var ky := NewtonTerm(p.y - h.cy, -h.ddy, j, t);
    if n == 0 {
      TimesZero(p.m * ky, Newton(p.x - h.cx, -h.ddx, i, 0));
    } else {
      var s := n - 1;
      InnerOfOne(p, h, i, j, t, s);
      MomentOfOne(p, h.cx, h.cy, i - s, j - t);
      OneRound(p, h, i, j, s, t);
      Sums.Distribute(p.m * ky, Newton(p.x - h.cx, -h.ddx, i, s), NewtonTerm(p.x - h.cx, -h.ddx, i, s),
                 Newton(p.x - h.cx, -h.ddx, i, n));
    }
  }

  /** One round of the inner loop, for a single mass. */
  lemma OneRound(p: Mass, h: Shift, i: nat, j: nat, s: nat, t: nat)
    requires s <= i <= 10 && t <= j <= 10
    ensures Factor(h, i, j, s, t) * Term(p, h.cx, h.cy, i - s, j - t)
         == p.m * NewtonTerm(p.y - h.cy, -h.ddy, j, t) * NewtonTerm(p.x - h.cx, -h.ddx, i, s)
  {
    hide Coefficient, Choose, Pow;
    CoefficientIsExact(i, s, j, t);
    AsReals(Choose(i, s), Choose(j, t), Coefficient(i, s, j, t));
    OneProduct(p.m, Choose(i, s) as real, Choose(j, t) as real, Coefficient(i, s, j, t) as real, Pow(-h.ddx, s),
               Pow(p.x - h.cx, i - s), Pow(-h.ddy, t), Pow(p.y - h.cy, j - t),
               NewtonTerm(p.x - h.cx, -h.ddx, i, s), NewtonTerm(p.y - h.cy, -h.ddy, j, t),
               Factor(h, i, j, s, t), Term(p, h.cx, h.cy, i - s, j - t));
  }

  lemma AsReals(a: nat, b: nat, c: nat)
    requires c == a * b
    ensures c as real == a as real * b as real
  {}

  lemma OneProduct(m: real, ci: real, cj: real, c: real, px: real, qx: real, py: real, qy: real,
                   kx: real, ky: real, f: real, term: real)
    requires c == ci * cj && kx == ci * (px * qx) && ky == cj * (py * qy)
    requires f == c * px * py && term == m * qx * qy
    ensures f * term == m * ky * kx
  {
    calc {
      f * term;
      (ci * cj * px * py) * (m * qx * qy);
      m * (cj * (py * qy)) * (ci * (px * qx));
    }
  }

  /** For a single mass, the outer loop collects the expansion in y. */
  lemma {:induction false} OuterOfOne(p: Mass, h: Shift, i: nat, j: nat, n: nat)
    requires n <= j + 1 && i <= 10 && j <= 10
    ensures Outer([p], h, i, j, n)
         == p.m * Pow(p.x - h.cx - h.ddx, i) * Newton(p.y - h.cy, -h.ddy, j, n)
  {
    hide Inner, Pow, NewtonTerm;
    var kx := Pow(p.x - h.cx - h.ddx, i);
    if n == 0 {
      TimesZero(p.m * kx, Newton(p.y - h.cy, -h.ddy, j, 0));
    } else {
      OuterOfOne(p, h, i, j, n - 1);
      InnerOfOne(p, h, i, j, n - 1, i + 1);
      BinomialTheorem(p.x - h.cx, -h.ddx, p.x - h.cx - h.ddx, i);
      OtherOrder(p.m, kx, NewtonTerm(p.y - h.cy, -h.ddy, j, n - 1), Newton(p.x - h.cx, -h.ddx, i, i + 1));
      Sums.Distribute(p.m * kx, Newton(p.y - h.cy, -h.ddy, j, n - 1), NewtonTerm(p.y - h.cy, -h.ddy, j, n - 1),
                 Newton(p.y - h.cy, -h.ddy, j, n));
    }
  }

  lemma OtherOrder(m: real, a: real, b: real, a': real)
    requires a == a'
    ensures m * b * a' == m * a * b
  {}

  /** The double loop turns the moments about the old centre into the moment about the new one. */
  lemma {:induction false} Recentred(ps: seq<Mass>, h: Shift, i: nat, j: nat)
    requires i <= 10 && j <= 10
    ensures Outer(ps, h, i, j, j + 1) == Moment(ps, h.cx + h.ddx, h.cy + h.ddy, i, j)
  {
    hide Outer, Newton, Pow, Term;
    if ps == [] {
      OuterOfNone(h, i, j, j + 1);
    } else {
      var init, p := ps[..|ps| - 1], ps[|ps| - 1];
      assert ps == init + [p];
      Recentred(init, h, i, j);
      OuterSplits(init, p, h, i, j, j + 1);
      OuterOfOne(p, h, i, j, j + 1);
      MomentSnoc(init, p, h.cx + h.ddx, h.cy + h.ddy, i, j);
      BinomialTheorem(p.y - h.cy, -h.ddy, p.y - h.cy - h.ddy, j);
      SameTerm(p, h, i, j, Newton(p.y - h.cy, -h.ddy, j, j + 1));
    }
  }

  lemma SameTerm(p: Mass, h: Shift, i: nat, j: nat, v: real)
    requires v == Pow(p.y - h.cy - h.ddy, j)
    ensures p.m * Pow(p.x - h.cx - h.ddx, i) * v == Term(p, h.cx + h.ddx, h.cy + h.ddy, i, j)
  {
    assert p.x - h.cx - h.ddx == p.x - (h.cx + h.ddx);
    assert p.y - h.cy - h.ddy == p.y - (h.cy + h.ddy);
  }

  // ----- The table kept by the program

  /** A point added: position, weight, and the value `f` that multiplies it in the second table. */
  datatype Point = Point(x: real, y: real, w: real, f: real)

  /** What a point weighs in the first table. */
  function Bare(p: Point): Mass {
    Mass(p.x, p.y, p.w)
  }

  /** What a point weighs in the second table. */
  function Lit(p: Point): Mass {
    Mass(p.x, p.y, p.f * p.w)
  }

  function Plain(ps: seq<Point>): seq<Mass> {
    if ps == [] then [] else Plain(ps[..|ps| - 1]) + [Bare(ps[|ps| - 1])]
  }

  function Fluxed(ps: seq<Point>): seq<Mass> {
    if ps == [] then [] else Fluxed(ps[..|ps| - 1]) + [Lit(ps[|ps| - 1])]
  }

  function TotalWeight(ps: seq<Point>): real {
    if ps == [] then 0.0 else TotalWeight(ps[..|ps| - 1]) + ps[|ps| - 1].w
  }

  function WeightedX(ps: seq<Point>): real {
    if ps == [] then 0.0 else WeightedX(ps[..|ps| - 1]) + ps[|ps| - 1].w * ps[|ps| - 1].x
  }

  function WeightedY(ps: seq<Point>): real {
    if ps == [] then 0.0 else WeightedY(ps[..|ps| - 1]) + ps[|ps| - 1].w * ps[|ps| - 1].y
  }

  /** What the first table should hold at order (i, j): the weighted sum of
      (x - mean)^i (y - mean)^j, the means being the weighted means. */
  function CentralMoment(ps: seq<Point>, i: nat, j: nat): real {
    Moment(Plain(ps), MeanX(ps), MeanY(ps), i, j)
  }

  /** What the second table should hold. */
  function CentralFlux(ps: seq<Point>, i: nat, j: nat): real {
    Moment(Fluxed(ps), MeanX(ps), MeanY(ps), i, j)
  }

  /** The weighted mean; the program starts it at zero. */
  function MeanX(ps: seq<Point>): real {
    if TotalWeight(ps) == 0.0 then 0.0 else WeightedX(ps) / TotalWeight(ps)
  }

  function MeanY(ps: seq<Point>): real {
    if TotalWeight(ps) == 0.0 then 0.0 else WeightedY(ps) / TotalWeight(ps)
  }

  /** The weight so far is not zero after any of the additions. */
  predicate Weighable(ps: seq<Point>) {
    ps != [] ==> Weighable(ps[..|ps| - 1]) && TotalWeight(ps) != 0.0
  }

  /** The running update of a mean. */
  lemma MeanMoves(s0: real, w: real, s1: real, wx: real, x: real, mean: real, ddx: real)
    requires s1 == s0 + w && s1 != 0.0
    requires s0 * mean == wx
    requires ddx == w / s1 * (x - mean)
    ensures mean + ddx == (wx + w * x) / s1
  {
    var d1 := w / s1;
    assert d1 * s1 == w;
    assert s1 * ddx == w * (x - mean) by { assert s1 * (d1 * (x - mean)) == (s1 * d1) * (x - mean); }
    assert s1 * (mean + ddx) == s1 * mean + s1 * ddx;
    assert s1 * mean == s0 * mean + w * mean;
    assert s1 * (mean + ddx) == wx + w * x;
    Quotient(s1, mean + ddx, wx + w * x);
  }

  lemma Quotient(s: real, q: real, v: real)
    requires s != 0.0 && s * q == v
    ensures q == v / s
  {}

  lemma Extends(ps: seq<Point>, p: Point)
    requires Weighable(ps) && TotalWeight(ps) + p.w != 0.0
    ensures Weighable(ps + [p])
  {
    assert (ps + [p])[..|ps|] == ps;
  }

  lemma MeansAdvance(ps: seq<Point>, p: Point, ddx: real, ddy: real)
    requires Weighable(ps + [p])
    requires ddx == p.w / (TotalWeight(ps) + p.w) * (p.x - MeanX(ps))
    requires ddy == p.w / (TotalWeight(ps) + p.w) * (p.y - MeanY(ps))
    ensures Weighable(ps) && TotalWeight(ps + [p]) == TotalWeight(ps) + p.w != 0.0
    ensures MeanX(ps + [p]) == MeanX(ps) + ddx
    ensures MeanY(ps + [p]) == MeanY(ps) + ddy
  {
    assert (ps + [p])[..|ps|] == ps;
    var s0 := TotalWeight(ps);
    WeightTimesMean(ps);
    MeanMoves(s0, p.w, s0 + p.w, WeightedX(ps), p.x, MeanX(ps), ddx);
    MeanMoves(s0, p.w, s0 + p.w, WeightedY(ps), p.y, MeanY(ps), ddy);
  }

  lemma WeightTimesMean(ps: seq<Point>)
    requires Weighable(ps)
    ensures TotalWeight(ps) * MeanX(ps) == WeightedX(ps)
    ensures TotalWeight(ps) * MeanY(ps) == WeightedY(ps)
  {}

  // ----- What the first orders are

  /** Flux, and the weighted squares and products of the distances from a centre. */
  datatype Spread = Spread(flux: real, xx: real, xy: real, yy: real)

  ghost function Product(w: real, u: real, v: real): real { w * (u * v) }

  ghost function SpreadOf(ps: seq<Point>, cx: real, cy: real): Spread {
    if ps == [] then Spread(0.0, 0.0, 0.0, 0.0)
    else
      var r, p := SpreadOf(ps[..|ps| - 1], cx, cy), ps[|ps| - 1];
      var u, v := p.x - cx, p.y - cy;
      Spread(r.flux + p.f * p.w, r.xx + Product(p.w, u, u), r.xy + Product(p.w, u, v), r.yy + Product(p.w, v, v))
  }

  lemma TermIsPlain(p: Point, cx: real, cy: real)
    ensures Term(Bare(p), cx, cy, 0, 0) == p.w && Term(Lit(p), cx, cy, 0, 0) == p.f * p.w
    ensures Term(Bare(p), cx, cy, 1, 0) == Product(p.w, p.x - cx, 1.0)
    ensures Term(Bare(p), cx, cy, 0, 1) == Product(p.w, p.y - cy, 1.0)
    ensures Term(Bare(p), cx, cy, 2, 0) == Product(p.w, p.x - cx, p.x - cx)
    ensures Term(Bare(p), cx, cy, 1, 1) == Product(p.w, p.x - cx, p.y - cy)
    ensures Term(Bare(p), cx, cy, 0, 2) == Product(p.w, p.y - cy, p.y - cy)
  {
    var u, v := p.x - cx, p.y - cy;
    FirstPowers(u);
    FirstPowers(v);
    hide Pow;
    assert p.w * u * v == p.w * (u * v);
  }

  lemma FirstPowers(x: real)
    ensures Pow(x, 0) == 1.0 && Pow(x, 1) == x && Pow(x, 2) == x * x
  {
    PowAdds(x, 1, 1);
  }

  lemma MomentGrows(ps: seq<Point>, cx: real, cy: real, i: nat, j: nat)
    requires ps != []
    ensures var n := |ps| - 1;
      && Moment(Plain(ps), cx, cy, i, j) == Moment(Plain(ps[..n]), cx, cy, i, j) + Term(Bare(ps[n]), cx, cy, i, j)
      && Moment(Fluxed(ps), cx, cy, i, j) == Moment(Fluxed(ps[..n]), cx, cy, i, j) + Term(Lit(ps[n]), cx, cy, i, j)
  {
    hide Term, Bare, Lit;
    var n := |ps| - 1;
    assert Plain(ps)[..|Plain(ps)| - 1] == Plain(ps[..n]) && Fluxed(ps)[..|Fluxed(ps)| - 1] == Fluxed(ps[..n]);
  }

  /** What a first moment about `c` should be. */
  ghost predicate FirstMoment(m: real, wx: real, s: real, c: real) {
    m == wx - s * c
  }

  lemma {:induction false} FirstOrders(ps: seq<Point>, cx: real, cy: real)
    ensures Moment(Plain(ps), cx, cy, 0, 0) == TotalWeight(ps)
    ensures FirstMoment(Moment(Plain(ps), cx, cy, 1, 0), WeightedX(ps), TotalWeight(ps), cx)
    ensures FirstMoment(Moment(Plain(ps), cx, cy, 0, 1), WeightedY(ps), TotalWeight(ps), cy)
  {
    hide Moment, Plain, Fluxed, Term, Bare, Lit, Product, FirstMoment;
    if ps == [] {
      NoOrders(cx, cy);
    } else {
      var was, p := ps[..|ps| - 1], ps[|ps| - 1];
      FirstOrders(was, cx, cy);
      MomentGrows(ps, cx, cy, 0, 0);
      MomentGrows(ps, cx, cy, 1, 0);
      MomentGrows(ps, cx, cy, 0, 1);
      TermIsPlain(p, cx, cy);
      var s, s1 := TotalWeight(was), TotalWeight(ps);
      OneMore(Moment(Plain(was), cx, cy, 1, 0), WeightedX(was), s, p.w, p.x, cx, Moment(Plain(ps), cx, cy, 1, 0), WeightedX(ps), s1);
      OneMore(Moment(Plain(was), cx, cy, 0, 1), WeightedY(was), s, p.w, p.y, cy, Moment(Plain(ps), cx, cy, 0, 1), WeightedY(ps), s1);
    }
  }

  lemma NoOrders(cx: real, cy: real)
    ensures Moment(Plain([]), cx, cy, 0, 0) == 0.0
    ensures FirstMoment(Moment(Plain([]), cx, cy, 1, 0), 0.0, 0.0, cx) && FirstMoment(Moment(Plain([]), cx, cy, 0, 1), 0.0, 0.0, cy)
  {}

  lemma OneMore(m: real, wx: real, s: real, w: real, x: real, c: real, m1: real, wx1: real, s1: real)
    requires FirstMoment(m, wx, s, c) && m1 == m + Product(w, x - c, 1.0) && wx1 == wx + w * x && s1 == s + w
    ensures FirstMoment(m1, wx1, s1, c)
  {
    assert w * (x - c) == w * x - w * c && (s + w) * c == s * c + w * c;
  }

  lemma {:induction false} SecondOrders(ps: seq<Point>, cx: real, cy: real)
    ensures SpreadOf(ps, cx, cy) == Spread(Moment(Fluxed(ps), cx, cy, 0, 0), Moment(Plain(ps), cx, cy, 2, 0),
                                           Moment(Plain(ps), cx, cy, 1, 1), Moment(Plain(ps), cx, cy, 0, 2))
  {
    if ps != [] {
      hide Moment, Plain, Fluxed, Term, Bare, Lit, Product;
      SecondOrders(ps[..|ps| - 1], cx, cy);
      MomentGrows(ps, cx, cy, 0, 0);
      MomentGrows(ps, cx, cy, 2, 0);
      MomentGrows(ps, cx, cy, 1, 1);
      MomentGrows(ps, cx, cy, 0, 2);
      TermIsPlain(ps[|ps| - 1], cx, cy);
    }
  }

  /** The first orders of both tables: weight and flux, the spread about the means, and zero for the first
      moments, since the means are the centre. */
  lemma LowOrders(ps: seq<Point>)
    requires Weighable(ps)
    ensures CentralMoment(ps, 0, 0) == TotalWeight(ps)
    ensures CentralMoment(ps, 1, 0) == 0.0 && CentralMoment(ps, 0, 1) == 0.0
    ensures Spread(CentralFlux(ps, 0, 0), CentralMoment(ps, 2, 0), CentralMoment(ps, 1, 1), CentralMoment(ps, 0, 2))
         == SpreadOf(ps, MeanX(ps), MeanY(ps))
  {
    FirstOrders(ps, MeanX(ps), MeanY(ps));
    SecondOrders(ps, MeanX(ps), MeanY(ps));
    WeightTimesMean(ps);
    hide Moment, Plain, Fluxed, MeanX, MeanY, SpreadOf;
  }

  lemma MassesGrow(ps: seq<Point>, p: Point)
    ensures Plain(ps + [p]) == Plain(ps) + [Bare(p)]
    ensures Fluxed(ps + [p]) == Fluxed(ps) + [Lit(p)]
  {
    hide Bare, Lit;
    assert (ps + [p])[..|ps|] == ps;
  }

  /** The value one table entry gets: the re-centred old moments plus the new point's own term. */
  lemma EntryIsMoment(ps: seq<Point>, p: Point, h: Shift, i: nat, j: nat)
    requires i <= 10 && j <= 10 && Weighable(ps + [p])
    requires h.cx == MeanX(ps) && h.cy == MeanY(ps)
    requires MeanX(ps + [p]) == h.cx + h.ddx && MeanY(ps + [p]) == h.cy + h.ddy
    ensures CentralMoment(ps + [p], i, j)
         == Outer(Plain(ps), h, i, j, j + 1) + Term(Bare(p), h.cx + h.ddx, h.cy + h.ddy, i, j)
    ensures CentralFlux(ps + [p], i, j)
         == Outer(Fluxed(ps), h, i, j, j + 1) + Term(Lit(p), h.cx + h.ddx, h.cy + h.ddy, i, j)
  {
    hide Outer, Moment, MeanX, MeanY, Term, Weighable;
    MassesGrow(ps, p);
    Recentred(Plain(ps), h, i, j);
    Recentred(Fluxed(ps), h, i, j);
    MomentSnoc(Plain(ps), Bare(p), h.cx + h.ddx, h.cy + h.ddy, i, j);
    MomentSnoc(Fluxed(ps), Lit(p), h.cx + h.ddx, h.cy + h.ddy, i, j);
  }

  lemma NewTerm(p: Mass, h: Shift, d1: real, dx: real, dy: real, sdx: real, sdy: real, i: nat, j: nat)
    requires dx == p.x - h.cx && h.ddx == d1 * dx && sdx == (1.0 - d1) * dx
    requires dy == p.y - h.cy && h.ddy == d1 * dy && sdy == (1.0 - d1) * dy
    ensures Term(p, h.cx + h.ddx, h.cy + h.ddy, i, j) == p.m * Pow(sdx, i) * Pow(sdy, j)
  {
    hide Term, Pow;
    Rest(d1, dx, h.ddx, sdx);
    Rest(d1, dy, h.ddy, sdy);
    TermIs(p, h.cx + h.ddx, h.cy + h.ddy, i, j, sdx, sdy);
  }

  /** The new point's own term, in both tables. */
  lemma NewTerms(p: Point, h: Shift, d1: real, dx: real, dy: real, sdx: real, sdy: real, i: nat, j: nat, v: real)
    requires dx == p.x - h.cx && h.ddx == d1 * dx && sdx == (1.0 - d1) * dx
    requires dy == p.y - h.cy && h.ddy == d1 * dy && sdy == (1.0 - d1) * dy
    requires v == p.w * Pow(sdx, i) * Pow(sdy, j)
    ensures v == Term(Bare(p), h.cx + h.ddx, h.cy + h.ddy, i, j)
    ensures p.f * v == Term(Lit(p), h.cx + h.ddx, h.cy + h.ddy, i, j)
  {
    hide Term, Pow;
    NewTerm(Bare(p), h, d1, dx, dy, sdx, sdy, i, j);
    NewTerm(Lit(p), h, d1, dx, dy, sdx, sdy, i, j);
    Regrouped(p.f, p.w, Lit(p).m, Pow(sdx, i), Pow(sdy, j), v);
  }

  lemma TermIs(p: Mass, cx: real, cy: real, i: nat, j: nat, dx: real, dy: real)
    requires dx == p.x - cx && dy == p.y - cy
    ensures Term(p, cx, cy, i, j) == p.m * Pow(dx, i) * Pow(dy, j)
  {
    hide Pow;
    SameProduct(p.m, Pow(p.x - cx, i), Pow(p.y - cy, j), Pow(dx, i), Pow(dy, j));
  }

  lemma SameProduct(m: real, a: real, b: real, a': real, b': real)
    requires a == a' && b == b'
    ensures m * a * b == m * a' * b'
  {}

  lemma Rest(d: real, x: real, dx: real, sx: real)
    requires dx == d * x && sx == (1.0 - d) * x
    ensures sx == x - dx
  {}

  lemma Regrouped(f: real, w: real, fw: real, a: real, b: real, v: real)
    requires fw == f * w && v == w * a * b
    ensures f * v == fw * a * b
  {}

  class Moment2D {
    var xMean: real
    var yMean: real
    var s: real
    const xdimmax: nat
    const ydimmax: nat
    const dimmax: nat
    const dat: array2<real>   // dat[j, i] is the entry at i + j * (xdimmax + 1)
    const wdat: array2<real>
    ghost var points: seq<Point>

    ghost predicate Shaped() {
      && dat != wdat
      && dat.Length0 == wdat.Length0 == ydimmax + 1
      && dat.Length1 == wdat.Length1 == xdimmax + 1
    }

    /** An entry the program keeps up to date. */
    predicate Kept(i: int, j: int) {
      0 <= i <= xdimmax && 0 <= j <= ydimmax && i + j <= dimmax
    }

    /** The tabulated factorials reach every order that is kept. */
    predicate Reachable() {
      (xdimmax <= 10 || dimmax <= 10) && (ydimmax <= 10 || dimmax <= 10)
    }

    /** Both tables hold the moments of `ps` at order (i, j). */
    ghost predicate Holds(ps: seq<Point>, i: int, j: int)
      requires Shaped() && Kept(i, j)
      reads dat, wdat
    {
      dat[j, i] == CentralMoment(ps, i, j) && wdat[j, i] == CentralFlux(ps, i, j)
    }

    ghost predicate Valid()
      reads this, dat, wdat
    {
      && Shaped()
      && Weighable(points)
      && s == TotalWeight(points) && xMean == MeanX(points) && yMean == MeanY(points)
      && (forall i, j | Kept(i, j) :: Holds(points, i, j))
    }

    constructor (xdimmax: nat, ydimmax: nat, dimmax: nat)
      ensures Valid() && points == [] && fresh(dat) && fresh(wdat)
      ensures this.xdimmax == xdimmax && this.ydimmax == ydimmax && this.dimmax == dimmax
    {
      xMean, yMean, s, points := 0.0, 0.0, 0.0, [];
      this.xdimmax, this.ydimmax, this.dimmax := xdimmax, ydimmax, dimmax;
      dat := new real[ydimmax + 1, xdimmax + 1]((i, j) => 0.0);
      wdat := new real[ydimmax + 1, xdimmax + 1]((i, j) => 0.0);
    }

    /** The double loop for one entry: it reads entries of smaller or equal order only. */
    method Recentre(i: nat, j: nat, h: Shift) returns (va: real, vb: real)
      requires Shaped() && Reachable() && Kept(i, j)
      requires forall p, q | 0 <= p <= i && 0 <= q <= j ::
                 dat[q, p] == Moment(Plain(points), h.cx, h.cy, p, q)
                 && wdat[q, p] == Moment(Fluxed(points), h.cx, h.cy, p, q)
      ensures va == Outer(Plain(points), h, i, j, j + 1)
      ensures vb == Outer(Fluxed(points), h, i, j, j + 1)
    {
      hide Moment, Pow, Coefficient, Plain, Fluxed, Inner;
      va, vb := 0.0, 0.0;
      for t := 0 to j + 1
        invariant va == Outer(Plain(points), h, i, j, t)
        invariant vb == Outer(Fluxed(points), h, i, j, t)
      {
        var q := j - t;
        ghost var va0, vb0 := va, vb;
        InnerStarts(Plain(points), h, i, j, t);
        InnerStarts(Fluxed(points), h, i, j, t);
        for s := 0 to i + 1
          invariant va == va0 + Inner(Plain(points), h, i, j, t, s)
          invariant vb == vb0 + Inner(Fluxed(points), h, i, j, t, s)
        {
          var p := i - s;
          var v := Coefficient(i, s, j, t) as real * Pow(-h.ddx, s) * Pow(-h.ddy, t);
          InnerNext(Plain(points), h, i, j, t, s, v, dat[q, p]);
          InnerNext(Fluxed(points), h, i, j, t, s, v, wdat[q, p]);
          va := va + v * dat[q, p];
          vb := vb + v * wdat[q, p];
        }
      }
    }

    /** Below (i, j), the tables hold the moments about the old means. */
    lemma OldEntries(ps: seq<Point>, h: Shift, i: nat, j: nat)
      requires Shaped() && Kept(i, j) && h.cx == MeanX(ps) && h.cy == MeanY(ps)
      requires forall p, q | Kept(p, q) && (q < j || (q == j && p <= i)) :: Holds(ps, p, q)
      ensures forall p, q | 0 <= p <= i && 0 <= q <= j ::
                 dat[q, p] == Moment(Plain(ps), h.cx, h.cy, p, q)
                 && wdat[q, p] == Moment(Fluxed(ps), h.cx, h.cy, p, q)
    {
      forall p, q | 0 <= p <= i && 0 <= q <= j
        ensures dat[q, p] == Moment(Plain(ps), h.cx, h.cy, p, q)
                && wdat[q, p] == Moment(Fluxed(ps), h.cx, h.cy, p, q)
      {
        assert Kept(p, q) && Holds(ps, p, q);
      }
    }

    /** `add_moment2d_raw`: the descending order overwrites an entry only after every
        entry that still needs its old value. */
    method AddRaw(x: real, y: real, w: real, f: real)
      requires Valid() && Reachable() && s + w != 0.0
      modifies this, dat, wdat
      ensures Valid() && points == old(points) + [Point(x, y, w, f)]
    {
      hide CentralMoment, CentralFlux, Outer, Moment, Term, Pow, Bare, Lit, MeanX, MeanY, Weighable, Plain, Fluxed;
      var dx, dy := x - xMean, y - yMean;
      var s1 := s + w;
      var d1 := w / s1;
      var ss1 := 1.0 - d1;
      var ddx, sdx := d1 * dx, ss1 * dx;
      var ddy, sdy := d1 * dy, ss1 * dy;
      var h := Shift(xMean, yMean, ddx, ddy);
      ghost var point := Point(x, y, w, f);
      ghost var before, after := points, points + [point];
      Extends(before, point);
      MeansAdvance(before, point, ddx, ddy);
      for j := ydimmax + 1 downto 0
        invariant unchanged(this)
        invariant forall p, q | Kept(p, q) && q < j :: Holds(before, p, q)
        invariant forall p, q | Kept(p, q) && q >= j :: Holds(after, p, q)
      {
        for i := xdimmax + 1 downto 0
          invariant unchanged(this)
          invariant forall p, q | Kept(p, q) && (q < j || (q == j && p < i)) :: Holds(before, p, q)
          invariant forall p, q | Kept(p, q) && (q > j || (q == j && p >= i)) :: Holds(after, p, q)
        {
          if i + j > dimmax { continue; }
          OldEntries(before, h, i, j);
          var va, vb := Recentre(i, j, h);
          var v := w * Pow(sdx, i) * Pow(sdy, j);
          EntryIsMoment(before, point, h, i, j);
          NewTerms(point, h, d1, dx, dy, sdx, sdy, i, j, v);
          dat[j, i] := va + v;
          wdat[j, i] := vb + f * v;
        }
      }
      xMean := xMean + ddx;
      yMean := yMean + ddy;
      s := s1;
      points := after;
    }
  }
}
