/** Sizes and finite sums of reals. */
module Sums {
  function Abs(x: real): (a: real)
    ensures a >= 0.0 && (a == x || a == -x)
  {
    if x < 0.0 then -x else x
  }

  function Sum(s: seq<real>): real {
    if s == [] then 0.0 else Sum(s[..|s| - 1]) + s[|s| - 1]
  }

  lemma {:induction false} SumUpdate(s: seq<real>, i: nat, x: real)
    requires i < |s|
    ensures Sum(s[i := x]) == Sum(s) - s[i] + x
  {
    var n := |s| - 1;
    if i == n {
      assert s[i := x][..n] == s[..n];
    } else {
      assert s[i := x][..n] == s[..n][i := x];
      SumUpdate(s[..n], i, x);
    }
  }

  /** Every element times `c`. */
  function Scaled(c: real, s: seq<real>): (r: seq<real>)
    ensures |r| == |s|
  {
    if s == [] then [] else Scaled(c, s[..|s| - 1]) + [c * s[|s| - 1]]
  }

  lemma {:induction false} ScaledAt(c: real, s: seq<real>, i: nat)
    requires i < |s|
    ensures Scaled(c, s)[i] == c * s[i]
  {
    if i < |s| - 1 { ScaledAt(c, s[..|s| - 1], i); }
  }

  lemma ScaledIs(c: real, s: seq<real>, i: nat, x: real, cx: real)
    requires i < |s| && x == s[i] && cx == Scaled(c, s)[i]
    ensures cx == c * x
  {
    ScaledAt(c, s, i);
  }

  lemma IsScaled(t: seq<real>, c: real, s: seq<real>)
    requires |t| == |s| && forall i :: 0 <= i < |s| ==> t[i] == s[i] * c
    ensures t == Scaled(c, s)
  {
    forall i | 0 <= i < |s|
      ensures t[i] == Scaled(c, s)[i]
    {
      ScaledAt(c, s, i);
    }
  }

  lemma SumSnoc(s: seq<real>)
    requires s != []
    ensures Sum(s) == Sum(s[..|s| - 1]) + s[|s| - 1]
  {}

  lemma ScaledSnoc(c: real, s: seq<real>, last: real)
    requires s != [] && last == c * s[|s| - 1]
    ensures Scaled(c, s)[..|s| - 1] == Scaled(c, s[..|s| - 1]) && Scaled(c, s)[|s| - 1] == last
  {}

  lemma Extended(c: real, x: real, y: real, z: real, cx: real, cy: real)
    requires z == x + y && cx == c * x && cy == c * y
    ensures cx + cy == c * z
  {}

  lemma {:induction false} SumScaled(c: real, s: seq<real>)
    ensures Sum(Scaled(c, s)) == c * Sum(s)
  {
    hide Scaled;
    if s == [] {
      assert Scaled(c, s) == [];
      Extended(c, 0.0, 0.0, Sum(s), 0.0, 0.0);
    } else {
      var shorter, last := s[..|s| - 1], s[|s| - 1];
      SumScaled(c, shorter);
      SumSnoc(s);
      ScaledSnoc(c, s, c * last);
      SumSnoc(Scaled(c, s));
      Extended(c, Sum(shorter), last, Sum(s), Sum(Scaled(c, shorter)), c * last);
    }
  }

  lemma Distribute(c: real, x: real, y: real, z: real)
    requires z == x + y
    ensures c * z == c * x + c * y
  {}

  /** Sums add up. */
  lemma {:induction false} SumPlus(s: seq<real>, a: seq<real>, b: seq<real>)
    requires |s| == |a| == |b|
    requires forall i :: 0 <= i < |s| ==> s[i] == a[i] + b[i]
    ensures Sum(s) == Sum(a) + Sum(b)
  {
    if s != [] {
      var n := |s| - 1;
      SumPlus(s[..n], a[..n], b[..n]);
    }
  }

  lemma SumPlusScaled(s: seq<real>, a: seq<real>, c: real, b: seq<real>)
    requires |s| == |a| == |b|
    requires forall i :: 0 <= i < |s| ==> s[i] == a[i] + Scaled(c, b)[i]
    ensures Sum(s) == Sum(a) + c * Sum(b)
  {
    SumPlus(s, a, Scaled(c, b));
    SumScaled(c, b);
  }

  lemma SumSwap(s: seq<real>, i: nat, k: nat)
    requires i < |s| && k < |s|
    ensures Sum(s[i := s[k]][k := s[i]]) == Sum(s)
  {
    SumUpdate(s, i, s[k]);
    SumUpdate(s[i := s[k]], k, s[i]);
  }

  lemma {:induction false} SumZero(s: seq<real>)
    requires forall i :: 0 <= i < |s| ==> s[i] == 0.0
    ensures Sum(s) == 0.0
  {
    if s != [] { SumZero(s[..|s| - 1]); }
  }
}
