/** `nth` of `sub_sort.c` and `floatmedian` of `sub_stat.c`: the interpolated
    element of a real-valued rank, found by partitioning in place. */
module Quickselect {
  import opened Sequences

  predicate Ascending(s: seq<real>) {
    forall i, j | 0 <= i < j < |s| :: s[i] <= s[j]
  }

  function Insert(x: real, s: seq<real>): (r: seq<real>)
    requires Ascending(s)
    ensures Ascending(r) && multiset(r) == multiset(s) + multiset{x}
  {
    if s == [] then [x]
    else if x >= s[|s| - 1] then s + [x]
    else
      var init, last := s[..|s| - 1], s[|s| - 1];
      assert s == init + [last];
      var r := Insert(x, init);
      InsertBounded(r, init, x, last);
      r + [last]
  }

  lemma InsertBounded(r: seq<real>, init: seq<real>, x: real, last: real)
    requires multiset(r) == multiset(init) + multiset{x} && x <= last
    requires forall y | y in init :: y <= last
    ensures forall i | 0 <= i < |r| :: r[i] <= last
  {
    forall i | 0 <= i < |r|
      ensures r[i] <= last
    {
      assert r[i] in multiset(r);
      assert multiset(r)[r[i]] == multiset(init)[r[i]] + multiset{x}[r[i]];
      assert r[i] == x || r[i] in init;
    }
  }

  /** The data in ascending order. */
  function Sort(s: seq<real>): (r: seq<real>)
    ensures Ascending(r) && multiset(r) == multiset(s) && |r| == |s|
  {
    if s == [] then []
    else
      assert s == s[..|s| - 1] + [s[|s| - 1]];
      var r := Insert(s[|s| - 1], Sort(s[..|s| - 1]));
      SameLength(r, s);
      r
  }

  /** Only one ascending sequence has given elements. */
  lemma {:induction false} AscendingUnique(a: seq<real>, b: seq<real>)
    requires Ascending(a) && Ascending(b) && multiset(a) == multiset(b)
    ensures a == b
  {
    SameLength(a, b);
    if a != [] {
      var n := |a| - 1;
      LastIsGreatest(a, b);
      LastIsGreatest(b, a);
      WithoutLast(a);
      WithoutLast(b);
      AscendingUnique(a[..n], b[..n]);
    }
  }

  lemma WithoutLast(a: seq<real>)
    requires a != []
    ensures multiset(a[..|a| - 1]) == multiset(a) - multiset{a[|a| - 1]}
    ensures a == a[..|a| - 1] + [a[|a| - 1]]
  {
    assert a == a[..|a| - 1] + [a[|a| - 1]];
  }

  lemma LastIsGreatest(a: seq<real>, b: seq<real>)
    requires Ascending(a) && multiset(a) == multiset(b) && b != [] && |a| == |b|
    ensures b[|b| - 1] <= a[|a| - 1]
  {
    assert b[|b| - 1] in multiset(a);
  }

  /** The value at fraction `t` of the way from `x` to `y`. */
  ghost function Mix(x: real, y: real, t: real): real {
    x + t * (y - x)
  }


  /** Linear interpolation between the elements of rank floor(n) and floor(n) + 1. */
  ghost function Interpolated(s: seq<real>, n: real): real
    requires 0.0 <= n < (|s| - 1) as real
  {
    Mix(s[n.Floor], s[n.Floor + 1], n - n.Floor as real)
  }

  /** The rank lies strictly below that of the last element. */
  predicate InRange(size: nat, n: real) {
    0.0 <= n < (size - 1) as real
  }

  /** What `nth` returns, whatever the rank. */
  ghost function Nth(s: seq<real>, n: real): real
    requires s != []
  {
    if InRange(|s|, n) then Interpolated(Sort(s), n)
    else if n < 0.0 then s[0]
    else s[|s| - 1]
  }

  /** Said of any ascending arrangement: inside the range the answer lies between the neighbours of the
      rank, as far from the first as the rank is; below it is the first of the data, beyond the last. */
  ghost predicate OfRank(s: seq<real>, n: real, r: real)
    requires s != []
  {
    && (forall t, k | Arranged(s, t) && Below(n, k) && 0 <= k < |t| - 1 :: r - t[k] == (n - k as real) * (t[k + 1] - t[k]))
    && (n < 0.0 ==> r == s[0])
    && (n >= (|s| - 1) as real ==> r == s[|s| - 1])
  }

  ghost predicate Arranged(s: seq<real>, t: seq<real>) {
    Ascending(t) && multiset(t) == multiset(s)
  }

  /** `k` is the whole part of the rank. */
  ghost predicate Below(n: real, k: int) {
    k as real <= n < (k + 1) as real
  }

  lemma NthIsOfRank(s: seq<real>, n: real)
    requires s != []
    ensures OfRank(s, n, Nth(s, n))
  {
    hide Sort, Arranged, Below, Interpolated;
    forall t, k | Arranged(s, t) && Below(n, k) && 0 <= k < |t| - 1
      ensures Nth(s, n) - t[k] == (n - k as real) * (t[k + 1] - t[k])
    {
      NthBetween(s, n, t, k);
    }
  }

  lemma NthBetween(s: seq<real>, n: real, t: seq<real>, k: int)
    requires s != [] && Arranged(s, t) && Below(n, k) && 0 <= k < |t| - 1
    ensures Nth(s, n) - t[k] == (n - k as real) * (t[k + 1] - t[k])
  {
    hide Sort, Ascending, Mix;
    AscendingUnique(t, Sort(s));
    FloorBetween(n, k);
    MixFrom(t[k], t[k + 1], n - k as real);
    assert InRange(|s|, n) && Nth(s, n) == Mix(t[k], t[k + 1], n - k as real);
  }

  lemma MixFrom(x: real, y: real, t: real)
    ensures Mix(x, y, t) - x == t * (y - x)
  {}

  predicate AllBelow(s: seq<real>, a: real) {
    forall i | 0 <= i < |s| :: s[i] < a
  }

  predicate AllAbove(s: seq<real>, a: real) {
    forall i | 0 <= i < |s| :: s[i] > a
  }

  predicate AllEqual(s: seq<real>, a: real) {
    forall i | 0 <= i < |s| :: s[i] == a
  }

  /** A partition around a value: the equal ones, the smaller ones, the larger ones. */
  lemma PartitionSorts(s: seq<real>, same: seq<real>, less: seq<real>, more: seq<real>, a: real)
    requires multiset(s) == multiset(same) + multiset(less) + multiset(more)
    requires AllEqual(same, a) && AllBelow(less, a) && AllAbove(more, a)
    ensures Sort(s) == Sort(less) + same + Sort(more)
  {
    hide Sort;
    SortBounded(less, a);
    SortBounded(more, a);
    AscendingJoin(Sort(less), same, a, a);
    AscendingJoin(Sort(less) + same, Sort(more), a, a);
    AscendingUnique(Sort(s), Sort(less) + same + Sort(more));
  }

  lemma SortBounded(s: seq<real>, a: real)
    ensures AllBelow(s, a) ==> AllBelow(Sort(s), a)
    ensures AllAbove(s, a) ==> AllAbove(Sort(s), a)
  {
    Elements(s);
  }

  lemma AscendingJoin(s: seq<real>, t: seq<real>, a: real, b: real)
    requires Ascending(s) && Ascending(t) && a <= b
    requires forall i | 0 <= i < |s| :: s[i] <= a
    requires forall i | 0 <= i < |t| :: b <= t[i]
    ensures Ascending(s + t)
  {}

  lemma Elements(s: seq<real>)
    ensures forall i | 0 <= i < |s| :: Sort(s)[i] in s
  {
    forall i | 0 <= i < |s|
      ensures Sort(s)[i] in s
    {
      assert Sort(s)[i] in multiset(s);
    }
  }

  lemma FloorBetween(n: real, k: int)
    requires k as real <= n < (k + 1) as real
    ensures n.Floor == k
  {}

  /** `floatmax`, on the stretch `lo..hi` of the array. */
  method FloatMax(dat: array<real>, lo: nat, hi: nat) returns (fmax: real)
    requires lo < hi <= dat.Length
    ensures fmax == Sort(dat[..][lo..hi])[hi - lo - 1]
  {
    hide Sort, Ascending;
    ghost var s := dat[..][lo..hi];
    fmax := dat[lo];
    ghost var at: nat := 0;
    for i := lo + 1 to hi
      invariant at < hi - lo && s[at] == fmax
      invariant forall k | 0 <= k < i - lo :: s[k] <= fmax
    {
      assert dat[i] == s[i - lo];
      if dat[i] > fmax { fmax, at := dat[i], i - lo; }
    }
    Greatest(s, at);
  }

  /** `floatmin`, on the stretch `lo..hi` of the array. */
  method FloatMin(dat: array<real>, lo: nat, hi: nat) returns (fmin: real)
    requires lo < hi <= dat.Length
    ensures fmin == Sort(dat[..][lo..hi])[0]
  {
    hide Sort, Ascending;
    ghost var s := dat[..][lo..hi];
    fmin := dat[lo];
    ghost var at: nat := 0;
    for i := lo + 1 to hi
      invariant at < hi - lo && s[at] == fmin
      invariant forall k | 0 <= k < i - lo :: s[k] >= fmin
    {
      assert dat[i] == s[i - lo];
      if dat[i] < fmin { fmin, at := dat[i], i - lo; }
    }
    Least(s, at);
  }

  lemma Greatest(s: seq<real>, k: nat)
    requires k < |s| && forall i | 0 <= i < |s| :: s[i] <= s[k]
    ensures Sort(s)[|s| - 1] == s[k]
  {
    hide Sort;
    Extremes(s, s[k]);
    Elements(s);
  }

  lemma Least(s: seq<real>, k: nat)
    requires k < |s| && forall i | 0 <= i < |s| :: s[i] >= s[k]
    ensures Sort(s)[0] == s[k]
  {
    hide Sort;
    Extremes(s, s[k]);
    Elements(s);
  }

  /** A member of the data lies between the two ends of the sorted data. */
  lemma Extremes(s: seq<real>, x: real)
    requires x in s
    ensures Sort(s)[0] <= x <= Sort(s)[|s| - 1]
  {
    hide Sort;
    assert x in multiset(Sort(s));
    var i :| 0 <= i < |s| && Sort(s)[i] == x;
  }

  // ----- What each branch returns, `l` smaller and `e` equal elements

  predicate Parts(s: seq<real>, same: seq<real>, less: seq<real>, more: seq<real>, a: real) {
    && multiset(s) == multiset(same) + multiset(less) + multiset(more)
    && AllEqual(same, a) && AllBelow(less, a) && AllAbove(more, a)
    && |s| == |same| + |less| + |more| && |same| >= 1
  }

  lemma Sizes(n: real, k: int)
    requires 0.0 <= n < k as real
    ensures 0 <= n.Floor < k
    ensures n < (k - 1) as real ==> n.Floor < k - 1
  {}

  lemma InTheSmaller(s: seq<real>, same: seq<real>, less: seq<real>, more: seq<real>, a: real, n: real)
    requires Parts(s, same, less, more, a) && InRange(|less|, n)
    ensures InRange(|s|, n) && Nth(s, n) == Nth(less, n)
  {
    hide Sort, Ascending, Mix;
    PartitionSorts(s, same, less, more, a);
    Sizes(n, |less| - 1);
  }

  lemma BetweenSmallerAndEqual(s: seq<real>, same: seq<real>, less: seq<real>, more: seq<real>, a: real, n: real, t: real)
    requires Parts(s, same, less, more, a) && less != []
    requires (|less| - 1) as real <= n < |less| as real && t == n - (|less| - 1) as real
    ensures InRange(|s|, n) ==> Nth(s, n) == Mix(Sort(less)[|less| - 1], a, t)
  {
    hide Sort, Ascending, Mix;
    PartitionSorts(s, same, less, more, a);
    FloorBetween(n, |less| - 1);
  }

  lemma AmongTheEqual(s: seq<real>, same: seq<real>, less: seq<real>, more: seq<real>, a: real, n: real)
    requires Parts(s, same, less, more, a) && InRange(|s|, n)
    requires |less| as real <= n <= (|less| + |same| - 1) as real
    ensures Nth(s, n) == a
  {
    hide Sort, Ascending, Mix;
    PartitionSorts(s, same, less, more, a);
    Sizes(n, |less| + |same|);
    var f := n.Floor;
    assert |less| <= f;
    var t := n - f as real;
    assert Sort(s)[f] == a;
    if f + 1 < |less| + |same| {
      assert Sort(s)[f + 1] == a;
      Blend(a, t);
    } else {
      assert t == 0.0;
      NoBlend(a, Sort(s)[f + 1]);
    }
  }

  lemma Blend(a: real, t: real)
    ensures Mix(a, a, t) == a
  {}

  lemma NoBlend(a: real, b: real)
    ensures Mix(a, b, 0.0) == a
  {}

  lemma BetweenEqualAndLarger(s: seq<real>, same: seq<real>, less: seq<real>, more: seq<real>, a: real, n: real, t: real)
    requires Parts(s, same, less, more, a) && more != []
    requires (|less| + |same| - 1) as real <= n < (|less| + |same|) as real
    requires t == n - (|less| + |same| - 1) as real
    ensures InRange(|s|, n) ==> Nth(s, n) == Mix(a, Sort(more)[0], t)
  {
    hide Sort, Ascending, Mix;
    PartitionSorts(s, same, less, more, a);
    FloorBetween(n, |less| + |same| - 1);
  }

  lemma InTheLarger(s: seq<real>, same: seq<real>, less: seq<real>, more: seq<real>, a: real, n: real, m: real)
    requires Parts(s, same, less, more, a) && InRange(|s|, n)
    requires (|less| + |same|) as real <= n && m == n - (|less| + |same|) as real
    ensures InRange(|more|, m) && Nth(s, n) == Nth(more, m)
  {
    hide Sort, Ascending, Mix;
    PartitionSorts(s, same, less, more, a);
    Sizes(m, |more| - 1);
    FloorBetween(n, m.Floor + |less| + |same|);
  }

  // ----- The program

  /** Only the stretch `lo..hi` was rearranged. */
  predicate Rearranged(s: seq<real>, t: seq<real>, lo: nat, hi: nat)
    requires lo <= hi
  {
    && |s| == |t| && hi <= |s|
    && s[..lo] == t[..lo] && s[hi..] == t[hi..]
    && multiset(s[lo..hi]) == multiset(t[lo..hi])
  }

  lemma SwapRearranges(s: seq<real>, lo: nat, hi: nat, i: nat, j: nat)
    requires lo <= i < hi <= |s| && lo <= j < hi
    ensures Swapped(s, i, j)[lo..hi] == Swapped(s[lo..hi], i - lo, j - lo)
    ensures Rearranged(s, Swapped(s, i, j), lo, hi)
  {
    assert Swapped(s, i, j)[lo..hi] == Swapped(s[lo..hi], i - lo, j - lo);
  }

  lemma RearrangedTwice(s: seq<real>, t: seq<real>, u: seq<real>, lo: nat, hi: nat)
    requires lo <= hi && Rearranged(s, t, lo, hi) && Rearranged(t, u, lo, hi)
    ensures Rearranged(s, u, lo, hi)
  {}

  /** Rearranging a part rearranges the whole. */
  lemma RearrangedPart(s: seq<real>, t: seq<real>, lo: nat, lo': nat, hi': nat, hi: nat)
    requires lo <= lo' <= hi' <= hi <= |s| && Rearranged(s, t, lo', hi')
    ensures Rearranged(s, t, lo, hi)
  {
    Cut(s, lo, lo', hi', hi);
    Cut(t, lo, lo', hi', hi);
    assert t[..lo] == t[..lo'][..lo] && s[..lo] == s[..lo'][..lo];
    assert t[hi..] == t[hi'..][hi - hi'..] && s[hi..] == s[hi'..][hi - hi'..];
    assert t[lo..lo'] == t[..lo'][lo..] && s[lo..lo'] == s[..lo'][lo..];
    assert t[hi'..hi] == t[hi'..][..hi - hi'] && s[hi'..hi] == s[hi'..][..hi - hi'];
  }

  lemma Cut(s: seq<real>, a: nat, b: nat, c: nat, d: nat)
    requires a <= b <= c <= d <= |s|
    ensures multiset(s[a..d]) == multiset(s[a..b]) + multiset(s[b..c]) + multiset(s[c..d])
  {
    assert s[a..d] == s[a..b] + s[b..c] + s[c..d];
  }

  method Swap(dat: array<real>, i: nat, j: nat)
    requires i < dat.Length && j < dat.Length
    modifies dat
    ensures dat[..] == Swapped(old(dat[..]), i, j)
  {
    var temp := dat[i];
    dat[i] := dat[j];
    dat[j] := temp;
  }

  /** The pass over `lo..hi` has sorted out the elements before `i` and those from `nmax` on. */
  predicate Partial(s: seq<real>, lo: int, hi: int, a: real, nsame: int, i: int, nmax: int) {
    && 0 <= lo < nsame <= i <= nmax <= hi <= |s|
    && (forall k | lo <= k < nsame :: s[k] == a)
    && (forall k | nsame <= k < i :: s[k] < a)
    && (forall k | nmax <= k < hi :: s[k] > a)
  }

  lemma Advance(s: seq<real>, lo: int, hi: int, a: real, nsame: int, i: int, nmax: int)
    requires Partial(s, lo, hi, a, nsame, i, nmax) && i < nmax
    ensures s[i] > a ==> Partial(Swapped(s, i, nmax - 1), lo, hi, a, nsame, i, nmax - 1)
    ensures s[i] == a ==> Partial(Swapped(s, i, nsame), lo, hi, a, nsame + 1, i + 1, nmax)
    ensures s[i] < a ==> Partial(s, lo, hi, a, nsame, i + 1, nmax)
  {}

  lemma Finished(was: seq<real>, s: seq<real>, lo: nat, hi: nat, a: real, nsame: nat, nmax: nat)
    requires Partial(s, lo, hi, a, nsame, nmax, nmax) && Rearranged(was, s, lo, hi)
    ensures s[lo] == a && Parts(was[lo..hi], s[lo..nsame], s[nsame..nmax], s[nmax..hi], a)
  {
    Cut(s, lo, nsame, nmax, hi);
  }

  /** The pass over the stretch `lo..hi` around its first element. */
  method Partition(dat: array<real>, lo: nat, hi: nat) returns (nsame: nat, nmax: nat)
    requires lo < hi <= dat.Length
    modifies dat
    ensures lo < nsame <= nmax <= hi && dat[..][lo] == old(dat[..])[lo]
    ensures Parts(old(dat[..])[lo..hi], dat[..][lo..nsame], dat[..][nsame..nmax], dat[..][nmax..hi], dat[..][lo])
    ensures Rearranged(old(dat[..]), dat[..], lo, hi)
  {
    hide Swapped, Rearranged, Parts;
    var a := dat[lo];
    nmax := hi;
    nsame := lo + 1;
    var i := lo + 1;
    assert Rearranged(dat[..], dat[..], lo, hi) by { Unchanged(dat[..], lo, hi); }
    while i < nmax
      invariant Partial(dat[..], lo, hi, a, nsame, i, nmax)
      invariant Rearranged(old(dat[..]), dat[..], lo, hi)
    {
      ghost var s := dat[..];
      Advance(s, lo, hi, a, nsame, i, nmax);
      if dat[i] > a {
        SwapRearranges(s, lo, hi, i, nmax - 1);
        RearrangedTwice(old(dat[..]), s, Swapped(s, i, nmax - 1), lo, hi);
        Swap(dat, i, nmax - 1);
        nmax := nmax - 1;
      } else if dat[i] == a {
        SwapRearranges(s, lo, hi, i, nsame);
        RearrangedTwice(old(dat[..]), s, Swapped(s, i, nsame), lo, hi);
        Swap(dat, i, nsame);
        nsame := nsame + 1;
        i := i + 1;
      } else {
        i := i + 1;
      }
    }
    Finished(old(dat[..]), dat[..], lo, hi, a, nsame, nmax);
  }

  lemma Unchanged(s: seq<real>, lo: nat, hi: nat)
    requires lo <= hi <= |s|
    ensures Rearranged(s, s, lo, hi)
  {}

  /** The weighted sum of two neighbours. */
  method Interpolate(x: real, y: real, s: real) returns (r: real)
    ensures r == Mix(x, y, s)
  {
    assert x * (1.0 - s) == x - s * x && s * (y - x) == s * y - s * x;
    r := x * (1.0 - s) + s * y;
  }

  /** `nth` on the stretch `lo..hi` of the array. */
  method NthElement(dat: array<real>, lo: nat, hi: nat, n: real) returns (r: real)
    requires lo < hi <= dat.Length
    modifies dat
    ensures r == Nth(old(dat[..])[lo..hi], n) && OfRank(old(dat[..])[lo..hi], n, r)
    ensures Rearranged(old(dat[..]), dat[..], lo, hi)
    ensures !InRange(hi - lo, n) ==> dat[..] == old(dat[..])
    decreases hi - lo
  {
    hide Sort, Ascending, Parts, Rearranged, Mix, OfRank;
    var ndat := hi - lo;
    ghost var was := dat[..];
    Unchanged(was, lo, hi);
    NthIsOfRank(was[lo..hi], n);
    if n >= (ndat - 1) as real { return dat[hi - 1]; }
    if ndat == 1 || n < 0.0 { return dat[lo]; }
    if ndat <= 2 {
      PairSorts(was[lo..hi], n);
      if dat[lo] < dat[lo + 1] {
        r := Interpolate(dat[lo], dat[lo + 1], n);
      } else {
        r := Interpolate(dat[lo + 1], dat[lo], n);
      }
      return;
    }
    var nsame, nmax := Partition(dat, lo, hi);
    var a := dat[lo];
    var upto, below: int := nmax - lo, nmax - nsame;   // elements not above `a`, and below it
    ghost var s := dat[..];
    ghost var all, same, less, more := was[lo..hi], s[lo..nsame], s[nsame..nmax], s[nmax..hi];
    if nmax == hi {
      if below as real <= n {
        AmongTheEqual(all, same, less, more, a, n);
        return a;
      } else if (below - 1) as real > n {
        InTheSmaller(all, same, less, more, a, n);
        r := NthElement(dat, nsame, nmax, n);
        Inside(was, s, dat[..], lo, nsame, nmax, hi);
      } else {
        var t := n - (below - 1) as real;
        var m := FloatMax(dat, nsame, nmax);
        BetweenSmallerAndEqual(all, same, less, more, a, n, t);
        r := Interpolate(m, dat[lo], t);
      }
    } else if n < (below - 1) as real {
      InTheSmaller(all, same, less, more, a, n);
      r := NthElement(dat, nsame, nmax, n);
      Inside(was, s, dat[..], lo, nsame, nmax, hi);
    } else if n < below as real {
      var t := n - (below - 1) as real;
      var m := FloatMax(dat, nsame, nmax);
      BetweenSmallerAndEqual(all, same, less, more, a, n, t);
      r := Interpolate(m, dat[lo], t);
    } else if n <= (upto - 1) as real {
      AmongTheEqual(all, same, less, more, a, n);
      return a;
    } else if n < upto as real {
      var t := n - (upto - 1) as real;
      var m := FloatMin(dat, nmax, hi);
      BetweenEqualAndLarger(all, same, less, more, a, n, t);
      r := Interpolate(dat[lo], m, t);
    } else {
      InTheLarger(all, same, less, more, a, n, n - upto as real);
      r := NthElement(dat, nmax, hi, n - upto as real);
      Inside(was, s, dat[..], lo, nmax, hi, hi);
    }
  }

  lemma Inside(s: seq<real>, t: seq<real>, u: seq<real>, lo: nat, lo': nat, hi': nat, hi: nat)
    requires lo <= lo' <= hi' <= hi <= |s| && Rearranged(s, t, lo, hi) && Rearranged(t, u, lo', hi')
    ensures Rearranged(s, u, lo, hi)
  {
    hide Rearranged;
    assert |t| == |s| by { SameSize(s, t, lo, hi); }
    RearrangedPart(t, u, lo, lo', hi', hi);
    RearrangedTwice(s, t, u, lo, hi);
  }

  lemma SameSize(s: seq<real>, t: seq<real>, lo: nat, hi: nat)
    requires lo <= hi && Rearranged(s, t, lo, hi)
    ensures |s| == |t|
  {}

  lemma PairSorts(s: seq<real>, n: real)
    requires |s| == 2 && InRange(2, n)
    ensures s[0] < s[1] ==> Nth(s, n) == Mix(s[0], s[1], n)
    ensures s[0] >= s[1] ==> Nth(s, n) == Mix(s[1], s[0], n)
  {
    hide Sort, Mix;
    SortTwo(s);
    FloorBetween(n, 0);
  }

  lemma SortTwo(s: seq<real>)
    requires |s| == 2
    ensures Sort(s) == if s[0] < s[1] then s else [s[1], s[0]]
  {
    hide Sort;
    assert s == [s[0], s[1]];
    AscendingUnique(Sort(s), if s[0] < s[1] then s else [s[1], s[0]]);
  }

  /** At a whole rank, `nth` returns the element of that rank exactly when the rank is
      not the last or the data happen to end with their maximum. */
  lemma WholeRankIff(s: seq<real>, k: nat)
    requires k < |s|
    ensures Nth(s, k as real) == Sort(s)[k] <==> k < |s| - 1 || forall i | 0 <= i < |s| :: s[i] <= s[|s| - 1]
  {
    hide Sort, Ascending, Mix;
    if k < |s| - 1 {
      FloorBetween(k as real, k);
      NoBlend(Sort(s)[k], Sort(s)[k + 1]);
    } else {
      forall i | 0 <= i < |s|
        ensures s[i] <= Sort(s)[k]
      {
        Extremes(s, s[i]);
      }
      if forall i | 0 <= i < |s| :: s[i] <= s[k] { Greatest(s, k); }
    }
  }

  /** The maximum of two values asked for by its rank: the smaller one comes back. */
  lemma LastRankFails()
    ensures Nth([2.0, 1.0], 1.0) == 1.0 && Sort([2.0, 1.0])[1] == 2.0
  {
    SortTwo([2.0, 1.0]);
  }

  // ----- The median

  /** The middle element of the sorted data, or the mean of the middle two. */
  function Median(s: seq<real>): real
    requires s != []
  {
    if |s| % 2 == 1 then Sort(s)[|s| / 2] else (Sort(s)[|s| / 2 - 1] + Sort(s)[|s| / 2]) / 2.0
  }

  lemma MedianIsNth(s: seq<real>, n: real)
    requires s != [] && n == (|s| - 1) as real * 0.5
    ensures Nth(s, n) == Median(s)
  {
    hide Sort, Ascending, Mix;
    if |s| == 1 {
      SortOne(s);
    } else if |s| % 2 == 1 {
      FloorBetween(n, |s| / 2);
      NoBlend(Sort(s)[|s| / 2], Sort(s)[|s| / 2 + 1]);
    } else {
      FloorBetween(n, |s| / 2 - 1);
      Halfway(Sort(s)[|s| / 2 - 1], Sort(s)[|s| / 2]);
    }
  }

  lemma Halfway(a: real, b: real)
    ensures Mix(a, b, 0.5) == (a + b) / 2.0
  {}

  lemma SortOne(s: seq<real>)
    requires |s| == 1
    ensures Sort(s) == s
  {
    AscendingUnique(Sort(s), s);
  }

  /** `floatmedian`: the data are copied, so the caller's array stays as it is. */
  method FloatMedian(dat: array<real>) returns (m: real)
    requires dat.Length >= 1
    ensures m == Median(dat[..])
  {
    hide Sort, Ascending, OfRank, Rearranged, Nth, Median;
    var a := new real[dat.Length];
    forall i | 0 <= i < dat.Length { a[i] := dat[i]; }
    assert a[..][0..a.Length] == dat[..];
    MedianIsNth(dat[..], (dat.Length - 1) as real * 0.5);
    m := NthElement(a, 0, a.Length, (dat.Length - 1) as real * 0.5);
  }
}
