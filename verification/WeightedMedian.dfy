/** `floatweightedmedian` of `sub_stat.c`. */
module WeightedMedian {
  import opened Heapsort
  import opened Sequences
  import Quickselect

  /** A value and its weight. */
  type Datum = Item<real>

  /** The weight of the data that satisfy `p`. */
  function Weight(s: seq<Datum>, p: real -> bool): real {
    if s == [] then 0.0
    else Weight(s[..|s| - 1], p) + (if p(s[|s| - 1].key) then s[|s| - 1].val else 0.0)
  }

  function Below(s: seq<Datum>, v: real): real {
    Weight(s, (x: real) => x < v)
  }

  function Above(s: seq<Datum>, v: real): real {
    Weight(s, (x: real) => x > v)
  }

  function Total(s: seq<Datum>): real {
    Weight(s, (x: real) => true)
  }

  predicate NonNegative(s: seq<Datum>) {
    forall i | 0 <= i < |s| :: s[i].val >= 0.0
  }

  /** At most half the weight lies strictly below `v`, and at most half strictly above. */
  predicate IsMedian(s: seq<Datum>, v: real) {
    2.0 * Below(s, v) <= Total(s) && 2.0 * Above(s, v) <= Total(s)
  }

  lemma {:induction false} WeightAppend(s: seq<Datum>, t: seq<Datum>, p: real -> bool)
    ensures Weight(s + t, p) == Weight(s, p) + Weight(t, p)
  {
    if t == [] {
      assert s + t == s;
    } else {
      assert (s + t)[..|s + t| - 1] == s + t[..|t| - 1];
      WeightAppend(s, t[..|t| - 1], p);
    }
  }

  /** The order of the data does not matter. */
  lemma {:induction false} WeightPermutes(s: seq<Datum>, t: seq<Datum>, p: real -> bool)
    requires multiset(s) == multiset(t)
    ensures Weight(s, p) == Weight(t, p)
  {
    SameLength(s, t);
    if s == [] {
    } else {
      var n := |s| - 1;
      var k := RemoveLast(s, t);
      WeightPermutes(s[..n], t[..k] + t[k + 1..], p);
      WeightWithout(s, n, p);
      WeightWithout(t, k, p);
      assert s[..n] + s[n + 1..] == s[..n];
    }
  }

  lemma WeightWithout(t: seq<Datum>, k: nat, p: real -> bool)
    requires k < |t|
    ensures Weight(t, p) == Weight(t[..k] + t[k + 1..], p) + Weight([t[k]], p)
  {
    WithoutOne(t, k);
    WeightAppend(t[..k], t[k + 1..], p);
    WeightAppend(t[..k] + [t[k]], t[k + 1..], p);
    WeightAppend(t[..k], [t[k]], p);
  }

  /** Nothing weighs more than everything. */
  lemma {:induction false} WeightBounded(s: seq<Datum>, p: real -> bool)
    requires NonNegative(s)
    ensures 0.0 <= Weight(s, p) <= Total(s)
  {
    if s != [] { WeightBounded(s[..|s| - 1], p); }
  }

  lemma {:induction false} WeightOfNone(s: seq<Datum>, p: real -> bool)
    requires forall i | 0 <= i < |s| :: !p(s[i].key)
    ensures Weight(s, p) == 0.0
  {
    if s != [] { WeightOfNone(s[..|s| - 1], p); }
  }

  /** In ascending data cut at `i`, only the first part can lie below a value that the
      second part reaches, and only the second part above a value that the first does not pass. */
  lemma CutWeights(s: seq<Datum>, i: nat, v: real)
    requires Ascending(s) && NonNegative(s) && i <= |s|
    ensures (forall k | i <= k < |s| :: v <= s[k].key) ==> Below(s, v) <= Total(s[..i])
    ensures (forall k | 0 <= k < i :: s[k].key <= v) ==> Above(s, v) <= Total(s) - Total(s[..i])
  {
    assert s == s[..i] + s[i..];
    var less, more, all := (x: real) => x < v, (x: real) => x > v, (x: real) => true;
    WeightAppend(s[..i], s[i..], less);
    WeightAppend(s[..i], s[i..], more);
    WeightAppend(s[..i], s[i..], all);
    WeightBounded(s[..i], less);
    WeightBounded(s[i..], more);
    if forall k | i <= k < |s| :: v <= s[k].key { WeightOfNone(s[i..], less); }
    if forall k | 0 <= k < i :: s[k].key <= v { WeightOfNone(s[..i], more); }
  }

  lemma TotalSnoc(s: seq<Datum>, i: nat)
    requires i < |s|
    ensures Total(s[..i + 1]) == Total(s[..i]) + s[i].val
  {
    assert s[..i + 1][..i] == s[..i];
  }

  lemma PrefixTotal(s: seq<Datum>, i: nat)
    requires NonNegative(s) && i <= |s|
    ensures Total(s[..i]) <= Total(s)
  {
    assert s == s[..i] + s[i..];
    WeightAppend(s[..i], s[i..], (x: real) => true);
    WeightBounded(s[i..], (x: real) => true);
  }

  /** A median of the sorted data is one of the data as they were given. */
  lemma MedianOfSorted(s: seq<Datum>, t: seq<Datum>, v: real)
    requires multiset(s) == multiset(t)
    ensures IsMedian(s, v) == IsMedian(t, v)
  {
    WeightPermutes(s, t, (x: real) => x < v);
    WeightPermutes(s, t, (x: real) => x > v);
    WeightPermutes(s, t, (x: real) => true);
  }

  lemma NonNegativePermutes(s: seq<Datum>, t: seq<Datum>)
    requires multiset(s) == multiset(t) && NonNegative(s)
    ensures NonNegative(t)
  {
    forall i | 0 <= i < |t|
      ensures t[i].val >= 0.0
    {
      assert t[i] in multiset(s);
    }
  }

  /** Where the running sum first reaches half the weight: the value there is a median, and on
      an exact half so is the middle of it and the next one. */
  lemma StopsAtMedian(s: seq<Datum>, i: nat, before: real, sw: real, mw: real)
    requires Ascending(s) && NonNegative(s) && i < |s|
    requires before == Total(s[..i]) && sw == Total(s[..i + 1]) && mw == 0.5 * Total(s)
    requires before <= mw
    ensures sw > mw ==> IsMedian(s, s[i].key)
    ensures sw == mw && i + 1 < |s| ==> IsMedian(s, 0.5 * (s[i].key + s[i + 1].key))
  {
    hide Weight;
    if sw > mw {
      CutWeights(s, i, s[i].key);
      CutWeights(s, i + 1, s[i].key);
    } else if sw == mw && i + 1 < |s| {
      CutWeights(s, i + 1, 0.5 * (s[i].key + s[i + 1].key));
    }
  }

  // ----- Which of the medians is returned

  function AtMost(s: seq<Datum>, v: real): real {
    Weight(s, (x: real) => x <= v)
  }

  predicate HasKey(s: seq<Datum>, v: real) {
    exists i :: 0 <= i < |s| && s[i].key == v
  }

  /** The smallest value at or below which half the weight lies. */
  ghost predicate HalfPoint(s: seq<Datum>, a: real) {
    HasKey(s, a) && 2.0 * AtMost(s, a) >= Total(s) && forall x | HasKey(s, x) && x < a :: 2.0 * AtMost(s, x) < Total(s)
  }

  /** The next larger value. */
  ghost predicate NextKey(s: seq<Datum>, a: real, b: real) {
    HasKey(s, b) && a < b && forall x | HasKey(s, x) && x > a :: b <= x
  }

  /** The half point; or, if exactly half the weight lies at or below it, the mean of it and the next
      value. A datum without weight at the half point may hide the next value. */
  ghost predicate IsAnswer(s: seq<Datum>, v: real) {
    exists a :: HalfPoint(s, a)
      && (2.0 * AtMost(s, a) > Total(s) ==> v == a)
      && (2.0 * AtMost(s, a) == Total(s) ==>
            (exists b :: NextKey(s, a, b) && 2.0 * v == a + b) || (v == a && Item(a, 0.0) in s))
  }

  predicate Positive(s: seq<Datum>) {
    forall i | 0 <= i < |s| :: s[i].val > 0.0
  }

  /** With positive weights there is one answer: the half point, or the mean of the two values
      between which the weight is cut in half. */
  lemma AnswerIsUnique(s: seq<Datum>, v: real, v': real)
    requires Positive(s) && IsAnswer(s, v) && IsAnswer(s, v')
    ensures v == v'
  {
    hide Weight;
    var a :| HalfPoint(s, a) && (2.0 * AtMost(s, a) > Total(s) ==> v == a)
             && (2.0 * AtMost(s, a) == Total(s) ==>
                   (exists b :: NextKey(s, a, b) && 2.0 * v == a + b) || (v == a && Item(a, 0.0) in s));
    var a' :| HalfPoint(s, a') && (2.0 * AtMost(s, a') > Total(s) ==> v' == a')
              && (2.0 * AtMost(s, a') == Total(s) ==>
                    (exists b :: NextKey(s, a', b) && 2.0 * v' == a' + b) || (v' == a' && Item(a', 0.0) in s));
    assert a == a';
  }

  /** Where the next value is `b`, the rest of the weight lies at or above it. */
  lemma {:induction false} HalfAbove(s: seq<Datum>, t: seq<Datum>, a: real, b: real)
    requires NextKey(s, a, b) && forall i | 0 <= i < |t| :: t[i] in s
    ensures Weight(t, (x: real) => x >= b) == Total(t) - AtMost(t, a)
  {
    if t != [] {
      var last := t[|t| - 1];
      HalfAbove(s, t[..|t| - 1], a, b);
      var i :| 0 <= i < |s| && s[i] == last;
      assert HasKey(s, last.key);
    }
  }

  /** In ascending data cut at `i`. */
  lemma CutAtMost(s: seq<Datum>, i: nat, v: real)
    requires NonNegative(s) && i <= |s|
    ensures (forall k | 0 <= k < i :: s[k].key <= v) ==> AtMost(s, v) >= Total(s[..i])
    ensures (forall k | i <= k < |s| :: s[k].key > v) ==> AtMost(s, v) <= Total(s[..i])
  {
    assert s == s[..i] + s[i..];
    var low := (x: real) => x <= v;
    WeightAppend(s[..i], s[i..], low);
    WeightBounded(s[..i], low);
    WeightBounded(s[i..], low);
    if forall k | 0 <= k < i :: s[k].key <= v { WeightOfAll(s[..i], low); }
    if forall k | i <= k < |s| :: s[k].key > v { WeightOfNone(s[i..], low); }
  }

  lemma {:induction false} WeightOfAll(s: seq<Datum>, p: real -> bool)
    requires forall i | 0 <= i < |s| :: p(s[i].key)
    ensures Weight(s, p) == Total(s)
  {
    if s != [] { WeightOfAll(s[..|s| - 1], p); }
  }

  /** The stopping place is at the half point. */
  lemma StopsAtHalf(s: seq<Datum>, i: nat)
    requires Ascending(s) && NonNegative(s) && i < |s|
    requires i > 0 ==> 2.0 * Total(s[..i]) < Total(s)
    requires 2.0 * Total(s[..i + 1]) >= Total(s)
    ensures HalfPoint(s, s[i].key) && AtMost(s, s[i].key) >= Total(s[..i + 1])
  {
    hide Weight;
    CutAtMost(s, i + 1, s[i].key);
    forall x | HasKey(s, x) && x < s[i].key
      ensures 2.0 * AtMost(s, x) < Total(s)
    {
      var k :| 0 <= k < |s| && s[k].key == x;
      assert k < i;
      CutAtMost(s, i, x);
    }
  }

  /** On an exact half, the next datum decides. */
  lemma StopsBetween(s: seq<Datum>, i: nat)
    requires Ascending(s) && NonNegative(s) && i + 1 < |s|
    requires 2.0 * Total(s[..i + 1]) == Total(s)
    ensures s[i].key < s[i + 1].key ==> NextKey(s, s[i].key, s[i + 1].key) && 2.0 * AtMost(s, s[i].key) == Total(s)
    ensures s[i].key == s[i + 1].key ==> 2.0 * AtMost(s, s[i].key) > Total(s) || s[i + 1] == Item(s[i].key, 0.0)
  {
    hide Weight;
    var a := s[i].key;
    CutAtMost(s, i + 1, a);
    if a < s[i + 1].key {
      assert HasKey(s, s[i + 1].key);
    } else {
      CutAtMost(s, i + 2, a);
      TotalSnoc(s, i + 1);
    }
  }

  /** What the loop returns there. */
  lemma StopsAtAnswer(s: seq<Datum>, i: nat)
    requires Ascending(s) && NonNegative(s) && i < |s|
    requires i > 0 ==> 2.0 * Total(s[..i]) < Total(s)
    ensures 2.0 * Total(s[..i + 1]) > Total(s) ==> IsAnswer(s, s[i].key)
    ensures 2.0 * Total(s[..i + 1]) == Total(s) && i + 1 < |s| ==> IsAnswer(s, 0.5 * (s[i].key + s[i + 1].key))
  {
    var a := s[i].key;
    if 2.0 * Total(s[..i + 1]) >= Total(s) {
      StopsAtHalf(s, i);
      hide Weight, HalfPoint, NextKey;
      if 2.0 * Total(s[..i + 1]) == Total(s) && i + 1 < |s| {
        StopsBetween(s, i);
        assert s[i + 1] in s && a <= s[i + 1].key;
      }
    }
  }

  /** The answer does not depend on the order of the data. */
  lemma AnswerPermutes(s: seq<Datum>, t: seq<Datum>, v: real)
    requires multiset(s) == multiset(t) && IsAnswer(s, v)
    ensures IsAnswer(t, v)
  {
    WeightPermutes(s, t, (x: real) => true);
    forall x
      ensures AtMost(s, x) == AtMost(t, x) && (HasKey(s, x) <==> HasKey(t, x))
    {
      WeightPermutes(s, t, (y: real) => y <= x);
      KeyPermutes(s, t, x);
      KeyPermutes(t, s, x);
    }
    hide Weight, HasKey;
    var a :| HalfPoint(s, a) && (2.0 * AtMost(s, a) > Total(s) ==> v == a)
             && (2.0 * AtMost(s, a) == Total(s) ==>
                   (exists b :: NextKey(s, a, b) && 2.0 * v == a + b) || (v == a && Item(a, 0.0) in s));
    assert HalfPoint(t, a);
    if exists b :: NextKey(s, a, b) && 2.0 * v == a + b {
      var b :| NextKey(s, a, b) && 2.0 * v == a + b;
      assert NextKey(t, a, b);
    }
    if Item(a, 0.0) in s { assert Item(a, 0.0) in multiset(t); }
  }

  lemma KeyPermutes(s: seq<Datum>, t: seq<Datum>, x: real)
    requires multiset(s) == multiset(t)
    ensures HasKey(s, x) ==> HasKey(t, x)
  {
    if HasKey(s, x) {
      var i :| 0 <= i < |s| && s[i].key == x;
      assert s[i] in multiset(t);
      var k :| 0 <= k < |t| && t[k] == s[i];
    }
  }

  // ----- Equal weights

  predicate AllWeigh(s: seq<Datum>, w: real) {
    forall i | 0 <= i < |s| :: s[i].val == w
  }

  lemma {:induction false} EqualTotal(s: seq<Datum>, w: real)
    requires AllWeigh(s, w)
    ensures Total(s) == |s| as real * w
  {
    if s != [] { EqualTotal(s[..|s| - 1], w); }
  }

  function Keys(s: seq<Datum>): (r: seq<real>)
    ensures |r| == |s| && forall i | 0 <= i < |s| :: r[i] == s[i].key
  {
    seq(|s|, i requires 0 <= i < |s| => s[i].key)
  }

  lemma {:induction false} KeysPermute(s: seq<Datum>, t: seq<Datum>)
    requires multiset(s) == multiset(t)
    ensures multiset(Keys(s)) == multiset(Keys(t))
  {
    SameLength(s, t);
    if s == [] {
      assert Keys(s) == Keys(t);
    } else {
      var n := |s| - 1;
      var k := RemoveLast(s, t);
      KeysPermute(s[..n], t[..k] + t[k + 1..]);
      assert Keys(s) == Keys(s[..n]) + [s[n].key];
      assert Keys(t[..k] + t[k + 1..]) == Keys(t)[..k] + Keys(t)[k + 1..];
      WithoutOne(Keys(t), k);
    }
  }

  lemma HalfOfMany(i: int, n: int, w: real, x: real, y: real)
    requires w > 0.0 && x == i as real * w && y == n as real * w
    ensures 2.0 * x < y <==> 2 * i < n
    ensures 2.0 * x == y <==> 2 * i == n
  {
    var d := (n - 2 * i) as real;
    assert y - 2.0 * x == d * w;
    if d > 0.0 { assert d * w > 0.0; }
    if d < 0.0 { assert d * w < 0.0; }
  }

  /** With equal weights, the loop stops in the middle. */
  lemma EqualStops(given: seq<Datum>, s: seq<Datum>, i: nat, w: real)
    requires multiset(given) == multiset(s) && Ascending(s) && i < |s| && AllWeigh(given, w) && w > 0.0
    requires i > 0 ==> 2.0 * Total(s[..i]) < Total(s)
    ensures 2.0 * Total(s[..i + 1]) > Total(s) ==> s[i].key == Quickselect.Median(Keys(given))
    ensures 2.0 * Total(s[..i + 1]) == Total(s) ==>
              i + 1 < |s| && 0.5 * (s[i].key + s[i + 1].key) == Quickselect.Median(Keys(given))
  {
    hide Weight, Total, Quickselect.Sort;
    SortedKeys(given, s);
    EqualWeighs(given, s, w);
    EqualTotal(s, w);
    EqualTotal(s[..i], w);
    EqualTotal(s[..i + 1], w);
    hide AllWeigh, Ascending;
    HalfOfMany(i, |s|, w, Total(s[..i]), Total(s));
    HalfOfMany(i + 1, |s|, w, Total(s[..i + 1]), Total(s));
  }

  lemma EqualWeighs(given: seq<Datum>, s: seq<Datum>, w: real)
    requires multiset(given) == multiset(s) && AllWeigh(given, w)
    ensures AllWeigh(s, w)
  {
    forall k | 0 <= k < |s| ensures s[k].val == w { assert s[k] in multiset(given); }
  }

  lemma SortedKeys(given: seq<Datum>, s: seq<Datum>)
    requires multiset(given) == multiset(s) && Ascending(s)
    ensures Quickselect.Sort(Keys(given)) == Keys(s) && |given| == |s|
  {
    hide Quickselect.Sort;
    KeysPermute(given, s);
    SameLength(given, s);
    assert Quickselect.Ascending(Keys(s));
    Quickselect.AscendingUnique(Quickselect.Sort(Keys(given)), Keys(s));
  }

  /** `floatweightedmedian`. The two arrays are copied and the copies sorted; no index
      leaves the data, whatever the weights' sum. Without data the answer is 0. */
  method FloatWeightedMedian(dat: array<real>, weight: array<real>) returns (med: real)
    requires dat.Length == weight.Length && NonNegative(Zip(dat[..], weight[..]))
    ensures dat.Length > 0 ==> IsMedian(Zip(dat[..], weight[..]), med) && IsAnswer(Zip(dat[..], weight[..]), med)
    ensures dat.Length > 0 ==> forall w | w > 0.0 && AllWeigh(Zip(dat[..], weight[..]), w) :: med == Quickselect.Median(dat[..])
    ensures dat.Length == 0 ==> med == 0.0
  {
    hide Weight, Ascending, HeapSorted, Zip, IsMedian, NonNegative, IsAnswer, Quickselect.Median, AllWeigh;
    var ndat := dat.Length;
    ghost var given := Zip(dat[..], weight[..]);
    ZipAt(dat[..], weight[..]);
    if ndat == 1 {
      StopsAtMedianOfOne(given);
      assert Keys(given) == dat[..];
      return dat[0];
    }
    var a, w := new real[ndat], new real[ndat];
    forall i | 0 <= i < ndat { a[i] := dat[i]; }
    forall i | 0 <= i < ndat { w[i] := weight[i]; }
    assert a[..] == dat[..] && w[..] == weight[..];
    assert Zip(a[..], w[..]) == given;
    Heapsort2(a, w);
    ghost var s := Zip(a[..], w[..]);
    ZipAt(a[..], w[..]);
    NonNegativePermutes(given, s);
    var sw := 0.0;
    assert Total(s[..0]) == 0.0 by { TotalOfNone(); }
    for i := 0 to ndat
      invariant Zip(a[..], w[..]) == s && sw == Total(s[..i])
    {
      ZipAt(a[..], w[..]);
      TotalSnoc(s, i);
      sw := sw + w[i];
    }
    assert s[..ndat] == s;
    var mw := 0.5 * sw;
    PrefixTotal(s, 0);
    if ndat > 0 { WeightBounded(s, (x: real) => true); }
    sw := 0.0;
    med := 0.0;
    for i := 0 to ndat
      invariant Zip(a[..], w[..]) == s && sw == Total(s[..i]) && sw <= mw && (i > 0 ==> sw < mw)
    {
      ZipAt(a[..], w[..]);
      TotalSnoc(s, i);
      assert i > 0 ==> 2.0 * Total(s[..i]) < Total(s);
      sw := sw + w[i];
      if sw > mw {
        StopsAtFirst(given, s, i);
        assert Keys(given) == dat[..];
        return a[i];
      } else if sw == mw {
        HalfIsNotLast(s, i, mw);
        StopsBetweenTwo(given, s, i);
        assert Keys(given) == dat[..];
        return 0.5 * (a[i] + a[i + 1]);
      }
    }
  }

  /** All that is known of the value where the sum passes the half. */
  lemma StopsAtFirst(given: seq<Datum>, s: seq<Datum>, i: nat)
    requires multiset(given) == multiset(s) && Ascending(s) && NonNegative(s) && i < |s|
    requires (i > 0 ==> 2.0 * Total(s[..i]) < Total(s)) && 2.0 * Total(s[..i + 1]) > Total(s)
    ensures IsMedian(given, s[i].key) && IsAnswer(given, s[i].key)
    ensures forall w | w > 0.0 && AllWeigh(given, w) :: s[i].key == Quickselect.Median(Keys(given))
  {
    Start(s, i);
    StopsAtMedian(s, i, Total(s[..i]), Total(s[..i + 1]), 0.5 * Total(s));
    MedianOfSorted(given, s, s[i].key);
    StopsAtAnswer(s, i);
    AnswerPermutes(s, given, s[i].key);
    forall w | w > 0.0 && AllWeigh(given, w)
      ensures s[i].key == Quickselect.Median(Keys(given))
    {
      EqualStops(given, s, i, w);
    }
  }

  lemma StopsBetweenTwo(given: seq<Datum>, s: seq<Datum>, i: nat)
    requires multiset(given) == multiset(s) && Ascending(s) && NonNegative(s) && i + 1 < |s|
    requires (i > 0 ==> 2.0 * Total(s[..i]) < Total(s)) && 2.0 * Total(s[..i + 1]) == Total(s)
    ensures var v := 0.5 * (s[i].key + s[i + 1].key);
      && IsMedian(given, v) && IsAnswer(given, v)
      && forall w | w > 0.0 && AllWeigh(given, w) :: v == Quickselect.Median(Keys(given))
  {
    var v := 0.5 * (s[i].key + s[i + 1].key);
    Start(s, i);
    StopsAtMedian(s, i, Total(s[..i]), Total(s[..i + 1]), 0.5 * Total(s));
    MedianOfSorted(given, s, v);
    StopsAtAnswer(s, i);
    AnswerPermutes(s, given, v);
    forall w | w > 0.0 && AllWeigh(given, w)
      ensures v == Quickselect.Median(Keys(given))
    {
      EqualStops(given, s, i, w);
    }
  }

  /** Before the first datum, nothing is summed. */
  lemma Start(s: seq<Datum>, i: nat)
    requires NonNegative(s) && i < |s| && (i > 0 ==> 2.0 * Total(s[..i]) < Total(s))
    ensures Total(s[..i]) <= 0.5 * Total(s)
  {
    WeightBounded(s, (x: real) => true);
    if i == 0 { TotalOfNone(); }
  }

  /** Half the weight is never reached exactly at the last of several data. */
  lemma HalfIsNotLast(s: seq<Datum>, i: nat, mw: real)
    requires NonNegative(s) && i < |s| && |s| != 1
    requires Total(s[..i + 1]) == mw == 0.5 * Total(s) && (i > 0 ==> Total(s[..i]) < mw)
    ensures i + 1 < |s|
  {
    hide Weight;
    if i + 1 == |s| {
      assert s[..i + 1] == s;
      NonNegativePrefix(s, i);
      WeightBounded(s[..i], (x: real) => true);
    }
  }

  lemma NonNegativePrefix(s: seq<Datum>, i: nat)
    requires NonNegative(s) && i <= |s|
    ensures NonNegative(s[..i])
  {}

  lemma TotalOfNone()
    ensures Total([]) == 0.0
  {}

  lemma StopsAtMedianOfOne(s: seq<Datum>)
    requires |s| == 1 && NonNegative(s)
    ensures IsMedian(s, s[0].key) && IsAnswer(s, s[0].key) && s[0].key == Quickselect.Median(Keys(s))
  {
    CutWeights(s, 0, s[0].key);
    CutWeights(s, 1, s[0].key);
    assert s[..1] == s && s[..0] == [];
    WeightBounded(s, (x: real) => true);
    StopsAtHalf(s, 0);
    Quickselect.SortOne(Keys(s));
    hide Weight, HalfPoint;
    if 2.0 * AtMost(s, s[0].key) == Total(s) {
      WeightOfAll(s, (x: real) => x <= s[0].key);
      TotalSnoc(s, 0);
      TotalOfNone();
      assert s[0] == Item(s[0].key, 0.0) && s[0] in s;
    }
  }
}
