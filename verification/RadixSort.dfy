/** `mos_radixsort` of `sub_sort.c`: four stable counting passes, one byte at a time,
    over 32-bit words. */
module RadixSort {

  const BINS := 256
  const LENGTH := 4
  const WORD := 0x1_0000_0000

  /** The shift by `j` bytes, as a divisor. */
  function Base(j: nat): (b: nat)
    ensures b >= 1
  {
    if j == 0 then 1 else Base(j - 1) * BINS
  }

  function Digit(x: nat, j: nat): (d: nat)
    ensures d < BINS
  {
    x / Base(j) % BINS
  }

  predicate Words(s: seq<nat>) {
    forall i | 0 <= i < |s| :: s[i] < WORD
  }

  // ----- Filters

  /** The elements that satisfy `p`, in their order. */
  function Keep(s: seq<nat>, p: nat -> bool): (r: seq<nat>)
    ensures |r| <= |s|
  {
    if s == [] then [] else (if p(s[0]) then [s[0]] else []) + Keep(s[1..], p)
  }

  lemma {:induction false} KeepAppend(s: seq<nat>, t: seq<nat>, p: nat -> bool)
    ensures Keep(s + t, p) == Keep(s, p) + Keep(t, p)
  {
    if s == [] {
      assert s + t == t;
    } else {
      assert (s + t)[1..] == s[1..] + t;
      KeepAppend(s[1..], t, p);
      Associate(if p(s[0]) then [s[0]] else [], Keep(s[1..], p), Keep(t, p));
    }
  }

  lemma Associate(a: seq<nat>, b: seq<nat>, c: seq<nat>)
    ensures a + (b + c) == (a + b) + c
  {}

  lemma {:induction false} KeepOnly(s: seq<nat>, p: nat -> bool)
    ensures forall i | 0 <= i < |Keep(s, p)| :: p(Keep(s, p)[i]) && Keep(s, p)[i] in s
  {
    if s != [] { KeepOnly(s[1..], p); }
  }

  /** Filtering by a weaker condition first changes nothing. */
  lemma {:induction false} KeepTwice(s: seq<nat>, p: nat -> bool, q: nat -> bool)
    requires forall x :: p(x) ==> q(x)
    ensures Keep(Keep(s, q), p) == Keep(s, p)
  {
    if s != [] {
      KeepTwice(s[1..], p, q);
      KeepAppend(if q(s[0]) then [s[0]] else [], Keep(s[1..], q), p);
    }
  }

  lemma {:induction false} KeepNone(s: seq<nat>, p: nat -> bool)
    requires forall i | 0 <= i < |s| :: !p(s[i])
    ensures Keep(s, p) == []
  {
    if s != [] { KeepNone(s[1..], p); }
  }

  lemma {:induction false} KeepSame(s: seq<nat>, p: nat -> bool, q: nat -> bool)
    requires forall i | 0 <= i < |s| :: p(s[i]) == q(s[i])
    ensures Keep(s, p) == Keep(s, q)
  {
    if s != [] { KeepSame(s[1..], p, q); }
  }

  lemma {:induction false} KeepCounts(s: seq<nat>, v: nat)
    ensures |Keep(s, (x: nat) => x == v)| == multiset(s)[v]
  {
    if s != [] {
      KeepCounts(s[1..], v);
      assert s == [s[0]] + s[1..];
    }
  }

  // ----- One pass, as a function

  function Select(s: seq<nat>, j: nat, d: nat): seq<nat> {
    Keep(s, (x: nat) => Digit(x, j) == d)
  }

  /** The elements whose byte `j` is below `d`, byte by byte, each group in its old order. */
  function Gather(s: seq<nat>, j: nat, d: nat): seq<nat> {
    if d == 0 then [] else Gather(s, j, d - 1) + Select(s, j, d - 1)
  }

  /** The pass for byte `j`. */
  function Pass(s: seq<nat>, j: nat): seq<nat> {
    Gather(s, j, BINS)
  }

  /** The array after the first `j` passes. */
  function Passes(s: seq<nat>, j: nat): seq<nat> {
    if j == 0 then s else Pass(Passes(s, j - 1), j - 1)
  }

  // ----- What the passes achieve

  /** Ascending in the low bytes, `m` being the power they are counted to. */
  predicate OrderedLow(s: seq<nat>, m: nat)
    requires m >= 1
  {
    forall i, k | 0 <= i < k < |s| :: s[i] % m <= s[k] % m
  }

  /** The elements with given low bytes, in their order. */
  function Low(s: seq<nat>, m: nat, v: nat): seq<nat>
    requires m >= 1
  {
    Keep(s, (x: nat) => x % m == v)
  }

  /** Elements that agree in the low bytes keep their order. */
  ghost predicate StableLow(s: seq<nat>, t: seq<nat>, m: nat)
    requires m >= 1
  {
    forall v: nat :: Low(t, m, v) == Low(s, m, v)
  }

  /** The low j + 1 bytes are byte `j` above the low `j` ones. */
  lemma LowSplits(x: nat, j: nat)
    ensures x % Base(j + 1) == Digit(x, j) * Base(j) + x % Base(j)
  {
    hide Base;
    assert Base(j + 1) == Base(j) * BINS by { BaseStep(j); }
    SplitMod(x, Base(j), x / Base(j), x % Base(j), x / Base(j) / BINS, Digit(x, j));
  }

  lemma BaseStep(j: nat)
    ensures Base(j + 1) == Base(j) * BINS
  {}

  lemma SplitMod(x: nat, b: nat, q: nat, r: nat, q': nat, d: nat)
    requires b >= 1 && x == b * q + r && r < b && q == BINS * q' + d && d < BINS
    ensures x % (b * BINS) == d * b + r
  {
    var m := b * BINS;
    Expand(b, q, q', d, BINS, m);
    Bounded(d, b, BINS);
    ModIs(x, m, q', d * b + r);
  }

  lemma Expand(b: nat, q: nat, q': nat, d: nat, k: nat, m: nat)
    requires q == k * q' + d && m == b * k
    ensures b * q == m * q' + d * b
  {}

  lemma Bounded(d: nat, b: nat, k: nat)
    requires d < k
    ensures d * b + b <= b * k
  {
    assert (d + 1) * b <= k * b;
  }

  lemma ModIs(x: nat, m: nat, q: nat, r: nat)
    requires m >= 1 && x == m * q + r && r < m
    ensures x % m == r
  {
    var e := x / m - q;
    assert m * (x / m) + x % m == x;
    Spread(m, x / m, q, e);
    Magnitude(m, e);
  }

  lemma Spread(m: nat, a: int, b: int, e: int)
    requires e == a - b
    ensures m * e == m * a - m * b
  {}

  lemma Magnitude(m: int, e: int)
    requires m >= 1
    ensures e >= 1 ==> m * e >= m
    ensures e <= -1 ==> m * e <= -m
    ensures e == 0 ==> m * e == 0
  {}

  lemma DigitOfLow(x: nat, j: nat)
    ensures (x % Base(j + 1)) / Base(j) == Digit(x, j)
    ensures (x % Base(j + 1)) % Base(j) == x % Base(j)
  {
    hide Base;
    LowSplits(x, j);
    QuotientIs(x % Base(j + 1), Base(j), Digit(x, j), x % Base(j));
  }

  lemma QuotientIs(x: nat, m: nat, q: nat, r: nat)
    requires m >= 1 && x == q * m + r && r < m
    ensures x / m == q && x % m == r
  {
    ModIs(x, m, q, r);
    var e := x / m - q;
    Spread(m, x / m, q, e);
    Magnitude(m, e);
  }

  /** Elements that share byte `j` come out of the pass as they went in. */
  lemma {:induction false} GatherKeeps(s: seq<nat>, j: nat, d: nat, p: nat -> bool, e: nat)
    requires forall x :: p(x) ==> Digit(x, j) == e
    ensures Keep(Gather(s, j, d), p) == if e < d then Keep(s, p) else []
  {
    hide Digit, Keep;
    if d == 0 {
      KeepNone([], p);
    } else {
      GatherKeeps(s, j, d - 1, p, e);
      KeepAppend(Gather(s, j, d - 1), Select(s, j, d - 1), p);
      SelectKeeps(s, j, d - 1, p, e);
    }
  }

  lemma SelectKeeps(s: seq<nat>, j: nat, d: nat, p: nat -> bool, e: nat)
    requires forall x :: p(x) ==> Digit(x, j) == e
    ensures Keep(Select(s, j, d), p) == if e == d then Keep(s, p) else []
  {
    hide Digit, Keep;
    var q := (x: nat) => Digit(x, j) == d;
    if e == d {
      KeepTwice(s, p, q);
    } else {
      KeepOnly(s, q);
      KeepNone(Select(s, j, d), p);
    }
  }

  lemma PassPermutes(s: seq<nat>, j: nat)
    ensures multiset(Pass(s, j)) == multiset(s)
  {
    hide Digit, Gather;
    forall v: nat
      ensures multiset(Pass(s, j))[v] == multiset(s)[v]
    {
      GatherKeeps(s, j, BINS, (x: nat) => x == v, Digit(v, j));
      KeepCounts(Pass(s, j), v);
      KeepCounts(s, v);
    }
  }

  lemma PassStable(s: seq<nat>, j: nat)
    ensures StableLow(s, Pass(s, j), Base(j + 1))
  {
    hide Digit, Gather, Base;
    var m := Base(j + 1);
    forall v: nat
      ensures Low(Pass(s, j), m, v) == Low(s, m, v)
    {
      var p := (x: nat) => x % m == v;
      forall x | p(x)
        ensures Digit(x, j) == v / Base(j)
      {
        DigitOfLow(x, j);
      }
      GatherKeeps(s, j, BINS, p, v / Base(j));
      if v / Base(j) >= BINS { KeepNone(s, p); }
    }
  }

  /** Each group keeps the order on the lower bytes; the groups follow each other by byte `j`. */
  lemma {:induction false} GatherOrders(s: seq<nat>, j: nat, d: nat)
    requires OrderedLow(s, Base(j))
    ensures OrderedLow(Gather(s, j, d), Base(j + 1))
    ensures forall i | 0 <= i < |Gather(s, j, d)| :: Digit(Gather(s, j, d)[i], j) < d
  {
    hide Digit, Base;
    if d > 0 {
      GatherOrders(s, j, d - 1);
      var group := Select(s, j, d - 1);
      KeepOrders(s, Base(j), (x: nat) => Digit(x, j) == d - 1);
      KeepOnly(s, (x: nat) => Digit(x, j) == d - 1);
      OrderGroup(Gather(s, j, d - 1), group, j, d - 1);
    }
  }

  lemma {:induction false} KeepOrders(s: seq<nat>, m: nat, p: nat -> bool)
    requires m >= 1 && OrderedLow(s, m)
    ensures OrderedLow(Keep(s, p), m)
  {
    if s != [] {
      KeepOrders(s[1..], m, p);
      KeepOnly(s[1..], p);
    }
  }

  lemma OrderGroup(s: seq<nat>, group: seq<nat>, j: nat, d: nat)
    requires OrderedLow(s, Base(j + 1)) && forall i | 0 <= i < |s| :: Digit(s[i], j) < d
    requires OrderedLow(group, Base(j)) && forall i | 0 <= i < |group| :: Digit(group[i], j) == d
    ensures OrderedLow(s + group, Base(j + 1))
    ensures forall i | 0 <= i < |s + group| :: Digit((s + group)[i], j) < d + 1
  {
    hide Digit, Base;
    var t := s + group;
    forall i, k | 0 <= i < k < |t|
      ensures t[i] % Base(j + 1) <= t[k] % Base(j + 1)
    {
      if k >= |s| {
        LowSplits(t[i], j);
        LowSplits(t[k], j);
        Compare(Digit(t[i], j), d, Base(j), t[i] % Base(j), t[k] % Base(j));
      }
    }
  }

  lemma Compare(d: nat, e: nat, b: nat, r: nat, r': nat)
    requires d <= e && r < b && (d == e ==> r <= r')
    ensures d * b + r <= e * b + r'
  {
    if d < e { Bounded(d, b, e); }
  }

  /** After `j` passes the words are ordered by their low `j` bytes, words that agree
      there keep their first order, and no word is lost. */
  lemma {:induction false} PassesSort(s: seq<nat>, j: nat)
    ensures OrderedLow(Passes(s, j), Base(j))
    ensures StableLow(s, Passes(s, j), Base(j))
    ensures multiset(Passes(s, j)) == multiset(s)
  {
    hide Base, Digit, Pass;
    if j == 0 {
      assert Base(0) == 1 by { BaseZero(); }
    } else {
      var t := Passes(s, j - 1);
      PassesSort(s, j - 1);
      PassPermutes(t, j - 1);
      PassStable(t, j - 1);
      StableFiner(s, t, j - 1);
      assert OrderedLow(Pass(t, j - 1), Base(j)) by { PassOrders(t, j - 1); }
    }
  }

  lemma PassOrders(s: seq<nat>, j: nat)
    requires OrderedLow(s, Base(j))
    ensures OrderedLow(Pass(s, j), Base(j + 1))
  {
    GatherOrders(s, j, BINS);
  }

  lemma BaseZero()
    ensures Base(0) == 1
  {}

  lemma StableFiner(s: seq<nat>, t: seq<nat>, j: nat)
    requires StableLow(s, t, Base(j))
    ensures StableLow(s, t, Base(j + 1))
  {
    hide Base, Digit;
    var m := Base(j + 1);
    forall v: nat
      ensures Low(t, m, v) == Low(s, m, v)
    {
      var p := (x: nat) => x % m == v;
      var q := (x: nat) => x % Base(j) == v % Base(j);
      forall x | p(x)
        ensures q(x)
      {
        DigitOfLow(x, j);
      }
      KeepTwice(t, p, q);
      KeepTwice(s, p, q);
      assert Low(t, Base(j), v % Base(j)) == Low(s, Base(j), v % Base(j));
    }
  }

  predicate Ascending(s: seq<nat>) {
    forall i, k | 0 <= i < k < |s| :: s[i] <= s[k]
  }

  /** Four passes sort any array of 32-bit words. */
  lemma FourPassesSort(s: seq<nat>)
    requires Words(s)
    ensures Ascending(Passes(s, LENGTH)) && multiset(Passes(s, LENGTH)) == multiset(s)
  {
    hide Passes;
    PassesSort(s, LENGTH);
    var t := Passes(s, LENGTH);
    assert Base(LENGTH) == WORD by { BaseStep(0); BaseStep(1); BaseStep(2); BaseStep(3); }
    forall i | 0 <= i < |t|
      ensures t[i] < WORD
    {
      assert t[i] in multiset(s);
    }
  }

  // ----- The program

  /** The first `d` groups fill this many places. */
  function Start(s: seq<nat>, j: nat, d: nat): nat {
    |Gather(s, j, d)|
  }

  lemma {:induction false} StartsGrow(s: seq<nat>, j: nat, d: nat, e: nat)
    requires d <= e
    ensures Start(s, j, d) <= Start(s, j, e)
    ensures Start(s, j, d + 1) == Start(s, j, d) + |Select(s, j, d)|
  {
    if d < e { StartsGrow(s, j, d, e - 1); }
  }

  lemma StartOfAll(s: seq<nat>, j: nat)
    ensures Start(s, j, BINS) == |s|
  {
    PassPermutes(s, j);
    assert |multiset(Pass(s, j))| == |Pass(s, j)|;
  }

  lemma SelectSnoc(s: seq<nat>, i: nat, j: nat, d: nat)
    requires i < |s|
    ensures |Select(s[..i + 1], j, d)| == |Select(s[..i], j, d)| + (if Digit(s[i], j) == d then 1 else 0)
  {
    hide Digit;
    assert s[..i + 1] == s[..i] + [s[i]];
    KeepAppend(s[..i], [s[i]], (x: nat) => Digit(x, j) == d);
  }

  /** `memset` and the first loop: `count[d]` becomes the number of elements with byte `d`. */
  method CountDigits(a: array<nat>, count: array<int>, j: nat)
    requires count.Length == BINS + 1
    modifies count
    ensures forall d | 0 <= d < BINS :: count[d] == |Select(a[..], j, d)|
  {
    hide Digit, Select;
    forall d | 0 <= d < BINS { count[d] := 0; }
    ghost var s := a[..];
    forall d: nat ensures |Select(s[..0], j, d)| == 0 { SelectNone(j, d); }
    for i := 0 to a.Length
      invariant forall d | 0 <= d < BINS :: count[d] == |Select(s[..i], j, d)|
    {
      forall d: nat
        ensures |Select(s[..i + 1], j, d)| == |Select(s[..i], j, d)| + (if Digit(s[i], j) == d then 1 else 0)
      {
        SelectSnoc(s, i, j, d);
      }
      count[Digit(a[i], j)] := count[Digit(a[i], j)] + 1;
    }
    assert s[..a.Length] == a[..];
  }

  lemma SelectNone(j: nat, d: nat)
    ensures Select([], j, d) == []
  {}

  /** The second loop: `count[d]` becomes the end of group `d`. */
  method AddUp(count: array<int>, ghost s: seq<nat>, j: nat)
    requires count.Length == BINS + 1
    requires forall d | 0 <= d < BINS :: count[d] == |Select(s, j, d)|
    modifies count
    ensures forall d | 0 <= d < BINS :: count[d] == Start(s, j, d + 1)
  {
    hide Select;
    StartsGrow(s, j, 0, 0);
    for i := 1 to BINS + 1
      invariant forall d: nat | d < i && d < BINS :: count[d] == Start(s, j, d + 1)
      invariant forall d | i <= d < BINS :: count[d] == |Select(s, j, d)|
    {
      StartsGrow(s, j, i, i);
      count[i] := count[i] + count[i - 1];
    }
  }

  /** With the elements from `i` on placed, each group's tail is in its place and `c`
      points at it. */
  predicate Placed(s: seq<nat>, w: seq<nat>, c: seq<int>, i: nat, j: nat)
    requires i <= |s|
  {
    && |w| == |s| && |c| == BINS + 1
    && (forall d: nat | d < BINS :: TailPlaced(s, w, c[d], i, j, d))
  }

  predicate TailPlaced(s: seq<nat>, w: seq<nat>, at: int, i: nat, j: nat, d: nat)
    requires i <= |s|
  {
    && 0 <= at <= Start(s, j, d + 1) <= |w|
    && w[at..Start(s, j, d + 1)] == Select(s[i..], j, d)
  }

  lemma TailBounds(s: seq<nat>, w: seq<nat>, at: int, i: nat, j: nat, d: nat)
    requires i <= |s| && TailPlaced(s, w, at, i, j, d)
    ensures at >= Start(s, j, d)
    ensures i > 0 && Digit(s[i - 1], j) == d ==> at > Start(s, j, d)
  {
    StartsGrow(s, j, d, d);
    assert s == s[..i] + s[i..];
    KeepAppend(s[..i], s[i..], (x: nat) => Digit(x, j) == d);
    if i > 0 { SelectSnoc(s, i - 1, j, d); }
  }

  lemma SelectCons(s: seq<nat>, i: nat, j: nat, d: nat)
    requires i < |s|
    ensures Select(s[i..], j, d) == (if Digit(s[i], j) == d then [s[i]] else []) + Select(s[i + 1..], j, d)
  {
    assert s[i..][1..] == s[i + 1..];
  }

  lemma PlaceStep(s: seq<nat>, w: seq<nat>, c: seq<int>, i: nat, j: nat)
    requires i < |s| && Placed(s, w, c, i + 1, j)
    ensures var at := c[Digit(s[i], j)] - 1;
            0 <= at < |w| && Placed(s, w[at := s[i]], c[Digit(s[i], j) := at], i, j)
  {
    hide Digit, Select, Start, TailPlaced;
    var e := Digit(s[i], j);
    var at := c[e] - 1;
    assert TailPlaced(s, w, c[e], i + 1, j, e);
    AtInRange(s, w, c[e], i, j);
    forall d: nat | d < BINS
      ensures TailPlaced(s, w[at := s[i]], if d == e then at else c[d], i, j, d)
    {
      assert TailPlaced(s, w, c[d], i + 1, j, d);
      TailStep(s, w, c[d], at, i, j, d);
    }
  }

  lemma AtInRange(s: seq<nat>, w: seq<nat>, at: int, i: nat, j: nat)
    requires i < |s| && TailPlaced(s, w, at, i + 1, j, Digit(s[i], j))
    ensures Start(s, j, Digit(s[i], j)) <= at - 1 < Start(s, j, Digit(s[i], j) + 1) && at - 1 < |w|
  {
    TailBounds(s, w, at, i + 1, j, Digit(s[i], j));
  }

  lemma TailStep(s: seq<nat>, w: seq<nat>, end: int, at: int, i: nat, j: nat, d: nat)
    requires i < |s| && TailPlaced(s, w, end, i + 1, j, d)
    requires Start(s, j, Digit(s[i], j)) <= at < Start(s, j, Digit(s[i], j) + 1) && 0 <= at < |w|
    requires Digit(s[i], j) == d ==> at == end - 1
    ensures TailPlaced(s, w[at := s[i]], if Digit(s[i], j) == d then at else end, i, j, d)
  {
    hide Digit, Select, Start;
    SelectCons(s, i, j, d);
    TailBounds(s, w, end, i + 1, j, d);
    if d < Digit(s[i], j) {
      StartsGrow(s, j, d + 1, Digit(s[i], j));
    } else if d > Digit(s[i], j) {
      StartsGrow(s, j, Digit(s[i], j) + 1, d);
    }
  }

  lemma {:induction false} PlacedIsGathered(s: seq<nat>, w: seq<nat>, c: seq<int>, j: nat, d: nat)
    requires Placed(s, w, c, 0, j) && d <= BINS
    ensures Start(s, j, d) <= |w| && w[..Start(s, j, d)] == Gather(s, j, d)
  {
    hide Select;
    if d > 0 {
      PlacedIsGathered(s, w, c, j, d - 1);
      assert TailPlaced(s, w, c[d - 1], 0, j, d - 1);
      TailBounds(s, w, c[d - 1], 0, j, d - 1);
      StartsGrow(s, j, d - 1, d - 1);
      assert s[0..] == s;
      Glue(w, Start(s, j, d - 1), Start(s, j, d), c[d - 1]);
    }
  }

  lemma Glue(w: seq<nat>, a: nat, b: nat, c: int)
    requires a <= b <= |w| && a <= c <= b
    ensures |w[c..b]| == b - a ==> w[..b] == w[..a] + w[c..b]
  {}

  /** The third loop: the elements are placed from the last one back. */
  method Place(a: array<nat>, work: array<nat>, count: array<int>, j: nat)
    requires work.Length == a.Length && count.Length == BINS + 1 && work != a
    requires forall d | 0 <= d < BINS :: count[d] == Start(a[..], j, d + 1)
    modifies work, count
    ensures work[..] == Pass(a[..], j)
  {
    hide Digit, Placed, Start, Gather;
    ghost var s := a[..];
    assert Placed(s, work[..], count[..], a.Length, j) by { NothingPlaced(s, work[..], count[..], j); }
    for i := a.Length downto 0
      invariant Placed(s, work[..], count[..], i, j)
    {
      PlaceStep(s, work[..], count[..], i, j);
      count[Digit(a[i], j)] := count[Digit(a[i], j)] - 1;
      work[count[Digit(a[i], j)]] := a[i];
    }
    PlacedIsGathered(s, work[..], count[..], j, BINS);
    StartOfAll(s, j);
    assert work[..][..Start(s, j, BINS)] == work[..];
  }

  lemma NothingPlaced(s: seq<nat>, w: seq<nat>, c: seq<int>, j: nat)
    requires |w| == |s| && |c| == BINS + 1
    requires forall d | 0 <= d < BINS :: c[d] == Start(s, j, d + 1)
    ensures Placed(s, w, c, |s|, j)
  {
    hide Select, Start;
    StartOfAll(s, j);
    assert s[|s|..] == [];
    forall d: nat | d < BINS
      ensures TailPlaced(s, w, c[d], |s|, j, d)
    {
      StartsGrow(s, j, d + 1, BINS);
      SelectNone(j, d);
      assert w[c[d]..Start(s, j, d + 1)] == [];
    }
  }

  /** `mos_radixsort`. `count` is the routine's static buffer; its last cell is never
      cleared, and its contents do not matter. */
  method MosRadixSort(a: array<nat>, count: array<int>)
    requires Words(a[..]) && count.Length == BINS + 1
    modifies a, count
    ensures a[..] == Passes(old(a[..]), LENGTH)
    ensures Ascending(a[..]) && multiset(a[..]) == multiset(old(a[..]))
  {
    hide Pass;
    var work := new nat[a.Length];
    FourPassesSort(a[..]);
    for j := 0 to LENGTH
      invariant a[..] == Passes(old(a[..]), j)
      invariant fresh(work)
    {
      CountDigits(a, count, j);
      AddUp(count, a[..], j);
      Place(a, work, count, j);
      forall i | 0 <= i < a.Length { a[i] := work[i]; }
      assert a[..] == work[..];
    }
  }
}
