/** `heapsort2` of `sub_sort.c` and `heapsort2id` of `sub_sortd.c`: the same heapsort of an
    array of keys that carries a second array along, in place. */
module Heapsort {
  import opened Sequences

  datatype Item<V> = Item(key: real, val: V)

  function Zip<V>(key: seq<real>, val: seq<V>): (r: seq<Item<V>>)
    requires |key| == |val|
    ensures |r| == |key|
    ensures forall i | 0 <= i < |key| :: r[i] == Item(key[i], val[i])
  {
    seq(|key|, i requires 0 <= i < |key| => Item(key[i], val[i]))
  }

  /** The larger child of `i` among the first `n` items; the left one on a tie. */
  function LargerChild<V>(s: seq<Item<V>>, i: nat, n: nat): (j: nat)
    requires 2 * i + 1 < n <= |s|
    ensures i < j < n
  {
    if 2 * i + 2 < n && s[2 * i + 1].key < s[2 * i + 2].key then 2 * i + 2 else 2 * i + 1
  }

  /** Moves the item at `i` down until neither child is larger. */
  function Sift<V>(s: seq<Item<V>>, i: nat, n: nat): (r: seq<Item<V>>)
    requires i < |s| && n <= |s|
    ensures |r| == |s|
    decreases n - i
  {
    if 2 * i + 1 >= n then s
    else
      var j := LargerChild(s, i, n);
      if s[i].key >= s[j].key then s else Sift(Swapped(s, i, j), j, n)
  }

  /** The first loop: the heap grows down from the middle to the root, `k` nodes still to go. */
  function Heapify<V>(s: seq<Item<V>>, k: nat): (r: seq<Item<V>>)
    requires k <= |s|
    ensures |r| == |s|
    decreases k
  {
    if k == 0 then s else Heapify(Sift(s, k - 1, |s|), k - 1)
  }

  /** The second loop: the root goes behind the shrinking heap of `n` items. */
  function Unload<V>(s: seq<Item<V>>, n: nat): (r: seq<Item<V>>)
    requires n <= |s|
    ensures |r| == |s|
    decreases n
  {
    if n == 0 then s else Unload(Sift(Swapped(s, 0, n - 1), 0, n - 1), n - 1)
  }

  function HeapSorted<V>(s: seq<Item<V>>): (r: seq<Item<V>>)
    ensures |r| == |s|
  {
    Unload(Heapify(s, |s| / 2), |s|)
  }

  // ----- What they achieve

  predicate Ascending<V>(s: seq<Item<V>>) {
    forall i, j | 0 <= i < j < |s| :: s[i].key <= s[j].key
  }

  predicate Child(p: int, c: int) {
    0 <= p && (c == 2 * p + 1 || c == 2 * p + 2)
  }

  /** From node `k` on, no child among the first `n` is larger than its parent, leaving
      aside the children of `hole`. */
  predicate HeapBut<V>(s: seq<Item<V>>, k: nat, n: nat, hole: int)
    requires n <= |s|
  {
    forall p, c | k <= p < c < n && Child(p, c) && p != hole :: s[p].key >= s[c].key
  }

  predicate Heap<V>(s: seq<Item<V>>, k: nat, n: nat)
    requires n <= |s|
  {
    HeapBut(s, k, n, -1)
  }

  /** The parent of the hole is not smaller than the hole's children. */
  predicate Bridged<V>(s: seq<Item<V>>, k: nat, n: nat, hole: nat)
    requires n <= |s|
  {
    forall p, c | k <= p < hole < c < n && Child(p, hole) && Child(hole, c) :: s[p].key >= s[c].key
  }

  lemma {:induction false} SiftPermutes<V>(s: seq<Item<V>>, i: nat, n: nat)
    requires i < |s| && n <= |s|
    ensures multiset(Sift(s, i, n)) == multiset(s)
    decreases n - i
  {
    if 2 * i + 1 < n {
      var j := LargerChild(s, i, n);
      if s[i].key < s[j].key {
        SwapPermutes(s, i, j);
        SiftPermutes(Swapped(s, i, j), j, n);
      }
    }
  }

  lemma SwapPermutes<T>(s: seq<T>, i: nat, j: nat)
    requires i < |s| && j < |s|
    ensures multiset(Swapped(s, i, j)) == multiset(s)
  {}

  /** Taking the last item of `s` out of both sequences leaves the same items. */
  lemma RemoveLast<T>(s: seq<T>, t: seq<T>) returns (k: nat)
    requires multiset(s) == multiset(t) && s != []
    ensures k < |t| && t[k] == s[|s| - 1]
    ensures multiset(s[..|s| - 1]) == multiset(t[..k] + t[k + 1..])
  {
    var n := |s| - 1;
    WithoutOne(s, n);
    assert s[..n] + s[n + 1..] == s[..n];
    assert s[n] in multiset(t);
    k :| 0 <= k < |t| && t[k] == s[n];
    WithoutOne(t, k);
  }

  /** Sifting stays among the first `n` items and keeps any bound on them. */
  lemma {:induction false} SiftStays<V>(s: seq<Item<V>>, i: nat, n: nat, b: real)
    requires i < |s| && n <= |s|
    ensures Sift(s, i, n)[n..] == s[n..]
    ensures (forall k | 0 <= k < n :: s[k].key <= b) ==> forall k | 0 <= k < n :: Sift(s, i, n)[k].key <= b
    decreases n - i
  {
    if 2 * i + 1 < n {
      var j := LargerChild(s, i, n);
      if s[i].key < s[j].key {
        SiftStays(Swapped(s, i, j), j, n, b);
      }
    }
  }

  lemma {:induction false} SiftHeaps<V>(s: seq<Item<V>>, k: nat, i: nat, n: nat)
    requires k <= i < |s| && n <= |s| && HeapBut(s, k, n, i) && Bridged(s, k, n, i)
    ensures Heap(Sift(s, i, n), k, n)
    decreases n - i
  {
    if 2 * i + 1 < n {
      var j := LargerChild(s, i, n);
      if s[i].key < s[j].key {
        StepDown(s, k, i, n, j);
        SiftHeaps(Swapped(s, i, j), k, j, n);
      }
    }
  }

  lemma StepDown<V>(s: seq<Item<V>>, k: nat, i: nat, n: nat, j: nat)
    requires k <= i < |s| && 2 * i + 1 < n <= |s| && HeapBut(s, k, n, i) && Bridged(s, k, n, i)
    requires j == LargerChild(s, i, n) && s[i].key < s[j].key
    ensures HeapBut(Swapped(s, i, j), k, n, j) && Bridged(Swapped(s, i, j), k, n, j)
  {
    var t := Swapped(s, i, j);
    forall p, c | k <= p < c < n && Child(p, c) && p != j
      ensures t[p].key >= t[c].key
    {
      assert c == i ==> Child(p, i) && Child(i, j);
    }
    forall p, c | k <= p < j < c < n && Child(p, j) && Child(j, c)
      ensures t[p].key >= t[c].key
    {
      assert p == i;
    }
  }

  lemma {:induction false} HeapifyHeaps<V>(s: seq<Item<V>>, k: nat)
    requires k <= |s| && Heap(s, k, |s|)
    ensures Heap(Heapify(s, k), 0, |s|) && multiset(Heapify(s, k)) == multiset(s)
    decreases k
  {
    hide Sift, Heap, HeapBut, Bridged;
    if k > 0 {
      OneMore(s, k);
      SiftHeaps(s, k - 1, k - 1, |s|);
      SiftPermutes(s, k - 1, |s|);
      HeapifyHeaps(Sift(s, k - 1, |s|), k - 1);
    }
  }

  lemma OneMore<V>(s: seq<Item<V>>, k: nat)
    requires 0 < k <= |s| && Heap(s, k, |s|)
    ensures HeapBut(s, k - 1, |s|, k - 1) && Bridged(s, k - 1, |s|, k - 1)
  {}

  /** No item of a heap is larger than its root. */
  lemma {:induction false} RootIsLargest<V>(s: seq<Item<V>>, n: nat, i: nat)
    requires i < n <= |s| && Heap(s, 0, n)
    ensures s[i].key <= s[0].key
  {
    if i > 0 {
      RootIsLargest(s, n, (i - 1) / 2);
      assert Child((i - 1) / 2, i);
    }
  }

  /** The state between two rounds of the second loop. */
  predicate HalfUnloaded<V>(s: seq<Item<V>>, n: nat)
    requires n <= |s|
  {
    && Heap(s, 0, n) && Ascending(s[n..])
    && (forall i, j | 0 <= i < n <= j < |s| :: s[i].key <= s[j].key)
  }

  lemma UnloadStep<V>(s: seq<Item<V>>, n: nat)
    requires 0 < n <= |s| && HalfUnloaded(s, n)
    ensures HalfUnloaded(Sift(Swapped(s, 0, n - 1), 0, n - 1), n - 1)
  {
    hide Sift, Ascending, Heap, HeapBut, Bridged;
    var t := Swapped(s, 0, n - 1);
    var r := Sift(t, 0, n - 1);
    forall i | 0 <= i < n
      ensures s[i].key <= s[0].key
    {
      RootIsLargest(s, n, i);
    }
    RootAway(s, n);
    SiftHeaps(t, 0, 0, n - 1);
    SiftStays(t, 0, n - 1, s[0].key);
    assert t[n - 1..] == [s[0]] + s[n..];
    Prepended(s[0], s, n);
    forall i, j | 0 <= i < n - 1 <= j < |r|
      ensures r[i].key <= r[j].key
    {
      assert r[j] == r[n - 1..][j - (n - 1)] == t[j];
    }
  }

  /** Whatever takes the place of the root, the rest is still a heap. */
  lemma RootAway<V>(s: seq<Item<V>>, n: nat)
    requires 0 < n <= |s| && Heap(s, 0, n)
    ensures var t := Swapped(s, 0, n - 1); HeapBut(t, 0, n - 1, 0) && Bridged(t, 0, n - 1, 0)
  {}

  lemma Prepended<V>(x: Item<V>, s: seq<Item<V>>, n: nat)
    requires n <= |s| && Ascending(s[n..]) && forall j | n <= j < |s| :: x.key <= s[j].key
    ensures Ascending([x] + s[n..])
  {}

  lemma {:induction false} UnloadSorts<V>(s: seq<Item<V>>, n: nat)
    requires n <= |s| && HalfUnloaded(s, n)
    ensures Ascending(Unload(s, n)) && multiset(Unload(s, n)) == multiset(s)
    decreases n
  {
    hide HalfUnloaded, Ascending, Sift;
    if n == 0 {
      assert Ascending(s) by { AllUnloaded(s); }
    } else {
      UnloadStep(s, n);
      SwapPermutes(s, 0, n - 1);
      SiftPermutes(Swapped(s, 0, n - 1), 0, n - 1);
      UnloadSorts(Sift(Swapped(s, 0, n - 1), 0, n - 1), n - 1);
    }
  }

  lemma AllUnloaded<V>(s: seq<Item<V>>)
    requires HalfUnloaded(s, 0)
    ensures Ascending(s)
  {
    assert s[0..] == s;
  }

  /** The whole sort: ascending keys, and the same pairs as before. */
  lemma HeapSortedSorts<V>(s: seq<Item<V>>)
    ensures Ascending(HeapSorted(s)) && multiset(HeapSorted(s)) == multiset(s)
  {
    hide Ascending, Sift;
    HeapifyHeaps(s, |s| / 2);
    assert HalfUnloaded(Heapify(s, |s| / 2), |s|) by { NothingUnloaded(Heapify(s, |s| / 2)); }
    UnloadSorts(Heapify(s, |s| / 2), |s|);
  }

  lemma NothingUnloaded<V>(s: seq<Item<V>>)
    requires Heap(s, 0, |s|)
    ensures HalfUnloaded(s, |s|)
  {}

  // ----- The program

  lemma ZipUpdate<V>(key: seq<real>, val: seq<V>, i: nat, x: Item<V>)
    requires |key| == |val| && i < |key|
    ensures Zip(key[i := x.key], val[i := x.val]) == Zip(key, val)[i := x]
  {}

  /** Moving an item up into the hole and the hole down is a swap, once the hole is filled. */
  lemma HoleMoves<V>(s: seq<Item<V>>, i: nat, j: nat, x: Item<V>)
    requires i < |s| && j < |s| && i != j
    ensures s[i := s[j]][j := x] == Swapped(s[i := x], i, j)
  {}

  /** Both inner loops: the item (key0, val0) sinks into the hole at `start`. */
  method SiftDown<V>(key: array<real>, val: array<V>, start: nat, n: nat, key0: real, val0: V)
    requires key as object != val as object
    requires key.Length == val.Length && start < key.Length && n <= key.Length
    modifies key, val
    ensures Zip(key[..], val[..]) == Sift(old(Zip(key[..], val[..]))[start := Item(key0, val0)], start, n)
  {
    hide Zip;
    ghost var x := Item(key0, val0);
    ghost var goal := Sift(Zip(key[..], val[..])[start := x], start, n);
    var i := start;
    var j := 2 * i + 1;
    while j <= n - 1
      invariant i < key.Length && j == 2 * i + 1
      invariant Sift(Zip(key[..], val[..])[i := x], i, n) == goal
      decreases n - i
    {
      ghost var s := Zip(key[..], val[..]);
      ZipAt(key[..], val[..]);
      if j < n - 1 && key[j] < key[j + 1] { j := j + 1; }
      assert j == LargerChild(s[i := x], i, n);
      if key0 >= key[j] { break; }
      HoleMoves(s, i, j, x);
      ZipUpdate(key[..], val[..], i, s[j]);
      key[i] := key[j];
      val[i] := val[j];
      i := j;
      j := 2 * i + 1;
    }
    ZipUpdate(key[..], val[..], i, x);
    key[i] := key0;
    val[i] := val0;
  }

  lemma ZipAt<V>(key: seq<real>, val: seq<V>)
    requires |key| == |val|
    ensures |Zip(key, val)| == |key|
    ensures forall i | 0 <= i < |key| :: Zip(key, val)[i] == Item(key[i], val[i])
  {}

  /** `heapsort2` and `heapsort2id`. */
  method Heapsort2<V>(key: array<real>, val: array<V>)
    requires key as object != val as object && key.Length == val.Length
    modifies key, val
    ensures Zip(key[..], val[..]) == HeapSorted(old(Zip(key[..], val[..])))
    ensures Ascending(Zip(key[..], val[..]))
    ensures multiset(Zip(key[..], val[..])) == multiset(old(Zip(key[..], val[..])))
  {
    hide Zip, Sift;
    HeapSortedSorts(Zip(key[..], val[..]));
    var n: nat := key.Length;
    for k := n / 2 downto 0
      invariant Heapify(Zip(key[..], val[..]), k) == old(Heapify(Zip(key[..], val[..]), n / 2))
    {
      ZipAt(key[..], val[..]);
      ghost var s := Zip(key[..], val[..]);
      assert s[k := Item(key[k], val[k])] == s;
      SiftDown(key, val, k, n, key[k], val[k]);
    }
    while n > 0
      invariant n <= key.Length
      invariant Unload(Zip(key[..], val[..]), n) == old(HeapSorted(Zip(key[..], val[..])))
    {
      ZipAt(key[..], val[..]);
      ghost var s := Zip(key[..], val[..]);
      var key0, val0 := key[n - 1], val[n - 1];
      ZipUpdate(key[..], val[..], n - 1, s[0]);
      key[n - 1] := key[0];
      val[n - 1] := val[0];
      RootFirst(s, n - 1);
      n := n - 1;
      SiftDown(key, val, 0, n, key0, val0);
    }
  }

  lemma RootFirst<V>(s: seq<Item<V>>, i: nat)
    requires i < |s|
    ensures s[i := s[0]][0 := s[i]] == Swapped(s, 0, i)
  {}
}
