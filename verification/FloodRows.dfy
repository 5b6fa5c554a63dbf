/** A fill from row to row: on images without pockets it ends, follows no null pointer, and marks
    exactly the connected cells that were 0. */
module FloodRows {
  import opened Sequences
  import opened FloodFill
  import opened FloodConnected
  import opened FloodSteps
  import opened FloodHanging

  // ----- Making a row

  /** The row is ordered, holds shadows of one row, and no other shadow of that row is kept. */
  predicate Sorting(st: State) {
    && (forall k | 0 <= k < |st.row| :: st.row[k].ok && st.row[k].row == st.currRow)
    && Ascending(st.row)
    && (forall k | 0 <= k < |st.pend| :: st.pend[k].ok && st.pend[k].row != st.currRow)
    && (st.row == [] ==> st.pend == [])
  }

  function OkOnly(todo: seq<Shadow>): (r: seq<Shadow>)
    ensures forall sh | sh in r :: sh in todo && sh.ok
    ensures |r| <= |todo|
  {
    if todo == [] then [] else (if todo[0].ok then [todo[0]] else []) + OkOnly(todo[1..])
  }

  lemma {:induction false} OkOnlyCounts(todo: seq<Shadow>, sh: Shadow)
    requires sh.ok
    ensures multiset(OkOnly(todo))[sh] == multiset(todo)[sh]
  {
    if todo != [] {
      assert todo == [todo[0]] + todo[1..];
      OkOnlyCounts(todo[1..], sh);
    }
  }

  /** Ordered by the left ends. */
  predicate Ascending(row: seq<Shadow>) {
    forall j, k | 0 <= j < k < |row| :: row[j].lft <= row[k].lft
  }

  lemma {:induction false} InsertSorts(row: seq<Shadow>, s: Shadow)
    requires Ascending(row)
    ensures var r := Insert(row, s); Ascending(r) && multiset(r) == multiset(row) + multiset{s} && r != []
  {
    RestAscending(row);
    hide Ascending;
    if row == [] || s.lft <= row[0].lft {
      FirstLeast(s, row);
    } else {
      var rest := Insert(row[1..], s);
      assert row == [row[0]] + row[1..];
      InsertSorts(row[1..], s);
      InsertHolds(row[1..], s, rest);
      FirstLeast(row[0], rest);
    }
  }

  lemma RestAscending(row: seq<Shadow>)
    requires Ascending(row)
    ensures row != [] ==> Ascending(row[1..]) && forall k | 0 <= k < |row| :: row[0].lft <= row[k].lft
  {}

  lemma InsertHolds(row: seq<Shadow>, s: Shadow, r: seq<Shadow>)
    requires multiset(r) == multiset(row) + multiset{s}
    ensures forall k | 0 <= k < |r| :: r[k] == s || r[k] in row
  {
    forall k | 0 <= k < |r|
      ensures r[k] == s || r[k] in row
    {
      assert r[k] in multiset(r);
    }
  }

  lemma FirstLeast(first: Shadow, rest: seq<Shadow>)
    requires Ascending(rest) && forall k | 0 <= k < |rest| :: first.lft <= rest[k].lft
    ensures Ascending([first] + rest)
  {}

  /** One shadow finds its place. */
  function SortOne(st: State, s: Shadow): State {
    if !s.ok then st
    else if st.row == [] then st.(currRow := s.row, row := [s])
    else if s.row == st.currRow then st.(row := Insert(st.row, s))
    else st.(pend := [s] + st.pend)
  }

  lemma SortOneKeeps(st: State, s: Shadow)
    requires Sorting(st)
    ensures var r := SortOne(st, s);
      && Sorting(r) && r.calls == st.calls && r.found == st.found
      && multiset(r.row) + multiset(r.pend)
      == multiset(st.row) + multiset(st.pend) + if s.ok then multiset{s} else multiset{}
  {
    hide Insert, Sorting;
    if !s.ok {
    } else if st.row == [] {
      StartsRow(st, s);
    } else if s.row == st.currRow {
      JoinsRow(st, s);
    } else {
      StaysPending(st, s);
    }
  }

  lemma StartsRow(st: State, s: Shadow)
    requires Sorting(st) && s.ok && st.row == []
    ensures Sorting(st.(currRow := s.row, row := [s])) && st.pend == []
  {}

  lemma JoinsRow(st: State, s: Shadow)
    requires Sorting(st) && s.ok && st.row != [] && s.row == st.currRow
    ensures Sorting(st.(row := Insert(st.row, s))) && multiset(Insert(st.row, s)) == multiset(st.row) + multiset{s}
  {
    InsertSorts(st.row, s);
    InsertHolds(st.row, s, Insert(st.row, s));
    hide Insert, Ascending;
    var r := Insert(st.row, s);
    forall k | 0 <= k < |r|
      ensures r[k].ok && r[k].row == st.currRow
    {
      if r[k] in st.row {
        var i :| 0 <= i < |st.row| && st.row[i] == r[k];
      }
    }
  }

  lemma StaysPending(st: State, s: Shadow)
    requires Sorting(st) && s.ok && st.row != [] && s.row != st.currRow
    ensures Sorting(st.(pend := [s] + st.pend))
    ensures multiset([s] + st.pend) == multiset(st.pend) + multiset{s}
  {}

  lemma {:induction false} MakeRowSorts(st: State, todo: seq<Shadow>)
    requires Sorting(st)
    ensures var r := MakeRow(st, todo);
      && Sorting(r) && r.calls == st.calls && r.found == st.found
      && multiset(r.row) + multiset(r.pend) == multiset(st.row) + multiset(st.pend) + multiset(OkOnly(todo))
    decreases |todo|
  {
    if todo != [] {
      var next := SortOne(st, todo[0]);
      assert MakeRow(st, todo) == MakeRow(next, todo[1..]);
      hide Insert, Sorting, MakeRow, SortOne;
      SortOneKeeps(st, todo[0]);
      MakeRowSorts(next, todo[1..]);
      assert multiset(OkOnly(todo)) == (if todo[0].ok then multiset{todo[0]} else multiset{}) + multiset(OkOnly(todo[1..]));
    }
  }

  /** Which shadows of the list are in the row now, and which are kept. */
  lemma RowOf(st: State)
    requires st.row == []
    ensures var r := MakeRow(st.(pend := []), st.pend);
      && Sorting(r) && r.calls == st.calls && r.found == st.found
      && (forall sh: Shadow | sh.ok :: multiset(r.row)[sh] + multiset(r.pend)[sh] == multiset(st.pend)[sh])
      && |r.row| + |r.pend| <= |st.pend|
  {
    hide MakeRow;
    MakeRowSorts(st.(pend := []), st.pend);
    var r := MakeRow(st.(pend := []), st.pend);
    forall sh: Shadow | sh.ok
      ensures multiset(r.row)[sh] + multiset(r.pend)[sh] == multiset(st.pend)[sh]
    {
      OkOnlyCounts(st.pend, sh);
      assert (multiset(r.row) + multiset(r.pend))[sh] == multiset(OkOnly(st.pend))[sh];
    }
    assert |multiset(r.row) + multiset(r.pend)| == |r.row| + |r.pend|;
    assert |multiset(OkOnly(st.pend))| == |OkOnly(st.pend)|;
  }

  // ----- A row in which nothing is found

  lemma {:induction false} JunkRow(g: Image, st: State)
    requires st.found && forall k | 0 <= k < |st.row| :: st.row[k].row == st.currRow && Barren(g, st.row[k])
    ensures Run(g, st, |st.row|) == st.(row := [])
    decreases |st.row|
  {
    if st.row != [] {
      var seed, rest := st.row[0], st.(row := st.row[1..]);
      assert Barren(g, seed);
      if seed.ok && seed.lft <= seed.rgt { NoRunBefore(g, rest, seed, seed.lft, seed.rgt + 1); }
      assert Step(g, st) == rest;
      JunkRow(g, rest);
    }
  }

  // ----- From row to row

  ghost predicate Kind(g: Image, s: Pixel, r: State, st: State, lo: int, hi: int) {
    && Sorting(r) && r.calls == st.calls && r.found == st.found
    && (forall sh: Shadow | sh.ok :: multiset(r.row)[sh] + multiset(r.pend)[sh] == multiset(st.pend)[sh])
    && Rested(g, s, st, lo, hi)
  }

  lemma FromPend(g: Image, s: Pixel, r: State, st: State, lo: int, hi: int, sh: Shadow)
    requires Kind(g, s, r, st, lo, hi) && (sh in r.row || sh in r.pend)
    ensures sh.ok && sh in st.pend && Expected(g, s, sh, lo, hi)
  {
    hide Expected;
    assert sh.ok;
    assert multiset(r.row)[sh] + multiset(r.pend)[sh] > 0;
    assert multiset(st.pend)[sh] > 0;
    var i :| 0 <= i < |st.pend| && st.pend[i] == sh;
    assert Expected(g, s, st.pend[i], lo, hi);
  }

  lemma PendExpected(g: Image, s: Pixel, r: State, st: State, lo: int, hi: int)
    requires Kind(g, s, r, st, lo, hi)
    ensures AllExpected(g, s, r.pend, lo, hi) && Once(r.pend, lo, hi)
  {
    forall i | 0 <= i < |r.pend|
      ensures Expected(g, s, r.pend[i], lo, hi)
    {
      FromPend(g, s, r, st, lo, hi, r.pend[i]);
    }
    forall sh: Shadow | sh.ok && (sh.row == hi + 1 || sh.row == lo - 1)
      ensures multiset(r.pend)[sh] <= 1
    {
      assert multiset(st.pend)[sh] <= 1;
    }
  }

  /** What is pending for another row stays so. */
  lemma OtherCovered(g: Image, s: Pixel, r: State, st: State, lo: int, hi: int, d: int)
    requires Kind(g, s, r, st, lo, hi) && r.row != [] && r.currRow != Edge(d, lo, hi) + d && (d == 1 || d == -1)
    ensures Covers(g, s, r.pend, d, Edge(d, lo, hi))
  {
    var y := Edge(d, lo, hi);
    hide Connected, Forward;
    forall c | In(g, s, c, y)
      ensures CastOver(g, s, r.pend, d, y, c)
    {
      assert CastOver(g, s, st.pend, d, y, c);
      var i :| 0 <= i < |st.pend| && Forward(g, s, st.pend[i], d, y) && st.pend[i].lft <= c <= st.pend[i].rgt;
      var sh := st.pend[i];
      ForwardRow(g, s, sh, d, y);
      NotInRow(r, sh);
      assert multiset(st.pend)[sh] > 0;
      assert sh in r.pend;
    }
  }

  lemma NotInRow(r: State, sh: Shadow)
    requires Sorting(r) && sh.row != r.currRow
    ensures multiset(r.row)[sh] == 0
  {
    assert sh !in r.row;
  }

  // ----- A row of forward shadows

  lemma OnlyForward(g: Image, s: Pixel, r: State, st: State, lo: int, hi: int, d: int, k: nat)
    requires Kind(g, s, r, st, lo, hi) && (d == 1 || d == -1) && r.currRow == Edge(d, lo, hi) + d && k < |r.row|
    ensures Forward(g, s, r.row[k], d, Edge(d, lo, hi))
  {
    FromPend(g, s, r, st, lo, hi, r.row[k]);
    hide FullRun, Barren;
  }

  lemma NoNext(g: Image, s: Pixel, r: State, st: State, lo: int, hi: int, d: int, sh: Shadow)
    requires Kind(g, s, r, st, lo, hi) && (d == 1 || d == -1) && r.currRow == Edge(d, lo, hi) + d && sh in r.pend
    ensures sh.ok && sh.row != r.currRow && sh.row != r.currRow + d
    ensures (Barren(g, sh) && lo <= sh.row <= hi) || Forward(g, s, sh, -d, Edge(-d, lo, hi))
  {
    FromPend(g, s, r, st, lo, hi, sh);
    var i :| 0 <= i < |r.pend| && r.pend[i] == sh;
    hide FullRun, Barren;
  }

  /** Two whole runs of a row are the same or apart. */
  lemma RunsApart(g: Image, s: Pixel, a: Shadow, b: Shadow, y: int)
    requires FullRun(g, s, a.lft, a.rgt, y) && FullRun(g, s, b.lft, b.rgt, y) && a.lft <= b.lft
    ensures a.rgt + 2 <= b.lft || (a.lft == b.lft && a.rgt == b.rgt)
  {
    hide Connected;
    forall c | a.lft <= c <= a.rgt ensures Passes(g, c, y) { assert In(g, s, c, y); InPasses(g, s, c, y); }
    forall c | b.lft <= c <= b.rgt ensures Passes(g, c, y) { assert In(g, s, c, y); InPasses(g, s, c, y); }
    if b.lft <= a.rgt + 1 {
      assert b.lft != a.rgt + 1;
      assert a.lft < b.lft ==> Passes(g, b.lft - 1, y);
      assert a.rgt < b.rgt ==> Passes(g, a.rgt + 1, y);
      assert b.rgt < a.rgt ==> Passes(g, b.rgt + 1, y);
    }
  }

  lemma Twice<T>(q: seq<T>, j: nat, k: nat)
    requires j < k < |q| && q[j] == q[k]
    ensures multiset(q)[q[j]] >= 2
  {
    assert q == q[..k] + q[k..];
    assert q[..k][j] == q[j] && q[k..][0] == q[k];
    assert multiset(q) == multiset(q[..k]) + multiset(q[k..]);
  }

  lemma ForwardApart(g: Image, s: Pixel, r: State, st: State, lo: int, hi: int, d: int, j: nat, k: nat)
    requires Kind(g, s, r, st, lo, hi) && (d == 1 || d == -1) && r.currRow == Edge(d, lo, hi) + d && j < k < |r.row|
    ensures r.row[j].rgt + 2 <= r.row[k].lft
  {
    var a, b, t := r.row[j], r.row[k], Edge(d, lo, hi);
    OnlyForward(g, s, r, st, lo, hi, d, j);
    OnlyForward(g, s, r, st, lo, hi, d, k);
    assert a.lft <= b.lft;
    ForwardRow(g, s, a, d, t);
    ForwardRow(g, s, b, d, t);
    RunsApart(g, s, a, b, t);
    if a == b {
      Twice(r.row, j, k);
      OnceIn(g, s, r, st, lo, hi, a);
    }
    hide Kind, Forward, FullRun;
  }

  lemma ForwardShaped(g: Image, s: Pixel, r: State, st: State, lo: int, hi: int, d: int)
    requires Kind(g, s, r, st, lo, hi) && (d == 1 || d == -1) && r.currRow == Edge(d, lo, hi) + d
    ensures Shaped(g, s, r.row, r.currRow, r.currRow - d)
  {
    hide Connected, Kind;
    forall k | 0 <= k < |r.row|
      ensures Forward(g, s, r.row[k], d, Edge(d, lo, hi))
    {
      OnlyForward(g, s, r, st, lo, hi, d, k);
    }
    forall j, k | 0 <= j < k < |r.row|
      ensures r.row[j].rgt + 2 <= r.row[k].lft
    {
      ForwardApart(g, s, r, st, lo, hi, d, j, k);
    }
  }

  lemma OnceIn(g: Image, s: Pixel, r: State, st: State, lo: int, hi: int, sh: Shadow)
    requires Kind(g, s, r, st, lo, hi) && sh.ok && (sh.row == hi + 1 || sh.row == lo - 1)
    ensures multiset(r.row)[sh] <= 1
  {
    assert multiset(st.pend)[sh] <= 1;
  }

  /** Every connected run of the row before is in the row now. */
  lemma ForwardIn(g: Image, s: Pixel, r: State, st: State, lo: int, hi: int, d: int, c: int) returns (k: nat)
    requires Kind(g, s, r, st, lo, hi) && (d == 1 || d == -1) && r.currRow == Edge(d, lo, hi) + d
    requires In(g, s, c, Edge(d, lo, hi))
    ensures k < |r.row| && r.row[k].ok && r.row[k].lft <= c <= r.row[k].rgt
  {
    hide Connected, FullRun;
    var t := Edge(d, lo, hi);
    assert CastOver(g, s, st.pend, d, t, c);
    var i :| 0 <= i < |st.pend| && Forward(g, s, st.pend[i], d, t) && st.pend[i].lft <= c <= st.pend[i].rgt;
    var sh := st.pend[i];
    assert sh !in r.pend;
    assert multiset(st.pend)[sh] > 0;
    assert sh in r.row;
    k :| 0 <= k < |r.row| && r.row[k] == sh;
  }

  /** No run of the row itself has cast its shadow yet. */
  lemma NotCast(g: Image, s: Pixel, r: State, st: State, lo: int, hi: int, d: int)
    requires Kind(g, s, r, st, lo, hi) && (d == 1 || d == -1) && r.currRow == Edge(d, lo, hi) + d
    ensures forall i | 0 <= i < |r.pend| :: !Forward(g, s, r.pend[i], d, r.currRow)
  {
    forall i | 0 <= i < |r.pend|
      ensures !Forward(g, s, r.pend[i], d, r.currRow)
    {
      NoNext(g, s, r, st, lo, hi, d, r.pend[i]);
    }
  }

  lemma ForwardOpen(g: Image, s: Pixel, r: State, st: State, lo: int, hi: int, d: int)
    requires Kind(g, s, r, st, lo, hi) && (d == 1 || d == -1) && r.currRow == Edge(d, lo, hi) + d
    ensures Open(g, s, r, 1, 0, d) && Behind(g, s, r, 1, 0, d)
  {
    hide Connected, Forward, Kind;
    NotCast(g, s, r, st, lo, hi, d);
    var t := r.currRow - d;
    forall c | In(g, s, c, t)
      ensures exists k :: 0 <= k < |r.row| && r.row[k].ok && r.row[k].lft <= c <= r.row[k].rgt
    {
      var k := ForwardIn(g, s, r, st, lo, hi, d, c);
    }
  }

  lemma ForwardPending(g: Image, s: Pixel, r: State, st: State, lo: int, hi: int, d: int, lo': int, hi': int)
    requires Kind(g, s, r, st, lo, hi) && (d == 1 || d == -1) && r.currRow == Edge(d, lo, hi) + d && r.row != []
    requires lo' == (if d == 1 then lo else lo - 1) && hi' == if d == 1 then hi + 1 else hi
    ensures AllExpected(g, s, r.pend, lo', hi') && Once(r.pend, lo', hi') && Covers(g, s, r.pend, -d, Edge(-d, lo', hi'))
  {
    hide FullRun, Barren;
    assert lo <= s.y <= hi;
    forall i | 0 <= i < |r.pend|
      ensures Expected(g, s, r.pend[i], lo', hi')
    {
      NoNext(g, s, r, st, lo, hi, d, r.pend[i]);
    }
    PendExpected(g, s, r, st, lo, hi);
    forall sh: Shadow | sh.ok && (sh.row == hi' + 1 || sh.row == lo' - 1)
      ensures multiset(r.pend)[sh] <= 1
    {
      if sh in r.pend { NoNext(g, s, r, st, lo, hi, d, sh); }
    }
    OtherCovered(g, s, r, st, lo, hi, -d);
  }

  lemma ForwardMarks(g: Image, s: Pixel, r: State, st: State, lo: int, hi: int, d: int, lo': int, hi': int)
    requires Kind(g, s, r, st, lo, hi) && (d == 1 || d == -1) && r.currRow == Edge(d, lo, hi) + d
    requires lo' == (if d == 1 then lo else lo - 1) && hi' == if d == 1 then hi + 1 else hi
    ensures WellMarked(g, r.calls) && MarksAre(g, s, r.calls, r.pend, d, lo', hi')
  {
    hide Connected, FullRun, Barren, WellMarked;
    NotCast(g, s, r, st, lo, hi, d);
  }

  /** A row of forward shadows is ready to be worked on. */
  lemma ForwardStarts(g: Image, s: Pixel, r: State, st: State, lo: int, hi: int, d: int, lo': int, hi': int)
    requires Kind(g, s, r, st, lo, hi) && (d == 1 || d == -1) && r.currRow == Edge(d, lo, hi) + d && r.row != []
    requires lo' == (if d == 1 then lo else lo - 1) && hi' == if d == 1 then hi + 1 else hi
    ensures Working(g, s, r, d, lo', hi')
  {
    assert lo <= s.y <= hi && r.found by { hide Connected, Sorting, AllExpected, Once, Covers, WellMarked; }
    hide Kind, Shaped, Open, Behind, AllExpected, Once, Covers, WellMarked, MarksAre;
    ForwardShaped(g, s, r, st, lo, hi, d);
    ForwardOpen(g, s, r, st, lo, hi, d);
    ForwardPending(g, s, r, st, lo, hi, d, lo', hi');
    ForwardMarks(g, s, r, st, lo, hi, d, lo', hi');
  }

  // ----- A row that casts nothing

  lemma WhichRow(g: Image, s: Pixel, r: State, st: State, lo: int, hi: int)
    requires Kind(g, s, r, st, lo, hi) && r.row != []
    ensures lo - 1 <= r.currRow <= hi + 1
  {
    FromPend(g, s, r, st, lo, hi, r.row[0]);
    hide FullRun, Barren;
  }

  lemma BarrenRow(g: Image, s: Pixel, r: State, st: State, lo: int, hi: int, k: nat)
    requires Kind(g, s, r, st, lo, hi) && lo <= r.currRow <= hi && k < |r.row|
    ensures r.row[k].row == r.currRow && Barren(g, r.row[k])
  {
    FromPend(g, s, r, st, lo, hi, r.row[k]);
    hide FullRun, Barren;
  }

  /** A row between those done is worked off without effect. */
  lemma BarrenRests(g: Image, s: Pixel, r: State, st: State, lo: int, hi: int)
    requires Kind(g, s, r, st, lo, hi) && lo <= r.currRow <= hi && r.row != []
    ensures Run(g, r, |r.row|) == r.(row := []) && Rested(g, s, r.(row := []), lo, hi)
  {
    forall k | 0 <= k < |r.row|
      ensures r.row[k].row == r.currRow && Barren(g, r.row[k])
    {
      BarrenRow(g, s, r, st, lo, hi, k);
    }
    hide Barren, AllExpected, Once, Covers, WellMarked, Step;
    JunkRow(g, r);
    PendExpected(g, s, r, st, lo, hi);
    OtherCovered(g, s, r, st, lo, hi, 1);
    OtherCovered(g, s, r, st, lo, hi, -1);
  }

  /** A row whose runs have cast nothing that is not spent holds no connected run. */
  lemma NothingCast(g: Image, s: Pixel, pend: seq<Shadow>, d: int, y: int)
    requires Covers(g, s, pend, d, y) && forall i | 0 <= i < |pend| :: !pend[i].ok
    ensures forall c :: !In(g, s, c, y)
  {
    hide Connected, FullRun;
    assert forall c :: !CastOver(g, s, pend, d, y, c);
  }

  /** When no row is made, nothing was pending that is not spent. */
  lemma NoRowRests(g: Image, s: Pixel, r: State, st: State, lo: int, hi: int)
    requires Kind(g, s, r, st, lo, hi) && r.row == []
    ensures r.pend == [] && Rested(g, s, r, lo, hi)
  {
    forall i | 0 <= i < |st.pend|
      ensures !st.pend[i].ok
    {
      assert st.pend[i] in multiset(st.pend);
    }
    hide WellMarked, Connected;
    NothingCast(g, s, st.pend, 1, hi);
    NothingCast(g, s, st.pend, -1, lo);
  }

  // ----- Round after round

  function Left(g: Image, lo: int, hi: int): nat {
    (if hi < g.npy then g.npy - hi else 0) + if lo >= 0 then lo + 1 else 0
  }

  /** From one rest to the next: a row more is done, or fewer shadows are pending. */
  lemma NextRest(g: Image, s: Pixel, st: State, lo: int, hi: int) returns (n: nat, lo': int, hi': int)
    requires Hanging(g, s) && Rested(g, s, st, lo, hi) && st.pend != []
    ensures Rested(g, s, Run(g, st, n), lo', hi')
    ensures Left(g, lo', hi') < Left(g, lo, hi)
            || (Left(g, lo', hi') == Left(g, lo, hi) && |Run(g, st, n).pend| < |st.pend|)
  {
    hide Hanging, AllExpected, Once, Covers, WellMarked, Working, MakeRow;
    var r := MakeRow(st.(pend := []), st.pend);
    RowOf(st);
    assert Kind(g, s, r, st, lo, hi);
    assert r == Step(g, st) == Run(g, st, 1);
    hide Kind, Rested, Sorting, Run, Step;
    if r.row == [] {
      NoRowRests(g, s, r, st, lo, hi);
      n, lo', hi' := 1, lo, hi;
    } else if lo <= r.currRow <= hi {
      BarrenRests(g, s, r, st, lo, hi);
      RunPlus(g, st, 1, |r.row|);
      n, lo', hi' := 1 + |r.row|, lo, hi;
    } else {
      WhichRow(g, s, r, st, lo, hi);
      var d := if r.currRow == hi + 1 then 1 else -1;
      lo', hi' := if d == 1 then lo else lo - 1, if d == 1 then hi + 1 else hi;
      n := 1 + |r.row|;
      RowMore(g, s, r, st, lo, hi, d, lo', hi');
      RunPlus(g, st, 1, |r.row|);
    }
  }

  lemma RowMore(g: Image, s: Pixel, r: State, st: State, lo: int, hi: int, d: int, lo': int, hi': int)
    requires Hanging(g, s) && Kind(g, s, r, st, lo, hi) && r.row != [] && (d == 1 || d == -1) && r.currRow == Edge(d, lo, hi) + d
    requires lo' == (if d == 1 then lo else lo - 1) && hi' == if d == 1 then hi + 1 else hi
    ensures Rested(g, s, Run(g, r, |r.row|), lo', hi') && Left(g, lo', hi') < Left(g, lo, hi)
  {
    OnlyForward(g, s, r, st, lo, hi, d, 0);
    InRange(g, s, r.row[0], Edge(d, lo, hi));
    ForwardStarts(g, s, r, st, lo, hi, d, lo', hi');
    hide Kind, Rested, Working, Hanging, Run;
    RowWorks(g, s, r, d, lo', hi');
    RowRests(g, s, Run(g, r, |r.row|), d, lo', hi');
  }

  lemma InRange(g: Image, s: Pixel, sh: Shadow, y: int)
    requires FullRun(g, s, sh.lft, sh.rgt, y)
    ensures 0 <= y < g.npy
  {
    assert In(g, s, sh.lft, y);
    InPasses(g, s, sh.lft, y);
  }

  /** A fill at rest comes to its end. */
  lemma {:induction false} RestEnds(g: Image, s: Pixel, st: State, lo: int, hi: int) returns (n: nat, lo': int, hi': int)
    requires Hanging(g, s) && Rested(g, s, st, lo, hi)
    ensures Rested(g, s, Run(g, st, n), lo', hi') && Run(g, st, n).pend == []
    decreases Left(g, lo, hi), |st.pend|
  {
    hide Hanging, Rested, Left;
    if st.pend == [] {
      n, lo', hi' := 0, lo, hi;
    } else {
      var k, lo1, hi1 := NextRest(g, s, st, lo, hi);
      n, lo', hi' := RestEnds(g, s, Run(g, st, k), lo1, hi1);
      RunPlus(g, st, k, n);
      n := k + n;
    }
  }

  /** With nothing pending, no connected pixel lies outside the rows done. */
  lemma AllDone(g: Image, s: Pixel, st: State, lo: int, hi: int, p: Pixel)
    requires Rested(g, s, st, lo, hi) && st.pend == []
    ensures Finished(st) && WellMarked(g, st.calls) && (p in st.calls <==> Connected(g, s, p) && g.blank(p.x, p.y))
  {
    hide WellMarked;
    assert Pixel(p.x, p.y) == p;
    NothingCast(g, s, st.pend, 1, hi);
    NothingCast(g, s, st.pend, -1, lo);
    if Connected(g, s, p) && !(lo <= p.y <= hi) {
      var w: seq<Pixel> :| PathTo(g, w, s, p);
      var a := CrossedBefore(g, s, w, p, if p.y > hi then hi + 1 else lo - 1);
      assert false;
    }
  }

  // ----- The beginning

  /** After two steps the row of the seed is done. */
  lemma SeedRests(g: Image, s: Pixel)
    requires Hanging(g, s)
    ensures Rested(g, s, Run(g, Begin(s.x, s.y), 2), s.y, s.y)
  {
    var sh := Shadow(s.x, s.x, s.y, s.y, true);
    var st := State([], [sh], s.y, [], true);
    var rest := State([], [], s.y, [], true);
    assert Step(g, Begin(s.x, s.y)) == st by {
      assert Begin(s.x, s.y).pend[1..] == [];
      assert MakeRow(State([], [], 0, [], true), [sh]) == st;
    }
    assert Run(g, Begin(s.x, s.y), 2) == Run(g, st, 1) == Step(g, st);
    assert st.(row := st.row[1..]) == rest;
    assert Step(g, st) == Visit(g, rest, sh, s.x);
    if Passes(g, s.x, s.y) {
      SeedRun(g, s, rest, sh);
    } else {
      assert Visit(g, rest, sh, s.x) == rest;
      NothingConnected(g, s, rest);
    }
  }

  lemma NothingConnected(g: Image, s: Pixel, st: State)
    requires !Passes(g, s.x, s.y) && st.found && st.row == [] && st.pend == [] && st.calls == []
    ensures Rested(g, s, st, s.y, s.y)
  {
    hide Connected;
    forall x, y
      ensures !In(g, s, x, y)
    {
      if In(g, s, x, y) {
        InPasses(g, s, x, y);
        InPasses(g, s, s.x, s.y);
      }
    }
  }

  lemma SeedRun(g: Image, s: Pixel, rest: State, sh: Shadow)
    requires Hanging(g, s) && Passes(g, s.x, s.y) && rest == State([], [], s.y, [], true) && sh == Shadow(s.x, s.x, s.y, s.y, true)
    ensures Rested(g, s, Visit(g, rest, sh, s.x), s.y, s.y)
  {
    var y := s.y;
    var l, e := RunStart(g, s.x, y), RunEnd(g, s.x + 1, y);
    var next := OneRun(g, rest, sh, s.x, l, e);
    var pend := [Shadow(l, e - 1, y - 1, y, true), Shadow(l, e - 1, y + 1, y, true)];
    assert LeftEnd(g, y, sh, s.x) == l;
    assert next == State(pend, [], y, next.calls, true) by {
      assert pend + [] == pend;
    }
    assert Visit(g, rest, sh, s.x) == next;
    hide RunStart, RunEnd, LeftEnd, Visit, OneRun, WellMarked;
    assert WellMarked(g, []) by { NoMarks(g); }
    SeedRunFull(g, s, l, e);
    SeedPending(g, s, l, e, pend);
    SeedCovers(g, s, l, e, pend);
    RunMarksExactly(g, rest, sh, s.x, l, e, s);
    forall p: Pixel
      ensures p in next.calls <==> In(g, s, p.x, p.y) && g.blank(p.x, p.y) && y <= p.y <= y
    {
      RunMarksExactly(g, rest, sh, s.x, l, e, p);
      if p.y == y { SeedIn(g, s, l, e, p.x); }
    }
  }

  lemma NoMarks(g: Image)
    ensures WellMarked(g, [])
  {}

  lemma SeedRunFull(g: Image, s: Pixel, l: int, e: int)
    requires l <= s.x < e && (forall c | l <= c < e :: Passes(g, c, s.y)) && !Passes(g, l - 1, s.y) && !Passes(g, e, s.y)
    ensures FullRun(g, s, l, e - 1, s.y)
  {
    ConnectedStart(g, s);
    hide Connected;
    forall c | l <= c < e
      ensures In(g, s, c, s.y)
    {
      RunConnected(g, s, s.x, c, s.y);
    }
  }

  lemma SeedIn(g: Image, s: Pixel, l: int, e: int, c: int)
    requires Hanging(g, s) && FullRun(g, s, l, e - 1, s.y) && l <= s.x < e
    ensures In(g, s, c, s.y) <==> l <= c < e
  {
    hide Connected;
    if In(g, s, c, s.y) { assert Hangs(g, s, c, s.y); }
  }

  lemma SeedPending(g: Image, s: Pixel, l: int, e: int, pend: seq<Shadow>)
    requires FullRun(g, s, l, e - 1, s.y)
    requires pend == [Shadow(l, e - 1, s.y - 1, s.y, true), Shadow(l, e - 1, s.y + 1, s.y, true)]
    ensures AllExpected(g, s, pend, s.y, s.y) && Once(pend, s.y, s.y)
  {
    hide FullRun;
    assert Forward(g, s, pend[0], -1, s.y) && Forward(g, s, pend[1], 1, s.y);
  }

  lemma SeedCovers(g: Image, s: Pixel, l: int, e: int, pend: seq<Shadow>)
    requires Hanging(g, s) && FullRun(g, s, l, e - 1, s.y) && l <= s.x < e
    requires pend == [Shadow(l, e - 1, s.y - 1, s.y, true), Shadow(l, e - 1, s.y + 1, s.y, true)]
    ensures Covers(g, s, pend, 1, s.y) && Covers(g, s, pend, -1, s.y)
  {
    forall c | In(g, s, c, s.y)
      ensures CastOver(g, s, pend, 1, s.y, c) && CastOver(g, s, pend, -1, s.y, c)
    {
      SeedIn(g, s, l, e, c);
      assert Forward(g, s, pend[0], -1, s.y) && Forward(g, s, pend[1], 1, s.y);
    }
  }

  // ----- The whole fill

  /** On an image without pockets the fill ends, and marks exactly the connected cells that were 0. */
  lemma HangingEnds(g: Image, s: Pixel) returns (n: nat)
    requires Hanging(g, s)
    ensures Finished(Run(g, Begin(s.x, s.y), n)) && Run(g, Begin(s.x, s.y), n).found
    ensures forall p :: p in Run(g, Begin(s.x, s.y), n).calls <==> Connected(g, s, p) && g.blank(p.x, p.y)
  {
    hide Hanging, Rested, Run, Finished, Connected;
    SeedRests(g, s);
    var st := Run(g, Begin(s.x, s.y), 2);
    var k, lo, hi := RestEnds(g, s, st, s.y, s.y);
    RunPlus(g, Begin(s.x, s.y), 2, k);
    n := 2 + k;
    var last := Run(g, st, k);
    assert last.found by { RestedFound(g, s, last, lo, hi); }
    forall p
      ensures Finished(last) && (p in last.calls <==> Connected(g, s, p) && g.blank(p.x, p.y))
    {
      AllDone(g, s, last, lo, hi, p);
    }
    assert Finished(last) by { AllDone(g, s, last, lo, hi, s); }
  }

  lemma RestedFound(g: Image, s: Pixel, st: State, lo: int, hi: int)
    requires Rested(g, s, st, lo, hi)
    ensures st.found
  {}

  /** From step `n` on the fill has ended, well; until then no null pointer is followed and every
      pixel marked is connected. */
  lemma HangingFill(g: Image, s: Pixel) returns (n: nat)
    requires Hanging(g, s)
    ensures forall k: nat :: Run(g, Begin(s.x, s.y), k).found
    ensures forall k: nat, p | p in Run(g, Begin(s.x, s.y), k).calls :: Connected(g, s, p)
    ensures forall k: nat | k >= n ::
              && Finished(Run(g, Begin(s.x, s.y), k))
              && forall p :: p in Run(g, Begin(s.x, s.y), k).calls <==> Connected(g, s, p) && g.blank(p.x, p.y)
  {
    n := HangingEnds(g, s);
    hide Hanging, Connected, Step;
    var b := Begin(s.x, s.y);
    forall k: nat
      ensures k >= n ==> Run(g, b, k) == Run(g, b, n)
      ensures Run(g, b, k).found && forall p | p in Run(g, b, k).calls :: p in Run(g, b, n).calls
    {
      if k >= n {
        RunPlus(g, b, n, k - n);
      } else {
        RunPlus(g, b, k, n - k);
        RunFound(g, Run(g, b, k), n - k);
        RunGrows(g, Run(g, b, k), n - k);
      }
    }
  }
}
