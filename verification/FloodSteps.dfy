/** Following a fill on a given image step by step. What is marked has no part in which shadows
    are made, so that the lists can be followed alone. */
module FloodSteps {
  import opened FloodFill

  /** A shadow that is not spent. */
  function S(lft: int, rgt: int, row: int, par: int): Shadow {
    Shadow(lft, rgt, row, par, true)
  }

  /** A run met on the way: the column at which it is met, its first column, and the column behind its last. */
  datatype Stretch = Stretch(col: int, l: int, e: int)

  /** A visit of `seed` in row `y` meets these runs from column `col` on, and no others. */
  ghost predicate Meets(g: Image, y: int, seed: Shadow, col: int, runs: seq<Stretch>)
    decreases |runs|
  {
    if runs == [] then forall k | col <= k <= seed.rgt :: !Passes(g, k, y)
    else
      var r := runs[0];
      && col <= r.col <= seed.rgt && r.l <= r.col < r.e
      && (r.col == seed.lft || r.l == r.col) && (r.col == seed.lft ==> !Passes(g, r.l - 1, y))
      && (forall k | col <= k < r.col :: !Passes(g, k, y))
      && (forall k | r.l <= k < r.e :: Passes(g, k, y)) && !Passes(g, r.e, y)
      && Meets(g, y, seed, r.e + 1, runs[1..])
  }

  /** The lists after the shadows of these runs are made. */
  function Shadowed(st: State, seed: Shadow, runs: seq<Stretch>): State
    decreases |runs|
  {
    if runs == [] || !st.found then st
    else Shadowed(MakeShadows(st, seed, runs[0].l, runs[0].e - 1), seed, runs[1..])
  }

  /** The lists after one step that meets these runs. */
  function Stepped(a: State, runs: seq<Stretch>): State {
    if a.row == [] then MakeRow(a.(pend := []), a.pend)
    else if a.row[0].ok then Shadowed(a.(row := a.row[1..]), a.row[0], runs)
    else a.(row := a.row[1..])
  }

  ghost predicate StepMeets(g: Image, a: State, runs: seq<Stretch>) {
    a.row != [] && a.row[0].ok ==> Meets(g, a.currRow, a.row[0], a.row[0].lft, runs)
  }

  lemma {:induction false} NoRunBefore(g: Image, st: State, seed: Shadow, c: int, col: int)
    requires c <= col <= seed.rgt + 1 && forall k | c <= k < col :: !Passes(g, k, st.currRow)
    ensures Visit(g, st, seed, c) == Visit(g, st, seed, col)
    decreases col - c
  {
    if c < col { NoRunBefore(g, st, seed, c + 1, col); }
  }

  lemma {:induction false} OverlapsIgnoreCalls(st: State, i: nat, rgt: int, calls: seq<Pixel>)
    requires i <= |st.row|
    ensures RemoveOverlaps(st.(calls := calls), i, rgt) == RemoveOverlaps(st, i, rgt).(calls := calls)
    decreases |st.row| - i
  {
    if st.found && i < |st.row| && st.row[i].lft <= rgt {
      OverlapsIgnoreCalls(if st.row[i].ok then RemoveOverlap(st, i) else st, i + 1, rgt, calls);
    }
  }

  lemma OneRunLists(g: Image, st: State, seed: Shadow, col: int, l: int, e: int)
    ensures OneRun(g, st, seed, col, l, e).(calls := []) == MakeShadows(st.(calls := []), seed, l, e - 1)
    ensures OneRun(g, st, seed, col, l, e).currRow == st.currRow
  {
    hide RemoveOverlaps, Cast, MarkRun;
    RowStays(g, st, seed, col, l, e);
    var cast := st.(pend := Cast(st.currRow, seed, l, e - 1) + st.pend);
    OverlapsIgnoreCalls(cast, 0, e - 1, MarkRun(g, st.calls, col, l, e, st.currRow));
    OverlapsIgnoreCalls(cast, 0, e - 1, []);
  }

  lemma {:induction false} VisitLists(g: Image, st: State, seed: Shadow, col: int, runs: seq<Stretch>)
    requires Meets(g, st.currRow, seed, col, runs) && seed.lft <= col
    ensures Visit(g, st, seed, col).(calls := []) == Shadowed(st.(calls := []), seed, runs)
    decreases |runs|
  {
    hide OneRun, MakeShadows, Passes, LeftEnd, RunEnd;
    if runs == [] {
      if col <= seed.rgt { NoRunBefore(g, st, seed, col, seed.rgt + 1); }
    } else if st.found {
      var r, y := runs[0], st.currRow;
      NoRunBefore(g, st, seed, col, r.col);
      EndsAre(g, y, seed, r);
      OneRunLists(g, st, seed, r.col, r.l, r.e);
      VisitLists(g, OneRun(g, st, seed, r.col, r.l, r.e), seed, r.e + 1, runs[1..]);
    }
  }

  lemma EndsAre(g: Image, y: int, seed: Shadow, r: Stretch)
    requires r.l <= r.col < r.e && (r.col == seed.lft || r.l == r.col) && (r.col == seed.lft ==> !Passes(g, r.l - 1, y))
    requires (forall k | r.l <= k < r.e :: Passes(g, k, y)) && !Passes(g, r.e, y)
    ensures LeftEnd(g, y, seed, r.col) == r.l && RunEnd(g, r.col + 1, y) == r.e
  {
    hide Passes;
  }

  lemma {:induction false} MakeRowLists(st: State, todo: seq<Shadow>)
    ensures MakeRow(st, todo).(calls := []) == MakeRow(st.(calls := []), todo)
    decreases |todo|
  {
    hide Insert;
    if todo != [] {
      var s := todo[0];
      var next :=
        if !s.ok then st
        else if st.row == [] then st.(currRow := s.row, row := [s])
        else if s.row == st.currRow then st.(row := Insert(st.row, s))
        else st.(pend := [s] + st.pend);
      MakeRowLists(next, todo[1..]);
    }
  }

  lemma StepLists(g: Image, st: State, runs: seq<Stretch>)
    requires StepMeets(g, st, runs)
    ensures Step(g, st).(calls := []) == Stepped(st.(calls := []), runs)
  {
    hide Visit, Meets, MakeRow, Shadowed;
    if st.row == [] {
      MakeRowLists(st.(pend := []), st.pend);
    } else if st.row[0].ok {
      VisitLists(g, st.(row := st.row[1..]), st.row[0], st.row[0].lft, runs);
    }
  }

  lemma {:induction false} RunSnoc(g: Image, st: State, n: nat)
    requires !Over(Run(g, st, n))
    ensures Run(g, st, n + 1) == Step(g, Run(g, st, n))
    decreases n
  {
    hide Step;
    if n > 0 && !Over(st) { RunSnoc(g, Step(g, st), n - 1); }
  }

  /** The lists after `n` steps of the fill from `s`. */
  predicate Reaches(g: Image, s: Pixel, n: nat, a: State) {
    Run(g, Begin(s.x, s.y), n).(calls := []) == a
  }

  lemma AtFirst(g: Image, s: Pixel)
    ensures Reaches(g, s, 0, Begin(s.x, s.y))
  {}

  lemma Advance(g: Image, s: Pixel, n: nat, a: State, b: State, runs: seq<Stretch>)
    requires Reaches(g, s, n, a) && !Over(a) && StepMeets(g, a, runs) && Stepped(a, runs) == b
    ensures Reaches(g, s, n + 1, b)
  {
    hide Step, Run, Meets, Stepped;
    var st := Run(g, Begin(s.x, s.y), n);
    assert st == a.(calls := st.calls);
    assert st.(calls := []) == a;
    RunSnoc(g, Begin(s.x, s.y), n);
    StepLists(g, st, runs);
  }

  // ----- A fill that does not end

  /** The same pixels pass the check. */
  ghost predicate Alike(g: Image, h: Image) {
    forall x, y :: Passes(g, x, y) == Passes(h, x, y)
  }

  /** The lists and the pixels that pass alone decide how a fill goes on. */
  lemma StepIgnoresCalls(g: Image, h: Image, st: State, calls: seq<Pixel>)
    requires Alike(g, h)
    ensures Step(h, st.(calls := calls)).(calls := []) == Step(g, st).(calls := [])
  {
    hide Visit, MakeRow, Alike;
    if st.row == [] {
      MakeRowLists(st.(pend := []), st.pend);
      MakeRowLists(st.(pend := [], calls := calls), st.pend);
    } else if st.row[0].ok {
      VisitIgnoresCalls(g, h, st.(row := st.row[1..]), st.row[0], st.row[0].lft, calls);
    }
  }

  lemma SameEnds(g: Image, h: Image, y: int, seed: Shadow, col: int)
    requires Alike(g, h)
    ensures LeftEnd(g, y, seed, col) == LeftEnd(h, y, seed, col) && RunEnd(g, col + 1, y) == RunEnd(h, col + 1, y)
  {
    hide Passes;
    var l, e, l', e' := LeftEnd(g, y, seed, col), RunEnd(g, col + 1, y), LeftEnd(h, y, seed, col), RunEnd(h, col + 1, y);
    assert !Passes(g, e, y) && !Passes(h, e', y);
    if col == seed.lft { assert !Passes(g, l - 1, y) && !Passes(h, l' - 1, y); }
  }

  lemma {:induction false} VisitIgnoresCalls(g: Image, h: Image, st: State, seed: Shadow, col: int, calls: seq<Pixel>)
    requires Alike(g, h)
    ensures Visit(h, st.(calls := calls), seed, col).(calls := []) == Visit(g, st, seed, col).(calls := [])
    decreases if col > seed.rgt then 0 else seed.rgt - col + 1
  {
    hide OneRun, LeftEnd, RunEnd, MakeShadows;
    var y := st.currRow;
    if col > seed.rgt || !st.found {
    } else if !Passes(g, col, y) {
      VisitIgnoresCalls(g, h, st, seed, col + 1, calls);
    } else {
      var l, e := LeftEnd(g, y, seed, col), RunEnd(g, col + 1, y);
      SameEnds(g, h, y, seed, col);
      var next, other := OneRun(g, st, seed, col, l, e), OneRun(h, st.(calls := calls), seed, col, l, e);
      OneRunLists(g, st, seed, col, l, e);
      OneRunLists(h, st.(calls := calls), seed, col, l, e);
      assert other == next.(calls := other.calls);
      VisitIgnoresCalls(g, h, next, seed, e + 1, other.calls);
    }
  }

  lemma {:induction false} RunIgnoresCalls(g: Image, h: Image, st: State, calls: seq<Pixel>, n: nat)
    requires Alike(g, h)
    ensures Run(h, st.(calls := calls), n).(calls := []) == Run(g, st, n).(calls := [])
    decreases n
  {
    hide Step, Alike;
    if n > 0 && !Over(st) {
      StepIgnoresCalls(g, h, st, calls);
      var next, other := Step(g, st), Step(h, st.(calls := calls));
      assert other == next.(calls := other.calls);
      RunIgnoresCalls(g, h, next, other.calls, n - 1);
    }
  }

  lemma {:induction false} RunPlus(g: Image, st: State, n: nat, k: nat)
    ensures Run(g, st, n + k) == Run(g, Run(g, st, n), k)
    decreases n
  {
    hide Step;
    if n > 0 && !Over(st) { RunPlus(g, Step(g, st), n - 1, k); }
  }

  lemma {:induction false} OverStays(g: Image, st: State, n: nat, k: nat)
    requires Over(Run(g, st, n))
    ensures Over(Run(g, st, n + k))
  {
    RunPlus(g, st, n, k);
  }

  /** A step that crashes is the last one. */
  lemma LastStep(g: Image, st: State, n: nat)
    requires !Over(Run(g, st, n)) && !Run(g, st, n + 1).found
    ensures forall k: nat :: Run(g, st, k).found <==> k <= n
  {
    forall k: nat
      ensures Run(g, st, k).found <==> k <= n
    {
      if k <= n {
        if Over(Run(g, st, k)) { OverStays(g, st, k, n - k); }
      } else {
        RunPlus(g, st, n + 1, k - n - 1);
      }
    }
  }

  /** Once the lists recur, the fill goes on for ever. */
  lemma {:induction false} RecursForEver(g: Image, st: State, i: nat, d: nat, n: nat)
    requires d > 0 && !Over(Run(g, st, i)) && Run(g, st, i + d).(calls := []) == Run(g, st, i).(calls := [])
    ensures !Over(Run(g, st, n))
    decreases n
  {
    hide Run;
    if n <= i {
      if Over(Run(g, st, n)) { OverStays(g, st, n, i - n); }
    } else if n < i + d {
      if Over(Run(g, st, n)) { OverStays(g, st, n, i + d - n); }
    } else {
      RecursForEver(g, st, i, d, n - d);
      var a, b := Run(g, st, i), Run(g, st, i + d);
      RunPlus(g, st, i + d, n - i - d);
      RunPlus(g, st, i, n - i - d);
      assert b == a.(calls := b.calls);
      RunIgnoresCalls(g, g, a, b.calls, n - i - d);
    }
  }
}
