/** The flood fill of `paint_sub.c` on values: which shadows are made, in which order they
    are visited, and which pixels they mark. */
module FloodFill {
  import opened Sequences

  datatype Pixel = Pixel(x: int, y: int)

  /** `pass` tells which pixels the check accepts, `blank` which cells of the map are 0 at first. */
  datatype Image = Image(npx: nat, npy: nat, pass: (int, int) -> bool, blank: (int, int) -> bool)

  predicate Passes(g: Image, x: int, y: int) {
    0 <= x < g.npx && 0 <= y < g.npy && g.pass(x, y)
  }

  /** A stretch of columns of row `row` still to be looked at; it was made from row `par`. */
  datatype Shadow = Shadow(lft: int, rgt: int, row: int, par: int, ok: bool)

  /** The pending list, the list of the row under work, and the pixels marked so far, in
      order. `found` tells that every child searched for was there: when one is missing the
      program follows a null pointer and ends, and so does the model. */
  datatype State = State(pend: seq<Shadow>, row: seq<Shadow>, currRow: int, calls: seq<Pixel>, found: bool)

  // ----- Shadows

  /** The parts of `lft..rgt` that `line` and its two neighbours leave over, as new shadows. */
  function Pieces(lft: int, rgt: int, row: int, line: Shadow): seq<Shadow> {
    (if rgt > line.rgt + 1 then [Shadow(line.rgt + 2, rgt, row, line.row, true)] else [])
    + (if lft < line.lft - 1 then [Shadow(lft, line.lft - 2, row, line.row, true)] else [])
  }

  /** The place of the first pending shadow in a row; past the end if there is none. */
  function FirstInRow(pend: seq<Shadow>, row: int): (j: nat)
    ensures j <= |pend|
    ensures j < |pend| ==> pend[j].row == row
  {
    if pend == [] || pend[0].row == row then 0 else 1 + FirstInRow(pend[1..], row)
  }

  /** The child that a shadow of the current row overlaps after its removal is noted. */
  function Spent(s: Shadow): Shadow {
    s.(ok := false)
  }

  /** What is left of `rw` to the right of its child. */
  function Shortened(rw: Shadow, child: Shadow): Shadow {
    if rw.rgt > child.rgt + 1 then rw.(lft := child.rgt + 2) else Spent(rw)
  }

  /** The pending list after the overlap of `rw` with its child, at place `j`, is removed. */
  function PendAfter(pend: seq<Shadow>, rw: Shadow, j: nat): seq<Shadow>
    requires j < |pend|
  {
    Pieces(pend[j].lft, pend[j].rgt, pend[j].row, rw) + pend[j := Spent(pend[j])]
  }

  /** `removeOverlap`, on the shadow at place `i`. */
  function RemoveOverlap(st: State, i: nat): (r: State)
    requires i < |st.row|
    ensures |r.row| == |st.row|
  {
    var rw := st.row[i];
    var j := FirstInRow(st.pend, rw.par);
    if j == |st.pend| then st.(found := false)
    else st.(pend := PendAfter(st.pend, rw, j), row := st.row[i := Shortened(rw, st.pend[j])])
  }

  /** The loop over the shadows of the row, from place `i` on, after a run that ends at `rgt`. */
  function RemoveOverlaps(st: State, i: nat, rgt: int): State
    requires i <= |st.row|
    decreases |st.row| - i
  {
    if st.found && i < |st.row| && st.row[i].lft <= rgt
    then RemoveOverlaps(if st.row[i].ok then RemoveOverlap(st, i) else st, i + 1, rgt)
    else st
  }

  /** The shadows that the run `lft..rgt` of the current row casts, newest first. */
  function Cast(currRow: int, seed: Shadow, lft: int, rgt: int): seq<Shadow> {
    if currRow > seed.par then
      Pieces(lft, rgt, currRow - 1, seed) + [Shadow(lft, rgt, currRow + 1, currRow, true)]
    else if currRow < seed.par then
      Pieces(lft, rgt, currRow + 1, seed) + [Shadow(lft, rgt, currRow - 1, currRow, true)]
    else
      [Shadow(lft, rgt, currRow - 1, currRow, true), Shadow(lft, rgt, currRow + 1, currRow, true)]
  }

  /** `makeShadows`. */
  function MakeShadows(st: State, seed: Shadow, lft: int, rgt: int): State {
    RemoveOverlaps(st.(pend := Cast(st.currRow, seed, lft, rgt) + st.pend), 0, rgt)
  }

  // ----- Marking

  /** One pixel: marked and reported if its cell is still 0. */
  function Mark(g: Image, calls: seq<Pixel>, x: int, y: int): seq<Pixel> {
    if g.blank(x, y) && Pixel(x, y) !in calls then calls + [Pixel(x, y)] else calls
  }

  /** Where the run through column `x` begins. */
  function RunStart(g: Image, x: int, y: int): (l: int)
    ensures l <= x && (forall c | l <= c < x :: Passes(g, c, y)) && !Passes(g, l - 1, y)
    decreases if x < 0 then 0 else x
  {
    if Passes(g, x - 1, y) then RunStart(g, x - 1, y) else x
  }

  /** The first column from `x` on that fails the check. */
  function RunEnd(g: Image, x: int, y: int): (e: int)
    ensures x <= e && (forall c | x <= c < e :: Passes(g, c, y)) && !Passes(g, e, y)
    decreases if x > g.npx then 0 else g.npx - x
  {
    if Passes(g, x, y) then RunEnd(g, x + 1, y) else x
  }

  /** Marks the columns from `x` down to `l`. */
  function MarkLeft(g: Image, calls: seq<Pixel>, x: int, l: int, y: int): seq<Pixel>
    decreases if x < l then 0 else x - l + 1
  {
    if x < l then calls else MarkLeft(g, Mark(g, calls, x, y), x - 1, l, y)
  }

  /** Marks the columns from `x` up to `e`, without it. */
  function MarkRight(g: Image, calls: seq<Pixel>, x: int, e: int, y: int): seq<Pixel>
    decreases if x >= e then 0 else e - x
  {
    if x >= e then calls else MarkRight(g, Mark(g, calls, x, y), x + 1, e, y)
  }

  /** The pixels of the run `l..e` through column `col`, in the order they are marked. */
  function MarkRun(g: Image, calls: seq<Pixel>, col: int, l: int, e: int, y: int): seq<Pixel> {
    MarkRight(g, MarkLeft(g, Mark(g, calls, col, y), col - 1, l, y), col + 1, e, y)
  }

  /** One run: its pixels are marked and its shadows made. */
  function OneRun(g: Image, st: State, seed: Shadow, col: int, l: int, e: int): State {
    MakeShadows(st.(calls := MarkRun(g, st.calls, col, l, e, st.currRow)), seed, l, e - 1)
  }

  /** Only at the first column of the shadow is a run followed to the left. */
  function LeftEnd(g: Image, y: int, seed: Shadow, col: int): (l: int)
    ensures l <= col && (forall c | l <= c < col :: Passes(g, c, y))
    ensures l == col || !Passes(g, l - 1, y)
    ensures col == seed.lft ==> !Passes(g, l - 1, y)
  {
    if col == seed.lft then RunStart(g, col, y) else col
  }

  /** `visitShadow3r` from column `col` on: every run that starts in the shadow. */
  function Visit(g: Image, st: State, seed: Shadow, col: int): State
    decreases if col > seed.rgt then 0 else seed.rgt - col + 1
  {
    if col > seed.rgt || !st.found then st
    else if !Passes(g, col, st.currRow) then Visit(g, st, seed, col + 1)
    else
      var e := RunEnd(g, col + 1, st.currRow);
      Visit(g, OneRun(g, st, seed, col, LeftEnd(g, st.currRow, seed, col), e), seed, e + 1)
  }

  // ----- The rounds

  /** A shadow takes its place in the row, by its left end; before an equal one. */
  function Insert(row: seq<Shadow>, s: Shadow): (r: seq<Shadow>)
    ensures |r| == |row| + 1
  {
    if row == [] || s.lft <= row[0].lft then [s] + row else [row[0]] + Insert(row[1..], s)
  }

  /** `makerow`, with the pending shadows `todo` still to be dealt with. */
  function MakeRow(st: State, todo: seq<Shadow>): State
    decreases |todo|
  {
    if todo == [] then st
    else
      var s := todo[0];
      var next :=
        if !s.ok then st
        else if st.row == [] then st.(currRow := s.row, row := [s])
        else if s.row == st.currRow then st.(row := Insert(st.row, s))
        else st.(pend := [s] + st.pend);
      MakeRow(next, todo[1..])
  }

  /** One step of the two loops: the next shadow of the row, or the next row. */
  function Step(g: Image, st: State): State {
    if st.row == [] then MakeRow(st.(pend := []), st.pend)
    else
      var seed, rest := st.row[0], st.(row := st.row[1..]);
      if seed.ok then Visit(g, rest, seed, seed.lft) else rest
  }

  function Begin(x: int, y: int): State {
    State([Shadow(x, x, y, y, true)], [], 0, [], true)
  }

  predicate Finished(st: State) {
    st.pend == [] && st.row == []
  }

  /** Nothing is left to do, or the program has crashed. */
  predicate Over(st: State) {
    Finished(st) || !st.found
  }

  /** The state after `n` steps, or when the fill is over. */
  function Run(g: Image, st: State, n: nat): State
    decreases n
  {
    if n == 0 || Over(st) then st else Run(g, Step(g, st), n - 1)
  }

  // ----- What every run keeps

  /** Every pixel marked passes the check, its cell was 0, and it is marked once. */
  ghost predicate WellMarked(g: Image, calls: seq<Pixel>) {
    && Distinct(calls)
    && (forall p | p in calls :: Passes(g, p.x, p.y) && g.blank(p.x, p.y))
  }

  lemma {:induction false} MarkLeftKeeps(g: Image, calls: seq<Pixel>, x: int, l: int, y: int)
    requires WellMarked(g, calls) && forall c | l <= c <= x :: Passes(g, c, y)
    ensures WellMarked(g, MarkLeft(g, calls, x, l, y))
    decreases if x < l then 0 else x - l + 1
  {
    if x >= l { MarkLeftKeeps(g, Mark(g, calls, x, y), x - 1, l, y); }
  }

  lemma {:induction false} MarkRightKeeps(g: Image, calls: seq<Pixel>, x: int, e: int, y: int)
    requires WellMarked(g, calls) && forall c | x <= c < e :: Passes(g, c, y)
    ensures WellMarked(g, MarkRight(g, calls, x, e, y))
    decreases if x >= e then 0 else e - x
  {
    if x < e { MarkRightKeeps(g, Mark(g, calls, x, y), x + 1, e, y); }
  }

  lemma {:induction false} OverlapsMark(st: State, i: nat, rgt: int)
    requires i <= |st.row|
    ensures RemoveOverlaps(st, i, rgt).calls == st.calls && RemoveOverlaps(st, i, rgt).currRow == st.currRow
    decreases |st.row| - i
  {
    if st.found && i < |st.row| && st.row[i].lft <= rgt {
      OverlapsMark(if st.row[i].ok then RemoveOverlap(st, i) else st, i + 1, rgt);
    }
  }

  lemma OneRunMarks(g: Image, st: State, seed: Shadow, col: int, l: int, e: int)
    requires WellMarked(g, st.calls) && l <= col < e && forall c | l <= c < e :: Passes(g, c, st.currRow)
    ensures WellMarked(g, OneRun(g, st, seed, col, l, e).calls)
    ensures OneRun(g, st, seed, col, l, e).currRow == st.currRow
  {
    hide WellMarked, RemoveOverlaps, Cast;
    var y := st.currRow;
    assert MarkLeft(g, st.calls, col, col, y) == Mark(g, st.calls, col, y);
    MarkLeftKeeps(g, st.calls, col, col, y);
    MarkLeftKeeps(g, Mark(g, st.calls, col, y), col - 1, l, y);
    MarkRightKeeps(g, MarkLeft(g, Mark(g, st.calls, col, y), col - 1, l, y), col + 1, e, y);
    OverlapsMark(st.(calls := MarkRun(g, st.calls, col, l, e, y), pend := Cast(y, seed, l, e - 1) + st.pend), 0, e - 1);
  }

  lemma {:induction false} VisitMarks(g: Image, st: State, seed: Shadow, col: int)
    requires WellMarked(g, st.calls)
    ensures WellMarked(g, Visit(g, st, seed, col).calls)
    decreases if col > seed.rgt then 0 else seed.rgt - col + 1
  {
    hide WellMarked, OneRun, LeftEnd, RunEnd;
    if col > seed.rgt || !st.found {
    } else if !Passes(g, col, st.currRow) {
      VisitMarks(g, st, seed, col + 1);
    } else {
      var l, e := LeftEnd(g, st.currRow, seed, col), RunEnd(g, col + 1, st.currRow);
      OneRunMarks(g, st, seed, col, l, e);
      VisitMarks(g, OneRun(g, st, seed, col, l, e), seed, e + 1);
    }
  }

  lemma {:induction false} MakeRowMarks(st: State, todo: seq<Shadow>)
    ensures MakeRow(st, todo).calls == st.calls && MakeRow(st, todo).found == st.found
    decreases |todo|
  {
    if todo != [] {
      var s := todo[0];
      var next :=
        if !s.ok then st
        else if st.row == [] then st.(currRow := s.row, row := [s])
        else if s.row == st.currRow then st.(row := Insert(st.row, s))
        else st.(pend := [s] + st.pend);
      MakeRowMarks(next, todo[1..]);
    }
  }

  /** At any moment of any run, the marked pixels pass the check, lay on cells that were 0,
      and were each marked and reported once. */
  lemma {:induction false} RunMarks(g: Image, st: State, n: nat)
    requires WellMarked(g, st.calls)
    ensures WellMarked(g, Run(g, st, n).calls)
    decreases n
  {
    if n > 0 && !Over(st) {
      if st.row == [] {
        MakeRowMarks(st.(pend := []), st.pend);
      } else if st.row[0].ok {
        VisitMarks(g, st.(row := st.row[1..]), st.row[0], st.row[0].lft);
      }
      RunMarks(g, Step(g, st), n - 1);
    }
  }

  // ----- What a run adds

  lemma {:induction false} LeftFrom(g: Image, calls: seq<Pixel>, x: int, l: int, y: int)
    ensures forall p | p in MarkLeft(g, calls, x, l, y) :: p in calls || (p.y == y && l <= p.x <= x)
    ensures forall p | p in calls :: p in MarkLeft(g, calls, x, l, y)
    decreases if x < l then 0 else x - l + 1
  {
    if x >= l { LeftFrom(g, Mark(g, calls, x, y), x - 1, l, y); }
  }

  lemma {:induction false} RightFrom(g: Image, calls: seq<Pixel>, x: int, e: int, y: int)
    ensures forall p | p in MarkRight(g, calls, x, e, y) :: p in calls || (p.y == y && x <= p.x < e)
    ensures forall p | p in calls :: p in MarkRight(g, calls, x, e, y)
    decreases if x >= e then 0 else e - x
  {
    if x < e { RightFrom(g, Mark(g, calls, x, y), x + 1, e, y); }
  }

  // ----- The seed itself

  lemma {:induction false} VisitGrows(g: Image, st: State, seed: Shadow, col: int)
    ensures forall p | p in st.calls :: p in Visit(g, st, seed, col).calls
    decreases if col > seed.rgt then 0 else seed.rgt - col + 1
  {
    hide OneRun, LeftEnd, RunEnd;
    if col > seed.rgt || !st.found {
    } else if !Passes(g, col, st.currRow) {
      VisitGrows(g, st, seed, col + 1);
    } else {
      var l, e := LeftEnd(g, st.currRow, seed, col), RunEnd(g, col + 1, st.currRow);
      OneRunGrows(g, st, seed, col, l, e);
      VisitGrows(g, OneRun(g, st, seed, col, l, e), seed, e + 1);
    }
  }

  lemma OneRunGrows(g: Image, st: State, seed: Shadow, col: int, l: int, e: int)
    ensures forall p | p in st.calls :: p in OneRun(g, st, seed, col, l, e).calls
    ensures g.blank(col, st.currRow) ==> Pixel(col, st.currRow) in OneRun(g, st, seed, col, l, e).calls
  {
    hide RemoveOverlaps, Cast, MarkLeft, MarkRight;
    var y := st.currRow;
    var first := Mark(g, st.calls, col, y);
    LeftFrom(g, first, col - 1, l, y);
    RightFrom(g, MarkLeft(g, first, col - 1, l, y), col + 1, e, y);
    OverlapsMark(st.(calls := MarkRun(g, st.calls, col, l, e, y), pend := Cast(y, seed, l, e - 1) + st.pend), 0, e - 1);
  }

  lemma {:induction false} RunGrows(g: Image, st: State, n: nat)
    ensures forall p | p in st.calls :: p in Run(g, st, n).calls
    decreases n
  {
    hide Visit, MakeRow;
    if n > 0 && !Over(st) {
      if st.row == [] {
        MakeRowMarks(st.(pend := []), st.pend);
      } else if st.row[0].ok {
        VisitGrows(g, st.(row := st.row[1..]), st.row[0], st.row[0].lft);
      }
      RunGrows(g, Step(g, st), n - 1);
    }
  }

  /** A seed that passes the check, on a cell that is 0, is marked in the first visit. */
  lemma SeedMarked(g: Image, x: int, y: int, n: nat)
    requires n >= 2 && Passes(g, x, y) && g.blank(x, y)
    ensures Pixel(x, y) in Run(g, Begin(x, y), n).calls
  {
    hide Visit, OneRun;
    var s := Shadow(x, x, y, y, true);
    var st := State([], [s], y, [], true);
    assert Begin(x, y).pend[1..] == [];
    assert MakeRow(State([], [], 0, [], true), [s]) == st;
    assert Step(g, Begin(x, y)) == st;
    var rest := st.(row := []);
    assert Step(g, st) == Visit(g, rest, s, x);
    assert Run(g, Begin(x, y), n) == Run(g, st, n - 1) == Run(g, Step(g, st), n - 2);
    SeedVisited(g, rest, s);
    RunGrows(g, Step(g, st), n - 2);
  }

  lemma SeedVisited(g: Image, st: State, s: Shadow)
    requires st.found && s.lft <= s.rgt && Passes(g, s.lft, st.currRow) && g.blank(s.lft, st.currRow)
    ensures Pixel(s.lft, st.currRow) in Visit(g, st, s, s.lft).calls
  {
    hide OneRun, LeftEnd, RunEnd;
    var l, e := LeftEnd(g, st.currRow, s, s.lft), RunEnd(g, s.lft + 1, st.currRow);
    OneRunGrows(g, st, s, s.lft, l, e);
    VisitGrows(g, OneRun(g, st, s, s.lft, l, e), s, e + 1);
  }

  // ----- What one visit covers

  lemma {:induction false} MarkLeftAll(g: Image, calls: seq<Pixel>, x: int, l: int, y: int, d: int)
    requires l <= d <= x && g.blank(d, y)
    ensures Pixel(d, y) in MarkLeft(g, calls, x, l, y)
    decreases if x < l then 0 else x - l + 1
  {
    if d == x {
      LeftFrom(g, Mark(g, calls, x, y), x - 1, l, y);
    } else {
      MarkLeftAll(g, Mark(g, calls, x, y), x - 1, l, y, d);
    }
  }

  lemma {:induction false} MarkRightAll(g: Image, calls: seq<Pixel>, x: int, e: int, y: int, d: int)
    requires x <= d < e && g.blank(d, y)
    ensures Pixel(d, y) in MarkRight(g, calls, x, e, y)
    decreases if x >= e then 0 else e - x
  {
    if d == x {
      RightFrom(g, Mark(g, calls, x, y), x + 1, e, y);
    } else {
      MarkRightAll(g, Mark(g, calls, x, y), x + 1, e, y, d);
    }
  }

  /** Every cell of a run that is 0 is marked. */
  lemma WholeRunMarked(g: Image, st: State, seed: Shadow, col: int, l: int, e: int, d: int)
    requires l <= col < e && l <= d < e && g.blank(d, st.currRow)
    ensures Pixel(d, st.currRow) in OneRun(g, st, seed, col, l, e).calls
  {
    hide RemoveOverlaps, Cast, MarkLeft, MarkRight;
    var y := st.currRow;
    var first := Mark(g, st.calls, col, y);
    var left := MarkLeft(g, first, col - 1, l, y);
    if d < col {
      MarkLeftAll(g, first, col - 1, l, y, d);
    } else if d == col {
      LeftFrom(g, first, col - 1, l, y);
    } else {
      MarkRightAll(g, left, col + 1, e, y, d);
    }
    RightFrom(g, left, col + 1, e, y);
    OverlapsMark(st.(calls := MarkRun(g, st.calls, col, l, e, y), pend := Cast(y, seed, l, e - 1) + st.pend), 0, e - 1);
  }

  /** All columns between `c` and `d` pass. */
  ghost predicate Joined(g: Image, c: int, d: int, y: int) {
    forall k | c <= k <= d || d <= k <= c :: Passes(g, k, y)
  }

  lemma RowStays(g: Image, st: State, seed: Shadow, col: int, l: int, e: int)
    ensures OneRun(g, st, seed, col, l, e).currRow == st.currRow
  {
    OverlapsMark(st.(calls := MarkRun(g, st.calls, col, l, e, st.currRow), pend := Cast(st.currRow, seed, l, e - 1) + st.pend),
                 0, e - 1);
  }

  /** A visit that does not crash marks all of every run that has a column in its shadow: each
      cell `d` that is 0 and joined by passing pixels of the row to a column `c` of the shadow. */
  lemma {:induction false} VisitCovers(g: Image, st: State, seed: Shadow, col: int, c: int, d: int)
    requires seed.lft <= col <= c <= seed.rgt && (col == seed.lft || !Passes(g, col - 1, st.currRow))
    requires Joined(g, c, d, st.currRow) && g.blank(d, st.currRow) && Visit(g, st, seed, col).found
    ensures Pixel(d, st.currRow) in Visit(g, st, seed, col).calls
    decreases seed.rgt - col
  {
    hide OneRun, Passes;
    var y := st.currRow;
    if !Passes(g, col, y) {
      VisitCovers(g, st, seed, col + 1, c, d);
    } else {
      var l, e := LeftEnd(g, y, seed, col), RunEnd(g, col + 1, y);
      var next := OneRun(g, st, seed, col, l, e);
      RowStays(g, st, seed, col, l, e);
      hide LeftEnd, RunEnd;
      if c < e {
        assert d < e by { assert d >= e ==> Passes(g, e, y); }
        assert l <= d by { assert d < l ==> Passes(g, l - 1, y); }
        WholeRunMarked(g, st, seed, col, l, e, d);
        VisitGrows(g, next, seed, e + 1);
      } else {
        assert c != e;
        VisitCovers(g, next, seed, e + 1, c, d);
      }
    }
  }

  // ----- When the program crashes

  /** A shadow of row `y` is pending. */
  predicate HasRow(pend: seq<Shadow>, y: int) {
    exists k :: 0 <= k < |pend| && pend[k].row == y
  }

  /** The first place from `i` on whose shadow begins after `rgt`; there the loop stops. */
  function Reached(row: seq<Shadow>, i: nat, rgt: int): (k: nat)
    requires i <= |row|
    ensures i <= k <= |row|
    decreases |row| - i
  {
    if i < |row| && row[i].lft <= rgt then Reached(row, i + 1, rgt) else i
  }

  lemma {:induction false} FirstFound(pend: seq<Shadow>, y: int)
    ensures FirstInRow(pend, y) < |pend| <==> HasRow(pend, y)
  {
    if pend != [] && pend[0].row != y {
      FirstFound(pend[1..], y);
      if HasRow(pend, y) {
        var k :| 0 <= k < |pend| && pend[k].row == y;
        assert pend[1..][k - 1].row == y;
      }
    }
  }

  /** A removal leaves shadows pending in the same rows as before. */
  lemma SameRows(pend: seq<Shadow>, rw: Shadow, j: nat, y: int)
    requires j < |pend|
    ensures HasRow(PendAfter(pend, rw, j), y) <==> HasRow(pend, y)
  {
    var pieces := Pieces(pend[j].lft, pend[j].rgt, pend[j].row, rw);
    var after := PendAfter(pend, rw, j);
    if HasRow(pend, y) {
      var k :| 0 <= k < |pend| && pend[k].row == y;
      assert after[|pieces| + k].row == y;
    }
    if HasRow(after, y) {
      var k :| 0 <= k < |after| && after[k].row == y;
      if k < |pieces| {
        assert pieces[k].row == pend[j].row;
      } else {
        assert pend[k - |pieces|].row == y;
      }
    }
  }

  lemma {:induction false} ReachedStays(row: seq<Shadow>, row': seq<Shadow>, i: nat, rgt: int)
    requires |row| == |row'| && i <= |row| && forall k | i <= k < |row| :: row'[k] == row[k]
    ensures Reached(row', i, rgt) == Reached(row, i, rgt)
    decreases |row| - i
  {
    if i < |row| && row[i].lft <= rgt { ReachedStays(row, row', i + 1, rgt); }
  }

  /** The loop over the row ends well exactly when each shadow it comes to, if it is not spent,
      was made from a row in which a shadow is pending. */
  lemma {:induction false} OverlapsFound(st: State, i: nat, rgt: int)
    requires st.found && i <= |st.row|
    ensures RemoveOverlaps(st, i, rgt).found <==>
            forall k | i <= k < Reached(st.row, i, rgt) && st.row[k].ok :: HasRow(st.pend, st.row[k].par)
    decreases |st.row| - i
  {
    hide HasRow, PendAfter, Shortened;
    if i < |st.row| && st.row[i].lft <= rgt {
      if st.row[i].ok {
        var next := RemoveOverlap(st, i);
        var j := FirstInRow(st.pend, st.row[i].par);
        FirstFound(st.pend, st.row[i].par);
        if j < |st.pend| {
          OverlapsFound(next, i + 1, rgt);
          ReachedStays(st.row, next.row, i + 1, rgt);
          forall y ensures HasRow(next.pend, y) <==> HasRow(st.pend, y) { SameRows(st.pend, st.row[i], j, y); }
        }
      } else {
        OverlapsFound(st, i + 1, rgt);
      }
    }
  }

  lemma CastRows(currRow: int, seed: Shadow, lft: int, rgt: int, pend: seq<Shadow>, y: int)
    requires lft <= rgt
    ensures HasRow(Cast(currRow, seed, lft, rgt) + pend, y) <==>
            || HasRow(pend, y)
            || (y == currRow + 1 && (currRow >= seed.par || rgt > seed.rgt + 1 || lft < seed.lft - 1))
            || (y == currRow - 1 && (currRow <= seed.par || rgt > seed.rgt + 1 || lft < seed.lft - 1))
  {
    var cast := Cast(currRow, seed, lft, rgt);
    assert forall k | 0 <= k < |cast| :: (cast + pend)[k] == cast[k];
    assert forall k | 0 <= k < |pend| :: (cast + pend)[|cast| + k] == pend[k];
    assert HasRow(cast + pend, y) <==> HasRow(cast, y) || HasRow(pend, y);
    var pieces := Pieces(lft, rgt, if currRow > seed.par then currRow - 1 else currRow + 1, seed);
    assert pieces != [] <==> rgt > seed.rgt + 1 || lft < seed.lft - 1;
    if currRow > seed.par {
      assert cast[|pieces|].row == currRow + 1;
      if pieces != [] { assert cast[0].row == currRow - 1; }
    } else if currRow < seed.par {
      assert cast[|pieces|].row == currRow - 1;
      if pieces != [] { assert cast[0].row == currRow + 1; }
    } else {
      assert cast[0].row == currRow - 1 && cast[1].row == currRow + 1;
    }
  }

  /** The row `y` has a pending shadow once the shadows of the run `lft..rgt` are cast. */
  predicate Supplied(st: State, seed: Shadow, lft: int, rgt: int, y: int) {
    || HasRow(st.pend, y)
    || (y == st.currRow + 1 && (st.currRow >= seed.par || rgt > seed.rgt + 1 || lft < seed.lft - 1))
    || (y == st.currRow - 1 && (st.currRow <= seed.par || rgt > seed.rgt + 1 || lft < seed.lft - 1))
  }

  /** `makeShadows` follows a null pointer exactly when it comes to a shadow of the row that is
      not spent and was made from a row without a pending shadow: the row of the seed's parent,
      into which the run casts nothing when it does not reach beyond the seed shadow. */
  lemma CrashesExactly(st: State, seed: Shadow, lft: int, rgt: int)
    requires st.found && lft <= rgt
    ensures !MakeShadows(st, seed, lft, rgt).found <==>
            exists k :: 0 <= k < Reached(st.row, 0, rgt) && st.row[k].ok && !Supplied(st, seed, lft, rgt, st.row[k].par)
  {
    hide HasRow, Cast, RemoveOverlaps;
    OverlapsFound(st.(pend := Cast(st.currRow, seed, lft, rgt) + st.pend), 0, rgt);
    forall y
      ensures HasRow(Cast(st.currRow, seed, lft, rgt) + st.pend, y) <==> Supplied(st, seed, lft, rgt, y)
    {
      CastRows(st.currRow, seed, lft, rgt, st.pend, y);
    }
  }
}
