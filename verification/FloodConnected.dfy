/** Which pixels a flood fill marks: when they are connected to the seed, and when not. */
module FloodConnected {
  import opened FloodFill

  // ----- Connected pixels

  predicate Adjacent(p: Pixel, q: Pixel) {
    (p.x == q.x && (p.y == q.y + 1 || q.y == p.y + 1)) || (p.y == q.y && (p.x == q.x + 1 || q.x == p.x + 1))
  }

  /** A path of pixels that pass the check, each next to the one before. */
  predicate Path(g: Image, w: seq<Pixel>) {
    && w != [] && (forall i | 0 <= i < |w| :: Passes(g, w[i].x, w[i].y))
    && (forall i | 0 <= i < |w| - 1 :: Adjacent(w[i], w[i + 1]))
  }

  predicate PathTo(g: Image, w: seq<Pixel>, s: Pixel, p: Pixel) {
    Path(g, w) && w[0] == s && w[|w| - 1] == p
  }

  /** `p` is 4-connected to `s` through pixels that pass. */
  ghost predicate Connected(g: Image, s: Pixel, p: Pixel) {
    exists w :: PathTo(g, w, s, p)
  }

  lemma ConnectedStart(g: Image, s: Pixel)
    requires Passes(g, s.x, s.y)
    ensures Connected(g, s, s)
  {
    assert PathTo(g, [s], s, s);
  }

  lemma ConnectedNext(g: Image, s: Pixel, p: Pixel, q: Pixel)
    requires Connected(g, s, p) && Adjacent(p, q) && Passes(g, q.x, q.y)
    ensures Connected(g, s, q)
  {
    var w :| PathTo(g, w, s, p);
    assert PathTo(g, w + [q], s, q);
  }

  /** A run hangs together. */
  lemma {:induction false} RunConnected(g: Image, s: Pixel, c: int, d: int, y: int)
    requires Connected(g, s, Pixel(c, y))
    requires forall k | c <= k <= d || d <= k <= c :: Passes(g, k, y)
    ensures Connected(g, s, Pixel(d, y))
    decreases if c < d then d - c else c - d
  {
    hide Connected;
    if c < d {
      RunConnected(g, s, c, d - 1, y);
      ConnectedNext(g, s, Pixel(d - 1, y), Pixel(d, y));
    } else if d < c {
      RunConnected(g, s, c, d + 1, y);
      ConnectedNext(g, s, Pixel(d + 1, y), Pixel(d, y));
    }
  }

  /** Every column of the shadow whose pixel passes is connected to the seed. */
  ghost predicate Clean(g: Image, s0: Pixel, s: Shadow) {
    forall c | s.lft <= c <= s.rgt && Passes(g, c, s.row) :: Connected(g, s0, Pixel(c, s.row))
  }

  ghost predicate AllClean(g: Image, s0: Pixel, ss: seq<Shadow>) {
    forall i | 0 <= i < |ss| :: Clean(g, s0, ss[i])
  }

  // ----- The removal of one overlap

  /** The two stretches overlap, or at most one column lies between them. */
  predicate Touch(a: Shadow, b: Shadow) {
    a.lft <= b.rgt + 2 && b.lft <= a.rgt + 2
  }

  /** The stretch `a` lies in the stretch `b`. */
  predicate Within(a: Shadow, b: Shadow) {
    b.lft <= a.lft && a.rgt <= b.rgt
  }

  /** Removing an overlap leaves only parts of the two shadows exactly when they touch, which
      the program does not test. */
  lemma TouchIsExact(rw: Shadow, child: Shadow)
    requires rw.lft <= rw.rgt && child.lft <= child.rgt
    ensures Touch(rw, child) <==>
      && (forall s | s in Pieces(child.lft, child.rgt, child.row, rw) :: Within(s, child))
      && Within(Shortened(rw, child), rw)
  {
    var pieces := Pieces(child.lft, child.rgt, child.row, rw);
    if child.rgt > rw.rgt + 1 {
      assert pieces[0] == Shadow(rw.rgt + 2, child.rgt, child.row, rw.row, true);
      assert pieces[0] in pieces;
    }
    if child.lft < rw.lft - 1 {
      var last := pieces[|pieces| - 1];
      assert last == Shadow(child.lft, rw.lft - 2, child.row, rw.row, true);
      assert last in pieces;
    }
  }

  /** Every column that the stretch `a` has beyond the stretch `b` of the same row fails the
      check or is connected to the seed. */
  ghost predicate AddsNothing(g: Image, s0: Pixel, a: Shadow, b: Shadow) {
    forall c | a.lft <= c <= a.rgt && !(b.lft <= c <= b.rgt) && Passes(g, c, a.row) :: Connected(g, s0, Pixel(c, a.row))
  }

  /** Every column that the removal adds outside both stretches fails the check or is connected. */
  ghost predicate Harmless(g: Image, s0: Pixel, rw: Shadow, child: Shadow) {
    && (forall s | s in Pieces(child.lft, child.rgt, child.row, rw) :: AddsNothing(g, s0, s, child))
    && AddsNothing(g, s0, Shortened(rw, child), rw)
  }

  /** On clean shadows a removal is harmless exactly when it leaves clean shadows. */
  lemma HarmlessIsExact(g: Image, s0: Pixel, rw: Shadow, child: Shadow)
    requires Clean(g, s0, rw) && Clean(g, s0, child)
    ensures Harmless(g, s0, rw, child) <==>
      && AllClean(g, s0, Pieces(child.lft, child.rgt, child.row, rw))
      && Clean(g, s0, Shortened(rw, child))
  {
    hide Connected;
    var pieces := Pieces(child.lft, child.rgt, child.row, rw);
    assert forall k | 0 <= k < |pieces| :: pieces[k] in pieces && pieces[k].row == child.row;
  }

  /** On stretches that touch, a removal is harmless whatever the image holds. */
  lemma TouchIsHarmless(g: Image, s0: Pixel, rw: Shadow, child: Shadow)
    requires rw.lft <= rw.rgt && child.lft <= child.rgt && Touch(rw, child)
    ensures Harmless(g, s0, rw, child)
  {
    hide Connected;
    TouchIsExact(rw, child);
  }

  // ----- A fill whose removals are harmless

  /** Everything marked is connected to the seed, every shadow is clean, and the shadows of the
      row belong to it. */
  ghost predicate Sound(g: Image, s0: Pixel, st: State) {
    && (forall p | p in st.calls :: Connected(g, s0, p))
    && AllClean(g, s0, st.pend) && AllClean(g, s0, st.row)
    && (forall i | 0 <= i < |st.row| :: st.row[i].row == st.currRow)
  }

  /** The removal on the shadow at place `i` is fine, if the child is found. */
  ghost predicate Removes(fine: (Shadow, Shadow) -> bool, st: State, i: nat)
    requires i < |st.row|
  {
    var j := FirstInRow(st.pend, st.row[i].par);
    j < |st.pend| ==> fine(st.row[i], st.pend[j])
  }

  /** So are all removals of the loop over the row. */
  ghost predicate OverlapsRemove(fine: (Shadow, Shadow) -> bool, st: State, i: nat, rgt: int)
    requires i <= |st.row|
    decreases |st.row| - i
  {
    st.found && i < |st.row| && st.row[i].lft <= rgt ==>
      && (st.row[i].ok ==> Removes(fine, st, i))
      && OverlapsRemove(fine, if st.row[i].ok then RemoveOverlap(st, i) else st, i + 1, rgt)
  }

  ghost predicate OneRunRemoves(fine: (Shadow, Shadow) -> bool, st: State, seed: Shadow, l: int, e: int) {
    OverlapsRemove(fine, st.(pend := Cast(st.currRow, seed, l, e - 1) + st.pend), 0, e - 1)
  }

  /** All removals of a visit, from column `col` on. */
  ghost predicate VisitRemoves(g: Image, fine: (Shadow, Shadow) -> bool, st: State, seed: Shadow, col: int)
    decreases if col > seed.rgt then 0 else seed.rgt - col + 1
  {
    col <= seed.rgt && st.found ==>
      if !Passes(g, col, st.currRow) then VisitRemoves(g, fine, st, seed, col + 1)
      else
        var l, e := LeftEnd(g, st.currRow, seed, col), RunEnd(g, col + 1, st.currRow);
        var marked := st.(calls := MarkRun(g, st.calls, col, l, e, st.currRow));
        && OneRunRemoves(fine, marked, seed, l, e)
        && VisitRemoves(g, fine, OneRun(g, st, seed, col, l, e), seed, e + 1)
  }

  /** All removals of the first `n` steps. */
  ghost predicate RunRemoves(g: Image, fine: (Shadow, Shadow) -> bool, st: State, n: nat)
    decreases n
  {
    n > 0 && !Over(st) ==>
      && (st.row != [] && st.row[0].ok ==> VisitRemoves(g, fine, st.(row := st.row[1..]), st.row[0], st.row[0].lft))
      && RunRemoves(g, fine, Step(g, st), n - 1)
  }

  ghost function HarmlessPair(g: Image, s0: Pixel): (Shadow, Shadow) -> bool {
    (rw, child) => Harmless(g, s0, rw, child)
  }

  ghost predicate RunHarmless(g: Image, s0: Pixel, st: State, n: nat) {
    RunRemoves(g, HarmlessPair(g, s0), st, n)
  }

  lemma OverlapSound(g: Image, s0: Pixel, st: State, i: nat)
    requires i < |st.row| && Sound(g, s0, st) && Removes(HarmlessPair(g, s0), st, i)
    ensures Sound(g, s0, RemoveOverlap(st, i))
  {
    hide Connected, Harmless;
    var rw := st.row[i];
    var j := FirstInRow(st.pend, rw.par);
    if j < |st.pend| {
      var child := st.pend[j];
      HarmlessIsExact(g, s0, rw, child);
      assert Clean(g, s0, Spent(child));
      hide Clean, Pieces;
      assert AllClean(g, s0, st.pend[j := Spent(child)]);
      assert AllClean(g, s0, PendAfter(st.pend, rw, j));
    }
  }

  lemma {:induction false} OverlapsSound(g: Image, s0: Pixel, st: State, i: nat, rgt: int)
    requires i <= |st.row| && Sound(g, s0, st) && OverlapsRemove(HarmlessPair(g, s0), st, i, rgt)
    ensures Sound(g, s0, RemoveOverlaps(st, i, rgt))
    decreases |st.row| - i
  {
    hide Sound, RemoveOverlap, Removes, HarmlessPair;
    if st.found && i < |st.row| && st.row[i].lft <= rgt {
      if st.row[i].ok {
        OverlapSound(g, s0, st, i);
        OverlapsSound(g, s0, RemoveOverlap(st, i), i + 1, rgt);
      } else {
        OverlapsSound(g, s0, st, i + 1, rgt);
      }
    }
  }

  /** The shadows cast by a connected run are clean. */
  lemma CastClean(g: Image, s0: Pixel, y: int, seed: Shadow, l: int, r: int)
    requires l <= seed.rgt && seed.lft <= r
    requires forall c | l <= c <= r :: Connected(g, s0, Pixel(c, y))
    ensures AllClean(g, s0, Cast(y, seed, l, r))
  {
    hide Connected;
    forall c, row | l <= c <= r && (row == y + 1 || row == y - 1) && Passes(g, c, row)
      ensures Connected(g, s0, Pixel(c, row))
    {
      ConnectedNext(g, s0, Pixel(c, y), Pixel(c, row));
    }
  }

  lemma MarkedConnected(g: Image, s0: Pixel, calls: seq<Pixel>, col: int, l: int, e: int, y: int)
    requires forall p | p in calls :: Connected(g, s0, p)
    requires l <= col < e && forall c | l <= c < e :: Connected(g, s0, Pixel(c, y))
    ensures forall p | p in MarkRun(g, calls, col, l, e, y) :: Connected(g, s0, p)
  {
    hide Connected;
    var first := Mark(g, calls, col, y);
    LeftFrom(g, first, col - 1, l, y);
    RightFrom(g, MarkLeft(g, first, col - 1, l, y), col + 1, e, y);
  }

  /** A run over a clean shadow is connected to the seed. */
  lemma RunFromShadow(g: Image, s0: Pixel, seed: Shadow, col: int, l: int, e: int)
    requires Clean(g, s0, seed) && seed.lft <= col <= seed.rgt
    requires l <= col < e && forall c | l <= c < e :: Passes(g, c, seed.row)
    ensures forall c | l <= c < e :: Connected(g, s0, Pixel(c, seed.row))
  {
    hide Connected;
    assert Connected(g, s0, Pixel(col, seed.row));
    forall c | l <= c < e
      ensures Connected(g, s0, Pixel(c, seed.row))
    {
      RunConnected(g, s0, col, c, seed.row);
    }
  }

  lemma OneRunSound(g: Image, s0: Pixel, st: State, seed: Shadow, col: int, l: int, e: int)
    requires Sound(g, s0, st) && Clean(g, s0, seed) && seed.row == st.currRow
    requires seed.lft <= col <= seed.rgt
    requires l <= col < e && forall c | l <= c < e :: Passes(g, c, st.currRow)
    requires OneRunRemoves(HarmlessPair(g, s0), st.(calls := MarkRun(g, st.calls, col, l, e, st.currRow)), seed, l, e)
    ensures Sound(g, s0, OneRun(g, st, seed, col, l, e))
  {
    hide Connected, Clean, Cast, MarkRun, RemoveOverlaps, OverlapsRemove, HarmlessPair;
    RunFromShadow(g, s0, seed, col, l, e);
    MarkedConnected(g, s0, st.calls, col, l, e, st.currRow);
    CastClean(g, s0, st.currRow, seed, l, e - 1);
    var cast := st.(calls := MarkRun(g, st.calls, col, l, e, st.currRow), pend := Cast(st.currRow, seed, l, e - 1) + st.pend);
    OverlapsSound(g, s0, cast, 0, e - 1);
  }

  lemma {:induction false} VisitSound(g: Image, s0: Pixel, st: State, seed: Shadow, col: int)
    requires Sound(g, s0, st) && Clean(g, s0, seed) && seed.row == st.currRow && seed.lft <= col
    requires VisitRemoves(g, HarmlessPair(g, s0), st, seed, col)
    ensures Sound(g, s0, Visit(g, st, seed, col))
    decreases if col > seed.rgt then 0 else seed.rgt - col + 1
  {
    hide Sound, Clean, OneRun, OneRunRemoves, LeftEnd, RunEnd;
    if col > seed.rgt || !st.found {
    } else if !Passes(g, col, st.currRow) {
      VisitSound(g, s0, st, seed, col + 1);
    } else {
      var l, e := LeftEnd(g, st.currRow, seed, col), RunEnd(g, col + 1, st.currRow);
      OneRunSound(g, s0, st, seed, col, l, e);
      RowStays(g, st, seed, col, l, e);
      VisitSound(g, s0, OneRun(g, st, seed, col, l, e), seed, e + 1);
    }
  }

  lemma {:induction false} InsertClean(g: Image, s0: Pixel, row: seq<Shadow>, s: Shadow, y: int)
    requires AllClean(g, s0, row) && Clean(g, s0, s) && s.row == y && forall i | 0 <= i < |row| :: row[i].row == y
    ensures AllClean(g, s0, Insert(row, s)) && forall i | 0 <= i < |Insert(row, s)| :: Insert(row, s)[i].row == y
  {
    hide Clean;
    if row != [] && s.lft > row[0].lft { InsertClean(g, s0, row[1..], s, y); }
  }

  lemma {:induction false} MakeRowSound(g: Image, s0: Pixel, st: State, todo: seq<Shadow>)
    requires Sound(g, s0, st) && AllClean(g, s0, todo)
    ensures Sound(g, s0, MakeRow(st, todo))
    decreases |todo|
  {
    hide Clean, Connected, Insert;
    if todo != [] {
      var s := todo[0];
      assert Clean(g, s0, s);
      if s.ok && st.row != [] && s.row == st.currRow { InsertClean(g, s0, st.row, s, st.currRow); }
      var next :=
        if !s.ok then st
        else if st.row == [] then st.(currRow := s.row, row := [s])
        else if s.row == st.currRow then st.(row := Insert(st.row, s))
        else st.(pend := [s] + st.pend);
      MakeRowSound(g, s0, next, todo[1..]);
    }
  }

  lemma {:induction false} RunSound(g: Image, s0: Pixel, st: State, n: nat)
    requires Sound(g, s0, st) && RunRemoves(g, HarmlessPair(g, s0), st, n)
    ensures Sound(g, s0, Run(g, st, n))
    decreases n
  {
    hide Clean, Connected, Visit, VisitRemoves, MakeRow;
    if n > 0 && !Over(st) {
      if st.row == [] {
        MakeRowSound(g, s0, st.(pend := []), st.pend);
      } else {
        var seed, rest := st.row[0], st.(row := st.row[1..]);
        if seed.ok { VisitSound(g, s0, rest, seed, seed.lft); }
      }
      RunSound(g, s0, Step(g, st), n - 1);
    }
  }

  /** As long as every overlap removed was removed without harm, only pixels connected to the
      seed are marked. */
  lemma MarksConnected(g: Image, s0: Pixel, n: nat, p: Pixel)
    requires RunHarmless(g, s0, Begin(s0.x, s0.y), n) && p in Run(g, Begin(s0.x, s0.y), n).calls
    ensures Connected(g, s0, p)
  {
    hide Connected, Run, RunRemoves;
    var s := Begin(s0.x, s0.y).pend[0];
    if Passes(g, s0.x, s0.y) { ConnectedStart(g, s0); }
    assert Clean(g, s0, s);
    RunSound(g, s0, Begin(s0.x, s0.y), n);
  }

  // ----- Exactly when a fill marks connected pixels only

  lemma OneRunAdds(g: Image, st: State, seed: Shadow, col: int, l: int, e: int, p: Pixel)
    requires l <= col < e && p in OneRun(g, st, seed, col, l, e).calls
    ensures p in st.calls || (p.y == st.currRow && l <= p.x < e)
  {
    hide RemoveOverlaps, Cast, MarkLeft, MarkRight;
    var y := st.currRow;
    var first := Mark(g, st.calls, col, y);
    LeftFrom(g, first, col - 1, l, y);
    RightFrom(g, MarkLeft(g, first, col - 1, l, y), col + 1, e, y);
    OverlapsMark(st.(calls := MarkRun(g, st.calls, col, l, e, y), pend := Cast(y, seed, l, e - 1) + st.pend), 0, e - 1);
  }

  /** What a visit marks is joined to a column of its shadow. */
  lemma {:induction false} VisitAdds(g: Image, st: State, seed: Shadow, col: int, p: Pixel) returns (c: int)
    requires seed.lft <= col && p in Visit(g, st, seed, col).calls && p !in st.calls
    ensures seed.lft <= c <= seed.rgt && p.y == st.currRow && Joined(g, c, p.x, p.y)
    decreases if col > seed.rgt then 0 else seed.rgt - col + 1
  {
    hide OneRun, LeftEnd, RunEnd, Passes;
    var y := st.currRow;
    if !Passes(g, col, y) {
      c := VisitAdds(g, st, seed, col + 1, p);
    } else {
      var l, e := LeftEnd(g, y, seed, col), RunEnd(g, col + 1, y);
      var next := OneRun(g, st, seed, col, l, e);
      RowStays(g, st, seed, col, l, e);
      if p in next.calls {
        OneRunAdds(g, st, seed, col, l, e, p);
        c := col;
      } else {
        c := VisitAdds(g, next, seed, e + 1, p);
      }
    }
  }

  /** The step from `st` visits a shadow; each cell that is 0 on a run which meets the shadow
      is connected to the seed. */
  ghost predicate VisitsConnected(g: Image, s0: Pixel, st: State) {
    !Over(st) && st.row != [] && st.row[0].ok ==>
      forall c, d | st.row[0].lft <= c <= st.row[0].rgt && Joined(g, c, d, st.currRow) && g.blank(d, st.currRow) ::
        Connected(g, s0, Pixel(d, st.currRow))
  }

  /** So does every step before step `n`. */
  ghost predicate AllVisitsConnected(g: Image, s0: Pixel, st: State, n: nat) {
    forall k: nat | k < n :: VisitsConnected(g, s0, Run(g, st, k))
  }

  ghost predicate MarkedAre(g: Image, s0: Pixel, st: State) {
    forall p | p in st.calls :: Connected(g, s0, p)
  }

  lemma StepAdds(g: Image, s0: Pixel, st: State)
    requires WellMarked(g, st.calls) && !Over(st) && VisitsConnected(g, s0, st) && MarkedAre(g, s0, st)
    ensures MarkedAre(g, s0, Step(g, st))
  {
    hide Connected, Visit, MakeRow, Joined;
    if st.row == [] {
      MakeRowMarks(st.(pend := []), st.pend);
    } else if st.row[0].ok {
      var seed, rest := st.row[0], st.(row := st.row[1..]);
      VisitMarks(g, rest, seed, seed.lft);
      forall p | p in Visit(g, rest, seed, seed.lft).calls && p !in st.calls
        ensures Connected(g, s0, p)
      {
        var c := VisitAdds(g, rest, seed, seed.lft, p);
      }
    }
  }

  /** A step that does not crash and marks connected pixels only visits such runs only. */
  lemma StepShows(g: Image, s0: Pixel, st: State)
    requires !Over(st) && Step(g, st).found && MarkedAre(g, s0, Step(g, st))
    ensures VisitsConnected(g, s0, st)
  {
    hide Connected, Visit, MakeRow, Joined;
    if st.row != [] && st.row[0].ok {
      var seed, rest := st.row[0], st.(row := st.row[1..]);
      forall c, d | seed.lft <= c <= seed.rgt && Joined(g, c, d, st.currRow) && g.blank(d, st.currRow)
        ensures Connected(g, s0, Pixel(d, st.currRow))
      {
        VisitCovers(g, rest, seed, seed.lft, c, d);
      }
    }
  }

  lemma {:induction false} RunFound(g: Image, st: State, n: nat)
    requires Run(g, st, n).found
    ensures st.found
    decreases n
  {
    if n > 0 && !Over(st) { RunFound(g, Step(g, st), n - 1); }
  }

  lemma {:induction false} MarksTell(g: Image, s0: Pixel, st: State, n: nat)
    requires WellMarked(g, st.calls) && MarkedAre(g, s0, st)
    ensures AllVisitsConnected(g, s0, st, n) ==> MarkedAre(g, s0, Run(g, st, n))
    ensures Run(g, st, n).found && MarkedAre(g, s0, Run(g, st, n)) ==> AllVisitsConnected(g, s0, st, n)
    decreases n
  {
    hide VisitsConnected, MarkedAre, Step, WellMarked;
    if n > 0 && !Over(st) {
      var next := Step(g, st);
      RunMarks(g, st, 1);
      assert Run(g, st, 1) == next;
      assert Run(g, st, 0) == st;
      assert forall k: nat | 0 < k :: Run(g, st, k) == Run(g, next, k - 1);
      if forall k: nat | k < n :: VisitsConnected(g, s0, Run(g, st, k)) {
        StepAdds(g, s0, st);
        forall k: nat | k < n - 1
          ensures VisitsConnected(g, s0, Run(g, next, k))
        {
          assert Run(g, st, k + 1) == Run(g, next, k);
        }
        MarksTell(g, s0, next, n - 1);
      }
      if Run(g, st, n).found && MarkedAre(g, s0, Run(g, st, n)) {
        RunFound(g, next, n - 1);
        MarkedBefore(g, s0, next, n - 1);
        StepShows(g, s0, st);
        MarksTell(g, s0, next, n - 1);
        forall k: nat | k < n
          ensures VisitsConnected(g, s0, Run(g, st, k))
        {
          if k > 0 { assert Run(g, st, k) == Run(g, next, k - 1); }
        }
      }
    } else {
      NothingMore(g, s0, st, n);
    }
  }

  lemma MarkedBefore(g: Image, s0: Pixel, st: State, n: nat)
    requires MarkedAre(g, s0, Run(g, st, n))
    ensures MarkedAre(g, s0, st)
  {
    RunGrows(g, st, n);
  }

  lemma NothingMore(g: Image, s0: Pixel, st: State, n: nat)
    requires n == 0 || Over(st)
    ensures forall k: nat | k < n :: Run(g, st, k) == st && VisitsConnected(g, s0, Run(g, st, k))
    ensures Run(g, st, n) == st
  {}

  /** A fill that has not crashed has marked connected pixels only, exactly when every shadow it
      visited met only runs whose cells that were 0 are connected to the seed. */
  lemma ConnectedExactly(g: Image, s0: Pixel, n: nat)
    ensures AllVisitsConnected(g, s0, Begin(s0.x, s0.y), n) ==>
              forall p | p in Run(g, Begin(s0.x, s0.y), n).calls :: Connected(g, s0, p)
    ensures Run(g, Begin(s0.x, s0.y), n).found ==>
            ((forall p | p in Run(g, Begin(s0.x, s0.y), n).calls :: Connected(g, s0, p)) <==>
             AllVisitsConnected(g, s0, Begin(s0.x, s0.y), n))
  {
    hide AllVisitsConnected, Connected, Run;
    MarksTell(g, s0, Begin(s0.x, s0.y), n);
  }

  /** On a map that is all 0: exactly when each passing column of the shadow is connected. */
  lemma OnBlankMap(g: Image, s0: Pixel, st: State)
    requires forall x, y :: g.blank(x, y)
    ensures VisitsConnected(g, s0, st) <==>
            (!Over(st) && st.row != [] && st.row[0].ok ==>
               forall c | st.row[0].lft <= c <= st.row[0].rgt && Passes(g, c, st.currRow) :: Connected(g, s0, Pixel(c, st.currRow)))
  {
    hide Connected;
    var y := st.currRow;
    if !Over(st) && st.row != [] && st.row[0].ok {
      if VisitsConnected(g, s0, st) {
        forall c | st.row[0].lft <= c <= st.row[0].rgt && Passes(g, c, y)
          ensures Connected(g, s0, Pixel(c, y))
        {
          assert Joined(g, c, c, y);
        }
      }
      if forall c | st.row[0].lft <= c <= st.row[0].rgt && Passes(g, c, y) :: Connected(g, s0, Pixel(c, y)) {
        forall c, d | st.row[0].lft <= c <= st.row[0].rgt && Joined(g, c, d, y) && g.blank(d, y)
          ensures Connected(g, s0, Pixel(d, y))
        {
          assert Passes(g, c, y);
          RunConnected(g, s0, c, d, y);
        }
      }
    }
  }
}
