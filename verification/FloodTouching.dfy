/** The test that `removeOverlap` leaves out, for a whole fill: when the two shadows of every
    removal touch, only connected pixels are marked, whatever the image holds. */
module FloodTouching {
  import opened FloodFill
  import opened FloodConnected

  predicate Wide(ss: seq<Shadow>) {
    forall i | 0 <= i < |ss| :: ss[i].lft <= ss[i].rgt
  }

  predicate AllWide(st: State) {
    Wide(st.pend) && Wide(st.row)
  }

  /** On shadows that are not empty. */
  ghost predicate Implies(fine: (Shadow, Shadow) -> bool, more: (Shadow, Shadow) -> bool) {
    forall a: Shadow, b: Shadow | a.lft <= a.rgt && b.lft <= b.rgt && fine(a, b) :: more(a, b)
  }

  lemma OverlapWide(fine: (Shadow, Shadow) -> bool, more: (Shadow, Shadow) -> bool, st: State, i: nat)
    requires i < |st.row| && AllWide(st) && Implies(fine, more)
    ensures AllWide(RemoveOverlap(st, i)) && (Removes(fine, st, i) ==> Removes(more, st, i))
  {
    var rw := st.row[i];
    var j := FirstInRow(st.pend, rw.par);
    if j < |st.pend| {
      var child := st.pend[j];
      assert Wide(Pieces(child.lft, child.rgt, child.row, rw));
      assert Wide(st.pend[j := Spent(child)]);
    }
  }

  lemma {:induction false} OverlapsWide(fine: (Shadow, Shadow) -> bool, more: (Shadow, Shadow) -> bool, st: State,
          i: nat, rgt: int)
    requires i <= |st.row| && AllWide(st) && Implies(fine, more)
    ensures AllWide(RemoveOverlaps(st, i, rgt)) && (OverlapsRemove(fine, st, i, rgt) ==> OverlapsRemove(more, st, i, rgt))
    decreases |st.row| - i
  {
    hide AllWide, Implies, RemoveOverlap, Removes;
    if st.found && i < |st.row| && st.row[i].lft <= rgt {
      if st.row[i].ok { OverlapWide(fine, more, st, i); }
      OverlapsWide(fine, more, if st.row[i].ok then RemoveOverlap(st, i) else st, i + 1, rgt);
    }
  }

  lemma CastWide(y: int, seed: Shadow, l: int, r: int, pend: seq<Shadow>)
    requires l <= r && Wide(pend)
    ensures Wide(Cast(y, seed, l, r) + pend)
  {
    assert Wide(Cast(y, seed, l, r));
  }

  lemma OneRunWide(g: Image, fine: (Shadow, Shadow) -> bool, more: (Shadow, Shadow) -> bool, st: State, seed: Shadow,
          col: int, l: int, e: int)
    requires AllWide(st) && Implies(fine, more) && l < e
    ensures AllWide(OneRun(g, st, seed, col, l, e))
    ensures var marked := st.(calls := MarkRun(g, st.calls, col, l, e, st.currRow));
            OneRunRemoves(fine, marked, seed, l, e) ==> OneRunRemoves(more, marked, seed, l, e)
  {
    hide Implies, MarkRun, Cast, RemoveOverlaps, OverlapsRemove;
    CastWide(st.currRow, seed, l, e - 1, st.pend);
    hide Wide;
    var marked := st.(calls := MarkRun(g, st.calls, col, l, e, st.currRow));
    OverlapsWide(fine, more, marked.(pend := Cast(st.currRow, seed, l, e - 1) + st.pend), 0, e - 1);
  }

  lemma {:induction false} VisitWide(g: Image, fine: (Shadow, Shadow) -> bool, more: (Shadow, Shadow) -> bool,
          st: State, seed: Shadow, col: int)
    requires AllWide(st) && Implies(fine, more)
    ensures AllWide(Visit(g, st, seed, col)) && (VisitRemoves(g, fine, st, seed, col) ==> VisitRemoves(g, more, st, seed, col))
    decreases if col > seed.rgt then 0 else seed.rgt - col + 1
  {
    hide AllWide, Implies, OneRun, OneRunRemoves;
    if col > seed.rgt || !st.found {
    } else if !Passes(g, col, st.currRow) {
      VisitWide(g, fine, more, st, seed, col + 1);
    } else {
      var l, e := LeftEnd(g, st.currRow, seed, col), RunEnd(g, col + 1, st.currRow);
      hide LeftEnd, RunEnd;
      OneRunWide(g, fine, more, st, seed, col, l, e);
      VisitWide(g, fine, more, OneRun(g, st, seed, col, l, e), seed, e + 1);
    }
  }

  lemma {:induction false} InsertWide(row: seq<Shadow>, s: Shadow)
    requires Wide(row) && s.lft <= s.rgt
    ensures Wide(Insert(row, s))
  {
    if row != [] && s.lft > row[0].lft { InsertWide(row[1..], s); }
  }

  lemma {:induction false} MakeRowWide(st: State, todo: seq<Shadow>)
    requires AllWide(st) && Wide(todo)
    ensures AllWide(MakeRow(st, todo))
    decreases |todo|
  {
    hide Insert;
    if todo != [] {
      var s := todo[0];
      InsertWide(st.row, s);
      var next :=
        if !s.ok then st
        else if st.row == [] then st.(currRow := s.row, row := [s])
        else if s.row == st.currRow then st.(row := Insert(st.row, s))
        else st.(pend := [s] + st.pend);
      MakeRowWide(next, todo[1..]);
    }
  }

  /** No shadow is ever empty, so that a test need only be stronger on such shadows. */
  lemma {:induction false} RunWide(g: Image, fine: (Shadow, Shadow) -> bool, more: (Shadow, Shadow) -> bool,
          st: State, n: nat)
    requires AllWide(st) && Implies(fine, more)
    ensures AllWide(Run(g, st, n)) && (RunRemoves(g, fine, st, n) ==> RunRemoves(g, more, st, n))
    decreases n
  {
    hide Implies, Visit, VisitRemoves, MakeRow;
    if n > 0 && !Over(st) {
      if st.row == [] {
        MakeRowWide(st.(pend := []), st.pend);
      } else if st.row[0].ok {
        VisitWide(g, fine, more, st.(row := st.row[1..]), st.row[0], st.row[0].lft);
      }
      RunWide(g, fine, more, Step(g, st), n - 1);
    }
  }

  /** The two shadows of every removal of the first `n` steps touch. */
  ghost predicate RunTouches(g: Image, st: State, n: nat) {
    RunRemoves(g, Touch, st, n)
  }

  /** A fill all of whose removals are on shadows that touch does no harm: the test is on the
      shadows alone, and could be made where the overlap is removed. */
  lemma TouchingFill(g: Image, s0: Pixel, n: nat)
    requires RunTouches(g, Begin(s0.x, s0.y), n)
    ensures RunHarmless(g, s0, Begin(s0.x, s0.y), n)
    ensures forall p | p in Run(g, Begin(s0.x, s0.y), n).calls :: Connected(g, s0, p)
  {
    forall a: Shadow, b: Shadow | a.lft <= a.rgt && b.lft <= b.rgt && Touch(a, b)
      ensures HarmlessPair(g, s0)(a, b)
    {
      TouchIsHarmless(g, s0, a, b);
    }
    hide Connected, Run, RunRemoves, HarmlessPair, Touch;
    RunWide(g, Touch, HarmlessPair(g, s0), Begin(s0.x, s0.y), n);
    forall p | p in Run(g, Begin(s0.x, s0.y), n).calls
      ensures Connected(g, s0, p)
    {
      MarksConnected(g, s0, n, p);
    }
  }
}
