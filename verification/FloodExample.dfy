/** A fill that marks a pixel the seed is not connected with. Its seed is the first pixel of the image,
    so that a scan of the image makes this fill before any other. */
module FloodExample {
  import opened FloodFill
  import opened FloodConnected
  import opened FloodSteps

  /** Five rows of ten columns; nothing is marked yet. */
  predicate Bright(x: int, y: int) {
    || (y == 0 && (0 <= x <= 1 || 3 <= x <= 4 || 6 <= x <= 9))
    || (y == 1 && (0 <= x <= 1 || 3 <= x <= 6 || x == 8))
    || (y == 2 && (1 <= x <= 2 || x == 4 || 6 <= x <= 9))
    || (y == 3 && (1 <= x <= 4 || x == 9))
    || (y == 4 && (0 <= x <= 6 || x == 8))
  }

  const EXAMPLE: Image := Image(10, 5, (x, y) => Bright(x, y), (x, y) => true)

  const SEED: Pixel := Pixel(0, 0)

  const STATE0: State := State([S(0, 0, 0, 0)], [], 0, [], true)
  const STATE1: State := State([], [S(0, 0, 0, 0)], 0, [], true)
  const STATE2: State := State([S(0, 1, -1, 0), S(0, 1, 1, 0)], [], 0, [], true)
  const STATE3: State := State([S(0, 1, 1, 0)], [S(0, 1, -1, 0)], -1, [], true)
  const STATE4: State := State([S(0, 1, 1, 0)], [], -1, [], true)
  const STATE5: State := State([], [S(0, 1, 1, 0)], 1, [], true)
  const STATE6: State := State([S(0, 1, 2, 1)], [], 1, [], true)
  const STATE7: State := State([], [S(0, 1, 2, 1)], 2, [], true)
  const STATE8: State := State([S(1, 2, 3, 2)], [], 2, [], true)
  const STATE9: State := State([], [S(1, 2, 3, 2)], 3, [], true)
  const STATE10: State := State([S(4, 4, 2, 3), S(1, 4, 4, 3)], [], 3, [], true)
  const STATE11: State := State([S(1, 4, 4, 3)], [S(4, 4, 2, 3)], 2, [], true)
  const STATE12: State := State([S(4, 4, 1, 2), S(1, 4, 4, 3)], [], 2, [], true)
  const STATE13: State := State([S(1, 4, 4, 3)], [S(4, 4, 1, 2)], 1, [], true)
  const STATE14: State := State([S(6, 6, 2, 1), S(3, 6, 0, 1), S(1, 4, 4, 3)], [], 1, [], true)
  const STATE15: State := State([S(1, 4, 4, 3), S(3, 6, 0, 1)], [S(6, 6, 2, 1)], 2, [], true)
  const STATE16: State := State([S(8, 9, 1, 2), S(6, 9, 3, 2), S(1, 4, 4, 3), S(3, 6, 0, 1)], [], 2, [], true)
  const STATE17: State := State([S(3, 6, 0, 1), S(1, 4, 4, 3), S(6, 9, 3, 2)], [S(8, 9, 1, 2)], 1, [], true)
  const STATE18: State := State([S(8, 8, 0, 1), S(3, 6, 0, 1), S(1, 4, 4, 3), S(6, 9, 3, 2)], [], 1, [], true)
  const STATE19: State := State([S(6, 9, 3, 2), S(1, 4, 4, 3)], [S(3, 6, 0, 1), S(8, 8, 0, 1)], 0, [], true)
  const STATE20: State := State([Spent(S(8, 9, 1, 0)), S(6, 9, -1, 0), S(3, 4, -1, 0), S(6, 9, 3, 2), S(1, 4, 4, 3)], [Spent(S(8, 8, 0, 1))], 0, [], true)
  const STATE21: State := State([Spent(S(8, 9, 1, 0)), S(6, 9, -1, 0), S(3, 4, -1, 0), S(6, 9, 3, 2), S(1, 4, 4, 3)], [], 0, [], true)
  const STATE22: State := State([S(1, 4, 4, 3), S(6, 9, 3, 2)], [S(3, 4, -1, 0), S(6, 9, -1, 0)], -1, [], true)
  const STATE23: State := State([S(1, 4, 4, 3), S(6, 9, 3, 2)], [S(6, 9, -1, 0)], -1, [], true)
  const STATE24: State := State([S(1, 4, 4, 3), S(6, 9, 3, 2)], [], -1, [], true)
  const STATE25: State := State([S(6, 9, 3, 2)], [S(1, 4, 4, 3)], 4, [], true)
  const STATE26: State := State([S(6, 6, 3, 4), S(0, 6, 5, 4), S(6, 9, 3, 2)], [], 4, [], true)
  const STATE27: State := State([S(0, 6, 5, 4)], [S(6, 9, 3, 2), S(6, 6, 3, 4)], 3, [], true)
  const STATE28: State := State([S(8, 9, 4, 3), Spent(S(9, 9, 4, 3)), S(0, 6, 5, 4)], [Spent(S(6, 6, 3, 4))], 3, [], true)
  const STATE29: State := State([S(8, 9, 4, 3), Spent(S(9, 9, 4, 3)), S(0, 6, 5, 4)], [], 3, [], true)
  const STATE30: State := State([S(0, 6, 5, 4)], [S(8, 9, 4, 3)], 4, [], true)
  const STATE31: State := State([S(8, 8, 5, 4), S(0, 6, 5, 4)], [], 4, [], true)
  const STATE32: State := State([], [S(0, 6, 5, 4), S(8, 8, 5, 4)], 5, [], true)
  const STATE33: State := State([], [S(8, 8, 5, 4)], 5, [], true)
  const STATE34: State := State([], [], 5, [], true)

  /** In row 0 the second run casts back beside its shadow, and that joins with the next one. */
  lemma TwoRuns()
    ensures var rest, seed := STATE19.(row := STATE19.row[1..]), STATE19.row[0];
            MakeShadows(MakeShadows(rest, seed, 3, 4), seed, 6, 9) == STATE20 && MakeShadows(rest, seed, 3, 4).found
  {
    var rest, seed := STATE19.(row := STATE19.row[1..]), STATE19.row[0];
    var mid := State([S(3, 4, -1, 0), S(6, 9, 3, 2), S(1, 4, 4, 3)], [S(8, 8, 0, 1)], 0, [], true);
    assert MakeShadows(rest, seed, 3, 4) == mid by {
      assert rest.(pend := Cast(0, seed, 3, 4) + rest.pend) == mid;
    }
    var child := S(8, 9, 1, 0);
    var cast := mid.(pend := [child, S(6, 9, -1, 0)] + mid.pend);
    assert Cast(0, seed, 6, 9) == [child, S(6, 9, -1, 0)];
    assert FirstInRow(cast.pend, 1) == 0;
    assert Pieces(8, 9, 1, S(8, 8, 0, 1)) == [];
    assert PendAfter(cast.pend, S(8, 8, 0, 1), 0) == STATE20.pend;
    assert RemoveOverlap(cast, 0) == STATE20;
    assert RemoveOverlaps(cast, 0, 9) == RemoveOverlaps(STATE20, 1, 9) == STATE20;
  }

  /** In row 3 the run 9..9 is compared with the shadow 6..6, although they are apart: the new
      shadow 8..9 reaches beyond the run. */
  lemma BadCut()
    ensures MakeShadows(STATE27.(row := STATE27.row[1..]), STATE27.row[0], 9, 9) == STATE28
  {
    var rw, child := S(6, 6, 3, 4), S(9, 9, 4, 3);
    var cast := State([child, S(0, 6, 5, 4)], [rw], 3, [], true);
    assert Cast(3, STATE27.row[0], 9, 9) == [child];
    assert FirstInRow(cast.pend, 4) == 0;
    assert Pieces(9, 9, 4, rw) == [S(8, 9, 4, 3)];
    assert PendAfter(cast.pend, rw, 0) == [S(8, 9, 4, 3), Spent(child), S(0, 6, 5, 4)];
    assert RemoveOverlap(cast, 0) == STATE28;
    assert RemoveOverlaps(cast, 0, 9) == RemoveOverlaps(STATE28, 1, 9) == STATE28;
    assert STATE27.(row := STATE27.row[1..], pend := Cast(3, STATE27.row[0], 9, 9) + STATE27.pend) == cast;
  }

  lemma From0(n: nat)
    requires Reaches(EXAMPLE, SEED, n, STATE0)
    ensures Reaches(EXAMPLE, SEED, n + 3, STATE3)
  {
    hide Reaches;
    Advance(EXAMPLE, SEED, n, STATE0, STATE1, []);
    Advance(EXAMPLE, SEED, n + 1, STATE1, STATE2, [Stretch(0, 0, 2)]);
    Advance(EXAMPLE, SEED, n + 2, STATE2, STATE3, []);
  }

  lemma From3(n: nat)
    requires Reaches(EXAMPLE, SEED, n, STATE3)
    ensures Reaches(EXAMPLE, SEED, n + 3, STATE6)
  {
    hide Reaches;
    Advance(EXAMPLE, SEED, n, STATE3, STATE4, []);
    Advance(EXAMPLE, SEED, n + 1, STATE4, STATE5, []);
    Advance(EXAMPLE, SEED, n + 2, STATE5, STATE6, [Stretch(0, 0, 2)]);
  }

  lemma From6(n: nat)
    requires Reaches(EXAMPLE, SEED, n, STATE6)
    ensures Reaches(EXAMPLE, SEED, n + 2, STATE8)
  {
    hide Reaches;
    Advance(EXAMPLE, SEED, n, STATE6, STATE7, []);
    Advance(EXAMPLE, SEED, n + 1, STATE7, STATE8, [Stretch(1, 1, 3)]);
  }

  lemma From8(n: nat)
    requires Reaches(EXAMPLE, SEED, n, STATE8)
    ensures Reaches(EXAMPLE, SEED, n + 2, STATE10)
  {
    hide Reaches;
    Advance(EXAMPLE, SEED, n, STATE8, STATE9, []);
    Advance(EXAMPLE, SEED, n + 1, STATE9, STATE10, [Stretch(1, 1, 5)]);
  }

  lemma From10(n: nat)
    requires Reaches(EXAMPLE, SEED, n, STATE10)
    ensures Reaches(EXAMPLE, SEED, n + 2, STATE12)
  {
    hide Reaches;
    Advance(EXAMPLE, SEED, n, STATE10, STATE11, []);
    Advance(EXAMPLE, SEED, n + 1, STATE11, STATE12, [Stretch(4, 4, 5)]);
  }

  lemma From12(n: nat)
    requires Reaches(EXAMPLE, SEED, n, STATE12)
    ensures Reaches(EXAMPLE, SEED, n + 2, STATE14)
  {
    hide Reaches;
    Advance(EXAMPLE, SEED, n, STATE12, STATE13, []);
    Advance(EXAMPLE, SEED, n + 1, STATE13, STATE14, [Stretch(4, 3, 7)]);
  }

  lemma From14(n: nat)
    requires Reaches(EXAMPLE, SEED, n, STATE14)
    ensures Reaches(EXAMPLE, SEED, n + 2, STATE16)
  {
    hide Reaches;
    Advance(EXAMPLE, SEED, n, STATE14, STATE15, []);
    Advance(EXAMPLE, SEED, n + 1, STATE15, STATE16, [Stretch(6, 6, 10)]);
  }

  lemma From16(n: nat)
    requires Reaches(EXAMPLE, SEED, n, STATE16)
    ensures Reaches(EXAMPLE, SEED, n + 2, STATE18)
  {
    hide Reaches;
    Advance(EXAMPLE, SEED, n, STATE16, STATE17, []);
    Advance(EXAMPLE, SEED, n + 1, STATE17, STATE18, [Stretch(8, 8, 9)]);
  }

  lemma From18(n: nat)
    requires Reaches(EXAMPLE, SEED, n, STATE18)
    ensures Reaches(EXAMPLE, SEED, n + 1, STATE19)
  {
    hide Reaches;
    Advance(EXAMPLE, SEED, n, STATE18, STATE19, []);
  }

  lemma From19(n: nat)
    requires Reaches(EXAMPLE, SEED, n, STATE19)
    ensures Reaches(EXAMPLE, SEED, n + 1, STATE20)
  {
    hide Reaches;
    TwoRuns();
    Advance(EXAMPLE, SEED, n, STATE19, STATE20, [Stretch(3, 3, 5), Stretch(6, 6, 10)]);
  }

  lemma From20(n: nat)
    requires Reaches(EXAMPLE, SEED, n, STATE20)
    ensures Reaches(EXAMPLE, SEED, n + 2, STATE22)
  {
    hide Reaches;
    Advance(EXAMPLE, SEED, n, STATE20, STATE21, []);
    Advance(EXAMPLE, SEED, n + 1, STATE21, STATE22, []);
  }

  lemma From22(n: nat)
    requires Reaches(EXAMPLE, SEED, n, STATE22)
    ensures Reaches(EXAMPLE, SEED, n + 2, STATE24)
  {
    hide Reaches;
    Advance(EXAMPLE, SEED, n, STATE22, STATE23, []);
    Advance(EXAMPLE, SEED, n + 1, STATE23, STATE24, []);
  }

  lemma From24(n: nat)
    requires Reaches(EXAMPLE, SEED, n, STATE24)
    ensures Reaches(EXAMPLE, SEED, n + 2, STATE26)
  {
    hide Reaches;
    Advance(EXAMPLE, SEED, n, STATE24, STATE25, []);
    Advance(EXAMPLE, SEED, n + 1, STATE25, STATE26, [Stretch(1, 0, 7)]);
  }

  lemma From26(n: nat)
    requires Reaches(EXAMPLE, SEED, n, STATE26)
    ensures Reaches(EXAMPLE, SEED, n + 1, STATE27)
  {
    hide Reaches;
    Advance(EXAMPLE, SEED, n, STATE26, STATE27, []);
  }

  lemma From27(n: nat)
    requires Reaches(EXAMPLE, SEED, n, STATE27)
    ensures Reaches(EXAMPLE, SEED, n + 1, STATE28)
  {
    hide Reaches;
    BadCut();
    Advance(EXAMPLE, SEED, n, STATE27, STATE28, [Stretch(9, 9, 10)]);
  }

  lemma From28(n: nat)
    requires Reaches(EXAMPLE, SEED, n, STATE28)
    ensures Reaches(EXAMPLE, SEED, n + 2, STATE30)
  {
    hide Reaches;
    Advance(EXAMPLE, SEED, n, STATE28, STATE29, []);
    Advance(EXAMPLE, SEED, n + 1, STATE29, STATE30, []);
  }

  lemma From30(n: nat)
    requires Reaches(EXAMPLE, SEED, n, STATE30)
    ensures Reaches(EXAMPLE, SEED, n + 1, STATE31)
  {
    hide Reaches;
    Advance(EXAMPLE, SEED, n, STATE30, STATE31, [Stretch(8, 8, 9)]);
  }

  lemma From31(n: nat)
    requires Reaches(EXAMPLE, SEED, n, STATE31)
    ensures Reaches(EXAMPLE, SEED, n + 3, STATE34)
  {
    hide Reaches;
    Advance(EXAMPLE, SEED, n, STATE31, STATE32, []);
    Advance(EXAMPLE, SEED, n + 1, STATE32, STATE33, []);
    Advance(EXAMPLE, SEED, n + 2, STATE33, STATE34, []);
  }

  /** The pixel (8, 4) has no bright neighbour. */
  lemma Isolated(w: seq<Pixel>)
    ensures !PathTo(EXAMPLE, w, SEED, Pixel(8, 4))
  {
    if |w| >= 2 {
      var p := w[|w| - 2];
      if Adjacent(p, Pixel(8, 4)) {
        assert !Passes(EXAMPLE, p.x, p.y);
      }
    }
  }

  /** The fill from (0, 0) marks (8, 4), which is not connected with it, and ends well. */
  lemma WrongPixel(n: nat)
    requires n >= 34
    ensures Pixel(8, 4) in Run(EXAMPLE, Begin(0, 0), n).calls
    ensures Run(EXAMPLE, Begin(0, 0), n).found && Finished(Run(EXAMPLE, Begin(0, 0), n))
    ensures !Connected(EXAMPLE, SEED, Pixel(8, 4))
    ensures !RunHarmless(EXAMPLE, SEED, Begin(0, 0), n)
  {
    hide Run, Visit, RunHarmless;
    assert !Connected(EXAMPLE, SEED, Pixel(8, 4)) by {
      forall w ensures !PathTo(EXAMPLE, w, SEED, Pixel(8, 4)) { Isolated(w); }
    }
    hide Connected;
    ThirtySteps();
    From30(30);
    From31(31);
    RunPlus(EXAMPLE, Begin(0, 0), 34, n - 34);
    FinishedStays(Run(EXAMPLE, Begin(0, 0), 34), n - 34);
    MarkedOn(EXAMPLE, n);
    if RunHarmless(EXAMPLE, SEED, Begin(0, 0), n) { MarksConnected(EXAMPLE, SEED, n, Pixel(8, 4)); }
  }

  lemma FinishedStays(st: State, n: nat)
    requires Finished(st)
    ensures Run(EXAMPLE, st, n) == st
  {}

  /** The lists are the same whatever has been marked before. */
  lemma ThirtyStepsOn(h: Image)
    requires Alike(EXAMPLE, h)
    ensures Run(h, Begin(0, 0), 30).(calls := []) == STATE30
  {
    ThirtySteps();
    hide Run, Alike;
    RunIgnoresCalls(EXAMPLE, h, Begin(0, 0), [], 30);
  }

  /** The visit of the new shadow marks the pixel. */
  lemma MarkedNext(h: Image, st: State)
    requires Passes(h, 8, 4) && h.blank(8, 4) && st.(calls := []) == STATE30 && Step(h, st).found
    ensures Pixel(8, 4) in Step(h, st).calls
  {
    hide Visit, Passes;
    var rest := st.(row := []);
    assert st.row == [S(8, 9, 4, 3)] && st.row[1..] == [] && st.found && st.currRow == 4;
    assert Step(h, st) == Visit(h, rest, st.row[0], 8);
    assert Joined(h, 8, 8, 4);
    VisitCovers(h, rest, st.row[0], 8, 8, 8);
  }

  lemma MarkedOn(h: Image, n: nat)
    requires Alike(EXAMPLE, h) && h.blank(8, 4) && n >= 31
    ensures Pixel(8, 4) in Run(h, Begin(0, 0), n).calls
  {
    hide Run, Step;
    MarkedThen(h);
    RunPlus(h, Begin(0, 0), 31, n - 31);
    RunGrows(h, Run(h, Begin(0, 0), 31), n - 31);
  }

  lemma MarkedThen(h: Image)
    requires Alike(EXAMPLE, h) && h.blank(8, 4)
    ensures Pixel(8, 4) in Run(h, Begin(0, 0), 31).calls
  {
    hide Run, Step, Alike, Passes;
    PassesOn(h);
    ThirtyStepsOn(h);
    FoundOn(h);
    var st := Run(h, Begin(0, 0), 30);
    NotOver(st);
    RunSnoc(h, Begin(0, 0), 30);
    MarkedNext(h, st);
  }

  lemma PassesOn(h: Image)
    requires Alike(EXAMPLE, h)
    ensures Passes(h, 8, 4)
  {
    assert Passes(EXAMPLE, 8, 4);
  }

  lemma NotOver(st: State)
    requires st.(calls := []) == STATE30
    ensures !Over(st)
  {
    assert st.row == STATE30.row && st.found == STATE30.found;
  }

  lemma FoundOn(h: Image)
    requires Alike(EXAMPLE, h)
    ensures Run(h, Begin(0, 0), 31).found
  {
    ThirtySteps();
    From30(30);
    hide Run, Alike;
    RunIgnoresCalls(EXAMPLE, h, Begin(0, 0), [], 31);
  }

  lemma ThirtySteps()
    ensures Reaches(EXAMPLE, SEED, 30, STATE30)
  {
    hide Reaches;
    AtFirst(EXAMPLE, SEED);
    From0(0);
    From3(3);
    From6(6);
    From8(8);
    From10(10);
    From12(12);
    From14(14);
    From16(16);
    From18(18);
    From19(19);
    From20(20);
    From22(22);
    From24(24);
    From26(26);
    From27(27);
    From28(28);
  }
}
