/** A fill that follows a null pointer: a child it looks for is not there. Its seed is the only
    bright pixel of the first row, so that a scan of the image makes this fill before any other. */
module FloodCrash {
  import opened FloodFill
  import opened FloodSteps

  /** Ten columns and seven rows; nothing is marked yet. */
  predicate Bright(x: int, y: int) {
    || (y == 0 && (x == 5))
    || (y == 1 && (0 <= x <= 2 || 4 <= x <= 6 || x == 8))
    || (y == 2 && (0 <= x <= 2 || x == 4 || 6 <= x <= 7 || x == 9))
    || (y == 3 && (x == 0 || 2 <= x <= 4 || 7 <= x <= 8))
    || (y == 4 && (x == 5 || 7 <= x <= 9))
    || (y == 5 && (0 <= x <= 7 || x == 9))
    || (y == 6 && (x == 8))
  }

  const EXAMPLE: Image := Image(10, 7, (x, y) => Bright(x, y), (x, y) => true)

  const SEED: Pixel := Pixel(5, 0)

  const STATE0: State := State([S(5, 5, 0, 0)], [], 0, [], true)
  const STATE1: State := State([], [S(5, 5, 0, 0)], 0, [], true)
  const STATE2: State := State([S(5, 5, -1, 0), S(5, 5, 1, 0)], [], 0, [], true)
  const STATE3: State := State([S(5, 5, 1, 0)], [S(5, 5, -1, 0)], -1, [], true)
  const STATE4: State := State([S(5, 5, 1, 0)], [], -1, [], true)
  const STATE5: State := State([], [S(5, 5, 1, 0)], 1, [], true)
  const STATE6: State := State([S(4, 6, 2, 1)], [], 1, [], true)
  const STATE7: State := State([], [S(4, 6, 2, 1)], 2, [], true)
  const STATE8: State := State([S(6, 7, 3, 2), S(4, 4, 3, 2)], [], 2, [], true)
  const STATE9: State := State([], [S(4, 4, 3, 2), S(6, 7, 3, 2)], 3, [], true)
  const STATE10: State := State([S(2, 2, 2, 3), S(2, 4, 4, 3)], [S(6, 7, 3, 2)], 3, [], true)
  const STATE11: State := State([S(7, 8, 4, 3), S(2, 2, 2, 3), S(2, 4, 4, 3)], [], 3, [], true)
  const STATE12: State := State([S(2, 2, 2, 3)], [S(2, 4, 4, 3), S(7, 8, 4, 3)], 4, [], true)
  const STATE13: State := State([S(2, 2, 2, 3)], [S(7, 8, 4, 3)], 4, [], true)
  const STATE14: State := State([S(7, 9, 5, 4), S(2, 2, 2, 3)], [], 4, [], true)
  const STATE15: State := State([S(2, 2, 2, 3)], [S(7, 9, 5, 4)], 5, [], true)
  const STATE16: State := State([S(9, 9, 6, 5), S(0, 5, 4, 5), S(0, 7, 6, 5), S(2, 2, 2, 3)], [], 5, [], true)
  const STATE17: State := State([S(2, 2, 2, 3), S(0, 5, 4, 5)], [S(0, 7, 6, 5), S(9, 9, 6, 5)], 6, [], true)
  const STATE18: State := State([S(2, 2, 2, 3), S(0, 5, 4, 5)], [S(9, 9, 6, 5)], 6, [], true)
  const STATE19: State := State([S(2, 2, 2, 3), S(0, 5, 4, 5)], [], 6, [], true)
  const STATE20: State := State([S(0, 5, 4, 5)], [S(2, 2, 2, 3)], 2, [], true)
  const STATE21: State := State([S(0, 0, 3, 2), S(0, 2, 1, 2), S(0, 5, 4, 5)], [], 2, [], true)
  const STATE22: State := State([S(0, 5, 4, 5), S(0, 2, 1, 2)], [S(0, 0, 3, 2)], 3, [], true)
  const STATE23: State := State([S(0, 0, 4, 3), S(0, 5, 4, 5), S(0, 2, 1, 2)], [], 3, [], true)
  const STATE24: State := State([S(0, 2, 1, 2)], [S(0, 5, 4, 5), S(0, 0, 4, 3)], 4, [], true)
  const STATE25: State := State([S(2, 5, 3, 4), Spent(S(5, 5, 3, 4)), S(0, 2, 1, 2)], [Spent(S(0, 0, 4, 3))], 4, [], true)
  const STATE26: State := State([S(2, 5, 3, 4), Spent(S(5, 5, 3, 4)), S(0, 2, 1, 2)], [], 4, [], true)
  const STATE27: State := State([S(0, 2, 1, 2)], [S(2, 5, 3, 4)], 3, [], true)
  const STATE28: State := State([S(2, 4, 2, 3), S(0, 2, 1, 2)], [], 3, [], true)
  const STATE29: State := State([S(0, 2, 1, 2)], [S(2, 4, 2, 3)], 2, [], true)
  const STATE30: State := State([S(4, 4, 1, 2), S(0, 0, 3, 2), S(0, 2, 1, 2), S(0, 2, 1, 2)], [], 2, [], true)
  const STATE31: State := State([S(0, 0, 3, 2)], [S(0, 2, 1, 2), S(0, 2, 1, 2), S(4, 4, 1, 2)], 1, [], true)
  const STATE32: State := State([S(0, 2, 0, 1), S(0, 0, 3, 2)], [S(0, 2, 1, 2), S(4, 4, 1, 2)], 1, [], false)

  /** In row 4 the run 5..5 is compared with the shadow 0..0, although they are apart. */
  lemma FirstCut()
    ensures MakeShadows(STATE24.(row := STATE24.row[1..]), STATE24.row[0], 5, 5) == STATE25
  {
    var rw, child := S(0, 0, 4, 3), S(5, 5, 3, 4);
    var cast := State([child, S(0, 2, 1, 2)], [rw], 4, [], true);
    assert Cast(4, STATE24.row[0], 5, 5) == [child];
    assert FirstInRow(cast.pend, 3) == 0;
    assert Pieces(5, 5, 3, rw) == [S(2, 5, 3, 4)];
    assert PendAfter(cast.pend, rw, 0) == [S(2, 5, 3, 4), Spent(child), S(0, 2, 1, 2)];
    assert RemoveOverlap(cast, 0) == STATE25;
    assert RemoveOverlaps(cast, 0, 5) == RemoveOverlaps(STATE25, 1, 5) == STATE25;
    assert STATE24.(row := STATE24.row[1..], pend := Cast(4, STATE24.row[0], 5, 5) + STATE24.pend) == cast;
  }

  /** In row 1 the shadow 0..2 stands twice. When the first has been visited, the second looks for
      a child in row 2, where nothing is pending. */
  lemma LastSearch()
    ensures MakeShadows(STATE31.(row := STATE31.row[1..]), STATE31.row[0], 0, 2) == STATE32
  {
    assert Cast(1, STATE31.row[0], 0, 2) == [S(0, 2, 0, 1)];
    var cast := STATE32.(found := true);
    assert STATE31.(row := STATE31.row[1..], pend := Cast(1, STATE31.row[0], 0, 2) + STATE31.pend) == cast;
    FirstFound(cast.pend, 2);
    assert RemoveOverlap(cast, 0) == STATE32;
    assert RemoveOverlaps(cast, 0, 2) == RemoveOverlaps(STATE32, 1, 2) == STATE32;
  }

  lemma From0(n: nat)
    requires Reaches(EXAMPLE, SEED, n, STATE0)
    ensures Reaches(EXAMPLE, SEED, n + 3, STATE3)
  {
    hide Reaches;
    Advance(EXAMPLE, SEED, n, STATE0, STATE1, []);
    Advance(EXAMPLE, SEED, n + 1, STATE1, STATE2, [Stretch(5, 5, 6)]);
    Advance(EXAMPLE, SEED, n + 2, STATE2, STATE3, []);
  }

  lemma From3(n: nat)
    requires Reaches(EXAMPLE, SEED, n, STATE3)
    ensures Reaches(EXAMPLE, SEED, n + 2, STATE5)
  {
    hide Reaches;
    Advance(EXAMPLE, SEED, n, STATE3, STATE4, []);
    Advance(EXAMPLE, SEED, n + 1, STATE4, STATE5, []);
  }

  lemma From5(n: nat)
    requires Reaches(EXAMPLE, SEED, n, STATE5)
    ensures Reaches(EXAMPLE, SEED, n + 3, STATE8)
  {
    hide Reaches;
    Advance(EXAMPLE, SEED, n, STATE5, STATE6, [Stretch(5, 4, 7)]);
    Advance(EXAMPLE, SEED, n + 1, STATE6, STATE7, []);
    Advance(EXAMPLE, SEED, n + 2, STATE7, STATE8, [Stretch(4, 4, 5), Stretch(6, 6, 8)]);
  }

  lemma From8(n: nat)
    requires Reaches(EXAMPLE, SEED, n, STATE8)
    ensures Reaches(EXAMPLE, SEED, n + 3, STATE11)
  {
    hide Reaches;
    Advance(EXAMPLE, SEED, n, STATE8, STATE9, []);
    Advance(EXAMPLE, SEED, n + 1, STATE9, STATE10, [Stretch(4, 2, 5)]);
    Advance(EXAMPLE, SEED, n + 2, STATE10, STATE11, [Stretch(7, 7, 9)]);
  }

  lemma From11(n: nat)
    requires Reaches(EXAMPLE, SEED, n, STATE11)
    ensures Reaches(EXAMPLE, SEED, n + 3, STATE14)
  {
    hide Reaches;
    Advance(EXAMPLE, SEED, n, STATE11, STATE12, []);
    Advance(EXAMPLE, SEED, n + 1, STATE12, STATE13, []);
    Advance(EXAMPLE, SEED, n + 2, STATE13, STATE14, [Stretch(7, 7, 10)]);
  }

  lemma From14(n: nat)
    requires Reaches(EXAMPLE, SEED, n, STATE14)
    ensures Reaches(EXAMPLE, SEED, n + 2, STATE16)
  {
    hide Reaches;
    Advance(EXAMPLE, SEED, n, STATE14, STATE15, []);
    Advance(EXAMPLE, SEED, n + 1, STATE15, STATE16, [Stretch(7, 0, 8), Stretch(9, 9, 10)]);
  }

  lemma From16(n: nat)
    requires Reaches(EXAMPLE, SEED, n, STATE16)
    ensures Reaches(EXAMPLE, SEED, n + 1, STATE17)
  {
    hide Reaches;
    Advance(EXAMPLE, SEED, n, STATE16, STATE17, []);
  }

  lemma From17(n: nat)
    requires Reaches(EXAMPLE, SEED, n, STATE17)
    ensures Reaches(EXAMPLE, SEED, n + 3, STATE20)
  {
    hide Reaches;
    Advance(EXAMPLE, SEED, n, STATE17, STATE18, []);
    Advance(EXAMPLE, SEED, n + 1, STATE18, STATE19, []);
    Advance(EXAMPLE, SEED, n + 2, STATE19, STATE20, []);
  }

  lemma From20(n: nat)
    requires Reaches(EXAMPLE, SEED, n, STATE20)
    ensures Reaches(EXAMPLE, SEED, n + 2, STATE22)
  {
    hide Reaches;
    Advance(EXAMPLE, SEED, n, STATE20, STATE21, [Stretch(2, 0, 3)]);
    Advance(EXAMPLE, SEED, n + 1, STATE21, STATE22, []);
  }

  lemma From22(n: nat)
    requires Reaches(EXAMPLE, SEED, n, STATE22)
    ensures Reaches(EXAMPLE, SEED, n + 2, STATE24)
  {
    hide Reaches;
    Advance(EXAMPLE, SEED, n, STATE22, STATE23, [Stretch(0, 0, 1)]);
    Advance(EXAMPLE, SEED, n + 1, STATE23, STATE24, []);
  }

  lemma From24(n: nat)
    requires Reaches(EXAMPLE, SEED, n, STATE24)
    ensures Reaches(EXAMPLE, SEED, n + 1, STATE25)
  {
    hide Reaches;
    FirstCut();
    Advance(EXAMPLE, SEED, n, STATE24, STATE25, [Stretch(5, 5, 6)]);
  }

  lemma From25(n: nat)
    requires Reaches(EXAMPLE, SEED, n, STATE25)
    ensures Reaches(EXAMPLE, SEED, n + 3, STATE28)
  {
    hide Reaches;
    Advance(EXAMPLE, SEED, n, STATE25, STATE26, []);
    Advance(EXAMPLE, SEED, n + 1, STATE26, STATE27, []);
    Advance(EXAMPLE, SEED, n + 2, STATE27, STATE28, [Stretch(2, 2, 5)]);
  }

  lemma From28(n: nat)
    requires Reaches(EXAMPLE, SEED, n, STATE28)
    ensures Reaches(EXAMPLE, SEED, n + 2, STATE30)
  {
    hide Reaches;
    Advance(EXAMPLE, SEED, n, STATE28, STATE29, []);
    Advance(EXAMPLE, SEED, n + 1, STATE29, STATE30, [Stretch(2, 0, 3), Stretch(4, 4, 5)]);
  }

  lemma From30(n: nat)
    requires Reaches(EXAMPLE, SEED, n, STATE30)
    ensures Reaches(EXAMPLE, SEED, n + 1, STATE31)
  {
    hide Reaches;
    Advance(EXAMPLE, SEED, n, STATE30, STATE31, []);
  }

  /** The fill from (5, 0) crashes in step 32. */
  lemma NullPointer()
    ensures forall n: nat :: Run(EXAMPLE, Begin(5, 0), n).found <==> n < 32
  {
    ThirtyOneSteps();
    hide Run;
    LastSearch();
    Advance(EXAMPLE, SEED, 31, STATE31, STATE32, [Stretch(0, 0, 3)]);
    LastStep(EXAMPLE, Begin(5, 0), 31);
  }

  lemma ThirtyOneSteps()
    ensures Reaches(EXAMPLE, SEED, 31, STATE31)
  {
    hide Reaches;
    AtFirst(EXAMPLE, SEED);
    From0(0);
    From3(3);
    From5(5);
    From8(8);
    From11(11);
    From14(14);
    From16(16);
    From17(17);
    From20(20);
    From22(22);
    From24(24);
    From25(25);
    From28(28);
    From30(30);
  }
}
