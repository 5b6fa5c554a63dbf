/** A fill that never ends: its lists recur. */
module FloodLoop {
  import opened FloodFill
  import opened FloodSteps

  /** Five rows of eight columns; nothing is marked yet. */
  predicate Bright(x: int, y: int) {
    || (y == 0 && (0 <= x <= 5 || x == 7))
    || (y == 1 && (x == 3 || 5 <= x <= 7))
    || (y == 2 && (x == 0 || x == 2 || x == 5))
    || (y == 3 && (x == 0 || 2 <= x <= 5))
    || (y == 4 && (0 <= x <= 2 || x == 5))
  }

  const EXAMPLE: Image := Image(8, 5, (x, y) => Bright(x, y), (x, y) => true)

  const SEED: Pixel := Pixel(2, 2)

  const STATE0: State := State([S(2, 2, 2, 2)], [], 0, [], true)
  const STATE1: State := State([], [S(2, 2, 2, 2)], 2, [], true)
  const STATE2: State := State([S(2, 2, 1, 2), S(2, 2, 3, 2)], [], 2, [], true)
  const STATE3: State := State([S(2, 2, 3, 2)], [S(2, 2, 1, 2)], 1, [], true)
  const STATE4: State := State([S(2, 2, 3, 2)], [], 1, [], true)
  const STATE5: State := State([], [S(2, 2, 3, 2)], 3, [], true)
  const STATE6: State := State([S(4, 5, 2, 3), S(2, 5, 4, 3)], [], 3, [], true)
  const STATE7: State := State([S(2, 5, 4, 3)], [S(4, 5, 2, 3)], 2, [], true)
  const STATE8: State := State([S(5, 5, 1, 2), S(2, 5, 4, 3)], [], 2, [], true)
  const STATE9: State := State([S(2, 5, 4, 3)], [S(5, 5, 1, 2)], 1, [], true)
  const STATE10: State := State([S(7, 7, 2, 1), S(5, 7, 0, 1), S(2, 5, 4, 3)], [], 1, [], true)
  const STATE11: State := State([S(2, 5, 4, 3), S(5, 7, 0, 1)], [S(7, 7, 2, 1)], 2, [], true)
  const STATE12: State := State([S(2, 5, 4, 3), S(5, 7, 0, 1)], [], 2, [], true)
  const STATE13: State := State([S(5, 7, 0, 1)], [S(2, 5, 4, 3)], 4, [], true)
  const STATE14: State := State([S(5, 5, 5, 4), S(0, 0, 3, 4), S(0, 2, 5, 4), S(5, 7, 0, 1)], [], 4, [], true)
  const STATE15: State := State([S(5, 7, 0, 1), S(0, 0, 3, 4)], [S(0, 2, 5, 4), S(5, 5, 5, 4)], 5, [], true)
  const STATE16: State := State([S(5, 7, 0, 1), S(0, 0, 3, 4)], [S(5, 5, 5, 4)], 5, [], true)
  const STATE17: State := State([S(5, 7, 0, 1), S(0, 0, 3, 4)], [], 5, [], true)
  const STATE18: State := State([S(0, 0, 3, 4)], [S(5, 7, 0, 1)], 0, [], true)
  const STATE19: State := State([S(7, 7, -1, 0), S(0, 3, 1, 0), S(0, 5, -1, 0), S(0, 0, 3, 4)], [], 0, [], true)
  const STATE20: State := State([S(0, 0, 3, 4), S(0, 3, 1, 0)], [S(0, 5, -1, 0), S(7, 7, -1, 0)], -1, [], true)
  const STATE21: State := State([S(0, 0, 3, 4), S(0, 3, 1, 0)], [S(7, 7, -1, 0)], -1, [], true)
  const STATE22: State := State([S(0, 0, 3, 4), S(0, 3, 1, 0)], [], -1, [], true)
  const STATE23: State := State([S(0, 3, 1, 0)], [S(0, 0, 3, 4)], 3, [], true)
  const STATE24: State := State([S(0, 0, 2, 3), S(0, 3, 1, 0)], [], 3, [], true)
  const STATE25: State := State([S(0, 3, 1, 0)], [S(0, 0, 2, 3)], 2, [], true)
  const STATE26: State := State([S(0, 0, 1, 2), S(0, 3, 1, 0)], [], 2, [], true)
  const STATE27: State := State([], [S(0, 3, 1, 0), S(0, 0, 1, 2)], 1, [], true)
  const STATE28: State := State([S(2, 3, 2, 1), Spent(S(3, 3, 2, 1))], [Spent(S(0, 0, 1, 2))], 1, [], true)
  const STATE29: State := State([S(2, 3, 2, 1), Spent(S(3, 3, 2, 1))], [], 1, [], true)
  const STATE30: State := State([], [S(2, 3, 2, 1)], 2, [], true)
  const STATE31: State := State([S(2, 2, 3, 2)], [], 2, [], true)

  /** In row 1 the run 3..3 is compared with the shadow 0..0, although they are apart: the new
      shadow 2..3 leads back to the seed. */
  lemma WideCut()
    ensures MakeShadows(STATE27.(row := STATE27.row[1..]), STATE27.row[0], 3, 3) == STATE28
  {
    var rw, child := S(0, 0, 1, 2), S(3, 3, 2, 1);
    var cast := State([child], [rw], 1, [], true);
    assert Cast(1, STATE27.row[0], 3, 3) == [child];
    assert FirstInRow(cast.pend, 2) == 0;
    assert Pieces(3, 3, 2, rw) == [S(2, 3, 2, 1)];
    assert PendAfter(cast.pend, rw, 0) == [S(2, 3, 2, 1), Spent(child)];
    assert RemoveOverlap(cast, 0) == STATE28;
    assert RemoveOverlaps(cast, 0, 3) == RemoveOverlaps(STATE28, 1, 3) == STATE28;
    assert STATE27.(row := STATE27.row[1..], pend := Cast(1, STATE27.row[0], 3, 3) + STATE27.pend) == cast;
  }

  lemma From0(n: nat)
    requires Reaches(EXAMPLE, SEED, n, STATE0)
    ensures Reaches(EXAMPLE, SEED, n + 3, STATE3)
  {
    hide Reaches;
    Advance(EXAMPLE, SEED, n, STATE0, STATE1, []);
    Advance(EXAMPLE, SEED, n + 1, STATE1, STATE2, [Stretch(2, 2, 3)]);
    Advance(EXAMPLE, SEED, n + 2, STATE2, STATE3, []);
  }

  lemma From3(n: nat)
    requires Reaches(EXAMPLE, SEED, n, STATE3)
    ensures Reaches(EXAMPLE, SEED, n + 2, STATE5)
  {
    hide Reaches;
    Advance(EXAMPLE, SEED, n, STATE3, STATE4, []);
    Advance(EXAMPLE, SEED, n + 1, STATE4, STATE5, []);
  }

  lemma From5(n: nat)
    requires Reaches(EXAMPLE, SEED, n, STATE5)
    ensures Reaches(EXAMPLE, SEED, n + 3, STATE8)
  {
    hide Reaches;
    Advance(EXAMPLE, SEED, n, STATE5, STATE6, [Stretch(2, 2, 6)]);
    Advance(EXAMPLE, SEED, n + 1, STATE6, STATE7, []);
    Advance(EXAMPLE, SEED, n + 2, STATE7, STATE8, [Stretch(5, 5, 6)]);
  }

  lemma From8(n: nat)
    requires Reaches(EXAMPLE, SEED, n, STATE8)
    ensures Reaches(EXAMPLE, SEED, n + 3, STATE11)
  {
    hide Reaches;
    Advance(EXAMPLE, SEED, n, STATE8, STATE9, []);
    Advance(EXAMPLE, SEED, n + 1, STATE9, STATE10, [Stretch(5, 5, 8)]);
    Advance(EXAMPLE, SEED, n + 2, STATE10, STATE11, []);
  }

  lemma From11(n: nat)
    requires Reaches(EXAMPLE, SEED, n, STATE11)
    ensures Reaches(EXAMPLE, SEED, n + 2, STATE13)
  {
    hide Reaches;
    Advance(EXAMPLE, SEED, n, STATE11, STATE12, []);
    Advance(EXAMPLE, SEED, n + 1, STATE12, STATE13, []);
  }

  lemma From13(n: nat)
    requires Reaches(EXAMPLE, SEED, n, STATE13)
    ensures Reaches(EXAMPLE, SEED, n + 1, STATE14)
  {
    hide Reaches;
    Advance(EXAMPLE, SEED, n, STATE13, STATE14, [Stretch(2, 0, 3), Stretch(5, 5, 6)]);
  }

  lemma From14(n: nat)
    requires Reaches(EXAMPLE, SEED, n, STATE14)
    ensures Reaches(EXAMPLE, SEED, n + 2, STATE16)
  {
    hide Reaches;
    Advance(EXAMPLE, SEED, n, STATE14, STATE15, []);
    Advance(EXAMPLE, SEED, n + 1, STATE15, STATE16, []);
  }

  lemma From16(n: nat)
    requires Reaches(EXAMPLE, SEED, n, STATE16)
    ensures Reaches(EXAMPLE, SEED, n + 2, STATE18)
  {
    hide Reaches;
    Advance(EXAMPLE, SEED, n, STATE16, STATE17, []);
    Advance(EXAMPLE, SEED, n + 1, STATE17, STATE18, []);
  }

  lemma From18(n: nat)
    requires Reaches(EXAMPLE, SEED, n, STATE18)
    ensures Reaches(EXAMPLE, SEED, n + 1, STATE19)
  {
    hide Reaches;
    Advance(EXAMPLE, SEED, n, STATE18, STATE19, [Stretch(5, 0, 6), Stretch(7, 7, 8)]);
  }

  lemma From19(n: nat)
    requires Reaches(EXAMPLE, SEED, n, STATE19)
    ensures Reaches(EXAMPLE, SEED, n + 3, STATE22)
  {
    hide Reaches;
    Advance(EXAMPLE, SEED, n, STATE19, STATE20, []);
    Advance(EXAMPLE, SEED, n + 1, STATE20, STATE21, []);
    Advance(EXAMPLE, SEED, n + 2, STATE21, STATE22, []);
  }

  lemma From22(n: nat)
    requires Reaches(EXAMPLE, SEED, n, STATE22)
    ensures Reaches(EXAMPLE, SEED, n + 3, STATE25)
  {
    hide Reaches;
    Advance(EXAMPLE, SEED, n, STATE22, STATE23, []);
    Advance(EXAMPLE, SEED, n + 1, STATE23, STATE24, [Stretch(0, 0, 1)]);
    Advance(EXAMPLE, SEED, n + 2, STATE24, STATE25, []);
  }

  lemma From25(n: nat)
    requires Reaches(EXAMPLE, SEED, n, STATE25)
    ensures Reaches(EXAMPLE, SEED, n + 2, STATE27)
  {
    hide Reaches;
    Advance(EXAMPLE, SEED, n, STATE25, STATE26, [Stretch(0, 0, 1)]);
    Advance(EXAMPLE, SEED, n + 1, STATE26, STATE27, []);
  }

  lemma From27(n: nat)
    requires Reaches(EXAMPLE, SEED, n, STATE27)
    ensures Reaches(EXAMPLE, SEED, n + 1, STATE28)
  {
    hide Reaches;
    WideCut();
    Advance(EXAMPLE, SEED, n, STATE27, STATE28, [Stretch(3, 3, 4)]);
  }

  lemma From28(n: nat)
    requires Reaches(EXAMPLE, SEED, n, STATE28)
    ensures Reaches(EXAMPLE, SEED, n + 2, STATE30)
  {
    hide Reaches;
    Advance(EXAMPLE, SEED, n, STATE28, STATE29, []);
    Advance(EXAMPLE, SEED, n + 1, STATE29, STATE30, []);
  }

  lemma From30(n: nat)
    requires Reaches(EXAMPLE, SEED, n, STATE30)
    ensures Reaches(EXAMPLE, SEED, n + 2, STATE5)
  {
    hide Reaches;
    Advance(EXAMPLE, SEED, n, STATE30, STATE31, [Stretch(2, 2, 3)]);
    Advance(EXAMPLE, SEED, n + 1, STATE31, STATE5, []);
  }

  /** The fill from (2, 2) never ends: after 32 steps its lists are those of step 5. */
  lemma NeverEnds(n: nat)
    ensures !Over(Run(EXAMPLE, Begin(2, 2), n))
  {
    hide Run;
    FirstFive();
    NextTwentySeven(5);
    RecursForEver(EXAMPLE, Begin(2, 2), 5, 27, n);
  }

  lemma FirstFive()
    ensures Reaches(EXAMPLE, SEED, 5, STATE5)
  {
    hide Reaches;
    AtFirst(EXAMPLE, SEED);
    From0(0);
    From3(3);
  }

  lemma NextTwentySeven(n: nat)
    requires Reaches(EXAMPLE, SEED, n, STATE5)
    ensures Reaches(EXAMPLE, SEED, n + 27, STATE5)
  {
    hide Reaches;
    From5(n);
    From8(n + 3);
    From11(n + 6);
    From13(n + 8);
    From14(n + 9);
    From16(n + 11);
    From18(n + 13);
    From19(n + 14);
    From22(n + 17);
    From25(n + 20);
    From27(n + 22);
    From28(n + 23);
    From30(n + 25);
  }
}
