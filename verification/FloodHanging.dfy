/** Images on which the flood fill is right: it ends, follows no null pointer, and marks exactly
    the connected cells that were 0. */
module FloodHanging {
  import opened FloodFill
  import opened FloodConnected
  import opened FloodSteps

  // ----- The condition on the image

  ghost predicate In(g: Image, s: Pixel, x: int, y: int) {
    Connected(g, s, Pixel(x, y))
  }

  /** The run through (x, y) touches a connected run in the next row towards the seed; in the
      row of the seed it is the run of the seed. */
  ghost predicate Hangs(g: Image, s: Pixel, x: int, y: int) {
    if y == s.y then Joined(g, s.x, x, y)
    else exists a :: Joined(g, a, x, y) && In(g, s, a, if y > s.y then y - 1 else y + 1)
  }

  /** Seen from the row of the seed, the connected pixels have no pockets: none of their runs can
      only be reached by turning back. Runs may branch and join again. */
  ghost predicate Hanging(g: Image, s: Pixel) {
    forall x, y | In(g, s, x, y) :: Hangs(g, s, x, y)
  }

  /** The connected pixels of each row are a single run. */
  ghost predicate RowConvex(g: Image, s: Pixel) {
    forall a, c, y | In(g, s, a, y) && In(g, s, c, y) :: Joined(g, a, c, y)
  }

  lemma InPasses(g: Image, s: Pixel, x: int, y: int)
    requires In(g, s, x, y)
    ensures Passes(g, x, y) && In(g, s, s.x, s.y)
  {
    var w: seq<Pixel> :| PathTo(g, w, s, Pixel(x, y));
    assert Passes(g, w[|w| - 1].x, w[|w| - 1].y) && Passes(g, w[0].x, w[0].y);
    ConnectedStart(g, s);
  }

  /** A path that leads beyond row `y` has come into it before. */
  lemma {:induction false} CrossedBefore(g: Image, s: Pixel, w: seq<Pixel>, p: Pixel, y: int) returns (a: int)
    requires PathTo(g, w, s, p) && (s.y < y <= p.y || p.y <= y < s.y)
    ensures In(g, s, a, y) && In(g, s, a, if y > s.y then y - 1 else y + 1)
    decreases |w|
  {
    var shorter, q := w[..|w| - 1], w[|w| - 2];
    assert PathTo(g, shorter, s, q) && Adjacent(q, p) && w[|w| - 1] == p;
    assert In(g, s, p.x, p.y) && In(g, s, q.x, q.y);
    if s.y < y <= q.y || q.y <= y < s.y {
      a := CrossedBefore(g, s, shorter, q, y);
    } else {
      a := p.x;
    }
  }

  lemma RowConvexHangs(g: Image, s: Pixel)
    requires RowConvex(g, s)
    ensures Hanging(g, s)
  {
    forall x, y | In(g, s, x, y)
      ensures Hangs(g, s, x, y)
    {
      InPasses(g, s, x, y);
      if y == s.y {
      } else {
        var w: seq<Pixel> :| PathTo(g, w, s, Pixel(x, y));
        var a := CrossedBefore(g, s, w, Pixel(x, y), y);
        assert Joined(g, a, x, y);
      }
    }
  }

  // ----- Shadows in such a fill

  /** A whole run of row `y`, connected to the seed. */
  ghost predicate FullRun(g: Image, s: Pixel, l: int, r: int, y: int) {
    l <= r && (forall c | l <= c <= r :: In(g, s, c, y)) && !Passes(g, l - 1, y) && !Passes(g, r + 1, y)
  }

  /** The shadow that a whole run of row `y` casts in direction `d`. */
  ghost predicate Forward(g: Image, s: Pixel, sh: Shadow, d: int, y: int) {
    sh.ok && sh.row == y + d && sh.par == y && FullRun(g, s, sh.lft, sh.rgt, y)
  }

  ghost predicate Barren(g: Image, sh: Shadow) {
    forall c | sh.lft <= c <= sh.rgt :: !Passes(g, c, sh.row)
  }

  /** What may be pending when the rows `lo..hi` are done. */
  ghost predicate Expected(g: Image, s: Pixel, sh: Shadow, lo: int, hi: int) {
    sh.ok ==> (Barren(g, sh) && lo <= sh.row <= hi) || Forward(g, s, sh, 1, hi) || Forward(g, s, sh, -1, lo)
  }

  /** A run of row `y` through column `c` has cast its shadow in direction `d`. */
  ghost predicate CastOver(g: Image, s: Pixel, pend: seq<Shadow>, d: int, y: int, c: int) {
    exists i :: 0 <= i < |pend| && Forward(g, s, pend[i], d, y) && pend[i].lft <= c <= pend[i].rgt
  }

  ghost predicate Covers(g: Image, s: Pixel, pend: seq<Shadow>, d: int, y: int) {
    forall c | In(g, s, c, y) :: CastOver(g, s, pend, d, y, c)
  }

  ghost predicate AllExpected(g: Image, s: Pixel, pend: seq<Shadow>, lo: int, hi: int) {
    forall i | 0 <= i < |pend| :: Expected(g, s, pend[i], lo, hi)
  }

  /** No run casts its shadow twice. */
  ghost predicate Once(pend: seq<Shadow>, lo: int, hi: int) {
    forall sh: Shadow | sh.ok && (sh.row == hi + 1 || sh.row == lo - 1) :: multiset(pend)[sh] <= 1
  }

  // ----- Joining shadows: the loop over the row

  /** A row shadow after a run that ends at `r`. */
  function Cut(p: Shadow, r: int): Shadow {
    if p.lft > r then p else if p.rgt > r + 1 then p.(lft := r + 2) else Spent(p)
  }

  /** `pend` ends with `tail`, and what stands before it is spent or finds nothing in row `t`. */
  ghost predicate Junked(g: Image, pend: seq<Shadow>, tail: seq<Shadow>, t: int) {
    && |tail| <= |pend| && pend[|pend| - |tail|..] == tail
    && forall k | 0 <= k < |pend| - |tail| :: pend[k].row == t && (pend[k].ok ==> Barren(g, pend[k]))
  }

  /** From place `i` on, the shadows of the row are ordered, apart, and begin behind `last`. */
  ghost predicate Apart(row: seq<Shadow>, i: nat, last: int, t: int) {
    && (forall k | i <= k < |row| :: row[k].par == t && row[k].ok && last + 2 <= row[k].lft <= row[k].rgt)
    && (forall j, k | i <= j < k < |row| :: row[j].rgt + 2 <= row[k].lft)
  }

  /** Between `a` and `r` every passing column of row `t` lies under a shadow of the row. */
  ghost predicate Under(g: Image, row: seq<Shadow>, i: nat, a: int, r: int, t: int) {
    forall c | a <= c <= r && Passes(g, c, t) :: exists k :: i <= k < |row| && row[k].lft <= c <= row[k].rgt
  }

  /** Between two removals: the child to be joined next, the part of the run behind column `last`,
      stands first. */
  ghost predicate Joining(g: Image, st: State, i: nat, last: int, r: int, y: int, t: int) {
    && st.found && i <= |st.row| && Apart(st.row, i, last, t) && (forall k | i <= k < |st.row| :: st.row[k].row == y)
    && (r > last + 1 ==> st.pend != [] && st.pend[0] == Shadow(last + 2, r, t, y, true))
    && Under(g, st.row, i, last + 2, r, t)
  }

  /** The row from place `i` on is cut, and of the child only what finds nothing is left. */
  ghost predicate RowCut(g: Image, st: State, res: State, i: nat, last: int, r: int, t: int) {
    && res == st.(pend := res.pend, row := res.row) && |res.row| == |st.row|
    && (forall k | 0 <= k < |st.row| :: res.row[k] == if k < i then st.row[k] else Cut(st.row[k], r))
    && (r > last + 1 ==> st.pend != []) && Junked(g, res.pend, if r > last + 1 then st.pend[1..] else st.pend, t)
  }

  lemma {:induction false} Joins(g: Image, st: State, i: nat, last: int, r: int, y: int, t: int)
    requires i <= |st.row| && Joining(g, st, i, last, r, y, t)
    ensures RowCut(g, st, RemoveOverlaps(st, i, r), i, last, r, t)
    decreases |st.row| - i
  {
    hide Joining, RowCut, RemoveOverlap;
    assert st.found by { JoiningFound(g, st, i, last, r, y, t); }
    if i == |st.row| || st.row[i].lft > r {
      JoinsLast(g, st, i, last, r, y, t);
    } else {
      var next := RemoveOverlap(st, i);
      JoinsFirst(g, st, i, last, r, y, t);
      JoinsNext(g, st, next, i, last, r, y, t);
      Joins(g, next, i + 1, st.row[i].rgt, r, y, t);
      assert RemoveOverlaps(st, i, r) == RemoveOverlaps(next, i + 1, r);
      JoinsCut(g, st, next, RemoveOverlaps(st, i, r), i, last, r, y, t);
    }
  }

  lemma JoiningFound(g: Image, st: State, i: nat, last: int, r: int, y: int, t: int)
    requires Joining(g, st, i, last, r, y, t)
    ensures st.found
  {}

  lemma JoinsLast(g: Image, st: State, i: nat, last: int, r: int, y: int, t: int)
    requires Joining(g, st, i, last, r, y, t) && (i == |st.row| || st.row[i].lft > r)
    ensures RowCut(g, st, st, i, last, r, t)
  {
    if r > last + 1 {
      assert st.pend == [st.pend[0]] + st.pend[1..];
      assert Barren(g, st.pend[0]);
    }
  }

  /** The shadow is joined with the first pending one. */
  lemma JoinsFirst(g: Image, st: State, i: nat, last: int, r: int, y: int, t: int)
    requires Joining(g, st, i, last, r, y, t) && i < |st.row| && st.row[i].lft <= r
    ensures st.row[i].ok && st.pend != []
    ensures RemoveOverlap(st, i) == st.(pend := Pieces(last + 2, r, t, st.row[i]) + st.pend[0 := Spent(st.pend[0])],
                                        row := st.row[i := Cut(st.row[i], r)])
  {
    hide Under;
    assert FirstInRow(st.pend, t) == 0;
  }

  lemma JoinsNext(g: Image, st: State, next: State, i: nat, last: int, r: int, y: int, t: int)
    requires Joining(g, st, i, last, r, y, t) && i < |st.row| && st.row[i].lft <= r && st.pend != []
    requires next == st.(pend := Pieces(last + 2, r, t, st.row[i]) + st.pend[0 := Spent(st.pend[0])],
                         row := st.row[i := Cut(st.row[i], r)])
    ensures Joining(g, next, i + 1, st.row[i].rgt, r, y, t)
  {
    StillUnder(g, st.row, next.row, i, last, r, t);
    assert st.row[i].row == y;
    hide Under, Apart;
  }

  lemma JoinsCut(g: Image, st: State, next: State, res: State, i: nat, last: int, r: int, y: int, t: int)
    requires Joining(g, st, i, last, r, y, t) && i < |st.row| && st.row[i].lft <= r && st.pend != []
    requires next == st.(pend := Pieces(last + 2, r, t, st.row[i]) + st.pend[0 := Spent(st.pend[0])],
                         row := st.row[i := Cut(st.row[i], r)])
    requires RowCut(g, next, res, i + 1, st.row[i].rgt, r, t)
    ensures RowCut(g, st, res, i, last, r, t)
  {
    LeftBarren(g, st.row, i, last, r, y, t);
    assert last + 2 <= st.row[i].lft <= st.row[i].rgt && st.row[i].row == y by { hide Under; }
    hide Under, Apart, Junked, Barren;
    JunkMore(g, res.pend, Pieces(last + 2, r, t, st.row[i]), st.pend, st.row[i], last, r, y, t);
  }

  /** What is left of the child before the shadow at place `i` finds nothing. */
  lemma LeftBarren(g: Image, row: seq<Shadow>, i: nat, last: int, r: int, y: int, t: int)
    requires i < |row| && Apart(row, i, last, t) && Under(g, row, i, last + 2, r, t) && row[i].lft <= r
    ensures Barren(g, Shadow(last + 2, row[i].lft - 2, t, y, true))
  {}

  lemma StillUnder(g: Image, row: seq<Shadow>, row': seq<Shadow>, i: nat, last: int, r: int, t: int)
    requires i < |row| == |row'| && Apart(row, i, last, t) && Under(g, row, i, last + 2, r, t)
    requires forall k | i < k < |row| :: row'[k] == row[k]
    ensures Apart(row', i + 1, row[i].rgt, t) && Under(g, row', i + 1, row[i].rgt + 2, r, t)
  {
    forall c | row[i].rgt + 2 <= c <= r && Passes(g, c, t)
      ensures exists k :: i + 1 <= k < |row'| && row'[k].lft <= c <= row'[k].rgt
    {
      var k :| i <= k < |row| && row[k].lft <= c <= row[k].rgt;
      assert row'[k] == row[k];
    }
  }

  lemma JunkPrefix(g: Image, res: seq<Shadow>, mid: seq<Shadow>, tail: seq<Shadow>, all: seq<Shadow>, t: int)
    requires all == mid + tail && Junked(g, res, all, t)
    requires forall k | 0 <= k < |mid| :: mid[k].row == t && (mid[k].ok ==> Barren(g, mid[k]))
    ensures Junked(g, res, tail, t)
  {
    hide Barren;
    var k := |res| - |all|;
    assert res == res[..k] + all;
    forall i | 0 <= i < |res| - |tail|
      ensures res[i].row == t && (res[i].ok ==> Barren(g, res[i]))
    {
      if i >= k { assert res[i] == mid[i - k]; }
    }
    assert res[|res| - |tail|..] == tail;
  }

  lemma JunkMore(g: Image, res: seq<Shadow>, pieces: seq<Shadow>, pend: seq<Shadow>, p: Shadow, last: int, r: int,
          y: int, t: int)
    requires pend != [] && pend[0] == Shadow(last + 2, r, t, y, true) && p.row == y && last + 2 <= p.lft <= p.rgt
    requires pieces == Pieces(last + 2, r, t, p) && Barren(g, Shadow(last + 2, p.lft - 2, t, y, true))
    requires var next := pieces + pend[0 := Spent(pend[0])];
      Junked(g, res, if r > p.rgt + 1 then next[1..] else next, t)
    ensures Junked(g, res, pend[1..], t)
  {
    hide Junked, Barren;
    var left := if last + 2 < p.lft - 1 then [Shadow(last + 2, p.lft - 2, t, y, true)] else [];
    var mid := left + [Spent(pend[0])];
    var next := pieces + pend[0 := Spent(pend[0])];
    assert pend[0 := Spent(pend[0])] == [Spent(pend[0])] + pend[1..];
    if r > p.rgt + 1 {
      assert pieces == [Shadow(p.rgt + 2, r, t, y, true)] + left;
      assert next[1..] == mid + pend[1..];
      JunkPrefix(g, res, mid, pend[1..], next[1..], t);
    } else {
      assert pieces == left && next == mid + pend[1..];
      JunkPrefix(g, res, mid, pend[1..], next, t);
    }
  }

  // ----- One row after the first, in the direction away from the seed

  /** The row under work, when the rows `lo..hi` are done with it. */
  function Edge(d: int, lo: int, hi: int): int {
    if d == 1 then hi else lo
  }

  predicate Side(s: Pixel, d: int, lo: int, hi: int) {
    (d == 1 || d == -1) && lo <= s.y <= hi && Edge(d, lo, hi) != s.y
  }

  /** The shadows of the row: ordered and apart, over connected pixels, the spent ones first. */
  ghost predicate Shaped(g: Image, s: Pixel, row: seq<Shadow>, y: int, t: int) {
    && (forall k | 0 <= k < |row| ::
          row[k].row == y && row[k].par == t && row[k].lft <= row[k].rgt && !Passes(g, row[k].rgt + 1, t)
          && forall c | row[k].lft <= c <= row[k].rgt :: In(g, s, c, t))
    && (forall j, k | 0 <= j < k < |row| :: row[j].rgt + 2 <= row[k].lft && (row[j].ok ==> row[k].ok))
  }

  /** The cells that are marked: all connected ones of the rows done, and in the row under work
      those whose run has cast its shadow. */
  ghost predicate MarksAre(g: Image, s: Pixel, calls: seq<Pixel>, pend: seq<Shadow>, d: int, lo: int, hi: int) {
    forall p: Pixel :: p in calls <==>
      && In(g, s, p.x, p.y) && g.blank(p.x, p.y) && lo <= p.y <= hi
      && (p.y == Edge(d, lo, hi) ==> CastOver(g, s, pend, d, p.y, p.x))
  }

  ghost predicate Kept(g: Image, s: Pixel, st: State, d: int, lo: int, hi: int) {
    && st.found && st.currRow == Edge(d, lo, hi)
    && AllExpected(g, s, st.pend, lo, hi) && Once(st.pend, lo, hi)
    && Covers(g, s, st.pend, -d, Edge(-d, lo, hi))
    && WellMarked(g, st.calls) && MarksAre(g, s, st.calls, st.pend, d, lo, hi)
    && Shaped(g, s, st.row, st.currRow, st.currRow - d)
  }

  /** Each passing column beside a connected pixel of the row before lies in the open stretch
      `a..b`, under a shadow of the row, or in a run that has cast its shadow. */
  ghost predicate Open(g: Image, s: Pixel, st: State, a: int, b: int, d: int) {
    forall c | In(g, s, c, st.currRow - d) && Passes(g, c, st.currRow) ::
      || a <= c <= b
      || (exists k :: 0 <= k < |st.row| && st.row[k].ok && st.row[k].lft <= c <= st.row[k].rgt)
      || CastOver(g, s, st.pend, d, st.currRow, c)
  }

  /** The runs that have cast their shadows lie before all that is open. */
  ghost predicate Behind(g: Image, s: Pixel, st: State, a: int, b: int, d: int) {
    forall i | 0 <= i < |st.pend| && Forward(g, s, st.pend[i], d, st.currRow) ::
      && (a <= b ==> st.pend[i].rgt < a)
      && forall k | 0 <= k < |st.row| && st.row[k].ok :: st.pend[i].rgt < st.row[k].lft
  }

  /** Between two steps of the row. */
  ghost predicate Working(g: Image, s: Pixel, st: State, d: int, lo: int, hi: int) {
    Side(s, d, lo, hi) && Kept(g, s, st, d, lo, hi) && Open(g, s, st, 1, 0, d) && Behind(g, s, st, 1, 0, d)
  }

  /** The seed shadow against the rest of the row. */
  ghost predicate Seeded(g: Image, s: Pixel, st: State, seed: Shadow, col: int, d: int) {
    && seed.row == st.currRow && seed.par == st.currRow - d && seed.lft <= col && !Passes(g, seed.rgt + 1, seed.par)
    && (forall c | seed.lft <= c <= seed.rgt :: In(g, s, c, seed.par))
    && (forall k | 0 <= k < |st.row| :: seed.rgt + 2 <= st.row[k].lft && (col <= seed.rgt ==> st.row[k].ok))
    && (col == seed.lft || !Passes(g, col - 1, st.currRow))
  }

  /** In the middle of a visit, at column `col`. */
  ghost predicate Visiting(g: Image, s: Pixel, st: State, seed: Shadow, col: int, d: int, lo: int, hi: int) {
    && Side(s, d, lo, hi) && Kept(g, s, st, d, lo, hi) && Seeded(g, s, st, seed, col, d)
    && Open(g, s, st, col, seed.rgt, d) && Behind(g, s, st, col, seed.rgt, d)
  }

  /** The run is a whole one, connected, and no run up to it has cast a shadow. */
  ghost predicate NewRun(g: Image, s: Pixel, st: State, col: int, d: int, l: int, e: int) {
    && FullRun(g, s, l, e - 1, st.currRow) && l <= col < e
    && forall i | 0 <= i < |st.pend| && Forward(g, s, st.pend[i], d, st.currRow) :: st.pend[i].rgt < l
  }

  /** The lists after the run: the row is cut, its own shadow is cast, and what is cast back finds nothing. */
  ghost predicate ListsAfter(g: Image, st: State, next: State, d: int, l: int, e: int) {
    && next == st.(pend := next.pend, row := next.row, calls := next.calls)
    && |next.row| == |st.row| && (forall k | 0 <= k < |st.row| :: next.row[k] == Cut(st.row[k], e - 1))
    && Junked(g, next.pend, [Shadow(l, e - 1, st.currRow + d, st.currRow, true)] + st.pend, st.currRow - d)
  }

  /** The run met at column `col` is a whole run, connected, and has not cast a shadow yet. */
  lemma RunIsNew(g: Image, s: Pixel, st: State, seed: Shadow, col: int, d: int, lo: int, hi: int)
    requires Visiting(g, s, st, seed, col, d, lo, hi) && col <= seed.rgt && Passes(g, col, st.currRow)
    ensures NewRun(g, s, st, col, d, LeftEnd(g, st.currRow, seed, col), RunEnd(g, col + 1, st.currRow))
  {
    var y := st.currRow;
    var l, e := LeftEnd(g, y, seed, col), RunEnd(g, col + 1, y);
    hide Connected, Kept, LeftEnd, RunEnd;
    assert In(g, s, col, y - d);
    ConnectedNext(g, s, Pixel(col, y - d), Pixel(col, y));
    forall c | l <= c < e
      ensures In(g, s, c, y)
    {
      RunConnected(g, s, col, c, y);
    }
    forall i | 0 <= i < |st.pend| && Forward(g, s, st.pend[i], d, y)
      ensures st.pend[i].rgt < l
    {
      assert st.pend[i].rgt < col && !Passes(g, st.pend[i].rgt + 1, y);
    }
  }

  /** Between `l` and `r`, every passing column of row `t` lies under the seed shadow or under one of the row. */
  ghost predicate Roofed(g: Image, seed: Shadow, row: seq<Shadow>, l: int, r: int, t: int) {
    forall c | l <= c <= r && Passes(g, c, t) ::
      seed.lft <= c <= seed.rgt || exists k :: 0 <= k < |row| && row[k].lft <= c <= row[k].rgt
  }

  /** Over the run, every passing column of the row before lies under the seed shadow or under a
      shadow still to be visited. */
  lemma RunIsUnder(g: Image, s: Pixel, st: State, seed: Shadow, col: int, d: int, lo: int, hi: int, l: int, r: int)
    requires Visiting(g, s, st, seed, col, d, lo, hi) && col <= seed.rgt && FullRun(g, s, l, r, st.currRow) && l <= col <= r
    requires forall i | 0 <= i < |st.pend| && Forward(g, s, st.pend[i], d, st.currRow) :: st.pend[i].rgt < l
    ensures Roofed(g, seed, st.row, l, r, st.currRow - d)
  {
    hide Connected, Kept;
    var t := st.currRow - d;
    forall c | l <= c <= r && Passes(g, c, t)
      ensures seed.lft <= c <= seed.rgt || exists k :: 0 <= k < |st.row| && st.row[k].lft <= c <= st.row[k].rgt
    {
      assert In(g, s, c, st.currRow);
      InPasses(g, s, c, st.currRow);
      ConnectedNext(g, s, Pixel(c, st.currRow), Pixel(c, t));
      assert In(g, s, c, t);
    }
  }

  lemma RoofedUnder(g: Image, seed: Shadow, row: seq<Shadow>, l: int, r: int, t: int)
    requires Roofed(g, seed, row, l, r, t) && l <= seed.rgt && seed.lft <= seed.rgt && seed.lft <= r
    ensures Under(g, row, 0, seed.rgt + 2, r, t)
    ensures (forall k | 0 <= k < |row| :: seed.rgt < row[k].lft) ==> Barren(g, Shadow(l, seed.lft - 2, t, seed.row, true))
  {
    forall c | seed.rgt + 2 <= c <= r && Passes(g, c, t)
      ensures exists k :: 0 <= k < |row| && row[k].lft <= c <= row[k].rgt
    {
      assert l <= c <= r;
    }
  }

  lemma RunLists(g: Image, s: Pixel, st: State, seed: Shadow, col: int, d: int, lo: int, hi: int, l: int, e: int)
    requires Visiting(g, s, st, seed, col, d, lo, hi) && col <= seed.rgt && NewRun(g, s, st, col, d, l, e)
    ensures ListsAfter(g, st, OneRun(g, st, seed, col, l, e), d, l, e)
  {
    hide Connected, Junked, OneRun, Visiting, Under, Apart, Barren, FullRun, Roofed;
    var y, t, r := st.currRow, st.currRow - d, e - 1;
    RowApart(g, s, st, seed, col, d, lo, hi);
    RunIsUnder(g, s, st, seed, col, d, lo, hi, l, r);
    RoofedUnder(g, seed, st.row, l, r, t);
    RowJoins(g, st, seed, col, l, e, d, y, t);
  }

  lemma RowApart(g: Image, s: Pixel, st: State, seed: Shadow, col: int, d: int, lo: int, hi: int)
    requires Visiting(g, s, st, seed, col, d, lo, hi) && col <= seed.rgt
    ensures st.found && st.currRow == seed.row && seed.par == st.currRow - d && (d == 1 || d == -1) && seed.lft <= col
    ensures Apart(st.row, 0, seed.rgt, seed.par)
    ensures forall k | 0 <= k < |st.row| :: st.row[k].row == st.currRow && seed.rgt < st.row[k].lft
  {
    hide Connected, Open, Behind, Covers, Once, AllExpected, WellMarked, MarksAre;
  }

  lemma RowJoins(g: Image, st: State, seed: Shadow, col: int, l: int, e: int, d: int, y: int, t: int)
    requires st.found && st.currRow == seed.row == y && seed.par == t == y - d && (d == 1 || d == -1)
    requires Apart(st.row, 0, seed.rgt, t) && (forall k | 0 <= k < |st.row| :: st.row[k].row == y)
    requires Under(g, st.row, 0, seed.rgt + 2, e - 1, t) && Barren(g, Shadow(l, seed.lft - 2, t, y, true))
    ensures var next := OneRun(g, st, seed, col, l, e);
      && next == st.(pend := next.pend, row := next.row, calls := MarkRun(g, st.calls, col, l, e, y))
      && |next.row| == |st.row| && (forall k | 0 <= k < |st.row| :: next.row[k] == Cut(st.row[k], e - 1))
      && Junked(g, next.pend, [Shadow(l, e - 1, y + d, y, true)] + st.pend, t)
  {
    hide MarkRun, Junked, Apart, Under, Cast, RemoveOverlaps, Joining;
    var r := e - 1;
    var left := if l < seed.lft - 1 then [Shadow(l, seed.lft - 2, t, y, true)] else [];
    var right := if r > seed.rgt + 1 then [Shadow(seed.rgt + 2, r, t, y, true)] else [];
    var tail := [Shadow(l, r, y + d, y, true)] + st.pend;
    CastIs(seed, l, r, y, t, d, left);
    var cast := st.(calls := MarkRun(g, st.calls, col, l, e, y), pend := Cast(y, seed, l, r) + st.pend);
    assert cast.pend == right + (left + tail);
    CastJoining(g, cast, right, left + tail, seed.rgt, r, y, t);
    Joins(g, cast, 0, seed.rgt, r, y, t);
    assert (if r > seed.rgt + 1 then cast.pend[1..] else cast.pend) == left + tail;
    LeftPrefix(g, RemoveOverlaps(cast, 0, r).pend, left, tail, Shadow(l, seed.lft - 2, t, y, true), t);
  }

  lemma CastJoining(g: Image, cast: State, right: seq<Shadow>, rest: seq<Shadow>, last: int, r: int, y: int, t: int)
    requires cast.found && Apart(cast.row, 0, last, t) && (forall k | 0 <= k < |cast.row| :: cast.row[k].row == y)
    requires Under(g, cast.row, 0, last + 2, r, t) && cast.pend == right + rest
    requires right == if r > last + 1 then [Shadow(last + 2, r, t, y, true)] else []
    ensures Joining(g, cast, 0, last, r, y, t)
  {
    hide Apart, Under;
  }

  lemma LeftPrefix(g: Image, res: seq<Shadow>, left: seq<Shadow>, tail: seq<Shadow>, sh: Shadow, t: int)
    requires (left == [] || left == [sh]) && sh.row == t && Barren(g, sh) && Junked(g, res, left + tail, t)
    ensures Junked(g, res, tail, t)
  {
    hide Barren, Junked;
    JunkPrefix(g, res, left, tail, left + tail, t);
  }

  lemma CastIs(seed: Shadow, l: int, r: int, y: int, t: int, d: int, left: seq<Shadow>)
    requires seed.row == y && seed.par == t == y - d && (d == 1 || d == -1)
    requires left == if l < seed.lft - 1 then [Shadow(l, seed.lft - 2, t, y, true)] else []
    ensures Cast(y, seed, l, r) == (if r > seed.rgt + 1 then [Shadow(seed.rgt + 2, r, t, y, true)] else [])
                                   + left + [Shadow(l, r, y + d, y, true)]
  {}

  // ----- After the run

  lemma InJunk(g: Image, pend: seq<Shadow>, tail: seq<Shadow>, t: int, k: nat)
    requires Junked(g, pend, tail, t) && k < |pend|
    ensures var n := |pend| - |tail|;
            if k < n then pend[k].row == t && (pend[k].ok ==> Barren(g, pend[k])) else pend[k] == tail[k - n]
  {}

  /** Which runs have cast their shadows, after one more has. */
  lemma CastMore(g: Image, s: Pixel, pend: seq<Shadow>, pend': seq<Shadow>, n: Shadow, t: int, d: int, y: int, c: int)
    requires Junked(g, pend', [n] + pend, t) && t != y + d
    ensures CastOver(g, s, pend', d, y, c) <==> CastOver(g, s, pend, d, y, c) || (Forward(g, s, n, d, y) && n.lft <= c <= n.rgt)
  {
    hide Forward, Barren;
    var tail, k := [n] + pend, |pend'| - |pend| - 1;
    if CastOver(g, s, pend', d, y, c) {
      var i :| 0 <= i < |pend'| && Forward(g, s, pend'[i], d, y) && pend'[i].lft <= c <= pend'[i].rgt;
      InJunk(g, pend', tail, t, i);
      assert pend'[i].row == y + d by { ForwardRow(g, s, pend'[i], d, y); }
      assert i >= k;
      if i > k { assert pend'[i] == pend[i - k - 1]; }
    }
    if CastOver(g, s, pend, d, y, c) {
      var i :| 0 <= i < |pend| && Forward(g, s, pend[i], d, y) && pend[i].lft <= c <= pend[i].rgt;
      InJunk(g, pend', tail, t, k + 1 + i);
      assert pend'[k + 1 + i] == pend[i];
    }
    InJunk(g, pend', tail, t, k);
  }

  lemma ForwardRow(g: Image, s: Pixel, sh: Shadow, d: int, y: int)
    requires Forward(g, s, sh, d, y)
    ensures sh.ok && sh.row == y + d && sh.par == y && FullRun(g, s, sh.lft, sh.rgt, y)
  {}

  lemma ExpectedMore(g: Image, s: Pixel, pend: seq<Shadow>, pend': seq<Shadow>, n: Shadow, t: int, lo: int, hi: int)
    requires Junked(g, pend', [n] + pend, t) && lo <= t <= hi
    requires AllExpected(g, s, pend, lo, hi) && Expected(g, s, n, lo, hi)
    ensures AllExpected(g, s, pend', lo, hi)
  {
    hide Barren, Forward;
    forall i | 0 <= i < |pend'|
      ensures Expected(g, s, pend'[i], lo, hi)
    {
      InJunk(g, pend', [n] + pend, t, i);
      var k := |pend'| - |pend| - 1;
      if i > k { assert pend'[i] == pend[i - k - 1]; }
    }
  }

  /** A shadow that is not pending yet is pending once. */
  lemma OnceMore(g: Image, pend: seq<Shadow>, pend': seq<Shadow>, n: Shadow, t: int, lo: int, hi: int)
    requires Junked(g, pend', [n] + pend, t) && lo <= t <= hi && Once(pend, lo, hi) && n !in pend
    ensures Once(pend', lo, hi)
  {
    var k := |pend'| - |pend| - 1;
    assert pend' == pend'[..k] + ([n] + pend);
    forall sh: Shadow | sh.ok && (sh.row == hi + 1 || sh.row == lo - 1)
      ensures multiset(pend')[sh] <= 1
    {
      forall i | 0 <= i < k
        ensures pend'[..k][i] != sh
      {
        InJunk(g, pend', [n] + pend, t, i);
      }
      assert multiset(pend') == multiset(pend'[..k]) + multiset{n} + multiset(pend);
      assert multiset(pend'[..k])[sh] == 0 && multiset(pend)[sh] <= 1;
      if sh == n { assert multiset(pend)[n] == 0; }
    }
  }

  lemma CutShaped(g: Image, s: Pixel, row: seq<Shadow>, row': seq<Shadow>, r: int, y: int, t: int)
    requires Shaped(g, s, row, y, t) && |row'| == |row|
    requires forall k | 0 <= k < |row| :: row[k].ok && row'[k] == Cut(row[k], r)
    ensures Shaped(g, s, row', y, t)
  {
    hide Connected;
  }

  lemma CutOpen(row: seq<Shadow>, row': seq<Shadow>, r: int, c: int)
    requires |row'| == |row| && forall k | 0 <= k < |row| :: row[k].ok && row'[k] == Cut(row[k], r)
    requires exists k :: 0 <= k < |row| && row[k].ok && row[k].lft <= c <= row[k].rgt
    ensures c <= r + 1 || exists k :: 0 <= k < |row'| && row'[k].ok && row'[k].lft <= c <= row'[k].rgt
  {
    var k :| 0 <= k < |row| && row[k].ok && row[k].lft <= c <= row[k].rgt;
    assert c <= r + 1 || (row'[k].ok && row'[k].lft <= c <= row'[k].rgt);
  }

  /** What a run adds to the marks. */
  lemma RunMarksExactly(g: Image, st: State, seed: Shadow, col: int, l: int, e: int, p: Pixel)
    requires l <= col < e && WellMarked(g, st.calls) && forall c | l <= c < e :: Passes(g, c, st.currRow)
    ensures var calls := OneRun(g, st, seed, col, l, e).calls;
      WellMarked(g, calls) && (p in calls <==> p in st.calls || (p.y == st.currRow && l <= p.x < e && g.blank(p.x, p.y)))
  {
    hide OneRun, WellMarked;
    OneRunMarks(g, st, seed, col, l, e);
    OneRunGrows(g, st, seed, col, l, e);
    var calls := OneRun(g, st, seed, col, l, e).calls;
    if p in calls {
      OneRunAdds(g, st, seed, col, l, e, p);
      assert g.blank(p.x, p.y) by { MarkedBlank(g, calls, p); }
    }
    if p.y == st.currRow && l <= p.x < e && g.blank(p.x, p.y) { WholeRunMarked(g, st, seed, col, l, e, p.x); }
  }

  lemma MarkedBlank(g: Image, calls: seq<Pixel>, p: Pixel)
    requires WellMarked(g, calls) && p in calls
    ensures g.blank(p.x, p.y)
  {}

  /** The pending shadows after a run are as they should be. */
  lemma RunPending(g: Image, s: Pixel, pend: seq<Shadow>, pend': seq<Shadow>, n: Shadow, d: int, lo: int, hi: int)
    requires Side(s, d, lo, hi) && Junked(g, pend', [n] + pend, Edge(d, lo, hi) - d) && Forward(g, s, n, d, Edge(d, lo, hi))
    requires AllExpected(g, s, pend, lo, hi) && Once(pend, lo, hi) && Covers(g, s, pend, -d, Edge(-d, lo, hi))
    requires forall i | 0 <= i < |pend| && Forward(g, s, pend[i], d, Edge(d, lo, hi)) :: pend[i].rgt < n.lft
    ensures AllExpected(g, s, pend', lo, hi) && Once(pend', lo, hi) && Covers(g, s, pend', -d, Edge(-d, lo, hi))
  {
    var y := Edge(d, lo, hi);
    ForwardRow(g, s, n, d, y);
    assert n !in pend;
    hide Forward, Junked, Barren;
    ExpectedMore(g, s, pend, pend', n, y - d, lo, hi);
    OnceMore(g, pend, pend', n, y - d, lo, hi);
    var other := Edge(-d, lo, hi);
    forall c | In(g, s, c, other)
      ensures CastOver(g, s, pend', -d, other, c)
    {
      CastMore(g, s, pend, pend', n, y - d, -d, other, c);
    }
  }

  lemma RunOpen(g: Image, s: Pixel, st: State, next: State, seed: Shadow, col: int, n: Shadow, d: int, e: int)
    requires (d == 1 || d == -1) && Junked(g, next.pend, [n] + st.pend, st.currRow - d) && Forward(g, s, n, d, st.currRow)
    requires next.currRow == st.currRow && n.rgt == e - 1 && n.lft <= col < e && col <= seed.rgt
    requires |next.row| == |st.row|
    requires forall k | 0 <= k < |st.row| :: seed.rgt < st.row[k].lft && st.row[k].ok && next.row[k] == Cut(st.row[k], e - 1)
    requires Open(g, s, st, col, seed.rgt, d)
    ensures Open(g, s, next, e + 1, seed.rgt, d)
  {
    var y := st.currRow;
    ForwardRow(g, s, n, d, y);
    hide Forward, Junked, Connected;
    forall c | In(g, s, c, y - d) && Passes(g, c, y)
      ensures || e + 1 <= c <= seed.rgt
              || (exists k :: 0 <= k < |next.row| && next.row[k].ok && next.row[k].lft <= c <= next.row[k].rgt)
              || CastOver(g, s, next.pend, d, y, c)
    {
      CastMore(g, s, st.pend, next.pend, n, y - d, d, y, c);
      assert c != e;
      if exists k :: 0 <= k < |st.row| && st.row[k].ok && st.row[k].lft <= c <= st.row[k].rgt {
        CutOpen(st.row, next.row, e - 1, c);
      }
    }
  }

  lemma RunBehind(g: Image, s: Pixel, st: State, next: State, seed: Shadow, col: int, n: Shadow, d: int, e: int)
    requires (d == 1 || d == -1) && Junked(g, next.pend, [n] + st.pend, st.currRow - d) && next.currRow == st.currRow
    requires n.rgt == e - 1 && col < e && col <= seed.rgt
    requires |next.row| == |st.row|
    requires forall k | 0 <= k < |st.row| :: seed.rgt < st.row[k].lft && st.row[k].ok && next.row[k] == Cut(st.row[k], e - 1)
    requires Behind(g, s, st, col, seed.rgt, d)
    ensures Behind(g, s, next, e + 1, seed.rgt, d)
  {
    var y := st.currRow;
    var m := |next.pend| - |st.pend| - 1;
    forall i | 0 <= i < |next.pend| && Forward(g, s, next.pend[i], d, y)
      ensures (e + 1 <= seed.rgt ==> next.pend[i].rgt < e + 1)
              && forall k | 0 <= k < |next.row| && next.row[k].ok :: next.pend[i].rgt < next.row[k].lft
    {
      ForwardRow(g, s, next.pend[i], d, y);
      InJunk(g, next.pend, [n] + st.pend, y - d, i);
      hide Forward, Junked;
      assert i >= m;
      if i > m { assert next.pend[i] == st.pend[i - m - 1]; }
    }
  }

  /** What a run met at column `col` has done, in sum. */
  ghost predicate RunDone(g: Image, s: Pixel, st: State, next: State, seed: Shadow, col: int, d: int, l: int, e: int) {
    && col <= seed.rgt && next == OneRun(g, st, seed, col, l, e)
    && NewRun(g, s, st, col, d, l, e) && ListsAfter(g, st, next, d, l, e)
    && (forall k | 0 <= k < |st.row| :: seed.rgt < st.row[k].lft && st.row[k].ok)
  }

  lemma RunIsDone(g: Image, s: Pixel, st: State, seed: Shadow, col: int, d: int, lo: int, hi: int)
    requires Visiting(g, s, st, seed, col, d, lo, hi) && col <= seed.rgt && Passes(g, col, st.currRow)
    ensures var l, e := LeftEnd(g, st.currRow, seed, col), RunEnd(g, col + 1, st.currRow);
            RunDone(g, s, st, OneRun(g, st, seed, col, l, e), seed, col, d, l, e)
  {
    var l, e := LeftEnd(g, st.currRow, seed, col), RunEnd(g, col + 1, st.currRow);
    assert Seeded(g, s, st, seed, col, d);
    hide Connected, OneRun, LeftEnd, RunEnd, Visiting, Passes, NewRun, ListsAfter;
    RunIsNew(g, s, st, seed, col, d, lo, hi);
    RunLists(g, s, st, seed, col, d, lo, hi, l, e);
  }

  lemma RunFacts(g: Image, s: Pixel, st: State, next: State, seed: Shadow, col: int, d: int, l: int, e: int)
    requires RunDone(g, s, st, next, seed, col, d, l, e)
    ensures var n := Shadow(l, e - 1, st.currRow + d, st.currRow, true);
      Forward(g, s, n, d, st.currRow) && Junked(g, next.pend, [n] + st.pend, st.currRow - d)
    ensures col <= seed.rgt && l <= col < e && next.currRow == st.currRow && next.found == st.found && |next.row| == |st.row|
    ensures forall k | 0 <= k < |st.row| :: seed.rgt < st.row[k].lft && st.row[k].ok && next.row[k] == Cut(st.row[k], e - 1)
    ensures next == OneRun(g, st, seed, col, l, e)
    ensures forall i | 0 <= i < |st.pend| && Forward(g, s, st.pend[i], d, st.currRow) :: st.pend[i].rgt < l
  {
    hide OneRun, Connected, Junked;
  }

  lemma PendingAfter(g: Image, s: Pixel, st: State, next: State, seed: Shadow, col: int, d: int, lo: int, hi: int,
          l: int, e: int)
    requires Side(s, d, lo, hi) && st.currRow == Edge(d, lo, hi) && RunDone(g, s, st, next, seed, col, d, l, e)
    requires AllExpected(g, s, st.pend, lo, hi) && Once(st.pend, lo, hi) && Covers(g, s, st.pend, -d, Edge(-d, lo, hi))
    ensures AllExpected(g, s, next.pend, lo, hi) && Once(next.pend, lo, hi) && Covers(g, s, next.pend, -d, Edge(-d, lo, hi))
  {
    var n := Shadow(l, e - 1, st.currRow + d, st.currRow, true);
    RunFacts(g, s, st, next, seed, col, d, l, e);
    hide RunDone, Junked, Forward, AllExpected, Once, Covers, OneRun;
    RunPending(g, s, st.pend, next.pend, n, d, lo, hi);
  }

  lemma MarkedAfter(g: Image, s: Pixel, st: State, next: State, seed: Shadow, col: int, d: int, lo: int, hi: int,
          l: int, e: int)
    requires Side(s, d, lo, hi) && st.currRow == Edge(d, lo, hi) && RunDone(g, s, st, next, seed, col, d, l, e)
    requires WellMarked(g, st.calls) && MarksAre(g, s, st.calls, st.pend, d, lo, hi)
    ensures WellMarked(g, next.calls) && MarksAre(g, s, next.calls, next.pend, d, lo, hi)
  {
    var n := Shadow(l, e - 1, st.currRow + d, st.currRow, true);
    RunFacts(g, s, st, next, seed, col, d, l, e);
    hide RunDone, Junked, Forward, WellMarked, MarksAre, OneRun;
    RunMarked(g, s, st, next, seed, col, n, d, lo, hi, l, e);
  }

  lemma ShapedAfter(g: Image, s: Pixel, st: State, next: State, seed: Shadow, col: int, d: int, l: int, e: int)
    requires Shaped(g, s, st.row, st.currRow, st.currRow - d) && RunDone(g, s, st, next, seed, col, d, l, e)
    ensures Shaped(g, s, next.row, st.currRow, st.currRow - d) && next.currRow == st.currRow && next.found == st.found
  {
    RunFacts(g, s, st, next, seed, col, d, l, e);
    hide RunDone, Junked, Forward, Shaped, OneRun;
    CutShaped(g, s, st.row, next.row, e - 1, st.currRow, st.currRow - d);
  }

  lemma KeptAfter(g: Image, s: Pixel, st: State, next: State, seed: Shadow, col: int, d: int, lo: int, hi: int,
          l: int, e: int)
    requires Side(s, d, lo, hi) && Kept(g, s, st, d, lo, hi) && RunDone(g, s, st, next, seed, col, d, l, e)
    ensures Kept(g, s, next, d, lo, hi) && next.currRow == st.currRow
  {
    hide RunDone, Shaped, MarksAre, AllExpected, Once, Covers, WellMarked;
    PendingAfter(g, s, st, next, seed, col, d, lo, hi, l, e);
    MarkedAfter(g, s, st, next, seed, col, d, lo, hi, l, e);
    ShapedAfter(g, s, st, next, seed, col, d, l, e);
  }

  lemma OpenAfter(g: Image, s: Pixel, st: State, next: State, seed: Shadow, col: int, d: int, l: int, e: int)
    requires (d == 1 || d == -1) && RunDone(g, s, st, next, seed, col, d, l, e)
    requires Open(g, s, st, col, seed.rgt, d) && Behind(g, s, st, col, seed.rgt, d) && Seeded(g, s, st, seed, col, d)
    requires !Passes(g, e, st.currRow)
    ensures Open(g, s, next, e + 1, seed.rgt, d) && Behind(g, s, next, e + 1, seed.rgt, d) && Seeded(g, s, next, seed, e + 1, d)
  {
    var n := Shadow(l, e - 1, st.currRow + d, st.currRow, true);
    RunFacts(g, s, st, next, seed, col, d, l, e);
    assert forall k | 0 <= k < |st.row| :: seed.rgt < st.row[k].lft;
    hide RunDone, Junked, Forward, Open, Behind, Seeded, OneRun;
    RunOpen(g, s, st, next, seed, col, n, d, e);
    RunBehind(g, s, st, next, seed, col, n, d, e);
    RunSeeded(g, s, st, next, seed, col, d, e);
  }

  /** A run that is met keeps all that. */
  lemma RunKeeps(g: Image, s: Pixel, st: State, seed: Shadow, col: int, d: int, lo: int, hi: int)
    requires Visiting(g, s, st, seed, col, d, lo, hi) && col <= seed.rgt && Passes(g, col, st.currRow)
    ensures var l, e := LeftEnd(g, st.currRow, seed, col), RunEnd(g, col + 1, st.currRow);
            && Visiting(g, s, OneRun(g, st, seed, col, l, e), seed, e + 1, d, lo, hi)
            && |OneRun(g, st, seed, col, l, e).row| == |st.row| && st.found
  {
    hide OneRun, LeftEnd, RunEnd, Kept, Open, Behind, Seeded, RunDone;
    var l, e := LeftEnd(g, st.currRow, seed, col), RunEnd(g, col + 1, st.currRow);
    RunIsDone(g, s, st, seed, col, d, lo, hi);
    KeptAfter(g, s, st, OneRun(g, st, seed, col, l, e), seed, col, d, lo, hi, l, e);
    OpenAfter(g, s, st, OneRun(g, st, seed, col, l, e), seed, col, d, l, e);
    assert st.found by { KeptFound(g, s, st, d, lo, hi); }
    SameLists(g, s, st, OneRun(g, st, seed, col, l, e), seed, col, d, l, e);
  }

  lemma KeptFound(g: Image, s: Pixel, st: State, d: int, lo: int, hi: int)
    requires Kept(g, s, st, d, lo, hi)
    ensures st.found
  {}

  lemma SameLists(g: Image, s: Pixel, st: State, next: State, seed: Shadow, col: int, d: int, l: int, e: int)
    requires RunDone(g, s, st, next, seed, col, d, l, e)
    ensures |next.row| == |st.row|
  {}

  lemma RunSeeded(g: Image, s: Pixel, st: State, next: State, seed: Shadow, col: int, d: int, e: int)
    requires Seeded(g, s, st, seed, col, d) && next.currRow == st.currRow
    requires !Passes(g, e, st.currRow) && col < e && col <= seed.rgt
    requires |next.row| == |st.row| && forall k | 0 <= k < |st.row| :: next.row[k] == Cut(st.row[k], e - 1)
    ensures Seeded(g, s, next, seed, e + 1, d)
  {
    hide Connected;
  }

  lemma RunMarked(g: Image, s: Pixel, st: State, next: State, seed: Shadow, col: int, n: Shadow, d: int, lo: int,
          hi: int, l: int, e: int)
    requires Side(s, d, lo, hi) && st.currRow == Edge(d, lo, hi) && next == OneRun(g, st, seed, col, l, e) && l <= col < e
    requires n == Shadow(l, e - 1, st.currRow + d, st.currRow, true) && Forward(g, s, n, d, st.currRow)
    requires Junked(g, next.pend, [n] + st.pend, st.currRow - d)
    requires WellMarked(g, st.calls) && MarksAre(g, s, st.calls, st.pend, d, lo, hi)
    ensures WellMarked(g, next.calls) && MarksAre(g, s, next.calls, next.pend, d, lo, hi)
  {
    var y := st.currRow;
    ForwardRow(g, s, n, d, y);
    forall c | l <= c < e
      ensures Passes(g, c, y)
    {
      assert In(g, s, c, y);
      InPasses(g, s, c, y);
    }
    RunMarksExactly(g, st, seed, col, l, e, s);
    hide OneRun, Connected, Junked, Forward, WellMarked;
    forall p: Pixel
      ensures p in next.calls <==>
        && In(g, s, p.x, p.y) && g.blank(p.x, p.y) && lo <= p.y <= hi
        && (p.y == Edge(d, lo, hi) ==> CastOver(g, s, next.pend, d, p.y, p.x))
    {
      RunMarksExactly(g, st, seed, col, l, e, p);
      CastMore(g, s, st.pend, next.pend, n, y - d, d, y, p.x);
      if p.y == y && l <= p.x < e { assert In(g, s, p.x, y); }
    }
  }

  /** A visit ends between two steps of the row. */
  lemma {:induction false} VisitKeeps(g: Image, s: Pixel, st: State, seed: Shadow, col: int, d: int, lo: int, hi: int)
    requires Visiting(g, s, st, seed, col, d, lo, hi)
    ensures var next := Visit(g, st, seed, col); Working(g, s, next, d, lo, hi) && |next.row| == |st.row|
    decreases if col > seed.rgt then 0 else seed.rgt - col + 1
  {
    hide Visiting, Working, OneRun, LeftEnd, RunEnd, Passes;
    if col > seed.rgt {
      VisitEnds(g, s, st, seed, col, d, lo, hi);
    } else if !Passes(g, col, st.currRow) {
      NoRunHere(g, s, st, seed, col, d, lo, hi);
      VisitKeeps(g, s, st, seed, col + 1, d, lo, hi);
    } else {
      var l, e := LeftEnd(g, st.currRow, seed, col), RunEnd(g, col + 1, st.currRow);
      RunKeeps(g, s, st, seed, col, d, lo, hi);
      VisitKeeps(g, s, OneRun(g, st, seed, col, l, e), seed, e + 1, d, lo, hi);
    }
  }

  lemma VisitEnds(g: Image, s: Pixel, st: State, seed: Shadow, col: int, d: int, lo: int, hi: int)
    requires Visiting(g, s, st, seed, col, d, lo, hi) && col > seed.rgt
    ensures Working(g, s, st, d, lo, hi)
  {
    hide Connected, Kept, Forward;
  }

  lemma NoRunHere(g: Image, s: Pixel, st: State, seed: Shadow, col: int, d: int, lo: int, hi: int)
    requires Visiting(g, s, st, seed, col, d, lo, hi) && col <= seed.rgt && !Passes(g, col, st.currRow)
    ensures st.found && Visiting(g, s, st, seed, col + 1, d, lo, hi)
  {
    hide Connected;
  }

  /** The first shadow of the row becomes the seed shadow, or is dropped when it is spent. */
  lemma TakeShadow(g: Image, s: Pixel, st: State, d: int, lo: int, hi: int)
    requires Working(g, s, st, d, lo, hi) && st.row != []
    ensures var seed, rest := st.row[0], st.(row := st.row[1..]);
      if seed.ok then Visiting(g, s, rest, seed, seed.lft, d, lo, hi) else Working(g, s, rest, d, lo, hi)
  {
    hide Connected;
    var seed, rest := st.row[0], st.(row := st.row[1..]);
    assert forall k | 0 <= k < |rest.row| :: rest.row[k] == st.row[k + 1];
    assert Shaped(g, s, rest.row, st.currRow, st.currRow - d);
    TakeOpen(g, s, st, d);
  }

  lemma TakeOpen(g: Image, s: Pixel, st: State, d: int)
    requires st.row != [] && Open(g, s, st, 1, 0, d) && Behind(g, s, st, 1, 0, d)
    ensures var seed, rest := st.row[0], st.(row := st.row[1..]);
      var a, b := if seed.ok then seed.lft else 1, if seed.ok then seed.rgt else 0;
      Open(g, s, rest, a, b, d) && Behind(g, s, rest, a, b, d)
  {
    hide Connected, Forward;
    var seed, rest := st.row[0], st.(row := st.row[1..]);
    assert forall k | 0 <= k < |rest.row| :: rest.row[k] == st.row[k + 1];
    forall c | In(g, s, c, st.currRow - d) && Passes(g, c, st.currRow) && !CastOver(g, s, st.pend, d, st.currRow, c)
      ensures (seed.ok && seed.lft <= c <= seed.rgt)
              || exists k :: 0 <= k < |rest.row| && rest.row[k].ok && rest.row[k].lft <= c <= rest.row[k].rgt
    {
      var k :| 0 <= k < |st.row| && st.row[k].ok && st.row[k].lft <= c <= st.row[k].rgt;
      if k > 0 { assert rest.row[k - 1] == st.row[k]; }
    }
  }

  lemma StepWorks(g: Image, s: Pixel, st: State, d: int, lo: int, hi: int)
    requires Working(g, s, st, d, lo, hi) && st.row != []
    ensures !Over(st) && Working(g, s, Step(g, st), d, lo, hi) && |Step(g, st).row| == |st.row| - 1
  {
    assert st.found by { hide Connected; }
    TakeShadow(g, s, st, d, lo, hi);
    hide Working, Visiting, Visit;
    if st.row[0].ok { VisitKeeps(g, s, st.(row := st.row[1..]), st.row[0], st.row[0].lft, d, lo, hi); }
  }

  /** The whole row. */
  lemma {:induction false} RowWorks(g: Image, s: Pixel, st: State, d: int, lo: int, hi: int)
    requires Working(g, s, st, d, lo, hi)
    ensures var next := Run(g, st, |st.row|); Working(g, s, next, d, lo, hi) && next.row == []
    decreases |st.row|
  {
    hide Working, Step;
    if st.row != [] {
      StepWorks(g, s, st, d, lo, hi);
      RowWorks(g, s, Step(g, st), d, lo, hi);
    }
  }

  // ----- Between the rows

  /** The rows `lo..hi` are done: what is pending, and what is marked. */
  ghost predicate Rested(g: Image, s: Pixel, st: State, lo: int, hi: int) {
    && st.found && st.row == [] && lo <= s.y <= hi
    && AllExpected(g, s, st.pend, lo, hi) && Once(st.pend, lo, hi)
    && Covers(g, s, st.pend, 1, hi) && Covers(g, s, st.pend, -1, lo)
    && WellMarked(g, st.calls)
    && forall p: Pixel :: p in st.calls <==> In(g, s, p.x, p.y) && g.blank(p.x, p.y) && lo <= p.y <= hi
  }

  /** When the row is empty, every connected run of it has cast its shadow. */
  lemma RowRests(g: Image, s: Pixel, st: State, d: int, lo: int, hi: int)
    requires Hanging(g, s) && Working(g, s, st, d, lo, hi) && st.row == []
    ensures Rested(g, s, st, lo, hi)
  {
    var y := st.currRow;
    forall c | In(g, s, c, y)
      ensures CastOver(g, s, st.pend, d, y, c)
    {
      RowCast(g, s, st, d, lo, hi, c);
    }
    assert Covers(g, s, st.pend, d, y);
    hide CastOver, AllExpected, Once, Covers, Connected, Hanging, Open, Behind, WellMarked;
  }

  lemma RowCast(g: Image, s: Pixel, st: State, d: int, lo: int, hi: int, c: int)
    requires Hanging(g, s) && Working(g, s, st, d, lo, hi) && st.row == [] && In(g, s, c, st.currRow)
    ensures CastOver(g, s, st.pend, d, st.currRow, c)
  {
    hide Connected, CastOver, AllExpected, Once, Covers, WellMarked, MarksAre, Behind;
    var y := st.currRow;
    assert Hangs(g, s, c, y);
    var a :| Joined(g, a, c, y) && In(g, s, a, y - d);
    assert Passes(g, a, y);
    assert CastOver(g, s, st.pend, d, y, a);
    SameRun(g, s, st.pend, d, y, a, c);
  }

  lemma SameRun(g: Image, s: Pixel, pend: seq<Shadow>, d: int, y: int, a: int, c: int)
    requires CastOver(g, s, pend, d, y, a) && Joined(g, a, c, y)
    ensures CastOver(g, s, pend, d, y, c)
  {
    hide Connected;
    var i :| 0 <= i < |pend| && Forward(g, s, pend[i], d, y) && pend[i].lft <= a <= pend[i].rgt;
    var l, r := pend[i].lft, pend[i].rgt;
    assert !Passes(g, l - 1, y) && !Passes(g, r + 1, y);
  }
}
