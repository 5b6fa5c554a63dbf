/** The flood fill of `paint_sub.c` as it is programmed: shadows are nodes that move between
    a pending list, the list of the row and a list of free nodes, linked through `next`. */
module FloodLists {
  import F = FloodFill

  /** The list a node is on. `Todo` is the pending list while it is sorted; a loose
      node is on no list. */
  datatype Place = Pending | InRow | Free | Todo | Loose

  class Node {
    var lft: int
    var rgt: int
    var row: int
    var par: int
    var ok: bool
    var next: Node?
    ghost var place: Place

    constructor ()
      ensures place == Loose
    {
      lft, rgt, row, par, ok, next, place := 0, 0, 0, 0, false, null, Loose;
    }

    /** The stores that make the node a pending shadow before `n`. */
    method Fill(slft: int, srgt: int, srow: int, prow: int, n: Node?)
      modifies this
      ensures Contents() == Cell(F.Shadow(slft, srgt, srow, prow, true), n, Pending)
    {
      lft, rgt, row, par, ok, next, place := slft, srgt, srow, prow, true, n, Pending;
    }

    ghost function Contents(): Cell
      reads this
    {
      Cell(F.Shadow(lft, rgt, row, par, ok), next, place)
    }
  }

  // ----- Lists in a snapshot of the nodes

  datatype Cell = Cell(shadow: F.Shadow, next: Node?, place: Place)

  /** What a set of nodes contains. */
  type Memory = map<Node, Cell>

  /** The node at a place of the list; null past its end. */
  ghost function At(s: seq<Node>, i: int): Node? {
    if 0 <= i < |s| then s[i] else null
  }

  ghost predicate Inside(m: Memory, s: seq<Node>) {
    forall i | 0 <= i < |s| :: s[i] in m
  }

  /** From `head`, `next` leads through the nodes of `s` and ends; all of them carry the tag `p`. */
  ghost predicate Chain(m: Memory, head: Node?, s: seq<Node>, p: Place) {
    && head == At(s, 0) && Inside(m, s)
    && (forall i | 0 <= i < |s| :: m[s[i]].place == p && m[s[i]].next == At(s, i + 1))
  }

  ghost function Values(m: Memory, s: seq<Node>): (r: seq<F.Shadow>)
    requires Inside(m, s)
    ensures |r| == |s|
    ensures forall i | 0 <= i < |s| :: r[i] == m[s[i]].shadow
  {
    seq(|s|, i requires 0 <= i < |s| => m[s[i]].shadow)
  }

  ghost predicate Avoids(s: seq<Node>, n: Node) {
    forall i | 0 <= i < |s| :: s[i] != n
  }

  /** A chain has no node twice. */
  lemma {:induction false} ChainDistinct(m: Memory, head: Node?, s: seq<Node>, p: Place, i: nat, j: nat)
    requires Chain(m, head, s, p) && i < j < |s|
    ensures s[i] != s[j]
    decreases |s| - j
  {
    if j + 1 < |s| { ChainDistinct(m, head, s, p, i + 1, j + 1); }
  }

  lemma HeadOf(m: Memory, head: Node?, s: seq<Node>, p: Place)
    requires Chain(m, head, s, p)
    ensures head == null <==> s == []
    ensures head != null ==> head == s[0] && head in m && m[head].place == p && m[head].next == At(s, 1)
    ensures Inside(m, s)
  {}

  /** Behind its first node a chain goes on without it. */
  lemma ChainTail(m: Memory, head: Node?, s: seq<Node>, p: Place)
    requires Chain(m, head, s, p) && head != null
    ensures s != [] && head == s[0] && head in m && m[head].place == p
    ensures Chain(m, m[head].next, s[1..], p) && Avoids(s[1..], head)
    ensures Inside(m, s) && Values(m, s) == [m[head].shadow] + Values(m, s[1..])
  {
    forall i | 0 <= i < |s| - 1
      ensures s[1..][i] != s[0]
    {
      ChainDistinct(m, head, s, p, 0, i + 1);
    }
  }

  lemma ChainCons(m: Memory, head: Node?, s: seq<Node>, p: Place, n: Node)
    requires Chain(m, head, s, p) && n in m && m[n].place == p && m[n].next == head
    ensures Chain(m, n, [n] + s, p) && Inside(m, s)
    ensures Values(m, [n] + s) == [m[n].shadow] + Values(m, s)
  {
    var t := [n] + s;
    forall i | 0 <= i < |t|
      ensures t[i] in m && m[t[i]].place == p && m[t[i]].next == At(t, i + 1)
    {
      if i > 0 { assert t[i] == s[i - 1] && At(t, i + 1) == At(s, i); }
    }
  }

  /** Nodes with another tag, and new ones, are not on the list. */
  lemma OtherPlace(m: Memory, head: Node?, s: seq<Node>, p: Place, n: Node)
    requires Chain(m, head, s, p) && (n !in m || m[n].place != p)
    ensures Avoids(s, n)
  {}

  /** Changing a node leaves the chains it is not on as they were. */
  lemma Unmoved(m: Memory, head: Node?, s: seq<Node>, p: Place, n: Node, c: Cell)
    requires Chain(m, head, s, p) && Avoids(s, n)
    ensures Chain(m[n := c], head, s, p) && Inside(m, s)
    ensures Values(m[n := c], s) == Values(m, s)
  {}

  /** The lists of the program: the head pointers, and the nodes they lead to. `todo` is what
      is left of the pending list while a row is made. */
  datatype Lists = Lists(pendHead: Node?, pend: seq<Node>, rowHead: Node?, row: seq<Node>,
                         freeHead: Node?, free: seq<Node>, todoHead: Node?, todo: seq<Node>)

  ghost predicate Linked(m: Memory, l: Lists) {
    && Chain(m, l.pendHead, l.pend, Pending)
    && Chain(m, l.rowHead, l.row, InRow)
    && Chain(m, l.freeHead, l.free, Free)
    && Chain(m, l.todoHead, l.todo, Todo)
  }

  /** What the lists hold. */
  datatype Held = Held(pend: seq<F.Shadow>, row: seq<F.Shadow>, todo: seq<F.Shadow>)

  ghost function Holding(m: Memory, l: Lists): (h: Held)
    requires Linked(m, l)
    ensures |h.pend| == |l.pend| && |h.row| == |l.row|
  {
    Held(Values(m, l.pend), Values(m, l.row), Values(m, l.todo))
  }

  /** No node is on two lists, or twice on one. */
  lemma OnOneList(m: Memory, l: Lists, i: nat, j: nat)
    requires Linked(m, l)
    ensures i < |l.pend| && j < |l.row| ==> l.pend[i] != l.row[j]
    ensures i < |l.pend| && j < |l.free| ==> l.pend[i] != l.free[j]
    ensures i < |l.row| && j < |l.free| ==> l.row[i] != l.free[j]
    ensures i < j < |l.pend| ==> l.pend[i] != l.pend[j]
    ensures i < j < |l.row| ==> l.row[i] != l.row[j]
    ensures i < j < |l.free| ==> l.free[i] != l.free[j]
  {
    if i < j < |l.pend| { ChainDistinct(m, l.pendHead, l.pend, Pending, i, j); }
    if i < j < |l.row| { ChainDistinct(m, l.rowHead, l.row, InRow, i, j); }
    if i < j < |l.free| { ChainDistinct(m, l.freeHead, l.free, Free, i, j); }
  }

  /** Changing a loose node, or one that is taken off its list, spares every list. */
  lemma LooseChanges(m: Memory, l: Lists, n: Node, c: Cell)
    requires Linked(m, l) && Avoids(l.pend, n) && Avoids(l.row, n) && Avoids(l.free, n) && Avoids(l.todo, n)
    ensures Linked(m[n := c], l) && Holding(m[n := c], l) == Holding(m, l)
  {
    hide Chain, Values, Avoids;
    Unmoved(m, l.pendHead, l.pend, Pending, n, c);
    Unmoved(m, l.rowHead, l.row, InRow, n, c);
    Unmoved(m, l.freeHead, l.free, Free, n, c);
    Unmoved(m, l.todoHead, l.todo, Todo, n, c);
  }

  lemma LooseIsOff(m: Memory, l: Lists, n: Node)
    requires Linked(m, l) && (n !in m || m[n].place == Loose)
    ensures Avoids(l.pend, n) && Avoids(l.row, n) && Avoids(l.free, n) && Avoids(l.todo, n)
  {
    hide Chain, Avoids;
    OtherPlace(m, l.pendHead, l.pend, Pending, n);
    OtherPlace(m, l.rowHead, l.row, InRow, n);
    OtherPlace(m, l.freeHead, l.free, Free, n);
    OtherPlace(m, l.todoHead, l.todo, Todo, n);
  }

  /** A node off the lists goes to the head of the pending list. */
  lemma PushPending(m: Memory, l: Lists, n: Node, s: F.Shadow)
    requires Linked(m, l) && (n !in m || m[n].place == Loose)
    ensures var m', l' := m[n := Cell(s, l.pendHead, Pending)], l.(pendHead := n, pend := [n] + l.pend);
            Linked(m', l') && Holding(m', l') == Holding(m, l).(pend := [s] + Holding(m, l).pend)
  {
    hide Chain, Values, Avoids;
    var c := Cell(s, l.pendHead, Pending);
    LooseIsOff(m, l, n);
    LooseChanges(m, l, n, c);
    ChainCons(m[n := c], l.pendHead, l.pend, Pending, n);
  }

  /** A node off the lists becomes free. */
  lemma PushFree(m: Memory, l: Lists, n: Node, s: F.Shadow)
    requires Linked(m, l) && (n !in m || m[n].place == Loose)
    ensures var m', l' := m[n := Cell(s, l.freeHead, Free)], l.(freeHead := n, free := [n] + l.free);
            Linked(m', l') && Holding(m', l') == Holding(m, l)
  {
    hide Chain, Values, Avoids;
    var c := Cell(s, l.freeHead, Free);
    LooseIsOff(m, l, n);
    LooseChanges(m, l, n, c);
    ChainCons(m[n := c], l.freeHead, l.free, Free, n);
  }

  /** A node off the lists goes to the head of the row. */
  lemma PushRow(m: Memory, l: Lists, n: Node, s: F.Shadow)
    requires Linked(m, l) && (n !in m || m[n].place == Loose)
    ensures var m', l' := m[n := Cell(s, l.rowHead, InRow)], l.(rowHead := n, row := [n] + l.row);
            Linked(m', l') && Holding(m', l') == Holding(m, l).(row := [s] + Holding(m, l).row)
  {
    hide Chain, Values, Avoids;
    var c := Cell(s, l.rowHead, InRow);
    LooseIsOff(m, l, n);
    LooseChanges(m, l, n, c);
    ChainCons(m[n := c], l.rowHead, l.row, InRow, n);
  }

  /** The first free node is taken off. */
  lemma PopFree(m: Memory, l: Lists)
    requires Linked(m, l) && l.freeHead != null
    ensures l.freeHead in m && m[l.freeHead].place == Free && l.free != []
    ensures var m', l' := m[l.freeHead := m[l.freeHead].(place := Loose)], l.(freeHead := m[l.freeHead].next, free := l.free[1..]);
            Linked(m', l') && Holding(m', l') == Holding(m, l)
  {
    hide Chain, Values, Avoids;
    ChainTail(m, l.freeHead, l.free, Free);
    OtherPlace(m, l.pendHead, l.pend, Pending, l.freeHead);
    OtherPlace(m, l.rowHead, l.row, InRow, l.freeHead);
    OtherPlace(m, l.todoHead, l.todo, Todo, l.freeHead);
    LooseChanges(m, l.(freeHead := m[l.freeHead].next, free := l.free[1..]), l.freeHead, m[l.freeHead].(place := Loose));
  }

  /** The first node of the row is taken off. */
  lemma PopRow(m: Memory, l: Lists)
    requires Linked(m, l) && l.rowHead != null
    ensures l.rowHead in m && m[l.rowHead].place == InRow && l.row != []
    ensures var m', l' := m[l.rowHead := m[l.rowHead].(place := Loose)], l.(rowHead := m[l.rowHead].next, row := l.row[1..]);
            Linked(m', l') && Holding(m, l) == Holding(m', l').(row := [m[l.rowHead].shadow] + Holding(m', l').row)
  {
    hide Chain, Values, Avoids;
    ChainTail(m, l.rowHead, l.row, InRow);
    OtherPlace(m, l.pendHead, l.pend, Pending, l.rowHead);
    OtherPlace(m, l.freeHead, l.free, Free, l.rowHead);
    OtherPlace(m, l.todoHead, l.todo, Todo, l.rowHead);
    LooseChanges(m, l.(rowHead := m[l.rowHead].next, row := l.row[1..]), l.rowHead, m[l.rowHead].(place := Loose));
  }

  /** The first node still to be sorted is taken off. */
  lemma PopTodo(m: Memory, l: Lists)
    requires Linked(m, l) && l.todoHead != null
    ensures l.todoHead in m && m[l.todoHead].place == Todo && l.todo != []
    ensures var m', l' := m[l.todoHead := m[l.todoHead].(place := Loose)], l.(todoHead := m[l.todoHead].next, todo := l.todo[1..]);
            Linked(m', l') && Holding(m, l) == Holding(m', l').(todo := [m[l.todoHead].shadow] + Holding(m', l').todo)
  {
    hide Chain, Values, Avoids;
    ChainTail(m, l.todoHead, l.todo, Todo);
    OtherPlace(m, l.pendHead, l.pend, Pending, l.todoHead);
    OtherPlace(m, l.freeHead, l.free, Free, l.todoHead);
    OtherPlace(m, l.rowHead, l.row, InRow, l.todoHead);
    LooseChanges(m, l.(todoHead := m[l.todoHead].next, todo := l.todo[1..]), l.todoHead, m[l.todoHead].(place := Loose));
  }

  /** Changing the stretch or the flag of a node leaves it where it is. */
  lemma SetShadow(m: Memory, head: Node?, s: seq<Node>, p: Place, i: nat, v: F.Shadow)
    requires Chain(m, head, s, p) && i < |s|
    ensures Chain(m[s[i] := m[s[i]].(shadow := v)], head, s, p) && Inside(m, s)
    ensures Values(m[s[i] := m[s[i]].(shadow := v)], s) == Values(m, s)[i := v]
  {
    forall j | 0 <= j < |s| && j != i
      ensures s[j] != s[i]
    {
      if j < i { ChainDistinct(m, head, s, p, j, i); } else { ChainDistinct(m, head, s, p, i, j); }
    }
  }

  lemma SetPending(m: Memory, l: Lists, i: nat, v: F.Shadow)
    requires Linked(m, l) && i < |l.pend|
    ensures l.pend[i] in m
    ensures var m' := m[l.pend[i] := m[l.pend[i]].(shadow := v)];
            Linked(m', l) && Holding(m', l) == Holding(m, l).(pend := Holding(m, l).pend[i := v])
  {
    PlaceOf(m, l.pendHead, l.pend, Pending, i);
    hide Chain, Values, Avoids;
    var n, c := l.pend[i], m[l.pend[i]].(shadow := v);
    SetShadow(m, l.pendHead, l.pend, Pending, i, v);
    OtherPlace(m, l.rowHead, l.row, InRow, n);
    OtherPlace(m, l.freeHead, l.free, Free, n);
    OtherPlace(m, l.todoHead, l.todo, Todo, n);
    Unmoved(m, l.rowHead, l.row, InRow, n, c);
    Unmoved(m, l.freeHead, l.free, Free, n, c);
    Unmoved(m, l.todoHead, l.todo, Todo, n, c);
  }

  lemma SetRow(m: Memory, l: Lists, i: nat, v: F.Shadow)
    requires Linked(m, l) && i < |l.row|
    ensures l.row[i] in m
    ensures var m' := m[l.row[i] := m[l.row[i]].(shadow := v)];
            Linked(m', l) && Holding(m', l) == Holding(m, l).(row := Holding(m, l).row[i := v])
  {
    PlaceOf(m, l.rowHead, l.row, InRow, i);
    hide Chain, Values, Avoids;
    var n, c := l.row[i], m[l.row[i]].(shadow := v);
    SetShadow(m, l.rowHead, l.row, InRow, i, v);
    OtherPlace(m, l.pendHead, l.pend, Pending, n);
    OtherPlace(m, l.freeHead, l.free, Free, n);
    OtherPlace(m, l.todoHead, l.todo, Todo, n);
    Unmoved(m, l.pendHead, l.pend, Pending, n, c);
    Unmoved(m, l.freeHead, l.free, Free, n, c);
    Unmoved(m, l.todoHead, l.todo, Todo, n, c);
  }

  lemma PlaceOf(m: Memory, head: Node?, s: seq<Node>, p: Place, i: nat)
    requires Chain(m, head, s, p) && i < |s|
    ensures s[i] in m && m[s[i]].place == p && m[s[i]].next == At(s, i + 1)
    ensures Inside(m, s) && Values(m, s)[i] == m[s[i]].shadow
  {}

  function Spliced<T>(s: seq<T>, k: nat, x: T): (r: seq<T>)
    requires k < |s|
    ensures |r| == |s| + 1
  {
    s[..k + 1] + [x] + s[k + 1..]
  }

  lemma SplicedAt<T>(s: seq<T>, k: nat, x: T, i: nat)
    requires k < |s| && i <= |s|
    ensures Spliced(s, k, x)[i] == if i <= k then s[i] else if i == k + 1 then x else s[i - 1]
  {}

  /** Memory after `n` is linked in behind node `k` of the list. */
  ghost function Relinked(m: Memory, s: seq<Node>, p: Place, n: Node, k: nat, v: F.Shadow): Memory
    requires k < |s| && s[k] in m
  {
    m[n := Cell(v, m[s[k]].next, p)][s[k] := m[s[k]].(next := n)]
  }

  lemma RelinkedIs(m: Memory, s: seq<Node>, p: Place, n: Node, k: nat, v: F.Shadow)
    requires k < |s| && s[k] in m
    ensures Relinked(m, s, p, n, k, v) == m[n := Cell(v, m[s[k]].next, p)][s[k] := m[s[k]].(next := n)]
  {}

  lemma SplicedCell(m: Memory, head: Node?, s: seq<Node>, p: Place, n: Node, k: nat, v: F.Shadow, i: nat)
    requires Chain(m, head, s, p) && Avoids(s, n) && k < |s| && i <= |s|
    ensures var m', t := Relinked(m, s, p, n, k, v), Spliced(s, k, n);
            && t[i] in m' && m'[t[i]].place == p && m'[t[i]].next == At(t, i + 1)
            && m'[t[i]].shadow == if i <= k then m[s[i]].shadow else if i == k + 1 then v else m[s[i - 1]].shadow
  {
    hide Chain, Inside, Avoids, Spliced, Values;
    var j := if i <= k then i else i - 1;
    PlaceOf(m, head, s, p, j);
    PlaceOf(m, head, s, p, k);
    AvoidsAt(s, n, j);
    AvoidsAt(s, n, k);
    if j < k { ChainDistinct(m, head, s, p, j, k); }
    if k < j { ChainDistinct(m, head, s, p, k, j); }
    SplicedAt(s, k, n, i);
    if i < |s| { SplicedAt(s, k, n, i + 1); }
  }

  lemma AvoidsAt(s: seq<Node>, n: Node, i: nat)
    requires Avoids(s, n) && i < |s|
    ensures s[i] != n
  {}

  /** A loose node goes into a list behind its node `k`. */
  lemma Splice(m: Memory, head: Node?, s: seq<Node>, p: Place, n: Node, k: nat, v: F.Shadow)
    requires Chain(m, head, s, p) && Avoids(s, n) && k < |s|
    ensures s[k] in m && Inside(m, s)
    ensures Chain(Relinked(m, s, p, n, k, v), head, Spliced(s, k, n), p)
    ensures Values(Relinked(m, s, p, n, k, v), Spliced(s, k, n)) == Spliced(Values(m, s), k, v)
  {
    var m', t := Relinked(m, s, p, n, k, v), Spliced(s, k, n);
    forall i | 0 <= i < |t|
      ensures t[i] in m' && m'[t[i]].place == p && m'[t[i]].next == At(t, i + 1)
      ensures m'[t[i]].shadow == Spliced(Values(m, s), k, v)[i]
    {
      SplicedCell(m, head, s, p, n, k, v, i);
      SplicedAt(Values(m, s), k, v, i);
    }
    hide Relinked, Spliced;
    assert Inside(m', t);
  }

  lemma SpliceRow(m: Memory, l: Lists, n: Node, k: nat, v: F.Shadow)
    requires Linked(m, l) && n in m && m[n].place == Loose && k < |l.row|
    ensures l.row[k] in m
    ensures var m', l' := Relinked(m, l.row, InRow, n, k, v), l.(row := Spliced(l.row, k, n));
            && Linked(m', l')
            && Holding(m', l') == Holding(m, l).(row := Spliced(Holding(m, l).row, k, v))
  {
    PlaceOf(m, l.rowHead, l.row, InRow, k);
    LooseIsOff(m, l, n);
    hide Chain, Values, Avoids, Spliced;
    Splice(m, l.rowHead, l.row, InRow, n, k, v);
    var u, c := l.row[k], Cell(v, m[l.row[k]].next, InRow);
    OtherPlace(m, l.pendHead, l.pend, Pending, u);
    OtherPlace(m, l.freeHead, l.free, Free, u);
    OtherPlace(m, l.todoHead, l.todo, Todo, u);
    Unmoved(m, l.pendHead, l.pend, Pending, n, c);
    Unmoved(m, l.freeHead, l.free, Free, n, c);
    Unmoved(m, l.todoHead, l.todo, Todo, n, c);
    Unmoved(m[n := c], l.pendHead, l.pend, Pending, u, m[u].(next := n));
    Unmoved(m[n := c], l.freeHead, l.free, Free, u, m[u].(next := n));
    Unmoved(m[n := c], l.todoHead, l.todo, Todo, u, m[u].(next := n));
  }

  /** Only free nodes were changed. */
  ghost predicate Keeps(m: Memory, m': Memory) {
    m.Keys <= m'.Keys && forall n | n in m && m[n].place != Free :: m'[n] == m[n]
  }

  /** No loose node was changed. */
  ghost predicate Spares(m: Memory, m': Memory) {
    m.Keys <= m'.Keys && forall n | n in m && m[n].place == Loose :: m'[n] == m[n]
  }

  /** The old list is the end of the new one. */
  ghost predicate Extends(s: seq<Node>, t: seq<Node>) {
    |s| <= |t| && t[|t| - |s|..] == s
  }

  lemma SearchStep(pend: seq<F.Shadow>, row: int, j: nat)
    requires j < |pend|
    ensures pend[j].row == row ==> F.FirstInRow(pend[j..], row) == 0
    ensures pend[j].row != row ==> F.FirstInRow(pend[j..], row) == 1 + F.FirstInRow(pend[j + 1..], row)
  {
    assert pend[j..][0] == pend[j] && pend[j..][1..] == pend[j + 1..];
  }

  // ----- The program

  /** The image, the check and the map a fill works on. `g` is the same in the terms of the
      specification; `first` is what the map held before the fill. */
  class Canvas {
    const tmp: seq<seq<real>>
    const check: real -> bool
    const cells: array2<int>
    const mapval: int
    ghost const g: F.Image
    ghost const first: (int, int) -> int

    constructor (tmp: seq<seq<real>>, check: real -> bool, cells: array2<int>, mapval: int,
                 ghost g: F.Image, ghost first: (int, int) -> int)
      ensures this.tmp == tmp && this.check == check && this.cells == cells && this.mapval == mapval
      ensures this.g == g && this.first == first
    {
      this.tmp, this.check, this.cells, this.mapval := tmp, check, cells, mapval;
      this.g, this.first := g, first;
    }

    ghost predicate Fits() {
      && |tmp| == g.npy == cells.Length0 && cells.Length1 == g.npx && mapval != 0
      && (forall y | 0 <= y < |tmp| :: |tmp[y]| == g.npx)
      && (forall x, y | 0 <= x < g.npx && 0 <= y < g.npy :: g.pass(x, y) == check(tmp[y][x]))
      && (forall x, y | 0 <= x < g.npx && 0 <= y < g.npy :: g.blank(x, y) == (first(x, y) == 0))
    }

    /** The test repeated in the loops: inside the image and accepted by the check. */
    predicate Accepts(x: int, y: int)
      requires Fits()
      ensures Accepts(x, y) == F.Passes(g, x, y)
    {
      0 <= x < cells.Length1 && 0 <= y < cells.Length0 && check(tmp[y][x])
    }
  }

  /** The cells reported hold the value, all others what they held first. */
  ghost predicate Painted(c: Canvas, calls: seq<F.Pixel>)
    reads c.cells
  {
    && c.Fits()
    && (forall x, y | 0 <= x < c.g.npx && 0 <= y < c.g.npy ::
          c.cells[y, x] == if F.Pixel(x, y) in calls then c.mapval else c.first(x, y))
  }

  class Filler {
    var currRow: int
    var seedShadow: Node?
    var pendHead: Node?
    var rowHead: Node?
    var freeHead: Node?
    var calls: seq<F.Pixel>      // what `setfunc` was called for
    var crashed: bool            // a null pointer was followed: the program is at its end
    ghost var mem: Memory        // the nodes in use and what they contain
    ghost var l: Lists           // the lists they form

    constructor ()
      ensures mem == map[]
    {
      currRow, calls, crashed := 0, [], false;
      seedShadow, pendHead, rowHead, freeHead := null, null, null, null;
      mem, l := map[], Lists(null, [], null, [], null, [], null, []);
    }

    /** The ghost picture agrees with the nodes and the head pointers. */
    ghost predicate Pictured()
      reads this, mem.Keys
    {
      && l.pendHead == pendHead && l.rowHead == rowHead && l.freeHead == freeHead
      && (forall n | n in mem :: n.Contents() == mem[n])
      && Linked(mem, l)
    }

    ghost predicate Valid()
      reads this, mem.Keys
    {
      Pictured() && l.todo == []
    }

    /** The state of the specification. */
    ghost function View(): F.State
      requires Linked(mem, l)
      reads this
    {
      F.State(Holding(mem, l).pend, Holding(mem, l).row, currRow, calls, !crashed)
    }

    /** A node off every list: the first free one, or else a new one. */
    method TakeNode() returns (s: Node)
      requires Pictured()
      modifies this`freeHead, this`l, this`mem, mem.Keys
      ensures Pictured() && (s !in old(mem) ==> fresh(s))
      ensures s in old(mem) ==> old(mem)[s].place == Free
      ensures s in mem && mem[s].place == Loose && mem == old(mem)[s := mem[s]]
      ensures l == old(l).(freeHead := l.freeHead, free := l.free)
      ensures Holding(mem, l) == old(Holding(mem, l))
    {
      hide Linked, Holding;
      if freeHead != null {
        PopFree(mem, l);
        s := freeHead;
        freeHead := freeHead.next;
        s.place := Loose;
        l := l.(freeHead := mem[s].next, free := l.free[1..]);
        mem := mem[s := mem[s].(place := Loose)];
      } else {
        s := new Node();
        LooseIsOff(mem, l, s);
        LooseChanges(mem, l, s, s.Contents());
        mem := mem[s := s.Contents()];
      }
    }

    /** `newShadow`: the node goes to the head of the pending list. */
    method NewShadow(slft: int, srgt: int, srow: int, prow: int)
      requires Valid()
      modifies this, mem.Keys
      ensures Valid() && fresh(mem.Keys - old(mem.Keys)) && old(mem.Keys) <= mem.Keys
      ensures Extends(old(l.pend), l.pend) && l.row == old(l.row)
      ensures View() == old(View()).(pend := [F.Shadow(slft, srgt, srow, prow, true)] + old(View()).pend)
      ensures seedShadow == old(seedShadow)
      ensures Keeps(old(mem), mem)
    {
      hide Linked, Holding;
      var s := TakeNode();
      Fill(s, slft, srgt, srow, prow);
    }

    /** The stores of `newShadow` into its node. */
    method Fill(s: Node, slft: int, srgt: int, srow: int, prow: int)
      requires Valid() && s in mem && mem[s].place == Loose
      modifies this`pendHead, this`l, this`mem, s
      ensures Valid() && mem.Keys == old(mem.Keys) && mem == old(mem)[s := mem[s]]
      ensures l.pend == [s] + old(l.pend) && l.row == old(l.row)
      ensures View() == old(View()).(pend := [F.Shadow(slft, srgt, srow, prow, true)] + old(View()).pend)
    {
      hide Linked, Holding;
      PushPending(mem, l, s, F.Shadow(slft, srgt, srow, prow, true));
      s.Fill(slft, srgt, srow, prow, pendHead);
      pendHead := s;
      mem := mem[s := s.Contents()];
      l := l.(pendHead := s, pend := [s] + l.pend);
    }

    /** `clipShadow`. */
    method ClipShadow(lft: int, rgt: int, row: int, line: Node)
      requires Valid() && line in mem && mem[line].place != Free
      modifies this, mem.Keys
      ensures Valid() && fresh(mem.Keys - old(mem.Keys)) && old(mem.Keys) <= mem.Keys
      ensures Extends(old(l.pend), l.pend) && l.row == old(l.row)
      ensures View() == old(View()).(pend := F.Pieces(lft, rgt, row, old(mem)[line].shadow) + old(View()).pend)
      ensures seedShadow == old(seedShadow)
      ensures Keeps(old(mem), mem)
    {
      hide Linked, Holding;
      if lft < line.lft - 1 { NewShadow(lft, line.lft - 2, row, line.row); }
      if rgt > line.rgt + 1 { NewShadow(line.rgt + 2, rgt, row, line.row); }
    }

    /** The search of `removeOverlap`. */
    method FindChild(par: int) returns (chld: Node?, ghost j: nat)
      requires Valid()
      ensures j == F.FirstInRow(View().pend, par) && chld == At(l.pend, j)
      ensures chld != null ==> chld in mem && mem[chld].place == Pending && View().pend[j] == mem[chld].shadow
    {
      hide Linked, Chain;
      assert Chain(mem, l.pendHead, l.pend, Pending) by { ChainsOf(mem, l); }
      ghost var pend := Holding(mem, l).pend;
      chld, j := pendHead, 0;
      HeadOf(mem, l.pendHead, l.pend, Pending);
      while chld != null && chld.row != par
        invariant j <= |l.pend| && chld == At(l.pend, j) && (chld != null ==> chld in mem)
        invariant F.FirstInRow(pend, par) == j + F.FirstInRow(pend[j..], par)
        decreases |l.pend| - j
      {
        PlaceOf(mem, l.pendHead, l.pend, Pending, j);
        SearchStep(pend, par, j);
        chld, j := chld.next, j + 1;
        if j < |l.pend| { PlaceOf(mem, l.pendHead, l.pend, Pending, j); }
      }
      if chld != null {
        PlaceOf(mem, l.pendHead, l.pend, Pending, j);
        SearchStep(pend, par, j);
      }
    }

    /** What `removeOverlap` does to the shadow of the row. */
    method Shorten(rw: Node, childRgt: int, ghost i: nat, ghost child: F.Shadow)
      requires Valid() && i < |l.row| && l.row[i] == rw && child.rgt == childRgt
      modifies this`mem, rw
      ensures Valid() && mem.Keys == old(mem.Keys)
      ensures View() == old(View()).(row := old(View()).row[i := F.Shortened(old(View()).row[i], child)])
      ensures mem == old(mem)[rw := mem[rw]]
    {
      hide Linked, Holding, Chain;
      ChainsOf(mem, l);
      PlaceOf(mem, l.rowHead, l.row, InRow, i);
      SetRow(mem, l, i, F.Shortened(mem[rw].shadow, child));
      if rw.rgt > childRgt + 1 {
        rw.lft := childRgt + 2;
      } else {
        rw.ok := false;
      }
      mem := mem[rw := rw.Contents()];
    }

    /** What it does to the child. */
    method Discard(chld: Node, ghost k: nat)
      requires Valid() && k < |l.pend| && l.pend[k] == chld
      modifies this`mem, chld
      ensures Valid() && mem.Keys == old(mem.Keys)
      ensures View() == old(View()).(pend := old(View()).pend[k := F.Spent(old(View()).pend[k])])
      ensures mem == old(mem)[chld := mem[chld]]
    {
      hide Linked, Holding, Chain;
      ChainsOf(mem, l);
      PlaceOf(mem, l.pendHead, l.pend, Pending, k);
      SetPending(mem, l, k, F.Spent(mem[chld].shadow));
      chld.ok := false;
      mem := mem[chld := chld.Contents()];
    }

    /** The last stores of `removeOverlap`: both shadows change. */
    method Settle(rw: Node, chld: Node, childRgt: int, ghost i: nat, ghost k: nat, ghost child: F.Shadow)
      requires Valid() && i < |l.row| && l.row[i] == rw && k < |l.pend| && l.pend[k] == chld && child.rgt == childRgt
      modifies this`mem, rw, chld
      ensures Valid() && mem.Keys == old(mem.Keys)
      ensures View() == old(View()).(row := old(View()).row[i := F.Shortened(old(View()).row[i], child)],
                                     pend := old(View()).pend[k := F.Spent(old(View()).pend[k])])
      ensures rw in mem && chld in mem && mem == old(mem)[rw := mem[rw]][chld := mem[chld]]
    {
      hide Linked, Holding, Chain, Values;
      ChainsOf(mem, l);
      PlaceOf(mem, l.rowHead, l.row, InRow, i);
      PlaceOf(mem, l.pendHead, l.pend, Pending, k);
      Shorten(rw, childRgt, i, child);
      Discard(chld, k);
    }

    /** `removeOverlap` once the child is found. */
    method CutOverlap(rw: Node, chld: Node, ghost i: nat, ghost j: nat)
      requires Valid() && i < |l.row| && l.row[i] == rw && j < |l.pend| && l.pend[j] == chld
      requires rw in mem && mem[rw].place == InRow && chld in mem && mem[chld].place == Pending
      requires View().pend[j] == mem[chld].shadow && View().row[i] == mem[rw].shadow
      modifies this, mem.Keys
      ensures Valid() && fresh(mem.Keys - old(mem.Keys)) && old(mem.Keys) <= mem.Keys
      ensures View().pend == F.PendAfter(old(View()).pend, old(View()).row[i], j)
      ensures View().row == old(View()).row[i := F.Shortened(old(View()).row[i], old(View()).pend[j])]
      ensures calls == old(calls) && currRow == old(currRow) && crashed == old(crashed)
      ensures l.row == old(l.row) && seedShadow == old(seedShadow) && Spares(old(mem), mem)
    {
      hide Linked, Holding, Chain, Values, Keeps, Spares, Extends, F.Pieces, F.PendAfter, F.Shortened;
      ghost var st, m, pend := View(), mem, l.pend;
      var childRgt := chld.rgt;
      ClipShadow(chld.lft, childRgt, chld.row, rw);
      KeepsNodes(m, mem, rw, chld);
      ghost var m1, k := mem, |l.pend| - |pend| + j;
      EndAt(pend, l.pend, j);
      PendAfterIs(st.pend, st.row[i], j, k);
      Settle(rw, chld, childRgt, i, k, st.pend[j]);
      SparesAfter(m, m1, mem, rw, chld);
    }

    /** `removeOverlap`; a missing child ends the program. */
    method RemoveOverlap(rw: Node, ghost i: nat)
      requires Valid() && !crashed && i < |l.row| && l.row[i] == rw
      modifies this, mem.Keys
      ensures Valid() && fresh(mem.Keys - old(mem.Keys)) && old(mem.Keys) <= mem.Keys
      ensures View() == F.RemoveOverlap(old(View()), i)
      ensures l.row == old(l.row) && seedShadow == old(seedShadow) && Spares(old(mem), mem)
    {
      hide Linked, Holding, Chain, Values, Spares, F.PendAfter, F.Shortened, F.FirstInRow;
      ghost var st := View();
      assert Spares(mem, mem) by { SparesItself(mem); }
      ChainsOf(mem, l);
      PlaceOf(mem, l.rowHead, l.row, InRow, i);
      var chld;
      ghost var j;
      chld, j := FindChild(rw.par);
      if chld == null {
        crashed := true;
      } else {
        CutOverlap(rw, chld, i, j);
      }
    }

    ghost predicate Seeded()
      reads this
    {
      seedShadow != null && seedShadow in mem && mem[seedShadow].place == Loose
    }

    ghost function Seed(): F.Shadow
      requires Seeded()
      reads this
    {
      mem[seedShadow].shadow
    }

    /** The first part of `makeShadows`: the shadows of the run. */
    method CastShadows(lft: int, rgt: int)
      requires Valid() && Seeded()
      modifies this, mem.Keys
      ensures Valid() && fresh(mem.Keys - old(mem.Keys)) && old(mem.Keys) <= mem.Keys
      ensures View() == old(View()).(pend := F.Cast(currRow, old(Seed()), lft, rgt) + old(View()).pend)
      ensures Seeded() && seedShadow == old(seedShadow) && Seed() == old(Seed()) && l.row == old(l.row)
    {
      hide Linked, Holding, F.Pieces, Extends;
      if currRow > seedShadow.par {
        NewShadow(lft, rgt, currRow + 1, currRow);
        ClipShadow(lft, rgt, currRow - 1, seedShadow);
      } else if currRow < seedShadow.par {
        NewShadow(lft, rgt, currRow - 1, currRow);
        ClipShadow(lft, rgt, currRow + 1, seedShadow);
      } else {
        NewShadow(lft, rgt, currRow + 1, currRow);
        NewShadow(lft, rgt, currRow - 1, currRow);
      }
    }

    /** `p` is the node of the row at place `i`. */
    ghost predicate Stands(p: Node?, i: nat)
      requires Valid()
      reads this, mem.Keys
    {
      i <= |l.row| && p == At(l.row, i) && (p != null ==> p in mem && View().row[i] == mem[p].shadow)
    }

    /** One round of the loop of `makeShadows`. */
    method VisitNext(p: Node, rgt: int, ghost i: nat) returns (next: Node?)
      requires Valid() && !crashed && Seeded() && Stands(p, i) && p.lft <= rgt
      modifies this, mem.Keys
      ensures Valid() && fresh(mem.Keys - old(mem.Keys)) && old(mem.Keys) <= mem.Keys && l.row == old(l.row)
      ensures F.RemoveOverlaps(View(), i + 1, rgt) == F.RemoveOverlaps(old(View()), i, rgt)
      ensures Stands(next, i + 1)
      ensures Seeded() && seedShadow == old(seedShadow) && Seed() == old(Seed())
    {
      hide Linked, Holding, Chain, Values, F.RemoveOverlap;
      if p.ok { RemoveOverlap(p, i); }
      ChainsOf(mem, l);
      PlaceOf(mem, l.rowHead, l.row, InRow, i);
      if i + 1 < |l.row| { PlaceOf(mem, l.rowHead, l.row, InRow, i + 1); }
      next := p.next;
    }

    /** The loop of `makeShadows`. */
    method RemoveOverlaps(rgt: int)
      requires Valid() && Seeded()
      modifies this, mem.Keys
      ensures Valid() && fresh(mem.Keys - old(mem.Keys)) && old(mem.Keys) <= mem.Keys
      ensures View() == F.RemoveOverlaps(old(View()), 0, rgt)
      ensures Seeded() && seedShadow == old(seedShadow) && Seed() == old(Seed())
    {
      hide Linked, Holding, Chain, Values, F.RemoveOverlap;
      ghost var goal := F.RemoveOverlaps(View(), 0, rgt);
      ChainsOf(mem, l);
      HeadOf(mem, l.rowHead, l.row, InRow);
      var p := rowHead;
      ghost var i: nat := 0;
      if p != null { PlaceOf(mem, l.rowHead, l.row, InRow, 0); }
      while !crashed && p != null && p.lft <= rgt
        invariant Valid() && fresh(mem.Keys - old(mem.Keys)) && old(mem.Keys) <= mem.Keys
        invariant Stands(p, i) && F.RemoveOverlaps(View(), i, rgt) == goal
        invariant Seeded() && seedShadow == old(seedShadow) && Seed() == old(Seed())
        decreases |l.row| - i
      {
        p := VisitNext(p, rgt, i);
        i := i + 1;
      }
    }

    /** `makeShadows`. */
    method MakeShadows(lft: int, rgt: int)
      requires Valid() && Seeded()
      modifies this, mem.Keys
      ensures Valid() && fresh(mem.Keys - old(mem.Keys)) && old(mem.Keys) <= mem.Keys
      ensures View() == F.MakeShadows(old(View()), old(Seed()), lft, rgt)
      ensures Seeded() && seedShadow == old(seedShadow) && Seed() == old(Seed())
      ensures calls == old(calls) && currRow == old(currRow)
    {
      hide Linked, Holding, F.Cast, F.RemoveOverlaps;
      CastShadows(lft, rgt);
      F.OverlapsMark(View(), 0, rgt);
      RemoveOverlaps(rgt);
    }

    // ----- `makerow`

    ghost predicate Off(s: Node)
      reads this
    {
      s in mem && mem[s].place == Loose
    }

    ghost function TodoHeld(): seq<F.Shadow>
      requires Linked(mem, l)
      reads this
    {
      Holding(mem, l).todo
    }

    method PutFree(s: Node)
      requires Pictured() && Off(s)
      modifies this`freeHead, this`l, this`mem, s
      ensures Pictured() && mem.Keys == old(mem.Keys)
      ensures View() == old(View()) && l.todo == old(l.todo) && l.todoHead == old(l.todoHead) && TodoHeld() == old(TodoHeld())
    {
      hide Linked, Holding;
      PushFree(mem, l, s, mem[s].shadow);
      s.next := freeHead;
      s.place := Free;
      freeHead := s;
      mem := mem[s := s.Contents()];
      l := l.(freeHead := s, free := [s] + l.free);
    }

    method PutPending(s: Node)
      requires Pictured() && Off(s)
      modifies this`pendHead, this`l, this`mem, s
      ensures Pictured() && mem.Keys == old(mem.Keys)
      ensures View() == old(View()).(pend := [old(mem)[s].shadow] + old(View()).pend)
      ensures l.todo == old(l.todo) && l.todoHead == old(l.todoHead) && TodoHeld() == old(TodoHeld())
    {
      hide Linked, Holding;
      PushPending(mem, l, s, mem[s].shadow);
      s.next := pendHead;
      s.place := Pending;
      pendHead := s;
      mem := mem[s := s.Contents()];
      l := l.(pendHead := s, pend := [s] + l.pend);
    }

    method PutFirst(s: Node)
      requires Pictured() && Off(s)
      modifies this`rowHead, this`l, this`mem, s
      ensures Pictured() && mem.Keys == old(mem.Keys)
      ensures View() == old(View()).(row := [old(mem)[s].shadow] + old(View()).row)
      ensures l.todo == old(l.todo) && l.todoHead == old(l.todoHead) && TodoHeld() == old(TodoHeld())
    {
      hide Linked, Holding;
      PushRow(mem, l, s, mem[s].shadow);
      s.next := rowHead;
      s.place := InRow;
      rowHead := s;
      mem := mem[s := s.Contents()];
      l := l.(rowHead := s, row := [s] + l.row);
    }

    method PutBehind(s: Node, u: Node, ghost k: nat)
      requires Pictured() && Off(s) && k < |l.row| && l.row[k] == u
      modifies this`l, this`mem, s, u
      ensures Pictured() && mem.Keys == old(mem.Keys)
      ensures View() == old(View()).(row := Spliced(old(View()).row, k, old(mem)[s].shadow))
      ensures l.todo == old(l.todo) && l.todoHead == old(l.todoHead) && TodoHeld() == old(TodoHeld())
    {
      hide Linked, Holding, Chain, Spliced, Relinked, Values;
      ChainsOf(mem, l);
      PlaceOf(mem, l.rowHead, l.row, InRow, k);
      SpliceRow(mem, l, s, k, mem[s].shadow);
      RelinkedIs(mem, l.row, InRow, s, k, mem[s].shadow);
      s.next := u.next;
      s.place := InRow;
      u.next := s;
      mem := mem[s := s.Contents()][u := u.Contents()];
      l := l.(row := Spliced(l.row, k, s));
    }

    /** The search for the node behind which a shadow goes that begins after the first one. */
    method FindBehind(s: Node) returns (u: Node, ghost k: nat)
      requires Pictured() && s in mem && rowHead != null && View().row != [] && View().row[0].lft < mem[s].shadow.lft
      ensures u in mem && k < |l.row| && u == l.row[k]
      ensures F.Insert(View().row, mem[s].shadow) == Spliced(View().row, k, mem[s].shadow)
    {
      hide Linked, Holding, Chain, Spliced, Values, F.Insert;
      ghost var row, x := View().row, mem[s].shadow;
      ChainsOf(mem, l);
      HeadOf(mem, l.rowHead, l.row, InRow);
      PlaceOf(mem, l.rowHead, l.row, InRow, 0);
      u, k := rowHead, 0;
      InsertBehind(row, 0, x);
      while u.next != null
        invariant k < |row| && u == l.row[k] && u in mem && mem[u].next == At(l.row, k + 1)
        invariant F.Insert(row, x) == row[..k + 1] + F.Insert(row[k + 1..], x)
        decreases |row| - k
      {
        PlaceOf(mem, l.rowHead, l.row, InRow, k + 1);
        if s.lft <= u.next.lft { break; }
        InsertBehind(row, k + 1, x);
        u, k := u.next, k + 1;
      }
      InsertHere(row, k, x);
    }

    /** The sorted insertion into a row that is not empty. */
    method PutSorted(s: Node)
      requires Pictured() && Off(s) && rowHead != null
      modifies this`rowHead, this`l, this`mem, mem.Keys
      ensures Pictured() && mem.Keys == old(mem.Keys)
      ensures View() == old(View()).(row := F.Insert(old(View()).row, old(mem)[s].shadow))
      ensures l.todo == old(l.todo) && l.todoHead == old(l.todoHead) && TodoHeld() == old(TodoHeld())
    {
      hide Linked, Holding, Chain, Spliced, Values;
      ChainsOf(mem, l);
      HeadOf(mem, l.rowHead, l.row, InRow);
      PlaceOf(mem, l.rowHead, l.row, InRow, 0);
      if s.lft <= rowHead.lft {
        PutFirst(s);
      } else {
        var u;
        ghost var k;
        u, k := FindBehind(s);
        PutBehind(s, u, k);
      }
    }

    /** One node of the pending list finds its new place. */
    method Sort(s: Node)
      requires Pictured() && Off(s)
      modifies this`currRow, this`pendHead, this`rowHead, this`freeHead, this`l, this`mem, mem.Keys
      ensures Pictured() && mem.Keys == old(mem.Keys)
      ensures F.MakeRow(View(), TodoHeld()) == F.MakeRow(old(View()), [old(mem)[s].shadow] + old(TodoHeld()))
      ensures l.todo == old(l.todo) && l.todoHead == old(l.todoHead)
    {
      hide Linked, Holding, F.Insert;
      RowHeadOf(mem, l);
      MakeRowStep(View(), mem[s].shadow, TodoHeld());
      if s.ok {
        if rowHead == null {
          assert [mem[s].shadow] + View().row == [mem[s].shadow];
          currRow := s.row;
          PutFirst(s);
        } else if s.row == currRow {
          PutSorted(s);
        } else {
          PutPending(s);
        }
      } else {
        PutFree(s);
      }
    }

    /** The pending list is taken over to be sorted. */
    method TakePending() returns (t: Node?)
      requires Valid()
      modifies this`pendHead, this`l, this`mem, mem.Keys
      ensures Pictured() && mem.Keys == old(mem.Keys) && l.todoHead == t
      ensures View() == old(View()).(pend := []) && TodoHeld() == old(View()).pend
    {
      hide Linked, Holding;
      t := pendHead;
      pendHead := null;
      Retag(mem, l);
      forall n | n in l.pend { n.place := Todo; }
      mem := Retagged(mem, l.pend);
      l := l.(pendHead := null, pend := [], todoHead := t, todo := l.pend);
    }

    /** The first node still to be sorted. */
    method NextTodo(s: Node) returns (t: Node?)
      requires Pictured() && s == l.todoHead
      modifies this`l, this`mem, mem.Keys
      ensures Pictured() && mem.Keys == old(mem.Keys) && l.todoHead == t && Off(s) && |l.todo| < |old(l.todo)|
      ensures View() == old(View()) && old(TodoHeld()) == [mem[s].shadow] + TodoHeld()
    {
      hide Linked, Holding;
      PopTodo(mem, l);
      t := s.next;
      s.place := Loose;
      l := l.(todoHead := t, todo := l.todo[1..]);
      mem := mem[s := s.Contents()];
    }

    /** `makerow`, called when the row is empty. */
    method MakeRow()
      requires Valid() && rowHead == null
      modifies this`currRow, this`pendHead, this`rowHead, this`freeHead, this`l, this`mem, mem.Keys
      ensures Valid() && mem.Keys == old(mem.Keys)
      ensures View() == F.MakeRow(old(View()).(pend := []), old(View()).pend)
    {
      hide Linked, Holding, F.MakeRow;
      ghost var goal := F.MakeRow(View().(pend := []), View().pend);
      var t := TakePending();
      while t != null
        invariant Pictured() && l.todoHead == t && mem.Keys == old(mem.Keys)
        invariant F.MakeRow(View(), TodoHeld()) == goal
        decreases |l.todo|
      {
        var s := t;
        t := NextTodo(s);
        Sort(s);
      }
      NothingTodo(mem, l, View());
    }

    // ----- Marking

    /** The body of the three marking places: a cell that is 0 gets the value and is reported. */
    method MarkPixel(c: Canvas, x: int, y: int) returns (npix: nat)
      requires Painted(c, calls) && 0 <= x < c.g.npx && 0 <= y < c.g.npy
      modifies this`calls, c.cells
      ensures Painted(c, calls) && calls == F.Mark(c.g, old(calls), x, y) && npix == |calls| - |old(calls)|
    {
      npix := 0;
      if c.cells[y, x] == 0 {
        npix := 1;
        c.cells[y, x] := c.mapval;
        calls := calls + [F.Pixel(x, y)];
      }
    }

    /** The loop to the left of column `col`. */
    method GoLeft(c: Canvas, col: int) returns (lft: int, npix: nat)
      requires Painted(c, calls)
      modifies this`calls, c.cells
      ensures Painted(c, calls) && lft == F.RunStart(c.g, col, currRow)
      ensures calls == F.MarkLeft(c.g, old(calls), col - 1, lft, currRow) && npix == |calls| - |old(calls)|
    {
      hide F.Mark;
      ghost var l := F.RunStart(c.g, col, currRow);
      lft, npix := col - 1, 0;
      while c.Accepts(lft, currRow)
        invariant Painted(c, calls) && l - 1 <= lft < col && npix == |calls| - |old(calls)|
        invariant F.MarkLeft(c.g, calls, lft, l, currRow) == F.MarkLeft(c.g, old(calls), col - 1, l, currRow)
        decreases lft - l
      {
        var k := MarkPixel(c, lft, currRow);
        npix := npix + k;
        lft := lft - 1;
      }
      lft := lft + 1;
    }

    /** The loop to the right from column `col`. */
    method GoRight(c: Canvas, col: int) returns (end: int, npix: nat)
      requires Painted(c, calls)
      modifies this`calls, c.cells
      ensures Painted(c, calls) && end == F.RunEnd(c.g, col, currRow)
      ensures calls == F.MarkRight(c.g, old(calls), col, end, currRow) && npix == |calls| - |old(calls)|
    {
      hide F.Mark;
      ghost var e := F.RunEnd(c.g, col, currRow);
      end, npix := col, 0;
      while c.Accepts(end, currRow)
        invariant Painted(c, calls) && col <= end <= e && npix == |calls| - |old(calls)|
        invariant F.MarkRight(c.g, calls, end, e, currRow) == F.MarkRight(c.g, old(calls), col, e, currRow)
        decreases e - end
      {
        var k := MarkPixel(c, end, currRow);
        npix := npix + k;
        end := end + 1;
      }
    }

    /** The marking of the run through column `col` of the seed shadow. */
    method MarkRun(c: Canvas, col: int) returns (lft: int, end: int, npix: nat)
      requires Seeded() && Valid() && Painted(c, calls) && F.Passes(c.g, col, currRow)
      modifies this`calls, c.cells
      ensures Painted(c, calls) && npix == |calls| - |old(calls)|
      ensures lft == F.LeftEnd(c.g, currRow, Seed(), col) && end == F.RunEnd(c.g, col + 1, currRow)
      ensures calls == F.MarkRun(c.g, old(calls), col, lft, end, currRow)
    {
      hide Linked, Holding, F.Mark, Painted, F.RunStart, F.RunEnd;
      npix := MarkPixel(c, col, currRow);
      lft := col;
      var k;
      if col == seedShadow.lft {
        lft, k := GoLeft(c, col);
        npix := npix + k;
      } else {
        assert F.MarkLeft(c.g, calls, col - 1, col, currRow) == calls;
      }
      end, k := GoRight(c, col + 1);
      npix := npix + k;
    }

    /** One column of the loop of `visitShadow3r`; `next` is the column after the run, if one starts here. */
    method VisitColumn(c: Canvas, col: int) returns (next: int, npix: nat)
      requires Valid() && !crashed && Seeded() && c.Fits() && Painted(c, calls) && col <= Seed().rgt
      modifies this, mem.Keys, c.cells
      ensures Valid() && fresh(mem.Keys - old(mem.Keys)) && old(mem.Keys) <= mem.Keys && Painted(c, calls)
      ensures Seeded() && seedShadow == old(seedShadow) && Seed() == old(Seed())
      ensures next > col && npix == |calls| - |old(calls)|
      ensures F.Visit(c.g, View(), Seed(), next) == F.Visit(c.g, old(View()), Seed(), col)
    {
      hide Linked, Holding, F.MakeShadows, Painted, F.LeftEnd, F.RunEnd, F.MarkRun;
      npix, next := 0, col;
      if c.Accepts(col, currRow) {
        var lft;
        lft, next, npix := MarkRun(c, col);
        MakeShadows(lft, next - 1);
      }
      next := next + 1;
    }

    /** `visitShadow3r`. */
    method Visit(c: Canvas) returns (npix: nat)
      requires Valid() && Seeded() && c.Fits() && Painted(c, calls)
      modifies this, mem.Keys, c.cells
      ensures Valid() && fresh(mem.Keys - old(mem.Keys)) && old(mem.Keys) <= mem.Keys && Painted(c, calls)
      ensures Seeded() && seedShadow == old(seedShadow) && Seed() == old(Seed())
      ensures npix == |calls| - |old(calls)|
      ensures View() == F.Visit(c.g, old(View()), Seed(), Seed().lft)
    {
      hide Linked, Holding, Painted, F.LeftEnd, F.RunEnd, F.OneRun;
      var col := seedShadow.lft;
      npix := 0;
      while !crashed && col <= seedShadow.rgt
        invariant Valid() && fresh(mem.Keys - old(mem.Keys)) && old(mem.Keys) <= mem.Keys && Painted(c, calls)
        invariant Seeded() && seedShadow == old(seedShadow) && Seed() == old(Seed())
        invariant npix == |calls| - |old(calls)|
        invariant F.Visit(c.g, View(), Seed(), col) == F.Visit(c.g, old(View()), old(Seed()), old(Seed()).lft)
        decreases Seed().rgt - col
      {
        var k;
        col, k := VisitColumn(c, col);
        npix := npix + k;
      }
    }

    // ----- The fill

    /** The head of the row becomes the seed shadow. */
    method TakeSeed()
      requires Valid() && rowHead != null
      modifies this`seedShadow, this`rowHead, this`l, this`mem, mem.Keys
      ensures Valid() && mem.Keys == old(mem.Keys) && Seeded()
      ensures old(View()) == View().(row := [Seed()] + View().row)
    {
      hide Linked, Holding;
      PopRow(mem, l);
      seedShadow := rowHead;
      rowHead := rowHead.next;
      seedShadow.place := Loose;
      l := l.(rowHead := rowHead, row := l.row[1..]);
      mem := mem[seedShadow := seedShadow.Contents()];
    }

    /** One round of the inner loop: the seed shadow is visited unless it is spent, and freed. */
    method VisitHead(c: Canvas) returns (npix: nat)
      requires Valid() && !crashed && rowHead != null && c.Fits() && Painted(c, calls)
      modifies this, mem.Keys, c.cells
      ensures Valid() && fresh(mem.Keys - old(mem.Keys)) && old(mem.Keys) <= mem.Keys && Painted(c, calls)
      ensures npix == |calls| - |old(calls)| && View() == F.Step(c.g, old(View()))
    {
      hide Linked, Holding, Painted, F.Visit, F.Step;
      ghost var st := View();
      TakeSeed();
      StepVisits(c.g, st, Seed(), View());
      npix := 0;
      if seedShadow.ok { npix := Visit(c); }
      FreeSeed();
    }

    /** The seed shadow becomes free, unless the program is at its end. */
    method FreeSeed()
      requires Valid() && Seeded()
      modifies this`freeHead, this`l, this`mem, mem.Keys
      ensures Valid() && mem.Keys == old(mem.Keys) && View() == old(View())
    {
      hide Linked, Holding;
      if !crashed { PutFree(seedShadow); }
    }

    /** The inner loop, for at most `steps` rounds. */
    method VisitRow(c: Canvas, steps: nat) returns (n: nat, left: nat)
      requires Valid() && c.Fits() && Painted(c, calls)
      modifies this, mem.Keys, c.cells
      ensures Valid() && fresh(mem.Keys - old(mem.Keys)) && old(mem.Keys) <= mem.Keys && Painted(c, calls)
      ensures n == |calls| - |old(calls)| && left <= steps && (left == 0 || crashed || rowHead == null)
      ensures F.Run(c.g, View(), left) == F.Run(c.g, old(View()), steps)
    {
      hide Linked, Holding, Painted, F.Step;
      n, left := 0, steps;
      while !crashed && rowHead != null && left > 0
        invariant Valid() && fresh(mem.Keys - old(mem.Keys)) && old(mem.Keys) <= mem.Keys && Painted(c, calls)
        invariant n == |calls| - |old(calls)| && left <= steps
        invariant F.Run(c.g, View(), left) == F.Run(c.g, old(View()), steps)
        decreases left
      {
        HeadsOf(mem, l);
        var k := VisitHead(c);
        n := n + k;
        left := left - 1;
      }
    }

    /** `doflood3r`, stopped after `steps` rounds of its two loops if it has not ended before. If
        it crashes, it does so in the round in which the specification finds a child missing. */
    method DoFlood(c: Canvas, x: int, y: int, steps: nat) returns (n: nat, ended: bool)
      requires c.Fits() && Painted(c, [])
      modifies this, c.cells
      ensures Valid() && Painted(c, calls) && n == |calls| && F.WellMarked(c.g, calls)
      ensures View() == F.Run(c.g, F.Begin(x, y), steps) && ended == (!crashed && F.Finished(View()))
    {
      hide Linked, Holding, Painted, F.Step, F.WellMarked;
      assert F.WellMarked(c.g, []) by { NoMarks(c.g); }
      F.RunMarks(c.g, F.Begin(x, y), steps);
      n := 0;
      Restart();
      NewShadow(x, x, y, y);
      HeadsOf(mem, l);
      FirstShadow(x, y);
      var left := steps;
      while !crashed && pendHead != null && left > 0
        invariant Valid() && fresh(mem.Keys) && Painted(c, calls) && n == |calls|
        invariant F.Run(c.g, View(), left) == F.Run(c.g, F.Begin(x, y), steps)
        invariant left == 0 || crashed || rowHead == null
        decreases left
      {
        HeadsOf(mem, l);
        StepMakesRow(c.g, View());
        MakeRow();
        var k;
        k, left := VisitRow(c, left - 1);
        n := n + k;
      }
      HeadsOf(mem, l);
      ended := !crashed && pendHead == null && rowHead == null;
    }

    /** The resetting of the list heads. The row of an earlier fill is never looked at again. */
    method Restart()
      modifies this
      ensures Valid() && mem == map[] && View() == F.State([], [], 0, [], true)
    {
      pendHead, rowHead, freeHead, seedShadow := null, null, null, null;
      currRow, calls, crashed := 0, [], false;
      mem, l := map[], Lists(null, [], null, [], null, [], null, []);
    }
  }

  lemma HeadsOf(m: Memory, l: Lists)
    requires Linked(m, l)
    ensures l.pendHead == null <==> Holding(m, l).pend == []
    ensures l.rowHead == null <==> Holding(m, l).row == []
  {}

  lemma NoMarks(g: F.Image)
    ensures F.WellMarked(g, [])
  {}

  /** Cells that were not 0 keep their value, and a cell changes exactly where `setfunc` was
      called: as often as the fill counts. */
  lemma OnlyBlankCells(c: Canvas, calls: seq<F.Pixel>, x: int, y: int)
    requires Painted(c, calls) && F.WellMarked(c.g, calls) && 0 <= x < c.g.npx && 0 <= y < c.g.npy
    ensures c.first(x, y) != 0 ==> c.cells[y, x] == c.first(x, y)
    ensures c.cells[y, x] != c.first(x, y) <==> F.Pixel(x, y) in calls
    ensures F.Pixel(x, y) in calls ==> c.check(c.tmp[y][x]) && exists i :: 0 <= i < |calls| && calls[i] == F.Pixel(x, y)
    ensures forall i, j | 0 <= i < j < |calls| :: calls[i] != calls[j]
  {}

  lemma FirstShadow(x: int, y: int)
    ensures F.State([F.Shadow(x, x, y, y, true)] + [], [], 0, [], true) == F.Begin(x, y)
  {}

  lemma StepMakesRow(g: F.Image, st: F.State)
    requires st.row == []
    ensures F.Step(g, st) == F.MakeRow(st.(pend := []), st.pend) && F.Step(g, st).calls == st.calls
  {
    F.MakeRowMarks(st.(pend := []), st.pend);
  }

  lemma StepVisits(g: F.Image, st: F.State, seed: F.Shadow, rest: F.State)
    requires st == rest.(row := [seed] + rest.row)
    ensures F.Step(g, st) == if seed.ok then F.Visit(g, rest, seed, seed.lft) else rest
  {
    assert st.row[1..] == rest.row;
  }

  lemma RowHeadOf(m: Memory, l: Lists)
    requires Linked(m, l)
    ensures l.rowHead == null <==> Holding(m, l).row == []
  {}

  lemma NothingTodo(m: Memory, l: Lists, st: F.State)
    requires Linked(m, l) && l.todoHead == null
    ensures l.todo == [] && Holding(m, l).todo == [] && F.MakeRow(st, []) == st
  {}

  lemma MakeRowStep(st: F.State, s: F.Shadow, todo: seq<F.Shadow>)
    ensures !s.ok ==> F.MakeRow(st, [s] + todo) == F.MakeRow(st, todo)
    ensures s.ok && st.row == [] ==> F.MakeRow(st, [s] + todo) == F.MakeRow(st.(currRow := s.row, row := [s]), todo)
    ensures s.ok && st.row != [] && s.row == st.currRow
      ==> F.MakeRow(st, [s] + todo) == F.MakeRow(st.(row := F.Insert(st.row, s)), todo)
    ensures s.ok && st.row != [] && s.row != st.currRow
      ==> F.MakeRow(st, [s] + todo) == F.MakeRow(st.(pend := [s] + st.pend), todo)
  {
    assert ([s] + todo)[1..] == todo;
  }

  ghost function Retagged(m: Memory, s: seq<Node>): Memory {
    map n | n in m :: if n in s then m[n].(place := Todo) else m[n]
  }

  /** The pending list becomes the list to be sorted. */
  lemma Retag(m: Memory, l: Lists)
    requires Linked(m, l) && l.todo == []
    ensures forall n | n in l.pend :: n in m
    ensures var m', l' := Retagged(m, l.pend), l.(pendHead := null, pend := [], todoHead := l.pendHead, todo := l.pend);
            Linked(m', l') && Holding(m', l') == Holding(m, l).(pend := [], todo := Holding(m, l).pend)
  {}

  lemma InsertStep(t: seq<F.Shadow>, x: F.Shadow)
    requires t != [] && t[0].lft < x.lft
    ensures F.Insert(t, x) == [t[0]] + F.Insert(t[1..], x)
  {}

  /** The insertion passes a shadow that begins before it. */
  lemma InsertBehind(row: seq<F.Shadow>, k: nat, x: F.Shadow)
    requires k < |row| && row[k].lft < x.lft && (k > 0 ==> F.Insert(row, x) == row[..k] + F.Insert(row[k..], x))
    ensures F.Insert(row, x) == row[..k + 1] + F.Insert(row[k + 1..], x)
  {
    hide F.Insert;
    if k == 0 { assert row[0..] == row; }
    InsertStep(row[k..], x);
    assert row[k..][1..] == row[k + 1..];
    Regroup(row[..k], row[k], F.Insert(row[k + 1..], x), row[..k + 1]);
  }

  lemma Regroup(a: seq<F.Shadow>, x: F.Shadow, b: seq<F.Shadow>, ax: seq<F.Shadow>)
    requires ax == a + [x]
    ensures a + ([x] + b) == ax + b
  {}

  lemma InsertHere(row: seq<F.Shadow>, k: nat, x: F.Shadow)
    requires k < |row| && F.Insert(row, x) == row[..k + 1] + F.Insert(row[k + 1..], x)
    requires k + 1 == |row| || x.lft <= row[k + 1].lft
    ensures F.Insert(row, x) == Spliced(row, k, x)
  {}

  lemma SparesItself(m: Memory)
    ensures Spares(m, m)
  {}

  lemma KeepsNodes(m: Memory, m': Memory, a: Node, b: Node)
    requires Keeps(m, m') && a in m && b in m && m[a].place != Free && m[b].place != Free
    ensures a in m' && b in m' && m'[a] == m[a] && m'[b] == m[b] && m.Keys <= m'.Keys
  {}

  lemma SparesAfter(m: Memory, m1: Memory, m2: Memory, a: Node, b: Node)
    requires Keeps(m, m1) && a in m2 && b in m2 && a in m && m[a].place != Loose && b in m && m[b].place != Loose
    requires m2 == m1[a := m2[a]][b := m2[b]]
    ensures Spares(m, m2)
  {}

  lemma EndAt(s: seq<Node>, t: seq<Node>, j: nat)
    requires Extends(s, t) && j < |s|
    ensures t[|t| - |s| + j] == s[j]
  {
    assert t[|t| - |s|..][j] == s[j];
  }

  lemma PendAfterIs(pend: seq<F.Shadow>, rw: F.Shadow, j: nat, k: nat)
    requires j < |pend|
    requires k == |F.Pieces(pend[j].lft, pend[j].rgt, pend[j].row, rw)| + j
    ensures (F.Pieces(pend[j].lft, pend[j].rgt, pend[j].row, rw) + pend)[k := F.Spent(pend[j])] == F.PendAfter(pend, rw, j)
  {}

  lemma ChainsOf(m: Memory, l: Lists)
    requires Linked(m, l)
    ensures Chain(m, l.pendHead, l.pend, Pending) && Chain(m, l.rowHead, l.row, InRow) && Chain(m, l.freeHead, l.free, Free)
    ensures Inside(m, l.pend) && Inside(m, l.row)
    ensures Holding(m, l).pend == Values(m, l.pend) && Holding(m, l).row == Values(m, l.row)
  {}
}
