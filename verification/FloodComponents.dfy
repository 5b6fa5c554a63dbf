/** Fills that are begun at the first pixel of a component, line by line: on images without
    pockets each marks its component. */
module FloodComponents {
  import opened FloodFill
  import opened FloodConnected
  import opened FloodSteps
  import opened FloodHanging
  import opened FloodRows

  // ----- Components

  lemma ConnectedPasses(g: Image, p: Pixel, q: Pixel)
    requires Connected(g, p, q)
    ensures Passes(g, p.x, p.y) && Passes(g, q.x, q.y)
  {
    var w: seq<Pixel> :| PathTo(g, w, p, q);
    assert Passes(g, w[0].x, w[0].y) && Passes(g, w[|w| - 1].x, w[|w| - 1].y);
  }

  lemma {:induction false} PathBack(g: Image, w: seq<Pixel>, p: Pixel, q: Pixel)
    requires PathTo(g, w, p, q)
    ensures Connected(g, q, p)
    decreases |w|
  {
    if |w| == 1 {
      assert PathTo(g, w, q, p);
    } else {
      var rest := w[1..];
      assert PathTo(g, rest, w[1], q) && Adjacent(w[1], p);
      PathBack(g, rest, w[1], q);
      ConnectedNext(g, q, w[1], p);
    }
  }

  lemma ConnectedBack(g: Image, p: Pixel, q: Pixel)
    requires Connected(g, p, q)
    ensures Connected(g, q, p)
  {
    var w: seq<Pixel> :| PathTo(g, w, p, q);
    PathBack(g, w, p, q);
  }

  lemma ConnectedOn(g: Image, p: Pixel, q: Pixel, r: Pixel)
    requires Connected(g, p, q) && Connected(g, q, r)
    ensures Connected(g, p, r)
  {
    var v: seq<Pixel> :| PathTo(g, v, p, q);
    var w: seq<Pixel> :| PathTo(g, w, q, r);
    var u := v + w[1..];
    assert u[|u| - 1] == r;
    assert PathTo(g, u, p, r);
  }

  lemma ConnectedAlike(g: Image, h: Image, p: Pixel, q: Pixel)
    requires Alike(g, h)
    ensures Connected(g, p, q) <==> Connected(h, p, q)
  {
    assert forall w :: PathTo(g, w, p, q) <==> PathTo(h, w, p, q);
  }

  lemma HangingAlike(g: Image, h: Image, s: Pixel)
    requires Alike(g, h) && Hanging(g, s)
    ensures Hanging(h, s)
  {
    forall p ensures Connected(g, s, p) <==> Connected(h, s, p) { ConnectedAlike(g, h, s, p); }
    hide Connected;
    forall x, y | In(h, s, x, y)
      ensures Hangs(h, s, x, y)
    {
      assert In(g, s, x, y) && Hangs(g, s, x, y);
      if y != s.y {
        var t := if y > s.y then y - 1 else y + 1;
        var a :| Joined(g, a, x, y) && In(g, s, a, t);
        assert Joined(h, a, x, y) && In(h, s, a, t);
      }
    }
  }

  /** The order of the scan: line by line. */
  predicate Before(p: Pixel, q: Pixel) {
    p.y < q.y || (p.y == q.y && p.x < q.x)
  }

  /** No pixel of its component comes before it. */
  ghost predicate First(g: Image, p: Pixel) {
    Passes(g, p.x, p.y) && forall q | Connected(g, p, q) :: !Before(q, p)
  }

  /** Below its first line, every run of a component touches a run one line above, and in the
      first line there is one run only. */
  ghost predicate NoPockets(g: Image) {
    forall p | First(g, p) :: Hanging(g, p)
  }

  /** All passing pixels of a line lie side by side. */
  ghost predicate OneRunPerRow(g: Image) {
    forall a, c, y | Passes(g, a, y) && Passes(g, c, y) :: Joined(g, a, c, y)
  }

  /** The simplest images without pockets; the seed may be anywhere. */
  lemma OneRunHangs(g: Image, s: Pixel)
    requires OneRunPerRow(g)
    ensures Hanging(g, s) && RowConvex(g, s)
  {
    forall a, c, y | In(g, s, a, y) && In(g, s, c, y)
      ensures Joined(g, a, c, y)
    {
      InPasses(g, s, a, y);
      InPasses(g, s, c, y);
    }
    RowConvexHangs(g, s);
  }

  // ----- Steps enough

  /** So many steps end every fill that is begun at the first pixel of a component. */
  ghost predicate Enough(g: Image, steps: nat) {
    forall p | First(g, p) :: Finished(Run(g, Begin(p.x, p.y), steps))
  }

  lemma {:induction false} EnoughOn(g: Image, ps: set<Pixel>) returns (n: nat)
    requires NoPockets(g)
    ensures forall p, k: nat | p in ps && First(g, p) && k >= n :: Finished(Run(g, Begin(p.x, p.y), k))
    decreases ps
  {
    hide NoPockets, First, Finished, Run;
    if ps == {} {
      n := 0;
    } else {
      var q :| q in ps;
      n := EnoughOn(g, ps - {q});
      if First(g, q) {
        assert Hanging(g, q) by { PocketFree(g, q); }
        var m := HangingFill(g, q);
        if m > n { n := m; }
      }
    }
  }

  lemma PocketFree(g: Image, p: Pixel)
    requires NoPockets(g) && First(g, p)
    ensures Hanging(g, p)
  {}

  /** On an image without pockets, all of them end: some number of steps is enough, and any larger one too. */
  lemma EnoughExists(g: Image) returns (n: nat)
    requires NoPockets(g)
    ensures forall k: nat | k >= n :: Enough(g, k)
  {
    hide NoPockets, Finished, Run, Connected;
    n := EnoughOn(g, set x, y | 0 <= x < g.npx && 0 <= y < g.npy :: Pixel(x, y));
    forall p | First(g, p)
      ensures 0 <= p.x < g.npx && 0 <= p.y < g.npy && p == Pixel(p.x, p.y)
    {}
  }

  // ----- A fill on a map that is not blank

  /** However the map has been marked before, such a fill marks the cells of its component that are 0. */
  lemma FillIsComponent(g: Image, h: Image, s: Pixel, steps: nat)
    requires Alike(g, h) && NoPockets(g) && Enough(g, steps) && First(g, s)
    ensures Run(h, Begin(s.x, s.y), steps).found
    ensures forall p :: p in Run(h, Begin(s.x, s.y), steps).calls <==> Connected(g, s, p) && h.blank(p.x, p.y)
  {
    assert Hanging(g, s);
    assert Finished(Run(g, Begin(s.x, s.y), steps));
    HangingAlike(g, h, s);
    forall p ensures Connected(g, s, p) <==> Connected(h, s, p) { ConnectedAlike(g, h, s, p); }
    hide Connected, Hanging, NoPockets, Enough, First, Run, Alike;
    var b := Begin(s.x, s.y);
    RunIgnoresCalls(g, h, b, [], steps);
    var n := HangingFill(h, s);
    RunPlus(h, b, steps, n);
    assert Run(h, Run(h, b, steps), n) == Run(h, b, steps) by { Stays(h, Run(h, b, steps), n); }
  }

  lemma Stays(g: Image, st: State, n: nat)
    requires Over(st)
    ensures Run(g, st, n) == st
  {}
}
