/** `match_stack5b.c`: labels that tell which frames are joined by accepted pairs, and the
    check that all of them are. */
module Connection {

  type Link = (nat, nat)

  predicate Joined(links: seq<Link>, a: nat, b: nat) {
    (a, b) in links || (b, a) in links
  }

  /** Consecutive frames of the walk are joined; a walk has at least one step. */
  predicate Walk(links: seq<Link>, w: seq<nat>) {
    |w| >= 2 && forall i | 0 <= i < |w| - 1 :: Joined(links, w[i], w[i + 1])
  }

  predicate WalkBetween(links: seq<Link>, w: seq<nat>, a: nat, b: nat) {
    Walk(links, w) && w[0] == a && w[|w| - 1] == b
  }

  /** Accepted pairs link `a` and `b`. */
  ghost predicate Linked(links: seq<Link>, a: nat, b: nat) {
    exists w :: WalkBetween(links, w, a, b)
  }

  lemma LinkedByPair(links: seq<Link>, a: nat, b: nat)
    requires Joined(links, a, b)
    ensures Linked(links, a, b)
  {
    assert WalkBetween(links, [a, b], a, b);
  }

  lemma LinkedTransitive(links: seq<Link>, a: nat, b: nat, c: nat)
    requires Linked(links, a, b) && Linked(links, b, c)
    ensures Linked(links, a, c)
  {
    var v :| WalkBetween(links, v, a, b);
    var w :| WalkBetween(links, w, b, c);
    var u := v + w[1..];
    forall i | 0 <= i < |u| - 1
      ensures Joined(links, u[i], u[i + 1])
    {
      if i >= |v| - 1 {
        assert u[i] == w[i - (|v| - 1)] && u[i + 1] == w[i + 1 - (|v| - 1)];
      }
    }
    assert WalkBetween(links, u, a, c);
  }

  lemma LinkedSymmetric(links: seq<Link>, a: nat, b: nat)
    requires Linked(links, a, b)
    ensures Linked(links, b, a)
  {
    var w :| WalkBetween(links, w, a, b);
    var n := |w|;
    var u := seq(n, i requires 0 <= i < n => w[n - 1 - i]);
    forall i | 0 <= i < |u| - 1
      ensures Joined(links, u[i], u[i + 1])
    {
      assert Joined(links, w[n - 2 - i], w[n - 2 - i + 1]);
    }
    assert WalkBetween(links, u, b, a);
  }

  lemma LinkedStill(links: seq<Link>, l: Link, a: nat, b: nat)
    requires Linked(links, a, b)
    ensures Linked(links + [l], a, b)
  {
    var w :| WalkBetween(links, w, a, b);
    forall i | 0 <= i < |w| - 1
      ensures Joined(links + [l], w[i], w[i + 1])
    {
      assert Joined(links, w[i], w[i + 1]);
    }
    assert WalkBetween(links + [l], w, a, b);
  }

  // ----- Labels

  /** The labels, and the next one not yet used. */
  datatype Labels = Labels(connect: seq<int>, nc: int)

  /** The effect of one accepted pair on the labels. */
  function Accepted(s: Labels, a: nat, b: nat): (r: Labels)
    requires a < |s.connect| && b < |s.connect|
    ensures |r.connect| == |s.connect|
  {
    var c := s.connect;
    if c[a] != 0 then
      if c[b] == 0 then s.(connect := c[b := c[a]])
      else s.(connect := seq(|c|, k requires 0 <= k < |c| => if c[k] == c[b] then c[a] else c[k]))
    else if c[b] == 0 then Labels(c[b := s.nc][a := s.nc], s.nc + 1)
    else s.(connect := c[a := c[b]])
  }

  predicate SameLabel(c: seq<int>, a: nat, b: nat)
    requires a < |c| && b < |c|
  {
    c[a] == c[b] != 0
  }

  /** Equal labels only where pairs link, and every pair has equal labels. */
  ghost predicate Faithful(s: Labels, links: seq<Link>) {
    && s.nc >= 1 && (forall k | 0 <= k < |s.connect| :: 0 <= s.connect[k] < s.nc)
    && (forall l | l in links :: l.0 < |s.connect| && l.1 < |s.connect| && SameLabel(s.connect, l.0, l.1))
    && (forall a: nat, b: nat | a < |s.connect| && b < |s.connect| && SameLabel(s.connect, a, b) :: Linked(links, a, b))
  }

  /** Two frames have the same label, not 0, exactly when accepted pairs link them. */
  lemma LabelsTellLinks(s: Labels, links: seq<Link>, a: nat, b: nat)
    requires Faithful(s, links) && a < |s.connect| && b < |s.connect|
    ensures SameLabel(s.connect, a, b) <==> Linked(links, a, b)
  {
    if Linked(links, a, b) {
      var w :| WalkBetween(links, w, a, b);
      WalkKeepsLabel(s, links, w);
    }
  }

  lemma {:induction false} WalkKeepsLabel(s: Labels, links: seq<Link>, w: seq<nat>)
    requires Faithful(s, links) && Walk(links, w)
    ensures w[0] < |s.connect| && w[|w| - 1] < |s.connect| && SameLabel(s.connect, w[0], w[|w| - 1])
  {
    hide Linked;
    var n := |w| - 1;
    assert Joined(links, w[n - 1], w[n]);
    if n > 1 {
      forall i | 0 <= i < n - 1
        ensures Joined(links, w[..n][i], w[..n][i + 1])
      {
        assert Joined(links, w[i], w[i + 1]);
      }
      WalkKeepsLabel(s, links, w[..n]);
    }
  }

  /** Label 0 means no accepted pair. */
  lemma ZeroMeansAlone(s: Labels, links: seq<Link>, a: nat)
    requires Faithful(s, links) && a < |s.connect|
    ensures s.connect[a] == 0 <==> forall l | l in links :: l.0 != a && l.1 != a
  {
    if s.connect[a] != 0 {
      assert SameLabel(s.connect, a, a);
      var w :| WalkBetween(links, w, a, a);
      assert Joined(links, w[0], w[1]);
    }
  }

  /** Each group of the old labels hangs together, and the new pair links its two groups. */
  lemma NewLinks(s: Labels, links: seq<Link>, a: nat, b: nat, x: nat, y: nat)
    requires Faithful(s, links) && a < |s.connect| && b < |s.connect| && x < |s.connect| && y < |s.connect|
    requires x == a || SameLabel(s.connect, x, a)
    requires y == b || SameLabel(s.connect, y, b)
    ensures Linked(links + [(a, b)], x, y) && Linked(links + [(a, b)], y, x)
  {
    hide Linked;
    var more := links + [(a, b)];
    LinkedByPair(more, a, b);
    if x != a {
      LinkedStill(links, (a, b), x, a);
      LinkedTransitive(more, x, a, b);
    }
    if y != b {
      LinkedStill(links, (a, b), y, b);
      LinkedSymmetric(more, y, b);
      LinkedTransitive(more, x, b, y);
    }
    LinkedSymmetric(more, x, y);
  }

  lemma Roundtrip(links: seq<Link>, x: nat, y: nat)
    requires Linked(links, x, y)
    ensures Linked(links, x, x) && Linked(links, y, y)
  {
    LinkedSymmetric(links, x, y);
    LinkedTransitive(links, x, y, x);
    LinkedTransitive(links, y, x, y);
  }

  /** After the pair, equal labels stem from equal labels or from the two groups. */
  lemma LabelsAfter(s: Labels, a: nat, b: nat, x: nat, y: nat)
    requires a < |s.connect| && b < |s.connect| && x < |s.connect| && y < |s.connect|
    requires forall k | 0 <= k < |s.connect| :: s.connect[k] < s.nc
    requires SameLabel(Accepted(s, a, b).connect, x, y)
    ensures || SameLabel(s.connect, x, y)
            || ((x == a || SameLabel(s.connect, x, a)) && (y == b || SameLabel(s.connect, y, b)))
            || ((x == b || SameLabel(s.connect, x, b)) && (y == a || SameLabel(s.connect, y, a)))
            || (x == y == a) || (x == y == b)
  {}

  lemma AcceptKeeps(s: Labels, links: seq<Link>, a: nat, b: nat)
    requires Faithful(s, links) && a < |s.connect| && b < |s.connect|
    ensures Faithful(Accepted(s, a, b), links + [(a, b)])
  {
    hide Linked;
    var t := Accepted(s, a, b);
    var more := links + [(a, b)];
    assert s.nc >= 1;
    forall x: nat, y: nat | x < |t.connect| && y < |t.connect| && SameLabel(t.connect, x, y)
      ensures Linked(more, x, y)
    {
      LabelsAfter(s, a, b, x, y);
      NewLinks(s, links, a, b, a, b);
      Roundtrip(more, a, b);
      if SameLabel(s.connect, x, y) {
        LinkedStill(links, (a, b), x, y);
      } else if x == y {
      } else if (x == a || SameLabel(s.connect, x, a)) && (y == b || SameLabel(s.connect, y, b)) {
        NewLinks(s, links, a, b, x, y);
      } else {
        NewLinks(s, links, a, b, y, x);
      }
    }
    forall l | l in more
      ensures l.0 < |t.connect| && l.1 < |t.connect| && SameLabel(t.connect, l.0, l.1)
    {
      if l in links { assert SameLabel(s.connect, l.0, l.1); }
    }
  }

  // ----- The program

  class Frames {
    const connect: array<int>
    var nc: int
    ghost var links: seq<Link>

    ghost function State(): Labels
      reads this, connect
    {
      Labels(connect[..], nc)
    }

    ghost predicate Valid()
      reads this, connect
    {
      Faithful(State(), links)
    }

    constructor (n: nat)
      ensures Valid() && links == [] && connect.Length == n && fresh(connect)
    {
      connect := new int[n](_ => 0);
      nc := 1;
      links := [];
    }

    /** The clearing before the second pass; the next label is not reset. */
    method Clear()
      requires Valid()
      modifies this, connect
      ensures Valid() && links == []
    {
      forall k | 0 <= k < connect.Length { connect[k] := 0; }
      links := [];
    }

    /** One accepted pair. */
    method Accept(ix1: nat, ix2: nat)
      requires Valid() && ix1 < connect.Length && ix2 < connect.Length
      modifies this, connect
      ensures Valid() && links == old(links) + [(ix1, ix2)]
      ensures State() == Accepted(old(State()), ix1, ix2)
    {
      AcceptKeeps(State(), links, ix1, ix2);
      if connect[ix1] != 0 {
        if connect[ix2] == 0 {
          connect[ix2] := connect[ix1];
        } else {
          var ctmp := connect[ix2];
          for k := 0 to connect.Length
            invariant forall i | k <= i < connect.Length :: connect[i] == old(connect[i])
            invariant forall i | 0 <= i < k :: connect[i] == if old(connect[i]) == ctmp then old(connect[ix1]) else old(connect[i])
            invariant nc == old(nc) && links == old(links)
          {
            if connect[k] == ctmp { connect[k] := connect[ix1]; }
          }
        }
      } else if connect[ix2] == 0 {
        connect[ix2] := nc;
        connect[ix1] := nc;
        nc := nc + 1;
      } else {
        connect[ix1] := connect[ix2];
      }
      links := links + [(ix1, ix2)];
      assert connect[..] == Accepted(old(State()), ix1, ix2).connect;
    }

    /** The check after the pass: `flag` stays 0 exactly when accepted pairs link all frames. */
    method Check() returns (flag: int)
      requires Valid()
      ensures flag == 0 || flag == 1
      ensures flag == 0 <==> forall a: nat, b: nat | a < connect.Length && b < connect.Length :: Linked(links, a, b)
    {
      hide Linked, Faithful;
      flag := 0;
      ghost var c := connect[..];
      forall a: nat, b: nat | a < connect.Length && b < connect.Length
        ensures SameLabel(c, a, b) <==> Linked(links, a, b)
      {
        LabelsTellLinks(State(), links, a, b);
      }
      ghost var alone: nat := 0;
      for k := 0 to connect.Length
        invariant flag == 0 ==> forall i: nat | i < k :: SameLabel(c, i, 0)
        invariant flag != 0 ==> flag == 1 && alone < connect.Length && !SameLabel(c, alone, 0)
      {
        if connect[k] == 0 {
          flag, alone := 1, k;
          if k == 0 { break; }
        } else if connect[k] != connect[0] {
          flag, alone := 1, k;
        }
      }
      if flag == 0 {
        forall a: nat, b: nat | a < connect.Length && b < connect.Length
          ensures Linked(links, a, b)
        {
          assert SameLabel(c, a, 0) && SameLabel(c, b, 0);
        }
      } else {
        assert !Linked(links, alone, 0);
      }
    }
  }

  /** With two frames or more, linking every frame to every other is enough. */
  lemma SeveralFrames(links: seq<Link>, n: nat)
    requires n >= 2
    requires forall a: nat, b: nat | a < n && b < n && a != b :: Linked(links, a, b)
    ensures forall a: nat, b: nat | a < n && b < n :: Linked(links, a, b)
  {
    hide Linked;
    forall a: nat | a < n
      ensures Linked(links, a, a)
    {
      Roundtrip(links, a, if a == 0 then 1 else 0);
    }
  }

  /** A single frame never passes the check: no pair can mention it. */
  lemma SingleFrame(links: seq<Link>, a: nat)
    requires links == []
    ensures !Linked(links, a, a)
  {
    assert forall w :: WalkBetween(links, w, a, a) ==> Joined(links, w[0], w[1]);
  }
}
