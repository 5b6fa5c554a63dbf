/** In which order the tracer finishes tasks, and hands them out: prerequisites one after
    the other, as they are listed, at every level of the search. */
module SearchOrder {
  import opened Sequences
  import opened TaskGraph
  import opened Tracing

  /** Some task of the list leads to `x`. */
  ghost predicate ReachedFrom(g: Graph, ps: seq<Name>, x: Name, stop: set<Name>) {
    exists p :: p in ps && Reaches(g, p, x, stop)
  }

  /** The search of a list of prerequisites, cut in two. */
  lemma {:induction false} SearchSplits(g: Graph, t: Trace, ps: seq<Name>, i: nat, chain: seq<Name>, allInvoked: bool)
    requires Closed(g) && (forall p :: p in ps ==> p in g.prereqs) && i <= |ps|
    ensures var (t', survey) := SearchAll(g, t, ps[..i], chain, allInvoked);
      SearchAll(g, t, ps, chain, allInvoked)
      == if survey.Failed? then (t', survey) else SearchAll(g, t', ps[i..], chain, survey.allInvoked)
    decreases i
  {
    if i == 0 {
      assert ps[0..] == ps;
    } else {
      var (t', status) := SearchFrom(g, t, ps[0], chain);
      assert ps[..i][1..] == ps[1..][..i - 1] && ps[1..][i - 1..] == ps[i..];
      if !status.Circular? { SearchSplits(g, t', ps[1..], i - 1, chain, allInvoked && status.Nil?); }
    }
  }

  // ----- What a search finds anew

  ghost predicate Later(t: Trace, t': Trace) {
    t.explored <= t'.explored && t.invoked <= t'.invoked && t.fetched <= t'.fetched
  }

  /** Everything explored since `t` was reached from the list. */
  ghost predicate AllFrom(g: Graph, stop: set<Name>, t: Trace, t': Trace, ps: seq<Name>) {
    forall x :: x in t'.explored && x !in t.explored ==> ReachedFrom(g, ps, x, stop)
  }

  lemma {:induction false} FoundFrom(g: Graph, stop: set<Name>, t: Trace, name: Name, chain: seq<Name>)
    requires Closed(g) && name in g.prereqs && stop <= t.invoked + t.fetched
    ensures var t' := SearchFrom(g, t, name, chain).0; Later(t, t') && AllFrom(g, stop, t, t', [name])
    decreases g.prereqs.Keys - t.footprint, 1, 0
  {
    if name in t.invoked || name in chain || name in t.footprint || name in t.fetched {
    } else {
      var entered := t.(footprint := t.footprint + {name});
      assert name in g.prereqs.Keys - t.footprint;
      FoundFromAll(g, stop, entered, g.prereqs[name], chain + [name], true);
      var (t', survey) := SearchAll(g, entered, g.prereqs[name], chain + [name], true);
      forall x | x in t'.explored && x !in t.explored ensures ReachedFrom(g, [name], x, stop) {
        Prolonged(g, name, x, stop);
      }
      if !survey.Failed? { NameItself(g, stop, t', name, survey.allInvoked); }
    }
  }

  /** What a prerequisite leads to, the task leads to. */
  lemma Prolonged(g: Graph, name: Name, x: Name, stop: set<Name>)
    requires name in g.prereqs && name !in stop && ReachedFrom(g, g.prereqs[name], x, stop)
    ensures ReachedFrom(g, [name], x, stop)
  {
    var p :| p in g.prereqs[name] && Reaches(g, p, x, stop);
    var w :| Walk(g, w, stop) && 0 < |w| && w[0] == p && w[|w| - 1] == x;
    var w' := [name] + w;
    assert Walk(g, w', stop) && w'[0] == name && w'[|w'| - 1] == x;
    assert name in [name] && Reaches(g, name, x, stop);
  }

  lemma NameItself(g: Graph, stop: set<Name>, t: Trace, name: Name, allInvoked: bool)
    requires name in g.prereqs && name !in stop
    ensures ReachedFrom(g, [name], name, stop)
    ensures var t' := Settle(g, t, name, allInvoked).0; Later(t, t') && t'.explored == t.explored + [name]
  {
    assert Walk(g, [name], stop) && [name][0] == name;
    assert name in [name] && Reaches(g, name, name, stop);
  }

  lemma {:induction false} FoundFromAll(g: Graph, stop: set<Name>, t: Trace, ps: seq<Name>, chain: seq<Name>, allInvoked: bool)
    requires Closed(g) && (forall p :: p in ps ==> p in g.prereqs) && stop <= t.invoked + t.fetched
    ensures var t' := SearchAll(g, t, ps, chain, allInvoked).0; Later(t, t') && AllFrom(g, stop, t, t', ps)
    decreases g.prereqs.Keys - t.footprint, 2, |ps|
  {
    if ps != [] {
      FoundFrom(g, stop, t, ps[0], chain);
      var (t', status) := SearchFrom(g, t, ps[0], chain);
      FromPart(g, stop, t, t', [ps[0]], ps);
      if !status.Circular? {
        FoundFromAll(g, stop, t', ps[1..], chain, allInvoked && status.Nil?);
        var t'' := SearchAll(g, t', ps[1..], chain, allInvoked && status.Nil?).0;
        FromPart(g, stop, t', t'', ps[1..], ps);
      }
    }
  }

  lemma FromPart(g: Graph, stop: set<Name>, t: Trace, t': Trace, part: seq<Name>, ps: seq<Name>)
    requires AllFrom(g, stop, t, t', part) && forall p :: p in part ==> p in ps
    ensures AllFrom(g, stop, t, t', ps)
  {
    forall x | x in t'.explored && x !in t.explored ensures ReachedFrom(g, ps, x, stop) {
      var p :| p in part && Reaches(g, p, x, stop);
    }
  }

  // ----- The order

  /** `x` is finished before `y`. */
  ghost predicate Before(s: seq<Name>, x: Name, y: Name) {
    exists n :: 0 <= n <= |s| && x in s[..n] && y in s[n..] && y !in s[..n]
  }

  /** A task that is entered is finished after all it leads to, and among what the search finds
      anew, the tasks reached from its first `i` prerequisites are finished before all others. */
  lemma PrerequisitesInOrder(g: Graph, root: Name, invoked0: set<Name>, fetched0: set<Name>,
                             t: Trace, name: Name, chain: seq<Name>, i: nat, x: Name, y: Name)
    requires Closed(g) && name in g.prereqs && Inv(g, invoked0, fetched0, t, chain)
    requires Leads(g, root, invoked0 + fetched0, chain, name) && AllReached(g, root, invoked0 + fetched0, t.explored)
    requires name !in t.invoked && name !in chain && name !in t.footprint && name !in t.fetched
    requires !SearchFrom(g, t, name, chain).1.Circular?
    requires i <= |g.prereqs[name]| && ReachedFrom(g, g.prereqs[name][..i], x, invoked0 + fetched0)
    requires !ReachedFrom(g, g.prereqs[name][..i], y, invoked0 + fetched0)
    requires y in SearchFrom(g, t, name, chain).0.explored && y !in t.explored
    ensures Before(SearchFrom(g, t, name, chain).0.explored, x, y)
  {
    hide Inv, Leads, AllReached, Found, Surveyed, ReachedFrom, Before;
    var stop, ps, path := invoked0 + fetched0, g.prereqs[name], chain + [name];
    var entered := t.(footprint := t.footprint + {name});
    EnterKeeps(g, root, invoked0, fetched0, t, name, chain);
    StopIsLeft(g, invoked0, fetched0, t, chain);
    Entered(g, t, name, chain);
    var (t', survey) := SearchAll(g, entered, ps, path, true);
    NameItself(g, stop, t', name, survey.allInvoked);
    var s := SearchFrom(g, t, name, chain).0.explored;
    if y == name {
      FirstPart(g, root, invoked0, fetched0, entered, ps, path, i, x);
      NotYet(g, root, invoked0, fetched0, entered, ps, path);
      Cut(t'.explored, s, x, y);
    } else {
      PartsInOrder(g, root, invoked0, fetched0, entered, ps, path, i, x, y);
      BeforeGrows(t'.explored, s, x, y);
    }
  }

  lemma Entered(g: Graph, t: Trace, name: Name, chain: seq<Name>)
    requires Closed(g) && name in g.prereqs
    requires name !in t.invoked && name !in chain && name !in t.footprint && name !in t.fetched
    ensures var (t', survey) := SearchAll(g, t.(footprint := t.footprint + {name}), g.prereqs[name], chain + [name], true);
      && SearchFrom(g, t, name, chain) == (if survey.Failed? then (t', survey.status) else Settle(g, t', name, survey.allInvoked))
      && (survey.Failed? ==> survey.status.Circular?)
  {
    NeverFailsElse(g, t.(footprint := t.footprint + {name}), g.prereqs[name], chain + [name], true);
  }

  /** A survey fails only with the circular-dependency error. */
  lemma {:induction false} NeverFailsElse(g: Graph, t: Trace, ps: seq<Name>, chain: seq<Name>, allInvoked: bool)
    requires Closed(g) && forall p :: p in ps ==> p in g.prereqs
    ensures var survey := SearchAll(g, t, ps, chain, allInvoked).1; survey.Failed? ==> survey.status.Circular?
    decreases |ps|
  {
    if ps != [] {
      var (t', status) := SearchFrom(g, t, ps[0], chain);
      if !status.Circular? { NeverFailsElse(g, t', ps[1..], chain, allInvoked && status.Nil?); }
    }
  }

  /** The tasks on the chain are not finished below it. */
  lemma NotYet(g: Graph, root: Name, invoked0: set<Name>, fetched0: set<Name>, t: Trace, ps: seq<Name>, chain: seq<Name>)
    requires Searchable(g, root, invoked0, fetched0, t, ps, chain) && chain != []
    requires !SearchAll(g, t, ps, chain, true).1.Failed?
    ensures chain[|chain| - 1] !in SearchAll(g, t, ps, chain, true).0.explored
  {
    SearchAllKeeps(g, root, invoked0, fetched0, t, ps, chain, true);
  }

  /** Where a list of prerequisites is searched. */
  ghost predicate Searchable(g: Graph, root: Name, invoked0: set<Name>, fetched0: set<Name>, t: Trace, ps: seq<Name>,
                             chain: seq<Name>) {
    && Closed(g) && (forall p :: p in ps ==> p in g.prereqs) && Inv(g, invoked0, fetched0, t, chain)
    && (forall p :: p in ps ==> Leads(g, root, invoked0 + fetched0, chain, p))
    && AllReached(g, root, invoked0 + fetched0, t.explored)
  }

  /** After the first `i` prerequisites of a list, all that they lead to is finished, and nothing else is new. */
  lemma FirstPart(g: Graph, root: Name, invoked0: set<Name>, fetched0: set<Name>, t: Trace, ps: seq<Name>, chain: seq<Name>,
                  i: nat, x: Name)
    requires Searchable(g, root, invoked0, fetched0, t, ps, chain) && i <= |ps|
    requires !SearchAll(g, t, ps, chain, true).1.Failed?
    ensures var (part, survey) := SearchAll(g, t, ps[..i], chain, true);
      && !survey.Failed? && Later(t, part) && part.explored <= SearchAll(g, t, ps, chain, true).0.explored
      && (ReachedFrom(g, ps[..i], x, invoked0 + fetched0) ==> x in part.explored)
      && (x in part.explored && x !in t.explored ==> ReachedFrom(g, ps[..i], x, invoked0 + fetched0))
  {
    hide Inv, Leads, AllReached, ReachedFrom;
    var stop := invoked0 + fetched0;
    SearchSplits(g, t, ps, i, chain, true);
    assert forall p :: p in ps[..i] ==> p in ps;
    assert forall p :: p in ps[i..] ==> p in ps;
    StopIsLeft(g, invoked0, fetched0, t, chain);
    SearchAllKeeps(g, root, invoked0, fetched0, t, ps[..i], chain, true);
    FoundFromAll(g, stop, t, ps[..i], chain, true);
    var (part, survey) := SearchAll(g, t, ps[..i], chain, true);
    StopGrows(stop, t, part);
    FoundFromAll(g, stop, part, ps[i..], chain, survey.allInvoked);
    if ReachedFrom(g, ps[..i], x, stop) {
      OrderedLeft(g, invoked0, fetched0, part, chain);
      ReachedIsExplored(g, stop, part.explored, ps[..i], x);
    }
  }

  lemma OrderedLeft(g: Graph, invoked0: set<Name>, fetched0: set<Name>, t: Trace, chain: seq<Name>)
    requires Inv(g, invoked0, fetched0, t, chain)
    ensures Ordered(g, invoked0 + fetched0, t.explored)
  {}

  lemma PartsInOrder(g: Graph, root: Name, invoked0: set<Name>, fetched0: set<Name>, t: Trace, ps: seq<Name>, chain: seq<Name>,
                     i: nat, x: Name, y: Name)
    requires Searchable(g, root, invoked0, fetched0, t, ps, chain) && i <= |ps|
    requires !SearchAll(g, t, ps, chain, true).1.Failed?
    requires ReachedFrom(g, ps[..i], x, invoked0 + fetched0) && !ReachedFrom(g, ps[..i], y, invoked0 + fetched0)
    requires y in SearchAll(g, t, ps, chain, true).0.explored && y !in t.explored
    ensures Before(SearchAll(g, t, ps, chain, true).0.explored, x, y)
  {
    hide Searchable, ReachedFrom, Before;
    Places(g, root, invoked0, fetched0, t, ps, chain);
    FirstPart(g, root, invoked0, fetched0, t, ps, chain, i, x);
    FirstPart(g, root, invoked0, fetched0, t, ps, chain, i, y);
    Cut(SearchAll(g, t, ps[..i], chain, true).0.explored, SearchAll(g, t, ps, chain, true).0.explored, x, y);
  }

  lemma Places(g: Graph, root: Name, invoked0: set<Name>, fetched0: set<Name>, t: Trace, ps: seq<Name>, chain: seq<Name>)
    requires Searchable(g, root, invoked0, fetched0, t, ps, chain)
    ensures Closed(g) && forall p :: p in ps ==> p in g.prereqs
  {}

  lemma BeforeGrows(s: seq<Name>, s': seq<Name>, x: Name, y: Name)
    requires Before(s, x, y) && s <= s'
    ensures Before(s', x, y)
  {
    var n :| 0 <= n <= |s| && x in s[..n] && y in s[n..] && y !in s[..n];
    assert s'[..n] == s[..n] && s' == s + s'[|s|..];
    assert s'[n..] == s[n..] + s'[|s|..];
  }

  lemma StopIsLeft(g: Graph, invoked0: set<Name>, fetched0: set<Name>, t: Trace, chain: seq<Name>)
    requires Inv(g, invoked0, fetched0, t, chain)
    ensures invoked0 + fetched0 <= t.invoked + t.fetched
  {}

  lemma StopGrows(stop: set<Name>, t: Trace, t': Trace)
    requires stop <= t.invoked + t.fetched && Later(t, t')
    ensures stop <= t'.invoked + t'.fetched
  {}

  lemma ReachedIsExplored(g: Graph, stop: set<Name>, explored: seq<Name>, ps: seq<Name>, x: Name)
    requires Closed(g) && Ordered(g, stop, explored) && ReachedFrom(g, ps, x, stop)
    requires forall p :: p in ps ==> p in stop || p in explored
    ensures x in explored
  {
    var p :| p in ps && Reaches(g, p, x, stop);
    OrderedHasNoCycle(g, p, stop, explored);
  }

  lemma Cut(part: seq<Name>, s: seq<Name>, x: Name, y: Name)
    requires part <= s && x in part && y in s && y !in part
    ensures Before(s, x, y)
  {
    assert s[..|part|] == part && s == part + s[|part|..];
  }

  /** The task itself comes last. */
  lemma TaskComesLast(g: Graph, t: Trace, name: Name, chain: seq<Name>)
    requires Closed(g) && name in g.prereqs && !SearchFrom(g, t, name, chain).1.Circular?
    requires name !in t.invoked && name !in chain && name !in t.footprint && name !in t.fetched
    ensures var s := SearchFrom(g, t, name, chain).0.explored; s != [] && s[|s| - 1] == name
  {
    Entered(g, t, name, chain);
  }

  // ----- The batch

  /** The elements of `s` that are in `keep`, in their order. */
  ghost function Among(s: seq<Name>, keep: set<Name>): seq<Name> {
    if s == [] then []
    else Among(s[..|s| - 1], keep) + (if s[|s| - 1] in keep then [s[|s| - 1]] else [])
  }

  lemma AmongSnoc(s: seq<Name>, x: Name, keep: set<Name>)
    ensures Among(s + [x], keep) == Among(s, keep) + (if x in keep then [x] else [])
  {
    assert (s + [x])[..|s|] == s;
  }

  lemma {:induction false} AmongSame(s: seq<Name>, keep: set<Name>, keep': set<Name>)
    requires forall x :: x in s ==> (x in keep <==> x in keep')
    ensures Among(s, keep) == Among(s, keep')
  {
    if s != [] { AmongSame(s[..|s| - 1], keep, keep'); }
  }

  /** The batch holds the tasks fetched that need to be carried out, in the order they were finished in. */
  ghost predicate InBatchOrder(g: Graph, t: Trace) {
    (forall x :: x in t.explored ==> x in t.footprint) && t.batch == Among(t.explored, g.needed * t.fetched)
  }

  lemma SettleInOrder(g: Graph, t: Trace, name: Name, allInvoked: bool)
    requires InBatchOrder(g, t) && name in t.footprint && name !in t.explored && name !in t.fetched
    ensures InBatchOrder(g, Settle(g, t, name, allInvoked).0)
  {
    var t' := Settle(g, t, name, allInvoked).0;
    AmongSnoc(t.explored, name, g.needed * t'.fetched);
    AmongSame(t.explored, g.needed * t.fetched, g.needed * t'.fetched);
  }

  /** A task on the chain is neither finished nor fetched below it. */
  ghost predicate Aside(t: Trace, held: set<Name>) {
    held <= t.footprint && forall x :: x in held ==> x !in t.explored && x !in t.fetched
  }

  lemma {:induction false} SearchInOrder(g: Graph, t: Trace, name: Name, chain: seq<Name>, held: set<Name>)
    requires Closed(g) && name in g.prereqs && InBatchOrder(g, t) && Aside(t, held)
    ensures InBatchOrder(g, SearchFrom(g, t, name, chain).0) && Aside(SearchFrom(g, t, name, chain).0, held)
    decreases g.prereqs.Keys - t.footprint, 1, 0
  {
    if name in t.invoked || name in chain || name in t.footprint || name in t.fetched {
    } else {
      var entered := t.(footprint := t.footprint + {name});
      assert name in g.prereqs.Keys - t.footprint;
      SearchAllInOrder(g, entered, g.prereqs[name], chain + [name], true, held + {name});
      var (t', survey) := SearchAll(g, entered, g.prereqs[name], chain + [name], true);
      if !survey.Failed? { SettleInOrder(g, t', name, survey.allInvoked); }
    }
  }

  lemma {:induction false} SearchAllInOrder(g: Graph, t: Trace, ps: seq<Name>, chain: seq<Name>, allInvoked: bool, held: set<Name>)
    requires Closed(g) && (forall p :: p in ps ==> p in g.prereqs) && InBatchOrder(g, t) && Aside(t, held)
    ensures InBatchOrder(g, SearchAll(g, t, ps, chain, allInvoked).0)
    ensures Aside(SearchAll(g, t, ps, chain, allInvoked).0, held)
    decreases g.prereqs.Keys - t.footprint, 2, |ps|
  {
    if ps != [] {
      SearchInOrder(g, t, ps[0], chain, held);
      var (t', status) := SearchFrom(g, t, ps[0], chain);
      if !status.Circular? { SearchAllInOrder(g, t', ps[1..], chain, allInvoked && status.Nil?, held); }
    }
  }

  lemma BatchInOrder(g: Graph, root: Name, invoked: set<Name>, fetched: set<Name>)
    requires Closed(g) && root in g.prereqs
    ensures var t := Round(g, root, invoked, fetched).0; t.batch == Among(t.explored, g.needed * t.fetched)
  {
    SearchInOrder(g, Trace(invoked, {}, fetched, [], []), root, [], {});
  }

  lemma {:induction false} AmongJoins(s: seq<Name>, s': seq<Name>, keep: set<Name>)
    ensures Among(s + s', keep) == Among(s, keep) + Among(s', keep)
  {
    if s' == [] {
      assert s + s' == s;
    } else {
      var n := |s'| - 1;
      AmongJoins(s, s'[..n], keep);
      assert s + s' == s + s'[..n] + [s'[n]];
      AmongSnoc(s + s'[..n], s'[n], keep);
    }
  }

  lemma {:induction false} AmongIs(s: seq<Name>, keep: set<Name>, x: Name)
    ensures x in Among(s, keep) <==> x in s && x in keep
  {
    if s != [] {
      AmongIs(s[..|s| - 1], keep, x);
      assert s == s[..|s| - 1] + [s[|s| - 1]];
    }
  }

  lemma AmongKeepsOrder(s: seq<Name>, keep: set<Name>, a: nat, b: nat)
    requires Distinct(s) && a < |Among(s, keep)| && b < |Among(s, keep)|
    requires Before(s, Among(s, keep)[a], Among(s, keep)[b])
    ensures a < b
  {
    var kept := Among(s, keep);
    var x, y := kept[a], kept[b];
    var n :| 0 <= n <= |s| && x in s[..n] && y in s[n..] && y !in s[..n];
    assert s == s[..n] + s[n..];
    AmongJoins(s[..n], s[n..], keep);
    var first := Among(s[..n], keep);
    AmongIs(s[..n], keep, y);
    AmongIs(s[n..], keep, x);
    assert x !in s[n..];
    WhichHalf(first, Among(s[n..], keep), a);
    WhichHalf(first, Among(s[n..], keep), b);
  }

  lemma WhichHalf(s: seq<Name>, s': seq<Name>, k: nat)
    requires k < |s| + |s'|
    ensures (s + s')[k] !in s ==> k >= |s|
    ensures (s + s')[k] !in s' ==> k < |s|
  {}

  /** Tasks that the first `i` prerequisites of the root lead to are handed out before all others. */
  lemma BatchFollowsPrerequisites(g: Graph, root: Name, invoked: set<Name>, fetched: set<Name>, i: nat, a: nat, b: nat)
    requires Closed(g) && root in g.prereqs && root !in invoked + fetched && i <= |g.prereqs[root]|
    requires !CycleReachable(g, root, invoked + fetched)
    requires var batch := Round(g, root, invoked, fetched).0.batch;
      && a < |batch| && b < |batch| && ReachedFrom(g, g.prereqs[root][..i], batch[a], invoked + fetched)
      && !ReachedFrom(g, g.prereqs[root][..i], batch[b], invoked + fetched)
    ensures a < b
  {
    hide ReachedFrom, Before, Among;
    var t := Round(g, root, invoked, fetched).0;
    RaisesIffCycle(g, root, invoked, fetched);
    RoundIsExact(g, root, invoked, fetched, t.batch[b]);
    BatchInOrder(g, root, invoked, fetched);
    PrerequisitesInOrder(g, root, invoked, fetched, Trace(invoked, {}, fetched, [], []), root, [], i, t.batch[a], t.batch[b]);
    AmongKeepsOrder(t.explored, g.needed * t.fetched, a, b);
  }
}
