/** `Pwrake::Tracer`: the depth-first search that collects, in one call, every
    task whose prerequisites have all been invoked. */
module Tracing {
  import opened Sequences
  import opened TaskGraph

  /** What the tracer reads and writes: the tasks' `already_invoked` flags, the
      footprint of the current call, the tasks ever fetched, the batch being
      collected and, as history, the tasks fully explored in this call in
      finishing order. */
  datatype Trace = Trace(invoked: set<Name>, footprint: set<Name>, fetched: set<Name>,
                         batch: seq<Name>, explored: seq<Name>)

  /** What `find_task` answers: `nil`, one of its two truthy symbols, or the
      circular-dependency failure with the chain it reports. */
  datatype Status = Nil | Traced | Fetched | Circular(chain: seq<Name>, again: Name)

  /** What the loop over the prerequisites ends with. */
  datatype Survey = Survey(allInvoked: bool) | Failed(status: Status)

  /** `find_task` as a function of the state it starts in. */
  function SearchFrom(g: Graph, t: Trace, name: Name, chain: seq<Name>): (r: (Trace, Status))
    requires Closed(g) && name in g.prereqs
    ensures t.footprint <= r.0.footprint && t.fetched <= r.0.fetched
    decreases g.prereqs.Keys - t.footprint, 1, 0
  {
    if name in t.invoked then (t, Nil)
    else if name in chain then (t, Circular(chain, name))
    else if name in t.footprint || name in t.fetched then (t, Traced)
    else
      var entered := t.(footprint := t.footprint + {name});
      assert name in g.prereqs.Keys - t.footprint;
      var (t', survey) := SearchAll(g, entered, g.prereqs[name], chain + [name], true);
      if survey.Failed? then (t', survey.status) else Settle(g, t', name, survey.allInvoked)
  }

  /** `find_task` on the prerequisites still to be visited. */
  function SearchAll(g: Graph, t: Trace, ps: seq<Name>, chain: seq<Name>, allInvoked: bool): (r: (Trace, Survey))
    requires Closed(g) && forall p :: p in ps ==> p in g.prereqs
    ensures t.footprint <= r.0.footprint && t.fetched <= r.0.fetched
    decreases g.prereqs.Keys - t.footprint, 2, |ps|
  {
    if ps == [] then (t, Survey(allInvoked))
    else
      var (t', status) := SearchFrom(g, t, ps[0], chain);
      if status.Circular? then (t', Failed(status))
      else SearchAll(g, t', ps[1..], chain, allInvoked && status.Nil?)
  }

  /** The end of `find_task`, once every prerequisite has been visited. */
  function Settle(g: Graph, t: Trace, name: Name, allInvoked: bool): (Trace, Status) {
    var left := t.(explored := t.explored + [name]);
    if !allInvoked then (left, Fetched)
    else
      var fetched := left.(fetched := left.fetched + {name});
      if name in g.needed then (fetched.(batch := fetched.batch + [name]), Fetched)
      else (fetched.(invoked := fetched.invoked + {name}), Nil)
  }

  /** `available_task`: one call, on flags and `@fetched` left by earlier ones. */
  function Round(g: Graph, root: Name, invoked: set<Name>, fetched: set<Name>): (Trace, Status)
    requires Closed(g) && root in g.prereqs
  {
    SearchFrom(g, Trace(invoked, {}, fetched, [], []), root, [])
  }

  // ----- What a call keeps

  ghost predicate Ready(g: Graph, invoked: set<Name>, n: Name) {
    n in g.prereqs && forall p :: p in g.prereqs[n] ==> p in invoked
  }

  /** Explored tasks come after their prerequisites, apart from those the call
      does not enter. */
  ghost predicate Ordered(g: Graph, stop: set<Name>, explored: seq<Name>) {
    forall i, p :: 0 <= i < |explored| && explored[i] in g.prereqs && p in g.prereqs[explored[i]] ==>
      p in stop || p in explored[..i]
  }

  /** The state of a call that started from `invoked0` and `fetched0`: flags,
      fetched table and batch are functions of what has been explored. */
  ghost predicate Inv(g: Graph, invoked0: set<Name>, fetched0: set<Name>, t: Trace, chain: seq<Name>) {
    && (forall x :: x in t.explored ==> x in g.prereqs && x !in invoked0 && x !in fetched0 && x !in chain)
    && (forall x :: x in t.footprint <==> x in t.explored || x in chain)
    && Ordered(g, invoked0 + fetched0, t.explored) && Distinct(t.explored)
    && Outcome(g, invoked0, fetched0, t)
  }

  ghost predicate Outcome(g: Graph, invoked0: set<Name>, fetched0: set<Name>, t: Trace) {
    && (forall x :: x in t.invoked <==>
          x in invoked0 || (x in t.explored && x !in g.needed && Ready(g, t.invoked, x)))
    && (forall x :: x in t.fetched <==> x in fetched0 || (x in t.explored && Ready(g, t.invoked, x)))
    && (forall x :: x in t.batch <==> x in t.explored && x in g.needed && Ready(g, t.invoked, x))
    && Distinct(t.batch)
  }

  /** `chain` leads from `root` to `name` outside `stop`. */
  ghost predicate Leads(g: Graph, root: Name, stop: set<Name>, chain: seq<Name>, name: Name) {
    && Walk(g, chain, stop)
    && (if chain == [] then name == root
        else chain[0] == root && name in g.prereqs[chain[|chain| - 1]])
  }

  ghost predicate AllReached(g: Graph, root: Name, stop: set<Name>, explored: seq<Name>) {
    forall x :: x in explored ==> Reaches(g, root, x, stop)
  }

  /** How the state moves while a search runs below `chain`. */
  ghost predicate Grows(t: Trace, t': Trace) {
    && t.explored <= t'.explored
    && t.invoked <= t'.invoked
    && t.batch <= t'.batch
    && forall x :: x in t'.invoked ==> x in t.invoked || (x in t'.explored && x !in t.explored)
  }

  lemma GrowsTransitive(a: Trace, b: Trace, c: Trace)
    requires Grows(a, b) && Grows(b, c)
    ensures Grows(a, c)
  {}

  /** A search either reports a lasso the graph really has, or leaves the
      invariant with `name` explored (or not to be entered). */
  ghost predicate Found(g: Graph, root: Name, invoked0: set<Name>, fetched0: set<Name>,
                        t: Trace, name: Name, chain: seq<Name>, r: (Trace, Status)) {
    var stop := invoked0 + fetched0;
    if r.1.Circular? then IsLasso(g, r.1.chain + [r.1.again], root, stop)
    else
      && Inv(g, invoked0, fetched0, r.0, chain) && AllReached(g, root, stop, r.0.explored) && Grows(t, r.0)
      && (name in stop || name in r.0.explored)
      && (r.1.Nil? <==> name in r.0.invoked)
      && (r.1.Nil? ==> r.0.batch == t.batch)
  }

  ghost predicate Surveyed(g: Graph, root: Name, invoked0: set<Name>, fetched0: set<Name>,
                           t: Trace, ps: seq<Name>, chain: seq<Name>, allInvoked: bool, r: (Trace, Survey)) {
    var stop := invoked0 + fetched0;
    if r.1.Failed? then
      r.1.status.Circular? && IsLasso(g, r.1.status.chain + [r.1.status.again], root, stop)
    else
      && Inv(g, invoked0, fetched0, r.0, chain) && AllReached(g, root, stop, r.0.explored) && Grows(t, r.0)
      && (forall p :: p in ps ==> p in stop || p in r.0.explored)
      && (r.1.allInvoked <==> allInvoked && forall p :: p in ps ==> p in r.0.invoked)
      && (r.1.allInvoked ==> r.0.batch == t.batch)
  }

  lemma {:induction false} SearchFromKeeps(g: Graph, root: Name, invoked0: set<Name>, fetched0: set<Name>,
                                            t: Trace, name: Name, chain: seq<Name>)
    requires Closed(g) && name in g.prereqs
    requires Inv(g, invoked0, fetched0, t, chain) && Leads(g, root, invoked0 + fetched0, chain, name)
    requires AllReached(g, root, invoked0 + fetched0, t.explored)
    ensures Found(g, root, invoked0, fetched0, t, name, chain, SearchFrom(g, t, name, chain))
    decreases g.prereqs.Keys - t.footprint, 1, 0
  {
    var stop := invoked0 + fetched0;
    if name in t.invoked {
    } else if name in chain {
      assert Walk(g, chain + [name], stop);
    } else if name in t.footprint || name in t.fetched {
    } else {
      var entered := t.(footprint := t.footprint + {name});
      assert name in g.prereqs.Keys - t.footprint;
      EnterKeeps(g, root, invoked0, fetched0, t, name, chain);
      SearchAllKeeps(g, root, invoked0, fetched0, entered, g.prereqs[name], chain + [name], true);
      var (t', survey) := SearchAll(g, entered, g.prereqs[name], chain + [name], true);
      if !survey.Failed? {
        LeaveKeeps(g, root, invoked0, fetched0, entered, t', name, chain, survey.allInvoked);
      }
    }
  }

  /** Pushing `name` on the chain. */
  lemma EnterKeeps(g: Graph, root: Name, invoked0: set<Name>, fetched0: set<Name>,
                   t: Trace, name: Name, chain: seq<Name>)
    requires Closed(g) && name in g.prereqs && name !in t.invoked && name !in chain
    requires name !in t.footprint && name !in t.fetched
    requires Inv(g, invoked0, fetched0, t, chain) && Leads(g, root, invoked0 + fetched0, chain, name)
    ensures Inv(g, invoked0, fetched0, t.(footprint := t.footprint + {name}), chain + [name])
    ensures forall p :: p in g.prereqs[name] ==> Leads(g, root, invoked0 + fetched0, chain + [name], p)
    ensures Reaches(g, root, name, invoked0 + fetched0)
    ensures name !in invoked0 && name !in fetched0
  {
    var chain' := chain + [name];
    assert Walk(g, chain', invoked0 + fetched0) && chain'[0] == root;
    assert forall x :: x in chain' <==> x in chain || x == name;
  }

  /** Popping it again and settling it. */
  lemma LeaveKeeps(g: Graph, root: Name, invoked0: set<Name>, fetched0: set<Name>,
                   t: Trace, t': Trace, name: Name, chain: seq<Name>, allInvoked: bool)
    requires name in g.prereqs && name !in chain && name !in invoked0 && name !in fetched0
    requires Reaches(g, root, name, invoked0 + fetched0)
    requires Surveyed(g, root, invoked0, fetched0, t, g.prereqs[name], chain + [name], true, (t', Survey(allInvoked)))
    ensures Found(g, root, invoked0, fetched0, t, name, chain, Settle(g, t', name, allInvoked))
  {
    SettleKeeps(g, invoked0, fetched0, t', name, chain, allInvoked);
    var (t'', _) := Settle(g, t', name, allInvoked);
    GrowsTransitive(t, t', t'');
    assert forall x :: x in t''.explored <==> x in t'.explored || x == name;
    assert name !in t'.invoked by {
      assert name in chain + [name];
    }
  }

  lemma {:induction false} SearchAllKeeps(g: Graph, root: Name, invoked0: set<Name>, fetched0: set<Name>,
                                               t: Trace, ps: seq<Name>, chain: seq<Name>, allInvoked: bool)
    requires Closed(g) && forall p :: p in ps ==> p in g.prereqs
    requires Inv(g, invoked0, fetched0, t, chain)
    requires forall p :: p in ps ==> Leads(g, root, invoked0 + fetched0, chain, p)
    requires AllReached(g, root, invoked0 + fetched0, t.explored)
    ensures Surveyed(g, root, invoked0, fetched0, t, ps, chain, allInvoked,
                     SearchAll(g, t, ps, chain, allInvoked))
    decreases g.prereqs.Keys - t.footprint, 2, |ps|
  {
    if ps == [] {
    } else {
      SearchFromKeeps(g, root, invoked0, fetched0, t, ps[0], chain);
      var (t', status) := SearchFrom(g, t, ps[0], chain);
      if !status.Circular? {
        SearchAllKeeps(g, root, invoked0, fetched0, t', ps[1..], chain, allInvoked && status.Nil?);
        var (t'', survey) := SearchAll(g, t', ps[1..], chain, allInvoked && status.Nil?);
        if !survey.Failed? {
          GrowsTransitive(t, t', t'');
          assert ps[0] in t''.invoked <==> ps[0] in t'.invoked;
          assert forall p :: p in ps <==> p == ps[0] || p in ps[1..];
        }
      }
    }
  }

  /** Settling `name` leaves everything said about the tasks explored before it
      as it was, since none of them has `name` as a prerequisite. */
  lemma SettleKeeps(g: Graph, invoked0: set<Name>, fetched0: set<Name>,
                    t: Trace, name: Name, chain: seq<Name>, allInvoked: bool)
    requires Inv(g, invoked0, fetched0, t, chain + [name])
    requires name in g.prereqs && name !in chain && name !in invoked0 && name !in fetched0
    requires forall p :: p in g.prereqs[name] ==> p in invoked0 + fetched0 || p in t.explored
    requires allInvoked <==> forall p :: p in g.prereqs[name] ==> p in t.invoked
    ensures Inv(g, invoked0, fetched0, Settle(g, t, name, allInvoked).0, chain)
    ensures Grows(t, Settle(g, t, name, allInvoked).0)
  {
    var t' := Settle(g, t, name, allInvoked).0;
    assert name in chain + [name];
    OrderedSnoc(g, invoked0 + fetched0, t.explored, name);
    forall x | x in t.explored
      ensures name !in g.prereqs[x]
    {
      var i :| 0 <= i < |t.explored| && t.explored[i] == x;
      assert t.explored[i] in g.prereqs && name !in t.explored[..i];
      assert name !in invoked0 + fetched0;
      assert name !in g.prereqs[t.explored[i]];
    }
    SettleOutcome(g, invoked0, fetched0, t, name, allInvoked);
  }

  lemma OrderedSnoc(g: Graph, stop: set<Name>, explored: seq<Name>, name: Name)
    requires Ordered(g, stop, explored) && name in g.prereqs
    requires forall p :: p in g.prereqs[name] ==> p in stop || p in explored
    ensures Ordered(g, stop, explored + [name])
  {
    var longer := explored + [name];
    forall i, p | 0 <= i < |longer| && longer[i] in g.prereqs && p in g.prereqs[longer[i]]
      ensures p in stop || p in longer[..i]
    {
      assert longer[..i] == explored[..i];
      assert explored[..|explored|] == explored;
    }
  }

  lemma SettleOutcome(g: Graph, invoked0: set<Name>, fetched0: set<Name>, t: Trace, name: Name, allInvoked: bool)
    requires Outcome(g, invoked0, fetched0, t)
    requires name in g.prereqs && name !in invoked0 && name !in fetched0 && name !in t.explored
    requires name !in g.prereqs[name]
    requires forall x :: x in t.explored ==> x in g.prereqs && name !in g.prereqs[x]
    requires allInvoked <==> forall p :: p in g.prereqs[name] ==> p in t.invoked
    ensures Outcome(g, invoked0, fetched0, Settle(g, t, name, allInvoked).0)
  {
    var t' := Settle(g, t, name, allInvoked).0;
    assert t'.invoked == t.invoked || t'.invoked == t.invoked + {name};
    assert forall x :: x in t'.explored <==> x in t.explored || x == name;
    forall x | x in t'.explored
      ensures Ready(g, t'.invoked, x) <==> Ready(g, t.invoked, x)
    {
    }
    assert forall x :: x in t'.batch <==> x in t.batch || (x == name && allInvoked && name in g.needed);
  }

  // ----- What one call returns

  /** A walk outside `stop` only ever moves towards the front of the finishing
      order. */
  lemma {:induction false} WalkDescends(g: Graph, stop: set<Name>, explored: seq<Name>, w: seq<Name>)
    requires Closed(g) && Ordered(g, stop, explored) && Walk(g, w, stop)
    requires 1 < |w| && w[0] in explored
    ensures w[|w| - 1] in explored[..FirstIndex(explored, w[0])]
    decreases |w|
  {
    var f := FirstIndex(explored, w[0]);
    assert w[1] in g.prereqs[explored[f]];
    assert w[1] in explored[..f];
    if 2 < |w| {
      assert Walk(g, w[1..], stop);
      WalkDescends(g, stop, explored, w[1..]);
      assert FirstIndex(explored, w[1]) < f;
    }
  }

  ghost function FirstIndex<T>(s: seq<T>, x: T): (i: nat)
    requires x in s
    ensures i < |s| && s[i] == x && x !in s[..i]
  {
    if s[0] == x then 0 else 1 + FirstIndex(s[1..], x)
  }

  lemma OrderedHasNoCycle(g: Graph, root: Name, stop: set<Name>, explored: seq<Name>)
    requires Closed(g) && Ordered(g, stop, explored) && (root in stop || root in explored)
    ensures !CycleReachable(g, root, stop)
    ensures forall x :: Reaches(g, root, x, stop) ==> x in explored
  {
    forall x | Reaches(g, root, x, stop)
      ensures x in explored
    {
      var w :| Walk(g, w, stop) && 0 < |w| && w[0] == root && w[|w| - 1] == x;
      if 1 < |w| { WalkDescends(g, stop, explored, w); }
    }
    forall w | IsLasso(g, w, root, stop)
      ensures false
    {
      var k :| 0 <= k < |w| - 1 && w[k] == w[|w| - 1];
      if 0 < k {
        assert Walk(g, w[..k + 1], stop);
        WalkDescends(g, stop, explored, w[..k + 1]);
      }
      assert Walk(g, w[k..], stop);
      WalkDescends(g, stop, explored, w[k..]);
    }
  }

  lemma RoundSearches(g: Graph, root: Name, invoked: set<Name>, fetched: set<Name>)
    requires Closed(g) && root in g.prereqs
    ensures Found(g, root, invoked, fetched, Trace(invoked, {}, fetched, [], []), root, [],
                  Round(g, root, invoked, fetched))
  {
    SearchFromKeeps(g, root, invoked, fetched, Trace(invoked, {}, fetched, [], []), root, []);
  }

  /** The circular-dependency error is raised exactly when a cycle is reachable
      through tasks that are neither invoked nor fetched yet, and the chain it
      prints is such a cycle. */
  lemma RaisesIffCycle(g: Graph, root: Name, invoked: set<Name>, fetched: set<Name>)
    requires Closed(g) && root in g.prereqs
    ensures var status := Round(g, root, invoked, fetched).1;
      && (status.Circular? <==> CycleReachable(g, root, invoked + fetched))
      && (status.Circular? ==> IsLasso(g, status.chain + [status.again], root, invoked + fetched))
  {
    RoundSearches(g, root, invoked, fetched);
    var (t, status) := Round(g, root, invoked, fetched);
    if !status.Circular? {
      OrderedHasNoCycle(g, root, invoked + fetched, t.explored);
    }
  }

  /** Without a cycle, a call explores exactly what `root` reaches, marks
      exactly the explored tasks that are ready and not needed, and returns
      exactly those that are ready and needed, each once. */
  lemma RoundIsExact(g: Graph, root: Name, invoked: set<Name>, fetched: set<Name>, x: Name)
    requires Closed(g) && root in g.prereqs && !CycleReachable(g, root, invoked + fetched)
    ensures var (t, _) := Round(g, root, invoked, fetched);
      && (x in t.explored <==> Reaches(g, root, x, invoked + fetched))
      && (x in t.batch <==> Reaches(g, root, x, invoked + fetched) && x in g.needed && Ready(g, t.invoked, x))
      && (x in t.invoked <==>
            (x in invoked ||
             (Reaches(g, root, x, invoked + fetched) && x !in g.needed && Ready(g, t.invoked, x))))
      && (x in t.fetched <==>
            (x in fetched || (Reaches(g, root, x, invoked + fetched) && Ready(g, t.invoked, x))))
      && Distinct(t.batch) && Distinct(t.explored)
  {
    RaisesIffCycle(g, root, invoked, fetched);
    RoundSearches(g, root, invoked, fetched);
    OrderedHasNoCycle(g, root, invoked + fetched, Round(g, root, invoked, fetched).0.explored);
  }

  /** If every fetched task has been invoked, a call either answers `nil` with
      the root invoked and nothing collected, or returns a non-empty batch. */
  lemma RoundProgresses(g: Graph, root: Name, invoked: set<Name>, fetched: set<Name>)
    requires Closed(g) && root in g.prereqs && !CycleReachable(g, root, invoked + fetched)
    requires fetched <= invoked
    ensures var (t, status) := Round(g, root, invoked, fetched);
      && (status.Nil? <==> root in t.invoked)
      && (status.Nil? <==> t.batch == [])
  {
    RaisesIffCycle(g, root, invoked, fetched);
    RoundSearches(g, root, invoked, fetched);
    var (t, status) := Round(g, root, invoked, fetched);
    if t.batch == [] {
      AllExploredInvoked(g, invoked, fetched, t, |t.explored|);
      assert t.explored[..|t.explored|] == t.explored;
    }
  }

  lemma {:induction false} AllExploredInvoked(g: Graph, invoked0: set<Name>, fetched0: set<Name>, t: Trace, n: nat)
    requires Inv(g, invoked0, fetched0, t, []) && fetched0 <= invoked0
    requires t.batch == [] && n <= |t.explored|
    ensures forall i :: 0 <= i < n ==> t.explored[i] in t.invoked
  {
    if n > 0 {
      AllExploredInvoked(g, invoked0, fetched0, t, n - 1);
      var x := t.explored[n - 1];
      forall p | p in g.prereqs[x]
        ensures p in t.invoked
      {
        assert p in invoked0 + fetched0 || p in t.explored[..n - 1];
      }
      assert Ready(g, t.invoked, x) && x !in t.batch;
    }
  }

  // ----- The tracer as it runs

  /** The Rake application: its tasks and their `already_invoked` flags. */
  class Application {
    const graph: Graph
    var invoked: set<Name>

    constructor (graph: Graph)
      ensures this.graph == graph && invoked == {}
    {
      this.graph := graph;
      invoked := {};
    }
  }

  class Tracer {
    var fetched: set<Name>
    var footprint: set<Name>
    var fetchedTasks: seq<Name>
    ghost var explored: seq<Name>

    constructor ()
      ensures fetched == {}
    {
      fetched, footprint, fetchedTasks, explored := {}, {}, [], [];
    }

    ghost function State(app: Application): Trace
      reads this, app
    {
      Trace(app.invoked, footprint, fetched, fetchedTasks, explored)
    }

    method FindTask(app: Application, name: Name, chain: seq<Name>) returns (status: Status)
      requires Closed(app.graph) && name in app.graph.prereqs
      modifies this, app`invoked
      ensures (State(app), status) == SearchFrom(app.graph, old(State(app)), name, chain)
      decreases app.graph.prereqs.Keys - footprint
    {
      if name in app.invoked { return Nil; }
      if name in chain { return Circular(chain, name); }
      if name in footprint || name in fetched { return Traced; }
      assert name in app.graph.prereqs.Keys - footprint;
      footprint := footprint + {name};
      ghost var entered := State(app);
      var prereqs := app.graph.prereqs[name];
      var allInvoked := true;
      var i := 0;
      while i < |prereqs|
        invariant 0 <= i <= |prereqs|
        invariant entered.footprint <= footprint
        invariant SearchAll(app.graph, entered, prereqs, chain + [name], true)
               == SearchAll(app.graph, State(app), prereqs[i..], chain + [name], allInvoked)
      {
        assert prereqs[i..][1..] == prereqs[i + 1..];
        status := FindTask(app, prereqs[i], chain + [name]);
        if status.Circular? { return; }
        if !status.Nil? { allInvoked := false; }
        i := i + 1;
      }
      explored := explored + [name];
      if allInvoked {
        fetched := fetched + {name};
        if name in app.graph.needed {
          fetchedTasks := fetchedTasks + [name];
        } else {
          app.invoked := app.invoked + {name};
          return Nil;
        }
      }
      return Fetched;
    }

    method AvailableTask(app: Application, root: Name) returns (status: Status)
      requires Closed(app.graph) && root in app.graph.prereqs
      modifies this, app`invoked
      ensures (State(app), status) == Round(app.graph, root, old(app.invoked), old(fetched))
    {
      footprint, fetchedTasks, explored := {}, [], [];
      status := FindTask(app, root, []);
    }
  }
}
