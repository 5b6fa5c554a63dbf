/** The task graph a Rakefile defines, and the walks through it that the
    scheduler's promises are about. */
module TaskGraph {

  type Name = string

  /** `prereqs` holds each task's prerequisites in order; `needed` is the answer
      `needed?` gives for each task, which the tracer reads at most once. */
  datatype Graph = Graph(prereqs: map<Name, seq<Name>>, needed: set<Name>)

  /** Every prerequisite names a task of the graph. */
  ghost predicate Closed(g: Graph) {
    forall n, p :: n in g.prereqs && p in g.prereqs[n] ==> p in g.prereqs
  }

  function Prerequisites(g: Graph, n: Name): seq<Name> {
    if n in g.prereqs then g.prereqs[n] else []
  }

  /** `w` follows prerequisites from task to task without entering `stop`. */
  ghost predicate Walk(g: Graph, w: seq<Name>, stop: set<Name>) {
    && (forall i :: 0 <= i < |w| ==> w[i] in g.prereqs && w[i] !in stop)
    && (forall i :: 0 <= i < |w| - 1 ==> w[i + 1] in g.prereqs[w[i]])
  }

  /** `b` is reached from `a` by a walk outside `stop`. */
  ghost predicate Reaches(g: Graph, a: Name, b: Name, stop: set<Name>) {
    exists w :: Walk(g, w, stop) && 0 < |w| && w[0] == a && w[|w| - 1] == b
  }

  ghost predicate IsLasso(g: Graph, w: seq<Name>, root: Name, stop: set<Name>) {
    Walk(g, w, stop) && 1 < |w| && w[0] == root && w[|w| - 1] in w[..|w| - 1]
  }

  /** Some walk from `root` outside `stop` comes back to a task it has already
      visited: a cycle is reachable. */
  ghost predicate CycleReachable(g: Graph, root: Name, stop: set<Name>) {
    exists w :: IsLasso(g, w, root, stop)
  }
}
