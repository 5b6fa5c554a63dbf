/** Whole runs of one `Operator#invoke`: safety of every interleaving, progress, and what a
    finished run has done. */
module OperatorRuns {
  import opened Sequences
  import opened TaskGraph
  import opened Tracing
  import opened Operating

  // ----- Whole runs

  /** `steps` can be taken one after the other from `s`. */
  ghost predicate CanRun(c: Setting, s: State, steps: seq<Step>)
    requires c.Valid()
    decreases |steps|
  {
    steps == [] || (Enabled(s, steps[0]) && CanRun(c, Apply(c, s, steps[0]), steps[1..]))
  }

  ghost function After(c: Setting, s: State, steps: seq<Step>): State
    requires c.Valid() && CanRun(c, s, steps)
    decreases |steps|
  {
    if steps == [] then s else After(c, Apply(c, s, steps[0]), steps[1..])
  }

  lemma {:induction false} RunKeeps(c: Setting, s: State, steps: seq<Step>)
    requires c.Valid() && Operating.Inv(c, s) && CanRun(c, s, steps)
    ensures Operating.Inv(c, After(c, s, steps))
    decreases |steps|
  {
    if steps != [] {
      StepKeeps(c, s, steps[0]);
      RunKeeps(c, Apply(c, s, steps[0]), steps[1..]);
    }
  }

  lemma {:induction false} SameWorkers(c: Setting, s: State, steps: seq<Step>)
    requires c.Valid() && CanRun(c, s, steps)
    ensures |After(c, s, steps).workers| == |s.workers|
    decreases |steps|
  {
    if steps != [] { SameWorkers(c, Apply(c, s, steps[0]), steps[1..]); }
  }

  /** Safety of every interleaving of the invoker and `n` workers: a task starts
      only when needed, at most once, and only after each of its prerequisites
      ended, was found not needed, or was invoked before the call; a task the
      tracer skips is never started; and the invoker never pops a task that is
      not in its batch. */
  lemma EveryRunIsSafe(c: Setting, n: nat, steps: seq<Step>)
    requires c.Valid() && CanRun(c, Initial(c, n), steps)
    ensures var log := After(c, Initial(c, n), steps).log;
      && (forall i :: 0 <= i < |log| && log[i].Started? ==>
            forall p :: p in Prerequisites(c.g, log[i].task) ==>
              p in c.invoked0 || Ended(p) in log[..i] || Skipped(p) in log[..i])
      && (forall i, j :: 0 <= i < j < |log| ==> log[i] != log[j])
      && (forall i :: 0 <= i < |log| && log[i].Ended? ==> Started(log[i].task) in log[..i])
      && (forall x :: Started(x) in log ==> x in c.g.needed && x !in c.invoked0)
      && (forall x :: Skipped(x) in log ==> x !in c.g.needed && x !in c.invoked0)
    ensures !After(c, Initial(c, n), steps).invoker.StrayError?
  {
    InitialInv(c, n);
    RunKeeps(c, Initial(c, n), steps);
    var log := After(c, Initial(c, n), steps).log;
    forall i | 0 <= i < |log|
      ensures Admissible(c, log[..i], log[i])
    {}
    forall i, j | 0 <= i < j < |log|
      ensures log[i] != log[j]
    {
      assert log[i] == log[..j][i];
    }
  }

  /** The call fails with the circular-dependency error only if the root
      reaches a cycle, and then no task was ever started. */
  lemma CyclesStopTheRun(c: Setting, n: nat, steps: seq<Step>)
    requires c.Valid() && CanRun(c, Initial(c, n), steps)
    ensures var s := After(c, Initial(c, n), steps);
      && (s.invoker.CycleError? ==>
            c.Cyclic() && IsLasso(c.g, s.invoker.chain + [s.invoker.again], c.root, c.invoked0))
      && (c.Cyclic() ==> s.log == [] && (s.invoker.ToTrace? || s.invoker.CycleError?))
  {
    InitialInv(c, n);
    RunKeeps(c, Initial(c, n), steps);
  }

  // ----- Progress

  ghost predicate Over(s: State) {
    s.invoker.CycleError? ||
    (s.invoker.Completed? && s.finished && forall w :: 0 <= w < |s.workers| ==> s.workers[w].Gone?)
  }

  lemma {:induction false} BusyWorker(ws: seq<Worker>, n: Name) returns (w: nat)
    requires InHands(ws, n) > 0
    ensures w < |ws| && Holds(ws[w], n) == 1
  {
    if Holds(ws[0], n) == 1 { w := 0; } else {
      var v := BusyWorker(ws[1..], n);
      w := v + 1;
    }
  }

  /** While the call is not over and there is a worker, some step can be taken:
      the barrier never waits for a task nobody will deliver. */
  lemma NoDeadlock(c: Setting, s: State) returns (step: Step)
    requires c.Valid() && Operating.Inv(c, s) && 0 < |s.workers| && !Over(s)
    ensures Enabled(s, step)
  {
    match s.invoker
    case ToTrace => step := Ask;
    case Completed =>
      if !s.finished {
        step := Finish;
      } else {
        var w :| 0 <= w < |s.workers| && !s.workers[w].Gone?;
        step := Leave(w);
      }
    case Waiting(batch, collected) => step := RoundStep(s);
  }

  /** The step a busy worker takes next. */
  function Advance(w: Worker, i: nat): Step {
    match w
    case Running(_) => End(i)
    case Marked(_) => Start(i)
    case Executed(_) => Output(i)
    case _ => Mark(i)
  }

  lemma RoundStep(s: State) returns (step: Step)
    requires s.invoker.Waiting? && Placed(s) && 0 < |s.workers| && !s.finished
    requires forall w :: 0 <= w < |s.workers| ==> !s.workers[w].Gone?
    ensures Enabled(s, step)
  {
    var batch, collected := s.invoker.batch, s.invoker.collected;
    CollectedWithin(s);
    if |collected| == |batch| { return NextRound; }
    if s.output != [] { return Collect; }
    var n := Missing(batch, collected);
    assert multiset(batch)[n] == Places(s, n);
    if InHands(s.workers, n) > 0 {
      var w := BusyWorker(s.workers, n);
      step := Advance(s.workers[w], w);
    } else if s.workers[0].Idle? {
      step := Pop(0, n);
    } else {
      step := Advance(s.workers[0], 0);
    }
  }

  lemma CollectedWithin(s: State)
    requires s.invoker.Waiting? && Placed(s)
    ensures |s.invoker.collected| <= |s.invoker.batch|
    ensures multiset(s.invoker.collected) <= multiset(s.invoker.batch)
  {
    var all, got := multiset(s.invoker.batch), multiset(s.invoker.collected);
    assert forall m :: all[m] == Places(s, m) ==> got[m] <= all[m];
    assert |all - got| == |all| - |got|;
  }

  lemma Missing(batch: seq<Name>, collected: seq<Name>) returns (n: Name)
    requires |collected| < |batch| && multiset(collected) <= multiset(batch)
    ensures multiset(collected)[n] < multiset(batch)[n]
  {
    var rest := multiset(batch) - multiset(collected);
    assert |rest| == |batch| - |collected|;
    n :| n in rest;
  }

  function Load(w: Worker): nat {
    match w
    case Idle => 1
    case Popped(_) => 7
    case Marked(_) => 6
    case Running(_) => 5
    case Executed(_) => 4
    case Gone => 0
  }

  function Loads(ws: seq<Worker>): nat {
    if ws == [] then 0 else Load(ws[0]) + Loads(ws[1..])
  }

  lemma {:induction false} LoadsUpdate(ws: seq<Worker>, i: nat, w: Worker)
    requires i < |ws|
    ensures Loads(ws[i := w]) + Load(ws[i]) == Loads(ws) + Load(w)
  {
    if i == 0 {
      assert ws[0 := w][1..] == ws[1..];
    } else {
      LoadsUpdate(ws[1..], i - 1, w);
      assert ws[i := w][1..] == ws[1..][i - 1 := w];
    }
  }

  function Phase(s: State): nat {
    match s.invoker
    case Waiting(_, _) => 3
    case ToTrace => 2
    case Completed => if s.finished then 0 else 1
    case _ => 0
  }

  function Pending(s: State): nat {
    7 * |s.queue| + Loads(s.workers) + 2 * |s.output| + Phase(s)
  }

  /** How many steps are left at most. */
  ghost function Potential(c: Setting, s: State): nat {
    9 * |c.g.prereqs.Keys - s.fetched| + Pending(s)
  }

  lemma {:induction false} DistinctSize<T>(s: seq<T>, in_: set<T>)
    requires Distinct(s) && forall x :: x in s ==> x in in_
    ensures |s| <= |in_|
  {
    if s != [] {
      assert s[0] !in s[1..];
      DistinctSize(s[1..], in_ - {s[0]});
    }
  }

  lemma FetchedSize(c: Setting, fetched: set<Name>, fetched': set<Name>, batch: seq<Name>)
    requires fetched <= fetched' && Distinct(batch)
    requires forall x :: x in batch ==> x in c.g.prereqs && x in fetched' && x !in fetched
    ensures |c.g.prereqs.Keys - fetched'| + |batch| <= |c.g.prereqs.Keys - fetched|
  {
    var before, after := c.g.prereqs.Keys - fetched, c.g.prereqs.Keys - fetched';
    assert before == after + (before - after);
    DistinctSize(batch, before - after);
  }

  /** Whatever a round answers, it takes the tasks it returns out of those
      still to be fetched, and it returns some unless it ends the loop. */
  lemma RoundFetches(c: Setting, s: State)
    requires c.Valid() && Operating.Inv(c, s) && s.invoker.ToTrace?
    ensures var (t, status) := Round(c.g, c.root, s.invoked, s.fetched);
      && |c.g.prereqs.Keys - t.fetched| <= |c.g.prereqs.Keys - s.fetched|
      && (status.Traced? || status.Fetched? ==>
            0 < |t.batch| && |c.g.prereqs.Keys - t.fetched| + |t.batch| <= |c.g.prereqs.Keys - s.fetched|)
  {
    var (t, status) := Round(c.g, c.root, s.invoked, s.fetched);
    FetchedSize(c, s.fetched, t.fetched, []);
    if !status.Circular? {
      BetweenRounds(c, s);
      RaisesIffCycle(c.g, c.root, s.invoked, s.fetched);
      RoundProgresses(c.g, c.root, s.invoked, s.fetched);
      RoundSearches(c.g, c.root, s.invoked, s.fetched);
      FetchedSize(c, s.fetched, t.fetched, t.batch);
    }
  }

  lemma TraceShrinks(c: Setting, s: State, t: Trace, status: Status)
    requires c.Valid() && s.invoker.ToTrace? && s.queue == multiset{}
    requires (t, status) == Round(c.g, c.root, s.invoked, s.fetched)
    requires |c.g.prereqs.Keys - t.fetched| <= |c.g.prereqs.Keys - s.fetched|
    requires status.Traced? || status.Fetched? ==>
               0 < |t.batch| && |c.g.prereqs.Keys - t.fetched| + |t.batch| <= |c.g.prereqs.Keys - s.fetched|
    ensures Potential(c, Apply(c, s, Ask)) < Potential(c, s)
  {
    var s' := Apply(c, s, Ask);
    if s'.invoker.Waiting? {
      assert |s'.queue| == |t.batch|;
    }
  }

  lemma WorkShrinks(c: Setting, s: State, step: Step)
    requires c.Valid() && Enabled(s, step) && !step.Ask?
    requires step.Collect? ==> s.output[0] in s.invoker.batch
    ensures Pending(Apply(c, s, step)) < Pending(s)
    ensures Apply(c, s, step).fetched == s.fetched
  {
    match step
    case Pop(w, n) => LoadsUpdate(s.workers, w, Popped(n));
    case Mark(w) => LoadsUpdate(s.workers, w, Marked(s.workers[w].task));
    case Start(w) => LoadsUpdate(s.workers, w, Running(s.workers[w].task));
    case End(w) => LoadsUpdate(s.workers, w, Executed(s.workers[w].task));
    case Output(w) => LoadsUpdate(s.workers, w, Idle);
    case Leave(w) => LoadsUpdate(s.workers, w, Gone);
    case _ =>
  }

  lemma StepShrinks(c: Setting, s: State, step: Step)
    requires c.Valid() && Operating.Inv(c, s) && Enabled(s, step)
    ensures Potential(c, Apply(c, s, step)) < Potential(c, s)
  {
    if step.Ask? {
      RoundFetches(c, s);
      var (t, status) := Round(c.g, c.root, s.invoked, s.fetched);
      TraceShrinks(c, s, t, status);
    } else {
      if step.Collect? { assert multiset(s.invoker.batch)[s.output[0]] == Places(s, s.output[0]); }
      WorkShrinks(c, s, step);
    }
  }

  /** Every run is finite, within a bound linear in tasks and workers; so the
      `invoke` loop ends under every schedule. */
  lemma {:induction false} RunsAreBounded(c: Setting, s: State, steps: seq<Step>)
    requires c.Valid() && Operating.Inv(c, s) && CanRun(c, s, steps)
    ensures |steps| + Potential(c, After(c, s, steps)) <= Potential(c, s)
    decreases |steps|
  {
    if steps != [] {
      StepKeeps(c, s, steps[0]);
      StepShrinks(c, s, steps[0]);
      RunsAreBounded(c, Apply(c, s, steps[0]), steps[1..]);
    }
  }

  // ----- What a finished call has done

  lemma {:induction false} DoneAlong(c: Setting, log: seq<Event>, w: seq<Name>, k: nat)
    requires c.Valid() && WellLogged(c, log) && Walk(c.g, w, c.invoked0)
    requires k < |w| && IsDone(c, log, w[0])
    ensures IsDone(c, log, w[k])
  {
    if k > 0 {
      DoneAlong(c, log, w, k - 1);
      var n := w[k - 1];
      if Ended(n) in log { EndedStarted(c, log, n); }
      var e := if Skipped(n) in log then Skipped(n) else Started(n);
      var i :| 0 <= i < |log| && log[i] == e;
      assert Admissible(c, log[..i], log[i]);
      assert IsDone(c, log[..i], w[k]);
    }
  }

  /** A call that has completed has executed exactly the needed tasks the root reaches, and
      skipped exactly the others it reaches. */
  lemma CompletedRun(c: Setting, n: nat, steps: seq<Step>)
    requires c.Valid() && CanRun(c, Initial(c, n), steps) && After(c, Initial(c, n), steps).invoker.Completed?
    ensures !c.Cyclic()
    ensures var log := After(c, Initial(c, n), steps).log; forall x ::
      && (Started(x) in log <==> Reaches(c.g, c.root, x, c.invoked0) && x in c.g.needed)
      && (Ended(x) in log <==> Reaches(c.g, c.root, x, c.invoked0) && x in c.g.needed)
      && (Skipped(x) in log <==> Reaches(c.g, c.root, x, c.invoked0) && x !in c.g.needed)
  {
    InitialInv(c, n);
    RunKeeps(c, Initial(c, n), steps);
    EveryRunIsSafe(c, n, steps);
    var s := After(c, Initial(c, n), steps);
    forall x
      ensures Ended(x) in s.log || Skipped(x) in s.log <==> Reaches(c.g, c.root, x, c.invoked0)
      ensures Started(x) in s.log <==> Ended(x) in s.log
    {
      if Ended(x) in s.log { EndedStarted(c, s.log, x); }
      if Reaches(c.g, c.root, x, c.invoked0) {
        var w :| Walk(c.g, w, c.invoked0) && 0 < |w| && w[0] == c.root && w[|w| - 1] == x;
        DoneAlong(c, s.log, w, |w| - 1);
      }
    }
  }

  /** When no further step is possible, the call has failed if and only if a
      cycle is reachable; otherwise it has executed exactly the needed tasks the
      root reaches, and skipped exactly the others it reaches. */
  lemma FinishedRun(c: Setting, n: nat, steps: seq<Step>)
    requires c.Valid() && 0 < n && CanRun(c, Initial(c, n), steps)
    requires forall step :: !Enabled(After(c, Initial(c, n), steps), step)
    ensures var s := After(c, Initial(c, n), steps);
      && (s.invoker.CycleError? <==> c.Cyclic())
      && (!c.Cyclic() ==> s.invoker.Completed? && s.finished)
      && (!c.Cyclic() ==> forall x :: Started(x) in s.log <==> Reaches(c.g, c.root, x, c.invoked0) && x in c.g.needed)
      && (!c.Cyclic() ==> forall x :: Ended(x) in s.log <==> Reaches(c.g, c.root, x, c.invoked0) && x in c.g.needed)
      && (!c.Cyclic() ==> forall x :: Skipped(x) in s.log <==> Reaches(c.g, c.root, x, c.invoked0) && x !in c.g.needed)
  {
    InitialInv(c, n);
    RunKeeps(c, Initial(c, n), steps);
    var s := After(c, Initial(c, n), steps);
    SameWorkers(c, Initial(c, n), steps);
    if !Over(s) {
      var step := NoDeadlock(c, s);
      assert false;
    }
    if s.invoker.Completed? { CompletedRun(c, n, steps); }
  }
}
