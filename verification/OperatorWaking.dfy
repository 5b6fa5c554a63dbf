/** The invoker and its workers on the real queue: workers sleep on the condition variable and are
    woken by signals, instead of taking a task whenever there is one. */
module OperatorWaking {
  import opened Sequences
  import TaskGraph
  import Tracing
  import O = Operating
  import R = OperatorRuns
  import W = Waking

  /** The call, and the hosts of the workers with the places of the tasks. */
  datatype Setting = Setting(call: O.Setting, queue: W.Setting) {
    ghost predicate Valid() {
      call.Valid() && queue.hosts != [] && W.OfOperator(queue) && call.g.prereqs.Keys <= queue.homes.Keys
    }
  }

  /** Both views of the workers and of the tasks queued. */
  datatype State = State(op: O.State, tq: W.State)

  /** `v` is the worker a signal wakes, `t` the task delivered, if one is. */
  datatype Step =
    | Ask(v: nat)
    | Collect
    | NextRound
    | Finish
    | FinishSignal(v: nat)
    | Enter(w: nat, t: W.Task, v: nat)
    | Sleep(w: nat)
    | Mark(w: nat)
    | Start(w: nat)
    | End(w: nat)
    | Output(w: nat)

  function Initial(c: Setting): State {
    State(O.Initial(c.call, |c.queue.hosts|), W.Initial(c.queue))
  }

  /** The batch that a round pushes; empty if it pushes nothing. */
  function Pushed(c: Setting, s: State): set<W.Task>
    requires TaskGraph.Closed(c.call.g) && c.call.root in c.call.g.prereqs
  {
    var (t, status) := Tracing.Round(c.call.g, c.call.root, s.op.invoked, s.op.fetched);
    if status.Circular? || status.Nil? then {} else set n | n in t.batch
  }

  /** A pass of the worker `w` through `pop` delivers the task. */
  predicate Delivers(c: Setting, s: State, w: nat) {
    && w < |s.tq.workers| && !s.tq.finished && s.tq.queue != {}
    && (W.OwnTask(c.queue, s.tq, w) || (!s.tq.workers[w].Busy? && !s.tq.workers[w].Gone? && s.tq.workers[w].n > 1))
  }

  ghost predicate Enabled(c: Setting, s: State, step: Step)
    requires c.Valid()
  {
    match step
    case Ask(v) => O.Enabled(s.op, O.Ask) && (Pushed(c, s) != {} ==> W.Enabled(c.queue, s.tq, W.Push(Pushed(c, s), v)))
    case Collect => O.Enabled(s.op, O.Collect)
    case NextRound => O.Enabled(s.op, O.NextRound)
    case Finish => O.Enabled(s.op, O.Finish) && W.Enabled(c.queue, s.tq, W.Finish)
    case FinishSignal(v) => W.Enabled(c.queue, s.tq, W.FinishSignal(v))
    case Enter(w, t, v) =>
      && W.Enabled(c.queue, s.tq, W.Enter(w, t, v))
      && (s.tq.finished ==> O.Enabled(s.op, O.Leave(w)))
      && (Delivers(c, s, w) ==> O.Enabled(s.op, O.Pop(w, t)))
    case Sleep(w) => W.Enabled(c.queue, s.tq, W.Sleep(w))
    case Mark(w) => O.Enabled(s.op, O.Mark(w))
    case Start(w) => O.Enabled(s.op, O.Start(w))
    case End(w) => O.Enabled(s.op, O.End(w))
    case Output(w) => O.Enabled(s.op, O.Output(w)) && W.Enabled(c.queue, s.tq, W.Done(w))
  }

  /** What the step is for the invoker and the workers' tasks, if anything. */
  function OfCall(c: Setting, s: State, step: Step): (r: seq<O.Step>)
    ensures |r| <= 1
  {
    match step
    case Ask(_) => [O.Ask]
    case Collect => [O.Collect]
    case NextRound => [O.NextRound]
    case Finish => [O.Finish]
    case Enter(w, t, _) => if s.tq.finished then [O.Leave(w)] else if Delivers(c, s, w) then [O.Pop(w, t)] else []
    case Mark(w) => [O.Mark(w)]
    case Start(w) => [O.Start(w)]
    case End(w) => [O.End(w)]
    case Output(w) => [O.Output(w)]
    case _ => []
  }

  /** What it is for the mutex, the condition variable and the queue. */
  function OfQueue(c: Setting, s: State, step: Step): (r: seq<W.Step>)
    requires TaskGraph.Closed(c.call.g) && c.call.root in c.call.g.prereqs
    ensures |r| <= 1
  {
    match step
    case Ask(v) => if Pushed(c, s) != {} then [W.Push(Pushed(c, s), v)] else []
    case Finish => [W.Finish]
    case FinishSignal(v) => [W.FinishSignal(v)]
    case Enter(w, t, v) => [W.Enter(w, t, v)]
    case Sleep(w) => [W.Sleep(w)]
    case Output(w) => [W.Done(w)]
    case _ => []
  }

  ghost function Apply(c: Setting, s: State, step: Step): State
    requires c.Valid() && Enabled(c, s, step)
  {
    var call, queue := OfCall(c, s, step), OfQueue(c, s, step);
    State(if call == [] then s.op else O.Apply(c.call, s.op, call[0]),
          if queue == [] then s.tq else W.Apply(c.queue, s.tq, queue[0]))
  }

  // ----- The two views agree

  ghost predicate SameWorker(a: O.Worker, b: W.Worker) {
    match b
    case Busy => !a.Idle? && !a.Gone?
    case Gone => a.Gone?
    case _ => a.Idle?
  }

  ghost predicate SameWorkers(a: seq<O.Worker>, b: seq<W.Worker>) {
    |a| == |b| && forall w | 0 <= w < |a| :: SameWorker(a[w], b[w])
  }

  ghost predicate Agree(c: Setting, s: State) {
    && |s.tq.workers| == |c.queue.hosts| && SameWorkers(s.op.workers, s.tq.workers)
    && s.op.queue == multiset(s.tq.queue) && s.op.finished == s.tq.finished
  }

  ghost predicate Inv(c: Setting, s: State)
    requires c.Valid()
  {
    && Agree(c, s) && O.Inv(c.call, s.op)
    && W.Orderly(s.tq) && W.Stirring(c.queue, s.tq) && (|c.queue.hosts| >= 2 ==> W.Waking(s.tq))
  }

  lemma InitialInv(c: Setting)
    requires c.Valid()
    ensures Inv(c, Initial(c))
  {
    O.InitialInv(c.call, |c.queue.hosts|);
    W.StartsOrderly(c.queue);
    W.StartsStirring(c.queue);
    hide O.Inv, W.Orderly, W.Stirring;
  }

  /** A signal changes nothing that the other view sees. */
  lemma WokenSame(a: seq<O.Worker>, b: seq<W.Worker>, v: nat)
    requires SameWorkers(a, b)
    ensures SameWorkers(a, W.Woken(b, v))
  {
    W.WokenIs(b, v);
  }

  /** A round pushes its batch and changes no worker. */
  lemma AskIs(c: Setting, s: State)
    requires c.Valid() && O.Inv(c.call, s.op) && O.Enabled(s.op, O.Ask)
    ensures var r := O.Apply(c.call, s.op, O.Ask);
      r.workers == s.op.workers && r.finished == s.op.finished && r.queue == s.op.queue + multiset(Pushed(c, s))
  {
    hide Tracing.Round, O.Inv;
    if O.Apply(c.call, s.op, O.Ask).invoker.Waiting? {
      BatchDistinct(c, s);
      BatchSet(Tracing.Round(c.call.g, c.call.root, s.op.invoked, s.op.fetched).0.batch);
    } else {
      var none: set<W.Task> := {};
      var (t, status) := Tracing.Round(c.call.g, c.call.root, s.op.invoked, s.op.fetched);
      assert O.Apply(c.call, s.op, O.Ask) == O.Traced(c.call, s.op);
      assert status.Circular? || status.Nil?;
      assert Pushed(c, s) == none && multiset(none) == multiset{};
      assert s.op.queue + multiset{} == s.op.queue;
    }
  }

  lemma AskAgrees(c: Setting, s: State, v: nat)
    requires c.Valid() && Inv(c, s) && Enabled(c, s, Ask(v))
    ensures Agree(c, Apply(c, s, Ask(v)))
  {
    hide O.Inv, W.Orderly, W.Stirring, W.Waking, O.Apply, Pushed, W.OwnTask, W.AtHome, W.SomeAsleep, W.SomeChecking, Delivers;
    AskIs(c, s);
    NothingQueued(c, s);
    WokenSame(s.op.workers, s.tq.workers, v);
    assert s.tq.queue + Pushed(c, s) == Pushed(c, s);
  }

  lemma NothingQueued(c: Setting, s: State)
    requires c.Valid() && O.Inv(c.call, s.op) && s.op.invoker.ToTrace? && s.op.queue == multiset(s.tq.queue)
    ensures s.op.queue == multiset{} && s.tq.queue == {}
  {
    hide O.Flags, O.Stages, O.WellLogged, O.BatchReady, O.LogReached;
    forall n ensures n !in s.tq.queue { assert multiset(s.tq.queue)[n] == 0; }
  }

  lemma BatchDistinct(c: Setting, s: State)
    requires c.Valid() && O.Inv(c.call, s.op) && O.Enabled(s.op, O.Ask) && O.Apply(c.call, s.op, O.Ask).invoker.Waiting?
    ensures Distinct(Tracing.Round(c.call.g, c.call.root, s.op.invoked, s.op.fetched).0.batch)
  {
    O.StepKeeps(c.call, s.op, O.Ask);
    hide Tracing.Round;
    assert O.Placed(O.Apply(c.call, s.op, O.Ask)) by { hide O.Flags, O.Stages, O.WellLogged; }
  }

  lemma BatchSet(batch: seq<W.Task>)
    requires Distinct(batch)
    ensures multiset(batch) == multiset(set n | n in batch)
  {
    forall n
      ensures multiset(batch)[n] == multiset(set m | m in batch)[n]
    {
      O.OnceEach(batch, n);
    }
  }

  /** One worker changes in both views. */
  lemma TurnSame(a: seq<O.Worker>, b: seq<W.Worker>, w: nat, x: O.Worker, y: W.Worker, v: nat)
    requires SameWorkers(a, b) && w < |a| && SameWorker(x, y)
    ensures SameWorkers(a[w := x], b[w := y]) && SameWorkers(a[w := x], W.Woken(b[w := y], v))
  {
    WokenSame(a[w := x], b[w := y], v);
  }

  lemma EnterAgrees(c: Setting, s: State, w: nat, t: W.Task, v: nat)
    requires c.Valid() && Agree(c, s) && Enabled(c, s, Enter(w, t, v))
    ensures Agree(c, Apply(c, s, Enter(w, t, v)))
  {
    hide W.AtHome, W.SomeAsleep, W.SomeChecking;
    var s' := Apply(c, s, Enter(w, t, v));
    var n := s.tq.workers[w].n;
    if s.tq.finished {
      TurnSame(s.op.workers, s.tq.workers, w, O.Gone, W.Gone, v);
    } else if Delivers(c, s, w) {
      TurnSame(s.op.workers, s.tq.workers, w, O.Popped(t), W.Busy, v);
      assert multiset(s.tq.queue) - multiset{t} == multiset(s.tq.queue - {t});
    } else {
      var y := if s.tq.queue == {} then W.Checking(n) else W.Checking(n + 1);
      TurnSame(s.op.workers, s.tq.workers, w, s.op.workers[w], y, v);
      assert s.op.workers[w := s.op.workers[w]] == s.op.workers;
    }
  }

  /** The steps of a worker between two passes through `pop`. */
  lemma WorkAgrees(c: Setting, s: State, step: Step)
    requires c.Valid() && Agree(c, s) && Enabled(c, s, step)
    requires step.Mark? || step.Start? || step.End? || step.Output? || step.Sleep?
    ensures Agree(c, Apply(c, s, step))
  {
    hide O.Traced, W.OwnTask, W.AtHome, W.SomeAsleep, W.SomeChecking, Delivers, Pushed, TaskGraph.Closed;
    var w := step.w;
    var s' := Apply(c, s, step);
    TurnSame(s.op.workers, s.tq.workers, w, s'.op.workers[w], s'.tq.workers[w], 0);
    assert s.op.workers[w := s'.op.workers[w]] == s'.op.workers;
    assert s.tq.workers[w := s'.tq.workers[w]] == s'.tq.workers;
  }

  lemma StepAgrees(c: Setting, s: State, step: Step)
    requires c.Valid() && Inv(c, s) && Enabled(c, s, step)
    ensures Agree(c, Apply(c, s, step))
  {
    hide O.Inv, W.Orderly, W.Stirring, W.Waking, O.Traced, W.OwnTask, Delivers;
    match step
    case Ask(v) => AskAgrees(c, s, v);
    case Enter(w, t, v) => EnterAgrees(c, s, w, t, v);
    case FinishSignal(v) => WokenSame(s.op.workers, s.tq.workers, v);
    case Collect =>
    case NextRound =>
    case Finish =>
    case _ => WorkAgrees(c, s, step);
  }

  lemma CallKeeps(c: Setting, s: State, step: Step)
    requires c.Valid() && O.Inv(c.call, s.op) && Enabled(c, s, step)
    ensures O.Inv(c.call, Apply(c, s, step).op)
  {
    hide O.Inv;
    var call := OfCall(c, s, step);
    if call != [] { O.StepKeeps(c.call, s.op, call[0]); }
  }

  lemma QueueKeeps(c: Setting, s: State, step: Step)
    requires c.Valid() && Inv(c, s) && Enabled(c, s, step)
    ensures var r := Apply(c, s, step).tq;
      W.Orderly(r) && W.Stirring(c.queue, r) && (|c.queue.hosts| >= 2 ==> W.Waking(r))
  {
    W.OperatorIsManned(c.queue);
    hide O.Inv, W.Orderly, W.Stirring, W.Waking, W.Manned, W.SleptOver, W.OfOperator;
    var queue := OfQueue(c, s, step);
    if queue != [] {
      W.OrderlyStep(c.queue, s.tq, queue[0]);
      W.StirringStep(c.queue, s.tq, queue[0]);
      if |c.queue.hosts| >= 2 { W.WakingStep(c.queue, s.tq, queue[0]); }
    }
  }

  /** The two views go on agreeing, and each keeps its invariant. */
  lemma StepKeeps(c: Setting, s: State, step: Step)
    requires c.Valid() && Inv(c, s) && Enabled(c, s, step)
    ensures Inv(c, Apply(c, s, step))
  {
    StepAgrees(c, s, step);
    CallKeeps(c, s, step);
    QueueKeeps(c, s, step);
    hide Agree, O.Inv, W.Orderly, W.Stirring, W.Waking, Apply, Enabled;
  }

  // ----- Nothing is left to do

  /** Whatever a pass through `pop` may do on the queue, the worker may do. */
  lemma EnterFree(c: Setting, s: State, w: nat, t: W.Task, v: nat)
    requires c.Valid() && Agree(c, s) && W.Enabled(c.queue, s.tq, W.Enter(w, t, v))
    ensures Enabled(c, s, Enter(w, t, v))
  {
    assert SameWorker(s.op.workers[w], s.tq.workers[w]);
    if Delivers(c, s, w) { assert t in multiset(s.tq.queue); }
  }

  /** A worker is awake: the step it can do. */
  lemma WorkerStep(c: Setting, s: State) returns (step: Step)
    requires c.Valid() && Inv(c, s) && !W.Stuck(s.tq)
    ensures Enabled(c, s, step)
  {
    hide O.Inv, W.Orderly, W.Stirring, W.Waking;
    var q := W.SomeStep(c.queue, s.tq);
    match q
    case Enter(w, t, v) =>
      EnterFree(c, s, w, t, v);
      step := Enter(w, t, v);
    case Sleep(w) => step := Sleep(w);
    case Done(w) =>
      assert SameWorker(s.op.workers[w], s.tq.workers[w]);
      step := match s.op.workers[w]
        case Popped(_) => Mark(w)
        case Marked(_) => Start(w)
        case Running(_) => End(w)
        case _ => Output(w);
  }

  /** No worker is awake: then none holds a task, and none is queued that could be taken. */
  lemma AllAsleep(c: Setting, s: State)
    requires c.Valid() && Inv(c, s) && W.Stuck(s.tq)
    ensures forall w | 0 <= w < |s.op.workers| :: s.op.workers[w].Idle? || s.op.workers[w].Gone?
    ensures !W.SomeChecking(s.tq) && (!s.op.finished ==> s.op.queue == multiset{})
  {
    W.StuckMeans(c.queue, s.tq);
    hide O.Inv, W.Orderly, W.Stirring, W.Waking;
    forall w | 0 <= w < |s.op.workers|
      ensures s.op.workers[w].Idle? || s.op.workers[w].Gone?
    {
      assert SameWorker(s.op.workers[w], s.tq.workers[w]);
    }
  }

  /** The invoker has come to the end of the call. */
  predicate CallOver(op: O.State) {
    op.invoker.CycleError? || (op.invoker.Completed? && op.finished)
  }

  lemma InvokerStep(c: Setting, s: State) returns (step: Step)
    requires c.Valid() && Inv(c, s) && W.Stuck(s.tq) && !CallOver(s.op)
    ensures Enabled(c, s, step)
  {
    AllAsleep(c, s);
    var v: nat := 0;
    if W.SomeAsleep(s.tq) { v :| v < |s.tq.workers| && s.tq.workers[v].Asleep?; }
    assert !s.op.invoker.StrayError? && (s.op.finished ==> s.op.invoker.Completed?) by { hide O.Placed, O.Flags, O.Stages, O.WellLogged; }
    match s.op.invoker
    case ToTrace =>
      AskEnabled(c, s, v);
      step := Ask(v);
    case Completed => step := Finish;
    case Waiting(_, _) => step := BarrierStep(c, s);
  }

  /** What a round pushes are tasks of the graph. */
  lemma PushedKnown(c: Setting, s: State)
    requires c.Valid() && O.Inv(c.call, s.op) && O.Enabled(s.op, O.Ask)
    ensures Pushed(c, s) <= c.call.g.prereqs.Keys
  {
    O.StepKeeps(c.call, s.op, O.Ask);
    var next := O.Apply(c.call, s.op, O.Ask);
    assert next == O.Traced(c.call, s.op);
    assert O.BatchReady(c.call, next) by { hide O.Placed, O.Flags, O.Stages, O.WellLogged; }
    hide O.Inv, Tracing.Round;
  }

  lemma AskEnabled(c: Setting, s: State, v: nat)
    requires c.Valid() && Inv(c, s) && s.op.invoker.ToTrace? && !W.SomeChecking(s.tq) && W.MayWake(s.tq, v)
    ensures Enabled(c, s, Ask(v))
  {
    assert !s.tq.finished by { hide O.Placed, O.Flags, O.Stages, O.WellLogged; }
    PushedKnown(c, s);
    hide Pushed;
  }

  /** All tasks of the batch have come back, or the next one can be collected. */
  lemma BarrierStep(c: Setting, s: State) returns (step: Step)
    requires c.Valid() && Inv(c, s) && s.op.invoker.Waiting? && !s.op.finished && s.op.queue == multiset{}
    requires forall w | 0 <= w < |s.op.workers| :: s.op.workers[w].Idle? || s.op.workers[w].Gone?
    ensures Enabled(c, s, step)
  {
    assert O.Placed(s.op) && forall w | 0 <= w < |s.op.workers| :: !s.op.workers[w].Gone? by { hide O.Flags, O.Stages, O.WellLogged; }
    hide O.Inv, O.Placed;
    var next := R.RoundStep(s.op);
    step := if next.Collect? then Collect else NextRound;
  }

  /** While the call is not over, some step can be taken, whoever sleeps: the barrier never waits
      for a task over which its workers sleep. */
  lemma NoDeadlock(c: Setting, s: State) returns (step: Step)
    requires c.Valid() && Inv(c, s) && !CallOver(s.op)
    ensures Enabled(c, s, step)
  {
    if W.Stuck(s.tq) {
      step := InvokerStep(c, s);
    } else {
      step := WorkerStep(c, s);
    }
  }

  // ----- Whole runs

  ghost predicate CanRun(c: Setting, s: State, steps: seq<Step>)
    requires c.Valid()
    decreases |steps|
  {
    steps == [] || (Enabled(c, s, steps[0]) && CanRun(c, Apply(c, s, steps[0]), steps[1..]))
  }

  ghost function After(c: Setting, s: State, steps: seq<Step>): State
    requires c.Valid() && CanRun(c, s, steps)
    decreases |steps|
  {
    if steps == [] then s else After(c, Apply(c, s, steps[0]), steps[1..])
  }

  /** Whatever the workers do on the queue, the invoker and the tasks go through a run of `Operating`. */
  lemma {:induction false} RunKeeps(c: Setting, s: State, steps: seq<Step>) returns (call: seq<O.Step>)
    requires c.Valid() && Inv(c, s) && CanRun(c, s, steps)
    ensures Inv(c, After(c, s, steps))
    ensures R.CanRun(c.call, s.op, call) && R.After(c.call, s.op, call) == After(c, s, steps).op
    decreases |steps|
  {
    hide Inv, Enabled, O.Apply, O.Enabled, W.Apply, W.Enabled, OfQueue;
    if steps == [] {
      call := [];
    } else {
      var next := Apply(c, s, steps[0]);
      StepKeeps(c, s, steps[0]);
      var rest := RunKeeps(c, next, steps[1..]);
      var first := OfCall(c, s, steps[0]);
      call := first + rest;
      if first == [] {
        assert call == rest;
      } else {
        FirstEnabled(c, s, steps[0]);
        assert call[0] == first[0] && call[1..] == rest;
      }
    }
  }

  lemma FirstEnabled(c: Setting, s: State, step: Step)
    requires c.Valid() && Enabled(c, s, step) && OfCall(c, s, step) != []
    ensures O.Enabled(s.op, OfCall(c, s, step)[0])
  {}

  // ----- Every run ends

  /** More than a push can add to the energy of the queue. */
  function Weight(c: Setting): nat {
    8 * |c.call.g.prereqs.Keys| + 3
  }

  function Times(w: nat, p: nat): nat {
    w * p
  }

  ghost function Measure(c: Setting, s: State): nat {
    Times(Weight(c), R.Potential(c.call, s.op)) + W.Energy(s.tq)
  }

  lemma PushCosts(c: W.Setting, s: W.State, ts: set<W.Task>, v: nat)
    requires W.Enabled(c, s, W.Push(ts, v))
    ensures W.Energy(W.Apply(c, s, W.Push(ts, v))) <= W.Energy(s) + 8 * |ts| + 2
  {
    hide W.TotalStrength;
    W.WokenStrength(s.workers, v);
    assert |s.queue + ts| <= |s.queue| + |ts|;
  }

  lemma PushedIsSmall(c: Setting, s: State)
    requires c.Valid() && Inv(c, s) && O.Enabled(s.op, O.Ask)
    ensures |Pushed(c, s)| <= |c.call.g.prereqs.Keys|
  {
    PushedKnown(c, s);
    SubsetSize(Pushed(c, s), c.call.g.prereqs.Keys);
  }

  lemma SubsetSize<T>(a: set<T>, b: set<T>)
    requires a <= b
    ensures |a| <= |b|
  {
    assert b == a + (b - a);
  }

  lemma {:induction false} LessWeighs(w: nat, p: nat, p': nat)
    requires p' < p
    ensures Times(w, p') + w <= Times(w, p)
    decreases p - p'
  {
    assert Times(w, p' + 1) == Times(w, p') + w;
    hide Times;
    if p' + 1 < p { LessWeighs(w, p, p' + 1); }
  }

  lemma EnergyAfter(c: Setting, s: State, step: Step)
    requires c.Valid() && Inv(c, s) && Enabled(c, s, step)
    ensures var e, e' := W.Energy(s.tq), W.Energy(Apply(c, s, step).tq);
      if OfCall(c, s, step) == [] then e' < e else e' < e + Weight(c)
  {
    hide O.Inv, W.Orderly, W.Stirring, W.Waking, W.Energy, Pushed, O.Apply;
    var queue := OfQueue(c, s, step);
    if queue != [] {
      if step.Ask? {
        PushedIsSmall(c, s);
        PushCosts(c.queue, s.tq, Pushed(c, s), step.v);
      } else {
        W.EveryStepCosts(c.queue, s.tq, queue[0]);
      }
    }
  }

  lemma StepCosts(c: Setting, s: State, step: Step)
    requires c.Valid() && Inv(c, s) && Enabled(c, s, step)
    ensures Measure(c, Apply(c, s, step)) < Measure(c, s)
  {
    var call, next := OfCall(c, s, step), Apply(c, s, step);
    EnergyAfter(c, s, step);
    hide W.Energy, R.Potential, Times;
    if call != [] {
      FirstEnabled(c, s, step);
      R.StepShrinks(c.call, s.op, call[0]);
      LessWeighs(Weight(c), R.Potential(c.call, s.op), R.Potential(c.call, next.op));
    }
  }

  /** Every run is finite, under every schedule of threads and every choice of the workers woken. */
  lemma {:induction false} RunsAreBounded(c: Setting, s: State, steps: seq<Step>)
    requires c.Valid() && Inv(c, s) && CanRun(c, s, steps)
    ensures |steps| + Measure(c, After(c, s, steps)) <= Measure(c, s)
    decreases |steps|
  {
    hide Inv, Enabled, Apply, Measure;
    if steps != [] {
      StepKeeps(c, s, steps[0]);
      StepCosts(c, s, steps[0]);
      RunsAreBounded(c, Apply(c, s, steps[0]), steps[1..]);
    }
  }

  // ----- What a finished run has done

  lemma SignalGiven(c: Setting, s: State)
    requires c.Valid() && (forall step :: !Enabled(c, s, step)) && s.tq.finished
    ensures s.tq.signalled
  {
    var v: nat := 0;
    if W.SomeAsleep(s.tq) { v :| v < |s.tq.workers| && s.tq.workers[v].Asleep?; }
    assert !Enabled(c, s, FinishSignal(v));
  }

  lemma AllGone(c: Setting, s: State)
    requires c.Valid() && Inv(c, s) && (forall step :: !Enabled(c, s, step)) && s.tq.finished && |c.queue.hosts| >= 2
    ensures forall w | 0 <= w < |s.op.workers| :: s.op.workers[w].Gone?
  {
    SignalGiven(c, s);
    if !W.Stuck(s.tq) {
      var step := WorkerStep(c, s);
      assert false;
    }
    W.StuckMeans(c.queue, s.tq);
    hide O.Inv, W.Orderly, W.Stirring, W.Waking, Enabled;
    forall w | 0 <= w < |s.op.workers|
      ensures s.op.workers[w].Gone?
    {
      assert SameWorker(s.op.workers[w], s.tq.workers[w]);
    }
  }

  /** A run that comes to a stand, although its workers sleep and are woken by signals, has failed
      if and only if a cycle is reachable; otherwise it has executed exactly the needed tasks that
      the root reaches and skipped exactly the others, and of several workers none is left. */
  lemma FinishedRun(c: Setting, steps: seq<Step>)
    requires c.Valid() && CanRun(c, Initial(c), steps) && forall step :: !Enabled(c, After(c, Initial(c), steps), step)
    ensures var s := After(c, Initial(c), steps).op;
      && (s.invoker.CycleError? <==> c.call.Cyclic())
      && (!c.call.Cyclic() ==> s.invoker.Completed? && s.finished)
      && (!c.call.Cyclic() && |c.queue.hosts| >= 2 ==> forall w | 0 <= w < |s.workers| :: s.workers[w].Gone?)
      && (!c.call.Cyclic() ==> forall x ::
            && (O.Started(x) in s.log <==> TaskGraph.Reaches(c.call.g, c.call.root, x, c.call.invoked0) && x in c.call.g.needed)
            && (O.Ended(x) in s.log <==> TaskGraph.Reaches(c.call.g, c.call.root, x, c.call.invoked0) && x in c.call.g.needed)
            && (O.Skipped(x) in s.log <==> TaskGraph.Reaches(c.call.g, c.call.root, x, c.call.invoked0) && x !in c.call.g.needed))
  {
    InitialInv(c);
    hide Inv, Enabled, TaskGraph.Reaches;
    var call := RunKeeps(c, Initial(c), steps);
    var s := After(c, Initial(c), steps);
    if !CallOver(s.op) {
      var step := NoDeadlock(c, s);
      assert false;
    }
    if s.op.invoker.Completed? {
      R.CompletedRun(c.call, |c.queue.hosts|, call);
      assert s.op.finished == s.tq.finished by { InvAgrees(c, s); }
      if |c.queue.hosts| >= 2 { AllGone(c, s); }
    } else {
      R.CyclesStopTheRun(c.call, |c.queue.hosts|, call);
    }
  }

  lemma InvAgrees(c: Setting, s: State)
    requires c.Valid() && Inv(c, s)
    ensures s.op.finished == s.tq.finished
  {}
}
