/** `TaskQueue` with its mutex and condition variable: who sleeps, who is woken, and what gets
    lost. A pass through the loop of `pop` runs under the mutex up to `@cv.wait`; `finish` stores
    its flag and signals without taking the mutex. */
module Waking {
  import TaskGraph

  type Host = nat
  type Task = TaskGraph.Name

  /** `n` counts the passes of a call of `pop` that found tasks but none for its host. */
  datatype Worker =
    | Calling(n: nat)    // at the start of the loop, wants the mutex
    | Checking(n: nat)   // found nothing, holds the mutex, is about to wait
    | Asleep(n: nat)
    | Busy
    | Gone

  /** The host of each worker, and the hosts at which each task that is ever pushed may sit. */
  datatype Setting = Setting(hosts: seq<Host>, homes: map<Task, set<Host>>)

  datatype State = State(workers: seq<Worker>, queue: set<Task>, finished: bool, signalled: bool)

  /** `v` is the worker a signal wakes, if one is asleep, and `t` the task delivered, if one is. */
  datatype Step =
    | Enter(w: nat, t: Task, v: nat)
    | Sleep(w: nat)
    | Done(w: nat)
    | Push(ts: set<Task>, v: nat)
    | Finish
    | FinishSignal(v: nat)

  function Initial(c: Setting): (s: State)
    ensures |s.workers| == |c.hosts|
  {
    State(seq(|c.hosts|, _ => Calling(0)), {}, false, false)
  }

  predicate SomeAsleep(s: State) {
    exists w :: 0 <= w < |s.workers| && s.workers[w].Asleep?
  }

  predicate SomeChecking(s: State) {
    exists w :: 0 <= w < |s.workers| && s.workers[w].Checking?
  }

  /** A worker that goes on by itself. */
  predicate SomeAwake(s: State) {
    exists w :: 0 <= w < |s.workers| && (s.workers[w].Calling? || s.workers[w].Busy?)
  }

  /** A signal wakes a worker that is asleep, if there is one. */
  predicate MayWake(s: State, v: nat) {
    SomeAsleep(s) ==> v < |s.workers| && s.workers[v].Asleep?
  }

  function Woken(ws: seq<Worker>, v: nat): (r: seq<Worker>)
    ensures |r| == |ws|
  {
    if v < |ws| && ws[v].Asleep? then ws[v := Calling(ws[v].n)] else ws
  }

  predicate AtHome(c: Setting, w: nat, t: Task) {
    w < |c.hosts| && t in c.homes && c.hosts[w] in c.homes[t]
  }

  /** `@q.pop(host)` has something to deliver. */
  predicate OwnTask(c: Setting, s: State, w: nat) {
    exists t :: t in s.queue && AtHome(c, w, t)
  }

  predicate Enabled(c: Setting, s: State, step: Step) {
    match step
    case Enter(w, t, v) =>
      && w < |s.workers| && s.workers[w].Calling? && !SomeChecking(s) && MayWake(s, v)
      && (OwnTask(c, s, w) ==> t in s.queue && AtHome(c, w, t))
      && (s.queue != {} && s.workers[w].n > 1 ==> t in s.queue)
    case Sleep(w) => w < |s.workers| && s.workers[w].Checking?
    case Done(w) => w < |s.workers| && s.workers[w].Busy?
    case Push(ts, v) => !SomeChecking(s) && MayWake(s, v) && ts <= c.homes.Keys && !s.finished
    case Finish => !s.finished
    case FinishSignal(v) => s.finished && !s.signalled && MayWake(s, v)
  }

  function Apply(c: Setting, s: State, step: Step): (r: State)
    requires Enabled(c, s, step)
    ensures |r.workers| == |s.workers|
  {
    match step
    case Enter(w, t, v) =>
      var n := s.workers[w].n;
      if s.finished then s.(workers := Woken(s.workers[w := Gone], v))
      else if s.queue == {} then s.(workers := s.workers[w := Checking(n)])
      else if OwnTask(c, s, w) || n > 1 then s.(workers := Woken(s.workers[w := Busy], v), queue := s.queue - {t})
      else s.(workers := Woken(s.workers[w := Checking(n + 1)], v))
    case Sleep(w) => s.(workers := s.workers[w := Asleep(s.workers[w].n)])
    case Done(w) => s.(workers := s.workers[w := Calling(0)])
    case Push(ts, v) => s.(workers := Woken(s.workers, v), queue := s.queue + ts)
    case Finish => s.(finished := true)
    case FinishSignal(v) => s.(workers := Woken(s.workers, v), signalled := true)
  }

  /** A run: every step was enabled. */
  predicate Legal(c: Setting, steps: seq<Step>)
    decreases |steps|, 0
  {
    steps == [] || (Legal(c, steps[..|steps| - 1]) && Enabled(c, After(c, steps[..|steps| - 1]), steps[|steps| - 1]))
  }

  function After(c: Setting, steps: seq<Step>): (s: State)
    requires Legal(c, steps)
    ensures |s.workers| == |c.hosts|
    decreases |steps|, 1
  {
    if steps == [] then Initial(c) else Apply(c, After(c, steps[..|steps| - 1]), steps[|steps| - 1])
  }

  lemma OneMore(c: Setting, steps: seq<Step>, step: Step)
    requires Legal(c, steps) && Enabled(c, After(c, steps), step)
    ensures Legal(c, steps + [step]) && After(c, steps + [step]) == Apply(c, After(c, steps), step)
  {
    var more := steps + [step];
    assert more[..|more| - 1] == steps;
  }

  /** No worker can do anything: all are asleep or gone. */
  predicate Stuck(s: State) {
    forall w | 0 <= w < |s.workers| :: s.workers[w].Asleep? || s.workers[w].Gone?
  }

  /** In a state that is not stuck, some worker can do a step. */
  lemma SomeStep(c: Setting, s: State) returns (step: Step)
    requires !Stuck(s)
    ensures Enabled(c, s, step) && (step.Enter? || step.Sleep? || step.Done?)
  {
    var w :| 0 <= w < |s.workers| && !s.workers[w].Asleep? && !s.workers[w].Gone?;
    if SomeChecking(s) {
      var x :| 0 <= x < |s.workers| && s.workers[x].Checking?;
      return Sleep(x);
    }
    if s.workers[w].Busy? { return Done(w); }
    var v: nat := 0;
    if SomeAsleep(s) { v :| v < |s.workers| && s.workers[v].Asleep?; }
    var t: Task := "";
    if OwnTask(c, s, w) {
      t :| t in s.queue && AtHome(c, w, t);
    } else if s.queue != {} {
      t :| t in s.queue;
    }
    return Enter(w, t, v);
  }

  // ----- What every run keeps

  /** The mutex has one holder, workers go only after `finish`, and while one holds the mutex in
      vain none has gone. */
  ghost predicate Orderly(s: State) {
    && (forall w, x | 0 <= w < |s.workers| && 0 <= x < |s.workers| && s.workers[w].Checking? && s.workers[x].Checking? :: w == x)
    && (forall w | 0 <= w < |s.workers| && s.workers[w].Gone? :: s.finished && !SomeChecking(s))
    && (forall w | 0 <= w < |s.workers| && !s.workers[w].Busy? && !s.workers[w].Gone? :: s.workers[w].n <= 2)
    && (s.signalled ==> s.finished)
  }

  /** A signal turns at most one worker, and that from asleep to calling. */
  lemma WokenIs(ws: seq<Worker>, v: nat)
    ensures forall x | 0 <= x < |ws| :: Woken(ws, v)[x] == ws[x] || (ws[x].Asleep? && Woken(ws, v)[x] == Calling(ws[x].n))
  {}

  lemma OrderlyWoken(s: State, v: nat, s': State)
    requires Orderly(s) && s'.workers == Woken(s.workers, v) && s'.finished == s.finished && (s'.signalled ==> s'.finished)
    ensures Orderly(s')
  {
    if v < |s.workers| && s.workers[v].Asleep? {
      assert SomeChecking(s') ==> SomeChecking(s) by {
        if SomeChecking(s') {
          var x :| 0 <= x < |s'.workers| && s'.workers[x].Checking?;
          assert s.workers[x].Checking?;
        }
      }
    } else {
      assert SomeChecking(s') <==> SomeChecking(s);
    }
  }

  /** A worker turns, when no other holds the mutex in vain. */
  lemma OrderlyTurn(s: State, w: nat, x: Worker, s': State)
    requires Orderly(s) && w < |s.workers| && s'.workers == s.workers[w := x]
    requires s'.finished == s.finished && s'.signalled == s.signalled
    requires x.Checking? || x.Gone? ==> !SomeChecking(s)
    requires (x.Gone? ==> s.finished) && (x.Checking? ==> !s.finished) && (!x.Busy? && !x.Gone? ==> x.n <= 2)
    ensures Orderly(s')
  {
    if SomeChecking(s') {
      var y :| 0 <= y < |s'.workers| && s'.workers[y].Checking?;
      assert y != w ==> s.workers[y].Checking?;
    }
  }

  lemma OrderlyStep(c: Setting, s: State, step: Step)
    requires Orderly(s) && Enabled(c, s, step)
    ensures Orderly(Apply(c, s, step))
  {
    var s' := Apply(c, s, step);
    match step
    case Enter(w, t, v) => OrderlyEnter(c, s, w, t, v);
    case Sleep(w) => OrderlyTurn(s, w, s'.workers[w], s');
    case Done(w) => OrderlyTurn(s, w, s'.workers[w], s');
    case Push(ts, v) => OrderlyWoken(s, v, s');
    case Finish =>
    case FinishSignal(v) => OrderlyWoken(s, v, s');
  }

  lemma OrderlyEnter(c: Setting, s: State, w: nat, t: Task, v: nat)
    requires Orderly(s) && Enabled(c, s, Enter(w, t, v))
    ensures Orderly(Apply(c, s, Enter(w, t, v)))
  {
    var n := s.workers[w].n;
    var x := if s.finished then Gone else if s.queue == {} then Checking(n)
             else if OwnTask(c, s, w) || n > 1 then Busy else Checking(n + 1);
    var turned, s' := s.(workers := s.workers[w := x]), Apply(c, s, Enter(w, t, v));
    OrderlyTurn(s, w, x, turned);
    hide Orderly;
    if s.finished || s.queue != {} { OrderlyWoken(turned, v, s'); } else { assert s' == turned; }
  }

  lemma {:induction false} RunsOrderly(c: Setting, steps: seq<Step>)
    requires Legal(c, steps)
    ensures Orderly(After(c, steps))
  {
    hide Orderly, Apply;
    if steps == [] {
      assert Orderly(Initial(c)) by { StartsOrderly(c); }
    } else {
      RunsOrderly(c, steps[..|steps| - 1]);
      OrderlyStep(c, After(c, steps[..|steps| - 1]), steps[|steps| - 1]);
    }
  }

  lemma StartsOrderly(c: Setting)
    ensures Orderly(Initial(c))
  {}

  // ----- No task is slept over

  /** Two workers, or every task at home with the only one. */
  predicate Manned(c: Setting) {
    |c.hosts| >= 2 || forall t | t in c.homes :: AtHome(c, 0, t)
  }

  /** While tasks are queued, some worker goes on by itself. */
  ghost predicate Stirring(c: Setting, s: State) {
    s.queue <= c.homes.Keys && (s.queue != {} && !s.finished ==> SomeAwake(s))
  }

  lemma AwakeAfterSignal(ws: seq<Worker>, v: nat, s: State)
    requires s.workers == Woken(ws, v) && (exists x :: 0 <= x < |ws| && (ws[x].Calling? || ws[x].Busy? || (x == v && ws[x].Asleep?)))
    ensures SomeAwake(s)
  {
    var x :| 0 <= x < |ws| && (ws[x].Calling? || ws[x].Busy? || (x == v && ws[x].Asleep?));
    WokenIs(ws, v);
    assert s.workers[x].Calling? || s.workers[x].Busy?;
  }

  lemma StirringStep(c: Setting, s: State, step: Step)
    requires Orderly(s) && Stirring(c, s) && Manned(c) && |s.workers| == |c.hosts| && Enabled(c, s, step)
    ensures Stirring(c, Apply(c, s, step))
  {
    var s' := Apply(c, s, step);
    if s'.queue != {} && !s'.finished {
      match step
      case Enter(w, t, v) =>
        var ws := s.workers[w := s'.workers[w]];
        if s'.workers[w].Busy? {
          assert SomeAwake(s');
        } else {
          OtherWorker(c, s, w, v);
          var x :| 0 <= x < |ws| && x != w && (ws[x].Calling? || ws[x].Busy? || (x == v && ws[x].Asleep?));
          AwakeAfterSignal(ws, v, s');
        }
      case Sleep(w) =>
        var x :| 0 <= x < |s.workers| && (s.workers[x].Calling? || s.workers[x].Busy?);
        assert s'.workers[x] == s.workers[x];
      case Done(w) => assert s'.workers[w].Calling?;
      case Push(ts, v) =>
        SomeWorker(c, s, ts);
        assert !s.workers[0].Checking? && !s.workers[0].Gone?;
        if SomeAsleep(s) {
          AwakeAfterSignal(s.workers, v, s');
        } else {
          assert s.workers[0].Calling? || s.workers[0].Busy?;
          AwakeAfterSignal(s.workers, v, s');
        }
      case _ =>
    }
  }

  /** A worker that passes over the queued tasks leaves another one awake. */
  lemma OtherWorker(c: Setting, s: State, w: nat, v: nat)
    requires Orderly(s) && Manned(c) && |s.workers| == |c.hosts| && s.queue <= c.homes.Keys
    requires w < |s.workers| && s.workers[w].Calling? && !SomeChecking(s) && MayWake(s, v) && !s.finished
    requires s.queue != {} && !OwnTask(c, s, w)
    ensures exists x :: 0 <= x < |s.workers| && x != w
                        && (s.workers[x].Calling? || s.workers[x].Busy? || (x == v && s.workers[x].Asleep?))
  {
    var t :| t in s.queue;
    assert !AtHome(c, w, t);
    var x := if w == 0 then 1 else 0;
    assert x < |s.workers| && !s.workers[x].Checking? && !s.workers[x].Gone?;
    if s.workers[x].Asleep? { assert v != w && s.workers[v].Asleep?; }
  }

  lemma SomeWorker(c: Setting, s: State, ts: set<Task>)
    requires Manned(c) && |s.workers| == |c.hosts| && s.queue + ts != {} && s.queue + ts <= c.homes.Keys
    ensures s.workers != []
  {
    var t :| t in s.queue + ts;
    if |c.hosts| < 2 { assert AtHome(c, 0, t); }
  }

  lemma {:induction false} RunsStirring(c: Setting, steps: seq<Step>)
    requires Legal(c, steps) && Manned(c)
    ensures Stirring(c, After(c, steps))
  {
    hide Stirring, Apply, Orderly;
    if steps == [] {
      assert Stirring(c, Initial(c)) by { StartsStirring(c); }
    } else {
      RunsStirring(c, steps[..|steps| - 1]);
      RunsOrderly(c, steps[..|steps| - 1]);
      StirringStep(c, After(c, steps[..|steps| - 1]), steps[|steps| - 1]);
    }
  }

  lemma StartsStirring(c: Setting)
    ensures Stirring(c, Initial(c))
  {}

  /** When nobody can go on, no task is queued before `finish`, and nobody is left after it. */
  lemma StuckMeans(c: Setting, s: State)
    ensures Stuck(s) && Stirring(c, s) && !s.finished ==> s.queue == {}
    ensures Stuck(s) && Waking(s) && s.signalled ==> forall w | 0 <= w < |s.workers| :: s.workers[w].Gone?
  {}

  /** A run that has come to a stand before `finish` while tasks are queued. */
  ghost predicate SleptOver(c: Setting, steps: seq<Step>) {
    Legal(c, steps) && Stuck(After(c, steps)) && !After(c, steps).finished && After(c, steps).queue != {}
  }

  /** The only worker passes over a task that is not at home with it, signals nobody, and sleeps. */
  lemma LoneWorker(c: Setting, t: Task) returns (steps: seq<Step>)
    requires |c.hosts| < 2 && t in c.homes && !AtHome(c, 0, t)
    ensures SleptOver(c, steps)
  {
    var s0, push: Step := Initial(c), Push({t}, 0);
    OneMore(c, [], push);
    var s1 := s0.(queue := {t});
    assert Apply(c, s0, push) == s1;
    if |c.hosts| == 0 { return [] + [push]; }
    var enter: Step := Enter(0, t, 0);
    assert s0.workers == [Calling(0)] && !OwnTask(c, s1, 0);
    OneMore(c, [] + [push], enter);
    var s2 := s1.(workers := [Checking(1)]);
    assert Apply(c, s1, enter) == s2;
    OneMore(c, [] + [push] + [enter], Sleep(0));
    assert Apply(c, s2, Sleep(0)) == s2.(workers := [Asleep(1)]);
    return [] + [push] + [enter] + [Sleep(0)];
  }

  /** No run ever sleeps over a queued task, exactly when there are two workers or more, or all
      tasks are at home with the only one. */
  lemma NoTaskSleptOver(c: Setting)
    ensures (forall steps :: !SleptOver(c, steps)) <==> Manned(c)
  {
    if Manned(c) {
      forall steps
        ensures !SleptOver(c, steps)
      {
        if Legal(c, steps) {
          RunsStirring(c, steps);
          StuckMeans(c, After(c, steps));
        }
      }
    } else {
      var t :| t in c.homes && !AtHome(c, 0, t);
      var steps := LoneWorker(c, t);
    }
  }

  /** As `Operator` sets it up: a worker for each host of the queue, and a task sits at such hosts,
      at one at least. */
  ghost predicate OfOperator(c: Setting) {
    forall t | t in c.homes :: c.homes[t] != {} && forall h | h in c.homes[t] :: h in c.hosts
  }

  /** With the workers that `Operator` makes, one or many, no task is ever slept over. */
  lemma OperatorIsManned(c: Setting)
    requires OfOperator(c)
    ensures Manned(c) && forall steps :: !SleptOver(c, steps)
  {
    forall t | t in c.homes
      ensures |c.hosts| >= 2 || AtHome(c, 0, t)
    {
      var h :| h in c.homes[t];
      assert h in c.hosts;
    }
    NoTaskSleptOver(c);
  }

  // ----- The end

  /** Once `finish` has signalled, workers asleep, or about to be, will be woken by another. */
  ghost predicate Waking(s: State) {
    s.signalled && (SomeAsleep(s) || SomeChecking(s)) ==> SomeAwake(s)
  }

  lemma WakingStep(c: Setting, s: State, step: Step)
    requires Orderly(s) && Waking(s) && |s.workers| >= 2 && Enabled(c, s, step)
    ensures Waking(Apply(c, s, step))
  {
    var s' := Apply(c, s, step);
    if s'.signalled && (SomeAsleep(s') || SomeChecking(s')) {
      match step
      case Enter(w, t, v) =>
        var ws := s.workers[w := Gone];
        WokenIs(ws, v);
        assert SomeAsleep(s');
        var x :| 0 <= x < |ws| && s'.workers[x].Asleep?;
        assert s.workers[x].Asleep?;
        assert ws[v].Asleep?;
        AwakeAfterSignal(ws, v, s');
      case Sleep(w) =>
        var x :| 0 <= x < |s.workers| && (s.workers[x].Calling? || s.workers[x].Busy?);
        assert s'.workers[x] == s.workers[x];
      case Done(w) => assert s'.workers[w].Calling?;
      case FinishSignal(v) =>
        WokenIs(s.workers, v);
        if SomeAsleep(s) {
          AwakeAfterSignal(s.workers, v, s');
        } else {
          assert s'.workers == s.workers;
          var w :| 0 <= w < |s.workers| && s.workers[w].Checking?;
          var x := if w == 0 then 1 else 0;
          assert s.workers[x].Calling? || s.workers[x].Busy?;
        }
      case _ =>
    }
  }

  lemma {:induction false} RunsWaking(c: Setting, steps: seq<Step>)
    requires Legal(c, steps) && |c.hosts| >= 2
    ensures Waking(After(c, steps))
  {
    hide Waking, Apply, Orderly;
    if steps == [] {
      assert Waking(Initial(c)) by { assert !Initial(c).signalled; StartsWaking(Initial(c)); }
    } else {
      RunsWaking(c, steps[..|steps| - 1]);
      RunsOrderly(c, steps[..|steps| - 1]);
      WakingStep(c, After(c, steps[..|steps| - 1]), steps[|steps| - 1]);
    }
  }

  lemma StartsWaking(s: State)
    requires !s.signalled
    ensures Waking(s)
  {}

  /** A run that has come to a stand after `finish` while a worker is left. */
  ghost predicate FinishMissed(c: Setting, steps: seq<Step>) {
    && Legal(c, steps) && Stuck(After(c, steps)) && After(c, steps).signalled
    && exists w :: 0 <= w < |c.hosts| && !After(c, steps).workers[w].Gone?
  }

  /** The only worker has looked at the flag, `finish` sets it and signals, then the worker waits. */
  lemma MissedSignal(c: Setting) returns (steps: seq<Step>)
    requires |c.hosts| == 1
    ensures FinishMissed(c, steps)
  {
    var s0, enter: Step := Initial(c), Enter(0, "", 0);
    assert s0.workers == [Calling(0)];
    OneMore(c, [], enter);
    var s1 := s0.(workers := [Checking(0)]);
    assert Apply(c, s0, enter) == s1;
    OneMore(c, [] + [enter], Finish);
    var s2 := s1.(finished := true);
    OneMore(c, [] + [enter] + [Finish], FinishSignal(0));
    var s3 := s2.(signalled := true);
    assert Apply(c, s2, FinishSignal(0)) == s3;
    OneMore(c, [] + [enter] + [Finish] + [FinishSignal(0)], Sleep(0));
    assert Apply(c, s3, Sleep(0)) == s3.(workers := [Asleep(0)]);
    assert !s3.(workers := [Asleep(0)]).workers[0].Gone?;
    return [] + [enter] + [Finish] + [FinishSignal(0)] + [Sleep(0)];
  }

  /** Every run that comes to a stand after `finish` has ended all workers, exactly when there is
      not just one worker. */
  lemma FinishIsHeard(c: Setting)
    ensures (forall steps :: !FinishMissed(c, steps)) <==> |c.hosts| != 1
  {
    if |c.hosts| == 1 {
      var steps := MissedSignal(c);
    } else {
      forall steps
        ensures !FinishMissed(c, steps)
      {
        if Legal(c, steps) && |c.hosts| >= 2 {
          RunsWaking(c, steps);
          StuckMeans(c, After(c, steps));
        }
      }
    }
  }

  // ----- Nothing goes round for ever

  function Strength(w: Worker): nat {
    match w
    case Calling(n) => if n <= 3 then 8 - 2 * n else 2
    case Checking(n) => if n <= 3 then 7 - 2 * n else 1
    case Asleep(n) => if n <= 3 then 6 - 2 * n else 0
    case Busy => 9
    case Gone => 0
  }

  function TotalStrength(ws: seq<Worker>): nat {
    if ws == [] then 0 else Strength(ws[0]) + TotalStrength(ws[1..])
  }

  lemma {:induction false} StrengthUpdate(ws: seq<Worker>, i: nat, w: Worker)
    requires i < |ws|
    ensures TotalStrength(ws[i := w]) + Strength(ws[i]) == TotalStrength(ws) + Strength(w)
  {
    if i == 0 {
      assert ws[0 := w][1..] == ws[1..];
    } else {
      StrengthUpdate(ws[1..], i - 1, w);
      assert ws[i := w][1..] == ws[1..][i - 1 := w];
    }
  }

  lemma WokenStrength(ws: seq<Worker>, v: nat)
    ensures TotalStrength(Woken(ws, v)) <= TotalStrength(ws) + 2
  {
    if v < |ws| && ws[v].Asleep? { StrengthUpdate(ws, v, Calling(ws[v].n)); }
  }

  /** How many steps there can still be without another push. */
  function Energy(s: State): nat {
    TotalStrength(s.workers) + 8 * |s.queue| + (if s.finished then 0 else 4) + (if s.signalled then 0 else 3)
  }

  lemma EnterCosts(c: Setting, s: State, w: nat, t: Task, v: nat)
    requires Orderly(s) && Enabled(c, s, Enter(w, t, v))
    ensures Energy(Apply(c, s, Enter(w, t, v))) < Energy(s)
  {
    var n := s.workers[w].n;
    assert n <= 2;
    hide Orderly, SomeChecking, TotalStrength, AtHome;
    var x := if s.finished then Gone else if s.queue == {} then Checking(n)
             else if OwnTask(c, s, w) || n > 1 then Busy else Checking(n + 1);
    StrengthUpdate(s.workers, w, x);
    WokenStrength(s.workers[w := x], v);
    if x.Busy? { OneLess(s.queue, t); }
  }

  lemma OneLess(q: set<Task>, t: Task)
    requires t in q
    ensures |q - {t}| == |q| - 1
  {}

  /** Every step but a push uses up energy, so that a run without pushes comes to a stand: tasks
      are delivered, and workers sleep or end, under every schedule. */
  lemma EveryStepCosts(c: Setting, s: State, step: Step)
    requires Orderly(s) && Enabled(c, s, step) && !step.Push?
    ensures Energy(Apply(c, s, step)) < Energy(s)
  {
    hide TotalStrength, SomeChecking;
    match step
    case Enter(w, t, v) => EnterCosts(c, s, w, t, v);
    case Sleep(w) => StrengthUpdate(s.workers, w, Asleep(s.workers[w].n));
    case Done(w) => StrengthUpdate(s.workers, w, Calling(0));
    case FinishSignal(v) => WokenStrength(s.workers, v);
    case Finish =>
  }

  /** A run takes at most as many steps without a push as there is energy. */
  lemma {:induction false} QuietRunsEnd(c: Setting, steps: seq<Step>, k: nat)
    requires Legal(c, steps) && k <= |steps| && forall i | k <= i < |steps| :: !steps[i].Push?
    ensures Legal(c, steps[..k]) && |steps| - k <= Energy(After(c, steps[..k])) - Energy(After(c, steps))
  {
    hide Energy, Apply;
    if k == |steps| {
      assert steps[..k] == steps;
    } else {
      var shorter := steps[..|steps| - 1];
      QuietRunsEnd(c, shorter, k);
      assert shorter[..k] == steps[..k];
      RunsOrderly(c, shorter);
      EveryStepCosts(c, After(c, shorter), steps[|steps| - 1]);
    }
  }
}
