/** One `Operator#invoke`: the invoking thread, any number of worker threads
    running `thread_loop`, the shared input queue and the output queue, as a
    system of interleaved steps. */
module Operating {
  import opened Sequences
  import opened TaskGraph
  import opened Tracing

  /** What never changes during the call: the tasks, the root, and the flags
      and fetched table that earlier calls left. */
  datatype Setting = Setting(g: Graph, root: Name, invoked0: set<Name>, fetched0: set<Name>) {
    ghost predicate Valid() {
      Closed(g) && root in g.prereqs && fetched0 <= invoked0
    }

    ghost predicate Cyclic() {
      CycleReachable(g, root, invoked0)
    }
  }

  /** Where a worker stands in `thread_loop`: waiting in `pop`, or between two of
      pop, mark invoked, start executing, end executing, push to the output. */
  datatype Worker = Idle | Popped(task: Name) | Marked(task: Name) | Running(task: Name) | Executed(task: Name) | Gone

  datatype Invoker =
    | ToTrace
    | Waiting(batch: seq<Name>, collected: seq<Name>)
    | Completed
    | CycleError(chain: seq<Name>, again: Name)
    | StrayError(task: Name)

  datatype Event = Started(task: Name) | Ended(task: Name) | Skipped(task: Name)

  /** `log` is history: which tasks started and ended executing, and which the
      tracer found not needed. */
  datatype State = State(invoker: Invoker, workers: seq<Worker>, queue: multiset<Name>, output: seq<Name>,
                         invoked: set<Name>, fetched: set<Name>, finished: bool, log: seq<Event>)

  datatype Step =
    | Ask
    | Collect
    | NextRound
    | Finish
    | Pop(w: nat, task: Name)
    | Mark(w: nat)
    | Start(w: nat)
    | End(w: nat)
    | Output(w: nat)
    | Leave(w: nat)

  function Initial(c: Setting, n: nat): State {
    State(ToTrace, seq(n, _ => Idle), multiset{}, [], c.invoked0, c.fetched0, false, [])
  }

  predicate Enabled(s: State, step: Step) {
    match step
    case Ask => s.invoker.ToTrace?
    case Collect => s.invoker.Waiting? && |s.invoker.collected| < |s.invoker.batch| && s.output != []
    case NextRound => s.invoker.Waiting? && |s.invoker.collected| == |s.invoker.batch|
    case Finish => s.invoker.Completed? && !s.finished
    case Pop(w, task) => w < |s.workers| && s.workers[w].Idle? && !s.finished && task in s.queue
    case Mark(w) => w < |s.workers| && s.workers[w].Popped?
    case Start(w) => w < |s.workers| && s.workers[w].Marked?
    case End(w) => w < |s.workers| && s.workers[w].Running?
    case Output(w) => w < |s.workers| && s.workers[w].Executed?
    case Leave(w) => w < |s.workers| && s.workers[w].Idle? && s.finished
  }

  function Apply(c: Setting, s: State, step: Step): State
    requires Closed(c.g) && c.root in c.g.prereqs && Enabled(s, step)
  {
    match step
    case Ask => Traced(c, s)
    case Collect =>
      var b := s.output[0];
      if b in s.invoker.batch then
        s.(output := s.output[1..], invoker := s.invoker.(collected := s.invoker.collected + [b]))
      else
        s.(output := s.output[1..], invoker := StrayError(b))
    case NextRound => s.(invoker := ToTrace)
    case Finish => s.(finished := true)
    case Pop(w, task) => s.(queue := s.queue - multiset{task}, workers := s.workers[w := Popped(task)])
    case Mark(w) =>
      var task := s.workers[w].task;
      s.(invoked := s.invoked + {task}, workers := s.workers[w := Marked(task)])
    case Start(w) =>
      var task := s.workers[w].task;
      s.(log := s.log + [Started(task)], workers := s.workers[w := Running(task)])
    case End(w) =>
      var task := s.workers[w].task;
      s.(log := s.log + [Ended(task)], workers := s.workers[w := Executed(task)])
    case Output(w) => s.(output := s.output + [s.workers[w].task], workers := s.workers[w := Idle])
    case Leave(w) => s.(workers := s.workers[w := Gone])
  }

  /** `available_task`, then the push of the whole batch under the queue's mutex. */
  function Traced(c: Setting, s: State): State
    requires Closed(c.g) && c.root in c.g.prereqs
  {
    var (t, status) := Round(c.g, c.root, s.invoked, s.fetched);
    var s' := s.(invoked := t.invoked, fetched := t.fetched);
    match status
    case Circular(chain, again) => s'.(invoker := CycleError(chain, again))
    case Nil => s'.(invoker := Completed, log := s.log + Skips(t.explored, t.invoked))
    case _ => s'.(invoker := Waiting(t.batch, []), queue := s.queue + multiset(t.batch),
                  log := s.log + Skips(t.explored, t.invoked))
  }

  /** The explored tasks the tracer marked invoked itself, in order. */
  function Skips(explored: seq<Name>, invoked: set<Name>): seq<Event> {
    if explored == [] then []
    else
      var last := explored[|explored| - 1];
      Skips(explored[..|explored| - 1], invoked) + if last in invoked then [Skipped(last)] else []
  }

  // ----- The promise, on the log alone

  ghost predicate IsDone(c: Setting, log: seq<Event>, n: Name) {
    n in c.invoked0 || Ended(n) in log || Skipped(n) in log
  }

  /** When `e` may follow `log`. */
  ghost predicate Admissible(c: Setting, log: seq<Event>, e: Event) {
    && e.task in c.g.prereqs && e.task !in c.invoked0
    && e !in log
    && match e
       case Started(n) => n in c.g.needed && forall p :: p in c.g.prereqs[n] ==> IsDone(c, log, p)
       case Ended(n) => Started(n) in log
       case Skipped(n) => n !in c.g.needed && forall p :: p in c.g.prereqs[n] ==> IsDone(c, log, p)
  }

  /** A task starts at most once, only when it is needed, and only after every
      prerequisite ended, was found not needed, or was invoked before the call. */
  ghost predicate WellLogged(c: Setting, log: seq<Event>) {
    forall i :: 0 <= i < |log| ==> Admissible(c, log[..i], log[i])
  }

  lemma WellLoggedSnoc(c: Setting, log: seq<Event>, e: Event)
    requires WellLogged(c, log) && Admissible(c, log, e)
    ensures WellLogged(c, log + [e])
  {
    var log' := log + [e];
    forall i | 0 <= i < |log'|
      ensures Admissible(c, log'[..i], log'[i])
    {
      assert log'[..i] == log[..i];
      assert log[..|log|] == log;
    }
  }

  // ----- The invariant

  /** How often `w` holds task `n`. */
  function Holds(w: Worker, n: Name): nat {
    if w.Idle? || w.Gone? || w.task != n then 0 else 1
  }

  function InHands(ws: seq<Worker>, n: Name): nat {
    if ws == [] then 0 else Holds(ws[0], n) + InHands(ws[1..], n)
  }

  lemma {:induction false} HandsUpdate(ws: seq<Worker>, i: nat, w: Worker, n: Name)
    requires i < |ws|
    ensures InHands(ws[i := w], n) + Holds(ws[i], n) == InHands(ws, n) + Holds(w, n)
  {
    if i == 0 {
      assert ws[0 := w][1..] == ws[1..];
    } else {
      HandsUpdate(ws[1..], i - 1, w, n);
      assert ws[i := w][1..] == ws[1..][i - 1 := w];
    }
  }

  lemma {:induction false} HandsHold(ws: seq<Worker>, i: nat, n: Name)
    requires i < |ws|
    ensures Holds(ws[i], n) <= InHands(ws, n)
  {
    if i > 0 { HandsHold(ws[1..], i - 1, n); }
  }

  /** In how many places a fetched task is. */
  ghost function Places(s: State, n: Name): nat
    requires s.invoker.Waiting?
  {
    s.queue[n] + InHands(s.workers, n) + multiset(s.output)[n] + multiset(s.invoker.collected)[n]
  }

  /** Each task of the batch is in one place, and no other task is anywhere. */
  ghost predicate Placed(s: State) {
    if s.invoker.Waiting? then
      && Distinct(s.invoker.batch)
      && forall n :: multiset(s.invoker.batch)[n] == Places(s, n)
    else
      && s.queue == multiset{} && s.output == []
      && forall w :: 0 <= w < |s.workers| ==> s.workers[w].Idle? || s.workers[w].Gone?
  }

  ghost predicate WorkerStage(w: Worker, log: seq<Event>) {
    match w
    case Popped(n) => Started(n) !in log
    case Marked(n) => Started(n) !in log
    case Running(n) => Started(n) in log && Ended(n) !in log
    case Executed(n) => Ended(n) in log
    case _ => true
  }

  ghost predicate Stages(s: State) {
    && (forall n :: n in s.queue ==> Started(n) !in s.log)
    && (forall w :: 0 <= w < |s.workers| ==> WorkerStage(s.workers[w], s.log))
    && (forall n :: n in s.output ==> Ended(n) in s.log)
    && (s.invoker.Waiting? ==> forall n :: n in s.invoker.collected ==> Ended(n) in s.log)
  }

  ghost predicate BatchReady(c: Setting, s: State) {
    s.invoker.Waiting? ==> forall n :: n in s.invoker.batch ==>
      && n in c.g.prereqs && n in c.g.needed && n !in c.invoked0
      && Reaches(c.g, c.root, n, c.invoked0)
      && forall p :: p in c.g.prereqs[n] ==> IsDone(c, s.log, p)
  }

  ghost predicate Flags(c: Setting, s: State) {
    && (forall n :: IsDone(c, s.log, n) ==> n in s.invoked)
    && (forall n :: n in s.invoked ==> IsDone(c, s.log, n) || (exists w :: 0 <= w < |s.workers| && Holds(s.workers[w], n) == 1))
    && (forall w :: 0 <= w < |s.workers| && (s.workers[w].Marked? || s.workers[w].Running?) ==>
          s.workers[w].task in s.invoked)
    && (forall n :: n in s.fetched <==>
          (n in c.fetched0 || Ended(n) in s.log || Skipped(n) in s.log
           || (s.invoker.Waiting? && n in s.invoker.batch)))
    && (forall n :: Started(n) in s.log ==>
          Ended(n) in s.log || (s.invoker.Waiting? && n in s.invoker.batch))
  }

  ghost predicate LogReached(c: Setting, s: State) {
    forall e :: e in s.log ==> Reaches(c.g, c.root, e.task, c.invoked0)
  }

  ghost predicate Inv(c: Setting, s: State) {
    && WellLogged(c, s.log)
    && LogReached(c, s)
    && !s.invoker.StrayError?
    && (s.finished ==> s.invoker.Completed?)
    && (forall w :: 0 <= w < |s.workers| && s.workers[w].Gone? ==> s.finished)
    && Placed(s)
    && Stages(s)
    && BatchReady(c, s)
    && (if s.invoker.CycleError? then
          && c.Cyclic() && s.log == []
          && IsLasso(c.g, s.invoker.chain + [s.invoker.again], c.root, c.invoked0)
        else
          && Flags(c, s)
          && (s.invoker.Completed? ==> c.root in s.invoked)
          && (c.Cyclic() ==> s.invoker.ToTrace? && s.log == []))
  }

  // ----- Every step keeps it

  lemma InitialInv(c: Setting, n: nat)
    requires c.Valid()
    ensures Inv(c, Initial(c, n))
  {}

  lemma {:induction false} OnceEach<T>(s: seq<T>, x: T)
    requires Distinct(s)
    ensures multiset(s)[x] == if x in s then 1 else 0
  {
    if s != [] {
      OnceEach(s[1..], x);
      assert s == [s[0]] + s[1..];
      assert s[0] !in s[1..];
    }
  }

  /** A task in a worker's hands is nowhere else. */
  lemma HeldAlone(s: State, w: nat, n: Name)
    requires Placed(s) && w < |s.workers| && Holds(s.workers[w], n) == 1
    ensures s.invoker.Waiting? && n in s.invoker.batch
    ensures n !in s.queue && n !in s.output && n !in s.invoker.collected
    ensures forall v :: 0 <= v < |s.workers| && v != w ==> Holds(s.workers[v], n) == 0
  {
    HandsHold(s.workers, w, n);
    OnceEach(s.invoker.batch, n);
    assert multiset(s.invoker.batch)[n] == Places(s, n);
    forall v | 0 <= v < |s.workers| && v != w
      ensures Holds(s.workers[v], n) == 0
    {
      HandsUpdate(s.workers, w, Idle, n);
      HandsHold(s.workers[w := Idle], v, n);
    }
  }

  /** A worker that keeps the task it holds moves nothing. */
  lemma SameHands(ws: seq<Worker>, w: nat, x: Worker)
    requires w < |ws| && forall n :: Holds(ws[w], n) == Holds(x, n)
    ensures forall n :: InHands(ws[w := x], n) == InHands(ws, n)
  {
    forall n { HandsUpdate(ws, w, x, n); }
  }

  lemma CollectKeeps(c: Setting, s: State)
    requires c.Valid() && Inv(c, s) && Enabled(s, Collect)
    ensures Inv(c, Apply(c, s, Collect))
  {
    var b := s.output[0];
    assert s.output == [b] + s.output[1..];
    OnceEach(s.invoker.batch, b);
    assert multiset(s.invoker.batch)[b] == Places(s, b);
    var s' := Apply(c, s, Collect);
    forall n
      ensures Places(s', n) == Places(s, n)
    {}
  }

  lemma NextRoundKeeps(c: Setting, s: State)
    requires c.Valid() && Inv(c, s) && Enabled(s, NextRound)
    ensures Inv(c, Apply(c, s, NextRound))
  {
    var all, got := multiset(s.invoker.batch), multiset(s.invoker.collected);
    forall n
      ensures got[n] == all[n]
    {
      assert all[n] == Places(s, n);
      assert got <= all by {
        assert forall m :: all[m] == Places(s, m) ==> got[m] <= all[m];
      }
      assert |all - got| == |all| - |got| == 0;
      assert (all - got)[n] == 0;
    }
    forall n
      ensures s.queue[n] == 0 && InHands(s.workers, n) == 0 && multiset(s.output)[n] == 0
      ensures n in s.invoker.batch ==> n in s.invoker.collected
    {
      assert all[n] == Places(s, n);
    }
    assert |multiset(s.output)| == |s.output|;
    assert multiset(s.output) == multiset{} && s.queue == multiset{};
    forall w | 0 <= w < |s.workers|
      ensures s.workers[w].Idle? || s.workers[w].Gone?
    {
      if !(s.workers[w].Idle? || s.workers[w].Gone?) { HandsHold(s.workers, w, s.workers[w].task); }
    }
  }

  lemma FinishKeeps(c: Setting, s: State)
    requires c.Valid() && Inv(c, s) && Enabled(s, Finish)
    ensures Inv(c, Apply(c, s, Finish))
  {}

  lemma PopKeeps(c: Setting, s: State, w: nat, n: Name)
    requires c.Valid() && Inv(c, s) && Enabled(s, Pop(w, n))
    ensures Inv(c, Apply(c, s, Pop(w, n)))
  {
    var s' := Apply(c, s, Pop(w, n));
    forall m
      ensures Places(s', m) == Places(s, m)
    {
      HandsUpdate(s.workers, w, Popped(n), m);
    }
    HandsChange(c, s, s', w);
  }

  lemma LeaveKeeps(c: Setting, s: State, w: nat)
    requires c.Valid() && Inv(c, s) && Enabled(s, Leave(w))
    ensures Inv(c, Apply(c, s, Leave(w)))
  {
    HandsChange(c, s, Apply(c, s, Leave(w)), w);
  }

  /** Flags stay explained when a worker changes without letting go of a task
      that is not done. */
  lemma HandsChange(c: Setting, s: State, s': State, w: nat)
    requires Flags(c, s) && w < |s.workers| == |s'.workers| && s'.workers == s.workers[w := s'.workers[w]]
    requires s'.log == s.log && s'.fetched == s.fetched && s'.invoker == s.invoker && s.invoked <= s'.invoked
    requires forall n :: Holds(s.workers[w], n) == 1 && !IsDone(c, s.log, n) ==> Holds(s'.workers[w], n) == 1
    requires forall n :: n in s'.invoked && n !in s.invoked ==> Holds(s'.workers[w], n) == 1
    requires s'.workers[w].Marked? || s'.workers[w].Running? ==> s'.workers[w].task in s'.invoked
    ensures Flags(c, s')
  {
    forall n | n in s'.invoked && !IsDone(c, s.log, n)
      ensures exists v :: 0 <= v < |s'.workers| && Holds(s'.workers[v], n) == 1
    {
      if n in s.invoked {
        var v :| 0 <= v < |s.workers| && Holds(s.workers[v], n) == 1;
        assert Holds(s'.workers[v], n) == 1;
      } else {
        assert Holds(s'.workers[w], n) == 1;
      }
    }
  }

  lemma MarkKeeps(c: Setting, s: State, w: nat)
    requires c.Valid() && Inv(c, s) && Enabled(s, Mark(w))
    ensures Inv(c, Apply(c, s, Mark(w)))
  {
    var n := s.workers[w].task;
    HeldAlone(s, w, n);
    var s' := Apply(c, s, Mark(w));
    SamePlaces(s, s', w);
    HandsChange(c, s, s', w);
  }

  /** The task leaves the hands of `w` for the end of the output queue. */
  lemma OutputPlaces(s: State, s': State, w: nat)
    requires Placed(s) && s.invoker.Waiting? && w < |s.workers| && s.workers[w].Executed?
    requires s' == s.(output := s.output + [s.workers[w].task], workers := s.workers[w := Idle])
    ensures Placed(s')
  {
    forall m
      ensures Places(s', m) == Places(s, m)
    {
      HandsUpdate(s.workers, w, Idle, m);
    }
  }

  lemma OutputStages(s: State, s': State, w: nat)
    requires Stages(s) && w < |s.workers| && s.workers[w].Executed?
    requires s' == s.(output := s.output + [s.workers[w].task], workers := s.workers[w := Idle])
    ensures Stages(s')
    ensures Ended(s.workers[w].task) in s.log
  {
    assert WorkerStage(s.workers[w], s.log);
  }

  lemma OutputKeeps(c: Setting, s: State, w: nat)
    requires c.Valid() && Inv(c, s) && Enabled(s, Output(w))
    ensures Inv(c, Apply(c, s, Output(w)))
  {
    hide WellLogged, Flags, Placed, Stages, WorkerStage;
    var s' := Apply(c, s, Output(w));
    HeldAlone(s, w, s.workers[w].task);
    OutputPlaces(s, s', w);
    OutputStages(s, s', w);
    HandsChange(c, s, s', w);
  }

  lemma EndedStarted(c: Setting, log: seq<Event>, n: Name)
    requires WellLogged(c, log) && Ended(n) in log
    ensures Started(n) in log
  {
    var i :| 0 <= i < |log| && log[i] == Ended(n);
    assert Admissible(c, log[..i], log[i]);
  }

  /** Logging an event of the task that only `w` holds leaves every other
      task's stage as it was. */
  lemma StagesChange(s: State, w: nat, x: Worker, e: Event)
    requires Stages(s) && Placed(s) && w < |s.workers|
    requires Holds(s.workers[w], e.task) == 1 && WorkerStage(x, s.log + [e])
    ensures Stages(s.(log := s.log + [e], workers := s.workers[w := x]))
  {
    HeldAlone(s, w, e.task);
    var s' := s.(log := s.log + [e], workers := s.workers[w := x]);
    assert forall d :: d in s'.log <==> d in s.log || d == e;
    forall v | 0 <= v < |s'.workers|
      ensures WorkerStage(s'.workers[v], s'.log)
    {
      if v != w {
        assert WorkerStage(s.workers[v], s.log) && Holds(s.workers[v], e.task) == 0;
      }
    }
  }

  lemma SamePlaces(s: State, s': State, w: nat)
    requires Placed(s) && s.invoker.Waiting? && w < |s.workers| == |s'.workers|
    requires s'.workers == s.workers[w := s'.workers[w]]
    requires forall n :: Holds(s.workers[w], n) == Holds(s'.workers[w], n)
    requires s'.invoker == s.invoker && s'.queue == s.queue && s'.output == s.output
    ensures Placed(s')
  {
    SameHands(s.workers, w, s'.workers[w]);
    assert forall m :: Places(s', m) == Places(s, m);
  }

  lemma StartFlags(c: Setting, s: State, w: nat)
    requires c.Valid() && Inv(c, s) && Enabled(s, Start(w))
    ensures Flags(c, Apply(c, s, Start(w)))
  {
    var n := s.workers[w].task;
    HeldAlone(s, w, n);
    var s' := Apply(c, s, Start(w));
    HandsChange(c, s, s'.(log := s.log), w);
    assert forall e :: e in s'.log <==> e in s.log || e == Started(n);
    assert forall m :: IsDone(c, s'.log, m) <==> IsDone(c, s.log, m);
  }

  /** Logging an admissible event of the task that `w` holds, and goes on holding, keeps the
      invariant, once the flags are known to agree. */
  lemma LoggedKeeps(c: Setting, s: State, w: nat, x: Worker, e: Event)
    requires c.Valid() && Inv(c, s) && w < |s.workers|
    requires Holds(s.workers[w], e.task) == 1 == Holds(x, e.task)
    requires Admissible(c, s.log, e) && WorkerStage(x, s.log + [e])
    requires Flags(c, s.(log := s.log + [e], workers := s.workers[w := x]))
    ensures Inv(c, s.(log := s.log + [e], workers := s.workers[w := x]))
  {
    hide Placed, Stages, Flags, WellLogged, Admissible, WorkerStage;
    var s' := s.(log := s.log + [e], workers := s.workers[w := x]);
    HeldAlone(s, w, e.task);
    WellLoggedSnoc(c, s.log, e);
    SamePlaces(s, s', w);
    StagesChange(s, w, x, e);
    assert LogReached(c, s');
    assert BatchReady(c, s');
  }

  lemma StartKeeps(c: Setting, s: State, w: nat)
    requires c.Valid() && Inv(c, s) && Enabled(s, Start(w))
    ensures Inv(c, Apply(c, s, Start(w)))
  {
    var n := s.workers[w].task;
    StartFlags(c, s, w);
    StartAdmissible(c, s, w);
    hide Inv, Flags, Admissible;
    LoggedKeeps(c, s, w, Running(n), Started(n));
  }

  lemma StartAdmissible(c: Setting, s: State, w: nat)
    requires Inv(c, s) && Enabled(s, Start(w))
    ensures Admissible(c, s.log, Started(s.workers[w].task))
    ensures WorkerStage(Running(s.workers[w].task), s.log + [Started(s.workers[w].task)])
  {
    var n := s.workers[w].task;
    HeldAlone(s, w, n);
    assert WorkerStage(s.workers[w], s.log);
    hide Flags, Placed, Stages, WellLogged;
    if Ended(n) in s.log { EndedStarted(c, s.log, n); }
  }

  lemma EndFlags(c: Setting, s: State, w: nat)
    requires c.Valid() && Inv(c, s) && Enabled(s, End(w))
    ensures Flags(c, Apply(c, s, End(w)))
  {
    var n := s.workers[w].task;
    HeldAlone(s, w, n);
    var s' := Apply(c, s, End(w));
    HandsChange(c, s, s'.(log := s.log), w);
    assert forall e :: e in s'.log <==> e in s.log || e == Ended(n);
    assert WorkerStage(s.workers[w], s.log);
    assert forall m :: IsDone(c, s'.log, m) <==> IsDone(c, s.log, m) || m == n;
  }

  lemma EndKeeps(c: Setting, s: State, w: nat)
    requires c.Valid() && Inv(c, s) && Enabled(s, End(w))
    ensures Inv(c, Apply(c, s, End(w)))
  {
    var n := s.workers[w].task;
    EndFlags(c, s, w);
    HeldAlone(s, w, n);
    assert WorkerStage(s.workers[w], s.log);
    assert Admissible(c, s.log, Ended(n)) by { hide Flags, Placed, Stages, WellLogged; }
    hide Inv, Flags, Admissible;
    LoggedKeeps(c, s, w, Executed(n), Ended(n));
  }

  lemma {:induction false} SkipsAre(explored: seq<Name>, invoked: set<Name>, e: Event)
    ensures e in Skips(explored, invoked) <==> e.Skipped? && e.task in explored && e.task in invoked
  {
    if explored != [] {
      SkipsAre(explored[..|explored| - 1], invoked, e);
      assert explored == explored[..|explored| - 1] + [explored[|explored| - 1]];
    }
  }

  lemma {:induction false} NoHands(ws: seq<Worker>, n: Name)
    requires forall w :: 0 <= w < |ws| ==> ws[w].Idle? || ws[w].Gone?
    ensures InHands(ws, n) == 0
  {
    if ws != [] { NoHands(ws[1..], n); }
  }

  /** Between rounds, the flags are exactly the tasks that are done. */
  lemma BetweenRounds(c: Setting, s: State)
    requires c.Valid() && Inv(c, s) && s.invoker.ToTrace?
    ensures forall n :: n in s.invoked <==> IsDone(c, s.log, n)
    ensures s.fetched <= s.invoked && s.invoked + s.fetched == s.invoked
    ensures forall n :: Started(n) in s.log ==> n in s.invoked
  {}

  lemma NarrowWalk(c: Setting, s: State, w: seq<Name>)
    requires c.Valid() && c.invoked0 <= s.invoked && Walk(c.g, w, s.invoked + s.fetched)
    ensures Walk(c.g, w, c.invoked0)
  {}

  lemma {:induction false} SkipsLogged(c: Setting, s: State, t: Trace, k: nat)
    requires c.Valid() && Inv(c, s) && s.invoker.ToTrace?
    requires Tracing.Inv(c.g, s.invoked, s.fetched, t, []) && k <= |t.explored|
    ensures WellLogged(c, s.log + Skips(t.explored[..k], t.invoked))
  {
    BetweenRounds(c, s);
    if k == 0 {
      assert s.log + Skips(t.explored[..0], t.invoked) == s.log;
    } else {
      SkipsLogged(c, s, t, k - 1);
      var before := s.log + Skips(t.explored[..k - 1], t.invoked);
      var x := t.explored[k - 1];
      assert t.explored[..k][..k - 1] == t.explored[..k - 1];
      if x in t.invoked {
        assert s.log + Skips(t.explored[..k], t.invoked) == before + [Skipped(x)];
        SkipsAre(t.explored[..k - 1], t.invoked, Skipped(x));
        forall p | p in c.g.prereqs[x]
          ensures IsDone(c, before, p)
        {
          assert p in t.invoked;
          SkipsAre(t.explored[..k - 1], t.invoked, Skipped(p));
        }
        WellLoggedSnoc(c, before, Skipped(x));
      } else {
        assert s.log + Skips(t.explored[..k], t.invoked) == before;
      }
    }
  }

  lemma TraceAcyclic(c: Setting, s: State)
    requires c.Valid() && Inv(c, s) && s.invoker.ToTrace?
    ensures CycleReachable(c.g, c.root, s.invoked + s.fetched) <==> c.Cyclic()
  {
    BetweenRounds(c, s);
    if c.Cyclic() {
      assert s.invoked == c.invoked0;
    } else {
      forall w | IsLasso(c.g, w, c.root, s.invoked + s.fetched)
        ensures false
      {
        NarrowWalk(c, s, w);
        assert IsLasso(c.g, w, c.root, c.invoked0);
      }
    }
  }

  lemma TraceReaches(c: Setting, s: State, n: Name)
    requires c.Valid() && c.invoked0 <= s.invoked && Reaches(c.g, c.root, n, s.invoked + s.fetched)
    ensures Reaches(c.g, c.root, n, c.invoked0)
  {
    var w :| Walk(c.g, w, s.invoked + s.fetched) && 0 < |w| && w[0] == c.root && w[|w| - 1] == n;
    NarrowWalk(c, s, w);
  }

  lemma TraceFlags(c: Setting, s: State)
    requires c.Valid() && Inv(c, s) && Enabled(s, Ask)
    requires !Apply(c, s, Ask).invoker.CycleError?
    ensures Flags(c, Apply(c, s, Ask))
    ensures var s' := Apply(c, s, Ask); forall n :: n in s'.invoked <==> IsDone(c, s'.log, n)
  {
    BetweenRounds(c, s);
    RoundSearches(c.g, c.root, s.invoked, s.fetched);
    var (t, _) := Round(c.g, c.root, s.invoked, s.fetched);
    var s' := Apply(c, s, Ask);
    forall n
      ensures Skipped(n) in s'.log <==> Skipped(n) in s.log || (n in t.explored && n in t.invoked)
      ensures Ended(n) in s'.log <==> Ended(n) in s.log
      ensures Started(n) in s'.log <==> Started(n) in s.log
    {
      SkipsAre(t.explored, t.invoked, Skipped(n));
      SkipsAre(t.explored, t.invoked, Ended(n));
      SkipsAre(t.explored, t.invoked, Started(n));
    }
    if s'.invoker.Completed? { assert t.batch == []; }
  }

  lemma TracePlaces(c: Setting, s: State)
    requires c.Valid() && Inv(c, s) && Enabled(s, Ask)
    requires !Apply(c, s, Ask).invoker.CycleError?
    ensures Placed(Apply(c, s, Ask))
  {
    RoundSearches(c.g, c.root, s.invoked, s.fetched);
    var s' := Apply(c, s, Ask);
    if s'.invoker.Waiting? {
      forall n
        ensures multiset(s'.invoker.batch)[n] == Places(s', n)
      {
        NoHands(s.workers, n);
      }
    }
  }

  lemma BatchIsNew(c: Setting, s: State)
    requires c.Valid() && !Round(c.g, c.root, s.invoked, s.fetched).1.Circular?
    ensures forall n :: n in Round(c.g, c.root, s.invoked, s.fetched).0.batch ==> n !in s.invoked
  {
    RoundSearches(c.g, c.root, s.invoked, s.fetched);
  }

  lemma TraceStages(c: Setting, s: State)
    requires c.Valid() && Inv(c, s) && Enabled(s, Ask)
    requires !Apply(c, s, Ask).invoker.CycleError?
    ensures Stages(Apply(c, s, Ask))
  {
    BetweenRounds(c, s);
    BatchIsNew(c, s);
    assert Placed(s) && !s.invoker.Waiting? && forall w :: 0 <= w < |s.workers| ==> WorkerStage(s.workers[w], s.log);
    hide Inv, Flags, Round, Reaches;
    var (t, _) := Round(c.g, c.root, s.invoked, s.fetched);
    var s' := Apply(c, s, Ask);
    forall n | n in s'.queue
      ensures Started(n) !in s'.log
    {
      assert n in t.batch;
      SkipsAre(t.explored, t.invoked, Started(n));
    }
  }

  /** What is logged and fetched in a round is reached, and each fetched task is ready. */
  lemma TraceBatch(c: Setting, s: State)
    requires c.Valid() && Inv(c, s) && Enabled(s, Ask)
    requires !Apply(c, s, Ask).invoker.CycleError?
    ensures var s' := Apply(c, s, Ask);
      LogReached(c, s') && WellLogged(c, s'.log) && BatchReady(c, s')
  {
    BetweenRounds(c, s);
    RoundSearches(c.g, c.root, s.invoked, s.fetched);
    TraceFlags(c, s);
    var (t, status) := Round(c.g, c.root, s.invoked, s.fetched);
    assert t.explored[..|t.explored|] == t.explored;
    SkipsLogged(c, s, t, |t.explored|);
    assert LogReached(c, s);
    hide Inv, Flags, WellLogged, Round;
    forall e | e in Skips(t.explored, t.invoked)
      ensures Reaches(c.g, c.root, e.task, c.invoked0)
    {
      SkipsAre(t.explored, t.invoked, e);
      TraceReaches(c, s, e.task);
    }
    forall n | n in t.batch
      ensures Reaches(c.g, c.root, n, c.invoked0)
    {
      TraceReaches(c, s, n);
    }
  }

  lemma TraceKeeps(c: Setting, s: State)
    requires c.Valid() && Inv(c, s) && Enabled(s, Ask)
    ensures Inv(c, Apply(c, s, Ask))
  {
    RaisesIffCycle(c.g, c.root, s.invoked, s.fetched);
    TraceAcyclic(c, s);
    BetweenRounds(c, s);
    hide WellLogged, Flags, Stages, LogReached, BatchReady, Round;
    var (t, status) := Round(c.g, c.root, s.invoked, s.fetched);
    if status.Circular? {
      NarrowWalk(c, s, status.chain + [status.again]);
    } else {
      RoundProgresses(c.g, c.root, s.invoked, s.fetched);
      TraceFlags(c, s);
      TracePlaces(c, s);
      TraceStages(c, s);
      TraceBatch(c, s);
    }
  }

  lemma StepKeeps(c: Setting, s: State, step: Step)
    requires c.Valid() && Inv(c, s) && Enabled(s, step)
    ensures Inv(c, Apply(c, s, step))
  {
    match step
    case Ask => TraceKeeps(c, s);
    case Collect => CollectKeeps(c, s);
    case NextRound => NextRoundKeeps(c, s);
    case Finish => FinishKeeps(c, s);
    case Pop(w, n) => PopKeeps(c, s, w, n);
    case Mark(w) => MarkKeeps(c, s, w);
    case Start(w) => StartKeeps(c, s, w);
    case End(w) => EndKeeps(c, s, w);
    case Output(w) => OutputKeeps(c, s, w);
    case Leave(w) => LeaveKeeps(c, s, w);
  }
}
