/** `AffinityQueue`: the `TaskQueue` protocol of push, pop and finish over a
    `HostQueue`. Each method is what one thread does while it holds the mutex;
    a pop that has to wait ends with `Wait` and is called again on wake-up. */
module TaskQueues {
  import opened Throughputs
  import opened HostQueues
  import opened Sequences

  type Thread = nat

  datatype PopResult = Stop | Deliver(task: Task) | Wait(n: nat)

  /** History: the tasks pushed, those still queued, and those delivered, in
      order. */
  datatype Account = Account(pushed: multiset<Task>, queued: set<Task>, delivered: seq<Task>)

  /** Every push of a task is answered by one delivery, or the task is queued. */
  ghost predicate Balanced(a: Account) {
    a.pushed == multiset(a.queued) + multiset(a.delivered)
  }

  type Ledger = a: Account | Balanced(a) ghost witness Account(multiset{}, {}, [])

  /** A task that was pushed once is queued or has been delivered, never both and never twice. */
  lemma {:induction false} PushedOnce(a: Account, t: Task)
    requires Balanced(a) && a.pushed[t] <= 1
    ensures t in a.pushed <==> t in a.queued || t in a.delivered
    ensures !(t in a.queued && t in a.delivered)
    ensures forall i, j :: 0 <= i < j < |a.delivered| && a.delivered[i] == t ==> a.delivered[j] != t
  {
    forall i, j | 0 <= i < j < |a.delivered| && a.delivered[i] == t
      ensures a.delivered[j] != t
    {
      var earlier, later := a.delivered[..j], a.delivered[j..];
      assert a.delivered == earlier + later;
      assert earlier[i] == t && later[0] == a.delivered[j];
    }
  }

  function AfterPush(a: Account, t: Task): Account {
    a.(pushed := a.pushed + multiset{t}, queued := a.queued + {t})
  }

  function AfterPop(a: Account, t: Task): Account {
    a.(queued := a.queued - {t}, delivered := a.delivered + [t])
  }

  function AfterPushes(a: Account, ts: seq<Task>): Account {
    if ts == [] then a else AfterPush(AfterPushes(a, ts[..|ts| - 1]), ts[|ts| - 1])
  }

  lemma {:induction false} PushesAre(a: Account, ts: seq<Task>)
    ensures var b := AfterPushes(a, ts);
      && b.delivered == a.delivered
      && b.pushed == a.pushed + multiset(ts)
      && (forall t :: t in b.queued <==> t in a.queued || t in ts)
  {
    if ts != [] {
      PushesAre(a, ts[..|ts| - 1]);
      assert ts == ts[..|ts| - 1] + [ts[|ts| - 1]];
    }
  }

  lemma PushesSnoc(a: Account, ts: seq<Task>, i: nat)
    requires i < |ts|
    ensures AfterPushes(a, ts[..i + 1]) == AfterPush(AfterPushes(a, ts[..i]), ts[i])
  {
    assert ts[..i + 1][..i] == ts[..i];
  }

  /** The queues after a batch; `rnds` holds the draws of `rand`, one per task. */
  function PushedAll(s: Queues, ts: seq<Task>, rnds: seq<nat>): (r: Queues)
    requires s.q.Keys == KeySet(s.hosts) && |rnds| == |ts|
    requires s.hosts != [] ==> forall i | 0 <= i < |rnds| :: rnds[i] < |s.hosts|
    ensures r.q.Keys == KeySet(r.hosts) && r.hosts == s.hosts
  {
    if ts == [] then s
    else
      var n := |ts| - 1;
      Pushed(PushedAll(s, ts[..n], rnds[..n]), ts[n], rnds[n])
  }

  lemma PushedAllSnoc(s: Queues, ts: seq<Task>, rnds: seq<nat>, i: nat)
    requires s.q.Keys == KeySet(s.hosts) && |rnds| == |ts| && i < |ts|
    requires s.hosts != [] ==> forall i | 0 <= i < |rnds| :: rnds[i] < |s.hosts|
    ensures PushedAll(s, ts[..i + 1], rnds[..i + 1]) == Pushed(PushedAll(s, ts[..i], rnds[..i]), ts[i], rnds[i])
  {
    assert ts[..i + 1][..i] == ts[..i] && rnds[..i + 1][..i] == rnds[..i];
  }

  lemma PushBalances(a: Account, t: Task)
    requires Balanced(a) && t !in a.queued
    ensures Balanced(AfterPush(a, t))
  {}

  lemma PopBalances(a: Account, t: Task)
    requires Balanced(a) && t in a.queued
    ensures Balanced(AfterPop(a, t))
  {}

  // ----- Threads told to end

  /** The list of threads to end after a pass of `thread`: at its head, the thread is taken off. */
  function Passed(list: seq<Thread>, thread: Thread): seq<Thread> {
    if list != [] && list[0] == thread then list[1..] else list
  }

  function Left(list: seq<Thread>, passes: seq<Thread>): seq<Thread> {
    if passes == [] then list else Passed(Left(list, passes[..|passes| - 1]), passes[|passes| - 1])
  }

  /** A thread told to end waits until all threads told before it have stopped, and stops at its
      first pass after that, whatever passes there are. */
  lemma {:induction false} StopsInTurn(list: seq<Thread>, thread: Thread, passes: seq<Thread>)
    ensures Left(list, passes) != [] ==> Left(list + [thread], passes) == Left(list, passes) + [thread]
    ensures Left(list, passes) == [] ==> Left(list + [thread], passes) in [[], [thread]]
    ensures Left(list, passes) == [] ==> Left(list + [thread], passes + [thread]) == []
  {
    assert (passes + [thread])[..|passes|] == passes;
    if passes != [] {
      StopsInTurn(list, thread, passes[..|passes| - 1]);
      var before := Left(list, passes[..|passes| - 1]);
      if before != [] && before[0] == passes[|passes| - 1] { assert (before + [thread])[1..] == before[1..] + [thread]; }
    }
  }

  /** None of the tasks is queued, and none comes twice. */
  ghost predicate New(a: Account, ts: seq<Task>) {
    (forall i | 0 <= i < |ts| :: ts[i] !in a.queued) && Distinct(ts)
  }

  lemma NoPushes(a: Account, s: Queues)
    requires s.q.Keys == KeySet(s.hosts)
    ensures AfterPushes(a, []) == a && PushedAll(s, [], []) == s
  {}

  lemma NextIsNew(a: Account, ts: seq<Task>, i: nat)
    requires New(a, ts) && i < |ts|
    ensures ts[i] !in AfterPushes(a, ts[..i]).queued
  {
    PushesAre(a, ts[..i]);
  }

  class AffinityQueue {
    const q: HostQueue
    var finished: bool
    var threadsToEnd: seq<Thread>
    ghost var ledger: Ledger

    ghost predicate Valid()
      reads this, q, q.throughput
    {
      q.Valid() && ledger.queued == q.Held().Keys
    }

    /** `hosts` is `hosts.uniq`. */
    constructor (hosts: seq<string>)
      ensures Valid() && ledger == Account(multiset{}, {}, []) && !finished && threadsToEnd == [] && q.hosts == hosts
      ensures fresh(q) && fresh(q.throughput)
    {
      q := new HostQueue(hosts);
      finished, threadsToEnd, ledger := false, [], Account(multiset{}, {}, []);
    }

    /** Pushes a batch; `rnds` holds the draws of `rand`, one per task. The account stays right when
        no task is pushed again while it is queued. */
    method Push(tasks: seq<Task>, rnds: seq<nat>)
      requires q.Formed() && |rnds| == |tasks|
      requires q.hosts != [] ==> forall i :: 0 <= i < |rnds| ==> rnds[i] < |q.hosts|
      modifies this`ledger, q
      ensures q.Formed() && q.State() == PushedAll(old(q.State()), tasks, rnds)
      ensures old(Valid()) && New(old(ledger), tasks) ==> Valid() && ledger == AfterPushes(old(ledger), tasks)
    {
      hide Valid, Pushed, PushedAll, AfterPushes, AfterPush, New, Balanced, KeySet;
      hide HostQueue.Formed, HostQueue.State, HostQueue.Held, HostQueue.Valid, HostQueue.Tuned;
      ghost var was, start, fits := ledger, q.State(), Valid() && New(ledger, tasks);
      FormedKeys();
      NoPushes(was, start);
      var i := 0;
      assert tasks[..0] == [] && rnds[..0] == [];
      while i < |tasks|
        invariant 0 <= i <= |tasks| && q.Formed()
        invariant q.State() == PushedAll(start, tasks[..i], rnds[..i])
        invariant fits ==> Valid() && ledger == AfterPushes(was, tasks[..i])
      {
        if fits { NextIsNew(was, tasks, i); }
        PushesSnoc(was, tasks, i);
        PushedAllSnoc(start, tasks, rnds, i);
        PushOne(tasks[i], rnds[i]);
        i := i + 1;
      }
      assert tasks[..|tasks|] == tasks && rnds[..|rnds|] == rnds;
    }

    lemma FormedKeys()
      requires q.Formed()
      ensures q.State().q.Keys == KeySet(q.hosts) && q.State().hosts == q.hosts
    {}

    method PushOne(task: Task, rnd: nat)
      requires q.Formed() && (q.hosts != [] ==> rnd < |q.hosts|)
      modifies this`ledger, q
      ensures q.Formed() && q.State() == Pushed(old(q.State()), task, rnd)
      ensures old(Valid()) && task !in old(ledger).queued ==> Valid() && ledger == AfterPush(old(ledger), task)
    {
      if Valid() && task !in ledger.queued {
        PushBalances(ledger, task);
        ledger := AfterPush(ledger, task);
      }
      q.Push(task, rnd);
    }

    /** The queue of this host holds a task. */
    ghost predicate HasOwn(host: Host)
      reads q
    {
      host in q.q && q.q[host] != []
    }

    /** One pass through the loop of `pop` by `thread`, which has waited `n` times with tasks in the
        queue. It stops only when told to. It delivers the first task of its own host; without one
        it waits twice before it steals the first task of the most worthwhile queue. */
    method TryPop(thread: Thread, host: Host, n: nat) returns (r: PopResult)
      requires Valid()
      modifies this`threadsToEnd, this`ledger, q, q.throughput
      ensures Valid()
      ensures r.Stop? <==> old(finished) || (old(threadsToEnd) != [] && old(threadsToEnd)[0] == thread)
      ensures r.Deliver? ==> r.task in old(ledger).queued && ledger == AfterPop(old(ledger), r.task)
      ensures !r.Deliver? ==> ledger == old(ledger)
      ensures threadsToEnd == Passed(old(threadsToEnd), thread)
      ensures q.hosts == [] || old(ledger).queued == {} ==> r.Stop? || r == Wait(n)
      ensures !r.Stop? && q.hosts != [] && old(HasOwn(host)) ==> r == Deliver(old(q.q)[host][0])
      ensures !r.Stop? && q.hosts != [] && !old(HasOwn(host)) && old(ledger).queued != {} && n <= 1 ==> r == Wait(n + 1)
      ensures !r.Stop? && q.hosts != [] && !old(HasOwn(host)) && old(ledger).queued != {} && n > 1 ==>
                r.Deliver? && exists k :: k in old(q.q) && StealsFrom(old(q.q), q.hosts, host, k) && r.task == old(q.q)[k][0]
      ensures q.q == if r.Deliver? then map k | k in old(q.q) :: Without(old(q.q)[k], r.task) else old(q.q)
    {
      hide Consistent, Balanced, AfterPop, Head, StealsFrom;
      QueuedSomewhere(host);
      if threadsToEnd != [] && threadsToEnd[0] == thread {
        threadsToEnd := threadsToEnd[1..];
        return Stop;
      }
      if finished { return Stop; }
      var empty := q.Empty();
      if empty { return Wait(n); }
      var task := Take(host, n);
      r := if task.Some? then Deliver(task.value) else Wait(n + 1);
    }

    lemma QueuedSomewhere(host: Host)
      requires Valid()
      ensures HasOwn(host) ==> ledger.queued != {}
      ensures q.q.Keys == KeySet(q.hosts)
      ensures q.hosts != [] ==> (ledger.queued == {} <==> forall h | h in q.hosts :: q.q[Some(h)] == [])
    {
      SomeQueued(q.bag, host);
      EmptyMeansNoTasks(q.State(), q.bag.homes);
    }

    /** `@q.pop`, and `@q.pop_alt` once the thread has waited twice. */
    method Take(host: Host, n: nat) returns (task: Option<Task>)
      requires Valid()
      modifies this`ledger, q, q.throughput
      ensures Valid()
      ensures task.Some? ==> task.value in old(ledger).queued && ledger == AfterPop(old(ledger), task.value)
      ensures task.None? ==> ledger == old(ledger) && q.State() == old(q.State())
      ensures old(HasOwn(host)) ==> task == Some(old(q.q)[host][0])
      ensures !old(HasOwn(host)) && n <= 1 ==> task == None
      ensures !old(HasOwn(host)) && n > 1 && old(ledger).queued != {} ==>
                task.Some? && exists k :: k in old(q.q) && StealsFrom(old(q.q), q.hosts, host, k) && task.value == old(q.q)[k][0]
      ensures q.q == if task.Some? then map k | k in old(q.q) :: Without(old(q.q)[k], task.value) else old(q.q)
    {
      hide Consistent, Head, StealsFrom, Without;
      task := TakeFrom(host, n);
      if task.Some? {
        PopBalances(ledger, task.value);
        ledger := AfterPop(ledger, task.value);
      }
    }

    method TakeFrom(host: Host, n: nat) returns (task: Option<Task>)
      requires q.Valid()
      modifies q, q.throughput
      ensures q.Valid()
      ensures task.Some? ==> task.value in old(q.Held()) && q.Held().Keys == old(q.Held().Keys) - {task.value}
      ensures task.None? ==> q.Held() == old(q.Held()) && q.State() == old(q.State())
      ensures old(HasOwn(host)) ==> task == Some(old(q.q)[host][0])
      ensures !old(HasOwn(host)) && n <= 1 ==> task == None
      ensures !old(HasOwn(host)) && n > 1 && old(q.Held().Keys) != {} ==>
                task.Some? && exists k :: k in old(q.q) && StealsFrom(old(q.q), q.hosts, host, k) && task.value == old(q.q)[k][0]
      ensures q.q == if task.Some? then map k | k in old(q.q) :: Without(old(q.q)[k], task.value) else old(q.q)
    {
      SomeQueued(q.bag, host);
      task := q.Pop(host);
      if task.None? && n > 1 {
        AltKeyIsBest(q.State(), host);
        SomeQueued(q.bag, AltKey(q.State(), host));
        task := q.PopAlt(host);
      }
    }

    method Finish()
      requires Valid()
      modifies this`finished
      ensures Valid() && finished
    {
      finished := true;
    }

    method ThreadEnd(thread: Thread)
      requires Valid()
      modifies this`threadsToEnd
      ensures Valid() && threadsToEnd == old(threadsToEnd) + [thread]
    {
      threadsToEnd := threadsToEnd + [thread];
    }
  }

  /** What is delivered was queued; and if all queues are empty, nothing is. */
  lemma SomeQueued(b: Bag, host: Host)
    ensures Head(b.queues, host).Some? ==> Head(b.queues, host).value in b.homes
    ensures (forall k :: k in b.queues.q ==> b.queues.q[k] == []) ==> b.homes.Keys == {}
  {
    var s := b.queues;
    if Head(s, host).Some? { assert s.q[host][0] in s.q[host]; }
    EmptyMeansNoTasks(s, b.homes);
  }
}
