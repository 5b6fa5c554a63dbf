/** `AffinityQueue::HostQueue`, which keeps a task in the queue of every host
    that holds its data and still delivers it once, and the `AffinityQueue`
    built on it. */
module HostQueues {
  import opened Throughputs

  /** A Rake task, with the hosts its data is on. */
  datatype Task = Task(id: nat, locality: seq<string>)

  function Count<T(==)>(s: seq<T>, x: T): nat {
    if s == [] then 0
    else Count(s[..|s| - 1], x) + if s[|s| - 1] == x then 1 else 0
  }

  lemma {:induction false} CountIn<T>(s: seq<T>, x: T)
    ensures Count(s, x) > 0 <==> x in s
  {
    if s != [] {
      CountIn(s[..|s| - 1], x);
      assert s == s[..|s| - 1] + [s[|s| - 1]];
    }
  }

  lemma {:induction false} CountPlus<T>(s: seq<T>, t: seq<T>, x: T)
    ensures Count(s + t, x) == Count(s, x) + Count(t, x)
    ensures Count([x], x) == 1
  {
    assert [x][..0] == [];
    if t == [] {
      assert s + t == s;
    } else {
      assert (s + t)[..|s + t| - 1] == s + t[..|t| - 1];
      CountPlus(s, t[..|t| - 1], x);
    }
  }

  /** `delete_if { |x| j.equal? x }`. */
  function Without<T(==)>(s: seq<T>, t: T): (r: seq<T>)
    ensures t !in r && |r| <= |s|
    ensures forall x :: x in r ==> x in s
    ensures t !in s ==> r == s
  {
    if s == [] then [] else if s[0] == t then Without(s[1..], t) else [s[0]] + Without(s[1..], t)
  }

  lemma {:induction false} WithoutCounts<T>(s: seq<T>, t: T, x: T)
    ensures Count(Without(s, t), x) == if x == t then 0 else Count(s, x)
  {
    if s != [] {
      assert s == [s[0]] + s[1..];
      CountPlus([s[0]], s[1..], x);
      CountPlus([s[0]], Without(s[1..], t), x);
      WithoutCounts(s[1..], t, x);
    }
  }

  /** What deleting means: each piece is kept in its place, or dropped if it is that task. */
  lemma {:induction false} WithoutJoins<T>(s: seq<T>, s': seq<T>, t: T, x: T)
    ensures Without(s + s', t) == Without(s, t) + Without(s', t)
    ensures Without([x], t) == if x == t then [] else [x]
  {
    if s == [] {
      assert s + s' == s';
    } else {
      assert (s + s')[1..] == s[1..] + s';
      WithoutJoins(s[1..], s', t, x);
    }
    assert [x][1..] == [];
  }

  function Repeat<T>(t: T, n: nat): (r: seq<T>)
    ensures |r| == n && forall x :: x in r ==> x == t
  {
    if n == 0 then [] else Repeat(t, n - 1) + [t]
  }

  /** The keys of `@q`, in the order in which they were put in: the hosts, then `nil`. */
  function AllKeys(hosts: seq<string>): (r: seq<Host>)
    ensures |r| == |hosts| + 1
    ensures forall k :: k in r <==> k == None || (k.Some? && k.value in hosts)
  {
    if hosts == [] then [None] else [Some(hosts[0])] + AllKeys(hosts[1..])
  }

  function KeyAt(hosts: seq<string>, i: nat): Host {
    if i < |hosts| then Some(hosts[i]) else None
  }

  function KeySet(hosts: seq<string>): (r: set<Host>)
    ensures forall k :: k in r <==> k == None || (k.Some? && k.value in hosts)
  {
    set k | k in AllKeys(hosts)
  }

  /** The queues in which a task with this locality list is put: one entry for
      each listed host that has a queue, duplicates included. */
  function Homes(hosts: seq<string>, locality: seq<string>): (r: seq<Host>)
    ensures forall k :: k in r ==> k.Some? && k.value in hosts && k.value in locality
  {
    if locality == [] then []
    else
      var h := locality[|locality| - 1];
      var home := Homes(hosts, locality[..|locality| - 1]);
      if h in hosts then home + [Some(h)] else home
  }

  function Values(ks: seq<Host>): seq<string>
    requires forall k :: k in ks ==> k.Some?
  {
    if ks == [] then [] else Values(ks[..|ks| - 1]) + [ks[|ks| - 1].value]
  }

  lemma {:induction false} ValuesIn(ks: seq<Host>)
    requires forall k :: k in ks ==> k.Some?
    ensures forall k :: k in ks ==> k.value in Values(ks)
    ensures forall v :: v in Values(ks) ==> Some(v) in ks
  {
    if ks != [] {
      var shorter, last := ks[..|ks| - 1], ks[|ks| - 1];
      ValuesIn(shorter);
      assert ks == shorter + [last] && Values(ks) == Values(shorter) + [last.value];
      forall v | v in Values(ks)
        ensures Some(v) in ks
      {
        if v in Values(shorter) { assert Some(v) in shorter; } else { assert v == last.value; }
      }
    }
  }

  /** Where a task is put: at its located hosts, else at the host `rand` picks,
      else, with no hosts, in the `nil` queue. */
  function HomeFor(hosts: seq<string>, locality: seq<string>, rnd: nat): seq<Host>
    requires hosts != [] ==> rnd < |hosts|
  {
    if Homes(hosts, locality) != [] then Homes(hosts, locality)
    else if hosts == [] then [None] else [Some(hosts[rnd])]
  }

  /** How often a push puts the task in the queue of `k`: as often as its locality list names the host,
      if any listed host has a queue; else once, at the host drawn. */
  ghost function Shares(hosts: seq<string>, locality: seq<string>, rnd: nat, k: Host): nat
    requires hosts != [] ==> rnd < |hosts|
  {
    if exists h :: h in locality && h in hosts then
      if k.Some? && k.value in hosts then Count(locality, k.value) else 0
    else if k == (if hosts == [] then None else Some(hosts[rnd])) then 1 else 0
  }

  lemma {:induction false} HomesCount(hosts: seq<string>, locality: seq<string>, k: Host)
    ensures Count(Homes(hosts, locality), k) == if k.Some? && k.value in hosts then Count(locality, k.value) else 0
  {
    if locality != [] {
      var earlier, h := locality[..|locality| - 1], locality[|locality| - 1];
      HomesCount(hosts, earlier, k);
      if h in hosts {
        assert (Homes(hosts, earlier) + [Some(h)])[..|Homes(hosts, earlier)|] == Homes(hosts, earlier);
      }
    }
  }

  lemma {:induction false} HomesExist(hosts: seq<string>, locality: seq<string>)
    ensures Homes(hosts, locality) != [] <==> exists h :: h in locality && h in hosts
  {
    if locality != [] {
      HomesExist(hosts, locality[..|locality| - 1]);
      assert locality == locality[..|locality| - 1] + [locality[|locality| - 1]];
    }
  }

  lemma SharesAre(hosts: seq<string>, locality: seq<string>, rnd: nat, k: Host)
    requires hosts != [] ==> rnd < |hosts|
    ensures Count(HomeFor(hosts, locality, rnd), k) == Shares(hosts, locality, rnd, k)
  {
    HomesCount(hosts, locality, k);
    HomesExist(hosts, locality);
    var one: Host := if hosts == [] then None else Some(hosts[rnd]);
    assert [one][..0] == [];
  }

  lemma {:induction false} AppendCounts<T>(s: seq<T>, t: T, n: nat, x: T)
    ensures Count(s + Repeat(t, n), x) == Count(s, x) + if x == t then n else 0
  {
    if n == 0 {
      assert s + Repeat(t, 0) == s;
    } else {
      AppendCounts(s, t, n - 1, x);
      assert s + Repeat(t, n) == s + Repeat(t, n - 1) + [t];
    }
  }

  /** `q` with `j` put at the end of the queue of each key in `home`, one key
      after the other. */
  function Appended<T>(q: map<Host, seq<T>>, home: seq<Host>, j: T): (r: map<Host, seq<T>>)
    requires forall k :: k in home ==> k in q
    ensures r.Keys == q.Keys
  {
    if home == [] then q
    else
      var key := home[|home| - 1];
      assert key in home;
      var r := Appended(q, home[..|home| - 1], j);
      r[key := r[key] + [j]]
  }

  lemma {:induction false} AppendedIs<T>(q: map<Host, seq<T>>, home: seq<Host>, j: T, k: Host)
    requires (forall h :: h in home ==> h in q) && k in q
    ensures Appended(q, home, j)[k] == q[k] + Repeat(j, Count(home, k))
  {
    if home != [] {
      AppendedIs(q, home[..|home| - 1], j, k);
    }
  }

  /** `q` with `j` deleted from the queues of the hosts in `xs`. */
  function Deleted<T(==)>(q: map<Host, seq<T>>, xs: seq<string>, j: T): (r: map<Host, seq<T>>)
    requires forall x :: x in xs ==> Some(x) in q
    ensures r.Keys == q.Keys
  {
    if xs == [] then q
    else
      var key := Some(xs[|xs| - 1]);
      var r := Deleted(q, xs[..|xs| - 1], j);
      r[key := Without(r[key], j)]
  }

  lemma {:induction false} DeletedIs<T>(q: map<Host, seq<T>>, xs: seq<string>, j: T, k: Host)
    requires (forall x :: x in xs ==> Some(x) in q) && k in q
    ensures Deleted(q, xs, j)[k] == if k.Some? && k.value in xs then Without(q[k], j) else q[k]
  {
    if xs != [] {
      DeletedIs(q, xs[..|xs| - 1], j, k);
      assert xs == xs[..|xs| - 1] + [xs[|xs| - 1]];
      assert j !in Without(q[k], j);
    }
  }

  /** `homes` says in which queues of `q`, and how often, each queued task sits. */
  ghost predicate Layout<T>(hosts: seq<string>, q: map<Host, seq<T>>, homes: map<T, seq<Host>>) {
    && q.Keys == KeySet(hosts)
    && (forall k, t :: k in q && t in q[k] ==> t in homes)
    && (forall k, t {:trigger Count(q[k], t)} {:trigger Count(homes[t], k)} ::
          k in q && t in homes ==> Count(q[k], t) == Count(homes[t], k))
    && (forall t :: t in homes ==> homes[t] != [] && forall k :: k in homes[t] ==> k in q)
    && (hosts != [] ==> q[None] == [])
  }

  lemma PushLayout<T>(hosts: seq<string>, q: map<Host, seq<T>>, homes: map<T, seq<Host>>,
                      j: T, home: seq<Host>)
    requires Layout(hosts, q, homes) && j !in homes
    requires home != [] && (forall k :: k in home ==> k in q) && (hosts != [] ==> None !in home)
    ensures Layout(hosts, Appended(q, home, j), homes[j := home])
  {
    var q' := Appended(q, home, j);
    forall k | k in q
      ensures q'[k] == q[k] + Repeat(j, Count(home, k))
    {
      AppendedIs(q, home, j, k);
    }
    forall k, t | k in q' && t in homes[j := home]
      ensures Count(q'[k], t) == Count(homes[j := home][t], k)
    {
      AppendCounts(q[k], j, Count(home, k), t);
      CountIn(q[k], j);
    }
    forall k, t | k in q' && t in q'[k]
      ensures t in homes[j := home]
    {
      assert t in q[k] || t in Repeat(j, Count(home, k));
    }
    if hosts != [] {
      CountIn(home, None);
      assert None in KeySet(hosts) && Count(home, None) == 0;
    }
  }

  lemma PopLayout<T>(hosts: seq<string>, q: map<Host, seq<T>>, homes: map<T, seq<Host>>,
                     j: T, q': map<Host, seq<T>>)
    requires Layout(hosts, q, homes) && j in homes && q'.Keys == q.Keys
    requires forall k :: k in q ==> q'[k] == Without(q[k], j)
    ensures Layout(hosts, q', homes - {j})
  {
    var homes' := homes - {j};
    forall k, t | k in q' && t in homes'
      ensures Count(q'[k], t) == Count(homes'[t], k)
    {
      WithoutCounts(q[k], j, t);
      assert homes'[t] == homes[t] && t != j;
    }
    forall k, t | k in q' && t in q'[k]
      ensures t in homes'
    {
      assert t in q[k] && t != j;
    }
    forall t | t in homes'
      ensures homes'[t] != [] && forall k :: k in homes'[t] ==> k in q'
    {
      assert homes'[t] == homes[t];
    }
  }

  lemma {:induction false} KeysInOrder(hosts: seq<string>, i: nat)
    requires i <= |hosts|
    ensures AllKeys(hosts)[i] == KeyAt(hosts, i)
  {
    if hosts != [] && i > 0 { KeysInOrder(hosts[1..], i - 1); }
  }

  /** What a `HostQueue` holds: the queue of each key, the `assigned` list of
      each task, and `@size`. */
  datatype Queues = Queues(hosts: seq<string>, q: map<Host, seq<Task>>, placed: map<Task, seq<string>>, size: int)

  function AssignedTo(s: Queues, j: Task): seq<string> {
    if j in s.placed then s.placed[j] else []
  }

  /** What a push does: the task joins the end of each of its queues. `rnd` is
      the index `rand(@hosts.size)` yields. */
  function Pushed(s: Queues, j: Task, rnd: nat): Queues
    requires s.q.Keys == KeySet(s.hosts) && (s.hosts != [] ==> rnd < |s.hosts|)
  {
    var home := HomeFor(s.hosts, j.locality, rnd);
    s.(q := Appended(s.q, home, j),
       placed := s.placed[j := AssignedTo(s, j) + Values(Homes(s.hosts, j.locality))],
       size := s.size + 1)
  }

  lemma PushedQueues(s: Queues, j: Task, rnd: nat)
    requires s.q.Keys == KeySet(s.hosts) && (s.hosts != [] ==> rnd < |s.hosts|)
    ensures Pushed(s, j, rnd).q.Keys == s.q.Keys && Pushed(s, j, rnd).size == s.size + 1
    ensures forall k | k in s.q :: Pushed(s, j, rnd).q[k] == s.q[k] + Repeat(j, Shares(s.hosts, j.locality, rnd, k))
  {
    forall k | k in s.q
      ensures Pushed(s, j, rnd).q[k] == s.q[k] + Repeat(j, Shares(s.hosts, j.locality, rnd, k))
    {
      AppendedIs(s.q, HomeFor(s.hosts, j.locality, rnd), j, k);
      SharesAre(s.hosts, j.locality, rnd, k);
    }
  }

  /** The state after the first hosts of a locality list have been handled. */
  function Located(s: Queues, j: Task, locality: seq<string>): (r: Queues)
    requires s.q.Keys == KeySet(s.hosts)
    ensures r.q.Keys == s.q.Keys && j in r.placed && r.hosts == s.hosts
  {
    if locality == [] then s.(placed := s.placed[j := AssignedTo(s, j)])
    else
      var h := locality[|locality| - 1];
      var r := Located(s, j, locality[..|locality| - 1]);
      if h in s.hosts then
        r.(q := r.q[Some(h) := r.q[Some(h)] + [j]], placed := r.placed[j := r.placed[j] + [h]])
      else r
  }

  lemma LocatedNone(s: Queues, j: Task, none: seq<string>)
    requires s.q.Keys == KeySet(s.hosts) && none == []
    ensures Located(s, j, none) == s.(placed := s.placed[j := AssignedTo(s, j)]) && Homes(s.hosts, none) == []
  {}

  /** Handling one more listed host. */
  lemma LocatedStep(s: Queues, j: Task, earlier: seq<string>, h: string)
    requires s.q.Keys == KeySet(s.hosts)
    ensures var r := Located(s, j, earlier);
      Located(s, j, earlier + [h]) ==
        if h in s.hosts then
          r.(q := r.q[Some(h) := r.q[Some(h)] + [j]], placed := r.placed[j := r.placed[j] + [h]])
        else r
    ensures Homes(s.hosts, earlier + [h]) == Homes(s.hosts, earlier) + if h in s.hosts then [Some(h)] else []
  {
    assert (earlier + [h])[..|earlier + [h]| - 1] == earlier;
  }

  lemma {:induction false} LocatedQueues(s: Queues, j: Task, locality: seq<string>)
    requires s.q.Keys == KeySet(s.hosts)
    ensures Located(s, j, locality).q == Appended(s.q, Homes(s.hosts, locality), j)
    ensures Located(s, j, locality).size == s.size
  {
    if locality != [] {
      var earlier, h := locality[..|locality| - 1], locality[|locality| - 1];
      LocatedQueues(s, j, earlier);
      var home := Homes(s.hosts, earlier);
      if h in s.hosts {
        assert (home + [Some(h)])[..|home|] == home;
        assert Homes(s.hosts, locality) == home + [Some(h)];
      }
    }
  }

  lemma {:induction false} LocatedPlaces(s: Queues, j: Task, locality: seq<string>)
    requires s.q.Keys == KeySet(s.hosts)
    ensures Located(s, j, locality).placed == s.placed[j := AssignedTo(s, j) + Values(Homes(s.hosts, locality))]
  {
    if locality == [] {
      assert AssignedTo(s, j) + Values(Homes(s.hosts, [])) == AssignedTo(s, j);
    } else {
      var earlier, h := locality[..|locality| - 1], locality[|locality| - 1];
      LocatedPlaces(s, j, earlier);
      PlaceOneMore(s.placed, j, AssignedTo(s, j), Homes(s.hosts, earlier), h);
    }
  }

  lemma PlaceOneMore(placed: map<Task, seq<string>>, j: Task, before: seq<string>, home: seq<Host>, h: string)
    requires forall k :: k in home ==> k.Some?
    ensures placed[j := before + Values(home)][j := before + Values(home) + [h]]
         == placed[j := before + Values(home + [Some(h)])]
  {
    ValuesSnoc(home, h);
    assert before + Values(home) + [h] == before + (Values(home) + [h]);
  }

  lemma ValuesSnoc(home: seq<Host>, h: string)
    requires forall k :: k in home ==> k.Some?
    ensures Values(home + [Some(h)]) == Values(home) + [h]
  {
    assert (home + [Some(h)])[..|home|] == home;
  }

  /** The task a pop for `host` delivers. */
  function Head(s: Queues, host: Host): Option<Task> {
    if host in s.q && s.q[host] != [] then Some(s.q[host][0]) else None
  }

  /** What a pop does: the task it delivers leaves every queue. */
  function Popped(s: Queues, host: Host): Queues {
    match Head(s, host)
    case None => s
    case Some(j) => s.(q := map k | k in s.q :: Without(s.q[k], j), size := s.size - 1)
  }

  predicate Known(hosts: seq<string>, placed: seq<string>) {
    forall x :: x in placed ==> x in hosts
  }

  /** A task sits in one queue, or only in queues named in its list. */
  predicate AtHome(home: seq<Host>, placed: seq<string>) {
    |home| == 1 || forall k :: k in home ==> k.Some? && k.value in placed
  }

  /** `homes` maps each queued task to the queues it sits in; `@size` is how
      many tasks are queued. */
  ghost predicate Consistent(s: Queues, homes: map<Task, seq<Host>>) {
    && Layout(s.hosts, s.q, homes)
    && s.size == |homes.Keys|
    && (forall t :: t in homes ==> AtHome(homes[t], AssignedTo(s, t)))
    && (forall t :: Known(s.hosts, AssignedTo(s, t)))
  }

  lemma PushPlaces(s: Queues, homes: map<Task, seq<Host>>, j: Task, rnd: nat, t: Task)
    requires Consistent(s, homes) && j !in homes && (s.hosts != [] ==> rnd < |s.hosts|)
    ensures Known(s.hosts, AssignedTo(Pushed(s, j, rnd), t))
    ensures t == j ==> AtHome(HomeFor(s.hosts, j.locality, rnd), AssignedTo(Pushed(s, j, rnd), t))
    ensures t != j ==> AssignedTo(Pushed(s, j, rnd), t) == AssignedTo(s, t)
  {
    var added := Values(Homes(s.hosts, j.locality));
    ValuesIn(Homes(s.hosts, j.locality));
    assert AssignedTo(Pushed(s, j, rnd), j) == AssignedTo(s, j) + added;
    assert Known(s.hosts, AssignedTo(s, j)) && Known(s.hosts, AssignedTo(s, t));
  }

  /** A push keeps the bookkeeping exactly when the task is not queued. */
  lemma PushKeeps(s: Queues, homes: map<Task, seq<Host>>, j: Task, rnd: nat)
    requires Consistent(s, homes) && (s.hosts != [] ==> rnd < |s.hosts|)
    ensures j !in homes ==> Consistent(Pushed(s, j, rnd), homes[j := HomeFor(s.hosts, j.locality, rnd)])
    ensures j in homes ==> forall homes' :: !Consistent(Pushed(s, j, rnd), homes')
  {
    if j in homes {
      forall homes' ensures !Consistent(Pushed(s, j, rnd), homes') { PushAgain(s, homes, j, rnd, homes'); }
    } else {
      PushOnce(s, homes, j, rnd);
    }
  }

  lemma PushOnce(s: Queues, homes: map<Task, seq<Host>>, j: Task, rnd: nat)
    requires Consistent(s, homes) && j !in homes && (s.hosts != [] ==> rnd < |s.hosts|)
    ensures Consistent(Pushed(s, j, rnd), homes[j := HomeFor(s.hosts, j.locality, rnd)])
  {
    var s', home := Pushed(s, j, rnd), HomeFor(s.hosts, j.locality, rnd);
    PushLayout(s.hosts, s.q, homes, j, home);
    var homes' := homes[j := home];
    assert homes'.Keys == homes.Keys + {j};
    forall t
      ensures Known(s'.hosts, AssignedTo(s', t))
    {
      PushPlaces(s, homes, j, rnd, t);
    }
    forall t | t in homes'
      ensures AtHome(homes'[t], AssignedTo(s', t))
    {
      PushPlaces(s, homes, j, rnd, t);
      if t != j { assert homes'[t] == homes[t] && AtHome(homes[t], AssignedTo(s, t)); }
    }
  }

  /** Pushed while it is queued, a task gets counted twice. */
  lemma PushAgain(s: Queues, homes: map<Task, seq<Host>>, j: Task, rnd: nat, homes': map<Task, seq<Host>>)
    requires Consistent(s, homes) && j in homes && (s.hosts != [] ==> rnd < |s.hosts|)
    ensures !Consistent(Pushed(s, j, rnd), homes')
  {
    var s', home := Pushed(s, j, rnd), HomeFor(s.hosts, j.locality, rnd);
    if Layout(s'.hosts, s'.q, homes') {
      forall k | k in s.q
        ensures s'.q[k] == s.q[k] + Repeat(j, Count(home, k))
      {
        AppendedIs(s.q, home, j, k);
      }
      forall t
        ensures t in homes <==> t in homes'
      {
        if t in homes { SitsSomewhere(s.hosts, s.q, homes, t); }
        if t in homes' { SitsSomewhere(s'.hosts, s'.q, homes', t); }
      }
      assert homes.Keys == homes'.Keys;
    }
  }

  lemma SitsSomewhere<T>(hosts: seq<string>, q: map<Host, seq<T>>, homes: map<T, seq<Host>>, t: T)
    requires Layout(hosts, q, homes) && t in homes
    ensures exists k :: k in q && t in q[k]
  {
    var k := homes[t][0];
    CountIn(homes[t], k);
    CountIn(q[k], t);
  }

  lemma PopKeeps(s: Queues, homes: map<Task, seq<Host>>, host: Host)
    requires Consistent(s, homes) && Head(s, host).Some?
    ensures Head(s, host).value in homes
    ensures Consistent(Popped(s, host), homes - {Head(s, host).value})
  {
    var j := Head(s, host).value;
    assert j in s.q[host];
    PopLayout(s.hosts, s.q, homes, j, Popped(s, host).q);
    assert (homes - {j}).Keys == homes.Keys - {j};
    assert forall t :: AssignedTo(Popped(s, host), t) == AssignedTo(s, t);
  }

  /** What `empty?` looks at: all host queues are empty. */
  ghost predicate LooksEmpty(s: Queues)
    requires s.q.Keys == KeySet(s.hosts)
  {
    forall h :: h in s.hosts ==> s.q[Some(h)] == []
  }

  /** The queue looks empty exactly when no task is queued, unless there are no hosts at all and
      a task is queued: then every task sits in the `nil` queue, unseen. */
  lemma EmptyMeansNoTasks(s: Queues, homes: map<Task, seq<Host>>)
    requires Consistent(s, homes)
    ensures (LooksEmpty(s) <==> homes == map[]) <==> s.hosts != [] || homes == map[]
    ensures s.hosts == [] ==> LooksEmpty(s) && homes.Keys == set t | t in s.q[None]
  {
    forall t | t in homes
      ensures exists k :: k in s.q && t in s.q[k]
    {
      SitsSomewhere(s.hosts, s.q, homes, t);
    }
    if s.hosts == [] {
      assert s.q.Keys == {None};
    } else if LooksEmpty(s) {
      assert forall k :: k in s.q ==> s.q[k] == [];
      assert homes.Keys == {};
    } else {
      var h :| h in s.hosts && s.q[Some(h)] != [];
      assert s.q[Some(h)][0] in homes;
    }
  }

  /** Shifting the head off its own queue and deleting it from the queues named
      in its list takes it out of every queue. */
  lemma ShiftAndDelete(s: Queues, homes: map<Task, seq<Host>>, host: Host)
    requires Consistent(s, homes) && Head(s, host).Some?
    ensures var j := Head(s, host).value;
      && (forall x :: x in AssignedTo(s, j) ==> Some(x) in s.q)
      && Deleted(s.q[host := s.q[host][1..]], AssignedTo(s, j), j) == Popped(s, host).q
  {
    NamedQueues(s, homes, Head(s, host).value);
    forall k | k in s.q
      ensures Deleted(s.q[host := s.q[host][1..]], AssignedTo(s, Head(s, host).value), Head(s, host).value)[k]
           == Without(s.q[k], Head(s, host).value)
    {
      ShiftedAndDeleted(s, homes, k, host);
    }
  }

  lemma NamedQueues(s: Queues, homes: map<Task, seq<Host>>, j: Task)
    requires Consistent(s, homes)
    ensures forall x :: x in AssignedTo(s, j) ==> Some(x) in s.q
  {
    assert Known(s.hosts, AssignedTo(s, j));
  }

  lemma ShiftedAndDeleted(s: Queues, homes: map<Task, seq<Host>>, k: Host, host: Host)
    requires Consistent(s, homes) && Head(s, host).Some? && k in s.q
    requires forall x :: x in AssignedTo(s, Head(s, host).value) ==> Some(x) in s.q
    ensures Deleted(s.q[host := s.q[host][1..]], AssignedTo(s, Head(s, host).value), Head(s, host).value)[k]
         == Without(s.q[k], Head(s, host).value)
  {
    var j := Head(s, host).value;
    DeletedIs(s.q[host := s.q[host][1..]], AssignedTo(s, j), j, k);
    Shifted(s, homes, k, host);
  }

  lemma Shifted(s: Queues, homes: map<Task, seq<Host>>, k: Host, host: Host)
    requires Consistent(s, homes) && Head(s, host).Some? && k in s.q
    ensures var j := Head(s, host).value;
      var shifted := if k == host then s.q[k][1..] else s.q[k];
      Without(s.q[k], j) == if k.Some? && k.value in AssignedTo(s, j) then Without(shifted, j) else shifted
  {
    if !(k.Some? && k.value in AssignedTo(s, Head(s, host).value)) { OnlyCopy(s, homes, k, host); }
  }

  /** A queue that is not named in the list of the head of `host` holds that
      head at most as the head itself. */
  lemma OnlyCopy(s: Queues, homes: map<Task, seq<Host>>, k: Host, host: Host)
    requires Consistent(s, homes) && Head(s, host).Some? && k in s.q
    requires !(k.Some? && k.value in AssignedTo(s, Head(s, host).value))
    ensures Head(s, host).value !in if k == host then s.q[k][1..] else s.q[k]
  {
    var j := Head(s, host).value;
    assert j in s.q[host];
    assert AtHome(homes[j], AssignedTo(s, j));
    CountIn(s.q[k], j);
    CountIn(s.q[host], j);
    CountIn(homes[j], k);
    CountIn(homes[j], host);
    if k == host {
      assert s.q[host] == [j] + s.q[host][1..];
      CountPlus([j], s.q[host][1..], j);
      assert homes[j] == [host];
      assert [host][..0] == [] && [j][..0] == [];
      CountIn(s.q[host][1..], j);
    }
  }

  // ----- Stealing

  /** The speed between `host` and `k`, times how many tasks wait at `k`. */
  function Weight(s: Queues, host: Host, k: Host): (w: real)
    requires k in s.q
    ensures w >= 0.0 && (w == 0.0 <==> s.q[k] == [])
  {
    WeightPositive(Speed(host, k), |s.q[k]|);
    Speed(host, k) * |s.q[k]| as real
  }

  lemma WeightPositive(speed: real, n: nat)
    requires speed > 0.0
    ensures speed * n as real >= 0.0 && (speed * n as real == 0.0 <==> n == 0)
  {}

  /** The key `pop_alt` has settled on after looking at `keys`: the first of the
      heaviest, or `nil` if none weighs anything. */
  function BestKey(s: Queues, host: Host, keys: seq<Host>): Host
    requires forall k :: k in keys ==> k in s.q
  {
    if keys == [] then None
    else
      var earlier, k := keys[..|keys| - 1], keys[|keys| - 1];
      assert k in keys;
      if Weight(s, host, k) > BestWeight(s, host, earlier) then k else BestKey(s, host, earlier)
  }

  function BestWeight(s: Queues, host: Host, keys: seq<Host>): real
    requires forall k :: k in keys ==> k in s.q
  {
    if keys == [] then 0.0
    else
      var earlier, k := keys[..|keys| - 1], keys[|keys| - 1];
      assert k in keys;
      if Weight(s, host, k) > BestWeight(s, host, earlier) then Weight(s, host, k)
      else BestWeight(s, host, earlier)
  }

  function AltKey(s: Queues, host: Host): Host
    requires s.q.Keys == KeySet(s.hosts)
  {
    BestKey(s, host, AllKeys(s.hosts))
  }

  lemma {:induction false} BestSoFar(s: Queues, host: Host, keys: seq<Host>)
    requires forall k :: k in keys ==> k in s.q
    ensures BestWeight(s, host, keys) >= 0.0
    ensures forall k :: k in keys ==> Weight(s, host, k) <= BestWeight(s, host, keys)
    ensures var best := BestKey(s, host, keys);
      if BestWeight(s, host, keys) == 0.0 then best == None
      else best in keys && Weight(s, host, best) == BestWeight(s, host, keys)
           && exists i :: 0 <= i < |keys| && keys[i] == best
                          && forall h | h in keys[..i] :: Weight(s, host, h) < Weight(s, host, best)
  {
    if keys != [] {
      var earlier, k := keys[..|keys| - 1], keys[|keys| - 1];
      assert k in keys;
      BestSoFar(s, host, earlier);
      assert keys == earlier + [k];
      FirstBest(s, host, keys);
    }
  }

  lemma FirstBest(s: Queues, host: Host, keys: seq<Host>)
    requires keys != [] && forall k :: k in keys ==> k in s.q
    requires var earlier := keys[..|keys| - 1];
      && (forall k :: k in earlier ==> Weight(s, host, k) <= BestWeight(s, host, earlier))
      && (BestWeight(s, host, earlier) != 0.0 ==>
            exists i :: 0 <= i < |earlier| && earlier[i] == BestKey(s, host, earlier)
              && forall h | h in earlier[..i] :: Weight(s, host, h) < Weight(s, host, earlier[i]))
    ensures BestWeight(s, host, keys) != 0.0 ==>
              exists i :: 0 <= i < |keys| && keys[i] == BestKey(s, host, keys)
                && forall h | h in keys[..i] :: Weight(s, host, h) < Weight(s, host, keys[i])
  {
    hide Weight;
    var n := |keys| - 1;
    var earlier, k := keys[..n], keys[n];
    assert k in keys;
    if Weight(s, host, k) > BestWeight(s, host, earlier) {
      assert keys[n] == BestKey(s, host, keys);
    } else if BestWeight(s, host, earlier) != 0.0 {
      var i :| 0 <= i < |earlier| && earlier[i] == BestKey(s, host, earlier)
               && forall h | h in earlier[..i] :: Weight(s, host, h) < Weight(s, host, earlier[i]);
      assert keys[..i] == earlier[..i] && keys[i] == earlier[i];
    }
  }

  lemma BestOfNone(s: Queues, host: Host, none: seq<Host>)
    requires none == []
    ensures BestKey(s, host, none) == None && BestWeight(s, host, none) == 0.0
  {}

  lemma BestStep(s: Queues, host: Host, earlier: seq<Host>, k: Host)
    requires k in s.q && forall h :: h in earlier ==> h in s.q
    ensures var heavier := s.q[k] != [] && Weight(s, host, k) > BestWeight(s, host, earlier);
      && BestKey(s, host, earlier + [k]) == (if heavier then k else BestKey(s, host, earlier))
      && BestWeight(s, host, earlier + [k]) == if heavier then Weight(s, host, k) else BestWeight(s, host, earlier)
  {
    BestSoFar(s, host, earlier);
    assert (earlier + [k])[..|earlier|] == earlier;
  }

  /** `pop_alt` delivers a task whenever some queue holds one, from a queue of
      greatest speed times length. */
  lemma AltKeyIsBest(s: Queues, host: Host)
    requires s.q.Keys == KeySet(s.hosts)
    ensures Head(s, AltKey(s, host)) == None <==> forall k :: k in s.q ==> s.q[k] == []
    ensures AltKey(s, host) in s.q
    ensures forall k :: k in s.q ==> Weight(s, host, k) <= Weight(s, host, AltKey(s, host))
  {
    var keys := AllKeys(s.hosts);
    BestSoFar(s, host, keys);
    var best := AltKey(s, host);
    assert None in keys && best in s.q;
    assert forall k :: k in s.q ==> k in keys;
    assert Weight(s, host, best) == BestWeight(s, host, keys);
  }

  /** The speed from `host` to `k` times the number of tasks there. */
  function Load(q: map<Host, seq<Task>>, host: Host, k: Host): real
    requires k in q
  {
    Speed(host, k) * |q[k]| as real
  }

  /** From where a worker of `host` steals: the first key, in order, of those with the greatest load. */
  ghost predicate StealsFrom(q: map<Host, seq<Task>>, hosts: seq<string>, host: Host, k: Host)
    requires q.Keys == KeySet(hosts)
  {
    exists i :: 0 <= i <= |hosts| && KeyAt(hosts, i) == k && q[k] != []
      && (forall j | 0 <= j < i :: Load(q, host, KeyAt(hosts, j)) < Load(q, host, k))
      && (forall j | i <= j <= |hosts| :: Load(q, host, KeyAt(hosts, j)) <= Load(q, host, k))
  }

  /** The place of the key chosen, among all keys. */
  lemma AltKeyPlace(s: Queues, host: Host) returns (i: nat)
    requires s.q.Keys == KeySet(s.hosts) && exists k :: k in s.q && s.q[k] != []
    ensures i <= |s.hosts| && AllKeys(s.hosts)[i] == AltKey(s, host) && AltKey(s, host) in s.q && s.q[AltKey(s, host)] != []
    ensures forall h | h in AllKeys(s.hosts)[..i] :: h in s.q && Weight(s, host, h) < Weight(s, host, AltKey(s, host))
  {
    var keys, best := AllKeys(s.hosts), AltKey(s, host);
    AltKeyIsBest(s, host);
    BestSoFar(s, host, keys);
    hide Weight, BestKey, BestWeight;
    i :| 0 <= i < |keys| && keys[i] == best && forall h | h in keys[..i] :: Weight(s, host, h) < Weight(s, host, best);
  }

  lemma AltKeySteals(s: Queues, host: Host)
    requires s.q.Keys == KeySet(s.hosts) && exists k :: k in s.q && s.q[k] != []
    ensures StealsFrom(s.q, s.hosts, host, AltKey(s, host))
  {
    AltKeyIsBest(s, host);
    var i := AltKeyPlace(s, host);
    KeysInOrder(s.hosts, i);
    hide Load, AltKey, Weight, AllKeys, KeyAt;
    var best := AltKey(s, host);
    LoadIsWeight(s, host, best);
    forall j | 0 <= j <= |s.hosts|
      ensures KeyAt(s.hosts, j) in s.q
      ensures j < i ==> Load(s.q, host, KeyAt(s.hosts, j)) < Load(s.q, host, best)
      ensures Load(s.q, host, KeyAt(s.hosts, j)) <= Load(s.q, host, best)
    {
      KeysInOrder(s.hosts, j);
      var h := KeyAt(s.hosts, j);
      assert h in AllKeys(s.hosts);
      LoadIsWeight(s, host, h);
      if j < i { assert AllKeys(s.hosts)[..i][j] == h; }
    }
  }

  lemma LoadIsWeight(s: Queues, host: Host, k: Host)
    requires k in s.q
    ensures Load(s.q, host, k) == Weight(s, host, k)
  {}

  /** A state together with where its tasks sit. */
  datatype Snapshot = Snapshot(queues: Queues, homes: map<Task, seq<Host>>)

  type Bag = b: Snapshot | Consistent(b.queues, b.homes)
    ghost witness Snapshot(Queues([], map[None := []], map[], 0), map[])

  // ----- The queue as it runs

  class HostQueue {
    const hosts: seq<string>
    const throughput: Throughput
    var q: map<Host, seq<Task>>
    var placed: map<Task, seq<string>>
    var size: int
    ghost var bag: Bag

    ghost function State(): Queues
      reads this
    {
      Queues(hosts, q, placed, size)
    }

    ghost predicate Valid()
      reads this, throughput
    {
      Tuned() && State() == bag.queues
    }

    /** There is a queue for each host. This holds even when the bookkeeping is wrong. */
    ghost predicate Formed()
      reads this, throughput
    {
      Tuned() && q.Keys == KeySet(hosts)
    }

    lemma ValidIsFormed()
      requires Valid()
      ensures Formed()
    {}

    /** Each queued task, with the queues it sits in. */
    ghost function Held(): map<Task, seq<Host>>
      reads this
    {
      bag.homes
    }

    /** The throughput table is a default one. */
    ghost predicate Tuned()
      reads throughput
    {
      throughput.Valid() && throughput.memo.given == map[] && throughput.minValue == Some(1.0)
    }

    constructor (hosts: seq<string>)
      ensures Valid() && Held() == map[] && this.hosts == hosts && fresh(throughput)
    {
      this.hosts := hosts;
      throughput := new Throughput();
      q := map k | k in KeySet(hosts) :: [];
      placed, size := map[], 0;
      var empty := Queues(hosts, map k | k in KeySet(hosts) :: [], map[], 0);
      bag := Snapshot(empty, map[]);
    }

    /** A push of a task that is queued is carried out all the same, but the picture of the bag
        no longer fits. */
    method Push(j: Task, rnd: nat)
      requires Formed() && (hosts != [] ==> rnd < |hosts|)
      modifies this
      ensures Formed() && State() == Pushed(old(State()), j, rnd)
      ensures q.Keys == old(q.Keys) && size == old(size) + 1
      ensures forall k | k in old(q) :: q[k] == old(q)[k] + Repeat(j, Shares(hosts, j.locality, rnd, k))
      ensures old(Valid()) && j in old(Held()) ==> forall homes :: !Consistent(State(), homes)
      ensures old(Valid()) && j !in old(Held()) ==>
                Valid() && Held() == old(Held())[j := HomeFor(hosts, j.locality, rnd)] && Held().Keys == old(Held()).Keys + {j}
    {
      PushedQueues(State(), j, rnd);
      hide Consistent, Pushed, HomeFor, Shares, Repeat, KeySet;
      Note(j, rnd);
      Store(j, rnd);
    }

    /** The picture of the bag, if it fits and goes on fitting. */
    ghost method Note(j: Task, rnd: nat)
      requires q.Keys == KeySet(hosts) && (hosts != [] ==> rnd < |hosts|)
      modifies this`bag
      ensures old(Valid()) && j in old(Held()) ==> forall homes :: !Consistent(Pushed(State(), j, rnd), homes)
      ensures old(Valid()) && j !in old(Held()) ==>
                && bag.queues == Pushed(State(), j, rnd)
                && Held() == old(Held())[j := HomeFor(hosts, j.locality, rnd)] && Held().Keys == old(Held()).Keys + {j}
    {
      hide Consistent, Pushed, HomeFor, KeySet;
      if Valid() {
        PushKeeps(State(), bag.homes, j, rnd);
        if j !in bag.homes { Register(j, rnd); }
      }
    }

    /** The picture of the bag after the push. */
    ghost method Register(j: Task, rnd: nat)
      requires Valid() && q.Keys == KeySet(hosts) && j !in Held() && (hosts != [] ==> rnd < |hosts|)
      modifies this`bag
      ensures bag.queues == Pushed(State(), j, rnd)
      ensures Held() == old(Held())[j := HomeFor(hosts, j.locality, rnd)] && Held().Keys == old(Held()).Keys + {j}
    {
      hide Consistent, Pushed, HomeFor;
      PushOnce(State(), bag.homes, j, rnd);
      bag := Snapshot(Pushed(State(), j, rnd), bag.homes[j := HomeFor(hosts, j.locality, rnd)]);
    }

    method Store(j: Task, rnd: nat)
      requires q.Keys == KeySet(hosts) && (hosts != [] ==> rnd < |hosts|)
      modifies this`q, this`placed, this`size
      ensures State() == Pushed(old(State()), j, rnd) && q.Keys == KeySet(hosts)
    {
      LocatedQueues(State(), j, j.locality);
      LocatedPlaces(State(), j, j.locality);
      var stored := PushLocal(j);
      if !stored {
        var key: Host := if hosts == [] then None else Some(hosts[rnd]);
        assert [key][..0] == [];
        q := q[key := q[key] + [j]];
      }
      size := size + 1;
    }

    /** The loop over `j.locality`. */
    method PushLocal(j: Task) returns (stored: bool)
      requires q.Keys == KeySet(hosts)
      modifies this`q, this`placed
      ensures stored <==> Homes(hosts, j.locality) != []
      ensures State() == Located(old(State()), j, j.locality)
    {
      hide Located, Homes;
      stored := false;
      ghost var before := State();
      LocatedNone(before, j, j.locality[..0]);
      if j !in placed { placed := placed[j := []]; }
      var i := 0;
      while i < |j.locality|
        invariant 0 <= i <= |j.locality|
        invariant stored <==> Homes(hosts, j.locality[..i]) != []
        invariant State() == Located(before, j, j.locality[..i])
      {
        LocatedStep(before, j, j.locality[..i], j.locality[i]);
        assert j.locality[..i + 1] == j.locality[..i] + [j.locality[i]];
        var kept := PutAt(j, j.locality[i]);
        stored := stored || kept;
        i := i + 1;
      }
      assert j.locality[..|j.locality|] == j.locality;
    }

    /** One round of that loop. */
    method PutAt(j: Task, h: string) returns (kept: bool)
      requires q.Keys == KeySet(hosts) && j in placed
      modifies this`q, this`placed
      ensures kept == (h in hosts) && q.Keys == old(q.Keys)
      ensures kept ==> placed == old(placed)[j := old(placed)[j] + [h]]
                       && q == old(q)[Some(h) := old(q)[Some(h)] + [j]]
      ensures !kept ==> placed == old(placed) && q == old(q)
    {
      kept := Some(h) in q;
      if kept {
        placed := placed[j := placed[j] + [h]];
        q := q[Some(h) := q[Some(h)] + [j]];
      }
    }

    method Pop(host: Host) returns (r: Option<Task>)
      requires Valid()
      modifies this
      ensures Valid() && State() == Popped(old(State()), host) && r == Head(old(State()), host)
      ensures r == if host in old(q) && old(q)[host] != [] then Some(old(q)[host][0]) else None
      ensures q == if r.Some? then map k | k in old(q) :: Without(old(q)[k], r.value) else old(q)
      ensures Held() == if r.Some? then old(Held()) - {r.value} else old(Held())
    {
      hide Consistent, AssignedTo;
      if host !in q || q[host] == [] { return None; }
      PopKeeps(State(), bag.homes, host);
      ShiftAndDelete(State(), bag.homes, host);
      bag := Snapshot(Popped(State(), host), bag.homes - {q[host][0]});
      var j := Take(host);
      r := Some(j);
    }

    method Take(host: Host) returns (j: Task)
      requires Head(State(), host).Some?
      requires forall x :: x in AssignedTo(State(), Head(State(), host).value) ==> Some(x) in q
      modifies this`q, this`size
      ensures j == Head(old(State()), host).value
      ensures State() == old(State()).(size := old(size) - 1,
                q := Deleted(old(q)[host := old(q)[host][1..]], AssignedTo(old(State()), j), j))
    {
      j := q[host][0];
      q := q[host := q[host][1..]];
      DeleteAll(j, if j in placed then placed[j] else []);
      size := size - 1;
    }

    /** `j.assigned.each{ |x| @q[x].delete_if{ ... } }`. */
    method DeleteAll(j: Task, xs: seq<string>)
      requires forall x :: x in xs ==> Some(x) in q
      modifies this`q
      ensures q == Deleted(old(q), xs, j)
    {
      var i := 0;
      while i < |xs|
        invariant 0 <= i <= |xs| && q == Deleted(old(q), xs[..i], j)
      {
        assert xs[..i + 1][..i] == xs[..i];
        q := q[Some(xs[i]) := Without(q[Some(xs[i])], j)];
        i := i + 1;
      }
      assert xs[..|xs|] == xs;
    }

    method PopAlt(host: Host) returns (r: Option<Task>)
      requires Valid()
      modifies this, throughput
      ensures Valid()
      ensures r == Head(old(State()), AltKey(old(State()), host))
      ensures State() == Popped(old(State()), AltKey(old(State()), host))
      ensures r.None? <==> forall k | k in old(q) :: old(q)[k] == []
      ensures r.Some? ==> exists k :: k in old(q) && StealsFrom(old(q), hosts, host, k) && r.value == old(q)[k][0]
      ensures q == if r.Some? then map k | k in old(q) :: Without(old(q)[k], r.value) else old(q)
      ensures Held() == if r.Some? then old(Held()) - {r.value} else old(Held())
    {
      AltKeyIsBest(State(), host);
      if exists k :: k in q && q[k] != [] { AltKeySteals(State(), host); }
      var maxHost := ChooseAlt(host);
      r := Pop(maxHost);
    }

    /** The search for the heaviest queue. */
    method ChooseAlt(host: Host) returns (maxHost: Host)
      requires Tuned() && q.Keys == KeySet(hosts)
      modifies throughput
      ensures Tuned() && maxHost == AltKey(State(), host)
    {
      hide BestKey, BestWeight, Weight;
      maxHost := None;
      var maxNum := 0.0;
      var keys := AllKeys(hosts);
      ghost var s := State();
      BestOfNone(s, host, keys[..0]);
      var i := 0;
      while i < |keys|
        invariant 0 <= i <= |keys| && Tuned() && State() == s
        invariant maxHost == BestKey(s, host, keys[..i]) && maxNum == BestWeight(s, host, keys[..i])
      {
        assert keys[i] in keys;
        maxHost, maxNum := Consider(host, keys[i], maxHost, maxNum, keys[..i]);
        assert keys[..i + 1] == keys[..i] + [keys[i]];
        i := i + 1;
      }
      assert keys[..|keys|] == keys;
    }

    /** One round of the search. */
    method Consider(host: Host, k: Host, maxHost0: Host, maxNum0: real, ghost earlier: seq<Host>)
      returns (maxHost: Host, maxNum: real)
      requires Tuned() && k in q && forall h :: h in earlier ==> h in q
      requires maxHost0 == BestKey(State(), host, earlier) && maxNum0 == BestWeight(State(), host, earlier)
      modifies throughput
      ensures Tuned() && forall h :: h in earlier + [k] ==> h in q
      ensures maxHost == BestKey(State(), host, earlier + [k]) && maxNum == BestWeight(State(), host, earlier + [k])
    {
      hide BestKey, BestWeight, Weight;
      maxHost, maxNum := maxHost0, maxNum0;
      BestStep(State(), host, earlier, k);
      if q[k] != [] {
        var d := LoadOf(host, k);
        if d > maxNum {
          maxHost, maxNum := k, d;
        }
      }
    }

    method LoadOf(host: Host, k: Host) returns (d: real)
      requires Tuned() && k in q
      modifies throughput
      ensures Tuned() && d == Weight(State(), host, k)
    {
      var speed := throughput.InterHost(host, k);
      d := speed.value * |q[k]| as real;
    }

    method Empty() returns (b: bool)
      requires Valid()
      ensures b <==> forall h :: h in hosts ==> q[Some(h)] == []
      ensures (b <==> Held() == map[]) <==> hosts != [] || Held() == map[]
    {
      EmptyMeansNoTasks(State(), bag.homes);
      b := true;
      var i := 0;
      while i < |hosts|
        invariant 0 <= i <= |hosts|
        invariant b <==> forall l :: 0 <= l < i ==> q[Some(hosts[l])] == []
      {
        if q[Some(hosts[i])] != [] { b := false; }
        i := i + 1;
      }
    }
  }

  /** Without hosts, a task that was pushed is held by a queue that calls itself empty. */
  method PushWithoutHosts(j: Task) returns (queue: HostQueue, empty: bool)
    ensures fresh(queue) && queue.hosts == [] && empty && j in queue.Held() && queue.Held().Keys == {j}
  {
    queue := new HostQueue([]);
    queue.ValidIsFormed();
    queue.Push(j, 0);
    empty := queue.Empty();
  }
}
