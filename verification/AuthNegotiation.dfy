/** `auth_client.c` and `auth_config.c`: the client offers the server one authentication method
    after another. The negotiation is written twice, as a blocking loop and as callbacks. */
module AuthNegotiation {

  // ----- Methods and errors (auth.h)

  const NONE := 0
  const SHAREDSECRET := 1
  const GSI_OLD := 2
  const GSI := 3
  const GSI_AUTH := 4
  const NUMBER := 5
  const ALL := NONE

  datatype Error =
    | NoError
    | Protocol
    | ProtocolNotSupported
    | Expired
    | Authentication
    | PermissionDenied
    | NotAvailableForTheHost
    | UsableNotConfigured
    | RequestImplementation
    | MultiplexedImplementation
    | Other(code: int)

  /** After these errors the next method is tried. */
  predicate Retry(e: Error) {
    e == ProtocolNotSupported || e == Expired || e == Authentication
  }

  // ----- Configuration (auth_config.c)

  datatype Command = Enable | Disable

  /** One line of the configuration; `matches` tells whether its host specification fits the peer. */
  datatype Config = Config(command: Command, auth: int, matches: bool)

  predicate Mentions(c: Config, m: int) {
    c.matches && (c.auth == ALL || c.auth == m)
  }

  /** The first line that fits the peer and the method decides. */
  predicate EnabledBy(list: seq<Config>, m: int) {
    list != [] && (if Mentions(list[0], m) then list[0].command == Enable else EnabledBy(list[1..], m))
  }

  function Methods(): set<int> {
    {SHAREDSECRET, GSI_OLD, GSI, GSI_AUTH}
  }

  predicate WellFormed(list: seq<Config>) {
    forall c | c in list :: NONE <= c.auth < NUMBER
  }

  function EnabledMethods(list: seq<Config>): set<int> {
    set m | m in Methods() && EnabledBy(list, m)
  }

  /** `gfarm_auth_method_get_enabled_by_name_addr`; bit sets are sets of method numbers. */
  method GetEnabled(list: seq<Config>) returns (enabled: set<int>)
    requires WellFormed(list)
    ensures enabled == EnabledMethods(list)
  {
    enabled := {};
    var disabled: set<int> := {};
    for k := 0 to |list|
      invariant enabled <= Methods() && disabled <= Methods()
      invariant forall m | m in enabled :: EnabledBy(list, m)
      invariant forall m | m in disabled :: !EnabledBy(list, m)
      invariant forall m | m in Methods() && m !in enabled && m !in disabled :: EnabledBy(list, m) == EnabledBy(list[k..], m)
    {
      var acp := list[k];
      assert acp in list && list[k..][0] == acp && list[k..][1..] == list[k + 1..];
      if acp.matches {
        var methods;
        if acp.auth == ALL {
          methods := Methods() - (enabled + disabled);
        } else {
          methods := {acp.auth};
          if (enabled + disabled) * methods != {} {
            assert acp.auth in enabled + disabled;
            continue;
          }
        }
        match acp.command
        case Enable => enabled := enabled + methods;
        case Disable => disabled := disabled + methods;
      }
    }
    assert forall m :: !EnabledBy(list[|list|..], m);
  }

  /** `gfarm_auth_method_get_available`. */
  method GetAvailable(haveGsi: bool) returns (methods: set<int>)
    ensures methods == Available(haveGsi)
  {
    methods := {};
    for i := NONE + 1 to NUMBER
      invariant methods == set m | m in Available(haveGsi) && m < i
    {
      if i == GSI_OLD {
      } else if !haveGsi && (i == GSI || i == GSI_AUTH) {
      } else {
        methods := methods + {i};
      }
    }
  }

  /** All methods but the obsolete one, and without GSI support only the shared secret. */
  function Available(haveGsi: bool): set<int> {
    if haveGsi then {SHAREDSECRET, GSI, GSI_AUTH} else {SHAREDSECRET}
  }

  // ----- The trial table

  function TrialTable(haveGsi: bool): seq<int> {
    [SHAREDSECRET] + (if haveGsi then [GSI_AUTH, GSI] else []) + [NONE]
  }

  /** Every method that can be available is in the table, before the sentinel. */
  predicate Covers(table: seq<int>, methods: set<int>) {
    && table != [] && table[|table| - 1] == NONE
    && (forall i | 0 <= i < |table| - 1 :: table[i] != NONE)
    && (forall m | m in methods :: m != NONE && m in table)
  }

  lemma TableCovers(haveGsi: bool)
    ensures Covers(TrialTable(haveGsi), Available(haveGsi))
  {
    var t := TrialTable(haveGsi);
    assert t[0] == SHAREDSECRET;
    if haveGsi { assert t[1] == GSI_AUTH && t[2] == GSI; }
  }

  // ----- What the peer and the methods do

  /** What one receive call gives: its error, the end-of-file flag, and the number received. */
  datatype Reply = Reply(e: Error, eof: bool, error: int)

  datatype Listing = Listing(e: Error, eof: bool, bytes: seq<int>)

  /** The environment of one negotiation. The k-th request meets `send`, `reply`, and, if it gets
      so far, ends with `outcome`; `early` tells that the callback form fails at its start already. */
  datatype Env = Env(listing: Listing, send: nat -> Error, reply: nat -> Reply, outcome: nat -> Error, early: nat -> bool)

  datatype Plan = Plan(env: Env, table: seq<int>, methods: set<int>, server: set<int>, impl: Error)

  predicate Ready(p: Plan) {
    Covers(p.table, p.methods)
  }

  /** The requests sent from here on, the result, and the method that succeeded. */
  datatype Outcome = Outcome(sent: seq<int>, error: Error, auth: int)

  function Sent(m: int, o: Outcome): Outcome {
    o.(sent := [m] + o.sent)
  }

  /** The end of the table is reached: the sentinel was sent. */
  function GiveUp(p: Plan, save: Error): Error {
    if p.server == {} then PermissionDenied
    else if p.methods * p.server == {} then ProtocolNotSupported
    else if save != NoError then save
    else p.impl
  }

  /** After the exchange of method `m` has ended with `e`; `rest` is what follows if the next one is tried. */
  function Ended(m: int, e: Error, rest: Outcome): Outcome {
    if e == NoError then Outcome([], NoError, m) else if Retry(e) then rest else Outcome([], e, NONE)
  }

  /** After request `k` for method `m` was sent. */
  function Replied(p: Plan, m: int, k: nat, save: Error, rest: Outcome): Outcome {
    var r := p.env.reply(k);
    if r.e != NoError then Outcome([], r.e, NONE)
    else if r.eof || r.error != 0 then Outcome([], Protocol, NONE)
    else if m == NONE then Outcome([], GiveUp(p, save), NONE)
    else Ended(m, p.env.outcome(k), rest)
  }

  /** The negotiation from entry `i` of the table on; `k` requests were sent, `save` is the last error. */
  function Ask(p: Plan, i: nat, k: nat, save: Error): Outcome
    requires Ready(p) && i < |p.table|
    decreases |p.table| - i, 1
  {
    var m := p.table[i];
    if m != NONE && m !in p.methods * p.server then Ask(p, i + 1, k, save)
    else if p.env.send(k) != NoError then Outcome([m], p.env.send(k), NONE)
    else Sent(m, Replied(p, m, k, save, Next(p, i, k)))
  }

  /** The negotiation after the exchange of entry `i` asks for another method. */
  function Next(p: Plan, i: nat, k: nat): Outcome
    requires Ready(p) && i < |p.table|
    decreases |p.table| - i, 0
  {
    if p.table[i] == NONE then Outcome([], NoError, NONE) else Ask(p, i + 1, k + 1, p.env.outcome(k))
  }

  /** The sentinel is asked for only after every usable method: the implementation error is out of reach. */
  lemma {:induction false} ImplementationErrorUnreachable(p: Plan, other: Error, i: nat, k: nat, save: Error)
    requires Ready(p) && i < |p.table|
    requires save != NoError || p.methods * p.server == {} || exists j :: i <= j < |p.table| && p.table[j] in p.methods * p.server
    ensures Ask(p, i, k, save) == Ask(p.(impl := other), i, k, save)
    decreases |p.table| - i
  {
    var q := p.(impl := other);
    if p.table[i] != NONE && p.table[i] !in p.methods * p.server {
      ImplementationErrorUnreachable(p, other, i + 1, k, save);
    } else if p.table[i] != NONE {
      var e := p.env.outcome(k);
      if Retry(e) {
        ImplementationErrorUnreachable(p, other, i + 1, k + 1, e);
        assert Next(p, i, k) == Next(q, i, k);
      }
      assert Replied(p, p.table[i], k, save, Next(p, i, k)) == Replied(q, p.table[i], k, save, Next(q, i, k));
    } else {
      assert Replied(p, NONE, k, save, Next(p, i, k)) == Replied(q, NONE, k, save, Next(q, i, k));
    }
  }

  lemma SomeMember<T>(s: set<T>) returns (m: T)
    requires s != {}
    ensures m in s
  {
    m :| m in s;
  }

  /** From the first entry on, no run depends on the implementation error. */
  lemma NeverAnImplementationError(p: Plan, other: Error)
    requires Ready(p)
    ensures Ask(p, 0, 0, NoError) == Ask(p.(impl := other), 0, 0, NoError)
  {
    var usable := p.methods * p.server;
    if usable != {} {
      var m := SomeMember(usable);
      assert m in p.table;
      var j :| 0 <= j < |p.table| && p.table[j] == m;
    }
    ImplementationErrorUnreachable(p, other, 0, 0, NoError);
  }

  /** The requests are usable methods, in the order of the table, ended by the sentinel at most;
      the method that succeeds is the last one asked for. */
  lemma {:induction false} RequestsInTableOrder(p: Plan, i: nat, k: nat, save: Error)
    requires Ready(p) && i < |p.table|
    ensures var o := Ask(p, i, k, save);
            && o.sent != [] && InOrder(o.sent, p.table[i..]) && Usable(p, o.sent)
            && (o.auth != NONE ==> o.error == NoError && o.auth == o.sent[|o.sent| - 1])
    decreases |p.table| - i
  {
    hide InOrder, Usable, GiveUp;
    var t, m := p.table[i..], p.table[i];
    assert t[0] == m && t[1..] == p.table[i + 1..];
    if m != NONE && m !in p.methods * p.server {
      RequestsInTableOrder(p, i + 1, k, save);
      FirstUsable(p, Ask(p, i, k, save).sent, m);
      Skip(Ask(p, i, k, save).sent, t);
    } else {
      OneInOrder(m, t);
      OneUsable(p, m);
      if m != NONE {
        RequestsInTableOrder(p, i + 1, k + 1, p.env.outcome(k));
        var rest := Ask(p, i + 1, k + 1, p.env.outcome(k));
        assert Next(p, i, k) == rest;
        MoreInOrder(p, m, rest.sent, t);
        assert Ask(p, i, k, save).sent == if Fails(p.env, k) then [m] + rest.sent else [m];
      } else {
        assert Ask(p, i, k, save).sent == [m];
      }
    }
  }

  lemma FirstUsable(p: Plan, s: seq<int>, m: int)
    requires Usable(p, s) && s != [] && m != NONE && m !in p.methods * p.server
    ensures s[0] != m
  {}

  lemma OneUsable(p: Plan, m: int)
    requires m == NONE || m in p.methods * p.server
    ensures Usable(p, [m])
  {}

  lemma MoreInOrder(p: Plan, m: int, s: seq<int>, t: seq<int>)
    requires t != [] && t[0] == m && InOrder(s, t[1..]) && Usable(p, s) && m in p.methods * p.server
    ensures InOrder([m] + s, t) && Usable(p, [m] + s)
  {
    assert ([m] + s)[1..] == s;
  }

  predicate Usable(p: Plan, s: seq<int>) {
    forall a | 0 <= a < |s| :: s[a] in p.methods * p.server || (a == |s| - 1 && s[a] == NONE)
  }

  lemma Skip(s: seq<int>, t: seq<int>)
    requires s != [] && t != [] && InOrder(s, t[1..]) && s[0] != t[0]
    ensures InOrder(s, t)
  {}

  lemma OneInOrder(m: int, t: seq<int>)
    requires t != [] && t[0] == m
    ensures InOrder([m], t)
  {
    assert [m][1..] == [];
  }

  // ----- The course of every negotiation

  /** The order of preference: the shared secret first, then GSI authentication, then GSI, and the
      sentinel at the end. */
  function Preference(m: int): int {
    if m == SHAREDSECRET then 0 else if m == GSI_AUTH then 1 else if m == GSI then 2 else 3
  }

  ghost predicate Preferred(table: seq<int>) {
    forall i, j | 0 <= i < j < |table| :: Preference(table[i]) < Preference(table[j])
  }

  /** What request `k`, for method `m`, comes to if it is the last one; `last` is the error of the
      method tried before. */
  function LastWord(env: Env, methods: set<int>, server: set<int>, m: int, k: nat, last: Error): Error {
    if env.send(k) != NoError then env.send(k)
    else if env.reply(k).e != NoError then env.reply(k).e
    else if env.reply(k).eof || env.reply(k).error != 0 then Protocol
    else if m != NONE then env.outcome(k)
    else if server == {} then PermissionDenied
    else if methods * server == {} then ProtocolNotSupported
    else last
  }

  /** Request `r` was answered, and its method merely failed. */
  predicate Fails(env: Env, r: nat) {
    env.send(r) == NoError && env.reply(r) == Reply(NoError, false, 0) && Retry(env.outcome(r))
  }

  /** `s` are methods of `usable` and `left` in the order of preference, none of them passed over,
      and at the end perhaps the sentinel. */
  ghost predicate Asked(s: seq<int>, usable: set<int>, left: set<int>) {
    && s != []
    && (forall a | 0 <= a < |s| :: (s[a] in usable && s[a] in left) || (a == |s| - 1 && s[a] == NONE))
    && (forall a, b | 0 <= a < b < |s| :: Preference(s[a]) < Preference(s[b]))
    && (forall m | m in usable && m in left && Preference(m) <= Preference(s[|s| - 1]) :: m in s)
  }

  /** How the negotiation goes from request `k` on, about the methods `left`: usable ones are asked
      for in the order of preference, none is passed over, and each but the last merely fails. */
  ghost predicate Course(env: Env, methods: set<int>, server: set<int>, left: set<int>, k: nat, save: Error, o: Outcome) {
    var s, n := o.sent, |o.sent|;
    && Asked(s, methods * server, left)
    && (forall r | k <= r < k + n - 1 :: Fails(env, r))
    && o.error == LastWord(env, methods, server, s[n - 1], k + n - 1, if n > 1 then env.outcome(k + n - 2) else save)
    && o.auth == (if o.error == NoError then s[n - 1] else NONE)
    && (s[n - 1] != NONE ==> !Fails(env, k + n - 1))
  }

  function Rest(table: seq<int>, i: nat): (r: set<int>)
    requires i <= |table|
  {
    set m | m in table[i..]
  }

  /** The sentinel, or a request that decides. */
  lemma CourseEnds(p: Plan, i: nat, k: nat, save: Error, o: Outcome)
    requires Ready(p) && Preferred(p.table) && i < |p.table| && o.sent == [p.table[i]]
    requires p.table[i] == NONE || p.table[i] in p.methods * p.server
    requires o.error == LastWord(p.env, p.methods, p.server, p.table[i], k, save)
    requires o.auth == (if o.error == NoError then p.table[i] else NONE)
    requires p.table[i] != NONE ==> !Fails(p.env, k)
    ensures Course(p.env, p.methods, p.server, Rest(p.table, i), k, save, o)
  {
    hide LastWord, Fails;
    var m := p.table[i];
    assert p.table[i..][0] == m;
    forall m' | m' in Rest(p.table, i) && Preference(m') <= Preference(m)
      ensures m' == m
    {
      var j :| 0 <= j < |p.table[i..]| && p.table[i..][j] == m';
      assert p.table[i + j] == m';
    }
  }

  lemma RestIs(table: seq<int>, i: nat)
    requires i < |table|
    ensures Rest(table, i) == {table[i]} + Rest(table, i + 1)
  {
    assert table[i..] == [table[i]] + table[i + 1..];
  }

  lemma LaterIsLess(table: seq<int>, i: nat, m: int)
    requires Preferred(table) && i < |table| && m in Rest(table, i + 1)
    ensures Preference(table[i]) < Preference(m)
  {
    var j :| 0 <= j < |table[i + 1..]| && table[i + 1..][j] == m;
    assert table[i + 1 + j] == m;
  }

  lemma AskedMore(table: seq<int>, i: nat, usable: set<int>, s: seq<int>)
    requires Preferred(table) && i < |table| && table[i] in usable && Asked(s, usable, Rest(table, i + 1))
    requires forall a | 0 <= a < |s| :: s[a] in Rest(table, i + 1)
    ensures Asked([table[i]] + s, usable, Rest(table, i))
  {
    hide Preference, Preferred, Rest;
    RestIs(table, i);
    var all, n := [table[i]] + s, |s|;
    assert all[n] == s[n - 1];
    forall a, b | 0 <= a < b < |all|
      ensures Preference(all[a]) < Preference(all[b])
    {
      if a == 0 { LaterIsLess(table, i, s[b - 1]); } else { assert all[a] == s[a - 1] && all[b] == s[b - 1]; }
    }
    forall a | 0 <= a < |all|
      ensures (all[a] in usable && all[a] in Rest(table, i)) || (a == n && all[a] == NONE)
    {
      if a > 0 { assert all[a] == s[a - 1]; }
    }
    forall m | m in usable && m in Rest(table, i) && Preference(m) <= Preference(all[n])
      ensures m in all
    {
      if m != table[i] {
        assert m in s;
        assert all[1..] == s;
      }
    }
  }

  /** A request whose method merely fails, before the course of the others. */
  lemma CourseGoesOn(p: Plan, i: nat, k: nat, save: Error, rest: Outcome)
    requires Ready(p) && Preferred(p.table) && i + 1 < |p.table| && p.table[i] in p.methods * p.server && Fails(p.env, k)
    requires Course(p.env, p.methods, p.server, Rest(p.table, i + 1), k + 1, p.env.outcome(k), rest)
    requires forall a | 0 <= a < |rest.sent| :: rest.sent[a] in Rest(p.table, i + 1)
    ensures Course(p.env, p.methods, p.server, Rest(p.table, i), k, save, Sent(p.table[i], rest))
  {
    hide LastWord, Fails, Asked, Rest, Preferred, Covers;
    var all := [p.table[i]] + rest.sent;
    AskedMore(p.table, i, p.methods * p.server, rest.sent);
    assert rest.sent != [] by { NotNothing(rest.sent, p.methods * p.server, Rest(p.table, i + 1)); }
    assert all[|all| - 1] == rest.sent[|rest.sent| - 1];
  }

  lemma NotNothing(s: seq<int>, usable: set<int>, left: set<int>)
    requires Asked(s, usable, left)
    ensures s != []
  {}

  lemma {:induction false} AskTakesCourse(p: Plan, i: nat, k: nat, save: Error)
    requires Ready(p) && Preferred(p.table) && i < |p.table|
    requires save != NoError || p.methods * p.server == {} || exists j :: i <= j < |p.table| && p.table[j] in p.methods * p.server
    ensures Course(p.env, p.methods, p.server, Rest(p.table, i), k, save, Ask(p, i, k, save))
    ensures forall a | 0 <= a < |Ask(p, i, k, save).sent| :: Ask(p, i, k, save).sent[a] in Rest(p.table, i)
    decreases |p.table| - i
  {
    hide Course, Preferred;
    var m, o := p.table[i], Ask(p, i, k, save);
    assert p.table[i..] == [m] + p.table[i + 1..];
    if m != NONE && m !in p.methods * p.server {
      AskTakesCourse(p, i + 1, k, save);
      CourseSkips(p, i, k, save, o);
    } else if m != NONE && Fails(p.env, k) {
      AskTakesCourse(p, i + 1, k + 1, p.env.outcome(k));
      var rest := Ask(p, i + 1, k + 1, p.env.outcome(k));
      assert Next(p, i, k) == rest && o == Sent(m, rest);
      CourseGoesOn(p, i, k, save, rest);
    } else {
      assert o.sent == [m];
      CourseEnds(p, i, k, save, o);
    }
  }

  /** A method that is not usable is left out. */
  lemma CourseSkips(p: Plan, i: nat, k: nat, save: Error, o: Outcome)
    requires i < |p.table| && p.table[i] !in p.methods * p.server
    requires Course(p.env, p.methods, p.server, Rest(p.table, i + 1), k, save, o)
    ensures Course(p.env, p.methods, p.server, Rest(p.table, i), k, save, o)
  {
    hide LastWord, Fails;
    RestIs(p.table, i);
    hide Rest;
  }

  /** The course of a whole negotiation. */
  ghost predicate Negotiated(env: Env, methods: set<int>, server: set<int>, o: Outcome) {
    Course(env, methods, server, methods, 0, NoError, o)
  }

  /** It starts with the most preferred of the methods that can be used. */
  lemma MostPreferredFirst(env: Env, methods: set<int>, server: set<int>, o: Outcome)
    requires Negotiated(env, methods, server, o) && methods * server != {}
    requires forall m | m in methods * server :: m != NONE && Preference(m) < Preference(NONE)
    ensures o.sent[0] in methods * server && forall m | m in methods * server :: Preference(o.sent[0]) <= Preference(m)
  {
    hide LastWord;
    var m0 := SomeMember(methods * server);
    forall m | m in methods * server
      ensures Preference(o.sent[0]) <= Preference(m)
    {
      if m in o.sent { var a :| 0 <= a < |o.sent| && o.sent[a] == m; }
    }
  }

  lemma TableInOrder(haveGsi: bool)
    ensures Preferred(TrialTable(haveGsi))
  {}

  /** From the whole table on. */
  lemma AskNegotiates(p: Plan)
    requires Ready(p) && Preferred(p.table)
    ensures Negotiated(p.env, p.methods, p.server, Ask(p, 0, 0, NoError))
  {
    hide Ask, Course, Preferred;
    var usable := p.methods * p.server;
    if usable != {} {
      var m := SomeMember(usable);
      assert m in p.table;
      var j :| 0 <= j < |p.table| && p.table[j] == m;
    }
    AskTakesCourse(p, 0, 0, NoError);
    assert p.table[0..] == p.table;
    forall m | m in p.methods ensures m in Rest(p.table, 0) { assert m in p.table; }
    OnlyMethods(p.env, p.methods, p.server, Rest(p.table, 0), 0, NoError, Ask(p, 0, 0, NoError));
  }

  lemma OnlyMethods(env: Env, methods: set<int>, server: set<int>, left: set<int>, k: nat, save: Error, o: Outcome)
    requires Course(env, methods, server, left, k, save, o) && methods <= left
    ensures Course(env, methods, server, methods, k, save, o)
  {
    hide LastWord, Fails, Preference;
  }

  // ----- A connection that works

  /** The usable methods of the table, from entry `i` on. */
  function UsableFrom(p: Plan, i: nat): (r: seq<int>)
    requires i <= |p.table|
    decreases |p.table| - i
  {
    if i == |p.table| then []
    else (if p.table[i] in p.methods * p.server then [p.table[i]] else []) + UsableFrom(p, i + 1)
  }

  /** How many of `n` methods fail, from request `k` on, before one succeeds or breaks off. */
  function Failures(env: Env, k: nat, n: nat): (r: nat)
    ensures r <= n
    decreases n
  {
    if n == 0 || !Retry(env.outcome(k)) then 0 else 1 + Failures(env, k + 1, n - 1)
  }

  /** What trying the methods `u` should come to when every request is answered: they are asked
      for up to the first that does not merely fail, and its outcome is the result; if all fail,
      the sentinel follows and the last failure decides. */
  function Expected(p: Plan, u: seq<int>, k: nat, save: Error): Outcome {
    var n := Failures(p.env, k, |u|);
    if n < |u| then Outcome(u[..n + 1], p.env.outcome(k + n), if p.env.outcome(k + n) == NoError then u[n] else NONE)
    else Outcome(u + [NONE], GiveUp(p, if n == 0 then save else p.env.outcome(k + n - 1)), NONE)
  }

  lemma ExpectedStep(p: Plan, m: int, u: seq<int>, k: nat, save: Error)
    ensures Retry(p.env.outcome(k)) ==> Expected(p, [m] + u, k, save) == Sent(m, Expected(p, u, k + 1, p.env.outcome(k)))
    ensures !Retry(p.env.outcome(k)) ==>
              Expected(p, [m] + u, k, save) == Outcome([m], p.env.outcome(k), if p.env.outcome(k) == NoError then m else NONE)
  {
    var n := Failures(p.env, k + 1, |u|);
    if Retry(p.env.outcome(k)) {
      assert Failures(p.env, k, |u| + 1) == n + 1;
      if n < |u| {
        assert ([m] + u)[..n + 2] == [m] + u[..n + 1];
      } else {
        assert ([m] + u) + [NONE] == [m] + (u + [NONE]);
      }
    } else {
      assert ([m] + u)[..1] == [m];
    }
  }

  /** On a connection that works, the negotiation comes to what is expected of its usable methods. */
  lemma {:induction false} QuietNegotiation(p: Plan, i: nat, k: nat, save: Error)
    requires Ready(p) && i < |p.table|
    requires forall j: nat :: p.env.send(j) == NoError && p.env.reply(j) == Reply(NoError, false, 0)
    ensures Ask(p, i, k, save) == Expected(p, UsableFrom(p, i), k, save)
    decreases |p.table| - i
  {
    hide Expected, GiveUp, InOrder;
    var m := p.table[i];
    assert p.env.send(k) == NoError && p.env.reply(k) == Reply(NoError, false, 0);
    if m == NONE {
      assert NONE !in p.methods;
      assert UsableFrom(p, i) == UsableFrom(p, i + 1) == [];
      NothingUsable(p, k, save);
    } else if m !in p.methods * p.server {
      assert UsableFrom(p, i) == UsableFrom(p, i + 1);
      QuietNegotiation(p, i + 1, k, save);
    } else {
      ExpectedStep(p, m, UsableFrom(p, i + 1), k, save);
      if Retry(p.env.outcome(k)) { QuietNegotiation(p, i + 1, k + 1, p.env.outcome(k)); }
    }
  }

  lemma NothingUsable(p: Plan, k: nat, save: Error)
    ensures Expected(p, [], k, save) == Outcome([NONE], GiveUp(p, save), NONE)
  {}

  /** `s` is a part of `t`, in the same order. */
  predicate InOrder(s: seq<int>, t: seq<int>) {
    s == [] || (t != [] && (if s[0] == t[0] then InOrder(s[1..], t[1..]) else InOrder(s, t[1..])))
  }

  // ----- The server's list

  function Offered(bytes: seq<int>): set<int> {
    set b | b in bytes && NONE < b < NUMBER
  }

  /** The loop over the bytes received; both forms have it. */
  method ReadMethods(bytes: seq<int>) returns (server: set<int>)
    ensures server == Offered(bytes)
  {
    server := {};
    for i := 0 to |bytes|
      invariant server == Offered(bytes[..i])
    {
      assert bytes[..i + 1] == bytes[..i] + [bytes[i]];
      if bytes[i] <= NONE || bytes[i] >= NUMBER { continue; }
      server := server + {bytes[i]};
    }
    assert bytes[..|bytes|] == bytes;
  }

  /** The whole negotiation, once the client knows its methods. */
  function Negotiation(env: Env, table: seq<int>, methods: set<int>, impl: Error): Outcome
    requires Covers(table, methods)
  {
    if env.listing.e != NoError then Outcome([], env.listing.e, NONE)
    else if env.listing.eof then Outcome([], Protocol, NONE)
    else Ask(Plan(env, table, methods, Offered(env.listing.bytes), impl), 0, 0, NoError)
  }

  /** From the configuration on. */
  function Request(env: Env, haveGsi: bool, list: seq<Config>, impl: Error): Outcome {
    var enabled := EnabledMethods(list);
    TableCovers(haveGsi);
    if enabled == {} then Outcome([], NotAvailableForTheHost, NONE)
    else if enabled * Available(haveGsi) == {} then Outcome([], UsableNotConfigured, NONE)
    else Negotiation(env, TrialTable(haveGsi), enabled * Available(haveGsi), impl)
  }

  /** What a caller may rely on: no request is sent when no method is configured, or none of those
      is built in, or the server's list does not come; else the negotiation takes its course, the
      most preferred of the methods that can be used first. */
  ghost predicate Promise(env: Env, haveGsi: bool, list: seq<Config>, o: Outcome) {
    var enabled := EnabledMethods(list);
    var methods, server := enabled * Available(haveGsi), Offered(env.listing.bytes);
    if enabled == {} then o == Outcome([], NotAvailableForTheHost, NONE)
    else if methods == {} then o == Outcome([], UsableNotConfigured, NONE)
    else if env.listing.e != NoError then o == Outcome([], env.listing.e, NONE)
    else if env.listing.eof then o == Outcome([], Protocol, NONE)
    else
      && Negotiated(env, methods, server, o) && o.sent != []
      && (methods * server != {} ==>
            o.sent[0] in methods * server && forall m | m in methods * server :: Preference(o.sent[0]) <= Preference(m))
  }

  lemma RequestKeepsPromise(env: Env, haveGsi: bool, list: seq<Config>, impl: Error)
    ensures Promise(env, haveGsi, list, Request(env, haveGsi, list, impl))
  {
    TableCovers(haveGsi);
    TableInOrder(haveGsi);
    var o := Request(env, haveGsi, list, impl);
    var methods, server := EnabledMethods(list) * Available(haveGsi), Offered(env.listing.bytes);
    assert forall m | m in methods * server :: m != NONE && Preference(m) < Preference(NONE);
    hide EnabledMethods, Available, Offered, TrialTable, Ask, Preference;
    if methods != {} && env.listing.e == NoError && !env.listing.eof {
      var p := Plan(env, TrialTable(haveGsi), methods, server, impl);
      AskNegotiates(p);
      hide LastWord, Fails, Covers, Preferred;
      NotNothing(o.sent, methods * server, methods);
      if methods * server != {} { MostPreferredFirst(env, methods, server, o); }
    }
  }

  /** Whatever the two forms call their implementation error, it never shows. */
  lemma SameRequest(env: Env, haveGsi: bool, list: seq<Config>, a: Error, b: Error)
    ensures Request(env, haveGsi, list, a) == Request(env, haveGsi, list, b)
  {
    TableCovers(haveGsi);
    var methods := EnabledMethods(list) * Available(haveGsi);
    NeverAnImplementationError(Plan(env, TrialTable(haveGsi), methods, Offered(env.listing.bytes), a), b);
  }

  // ----- The blocking form

  /** An outcome after requests already sent. */
  function After(sent: seq<int>, o: Outcome): Outcome {
    o.(sent := sent + o.sent)
  }

  lemma AfterOne(sent: seq<int>, m: int, o: Outcome)
    ensures After(sent, Sent(m, o)) == After(sent + [m], o)
    ensures After(sent, Outcome([m], o.error, o.auth)) == Outcome(sent + [m], o.error, o.auth)
    ensures After(sent, Outcome([], o.error, o.auth)) == Outcome(sent, o.error, o.auth)
  {}

  /** The exchange with the server about one method, without its own authentication. */
  method Offer(p: Plan, sent: seq<int>, m: int, save: Error, ghost rest: Outcome) returns (done: bool, o: Outcome)
    ensures done <==> !(p.env.send(|sent|) == NoError && p.env.reply(|sent|) == Reply(NoError, false, 0)
                        && m != NONE && Retry(p.env.outcome(|sent|)))
    ensures done ==> o == After(sent, if p.env.send(|sent|) != NoError then Outcome([m], p.env.send(|sent|), NONE)
                                      else Sent(m, Replied(p, m, |sent|, save, rest)))
  {
    var k := |sent|;
    done, o := true, Outcome(sent + [m], NoError, NONE);
    if p.env.send(k) != NoError { return true, o.(error := p.env.send(k)); }
    AfterOne(sent, m, Replied(p, m, k, save, rest));
    var r := p.env.reply(k);
    if r.e != NoError { return true, o.(error := r.e); }
    if r.eof || r.error != 0 { return true, o.(error := Protocol); }
    if m == NONE {
      if p.server == {} { return true, o.(error := PermissionDenied); }
      if p.methods * p.server == {} { return true, o.(error := ProtocolNotSupported); }
      return true, o.(error := if save != NoError then save else p.impl);
    }
    var e := p.env.outcome(k);
    if e == NoError { return true, o.(auth := m); }
    if e != ProtocolNotSupported && e != Expired && e != Authentication { return true, o.(error := e); }
    done := false;
  }

  /** The loop of `gfarm_auth_request` over the trial table. */
  method TryMethods(p: Plan) returns (o: Outcome)
    requires Ready(p)
    ensures o == Ask(p, 0, 0, NoError)
  {
    hide Replied;
    var i, save, sent: seq<int> := 0, NoError, [];
    ghost var goal := Ask(p, 0, 0, NoError);
    while true
      invariant 0 <= i < |p.table|
      invariant goal == After(sent, Ask(p, i, |sent|, save))
      decreases |p.table| - i
    {
      var m := p.table[i];
      if m != NONE && m !in p.methods * p.server {
        i := i + 1;
        continue;
      }
      var done;
      done, o := Offer(p, sent, m, save, Next(p, i, |sent|));
      if done { return; }
      RetryGoesOn(p, i, sent, save);
      save := p.env.outcome(|sent|);
      sent := sent + [m];
      i := i + 1;
    }
  }

  lemma RetryGoesOn(p: Plan, i: nat, sent: seq<int>, save: Error)
    requires Ready(p) && i < |p.table| && p.table[i] != NONE && p.table[i] in p.methods * p.server
    requires p.env.send(|sent|) == NoError && p.env.reply(|sent|) == Reply(NoError, false, 0) && Retry(p.env.outcome(|sent|))
    ensures After(sent, Ask(p, i, |sent|, save)) == After(sent + [p.table[i]], Ask(p, i + 1, |sent| + 1, p.env.outcome(|sent|)))
  {
    var rest := Ask(p, i + 1, |sent| + 1, p.env.outcome(|sent|));
    assert Next(p, i, |sent|) == rest;
    AfterOne(sent, p.table[i], rest);
  }

  /** `gfarm_auth_request`. */
  method GfarmAuthRequest(env: Env, haveGsi: bool, list: seq<Config>) returns (o: Outcome)
    requires WellFormed(list)
    ensures o == Request(env, haveGsi, list, RequestImplementation)
    ensures Promise(env, haveGsi, list, o)
  {
    hide Promise;
    RequestKeepsPromise(env, haveGsi, list, RequestImplementation);
    hide Ask, Covers, Available, TrialTable, EnabledMethods, Offered;
    var methods := GetEnabled(list);
    if methods == {} { return Outcome([], NotAvailableForTheHost, NONE); }
    var available := GetAvailable(haveGsi);
    methods := methods * available;
    if methods == {} { return Outcome([], UsableNotConfigured, NONE); }
    CoversUsable(haveGsi, methods);
    if env.listing.e != NoError { return Outcome([], env.listing.e, NONE); }
    if env.listing.eof { return Outcome([], Protocol, NONE); }
    var server := ReadMethods(env.listing.bytes);
    o := TryMethods(Plan(env, TrialTable(haveGsi), methods, server, RequestImplementation));
  }

  lemma CoversUsable(haveGsi: bool, methods: set<int>)
    requires methods <= Available(haveGsi)
    ensures Covers(TrialTable(haveGsi), methods)
  {
    TableCovers(haveGsi);
  }

  // ----- The callback form

  /** Which event the negotiation waits for. */
  datatype Waiting = Listed | Writable | Readable | Authenticating | Finished

  /** `struct gfarm_auth_request_state`, with the event that is in the queue. */
  class RequestState {
    const env: Env
    const table: seq<int>
    const methods: set<int>
    var server: set<int>
    var index: nat
    var lastError: Error
    var error: Error
    var waiting: Waiting
    var sent: seq<int>

    constructor (env: Env, table: seq<int>, methods: set<int>)
      requires Covers(table, methods)
      ensures Valid() && waiting == Listed && Goal() == Negotiation(env, table, methods, MultiplexedImplementation)
      ensures this.env == env && this.table == table && this.methods == methods
    {
      this.env, this.table, this.methods := env, table, methods;
      server, index, lastError, error, waiting, sent := {}, 0, NoError, NoError, Listed, [];
      new;
      AfterNothing(Negotiation(env, table, methods, MultiplexedImplementation));
    }

    ghost function P(): Plan
      reads this
    {
      Plan(env, table, methods, server, MultiplexedImplementation)
    }

    ghost predicate Valid()
      reads this
    {
      && Covers(table, methods) && index < |table|
      && (waiting == Listed ==> sent == [])
      && (waiting == Readable || waiting == Authenticating ==> |sent| >= 1 && sent[|sent| - 1] == table[index])
      && (waiting == Authenticating ==> table[index] != NONE)
      && (waiting == Finished && error == NoError ==> |sent| >= 1)
    }

    /** The number of the request under way. */
    ghost function K(): nat
      reads this
    {
      if sent == [] then 0 else |sent| - 1
    }

    /** What the negotiation comes to from here. */
    ghost function Goal(): Outcome
      requires Valid()
      reads this
    {
      match waiting
      case Listed => Negotiation(env, table, methods, MultiplexedImplementation)
      case Writable => After(sent, Ask(P(), index, |sent|, lastError))
      case Readable => After(sent, Replied(P(), table[index], K(), lastError, Next(P(), index, K())))
      case Authenticating => After(sent, Ended(table[index], env.outcome(K()), Next(P(), index, K())))
      case Finished => Outcome(sent, error, if error == NoError then table[index] else NONE)
    }

    /** `gfarm_auth_request_receive_server_methods`. */
    method ReceiveServerMethods()
      requires Valid() && waiting == Listed
      modifies this
      ensures Valid() && Goal() == old(Goal()) && (waiting == Finished || (waiting == Writable && index == 0))
    {
      hide Ask;
      AfterNothing(Goal());
      error := env.listing.e;
      if error == NoError && env.listing.eof { error := Protocol; }
      if error == NoError {
        server := ReadMethods(env.listing.bytes);
        lastError, index, waiting := NoError, 0, Writable;
      } else {
        waiting := Finished;
      }
    }

    /** `gfarm_auth_request_loop_ask_method`. */
    method LoopAskMethod()
      requires Valid() && waiting == Writable
      modifies this
      ensures Valid() && Goal() == old(Goal()) && (waiting == Finished || waiting == Readable)
      ensures index >= old(index)
    {
      hide Replied;
      while table[index] != NONE && table[index] !in methods * server
        invariant Valid() && waiting == Writable && Goal() == old(Goal()) && index >= old(index)
        decreases |table| - index
      {
        index := index + 1;
      }
      var m, k := table[index], |sent|;
      AfterOne(sent, m, Replied(P(), m, k, lastError, Next(P(), index, k)));
      error := env.send(k);
      if error != NoError { AfterOne(sent, m, Outcome([], error, NONE)); }
      sent := sent + [m];
      waiting := if error == NoError then Readable else Finished;
    }

    /** `gfarm_auth_request_next_method`. */
    method NextMethod()
      requires Valid() && waiting == Authenticating && lastError == env.outcome(|sent| - 1)
      modifies this
      ensures Valid() && Goal() == old(Goal()) && index >= old(index)
      ensures waiting == Finished || (waiting == Writable && index > old(index))
    {
      hide Ask;
      if lastError == NoError
         || (lastError != ProtocolNotSupported && lastError != Expired && lastError != Authentication) {
        error := lastError;
        AfterOne(sent, NONE, Outcome([], error, if error == NoError then table[index] else NONE));
        waiting := Finished;
      } else {
        index := index + 1;
        waiting := Writable;
      }
    }

    /** `gfarm_auth_request_dispatch_result`. */
    method DispatchResult()
      requires Valid() && waiting == Authenticating
      modifies this
      ensures Valid() && Goal() == old(Goal()) && index >= old(index)
      ensures waiting == Finished || (waiting == Writable && index > old(index))
    {
      lastError := env.outcome(|sent| - 1);
      NextMethod();
    }

    /** `gfarm_auth_request_dispatch_method`. */
    method DispatchMethod()
      requires Valid() && waiting == Readable
      modifies this
      ensures Valid() && Goal() == old(Goal()) && index >= old(index)
      ensures waiting == Finished || waiting == Authenticating || (waiting == Writable && index > old(index))
    {
      hide Ask;
      var k := |sent| - 1;
      var r := env.reply(k);
      error := r.e;
      if error == NoError && r.eof { error := Protocol; }
      if error == NoError && r.error != 0 { error := Protocol; }
      if error == NoError {
        if table[index] != NONE {
          waiting := Authenticating;
          if env.early(k) && env.outcome(k) != NoError {
            lastError := env.outcome(k);
            NextMethod();
          }
          return;
        }
        if server == {} {
          error := PermissionDenied;
        } else if methods * server == {} {
          error := ProtocolNotSupported;
        } else {
          error := if lastError != NoError then lastError else MultiplexedImplementation;
        }
      }
      AfterOne(sent, NONE, Outcome([], error, NONE));
      waiting := Finished;
    }

    /** `gfarm_auth_result_multiplexed`. */
    method Result() returns (o: Outcome)
      requires Valid() && waiting == Finished
      ensures o == Goal()
    {
      o := Outcome(sent, error, if error == NoError then table[index] else NONE);
    }

    /** The event loop: the callback of the event that is due is called until none is left. */
    method Run() returns (o: Outcome)
      requires Valid()
      modifies this
      ensures o == old(Goal())
    {
      while waiting != Finished
        invariant Valid() && Goal() == old(Goal())
        decreases waiting == Listed, if waiting == Finished then 0 else |table| - index, Rank()
      {
        match waiting
        case Listed => ReceiveServerMethods();
        case Writable => LoopAskMethod();
        case Readable => DispatchMethod();
        case Authenticating => DispatchResult();
        case Finished =>
      }
      o := Result();
    }

    /** How many callbacks may follow before the index moves on. */
    ghost function Rank(): nat
      reads this
    {
      match waiting
      case Listed => 4
      case Writable => 3
      case Readable => 2
      case Authenticating => 1
      case Finished => 0
    }
  }

  /** `gfarm_auth_request_multiplexed`, run to its end. */
  method GfarmAuthRequestMultiplexed(env: Env, haveGsi: bool, list: seq<Config>) returns (o: Outcome)
    requires WellFormed(list)
    ensures o == Request(env, haveGsi, list, MultiplexedImplementation)
    ensures o == Request(env, haveGsi, list, RequestImplementation)
    ensures Promise(env, haveGsi, list, o)
  {
    hide Promise;
    RequestKeepsPromise(env, haveGsi, list, RequestImplementation);
    hide Ask, Covers, Available, TrialTable, EnabledMethods, Offered, Negotiation;
    SameRequest(env, haveGsi, list, MultiplexedImplementation, RequestImplementation);
    var methods := GetEnabled(list);
    if methods == {} { return Outcome([], NotAvailableForTheHost, NONE); }
    var available := GetAvailable(haveGsi);
    methods := methods * available;
    if methods == {} { return Outcome([], UsableNotConfigured, NONE); }
    CoversUsable(haveGsi, methods);
    var state := new RequestState(env, TrialTable(haveGsi), methods);
    o := state.Run();
  }

  lemma AfterNothing(o: Outcome)
    ensures After([], o) == o
  {}
}
