/** `AffinityQueue::Throughput`: relative transfer speeds between hosts, computed
    from their domains and memoised in two tables. */
module Throughputs {

  datatype Option<+T> = None | Some(value: T)

  /** A host, or Ruby's `nil` where the code passes it on as one. */
  type Host = Option<string>

  type Table = map<Host, map<Host, real>>

  predicate InTable(t: Table, x: Host, y: Host) {
    x in t && y in t[x]
  }

  /** `(t[x] ||= {})[y] = v`. */
  function Store(t: Table, x: Host, y: Host, v: real): (t': Table)
    ensures forall a, b :: InTable(t', a, b) <==> InTable(t, a, b) || (a == x && b == y)
    ensures forall a, b :: InTable(t', a, b) ==> t'[a][b] == if InTable(t, a, b) && !(a == x && b == y) then t[a][b] else v
  {
    t[x := (if x in t then t[x] else map[])[y := v]]
  }

  /** The speed between two domains that a list of known speeds gives: the
      entry for the pair, else that for the pair turned round, else 1 within a
      domain and 0.1 across domains. */
  function BaseSpeed(given: Table, x: Host, y: Host): real {
    if InTable(given, x, y) then given[x][y]
    else if InTable(given, y, x) then given[y][x]
    else if x == y then 1.0 else 0.1
  }

  /** What follows the first dot of a host name. */
  function AfterDot(s: string): string {
    if s == "" then "" else if s[0] == '.' then s[1..] else AfterDot(s[1..])
  }

  /** The domain of a host name: all that follows its first dot, and nothing if it has no dot. */
  ghost predicate IsDomain(h: string, d: string) {
    ('.' !in h && d == "") || exists p :: '.' !in p && h == p + "." + d
  }

  lemma {:induction false} FirstDot(p: string, d: string)
    requires '.' !in p
    ensures AfterDot(p + "." + d) == d
  {
    var h := p + "." + d;
    if p == "" {
      assert h[1..] == d;
    } else {
      assert h[0] == p[0] && p[0] in p && h[1..] == p[1..] + "." + d;
      FirstDot(p[1..], d);
    }
  }

  lemma {:induction false} NoDot(h: string)
    requires '.' !in h
    ensures AfterDot(h) == ""
  {
    if h != "" { NoDot(h[1..]); }
  }

  lemma {:induction false} SomeDot(h: string) returns (p: string)
    requires '.' in h
    ensures '.' !in p && h == p + "." + AfterDot(h)
  {
    if h[0] == '.' {
      p := "";
      assert h == "" + "." + h[1..];
    } else {
      assert '.' in h[1..];
      p := SomeDot(h[1..]);
      p := [h[0]] + p;
    }
  }

  /** Every host name has one domain. */
  lemma DomainIs(h: string, d: string)
    ensures IsDomain(h, d) <==> d == AfterDot(h)
  {
    if '.' in h {
      var p := SomeDot(h);
      if p' :| '.' !in p' && h == p' + "." + d { FirstDot(p', d); }
    } else {
      NoDot(h);
      forall p ensures h != p + "." + d { assert (p + "." + d)[|p|] == '.'; }
    }
  }

  /** `parse_hostname(h)[1]`; the match on `nil` fails and leaves `nil`. */
  function Domain(h: Host): Host {
    if h.None? then None else Some(AfterDot(h.value))
  }

  /** The speed a `Throughput` without a list answers. */
  function Speed(x: Host, y: Host): real {
    if x.None? || Domain(x) == Domain(y) then 1.0 else 0.1
  }

  function LoadList(list: seq<(Host, Host, real)>): Table {
    if list == [] then map[]
    else
      var e := list[|list| - 1];
      Store(LoadList(list[..|list| - 1]), e.0, e.1, e.2)
  }

  /** The given speeds and the two memo tables. */
  datatype Tables = Tables(given: Table, interdomain: Table, interhost: Table)

  /** Every memoised domain speed is the one the list gives, and every memoised
      host speed is that of the two domains, in one order or the other. */
  ghost predicate Faithful(t: Tables) {
    && (forall x, y :: InTable(t.given, x, y) ==> InTable(t.interdomain, x, y))
    && (forall x, y :: InTable(t.interdomain, x, y) ==> t.interdomain[x][y] == BaseSpeed(t.given, x, y))
    && (forall x, y :: InTable(t.interhost, x, y) ==> BetweenHosts(t.given, x, y, t.interhost[x][y]))
  }

  predicate BetweenHosts(given: Table, x: Host, y: Host, v: real) {
    v == BaseSpeed(given, Domain(x), Domain(y)) || v == BaseSpeed(given, Domain(y), Domain(x))
  }

  type Memo = t: Tables | Faithful(t) ghost witness Tables(map[], map[], map[])

  lemma DomainMemo(t: Memo, x: Host, y: Host)
    ensures InTable(t.interdomain, x, y) ==> t.interdomain[x][y] == BaseSpeed(t.given, x, y)
    ensures !InTable(t.interdomain, x, y) && InTable(t.interdomain, y, x) ==>
              t.interdomain[y][x] == BaseSpeed(t.given, x, y)
    ensures !InTable(t.interdomain, x, y) && !InTable(t.interdomain, y, x) ==>
              BaseSpeed(t.given, x, y) == if x == y then 1.0 else 0.1
    ensures Faithful(t.(interdomain := Store(t.interdomain, x, y, BaseSpeed(t.given, x, y))))
  {}

  lemma HostMemo(t: Memo, x: Host, y: Host, v: real)
    requires BetweenHosts(t.given, x, y, v)
    ensures Faithful(t.(interhost := Store(t.interhost, x, y, v)))
  {}

  lemma HostMemoAnswers(t: Memo, x: Host, y: Host)
    ensures InTable(t.interhost, x, y) ==> BetweenHosts(t.given, x, y, t.interhost[x][y])
    ensures InTable(t.interhost, y, x) ==> BetweenHosts(t.given, x, y, t.interhost[y][x])
  {}

  class Throughput {
    var interdomainList: Table
    var interhostList: Table
    var minValue: Option<real>
    ghost var memo: Memo

    ghost predicate Valid()
      reads this
    {
      memo.interdomain == interdomainList && memo.interhost == interhostList
    }

    constructor ()
      ensures Valid() && memo.given == map[] && minValue == Some(1.0)
    {
      interdomainList, interhostList, minValue, memo := map[], map[], Some(1.0), Tables(map[], map[], map[]);
    }

    constructor FromList(list: seq<(Host, Host, real)>)
      ensures Valid() && memo.given == LoadList(list) && interhostList == map[]
      ensures list == [] <==> minValue == None
      ensures list != [] ==> (exists e :: e in list && e.2 == minValue.value)
                             && forall e :: e in list ==> minValue.value <= e.2
    {
      var table: Table := map[];
      var least: Option<real> := None;
      var i := 0;
      while i < |list|
        invariant 0 <= i <= |list| && table == LoadList(list[..i])
        invariant i == 0 <==> least == None
        invariant i > 0 ==> (exists e :: e in list[..i] && e.2 == least.value)
                            && forall e :: e in list[..i] ==> least.value <= e.2
      {
        var (x, y, v) := list[i];
        assert list[..i + 1][..i] == list[..i] && list[..i + 1] == list[..i] + [list[i]];
        table := Store(table, x, y, v);
        if least.None? || v < least.value {
          least := Some(v);
          assert list[i] in list[..i + 1] && list[i].2 == v;
        }
        i := i + 1;
      }
      assert list[..|list|] == list;
      interdomainList, interhostList, minValue, memo := table, map[], least, Tables(table, table, map[]);
    }

    /** The answer does not depend on what was asked before. */
    method InterDomain(x: Host, y: Host) returns (v: real)
      requires Valid()
      modifies this`interdomainList, this`memo
      ensures Valid() && memo.given == old(memo.given) && v == BaseSpeed(memo.given, x, y)
    {
      DomainMemo(memo, x, y);
      if InTable(interdomainList, x, y) { return interdomainList[x][y]; }
      if InTable(interdomainList, y, x) {
        v := interdomainList[y][x];
      } else {
        v := if x == y then 1.0 else 0.1;
      }
      interdomainList := Store(interdomainList, x, y, v);
      memo := memo.(interdomain := interdomainList);
    }

    method InterHost(x: Host, y: Host) returns (v: Option<real>)
      requires Valid()
      modifies this`interdomainList, this`interhostList, this`memo
      ensures Valid() && memo.given == old(memo.given)
      ensures x == None ==> v == minValue && interhostList == old(interhostList)
      ensures x != None ==> v.Some? && BetweenHosts(memo.given, x, y, v.value)
      ensures memo.given == map[] && minValue == Some(1.0) ==> v == Some(Speed(x, y))
      ensures forall c, d | x.Some? && y.Some? && IsDomain(x.value, c) && IsDomain(y.value, d) ::
                v == Some(BaseSpeed(memo.given, Some(c), Some(d))) || v == Some(BaseSpeed(memo.given, Some(d), Some(c)))
      ensures memo.given == map[] && minValue == Some(1.0) ==>
                && (forall c, d | x.Some? && y.Some? && IsDomain(x.value, c) && IsDomain(y.value, d) ::
                      v == Some(if c == d then 1.0 else 0.1))
                && (x == None ==> v == Some(1.0)) && (x != None && y == None ==> v == Some(0.1))
      ensures x != None ==>
        && v.value == Answer(memo.given, old(interhostList), x, y)
        && interhostList == Store(old(interhostList), x, y, v.value)
    {
      if x == None { return minValue; }
      forall c, d | y.Some? && IsDomain(x.value, c) && IsDomain(y.value, d)
        ensures Domain(x) == Some(c) && Domain(y) == Some(d)
      {
        DomainIs(x.value, c);
        DomainIs(y.value, d);
      }
      hide IsDomain, AfterDot;
      HostMemoAnswers(memo, x, y);
      if InTable(interhostList, x, y) {
        StoreAgain(interhostList, x, y);
        return Some(interhostList[x][y]);
      }
      var s;
      if InTable(interhostList, y, x) {
        s := interhostList[y][x];
      } else {
        s := InterDomain(Domain(x), Domain(y));
      }
      HostMemo(memo, x, y, s);
      interhostList := Store(interhostList, x, y, s);
      memo := memo.(interhost := interhostList);
      v := Some(s);
    }
  }

  lemma StoreAgain(t: Table, x: Host, y: Host)
    requires InTable(t, x, y)
    ensures Store(t, x, y, t[x][y]) == t
  {
    assert t[x] == t[x][y := t[x][y]];
  }

  // ----- What the answers depend on

  /** What `interhost` answers for a host `x`, with the memo table `memo`. */
  function Answer(given: Table, memo: Table, x: Host, y: Host): real {
    if InTable(memo, x, y) then memo[x][y]
    else if InTable(memo, y, x) then memo[y][x]
    else BaseSpeed(given, Domain(x), Domain(y))
  }

  /** A call of `interhost` or of `interdomain`. */
  datatype Query = AskHosts(x: Host, y: Host) | AskDomains(x: Host, y: Host)

  /** The memo table of `interhost` after these calls. */
  function After(given: Table, qs: seq<Query>): Table {
    if qs == [] then map[]
    else
      var memo, q := After(given, qs[..|qs| - 1]), qs[|qs| - 1];
      if q.AskHosts? && q.x.Some? then Store(memo, q.x, q.y, Answer(given, memo, q.x, q.y)) else memo
  }

  /** Asks all of `qs`, then for the speed between `a` and `b`. */
  method AskAfter(list: seq<(Host, Host, real)>, qs: seq<Query>, a: Host, b: Host) returns (v: Option<real>)
    ensures a.Some? ==> v == Some(Answer(LoadList(list), After(LoadList(list), qs), a, b))
  {
    var t := new Throughput.FromList(list);
    for i := 0 to |qs|
      invariant t.Valid() && fresh(t) && t.memo.given == LoadList(list)
      invariant t.interhostList == After(LoadList(list), qs[..i])
    {
      assert qs[..i + 1][..i] == qs[..i];
      match qs[i]
      case AskHosts(x, y) => var speed := t.InterHost(x, y);
      case AskDomains(x, y) => var speed := t.InterDomain(x, y);
    }
    assert qs[..|qs|] == qs;
    v := t.InterHost(a, b);
  }

  /** Whatever was asked before, a table entry is the speed of the two domains in the direction
      asked, if the directions do not differ. */
  lemma {:induction false} MemoDirected(given: Table, qs: seq<Query>, a: Host, b: Host)
    requires b.None? || BaseSpeed(given, Domain(a), Domain(b)) == BaseSpeed(given, Domain(b), Domain(a))
    ensures var memo := After(given, qs);
      && (InTable(memo, a, b) ==> memo[a][b] == BaseSpeed(given, Domain(a), Domain(b)))
      && (InTable(memo, b, a) ==> b.Some? && memo[b][a] == BaseSpeed(given, Domain(a), Domain(b)))
  {
    if qs != [] {
      MemoDirected(given, qs[..|qs| - 1], a, b);
    }
  }

  /** The answer for two hosts is the same after every history of calls exactly when the list
      gives both directions between their domains one speed, which a caller can look up. */
  lemma HistoryMatters(given: Table, a: Host, b: Host)
    requires a.Some?
    ensures (forall qs :: Answer(given, After(given, qs), a, b) == BaseSpeed(given, Domain(a), Domain(b)))
       <==> b.None? || BaseSpeed(given, Domain(a), Domain(b)) == BaseSpeed(given, Domain(b), Domain(a))
  {
    if b.None? || BaseSpeed(given, Domain(a), Domain(b)) == BaseSpeed(given, Domain(b), Domain(a)) {
      forall qs
        ensures Answer(given, After(given, qs), a, b) == BaseSpeed(given, Domain(a), Domain(b))
      {
        MemoDirected(given, qs, a, b);
      }
    } else {
      TurnedFirst(given, a, b);
    }
  }

  /** Asked for the other direction first, `interhost` answers with its speed. */
  lemma TurnedFirst(given: Table, a: Host, b: Host)
    requires a.Some? && b.Some? && a != b
    ensures Answer(given, After(given, [AskHosts(b, a)]), a, b) == BaseSpeed(given, Domain(b), Domain(a))
  {
    assert [AskHosts(b, a)][..0] == [];
  }

  /** With any list: after a question about the other direction, its speed is the answer. */
  method AskTurnedFirst(list: seq<(Host, Host, real)>, a: Host, b: Host) returns (v: Option<real>)
    requires a.Some? && b.Some? && a != b
    ensures v == Some(BaseSpeed(LoadList(list), Domain(b), Domain(a)))
  {
    TurnedFirst(LoadList(list), a, b);
    v := AskAfter(list, [AskHosts(b, a)], a, b);
  }

  const TWO_WAY: seq<(Host, Host, real)> := [(Some("a"), Some("b"), 1.0), (Some("b"), Some("a"), 2.0)]

  lemma TwoWaySpeeds()
    ensures BaseSpeed(LoadList(TWO_WAY), Some("a"), Some("b")) == 1.0
    ensures BaseSpeed(LoadList(TWO_WAY), Some("b"), Some("a")) == 2.0
  {
    assert TWO_WAY[..1][..0] == [];
    var one := LoadList(TWO_WAY[..1]);
    assert InTable(one, Some("a"), Some("b")) && one[Some("a")][Some("b")] == 1.0;
  }

  /** A list with which the order of the questions matters: asked directly, the speed from "x.a"
      to "x.b" is 1, and 2 after the other direction. */
  lemma TwoWay()
    ensures var a, b, given := Some("x.a"), Some("x.b"), LoadList(TWO_WAY);
      && Answer(given, After(given, []), a, b) == 1.0
      && Answer(given, After(given, [AskHosts(b, a)]), a, b) == 2.0
  {
    TwoWaySpeeds();
    var a: Host, b: Host := Some("x.a"), Some("x.b");
    assert "x.a"[1..] == ".a" && "x.b"[1..] == ".b" && ".a"[1..] == "a" && ".b"[1..] == "b";
    assert "x.a" != "x.b" by { assert "x.a"[2] != "x.b"[2]; }
    TurnedFirst(LoadList(TWO_WAY), a, b);
  }
}
