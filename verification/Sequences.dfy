/** What several parts need to say about sequences. */
module Sequences {

  /** `s` with the elements at `i` and `k` exchanged. */
  function Swapped<T>(s: seq<T>, i: nat, k: nat): (r: seq<T>)
    requires i < |s| && k < |s|
    ensures |r| == |s| && r[i] == s[k] && r[k] == s[i]
    ensures forall j :: 0 <= j < |s| && j != i && j != k ==> r[j] == s[j]
  {
    s[i := s[k]][k := s[i]]
  }

  lemma SameLength<T>(s: seq<T>, t: seq<T>)
    requires multiset(s) == multiset(t)
    ensures |s| == |t|
  {
    assert |multiset(s)| == |s| && |multiset(t)| == |t|;
  }

  /** Two places of a sequence with a property have their like in a permutation of it. */
  lemma TwoPlaces<T>(s: seq<T>, t: seq<T>, P: T -> bool, p: nat, p': nat)
    requires multiset(s) == multiset(t) && p < p' < |s| && P(s[p]) && P(s[p'])
    ensures exists m, m' :: 0 <= m < m' < |t| && P(t[m]) && P(t[m'])
  {
    var x, y := s[p], s[p'];
    assert x in multiset(t);
    var m :| 0 <= m < |t| && t[m] == x;
    assert y in t[..m] + t[m + 1..] by { StillThere(s, t, p, p', m); }
    var k := Elsewhere(t, m, y);
    assert P(t[m]) && P(t[k]);
    if k < m {}
  }

  lemma StillThere<T>(s: seq<T>, t: seq<T>, p: nat, p': nat, m: nat)
    requires multiset(s) == multiset(t) && p < p' < |s| && m < |t| && t[m] == s[p]
    ensures s[p'] in t[..m] + t[m + 1..]
  {
    var y, rest, rest' := s[p'], s[..p] + s[p + 1..], t[..m] + t[m + 1..];
    assert rest[p' - 1] == y;
    assert multiset(rest) == multiset(rest') by {
      WithoutOne(s, p);
      WithoutOne(t, m);
    }
    Shared(rest, rest', y);
  }

  lemma Shared<T>(s: seq<T>, t: seq<T>, y: T)
    requires multiset(s) == multiset(t) && y in s
    ensures y in t
  {
    assert y in multiset(s);
  }

  lemma Elsewhere<T>(t: seq<T>, m: nat, y: T) returns (k: nat)
    requires m < |t| && y in t[..m] + t[m + 1..]
    ensures k < |t| && k != m && t[k] == y
  {
    var rest := t[..m] + t[m + 1..];
    var i :| 0 <= i < |rest| && rest[i] == y;
    k := if i < m then i else i + 1;
  }

  lemma WithoutOne<T>(t: seq<T>, k: nat)
    requires k < |t|
    ensures t == t[..k] + [t[k]] + t[k + 1..]
    ensures multiset(t[..k] + t[k + 1..]) == multiset(t) - multiset{t[k]}
  {
    assert t == t[..k] + [t[k]] + t[k + 1..];
  }

  /** No element twice. */
  ghost predicate Distinct<T>(s: seq<T>) {
    forall i, j :: 0 <= i < j < |s| ==> s[i] != s[j]
  }
}
