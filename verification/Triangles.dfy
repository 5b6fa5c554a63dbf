/** `match_sub2.c`: the list of triangles of a set of points, sorted by ratio, and the
    windowed search for the best match of each triangle in another such list. */
module Triangles {
  import opened Heapsort
  import opened Sequences
  import opened Sums
  import opened TriangleShapes

  datatype Match = Match(id1: nat, id2: nat, sense: int, logM: real)

  predicate ByRatio(s: seq<Triangle>) {
    forall i, j | 0 <= i < j < |s| :: s[i].ratio <= s[j].ratio
  }

  /** The test a candidate must pass. */
  predicate Alike(a: Triangle, b: Triangle) {
    && a.orien == b.orien
    && Sqr(a.ratio - b.ratio) < a.dRatio + b.dRatio
    && Sqr(a.cosine - b.cosine) < a.dCosine + b.dCosine
    && Abs(a.logP - b.logP) < a.dLogP + b.dLogP
  }

  // ----- The full scan

  const WORST := 9999.0

  /** The best key so far and where it was found. */
  datatype Choice = Choice(res: real, id: int)

  /** The scan of the candidates `lo..hi`, in order. */
  function Scan(key: (Triangle, Triangle) -> real, a: Triangle, s: seq<Triangle>, lo: nat, hi: nat): Choice
    requires hi <= |s|
    decreases hi
  {
    if hi <= lo then Choice(WORST, -1)
    else
      var c := Scan(key, a, s, lo, hi - 1);
      if Alike(a, s[hi - 1]) && key(a, s[hi - 1]) < c.res then Choice(key(a, s[hi - 1]), hi - 1) else c
  }

  /** What the scan means: nothing found exactly when no candidate passes the test with a key
      below 9999; otherwise the first of the candidates with the smallest key. */
  lemma {:induction false} ScanIsBest(key: (Triangle, Triangle) -> real, a: Triangle, s: seq<Triangle>, lo: nat, hi: nat)
    requires hi <= |s|
    ensures var c := Scan(key, a, s, lo, hi);
            && c.res <= WORST && (c.res == WORST <==> forall j | lo <= j < hi :: Alike(a, s[j]) ==> key(a, s[j]) >= WORST)
            && (c.res == WORST ==> c.id == -1)
            && (c.res != WORST ==> lo <= c.id < hi && Alike(a, s[c.id]) && c.res == key(a, s[c.id]) < WORST)
            && (forall j | lo <= j < hi && Alike(a, s[j]) :: c.res <= key(a, s[j]) || key(a, s[j]) >= WORST)
            && (forall j | lo <= j < c.id && j < hi && Alike(a, s[j]) :: c.res < key(a, s[j]))
    decreases hi
  {
    hide Alike;
    if lo < hi { ScanIsBest(key, a, s, lo, hi - 1); }
  }

  /** Candidates that fail the test can be left out at both ends. */
  lemma {:induction false} ScanSkips(key: (Triangle, Triangle) -> real, a: Triangle, s: seq<Triangle>,
                                     lo: nat, hi: nat, n: nat)
    requires lo <= hi <= n <= |s|
    requires forall j | 0 <= j < lo :: !Alike(a, s[j])
    requires forall j | hi <= j < n :: !Alike(a, s[j])
    ensures Scan(key, a, s, 0, n) == Scan(key, a, s, lo, hi)
    decreases n
  {
    hide Alike;
    if n > 0 {
      if hi < n {
        ScanSkips(key, a, s, lo, hi, n - 1);
      } else if lo < n {
        ScanSkips(key, a, s, lo, hi - 1, n - 1);
      } else {
        ScanSkips(key, a, s, lo - 1, lo - 1, n - 1);
      }
    }
  }

  /** The matches of the first `n` triangles of `A` in `B`, each by a full scan. */
  function Matches(key: (Triangle, Triangle) -> real, A: seq<Triangle>, B: seq<Triangle>, reverse: bool,
          n: nat): (r: seq<Match>)
    requires n <= |A|
    ensures |r| <= n
  {
    if n == 0 then []
    else Matches(key, A, B, reverse, n - 1) + Found(key, A, B, reverse, n - 1)
  }

  /** The match of triangle `i`, if any; `reverse` tells that the caller's lists were exchanged. */
  function Found(key: (Triangle, Triangle) -> real, A: seq<Triangle>, B: seq<Triangle>, reverse: bool,
          i: nat): (r: seq<Match>)
    requires i < |A|
    ensures |r| <= 1
  {
    ScanIsBest(key, A[i], B, 0, |B|);
    var c := Scan(key, A[i], B, 0, |B|);
    if c.res == WORST then [] else [Pair(A, B, reverse, i, c.id)]
  }

  lemma MatchesStep(key: (Triangle, Triangle) -> real, A: seq<Triangle>, B: seq<Triangle>, reverse: bool, i: nat, c: Choice)
    requires i < |A| && c == Scan(key, A[i], B, 0, |B|)
    ensures c.res != WORST ==> 0 <= c.id < |B|
    ensures Matches(key, A, B, reverse, i + 1)
         == Matches(key, A, B, reverse, i) + (if c.res == WORST then [] else [Pair(A, B, reverse, i, c.id)])
  {
    hide Scan;
    ScanIsBest(key, A[i], B, 0, |B|);
  }

  function Pair(A: seq<Triangle>, B: seq<Triangle>, reverse: bool, i: nat, j: nat): Match
    requires i < |A| && j < |B|
  {
    if !reverse then Match(i, j, A[i].orien * B[j].orien, A[i].logP - B[j].logP)
    else Match(j, i, B[j].orien * A[i].orien, B[j].logP - A[i].logP)
  }

  // ----- What the matches are

  /** The triangle of the list that is gone through, and the one found for it. */
  function Own(m: Match, reverse: bool): nat { if reverse then m.id2 else m.id1 }

  function Other(m: Match, reverse: bool): nat { if reverse then m.id1 else m.id2 }

  lemma {:induction false} MatchIs(key: (Triangle, Triangle) -> real, A: seq<Triangle>, B: seq<Triangle>, reverse: bool, n: nat, p: nat)
    requires n <= |A| && p < |Matches(key, A, B, reverse, n)|
    ensures var m := Matches(key, A, B, reverse, n)[p];
      var i, j := Own(m, reverse), Other(m, reverse);
      && i < n && j < |B| && m == Pair(A, B, reverse, i, j) && Scan(key, A[i], B, 0, |B|) == Choice(key(A[i], B[j]), j)
      && Alike(A[i], B[j]) && key(A[i], B[j]) < WORST
  {
    hide Scan, Alike;
    var earlier := Matches(key, A, B, reverse, n - 1);
    if p < |earlier| {
      MatchIs(key, A, B, reverse, n - 1, p);
    } else {
      ScanIsBest(key, A[n - 1], B, 0, |B|);
    }
  }

  lemma {:induction false} MatchesAscend(key: (Triangle, Triangle) -> real, A: seq<Triangle>, B: seq<Triangle>, reverse: bool,
                                         n: nat, p: nat, p': nat)
    requires n <= |A| && p < p' < |Matches(key, A, B, reverse, n)|
    ensures Own(Matches(key, A, B, reverse, n)[p], reverse) < Own(Matches(key, A, B, reverse, n)[p'], reverse)
  {
    hide Alike, Found, Own;
    var earlier := Matches(key, A, B, reverse, n - 1);
    if p' < |earlier| {
      MatchesAscend(key, A, B, reverse, n - 1, p, p');
    } else {
      MatchIs(key, A, B, reverse, n - 1, p);
      FoundIsOwn(key, A, B, reverse, n - 1);
    }
  }

  lemma FoundIsOwn(key: (Triangle, Triangle) -> real, A: seq<Triangle>, B: seq<Triangle>, reverse: bool, i: nat)
    requires i < |A|
    ensures forall m | m in Found(key, A, B, reverse, i) :: Own(m, reverse) == i
  {
    hide Scan, Alike;
    ScanIsBest(key, A[i], B, 0, |B|);
  }

  /** Every triangle with an acceptable candidate has a match, the first of the best. */
  lemma {:induction false} MatchExists(key: (Triangle, Triangle) -> real, A: seq<Triangle>, B: seq<Triangle>, reverse: bool,
                                       n: nat, i: nat, j: nat) returns (p: nat)
    requires i < n <= |A| && j < |B| && Alike(A[i], B[j]) && key(A[i], B[j]) < WORST
    ensures var ms := Matches(key, A, B, reverse, n);
      && p < |ms| && Own(ms[p], reverse) == i && Other(ms[p], reverse) < |B|
      && var best := key(A[i], B[Other(ms[p], reverse)]);
         best < key(A[i], B[j]) || (best == key(A[i], B[j]) && Other(ms[p], reverse) <= j)
  {
    hide Scan, Alike;
    var earlier := Matches(key, A, B, reverse, n - 1);
    if i < n - 1 {
      p := MatchExists(key, A, B, reverse, n - 1, i, j);
      assert Matches(key, A, B, reverse, n)[p] == earlier[p];
    } else {
      ScanIsBest(key, A[i], B, 0, |B|);
      p := |earlier|;
      MatchIs(key, A, B, reverse, n, p);
    }
  }

  /** What `matching_triangle` should find: the shorter list is searched in the longer one. */
  function BestMatches(key: (Triangle, Triangle) -> real, tria: seq<Triangle>, trib: seq<Triangle>): seq<Match> {
    if |tria| <= |trib| then Matches(key, tria, trib, false, |tria|)
    else Matches(key, trib, tria, true, |trib|)
  }

  /** The test, in full; it does not matter which of the two triangles is named first. */
  lemma AlikeMeans(a: Triangle, b: Triangle)
    ensures Alike(a, b) == Alike(b, a)
    ensures Alike(a, b) <==>
      && a.orien == b.orien
      && (a.ratio - b.ratio) * (a.ratio - b.ratio) < a.dRatio + b.dRatio
      && (a.cosine - b.cosine) * (a.cosine - b.cosine) < a.dCosine + b.dCosine
      && -(a.dLogP + b.dLogP) < a.logP - b.logP < a.dLogP + b.dLogP
  {
    assert Sqr(a.ratio - b.ratio) == Sqr(b.ratio - a.ratio) && Sqr(a.cosine - b.cosine) == Sqr(b.cosine - a.cosine);
  }

  lemma BestMatchIs(key: (Triangle, Triangle) -> real, tria: seq<Triangle>, trib: seq<Triangle>, p: nat)
    requires p < |BestMatches(key, tria, trib)|
    ensures var m := BestMatches(key, tria, trib)[p];
      && m.id1 < |tria| && m.id2 < |trib| && Alike(tria[m.id1], trib[m.id2])
      && m.sense == tria[m.id1].orien * trib[m.id2].orien && m.logM == tria[m.id1].logP - trib[m.id2].logP
      && (if |tria| <= |trib| then key(tria[m.id1], trib[m.id2]) else key(trib[m.id2], tria[m.id1])) < WORST
  {
    hide Scan, Alike, Matches;
    if |tria| <= |trib| {
      MatchIs(key, tria, trib, false, |tria|, p);
    } else {
      MatchIs(key, trib, tria, true, |trib|, p);
      var m := BestMatches(key, tria, trib)[p];
      AlikeMeans(tria[m.id1], trib[m.id2]);
    }
  }

  lemma BestMatchExists(key: (Triangle, Triangle) -> real, tria: seq<Triangle>, trib: seq<Triangle>, i: nat, j: nat)
    returns (p: nat)
    requires i < |tria| && j < |trib| && Alike(tria[i], trib[j])
    requires (if |tria| <= |trib| then key(tria[i], trib[j]) else key(trib[j], tria[i])) < WORST
    ensures p < |BestMatches(key, tria, trib)| && Serves(key, tria, trib, BestMatches(key, tria, trib)[p], i, j)
  {
    hide Scan, Alike, Matches;
    if |tria| <= |trib| {
      p := MatchExists(key, tria, trib, false, |tria|, i, j);
    } else {
      AlikeMeans(tria[i], trib[j]);
      p := MatchExists(key, trib, tria, true, |trib|, j, i);
    }
  }

  lemma BestMatchesAscend(key: (Triangle, Triangle) -> real, tria: seq<Triangle>, trib: seq<Triangle>, p: nat, p': nat)
    requires p < p' < |BestMatches(key, tria, trib)|
    ensures var m, m' := BestMatches(key, tria, trib)[p], BestMatches(key, tria, trib)[p'];
            if |tria| <= |trib| then m.id1 < m'.id1 else m.id2 < m'.id2
  {
    hide Matches;
    if |tria| <= |trib| {
      MatchesAscend(key, tria, trib, false, |tria|, p, p');
    } else {
      MatchesAscend(key, trib, tria, true, |trib|, p, p');
    }
  }

  ghost predicate Accepted(key: (Triangle, Triangle) -> real, tria: seq<Triangle>, trib: seq<Triangle>, ms: seq<Match>) {
    forall p | 0 <= p < |ms| :: IsMatch(key, tria, trib, ms[p])
  }

  /** A match is of two triangles that pass the tests, with a key below 9999, and tells their sense
      and the difference of their logarithms. */
  ghost predicate IsMatch(key: (Triangle, Triangle) -> real, tria: seq<Triangle>, trib: seq<Triangle>, m: Match) {
    && m.id1 < |tria| && m.id2 < |trib|
    && var a, b := tria[m.id1], trib[m.id2];
       && a.orien == b.orien
       && (a.ratio - b.ratio) * (a.ratio - b.ratio) < a.dRatio + b.dRatio
       && (a.cosine - b.cosine) * (a.cosine - b.cosine) < a.dCosine + b.dCosine
       && -(a.dLogP + b.dLogP) < a.logP - b.logP < a.dLogP + b.dLogP
       && (if |tria| <= |trib| then key(a, b) else key(b, a)) < 9999.0
       && m.sense == a.orien * b.orien && m.logM == a.logP - b.logP
  }

  /** For every two triangles that pass the tests with a key below 9999, the one of the shorter list
      is matched, with that candidate or a better one, or one as good that comes before it. */
  ghost predicate Complete(key: (Triangle, Triangle) -> real, tria: seq<Triangle>, trib: seq<Triangle>, ms: seq<Match>) {
    forall i, j | 0 <= i < |tria| && 0 <= j < |trib| ::
      var a, b := tria[i], trib[j];
      && a.orien == b.orien
      && (a.ratio - b.ratio) * (a.ratio - b.ratio) < a.dRatio + b.dRatio
      && (a.cosine - b.cosine) * (a.cosine - b.cosine) < a.dCosine + b.dCosine
      && -(a.dLogP + b.dLogP) < a.logP - b.logP < a.dLogP + b.dLogP
      && (if |tria| <= |trib| then key(a, b) else key(b, a)) < 9999.0
      ==> exists p | 0 <= p < |ms| :: Serves(key, tria, trib, ms[p], i, j)
  }

  ghost predicate Serves(key: (Triangle, Triangle) -> real, tria: seq<Triangle>, trib: seq<Triangle>, m: Match, i: nat, j: nat)
    requires i < |tria| && j < |trib|
  {
    && m.id1 < |tria| && m.id2 < |trib|
    && if |tria| <= |trib| then
         var best, other := key(tria[i], trib[m.id2]), key(tria[i], trib[j]);
         m.id1 == i && (best < other || (best == other && m.id2 <= j))
       else
         var best, other := key(trib[j], tria[m.id1]), key(trib[j], tria[i]);
         m.id2 == j && (best < other || (best == other && m.id1 <= i))
  }

  lemma BestAccepted(key: (Triangle, Triangle) -> real, tria: seq<Triangle>, trib: seq<Triangle>)
    ensures Accepted(key, tria, trib, BestMatches(key, tria, trib))
  {
    hide BestMatches, Alike;
    var ms := BestMatches(key, tria, trib);
    forall p | 0 <= p < |ms|
      ensures IsMatch(key, tria, trib, ms[p])
    {
      BestMatchIs(key, tria, trib, p);
      AlikeMeans(tria[ms[p].id1], trib[ms[p].id2]);
    }
  }

  lemma BestComplete(key: (Triangle, Triangle) -> real, tria: seq<Triangle>, trib: seq<Triangle>)
    ensures Complete(key, tria, trib, BestMatches(key, tria, trib))
  {
    hide BestMatches, Alike, Serves;
    var ms := BestMatches(key, tria, trib);
    forall i, j | 0 <= i < |tria| && 0 <= j < |trib|
      ensures Alike(tria[i], trib[j]) && (if |tria| <= |trib| then key(tria[i], trib[j]) else key(trib[j], tria[i])) < WORST
              ==> exists p | 0 <= p < |ms| :: Serves(key, tria, trib, ms[p], i, j)
    {
      if Alike(tria[i], trib[j]) && (if |tria| <= |trib| then key(tria[i], trib[j]) else key(trib[j], tria[i])) < WORST {
        var p := BestMatchExists(key, tria, trib, i, j);
      }
    }
    forall i, j | 0 <= i < |tria| && 0 <= j < |trib| { AlikeMeans(tria[i], trib[j]); }
  }

  // ----- The window

  predicate Bounds(m: real, s: seq<Triangle>) {
    forall i | 0 <= i < |s| :: s[i].dRatio <= m
  }

  /** Outside the window no candidate passes the test. */
  lemma OutsideFails(a: Triangle, b: Triangle, ma: real, mb: real, maxD: real)
    requires a.dRatio <= ma && b.dRatio <= mb && IsRoot(maxD, ma + mb)
    requires a.ratio - b.ratio > maxD || b.ratio - a.ratio > maxD
    ensures !Alike(a, b)
  {
    FartherThan(Abs(a.ratio - b.ratio), maxD);
    SqrAbs(a.ratio - b.ratio);
  }

  lemma SqrAbs(x: real)
    ensures Sqr(x) == Abs(x) * Abs(x)
  {}

  lemma FartherThan(x: real, d: real)
    requires x > d >= 0.0
    ensures x * x > d * d
  {
    var e := x - d;
    assert x * x == d * d + 2.0 * (d * e) + e * e;
  }

  /** `max_d_ratio`. */
  method MaxDRatio(s: seq<Triangle>) returns (max: real)
    requires s != []
    ensures Bounds(max, s) && exists i | 0 <= i < |s| :: s[i].dRatio == max
  {
    max := s[0].dRatio;
    for i := 1 to |s|
      invariant forall k | 0 <= k < i :: s[k].dRatio <= max
      invariant exists k | 0 <= k < i :: s[k].dRatio == max
    {
      if s[i].dRatio > max { max := s[i].dRatio; }
    }
  }

  /** The two inner loops for triangle `a`: the window moves forward and is searched. */
  method SearchWindow(key: (Triangle, Triangle) -> real, a: Triangle, B: seq<Triangle>, maxD: real, from: nat)
    returns (start: nat, res: real, id2: int, ghost stop: nat)
    requires ByRatio(B) && from <= |B|
    requires forall j | 0 <= j < from :: a.ratio - B[j].ratio > maxD
    ensures start <= stop <= |B|
    ensures forall j | 0 <= j < start :: a.ratio - B[j].ratio > maxD
    ensures forall j | stop <= j < |B| :: B[j].ratio - a.ratio > maxD
    ensures Choice(res, id2) == Scan(key, a, B, start, stop)
  {
    hide Sqr, Abs;
    res, id2 := WORST, -1;
    start := from;
    while start < |B| && a.ratio - B[start].ratio > maxD
      invariant start <= |B|
      invariant forall j | 0 <= j < start :: a.ratio - B[j].ratio > maxD
    {
      start := start + 1;
    }
    var j := start;
    while j < |B|
      invariant start <= j <= |B|
      invariant Choice(res, id2) == Scan(key, a, B, start, j)
    {
      if B[j].ratio - a.ratio > maxD { break; }
      if a.orien == B[j].orien && Sqr(a.ratio - B[j].ratio) < a.dRatio + B[j].dRatio
         && Sqr(a.cosine - B[j].cosine) < a.dCosine + B[j].dCosine && Abs(a.logP - B[j].logP) < a.dLogP + B[j].dLogP {
        var v := key(a, B[j]);
        if v < res { id2, res := j, v; }
      }
      j := j + 1;
    }
    stop := j;
  }

  /** The window search finds what the full scan finds. */
  lemma WindowIsEnough(key: (Triangle, Triangle) -> real, a: Triangle, B: seq<Triangle>, maxD: real, ma: real, mb: real,
                       start: nat, stop: nat)
    requires start <= stop <= |B| && a.dRatio <= ma && Bounds(mb, B)
    requires IsRoot(maxD, ma + mb)
    requires forall j | 0 <= j < start :: a.ratio - B[j].ratio > maxD
    requires forall j | stop <= j < |B| :: B[j].ratio - a.ratio > maxD
    ensures Scan(key, a, B, start, stop) == Scan(key, a, B, 0, |B|)
  {
    forall j | 0 <= j < start || stop <= j < |B|
      ensures !Alike(a, B[j])
    {
      OutsideFails(a, B[j], ma, mb, maxD);
    }
    hide Alike;
    ScanSkips(key, a, B, start, stop, |B|);
  }

  /** `matching_triangle`: `start` only moves forward and the inner loop breaks early, yet
      every triangle gets the match of the full scan. */
  method MatchingTriangle(tria: seq<Triangle>, trib: seq<Triangle>, sqrt: real -> real,
                          key: (Triangle, Triangle) -> real) returns (mat: array<Match>, k: nat)
    requires tria != [] && trib != [] && ByRatio(tria) && ByRatio(trib) && IsSqrt(sqrt)
    requires forall i | 0 <= i < |tria| :: tria[i].dRatio >= 0.0
    requires forall i | 0 <= i < |trib| :: trib[i].dRatio >= 0.0
    ensures fresh(mat) && k <= mat.Length
    ensures mat[..k] == BestMatches(key, tria, trib)
    ensures Accepted(key, tria, trib, mat[..k]) && Complete(key, tria, trib, mat[..k])
    ensures forall p, p' | 0 <= p < p' < k ::
              if |tria| <= |trib| then mat[p].id1 < mat[p'].id1 else mat[p].id2 < mat[p'].id2
  {
    mat, k := MatchAll(tria, trib, sqrt, key);
    hide BestMatches, Accepted, Complete;
    BestAccepted(key, tria, trib);
    BestComplete(key, tria, trib);
    ghost var ms := mat[..k];
    forall p, p' | 0 <= p < p' < k
      ensures if |tria| <= |trib| then mat[p].id1 < mat[p'].id1 else mat[p].id2 < mat[p'].id2
    {
      BestMatchesAscend(key, tria, trib, p, p');
      assert mat[p] == ms[p] && mat[p'] == ms[p'];
    }
  }

  /** The loops, against the full scans. */
  method MatchAll(tria: seq<Triangle>, trib: seq<Triangle>, sqrt: real -> real,
                  key: (Triangle, Triangle) -> real) returns (mat: array<Match>, k: nat)
    requires tria != [] && trib != [] && ByRatio(tria) && ByRatio(trib) && IsSqrt(sqrt)
    requires forall i | 0 <= i < |tria| :: tria[i].dRatio >= 0.0
    requires forall i | 0 <= i < |trib| :: trib[i].dRatio >= 0.0
    ensures fresh(mat) && k <= mat.Length
    ensures mat[..k] == BestMatches(key, tria, trib)
  {
    hide Scan, Bounds, IsRoot, Matches;
    var A, B, reverse := tria, trib, false;
    if |tria| > |trib| { A, B, reverse := trib, tria, true; }
    var ma := MaxDRatio(A);
    var mb := MaxDRatio(B);
    BoundsAt(ma, A);
    BoundsAt(mb, B);
    var maxD := sqrt(ma + mb);
    assert Matches(key, A, B, reverse, 0) == [] by { NoMatches(key, A, B, reverse); }
    mat := new Match[|A|](_ => Match(0, 0, 0, 0.0));
    k := 0;
    var start: nat := 0;
    for i := 0 to |A|
      invariant k <= i && start <= |B| && fresh(mat)
      invariant forall j | 0 <= j < start && i < |A| :: A[i].ratio - B[j].ratio > maxD
      invariant mat.Length == |A| && mat[..k] == Matches(key, A, B, reverse, i)
    {
      var res, id2;
      ghost var stop;
      start, res, id2, stop := SearchWindow(key, A[i], B, maxD, start);
      WindowIsEnough(key, A[i], B, maxD, ma, mb, start, stop);
      MatchesStep(key, A, B, reverse, i, Choice(res, id2));
      if res != WORST {
        ghost var before := mat[..k];
        if !reverse {
          mat[k] := Match(i, id2, A[i].orien * B[id2].orien, A[i].logP - B[id2].logP);
        } else {
          mat[k] := Match(id2, i, B[id2].orien * A[i].orien, B[id2].logP - A[i].logP);
        }
        k := k + 1;
        assert mat[..k] == before + [Pair(A, B, reverse, i, id2)];
      }
    }
  }

  lemma NoMatches(key: (Triangle, Triangle) -> real, A: seq<Triangle>, B: seq<Triangle>, reverse: bool)
    ensures Matches(key, A, B, reverse, 0) == []
  {}

  lemma BoundsAt(m: real, s: seq<Triangle>)
    requires Bounds(m, s)
    ensures forall i | 0 <= i < |s| :: s[i].dRatio <= m
  {}

  // ----- The list of triangles

  const BLANK: Triangle := Triangle(0, 0, 0, 0.0, 0.0, 0, 0.0, 0.0, 0.0, 0.0)

  /** The indices of three points. */
  datatype Corners = Corners(i: nat, j: nat, k: nat)

  /** The triples (i, j, .) with third corner below `k`, in the order of the loops. */
  function ThirdBelow(i: nat, j: nat, k: nat): (r: seq<Corners>)
    requires i < j < k
    ensures |r| == k - j - 1
  {
    if k == j + 1 then [] else ThirdBelow(i, j, k - 1) + [Corners(i, j, k - 1)]
  }

  /** The triples (i, ., .) with second corner below `j`. */
  function SecondBelow(i: nat, j: nat, n: nat): seq<Corners>
    requires i < j <= n
  {
    if j == i + 1 then [] else SecondBelow(i, j - 1, n) + ThirdBelow(i, j - 1, n)
  }

  /** The triples with first corner below `i`. */
  function FirstBelow(i: nat, n: nat): seq<Corners>
    requires i <= n
  {
    if i == 0 then [] else FirstBelow(i - 1, n) + SecondBelow(i - 1, n, n)
  }

  predicate Less(a: Corners, b: Corners) {
    a.i < b.i || (a.i == b.i && (a.j < b.j || (a.j == b.j && a.k < b.k)))
  }

  /** Strictly ascending, hence without repetition. */
  predicate InOrder(s: seq<Corners>) {
    forall p, q | 0 <= p < q < |s| :: Less(s[p], s[q])
  }

  lemma {:induction false} ThirdBelowIs(i: nat, j: nat, k: nat)
    requires i < j < k
    ensures forall p | 0 <= p < k - j - 1 :: ThirdBelow(i, j, k)[p] == Corners(i, j, j + 1 + p)
  {
    if k > j + 1 { ThirdBelowIs(i, j, k - 1); }
  }

  lemma {:induction false} SecondBelowCount(i: nat, j: nat, n: nat)
    requires i < j <= n
    ensures 2 * |SecondBelow(i, j, n)| == (j - i - 1) * (2 * n - i - j - 2)
  {
    if j > i + 1 {
      SecondBelowCount(i, j - 1, n);
      CountPairs(i, j, n);
    }
  }

  lemma CountPairs(i: int, j: int, n: int)
    ensures (j - 1 - i - 1) * (2 * n - i - (j - 1) - 2) + 2 * (n - j) == (j - i - 1) * (2 * n - i - j - 2)
  {}

  /** Six times the number of triples with first corner below `i`. */
  function SixFold(i: int, n: int): int {
    i * (3 * (n - 1) * (n - 2) - 3 * (n - 2) * (i - 1) + (i - 1) * (i - 2))
  }

  lemma {:induction false} FirstBelowCount(i: nat, n: nat)
    requires i <= n
    ensures 6 * |FirstBelow(i, n)| == SixFold(i, n)
  {
    if i > 0 {
      FirstBelowCount(i - 1, n);
      SecondBelowCount(i - 1, n, n);
      CountTriples(i, n);
    }
  }

  lemma CountTriples(i: int, n: int)
    ensures SixFold(i, n) == SixFold(i - 1, n) + 3 * ((n - (i - 1) - 1) * (2 * n - (i - 1) - n - 2))
  {}

  lemma AllTriples(n: int)
    ensures SixFold(n, n) == n * (n - 1) * (n - 2)
  {}

  lemma OrderJoin(s: seq<Corners>, t: seq<Corners>)
    requires InOrder(s) && InOrder(t)
    requires forall p, q | 0 <= p < |s| && 0 <= q < |t| :: Less(s[p], t[q])
    ensures InOrder(s + t)
  {}

  lemma {:induction false} SecondBelowIs(i: nat, j: nat, n: nat)
    requires i < j <= n
    ensures InOrder(SecondBelow(i, j, n))
    ensures forall t :: t in SecondBelow(i, j, n) <==> t.i == i && i < t.j < j && t.j < t.k < n
  {
    if j > i + 1 {
      SecondBelowIs(i, j - 1, n);
      var group := ThirdBelow(i, j - 1, n);
      ThirdBelowIs(i, j - 1, n);
      forall t: Corners | t.i == i && t.j == j - 1 && t.j < t.k < n
        ensures t in group
      {
        assert group[t.k - j] == t;
      }
      var shorter := SecondBelow(i, j - 1, n);
      assert forall p | 0 <= p < |shorter| :: shorter[p] in shorter;
      OrderJoin(shorter, group);
    }
  }

  /** The loops visit every triple i < j < k < n exactly once. */
  lemma {:induction false} FirstBelowIs(i: nat, n: nat)
    requires i <= n
    ensures InOrder(FirstBelow(i, n))
    ensures forall t: Corners :: t in FirstBelow(i, n) <==> t.i < i && t.i < t.j < t.k < n
  {
    hide SecondBelow;
    if i > 0 {
      FirstBelowIs(i - 1, n);
      SecondBelowIs(i - 1, n, n);
      var shorter, group := FirstBelow(i - 1, n), SecondBelow(i - 1, n, n);
      assert forall p | 0 <= p < |shorter| :: shorter[p] in shorter;
      assert forall p | 0 <= p < |group| :: group[p] in group;
      OrderJoin(shorter, group);
    }
  }

  /** All triples, and how many. */
  function Triples(n: nat): (r: seq<Corners>)
    ensures 6 * |r| == n * (n - 1) * (n - 2)
  {
    FirstBelowCount(n, n);
    AllTriples(n);
    FirstBelow(n, n)
  }

  lemma EveryTripleOnce(n: nat)
    ensures InOrder(Triples(n))
    ensures forall t: Corners :: t in Triples(n) <==> t.i < t.j < t.k < n
  {
    FirstBelowIs(n, n);
  }

  /** The triples done when the loops stand at (i, j, k) are a part of all of them, and more follow. */
  lemma MoreToCome(i: nat, j: nat, k: nat, n: nat)
    requires i < j < k < n
    ensures |FirstBelow(i, n)| + |SecondBelow(i, j, n)| + |ThirdBelow(i, j, k)| < |Triples(n)|
  {
    FirstGrows(i + 1, n, n);
    SecondGrows(i, j + 1, n, n);
  }

  lemma {:induction false} FirstGrows(i: nat, i': nat, n: nat)
    requires i <= i' <= n
    ensures |FirstBelow(i, n)| <= |FirstBelow(i', n)|
  {
    if i < i' { FirstGrows(i, i' - 1, n); }
  }

  lemma {:induction false} SecondGrows(i: nat, j: nat, j': nat, n: nat)
    requires i < j <= j' <= n
    ensures |SecondBelow(i, j, n)| <= |SecondBelow(i, j', n)|
  {
    if j < j' { SecondGrows(i, j, j' - 1, n); }
  }

  /** All corners are among the first `n` points. */
  predicate Within(s: seq<Corners>, n: nat) {
    forall u | u in s :: u.i < n && u.j < n && u.k < n
  }

  /** The triangle of each triple. */
  function Measured<P>(pt: seq<P>, measure: (P, P, P) -> Triangle, s: seq<Corners>): (r: seq<Triangle>)
    requires Within(s, |pt|)
    ensures |r| == |s|
    ensures forall p | 0 <= p < |s| :: s[p] in s && r[p] == measure(pt[s[p].i], pt[s[p].j], pt[s[p].k])
  {
    seq(|s|, p requires 0 <= p < |s| => assert s[p] in s; measure(pt[s[p].i], pt[s[p].j], pt[s[p].k]))
  }

  lemma MeasuredSnoc<P>(pt: seq<P>, measure: (P, P, P) -> Triangle, s: seq<Corners>, t: Corners)
    requires Within(s, |pt|) && t.i < |pt| && t.j < |pt| && t.k < |pt|
    ensures Within(s + [t], |pt|)
    ensures Measured(pt, measure, s + [t]) == Measured(pt, measure, s) + [measure(pt[t.i], pt[t.j], pt[t.k])]
  {}

  lemma Nothing<P>(pt: seq<P>, measure: (P, P, P) -> Triangle)
    ensures Within([], |pt|) && Measured(pt, measure, []) == []
  {}

  /** The triples done when the loops stand at (i, j, k). */
  function Done(i: nat, j: nat, k: nat, n: nat): seq<Corners>
    requires i < j < k <= n
  {
    FirstBelow(i, n) + SecondBelow(i, j, n) + ThirdBelow(i, j, k)
  }

  lemma DoneSteps(i: nat, j: nat, k: nat, n: nat)
    requires i < j < k <= n
    ensures k < n ==> Done(i, j, k + 1, n) == Done(i, j, k, n) + [Corners(i, j, k)]
    ensures k < n ==> |Done(i, j, k, n)| < |Triples(n)|
    ensures k == n && j + 1 < n ==> Done(i, j + 1, j + 2, n) == Done(i, j, n, n)
    ensures Within(Done(i, j, k, n), n)
  {
    if k < n { MoreToCome(i, j, k, n); }
    DoneWithin(i, j, k, n);
  }

  lemma DoneWithin(i: nat, j: nat, k: nat, n: nat)
    requires i < j < k <= n
    ensures Within(Done(i, j, k, n), n)
  {
    FirstBelowIs(i, n);
    SecondBelowIs(i, j, n);
    ThirdBelowIs(i, j, k);
  }

  lemma StartRow(i: nat, n: nat)
    requires i + 2 < n
    ensures Done(i, i + 1, i + 2, n) == FirstBelow(i, n)
    ensures FirstBelow(0, n) == []
  {}

  lemma EndRow(i: nat, n: nat)
    requires i + 2 < n
    ensures Done(i, n - 1, n, n) == FirstBelow(i + 1, n)
  {
    assert SecondBelow(i, n, n) == SecondBelow(i, n - 1, n) + ThirdBelow(i, n - 1, n);
  }

  lemma LastFirst(n: nat)
    ensures n < 3 ==> Triples(n) == []
    ensures n >= 3 ==> Triples(n) == FirstBelow(n - 2, n)
    ensures FirstBelow(0, n) == []
  {
    if n >= 3 {
      assert SecondBelow(n - 2, n, n) == SecondBelow(n - 2, n - 1, n) + ThirdBelow(n - 2, n - 1, n) == [];
      assert FirstBelow(n - 1, n) == FirstBelow(n - 2, n) + SecondBelow(n - 2, n, n);
    } else if n == 2 {
      assert FirstBelow(1, 2) == FirstBelow(0, 2) + SecondBelow(0, 2, 2);
      assert SecondBelow(0, 2, 2) == SecondBelow(0, 1, 2) + ThirdBelow(0, 1, 2) == [];
    }
  }

  /** The room the program allocates. */
  function Room(n: nat): int {
    n * (n - 1) * (n - 2) / 6
  }

  /** It is exactly the number of triples. */
  lemma RoomIs(n: nat)
    ensures Room(n) == |Triples(n)|
  {
    hide Triples;
    Sixth(n * (n - 1) * (n - 2), |Triples(n)|);
  }

  lemma Sixth(x: int, k: int)
    requires 6 * k == x
    ensures x / 6 == k
  {}

  /** The first `l` places of the buffer hold the triangles of `done`. */
  ghost predicate Filled<P>(pt: seq<P>, measure: (P, P, P) -> Triangle, buffer: array<Triangle>, l: int, done: seq<Corners>)
    reads buffer
  {
    && Within(done, |pt|) && l == |done| <= buffer.Length == |Triples(|pt|)|
    && buffer[..l] == Measured(pt, measure, done)
  }

  /** The innermost loop. */
  method FillThird<P>(pt: seq<P>, measure: (P, P, P) -> Triangle, buffer: array<Triangle>, from: nat, i: nat, j: nat)
    returns (l: nat)
    requires i < j < |pt| - 1 && Filled(pt, measure, buffer, from, Done(i, j, j + 1, |pt|))
    modifies buffer
    ensures Filled(pt, measure, buffer, l, Done(i, j, |pt|, |pt|))
  {
    hide Triples, Done, Measured, Within;
    l := from;
    for k := j + 1 to |pt|
      invariant Filled(pt, measure, buffer, l, Done(i, j, k, |pt|))
    {
      DoneSteps(i, j, k, |pt|);
      MeasuredSnoc(pt, measure, Done(i, j, k, |pt|), Corners(i, j, k));
      ghost var before := buffer[..l];
      buffer[l] := measure(pt[i], pt[j], pt[k]);
      l := l + 1;
      assert buffer[..l] == before + [measure(pt[i], pt[j], pt[k])];
    }
  }

  /** The nested loops: one triangle for every triple, and the buffer comes out full. */
  method FillBuffer<P>(pt: seq<P>, measure: (P, P, P) -> Triangle) returns (buffer: array<Triangle>)
    ensures fresh(buffer) && buffer.Length == Room(|pt|)
    ensures Within(Triples(|pt|), |pt|) && buffer[..] == Measured(pt, measure, Triples(|pt|))
  {
    hide Triples, Room, Done, Measured, Within, FirstBelow, SecondBelow;
    var n := |pt|;
    RoomIs(n);
    buffer := new Triangle[Room(n)](_ => BLANK);
    var l := 0;
    Nothing(pt, measure);
    LastFirst(n);
    var i := 0;
    while i < n - 2
      invariant 0 <= i && (i <= n - 2 || i == 0) && fresh(buffer)
      invariant Filled(pt, measure, buffer, l, FirstBelow(i, n))
    {
      StartRow(i, n);
      for j := i + 1 to n - 1
        invariant fresh(buffer) && Filled(pt, measure, buffer, l, Done(i, j, j + 1, n))
      {
        l := FillThird(pt, measure, buffer, l, i, j);
        DoneSteps(i, j, n, n);
      }
      EndRow(i, n);
      i := i + 1;
    }
    assert buffer[..l] == buffer[..];
  }

  // ----- Sorting the list

  /** A buffer and its positions after sorting by ratio: the list read through them. */
  function Picked(buffer: seq<Triangle>, s: seq<Item<int>>): (r: seq<Triangle>)
    requires forall p | 0 <= p < |s| :: 0 <= s[p].val < |buffer|
    ensures |r| == |s|
  {
    seq(|s|, p requires 0 <= p < |s| => buffer[s[p].val])
  }

  predicate Points(buffer: seq<Triangle>, s: seq<Item<int>>) {
    forall p | 0 <= p < |s| :: 0 <= s[p].val < |buffer| && s[p].key == buffer[s[p].val].ratio
  }

  lemma {:induction false} PickedPermutes(buffer: seq<Triangle>, s: seq<Item<int>>, t: seq<Item<int>>)
    requires Points(buffer, s) && Points(buffer, t) && multiset(s) == multiset(t)
    ensures multiset(Picked(buffer, s)) == multiset(Picked(buffer, t))
  {
    hide Picked;
    SameLength(s, t);
    if s == [] {
    } else {
      var n := |s| - 1;
      var k := RemoveLast(s, t);
      PickedPermutes(buffer, s[..n], t[..k] + t[k + 1..]);
      PickedWithout(buffer, s, n);
      PickedWithout(buffer, t, k);
      assert s[..n] + s[n + 1..] == s[..n];
    }
  }

  lemma PickedWithout(buffer: seq<Triangle>, t: seq<Item<int>>, k: nat)
    requires Points(buffer, t) && k < |t|
    ensures Points(buffer, t[..k] + t[k + 1..])
    ensures multiset(Picked(buffer, t)) == multiset(Picked(buffer, t[..k] + t[k + 1..])) + multiset{buffer[t[k].val]}
  {
    assert Picked(buffer, t[..k] + t[k + 1..]) == Picked(buffer, t)[..k] + Picked(buffer, t)[k + 1..];
    WithoutOne(Picked(buffer, t), k);
    assert Picked(buffer, t)[k] in multiset(Picked(buffer, t));
  }

  lemma PointsPermutes(buffer: seq<Triangle>, s: seq<Item<int>>, t: seq<Item<int>>)
    requires Points(buffer, s) && multiset(s) == multiset(t)
    ensures Points(buffer, t)
  {
    forall p | 0 <= p < |t|
      ensures 0 <= t[p].val < |buffer| && t[p].key == buffer[t[p].val].ratio
    {
      assert t[p] in multiset(s);
    }
  }

  /** The list read through the sorted positions is the buffer, sorted by ratio. */
  lemma PickedSorts(buffer: seq<Triangle>, s: seq<Item<int>>, t: seq<Item<int>>)
    requires |s| == |buffer| && forall p | 0 <= p < |s| :: s[p] == Item(buffer[p].ratio, p)
    requires multiset(s) == multiset(t) && Ascending(t)
    ensures |t| == |buffer| && Points(buffer, t)
    ensures ByRatio(Picked(buffer, t)) && multiset(Picked(buffer, t)) == multiset(buffer)
  {
    SameLength(s, t);
    PointsPermutes(buffer, s, t);
    PickedPermutes(buffer, s, t);
    assert Picked(buffer, s) == buffer;
  }

  /** The points with their numbers. */
  function Numbered(pt: seq<(real, real)>): (r: seq<Vertex>)
    ensures |r| == |pt| && forall i | 0 <= i < |pt| :: r[i] == Vertex(i, pt[i].0, pt[i].1)
  {
    seq(|pt|, i requires 0 <= i < |pt| => Vertex(i, pt[i].0, pt[i].1))
  }

  function Measuring(q: Maths, epsilon: real): (Vertex, Vertex, Vertex) -> Triangle {
    (i, j, k) => Measure(q, epsilon, i, j, k)
  }

  // ----- What the list holds, told by the points alone

  /** Point `n` with its number. */
  ghost function Numbering(pt: seq<(real, real)>, n: nat): Vertex
    requires n < |pt|
  {
    Vertex(n, pt[n].0, pt[n].1)
  }

  /** Every number of the record is right for the three points that it names. */
  ghost predicate Recorded(q: Maths, epsilon: real, pt: seq<(real, real)>, t: Triangle) {
    && t.v1 < |pt| && t.v2 < |pt| && t.v3 < |pt|
    && Describes(q, epsilon, Numbering(pt, t.v1), Numbering(pt, t.v2), Numbering(pt, t.v3), t)
  }

  predicate OnCorners(t: Triangle, u: Corners) {
    {t.v1, t.v2, t.v3} == {u.i, u.j, u.k}
  }

  /** Right records, and just one on any three points. */
  ghost predicate Lists(q: Maths, epsilon: real, pt: seq<(real, real)>, tri: seq<Triangle>) {
    && (forall p | 0 <= p < |tri| :: Recorded(q, epsilon, pt, tri[p]))
    && (forall u: Corners | u.i < u.j < u.k < |pt| :: exists p | 0 <= p < |tri| :: OnCorners(tri[p], u))
    && (forall u: Corners, p, p' | u.i < u.j < u.k && 0 <= p < p' < |tri| :: !(OnCorners(tri[p], u) && OnCorners(tri[p'], u)))
  }

  ghost predicate AllApart(pt: seq<(real, real)>) {
    forall i, j | 0 <= i < j < |pt| :: pt[i] != pt[j]
  }

  lemma MeasuredIsRecorded(q: Maths, epsilon: real, pt: seq<(real, real)>, u: Corners)
    requires IsSqrt(q.sqrt) && AllApart(pt) && u.i < u.j < u.k < |pt|
    ensures var t := Measure(q, epsilon, Numbering(pt, u.i), Numbering(pt, u.j), Numbering(pt, u.k));
      Recorded(q, epsilon, pt, t) && OnCorners(t, u)
  {
    hide Measure, RolesOf, Length2, Describes, IsSqrt;
    var i, j, k := Numbering(pt, u.i), Numbering(pt, u.j), Numbering(pt, u.k);
    Apart(i, j, k);
    MeasureDescribes(q, epsilon, i, j, k);
    var r, t := RolesOf(i, j, k), Measure(q, epsilon, i, j, k);
    assert t.v1 == r.v1.n && t.v2 == r.v2.n && t.v3 == r.v3.n by { Corner(q, epsilon, r, t); }
    assert Numbering(pt, t.v1) == r.v1 && Numbering(pt, t.v2) == r.v2 && Numbering(pt, t.v3) == r.v3;
  }

  lemma Corner(q: Maths, epsilon: real, r: Roles, t: Triangle)
    requires Describes(q, epsilon, r.v1, r.v2, r.v3, t)
    ensures t.v1 == r.v1.n && t.v2 == r.v2.n && t.v3 == r.v3.n
  {}

  lemma SameCorners(t: Triangle, u: Corners, w: Corners)
    requires OnCorners(t, u) && OnCorners(t, w) && u.i < u.j < u.k && w.i < w.j < w.k
    ensures u == w
  {
    assert u.i in {w.i, w.j, w.k} && u.j in {w.i, w.j, w.k} && u.k in {w.i, w.j, w.k};
    assert w.i in {u.i, u.j, u.k} && w.j in {u.i, u.j, u.k} && w.k in {u.i, u.j, u.k};
  }

  lemma ListsTriples(q: Maths, epsilon: real, pt: seq<(real, real)>)
    requires IsSqrt(q.sqrt) && AllApart(pt) && Within(Triples(|pt|), |pt|)
    ensures Lists(q, epsilon, pt, Measured(Numbered(pt), Measuring(q, epsilon), Triples(|pt|)))
  {
    hide Measure, Recorded, OnCorners, Triples, IsSqrt, InOrder, AllApart, Lists;
    var s := Triples(|pt|);
    var all := Measured(Numbered(pt), Measuring(q, epsilon), s);
    EveryTripleOnce(|pt|);
    forall p | 0 <= p < |all| ensures Recorded(q, epsilon, pt, all[p]) && OnCorners(all[p], s[p]) {
      assert s[p] in s;
      MeasuredIsRecorded(q, epsilon, pt, s[p]);
    }
    OneOnEach(q, epsilon, pt, s, all);
  }

  /** A record on each of the triples, in their order. */
  lemma OneOnEach(q: Maths, epsilon: real, pt: seq<(real, real)>, s: seq<Corners>, all: seq<Triangle>)
    requires InOrder(s) && forall u: Corners :: u in s <==> u.i < u.j < u.k < |pt|
    requires |all| == |s| && forall p | 0 <= p < |s| :: Recorded(q, epsilon, pt, all[p]) && OnCorners(all[p], s[p])
    ensures Lists(q, epsilon, pt, all)
  {
    hide Recorded, OnCorners, InOrder;
    forall u: Corners | u.i < u.j < u.k < |pt| ensures exists p | 0 <= p < |all| :: OnCorners(all[p], u) {
      assert u in s;
      var p :| 0 <= p < |s| && s[p] == u;
      assert OnCorners(all[p], u);
    }
    forall u: Corners, p, p' | u.i < u.j < u.k && 0 <= p < p' < |all|
      ensures !(OnCorners(all[p], u) && OnCorners(all[p'], u))
    {
      assert s[p] in s && s[p'] in s;
      InOrderDiffers(s, p, p');
      if OnCorners(all[p], u) { SameCorners(all[p], u, s[p]); }
      if OnCorners(all[p'], u) { SameCorners(all[p'], u, s[p']); }
    }
  }

  lemma InOrderDiffers(s: seq<Corners>, p: int, p': int)
    requires InOrder(s) && 0 <= p < p' < |s|
    ensures s[p] != s[p']
  {}

  /** Any permutation lists the same. */
  lemma ListsPermutes(q: Maths, epsilon: real, pt: seq<(real, real)>, all: seq<Triangle>, tri: seq<Triangle>)
    requires Lists(q, epsilon, pt, all) && multiset(all) == multiset(tri)
    ensures Lists(q, epsilon, pt, tri)
  {
    hide Recorded, OnCorners;
    forall p | 0 <= p < |tri| ensures Recorded(q, epsilon, pt, tri[p]) {
      assert tri[p] in multiset(all);
    }
    forall u: Corners | u.i < u.j < u.k < |pt| ensures exists p | 0 <= p < |tri| :: OnCorners(tri[p], u) {
      var p :| 0 <= p < |all| && OnCorners(all[p], u);
      assert all[p] in multiset(tri);
    }
    forall u: Corners, p, p' | u.i < u.j < u.k && 0 <= p < p' < |tri|
      ensures !(OnCorners(tri[p], u) && OnCorners(tri[p'], u))
    {
      if OnCorners(tri[p], u) && OnCorners(tri[p'], u) { TwoPlaces(tri, all, t => OnCorners(t, u), p, p'); }
    }
  }

  /** `make_triangle_list`. */
  method MakeTriangleList(q: Maths, pt: seq<(real, real)>, epsilon: real) returns (tri: array<Triangle>, l: nat)
    ensures fresh(tri) && l == tri.Length == Room(|pt|)
    ensures ByRatio(tri[..])
    ensures Within(Triples(|pt|), |pt|)
    ensures multiset(tri[..]) == multiset(Measured(Numbered(pt), Measuring(q, epsilon), Triples(|pt|)))
    ensures IsSqrt(q.sqrt) && AllApart(pt) ==> Lists(q, epsilon, pt, tri[..])
  {
    hide Triples, Measured, Lists, ByRatio, IsSqrt, Within;
    tri, l := ListOf(Numbered(pt), Measuring(q, epsilon));
    if IsSqrt(q.sqrt) && AllApart(pt) {
      ghost var all := Measured(Numbered(pt), Measuring(q, epsilon), Triples(|pt|));
      ListsTriples(q, epsilon, pt);
      ListsPermutes(q, epsilon, pt, all, tri[..]);
    }
  }

  /** What the search asks of such a list: no error of a ratio is negative, if no two points coincide. */
  lemma ListFits(q: Maths, pt: seq<(real, real)>, epsilon: real, tri: seq<Triangle>)
    requires Within(Triples(|pt|), |pt|)
    requires multiset(tri) == multiset(Measured(Numbered(pt), Measuring(q, epsilon), Triples(|pt|)))
    requires forall i, j | 0 <= i < j < |pt| :: pt[i] != pt[j]
    ensures forall i | 0 <= i < |tri| :: tri[i].dRatio >= 0.0
  {
    hide Measure, RolesOf, Length2;
    var s := Triples(|pt|);
    var all := Measured(Numbered(pt), Measuring(q, epsilon), s);
    forall i | 0 <= i < |tri|
      ensures tri[i].dRatio >= 0.0
    {
      assert tri[i] in multiset(all);
      var p :| 0 <= p < |all| && all[p] == tri[i];
      var u := s[p];
      EveryTripleOnce(|pt|);
      assert u in s;
      Apart(Numbered(pt)[u.i], Numbered(pt)[u.j], Numbered(pt)[u.k]);
      ErrorNotNegative(q, epsilon, Numbered(pt)[u.i], Numbered(pt)[u.j], Numbered(pt)[u.k]);
    }
  }

  /** The list of all triangles, sorted by ratio, whatever is measured of three points. */
  method ListOf<P>(pt: seq<P>, measure: (P, P, P) -> Triangle) returns (tri: array<Triangle>, l: nat)
    ensures fresh(tri) && l == tri.Length == Room(|pt|)
    ensures ByRatio(tri[..])
    ensures Within(Triples(|pt|), |pt|) && multiset(tri[..]) == multiset(Measured(pt, measure, Triples(|pt|)))
  {
    hide Triples, Room, Done, Measured, Within, Zip, Ascending, Picked, ByRatio;
    var n := |pt|;
    var buffer := FillBuffer(pt, measure);
    l := buffer.Length;
    ghost var list := buffer[..];
    var rat, id := new real[l], new int[l];
    forall p | 0 <= p < l { rat[p] := buffer[p].ratio; }
    forall p | 0 <= p < l { id[p] := p; }
    ghost var s := Zip(rat[..], id[..]);
    ZipAt(rat[..], id[..]);
    Heapsort2(rat, id);
    ghost var t := Zip(rat[..], id[..]);
    ZipAt(rat[..], id[..]);
    assert buffer[..] == list;
    PickedSorts(list, s, t);
    tri := ReadThrough(buffer, id, t);
  }

  /** The last loop: the list is read through the sorted positions. */
  method ReadThrough(buffer: array<Triangle>, id: array<int>, ghost t: seq<Item<int>>) returns (tri: array<Triangle>)
    requires id.Length == buffer.Length == |t| && Points(buffer[..], t)
    requires forall p | 0 <= p < |t| :: t[p].val == id[p]
    ensures fresh(tri) && tri[..] == Picked(buffer[..], t)
  {
    tri := new Triangle[buffer.Length](_ => BLANK);
    ghost var goal := Picked(buffer[..], t);
    forall p | 0 <= p < |t| ensures 0 <= id[p] < buffer.Length && goal[p] == buffer[id[p]] { assert t[p].val == id[p]; }
    forall i | 0 <= i < buffer.Length { tri[i] := buffer[id[i]]; }
    assert tri[..] == goal;
  }
}
