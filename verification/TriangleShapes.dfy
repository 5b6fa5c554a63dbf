/** What `make_triangle_list` measures of three points, and why triangles can be matched by it:
    ratio and cosine do not change when the points are moved, turned, scaled or mirrored. */
module TriangleShapes {

  /** A point and its number in the list. */
  datatype Vertex = Vertex(n: nat, x: real, y: real)

  /** `orien` is the orientation, 1, -1 or 0. */
  datatype Triangle = Triangle(v1: nat, v2: nat, v3: nat, logP: real, dLogP: real, orien: int,
                               ratio: real, dRatio: real, cosine: real, dCosine: real)

  /** The functions of the mathematical library; `byZero` is what a division by zero gives. */
  datatype Maths = Maths(sqrt: real -> real, log10: real -> real, byZero: real -> real)

  /** The square root as the C library gives it, on exact reals. */
  ghost predicate IsSqrt(sqrt: real -> real) {
    forall x | x >= 0.0 :: IsRoot(sqrt(x), x)
  }

  predicate IsRoot(d: real, x: real) {
    d >= 0.0 && d * d == x
  }

  ghost predicate IsLog(log: real -> real) {
    forall x, y | x > 0.0 && y > 0.0 :: log(Times(x, y)) == log(x) + log(y)
  }

  function Times(x: real, y: real): real { x * y }

  function Sqr(x: real): real { x * x }

  function Quotient(q: Maths, a: real, b: real): real {
    if b == 0.0 then q.byZero(a) else a / b
  }

  function Length2(a: Vertex, b: Vertex): real {
    Sqr(a.x - b.x) + Sqr(a.y - b.y)
  }

  /** `ccw`. */
  function Ccw(a: Vertex, b: Vertex, c: Vertex): int {
    if (b.x - a.x) * (c.y - a.y) > (b.y - a.y) * (c.x - a.x) then 1
    else if (b.x - a.x) * (c.y - a.y) < (b.y - a.y) * (c.x - a.x) then -1
    else 0
  }

  // ----- Which corner plays which part

  datatype Roles = Roles(v1: Vertex, v2: Vertex, v3: Vertex)

  function RolesOf(i: Vertex, j: Vertex, k: Vertex): Roles {
    var x2, y2, z2 := Length2(j, k), Length2(k, i), Length2(i, j);
    if x2 < y2 && x2 < z2 then if y2 < z2 then Roles(i, j, k) else Roles(i, k, j)
    else if y2 <= x2 && y2 < z2 then if x2 < z2 then Roles(j, i, k) else Roles(j, k, i)
    else if x2 < y2 then Roles(k, i, j) else Roles(k, j, i)
  }

  function Shortest(r: Roles): real { Length2(r.v2, r.v3) }

  function Middle(r: Roles): real { Length2(r.v1, r.v3) }

  function Longest(r: Roles): real { Length2(r.v1, r.v2) }

  lemma LengthTurned(a: Vertex, b: Vertex)
    ensures Length2(a, b) == Length2(b, a) >= 0.0
  {
    assert Sqr(a.x - b.x) == Sqr(b.x - a.x) >= 0.0 && Sqr(a.y - b.y) == Sqr(b.y - a.y) >= 0.0;
  }

  /** The corners are the three points, in some order. */
  predicate Arranges(r: Roles, i: Vertex, j: Vertex, k: Vertex) {
    || r == Roles(i, j, k) || r == Roles(i, k, j) || r == Roles(j, i, k)
    || r == Roles(j, k, i) || r == Roles(k, i, j) || r == Roles(k, j, i)
  }

  /** The shortest side lies opposite the first corner and the middle one opposite the second. */
  lemma RolesSort(i: Vertex, j: Vertex, k: Vertex)
    ensures var r := RolesOf(i, j, k); Arranges(r, i, j, k) && 0.0 <= Shortest(r) <= Middle(r) <= Longest(r)
  {
    LengthTurned(i, j);
    LengthTurned(j, k);
    LengthTurned(k, i);
    hide Length2;
  }

  /** The corners play the same parts in whatever order they are given. */
  predicate AnyOrder(i: Vertex, j: Vertex, k: Vertex) {
    var r := RolesOf(i, j, k);
    RolesOf(i, k, j) == r && RolesOf(j, i, k) == r && RolesOf(j, k, i) == r && RolesOf(k, i, j) == r && RolesOf(k, j, i) == r
  }

  /** For three different corners, exactly when no two sides are equal. */
  lemma OrderFree(i: Vertex, j: Vertex, k: Vertex)
    requires i != j && j != k && k != i
    ensures AnyOrder(i, j, k) <==>
            Length2(i, j) != Length2(j, k) && Length2(j, k) != Length2(k, i) && Length2(k, i) != Length2(i, j)
  {
    LengthTurned(i, j);
    LengthTurned(j, k);
    LengthTurned(k, i);
    hide Length2;
  }

  // ----- What is measured

  /** The triangle of the points with their numbers. */
  function Measure(q: Maths, epsilon: real, i: Vertex, j: Vertex, k: Vertex): Triangle {
    var r := RolesOf(i, j, k);
    var min2, mid2, max2 := Shortest(r), Middle(r), Longest(r);
    var sum, ratio, cosine := Perimeter(q, i, j, k), RatioOf(q, min2, max2), CosineOf(q, min2, mid2, max2);
    var factor := FactorOf(q, epsilon, min2, mid2, max2);
    Triangle(r.v1.n, r.v2.n, r.v3.n,
             q.log10(sum), q.log10(Quotient(q, sum + 3.0 * epsilon, sum - 3.0 * epsilon)), Ccw(r.v1, r.v2, r.v3),
             ratio, RatioErrorOf(ratio, factor), cosine, CosineErrorOf(cosine, factor))
  }

  /** The factor of both errors. */
  function FactorOf(q: Maths, epsilon: real, min2: real, mid2: real, max2: real): real {
    Quotient(q, Sqr(epsilon) * (max2 + min2 + mid2), 2.0 * max2 * min2)
  }

  function RatioErrorOf(ratio: real, factor: real): real {
    2.0 * Sqr(ratio) * factor
  }

  function CosineErrorOf(cosine: real, factor: real): real {
    2.0 * (1.0 - Sqr(cosine)) * factor + 3.0 * Sqr(cosine * factor)
  }

  lemma SameRoot(r: real, t: real, x: real)
    requires IsRoot(r, x) && IsRoot(t, x)
    ensures r == t
  {
    assert (r - t) * (r + t) == 0.0;
    if r != t { NoZeroDivisor(r - t, r + t); }
  }

  lemma NoZeroDivisor(a: real, b: real)
    requires a * b == 0.0
    ensures a == 0.0 || b == 0.0
  {}

  // ----- Points moved

  /** The plane turned and scaled by (a, b), moved by (c, d), and mirrored before if `s` is -1. */
  datatype Motion = Motion(a: real, b: real, c: real, d: real, s: real)

  predicate Proper(m: Motion) {
    (m.a != 0.0 || m.b != 0.0) && (m.s == 1.0 || m.s == -1.0)
  }

  function Moved(m: Motion, v: Vertex): Vertex {
    Vertex(v.n, m.a * v.x - m.b * (m.s * v.y) + m.c, m.b * v.x + m.a * (m.s * v.y) + m.d)
  }

  /** The square of the scale. */
  function Scale2(m: Motion): real { Sqr(m.a) + Sqr(m.b) }

  lemma ScalePositive(m: Motion)
    requires Proper(m)
    ensures Scale2(m) > 0.0
  {
    assert Sqr(m.a) >= 0.0 && Sqr(m.b) >= 0.0;
    if Sqr(m.a) == 0.0 { NoZeroDivisor(m.a, m.a); }
    if Sqr(m.b) == 0.0 { NoZeroDivisor(m.b, m.b); }
  }

  /** Turning and scaling a difference of points. */
  lemma TurnedLength(a: real, b: real, u: real, v: real, p: real, q: real)
    requires p == a * u - b * v && q == b * u + a * v
    ensures p * p + q * q == (a * a + b * b) * (u * u + v * v)
  {
    assert p * p == a * a * (u * u) - 2.0 * (a * b * (u * v)) + b * b * (v * v);
    assert q * q == b * b * (u * u) + 2.0 * (a * b * (u * v)) + a * a * (v * v);
  }

  lemma Difference(m: Motion, p: Vertex, q: Vertex)
    requires Proper(m)
    ensures Moved(m, p).x - Moved(m, q).x == m.a * (p.x - q.x) - m.b * (m.s * (p.y - q.y))
    ensures Moved(m, p).y - Moved(m, q).y == m.b * (p.x - q.x) + m.a * (m.s * (p.y - q.y))
    ensures m.s * (p.y - q.y) * (m.s * (p.y - q.y)) == (p.y - q.y) * (p.y - q.y)
  {
    assert m.a * (p.x - q.x) == m.a * p.x - m.a * q.x && m.b * (p.x - q.x) == m.b * p.x - m.b * q.x;
    var u, v := m.s * p.y, m.s * q.y;
    assert m.s * (p.y - q.y) == u - v;
    assert m.b * (u - v) == m.b * u - m.b * v && m.a * (u - v) == m.a * u - m.a * v;
  }

  lemma LengthMoved(m: Motion, p: Vertex, q: Vertex)
    requires Proper(m)
    ensures Length2(Moved(m, p), Moved(m, q)) == Times(Scale2(m), Length2(p, q))
  {
    Difference(m, p, q);
    hide Moved;
    var u, v := p.x - q.x, m.s * (p.y - q.y);
    TurnedLength(m.a, m.b, u, v, m.a * u - m.b * v, m.b * u + m.a * v);
    assert Length2(p, q) == u * u + v * v;
  }

  lemma TimesOrder(t: real, x: real, y: real)
    requires t > 0.0
    ensures Times(t, x) < Times(t, y) <==> x < y
    ensures Times(t, x) == Times(t, y) <==> x == y
  {
    assert t * y - t * x == t * (y - x);
    if y > x { assert t * (y - x) > 0.0; }
    if y < x { assert t * (x - y) > 0.0; }
  }

  /** The corners go on playing their parts. */
  lemma RolesMoved(m: Motion, i: Vertex, j: Vertex, k: Vertex)
    requires Proper(m)
    ensures var r := RolesOf(i, j, k);
      RolesOf(Moved(m, i), Moved(m, j), Moved(m, k)) == Roles(Moved(m, r.v1), Moved(m, r.v2), Moved(m, r.v3))
  {
    ScalePositive(m);
    LengthMoved(m, j, k);
    LengthMoved(m, k, i);
    LengthMoved(m, i, j);
    hide Length2, Moved, Scale2, Times;
    var x2, y2, z2 := Length2(j, k), Length2(k, i), Length2(i, j);
    TimesOrder(Scale2(m), x2, y2);
    TimesOrder(Scale2(m), y2, z2);
    TimesOrder(Scale2(m), x2, z2);
  }

  lemma TurnedCross(a: real, b: real, u1: real, v1: real, u2: real, v2: real)
    ensures (a * u1 - b * v1) * (b * u2 + a * v2) - (b * u1 + a * v1) * (a * u2 - b * v2) == (a * a + b * b) * (u1 * v2 - v1 * u2)
  {
    var p, q := u1 * v2, v1 * u2;
    assert (a * u1 - b * v1) * (b * u2 + a * v2)
        == a * b * (u1 * u2) + a * a * p - b * b * q - a * b * (v1 * v2);
    assert (b * u1 + a * v1) * (a * u2 - b * v2)
        == a * b * (u1 * u2) - b * b * p + a * a * q - a * b * (v1 * v2);
  }

  /** Twice the signed area of three points. */
  function Area(a: Vertex, b: Vertex, c: Vertex): real {
    (b.x - a.x) * (c.y - a.y) - (b.y - a.y) * (c.x - a.x)
  }

  lemma CcwIsSign(a: Vertex, b: Vertex, c: Vertex)
    ensures Ccw(a, b, c) == if Area(a, b, c) > 0.0 then 1 else if Area(a, b, c) < 0.0 then -1 else 0
  {}

  lemma AreaMoved(m: Motion, i: Vertex, j: Vertex, k: Vertex)
    requires Proper(m)
    ensures Area(Moved(m, i), Moved(m, j), Moved(m, k)) == Times(Scale2(m), m.s * Area(i, j, k))
  {
    Difference(m, j, i);
    Difference(m, k, i);
    hide Moved;
    var u1, d1, u2, d2 := j.x - i.x, j.y - i.y, k.x - i.x, k.y - i.y;
    TurnedCross(m.a, m.b, u1, m.s * d1, u2, m.s * d2);
    assert u1 * (m.s * d2) - m.s * d1 * u2 == m.s * (u1 * d2 - d1 * u2);
  }

  /** A mirrored triangle turns its orientation, any other motion keeps it. */
  lemma CcwMoved(m: Motion, i: Vertex, j: Vertex, k: Vertex)
    requires Proper(m)
    ensures Ccw(Moved(m, i), Moved(m, j), Moved(m, k)) == if m.s == 1.0 then Ccw(i, j, k) else -Ccw(i, j, k)
  {
    AreaMoved(m, i, j, k);
    CcwIsSign(i, j, k);
    CcwIsSign(Moved(m, i), Moved(m, j), Moved(m, k));
    ScalePositive(m);
    TimesOrder(Scale2(m), m.s * Area(i, j, k), 0.0);
    TimesOrder(Scale2(m), 0.0, m.s * Area(i, j, k));
    hide Area, Ccw, Moved, Scale2;
    assert Times(Scale2(m), 0.0) == 0.0;
  }

  // ----- Ratio, cosine and perimeter

  lemma RatioScaled(t: real, x: real, y: real)
    requires t > 0.0 && y > 0.0
    ensures Times(t, y) > 0.0 && Times(t, x) / Times(t, y) == x / y
  {
    assert t * y > 0.0;
    assert x == x / y * y;
    assert t * x == t * (x / y * y) == x / y * (t * y);
  }

  /** The root of a scaled product. */
  lemma RootScaled(sqrt: real -> real, t: real, x: real)
    requires IsSqrt(sqrt) && t > 0.0 && x >= 0.0
    ensures Times(t, Times(t, x)) >= 0.0 && sqrt(Times(t, Times(t, x))) == Times(t, sqrt(x))
  {
    var r, y := sqrt(x), Times(t, Times(t, x));
    assert IsRoot(r, x) && t * x >= 0.0 && t * (t * x) >= 0.0;
    assert y == t * (t * x) && y >= 0.0;
    assert t * r >= 0.0;
    assert t * r * (t * r) == t * (t * (r * r)) == y;
    assert IsRoot(sqrt(y), y);
    SameRoot(sqrt(y), t * r, y);
  }

  lemma RootOfProduct(sqrt: real -> real, t: real, x: real)
    requires IsSqrt(sqrt) && t >= 0.0 && x >= 0.0
    ensures Times(t, x) >= 0.0 && sqrt(Times(t, x)) == Times(sqrt(t), sqrt(x))
  {
    var p, r := sqrt(t), sqrt(x);
    assert IsRoot(p, t) && IsRoot(r, x) && t * x >= 0.0;
    assert p * r >= 0.0;
    assert p * r * (p * r) == p * p * (r * r);
    assert IsRoot(sqrt(t * x), t * x);
    SameRoot(sqrt(t * x), p * r, t * x);
  }

  /** The sides of the moved triangle. */
  lemma SidesMoved(m: Motion, r: Roles)
    requires Proper(m)
    ensures var r' := Roles(Moved(m, r.v1), Moved(m, r.v2), Moved(m, r.v3));
      && Shortest(r') == Times(Scale2(m), Shortest(r)) && Middle(r') == Times(Scale2(m), Middle(r))
      && Longest(r') == Times(Scale2(m), Longest(r))
  {
    LengthMoved(m, r.v2, r.v3);
    LengthMoved(m, r.v1, r.v3);
    LengthMoved(m, r.v1, r.v2);
  }

  /** The ratio of the sides, as it is measured. */
  function RatioOf(q: Maths, min2: real, max2: real): real {
    q.sqrt(Quotient(q, max2, min2))
  }

  function CosineOf(q: Maths, min2: real, mid2: real, max2: real): real {
    Quotient(q, min2 + max2 - mid2, 2.0 * q.sqrt(min2 * max2))
  }

  lemma RatioStays(q: Maths, t: real, min2: real, max2: real)
    requires t > 0.0 && min2 > 0.0
    ensures RatioOf(q, Times(t, min2), Times(t, max2)) == RatioOf(q, min2, max2)
  {
    RatioScaled(t, max2, min2);
  }

  lemma RootPositive(sqrt: real -> real, x: real)
    requires IsSqrt(sqrt) && x > 0.0
    ensures sqrt(x) > 0.0
  {
    assert IsRoot(sqrt(x), x);
  }

  lemma CosineStays(q: Maths, t: real, min2: real, mid2: real, max2: real)
    requires IsSqrt(q.sqrt) && t > 0.0 && min2 > 0.0 && max2 > 0.0
    ensures CosineOf(q, Times(t, min2), Times(t, mid2), Times(t, max2)) == CosineOf(q, min2, mid2, max2)
  {
    var p := min2 * max2;
    assert p > 0.0;
    var root := q.sqrt(p);
    RootPositive(q.sqrt, p);
    RootScaled(q.sqrt, t, p);
    assert Times(t, min2) * Times(t, max2) == Times(t, Times(t, p));
    assert q.sqrt(Times(t, min2) * Times(t, max2)) == Times(t, root);
    RatioScaled(t, min2 + max2 - mid2, 2.0 * root);
    assert 2.0 * Times(t, root) == Times(t, 2.0 * root);
    assert Times(t, min2) + Times(t, max2) - Times(t, mid2) == Times(t, min2 + max2 - mid2);
  }

  /** The perimeter, summed as the program does. */
  function Perimeter(q: Maths, i: Vertex, j: Vertex, k: Vertex): real {
    q.sqrt(Length2(j, k)) + q.sqrt(Length2(k, i)) + q.sqrt(Length2(i, j))
  }

  lemma PerimeterScales(q: Maths, m: Motion, i: Vertex, j: Vertex, k: Vertex)
    requires IsSqrt(q.sqrt) && Proper(m)
    ensures Perimeter(q, Moved(m, i), Moved(m, j), Moved(m, k)) == Times(q.sqrt(Scale2(m)), Perimeter(q, i, j, k))
  {
    ScalePositive(m);
    LengthMoved(m, j, k);
    LengthMoved(m, k, i);
    LengthMoved(m, i, j);
    LengthTurned(j, k);
    LengthTurned(k, i);
    LengthTurned(i, j);
    hide Length2, Moved, Scale2;
    RootOfProduct(q.sqrt, Scale2(m), Length2(j, k));
    RootOfProduct(q.sqrt, Scale2(m), Length2(k, i));
    RootOfProduct(q.sqrt, Scale2(m), Length2(i, j));
  }

  lemma PerimeterPositive(q: Maths, i: Vertex, j: Vertex, k: Vertex)
    requires IsSqrt(q.sqrt) && Shortest(RolesOf(i, j, k)) > 0.0
    ensures Perimeter(q, i, j, k) > 0.0
  {
    RolesSort(i, j, k);
    LengthTurned(j, k);
    LengthTurned(k, i);
    LengthTurned(i, j);
    hide Length2;
    RootPositive(q.sqrt, Length2(j, k));
    RootPositive(q.sqrt, Length2(k, i));
    RootPositive(q.sqrt, Length2(i, j));
  }

  /** Why triangles can be matched: moved, turned, scaled or mirrored, a triangle of three different
      points has the same corners, ratio and cosine, the orientation tells mirrored from not, and
      the difference of the logarithms is that of the scale. */
  lemma SimilarTriangles(q: Maths, epsilon: real, epsilon': real, m: Motion, i: Vertex, j: Vertex, k: Vertex)
    requires IsSqrt(q.sqrt) && IsLog(q.log10) && Proper(m) && Shortest(RolesOf(i, j, k)) > 0.0
    ensures var t, t' := Measure(q, epsilon, i, j, k), Measure(q, epsilon', Moved(m, i), Moved(m, j), Moved(m, k));
      && t'.v1 == t.v1 && t'.v2 == t.v2 && t'.v3 == t.v3
      && t'.ratio == t.ratio && t'.cosine == t.cosine
      && t'.orien == (if m.s == 1.0 then t.orien else -t.orien)
      && t'.logP - t.logP == q.log10(q.sqrt(Scale2(m)))
  {
    var r := RolesOf(i, j, k);
    RolesMoved(m, i, j, k);
    SidesMoved(m, r);
    RolesSort(i, j, k);
    CcwMoved(m, r.v1, r.v2, r.v3);
    ScalePositive(m);
    PerimeterScales(q, m, i, j, k);
    PerimeterPositive(q, i, j, k);
    RootPositive(q.sqrt, Scale2(m));
    hide RolesOf, Moved, Length2, Scale2, Ccw, Times, Quotient, Perimeter;
    RatioStays(q, Scale2(m), Shortest(r), Longest(r));
    CosineStays(q, Scale2(m), Shortest(r), Middle(r), Longest(r));
  }

  /** Three different points have no side of length zero. */
  lemma Apart(i: Vertex, j: Vertex, k: Vertex)
    requires (i.x != j.x || i.y != j.y) && (j.x != k.x || j.y != k.y) && (k.x != i.x || k.y != i.y)
    ensures Shortest(RolesOf(i, j, k)) > 0.0
  {
    RolesSort(i, j, k);
    LengthPositive(i, j);
    LengthPositive(j, k);
    LengthPositive(k, i);
    LengthTurned(i, j);
    LengthTurned(j, k);
    LengthTurned(k, i);
    hide Length2, RolesOf;
  }

  lemma LengthPositive(a: Vertex, b: Vertex)
    requires a.x != b.x || a.y != b.y
    ensures Length2(a, b) > 0.0
  {
    var u, v := a.x - b.x, a.y - b.y;
    assert Sqr(u) >= 0.0 && Sqr(v) >= 0.0;
    if Sqr(u) == 0.0 { NoZeroDivisor(u, u); }
    if Sqr(v) == 0.0 { NoZeroDivisor(v, v); }
  }

  // ----- What the numbers mean

  /** The scalar product of the sides from `b` to `a` and to `c`. */
  function Dot(a: Vertex, b: Vertex, c: Vertex): real {
    (a.x - b.x) * (c.x - b.x) + (a.y - b.y) * (c.y - b.y)
  }

  lemma LawOfCosines(a: Vertex, b: Vertex, c: Vertex)
    ensures Length2(b, c) + Length2(a, b) - Length2(a, c) == 2.0 * Dot(a, b, c)
  {
    SquareOfDifference(a.x - b.x, c.x - b.x, a.x - c.x);
    SquareOfDifference(a.y - b.y, c.y - b.y, a.y - c.y);
    assert Sqr(b.x - c.x) == Sqr(c.x - b.x) && Sqr(b.y - c.y) == Sqr(c.y - b.y);
  }

  lemma SquareOfDifference(u: real, v: real, w: real)
    requires w == u - v
    ensures Sqr(w) == Sqr(u) + Sqr(v) - 2.0 * (u * v)
  {}

  lemma DividedBack(x: real, y: real)
    requires y != 0.0
    ensures x / y * y == x
  {}

  /** The ratio is that of the longest side to the shortest, and the cosine is that of the angle
      between these two, at the second corner. */
  lemma RatioAndCosine(q: Maths, epsilon: real, i: Vertex, j: Vertex, k: Vertex)
    requires IsSqrt(q.sqrt) && Shortest(RolesOf(i, j, k)) > 0.0
    ensures var r, t := RolesOf(i, j, k), Measure(q, epsilon, i, j, k);
      && t.ratio >= 1.0 && Times(Sqr(t.ratio), Shortest(r)) == Longest(r)
      && Times(t.cosine, Times(q.sqrt(Shortest(r)), q.sqrt(Longest(r)))) == Dot(r.v1, r.v2, r.v3)
  {
    var r := RolesOf(i, j, k);
    RolesSort(i, j, k);
    LawOfCosines(r.v1, r.v2, r.v3);
    hide RolesOf, Length2, Dot, RatioOf, CosineOf, Times, Sqr, Perimeter, IsSqrt;
    RatioIs(q, Shortest(r), Longest(r));
    CosineIs(q, Shortest(r), Middle(r), Longest(r), Dot(r.v1, r.v2, r.v3));
  }

  lemma RatioIs(q: Maths, min2: real, max2: real)
    requires IsSqrt(q.sqrt) && 0.0 < min2 <= max2
    ensures var ratio := RatioOf(q, min2, max2); ratio >= 1.0 && Times(Sqr(ratio), min2) == max2
  {
    var x := max2 / min2;
    DividedBack(max2, min2);
    AtLeastOne(x, min2);
    assert IsRoot(q.sqrt(x), x);
    RootAtLeastOne(q.sqrt(x));
  }

  lemma AtLeastOne(x: real, y: real)
    requires y > 0.0 && x * y >= y
    ensures x >= 1.0
  {
    assert (x - 1.0) * y >= 0.0;
  }

  lemma RootAtLeastOne(r: real)
    requires r >= 0.0 && r * r >= 1.0
    ensures r >= 1.0
  {
    if r < 1.0 { SquareBelowOne(r); }
  }

  lemma SquareBelowOne(r: real)
    requires 0.0 <= r < 1.0
    ensures r * r < 1.0
  {
    var s := 1.0 - r;
    NotNegative(r, s);
    assert r == 1.0 - s;
    SquareBelow(r, s, r * s);
  }

  lemma SquareBelow(r: real, s: real, p: real)
    requires p == r * s && p >= 0.0 && s == 1.0 - r
    ensures r * r == r - p
  {
    assert r * r + r * s == r * (r + s);
  }

  lemma CosineIs(q: Maths, min2: real, mid2: real, max2: real, dot: real)
    requires IsSqrt(q.sqrt) && min2 > 0.0 && max2 > 0.0 && min2 + max2 - mid2 == 2.0 * dot
    ensures Times(CosineOf(q, min2, mid2, max2), Times(q.sqrt(min2), q.sqrt(max2))) == dot
  {
    RootOfProduct(q.sqrt, min2, max2);
    var root := q.sqrt(min2 * max2);
    assert min2 * max2 > 0.0;
    RootPositive(q.sqrt, min2 * max2);
    DividedBack(2.0 * dot, 2.0 * root);
    var c := CosineOf(q, min2, mid2, max2);
    assert c * (2.0 * root) == 2.0 * dot;
    assert c * (2.0 * root) == 2.0 * (c * root);
  }

  // ----- Every number of a record, told by its three corners

  /** The sides opposite the corners ascend; of equal sides, the one opposite the later point comes first. */
  ghost predicate SidesInOrder(a: Vertex, b: Vertex, c: Vertex) {
    var x, y, z := Length2(b, c), Length2(a, c), Length2(a, b);
    x <= y <= z && (x == y ==> a.n > b.n) && (y == z ==> b.n > c.n)
  }

  lemma RolesInOrder(i: Vertex, j: Vertex, k: Vertex)
    requires i.n < j.n < k.n
    ensures var r := RolesOf(i, j, k); SidesInOrder(r.v1, r.v2, r.v3)
  {
    LengthTurned(i, j);
    LengthTurned(j, k);
    LengthTurned(k, i);
    hide Length2;
  }

  /** Counter-clockwise, clockwise, or on a line. */
  ghost predicate Turns(a: Vertex, b: Vertex, c: Vertex, orien: int) {
    orien == if Area(a, b, c) > 0.0 then 1 else if Area(a, b, c) < 0.0 then -1 else 0
  }

  ghost predicate RightShape(q: Maths, a: Vertex, b: Vertex, c: Vertex, ratio: real, cosine: real) {
    && ratio >= 1.0 && Times(Sqr(ratio), Length2(b, c)) == Length2(a, b)
    && Times(cosine, Times(q.sqrt(Length2(b, c)), q.sqrt(Length2(a, b)))) == Dot(a, b, c)
  }

  /** With `e` the square of the position error times the sum of the squared sides: the error of the ratio
      is e / x^2 for the shortest side, and that of the cosine follows from scalar product and area. */
  ghost predicate RightErrors(epsilon: real, a: Vertex, b: Vertex, c: Vertex, dRatio: real, dCosine: real) {
    var x, z := Length2(b, c), Length2(a, b);
    var e, p := Times(Sqr(epsilon), x + Length2(a, c) + z), Times(x, z);
    && Times(dRatio, Sqr(x)) == e
    && 4.0 * Times(dCosine, Times(p, Sqr(p)))
    == 4.0 * Times(Times(p, Sqr(Area(a, b, c))), e) + 3.0 * Times(Sqr(Dot(a, b, c)), Sqr(e))
  }

  ghost predicate RightSize(q: Maths, epsilon: real, a: Vertex, b: Vertex, c: Vertex, logP: real, dLogP: real) {
    var sum := q.sqrt(Length2(b, c)) + q.sqrt(Length2(a, c)) + q.sqrt(Length2(a, b));
    && logP == q.log10(sum)
    && (sum != 3.0 * epsilon ==> dLogP == q.log10((sum + 3.0 * epsilon) / (sum - 3.0 * epsilon)))
  }

  ghost predicate Describes(q: Maths, epsilon: real, a: Vertex, b: Vertex, c: Vertex, t: Triangle) {
    && t.v1 == a.n && t.v2 == b.n && t.v3 == c.n && SidesInOrder(a, b, c)
    && Turns(a, b, c, t.orien) && RightShape(q, a, b, c, t.ratio, t.cosine)
    && RightErrors(epsilon, a, b, c, t.dRatio, t.dCosine) && RightSize(q, epsilon, a, b, c, t.logP, t.dLogP)
  }

  lemma MeasureDescribes(q: Maths, epsilon: real, i: Vertex, j: Vertex, k: Vertex)
    requires IsSqrt(q.sqrt) && i.n < j.n < k.n && Shortest(RolesOf(i, j, k)) > 0.0
    ensures var r := RolesOf(i, j, k);
      Arranges(r, i, j, k) && Describes(q, epsilon, r.v1, r.v2, r.v3, Measure(q, epsilon, i, j, k))
  {
    var r := RolesOf(i, j, k);
    RolesSort(i, j, k);
    RolesInOrder(i, j, k);
    CcwIsSign(r.v1, r.v2, r.v3);
    RatioAndCosine(q, epsilon, i, j, k);
    ErrorsAre(q, epsilon, i, j, k);
    SizeIs(q, epsilon, i, j, k);
    hide RolesOf, Length2, Area, Ccw, Times, Sqr, Dot, RatioOf, CosineOf, Perimeter, Quotient, SidesInOrder, RightErrors, RightSize;
  }

  lemma SizeIs(q: Maths, epsilon: real, i: Vertex, j: Vertex, k: Vertex)
    ensures var r, t := RolesOf(i, j, k), Measure(q, epsilon, i, j, k); RightSize(q, epsilon, r.v1, r.v2, r.v3, t.logP, t.dLogP)
  {
    LengthTurned(i, j);
    LengthTurned(j, k);
    LengthTurned(k, i);
    hide Length2, RatioOf, CosineOf, Ccw;
  }

  /** Scalar product and area of two sides of a triangle. */
  lemma Lagrange(a: Vertex, b: Vertex, c: Vertex)
    ensures Times(Length2(b, c), Length2(a, b)) == Sqr(Dot(a, b, c)) + Sqr(Area(a, b, c))
  {
    hide Length2, Area, Dot, Sqr, Times;
    var u1, u2, w1, w2 := a.x - b.x, a.y - b.y, c.x - b.x, c.y - b.y;
    LengthFrom(a, b, u1, u2);
    LengthTurned(b, c);
    LengthFrom(c, b, w1, w2);
    ProductsFrom(a, b, c, u1, u2, w1, w2);
    SquaresOf(u1, u2, w1, w2, Length2(b, c), Length2(a, b), Dot(a, b, c), Area(a, b, c));
  }

  lemma LengthFrom(a: Vertex, b: Vertex, u: real, v: real)
    requires u == a.x - b.x && v == a.y - b.y
    ensures Length2(a, b) == u * u + v * v
  {}

  lemma ProductsFrom(a: Vertex, b: Vertex, c: Vertex, u1: real, u2: real, w1: real, w2: real)
    requires u1 == a.x - b.x && u2 == a.y - b.y && w1 == c.x - b.x && w2 == c.y - b.y
    ensures Dot(a, b, c) == u1 * w1 + u2 * w2 && Area(a, b, c) == u2 * w1 - u1 * w2
  {
    hide Dot;
    assert Dot(a, b, c) == u1 * w1 + u2 * w2 by { DotFrom(a, b, c, u1, u2, w1, w2); }
    assert Area(a, b, c) == -u1 * (w2 - u2) + u2 * (w1 - u1);
  }

  lemma DotFrom(a: Vertex, b: Vertex, c: Vertex, u1: real, u2: real, w1: real, w2: real)
    requires u1 == a.x - b.x && u2 == a.y - b.y && w1 == c.x - b.x && w2 == c.y - b.y
    ensures Dot(a, b, c) == u1 * w1 + u2 * w2
  {}

  lemma SquaresOf(u1: real, u2: real, w1: real, w2: real, x: real, z: real, dot: real, area: real)
    requires x == w1 * w1 + w2 * w2 && z == u1 * u1 + u2 * u2 && dot == u1 * w1 + u2 * w2 && area == u2 * w1 - u1 * w2
    ensures Times(x, z) == Sqr(dot) + Sqr(area)
  {
    var p, q, r, s := u1 * w1, u2 * w2, u2 * w1, u1 * w2;
    assert p * p == u1 * u1 * (w1 * w1) && q * q == u2 * u2 * (w2 * w2);
    assert r * r == u2 * u2 * (w1 * w1) && s * s == u1 * u1 * (w2 * w2);
    assert p * q == r * s;
    assert Sqr(dot) == p * p + 2.0 * (p * q) + q * q && Sqr(area) == r * r - 2.0 * (r * s) + s * s;
  }

  lemma ErrorsAre(q: Maths, epsilon: real, i: Vertex, j: Vertex, k: Vertex)
    requires IsSqrt(q.sqrt) && Shortest(RolesOf(i, j, k)) > 0.0
    ensures var r, t := RolesOf(i, j, k), Measure(q, epsilon, i, j, k);
      RightErrors(epsilon, r.v1, r.v2, r.v3, t.dRatio, t.dCosine)
  {
    var r, t := RolesOf(i, j, k), Measure(q, epsilon, i, j, k);
    RolesSort(i, j, k);
    RatioAndCosine(q, epsilon, i, j, k);
    Lagrange(r.v1, r.v2, r.v3);
    hide RolesOf, Length2, RatioOf, CosineOf, FactorOf, RatioErrorOf, CosineErrorOf, Perimeter, Dot, Area, Ccw, Times, Sqr,
      IsSqrt, IsRoot, Quotient;
    var x, y, z := Shortest(r), Middle(r), Longest(r);
    var factor := FactorOf(q, epsilon, x, y, z);
    var e, p, dot, area := Times(Sqr(epsilon), x + y + z), Times(x, z), Dot(r.v1, r.v2, r.v3), Area(r.v1, r.v2, r.v3);
    FactorIs(q, epsilon, x, y, z);
    RatioErrorIs(t.ratio, factor, x, z, e);
    CosineOfSides(q.sqrt, x, z, t.cosine, dot);
    CosineErrorIs(t.cosine, factor, p, dot, area, e);
  }

  lemma FactorIs(q: Maths, epsilon: real, x: real, y: real, z: real)
    requires x > 0.0 && z > 0.0
    ensures Times(FactorOf(q, epsilon, x, y, z), 2.0 * Times(x, z)) == Times(Sqr(epsilon), x + y + z)
  {
    var d, n := 2.0 * z * x, Sqr(epsilon) * (z + x + y);
    assert d == 2.0 * (x * z) && x * z > 0.0;
    DividedBack(n, d);
  }

  lemma RatioErrorIs(ratio: real, factor: real, x: real, z: real, e: real)
    requires Times(Sqr(ratio), x) == z && Times(factor, 2.0 * Times(x, z)) == e
    ensures Times(RatioErrorOf(ratio, factor), Sqr(x)) == e
  {
    var s := Sqr(ratio);
    hide Sqr;
    assert Sqr(x) == x * x by { SqrIs(x); }
    assert 2.0 * s * factor * (x * x) == factor * (2.0 * (x * (s * x)));
  }

  lemma SqrIs(x: real)
    ensures Sqr(x) == x * x
  {}

  lemma CosineOfSides(sqrt: real -> real, x: real, z: real, cosine: real, dot: real)
    requires IsSqrt(sqrt) && x > 0.0 && z > 0.0 && Times(cosine, Times(sqrt(x), sqrt(z))) == dot
    ensures Times(Sqr(cosine), Times(x, z)) == Sqr(dot)
  {
    var u, w := sqrt(x), sqrt(z);
    assert IsRoot(u, x) && IsRoot(w, z);
    RootsSquared(cosine, u, w, u * u, w * w);
  }

  lemma RootsSquared(c: real, u: real, w: real, x: real, z: real)
    requires x == u * u && z == w * w
    ensures Times(Sqr(c), Times(x, z)) == Sqr(Times(c, Times(u, w)))
  {
    var v := u * w;
    assert v * v == x * z;
    assert c * v * (c * v) == c * c * (v * v);
  }

  lemma CosineErrorIs(c: real, f: real, p: real, dot: real, area: real, e: real)
    requires Times(Sqr(c), p) == Sqr(dot) && p == Sqr(dot) + Sqr(area) && Times(f, 2.0 * p) == e
    ensures 4.0 * Times(CosineErrorOf(c, f), Times(p, Sqr(p)))
         == 4.0 * Times(Times(p, Sqr(area)), e) + 3.0 * Times(Sqr(dot), Sqr(e))
  {
    var s, d2, a2, g := Sqr(c), Sqr(dot), Sqr(area), f * p;
    assert Sqr(c * f) == s * (f * f);
    assert Sqr(e) == 4.0 * (g * g);
    hide Sqr;
    SqrIs(p);
    FirstPart(s, f, p, g, d2, a2);
    SecondPart(s, f, p, g, d2);
    var p3 := Times(p, Sqr(p));
    assert Times(2.0 * (1.0 - s) * f + 3.0 * (s * (f * f)), p3)
        == Times(2.0 * (1.0 - s) * f, p3) + 3.0 * Times(s * (f * f), p3);
    assert Times(Times(p, a2), e) == 2.0 * (p * a2 * g);
    assert Times(d2, 4.0 * (g * g)) == 4.0 * (d2 * (g * g));
  }

  lemma FirstPart(s: real, f: real, p: real, g: real, d2: real, a2: real)
    requires s * p == d2 && p == d2 + a2 && g == f * p
    ensures Times(2.0 * (1.0 - s) * f, Times(p, p * p)) == 2.0 * (p * a2 * g)
  {
    var o := 1.0 - s;
    assert o * p == a2;
    assert 2.0 * o * f * (p * (p * p)) == 2.0 * (p * (o * p) * (f * p));
  }

  lemma SecondPart(s: real, f: real, p: real, g: real, d2: real)
    requires s * p == d2 && g == f * p
    ensures Times(s * (f * f), Times(p, p * p)) == d2 * (g * g)
  {
    assert s * (f * f) * (p * (p * p)) == s * p * (f * p * (f * p));
  }

  /** The error of the ratio is not negative, as the search for matches needs it. */
  lemma ErrorNotNegative(q: Maths, epsilon: real, i: Vertex, j: Vertex, k: Vertex)
    requires Shortest(RolesOf(i, j, k)) > 0.0
    ensures Measure(q, epsilon, i, j, k).dRatio >= 0.0
  {
    var r := RolesOf(i, j, k);
    RolesSort(i, j, k);
    hide RolesOf, Length2, RatioOf, CosineOf, Perimeter;
    var min2, mid2, max2 := Shortest(r), Middle(r), Longest(r);
    NotNegative(Sqr(epsilon), max2 + min2 + mid2);
    assert max2 * min2 > 0.0 && 2.0 * max2 * min2 == 2.0 * (max2 * min2);
    var factor := Sqr(epsilon) * (max2 + min2 + mid2) / (2.0 * max2 * min2);
    assert factor >= 0.0;
    NotNegative(2.0 * Sqr(RatioOf(q, min2, max2)), factor);
  }

  lemma NotNegative(x: real, y: real)
    requires x >= 0.0 && y >= 0.0
    ensures x * y >= 0.0
  {}
}
