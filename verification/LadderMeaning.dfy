// What the ladder computes, in terms of the curve y^2 = x^3 + 486662 x^2 + x of section 4.1 of RFC
// 7748: each step doubles one point and adds the two by the tangent and chord construction, scalar
// one is the identity, and doubling the scalar doubles the point.
module LadderMeaning {
  import opened Field
  import opened Words
  import opened LadderSpec

  const A: int := 486662

  // Equal in the field.
  predicate Same(x: int, y: int) { Residue(x) == Residue(y) }

  lemma SameProduct(a: int, b: int, c: int, d: int)
    requires Same(a, b) && Same(c, d)
    ensures Same(a * c, b * d)
  {
    hide Residue;
    ResidueOfProduct(a, c);
    ResidueOfProduct(b, d);
  }

  lemma SameSum(a: int, b: int, c: int, d: int)
    requires Same(a, b) && Same(c, d)
    ensures Same(a + c, b + d) && Same(a - c, b - d)
  {
    hide Residue;
    ResidueOfSum(a, c);
    ResidueOfSum(b, d);
  }

  lemma ResidueIsSame(x: int)
    ensures Same(Residue(x), x)
  {
    hide Residue;
    ResidueOfSmall(Residue(x));
  }

  // ----- one step, as polynomials

  lemma SumAndDifference(x: int, z: int)
    ensures Mul(Add(x, z), Add(x, z)) == Residue((x + z) * (x + z))
    ensures Mul(Sub(x, z), Sub(x, z)) == Residue((x - z) * (x - z))
  {
    hide Residue;
    ResidueOfProduct(x + z, x + z);
    ResidueOfProduct(x - z, x - z);
  }

  // The doubled point, of (x : z).
  function DoubleX(x: int, z: int): int { (x * x - z * z) * (x * x - z * z) }

  function DoubleZ(x: int, z: int): int { 4 * (x * z) * (x * x + A * (x * z) + z * z) }

  lemma StepDouble(s: Ladder, u: int)
    ensures Step(s, u).x2 == Residue(DoubleX(s.x2, s.z2))
    ensures Step(s, u).z2 == Residue(DoubleZ(s.x2, s.z2))
  {
    hide Residue, DoubleX, DoubleZ;
    var p, q := (s.x2 + s.z2) * (s.x2 + s.z2), (s.x2 - s.z2) * (s.x2 - s.z2);
    SumAndDifference(s.x2, s.z2);
    DoubleFromSquares(p, q);
    DoublePolynomials(s.x2, s.z2);
  }

  // The two squares p and q combined as the step does.
  lemma DoubleFromSquares(p: int, q: int)
    ensures
      var e := Sub(Residue(p), Residue(q));
      && Mul(Residue(p), Residue(q)) == Residue(p * q)
      && Mul(e, Add(Residue(p), Mul(121665, e))) == Residue((p - q) * (p + 121665 * (p - q)))
  {
    hide Residue;
    ResidueOfProduct(p, q);
    ResidueOfSum(p, q);
    ResidueOfProduct(121665, p - q);
    ResidueOfSum(p, 121665 * (p - q));
    ResidueOfProduct(p - q, p + 121665 * (p - q));
  }

  lemma DoublePolynomials(x: int, z: int)
    ensures
      var p, q := (x + z) * (x + z), (x - z) * (x - z);
      p * q == DoubleX(x, z) && (p - q) * (p + 121665 * (p - q)) == DoubleZ(x, z)
  {
    var p, q := (x + z) * (x + z), (x - z) * (x - z);
    Squares(x, z);
    var a, b := x + z, x - z;
    Regroup(a, b);
    assert a * b == x * x - z * z by { Conjugates(x, z); }
    assert p + 121665 * (p - q) == x * x + A * (x * z) + z * z;
  }

  lemma Regroup(a: int, b: int)
    ensures (a * a) * (b * b) == (a * b) * (a * b)
  {
  }

  lemma Conjugates(x: int, z: int)
    ensures (x + z) * (x - z) == x * x - z * z
  {
  }

  lemma Squares(x: int, z: int)
    ensures (x + z) * (x + z) == x * x + 2 * (x * z) + z * z
    ensures (x - z) * (x - z) == x * x - 2 * (x * z) + z * z
  {
  }

  // The sum of (x : z) and (x' : z'), whose difference is u.
  function SumX(x: int, z: int, x': int, z': int): int { 4 * ((x * x' - z * z') * (x * x' - z * z')) }

  function SumZ(x: int, z: int, x': int, z': int, u: int): int {
    u * (4 * ((x' * z - x * z') * (x' * z - x * z')))
  }

  // The step doubles the first point and adds the two.
  lemma StepPolynomials(s: Ladder, u: int)
    ensures Step(s, u) == Ladder(
              Residue(DoubleX(s.x2, s.z2)), Residue(DoubleZ(s.x2, s.z2)),
              Residue(SumX(s.x2, s.z2, s.x3, s.z3)), Residue(SumZ(s.x2, s.z2, s.x3, s.z3, u)))
  {
    StepDouble(s, u);
    hide Residue, DoubleX, DoubleZ;
    var x, z, x', z' := s.x2, s.z2, s.x3, s.z3;
    ResidueOfProduct(x' - z', x + z);
    ResidueOfProduct(x' + z', x - z);
    AddFromProducts((x' - z') * (x + z), (x' + z') * (x - z), u);
    CrossTerms(x, z, x', z');
    Doubled(x * x' - z * z');
    Doubled(x' * z - x * z');
  }

  lemma AddFromProducts(da: int, cb: int, u: int)
    ensures
      var sum, difference := Add(Residue(da), Residue(cb)), Sub(Residue(da), Residue(cb));
      && Mul(sum, sum) == Residue((da + cb) * (da + cb))
      && Mul(u, Mul(difference, difference)) == Residue(u * ((da - cb) * (da - cb)))
  {
    hide Residue;
    ResidueOfSum(da, cb);
    ResidueOfProduct(da + cb, da + cb);
    ResidueOfProduct(da - cb, da - cb);
    ResidueOfProduct(u, (da - cb) * (da - cb));
  }

  lemma Doubled(n: int)
    ensures (2 * n) * (2 * n) == 4 * (n * n)
  {
  }

  lemma CrossTerms(x: int, z: int, x': int, z': int)
    ensures (x' - z') * (x + z) + (x' + z') * (x - z) == 2 * (x * x' - z * z')
    ensures (x' - z') * (x + z) - (x' + z') * (x - z) == 2 * (x' * z - x * z')
  {
    assert (x' - z') * (x + z) == x * x' + x' * z - x * z' - z * z';
    assert (x' + z') * (x - z) == x * x' - x' * z + x * z' - z * z';
  }

  // ----- one step, on the curve

  function Cubic(x: int): int { x * (x * x + A * x + 1) }

  predicate OnCurve(x: int, y: int) { Same(y * y, Cubic(x)) }

  // d is the x-coordinate at which the tangent in (x, y) meets the curve again.
  predicate Tangent(d: int, x: int, y: int) {
    var slope := 3 * (x * x) + 2 * (A * x) + 1;
    Same(d * (4 * (y * y)), slope * slope - (A + 2 * x) * (4 * (y * y)))
  }

  // d is the x-coordinate at which the chord through (x, y) and (x', y') meets the curve again.
  predicate Chord(d: int, x: int, y: int, x': int, y': int) {
    var run := (x - x') * (x - x');
    Same(d * run, (y - y') * (y - y') - (A + x + x') * run)
  }

  lemma Distribute(a: int, b: int, c: int)
    ensures a * (b + c) == a * b + a * c && a * (b - c) == a * b - a * c
    ensures (b + c) * a == a * b + a * c && (b - c) * a == a * b - a * c
  {
  }

  lemma Associate(a: int, b: int, c: int)
    ensures a * (b * c) == (a * b) * c == b * (a * c)
  {
  }

  lemma TwoSquares(x: int, x': int)
    ensures (x - x') * (x - x') == x * x - 2 * (x * x') + x' * x'
    ensures (x + x') * (x + x') == x * x + 2 * (x * x') + x' * x'
  {
  }

  lemma CubicExpanded(x: int)
    ensures Cubic(x) == x * (x * x) + A * (x * x) + x
  {
    Distribute(x, x * x + A * x, 1);
    Distribute(x, x * x, A * x);
    Associate(x, A, x);
  }

  // Replacing y^2 by the cubic, the tangent meets the curve where x^2 - 1 says.
  lemma TangentPolynomial(x: int)
    ensures
      var slope := 3 * (x * x) + 2 * (A * x) + 1;
      slope * slope - (A + 2 * x) * (4 * Cubic(x)) == (x * x - 1) * (x * x - 1)
  {
    hide Cubic;
    var v, b := x * x, A * x;
    SlopeSquared(v, b);
    CubicExpanded(x);
    var c := Cubic(x);
    assert (A + 2 * x) * (4 * c) == 4 * (A * c) + 8 * (x * c) by {
      Distribute(4 * c, A, 2 * x);
      Associate(x, 4, c);
    }
    assert x * c == v * v + b * v + v by { TimesCubic(x, c); }
    assert A * (x * v) == b * v by { Associate(A, x, v); }
    assert b * b == A * (A * v) by { Regroup(A, x); }
    TwoSquares(v, 1);
  }

  lemma SlopeSquared(v: int, b: int)
    ensures (3 * v + 2 * b + 1) * (3 * v + 2 * b + 1)
            == 9 * (v * v) + 12 * (b * v) + 6 * v + 4 * (b * b) + 4 * b + 1
  {
    TwoSquares(3 * v + 2 * b, -1);
    TwoSquares(3 * v, -2 * b);
  }

  lemma TimesCubic(x: int, c: int)
    requires c == x * (x * x) + A * (x * x) + x
    ensures x * c == (x * x) * (x * x) + (A * x) * (x * x) + x * x
  {
    var v := x * x;
    Distribute(x, x * v + A * v, x);
    Distribute(x, x * v, A * v);
    Associate(x, x, v);
    Associate(x, A, v);
  }

  lemma ScaledDouble(x: int, z: int)
    ensures
      var w := (z * z) * (z * z);
      && DoubleX(x * z, z) == w * ((x * x - 1) * (x * x - 1))
      && DoubleZ(x * z, z) == w * (4 * Cubic(x))
  {
    var q, v := z * z, x * x;
    assert (x * z) * (x * z) == v * q && (x * z) * z == x * q;
    assert v * q - q == q * (v - 1);
    assert (q * (v - 1)) * (q * (v - 1)) == (q * q) * ((v - 1) * (v - 1));
    assert v * q + A * (x * q) + q == q * (v + A * x + 1);
    assert 4 * (x * q) * (q * (v + A * x + 1)) == (q * q) * (4 * (x * (v + A * x + 1)));
  }

  lemma DoubleAlike(x: int, x': int, z: int, z': int)
    requires Same(x, x') && Same(z, z')
    ensures Same(DoubleX(x, z), DoubleX(x', z')) && Same(DoubleZ(x, z), DoubleZ(x', z'))
  {
    hide Residue;
    SameProduct(x, x', x, x');
    SameProduct(x, x', z, z');
    SameProduct(z, z', z, z');
    SameSum(x * x, x' * x', z * z, z' * z');
    SameProduct(x * x - z * z, x' * x' - z' * z', x * x - z * z, x' * x' - z' * z');
    SameProduct(A, A, x * z, x' * z');
    SameSum(x * x, x' * x', A * (x * z), A * (x' * z'));
    SameSum(x * x + A * (x * z), x' * x' + A * (x' * z'), z * z, z' * z');
    SameProduct(4, 4, x * z, x' * z');
    SameProduct(4 * (x * z), 4 * (x' * z'), x * x + A * (x * z) + z * z, x' * x' + A * (x' * z') + z' * z');
  }

  // The step doubles: from a point with x-coordinate x it goes to the point on the tangent.
  lemma StepDoubles(s: Ladder, u: int, x: int, y: int, d: int)
    requires Same(s.x2, x * s.z2) && OnCurve(x, y) && Tangent(d, x, y)
    ensures Step(s, u).x2 == Mul(d, Step(s, u).z2)
  {
    hide Residue, DoubleX, DoubleZ, Step, Cubic;
    StepDouble(s, u);
    DoubleAlike(s.x2, x * s.z2, s.z2, s.z2);
    ScaledDouble(x, s.z2);
    TangentPolynomial(x);
    var slope := 3 * (x * x) + 2 * (A * x) + 1;
    SameProduct(4, 4, y * y, Cubic(x));
    Replaced(d, A + 2 * x, slope * slope, 4 * (y * y), 4 * Cubic(x));
    var w := (s.z2 * s.z2) * (s.z2 * s.z2);
    var top := (x * x - 1) * (x * x - 1);
    assert Same(w * top, d * (w * (4 * Cubic(x)))) by {
      SameProduct(w, w, top, d * (4 * Cubic(x)));
      assert w * (d * (4 * Cubic(x))) == d * (w * (4 * Cubic(x))) by { Commute(w, d, 4 * Cubic(x)); }
    }
    ResidueOfProduct(d, DoubleZ(s.x2, s.z2));
    SameProduct(d, d, DoubleZ(s.x2, s.z2), w * (4 * Cubic(x)));
  }

  lemma Commute(a: int, b: int, c: int)
    ensures a * (b * c) == b * (a * c)
  {
  }

  // Equals for v in an equation with terms d v and a v.
  lemma Replaced(d: int, a: int, top: int, v: int, c: int)
    requires Same(v, c) && Same(d * v, top - a * v)
    ensures Same(top - a * c, d * c)
  {
    hide Residue;
    SameProduct(d, d, v, c);
    SameProduct(a, a, v, c);
    SameSum(top, top, a * v, a * c);
  }

  // The product of the two chords' heights, with m and n the product and the sum of the coordinates.
  lemma ChordTerms(m: int, n: int)
    ensures
      var s := n * (m + 1) + 2 * (A * m);
      var c := m * ((m - 1) * (m - 1) + n * n + A * (n * (m + 1)) + A * (A * m));
      s * s - 4 * c == (n * n - 4 * m) * ((m - 1) * (m - 1))
  {
    var k, a, v, q := n * (m + 1), A * m, n * n, (m - 1) * (m - 1);
    assert (k + 2 * a) * (k + 2 * a) == k * k + 4 * (k * a) + 4 * (a * a) by { SquareOfSum(k, a); }
    assert m * (q + v + A * k + A * a) == m * q + m * v + k * a + a * a by { CubicsTerms(m, q, v, k, a); }
    assert k * k == v * q + 4 * (m * v) by { KSquared(m, n); }
    assert (v - 4 * m) * q == v * q - 4 * (m * q) by { Distribute(q, v, 4 * m); Associate(4, m, q); }
  }

  lemma SquareOfSum(k: int, a: int)
    ensures (k + 2 * a) * (k + 2 * a) == k * k + 4 * (k * a) + 4 * (a * a)
  {
  }

  lemma CubicsTerms(m: int, q: int, v: int, k: int, a: int)
    requires a == A * m
    ensures m * (q + v + A * k + A * a) == m * q + m * v + k * a + a * a
  {
    Distribute(m, q + v + A * k, A * a);
    Distribute(m, q + v, A * k);
    Distribute(m, q, v);
    assert m * (A * k) == k * a by { Associate(m, A, k); }
    assert m * (A * a) == a * a by { Associate(m, A, a); }
  }

  lemma KSquared(m: int, n: int)
    ensures (n * (m + 1)) * (n * (m + 1)) == (n * n) * ((m - 1) * (m - 1)) + 4 * (m * (n * n))
  {
    var v, q, r := n * n, (m - 1) * (m - 1), (m + 1) * (m + 1);
    Regroup(n, m + 1);
    assert r == q + 4 * m;
    Distribute(v, q, 4 * m);
    Associate(v, 4, m);
  }

  lemma CubicsSum(x: int, x': int)
    ensures
      var m, n := x * x', x + x';
      && Cubic(x) + Cubic(x') - (A + x + x') * ((x - x') * (x - x')) == n * (m + 1) + 2 * (A * m)
      && (x - x') * (x - x') == n * n - 4 * m
  {
    hide Cubic;
    TwoSquares(x, x');
    CubicExpanded(x);
    CubicExpanded(x');
    RunExpanded(x, x');
    Distribute(x * x' + 1, x, x');
    Distribute(x, x * x', 1);
    Distribute(x', x * x', 1);
  }

  lemma RunExpanded(x: int, x': int)
    ensures (A + x + x') * ((x - x') * (x - x')) ==
            A * (x * x) - 2 * (A * (x * x')) + A * (x' * x') + x * (x * x) + x' * (x' * x')
            - x * (x * x') - x' * (x * x')
  {
    var run := (x - x') * (x - x');
    assert run == x * x - 2 * (x * x') + x' * x' by { TwoSquares(x, x'); }
    var p, q := x * run, x' * run;
    assert p == x * (x * x) - 2 * (x * (x * x')) + x' * (x * x') by { TimesRun(x, x', run); }
    assert q == x' * (x' * x') - 2 * (x' * (x * x')) + x * (x * x') by { TimesRun(x', x, run); }
    assert (A + x + x') * run == A * run + p + q by { ThreeTerms(A, x, x', run); }
  }

  lemma ThreeTerms(a: int, b: int, c: int, d: int)
    ensures (a + b + c) * d == a * d + b * d + c * d
  {
  }

  lemma TimesRun(x: int, x': int, run: int)
    requires run == x * x - 2 * (x * x') + x' * x'
    ensures x * run == x * (x * x) - 2 * (x * (x * x')) + x' * (x * x')
  {
    Distribute(x, x * x - 2 * (x * x'), x' * x');
    Distribute(x, x * x, 2 * (x * x'));
    Associate(x, 2, x * x');
    Associate(x, x', x');
  }

  lemma CubicsProduct(x: int, x': int)
    ensures
      var m, n := x * x', x + x';
      Cubic(x) * Cubic(x') == m * ((m - 1) * (m - 1) + n * n + A * (n * (m + 1)) + A * (A * m))
  {
    var m, n, v, v' := x * x', x + x', x * x, x' * x';
    var f, f' := v + A * x + 1, v' + A * x' + 1;
    assert (x * f) * (x' * f') == m * (f * f') by { FourFactors(x, f, x', f'); }
    assert f * f' == (m - 1) * (m - 1) + n * n + A * (n * (m + 1)) + A * (A * m) by { QuadraticsProduct(x, x'); }
  }

  lemma FourFactors(x: int, f: int, x': int, f': int)
    ensures (x * f) * (x' * f') == (x * x') * (f * f')
  {
    Associate(x * f, x', f');
    Associate(x, f, x');
    Associate(x, x', f);
    Associate(x * x', f, f');
  }

  lemma QuadraticsProduct(x: int, x': int)
    ensures
      var m, n := x * x', x + x';
      (x * x + A * x + 1) * (x' * x' + A * x' + 1) == (m - 1) * (m - 1) + n * n + A * (n * (m + 1)) + A * (A * m)
  {
    var m, n := x * x', x + x';
    var f' := x' * x' + A * x' + 1;
    ThreeTerms(x * x, A * x, 1, f');
    Associate(A, x, f');
    SquareTimesQuadratic(x, x');
    TimesQuadratic(x, x');
    TwoSquares(x, x');
    TwoSquares(m, 1);
    Distribute(m + 1, x, x');
    Distribute(x, m, 1);
    Distribute(x', m, 1);
    CollectTerms((x * x) * f', x * f', f', (m - 1) * (m - 1), n * n, n * (m + 1),
      x, x', x * x, x' * x', m, m * m, x * m, x' * m);
  }

  // The linear part of that product.
  lemma CollectTerms(p: int, q: int, f: int, s: int, t: int, w: int, x: int, x': int, v: int, v': int, m: int,
                     mm: int, xm: int, xm': int)
    requires p == mm + A * xm + v && q == xm' + A * m + x && f == v' + A * x' + 1
    requires s == mm - 2 * m + 1 && t == v + 2 * m + v' && w == xm + xm' + x + x'
    ensures p + A * q + f == s + t + A * w + A * (A * m)
  {
  }

  lemma SquareTimesQuadratic(x: int, x': int)
    ensures (x * x) * (x' * x' + A * x' + 1) == (x * x') * (x * x') + A * (x * (x * x')) + x * x
  {
    var v, v' := x * x, x' * x';
    ThreeTerms(v', A * x', 1, v);
    Regroup(x, x');
    Associate(A, x', v);
    Associate(x, x, x');
  }

  lemma TimesQuadratic(x: int, x': int)
    ensures x * (x' * x' + A * x' + 1) == x' * (x * x') + A * (x * x') + x
  {
    ThreeTerms(x' * x', A * x', 1, x);
    Associate(x, x', x');
    Associate(A, x', x);
  }

  // The two chords through a point and another one and its opposite.
  lemma ChordsMultiply(x: int, y: int, x': int, y': int)
    requires OnCurve(x, y) && OnCurve(x', y')
    ensures
      var run := (x - x') * (x - x');
      var k := (A + x + x') * run;
      Same(((y - y') * (y - y') - k) * ((y + y') * (y + y') - k), run * ((x * x' - 1) * (x * x' - 1)))
  {
    hide Residue, Cubic;
    var run := (x - x') * (x - x');
    var k := (A + x + x') * run;
    var f, f' := Cubic(x), Cubic(x');
    assert (f + f' - k) * (f + f' - k) - 4 * (f * f') == run * ((x * x' - 1) * (x * x' - 1)) by {
      hide Residue, Cubic;
      CubicsSum(x, x');
      CubicsProduct(x, x');
      ChordTerms(x * x', x + x');
    }
    var v, v' := y * y, y' * y';
    assert ((y - y') * (y - y') - k) * ((y + y') * (y + y') - k) == (v + v' - k) * (v + v' - k) - 4 * (v * v') by {
      Heights(y, y', k);
    }
    SameSum(v, f, v', f');
    SameSum(v + v', f + f', k, k);
    SameProduct(v + v' - k, f + f' - k, v + v' - k, f + f' - k);
    SameProduct(v, f, v', f');
    SameProduct(4, 4, v * v', f * f');
    SameSum((v + v' - k) * (v + v' - k), (f + f' - k) * (f + f' - k), 4 * (v * v'), 4 * (f * f'));
  }

  lemma Heights(y: int, y': int, k: int)
    ensures ((y - y') * (y - y') - k) * ((y + y') * (y + y') - k)
            == (y * y + y' * y' - k) * (y * y + y' * y' - k) - 4 * ((y * y) * (y' * y'))
  {
    var s, m := y * y + y' * y' - k, y * y';
    assert (y - y') * (y - y') - k == s - 2 * m && (y + y') * (y + y') - k == s + 2 * m;
    assert (s - 2 * m) * (s + 2 * m) == s * s - 4 * (m * m);
    assert m * m == (y * y) * (y' * y');
  }

  lemma ScaledSum(x: int, z: int, x': int, z': int, u: int)
    ensures
      var w := (z * z') * (z * z');
      && SumX(x * z, z, x' * z', z') == w * (4 * ((x * x' - 1) * (x * x' - 1)))
      && SumZ(x * z, z, x' * z', z', u) == w * (u * (4 * ((x - x') * (x - x'))))
  {
    var q, m, d := z * z', x * x', x - x';
    assert (x * z) * (x' * z') == m * q;
    assert m * q - q == q * (m - 1);
    assert (x' * z') * z - (x * z) * z' == -(q * d);
    assert (-(q * d)) * (-(q * d)) == (q * q) * (d * d);
    assert (q * (m - 1)) * (q * (m - 1)) == (q * q) * ((m - 1) * (m - 1));
    assert u * (4 * ((q * q) * (d * d))) == (q * q) * (u * (4 * (d * d)));
  }

  lemma CrossAlike(a: int, b: int, c: int, d: int, a': int, b': int, c': int, d': int)
    requires Same(a, a') && Same(b, b') && Same(c, c') && Same(d, d')
    ensures Same(a * b - c * d, a' * b' - c' * d')
  {
    hide Residue;
    SameProduct(a, a', b, b');
    SameProduct(c, c', d, d');
    SameSum(a * b, a' * b', c * d, c' * d');
  }

  lemma SumXAlike(s: Ladder, t: Ladder)
    requires Same(s.x2, t.x2) && Same(s.z2, t.z2) && Same(s.x3, t.x3) && Same(s.z3, t.z3)
    ensures Same(SumX(s.x2, s.z2, s.x3, s.z3), SumX(t.x2, t.z2, t.x3, t.z3))
  {
    hide Residue;
    CrossAlike(s.x2, s.x3, s.z2, s.z3, t.x2, t.x3, t.z2, t.z3);
    SameFour(s.x2 * s.x3 - s.z2 * s.z3, t.x2 * t.x3 - t.z2 * t.z3);
  }

  lemma SumZAlike(s: Ladder, t: Ladder, u: int)
    requires Same(s.x2, t.x2) && Same(s.z2, t.z2) && Same(s.x3, t.x3) && Same(s.z3, t.z3)
    ensures Same(SumZ(s.x2, s.z2, s.x3, s.z3, u), SumZ(t.x2, t.z2, t.x3, t.z3, u))
  {
    hide Residue;
    CrossAlike(s.x3, s.z2, s.x2, s.z3, t.x3, t.z2, t.x2, t.z3);
    var d, e := s.x3 * s.z2 - s.x2 * s.z3, t.x3 * t.z2 - t.x2 * t.z3;
    SameFour(d, e);
    SameProduct(u, u, 4 * (d * d), 4 * (e * e));
  }

  lemma SameFour(a: int, b: int)
    requires Same(a, b)
    ensures Same(4 * (a * a), 4 * (b * b))
  {
    hide Residue;
    SameProduct(a, b, a, b);
    SameProduct(4, 4, a * a, b * b);
  }

  // The step adds: from points with x-coordinates x and x' whose difference has x-coordinate u it
  // goes to their sum, on the chord.  Where the run of the chord can be cancelled, this says that the
  // quotient of the new coordinates is the x-coordinate of the sum.
  lemma StepAdds(s: Ladder, u: int, x: int, y: int, x': int, y': int, sum: int)
    requires Same(s.x2, x * s.z2) && Same(s.x3, x' * s.z3) && OnCurve(x, y) && OnCurve(x', y')
    requires Chord(sum, x, y, x', y') && Chord(u, x, y, x', -y')
    ensures
      var run := (x - x') * (x - x');
      Same(Step(s, u).x3 * run, (sum * Step(s, u).z3) * run)
  {
    hide Residue, SumX, SumZ, Step, Cubic;
    StepPolynomials(s, u);
    SumXAlike(s, Ladder(x * s.z2, s.z2, x' * s.z3, s.z3));
    SumZAlike(s, Ladder(x * s.z2, s.z2, x' * s.z3, s.z3), u);
    ScaledSum(x, s.z2, x', s.z3, u);
    var run, w := (x - x') * (x - x'), (s.z2 * s.z3) * (s.z2 * s.z3);
    var top := (x * x' - 1) * (x * x' - 1);
    ChordsMeet(x, y, x', y', sum, u);
    ResidueIsSame(SumX(s.x2, s.z2, s.x3, s.z3));
    ResidueIsSame(SumZ(s.x2, s.z2, s.x3, s.z3, u));
    SumOnChord(Step(s, u).x3, Step(s, u).z3, w, top, run, sum, u);
  }

  lemma SumOnChord(x3: int, z3: int, w: int, top: int, run: int, sum: int, u: int)
    requires Same(x3, w * (4 * top)) && Same(z3, w * (u * (4 * run)))
    requires Same(run * top, (sum * run) * (u * run))
    ensures Same(x3 * run, (sum * z3) * run)
  {
    hide Residue;
    var p, q := w * (4 * top), w * (u * (4 * run));
    SameProduct(x3, p, run, run);
    SameProduct(sum, sum, z3, q);
    SameProduct(sum * z3, sum * q, run, run);
    SameProduct(4 * w, 4 * w, run * top, (sum * run) * (u * run));
    Gather(w, top, run);
    GatherSum(w, sum, u, run);
  }

  lemma Gather(w: int, top: int, run: int)
    ensures (4 * w) * (run * top) == (w * (4 * top)) * run
  {
    Associate(w, 4, top);
    Associate(4 * w, top, run);
  }

  lemma GatherSum(w: int, sum: int, u: int, run: int)
    ensures (4 * w) * ((sum * run) * (u * run)) == (sum * (w * (u * (4 * run)))) * run
  {
    var v := u * run;
    Associate(u, 4, run);
    Associate(w, 4, v);
    Associate(sum, 4 * w, v);
    Associate(4 * w, sum * v, run);
    FourFactors(sum, run, v, 1);
    Associate(sum, run, v);
    Associate(sum, v, run);
  }

  lemma ChordsMeet(x: int, y: int, x': int, y': int, sum: int, u: int)
    requires OnCurve(x, y) && OnCurve(x', y') && Chord(sum, x, y, x', y') && Chord(u, x, y, x', -y')
    ensures
      var run := (x - x') * (x - x');
      Same(run * ((x * x' - 1) * (x * x' - 1)), (sum * run) * (u * run))
  {
    hide Residue, Cubic;
    var run := (x - x') * (x - x');
    var k := (A + x + x') * run;
    ChordsMultiply(x, y, x', y');
    assert y - -y' == y + y';
    SameProduct(sum * run, (y - y') * (y - y') - k, u * run, (y + y') * (y + y') - k);
  }

  // ----- scalar one and scalar two

  // The point at infinity and, scaled by w, the point u.
  predicate AtStart(s: Ladder, u: int, w: int) {
    s.x2 == 1 && s.z2 == 0 && s.x3 == Residue(u * w) && s.z3 == w == Residue(w)
  }

  lemma SquareOfProduct(u: int, w: int)
    ensures 4 * ((u * w) * (u * w)) == u * ((4 * u) * (w * w))
  {
    Regroup(u, w);
    Associate(4 * u, u, w * w);
    Associate(4, u, u);
    Associate(u, 4 * u, w * w);
  }

  // A zero bit doubles infinity and scales u.
  lemma ZeroBit(s: Ladder, u: int, w: int)
    requires AtStart(s, u, w)
    ensures AtStart(Step(s, u), u, Residue((4 * u) * (w * w)))
  {
    hide Step, Residue;
    StepPolynomials(s, u);
    assert DoubleX(1, 0) == 1 && DoubleZ(1, 0) == 0;
    assert SumX(1, 0, s.x3, w) == 4 * (s.x3 * s.x3);
    hide DoubleX, DoubleZ;
    assert SumZ(1, 0, s.x3, w, u) == (4 * u) * (w * w) by {
      assert (s.x3 * 0 - 1 * w) * (s.x3 * 0 - 1 * w) == w * w;
      Associate(u, 4, w * w);
      Associate(4, u, w * w);
    }
    hide SumX, SumZ;
    ResidueIsSame(u * w);
    SameFour(s.x3, u * w);
    SquareOfProduct(u, w);
    ResidueOfProduct(u, (4 * u) * (w * w));
    ResidueIsSame((4 * u) * (w * w));
    One();
  }

  lemma One()
    ensures Residue(1) == 1 && Residue(0) == 0
  {
    ResidueOfSmall(0);
    ResidueOfSmall(1);
  }

  // A one bit, after which the first point is u again and the second its double.
  lemma OneBit(s: Ladder, u: int, w: int)
    requires AtStart(s, u, w)
    ensures
      var r, w' := SwappedStep(s, u, true), Residue((4 * u) * (w * w));
      r.z2 == w' && r.x2 == Residue(u * w')
  {
    hide Step;
    var t := Ladder(s.x3, s.z3, s.x2, s.z2);
    StepPolynomials(t, u);
    assert SumX(s.x3, w, 1, 0) == 4 * (s.x3 * s.x3);
    hide Residue;
    assert SumZ(s.x3, w, 1, 0, u) == (4 * u) * (w * w) by {
      assert (1 * w - s.x3 * 0) * (1 * w - s.x3 * 0) == w * w;
      Associate(u, 4, w * w);
      Associate(4, u, w * w);
    }
    hide SumX, SumZ;
    ResidueIsSame(u * w);
    SameFour(s.x3, u * w);
    SquareOfProduct(u, w);
    ResidueOfProduct(u, (4 * u) * (w * w));
  }

  // Scaling by 4 u w^2 doubles the exponent and adds one.
  lemma NextPower(c: int, e: nat)
    ensures Residue(c * (Power(c, e) * Power(c, e))) == Power(c, 2 * e + 1)
  {
    hide Residue;
    PowerSum(c, e, e);
    assert e + e == 2 * e;
    assert Power(c, 2 * e + 1) == Mul(c, Power(c, 2 * e));
    hide Power;
    ResidueOfProduct(c, Power(c, e) * Power(c, e));
  }

  lemma AtBeginning(u: int)
    requires 0 <= u < P
    ensures AtStart(Start(u), u, 1)
  {
    hide Residue;
    ResidueOfSmall(u);
    One();
    assert u * 1 == u;
  }

  // Above the highest bit of the scalar only the scale changes.
  lemma {:induction false} LeadingZeros(k: int, u: int, n: nat)
    requires 0 <= u < P && n <= 256 && forall i: nat :: 256 - n <= i < 256 ==> !Bit(k, i)
    ensures AtStart(Rung(k, u, n), u, Power(4 * u, Exp2(n) - 1))
  {
    hide Bit, Residue, Step, AtStart;
    if n == 0 {
      assert Exp2(0) == 1 && Power(4 * u, 0) == 1;
      AtBeginning(u);
    } else {
      LeadingZeros(k, u, n - 1);
      var s, e := Rung(k, u, n - 1), Exp2(n - 1) - 1;
      assert Rung(k, u, n) == Step(s, u);
      hide Rung, Power;
      ZeroBit(s, u, Power(4 * u, e));
      NextPower(4 * u, e);
    }
  }

  lemma {:induction false} BitsOfOne(i: nat)
    ensures Bit(0, i) == false && Bit(1, i) == (i == 0)
  {
    if i > 0 { BitsOfOne(i - 1); }
  }

  // Scalar one is the identity.
  lemma ScalarOne(u: int)
    requires 0 <= u < P
    ensures
      var s := Climbed(1, u);
      s.z2 == Power(4 * u, Exp2(256) - 1) && s.x2 == Mul(u, s.z2)
  {
    hide Climbed, Power, Residue, Step;
    forall i: nat
      ensures Bit(1, i) == (i == 0)
    {
      BitsOfOne(i);
    }
    hide Bit;
    LeadingZeros(1, u, 255);
    var s, e := Rung(1, u, 255), Exp2(255) - 1;
    assert Rung(1, u, 256) == SwappedStep(s, u, true);
    assert Exp2(256) == 2 * Exp2(255);
    hide Rung, SwappedStep, Exp2;
    OneBit(s, u, Power(4 * u, e));
    NextPower(4 * u, e);
    SameLadder(1, u);
  }

  lemma BitsOfTwo(i: nat)
    ensures Bit(2, i) == (i == 1)
  {
    if i > 0 { BitsOfOne(i - 1); }
  }

  // Scalar two doubles: the quotient of the coordinates is (u^2 - 1)^2 / 4 u (u^2 + 486662 u + 1).
  lemma ScalarTwo(u: int)
    requires 0 <= u < P
    ensures
      var s, w := Climbed(2, u), Power(4 * u, Exp2(255) - 1);
      var scale := (w * w) * (w * w);
      && s.x2 == Residue(scale * ((u * u - 1) * (u * u - 1)))
      && s.z2 == Residue(scale * (4 * (u * (u * u + 486662 * u + 1))))
    ensures
      var s := Climbed(2, u);
      Same(s.x2 * (4 * (u * (u * u + 486662 * u + 1))), s.z2 * ((u * u - 1) * (u * u - 1)))
  {
    hide Climbed, Power, Residue, Step, DoubleX, DoubleZ;
    forall i: nat
      ensures Bit(2, i) == (i == 1)
    {
      BitsOfTwo(i);
    }
    hide Bit;
    LeadingZeros(2, u, 254);
    var s, r, e := Rung(2, u, 254), Rung(2, u, 255), Exp2(254) - 1;
    assert r == SwappedStep(s, u, true);
    assert Rung(2, u, 256) == Step(r, u);
    assert Exp2(255) == 2 * Exp2(254);
    hide Rung, SwappedStep, Exp2;
    OneBit(s, u, Power(4 * u, e));
    NextPower(4 * u, e);
    SameLadder(2, u);
    var w := Power(4 * u, 2 * e + 1);
    StepDouble(r, u);
    ResidueIsSame(u * w);
    DoubleAlike(r.x2, u * w, w, w);
    ScaledDouble(u, w);
    CrossMultiplied((w * w) * (w * w), (u * u - 1) * (u * u - 1), 4 * Cubic(u));
  }

  lemma CrossMultiplied(scale: int, a: int, b: int)
    ensures Same(Residue(scale * a) * b, Residue(scale * b) * a)
  {
    hide Residue;
    ResidueIsSame(scale * a);
    ResidueIsSame(scale * b);
    SameProduct(Residue(scale * a), scale * a, b, b);
    SameProduct(Residue(scale * b), scale * b, a, a);
    Associate(scale, a, b);
    Associate(scale, b, a);
  }

  // ----- every scalar

  // The coordinates of t, scaled by l and by m.
  predicate Scaled(s: Ladder, t: Ladder, l: int, m: int) {
    && Same(s.x2, l * t.x2) && Same(s.z2, l * t.z2)
    && Same(s.x3, m * t.x3) && Same(s.z3, m * t.z3)
  }

  lemma DoubleScales(x: int, z: int, l: int)
    ensures
      var q := (l * l) * (l * l);
      DoubleX(l * x, l * z) == q * DoubleX(x, z) && DoubleZ(l * x, l * z) == q * DoubleZ(x, z)
  {
    var v := l * l;
    Regroup(l, x);
    Regroup(l, z);
    FourFactors(l, x, l, z);
    FourFactors(l, x, l, x);
    FourFactors(l, z, l, z);
    var d, m, f := x * x - z * z, x * z, x * x + A * (x * z) + z * z;
    assert (l * x) * (l * x) - (l * z) * (l * z) == v * d by { Distribute(v, x * x, z * z); }
    FourFactors(v, d, v, d);
    assert (l * x) * (l * x) + A * ((l * x) * (l * z)) + (l * z) * (l * z) == v * f by {
      Distribute(v, x * x + A * m, z * z);
      Distribute(v, x * x, A * m);
      Associate(v, A, m);
    }
    assert (4 * (v * m)) * (v * f) == (v * v) * ((4 * m) * f) by {
      Associate(v, 4, m);
      FourFactors(v, 4 * m, v, f);
    }
  }

  lemma SumScales(x: int, z: int, x': int, z': int, u: int, l: int, m: int)
    ensures
      var q := (l * m) * (l * m);
      && SumX(l * x, l * z, m * x', m * z') == q * SumX(x, z, x', z')
      && SumZ(l * x, l * z, m * x', m * z', u) == q * SumZ(x, z, x', z', u)
  {
    var v := l * m;
    FourFactors(l, x, m, x');
    FourFactors(l, z, m, z');
    FourFactors(m, x', l, z);
    FourFactors(l, x, m, z');
    var a, b := x * x' - z * z', x' * z - x * z';
    assert (l * x) * (m * x') - (l * z) * (m * z') == v * a by { Distribute(v, x * x', z * z'); }
    assert (m * x') * (l * z) - (l * x) * (m * z') == v * b by { Distribute(v, x' * z, x * z'); }
    FourFactors(v, a, v, a);
    FourFactors(v, b, v, b);
    Associate(v * v, 4, a * a);
    Associate(v * v, 4, b * b);
    Associate(u, v * v, 4 * (b * b));
  }

  // A step multiplies the scales.
  lemma StepScales(s: Ladder, t: Ladder, u: int, l: int, m: int)
    requires Scaled(s, t, l, m)
    ensures Scaled(Step(s, u), Step(t, u), (l * l) * (l * l), (l * m) * (l * m))
  {
    hide Residue, Step, DoubleX, DoubleZ, SumX, SumZ;
    StepPolynomials(s, u);
    StepPolynomials(t, u);
    DoubleAlike(s.x2, l * t.x2, s.z2, l * t.z2);
    SumXAlike(s, Ladder(l * t.x2, l * t.z2, m * t.x3, m * t.z3));
    SumZAlike(s, Ladder(l * t.x2, l * t.z2, m * t.x3, m * t.z3), u);
    DoubleScales(t.x2, t.z2, l);
    SumScales(t.x2, t.z2, t.x3, t.z3, u, l, m);
    var p, q := (l * l) * (l * l), (l * m) * (l * m);
    ResidueOfProduct(p, DoubleX(t.x2, t.z2));
    ResidueOfProduct(p, DoubleZ(t.x2, t.z2));
    ResidueOfProduct(q, SumX(t.x2, t.z2, t.x3, t.z3));
    ResidueOfProduct(q, SumZ(t.x2, t.z2, t.x3, t.z3, u));
    ResidueIsSame(DoubleX(s.x2, s.z2));
    ResidueIsSame(DoubleZ(s.x2, s.z2));
    ResidueIsSame(SumX(s.x2, s.z2, s.x3, s.z3));
    ResidueIsSame(SumZ(s.x2, s.z2, s.x3, s.z3, u));
  }

  // Powers of c stay powers of c.
  lemma ScalesArePowers(c: int, i: nat, j: nat)
    ensures
      var l, m := Power(c, i), Power(c, j);
      Same((l * l) * (l * l), Power(c, 4 * i)) && Same((l * m) * (l * m), Power(c, 2 * (i + j)))
  {
    PowerTwice(c, i, i);
    PowerTwice(c, i, j);
    assert 2 * (i + i) == 4 * i;
  }

  lemma PowerTwice(c: int, i: nat, j: nat)
    ensures
      var l, m := Power(c, i), Power(c, j);
      Same((l * m) * (l * m), Power(c, 2 * (i + j)))
  {
    hide Residue, Power;
    var l, m := Power(c, i), Power(c, j);
    PowerSum(c, i, j);
    PowerSum(c, i + j, i + j);
    assert (i + j) + (i + j) == 2 * (i + j);
    ResidueIsSame(l * m);
    var q := Power(c, i + j);
    SameProduct(l * m, q, l * m, q);
    ResidueIsSame(q * q);
  }

  lemma ScaledAlike(s: Ladder, t: Ladder, l: int, m: int, l': int, m': int)
    requires Scaled(s, t, l, m) && Same(l, l') && Same(m, m')
    ensures Scaled(s, t, l', m')
  {
    hide Residue;
    SameProduct(l, l', t.x2, t.x2);
    SameProduct(l, l', t.z2, t.z2);
    SameProduct(m, m', t.x3, t.x3);
    SameProduct(m, m', t.z3, t.z3);
  }

  lemma BitScales(s: Ladder, t: Ladder, u: int, bit: bool, c: int, i: nat, j: nat) returns (i': nat, j': nat)
    requires Scaled(s, t, Power(c, i), Power(c, j))
    ensures Scaled(SwappedStep(s, u, bit), SwappedStep(t, u, bit), Power(c, i'), Power(c, j'))
  {
    hide Residue, Step, Power;
    var l, m := Power(c, i), Power(c, j);
    if bit {
      StepScales(Swap(s, true), Swap(t, true), u, m, l);
      ScalesArePowers(c, j, i);
      ScaledAlike(Step(Swap(s, true), u), Step(Swap(t, true), u), (m * m) * (m * m), (m * l) * (m * l),
        Power(c, 4 * j), Power(c, 2 * (j + i)));
      i', j' := 2 * (j + i), 4 * j;
    } else {
      StepScales(s, t, u, l, m);
      ScalesArePowers(c, i, j);
      ScaledAlike(Step(s, u), Step(t, u), (l * l) * (l * l), (l * m) * (l * m), Power(c, 4 * i), Power(c, 2 * (i + j)));
      i', j' := 4 * i, 2 * (i + j);
    }
  }

  lemma {:induction false} BitAbove(k: int, i: nat)
    requires 0 <= k < Exp2(i)
    ensures !Bit(k, i)
  {
    if i > 0 { BitAbove(k / 2, i - 1); }
  }

  lemma NextRungs(k: int, b: int, u: int, n: nat)
    requires 0 <= b <= 1 && 1 <= n <= 255
    ensures Rung(k, u, n + 1) == SwappedStep(Rung(k, u, n), u, Bit(k, 255 - n))
    ensures Rung(2 * k + b, u, n) == SwappedStep(Rung(2 * k + b, u, n - 1), u, Bit(k, 255 - n))
  {
    hide SwappedStep;
    assert (2 * k + b) / 2 == k;
    assert Bit(2 * k + b, 256 - n) == Bit(k, 255 - n);
  }

  lemma FirstRung(k: int, u: int)
    requires 0 <= k < Exp2(255)
    ensures Rung(k, u, 1) == Step(Start(u), u)
  {
    hide Step, Exp2;
    BitAbove(k, 255);
  }

  // The first bits of 2 k + b are those of k, which starts with one more zero.
  lemma {:induction false} ShiftedRungs(k: int, b: int, u: int, n: nat) returns (i: nat, j: nat)
    requires 0 <= k < Exp2(255) && 0 <= b <= 1 && 0 <= u < P && n <= 255
    ensures Scaled(Rung(k, u, n + 1), Rung(2 * k + b, u, n), Power(4 * u, i), Power(4 * u, j))
  {
    hide Residue, Step, Exp2, SwappedStep, Scaled, Power, Bit;
    if n == 0 {
      i, j := 0, 1;
      FirstRung(k, u);
      FirstZero(u);
    } else {
      NextRungs(k, b, u, n);
      hide Rung;
      i, j := ShiftedRungs(k, b, u, n - 1);
      i, j := BitScales(Rung(k, u, n), Rung(2 * k + b, u, n - 1), u, Bit(k, 255 - n), 4 * u, i, j);
    }
  }

  lemma FirstZero(u: int)
    requires 0 <= u < P
    ensures Scaled(Step(Start(u), u), Start(u), Power(4 * u, 0), Power(4 * u, 1))
  {
    hide Step, Residue;
    assert Power(4 * u, 0) == 1 && Power(4 * u, 1) == Residue((4 * u) * 1);
    One();
    AtBeginning(u);
    ZeroBit(Start(u), u, 1);
    var w := Residue(4 * u);
    assert (4 * u) * (1 * 1) == 4 * u && u * 1 == u;
    ResidueIsSame(u * w);
    assert u * w == w * u;
  }

  // One bit more: from the two points for k the ladder for 2 k has the double of the first and their
  // sum, and the ladder for 2 k + 1 has their sum and the double of the second, up to powers of 4 u.
  lemma ClimbedTwice(k: int, b: int, u: int) returns (i: nat, j: nat)
    requires 0 <= k < Exp2(255) && 0 <= b <= 1 && 0 <= u < P
    ensures
      var s, t := Climbed(k, u), Climbed(2 * k + b, u);
      var l, m := Power(4 * u, i), Power(4 * u, j);
      if b == 0 then
        && Same(DoubleX(s.x2, s.z2), l * t.x2) && Same(DoubleZ(s.x2, s.z2), l * t.z2)
        && Same(SumX(s.x2, s.z2, s.x3, s.z3), m * t.x3) && Same(SumZ(s.x2, s.z2, s.x3, s.z3, u), m * t.z3)
      else
        && Same(SumX(s.x3, s.z3, s.x2, s.z2), l * t.x2) && Same(SumZ(s.x3, s.z3, s.x2, s.z2, u), l * t.z2)
        && Same(DoubleX(s.x3, s.z3), m * t.x3) && Same(DoubleZ(s.x3, s.z3), m * t.z3)
  {
    hide Residue, Step, Exp2, Power, Climbed, DoubleX, DoubleZ, SumX, SumZ;
    assert Rung(2 * k + b, u, 256) == SwappedStep(Rung(2 * k + b, u, 255), u, b == 1) by {
      hide SwappedStep;
      assert (2 * k + b) % 2 == b;
      assert Bit(2 * k + b, 0) == (b == 1);
    }
    hide Rung, Bit;
    SameLadder(k, u);
    SameLadder(2 * k + b, u);
    i, j := ShiftedRungs(k, b, u, 255);
    var s, r := Climbed(k, u), Rung(2 * k + b, u, 255);
    i, j := BitScales(s, r, u, b == 1, 4 * u, i, j);
    var swapped := Swap(s, b == 1);
    StepPolynomials(swapped, u);
    ResidueIsSame(DoubleX(swapped.x2, swapped.z2));
    ResidueIsSame(DoubleZ(swapped.x2, swapped.z2));
    ResidueIsSame(SumX(swapped.x2, swapped.z2, swapped.x3, swapped.z3));
    ResidueIsSame(SumZ(swapped.x2, swapped.z2, swapped.x3, swapped.z3, u));
  }
}
