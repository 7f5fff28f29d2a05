/** Plane geometry shared by both games: points and velocities, JavaScript's
    remainder on numbers, the toroidal wrap of a playfield axis, and squared
    distances. */
module Geometry {

  /** A point or a velocity, in pixels or pixels per frame. */
  datatype Vec = Vec(x: real, y: real)

  function Add(a: Vec, b: Vec): Vec { Vec(a.x + b.x, a.y + b.y) }

  function Scale(v: Vec, k: real): Vec { Vec(v.x * k, v.y * k) }

  /** A value `Math.random()` can return. */
  predicate Unit(r: real) { 0.0 <= r < 1.0 }

  function Max(a: int, b: int): int { if a >= b then a else b }

  function Min(a: int, b: int): int { if a <= b then a else b }

  function MaxReal(a: real, b: real): real { if a >= b then a else b }

  /** Squared Euclidean distance. The source compares `Math.sqrt(d2) < r` with a
      positive radius r, which holds exactly when `d2 < r * r`. */
  function DistSq(a: Vec, b: Vec): real
  {
    (a.x - b.x) * (a.x - b.x) + (a.y - b.y) * (a.y - b.y)
  }

  /** The centres a and b are closer than radius. */
  predicate Within(a: Vec, b: Vec, radius: real)
  {
    DistSq(a, b) < radius * radius
  }

  /** Proximity tests only see the difference of the two positions. */
  lemma WithinTranslated(a: Vec, b: Vec, d: Vec, radius: real)
    ensures Within(Add(a, d), Add(b, d), radius) == Within(a, b, radius)
  {
  }

  /** Rounding toward zero, as JavaScript's `%` rounds the quotient. */
  function Trunc(r: real): (t: int)
    ensures r >= 0.0 ==> 0.0 <= r - t as real < 1.0
    ensures r < 0.0 ==> -1.0 < r - t as real <= 0.0
  {
    if r >= 0.0 then r.Floor else -((-r).Floor)
  }

  lemma MulNonNegative(a: real, b: real)
    requires a >= 0.0 && b >= 0.0
    ensures a * b >= 0.0
  {
  }

  lemma MulPositive(a: real, b: real)
    requires a > 0.0 && b > 0.0
    ensures a * b > 0.0
  {
  }

  lemma MulFractionBounds(m: real, f: real)
    requires m > 0.0 && -1.0 < f < 1.0
    ensures -m < m * f < m
  {
    MulPositive(m, 1.0 - f);
    MulPositive(m, 1.0 + f);
    assert m * (1.0 - f) == m - m * f;
    assert m * (1.0 + f) == m + m * f;
  }

  lemma MulSplit(m: real, x: real, y: real)
    ensures m * x - m * y == m * (x - y)
  {
  }

  /** Where a == m * q lies tells where q lies. */
  lemma QuotientRange(a: real, m: real, q: real)
    requires m > 0.0 && a == m * q
    ensures a >= 0.0 ==> q >= 0.0
    ensures a <= 0.0 ==> q <= 0.0
    ensures a < m ==> q < 1.0
    ensures a >= m ==> q >= 1.0
    ensures a < m + m ==> q < 2.0
  {
    if a >= 0.0 && q < 0.0 {
      MulNonNegative(m, -q);
    }
    if a <= 0.0 && q > 0.0 {
      MulNonNegative(m, q);
    }
    if a < m && q >= 1.0 {
      MulNonNegative(m, q - 1.0);
    }
    if a >= m && q < 1.0 {
      MulNonNegative(m, 1.0 - q);
    }
    if a < m + m && q >= 2.0 {
      MulNonNegative(m, q - 2.0);
    }
  }

  lemma QuotientIdentity(a: real, m: real)
    requires m > 0.0
    ensures a == m * (a / m)
  {
  }

  /** The integer quotient JavaScript's `%` subtracts: a / m rounded toward zero. */
  function JsQuot(a: real, m: real): int
    requires m > 0.0
  {
    Trunc(a / m)
  }

  lemma MulNonPositive(a: real, b: real)
    requires a >= 0.0 && b <= 0.0
    ensures a * b <= 0.0
  {
  }

  /** A remainder that equals m * f for a fraction f of either sign. */
  lemma FractionRemainder(d: real, m: real, f: real)
    requires m > 0.0 && d == m * f && -1.0 < f < 1.0
    ensures -m < d < m
    ensures f >= 0.0 ==> d >= 0.0
    ensures f <= 0.0 ==> d <= 0.0
  {
    MulFractionBounds(m, f);
    assert -m < d < m;
    if f >= 0.0 {
      MulNonNegative(m, f);
    } else {
      MulNonPositive(m, f);
    }
  }

  /** The remainder a - m * t, where t truncates a quotient q of a by m. */
  lemma RemainderFacts(a: real, m: real, q: real, t: int)
    requires m > 0.0 && a == m * q
    requires q >= 0.0 ==> 0.0 <= q - t as real < 1.0
    requires q < 0.0 ==> -1.0 < q - t as real <= 0.0
    ensures -m < a - m * t as real < m
    ensures a >= 0.0 ==> a - m * t as real >= 0.0
    ensures a <= 0.0 ==> a - m * t as real <= 0.0
    ensures 0.0 <= a < m ==> t == 0
    ensures m <= a < m + m ==> t == 1
  {
    QuotientRange(a, m, q);
    var tr := t as real;
    var f := q - tr;
    var mt := m * tr;
    MulSplit(m, q, tr);
    FractionRemainder(a - mt, m, f);
  }

  lemma JsRemFacts(a: real, m: real)
    requires m > 0.0
    ensures -m < a - m * JsQuot(a, m) as real < m
    ensures a >= 0.0 ==> a - m * JsQuot(a, m) as real >= 0.0
    ensures a <= 0.0 ==> a - m * JsQuot(a, m) as real <= 0.0
    ensures 0.0 <= a < m ==> JsQuot(a, m) == 0
    ensures m <= a < m + m ==> JsQuot(a, m) == 1
  {
    QuotientIdentity(a, m);
    RemainderFacts(a, m, a / m, JsQuot(a, m));
  }

  /** JavaScript's remainder `a % m` on numbers: the result has the sign of the
      dividend and a magnitude below the divisor; on [0, m) it is the
      dividend itself and on [m, 2m) the dividend less m. */
  function JsRem(a: real, m: real): (r: real)
    requires m > 0.0
    ensures -m < r < m
    ensures a >= 0.0 ==> r >= 0.0
    ensures a <= 0.0 ==> r <= 0.0
    ensures 0.0 <= a < m ==> r == a
    ensures m <= a < m + m ==> r == a - m
  {
    JsRemFacts(a, m);
    a - m * JsQuot(a, m) as real
  }

  /** One axis of `wrapPosition`: `((v % m) + m) % m`. */
  function WrapCoord(v: real, m: real): (r: real)
    requires m > 0.0
    ensures 0.0 <= r < m
    ensures 0.0 <= v < m ==> r == v
  {
    JsRem(JsRem(v, m) + m, m)
  }

  /** The floored modulo, an independent definition of the same wrap. */
  function FloorMod(v: real, m: real): real
    requires m > 0.0
  {
    v - m * (v / m).Floor as real
  }

  lemma OnlyZeroMultipleInRange(m: real, k: int)
    requires m > 0.0
    requires -m < m * k as real < m
    ensures k == 0
  {
  }

  /** Two residues of one value in [0, m) that differ from it by whole
      multiples of m are equal. */
  lemma ResiduesAgree(v: real, m: real, i: int, j: int)
    requires m > 0.0
    requires 0.0 <= v - m * i as real < m
    requires 0.0 <= v - m * j as real < m
    ensures i == j
  {
    var a := m * i as real;
    var b := m * j as real;
    var c := m * (j - i) as real;
    MulSplit(m, j as real, i as real);
    assert b - a == c;
    OnlyZeroMultipleInRange(m, j - i);
  }

  /** The wrap differs from its input by a whole multiple of m. */
  lemma WrapIsShift(v: real, m: real) returns (k: int)
    requires m > 0.0
    ensures WrapCoord(v, m) == v - m * k as real
  {
    var t := JsQuot(v, m);
    var r := JsRem(v, m);
    assert r == v - m * t as real;
    if r < 0.0 {
      // r + m lies in [0, m), so the outer remainder keeps it.
      assert WrapCoord(v, m) == r + m;
      k := t - 1;
      MulSplit(m, t as real, 1.0);
    } else {
      // r + m lies in [m, 2m), so the outer remainder takes m off again.
      assert WrapCoord(v, m) == r;
      k := t;
    }
  }

  /** v minus the floor of v / m whole multiples of m lies in [0, m). */
  lemma FloorResidue(v: real, m: real) returns (f: int)
    requires m > 0.0
    ensures f == (v / m).Floor
    ensures 0.0 <= v - m * f as real < m
  {
    var q := v / m;
    f := q.Floor;
    QuotientIdentity(v, m);
    var fr := f as real;
    var mf := m * fr;
    MulSplit(m, q, fr);
    FractionRemainder(v - mf, m, q - fr);
  }

  /** The wrap of the source agrees with the floored modulo on every input. */
  lemma WrapIsFloorMod(v: real, m: real)
    requires m > 0.0
    ensures WrapCoord(v, m) == FloorMod(v, m)
  {
    var k := WrapIsShift(v, m);
    var f := FloorResidue(v, m);
    ResiduesAgree(v, m, k, f);
  }
}
