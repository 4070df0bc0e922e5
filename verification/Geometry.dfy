/** The arithmetic of a monster's step: truncation toward zero, the range test and the chase. Distances, cosines and
    sines are exact reals given by the equations that determine them. */
module Geometry {

  const STEP := 150
  const RADIUS := 200

  /** Conversion of a double to int32. */
  function Trunc(x: real): int
  {
    if x >= 0.0 then x.Floor else -((-x).Floor)
  }

  /** d: the length of (dx, dy). c, s: the cosine and sine of its angle. */
  datatype Aim = Aim(c: real, s: real, d: real)

  function SquaredLength(dx: int, dy: int): int { dx * dx + dy * dy }

  ghost predicate IsAim(a: Aim, dx: int, dy: int)
  {
    && a.d >= 0.0 && a.d * a.d == SquaredLength(dx, dy) as real
    && a.c * a.d == dx as real && a.s * a.d == dy as real
    && IsDirection(a)
  }

  ghost predicate IsDirection(a: Aim) { a.c * a.c + a.s * a.s == 1.0 }

  /** CheckAttackTarget: the distance is truncated before it is compared. */
  predicate InRange(a: Aim) { RADIUS >= a.d.Floor }

  function Advance(x: int, c: real): int { Trunc(x as real + STEP as real * c) }

  lemma MulLess(x: real, y: real, z: real)
    requires x < y && z > 0.0
    ensures x * z < y * z
  {
    assert (y - x) * z > 0.0;
  }

  lemma MulLeq(x: real, y: real, z: real)
    requires x <= y && z >= 0.0
    ensures x * z <= y * z
  {
    assert (y - x) * z >= 0.0;
  }

  lemma SquareOrder(a: real, b: real)
    requires 0.0 <= a && 0.0 <= b
    ensures a < b <==> a * a < b * b
  {
    if a < b {
      calc {
        a * a;
      <= { MulLeq(a, b, a); }
        b * a;
      ==
        a * b;
      <  { MulLess(a, b, b); }
        b * b;
      }
    } else {
      MulLeq(b, a, a);
      MulLeq(b, a, b);
    }
  }

  lemma SameSquare(a: real, b: real)
    requires a == b
    ensures a * a == b * b
  {
  }

  lemma LengthAsReal(dx: int, dy: int)
    ensures SquaredLength(dx, dy) as real == dx as real * dx as real + dy as real * dy as real
  {
  }

  lemma TruncIsClose(x: real)
    ensures -1.0 < Trunc(x) as real - x < 1.0
    ensures x >= 0.0 ==> 0.0 <= Trunc(x) as real <= x
    ensures x <= 0.0 ==> x <= Trunc(x) as real <= 0.0
  {
  }

  /** The truncated distance is at most 200 exactly when the squared distance is below 201 squared. */
  lemma RangeTest(a: Aim, dx: int, dy: int)
    requires IsAim(a, dx, dy)
    ensures InRange(a) <==> SquaredLength(dx, dy) < 40401
  {
    hide SquaredLength;
    SquareOrder(a.d, 201.0);
  }

  /** One coordinate of a chase that does not overshoot stays between -half and half when it and its target are
      there. */
  lemma ChaseStaysInside(x: int, tx: int, c: real, d: real, half: int)
    requires -half <= x <= half && -half <= tx <= half
    requires d >= STEP as real && c * d == (tx - x) as real
    ensures -half <= Advance(x, c) <= half
  {
    var y := x as real + STEP as real * c;
    if c >= 0.0 {
      assert STEP as real * c <= d * c;
      assert x as real <= y <= tx as real;
    } else {
      assert STEP as real * c >= d * c;
      assert tx as real <= y <= x as real;
    }
    TruncIsClose(y);
  }

  lemma SquareBelow(p: real, b: real)
    requires b > 0.0 && p * p < b * b
    ensures p < b
  {
    if p >= b { SquareOrder(p, b); }
  }

  lemma Lagrange(c: real, s: real, ex: real, ey: real)
    requires c * c + s * s == 1.0
    ensures (c * ex + s * ey) * (c * ex + s * ey) <= ex * ex + ey * ey
  {
    var p, q := c * ex + s * ey, c * ey - s * ex;
    assert p * p + q * q == (c * c + s * s) * (ex * ex + ey * ey);
    assert q * q >= 0.0;
  }

  lemma SmallSquare(e: real)
    requires -1.0 < e < 1.0
    ensures e * e < 1.0
  {
    SquareOrder(if e < 0.0 then -e else e, 1.0);
  }

  lemma Complete(r: real, p: real, e: real, k: real)
    requires p < 1.42 && r >= 0.0 && e < 2.0 && k == r + 1.42
    ensures r * r + 2.0 * (p * r) + e < k * k
  {
    MulLeq(p, 1.42, r);
    SameSquare(k, r + 1.42);
    assert (r + 1.42) * (r + 1.42) == r * r + 2.84 * r + 2.0164;
  }

  lemma ProjectedError(c: real, s: real, ex: real, ey: real)
    requires c * c + s * s == 1.0 && -1.0 < ex < 1.0 && -1.0 < ey < 1.0
    ensures ex * ex + ey * ey < 2.0 && c * ex + s * ey < 1.42
  {
    SmallSquare(ex);
    SmallSquare(ey);
    Lagrange(c, s, ex, ey);
    SquareBelow(c * ex + s * ey, 1.42);
  }

  lemma Expand(c: real, s: real, r: real, ex: real, ey: real)
    requires c * c + s * s == 1.0
    ensures var x, y := c * r + ex, s * r + ey;
            x * x + y * y == r * r + 2.0 * ((c * ex + s * ey) * r) + (ex * ex + ey * ey)
  {
    assert (c * r + ex) * (c * r + ex) == c * c * (r * r) + 2.0 * (r * (c * ex)) + ex * ex;
    assert (s * r + ey) * (s * r + ey) == s * s * (r * r) + 2.0 * (r * (s * ey)) + ey * ey;
    assert c * c * (r * r) + s * s * (r * r) == (c * c + s * s) * (r * r);
  }

  /** A unit vector shortened to d - 150, with two errors below one, is shorter than d - 148.58. */
  lemma ErrorIsBounded(c: real, s: real, d: real, ex: real, ey: real, x: real, y: real, after: real)
    requires c * c + s * s == 1.0 && d >= 201.0 && -1.0 < ex < 1.0 && -1.0 < ey < 1.0
    requires x == c * (d - 150.0) + ex && y == s * (d - 150.0) + ey
    requires after >= 0.0 && after * after == x * x + y * y
    ensures after < d - 148.58
  {
    var r := d - 150.0;
    var p, e := c * ex + s * ey, ex * ex + ey * ey;
    ProjectedError(c, s, ex, ey);
    SameSquare(x, c * r + ex);
    SameSquare(y, s * r + ey);
    Expand(c, s, r, ex, ey);
    Complete(r, p, e, d - 148.58);
    SquareBelow(after, d - 148.58);
  }

  /** One coordinate: what is left is the old difference shortened by 150 of d, up to a truncation error e. */
  lemma Remainder(x: int, tx: int, c: real, d: real) returns (e: real)
    requires c * d == (tx - x) as real
    ensures -1.0 < e < 1.0 && (tx - Advance(x, c)) as real == c * (d - 150.0) + e
  {
    var p := x as real + STEP as real * c;
    TruncIsClose(p);
    e := p - Trunc(p) as real;
    assert c * (d - 150.0) == c * d - 150.0 * c;
  }

  lemma AimLength(a: Aim, dx: int, dy: int)
    requires IsAim(a, dx, dy)
    ensures a.d >= 0.0 && a.d * a.d == dx as real * dx as real + dy as real * dy as real
  {
    LengthAsReal(dx, dy);
  }

  /** A chase step taken out of range brings the monster at least 148.58 nearer, truncation included. */
  lemma ChaseNears(x: int, y: int, tx: int, ty: int, a: Aim, b: Aim)
    requires IsAim(a, tx - x, ty - y) && !InRange(a)
    requires IsAim(b, tx - Advance(x, a.c), ty - Advance(y, a.s))
    ensures b.d < a.d - 148.58
  {
    hide *;
    var ux, uy := tx - Advance(x, a.c), ty - Advance(y, a.s);
    AimLength(b, ux, uy);
    OutOfRange(a);
    var ex, ey := AimErrors(x, y, tx, ty, a);
    ErrorIsBounded(a.c, a.s, a.d, ex, ey, ux as real, uy as real, b.d);
  }

  lemma OutOfRange(a: Aim)
    ensures !InRange(a) <==> a.d >= 201.0
  {
  }

  lemma AimErrors(x: int, y: int, tx: int, ty: int, a: Aim) returns (ex: real, ey: real)
    requires IsAim(a, tx - x, ty - y)
    ensures a.c * a.c + a.s * a.s == 1.0 && -1.0 < ex < 1.0 && -1.0 < ey < 1.0
    ensures (tx - Advance(x, a.c)) as real == a.c * (a.d - 150.0) + ex
    ensures (ty - Advance(y, a.s)) as real == a.s * (a.d - 150.0) + ey
  {
    ex := Remainder(x, tx, a.c, a.d);
    ey := Remainder(y, ty, a.s, a.d);
  }

  lemma SquareDrop(after: real, d: real)
    requires d >= 201.0 && 0.0 <= after < d - 148.58
    ensures after * after < d * d - 37653.0
  {
    SquareOrder(after, d - 148.58);
    assert (d - 148.58) * (d - 148.58) == d * d - 297.16 * d + 148.58 * 148.58;
  }

  /** So the integer squared distance falls by at least 37653: a measure for the chase. */
  lemma ChaseShrinksSquare(x: int, y: int, tx: int, ty: int, a: Aim, b: Aim)
    requires IsAim(a, tx - x, ty - y) && !InRange(a)
    requires IsAim(b, tx - Advance(x, a.c), ty - Advance(y, a.s))
    ensures var dx, dy := tx - x, ty - y;
            var ux, uy := tx - Advance(x, a.c), ty - Advance(y, a.s);
            SquaredLength(ux, uy) <= SquaredLength(dx, dy) - 37653
  {
    hide SquaredLength, Advance;
    ChaseNears(x, y, tx, ty, a, b);
    SquareDrop(b.d, a.d);
  }

  /** On top of the target any direction will do, and the target is in range. */
  lemma OnTheSpot(a: Aim)
    requires a.d == 0.0 && IsDirection(a)
    ensures IsAim(a, 0, 0) && InRange(a)
  {
    hide SquaredLength, IsDirection;
    ZeroLength();
    TimesZero(a);
  }

  lemma ZeroLength()
    ensures SquaredLength(0, 0) == 0
  {
  }

  lemma TimesZero(a: Aim)
    requires a.d == 0.0
    ensures a.c * a.d == 0.0 && a.s * a.d == 0.0 && a.d * a.d == 0.0
    ensures a.d.Floor == 0
  {
  }

  /** A chase of a target that stands still: the aims of successive steps, each taken out of range. */
  ghost predicate IsChase(x: int, y: int, tx: int, ty: int, aims: seq<Aim>)
    decreases |aims|
  {
    aims == [] ||
    (IsAim(aims[0], tx - x, ty - y) && !InRange(aims[0])
     && IsChase(Advance(x, aims[0].c), Advance(y, aims[0].s), tx, ty, aims[1..]))
  }

  lemma {:induction false} ChaseBound(x: int, y: int, tx: int, ty: int, aims: seq<Aim>)
    requires IsChase(x, y, tx, ty, aims) && aims != []
    ensures aims[0].d >= 201.0 + 148.58 * (|aims| - 1) as real
    decreases |aims|
  {
    if |aims| > 1 {
      var x', y' := Advance(x, aims[0].c), Advance(y, aims[0].s);
      ChaseBound(x', y', tx, ty, aims[1..]);
      ChaseNears(x, y, tx, ty, aims[0], aims[1]);
    }
  }

  lemma SquareBound(n: int)
    requires -4800 < n < 4800
    ensures n * n <= 23040000
  {
    var m: nat := if n >= 0 then n else -n;
    SquareOrder(m as real, 4800.0);
    assert n * n == m * m;
    assert (m * m) as real == m as real * m as real;
  }

  lemma BoundedRoot(d: real, n: int)
    requires d >= 0.0 && d * d == n as real && n <= 46080000
    ensures d < 6789.0
  {
    SquareOrder(d, 6789.0);
    assert 6789.0 * 6789.0 == 46090521.0;
  }

  lemma MapDiagonal(dx: int, dy: int)
    requires -4800 < dx < 4800 && -4800 < dy < 4800
    ensures SquaredLength(dx, dy) <= 46080000
  {
    SquareBound(dx);
    SquareBound(dy);
  }

  /** From anywhere in a map of half-width 2400, at most 45 chase steps reach attack range. */
  lemma ChaseEnds(x: int, y: int, tx: int, ty: int, aims: seq<Aim>)
    requires -2400 <= x <= 2400 && -2400 <= y <= 2400 && -2400 < tx < 2400 && -2400 < ty < 2400
    requires IsChase(x, y, tx, ty, aims)
    ensures |aims| <= 45
  {
    hide SquaredLength, Advance, InRange;
    if aims != [] {
      ChaseBound(x, y, tx, ty, aims);
      MapDiagonal(tx - x, ty - y);
      BoundedRoot(aims[0].d, SquaredLength(tx - x, ty - y));
    }
  }
}
