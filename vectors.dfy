/**
 * The parts of THREE.Vector3 that the tour's camera logic relies on, over exact reals
 * (the renderer uses 32/64-bit floats; rounding is not modelled).
 */
module Vectors {

  datatype Vec3 = Vec3(x: real, y: real, z: real)

  const Zero := Vec3(0.0, 0.0, 0.0)

  function Add(a: Vec3, b: Vec3): Vec3 {
    Vec3(a.x + b.x, a.y + b.y, a.z + b.z)
  }

  function Sub(a: Vec3, b: Vec3): Vec3 {
    Vec3(a.x - b.x, a.y - b.y, a.z - b.z)
  }

  function Scale(k: real, v: Vec3): Vec3 {
    Vec3(k * v.x, k * v.y, k * v.z)
  }

  function Dot(a: Vec3, b: Vec3): real {
    a.x * b.x + a.y * b.y + a.z * b.z
  }

  function Cross(a: Vec3, b: Vec3): Vec3 {
    Vec3(a.y * b.z - a.z * b.y, a.z * b.x - a.x * b.z, a.x * b.y - a.y * b.x)
  }

  /** Squared Euclidean length. */
  function Norm2(v: Vec3): real {
    Dot(v, v)
  }

  lemma MulNonNegative(a: real, b: real)
    requires a >= 0.0 && b >= 0.0
    ensures a * b >= 0.0
  {
  }

  lemma MulPositive(a: real, b: real, p: real)
    requires a > 0.0 && b > 0.0 && p == a * b
    ensures p > 0.0
  {
  }

  /** `sq` is the square of `x`; it is positive unless `x` is zero. */
  lemma SquarePositive(x: real, sq: real)
    requires sq == x * x
    ensures sq >= 0.0
    ensures x != 0.0 ==> sq > 0.0
  {
    if x < 0.0 {
      assert x * x == (-x) * (-x);
      MulPositive(-x, -x, sq);
    } else if x > 0.0 {
      MulPositive(x, x, sq);
    }
  }

  /** Only the zero vector has squared length zero. */
  lemma Norm2Positive(v: Vec3)
    ensures Norm2(v) >= 0.0
    ensures v != Zero ==> Norm2(v) > 0.0
  {
    SquarePositive(v.x, v.x * v.x);
    SquarePositive(v.y, v.y * v.y);
    SquarePositive(v.z, v.z * v.z);
  }

  /**
   * One coordinate of `lerp`/`lerpVectors`: `a + (b - a) * t`.
   * For `t` in [0,1] the value lies between the two ends.
   */
  function LerpReal(a: real, b: real, t: real): (r: real)
    ensures t == 0.0 ==> r == a
    ensures t == 1.0 ==> r == b
    ensures a == b ==> r == a
    ensures 0.0 <= t <= 1.0 && a <= b ==> a <= r <= b
    ensures 0.0 <= t <= 1.0 && b <= a ==> b <= r <= a
  {
    LerpBetween(a, b, t);
    a + (b - a) * t
  }

  lemma LerpBetween(a: real, b: real, t: real)
    ensures 0.0 <= t <= 1.0 && a <= b ==> 0.0 <= (b - a) * t <= b - a
    ensures 0.0 <= t <= 1.0 && b <= a ==> b - a <= (b - a) * t <= 0.0
  {
    if 0.0 <= t <= 1.0 {
      assert (b - a) - (b - a) * t == (b - a) * (1.0 - t);
      if a <= b {
        MulNonNegative(b - a, t);
        MulNonNegative(b - a, 1.0 - t);
      } else {
        MulNonNegative(a - b, t);
        MulNonNegative(a - b, 1.0 - t);
        assert (a - b) * t == -((b - a) * t);
        assert (a - b) * (1.0 - t) == -((b - a) * (1.0 - t));
      }
    }
  }

  /** `new Vector3().lerpVectors(a, b, t)` and `a.lerp(b, t)`, coordinate by coordinate. */
  function Lerp(a: Vec3, b: Vec3, t: real): (r: Vec3)
    ensures t == 0.0 ==> r == a
    ensures t == 1.0 ==> r == b
    ensures a == b ==> r == a
    ensures Sub(r, a) == Scale(t, Sub(b, a))
  {
    Vec3(LerpReal(a.x, b.x, t), LerpReal(a.y, b.y, t), LerpReal(a.z, b.z, t))
  }

  /** `len` is the Euclidean length of `v` (what `Math.sqrt` returns inside `v.length()`). */
  ghost predicate IsLength(v: Vec3, len: real) {
    len >= 0.0 && len * len == Norm2(v)
  }

  /**
   * `v.normalize()`, which divides by `v.length() || 1`: a zero vector stays zero,
   * any other vector becomes the unit vector pointing the same way.
   */
  function Normalize(v: Vec3, len: real): (n: Vec3)
    requires IsLength(v, len)
    ensures len == 0.0 ==> n == Zero
    ensures len > 0.0 ==> Norm2(n) == 1.0
    ensures Cross(n, v) == Zero
    ensures Dot(n, v) == len
  {
    if len == 0.0 then
      Norm2Positive(v);
      v
    else
      var k := 1.0 / len;
      assert k * len == 1.0;
      ScaleNorm2(k, v);
      ScaleDot(k, v, v);
      ScaleCross(k, v, v);
      assert Norm2(Scale(k, v)) == (k * len) * (k * len);
      Scale(k, v)
  }

  lemma ScaleNorm2(k: real, v: Vec3)
    ensures Norm2(Scale(k, v)) == (k * k) * Norm2(v)
  {
  }

  lemma ScaleDot(k: real, a: Vec3, b: Vec3)
    ensures Dot(Scale(k, a), b) == k * Dot(a, b)
  {
  }

  lemma ScaleCross(k: real, a: Vec3, b: Vec3)
    ensures Cross(Scale(k, a), b) == Scale(k, Cross(a, b))
  {
    assert Cross(Scale(k, a), b).x == k * Cross(a, b).x by {
      ScaleMinor(k, a.y, b.z, a.z, b.y);
    }
    assert Cross(Scale(k, a), b).y == k * Cross(a, b).y by {
      ScaleMinor(k, a.z, b.x, a.x, b.z);
    }
    assert Cross(Scale(k, a), b).z == k * Cross(a, b).z by {
      ScaleMinor(k, a.x, b.y, a.y, b.x);
    }
  }

  /** One component of a cross product, with the first factor scaled. */
  lemma ScaleMinor(k: real, p: real, q: real, r: real, s: real)
    ensures (k * p) * q - (k * r) * s == k * (p * q - r * s)
  {
  }

  /** Scaling a vector keeps it parallel to whatever it was parallel to. */
  lemma ScaleKeepsParallel(k: real, a: Vec3, b: Vec3)
    requires Cross(a, b) == Zero
    ensures Cross(Scale(k, a), b) == Zero
  {
    ScaleCross(k, a, b);
  }

  /** The point `k` units from `p` along the direction `dir`: `p.clone().add(dir.multiplyScalar(k))`. */
  function Ahead(p: Vec3, dir: Vec3, k: real): Vec3 {
    Add(p, Scale(k, dir))
  }

  /** Along a unit direction, the point `k` units ahead lies at distance `|k|` (squared: `k * k`). */
  lemma AheadDistance(p: Vec3, dir: Vec3, k: real)
    requires Norm2(dir) == 1.0
    ensures Norm2(Sub(Ahead(p, dir, k), p)) == k * k
  {
  }

  /**
   * `target` is the look-at point that faces onward on arrival at `to` coming from
   * `from`: it lies 0.01 units beyond `to`, on the ray from `from` through `to`
   * (and on `to` itself when the two positions coincide).
   */
  ghost predicate FacesOnward(from: Vec3, to: Vec3, target: Vec3) {
    var d := Sub(target, to);
    var v := Sub(to, from);
    Cross(d, v) == Zero
    && (v == Zero ==> d == Zero)
    && (v != Zero ==> Norm2(d) == 0.01 * 0.01 && Dot(d, v) > 0.0)
  }
}
