/**
 * Three-component vectors over `real`, standing in for Unity.Mathematics
 * `double3` and UnityEngine `Vector3`, and the linear interpolation
 * `math.lerp(x, y, s) = x + s * (y - x)` used for position smoothing.
 */
module Geometry {
  datatype Vec3 = Vec3(x: real, y: real, z: real)

  function Lerp1(a: real, b: real, s: real): real {
    a + s * (b - a)
  }

  /** Component-wise `math.lerp`. */
  function Lerp(a: Vec3, b: Vec3, s: real): Vec3 {
    Vec3(Lerp1(a.x, b.x, s), Lerp1(a.y, b.y, s), Lerp1(a.z, b.z, s))
  }

  function Abs(r: real): real { if r < 0.0 then -r else r }

  function Min(a: real, b: real): real { if a < b then a else b }

  function Max(a: real, b: real): real { if a > b then a else b }

  /** `r` lies on the closed segment between `a` and `b`. */
  predicate Between(a: real, r: real, b: real) {
    Min(a, b) <= r <= Max(a, b)
  }

  /** Repeated multiplication: `Pow(q, n) = q^n`. */
  function Pow(q: real, n: nat): real {
    if n == 0 then 1.0 else q * Pow(q, n - 1)
  }

  lemma MulNonNeg(x: real, y: real)
    requires 0.0 <= x && 0.0 <= y
    ensures 0.0 <= x * y
  {
  }

  lemma MulNonPos(x: real, y: real)
    requires 0.0 <= x && y <= 0.0
    ensures x * y <= 0.0
  {
    MulNonNeg(x, -y);
  }

  lemma MulAtMost(x: real, y: real)
    requires 0.0 <= x <= 1.0 && 0.0 <= y
    ensures x * y <= y
  {
    MulNonNeg(1.0 - x, y);
    assert (1.0 - x) * y == y - x * y;
  }

  lemma MulAtLeast(x: real, y: real)
    requires 0.0 <= x <= 1.0 && y <= 0.0
    ensures y <= x * y
  {
    MulNonPos(1.0 - x, y);
    assert (1.0 - x) * y == y - x * y;
  }

  /** The blend seen from each end of the segment. */
  lemma LerpGaps(a: real, b: real, s: real)
    ensures Lerp1(a, b, s) - a == s * (b - a)
    ensures b - Lerp1(a, b, s) == (1.0 - s) * (b - a)
  {
  }

  /** One scalar blend step with a factor in [0, 1] never leaves the segment [a, b]. */
  lemma LerpStaysBetween(a: real, b: real, s: real)
    requires 0.0 <= s <= 1.0
    ensures Between(a, Lerp1(a, b, s), b)
  {
    LerpGaps(a, b, s);
    if a <= b {
      MulNonNeg(s, b - a);
      MulNonNeg(1.0 - s, b - a);
    } else {
      MulNonPos(s, b - a);
      MulNonPos(1.0 - s, b - a);
    }
  }

  /** The gap to the target shrinks by exactly the factor `1 - s`. */
  lemma LerpGap(a: real, b: real, s: real)
    ensures Lerp1(a, b, s) - b == (1.0 - s) * (a - b)
  {
  }

  /** A factor of 1 reaches the target in one step. */
  lemma LerpFull(a: Vec3, b: Vec3)
    ensures Lerp(a, b, 1.0) == b
  {
  }

  /** The vector blend never overshoots on any axis. */
  lemma LerpNoOvershoot(a: Vec3, b: Vec3, s: real)
    requires 0.0 <= s <= 1.0
    ensures var r := Lerp(a, b, s);
      Between(a.x, r.x, b.x) && Between(a.y, r.y, b.y) && Between(a.z, r.z, b.z)
  {
    LerpStaysBetween(a.x, b.x, s);
    LerpStaysBetween(a.y, b.y, s);
    LerpStaysBetween(a.z, b.z, s);
  }

  /** `n` blend steps of one scalar toward a fixed target. */
  function Smooth(a: real, b: real, s: real, n: nat): real {
    if n == 0 then a else Lerp1(Smooth(a, b, s, n - 1), b, s)
  }

  lemma MulAssoc(q: real, p: real, d: real)
    ensures q * (p * d) == (q * p) * d
  {
  }

  /**
   * Exponential convergence: after `n` steps toward a fixed target the gap
   * is the initial gap scaled by `(1 - s)^n`.
   */
  lemma {:induction false} SmoothGap(a: real, b: real, s: real, n: nat)
    ensures Smooth(a, b, s, n) - b == Pow(1.0 - s, n) * (a - b)
  {
    if n > 0 {
      var x, q := Smooth(a, b, s, n - 1), 1.0 - s;
      var p := Pow(q, n - 1);
      SmoothGap(a, b, s, n - 1);
      LerpGap(x, b, s);
      MulAssoc(q, p, a - b);
      assert Smooth(a, b, s, n) - b == q * (x - b);
    }
  }

  /**
   * With a factor in [0, 1] repeated smoothing never overshoots: the gap to
   * the target keeps the sign it started with and never grows.
   */
  lemma {:induction false} SmoothMonotone(a: real, b: real, s: real, n: nat)
    requires 0.0 <= s <= 1.0
    ensures Abs(Smooth(a, b, s, n + 1) - b) <= Abs(Smooth(a, b, s, n) - b)
    ensures a >= b ==> Smooth(a, b, s, n) >= b
    ensures a <= b ==> Smooth(a, b, s, n) <= b
  {
    if n > 0 {
      var h := Smooth(a, b, s, n - 1) - b;
      SmoothMonotone(a, b, s, n - 1);
      LerpGap(Smooth(a, b, s, n - 1), b, s);
      assert Smooth(a, b, s, n) - b == (1.0 - s) * h;
      if h >= 0.0 {
        MulNonNeg(1.0 - s, h);
      } else {
        MulNonPos(1.0 - s, h);
      }
    }
    var g := Smooth(a, b, s, n) - b;
    LerpGap(Smooth(a, b, s, n), b, s);
    assert Smooth(a, b, s, n + 1) - b == (1.0 - s) * g;
    if g >= 0.0 {
      MulNonNeg(1.0 - s, g);
      MulAtMost(1.0 - s, g);
    } else {
      MulNonPos(1.0 - s, g);
      MulAtLeast(1.0 - s, g);
    }
  }
}
