/**
 * Poses and the linear interpolation that moves a part of a solid between its
 * folded pose (progress 0) and its unfolded pose (progress 1).
 *
 * Coordinates and angles are exact reals. Angles are measured in quarter
 * turns: a value k stands for k * pi/2 radians. Interpolation is linear, so it
 * commutes with that fixed change of unit (LerpScales).
 */
module Geometry {

  datatype Vec3 = Vec3(x: real, y: real, z: real)

  /** A rigid transform: a position and Euler angles (in quarter turns). */
  datatype Pose = Pose(position: Vec3, rotation: Vec3)

  const Origin: Vec3 := Vec3(0.0, 0.0, 0.0)

  function Min(a: real, b: real): real { if a <= b then a else b }

  function Max(a: real, b: real): real { if a <= b then b else a }

  /** No element of the sequence occurs twice. */
  ghost predicate DistinctSeq<T>(s: seq<T>)
  {
    forall i, j :: 0 <= i < j < |s| ==> s[i] != s[j]
  }

  /** Displacement of u by v; displacing by the origin leaves u where it is. */
  function Add(u: Vec3, v: Vec3): (r: Vec3)
    ensures r.x - u.x == v.x && r.y - u.y == v.y && r.z - u.z == v.z
    ensures v == Origin ==> r == u
  {
    Vec3(u.x + v.x, u.y + v.y, u.z + v.z)
  }

  /**
   * `a + (b - a) * p`: the value a fraction p of the way from a to b. It is
   * exactly a at p = 0, exactly b at p = 1, and never leaves the segment
   * between them while p stays in [0, 1].
   */
  function Lerp(a: real, b: real, p: real): (r: real)
    ensures p == 0.0 ==> r == a
    ensures p == 1.0 ==> r == b
    ensures 0.0 <= p <= 1.0 ==> Min(a, b) <= r <= Max(a, b)
  {
    LerpBetween(a, b, p);
    a + (b - a) * p
  }

  lemma LerpBetween(a: real, b: real, p: real)
    ensures 0.0 <= p <= 1.0 ==> Min(a, b) <= a + (b - a) * p <= Max(a, b)
  {
    if 0.0 <= p <= 1.0 {
      var d := b - a;
      assert d * (1.0 - p) == d - d * p;
      if a <= b {
        MulNonNegative(d, p);
        MulNonNegative(d, 1.0 - p);
      } else {
        MulNonNegative(-d, p);
        MulNonNegative(-d, 1.0 - p);
      }
    }
  }

  lemma MulNonNegative(x: real, y: real)
    requires 0.0 <= x && 0.0 <= y
    ensures 0.0 <= x * y
  {
  }

  /** Moving further along (a larger p) moves towards b, never back. */
  lemma LerpMonotone(a: real, b: real, p: real, q: real)
    requires p <= q
    ensures a <= b ==> Lerp(a, b, p) <= Lerp(a, b, q)
    ensures b <= a ==> Lerp(a, b, q) <= Lerp(a, b, p)
  {
    var d := b - a;
    assert Lerp(a, b, q) - Lerp(a, b, p) == d * (q - p);
    if a <= b {
      MulNonNegative(d, q - p);
    } else {
      MulNonNegative(-d, q - p);
    }
  }

  /** Interpolation does not depend on the unit: scaling both ends scales the result. */
  lemma LerpScales(c: real, a: real, b: real, p: real)
    ensures Lerp(c * a, c * b, p) == c * Lerp(a, b, p)
  {
    assert (c * b - c * a) * p == c * ((b - a) * p);
  }

  function LerpVec(u: Vec3, v: Vec3, p: real): (r: Vec3)
    ensures p == 0.0 ==> r == u
    ensures p == 1.0 ==> r == v
  {
    Vec3(Lerp(u.x, v.x, p), Lerp(u.y, v.y, p), Lerp(u.z, v.z, p))
  }

  /** Componentwise: every coordinate lies between its two end values. */
  ghost predicate Between(u: Vec3, v: Vec3, w: Vec3)
  {
    && Min(u.x, v.x) <= w.x <= Max(u.x, v.x)
    && Min(u.y, v.y) <= w.y <= Max(u.y, v.y)
    && Min(u.z, v.z) <= w.z <= Max(u.z, v.z)
  }

  /**
   * The displayed pose of a part at progress p: position and rotation are
   * interpolated independently and componentwise.
   */
  function Interpolate(folded: Pose, unfolded: Pose, p: real): (r: Pose)
    ensures p == 0.0 ==> r == folded
    ensures p == 1.0 ==> r == unfolded
    ensures 0.0 <= p <= 1.0 ==>
      Between(folded.position, unfolded.position, r.position) &&
      Between(folded.rotation, unfolded.rotation, r.rotation)
  {
    Pose(LerpVec(folded.position, unfolded.position, p),
         LerpVec(folded.rotation, unfolded.rotation, p))
  }
}
