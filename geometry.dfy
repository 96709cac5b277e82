/** Plane geometry used by the motion rules.
    The program computes headings with numpy's arctan2, cos and sin on
    floating-point numbers.  Here coordinates are exact reals, and the three
    trigonometric functions and pi are handed in as a `Trig` value about which
    nothing is known: every property proved below holds whatever they return. */
module Geometry {

  /** The trigonometric primitives the motion rules call. */
  datatype Trig = Trig(atan2: (real, real) -> real, cos: real -> real, sin: real -> real, pi: real)

  function Atan2(g: Trig, y: real, x: real): real { g.atan2(y, x) }

  function Cos(g: Trig, a: real): real { g.cos(a) }

  function Sin(g: Trig, a: real): real { g.sin(a) }

  function Min(a: real, b: real): real { if a <= b then a else b }

  function Max(a: real, b: real): real { if a >= b then a else b }

  /** numpy.clip(v, lo, hi), defined as minimum(maximum(v, lo), hi); when
      lo > hi it yields hi. */
  function Clip(v: real, lo: real, hi: real): (r: real)
    ensures lo <= hi ==> lo <= r <= hi
    ensures lo <= v <= hi ==> r == v
    ensures lo <= hi && v < lo ==> r == lo
    ensures v > hi ==> r == hi
    ensures hi < lo ==> r == hi
  {
    Min(Max(v, lo), hi)
  }

  /** One coordinate of a step of length `speed` along a direction whose
      cosine or sine is `dir`, clamped into [lo, hi]. */
  function ClampedStep(v: real, speed: real, dir: real, lo: real, hi: real): real
  {
    Clip(v + speed * dir, lo, hi)
  }

  /** The point lies in [1, width - 1] x [1, height - 1], the part of the
      world the program clamps every agent into. */
  predicate InBounds(x: real, y: real, width: real, height: real)
  {
    1.0 <= x <= width - 1.0 && 1.0 <= y <= height - 1.0
  }

  function Sq(a: real): real { a * a }

  /** Squared Euclidean distance.  Since the square root is monotonic,
      `euclidean(p, q) < t` is the same test as `SqDist(p, q) < t * t` for t > 0. */
  function SqDist(x1: real, y1: real, x2: real, y2: real): (r: real)
    ensures r >= 0.0
  {
    var dx, dy := x1 - x2, y1 - y2;
    assert Sq(dx) >= 0.0 && Sq(dy) >= 0.0;
    Sq(dx) + Sq(dy)
  }
}
