/** Parallel-beam ray tracing (source/back_projection/RayTracer.hpp).

    A point is (z, y, x); the projection plane is the y-z plane rotated
    about z, with its u axis along z and its v axis in the x-y plane.
    `reverse_normal` is the normal of the rays reflected about the x axis,
    (-n0, n1) for the normal (n0, n1). */
module RayTracer {

  /** ParallelRayTracer::Intersect(position, reverse_normal). */
  function Intersect(p: seq<real>, rn: seq<real>): (uv: seq<real>)
    requires |p| == 3 && |rn| == 2
    ensures |uv| == 2 && uv[0] == p[0]
  {
    [p[0], rn[0] * p[2] + rn[1] * p[1]]
  }

  /** The ray through p, perpendicular to the projection: its points differ
      from p by t times a direction (dy, dx) orthogonal to the reversed
      normal. */
  predicate OnRay(p: seq<real>, q: seq<real>, rn: seq<real>)
    requires |p| == |q| == 3 && |rn| == 2
  {
    q[0] == p[0] && rn[0] * (q[2] - p[2]) + rn[1] * (q[1] - p[1]) == 0.0
  }

  /** Every point of a ray meets the projection at the same place. */
  lemma {:induction false} RayMeetsOnce(p: seq<real>, q: seq<real>, rn: seq<real>)
    requires |p| == |q| == 3 && |rn| == 2 && OnRay(p, q, rn)
    ensures Intersect(q, rn) == Intersect(p, rn)
  {
    assert rn[0] * q[2] + rn[1] * q[1]
        == rn[0] * p[2] + rn[1] * p[1] + (rn[0] * (q[2] - p[2]) + rn[1] * (q[1] - p[1]));
  }

  /** Points on the rotation axis (y = x = 0) meet the projection at v = 0,
      whatever the angle. */
  lemma {:induction false} AxisMapsToCentre(z: real, rn: seq<real>)
    requires |rn| == 2
    ensures Intersect([z, 0.0, 0.0], rn) == [z, 0.0]
  {
  }

  /** The intersection is linear in the position (its first coordinate
      trivially so). */
  lemma {:induction false} IntersectLinear(p: seq<real>, q: seq<real>, a: real, b: real, rn: seq<real>)
    requires |p| == |q| == 3 && |rn| == 2
    ensures var s := [a * p[0] + b * q[0], a * p[1] + b * q[1], a * p[2] + b * q[2]];
            Intersect(s, rn)[1] == a * Intersect(p, rn)[1] + b * Intersect(q, rn)[1]
  {
    var c, d := rn[0], rn[1];
    assert c * (a * p[2] + b * q[2]) + d * (a * p[1] + b * q[1])
        == a * (c * p[2] + d * p[1]) + b * (c * q[2] + d * q[1]);
  }

  /** OnXAxis2, OnYAxis1 and AtOneOne3 of the ray tracer tests; h stands
      for 1/sqrt(2). */
  lemma {:induction false} RayTracerExamples(h: real)
    ensures Intersect([1.5, 0.0, 1.0], [-1.0, 0.0]) == [1.5, -1.0]
    ensures Intersect([1.5, 1.0, 0.0], [0.0, 1.0]) == [1.5, 1.0]
    ensures Intersect([1.5, 1.0, 1.0], [-h, h]) == [1.5, 0.0]
  {
  }
}
