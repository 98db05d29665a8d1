/** An infinite plane through `point` with normal `normal` (`Plane::intersect_all`). */
module Planes {
  import opened Math
  import opened Core
  import opened Wrappers

  datatype Plane = Plane(point: Vec3, normal: Vec3, material: Material)

  /** Below this `|N·D|` the ray counts as parallel to the plane. */
  const ParallelEpsilon: real := 0.000001

  /** `p` lies on the plane: `(p - point)·normal == 0`. */
  predicate OnPlane(plane: Plane, p: Vec3)
  {
    Dot(Sub(p, plane.point), plane.normal) == 0.0
  }

  /** The signed height of the ray's point at `t` over the plane grows
      linearly in `t` at rate `D·N`. */
  lemma HeightAlongRay(plane: Plane, ray: Ray, t: real)
    ensures Dot(Sub(At(ray, t), plane.point), plane.normal)
            == Dot(Sub(ray.origin, plane.point), plane.normal) + t * Dot(plane.normal, ray.direction)
  {
  }

  /** The single crossing of the ray with the plane: `None` when the ray is
      (nearly) parallel to it or the crossing lies outside `[tMin, tMax]`. */
  function IntersectAll(plane: Plane, ray: Ray, tMin: real, tMax: Bound): (r: Option<seq<HitRecord>>)
    ensures Abs(Dot(plane.normal, ray.direction)) < ParallelEpsilon ==> r == None
    ensures r.Some? ==>
              && |r.value| == 1
              && var h := r.value[0];
              && AllWithin(r.value, tMin, tMax)
              && h.point == At(ray, h.t)
              && OnPlane(plane, h.point)
              && h.material == plane.material
              && (h.frontFace <==> Dot(ray.direction, plane.normal) < 0.0)
              && (h.normal == plane.normal || h.normal == Neg(plane.normal))
              && Dot(ray.direction, h.normal) < 0.0
  {
    var denom := Dot(plane.normal, ray.direction);
    if Abs(denom) < ParallelEpsilon then None
    else
      var t := Dot(Sub(plane.point, ray.origin), plane.normal) / denom;
      if t < tMin || !AtMost(t, tMax) then None
      else
        var point := At(ray, t);
        HeightAlongRay(plane, ray, t);
        assert t * denom == Dot(Sub(plane.point, ray.origin), plane.normal);
        var h := FacingHit(ray, t, point, plane.normal, plane.material);
        DotNeg(ray.direction, plane.normal);
        Some([h])
  }

  /** When the ray is not parallel to the plane, `None` means that no point of
      the ray with `t` in `[tMin, tMax]` lies on the plane. */
  lemma {:induction false} MissMeansNoCrossing(plane: Plane, ray: Ray, tMin: real, tMax: Bound, t: real)
    requires Abs(Dot(plane.normal, ray.direction)) >= ParallelEpsilon
    requires IntersectAll(plane, ray, tMin, tMax) == None
    requires tMin <= t && AtMost(t, tMax)
    ensures !OnPlane(plane, At(ray, t))
  {
    HeightAlongRay(plane, ray, t);
  }
}
