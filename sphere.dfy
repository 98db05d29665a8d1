/** A sphere (`Sphere::intersect_all`), solved with the half-`b` form of the
    quadratic `a t² + 2 halfB t + c = 0`. */
module Spheres {
  import opened Math
  import opened Core
  import opened Wrappers

  datatype Sphere = Sphere(center: Vec3, radius: real, material: Material)

  /** A discriminant at or below this counts as a tangent: only the near root is tried. */
  const TangentEpsilon: real := 0.000001

  function A(ray: Ray): real { LengthSquared(ray.direction) }

  function HalfB(sp: Sphere, ray: Ray): real { Dot(Sub(ray.origin, sp.center), ray.direction) }

  function C(sp: Sphere, ray: Ray): real
  {
    LengthSquared(Sub(ray.origin, sp.center)) - sp.radius * sp.radius
  }

  function Discriminant(sp: Sphere, ray: Ray): real
  {
    HalfB(sp, ray) * HalfB(sp, ray) - A(ray) * C(sp, ray)
  }

  /** The near root `(-halfB - √disc) / a`. */
  function NearRoot(sp: Sphere, ray: Ray, lib: FloatLib): real
    requires A(ray) != 0.0
  {
    (-HalfB(sp, ray) - lib.sqrt(Discriminant(sp, ray))) / A(ray)
  }

  /** The far root `(-halfB + √disc) / a`. */
  function FarRoot(sp: Sphere, ray: Ray, lib: FloatLib): real
    requires A(ray) != 0.0
  {
    (-HalfB(sp, ray) + lib.sqrt(Discriminant(sp, ray))) / A(ray)
  }

  predicate OnSphere(sp: Sphere, p: Vec3)
  {
    LengthSquared(Sub(p, sp.center)) == sp.radius * sp.radius
  }

  /** `(point - center) / radius` */
  function OutwardNormal(sp: Sphere, p: Vec3): Vec3
    requires sp.radius != 0.0
  {
    Scale(1.0 / sp.radius, Sub(p, sp.center))
  }

  /** The record for a crossing at `t`, its normal turned to face the ray. */
  function HitAt(sp: Sphere, ray: Ray, t: real): HitRecord
    requires sp.radius != 0.0
  {
    var p := At(ray, t);
    FacingHit(ray, t, p, OutwardNormal(sp, p), sp.material)
  }

  /** The near root's hit if it is in the open range, then the far root's if
      the ray is not tangent and it is in range; `None` if neither. A zero
      direction gives `NaN` roots in floating point and so no hits. */
  function IntersectAll(sp: Sphere, ray: Ray, tMin: real, tMax: Bound, lib: FloatLib): (r: Option<seq<HitRecord>>)
    requires sp.radius != 0.0
    ensures r != Some([])
    ensures Discriminant(sp, ray) < 0.0 ==> r == None
    ensures r.Some? ==>
              && |r.value| <= 2
              && (Discriminant(sp, ray) <= TangentEpsilon ==> |r.value| == 1)
              && AllStrictlyWithin(r.value, tMin, tMax)
              && forall i :: 0 <= i < |r.value| ==> r.value[i] == HitAt(sp, ray, r.value[i].t)
    ensures r.Some? ==> A(ray) != 0.0 && r.value[0].t in {NearRoot(sp, ray, lib), FarRoot(sp, ray, lib)}
    ensures r.Some? && |r.value| == 2 ==>
              r.value[0].t == NearRoot(sp, ray, lib) && r.value[1].t == FarRoot(sp, ray, lib)
    ensures A(ray) != 0.0 && Discriminant(sp, ray) >= 0.0 &&
            tMin < NearRoot(sp, ray, lib) && Below(NearRoot(sp, ray, lib), tMax) ==>
              r.Some? && r.value[0] == HitAt(sp, ray, NearRoot(sp, ray, lib))
    ensures A(ray) != 0.0 && Discriminant(sp, ray) > TangentEpsilon &&
            tMin < FarRoot(sp, ray, lib) && Below(FarRoot(sp, ray, lib), tMax) ==>
              r.Some? && r.value[|r.value| - 1] == HitAt(sp, ray, FarRoot(sp, ray, lib))
  {
    var disc := Discriminant(sp, ray);
    if disc < 0.0 || A(ray) == 0.0 then None
    else
      var t1 := NearRoot(sp, ray, lib);
      var first := if tMin < t1 && Below(t1, tMax) then [HitAt(sp, ray, t1)] else [];
      var t2 := FarRoot(sp, ray, lib);
      var second := if disc > TangentEpsilon && tMin < t2 && Below(t2, tMax) then [HitAt(sp, ray, t2)] else [];
      var hits := first + second;
      if hits == [] then None else Some(hits)
  }

  /** With a true square root each root lies on the sphere. */
  lemma {:induction false} RootsOnSphere(sp: Sphere, ray: Ray, lib: FloatLib, t: real)
    requires Sound(lib) && A(ray) != 0.0 && Discriminant(sp, ray) >= 0.0
    requires t == NearRoot(sp, ray, lib) || t == FarRoot(sp, ray, lib)
    ensures OnSphere(sp, At(ray, t))
  {
    RootSolves(sp, ray, lib, t);
    SquaredDistanceAlong(sp, ray, t);
  }

  /** Either root solves `a t² + 2 halfB t + c = 0`. */
  lemma RootSolves(sp: Sphere, ray: Ray, lib: FloatLib, t: real)
    requires Sound(lib) && A(ray) != 0.0 && Discriminant(sp, ray) >= 0.0
    requires t == NearRoot(sp, ray, lib) || t == FarRoot(sp, ray, lib)
    ensures A(ray) * t * t + 2.0 * HalfB(sp, ray) * t + C(sp, ray) == 0.0
  {
    HalfBRoot(A(ray), HalfB(sp, ray), C(sp, ray), lib.sqrt(Discriminant(sp, ray)), t);
  }

  /** `|At(ray, t) - center|² - r²` is the sphere's quadratic at `t`. */
  lemma SquaredDistanceAlong(sp: Sphere, ray: Ray, t: real)
    ensures LengthSquared(Sub(At(ray, t), sp.center)) - sp.radius * sp.radius
            == A(ray) * t * t + 2.0 * HalfB(sp, ray) * t + C(sp, ray)
  {
    AtFrom(ray, t, sp.center);
    LengthSquaredAlong(Sub(ray.origin, sp.center), ray.direction, t);
  }

  /** Either root `(-halfB ± s) / a`, where `s² = halfB² - a c`, solves
      `a t² + 2 halfB t + c = 0`. */
  lemma HalfBRoot(a: real, hb: real, c: real, s: real, t: real)
    requires a != 0.0 && s * s == hb * hb - a * c
    requires t == (-hb - s) / a || t == (-hb + s) / a
    ensures a * t * t + 2.0 * hb * t + c == 0.0
  {
    assert a * t == -hb - s || a * t == -hb + s;
    QuadraticRoot(a, 2.0 * hb, c, 2.0 * s, t);
  }

  /** With a true square root every hit lies on the sphere and its normal
      has unit length. */
  lemma HitsOnSphere(sp: Sphere, ray: Ray, tMin: real, tMax: Bound, lib: FloatLib)
    requires Sound(lib) && sp.radius != 0.0
    ensures var r := IntersectAll(sp, ray, tMin, tMax, lib);
            r.Some? ==> forall i :: 0 <= i < |r.value| ==>
              OnSphere(sp, r.value[i].point) && LengthSquared(r.value[i].normal) == 1.0
  {
    var r := IntersectAll(sp, ray, tMin, tMax, lib);
    if r.Some? {
      forall i | 0 <= i < |r.value|
        ensures OnSphere(sp, r.value[i].point) && LengthSquared(r.value[i].normal) == 1.0
      {
        var h := r.value[i];
        RootsOnSphere(sp, ray, lib, h.t);
        UnitOutwardNormal(sp, h.point);
      }
    }
  }

  /** On the sphere, `(p - center) / radius` has unit length. */
  lemma UnitOutwardNormal(sp: Sphere, p: Vec3)
    requires sp.radius != 0.0 && OnSphere(sp, p)
    ensures LengthSquared(OutwardNormal(sp, p)) == 1.0
    ensures LengthSquared(Neg(OutwardNormal(sp, p))) == 1.0
  {
    var k := 1.0 / sp.radius;
    var w := Sub(p, sp.center);
    assert LengthSquared(Scale(k, w)) == (k * k) * LengthSquared(w);
    assert (k * k) * (sp.radius * sp.radius) == (k * sp.radius) * (k * sp.radius);
  }

  /** With a true square root two hits come out near first, in strictly
      increasing `t`. */
  lemma {:induction false} HitsAscending(sp: Sphere, ray: Ray, tMin: real, tMax: Bound, lib: FloatLib)
    requires Sound(lib) && sp.radius != 0.0
    ensures var r := IntersectAll(sp, ray, tMin, tMax, lib);
            r.Some? ==> StrictlyAscending(r.value)
  {
    var r := IntersectAll(sp, ray, tMin, tMax, lib);
    if r.Some? && |r.value| == 2 {
      var a, hb := A(ray), HalfB(sp, ray);
      var s := lib.sqrt(Discriminant(sp, ray));
      LengthSquaredNonNegative(ray.direction);
      assert s * s > 0.0;
      assert s > 0.0;
      assert a > 0.0;
      assert -hb - s < -hb + s;
      DivideMonotone(-hb - s, -hb + s, a);
    }
  }
}
