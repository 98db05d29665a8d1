/** An infinite cylinder around the line through `axisPoint` along `axisDir`
    (`InfiniteCylinder::intersect_all`). The quadratic is set up from the
    parts of the ray perpendicular to the axis. */
module Cylinders {
  import opened Math
  import opened Core
  import opened Wrappers
  import opened Quadrics

  datatype Cylinder = Cylinder(axisPoint: Vec3, axisDir: Vec3, radius: real, material: Material)

  /** Below this `|a|` the ray counts as parallel to the axis. */
  const ParallelEpsilon: real := 0.000001

  /** `a = |D_perp|²`, `b = 2 OC_perp·D_perp`, `c = |OC_perp|² - r²`. */
  function Coefficients(cyl: Cylinder, ray: Ray): Quadric
  {
    var ocPerp := Perp(Sub(ray.origin, cyl.axisPoint), cyl.axisDir);
    var dPerp := Perp(ray.direction, cyl.axisDir);
    Quadric(LengthSquared(dPerp), 2.0 * Dot(ocPerp, dPerp), LengthSquared(ocPerp) - cyl.radius * cyl.radius)
  }

  /** `axisPoint + ((p - axisPoint)·axisDir) axisDir`: the foot of `p` on the axis. */
  function PointOnAxis(cyl: Cylinder, p: Vec3): Vec3
  {
    Add(cyl.axisPoint, Scale(Dot(Sub(p, cyl.axisPoint), cyl.axisDir), cyl.axisDir))
  }

  function OutwardNormal(cyl: Cylinder, p: Vec3, lib: FloatLib): Vec3
  {
    Normalize(lib, Sub(p, PointOnAxis(cyl, p)))
  }

  function HitAt(cyl: Cylinder, ray: Ray, t: real, lib: FloatLib): HitRecord
  {
    var p := At(ray, t);
    FacingHit(ray, t, p, OutwardNormal(cyl, p, lib), cyl.material)
  }

  /** The hit constructor the root loop applies. */
  function HitMaker(cyl: Cylinder, ray: Ray, lib: FloatLib): real -> HitRecord
  {
    t => HitAt(cyl, ray, t, lib)
  }

  /** The answer of `intersect_all`: `None` for a ray parallel to the axis or
      one that misses, else the hits at the roots in `(tMin, tMax)`, near root
      first, and `None` if there are none. */
  function Hits(cyl: Cylinder, ray: Ray, tMin: real, tMax: Bound, lib: FloatLib): (r: Option<seq<HitRecord>>)
    ensures r != Some([])
    ensures Abs(Coefficients(cyl, ray).a) < ParallelEpsilon ==> r == None
    ensures Discriminant(Coefficients(cyl, ray)) < 0.0 ==> r == None
    ensures r.Some? ==> Abs(Coefficients(cyl, ray).a) >= ParallelEpsilon && Discriminant(Coefficients(cyl, ray)) >= 0.0
    ensures r.Some? ==> |r.value| <= 2
  {
    var q := Coefficients(cyl, ray);
    if Abs(q.a) < ParallelEpsilon || Discriminant(q) < 0.0 then None
    else RootHits(q, lib, tMin, tMax, HitMaker(cyl, ray, lib))
  }

  /** Every hit is the hit at one of the two roots, inside `(tMin, tMax)`;
      two hits come near root first. */
  lemma {:induction false} HitsAtRoots(cyl: Cylinder, ray: Ray, tMin: real, tMax: Bound, lib: FloatLib)
    ensures var r := Hits(cyl, ray, tMin, tMax, lib);
            r.Some? ==>
              && AllStrictlyWithin(r.value, tMin, tMax)
              && (forall i :: 0 <= i < |r.value| ==>
                    r.value[i].t in Roots(Coefficients(cyl, ray), lib) && r.value[i] == HitAt(cyl, ray, r.value[i].t, lib))
              && (|r.value| == 2 ==>
                    r.value[0].t == Roots(Coefficients(cyl, ray), lib)[0] &&
                    r.value[1].t == Roots(Coefficients(cyl, ray), lib)[1])
  {
    var r := Hits(cyl, ray, tMin, tMax, lib);
    if r.Some? {
      var q := Coefficients(cyl, ray);
      var mk := HitMaker(cyl, ray, lib);
      assert r == RootHits(q, lib, tMin, tMax, mk);
      assert forall t :: mk(t) == HitAt(cyl, ray, t, lib) && mk(t).t == t;
      RootHitsAtRoots(q, lib, tMin, tMax, mk);
    }
  }

  /** Every root inside `(tMin, tMax)` of a ray that is not parallel to the
      axis and meets the cylinder is reported. */
  lemma {:induction false} HitsComplete(cyl: Cylinder, ray: Ray, tMin: real, tMax: Bound, lib: FloatLib, t: real)
    requires Abs(Coefficients(cyl, ray).a) >= ParallelEpsilon && Discriminant(Coefficients(cyl, ray)) >= 0.0
    requires t in Roots(Coefficients(cyl, ray), lib) && tMin < t && Below(t, tMax)
    ensures var r := Hits(cyl, ray, tMin, tMax, lib);
            r.Some? && HitAt(cyl, ray, t, lib) in r.value
  {
    var q := Coefficients(cyl, ray);
    RootHitsComplete(q, lib, tMin, tMax, HitMaker(cyl, ray, lib), t);
    assert HitMaker(cyl, ray, lib)(t) == HitAt(cyl, ray, t, lib);
  }

  /** `intersect_all` as the program runs it. */
  method IntersectAll(cyl: Cylinder, ray: Ray, tMin: real, tMax: Bound, lib: FloatLib)
    returns (r: Option<seq<HitRecord>>)
    ensures r == Hits(cyl, ray, tMin, tMax, lib)
  {
    var oc := Sub(ray.origin, cyl.axisPoint);
    var dPerp := Perp(ray.direction, cyl.axisDir);
    var ocPerp := Perp(oc, cyl.axisDir);
    var a := LengthSquared(dPerp);
    var b := 2.0 * Dot(ocPerp, dPerp);
    var c := LengthSquared(ocPerp) - cyl.radius * cyl.radius;
    var q := Quadric(a, b, c);
    assert q == Coefficients(cyl, ray);
    HitsOfCoefficients(cyl, ray, q, tMin, tMax, lib);
    if Abs(q.a) < ParallelEpsilon {
      return None;
    }
    r := SolveAndPush(q, lib, tMin, tMax, HitMaker(cyl, ray, lib));
  }

  /** `Hits` in terms of the coefficients once they are computed. */
  lemma HitsOfCoefficients(cyl: Cylinder, ray: Ray, q: Quadric, tMin: real, tMax: Bound, lib: FloatLib)
    requires q == Coefficients(cyl, ray)
    ensures Hits(cyl, ray, tMin, tMax, lib)
            == if Abs(q.a) < ParallelEpsilon || Discriminant(q) < 0.0 then None
               else RootHits(q, lib, tMin, tMax, HitMaker(cyl, ray, lib))
  {
  }

  /** `Perp` is linear along the ray. */
  lemma PerpAlong(w: Vec3, d: Vec3, v: Vec3, t: real)
    ensures Perp(Add(w, Scale(t, d)), v) == Add(Perp(w, v), Scale(t, Perp(d, v)))
  {
    DotAdd(w, Scale(t, d), v);
    DotScale(t, d, v);
    LinearCombination(w, d, v, t, Dot(w, v), Dot(d, v));
  }

  /** The squared distance from the axis of the ray's point at `t`, less
      `r²`, is the quadratic in `t`. */
  lemma DistanceIsQuadratic(cyl: Cylinder, ray: Ray, t: real, q: Quadric)
    requires q == Coefficients(cyl, ray)
    ensures LengthSquared(Perp(Sub(At(ray, t), cyl.axisPoint), cyl.axisDir)) - cyl.radius * cyl.radius
            == q.a * t * t + q.b * t + q.c
  {
    var oc := Sub(ray.origin, cyl.axisPoint);
    AtFrom(ray, t, cyl.axisPoint);
    PerpAlong(oc, ray.direction, cyl.axisDir, t);
    QuadricOfLine(Perp(oc, cyl.axisDir), Perp(ray.direction, cyl.axisDir), t, cyl.radius * cyl.radius, q);
  }

  /** With a true square root every hit lies on the surface: the part of
      `point - axisPoint` perpendicular to the axis has length `radius`. */
  lemma {:induction false} HitsOnSurface(cyl: Cylinder, ray: Ray, tMin: real, tMax: Bound, lib: FloatLib)
    requires Sound(lib)
    ensures var r := Hits(cyl, ray, tMin, tMax, lib);
            r.Some? ==> forall i :: 0 <= i < |r.value| ==>
              LengthSquared(Perp(Sub(r.value[i].point, cyl.axisPoint), cyl.axisDir)) == cyl.radius * cyl.radius
  {
    var r := Hits(cyl, ray, tMin, tMax, lib);
    if r.Some? {
      forall i | 0 <= i < |r.value|
        ensures LengthSquared(Perp(Sub(r.value[i].point, cyl.axisPoint), cyl.axisDir)) == cyl.radius * cyl.radius
      {
        HitsAtRoots(cyl, ray, tMin, tMax, lib);
        var t := r.value[i].t;
        var q := Coefficients(cyl, ray);
        RootsSolve(q, lib, t);
        DistanceIsQuadratic(cyl, ray, t, q);
      }
    }
  }

  /** Normalizing keeps a vector perpendicular to `v`. */
  lemma NormalizePerpendicular(lib: FloatLib, w: Vec3, v: Vec3)
    requires Dot(w, v) == 0.0
    ensures Dot(Normalize(lib, w), v) == 0.0 && Dot(Neg(Normalize(lib, w)), v) == 0.0
  {
    var len := lib.sqrt(LengthSquared(w));
    if len != 0.0 {
      var k := 1.0 / len;
      assert Dot(Scale(k, w), v) == k * Dot(w, v);
    }
  }

  /** Against a unit axis, `Perp` leaves nothing along the axis. */
  lemma PerpIsPerpendicular(w: Vec3, v: Vec3)
    requires LengthSquared(v) == 1.0
    ensures Dot(Perp(w, v), v) == 0.0
  {
    var k := Dot(w, v);
    assert Dot(Scale(k, v), v) == k * LengthSquared(v);
  }

  /** With a unit axis the outward normal, either way round, is
      perpendicular to the axis. */
  lemma OutwardNormalPerpendicular(cyl: Cylinder, p: Vec3, lib: FloatLib)
    requires LengthSquared(cyl.axisDir) == 1.0
    ensures Dot(OutwardNormal(cyl, p, lib), cyl.axisDir) == 0.0
    ensures Dot(Neg(OutwardNormal(cyl, p, lib)), cyl.axisDir) == 0.0
  {
    var w := Sub(p, cyl.axisPoint);
    assert Sub(p, PointOnAxis(cyl, p)) == Perp(w, cyl.axisDir);
    PerpIsPerpendicular(w, cyl.axisDir);
    NormalizePerpendicular(lib, Perp(w, cyl.axisDir), cyl.axisDir);
  }

  /** With a unit axis every returned normal is perpendicular to the axis. */
  lemma {:induction false} NormalsPerpendicularToAxis(cyl: Cylinder, ray: Ray, tMin: real, tMax: Bound, lib: FloatLib)
    requires LengthSquared(cyl.axisDir) == 1.0
    ensures var r := Hits(cyl, ray, tMin, tMax, lib);
            r.Some? ==> forall i :: 0 <= i < |r.value| ==> Dot(r.value[i].normal, cyl.axisDir) == 0.0
  {
    var r := Hits(cyl, ray, tMin, tMax, lib);
    if r.Some? {
      HitsAtRoots(cyl, ray, tMin, tMax, lib);
      forall i | 0 <= i < |r.value|
        ensures Dot(r.value[i].normal, cyl.axisDir) == 0.0
      {
        var h := r.value[i];
        assert h == HitAt(cyl, ray, h.t, lib);
        OutwardNormalPerpendicular(cyl, At(ray, h.t), lib);
      }
    }
  }

  /** With a true square root the hits come out in non-decreasing `t`, since
      `a = |D_perp|²` is positive once the ray is not parallel to the axis. */
  lemma {:induction false} HitsAscending(cyl: Cylinder, ray: Ray, tMin: real, tMax: Bound, lib: FloatLib)
    requires Sound(lib)
    ensures var r := Hits(cyl, ray, tMin, tMax, lib);
            r.Some? ==> SortedByT(r.value)
  {
    var q := Coefficients(cyl, ray);
    LengthSquaredNonNegative(Perp(ray.direction, cyl.axisDir));
    if Abs(q.a) >= ParallelEpsilon && Discriminant(q) >= 0.0 {
      assert forall t :: HitMaker(cyl, ray, lib)(t).t == t;
      RootHitsSorted(q, lib, tMin, tMax, HitMaker(cyl, ray, lib));
    }
  }
}
