/** An infinite double cone with apex `vertex`, unit axis `axisDir` and
    half-angle `α`, stored as `cos²α` (`InfiniteCone`). */
module Cones {
  import opened Math
  import opened Core
  import opened Wrappers
  import opened Quadrics

  datatype Cone = Cone(vertex: Vec3, axisDir: Vec3, cosAngleSq: real, material: Material)

  /** `InfiniteCone::new`: normalizes the axis and squares the cosine of the angle. */
  function New(vertex: Vec3, axisDir: Vec3, angleRad: real, material: Material, lib: FloatLib): (cone: Cone)
    ensures cone.vertex == vertex && cone.material == material
    ensures cone.cosAngleSq >= 0.0
  {
    var cosAngle := lib.cos(angleRad);
    SquareNonNegative(cosAngle);
    Cone(vertex, Normalize(lib, axisDir), cosAngle * cosAngle, material)
  }

  /** The constructor stores a unit axis pointing along the given one, and
      the square of the cosine of the given angle. */
  lemma NewNormalizesAxis(vertex: Vec3, axisDir: Vec3, angleRad: real, material: Material, lib: FloatLib)
    requires Sound(lib) && LengthSquared(axisDir) != 0.0
    ensures var cone := New(vertex, axisDir, angleRad, material, lib);
            && LengthSquared(cone.axisDir) == 1.0
            && (exists k :: k > 0.0 && cone.axisDir == Scale(k, axisDir))
            && cone.cosAngleSq == lib.cos(angleRad) * lib.cos(angleRad)
  {
    NormalizeUnit(lib, axisDir);
  }

  /** `a = (D·V)² - cos²α`, `b = 2[(D·V)(CO·V) - (D·CO) cos²α]`,
      `c = (CO·V)² - |CO|² cos²α`, which take `|D| = 1` for granted. */
  function Coefficients(cone: Cone, ray: Ray): Quadric
  {
    var co := Sub(ray.origin, cone.vertex);
    var dDotV := Dot(ray.direction, cone.axisDir);
    var coDotV := Dot(co, cone.axisDir);
    Quadric(dDotV * dDotV - cone.cosAngleSq,
            2.0 * (dDotV * coDotV - Dot(ray.direction, co) * cone.cosAngleSq),
            coDotV * coDotV - LengthSquared(co) * cone.cosAngleSq)
  }

  /** The gradient direction `normalize((PV·V) V - cos²α PV)`. */
  function OutwardNormal(cone: Cone, p: Vec3, lib: FloatLib): Vec3
  {
    var pv := Sub(p, cone.vertex);
    var m := Dot(pv, cone.axisDir);
    Normalize(lib, Sub(Scale(m, cone.axisDir), Scale(cone.cosAngleSq, pv)))
  }

  function HitAt(cone: Cone, ray: Ray, t: real, lib: FloatLib): HitRecord
  {
    var p := At(ray, t);
    FacingHit(ray, t, p, OutwardNormal(cone, p, lib), cone.material)
  }

  /** The hit constructor the root loop applies. */
  function HitMaker(cone: Cone, ray: Ray, lib: FloatLib): real -> HitRecord
  {
    t => HitAt(cone, ray, t, lib)
  }

  /** The answer of `intersect_all`: `None` for a negative discriminant, else
      the hits at the two roots in `(tMin, tMax)` in the order t1, t2, and
      `None` if there are none. With `a = 0` the roots are infinite or `NaN`
      in floating point and none is in range. */
  function Hits(cone: Cone, ray: Ray, tMin: real, tMax: Bound, lib: FloatLib): (r: Option<seq<HitRecord>>)
    ensures r != Some([])
    ensures Discriminant(Coefficients(cone, ray)) < 0.0 ==> r == None
    ensures Coefficients(cone, ray).a == 0.0 ==> r == None
    ensures r.Some? ==> |r.value| <= 2
  {
    var q := Coefficients(cone, ray);
    if Discriminant(q) < 0.0 || q.a == 0.0 then None
    else RootHits(q, lib, tMin, tMax, HitMaker(cone, ray, lib))
  }

  /** Every root inside `(tMin, tMax)` is reported once `a != 0` and the
      discriminant is not negative. */
  lemma {:induction false} HitsComplete(cone: Cone, ray: Ray, tMin: real, tMax: Bound, lib: FloatLib, t: real)
    requires Coefficients(cone, ray).a != 0.0 && Discriminant(Coefficients(cone, ray)) >= 0.0
    requires t in Roots(Coefficients(cone, ray), lib) && tMin < t && Below(t, tMax)
    ensures var r := Hits(cone, ray, tMin, tMax, lib);
            r.Some? && HitAt(cone, ray, t, lib) in r.value
  {
    var q := Coefficients(cone, ray);
    RootHitsComplete(q, lib, tMin, tMax, HitMaker(cone, ray, lib), t);
    assert HitMaker(cone, ray, lib)(t) == HitAt(cone, ray, t, lib);
  }

  /** `intersect_all` as the program runs it. */
  method IntersectAll(cone: Cone, ray: Ray, tMin: real, tMax: Bound, lib: FloatLib)
    returns (r: Option<seq<HitRecord>>)
    ensures r == Hits(cone, ray, tMin, tMax, lib)
  {
    var co := Sub(ray.origin, cone.vertex);
    var dDotV := Dot(ray.direction, cone.axisDir);
    var coDotV := Dot(co, cone.axisDir);
    var a := dDotV * dDotV - cone.cosAngleSq;
    var b := 2.0 * (dDotV * coDotV - Dot(ray.direction, co) * cone.cosAngleSq);
    var c := coDotV * coDotV - LengthSquared(co) * cone.cosAngleSq;
    assert Quadric(a, b, c) == Coefficients(cone, ray);
    if a == 0.0 {
      // (-b ∓ √disc) / 0 is ±∞ or NaN, never strictly inside the range
      return None;
    }
    r := SolveAndPush(Quadric(a, b, c), lib, tMin, tMax, HitMaker(cone, ray, lib));
  }

  /** Every hit is the hit at one of the two roots, inside `(tMin, tMax)`;
      two hits come in the order t1, t2. */
  lemma {:induction false} HitsAtRoots(cone: Cone, ray: Ray, tMin: real, tMax: Bound, lib: FloatLib)
    ensures var r := Hits(cone, ray, tMin, tMax, lib);
            r.Some? ==>
              && AllStrictlyWithin(r.value, tMin, tMax)
              && (forall i :: 0 <= i < |r.value| ==>
                    r.value[i].t in Roots(Coefficients(cone, ray), lib) && r.value[i] == HitAt(cone, ray, r.value[i].t, lib))
              && (|r.value| == 2 ==>
                    r.value[0].t == Roots(Coefficients(cone, ray), lib)[0] &&
                    r.value[1].t == Roots(Coefficients(cone, ray), lib)[1])
  {
    var r := Hits(cone, ray, tMin, tMax, lib);
    if r.Some? {
      var q := Coefficients(cone, ray);
      var mk := HitMaker(cone, ray, lib);
      assert r == RootHits(q, lib, tMin, tMax, mk);
      assert forall t :: mk(t) == HitAt(cone, ray, t, lib) && mk(t).t == t;
      RootHitsAtRoots(q, lib, tMin, tMax, mk);
    }
  }

  /** For a unit direction, `((P-V)·v)² - cos²α |P-V|²` along the ray is the
      quadratic in `t`. */
  lemma {:induction false} ConeOfLine(u: Vec3, d: Vec3, v: Vec3, k: real, t: real, q: Quadric, w: Vec3)
    requires LengthSquared(d) == 1.0 && w == Add(u, Scale(t, d))
    requires q == Quadric(Dot(d, v) * Dot(d, v) - k,
                          2.0 * (Dot(d, v) * Dot(u, v) - Dot(d, u) * k),
                          Dot(u, v) * Dot(u, v) - LengthSquared(u) * k)
    ensures Dot(w, v) * Dot(w, v) - LengthSquared(w) * k == q.a * t * t + q.b * t + q.c
  {
    var dv, uv := Dot(d, v), Dot(u, v);
    assert Dot(w, v) == uv + t * dv;
    LengthSquaredAlong(u, d, t);
    assert Dot(u, d) == Dot(d, u);
    assert (uv + t * dv) * (uv + t * dv) == dv * dv * t * t + 2.0 * dv * uv * t + uv * uv;
  }

  /** `p` is on the double cone: `((p - vertex)·axis)² = cos²α |p - vertex|²`. */
  predicate OnCone(cone: Cone, p: Vec3)
  {
    var pv := Sub(p, cone.vertex);
    Dot(pv, cone.axisDir) * Dot(pv, cone.axisDir) == LengthSquared(pv) * cone.cosAngleSq
  }

  /** With a true square root and a unit direction every hit lies on the cone. */
  lemma {:induction false} HitsOnSurface(cone: Cone, ray: Ray, tMin: real, tMax: Bound, lib: FloatLib)
    requires Sound(lib) && LengthSquared(ray.direction) == 1.0
    ensures var r := Hits(cone, ray, tMin, tMax, lib);
            r.Some? ==> forall i :: 0 <= i < |r.value| ==> OnCone(cone, r.value[i].point)
  {
    var r := Hits(cone, ray, tMin, tMax, lib);
    if r.Some? {
      HitsAtRoots(cone, ray, tMin, tMax, lib);
      forall i | 0 <= i < |r.value|
        ensures OnCone(cone, r.value[i].point)
      {
        RootOnSurface(cone, ray, lib, r.value[i].t, Coefficients(cone, ray), r.value[i].point);
      }
    }
  }

  /** A root of the quadratic, for a unit direction, is a point of the cone. */
  lemma {:induction false} RootOnSurface(cone: Cone, ray: Ray, lib: FloatLib, t: real, q: Quadric, p: Vec3)
    requires Sound(lib) && LengthSquared(ray.direction) == 1.0
    requires q == Coefficients(cone, ray) && q.a != 0.0 && Discriminant(q) >= 0.0 && t in Roots(q, lib)
    requires p == At(ray, t)
    ensures OnCone(cone, p)
  {
    ConeAlong(cone, ray, t, q);
    RootsSolve(q, lib, t);
  }

  /** For a unit direction the cone's defining expression at the ray's point
      `t` is the quadratic at `t`. */
  lemma ConeAlong(cone: Cone, ray: Ray, t: real, q: Quadric)
    requires LengthSquared(ray.direction) == 1.0 && q == Coefficients(cone, ray)
    ensures var w := Sub(At(ray, t), cone.vertex);
            Dot(w, cone.axisDir) * Dot(w, cone.axisDir) - LengthSquared(w) * cone.cosAngleSq
            == q.a * t * t + q.b * t + q.c
  {
    AtFrom(ray, t, cone.vertex);
    CoefficientsExpanded(cone, ray);
    ConeOfLine(Sub(ray.origin, cone.vertex), ray.direction, cone.axisDir, cone.cosAngleSq, t, q, Sub(At(ray, t), cone.vertex));
  }

  lemma CoefficientsExpanded(cone: Cone, ray: Ray)
    ensures var co, d, v, k := Sub(ray.origin, cone.vertex), ray.direction, cone.axisDir, cone.cosAngleSq;
            Coefficients(cone, ray)
            == Quadric(Dot(d, v) * Dot(d, v) - k, 2.0 * (Dot(d, v) * Dot(co, v) - Dot(d, co) * k),
                       Dot(co, v) * Dot(co, v) - LengthSquared(co) * k)
  {
  }

  /** With a true square root, two hits ascend when the ray is steeper than
      the cone (`a > 0`) and strictly descend when it is shallower (`a < 0`). */
  lemma {:induction false} HitsOrder(cone: Cone, ray: Ray, tMin: real, tMax: Bound, lib: FloatLib)
    requires Sound(lib)
    ensures var r := Hits(cone, ray, tMin, tMax, lib);
            r.Some? && |r.value| == 2 ==>
              (Coefficients(cone, ray).a > 0.0 ==> r.value[0].t <= r.value[1].t) &&
              (Coefficients(cone, ray).a < 0.0 && Discriminant(Coefficients(cone, ray)) > 0.0 ==>
                 r.value[0].t > r.value[1].t)
  {
    var r := Hits(cone, ray, tMin, tMax, lib);
    var q := Coefficients(cone, ray);
    if r.Some? && |r.value| == 2 {
      HitsAtRoots(cone, ray, tMin, tMax, lib);
      if q.a > 0.0 {
        RootsOrdered(q, lib);
      } else if Discriminant(q) > 0.0 {
        RootsReversed(q, lib);
      }
    }
  }

  /** The cone is not drawn on its own, only as part of a combined shape. */
  function RenderShape(cone: Cone): (r: Option<RenderableShape>)
    ensures r == None
  {
    None
  }
}
