/** The shared vocabulary of the engine: rays, materials, hit records and the
    boolean operations of constructive solid geometry. */
module Core {
  import opened Math

  /** Optical behaviour of a surface. */
  datatype Material = Mirror | Glass(ior: real) | HalfMirror(reflectance: real)

  /** Boolean operations that combine two shapes. */
  datatype CsgOperation = Union | Intersection | Difference

  /** A ray and the refractive index of the medium it currently travels in. */
  datatype Ray = Ray(origin: Vec3, direction: Vec3, currentIor: real)

  /** One crossing of a surface at ray parameter `t`. */
  datatype HitRecord = HitRecord(t: real, point: Vec3, normal: Vec3, frontFace: bool, material: Material)

  /** The description a renderer can draw directly. */
  datatype RenderableShape =
    | SphereShape(radius: real)
    | BoxShape(size: Vec3)
    | PlaneShape(normal: Vec3)
    | CylinderShape(height: real, radius: real)
    | ConeShape(height: real, angleDeg: real)
    | WedgeShape(size: Vec3, angleDeg: real)

  /** `ray.origin + t * ray.direction` */
  function At(ray: Ray, t: real): Vec3
  {
    Add(ray.origin, Scale(t, ray.direction))
  }

  /** The ray's point at `t`, seen from `p`. */
  lemma AtFrom(ray: Ray, t: real, p: Vec3)
    ensures Sub(At(ray, t), p) == Add(Sub(ray.origin, p), Scale(t, ray.direction))
  {
  }

  /** The hit at parameter `t` on a surface whose outward normal at the hit
      point is `outward`: the stored normal is turned to face the ray. */
  function FacingHit(ray: Ray, t: real, point: Vec3, outward: Vec3, material: Material): (h: HitRecord)
    ensures h.t == t && h.point == point && h.material == material
    ensures h.frontFace <==> Dot(ray.direction, outward) < 0.0
    ensures h.normal == outward || h.normal == Neg(outward)
    ensures Dot(ray.direction, h.normal) <= 0.0
  {
    var frontFace := Dot(ray.direction, outward) < 0.0;
    DotNeg(ray.direction, outward);
    HitRecord(t, point, if frontFace then outward else Neg(outward), frontFace, material)
  }

  /** Hits listed in non-decreasing `t`. */
  predicate SortedByT(hits: seq<HitRecord>)
  {
    forall i, j :: 0 <= i < j < |hits| ==> hits[i].t <= hits[j].t
  }

  /** Every hit lies in the closed range `[tMin, tMax]`. */
  predicate AllWithin(hits: seq<HitRecord>, tMin: real, tMax: Bound)
  {
    forall i :: 0 <= i < |hits| ==> tMin <= hits[i].t && AtMost(hits[i].t, tMax)
  }

  /** Every hit lies in the open range `(tMin, tMax)`. */
  predicate AllStrictlyWithin(hits: seq<HitRecord>, tMin: real, tMax: Bound)
  {
    forall i :: 0 <= i < |hits| ==> tMin < hits[i].t && Below(hits[i].t, tMax)
  }

  /** Hits listed in strictly increasing `t`. */
  predicate StrictlyAscending(hits: seq<HitRecord>)
  {
    forall i, j :: 0 <= i < j < |hits| ==> hits[i].t < hits[j].t
  }

  /** The candidate parameters `ts` that lie in the open range `(tMin, tMax)`,
      in their original order. */
  function InOpenRange(ts: seq<real>, tMin: real, tMax: Bound): (kept: seq<real>)
    ensures |kept| <= |ts|
    ensures forall i :: 0 <= i < |kept| ==> kept[i] in ts && tMin < kept[i] && Below(kept[i], tMax)
    ensures |kept| == |ts| ==> kept == ts
  {
    if ts == [] then []
    else
      var init := ts[..|ts| - 1];
      var last := ts[|ts| - 1];
      assert ts == init + [last];
      InOpenRange(init, tMin, tMax) + (if tMin < last && Below(last, tMax) then [last] else [])
  }

  lemma InOpenRangeStep(ts: seq<real>, tMin: real, tMax: Bound, i: nat)
    requires i < |ts|
    ensures InOpenRange(ts[..i + 1], tMin, tMax)
            == InOpenRange(ts[..i], tMin, tMax) + (if tMin < ts[i] && Below(ts[i], tMax) then [ts[i]] else [])
  {
    assert ts[..i + 1][..i] == ts[..i];
  }

  /** A candidate is kept exactly when it is in range. */
  lemma {:induction false} InOpenRangeKeeps(ts: seq<real>, tMin: real, tMax: Bound, t: real)
    requires t in ts && tMin < t && Below(t, tMax)
    ensures t in InOpenRange(ts, tMin, tMax)
  {
    var init := ts[..|ts| - 1];
    assert ts == init + [ts[|ts| - 1]];
    if t != ts[|ts| - 1] {
      InOpenRangeKeeps(init, tMin, tMax, t);
    }
  }

  /** `makeHit` applied to each parameter of `ts`, in order. */
  function MapHits(makeHit: real -> HitRecord, ts: seq<real>): (hits: seq<HitRecord>)
    ensures |hits| == |ts|
    ensures forall i :: 0 <= i < |ts| ==> hits[i] == makeHit(ts[i])
  {
    if ts == [] then []
    else MapHits(makeHit, ts[..|ts| - 1]) + [makeHit(ts[|ts| - 1])]
  }

  lemma MapHitsSnoc(makeHit: real -> HitRecord, ts: seq<real>, t: real)
    ensures MapHits(makeHit, ts + [t]) == MapHits(makeHit, ts) + [makeHit(t)]
  {
    assert (ts + [t])[..|ts|] == ts;
  }

  /** The loop `for &t in &[t1, t2]` of the quadric surfaces: pushes the hit
      at each candidate root in the open range `(tMin, tMax)`, in order. */
  method PushInRange(makeHit: real -> HitRecord, roots: seq<real>, tMin: real, tMax: Bound)
    returns (hits: seq<HitRecord>)
    ensures hits == MapHits(makeHit, InOpenRange(roots, tMin, tMax))
  {
    hits := [];
    ghost var kept: seq<real> := [];
    for i := 0 to |roots|
      invariant kept == InOpenRange(roots[..i], tMin, tMax)
      invariant hits == MapHits(makeHit, kept)
    {
      var t := roots[i];
      InOpenRangeStep(roots, tMin, tMax, i);
      if tMin < t && Below(t, tMax) {
        MapHitsSnoc(makeHit, kept, t);
        hits := hits + [makeHit(t)];
        kept := kept + [t];
      }
    }
    assert roots[..|roots|] == roots;
  }
}
