/** The axis-aligned box between corners `min` and `max` (`AxisAlignedBox`),
    intersected by the slab test: each axis narrows the running interval
    `[tmin, tmax]` to the stretch of the ray between that axis's two planes. */
module Boxes {
  import opened Math
  import opened Core
  import opened Wrappers

  datatype Box = Box(min: Vec3, max: Vec3, material: Material)

  /** The running interval; `hi` may still be `f32::INFINITY`. */
  datatype Interval = Interval(lo: real, hi: Bound)

  /** Distance within which `calculate_normal` matches a face. */
  const FaceEpsilon: real := 0.0001

  /** The point of the ray at `t` lies between the box's planes on axis `i`. */
  predicate InSlab(box: Box, ray: Ray, i: nat, t: real)
    requires i < 3
  {
    var c := Component(ray.origin, i) + t * Component(ray.direction, i);
    Component(box.min, i) <= c <= Component(box.max, i)
  }

  predicate InsideBox(box: Box, p: Vec3)
  {
    box.min.x <= p.x <= box.max.x && box.min.y <= p.y <= box.max.y && box.min.z <= p.z <= box.max.z
  }

  /** One axis of the slab test. A zero direction component makes `1/d`
      infinite in floating point: the axis then leaves the interval as it is
      when the origin lies between its planes and empties it otherwise. The
      interval is dropped once `tmax <= tmin`. */
  function AxisStep(box: Box, ray: Ray, i: nat, iv: Interval): (r: Option<Interval>)
    requires i < 3
    ensures r.Some? ==> iv.lo <= r.value.lo && BoundLe(r.value.hi, iv.hi)
    ensures r.Some? ==> Below(r.value.lo, r.value.hi)
    ensures r.Some? && Component(ray.direction, i) != 0.0 ==> r.value.hi.Finite?
  {
    var d := Component(ray.direction, i);
    var o := Component(ray.origin, i);
    if d == 0.0 then
      if Component(box.min, i) <= o <= Component(box.max, i) && Below(iv.lo, iv.hi) then Some(iv) else None
    else
      var lo := Max(iv.lo, Near(box, ray, i));
      var hi := MinBound(iv.hi, Far(box, ray, i));
      if hi <= lo then None else Some(Interval(lo, Finite(hi)))
  }

  /** The parameter where the ray crosses the plane `v_i = bound` of axis
      `i`, computed as `(bound - o_i) * (1/d_i)`. */
  function Crossing(ray: Ray, i: nat, bound: real): real
    requires i < 3 && Component(ray.direction, i) != 0.0
  {
    (bound - Component(ray.origin, i)) * (1.0 / Component(ray.direction, i))
  }

  /** The crossing of the slab's first plane, after the swap. */
  function Near(box: Box, ray: Ray, i: nat): real
    requires i < 3 && Component(ray.direction, i) != 0.0
  {
    if 1.0 / Component(ray.direction, i) < 0.0 then Crossing(ray, i, Component(box.max, i))
    else Crossing(ray, i, Component(box.min, i))
  }

  /** The crossing of the slab's second plane, after the swap. */
  function Far(box: Box, ray: Ray, i: nat): real
    requires i < 3 && Component(ray.direction, i) != 0.0
  {
    if 1.0 / Component(ray.direction, i) < 0.0 then Crossing(ray, i, Component(box.min, i))
    else Crossing(ray, i, Component(box.max, i))
  }

  /** The interval after the first `n` axes, `None` once it has emptied. */
  function Slabs(box: Box, ray: Ray, n: nat, tMin: real, tMax: Bound): (r: Option<Interval>)
    requires n <= 3
    ensures r.Some? ==> tMin <= r.value.lo && BoundLe(r.value.hi, tMax)
    ensures r.Some? && n > 0 ==> Below(r.value.lo, r.value.hi)
  {
    if n == 0 then Some(Interval(tMin, tMax))
    else
      match Slabs(box, ray, n - 1, tMin, tMax)
      case None => None
      case Some(iv) => AxisStep(box, ray, n - 1, iv)
  }

  /** `calculate_normal`: the outward normal of the first face, in the order
      -X, +X, -Y, +Y, -Z, +Z, that `p` lies within `FaceEpsilon` of; zero if
      none. */
  function CalculateNormal(box: Box, p: Vec3): Vec3
  {
    var pMinusMin := Sub(p, box.min);
    var pMinusMax := Sub(p, box.max);
    if Abs(pMinusMin.x) < FaceEpsilon then NegX
    else if Abs(pMinusMax.x) < FaceEpsilon then UnitX
    else if Abs(pMinusMin.y) < FaceEpsilon then NegY
    else if Abs(pMinusMax.y) < FaceEpsilon then UnitY
    else if Abs(pMinusMin.z) < FaceEpsilon then NegZ
    else if Abs(pMinusMax.z) < FaceEpsilon then UnitZ
    else Zero
  }

  /** The face the unit axis vector `n` names is within `FaceEpsilon` of `p`. */
  predicate NearFace(box: Box, p: Vec3, n: Vec3)
  {
    || (n == NegX && Abs(p.x - box.min.x) < FaceEpsilon)
    || (n == UnitX && Abs(p.x - box.max.x) < FaceEpsilon)
    || (n == NegY && Abs(p.y - box.min.y) < FaceEpsilon)
    || (n == UnitY && Abs(p.y - box.max.y) < FaceEpsilon)
    || (n == NegZ && Abs(p.z - box.min.z) < FaceEpsilon)
    || (n == UnitZ && Abs(p.z - box.max.z) < FaceEpsilon)
  }

  /** No face is near `p`. */
  predicate NoFaceNear(box: Box, p: Vec3)
  {
    && Abs(p.x - box.min.x) >= FaceEpsilon && Abs(p.x - box.max.x) >= FaceEpsilon
    && Abs(p.y - box.min.y) >= FaceEpsilon && Abs(p.y - box.max.y) >= FaceEpsilon
    && Abs(p.z - box.min.z) >= FaceEpsilon && Abs(p.z - box.max.z) >= FaceEpsilon
  }

  /** The normal is zero exactly when no face is near; otherwise it is a unit
      axis vector naming a face near `p`. */
  lemma CalculateNormalFace(box: Box, p: Vec3)
    ensures CalculateNormal(box, p) == Zero <==> NoFaceNear(box, p)
    ensures CalculateNormal(box, p) != Zero ==>
              LengthSquared(CalculateNormal(box, p)) == 1.0 && NearFace(box, p, CalculateNormal(box, p))
  {
    var n := CalculateNormal(box, p);
    if Abs(p.x - box.min.x) < FaceEpsilon {
      assert n == NegX;
    } else if Abs(p.x - box.max.x) < FaceEpsilon {
      assert n == UnitX;
    } else if Abs(p.y - box.min.y) < FaceEpsilon {
      assert n == NegY;
    } else if Abs(p.y - box.max.y) < FaceEpsilon {
      assert n == UnitY;
    } else if Abs(p.z - box.min.z) < FaceEpsilon {
      assert n == NegZ;
    } else if Abs(p.z - box.max.z) < FaceEpsilon {
      assert n == UnitZ;
    } else {
      assert n == Zero;
    }
  }

  /** The faces are tried in the order -X, +X, -Y, +Y, -Z, +Z: a near -X face
      always wins, and +X wins whenever -X is not near. */
  lemma CalculateNormalPriority(box: Box, p: Vec3)
    ensures Abs(p.x - box.min.x) < FaceEpsilon ==> CalculateNormal(box, p) == NegX
    ensures Abs(p.x - box.min.x) >= FaceEpsilon && Abs(p.x - box.max.x) < FaceEpsilon ==> CalculateNormal(box, p) == UnitX
  {
  }

  /** The entry hit at `lo` with the normal of the face there and the exit
      hit at `hi` with that normal negated; `front_face` is `D·normal < 0`. */
  function Hits(box: Box, ray: Ray, tMin: real, tMax: Bound): (r: Option<seq<HitRecord>>)
    ensures r.Some? ==>
              && |r.value| == 2
              && r.value[0].t < r.value[1].t
              && AllWithin(r.value, tMin, tMax)
              && r.value[0].normal == CalculateNormal(box, r.value[0].point)
              && r.value[1].normal == Neg(CalculateNormal(box, r.value[1].point))
              && forall i :: 0 <= i < 2 ==>
                   && r.value[i].point == At(ray, r.value[i].t)
                   && r.value[i].material == box.material
                   && (r.value[i].frontFace <==> Dot(ray.direction, r.value[i].normal) < 0.0)
  {
    match Slabs(box, ray, 3, tMin, tMax)
    case None => None
    case Some(iv) =>
      if iv.hi.Infinite? then None else Some(EntryExit(box, ray, iv.lo, iv.hi.value))
  }

  /** The entry hit at `t0` and the exit hit at `t1`. */
  function EntryExit(box: Box, ray: Ray, t0: real, t1: real): (hits: seq<HitRecord>)
    ensures |hits| == 2 && hits[0].t == t0 && hits[1].t == t1
    ensures hits[0].normal == CalculateNormal(box, hits[0].point)
    ensures hits[1].normal == Neg(CalculateNormal(box, hits[1].point))
    ensures forall i :: 0 <= i < 2 ==>
              && hits[i].point == At(ray, hits[i].t)
              && hits[i].material == box.material
              && (hits[i].frontFace <==> Dot(ray.direction, hits[i].normal) < 0.0)
  {
    var p1 := At(ray, t0);
    var n1 := CalculateNormal(box, p1);
    var p2 := At(ray, t1);
    var n2 := Neg(CalculateNormal(box, p2));
    [HitRecord(t0, p1, n1, Dot(ray.direction, n1) < 0.0, box.material),
     HitRecord(t1, p2, n2, Dot(ray.direction, n2) < 0.0, box.material)]
  }

  /** Once the interval has emptied it stays empty. */
  lemma {:induction false} SlabsStayEmpty(box: Box, ray: Ray, n: nat, tMin: real, tMax: Bound)
    requires n <= 3 && Slabs(box, ray, n, tMin, tMax).None?
    ensures Slabs(box, ray, 3, tMin, tMax).None?
    decreases 3 - n
  {
    if n < 3 {
      SlabsStayEmpty(box, ray, n + 1, tMin, tMax);
    }
  }

  /** `intersect_all` as the program runs it: the loop over the three axes
      with the swap, then the two pushes. */
  method IntersectAll(box: Box, ray: Ray, tMin: real, tMax: Bound) returns (r: Option<seq<HitRecord>>)
    ensures r == Hits(box, ray, tMin, tMax)
  {
    var tmin := tMin;
    var tmax := tMax;
    for i := 0 to 3
      invariant Slabs(box, ray, i, tMin, tMax) == Some(Interval(tmin, tmax))
    {
      ghost var before := Interval(tmin, tmax);
      var d := Component(ray.direction, i);
      var o := Component(ray.origin, i);
      if d == 0.0 {
        // 1/d is infinite: the axis constrains nothing or rules the ray out
        if !(Component(box.min, i) <= o <= Component(box.max, i)) {
          assert Slabs(box, ray, i + 1, tMin, tMax) == None;
          SlabsStayEmpty(box, ray, i + 1, tMin, tMax);
          return None;
        }
      } else {
        var invD := 1.0 / d;
        var t0 := (Component(box.min, i) - o) * invD;
        var t1 := (Component(box.max, i) - o) * invD;
        assert t0 == Crossing(ray, i, Component(box.min, i)) && t1 == Crossing(ray, i, Component(box.max, i));
        if invD < 0.0 {
          t0, t1 := t1, t0;
        }
        assert t0 == Near(box, ray, i);
        assert t1 == Far(box, ray, i);
        tmin := Max(tmin, t0);
        tmax := Finite(MinBound(tmax, t1));
      }
      if !Below(tmin, tmax) {
        assert AxisStep(box, ray, i, before) == None;
        SlabsStayEmpty(box, ray, i + 1, tMin, tMax);
        return None;
      }
      assert AxisStep(box, ray, i, before) == Some(Interval(tmin, tmax));
    }
    if tmax.Infinite? {
      return None;
    }
    var point1 := At(ray, tmin);
    var normal1 := CalculateNormal(box, point1);
    var hits := [HitRecord(tmin, point1, normal1, Dot(ray.direction, normal1) < 0.0, box.material)];
    var point2 := At(ray, tmax.value);
    var normal2 := Neg(CalculateNormal(box, point2));
    hits := hits + [HitRecord(tmax.value, point2, normal2, Dot(ray.direction, normal2) < 0.0, box.material)];
    assert hits == EntryExit(box, ray, tmin, tmax.value);
    r := Some(hits);
  }

  /** `get_renderable_shape`: a box of size `max - min`. */
  function RenderShape(box: Box): (r: Option<RenderableShape>)
    ensures r.Some? && r.value.BoxShape?
    ensures box.min.x <= box.max.x && box.min.y <= box.max.y && box.min.z <= box.max.z ==>
              r.value.size.x >= 0.0 && r.value.size.y >= 0.0 && r.value.size.z >= 0.0
    ensures Add(box.min, r.value.size) == box.max
  {
    Some(BoxShape(Sub(box.max, box.min)))
  }

  /** After the swap the slab's near end is below its far end when
      `min <= max` on that axis. */
  lemma SlabOrdered(box: Box, ray: Ray, i: nat)
    requires i < 3 && Component(ray.direction, i) != 0.0
    requires Component(box.min, i) <= Component(box.max, i)
    ensures Near(box, ray, i) <= Far(box, ray, i)
  {
    var t := Crossing(ray, i, Component(box.min, i));
    CrossingCompare(ray, i, Component(box.min, i), t);
    CrossingCompare(ray, i, Component(box.max, i), t);
  }

  /** Comparing `t` with a crossing compares the ray's coordinate at `t`
      with the plane, the comparison flipping when the ray runs backwards
      along the axis. */
  lemma CrossingCompare(ray: Ray, i: nat, bound: real, t: real)
    requires i < 3 && Component(ray.direction, i) != 0.0
    ensures var d := Component(ray.direction, i);
            var c := Component(ray.origin, i) + t * d;
            && (1.0 / d < 0.0 <==> d < 0.0)
            && (d > 0.0 ==> (t >= Crossing(ray, i, bound) <==> c >= bound) && (t <= Crossing(ray, i, bound) <==> c <= bound))
            && (d < 0.0 ==> (t >= Crossing(ray, i, bound) <==> c <= bound) && (t <= Crossing(ray, i, bound) <==> c >= bound))
  {
    var d := Component(ray.direction, i);
    Threshold(bound - Component(ray.origin, i), d, t);
    if d < 0.0 {
      assert (1.0 / d) * d == 1.0;
    } else {
      assert (1.0 / d) * d == 1.0;
    }
  }

  /** One axis step keeps exactly the parameters of the interval whose
      point is between that axis's planes. */
  lemma {:induction false} AxisStepExact(box: Box, ray: Ray, i: nat, iv: Interval, t: real)
    requires i < 3 && AxisStep(box, ray, i, iv).Some?
    ensures var iv2 := AxisStep(box, ray, i, iv).value;
            (iv2.lo <= t && AtMost(t, iv2.hi)) <==> (iv.lo <= t && AtMost(t, iv.hi) && InSlab(box, ray, i, t))
  {
    if Component(ray.direction, i) != 0.0 {
      CrossingCompare(ray, i, Component(box.min, i), t);
      CrossingCompare(ray, i, Component(box.max, i), t);
    }
  }

  /** After `n` axes the interval holds exactly the parameters in
      `[tMin, tMax]` whose point is between the planes of each of those axes. */
  lemma {:induction false} SlabsExact(box: Box, ray: Ray, n: nat, tMin: real, tMax: Bound, t: real)
    requires n <= 3 && Slabs(box, ray, n, tMin, tMax).Some?
    ensures var iv := Slabs(box, ray, n, tMin, tMax).value;
            (iv.lo <= t && AtMost(t, iv.hi)) <==>
              (tMin <= t && AtMost(t, tMax) && forall j :: 0 <= j < n ==> InSlab(box, ray, j, t))
  {
    if n > 0 {
      SlabsExact(box, ray, n - 1, tMin, tMax, t);
      AxisStepExact(box, ray, n - 1, Slabs(box, ray, n - 1, tMin, tMax).value, t);
    }
  }

  lemma InSlabsInsideBox(box: Box, ray: Ray, t: real)
    ensures (forall j :: 0 <= j < 3 ==> InSlab(box, ray, j, t)) <==> InsideBox(box, At(ray, t))
  {
    assert InSlab(box, ray, 0, t) <==> box.min.x <= At(ray, t).x <= box.max.x;
    assert InSlab(box, ray, 1, t) <==> box.min.y <= At(ray, t).y <= box.max.y;
    assert InSlab(box, ray, 2, t) <==> box.min.z <= At(ray, t).z <= box.max.z;
  }

  /** The two hits are where the ray enters and leaves the box: a parameter
      in `[tMin, tMax]` lies between them exactly when its point is inside. */
  lemma HitsBracketInside(box: Box, ray: Ray, tMin: real, tMax: Bound, t: real)
    requires Hits(box, ray, tMin, tMax).Some?
    requires tMin <= t && AtMost(t, tMax)
    ensures var hits := Hits(box, ray, tMin, tMax).value;
            (hits[0].t <= t <= hits[1].t) <==> InsideBox(box, At(ray, t))
  {
    SlabsExact(box, ray, 3, tMin, tMax, t);
    InSlabsInsideBox(box, ray, t);
  }

  /** An axis keeps every stretch of the interval whose ends both lie
      between that axis's planes. */
  lemma AxisStepContains(box: Box, ray: Ray, i: nat, iv: Interval, t1: real, t2: real)
    requires i < 3 && iv.lo <= t1 < t2 && AtMost(t2, iv.hi)
    requires InSlab(box, ray, i, t1) && InSlab(box, ray, i, t2)
    ensures AxisStep(box, ray, i, iv).Some?
    ensures AxisStep(box, ray, i, iv).value.lo <= t1 && AtMost(t2, AxisStep(box, ray, i, iv).value.hi)
  {
    if Component(ray.direction, i) != 0.0 {
      CrossingCompare(ray, i, Component(box.min, i), t1);
      CrossingCompare(ray, i, Component(box.max, i), t1);
      CrossingCompare(ray, i, Component(box.min, i), t2);
      CrossingCompare(ray, i, Component(box.max, i), t2);
      assert Near(box, ray, i) <= t1 && t2 <= Far(box, ray, i);
    }
  }

  /** The interval after `n` axes keeps every stretch of `[tMin, tMax]` whose
      ends both lie in those axes' slabs. */
  lemma {:induction false} SlabsContain(box: Box, ray: Ray, n: nat, tMin: real, tMax: Bound, t1: real, t2: real)
    requires n <= 3 && tMin <= t1 < t2 && AtMost(t2, tMax)
    requires forall j :: 0 <= j < n ==> InSlab(box, ray, j, t1) && InSlab(box, ray, j, t2)
    ensures Slabs(box, ray, n, tMin, tMax).Some?
    ensures Slabs(box, ray, n, tMin, tMax).value.lo <= t1 && AtMost(t2, Slabs(box, ray, n, tMin, tMax).value.hi)
  {
    if n > 0 {
      SlabsContain(box, ray, n - 1, tMin, tMax, t1, t2);
      AxisStepContains(box, ray, n - 1, Slabs(box, ray, n - 1, tMin, tMax).value, t1, t2);
    }
  }

  /** Once an axis with a non-zero direction component has been applied, the
      interval's upper end is finite. */
  lemma {:induction false} SlabsFinite(box: Box, ray: Ray, n: nat, tMin: real, tMax: Bound, i: nat)
    requires i < n <= 3 && Component(ray.direction, i) != 0.0
    requires Slabs(box, ray, n, tMin, tMax).Some?
    ensures Slabs(box, ray, n, tMin, tMax).value.hi.Finite?
  {
    if i < n - 1 {
      SlabsFinite(box, ray, n - 1, tMin, tMax, i);
    }
  }

  /** A ray that moves and runs inside the box for a stretch of `[tMin, tMax]`
      is reported: the entry is at or before the stretch and the exit at or
      after it. With `HitsBracketInside`, `Some` is returned exactly when such
      a stretch exists. */
  lemma {:induction false} StretchInsideIsHit(box: Box, ray: Ray, tMin: real, tMax: Bound, t1: real, t2: real)
    requires ray.direction != Zero
    requires tMin <= t1 < t2 && AtMost(t2, tMax)
    requires InsideBox(box, At(ray, t1)) && InsideBox(box, At(ray, t2))
    ensures Hits(box, ray, tMin, tMax).Some?
    ensures Hits(box, ray, tMin, tMax).value[0].t <= t1 && t2 <= Hits(box, ray, tMin, tMax).value[1].t
  {
    InSlabsInsideBox(box, ray, t1);
    InSlabsInsideBox(box, ray, t2);
    SlabsContain(box, ray, 3, tMin, tMax, t1, t2);
    var i := if ray.direction.x != 0.0 then 0 else if ray.direction.y != 0.0 then 1 else 2;
    SlabsFinite(box, ray, 3, tMin, tMax, i);
  }

  /** For a ray that moves, `None` means no stretch of `[tMin, tMax]` runs
      inside the box. */
  lemma {:induction false} MissMeansOutside(box: Box, ray: Ray, tMin: real, tMax: Bound, t1: real, t2: real)
    requires ray.direction != Zero && Hits(box, ray, tMin, tMax) == None
    requires tMin <= t1 < t2 && AtMost(t2, tMax)
    ensures !(InsideBox(box, At(ray, t1)) && InsideBox(box, At(ray, t2)))
  {
    if InsideBox(box, At(ray, t1)) && InsideBox(box, At(ray, t2)) {
      StretchInsideIsHit(box, ray, tMin, tMax, t1, t2);
    }
  }
}
