/** The scene's shapes as one tree (`Box<dyn Hittable>`): the primitives at
    the leaves, `CSGObject` at the inner nodes, and the `Wedge` and `Lens`
    wrappers, whose `intersect_all` hands the query to the tree they hold. */
module Shapes {
  import opened Math
  import opened Core
  import opened Wrappers
  import Planes
  import Spheres
  import Boxes
  import Cylinders
  import Cones
  import Csg

  datatype Shape =
    | SphereObj(sphere: Spheres.Sphere)
    | PlaneObj(plane: Planes.Plane)
    | BoxObj(box: Boxes.Box)
    | CylinderObj(cylinder: Cylinders.Cylinder)
    | ConeObj(cone: Cones.Cone)
    | CsgObj(op: CsgOperation, left: Shape, right: Shape)
    | WedgeObj(body: Shape)
    | LensObj(body: Shape)

  /** Every sphere in the tree has a non-zero radius (its normal divides by it). */
  predicate WellFormed(s: Shape)
  {
    match s
    case SphereObj(sp) => sp.radius != 0.0
    case CsgObj(_, l, r) => WellFormed(l) && WellFormed(r)
    case WedgeObj(b) => WellFormed(b)
    case LensObj(b) => WellFormed(b)
    case _ => true
  }

  /** The materials of the tree's leaves. */
  function Materials(s: Shape): set<Material>
  {
    match s
    case SphereObj(sp) => {sp.material}
    case PlaneObj(p) => {p.material}
    case BoxObj(b) => {b.material}
    case CylinderObj(c) => {c.material}
    case ConeObj(c) => {c.material}
    case CsgObj(_, l, r) => Materials(l) + Materials(r)
    case WedgeObj(b) => Materials(b)
    case LensObj(b) => Materials(b)
  }

  /** An inner node, with what it inherits from its children. */
  function Node(op: CsgOperation, left: Shape, right: Shape): (s: Shape)
    ensures s == CsgObj(op, left, right)
    ensures WellFormed(s) <==> WellFormed(left) && WellFormed(right)
    ensures Materials(s) == Materials(left) + Materials(right)
  {
    CsgObj(op, left, right)
  }

  /** A plane leaf. */
  function PlaneLeaf(p: Planes.Plane): (s: Shape)
    ensures s == PlaneObj(p) && WellFormed(s) && Materials(s) == {p.material}
  {
    PlaneObj(p)
  }

  /** A sphere leaf; well formed exactly when the radius is not zero. */
  function SphereLeaf(sp: Spheres.Sphere): (s: Shape)
    ensures s == SphereObj(sp) && (WellFormed(s) <==> sp.radius != 0.0) && Materials(s) == {sp.material}
  {
    SphereObj(sp)
  }

  function BoxLeaf(b: Boxes.Box): (s: Shape)
    ensures s == BoxObj(b) && WellFormed(s) && Materials(s) == {b.material}
  {
    BoxObj(b)
  }

  function CylinderLeaf(c: Cylinders.Cylinder): (s: Shape)
    ensures s == CylinderObj(c) && WellFormed(s) && Materials(s) == {c.material}
  {
    CylinderObj(c)
  }

  function ConeLeaf(c: Cones.Cone): (s: Shape)
    ensures s == ConeObj(c) && WellFormed(s) && Materials(s) == {c.material}
  {
    ConeObj(c)
  }

  /** The answer of `intersect_all` on the tree; no node ever answers
      `Some` of an empty list. */
  function Hits(s: Shape, ray: Ray, tMin: real, tMax: Bound, lib: FloatLib): (r: Option<seq<HitRecord>>)
    requires WellFormed(s)
    ensures r != Some([])
  {
    match s
    case SphereObj(sp) => Spheres.IntersectAll(sp, ray, tMin, tMax, lib)
    case PlaneObj(p) => Planes.IntersectAll(p, ray, tMin, tMax)
    case BoxObj(b) => Boxes.Hits(b, ray, tMin, tMax)
    case CylinderObj(c) => Cylinders.Hits(c, ray, tMin, tMax, lib)
    case ConeObj(c) => Cones.Hits(c, ray, tMin, tMax, lib)
    case CsgObj(op, l, r) => Csg.Combine(op, Hits(l, ray, tMin, tMax, lib), Hits(r, ray, tMin, tMax, lib))
    case WedgeObj(b) => Hits(b, ray, tMin, tMax, lib)
    case LensObj(b) => Hits(b, ray, tMin, tMax, lib)
  }

  /** `intersect_all` as the program runs it, node by node. */
  method IntersectAll(s: Shape, ray: Ray, tMin: real, tMax: Bound, lib: FloatLib) returns (r: Option<seq<HitRecord>>)
    requires WellFormed(s)
    ensures r == Hits(s, ray, tMin, tMax, lib)
  {
    match s
    case SphereObj(sp) => r := Spheres.IntersectAll(sp, ray, tMin, tMax, lib);
    case PlaneObj(p) => r := Planes.IntersectAll(p, ray, tMin, tMax);
    case BoxObj(b) => r := Boxes.IntersectAll(b, ray, tMin, tMax);
    case CylinderObj(c) => r := Cylinders.IntersectAll(c, ray, tMin, tMax, lib);
    case ConeObj(c) => r := Cones.IntersectAll(c, ray, tMin, tMax, lib);
    case CsgObj(op, left, right) =>
      var hl := IntersectAll(left, ray, tMin, tMax, lib);
      var hr := IntersectAll(right, ray, tMin, tMax, lib);
      r := Csg.IntersectAll(op, hl, hr);
    case WedgeObj(b) => r := IntersectAll(b, ray, tMin, tMax, lib);
    case LensObj(b) => r := IntersectAll(b, ray, tMin, tMax, lib);
  }

  /** Every hit lies in `[tMin, tMax]` and carries the material of a leaf. */
  predicate HitsFrom(r: Option<seq<HitRecord>>, tMin: real, tMax: Bound, materials: set<Material>)
  {
    r.Some? ==> forall i :: 0 <= i < |r.value| ==>
      tMin <= r.value[i].t && AtMost(r.value[i].t, tMax) && r.value[i].material in materials
  }

  /** Whatever the tree answers lies in the queried range and carries the
      material of one of its leaves. */
  lemma {:induction false} HitsInRangeWithLeafMaterial(s: Shape, ray: Ray, tMin: real, tMax: Bound, lib: FloatLib)
    requires WellFormed(s)
    ensures HitsFrom(Hits(s, ray, tMin, tMax, lib), tMin, tMax, Materials(s))
  {
    match s
    case SphereObj(sp) =>
    case PlaneObj(p) =>
    case BoxObj(b) =>
    case CylinderObj(c) => Cylinders.HitsAtRoots(c, ray, tMin, tMax, lib);
    case ConeObj(c) => Cones.HitsAtRoots(c, ray, tMin, tMax, lib);
    case CsgObj(op, left, right) =>
      HitsInRangeWithLeafMaterial(left, ray, tMin, tMax, lib);
      HitsInRangeWithLeafMaterial(right, ray, tMin, tMax, lib);
      CombineFrom(op, Hits(left, ray, tMin, tMax, lib), Hits(right, ray, tMin, tMax, lib),
                  tMin, tMax, Materials(left), Materials(right));
    case WedgeObj(b) => HitsInRangeWithLeafMaterial(b, ray, tMin, tMax, lib);
    case LensObj(b) => HitsInRangeWithLeafMaterial(b, ray, tMin, tMax, lib);
  }

  /** The sweep keeps the range and the materials of its children's hits. */
  lemma CombineFrom(op: CsgOperation, hl: Option<seq<HitRecord>>, hr: Option<seq<HitRecord>>,
                    tMin: real, tMax: Bound, ml: set<Material>, mr: set<Material>)
    requires HitsFrom(hl, tMin, tMax, ml) && HitsFrom(hr, tMin, tMax, mr)
    ensures HitsFrom(Csg.Combine(op, hl, hr), tMin, tMax, ml + mr)
  {
    var r := Csg.Combine(op, hl, hr);
    Csg.CombineShape(op, hl, hr);
    if r.Some? {
      forall i | 0 <= i < |r.value|
        ensures tMin <= r.value[i].t && AtMost(r.value[i].t, tMax) && r.value[i].material in ml + mr
      {
        assert r.value[i] in r.value;
        var h :| h in hl.GetOr([]) + hr.GetOr([]) && r.value[i] == Csg.Emit(op, hl.GetOr([]), h);
        if h in hl.GetOr([]) {
          var j :| 0 <= j < |hl.value| && hl.value[j] == h;
        } else {
          var j :| 0 <= j < |hr.value| && hr.value[j] == h;
        }
      }
    }
  }

  /** The tree with its `Wedge` and `Lens` wrappers taken off. */
  function Unwrapped(s: Shape): Shape
  {
    match s
    case WedgeObj(b) => Unwrapped(b)
    case LensObj(b) => Unwrapped(b)
    case _ => s
  }

  /** With a true square root every node but a bare cone answers in
      non-decreasing `t`: the sweep sorts, and each other primitive emits its
      hits near one first. */
  lemma {:induction false} HitsSorted(s: Shape, ray: Ray, tMin: real, tMax: Bound, lib: FloatLib)
    requires WellFormed(s) && Sound(lib) && !Unwrapped(s).ConeObj?
    ensures var r := Hits(s, ray, tMin, tMax, lib);
            r.Some? ==> SortedByT(r.value)
  {
    match s
    case SphereObj(sp) => Spheres.HitsAscending(sp, ray, tMin, tMax, lib);
    case PlaneObj(p) =>
    case BoxObj(b) =>
    case CylinderObj(c) => Cylinders.HitsAscending(c, ray, tMin, tMax, lib);
    case CsgObj(op, left, right) =>
      Csg.CombineShape(op, Hits(left, ray, tMin, tMax, lib), Hits(right, ray, tMin, tMax, lib));
    case WedgeObj(b) => HitsSorted(b, ray, tMin, tMax, lib);
    case LensObj(b) => HitsSorted(b, ray, tMin, tMax, lib);
  }
}
