/** The lens (`Lens::new`): two refracting surfaces on the `z` axis, each a
    sphere or, for an infinite radius of curvature, a plane, intersected with
    each other and with a cylinder of the lens's diameter around the axis. */
module Lenses {
  import opened Math
  import opened Core
  import opened Wrappers
  import opened Planes
  import opened Spheres
  import Cylinders
  import opened Shapes
  import Csg

  /** A radius of curvature: finite, or not (`is_finite()` false), which
      makes the surface flat. */
  datatype Curvature = Curved(radius: real) | Flat

  /** The first surface, its vertex at `z = -t/2`: a sphere of radius `|r1|`
      centred at `z = -t/2 + r1`, or the plane `z = -t/2` with normal `+Z`. */
  function FirstSurface(halfThickness: real, r1: Curvature, material: Material): Shape
  {
    match r1
    case Curved(r) => SphereLeaf(Sphere(Vec3(0.0, 0.0, -halfThickness + r), Abs(r), material))
    case Flat => PlaneLeaf(Plane(Vec3(0.0, 0.0, -halfThickness), UnitZ, material))
  }

  /** The second surface, its vertex at `z = t/2`: a sphere of radius `|r2|`
      centred at `z = t/2 + r2`, or the plane `z = t/2` with normal `-Z`. */
  function SecondSurface(halfThickness: real, r2: Curvature, material: Material): Shape
  {
    match r2
    case Curved(r) => SphereLeaf(Sphere(Vec3(0.0, 0.0, halfThickness + r), Abs(r), material))
    case Flat => PlaneLeaf(Plane(Vec3(0.0, 0.0, halfThickness), NegZ, material))
  }

  /** The aperture: the cylinder of radius `diameter/2` around the `z` axis. */
  function Aperture(diameter: real, material: Material): Cylinders.Cylinder
  {
    Cylinders.Cylinder(Zero, UnitZ, diameter / 2.0, material)
  }

  /** `(s1 ∩ s2) ∩ aperture`, every part of the given material; well formed
      exactly when no finite radius of curvature is zero. */
  function New(centerThickness: real, diameter: real, r1: Curvature, r2: Curvature, material: Material): (l: Shape)
    ensures l == LensObj(CsgObj(Intersection,
                   CsgObj(Intersection, FirstSurface(centerThickness / 2.0, r1, material),
                                        SecondSurface(centerThickness / 2.0, r2, material)),
                   CylinderObj(Aperture(diameter, material))))
    ensures Materials(l) == {material}
    ensures WellFormed(l) <==> (r1.Curved? ==> r1.radius != 0.0) && (r2.Curved? ==> r2.radius != 0.0)
  {
    var halfThickness := centerThickness / 2.0;
    var s1 := FirstSurface(halfThickness, r1, material);
    var s2 := SecondSurface(halfThickness, r2, material);
    var infiniteLens := Node(Intersection, s1, s2);
    LensObj(Node(Intersection, infiniteLens, CylinderLeaf(Aperture(diameter, material))))
  }

  /** The surface passes through `p`. */
  predicate SurfaceThrough(s: Shape, p: Vec3)
  {
    match s
    case SphereObj(sp) => OnSphere(sp, p)
    case PlaneObj(pl) => OnPlane(pl, p)
    case _ => false
  }

  /** Each surface meets the axis at its vertex, `z = ∓t/2`. */
  lemma {:induction false} VerticesOnAxis(halfThickness: real, r1: Curvature, r2: Curvature, material: Material)
    ensures SurfaceThrough(FirstSurface(halfThickness, r1, material), Vec3(0.0, 0.0, -halfThickness))
    ensures SurfaceThrough(SecondSurface(halfThickness, r2, material), Vec3(0.0, 0.0, halfThickness))
  {
    match r1
    case Curved(r) =>
      var sp := Sphere(Vec3(0.0, 0.0, -halfThickness + r), Abs(r), material);
      assert Sub(Vec3(0.0, 0.0, -halfThickness), sp.center) == Vec3(0.0, 0.0, -r);
      assert Abs(r) * Abs(r) == r * r;
    case Flat =>
    match r2
    case Curved(r) =>
      var sp := Sphere(Vec3(0.0, 0.0, halfThickness + r), Abs(r), material);
      assert Sub(Vec3(0.0, 0.0, halfThickness), sp.center) == Vec3(0.0, 0.0, -r);
      assert Abs(r) * Abs(r) == r * r;
    case Flat =>
  }

  /** A flat surface is the whole plane through its vertex. */
  lemma FlatSurfaces(halfThickness: real, material: Material, p: Vec3)
    ensures SurfaceThrough(FirstSurface(halfThickness, Flat, material), p) <==> p.z == -halfThickness
    ensures SurfaceThrough(SecondSurface(halfThickness, Flat, material), p) <==> p.z == halfThickness
  {
  }

  /** The aperture's surface is at distance `diameter/2` from the `z` axis:
      the part of `p` off the axis is `(x, y, 0)`. */
  lemma ApertureAroundAxis(diameter: real, material: Material, p: Vec3)
    ensures var c := Aperture(diameter, material);
            && Perp(Sub(p, c.axisPoint), c.axisDir) == Vec3(p.x, p.y, 0.0)
            && c.radius * c.radius == diameter * diameter / 4.0
  {
  }

  /** `intersect_all` hands the query to the intersection tree, so a lens
      always answers in non-decreasing `t`. */
  lemma HitsSorted(centerThickness: real, diameter: real, r1: Curvature, r2: Curvature, material: Material,
                   lib: FloatLib, ray: Ray, tMin: real, tMax: Bound)
    requires (r1.Curved? ==> r1.radius != 0.0) && (r2.Curved? ==> r2.radius != 0.0)
    ensures var r := Hits(New(centerThickness, diameter, r1, r2, material), ray, tMin, tMax, lib);
            r.Some? ==> SortedByT(r.value)
  {
    var l := New(centerThickness, diameter, r1, r2, material);
    assert WellFormed(l.body.left) && WellFormed(l.body.right);
    var hl, hr := Hits(l.body.left, ray, tMin, tMax, lib), Hits(l.body.right, ray, tMin, tMax, lib);
    assert Hits(l, ray, tMin, tMax, lib) == Hits(l.body, ray, tMin, tMax, lib) == Csg.Combine(Intersection, hl, hr);
    Csg.CombineShape(Intersection, hl, hr);
  }
}
