/** The wedge (`Wedge::new`): the intersection of five half-spaces bounded by
    planes — the floor `y = 0`, the wall `x = 0`, the slope through the
    origin at the wedge angle, and the two caps `z = ±depth/2`. */
module Wedges {
  import opened Math
  import opened Core
  import opened Wrappers
  import opened Planes
  import opened Shapes
  import Csg

  function Floor(material: Material): Plane { Plane(Zero, UnitY, material) }

  function Wall(material: Material): Plane { Plane(Zero, UnitX, material) }

  /** The slope: through the origin with normal `(-sin θ, cos θ, 0)`. */
  function Slope(angleRad: real, material: Material, lib: FloatLib): Plane
  {
    Plane(Zero, Vec3(-lib.sin(angleRad), lib.cos(angleRad), 0.0), material)
  }

  /** The front cap at `z = depth/2`, normal `-Z`. */
  function FrontCap(depth: real, material: Material): Plane { Plane(Vec3(0.0, 0.0, depth / 2.0), NegZ, material) }

  /** The back cap at `z = -depth/2`, normal `+Z`. */
  function BackCap(depth: real, material: Material): Plane { Plane(Vec3(0.0, 0.0, -(depth / 2.0)), UnitZ, material) }

  /** The left-nested chain `((((floor ∩ wall) ∩ slope) ∩ front) ∩ back)`,
      every plane of the given material. Only the depth `size.z` and the
      angle shape it; the width and height are read and ignored. */
  function New(size: Vec3, angleRad: real, material: Material, lib: FloatLib): (w: Shape)
    ensures w == WedgeObj(CsgObj(Intersection,
                   CsgObj(Intersection,
                     CsgObj(Intersection,
                       CsgObj(Intersection, PlaneObj(Floor(material)), PlaneObj(Wall(material))),
                       PlaneObj(Slope(angleRad, material, lib))),
                     PlaneObj(FrontCap(size.z, material))),
                   PlaneObj(BackCap(size.z, material))))
    ensures WellFormed(w) && Materials(w) == {material}
  {
    var csg1 := Node(Intersection, PlaneLeaf(Floor(material)), PlaneLeaf(Wall(material)));
    var csg2 := Node(Intersection, csg1, PlaneLeaf(Slope(angleRad, material, lib)));
    var csg3 := Node(Intersection, csg2, PlaneLeaf(FrontCap(size.z, material)));
    WedgeObj(Node(Intersection, csg3, PlaneLeaf(BackCap(size.z, material))))
  }

  /** Wedges that agree in depth and angle are the same wedge. */
  lemma OnlyDepthAndAngleMatter(size1: Vec3, size2: Vec3, angleRad: real, material: Material, lib: FloatLib)
    requires size1.z == size2.z
    ensures New(size1, angleRad, material, lib) == New(size2, angleRad, material, lib)
  {
  }

  /** The floor, the wall and the caps are the planes `y = 0`, `x = 0` and
      `z = ±depth/2`; the slope holds the direction `(cos θ, sin θ)` in the
      `xy` plane at every depth. */
  lemma {:induction false} FacePlanes(depth: real, angleRad: real, material: Material, lib: FloatLib, p: Vec3, k: real)
    ensures OnPlane(Floor(material), p) <==> p.y == 0.0
    ensures OnPlane(Wall(material), p) <==> p.x == 0.0
    ensures OnPlane(FrontCap(depth, material), p) <==> p.z == depth / 2.0
    ensures OnPlane(BackCap(depth, material), p) <==> p.z == -(depth / 2.0)
    ensures OnPlane(Slope(angleRad, material, lib), Vec3(k * lib.cos(angleRad), k * lib.sin(angleRad), p.z))
  {
    var c, s := lib.cos(angleRad), lib.sin(angleRad);
    assert Dot(Vec3(k * c, k * s, p.z), Vec3(-s, c, 0.0)) == -(k * c) * s + (k * s) * c;
    assert -(k * c) * s + (k * s) * c == 0.0;
  }

  /** `intersect_all` hands the query to the chain, so a wedge always answers
      in non-decreasing `t`, whatever the square root does. */
  lemma HitsSorted(size: Vec3, angleRad: real, material: Material, lib: FloatLib, ray: Ray, tMin: real, tMax: Bound)
    ensures var r := Hits(New(size, angleRad, material, lib), ray, tMin, tMax, lib);
            r.Some? ==> SortedByT(r.value)
  {
    var w := New(size, angleRad, material, lib);
    assert WellFormed(w.body);
    assert WellFormed(w.body.left) && WellFormed(w.body.right);
    Csg.CombineShape(Intersection, Hits(w.body.left, ray, tMin, tMax, lib), Hits(w.body.right, ray, tMin, tMax, lib));
  }

  /** A wedge offers the renderer no shape of its own. */
  function RenderShape(size: Vec3, angleRad: real, material: Material, lib: FloatLib): (r: Option<RenderableShape>)
    ensures r == None
  {
    None
  }
}
