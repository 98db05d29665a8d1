/** The configured shapes (`ShapeConfig`) and the builder `into_with` that
    turns one, with a material, into a shape tree. The same leaf cases are
    built again, inline, by the program's older entry point. */
module ShapeConfigs {
  import opened Math
  import opened Core
  import opened Planes
  import opened Spheres
  import opened Boxes
  import opened Cones
  import opened Shapes
  import Cylinders
  import Wedges
  import Lenses

  datatype ShapeConfig =
    | SphereConfig(radius: real)
    | BoxConfig(size: Vec3)
    | PlaneConfig(normal: Vec3)
    | CylinderConfig(height: real, radius: real)
    | ConeConfig(angleDeg: real, height: real)
    | WedgeConfig(size: Vec3, angleDeg: real)
    | LensConfig(thickness: real, diameter: real, r1: Lenses.Curvature, r2: Lenses.Curvature)
    | UnionConfig(a: ShapeConfig, b: ShapeConfig)
    | IntersectionConfig(a: ShapeConfig, b: ShapeConfig)
    | DifferenceConfig(a: ShapeConfig, b: ShapeConfig)

  /** No sphere, and no finite lens surface, has radius zero. */
  predicate ConfigWellFormed(cfg: ShapeConfig)
  {
    match cfg
    case SphereConfig(r) => r != 0.0
    case LensConfig(_, _, r1, r2) => (r1.Curved? ==> r1.radius != 0.0) && (r2.Curved? ==> r2.radius != 0.0)
    case UnionConfig(a, b) => ConfigWellFormed(a) && ConfigWellFormed(b)
    case IntersectionConfig(a, b) => ConfigWellFormed(a) && ConfigWellFormed(b)
    case DifferenceConfig(a, b) => ConfigWellFormed(a) && ConfigWellFormed(b)
    case _ => true
  }

  /** The top cap of a cylinder: the plane `y = h/2`, normal `-Y`. */
  function TopCap(height: real, material: Material): Plane { Plane(Vec3(0.0, height / 2.0, 0.0), NegY, material) }

  /** The bottom cap of a cylinder: the plane `y = -h/2`, normal `+Y`. */
  function BottomCap(height: real, material: Material): Plane { Plane(Vec3(0.0, -(height / 2.0), 0.0), UnitY, material) }

  /** The cap of a cone: the plane `y = height`, normal `-Y`. */
  function ConeCap(height: real, material: Material): Plane { Plane(Vec3(0.0, height, 0.0), NegY, material) }

  /** `into_with`: the shape tree a configuration describes, every leaf
      carrying `material`. */
  function IntoWith(cfg: ShapeConfig, material: Material, lib: FloatLib): Shape
  {
    match cfg
    case SphereConfig(radius) => SphereLeaf(Sphere(Zero, radius, material))
    case BoxConfig(size) =>
      var half := Scale(1.0 / 2.0, size);
      BoxLeaf(Box(Neg(half), half, material))
    case PlaneConfig(normal) => PlaneLeaf(Plane(Zero, normal, material))
    case CylinderConfig(height, radius) =>
      var body := CylinderLeaf(Cylinders.Cylinder(Zero, UnitY, radius, material));
      var cappedCylinder := Node(Intersection, body, PlaneLeaf(TopCap(height, material)));
      Node(Intersection, cappedCylinder, PlaneLeaf(BottomCap(height, material)))
    case ConeConfig(angleDeg, height) =>
      var cone := ConeLeaf(Cones.New(Zero, UnitY, lib.toRadians(angleDeg), material, lib));
      Node(Intersection, cone, PlaneLeaf(ConeCap(height, material)))
    case WedgeConfig(size, angleDeg) => Wedges.New(size, lib.toRadians(angleDeg), material, lib)
    case LensConfig(thickness, diameter, r1, r2) => Lenses.New(thickness, diameter, r1, r2, material)
    case UnionConfig(a, b) => Node(Union, IntoWith(a, material, lib), IntoWith(b, material, lib))
    case IntersectionConfig(a, b) => Node(Intersection, IntoWith(a, material, lib), IntoWith(b, material, lib))
    case DifferenceConfig(a, b) => Node(Difference, IntoWith(a, material, lib), IntoWith(b, material, lib))
  }

  /** Every leaf of a converted configuration carries the given material,
      and the tree is well formed exactly when the configuration is. */
  lemma {:induction false} IntoWithMaterial(cfg: ShapeConfig, material: Material, lib: FloatLib)
    ensures Materials(IntoWith(cfg, material, lib)) == {material}
    ensures WellFormed(IntoWith(cfg, material, lib)) <==> ConfigWellFormed(cfg)
  {
    match cfg
    case UnionConfig(a, b) =>
      IntoWithMaterial(a, material, lib);
      IntoWithMaterial(b, material, lib);
    case IntersectionConfig(a, b) =>
      IntoWithMaterial(a, material, lib);
      IntoWithMaterial(b, material, lib);
    case DifferenceConfig(a, b) =>
      IntoWithMaterial(a, material, lib);
      IntoWithMaterial(b, material, lib);
    case _ =>
  }

  /** A configured box is centred on the origin: `min = -max` and
      `max - min` is the configured size. */
  lemma BoxCentred(size: Vec3, material: Material, lib: FloatLib)
    ensures var b := IntoWith(BoxConfig(size), material, lib).box;
            b.min == Neg(b.max) && Sub(b.max, b.min) == size
  {
  }

  /** A configured sphere is centred on the origin with the configured radius. */
  lemma SphereCentred(radius: real, material: Material, lib: FloatLib)
    ensures var s := IntoWith(SphereConfig(radius), material, lib);
            s.SphereObj? && s.sphere.center == Zero && s.sphere.radius == radius
  {
  }

  /** A configured cylinder is the infinite cylinder of the configured
      radius around the `y` axis, cut by the planes `y = h/2` and `y = -h/2`,
      whose normals point back at the middle. */
  lemma {:induction false} CylinderLayout(height: real, radius: real, material: Material, lib: FloatLib, p: Vec3)
    ensures var s := IntoWith(CylinderConfig(height, radius), material, lib);
            && s == CsgObj(Intersection, CsgObj(Intersection, CylinderObj(s.left.left.cylinder),
                                                PlaneObj(TopCap(height, material))),
                           PlaneObj(BottomCap(height, material)))
            && s.left.left.cylinder.axisPoint == Zero && s.left.left.cylinder.axisDir == UnitY
            && s.left.left.cylinder.radius == radius
    ensures OnPlane(TopCap(height, material), p) <==> p.y == height / 2.0
    ensures OnPlane(BottomCap(height, material), p) <==> p.y == -(height / 2.0)
    ensures Dot(TopCap(height, material).normal, Vec3(0.0, height / 2.0, 0.0)) == -(height / 2.0)
    ensures Dot(BottomCap(height, material).normal, Vec3(0.0, -(height / 2.0), 0.0)) == -(height / 2.0)
  {
    HorizontalPlane(height / 2.0, NegY, material, p);
    HorizontalPlane(-(height / 2.0), UnitY, material, p);
  }

  /** A configured cone has its vertex at the origin and, with a true square
      root, the unit `y` axis; it is cut by the plane `y = height`. */
  lemma {:induction false} ConeLayout(angleDeg: real, height: real, material: Material, lib: FloatLib, p: Vec3)
    requires Sound(lib)
    ensures var s := IntoWith(ConeConfig(angleDeg, height), material, lib);
            && s.CsgObj? && s.op == Intersection && s.left.ConeObj? && s.right == PlaneObj(ConeCap(height, material))
            && s.left.cone.vertex == Zero && s.left.cone.axisDir == UnitY
    ensures OnPlane(ConeCap(height, material), p) <==> p.y == height
  {
    var cone := Cones.New(Zero, UnitY, lib.toRadians(angleDeg), material, lib);
    assert IntoWith(ConeConfig(angleDeg, height), material, lib)
        == Node(Intersection, ConeLeaf(cone), PlaneLeaf(ConeCap(height, material)));
    assert LengthSquared(UnitY) == 1.0;
    NormalizeOfUnit(lib, UnitY);
    assert cone.axisDir == Normalize(lib, UnitY);
    HorizontalPlane(height, NegY, material, p);
  }

  /** A plane through `(0, y, 0)` with normal `±Y` holds exactly the points
      at height `y`. */
  lemma HorizontalPlane(y: real, normal: Vec3, material: Material, p: Vec3)
    requires normal == UnitY || normal == NegY
    ensures OnPlane(Plane(Vec3(0.0, y, 0.0), normal, material), p) <==> p.y == y
  {
    var d := Dot(Sub(p, Vec3(0.0, y, 0.0)), normal);
    assert d == p.y - y || d == y - p.y;
  }

  /** A union, intersection or difference configuration becomes a CSG node
      with the same operation over the converted operands. */
  lemma CsgConfigsKeepOperation(a: ShapeConfig, b: ShapeConfig, material: Material, lib: FloatLib)
    ensures IntoWith(UnionConfig(a, b), material, lib) == CsgObj(Union, IntoWith(a, material, lib), IntoWith(b, material, lib))
    ensures IntoWith(IntersectionConfig(a, b), material, lib) == CsgObj(Intersection, IntoWith(a, material, lib), IntoWith(b, material, lib))
    ensures IntoWith(DifferenceConfig(a, b), material, lib) == CsgObj(Difference, IntoWith(a, material, lib), IntoWith(b, material, lib))
  {
  }
}
