/** The plain configuration records: materials, seed rays, placements and
    the objects they make up. */
module Configs {
  import opened Math
  import opened Core
  import opened Shapes
  import opened ShapeConfigs

  datatype MaterialConfig = MirrorConfig | GlassConfig(ior: real) | HalfMirrorConfig(reflectance: real)

  /** `MaterialConfig -> Material`: the same kind with the same parameter. */
  function IntoMaterial(cfg: MaterialConfig): (m: Material)
    ensures m.Mirror? <==> cfg.MirrorConfig?
    ensures m.Glass? <==> cfg.GlassConfig?
    ensures m.Glass? ==> m.ior == cfg.ior
    ensures m.HalfMirror? ==> m.reflectance == cfg.reflectance
  {
    match cfg
    case MirrorConfig => Mirror
    case GlassConfig(ior) => Glass(ior)
    case HalfMirrorConfig(reflectance) => HalfMirror(reflectance)
  }

  /** Distinct material configurations give distinct materials. */
  lemma IntoMaterialInjective(c1: MaterialConfig, c2: MaterialConfig)
    ensures IntoMaterial(c1) == IntoMaterial(c2) <==> c1 == c2
  {
  }

  datatype RayConfig = RayConfig(origin: Vec3, direction: Vec3)

  /** `RayConfig -> Ray`: the direction normalized, the ray in air. */
  function IntoRay(cfg: RayConfig, lib: FloatLib): (r: Ray)
    ensures r.origin == cfg.origin && r.currentIor == 1.0
  {
    Ray(cfg.origin, Normalize(lib, cfg.direction), 1.0)
  }

  /** With a true square root a seed ray with a non-zero direction has a
      unit direction pointing the configured way. */
  lemma IntoRayUnit(cfg: RayConfig, lib: FloatLib)
    requires Sound(lib) && LengthSquared(cfg.direction) != 0.0
    ensures LengthSquared(IntoRay(cfg, lib).direction) == 1.0
    ensures exists k :: k > 0.0 && IntoRay(cfg, lib).direction == Scale(k, cfg.direction)
  {
    NormalizeUnit(lib, cfg.direction);
  }

  datatype TransformConfig = TransformConfig(position: Vec3, rotationYDeg: real)

  datatype ObjectConfig = ObjectConfig(shape: ShapeConfig, material: MaterialConfig, transform: TransformConfig)

  /** A scene object: a shape wrapped in the placement of its configuration,
      or a shape used as built. */
  datatype Hittable = Placed(shape: Shape, transform: TransformConfig) | Bare(shape: Shape)

  /** `ObjectConfig -> Box<dyn Hittable>`: the shape built with the
      configured material, wrapped in the configured placement. */
  function IntoHittable(obj: ObjectConfig, lib: FloatLib): (h: Hittable)
    ensures h.Placed? && h.transform == obj.transform
  {
    Placed(IntoWith(obj.shape, IntoMaterial(obj.material), lib), obj.transform)
  }

  /** The placed shape carries the configured material at every leaf, and
      is well formed exactly when its configuration is. */
  lemma IntoHittableMaterial(obj: ObjectConfig, lib: FloatLib)
    ensures Materials(IntoHittable(obj, lib).shape) == {IntoMaterial(obj.material)}
    ensures WellFormed(IntoHittable(obj, lib).shape) <==> ConfigWellFormed(obj.shape)
  {
    IntoWithMaterial(obj.shape, IntoMaterial(obj.material), lib);
  }

  /** The template moved to `position`, everything else kept. */
  function MovedTo(obj: ObjectConfig, position: Vec3): (moved: ObjectConfig)
    ensures moved.transform.position == position
    ensures moved.shape == obj.shape && moved.material == obj.material
    ensures moved.transform.rotationYDeg == obj.transform.rotationYDeg
  {
    obj.(transform := obj.transform.(position := position))
  }
}
