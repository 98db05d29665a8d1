/** The program's older entry point: it builds the configured objects with
    their placement, then traces every configured seed ray for at most ten
    bounces, a miss recording the point 200 units along the ray. Reading the
    configuration and writing one CSV file per path are not modelled. */
module MainProgram {
  import opened Math
  import opened Core
  import opened Configs
  import opened ShapeConfigs
  import opened Tracer
  import SceneConfigs

  const MaxBounces: nat := 10
  const EscapeDistance: real := 200.0

  const MainSettings := Settings(MaxBounces, EscapeDistance)

  datatype MainSceneConfig = MainSceneConfig(rays: seq<RayConfig>, objects: seq<ObjectConfig>)

  /** The object loop: each object is built with its material and wrapped in
      its placement, in configuration order. */
  method BuildScene(objects: seq<ObjectConfig>, lib: FloatLib) returns (scene: seq<Hittable>)
    ensures scene == SceneConfigs.ConfiguredObjects(objects, lib)
  {
    scene := [];
    for k := 0 to |objects|
      invariant |scene| == k
      invariant forall m :: 0 <= m < k ==> scene[m] == IntoHittable(objects[m], lib)
    {
      var material := match objects[k].material
        case MirrorConfig => Mirror
        case GlassConfig(ior) => Glass(ior)
        case HalfMirrorConfig(reflectance) => HalfMirror(reflectance);
      var primitive := IntoWith(objects[k].shape, material, lib);
      scene := scene + [Placed(primitive, objects[k].transform)];
    }
  }

  /** The ray loop: path `i` is the bounce-loop path of seed ray `i`, made
      from its configuration; `draws(i)` are the random numbers drawn while
      tracing it. */
  method TraceRays(objects: seq<Intersector>, rays: seq<RayConfig>, draws: nat -> nat -> real, lib: FloatLib)
    returns (paths: seq<seq<Vec3>>)
    ensures |paths| == |rays|
    ensures forall i :: 0 <= i < |rays| ==> paths[i] == Path(objects, IntoRay(rays[i], lib), MainSettings, draws(i), lib)
  {
    paths := [];
    for i := 0 to |rays|
      invariant |paths| == i
      invariant forall m :: 0 <= m < i ==> paths[m] == Path(objects, IntoRay(rays[m], lib), MainSettings, draws(m), lib)
    {
      var ray := Ray(rays[i].origin, Normalize(lib, rays[i].direction), 1.0);
      var pathPoints := TracePath(objects, ray, MainSettings, draws(i), lib);
      paths := paths + [pathPoints];
    }
  }

  /** The whole run; `intersector(h)` is the scene object `h`'s
      `intersect_all`, whose placement code is not part of this model. */
  method Run(cfg: MainSceneConfig, intersector: Hittable -> Intersector, draws: nat -> nat -> real, lib: FloatLib)
    returns (scene: seq<Hittable>, paths: seq<seq<Vec3>>)
    ensures scene == SceneConfigs.ConfiguredObjects(cfg.objects, lib)
    ensures |paths| == |cfg.rays|
    ensures forall i :: 0 <= i < |cfg.rays| ==>
              paths[i] == Path(seq(|scene|, k requires 0 <= k < |scene| => intersector(scene[k])),
                               IntoRay(cfg.rays[i], lib), MainSettings, draws(i), lib)
  {
    scene := BuildScene(cfg.objects, lib);
    var objects := seq(|scene|, k requires 0 <= k < |scene| => intersector(scene[k]));
    paths := TraceRays(objects, cfg.rays, draws, lib);
  }

  /** Every path starts at its configured origin and has between 1 and 11
      points; one with fewer than 11 ends at the escape point 200 units along
      the last ray, and the seed ray travels in air. */
  lemma {:induction false} MainPathShape(objects: seq<Intersector>, cfg: RayConfig, draws: nat -> real, lib: FloatLib)
    ensures var path := Path(objects, IntoRay(cfg, lib), MainSettings, draws, lib);
            var ev := Events(objects, IntoRay(cfg, lib), 0, MaxBounces, draws, MaterialTurn(lib));
            && 1 <= |path| <= 11
            && path[0] == cfg.origin
            && ev[0].ray.currentIor == 1.0
            && (|path| < 11 ==>
                  ev[|ev| - 1].Escaped? &&
                  path[|path| - 1] == Add(ev[|ev| - 1].ray.origin, Scale(200.0, ev[|ev| - 1].ray.direction)))
  {
    PathShape(objects, IntoRay(cfg, lib), MainSettings, draws, lib);
  }
}
