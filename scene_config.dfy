/** `SceneConfig -> Scene`: the scene's objects are the configured objects
    followed by the clones of every object grid; its seed rays are the
    configured rays followed by the rays of every ray generator. */
module SceneConfigs {
  import opened Math
  import opened Core
  import opened Configs
  import opened Generators

  datatype SceneConfig = SceneConfig(
    rays: seq<RayConfig>,
    rayGenerators: seq<RayGenerator>,
    objectGenerators: seq<ObjectGenerator>,
    objects: seq<ObjectConfig>)

  /** `objects.into_iter().map(Into::into)` */
  function ConfiguredObjects(objects: seq<ObjectConfig>, lib: FloatLib): (hs: seq<Hittable>)
    ensures |hs| == |objects|
    ensures forall k :: 0 <= k < |objects| ==> hs[k] == IntoHittable(objects[k], lib)
  {
    seq(|objects|, k requires 0 <= k < |objects| => IntoHittable(objects[k], lib))
  }

  /** `rays.into_iter().map(Into::into)` */
  function ConfiguredRays(rays: seq<RayConfig>, lib: FloatLib): (rs: seq<Ray>)
    ensures |rs| == |rays|
    ensures forall k :: 0 <= k < |rays| ==> rs[k] == IntoRay(rays[k], lib)
  {
    seq(|rays|, k requires 0 <= k < |rays| => IntoRay(rays[k], lib))
  }

  function SceneObjects(cfg: SceneConfig, lib: FloatLib): seq<Hittable>
  {
    ConfiguredObjects(cfg.objects, lib) + AllGridObjects(cfg.objectGenerators, lib)
  }

  function SceneRays(cfg: SceneConfig, lib: FloatLib): seq<Ray>
  {
    ConfiguredRays(cfg.rays, lib) + AllGeneratorRays(cfg.rayGenerators, lib)
  }

  /** `SceneConfig::into` as the program runs it. */
  method Into(cfg: SceneConfig, lib: FloatLib) returns (objects: seq<Hittable>, rays: seq<Ray>)
    ensures objects == SceneObjects(cfg, lib)
    ensures rays == SceneRays(cfg, lib)
  {
    objects := [];
    for k := 0 to |cfg.objects|
      invariant objects == ConfiguredObjects(cfg.objects[..k], lib)
    {
      objects := objects + [IntoHittable(cfg.objects[k], lib)];
    }
    assert cfg.objects[..|cfg.objects|] == cfg.objects;
    objects := PushGridObjects(objects, cfg.objectGenerators, lib);
    rays := [];
    for k := 0 to |cfg.rays|
      invariant rays == ConfiguredRays(cfg.rays[..k], lib)
    {
      rays := rays + [IntoRay(cfg.rays[k], lib)];
    }
    assert cfg.rays[..|cfg.rays|] == cfg.rays;
    rays := PushGeneratorRays(rays, cfg.rayGenerators, lib);
  }

  /** The objects: every configured object in order, placed as configured,
      then the grid clones, `count_x * count_z` per grid, all placed. */
  lemma {:induction false} SceneObjectsLayout(cfg: SceneConfig, lib: FloatLib)
    ensures var objects := SceneObjects(cfg, lib);
            && |objects| == |cfg.objects| + ObjectCount(cfg.objectGenerators)
            && (forall k :: 0 <= k < |cfg.objects| ==> objects[k] == IntoHittable(cfg.objects[k], lib))
            && objects[|cfg.objects|..] == AllGridObjects(cfg.objectGenerators, lib)
            && (forall h :: h in objects ==> h.Placed?)
  {
    var objects := SceneObjects(cfg, lib);
    AllGridObjectsShape(cfg.objectGenerators, lib);
    forall h | h in objects
      ensures h.Placed?
    {
      if h !in AllGridObjects(cfg.objectGenerators, lib) {
        var k :| 0 <= k < |cfg.objects| && objects[k] == h;
      }
    }
  }

  /** The seed rays: every configured ray in order, in air, then the rays of
      the generators in generator order. */
  lemma {:induction false} SceneRaysLayout(cfg: SceneConfig, lib: FloatLib)
    ensures var rays := SceneRays(cfg, lib);
            && |rays| == |cfg.rays| + RayCount(cfg.rayGenerators)
            && (forall k :: 0 <= k < |cfg.rays| ==> rays[k] == IntoRay(cfg.rays[k], lib) && rays[k].currentIor == 1.0)
            && rays[|cfg.rays|..] == AllGeneratorRays(cfg.rayGenerators, lib)
  {
    AllGeneratorRaysCount(cfg.rayGenerators, lib);
  }

  /** Adding a generator appends its rays, or its clones, after all earlier
      ones and changes nothing before them. */
  lemma AppendGenerator(cfg: SceneConfig, gr: RayGenerator, go: ObjectGenerator, lib: FloatLib)
    ensures SceneRays(cfg.(rayGenerators := cfg.rayGenerators + [gr]), lib) == SceneRays(cfg, lib) + GeneratorRays(gr, lib)
    ensures SceneObjects(cfg.(objectGenerators := cfg.objectGenerators + [go]), lib) == SceneObjects(cfg, lib) + GridObjects(go, lib)
  {
    assert (cfg.rayGenerators + [gr])[..|cfg.rayGenerators|] == cfg.rayGenerators;
    assert (cfg.objectGenerators + [go])[..|cfg.objectGenerators|] == cfg.objectGenerators;
  }
}
