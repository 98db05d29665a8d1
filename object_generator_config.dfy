/** `build_scene_from_config`: the seed rays come from the ray generators
    only; the scene objects are the grid clones, placed, followed by the
    configured objects built from their shape and material alone. */
module ObjectGeneratorConfigs {
  import opened Math
  import opened Core
  import opened Configs
  import opened ShapeConfigs
  import opened Generators
  import SceneConfigs

  datatype SceneDefinition = SceneDefinition(
    rayGenerators: seq<RayGenerator>,
    objectGenerators: seq<ObjectGenerator>,
    objects: seq<ObjectConfig>)

  /** A configured object as this builder adds it: its placement is not
      applied. */
  function BareObject(obj: ObjectConfig, lib: FloatLib): (h: Hittable)
    ensures h.Bare?
  {
    Bare(IntoWith(obj.shape, IntoMaterial(obj.material), lib))
  }

  function BareObjects(objects: seq<ObjectConfig>, lib: FloatLib): (hs: seq<Hittable>)
    ensures |hs| == |objects|
    ensures forall k :: 0 <= k < |objects| ==> hs[k] == BareObject(objects[k], lib)
  {
    seq(|objects|, k requires 0 <= k < |objects| => BareObject(objects[k], lib))
  }

  function DefinitionRays(def: SceneDefinition, lib: FloatLib): seq<Ray>
  {
    AllGeneratorRays(def.rayGenerators, lib)
  }

  function DefinitionObjects(def: SceneDefinition, lib: FloatLib): seq<Hittable>
  {
    AllGridObjects(def.objectGenerators, lib) + BareObjects(def.objects, lib)
  }

  /** `build_scene_from_config` as the program runs it. */
  method BuildSceneFromConfig(def: SceneDefinition, lib: FloatLib) returns (rays: seq<Ray>, hittables: seq<Hittable>)
    ensures rays == DefinitionRays(def, lib)
    ensures hittables == DefinitionObjects(def, lib)
  {
    rays := PushGeneratorRays([], def.rayGenerators, lib);
    EmptyPrefix(AllGeneratorRays(def.rayGenerators, lib));
    hittables := PushGridObjects([], def.objectGenerators, lib);
    EmptyPrefix(AllGridObjects(def.objectGenerators, lib));
    hittables := PushBareObjects(hittables, def.objects, lib);
  }

  lemma EmptyPrefix<T>(s: seq<T>)
    ensures [] + s == s
  {
  }

  /** The loop over the configured objects: each is built from its shape
      and material and appended without its placement. */
  method PushBareObjects(acc: seq<Hittable>, objects: seq<ObjectConfig>, lib: FloatLib) returns (hittables: seq<Hittable>)
    ensures hittables == acc + BareObjects(objects, lib)
  {
    hittables := acc;
    for k := 0 to |objects|
      invariant hittables == acc + BareObjects(objects[..k], lib)
    {
      var material := IntoMaterial(objects[k].material);
      var hittable := Bare(IntoWith(objects[k].shape, material, lib));
      BareObjectsSnoc(objects, k, lib);
      hittables := hittables + [hittable];
    }
    assert objects[..|objects|] == objects;
  }

  lemma BareObjectsSnoc(objects: seq<ObjectConfig>, k: nat, lib: FloatLib)
    requires k < |objects|
    ensures BareObjects(objects[..k + 1], lib) == BareObjects(objects[..k], lib) + [BareObject(objects[k], lib)]
  {
  }

  /** The objects: `count_x * count_z` placed clones per grid first, then
      every configured object in order, unplaced and built with its own
      material. */
  lemma {:induction false} DefinitionObjectsLayout(def: SceneDefinition, lib: FloatLib)
    ensures var hs := DefinitionObjects(def, lib);
            var n := ObjectCount(def.objectGenerators);
            && |hs| == n + |def.objects|
            && (forall k :: 0 <= k < n ==> hs[k].Placed?)
            && (forall k :: 0 <= k < |def.objects| ==>
                  hs[n + k].Bare? && hs[n + k].shape == IntoWith(def.objects[k].shape, IntoMaterial(def.objects[k].material), lib))
  {
    var hs := DefinitionObjects(def, lib);
    var clones := AllGridObjects(def.objectGenerators, lib);
    var bare := BareObjects(def.objects, lib);
    var n := ObjectCount(def.objectGenerators);
    AllGridObjectsShape(def.objectGenerators, lib);
    assert hs == clones + bare && |clones| == n;
    forall k | 0 <= k < n
      ensures hs[k].Placed?
    {
      assert hs[k] == clones[k] && clones[k] in clones;
    }
    forall k | 0 <= k < |def.objects|
      ensures hs[n + k] == BareObject(def.objects[k], lib)
    {
      assert hs[n + k] == bare[k];
    }
  }

  /** A configured object's placement has no effect on what this builder
      adds: objects that differ only in placement give the same object. */
  lemma BareIgnoresTransform(obj: ObjectConfig, transform: TransformConfig, lib: FloatLib)
    ensures BareObject(obj.(transform := transform), lib) == BareObject(obj, lib)
  {
  }

  /** The rays are those `SceneConfig::into` makes from the same generators
      and no configured rays. */
  lemma SameRaysAsSceneConfig(def: SceneDefinition, lib: FloatLib)
    ensures DefinitionRays(def, lib)
            == SceneConfigs.SceneRays(SceneConfigs.SceneConfig([], def.rayGenerators, def.objectGenerators, def.objects), lib)
  {
    assert SceneConfigs.ConfiguredRays([], lib) == [];
  }
}
