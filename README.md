# Ray tracer core in Dafny

This project models the geometric and optical core of a small Rust ray
tracer for simulating optical experiments. Seed rays are traced through a
scene of mirrors, glass bodies and half mirrors, and each ray's path is
recorded as a list of points.

All of the engine's layers share one contract. `intersect_all(ray, t_min, t_max)`
answers with an optional list of hit records, each holding `t`, the point, the
normal, `front_face` and the material. The model covers the following:

- **Primitives**:
  - the slab-test axis-aligned box (`Boxes`);
  - the plane (`Planes`);
  - the sphere (`Spheres`);
  - the infinite cylinder (`Cylinders`);
  - the infinite cone (`Cones`).

  The cylinder and the cone share a generic quadratic solver (`Quadrics`) and
  the `for &t in &[t1, t2]` root loop (`Core.PushInRange`).
- **Constructive solid geometry**: `CSGObject::intersect_all` (`Csg`) merges
  and sorts the children's hits, then sweeps them with two inside flags. Its
  specification is by parity: after any prefix, a flag equals the parity of
  the hits classified to that child.
- **Shape trees** (`Shapes`): leaves, CSG nodes, and the `Wedge` and `Lens`
  wrappers, which only delegate. The constructors are modelled too: `Wedge::new`
  (`Wedges`), `Lens::new` (`Lenses`) and `ShapeConfig::into_with` (`ShapeConfigs`).
- **Reflection and refraction** (`Optics`): Snell's law is proved for unit
  vectors.
- **The bounce loop** (`Tracer`). Each iteration:
  - scans the objects and keeps the first strictly closer hit;
  - records the hit point;
  - lets the material turn the ray;
  - or, on a miss, records an escape point and stops.

  `Tracer.TracePath` and `Tracer.SimulateRays` are proved equal to the
  functional specification `Tracer.Path`. The lemmas about it are the path
  length, the escape-is-last property, the closest-hit scan and the glass
  index bookkeeping.
- **Scene builders**:
  - the materials, seed rays and placed objects (`Configs`);
  - the `ParallelGrid`/`Projector` ray generators and the `ObjectGrid` object
    generator (`Generators`);
  - `SceneConfig::into` (`SceneConfigs`);
  - `build_scene_from_config` (`ObjectGeneratorConfigs`);
  - the older entry point in `src/main.rs` (`MainProgram`), which runs the same
    bounce loop with 10 bounces and an escape distance of 200.

How the model represents the source:

- `f32` is `real`.
- `sqrt`, `cos`, `sin` and `to_radians` come from a `FloatLib` record passed as
  a parameter. `Math.Sound(lib)` states that `sqrt` is the true non-negative
  square root, and the geometric lemmas require it.
- `normalize` is defined from `lib.sqrt`.
- The `f32::INFINITY` upper bound of the scene scan is `Math.Bound.Infinite`.
- A scene object that the tracer queries is an `Intersector` closure. The
  random numbers the half mirror draws are a parameter `draws`.

## Model

| member | source | states |
|---|---|---|
| Boxes.AxisStep | crates/raytracing_core/src/primitives/axis_aligned_box.rs:19-35 | One axis of the slab test only narrows the interval: `tmin` never drops and `tmax` never rises. A surviving interval has `tmin < tmax`, and `tmax` is finite once the direction component is non-zero. |
| Boxes.Slabs | crates/raytracing_core/src/primitives/axis_aligned_box.rs:13-36 | After any number of axes the interval lies inside `[t_min, t_max]`. Once an axis has been applied, `tmin < tmax`. |
| Boxes.SlabsStayEmpty | crates/raytracing_core/src/primitives/axis_aligned_box.rs:33-35 | Once the interval empties after some axis, the whole test answers `None`. |
| Boxes.SlabOrdered | crates/raytracing_core/src/primitives/axis_aligned_box.rs:19-26 | After the swap, `t0 <= t1` whenever `min <= max` on that axis and the direction component is non-zero. |
| Boxes.CrossingCompare | crates/raytracing_core/src/primitives/axis_aligned_box.rs:19-21 | Comparing `t` with a slab crossing is the same as comparing the ray's coordinate at `t` with the slab plane. The comparison flips when the ray runs backwards along the axis. |
| Boxes.AxisStepExact | crates/raytracing_core/src/primitives/axis_aligned_box.rs:19-35 | One axis keeps exactly those parameters of the interval whose point lies between that axis's two planes. |
| Boxes.SlabsExact | crates/raytracing_core/src/primitives/axis_aligned_box.rs:13-36 | After `n` axes the interval holds exactly the `t` in `[t_min, t_max]` whose point lies between the planes of each of those axes. |
| Boxes.InSlabsInsideBox | crates/raytracing_core/src/primitives/axis_aligned_box.rs:17-36 | The point at `t` lies in all three slabs exactly when it is inside the box. |
| Boxes.HitsBracketInside | crates/raytracing_core/src/primitives/axis_aligned_box.rs:13-63 | The two hits are where the ray enters and leaves the box. A `t` in `[t_min, t_max]` lies between them exactly when its point is inside the box. |
| Boxes.Hits | crates/raytracing_core/src/primitives/axis_aligned_box.rs:39-63 | `Some` holds exactly two hits, with the entry `t` strictly below the exit `t`, both in `[t_min, t_max]`. The entry normal is `calculate_normal` at the entry point and the exit normal is its negation at the exit point. For both hits, `front_face` holds iff `D·normal < 0`, and the point and material are set. The converse is `Boxes.StretchInsideIsHit`. |
| Boxes.StretchInsideIsHit | crates/raytracing_core/src/primitives/axis_aligned_box.rs:13-63 | For a ray with a non-zero direction, any stretch `t1 < t2` of `[t_min, t_max]` with both ends inside the box is reported: the answer is `Some`, entering at or before `t1` and leaving at or after `t2`. |
| Boxes.MissMeansOutside | crates/raytracing_core/src/primitives/axis_aligned_box.rs:33-35 | For a ray with a non-zero direction, `None` means no two parameters `t1 < t2` of `[t_min, t_max]` both put the ray inside the box. |
| Boxes.IntersectAll | crates/raytracing_core/src/primitives/axis_aligned_box.rs:12-64 | The three-axis loop with the swap, the early `None` and the two pushes computes `Boxes.Hits`. |
| Boxes.CalculateNormalFace | crates/raytracing_core/src/primitives/axis_aligned_box.rs:80-105 | The normal is zero exactly when no face is within `1e-4`. Otherwise it is a unit axis vector naming a face within `1e-4` of the point. |
| Boxes.CalculateNormalPriority | crates/raytracing_core/src/primitives/axis_aligned_box.rs:85-90 | Faces are tried in the order −X, +X, …: a near −X face always wins, and +X wins whenever −X is not near. |
| Boxes.RenderShape | crates/raytracing_core/src/primitives/axis_aligned_box.rs:66-70 | The renderable box has size `max − min`, so `min + size = max`. The size is non-negative when `min <= max`. |
| Planes.IntersectAll | src/primitives/plane.rs:12-44 | `‖N·D‖ < 1e-6` gives `None`. `Some` holds exactly one hit, whose `t` is in the inclusive range `[t_min, t_max]` and whose point lies on the plane. `front_face` holds iff `D·N < 0`. The normal is `N` or `−N` and faces the ray (`D·normal < 0`). |
| Planes.HeightAlongRay | src/primitives/plane.rs:22-32 | The signed height over the plane of the ray's point grows linearly in `t` at rate `N·D`, so the computed `t` is where it crosses zero. |
| Planes.MissMeansNoCrossing | src/primitives/plane.rs:17-27 | For a ray that is not parallel to the plane, `None` means no point of the ray with `t` in `[t_min, t_max]` lies on the plane. |
| Spheres.IntersectAll | crates/bevy_render_core/src/render_primitives/render_sphere.rs:12-74 | A negative discriminant gives `None`, and so do no hits: the result is never `Some` of an empty list. There are at most two hits, each strictly inside `(t_min, t_max)` and built at its root with the facing normal. A discriminant `<= 1e-6` gives exactly one hit whenever there is any. A zero direction never gives hits. The first hit is at the near or the far root, and two hits are near root then far root. Conversely, a near root in range is always reported as the first hit, and a far root in range of a non-tangent ray as the last one. |
| Spheres.RootsOnSphere | crates/bevy_render_core/src/render_primitives/render_sphere.rs:13-28 | With a true square root, both roots `(-half_b ∓ sqrtd)/a` put the ray's point on the sphere. |
| Spheres.HitsOnSphere | crates/bevy_render_core/src/render_primitives/render_sphere.rs:26-59 | With a true square root, every hit lies on the sphere and its normal has unit length. |
| Spheres.UnitOutwardNormal | crates/bevy_render_core/src/render_primitives/render_sphere.rs:29-35 | On the sphere, `(point − center)/radius` and its negation have unit length. |
| Spheres.HitsAscending | crates/bevy_render_core/src/render_primitives/render_sphere.rs:26-48 | With a true square root, the hits come in strictly increasing `t`. |
| Quadrics.RootHits | src/primitives/infinite_cylinder.rs:41-67 | The result is never `Some` of an empty list and holds at most two hits. Each hit is made at one of the two roots within `(t_min, t_max)`, and two hits are made at `t1` then `t2`. The converse is `Quadrics.RootHitsComplete`. |
| Quadrics.RootHitsAtRoots | src/primitives/infinite_cylinder.rs:45-65 | Each hit carries its own root as `t`, strictly inside the range, and two hits carry `t1` and `t2` in that order. |
| Quadrics.RootHitsComplete | src/primitives/infinite_cylinder.rs:45-67 | Every root strictly inside `(t_min, t_max)` is reported: the answer is `Some` and holds the hit made at that root. |
| Quadrics.SolveAndPush | src/primitives/infinite_cylinder.rs:36-67 | The discriminant test, the two roots and the push loop compute `None` for a negative discriminant, and otherwise `Quadrics.RootHits`. |
| Quadrics.RootsSolve | src/primitives/infinite_cylinder.rs:41-46 | With a true square root, both `(-b ∓ sqrtd)/2a` solve `a t² + b t + c = 0`. |
| Quadrics.RootsOrdered | src/primitives/infinite_cylinder.rs:45-46 | With a true square root and `a > 0`, `t1 <= t2`. |
| Quadrics.RootsReversed | crates/raytracing_core/src/primitives/infinite_cone.rs:50-51 | With a true square root, `a < 0` and a positive discriminant, `t1 > t2`. |
| Quadrics.RootHitsSorted | src/primitives/infinite_cylinder.rs:45-49 | With `a > 0` and a true square root, the hits come in non-decreasing `t`. |
| Quadrics.QuadricOfLine | src/primitives/infinite_cylinder.rs:25-27 | `‖u + t w‖² − r²` is the quadratic with coefficients `‖w‖²`, `2 u·w` and `‖u‖² − r²`. |
| Core.PushInRange | src/primitives/infinite_cylinder.rs:48-65 | The root loop pushes, in order, the hit at each candidate root that lies in the open range. |
| Core.InOpenRange | src/primitives/infinite_cylinder.rs:48-49 | The kept candidates are candidates in `(t_min, t_max)`, in their original order, and none are dropped when all are in range. |
| Core.InOpenRangeKeeps | src/primitives/infinite_cylinder.rs:48-49 | A candidate that is in range is kept. |
| Core.FacingHit | src/primitives/infinite_cylinder.rs:60-63 | `front_face` holds iff `D·outward < 0`. The stored normal is `±outward` and faces the ray (`D·normal <= 0`). `t`, point and material are kept. |
| Cylinders.Hits | src/primitives/infinite_cylinder.rs:11-68 | `‖a‖ < 1e-6` (a ray parallel to the axis) gives `None`, and so does a negative discriminant. `Some` is only returned past both tests, and holds at most two hits and never an empty list. The converse is `Cylinders.HitsComplete`. |
| Cylinders.HitsComplete | src/primitives/infinite_cylinder.rs:32-65 | For a ray that is not parallel to the axis and has a non-negative discriminant, every root strictly inside the range is reported with its hit. |
| Cylinders.IntersectAll | src/primitives/infinite_cylinder.rs:11-68 | The coefficient computation, the parallel test and the root loop compute `Cylinders.Hits`. |
| Cylinders.HitsAtRoots | src/primitives/infinite_cylinder.rs:41-65 | Every hit is the hit at one of the two roots, strictly inside the range, and two hits come near root first. |
| Cylinders.DistanceIsQuadratic | src/primitives/infinite_cylinder.rs:14-27 | The squared distance from the axis of the ray's point at `t`, less `r²`, is the quadratic in `t` built from `D_perp` and `OC_perp`. |
| Cylinders.HitsOnSurface | src/primitives/infinite_cylinder.rs:41-50 | With a true square root, every hit point lies at distance `radius` from the axis. |
| Cylinders.OutwardNormalPerpendicular | src/primitives/infinite_cylinder.rs:55-58 | With a unit axis, the normalized `point − point_on_axis`, and its negation, are perpendicular to the axis. |
| Cylinders.NormalsPerpendicularToAxis | src/primitives/infinite_cylinder.rs:55-63 | With a unit axis, every returned normal is perpendicular to the axis. |
| Cylinders.HitsAscending | src/primitives/infinite_cylinder.rs:25-49 | Since `a = ‖D_perp‖² > 0`, with a true square root the hits come out in non-decreasing `t`. |
| Cones.New | crates/raytracing_core/src/primitives/infinite_cone.rs:14-21 | The constructor keeps the vertex and material, and stores a non-negative `cos²(angle)`. |
| Cones.NewNormalizesAxis | crates/raytracing_core/src/primitives/infinite_cone.rs:14-21 | With a true square root and a non-zero axis, the stored axis has unit length and points along the given one. The stored value is `cos(angle)²`. |
| Cones.Hits | crates/raytracing_core/src/primitives/infinite_cone.rs:26-86 | A negative discriminant gives `None`, and so does `a = 0`. There are at most two hits, and the result is never an empty list. The converse is `Cones.HitsComplete`. |
| Cones.HitsComplete | crates/raytracing_core/src/primitives/infinite_cone.rs:41-79 | With `a != 0` and a non-negative discriminant, every root strictly inside the range is reported with its hit. |
| Cones.IntersectAll | crates/raytracing_core/src/primitives/infinite_cone.rs:26-86 | The coefficient computation and the root loop compute `Cones.Hits`. |
| Cones.HitsAtRoots | crates/raytracing_core/src/primitives/infinite_cone.rs:46-79 | Every hit is the hit at one of the roots, strictly inside the range, and two hits come in the order `t1`, `t2`. |
| Cones.HitsOnSurface | crates/raytracing_core/src/primitives/infinite_cone.rs:37-55 | With a true square root and a unit direction, every hit lies on the double cone `((P−V)·v)² = cos²α ‖P−V‖²`. |
| Cones.ConeOfLine | crates/raytracing_core/src/primitives/infinite_cone.rs:32-39 | For a unit direction, the cone's defining expression along the ray is the quadratic with the program's `A`, `B` and `C`. |
| Cones.HitsOrder | crates/raytracing_core/src/primitives/infinite_cone.rs:37-54 | With a true square root, two hits ascend when `a > 0` and strictly descend when `a < 0` and the discriminant is positive. |
| Cones.RenderShape | crates/raytracing_core/src/primitives/infinite_cone.rs:88-92 | The cone reports no renderable shape. |
| Csg.Combine | src/primitives/csg.rs:63-67 | The combined answer is never `Some` of an empty list. |
| Csg.IntersectAll | src/primitives/csg.rs:8-68 | The merge, the sort, the sweep and the final emptiness test compute `Csg.Combine`. |
| Csg.Sweep | src/primitives/csg.rs:18-61 | The loop over the sorted hits computes the parity-specified sweep. Invariant: `in_left` is the parity of the left-classified hits seen so far, and `in_right` that of the others. |
| Csg.SweptStep | src/primitives/csg.rs:21-40 | Each hit toggles exactly one flag, so after every prefix the flags are the two parities. |
| Csg.CrossesByFlags | src/primitives/csg.rs:29-50 | A hit is emitted exactly when the operation's inside predicate differs before and after its toggle. |
| Csg.Emit | src/primitives/csg.rs:50-59 | In a difference, a hit not classified as left has its normal negated and its face flag flipped. Every other emitted hit is copied unchanged. `t`, point and material are always kept. |
| Csg.SortByT | src/primitives/csg.rs:14-16 | The merged hits come out sorted by `t`, as a permutation of the input. |
| Csg.SortByTOfSorted | src/primitives/csg.rs:16 | Sorting hits that are already in order leaves them as they are. |
| Csg.Crossings | src/primitives/csg.rs:24-61 | The crossing positions are strictly increasing, and a position is listed exactly when the hit there is emitted. |
| Csg.SweptAtCrossings | src/primitives/csg.rs:24-61 | The output is the subsequence of sorted hits at the crossing positions, each passed through `Emit`. |
| Csg.SweptSorted | src/primitives/csg.rs:14-61 | Sweeping sorted hits gives hits in non-decreasing `t`. |
| Csg.SweptEmptyWithoutCrossings | src/primitives/csg.rs:50-67 | With no crossing, nothing is emitted. |
| Csg.CombineShape | src/primitives/csg.rs:10-67 | A combined answer is sorted by `t` and no longer than the two children's answers together. Each of its hits is a child hit passed through `Emit`. |
| Csg.IntersectionWithEmpty | src/primitives/csg.rs:10-47 | An intersection with a child that reports no hits is `None`. |
| Csg.UnionOrDifferenceWithEmptyRight | src/primitives/csg.rs:10-47 | A union or a difference whose right child reports no hits emits every left hit unchanged, in sorted order (`None` if there are none). |
| Csg.LeftHitsOnLeft | src/primitives/csg.rs:26 | Every hit of the left child is classified as left. |
| Csg.CoincidentRightHitIsLeft | src/primitives/csg.rs:26-58 | A right hit at the same `t` as some left hit is classified as left, so a difference emits it without flipping. |
| Shapes.Hits | src/primitives/csg.rs:10-11 | No node of a shape tree answers `Some` of an empty list. |
| Shapes.IntersectAll | crates/raytracing_core/src/primitives/wedge.rs:88-90 | Intersecting a tree node by node, through the wrappers' delegation, computes `Shapes.Hits`. |
| Shapes.HitsInRangeWithLeafMaterial | src/primitives/csg.rs:10-16 | Any tree's answer lies in the queried range `[t_min, t_max]` and carries the material of one of its leaves. |
| Shapes.CombineFrom | src/primitives/csg.rs:14-60 | The sweep keeps the range and the materials of its children's hits. |
| Shapes.HitsSorted | src/primitives/csg.rs:14-16 | With a true square root, every tree that is not a bare cone answers in non-decreasing `t`. |
| ShapeConfigs.IntoWithMaterial | src/config/model/shape_config.rs:57-149 | Every leaf of a converted configuration carries the given material. The tree is well formed exactly when the configuration is. |
| ShapeConfigs.SphereCentred | src/config/model/shape_config.rs:59-63 | A configured sphere is centred at the origin with the configured radius. |
| ShapeConfigs.BoxCentred | src/config/model/shape_config.rs:64-71 | A configured box has `min = −max` and `max − min = size`. |
| ShapeConfigs.CylinderLayout | src/config/model/shape_config.rs:77-105 | A cylinder is `Intersection(Intersection(cylinder on the y axis, plane y = h/2 with normal −Y), plane y = −h/2 with normal +Y)`. It has the configured radius, and both cap normals point back at the middle. |
| ShapeConfigs.ConeLayout | src/config/model/shape_config.rs:106-123 | A cone is `Intersection(cone at the origin on the unit y axis, plane y = height with normal −Y)`. |
| ShapeConfigs.CsgConfigsKeepOperation | src/config/model/shape_config.rs:135-149 | Union, intersection and difference become a CSG node with the same operation over the converted operands. |
| Wedges.New | crates/raytracing_core/src/primitives/wedge.rs:12-84 | A wedge wraps the left-nested chain `((((floor ∩ wall) ∩ slope) ∩ front cap) ∩ back cap)`, built from the planes `Wedges.FacePlanes` describes with the caps at `±size.z/2`. It is well formed, and every plane carries the given material. |
| Wedges.OnlyDepthAndAngleMatter | crates/raytracing_core/src/primitives/wedge.rs:13-15 | Wedges that agree in `size.z` and the angle are the same wedge. The width and height are ignored. |
| Wedges.FacePlanes | crates/raytracing_core/src/primitives/wedge.rs:18-53 | The floor is `y = 0`, the wall is `x = 0` and the caps are `z = ±depth/2`. The slope holds `(cos θ, sin θ)` at every depth. |
| Wedges.HitsSorted | crates/raytracing_core/src/primitives/wedge.rs:88-90 | The wedge answers with the chain's sorted result, whatever the square root does. |
| Wedges.RenderShape | crates/raytracing_core/src/primitives/wedge.rs:92-95 | A wedge offers no renderable shape. |
| Lenses.New | crates/raytracing_core/src/primitives/lens.rs:12-77 | A lens wraps `(first surface ∩ second surface) ∩ aperture`, with half thickness `t/2`, the surfaces `Lenses.VerticesOnAxis` and `Lenses.FlatSurfaces` describe, and the aperture of `Lenses.ApertureAroundAxis`. Every part carries the given material. It is well formed exactly when no finite radius of curvature is zero. |
| Lenses.VerticesOnAxis | crates/raytracing_core/src/primitives/lens.rs:20-50 | Each surface, whether curved or flat, passes through its vertex on the optical axis. That is `(0, 0, −t/2)` for the first surface and `(0, 0, t/2)` for the second. |
| Lenses.FlatSurfaces | crates/raytracing_core/src/primitives/lens.rs:27-50 | An infinite radius gives the whole plane `z = −t/2` (first surface) or `z = t/2` (second surface). |
| Lenses.ApertureAroundAxis | crates/raytracing_core/src/primitives/lens.rs:60-65 | The aperture is the cylinder of radius `diameter/2` around the `z` axis. |
| Lenses.HitsSorted | crates/raytracing_core/src/primitives/lens.rs:81-83 | The lens answers with the intersection tree's sorted result. |
| Configs.IntoMaterial | src/main.rs:146-150 | The material of a configured material is of the same kind with the same `ior` or `reflectance`. |
| Configs.IntoMaterialInjective | src/config/model/material_config.rs:13-21 | Distinct material configurations give distinct materials. |
| Configs.IntoRay | crates/raytracing_config/src/model/ray_config.rs:12-20 | A configured ray keeps its origin and starts in air (`current_ior = 1.0`). |
| Configs.IntoRayUnit | src/main.rs:243-247 | With a true square root, a non-zero configured direction becomes a unit direction pointing the same way. |
| Configs.IntoHittable | crates/raytracing_config/src/model/object_config.rs:16-29 | A configured object becomes its shape wrapped in the configured placement. |
| Configs.IntoHittableMaterial | src/config/model/object_config.rs:15-28 | The placed shape carries the configured material at every leaf. It is well formed exactly when its configuration is. |
| Configs.MovedTo | crates/raytracing_config/src/model/scene_config.rs:47-48 | A moved clone has the new position and keeps the template's shape, material and rotation. |
| Generators.GridLength | crates/raytracing_config/src/model/scene_config.rs:44-51 | The nested `for i` / `for j` loops produce `count_x * count_z` elements. |
| Generators.GridIndex | crates/raytracing_config/src/model/scene_config.rs:44-51 | With `i` as the outer loop, cell `(i, j)` lies at index `i * count_z + j`. |
| Generators.GridEmpty | crates/raytracing_config/src/model/scene_config.rs:75-76 | A zero count produces nothing. |
| Generators.PushGrid | crates/raytracing_config/src/model/scene_config.rs:75-84 | The nested loops append the grid's cells, in loop order, to what was there. |
| Generators.GeneratorRayAt | crates/raytracing_config/src/model/scene_config.rs:75-84 | A ray generator yields `count_u * count_v` rays, with ray `(i, j)` at index `i * count_v + j`. |
| Generators.GeneratorRaysShare | crates/raytracing_config/src/model/scene_config.rs:71-108 | All of a generator's rays carry its `current_ior`. A parallel grid's rays share one normalized direction and a projector's rays share the origin. A zero count yields no rays. |
| Generators.ParallelGridOrigin | crates/raytracing_config/src/model/scene_config.rs:71-77 | Parallel-grid ray `(i, j)` starts at `corner + (i/count_u) vec_u + (j/count_v) vec_v`. |
| Generators.ParallelGridUnit | crates/raytracing_config/src/model/scene_config.rs:74 | With a true square root and a non-zero direction, every parallel-grid ray has a unit direction. |
| Generators.ProjectorAims | crates/raytracing_config/src/model/scene_config.rs:95-107 | A projector ray starts at the shared origin. With a true square root it points, as a unit vector, at its own target point whenever that point differs from the origin. |
| Generators.AllGeneratorRaysCount | crates/raytracing_config/src/model/scene_config.rs:60-112 | A list of generators yields the sum of their grid sizes. |
| Generators.PushGeneratorRaysOf | crates/raytracing_config/src/model/scene_config.rs:62-110 | One generator's loops append its rays, in loop order. |
| Generators.PushGeneratorRays | crates/raytracing_config/src/model/scene_config.rs:59-112 | The generator loop appends every generator's rays, in generator order. |
| Generators.GridObjectAt | crates/raytracing_config/src/model/scene_config.rs:41-50 | An object grid yields `count_x * count_z` objects. Clone `(i, j)` sits at index `i * count_z + j`, placed at `start + i step_x + j step_z`. |
| Generators.GridObjectsShare | crates/raytracing_config/src/model/scene_config.rs:44-50 | Each clone is the template's shape built with the template's material, placed with the template's rotation: only the position differs. |
| Generators.AllGridObjectsShape | crates/raytracing_config/src/model/scene_config.rs:31-54 | A list of grids yields the sum of their sizes, every object placed. |
| Generators.PushGridObjectsOf | crates/raytracing_config/src/model/scene_config.rs:33-52 | One grid's loops append its clones, in loop order. |
| Generators.PushGridObjects | crates/raytracing_config/src/model/scene_config.rs:31-54 | The grid loop appends every grid's clones, in grid order. |
| SceneConfigs.ConfiguredObjects | crates/raytracing_config/src/model/scene_config.rs:27-28 | The configured objects are converted one for one, in order. |
| SceneConfigs.ConfiguredRays | crates/raytracing_config/src/model/scene_config.rs:57 | The configured rays are converted one for one, in order. |
| SceneConfigs.Into | crates/raytracing_config/src/model/scene_config.rs:24-115 | The conversion builds exactly the scene's objects and rays as specified. |
| SceneConfigs.SceneObjectsLayout | crates/raytracing_config/src/model/scene_config.rs:27-53 | The objects are the configured objects in order, then `count_x * count_z` clones per grid, all placed. |
| SceneConfigs.SceneRaysLayout | crates/raytracing_config/src/model/scene_config.rs:57-112 | The rays are the configured rays in order, each in air, then the generated rays in generator order. |
| SceneConfigs.AppendGenerator | crates/raytracing_config/src/model/scene_config.rs:59-112 | Adding a generator appends its rays, or its clones, after all earlier ones and changes nothing before them. |
| ObjectGeneratorConfigs.BareObject | src/config/model/object_generator_config.rs:169-173 | An individual object is added without its placement. |
| ObjectGeneratorConfigs.BareObjects | src/config/model/object_generator_config.rs:169-174 | The individual objects are added one for one, in order, each built from its shape and material. |
| ObjectGeneratorConfigs.BuildSceneFromConfig | src/config/model/object_generator_config.rs:76-177 | The builder returns exactly the generated rays, and exactly the grid clones followed by the individual objects. |
| ObjectGeneratorConfigs.PushBareObjects | src/config/model/object_generator_config.rs:169-174 | The loop over individual objects appends each one, built from shape and material, without its placement. |
| ObjectGeneratorConfigs.DefinitionObjectsLayout | src/config/model/object_generator_config.rs:138-174 | `count_x * count_z` placed clones per grid come first. Then come the individual objects in order, unplaced, each built with its own material. |
| ObjectGeneratorConfigs.BareIgnoresTransform | src/config/model/object_generator_config.rs:170-173 | Objects that differ only in their placement give the same scene object. |
| ObjectGeneratorConfigs.SameRaysAsSceneConfig | src/config/model/object_generator_config.rs:81-135 | The rays come only from the generators: they are those `SceneConfig::into` makes from the same generators and no configured rays. |
| Optics.Refract | src/scene.rs:14-27 | `None` exactly when `ratio² (1 − c²) > 1` with `c = min(−D·N, 1)`. Otherwise the result is the normalized sum of the part along the surface and the part along the normal. |
| Optics.ReflectNormalComponent | src/scene.rs:9-11 | Against a unit normal, `reflect(D, N)·N = −(D·N)`. |
| Optics.ReflectTwice | src/scene.rs:9-11 | Against a unit normal, reflecting twice gives back `D`. |
| Optics.ReflectKeepsLength | src/scene.rs:9-11 | Against a unit normal, reflection keeps the length. |
| Optics.CosThetaUncapped | src/scene.rs:15 | For unit vectors `−D·N <= 1`, so the cap at 1 never applies. |
| Optics.PerpendicularPart | src/scene.rs:23 | For unit vectors, `perp` is `ratio` times the surface part of `D`, perpendicular to `N`, with squared length `ratio² (1 − c²)`. |
| Optics.CombineParts | src/scene.rs:23-26 | `perp − sqrt(1 − ‖perp‖²) N` is a unit vector whose surface part is `perp`. |
| Optics.RefractSnell | src/scene.rs:14-27 | Snell's law: with a true square root and unit vectors, the refracted direction has unit length and goes through the surface (`·N <= 0`). Its surface part is `ratio` times the incident one. |
| Tracer.Scan | src/scene.rs:46-58 | During the scan `t_closest` is finite exactly when a hit is held, and it is that hit's `t`. |
| Tracer.FindClosest | src/scene.rs:46-58 | The scan loop over the objects computes `Tracer.Scan`. |
| Tracer.ScanNeverRises | src/scene.rs:52-55 | `t_closest` never increases along the scan. |
| Tracer.SourceSupplies | src/scene.rs:49-58 | The held hit is the first hit of one object's answer, which came strictly below `t_closest` at that object's turn. |
| Tracer.ScanIsClosest | src/scene.rs:46-58 | The held hit is no farther than the first hit of any object's answer. |
| Tracer.EarlierObjectsFarther | src/scene.rs:52 | Ties go to the earlier object: every object before the one supplying the hit answered with a strictly farther first hit. |
| Tracer.NextRay | src/scene.rs:62-93 | The new origin is `hit.point + new_direction · 0.001`. Mirror and half mirror keep `current_ior`. |
| Tracer.GlassIor | src/scene.rs:68-81 | Glass sets `current_ior` to its `ior` on a front face and to 1.0 on a back face, exactly when refraction succeeds, and the direction is then the refracted one. Under total internal reflection it reflects and keeps the index. |
| Tracer.NextKeepsUnitDirection | src/scene.rs:62-93 | With a true square root, a unit direction stays a unit direction across a bounce off a surface with a unit normal. |
| Tracer.Events | src/scene.rs:45-98 | A loop with `n` iterations left runs at most `n` iterations, and when `n > 0` the first one is for the current ray. |
| Tracer.EventsChain | src/scene.rs:45-98 | Each bounce is at the closest hit of its ray, and an escape happens exactly when the scan finds nothing. Each bounced ray is the next iteration's ray. Fewer iterations than allowed means the last one escaped. |
| Tracer.PathShape | src/scene.rs:41-98 | A path starts at the seed's origin and has between 1 and `max_bounces + 1` points. With `max_bounces = 0` it is `[origin]`. A shorter path ends with the escape point `origin + direction · infinity_distance`. |
| Tracer.PathStepHit | src/scene.rs:59-93 | An iteration that meets a hit appends its point and continues with the bounced ray. |
| Tracer.PathStepEscape | src/scene.rs:94-97 | An iteration that misses appends the escape point and ends the path. |
| Tracer.Iterate | src/scene.rs:46-97 | One loop body appends the hit point and hands on the bounced ray, or appends the escape point and hands on nothing, as the path specification says. |
| Tracer.Bounce | src/scene.rs:62-93 | The material update and the origin move compute `Tracer.NextRay`. |
| Tracer.TracePath | src/scene.rs:39-99 | The bounce loop for one seed ray, with its `break`, computes `Tracer.Path`. |
| Tracer.SimulateRays | src/scene.rs:35-102 | One path per seed ray, in the order of the rays, each the specified path. |
| MainProgram.BuildScene | src/main.rs:145-238 | The object loop builds each configured object with its material and placement, in order. |
| MainProgram.TraceRays | src/main.rs:241-305 | Each seed ray is made from its configuration (normalized, in air) and traced for at most 10 bounces with escape distance 200, in order. |
| MainProgram.Run | src/main.rs:142-305 | The whole run yields the built scene and one specified path per configured ray. |
| MainProgram.MainPathShape | src/main.rs:243-304 | A path starts at the configured origin with the ray in air, and has between 1 and 11 points. One with fewer than 11 ends at `origin + direction · 200` of the escaping ray. |

## Left out

- Placement transforms are not modelled. `Transform::new` builds a `Mat4` and its inverse in floating point, and the `Transform` intersection code is not part of this model. A placed object is kept as its shape and its `TransformConfig`. The tracer queries scene objects through `Intersector` closures, and `MainProgram.Run` takes the function that gives a placed object's `intersect_all` as a parameter.
- `get_transform`, which is the identity matrix for the box, the cone and the wedge, is left out because matrices are not modelled.
- The lens's `shape()` tag for the renderer is left out.
- IEEE-754 arithmetic is not modelled: `f32` is `real`, and `sqrt`, `cos`, `sin` and `to_radians` are parameters. The geometric lemmas require a true square root.
- `u32` counts are `nat`, and `i as f32` is exact.
- Boxes.Hits: with a zero direction, a zero direction component imposes nothing exactly when the origin lies between that axis's planes, and otherwise gives `None`; this is as in floating point. When every component is zero and `t_max` is infinite, floating point would give hits at `t = ∞`; the model answers `None`.
- Spheres.IntersectAll: a zero direction (`a = 0`) gives `None`, since in floating point its roots are `NaN` and never in range. The radius must be non-zero (`Shapes.WellFormed`), since the normal divides by it.
- Cones.Hits: `a = 0` gives `None`; in floating point the roots are infinite or `NaN` and never in range.
- Tracer.NextRay: glass with `ior = 0` met on a front face is treated as total internal reflection. In floating point the ratio would be infinite.
- Math.Normalize: the zero vector is returned unchanged, where glam gives `NaN` components.
- The `NaN` panic of `partial_cmp().unwrap()` in the CSG sort cannot occur over `real`. The sort is modelled as a stable insertion sort, like the library's stable `sort_by`.
- The half mirror's random number (`rand::thread_rng().gen()`) is a parameter: `draws(b)` is the number drawn at bounce `b`.
- Console output is left out: the `println!` in `refract` and in `main`.
- File I/O is left out: reading and parsing the TOML configuration, and writing CSV files (`src/main.rs:138-140`, `306-318`).
- The Bevy renderer, the command-line front ends and the Python plotting scripts are not part of this model.
- The box, cone, sphere, wedge and lens that `src/main.rs` and `src/config/model/shape_config.rs` build come from `src/primitives` (`src/primitives/mod.rs:5-13`), whose files for those five shapes are not part of this model. They are modelled on the `crates/raytracing_core` primitives of the same names and on `render_sphere.rs`, taken to behave identically.
- MainProgram.BuildScene: takes the object configurations of `Configs`, whose shapes also have union, intersection and difference cases. The main program's own `ShapeConfig` (`src/main.rs:24-52`) has only the seven leaf shapes, so the model admits more inputs than that entry point reads.
- The inline shape `match` in `src/main.rs:152-229` is not modelled separately. It repeats the leaf cases of `ShapeConfig::into_with` and is modelled by `ShapeConfigs.IntoWith`.
- Lens radii: `is_finite()` becomes the `Lenses.Curvature` datatype, whose `Flat` case stands for an infinite (or `NaN`) radius.
- The `Sync + Send` bounds of the `Hittable` trait are left out, since they do not affect sequential behaviour.
- `serde` deserialization and the one-to-one settings conversions are records of the model, not operations.
