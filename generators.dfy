/** The ray and object generators of a scene configuration. Each one walks a
    `count_u × count_v` grid, `i` in the outer loop and `j` in the inner one,
    and produces one element per cell. */
module Generators {
  import opened Math
  import opened Core
  import opened Configs
  import opened ShapeConfigs

  /** Row `i` of a grid: the cells `(i, 0), …, (i, n - 1)`. */
  function Row<T>(i: nat, n: nat, f: (nat, nat) -> T): (r: seq<T>)
    ensures |r| == n
    ensures forall j :: 0 <= j < n ==> r[j] == f(i, j)
  {
    if n == 0 then [] else Row(i, n - 1, f) + [f(i, n - 1)]
  }

  /** The first `rows` rows of a grid with `columns` cells each, in row order. */
  function Grid<T>(rows: nat, columns: nat, f: (nat, nat) -> T): seq<T>
  {
    if rows == 0 then [] else Grid(rows - 1, columns, f) + Row(rows - 1, columns, f)
  }

  /** A grid has `rows * columns` cells. */
  lemma {:induction false} GridLength<T>(rows: nat, columns: nat, f: (nat, nat) -> T)
    ensures |Grid(rows, columns, f)| == rows * columns
  {
    if rows > 0 {
      GridLength(rows - 1, columns, f);
      assert (rows - 1) * columns + columns == rows * columns;
    }
  }

  /** `i * columns + j` lies before row `i + 1`. */
  lemma CellOffset(i: nat, j: nat, columns: nat)
    requires j < columns
    ensures i * columns + j < (i + 1) * columns
  {
  }

  lemma RowsMonotone(i: nat, rows: nat, columns: nat)
    requires i <= rows
    ensures i * columns <= rows * columns
  {
  }

  /** Cell `(i, j)` lies at index `i * columns + j`. */
  lemma {:induction false} GridIndex<T>(rows: nat, columns: nat, f: (nat, nat) -> T, i: nat, j: nat)
    requires i < rows && j < columns
    ensures i * columns + j < |Grid(rows, columns, f)|
    ensures Grid(rows, columns, f)[i * columns + j] == f(i, j)
  {
    GridLength(rows - 1, columns, f);
    GridLength(rows, columns, f);
    CellOffset(i, j, columns);
    RowsMonotone(i + 1, rows, columns);
    if i < rows - 1 {
      RowsMonotone(i + 1, rows - 1, columns);
      GridIndex(rows - 1, columns, f, i, j);
    } else {
      assert i * columns + j == |Grid(rows - 1, columns, f)| + j;
    }
  }

  /** Every cell of a grid is `f(i, j)` for some `i < rows` and `j < columns`. */
  lemma {:induction false} GridCells<T>(rows: nat, columns: nat, f: (nat, nat) -> T, k: nat)
    requires k < |Grid(rows, columns, f)|
    ensures exists i: nat, j: nat :: i < rows && j < columns && Grid(rows, columns, f)[k] == f(i, j)
  {
    var prefix := Grid(rows - 1, columns, f);
    if k < |prefix| {
      GridCells(rows - 1, columns, f, k);
    } else {
      assert Grid(rows, columns, f)[k] == f(rows - 1, k - |prefix|);
    }
  }

  /** An empty grid has no cells. */
  lemma {:induction false} GridEmpty<T>(rows: nat, columns: nat, f: (nat, nat) -> T)
    requires rows == 0 || columns == 0
    ensures Grid(rows, columns, f) == []
  {
    GridLength(rows, columns, f);
  }

  /** The nested `for i in 0..rows { for j in 0..columns { push } }` loops. */
  method PushGrid<T>(acc: seq<T>, rows: nat, columns: nat, f: (nat, nat) -> T) returns (out: seq<T>)
    ensures out == acc + Grid(rows, columns, f)
  {
    out := acc;
    for i := 0 to rows
      invariant out == acc + Grid(i, columns, f)
    {
      for j := 0 to columns
        invariant out == acc + Grid(i, columns, f) + Row(i, j, f)
      {
        out := out + [f(i, j)];
      }
    }
  }

  /** `corner + i * uStep + j * vStep` */
  function GridPoint(corner: Vec3, uStep: Vec3, vStep: Vec3, i: nat, j: nat): Vec3
  {
    Add(Add(corner, Scale(i as real, uStep)), Scale(j as real, vStep))
  }

  /** `v / count`. With a zero count the quotient is never used, since the
      loop over the grid does not run. */
  function Step(v: Vec3, count: nat): Vec3
  {
    if count == 0 then Zero else Scale(1.0 / count as real, v)
  }

  datatype RayGenerator =
    | ParallelGrid(originCorner: Vec3, vecU: Vec3, vecV: Vec3, countU: nat, countV: nat,
                   direction: Vec3, currentIor: real)
    | Projector(origin: Vec3, targetCorner: Vec3, targetU: Vec3, targetV: Vec3, countU: nat, countV: nat,
                currentIor: real)

  /** The ray a generator produces for cell `(i, j)`. */
  function GeneratedRay(g: RayGenerator, lib: FloatLib, i: nat, j: nat): Ray
  {
    match g
    case ParallelGrid(corner, vecU, vecV, countU, countV, direction, ior) =>
      Ray(GridPoint(corner, Step(vecU, countU), Step(vecV, countV), i, j), Normalize(lib, direction), ior)
    case Projector(origin, targetCorner, targetU, targetV, countU, countV, ior) =>
      var target := GridPoint(targetCorner, Step(targetU, countU), Step(targetV, countV), i, j);
      Ray(origin, Normalize(lib, Sub(target, origin)), ior)
  }

  function RayMaker(g: RayGenerator, lib: FloatLib): (nat, nat) -> Ray
  {
    (i: nat, j: nat) => GeneratedRay(g, lib, i, j)
  }

  /** The rays of one generator, in loop order. */
  function GeneratorRays(g: RayGenerator, lib: FloatLib): seq<Ray>
  {
    Grid(g.countU, g.countV, RayMaker(g, lib))
  }

  /** The rays of a list of generators, in generator order. */
  function AllGeneratorRays(gens: seq<RayGenerator>, lib: FloatLib): seq<Ray>
  {
    if gens == [] then [] else AllGeneratorRays(gens[..|gens| - 1], lib) + GeneratorRays(gens[|gens| - 1], lib)
  }

  /** A generator produces `count_u * count_v` rays, none for a zero count,
      ray `(i, j)` at index `i * count_v + j`. */
  lemma {:induction false} GeneratorRayAt(g: RayGenerator, lib: FloatLib, i: nat, j: nat)
    requires i < g.countU && j < g.countV
    ensures |GeneratorRays(g, lib)| == g.countU * g.countV
    ensures i * g.countV + j < |GeneratorRays(g, lib)|
    ensures GeneratorRays(g, lib)[i * g.countV + j] == GeneratedRay(g, lib, i, j)
  {
    GridLength(g.countU, g.countV, RayMaker(g, lib));
    GridIndex(g.countU, g.countV, RayMaker(g, lib), i, j);
  }

  /** All rays of a generator share its index; a parallel grid's rays share
      one normalized direction, a projector's rays share the origin. */
  lemma {:induction false} GeneratorRaysShare(g: RayGenerator, lib: FloatLib)
    ensures |GeneratorRays(g, lib)| == g.countU * g.countV
    ensures g.countU == 0 || g.countV == 0 ==> GeneratorRays(g, lib) == []
    ensures forall r :: r in GeneratorRays(g, lib) ==> r.currentIor == g.currentIor
    ensures g.ParallelGrid? ==> forall r :: r in GeneratorRays(g, lib) ==> r.direction == Normalize(lib, g.direction)
    ensures g.Projector? ==> forall r :: r in GeneratorRays(g, lib) ==> r.origin == g.origin
  {
    var rays := GeneratorRays(g, lib);
    GridLength(g.countU, g.countV, RayMaker(g, lib));
    if g.countU == 0 || g.countV == 0 {
      GridEmpty(g.countU, g.countV, RayMaker(g, lib));
    }
    forall r | r in rays
      ensures r.currentIor == g.currentIor
      ensures g.ParallelGrid? ==> r.direction == Normalize(lib, g.direction)
      ensures g.Projector? ==> r.origin == g.origin
    {
      var k :| 0 <= k < |rays| && rays[k] == r;
      GridCells(g.countU, g.countV, RayMaker(g, lib), k);
    }
  }

  /** The grid point of cell `(i, j)` is `corner + (i / count_u) u + (j / count_v) v`. */
  lemma GridPointFraction(corner: Vec3, u: Vec3, v: Vec3, countU: nat, countV: nat, i: nat, j: nat)
    requires 0 < countU && 0 < countV
    ensures GridPoint(corner, Step(u, countU), Step(v, countV), i, j)
            == Add(Add(corner, Scale(i as real / countU as real, u)), Scale(j as real / countV as real, v))
  {
    ScaleQuotient(i as real, countU as real, u);
    ScaleQuotient(j as real, countV as real, v);
  }

  /** A parallel grid's ray `(i, j)` starts at
      `corner + (i / count_u) vec_u + (j / count_v) vec_v`. */
  lemma ParallelGridOrigin(g: RayGenerator, lib: FloatLib, i: nat, j: nat)
    requires g.ParallelGrid? && 0 < g.countU && 0 < g.countV
    ensures GeneratedRay(g, lib, i, j).origin
            == Add(Add(g.originCorner, Scale(i as real / g.countU as real, g.vecU)),
                   Scale(j as real / g.countV as real, g.vecV))
  {
    GridPointFraction(g.originCorner, g.vecU, g.vecV, g.countU, g.countV, i, j);
  }

  /** With a true square root and a non-zero direction every ray of a
      parallel grid has a unit direction. */
  lemma ParallelGridUnit(g: RayGenerator, lib: FloatLib, i: nat, j: nat)
    requires g.ParallelGrid? && Sound(lib) && LengthSquared(g.direction) != 0.0
    ensures LengthSquared(GeneratedRay(g, lib, i, j).direction) == 1.0
  {
    NormalizeUnit(lib, g.direction);
  }

  /** A projector's ray `(i, j)` points from the shared origin towards its
      target point: with a true square root, a unit multiple of
      `target - origin` whenever the two differ. */
  lemma ProjectorAims(g: RayGenerator, lib: FloatLib, i: nat, j: nat)
    requires g.Projector? && Sound(lib)
    ensures var target := GridPoint(g.targetCorner, Step(g.targetU, g.countU), Step(g.targetV, g.countV), i, j);
            var r := GeneratedRay(g, lib, i, j);
            r.origin == g.origin &&
            (LengthSquared(Sub(target, g.origin)) != 0.0 ==>
               LengthSquared(r.direction) == 1.0 && exists k :: k > 0.0 && r.direction == Scale(k, Sub(target, g.origin)))
  {
    var target := GridPoint(g.targetCorner, Step(g.targetU, g.countU), Step(g.targetV, g.countV), i, j);
    if LengthSquared(Sub(target, g.origin)) != 0.0 {
      NormalizeUnit(lib, Sub(target, g.origin));
    }
  }

  /** Rays of a list of generators: generator `k`'s rays follow those of the
      generators before it, and the count is the sum of the grid sizes. */
  function RayCount(gens: seq<RayGenerator>): nat
  {
    if gens == [] then 0 else RayCount(gens[..|gens| - 1]) + gens[|gens| - 1].countU * gens[|gens| - 1].countV
  }

  lemma {:induction false} AllGeneratorRaysCount(gens: seq<RayGenerator>, lib: FloatLib)
    ensures |AllGeneratorRays(gens, lib)| == RayCount(gens)
  {
    if gens != [] {
      AllGeneratorRaysCount(gens[..|gens| - 1], lib);
      GridLength(gens[|gens| - 1].countU, gens[|gens| - 1].countV, RayMaker(gens[|gens| - 1], lib));
    }
  }

  lemma AllGeneratorRaysSnoc(gens: seq<RayGenerator>, k: nat, lib: FloatLib)
    requires k < |gens|
    ensures AllGeneratorRays(gens[..k + 1], lib) == AllGeneratorRays(gens[..k], lib) + GeneratorRays(gens[k], lib)
  {
    assert gens[..k + 1][..k] == gens[..k];
  }

  /** The loops of one ray generator. */
  method PushGeneratorRaysOf(acc: seq<Ray>, g: RayGenerator, lib: FloatLib) returns (rays: seq<Ray>)
    ensures rays == acc + GeneratorRays(g, lib)
  {
    rays := PushGrid(acc, g.countU, g.countV, RayMaker(g, lib));
  }

  /** The ray loop over a list of generators, appending to `acc`. */
  method PushGeneratorRays(acc: seq<Ray>, gens: seq<RayGenerator>, lib: FloatLib) returns (rays: seq<Ray>)
    ensures rays == acc + AllGeneratorRays(gens, lib)
  {
    rays := acc;
    for k := 0 to |gens|
      invariant rays == acc + AllGeneratorRays(gens[..k], lib)
    {
      AllGeneratorRaysSnoc(gens, k, lib);
      rays := PushGeneratorRaysOf(rays, gens[k], lib);
    }
    assert gens[..|gens|] == gens;
  }

  datatype ObjectGenerator =
    ObjectGrid(countX: nat, countZ: nat, positionStart: Vec3, stepX: Vec3, stepZ: Vec3, template: ObjectConfig)

  /** The template clone for cell `(i, j)`: moved to `start + i*step_x + j*step_z`. */
  function Clone(g: ObjectGenerator, i: nat, j: nat): ObjectConfig
  {
    MovedTo(g.template, GridPoint(g.positionStart, g.stepX, g.stepZ, i, j))
  }

  function CloneMaker(g: ObjectGenerator, lib: FloatLib): (nat, nat) -> Hittable
  {
    (i: nat, j: nat) => IntoHittable(Clone(g, i, j), lib)
  }

  /** The scene objects of one object grid, in loop order. */
  function GridObjects(g: ObjectGenerator, lib: FloatLib): seq<Hittable>
  {
    Grid(g.countX, g.countZ, CloneMaker(g, lib))
  }

  function AllGridObjects(gens: seq<ObjectGenerator>, lib: FloatLib): seq<Hittable>
  {
    if gens == [] then [] else AllGridObjects(gens[..|gens| - 1], lib) + GridObjects(gens[|gens| - 1], lib)
  }

  /** An object grid gives `count_x * count_z` objects, clone `(i, j)` at
      index `i * count_z + j`, placed at `start + i*step_x + j*step_z`. */
  lemma {:induction false} GridObjectAt(g: ObjectGenerator, lib: FloatLib, i: nat, j: nat)
    requires i < g.countX && j < g.countZ
    ensures |GridObjects(g, lib)| == g.countX * g.countZ
    ensures i * g.countZ + j < |GridObjects(g, lib)|
    ensures GridObjects(g, lib)[i * g.countZ + j] == IntoHittable(Clone(g, i, j), lib)
    ensures GridObjects(g, lib)[i * g.countZ + j].transform.position
            == Add(Add(g.positionStart, Scale(i as real, g.stepX)), Scale(j as real, g.stepZ))
  {
    GridLength(g.countX, g.countZ, CloneMaker(g, lib));
    GridIndex(g.countX, g.countZ, CloneMaker(g, lib), i, j);
  }

  /** Every clone is the template's shape with the template's material,
      placed with the template's rotation: only the position differs. */
  lemma {:induction false} GridObjectsShare(g: ObjectGenerator, lib: FloatLib)
    ensures forall h :: h in GridObjects(g, lib) ==>
              h.Placed? && h == Placed(IntoWith(g.template.shape, IntoMaterial(g.template.material), lib), h.transform) &&
              h.transform.rotationYDeg == g.template.transform.rotationYDeg
  {
    var objs := GridObjects(g, lib);
    forall h | h in objs
      ensures h.Placed? && h == Placed(IntoWith(g.template.shape, IntoMaterial(g.template.material), lib), h.transform)
      ensures h.transform.rotationYDeg == g.template.transform.rotationYDeg
    {
      var k :| 0 <= k < |objs| && objs[k] == h;
      GridCells(g.countX, g.countZ, CloneMaker(g, lib), k);
    }
  }

  function ObjectCount(gens: seq<ObjectGenerator>): nat
  {
    if gens == [] then 0 else ObjectCount(gens[..|gens| - 1]) + gens[|gens| - 1].countX * gens[|gens| - 1].countZ
  }

  /** A list of grids gives the sum of the grid sizes, every one a placed
      object. */
  lemma {:induction false} AllGridObjectsShape(gens: seq<ObjectGenerator>, lib: FloatLib)
    ensures |AllGridObjects(gens, lib)| == ObjectCount(gens)
    ensures forall h :: h in AllGridObjects(gens, lib) ==> h.Placed?
  {
    if gens != [] {
      var last := gens[|gens| - 1];
      AllGridObjectsShape(gens[..|gens| - 1], lib);
      GridLength(last.countX, last.countZ, CloneMaker(last, lib));
      GridObjectsShare(last, lib);
    }
  }

  lemma AllGridObjectsSnoc(gens: seq<ObjectGenerator>, k: nat, lib: FloatLib)
    requires k < |gens|
    ensures AllGridObjects(gens[..k + 1], lib) == AllGridObjects(gens[..k], lib) + GridObjects(gens[k], lib)
  {
    assert gens[..k + 1][..k] == gens[..k];
  }

  /** The loops of one object grid. */
  method PushGridObjectsOf(acc: seq<Hittable>, g: ObjectGenerator, lib: FloatLib) returns (objects: seq<Hittable>)
    ensures objects == acc + GridObjects(g, lib)
  {
    objects := PushGrid(acc, g.countX, g.countZ, CloneMaker(g, lib));
  }

  /** The object loop over a list of grids, appending to `acc`. */
  method PushGridObjects(acc: seq<Hittable>, gens: seq<ObjectGenerator>, lib: FloatLib) returns (objects: seq<Hittable>)
    ensures objects == acc + AllGridObjects(gens, lib)
  {
    objects := acc;
    for k := 0 to |gens|
      invariant objects == acc + AllGridObjects(gens[..k], lib)
    {
      AllGridObjectsSnoc(gens, k, lib);
      objects := PushGridObjectsOf(objects, gens[k], lib);
    }
    assert gens[..|gens|] == gens;
  }
}
