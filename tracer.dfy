/** The bounce loop of the tracer (`Scene::simulate_rays`): for each seed ray,
    find the closest hit among the scene's objects, record its point, let the
    material turn the ray, and repeat for at most `max_bounces` bounces; a ray
    that hits nothing records a far point along its direction and stops. */
module Tracer {
  import opened Math
  import opened Core
  import opened Wrappers
  import opened Optics

  /** A scene object's `intersect_all(ray, t_min, t_max)`. */
  type Intersector = (Ray, real, Bound) -> Option<seq<HitRecord>>

  datatype Settings = Settings(maxBounces: nat, infinityDistance: real)

  /** The near limit of every scene query. */
  const QueryTMin: real := 0.001

  /** How far along the new direction the next ray starts from the hit point. */
  const OriginOffset: real := 0.001

  /** The scan's state: the closest hit so far and `t_closest`. */
  datatype Closest = Closest(hit: Option<HitRecord>, bound: Bound)

  /** The first hit of an object's answer, kept only if strictly closer. */
  function Consider(c: Closest, answer: Option<seq<HitRecord>>): Closest
  {
    if answer.Some? && |answer.value| > 0 && Below(answer.value[0].t, c.bound)
    then Closest(Some(answer.value[0]), Finite(answer.value[0].t))
    else c
  }

  /** The scan after the first `n` objects. `t_closest` is finite exactly when
      a hit has been kept, and is that hit's `t`. */
  function Scan(objects: seq<Intersector>, ray: Ray, n: nat): (c: Closest)
    requires n <= |objects|
    ensures c.hit.Some? <==> c.bound.Finite?
    ensures c.hit.Some? ==> c.hit.value.t == c.bound.value
  {
    if n == 0 then Closest(None, Infinite)
    else
      var prev := Scan(objects, ray, n - 1);
      Consider(prev, objects[n - 1](ray, QueryTMin, prev.bound))
  }

  /** What object `k` answers when its turn in the scan comes. */
  function Answer(objects: seq<Intersector>, ray: Ray, k: nat): Option<seq<HitRecord>>
    requires k < |objects|
  {
    objects[k](ray, QueryTMin, Scan(objects, ray, k).bound)
  }

  /** The closest hit as the scan finds it. */
  function ClosestHit(objects: seq<Intersector>, ray: Ray): Option<HitRecord>
  {
    Scan(objects, ray, |objects|).hit
  }

  /** The scan loop as the program runs it. */
  method FindClosest(objects: seq<Intersector>, ray: Ray) returns (closest: Option<HitRecord>, tClosest: Bound)
    ensures Closest(closest, tClosest) == Scan(objects, ray, |objects|)
  {
    closest := None;
    tClosest := Infinite;
    for k := 0 to |objects|
      invariant Closest(closest, tClosest) == Scan(objects, ray, k)
    {
      var hits := objects[k](ray, QueryTMin, tClosest);
      if hits.Some? && |hits.value| > 0 {
        var firstHit := hits.value[0];
        if Below(firstHit.t, tClosest) {
          tClosest := Finite(firstHit.t);
          closest := Some(firstHit);
        }
      }
    }
  }

  /** `t_closest` never increases along the scan. */
  lemma {:induction false} ScanNeverRises(objects: seq<Intersector>, ray: Ray, m: nat, n: nat)
    requires m <= n <= |objects|
    ensures BoundLe(Scan(objects, ray, n).bound, Scan(objects, ray, m).bound)
    decreases n - m
  {
    if m < n {
      ScanNeverRises(objects, ray, m + 1, n);
    }
  }

  /** The index of the object whose hit the scan holds after `n` objects. */
  function Source(objects: seq<Intersector>, ray: Ray, n: nat): (j: Option<nat>)
    requires n <= |objects|
    ensures j.Some? ==> j.value < n
  {
    if n == 0 then None
    else if Scan(objects, ray, n) != Scan(objects, ray, n - 1) then Some(n - 1)
    else Source(objects, ray, n - 1)
  }

  /** The kept hit is the first hit of the object `Source` names, and that
      object's answer came strictly below `t_closest` at its turn. */
  lemma {:induction false} SourceSupplies(objects: seq<Intersector>, ray: Ray, n: nat)
    requires n <= |objects|
    ensures Scan(objects, ray, n).hit.Some? <==> Source(objects, ray, n).Some?
    ensures Source(objects, ray, n).Some? ==>
              var j := Source(objects, ray, n).value;
              && j < n
              && Answer(objects, ray, j).Some? && |Answer(objects, ray, j).value| > 0
              && Scan(objects, ray, n).hit == Some(Answer(objects, ray, j).value[0])
              && Below(Answer(objects, ray, j).value[0].t, Scan(objects, ray, j).bound)
              && Scan(objects, ray, n) == Scan(objects, ray, j + 1)
  {
    if n > 0 {
      SourceSupplies(objects, ray, n - 1);
    }
  }

  /** The kept hit is no farther than the first hit of any object's answer. */
  lemma {:induction false} ScanIsClosest(objects: seq<Intersector>, ray: Ray, j: nat)
    requires j < |objects|
    requires Answer(objects, ray, j).Some? && |Answer(objects, ray, j).value| > 0
    ensures BoundLe(Scan(objects, ray, |objects|).bound, Finite(Answer(objects, ray, j).value[0].t))
  {
    ScanNeverRises(objects, ray, j + 1, |objects|);
    ScanNeverRises(objects, ray, j, j + 1);
  }

  /** Ties go to the earlier object: every object before the supplier
      answered with a first hit strictly farther than the kept one. */
  lemma {:induction false} EarlierObjectsFarther(objects: seq<Intersector>, ray: Ray, i: nat)
    requires Source(objects, ray, |objects|).Some? && i < Source(objects, ray, |objects|).value
    requires Answer(objects, ray, i).Some? && |Answer(objects, ray, i).value| > 0
    ensures Scan(objects, ray, |objects|).bound.Finite?
    ensures Scan(objects, ray, |objects|).bound.value < Answer(objects, ray, i).value[0].t
  {
    var j := Source(objects, ray, |objects|).value;
    SourceSupplies(objects, ray, |objects|);
    ScanNeverRises(objects, ray, i + 1, j);
    ScanNeverRises(objects, ray, i, i + 1);
  }

  /** The ray after a bounce at `hit`. A mirror reflects. Glass refracts from
      the ray's index into the glass's on a front face, or into air (1.0) on
      a back face, and adopts that index; under total internal reflection it
      reflects and keeps the index. A half mirror reflects when the draw is
      below its reflectance and otherwise lets the ray through. The new
      origin is nudged off the surface along the new direction. */
  function NextRay(ray: Ray, hit: HitRecord, draw: real, lib: FloatLib): (next: Ray)
    ensures next.origin == Add(hit.point, Scale(OriginOffset, next.direction))
    ensures !hit.material.Glass? ==> next.currentIor == ray.currentIor
  {
    var reflected := Reflect(ray.direction, hit.normal);
    var (direction, ior) :=
      match hit.material
      case Mirror => (reflected, ray.currentIor)
      case Glass(materialIor) =>
        var n2 := if hit.frontFace then materialIor else 1.0;
        var refracted := if n2 == 0.0 then None else Refract(ray.direction, hit.normal, ray.currentIor / n2, lib);
        if refracted.Some? then (refracted.value, n2) else (reflected, ray.currentIor)
      case HalfMirror(reflectance) =>
        (if draw < reflectance then reflected else ray.direction, ray.currentIor);
    Ray(Add(hit.point, Scale(OriginOffset, direction)), direction, ior)
  }

  /** Glass bookkeeping: the index becomes the glass's on a front face and
      air's on a back face exactly when the ray refracts; under total
      internal reflection the ray reflects and keeps its index. */
  lemma GlassIor(ray: Ray, hit: HitRecord, draw: real, lib: FloatLib)
    requires hit.material.Glass?
    ensures var n2 := if hit.frontFace then hit.material.ior else 1.0;
            var next := NextRay(ray, hit, draw, lib);
            if n2 != 0.0 && !TotalInternalReflection(ray.direction, hit.normal, ray.currentIor / n2)
            then next.currentIor == n2 && next.direction == Refract(ray.direction, hit.normal, ray.currentIor / n2, lib).value
            else next.currentIor == ray.currentIor && next.direction == Reflect(ray.direction, hit.normal)
  {
  }

  /** With a true square root, a unit direction stays a unit direction
      across a bounce off a surface with a unit normal. */
  lemma {:induction false} NextKeepsUnitDirection(ray: Ray, hit: HitRecord, draw: real, lib: FloatLib)
    requires Sound(lib) && LengthSquared(ray.direction) == 1.0 && LengthSquared(hit.normal) == 1.0
    ensures LengthSquared(NextRay(ray, hit, draw, lib).direction) == 1.0
  {
    ReflectKeepsLength(ray.direction, hit.normal);
    if hit.material.Glass? {
      var n2 := if hit.frontFace then hit.material.ior else 1.0;
      if n2 != 0.0 && !TotalInternalReflection(ray.direction, hit.normal, ray.currentIor / n2) {
        RefractSnell(ray.direction, hit.normal, ray.currentIor / n2, lib);
      }
    }
  }

  /** One iteration of the bounce loop: a hit and the ray that met it, or
      the ray that escaped. */
  datatype Event = Bounced(ray: Ray, hit: HitRecord) | Escaped(ray: Ray)

  /** How a ray leaves a hit, given the random number drawn at that bounce. */
  type Turn = (Ray, HitRecord, real) -> Ray

  /** The materials' turn: `NextRay`. */
  function MaterialTurn(lib: FloatLib): Turn
  {
    (ray: Ray, hit: HitRecord, draw: real) => NextRay(ray, hit, draw, lib)
  }

  /** The iterations of the bounce loop from `ray`, counting bounces from
      `bounce`, with `remaining` iterations left; `draws(b)` is the random
      number drawn at bounce `b`. */
  function Events(objects: seq<Intersector>, ray: Ray, bounce: nat, remaining: nat,
                  draws: nat -> real, turn: Turn): (ev: seq<Event>)
    ensures |ev| <= remaining
    ensures remaining > 0 ==> |ev| > 0 && ev[0].ray == ray
    decreases remaining
  {
    if remaining == 0 then []
    else
      match ClosestHit(objects, ray)
      case None => [Escaped(ray)]
      case Some(hit) =>
        [Bounced(ray, hit)] + Events(objects, turn(ray, hit, draws(bounce)), bounce + 1, remaining - 1, draws, turn)
  }

  /** The point an iteration appends: the hit point, or the far point
      `origin + direction * infinity_distance`. */
  function EventPoint(e: Event, infinityDistance: real): Vec3
  {
    match e
    case Bounced(_, hit) => hit.point
    case Escaped(ray) => Add(ray.origin, Scale(infinityDistance, ray.direction))
  }

  function Points(ev: seq<Event>, infinityDistance: real): (ps: seq<Vec3>)
    ensures |ps| == |ev|
  {
    seq(|ev|, i requires 0 <= i < |ev| => EventPoint(ev[i], infinityDistance))
  }

  /** The path of one seed ray: its origin, then one point per iteration. */
  function Path(objects: seq<Intersector>, seed: Ray, settings: Settings, draws: nat -> real, lib: FloatLib): seq<Vec3>
  {
    [seed.origin] + Points(Events(objects, seed, 0, settings.maxBounces, draws, MaterialTurn(lib)), settings.infinityDistance)
  }

  /** Iterations that chain up from bounce number `bounce`: each bounce was
      at the closest hit of its ray, an escape happens exactly when the scan
      finds nothing, and every iteration but the last is a bounce whose
      bounced ray is the next iteration's ray. */
  predicate Chained(objects: seq<Intersector>, ev: seq<Event>, bounce: nat, draws: nat -> real, turn: Turn)
  {
    && (forall i :: 0 <= i < |ev| ==>
          (ev[i].Bounced? <==> ClosestHit(objects, ev[i].ray).Some?) &&
          (ev[i].Bounced? ==> ClosestHit(objects, ev[i].ray) == Some(ev[i].hit)))
    && (forall i :: 0 <= i < |ev| - 1 ==>
          ev[i].Bounced? && ev[i + 1].ray == turn(ev[i].ray, ev[i].hit, draws(bounce + i)))
  }

  /** A bounce at the closest hit in front of chained iterations that start
      from the bounced ray is chained. */
  lemma ChainCons(objects: seq<Intersector>, ray: Ray, hit: HitRecord, rest: seq<Event>, bounce: nat,
                  draws: nat -> real, turn: Turn)
    requires ClosestHit(objects, ray) == Some(hit)
    requires Chained(objects, rest, bounce + 1, draws, turn)
    requires |rest| > 0 ==> rest[0].ray == turn(ray, hit, draws(bounce))
    ensures Chained(objects, [Bounced(ray, hit)] + rest, bounce, draws, turn)
  {
    var ev := [Bounced(ray, hit)] + rest;
    assert forall i :: 1 <= i < |ev| ==> ev[i] == rest[i - 1];
    forall i | 0 <= i < |ev| - 1
      ensures ev[i].Bounced? && ev[i + 1].ray == turn(ev[i].ray, ev[i].hit, draws(bounce + i))
    {
      if i > 0 {
        assert ev[i] == rest[i - 1] && ev[i + 1] == rest[i];
        assert bounce + i == (bounce + 1) + (i - 1);
      }
    }
  }

  /** The iterations of the bounce loop chain up, and only the last one can
      be an escape: fewer than `remaining` iterations means the ray escaped. */
  lemma {:induction false} EventsChain(objects: seq<Intersector>, ray: Ray, bounce: nat, remaining: nat,
                                       draws: nat -> real, turn: Turn)
    ensures var ev := Events(objects, ray, bounce, remaining, draws, turn);
            && Chained(objects, ev, bounce, draws, turn)
            && (|ev| < remaining ==> |ev| > 0 && ev[|ev| - 1].Escaped?)
    decreases remaining
  {
    var ev := Events(objects, ray, bounce, remaining, draws, turn);
    if remaining > 0 {
      match ClosestHit(objects, ray)
      case None =>
        assert ev == [Escaped(ray)];
      case Some(hit) =>
        var next := turn(ray, hit, draws(bounce));
        var rest := Events(objects, next, bounce + 1, remaining - 1, draws, turn);
        EventsChain(objects, next, bounce + 1, remaining - 1, draws, turn);
        EventsOfHit(objects, ray, hit, bounce, remaining, draws, turn);
        ChainCons(objects, ray, hit, rest, bounce, draws, turn);
        LastOfCons(Bounced(ray, hit), rest);
    }
  }

  /** An iteration that meets `hit` is followed by those of the bounced ray. */
  lemma EventsOfHit(objects: seq<Intersector>, ray: Ray, hit: HitRecord, bounce: nat, remaining: nat,
                    draws: nat -> real, turn: Turn)
    requires remaining > 0 && ClosestHit(objects, ray) == Some(hit)
    ensures Events(objects, ray, bounce, remaining, draws, turn)
            == [Bounced(ray, hit)] + Events(objects, turn(ray, hit, draws(bounce)), bounce + 1, remaining - 1, draws, turn)
  {
  }

  lemma LastOfCons<T>(x: T, rest: seq<T>)
    ensures |rest| > 0 ==> ([x] + rest)[|rest|] == rest[|rest| - 1]
  {
  }

  /** A path starts at the seed's origin and has at most `max_bounces + 1`
      points; it falls short of that only when the ray escaped, and then the
      escape point is its last point. With no bounces allowed it is just the
      origin. */
  lemma {:induction false} PathShape(objects: seq<Intersector>, seed: Ray, settings: Settings, draws: nat -> real, lib: FloatLib)
    ensures var path := Path(objects, seed, settings, draws, lib);
            var ev := Events(objects, seed, 0, settings.maxBounces, draws, MaterialTurn(lib));
            && 1 <= |path| <= settings.maxBounces + 1
            && path[0] == seed.origin
            && (settings.maxBounces == 0 ==> path == [seed.origin])
            && (|path| < settings.maxBounces + 1 ==>
                  ev[|ev| - 1].Escaped? &&
                  path[|path| - 1] == Add(ev[|ev| - 1].ray.origin, Scale(settings.infinityDistance, ev[|ev| - 1].ray.direction)))
  {
    EventsChain(objects, seed, 0, settings.maxBounces, draws, MaterialTurn(lib));
  }

  /** One more iteration of the bounce loop that meets `hit`, as the
      program appends it: the hit point, then the path of the bounced ray. */
  lemma PathStepHit(objects: seq<Intersector>, ray: Ray, hit: HitRecord, b: nat, remaining: nat,
                    draws: nat -> real, turn: Turn, infinityDistance: real, prefix: seq<Vec3>)
    requires remaining > 0 && ClosestHit(objects, ray) == Some(hit)
    ensures prefix + Points(Events(objects, ray, b, remaining, draws, turn), infinityDistance)
            == (prefix + [hit.point]) + Points(Events(objects, turn(ray, hit, draws(b)), b + 1, remaining - 1, draws, turn), infinityDistance)
  {
    var tail := Events(objects, turn(ray, hit, draws(b)), b + 1, remaining - 1, draws, turn);
    EventsOfHit(objects, ray, hit, b, remaining, draws, turn);
    PointsCons(Bounced(ray, hit), tail, infinityDistance);
    ConsAssociative(prefix, hit.point, Points(tail, infinityDistance));
  }

  lemma PointsCons(e: Event, tail: seq<Event>, infinityDistance: real)
    ensures Points([e] + tail, infinityDistance) == [EventPoint(e, infinityDistance)] + Points(tail, infinityDistance)
  {
  }

  lemma ConsAssociative<T>(prefix: seq<T>, x: T, rest: seq<T>)
    ensures prefix + ([x] + rest) == (prefix + [x]) + rest
  {
  }

  /** The last iteration of the bounce loop, for a ray that escapes: the
      far point along its direction. */
  lemma PathStepEscape(objects: seq<Intersector>, ray: Ray, b: nat, remaining: nat,
                       draws: nat -> real, turn: Turn, infinityDistance: real, prefix: seq<Vec3>)
    requires remaining > 0 && ClosestHit(objects, ray) == None
    ensures prefix + Points(Events(objects, ray, b, remaining, draws, turn), infinityDistance)
            == prefix + [Add(ray.origin, Scale(infinityDistance, ray.direction))]
  {
    assert Events(objects, ray, b, remaining, draws, turn) == [Escaped(ray)];
  }

  /** The points still to come once `b` iterations are done and `ray` is
      the ray in flight. */
  function PointsFrom(objects: seq<Intersector>, ray: Ray, b: nat, settings: Settings, draws: nat -> real, lib: FloatLib): seq<Vec3>
    requires b <= settings.maxBounces
  {
    Points(Events(objects, ray, b, settings.maxBounces - b, draws, MaterialTurn(lib)), settings.infinityDistance)
  }

  /** The bounce loop for one seed ray as the program runs it. */
  method TracePath(objects: seq<Intersector>, seed: Ray, settings: Settings, draws: nat -> real, lib: FloatLib)
    returns (pathPoints: seq<Vec3>)
    ensures pathPoints == Path(objects, seed, settings, draws, lib)
  {
    var ray := seed;
    pathPoints := [ray.origin];
    ghost var path := Path(objects, seed, settings, draws, lib);
    for b := 0 to settings.maxBounces
      invariant path == pathPoints + PointsFrom(objects, ray, b, settings, draws, lib)
    {
      var next;
      pathPoints, next := Iterate(objects, ray, b, settings, draws(b), draws, lib, pathPoints);
      if next.None? {
        return; // the loop's `break`: nothing follows it
      }
      ray := next.value;
    }
    NoIterationsLeft(objects, ray, settings, draws, lib, pathPoints);
  }

  lemma NoIterationsLeft(objects: seq<Intersector>, ray: Ray, settings: Settings, draws: nat -> real, lib: FloatLib,
                         prefix: seq<Vec3>)
    ensures prefix + PointsFrom(objects, ray, settings.maxBounces, settings, draws, lib) == prefix
  {
    assert PointsFrom(objects, ray, settings.maxBounces, settings, draws, lib) == [];
  }

  /** One iteration of the bounce loop, appending to `prefix`: the hit point
      and the bounced ray, or the far point of an escaping ray and no ray. */
  method Iterate(objects: seq<Intersector>, ray: Ray, b: nat, settings: Settings, draw: real,
                 ghost draws: nat -> real, lib: FloatLib, prefix: seq<Vec3>)
    returns (points: seq<Vec3>, next: Option<Ray>)
    requires b < settings.maxBounces && draw == draws(b)
    ensures var whole := prefix + PointsFrom(objects, ray, b, settings, draws, lib);
            match next
            case None => points == whole
            case Some(r) => whole == points + PointsFrom(objects, r, b + 1, settings, draws, lib)
  {
    var closestHitRecord, _ := FindClosest(objects, ray);
    if closestHitRecord.Some? {
      var hit := closestHitRecord.value;
      points := prefix + [hit.point];
      var bounced := Bounce(ray, hit, draw, lib);
      assert bounced == MaterialTurn(lib)(ray, hit, draws(b));
      PointsFromHit(objects, ray, hit, b, settings, draws, lib, prefix, bounced);
      next := Some(bounced);
    } else {
      points := prefix + [Add(ray.origin, Scale(settings.infinityDistance, ray.direction))];
      PathStepEscape(objects, ray, b, settings.maxBounces - b, draws, MaterialTurn(lib), settings.infinityDistance, prefix);
      next := None;
    }
  }

  /** `PathStepHit` for the loop of `TracePath`. */
  lemma PointsFromHit(objects: seq<Intersector>, ray: Ray, hit: HitRecord, b: nat, settings: Settings,
                      draws: nat -> real, lib: FloatLib, prefix: seq<Vec3>, bounced: Ray)
    requires b < settings.maxBounces && ClosestHit(objects, ray) == Some(hit)
    requires bounced == MaterialTurn(lib)(ray, hit, draws(b))
    ensures prefix + PointsFrom(objects, ray, b, settings, draws, lib)
            == (prefix + [hit.point]) + PointsFrom(objects, bounced, b + 1, settings, draws, lib)
  {
    PathStepHit(objects, ray, hit, b, settings.maxBounces - b, draws, MaterialTurn(lib), settings.infinityDistance, prefix);
  }

  /** The body of the bounce loop after a hit: the material turns the ray,
      then its origin moves to the hit point, nudged along the new direction. */
  method Bounce(ray: Ray, hit: HitRecord, draw: real, lib: FloatLib) returns (next: Ray)
    ensures next == NextRay(ray, hit, draw, lib)
  {
    next := ray;
    match hit.material {
      case Mirror =>
        next := next.(direction := Reflect(next.direction, hit.normal));
      case Glass(materialIor) =>
        var n1 := next.currentIor;
        var n2 := if hit.frontFace then materialIor else 1.0;
        // an index of 0 makes the ratio infinite: treated as total internal reflection
        var refracted := if n2 == 0.0 then None else Refract(next.direction, hit.normal, n1 / n2, lib);
        if refracted.Some? {
          next := next.(direction := refracted.value, currentIor := n2);
        } else {
          next := next.(direction := Reflect(next.direction, hit.normal));
        }
      case HalfMirror(reflectance) =>
        if draw < reflectance {
          next := next.(direction := Reflect(next.direction, hit.normal));
        }
    }
    next := next.(origin := Add(hit.point, Scale(OriginOffset, next.direction)));
  }

  /** `simulate_rays`: one path per seed ray, in the order of the rays;
      `draws(i)` are the random numbers drawn while tracing ray `i`. */
  method SimulateRays(objects: seq<Intersector>, rays: seq<Ray>, settings: Settings,
                      draws: nat -> nat -> real, lib: FloatLib)
    returns (result: seq<seq<Vec3>>)
    ensures |result| == |rays|
    ensures forall i :: 0 <= i < |rays| ==> result[i] == Path(objects, rays[i], settings, draws(i), lib)
  {
    result := [];
    for i := 0 to |rays|
      invariant |result| == i
      invariant forall k :: 0 <= k < i ==> result[k] == Path(objects, rays[k], settings, draws(k), lib)
    {
      var pathPoints := TracePath(objects, rays[i], settings, draws(i), lib);
      result := result + [pathPoints];
    }
  }
}
