/** The quadratic `a t² + b t + c = 0` shared by the infinite cylinder and
    the infinite cone: both take the roots `(-b ∓ √disc) / 2a` in that order
    and keep those in the open range `(tMin, tMax)`. */
module Quadrics {
  import opened Math
  import opened Core
  import opened Wrappers

  datatype Quadric = Quadric(a: real, b: real, c: real)

  function Discriminant(q: Quadric): real { q.b * q.b - 4.0 * q.a * q.c }

  /** The two roots, near one first (for `a > 0`). */
  function Roots(q: Quadric, lib: FloatLib): seq<real>
    requires q.a != 0.0
  {
    var s := lib.sqrt(Discriminant(q));
    [(-q.b - s) / (2.0 * q.a), (-q.b + s) / (2.0 * q.a)]
  }

  /** The hits at the roots in range, `None` when there are none. */
  function RootHits(q: Quadric, lib: FloatLib, tMin: real, tMax: Bound, makeHit: real -> HitRecord): (r: Option<seq<HitRecord>>)
    requires q.a != 0.0
    ensures r != Some([])
    ensures r.Some? ==>
              && |r.value| <= 2
              && forall i :: 0 <= i < |r.value| ==>
                   exists t :: t in Roots(q, lib) && tMin < t && Below(t, tMax) && r.value[i] == makeHit(t)
    ensures r.Some? && |r.value| == 2 ==>
              r.value[0] == makeHit(Roots(q, lib)[0]) && r.value[1] == makeHit(Roots(q, lib)[1])
  {
    var kept := InOpenRange(Roots(q, lib), tMin, tMax);
    var hits := MapHits(makeHit, kept);
    assert forall i :: 0 <= i < |hits| ==> hits[i] == makeHit(kept[i]);
    if hits == [] then None else Some(hits)
  }

  /** Every hit is made at a root inside `(tMin, tMax)`; two hits are made
      at the two roots in order. */
  lemma RootHitsAtRoots(q: Quadric, lib: FloatLib, tMin: real, tMax: Bound, makeHit: real -> HitRecord)
    requires q.a != 0.0
    requires forall t :: makeHit(t).t == t
    ensures var r := RootHits(q, lib, tMin, tMax, makeHit);
            r.Some? ==>
              && AllStrictlyWithin(r.value, tMin, tMax)
              && (forall i :: 0 <= i < |r.value| ==> r.value[i].t in Roots(q, lib) && r.value[i] == makeHit(r.value[i].t))
              && (|r.value| == 2 ==> r.value[0].t == Roots(q, lib)[0] && r.value[1].t == Roots(q, lib)[1])
  {
    var r := RootHits(q, lib, tMin, tMax, makeHit);
    if r.Some? {
      HitsAtCandidates(Roots(q, lib), tMin, tMax, makeHit, r.value);
    }
  }

  /** Every root inside `(tMin, tMax)` is reported: the answer is `Some`
      and holds the hit made at that root. */
  lemma {:induction false} RootHitsComplete(q: Quadric, lib: FloatLib, tMin: real, tMax: Bound,
                                            makeHit: real -> HitRecord, t: real)
    requires q.a != 0.0
    requires t in Roots(q, lib) && tMin < t && Below(t, tMax)
    ensures var r := RootHits(q, lib, tMin, tMax, makeHit);
            r.Some? && makeHit(t) in r.value
  {
    var kept := InOpenRange(Roots(q, lib), tMin, tMax);
    InOpenRangeKeeps(Roots(q, lib), tMin, tMax, t);
    var i :| 0 <= i < |kept| && kept[i] == t;
    assert MapHits(makeHit, kept)[i] == makeHit(t);
  }

  /** Hits each made at some candidate in range carry that candidate as
      their `t`. */
  lemma HitsAtCandidates(candidates: seq<real>, tMin: real, tMax: Bound, makeHit: real -> HitRecord, hits: seq<HitRecord>)
    requires forall t :: makeHit(t).t == t
    requires forall i :: 0 <= i < |hits| ==>
               exists t :: t in candidates && tMin < t && Below(t, tMax) && hits[i] == makeHit(t)
    ensures AllStrictlyWithin(hits, tMin, tMax)
    ensures forall i :: 0 <= i < |hits| ==> hits[i].t in candidates && hits[i] == makeHit(hits[i].t)
  {
    forall i | 0 <= i < |hits|
      ensures tMin < hits[i].t && Below(hits[i].t, tMax)
      ensures hits[i].t in candidates && hits[i] == makeHit(hits[i].t)
    {
      HitAtCandidate(candidates, tMin, tMax, makeHit, hits[i]);
    }
  }

  lemma HitAtCandidate(candidates: seq<real>, tMin: real, tMax: Bound, makeHit: real -> HitRecord, h: HitRecord)
    requires forall t :: makeHit(t).t == t
    requires exists t :: t in candidates && tMin < t && Below(t, tMax) && h == makeHit(t)
    ensures tMin < h.t && Below(h.t, tMax) && h.t in candidates && h == makeHit(h.t)
  {
    var t :| t in candidates && tMin < t && Below(t, tMax) && h == makeHit(t);
  }

  /** The program's computation from the coefficients on: `None` for a
      negative discriminant, else the loop over the two roots. */
  method SolveAndPush(q: Quadric, lib: FloatLib, tMin: real, tMax: Bound, makeHit: real -> HitRecord)
    returns (r: Option<seq<HitRecord>>)
    requires q.a != 0.0
    ensures r == if Discriminant(q) < 0.0 then None else RootHits(q, lib, tMin, tMax, makeHit)
  {
    var discriminant := q.b * q.b - 4.0 * q.a * q.c;
    if discriminant < 0.0 {
      return None;
    }
    var sqrtd := lib.sqrt(discriminant);
    var t1 := (-q.b - sqrtd) / (2.0 * q.a);
    var t2 := (-q.b + sqrtd) / (2.0 * q.a);
    assert discriminant == Discriminant(q);
    assert [t1, t2] == Roots(q, lib);
    var hits := PushInRange(makeHit, [t1, t2], tMin, tMax);
    if hits == [] {
      r := None;
    } else {
      r := Some(hits);
    }
  }

  /** With a true square root both roots solve the quadratic. */
  lemma RootsSolve(q: Quadric, lib: FloatLib, t: real)
    requires Sound(lib) && q.a != 0.0 && Discriminant(q) >= 0.0
    requires t in Roots(q, lib)
    ensures q.a * t * t + q.b * t + q.c == 0.0
  {
    var s := lib.sqrt(Discriminant(q));
    assert s * s == q.b * q.b - 4.0 * q.a * q.c;
    assert 2.0 * q.a * t == -q.b - s || 2.0 * q.a * t == -q.b + s;
    QuadraticRoot(q.a, q.b, q.c, s, t);
  }

  /** With a true square root and `a > 0` the near root comes first. */
  lemma RootsOrdered(q: Quadric, lib: FloatLib)
    requires Sound(lib) && q.a > 0.0 && Discriminant(q) >= 0.0
    ensures Roots(q, lib)[0] <= Roots(q, lib)[1]
  {
    var s := lib.sqrt(Discriminant(q));
    if s > 0.0 {
      DivideMonotone(-q.b - s, -q.b + s, 2.0 * q.a);
    }
  }

  /** With a true square root and `a < 0` the roots come in decreasing order. */
  lemma RootsReversed(q: Quadric, lib: FloatLib)
    requires Sound(lib) && q.a < 0.0 && Discriminant(q) > 0.0
    ensures Roots(q, lib)[0] > Roots(q, lib)[1]
  {
    var s := lib.sqrt(Discriminant(q));
    assert s * s > 0.0;
    assert s > 0.0;
    DivideMonotone(-q.b - s, -q.b + s, -2.0 * q.a);
    assert (-q.b - s) / (2.0 * q.a) == -((-q.b - s) / (-2.0 * q.a));
    assert (-q.b + s) / (2.0 * q.a) == -((-q.b + s) / (-2.0 * q.a));
  }

  /** Two hits from an upward quadric come in non-decreasing `t` when each
      hit records its own root as `t`. */
  lemma RootHitsSorted(q: Quadric, lib: FloatLib, tMin: real, tMax: Bound, makeHit: real -> HitRecord)
    requires Sound(lib) && q.a > 0.0 && Discriminant(q) >= 0.0
    requires forall t :: makeHit(t).t == t
    ensures var r := RootHits(q, lib, tMin, tMax, makeHit);
            r.Some? ==> SortedByT(r.value)
  {
    RootsOrdered(q, lib);
  }

  /** `|u + t w|² - r2` is the quadratic with coefficients `|w|²`, `2 u·w`
      and `|u|² - r2`. */
  lemma {:induction false} QuadricOfLine(u: Vec3, w: Vec3, t: real, r2: real, q: Quadric)
    requires q == Quadric(LengthSquared(w), 2.0 * Dot(u, w), LengthSquared(u) - r2)
    ensures LengthSquared(Add(u, Scale(t, w))) - r2 == q.a * t * t + q.b * t + q.c
  {
    LengthSquaredAlong(u, w, t);
  }
}
