/** Exact-real stand-ins for glam's `f32` scalars and `Vec3` vectors.
    IEEE-754 rounding is not modelled; `sqrt`, `cos`, `sin` and `to_radians`
    are supplied by a `FloatLib` record and otherwise left uninterpreted. */
module Math {

  datatype Vec3 = Vec3(x: real, y: real, z: real)

  const Zero := Vec3(0.0, 0.0, 0.0)
  const UnitX := Vec3(1.0, 0.0, 0.0)
  const UnitY := Vec3(0.0, 1.0, 0.0)
  const UnitZ := Vec3(0.0, 0.0, 1.0)
  const NegX := Vec3(-1.0, 0.0, 0.0)
  const NegY := Vec3(0.0, -1.0, 0.0)
  const NegZ := Vec3(0.0, 0.0, -1.0)

  function Add(a: Vec3, b: Vec3): Vec3 { Vec3(a.x + b.x, a.y + b.y, a.z + b.z) }

  function Sub(a: Vec3, b: Vec3): Vec3 { Vec3(a.x - b.x, a.y - b.y, a.z - b.z) }

  function Neg(a: Vec3): Vec3 { Vec3(-a.x, -a.y, -a.z) }

  function Scale(k: real, a: Vec3): Vec3 { Vec3(k * a.x, k * a.y, k * a.z) }

  function Dot(a: Vec3, b: Vec3): real { a.x * b.x + a.y * b.y + a.z * b.z }

  function LengthSquared(a: Vec3): real { Dot(a, a) }

  /** `v[i]` for an axis index 0, 1 or 2. */
  function Component(v: Vec3, i: nat): real
    requires i < 3
  {
    if i == 0 then v.x else if i == 1 then v.y else v.z
  }

  function Abs(x: real): real { if x < 0.0 then -x else x }

  function Min(a: real, b: real): real { if a <= b then a else b }

  function Max(a: real, b: real): real { if a >= b then a else b }

  lemma DotNeg(a: Vec3, b: Vec3)
    ensures Dot(a, Neg(b)) == -Dot(a, b)
  {
  }

  lemma LengthSquaredNonNegative(a: Vec3)
    ensures LengthSquared(a) >= 0.0
  {
    SquareNonNegative(a.x);
    SquareNonNegative(a.y);
    SquareNonNegative(a.z);
  }

  lemma SquareNonNegative(x: real)
    ensures x * x >= 0.0
  {
    if x < 0.0 {
      assert (-x) * (-x) >= 0.0 * (-x);
    }
  }

  /** `w - (w·v) v`: the part of `w` perpendicular to a unit `v`. */
  function Perp(w: Vec3, v: Vec3): Vec3 { Sub(w, Scale(Dot(w, v), v)) }

  lemma DotScale(k: real, a: Vec3, b: Vec3)
    ensures Dot(Scale(k, a), b) == k * Dot(a, b)
  {
    assert (k * a.x) * b.x + (k * a.y) * b.y + (k * a.z) * b.z == k * (a.x * b.x + a.y * b.y + a.z * b.z);
  }

  lemma DotAdd(a: Vec3, b: Vec3, v: Vec3)
    ensures Dot(Add(a, b), v) == Dot(a, v) + Dot(b, v)
  {
  }

  /** `(w + t d) - (a + t b) v = (w - a v) + t (d - b v)` */
  lemma LinearCombination(w: Vec3, d: Vec3, v: Vec3, t: real, a: real, b: real)
    ensures Sub(Add(w, Scale(t, d)), Scale(a + t * b, v)) == Add(Sub(w, Scale(a, v)), Scale(t, Sub(d, Scale(b, v))))
  {
    calc {
      Sub(Add(w, Scale(t, d)), Scale(a + t * b, v));
      { ScaleSum(a, t * b, v); }
      Sub(Add(w, Scale(t, d)), Add(Scale(a, v), Scale(t * b, v)));
      { SubOfSums(w, Scale(t, d), Scale(a, v), Scale(t * b, v)); }
      Add(Sub(w, Scale(a, v)), Sub(Scale(t, d), Scale(t * b, v)));
      { ScaleScale(t, b, v); ScaleSub(t, d, Scale(b, v)); }
      Add(Sub(w, Scale(a, v)), Scale(t, Sub(d, Scale(b, v))));
    }
  }

  lemma ScaleSum(a: real, c: real, v: Vec3)
    ensures Scale(a + c, v) == Add(Scale(a, v), Scale(c, v))
  {
  }

  lemma SubOfSums(w: Vec3, x: Vec3, y: Vec3, z: Vec3)
    ensures Sub(Add(w, x), Add(y, z)) == Add(Sub(w, y), Sub(x, z))
  {
  }

  lemma ScaleSub(t: real, d: Vec3, u: Vec3)
    ensures Scale(t, Sub(d, u)) == Sub(Scale(t, d), Scale(t, u))
  {
  }

  /** `a (v / d) = (a / d) v` */
  lemma ScaleQuotient(a: real, d: real, v: Vec3)
    requires d != 0.0
    ensures Scale(a, Scale(1.0 / d, v)) == Scale(a / d, v)
  {
    ScaleScale(a, 1.0 / d, v);
    assert a * (1.0 / d) == a / d;
  }

  lemma ScaleScale(a: real, b: real, v: Vec3)
    ensures Scale(a, Scale(b, v)) == Scale(a * b, v)
  {
    assert a * (b * v.x) == (a * b) * v.x;
    assert a * (b * v.y) == (a * b) * v.y;
    assert a * (b * v.z) == (a * b) * v.z;
  }

  lemma LengthSquaredScale(k: real, v: Vec3)
    ensures LengthSquared(Scale(k, v)) == k * k * LengthSquared(v)
  {
    assert (k * v.x) * (k * v.x) == k * k * (v.x * v.x);
    assert (k * v.y) * (k * v.y) == k * k * (v.y * v.y);
    assert (k * v.z) * (k * v.z) == k * k * (v.z * v.z);
  }

  /** An upper limit on `t` that may be `f32::INFINITY`. */
  datatype Bound = Finite(value: real) | Infinite

  /** `t < b` */
  predicate Below(t: real, b: Bound) { b.Infinite? || t < b.value }

  /** `t <= b` */
  predicate AtMost(t: real, b: Bound) { b.Infinite? || t <= b.value }

  /** `b1 <= b2` */
  predicate BoundLe(b1: Bound, b2: Bound) { b2.Infinite? || (b1.Finite? && b1.value <= b2.value) }

  /** `b.min(t)` for a finite `t`. */
  function MinBound(b: Bound, t: real): (r: real)
    ensures AtMost(r, b) && r <= t
    ensures r == t || (b.Finite? && r == b.value)
  {
    if b.Infinite? then t else Min(b.value, t)
  }

  /** The floating-point library the program calls into. */
  datatype FloatLib = FloatLib(
    sqrt: real -> real,
    cos: real -> real,
    sin: real -> real,
    toRadians: real -> real)

  /** `sqrt` returns the non-negative square root of a non-negative argument. */
  ghost predicate Sound(lib: FloatLib)
  {
    forall v :: 0.0 <= v ==> 0.0 <= lib.sqrt(v) && lib.sqrt(v) * lib.sqrt(v) == v
  }

  /** glam's `normalize`: `v / |v|`. For the zero vector glam yields NaN
      components; the model returns the vector unchanged. */
  function Normalize(lib: FloatLib, v: Vec3): Vec3
  {
    var len := lib.sqrt(LengthSquared(v));
    if len == 0.0 then v else Scale(1.0 / len, v)
  }

  /** A normalized non-zero vector has unit length and points the same way. */
  lemma NormalizeUnit(lib: FloatLib, v: Vec3)
    requires Sound(lib) && LengthSquared(v) != 0.0
    ensures LengthSquared(Normalize(lib, v)) == 1.0
    ensures exists k :: k > 0.0 && Normalize(lib, v) == Scale(k, v)
  {
    var l := LengthSquared(v);
    LengthSquaredNonNegative(v);
    var s := lib.sqrt(l);
    assert s >= 0.0 && s * s == l;
    assert s != 0.0;
    var k := 1.0 / s;
    assert k > 0.0;
    assert Normalize(lib, v) == Scale(k, v);
    calc {
      LengthSquared(Scale(k, v));
      (k * v.x) * (k * v.x) + (k * v.y) * (k * v.y) + (k * v.z) * (k * v.z);
      (k * k) * l;
      { assert k * s == 1.0; assert (k * k) * (s * s) == (k * s) * (k * s); }
      1.0;
    }
  }

  lemma ProductZero(a: real, b: real)
    requires a * b == 0.0 && b != 0.0
    ensures a == 0.0
  {
    assert a == (a * b) / b;
  }

  /** A unit vector is its own normalization. */
  lemma {:induction false} NormalizeOfUnit(lib: FloatLib, v: Vec3)
    requires Sound(lib) && LengthSquared(v) == 1.0
    ensures Normalize(lib, v) == v
  {
    var s := lib.sqrt(1.0);
    assert s >= 0.0 && s * s == 1.0;
    assert (s - 1.0) * (s + 1.0) == 0.0;
    ProductZero(s - 1.0, s + 1.0);
  }

  /** Either root `(-b ± s) / 2a` of a quadratic whose discriminant has the
      square root `s` solves it. */
  lemma {:induction false} QuadraticRoot(a: real, b: real, c: real, s: real, t: real)
    requires a != 0.0 && s * s == b * b - 4.0 * a * c
    requires 2.0 * a * t == -b - s || 2.0 * a * t == -b + s
    ensures a * t * t + b * t + c == 0.0
  {
    var u := 2.0 * a * t;
    assert u * u + 2.0 * b * u + 4.0 * a * c == 0.0;
    assert (a * t * t + b * t + c) * (4.0 * a) == u * u + 2.0 * b * u + 4.0 * a * c;
    ProductZero(a * t * t + b * t + c, 4.0 * a);
  }

  /** `|u + t v|² = |u|² + 2t (u·v) + t² |v|²` */
  lemma LengthSquaredAlong(u: Vec3, v: Vec3, t: real)
    ensures LengthSquared(Add(u, Scale(t, v)))
            == LengthSquared(v) * t * t + 2.0 * Dot(u, v) * t + LengthSquared(u)
  {
  }

  lemma DivideMonotone(x: real, y: real, d: real)
    requires x < y && d > 0.0
    ensures x / d < y / d
  {
    assert (y - x) / d > 0.0;
  }

  /** Comparing `t` with `x * (1/d)` is comparing `t d` with `x`, the
      comparison flipping for negative `d`. */
  lemma Threshold(x: real, d: real, t: real)
    requires d != 0.0
    ensures d > 0.0 ==> (t >= x * (1.0 / d) <==> t * d >= x) && (t <= x * (1.0 / d) <==> t * d <= x)
    ensures d < 0.0 ==> (t >= x * (1.0 / d) <==> t * d <= x) && (t <= x * (1.0 / d) <==> t * d >= x)
  {
    var y := x * (1.0 / d);
    assert y * d == x;
    if d > 0.0 {
      assert t >= y <==> t * d >= y * d;
      assert t <= y <==> t * d <= y * d;
    } else {
      assert t >= y <==> t * d <= y * d;
      assert t <= y <==> t * d >= y * d;
    }
  }
}
