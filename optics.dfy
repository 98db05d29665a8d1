/** Reflection and refraction of a direction at a surface (`reflect` and
    `refract` in the tracer). `normal` is the stored hit normal, which faces
    the incoming ray. */
module Optics {
  import opened Math
  import opened Wrappers

  /** `incident - 2 (incident·normal) normal` */
  function Reflect(incident: Vec3, normal: Vec3): Vec3
  {
    Sub(incident, Scale(2.0 * Dot(incident, normal), normal))
  }

  /** `min(-incident·normal, 1)`: the cosine of the angle of incidence, capped. */
  function CosTheta(incident: Vec3, normal: Vec3): real
  {
    Min(Dot(Neg(incident), normal), 1.0)
  }

  /** Total internal reflection: `ratio² (1 - cos²θ) > 1`. */
  predicate TotalInternalReflection(incident: Vec3, normal: Vec3, iorRatio: real)
  {
    var c := CosTheta(incident, normal);
    iorRatio * iorRatio * (1.0 - c * c) > 1.0
  }

  /** The part of the refracted direction along the surface: `ratio (incident + cosθ normal)`. */
  function Perpendicular(incident: Vec3, normal: Vec3, iorRatio: real): Vec3
  {
    Scale(iorRatio, Add(incident, Scale(CosTheta(incident, normal), normal)))
  }

  /** The unnormalized refracted direction: the part along the surface plus
      `-sqrt(|1 - |perp|²|) normal`. */
  function Unnormalized(incident: Vec3, normal: Vec3, iorRatio: real, lib: FloatLib): Vec3
  {
    var perp := Perpendicular(incident, normal, iorRatio);
    Add(perp, Scale(-lib.sqrt(Abs(1.0 - LengthSquared(perp))), normal))
  }

  /** The refracted direction, or `None` under total internal reflection. */
  function Refract(incident: Vec3, normal: Vec3, iorRatio: real, lib: FloatLib): (r: Option<Vec3>)
    ensures r.None? <==> TotalInternalReflection(incident, normal, iorRatio)
    ensures r.Some? ==> r.value == Normalize(lib, Unnormalized(incident, normal, iorRatio, lib))
  {
    if TotalInternalReflection(incident, normal, iorRatio) then None
    else Some(Normalize(lib, Unnormalized(incident, normal, iorRatio, lib)))
  }

  /** Against a unit normal, reflection negates the normal component. */
  lemma ReflectNormalComponent(incident: Vec3, normal: Vec3)
    requires LengthSquared(normal) == 1.0
    ensures Dot(Reflect(incident, normal), normal) == -Dot(incident, normal)
  {
    var k := 2.0 * Dot(incident, normal);
    assert Dot(Scale(k, normal), normal) == k * LengthSquared(normal);
  }

  /** Against a unit normal, reflecting twice gives back the incident direction. */
  lemma {:induction false} ReflectTwice(incident: Vec3, normal: Vec3)
    requires LengthSquared(normal) == 1.0
    ensures Reflect(Reflect(incident, normal), normal) == incident
  {
    ReflectNormalComponent(incident, normal);
    var r := Reflect(incident, normal);
    var k1 := 2.0 * Dot(incident, normal);
    var k2 := 2.0 * Dot(r, normal);
    assert k2 == -k1;
    assert Reflect(r, normal) == Sub(r, Scale(k2, normal));
  }

  /** Against a unit normal, reflection keeps the length. */
  lemma ReflectKeepsLength(incident: Vec3, normal: Vec3)
    requires LengthSquared(normal) == 1.0
    ensures LengthSquared(Reflect(incident, normal)) == LengthSquared(incident)
  {
    var d := Dot(incident, normal);
    ReflectAlong(incident, normal);
    LengthSquaredAlong(incident, normal, -(2.0 * d));
    ReflectedTerms(LengthSquared(normal), d, LengthSquared(incident));
  }

  /** `incident - 2d normal` as `incident + (-2d) normal`. */
  lemma ReflectAlong(incident: Vec3, normal: Vec3)
    ensures Reflect(incident, normal) == Add(incident, Scale(-(2.0 * Dot(incident, normal)), normal))
  {
  }

  /** Along a unit normal, the terms of `|incident - 2d normal|²` beyond
      `|incident|²` cancel. */
  lemma ReflectedTerms(unit: real, d: real, rest: real)
    requires unit == 1.0
    ensures unit * -(2.0 * d) * -(2.0 * d) + 2.0 * d * -(2.0 * d) + rest == rest
  {
  }

  /** For unit vectors `-incident·normal <= 1`, so the cap in `CosTheta` never applies. */
  lemma CosThetaUncapped(incident: Vec3, normal: Vec3)
    requires LengthSquared(incident) == 1.0 && LengthSquared(normal) == 1.0
    ensures CosTheta(incident, normal) == -Dot(incident, normal)
  {
    LengthSquaredNonNegative(Add(incident, normal));
    assert LengthSquared(Add(incident, normal)) == 2.0 + 2.0 * Dot(incident, normal);
  }

  /** For a unit direction and normal, the surface part of the refracted
      direction is `ratio` times the surface part of the incident direction
      and has squared length `ratio² (1 - cos²θ)`. */
  lemma {:induction false} PerpendicularPart(incident: Vec3, normal: Vec3, iorRatio: real)
    requires LengthSquared(incident) == 1.0 && LengthSquared(normal) == 1.0
    ensures var c := -Dot(incident, normal);
            && Perpendicular(incident, normal, iorRatio) == Scale(iorRatio, Add(incident, Scale(c, normal)))
            && Dot(Perpendicular(incident, normal, iorRatio), normal) == 0.0
            && LengthSquared(Perpendicular(incident, normal, iorRatio)) == iorRatio * iorRatio * (1.0 - c * c)
  {
    CosThetaUncapped(incident, normal);
    var c := -Dot(incident, normal);
    var w := Add(incident, Scale(c, normal));
    DotScale(c, normal, normal);
    assert Dot(w, normal) == Dot(incident, normal) + Dot(Scale(c, normal), normal);
    LengthSquaredAlong(incident, normal, c);
    assert LengthSquared(w) == 1.0 * c * c + 2.0 * (-c) * c + 1.0;
    DotScale(iorRatio, w, normal);
    LengthSquaredScale(iorRatio, w);
  }

  /** A part `perp` along the surface plus `-s normal`, with `s² = 1 - |perp|²`,
      is a unit vector whose normal component is `-s` and whose part along
      the surface is `perp`. */
  lemma CombineParts(perp: Vec3, normal: Vec3, s: real)
    requires LengthSquared(normal) == 1.0 && Dot(perp, normal) == 0.0
    requires s * s == 1.0 - LengthSquared(perp)
    ensures var u := Add(perp, Scale(-s, normal));
            LengthSquared(u) == 1.0 && Dot(u, normal) == -s && Perp(u, normal) == perp
  {
    var par := Scale(-s, normal);
    var u := Add(perp, par);
    DotScale(-s, normal, perp);
    LengthSquaredScale(-s, normal);
    assert Dot(perp, par) == Dot(par, perp);
    assert LengthSquared(u) == LengthSquared(perp) + 2.0 * Dot(perp, par) + LengthSquared(par);
    DotScale(-s, normal, normal);
    assert Dot(u, normal) == Dot(perp, normal) + Dot(par, normal);
  }

  /** `w - (w·v) v` written as `w + (-(w·v)) v`. */
  lemma PerpAsSum(w: Vec3, v: Vec3)
    ensures Perp(w, v) == Add(w, Scale(-Dot(w, v), v))
  {
  }

  /** Snell's law as the program states it: with a true square root and unit
      direction and normal, a refracted direction has unit length already
      before normalizing, goes through the surface (`·normal < 0`, unless it
      grazes it), and its part along the surface is `ratio` times the
      incident one. */
  lemma {:induction false} RefractSnell(incident: Vec3, normal: Vec3, iorRatio: real, lib: FloatLib)
    requires Sound(lib) && LengthSquared(incident) == 1.0 && LengthSquared(normal) == 1.0
    requires !TotalInternalReflection(incident, normal, iorRatio)
    ensures var d := Refract(incident, normal, iorRatio, lib).value;
            && LengthSquared(d) == 1.0
            && Dot(d, normal) <= 0.0
            && Perp(d, normal) == Scale(iorRatio, Perp(incident, normal))
  {
    PerpendicularPart(incident, normal, iorRatio);
    var perp := Perpendicular(incident, normal, iorRatio);
    var l := LengthSquared(perp);
    var s := lib.sqrt(Abs(1.0 - l));
    assert s >= 0.0 && s * s == 1.0 - l;
    var u := Add(perp, Scale(-s, normal));
    assert u == Unnormalized(incident, normal, iorRatio, lib);
    CombineParts(perp, normal, s);
    NormalizeOfUnit(lib, u);
    PerpAsSum(incident, normal);
  }
}
