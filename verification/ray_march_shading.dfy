/** The shading of the new kernel (Pathways/Shaders/RayMarchShader.cs,
    region "Shading functions"): per-light diffuse and specular terms, the
    soft shadow, the ambient term and the tone map. Exact magnitudes depend
    on `sqrt` and `pow`; the properties are ranges, signs and what the
    result does not depend on. */
module RayMarchShading {
  import opened Numerics
  import ShaderMath
  import PathwayObjects
  import PathwayLights
  import RayMarchSdf
  import RayMarchSelection

  /** The ambient factor: obj.Color * 0.1 is added whatever the lights. */
  const Ambient: real := 0.1

  /** The shadow sharpness the kernel passes for point and directional
      lights; the light's own ShadowSharpness field is never read. */
  const PointSharpness: real := 64.0
  const DirectionalSharpness: real := 16.0

  /** The shadow ray's range, and the offset of its origin along the
      normal. */
  const ShadowRange: real := 100.0
  const SurfaceOffset: real := 0.001

  // ---------------------------------------------------------------------
  // Shadow

  /** The ray parameters at which the shadow loop samples the scene: it
      stops at the step budget, at tMax, or right after a sample closer than
      0.001. */
  function ShadowSamples(h: real -> real, tMax: real, t: real, i: nat): seq<real>
    requires i <= RayMarchSelection.MaxSteps
    decreases RayMarchSelection.MaxSteps - i
  {
    if i == RayMarchSelection.MaxSteps || t >= tMax then []
    else if h(t) < RayMarchSelection.HitDistance then [t]
    else [t] + ShadowSamples(h, tMax, t + h(t), i + 1)
  }

  lemma QuotientPositive(k: real, h: real, t: real)
    requires 0.0 < k && 0.0 < h && 0.0 < t
    ensures 0.0 < k * h / t
  {
    MulPositive(k, h);
  }

  /** The shadow loop from step i with penumbra factor `res` and ray
      parameter t. A sample below 0.001 means full shadow. Otherwise res
      takes the minimum with k h / t; at t = 0 that quotient is a positive
      infinity in single precision, which leaves res unchanged, so the model
      skips it there. */
  function ShadowFrom(h: real -> real, tMax: real, k: real, res: real, t: real, i: nat): (r: real)
    requires i <= RayMarchSelection.MaxSteps
    requires 0.0 < k && 0.0 < res <= 1.0 && 0.0 <= t
    ensures 0.0 <= r <= 1.0
    ensures r == 0.0 ==> |ShadowSamples(h, tMax, t, i)| > 0
    decreases RayMarchSelection.MaxSteps - i
  {
    if i == RayMarchSelection.MaxSteps || t >= tMax then res
    else if h(t) < RayMarchSelection.HitDistance then 0.0
    else
      var next := if t == 0.0 then res else (QuotientPositive(k, h(t), t); Min(res, k * h(t) / t));
      ShadowFrom(h, tMax, k, next, t + h(t), i + 1)
  }

  predicate SomeSampleClose(h: real -> real, s: seq<real>) {
    exists n :: 0 <= n < |s| && h(s[n]) < RayMarchSelection.HitDistance
  }

  /** The shadow factor is 0 exactly when some sample lies closer than
      0.001 to the scene. */
  lemma {:induction false} ShadowZeroIff(h: real -> real, tMax: real, k: real, res: real, t: real, i: nat)
    requires i <= RayMarchSelection.MaxSteps
    requires 0.0 < k && 0.0 < res <= 1.0 && 0.0 <= t
    ensures ShadowFrom(h, tMax, k, res, t, i) == 0.0 <==> SomeSampleClose(h, ShadowSamples(h, tMax, t, i))
    decreases RayMarchSelection.MaxSteps - i
  {
    var s := ShadowSamples(h, tMax, t, i);
    if i == RayMarchSelection.MaxSteps || t >= tMax {
    } else if h(t) < RayMarchSelection.HitDistance {
      assert s == [t] && h(s[0]) < RayMarchSelection.HitDistance;
      assert ShadowFrom(h, tMax, k, res, t, i) == 0.0;
      assert SomeSampleClose(h, s);
    } else {
      var next := if t == 0.0 then res else Min(res, k * h(t) / t);
      if t != 0.0 {
        QuotientPositive(k, h(t), t);
      }
      ShadowZeroIff(h, tMax, k, next, t + h(t), i + 1);
      var s' := ShadowSamples(h, tMax, t + h(t), i + 1);
      assert s == [t] + s';
      if ShadowFrom(h, tMax, k, res, t, i) == 0.0 {
        var n :| 0 <= n < |s'| && h(s'[n]) < RayMarchSelection.HitDistance;
        assert s[n + 1] == s'[n];
      }
      if SomeSampleClose(h, s) {
        var n :| 0 <= n < |s| && h(s[n]) < RayMarchSelection.HitDistance;
        assert n > 0;
        assert s'[n - 1] == s[n];
      }
    }
  }

  /** Shadow(origin, dir, tMax, k): the loop from t = 0 with res = 1, the
      scene distance sampled along the ray. */
  function Shadow(m: Libm, objects: seq<PathwayObjects.ShaderRepresentation>, origin: Vec3, dir: Vec3, tMax: real, k: real): (r: real)
    requires 0.0 < k
    ensures 0.0 <= r <= 1.0
  {
    ShadowFrom(t => RayMarchSdf.SceneSdf(m, objects, Add(origin, Scale(dir, t))), tMax, k, 1.0, 0.0, 0)
  }

  // ---------------------------------------------------------------------
  // Lights

  /** The body shared by LightAccumPoint and LightAccumDirectional, given
      the direction toward the light: diffuse max(0, n.l), Blinn-Phong
      specular with exponent smoothness * 64, scaled by both colours and the
      intensity. */
  function Lit(m: Libm, cameraPosition: Vec3, point: Vec3, normal: Vec3, lightDir: Vec3,
               obj: PathwayObjects.ShaderRepresentation, light: PathwayLights.ShaderRepresentation): Vec3
  {
    var diffuse := Max(0.0, Dot(normal, lightDir));
    Weighted(obj, light, diffuse, Specular(m, cameraPosition, point, normal, lightDir, obj.smoothness))
  }

  /** The specular factor: max(0, n.h) to the power smoothness * 64, with h
      halfway between the light and the view directions. */
  function Specular(m: Libm, cameraPosition: Vec3, point: Vec3, normal: Vec3, lightDir: Vec3, smoothness: real): real {
    var viewDir := ShaderMath.Normalize(m, Sub(cameraPosition, point));
    var halfwayDir := ShaderMath.Normalize(m, Add(lightDir, viewDir));
    m.pow(Max(0.0, Dot(normal, halfwayDir)), smoothness * 64.0)
  }

  /** obj.Color * light.Color * (diffuse + specular * smoothness) * intensity,
      added to zero. */
  function Weighted(obj: PathwayObjects.ShaderRepresentation, light: PathwayLights.ShaderRepresentation, diffuse: real, specular: real): Vec3 {
    Add(Zero3, Scale(Scale(Mul(obj.color, light.color), diffuse + specular * obj.smoothness), light.intensity))
  }

  /** LightAccumPoint: the light direction is toward the light's position. */
  function LightAccumPoint(m: Libm, cameraPosition: Vec3, point: Vec3, normal: Vec3,
                           obj: PathwayObjects.ShaderRepresentation, light: PathwayLights.ShaderRepresentation): Vec3
  {
    Lit(m, cameraPosition, point, normal, ShaderMath.Normalize(m, Sub(light.position, point)), obj, light)
  }

  /** LightAccumDirectional: the light direction is +Z rotated by the
      light's quaternion. */
  function LightAccumDirectional(m: Libm, cameraPosition: Vec3, point: Vec3, normal: Vec3,
                                 obj: PathwayObjects.ShaderRepresentation, light: PathwayLights.ShaderRepresentation): Vec3
  {
    Lit(m, cameraPosition, point, normal, ShaderMath.Transform(Vec3(0.0, 0.0, 1.0), light.rotation), obj, light)
  }

  /** One light's contribution in Shade: by type code 0 (point) or 1
      (directional), shadowed with sharpness 64 or 16; any other code adds
      nothing. */
  function LightTerm(m: Libm, cameraPosition: Vec3, objects: seq<PathwayObjects.ShaderRepresentation>,
                     point: Vec3, normal: Vec3, obj: PathwayObjects.ShaderRepresentation,
                     light: PathwayLights.ShaderRepresentation): Vec3
  {
    var lifted := Add(point, Scale(normal, SurfaceOffset));
    if light.lightType == 0 then
      var accum := LightAccumPoint(m, cameraPosition, point, normal, obj, light);
      var dir := ShaderMath.Normalize(m, Sub(light.position, point));
      Scale(accum, Shadow(m, objects, lifted, dir, ShadowRange, PointSharpness))
    else if light.lightType == 1 then
      var accum := LightAccumDirectional(m, cameraPosition, lifted, normal, obj, light);
      var dir := ShaderMath.Transform(Vec3(0.0, 0.0, 1.0), light.rotation);
      Scale(accum, Shadow(m, objects, lifted, dir, ShadowRange, DirectionalSharpness))
    else Zero3
  }

  /** The sum of the light terms, in buffer order. */
  function LightSum(m: Libm, cameraPosition: Vec3, objects: seq<PathwayObjects.ShaderRepresentation>,
                    point: Vec3, normal: Vec3, obj: PathwayObjects.ShaderRepresentation,
                    lights: seq<PathwayLights.ShaderRepresentation>): Vec3
    decreases |lights|
  {
    if |lights| == 0 then Zero3
    else Add(LightTerm(m, cameraPosition, objects, point, normal, obj, lights[0]),
             LightSum(m, cameraPosition, objects, point, normal, obj, lights[1..]))
  }

  /** Shade: the lights' sum plus the ambient term. */
  function Shade(m: Libm, cameraPosition: Vec3, objects: seq<PathwayObjects.ShaderRepresentation>,
                 lights: seq<PathwayLights.ShaderRepresentation>,
                 point: Vec3, normal: Vec3, obj: PathwayObjects.ShaderRepresentation): Vec3
  {
    Add(LightSum(m, cameraPosition, objects, point, normal, obj, lights), Scale(obj.color, Ambient))
  }

  /** SmoothClampColor, one channel: 2 / (1 + e^(-3x)) - 1. */
  function SmoothClampChannel(m: Libm, x: real): real {
    1.0 / (1.0 + m.exp(-3.0 * x)) * 2.0 - 1.0
  }

  function SmoothClampColor(m: Libm, color: Vec3): Vec3 {
    Vec3(SmoothClampChannel(m, color.x), SmoothClampChannel(m, color.y), SmoothClampChannel(m, color.z))
  }

  // ---------------------------------------------------------------------
  // Properties

  /** With no lights, Shade is exactly the ambient term. */
  lemma ShadeNoLights(m: Libm, cameraPosition: Vec3, objects: seq<PathwayObjects.ShaderRepresentation>,
                      point: Vec3, normal: Vec3, obj: PathwayObjects.ShaderRepresentation)
    ensures Shade(m, cameraPosition, objects, [], point, normal, obj) == Scale(obj.color, Ambient)
  {
  }

  /** The lights whose type code the kernel knows, in buffer order: every
      light with code 0 or 1 is kept, as often as it occurs, and nothing
      else. */
  function KnownLights(lights: seq<PathwayLights.ShaderRepresentation>): (r: seq<PathwayLights.ShaderRepresentation>)
    ensures forall i :: 0 <= i < |r| ==> r[i].lightType == 0 || r[i].lightType == 1
    ensures forall i :: 0 <= i < |lights| && (lights[i].lightType == 0 || lights[i].lightType == 1) ==> lights[i] in r
    ensures forall x :: x in r ==> x in lights
    ensures forall x :: multiset(r)[x] == (if x.lightType == 0 || x.lightType == 1 then multiset(lights)[x] else 0)
    ensures |r| <= |lights|
    decreases |lights|
  {
    if |lights| == 0 then []
    else
      assert lights == [lights[0]] + lights[1..];
      if lights[0].lightType == 0 || lights[0].lightType == 1 then [lights[0]] + KnownLights(lights[1..])
      else KnownLights(lights[1..])
  }

  /** Lights of any other type code add nothing: dropping them leaves the
      shading unchanged. */
  lemma {:induction false} UnknownLightsIgnored(m: Libm, cameraPosition: Vec3, objects: seq<PathwayObjects.ShaderRepresentation>,
                                                 point: Vec3, normal: Vec3, obj: PathwayObjects.ShaderRepresentation,
                                                 lights: seq<PathwayLights.ShaderRepresentation>)
    ensures LightSum(m, cameraPosition, objects, point, normal, obj, KnownLights(lights))
         == LightSum(m, cameraPosition, objects, point, normal, obj, lights)
    decreases |lights|
  {
    if |lights| > 0 {
      UnknownLightsIgnored(m, cameraPosition, objects, point, normal, obj, lights[1..]);
      if lights[0].lightType == 0 || lights[0].lightType == 1 {
        assert ([lights[0]] + KnownLights(lights[1..]))[1..] == KnownLights(lights[1..]);
      }
    }
  }

  /** Two light buffers that differ only in their ShadowSharpness fields. */
  predicate SameButSharpness(a: seq<PathwayLights.ShaderRepresentation>, b: seq<PathwayLights.ShaderRepresentation>) {
    |a| == |b| && forall i :: 0 <= i < |a| ==> a[i].(shadowSharpness := 0.0) == b[i].(shadowSharpness := 0.0)
  }

  /** The shading never reads a light's ShadowSharpness: the constants 64
      and 16 are used instead. */
  lemma {:induction false} SharpnessIgnored(m: Libm, cameraPosition: Vec3, objects: seq<PathwayObjects.ShaderRepresentation>,
                                             point: Vec3, normal: Vec3, obj: PathwayObjects.ShaderRepresentation,
                                             a: seq<PathwayLights.ShaderRepresentation>, b: seq<PathwayLights.ShaderRepresentation>)
    requires SameButSharpness(a, b)
    ensures Shade(m, cameraPosition, objects, a, point, normal, obj) == Shade(m, cameraPosition, objects, b, point, normal, obj)
    decreases |a|
  {
    SharpnessIgnoredSum(m, cameraPosition, objects, point, normal, obj, a, b);
  }

  lemma {:induction false} SharpnessIgnoredSum(m: Libm, cameraPosition: Vec3, objects: seq<PathwayObjects.ShaderRepresentation>,
                                                point: Vec3, normal: Vec3, obj: PathwayObjects.ShaderRepresentation,
                                                a: seq<PathwayLights.ShaderRepresentation>, b: seq<PathwayLights.ShaderRepresentation>)
    requires SameButSharpness(a, b)
    ensures LightSum(m, cameraPosition, objects, point, normal, obj, a) == LightSum(m, cameraPosition, objects, point, normal, obj, b)
    decreases |a|
  {
    if |a| > 0 {
      assert a[0].(shadowSharpness := 0.0) == b[0].(shadowSharpness := 0.0);
      assert SameButSharpness(a[1..], b[1..]) by {
        forall i | 0 <= i < |a[1..]|
          ensures a[1..][i].(shadowSharpness := 0.0) == b[1..][i].(shadowSharpness := 0.0)
        {
          assert a[1..][i] == a[i + 1] && b[1..][i] == b[i + 1];
        }
      }
      SharpnessIgnoredSum(m, cameraPosition, objects, point, normal, obj, a[1..], b[1..]);
    }
  }

  /** Every component of v is non-negative. */
  predicate NonNegative(v: Vec3) {
    LessEq(Zero3, v)
  }

  lemma ScaleNonNegative(v: Vec3, s: real)
    requires NonNegative(v) && 0.0 <= s
    ensures NonNegative(Scale(v, s))
  {
    MulNonNegative(v.x, s);
    MulNonNegative(v.y, s);
    MulNonNegative(v.z, s);
  }

  lemma MulVecNonNegative(a: Vec3, b: Vec3)
    requires NonNegative(a) && NonNegative(b)
    ensures NonNegative(Mul(a, b))
  {
    MulNonNegative(a.x, b.x);
    MulNonNegative(a.y, b.y);
    MulNonNegative(a.z, b.z);
  }

  /** A light with a non-negative colour and intensity lights a
      non-negative surface colour non-negatively. */
  lemma LitNonNegative(m: Libm, cameraPosition: Vec3, point: Vec3, normal: Vec3, lightDir: Vec3,
                       obj: PathwayObjects.ShaderRepresentation, light: PathwayLights.ShaderRepresentation)
    requires Lawful(m)
    requires NonNegative(obj.color) && 0.0 <= obj.smoothness
    requires NonNegative(light.color) && 0.0 <= light.intensity
    ensures NonNegative(Lit(m, cameraPosition, point, normal, lightDir, obj, light))
  {
    SpecularNonNegative(m, cameraPosition, point, normal, lightDir, obj.smoothness);
    WeightedNonNegative(obj, light, Max(0.0, Dot(normal, lightDir)), Specular(m, cameraPosition, point, normal, lightDir, obj.smoothness));
  }

  lemma SpecularNonNegative(m: Libm, cameraPosition: Vec3, point: Vec3, normal: Vec3, lightDir: Vec3, smoothness: real)
    requires Lawful(m)
    ensures 0.0 <= Specular(m, cameraPosition, point, normal, lightDir, smoothness)
  {
  }

  lemma WeightedNonNegative(obj: PathwayObjects.ShaderRepresentation, light: PathwayLights.ShaderRepresentation, diffuse: real, specular: real)
    requires NonNegative(obj.color) && 0.0 <= obj.smoothness
    requires NonNegative(light.color) && 0.0 <= light.intensity
    requires 0.0 <= diffuse && 0.0 <= specular
    ensures NonNegative(Weighted(obj, light, diffuse, specular))
  {
    MulNonNegative(specular, obj.smoothness);
    var c := Mul(obj.color, light.color);
    MulVecNonNegative(obj.color, light.color);
    ScaleNonNegative(c, diffuse + specular * obj.smoothness);
    ScaleNonNegative(Scale(c, diffuse + specular * obj.smoothness), light.intensity);
  }

  /** The lights the kernel can accept: non-negative colours and
      intensities. The records built from byte colours have the first. */
  predicate LightsNonNegative(lights: seq<PathwayLights.ShaderRepresentation>) {
    forall i :: 0 <= i < |lights| ==> NonNegative(lights[i].color) && 0.0 <= lights[i].intensity
  }

  lemma {:induction false} LightSumNonNegative(m: Libm, cameraPosition: Vec3, objects: seq<PathwayObjects.ShaderRepresentation>,
                                                point: Vec3, normal: Vec3, obj: PathwayObjects.ShaderRepresentation,
                                                lights: seq<PathwayLights.ShaderRepresentation>)
    requires Lawful(m)
    requires NonNegative(obj.color) && 0.0 <= obj.smoothness
    requires LightsNonNegative(lights)
    ensures NonNegative(LightSum(m, cameraPosition, objects, point, normal, obj, lights))
    decreases |lights|
  {
    if |lights| > 0 {
      var light := lights[0];
      var lifted := Add(point, Scale(normal, SurfaceOffset));
      if light.lightType == 0 {
        var accum := LightAccumPoint(m, cameraPosition, point, normal, obj, light);
        LitNonNegative(m, cameraPosition, point, normal, ShaderMath.Normalize(m, Sub(light.position, point)), obj, light);
        var dir := ShaderMath.Normalize(m, Sub(light.position, point));
        ScaleNonNegative(accum, Shadow(m, objects, lifted, dir, ShadowRange, PointSharpness));
      } else if light.lightType == 1 {
        var accum := LightAccumDirectional(m, cameraPosition, lifted, normal, obj, light);
        LitNonNegative(m, cameraPosition, lifted, normal, ShaderMath.Transform(Vec3(0.0, 0.0, 1.0), light.rotation), obj, light);
        var dir := ShaderMath.Transform(Vec3(0.0, 0.0, 1.0), light.rotation);
        ScaleNonNegative(accum, Shadow(m, objects, lifted, dir, ShadowRange, DirectionalSharpness));
      }
      assert LightsNonNegative(lights[1..]) by {
        forall i | 0 <= i < |lights[1..]|
          ensures NonNegative(lights[1..][i].color) && 0.0 <= lights[1..][i].intensity
        {
          assert lights[1..][i] == lights[i + 1];
        }
      }
      LightSumNonNegative(m, cameraPosition, objects, point, normal, obj, lights[1..]);
    }
  }

  /** Lights only ever add to the ambient term. */
  lemma ShadeAtLeastAmbient(m: Libm, cameraPosition: Vec3, objects: seq<PathwayObjects.ShaderRepresentation>,
                            lights: seq<PathwayLights.ShaderRepresentation>,
                            point: Vec3, normal: Vec3, obj: PathwayObjects.ShaderRepresentation)
    requires Lawful(m)
    requires NonNegative(obj.color) && 0.0 <= obj.smoothness
    requires LightsNonNegative(lights)
    ensures LessEq(Scale(obj.color, Ambient), Shade(m, cameraPosition, objects, lights, point, normal, obj))
  {
    LightSumNonNegative(m, cameraPosition, objects, point, normal, obj, lights);
  }

  lemma ReciprocalInUnit(a: real)
    requires 1.0 < a
    ensures 0.0 < 1.0 / a < 1.0
  {
  }

  /** The tone map sends every channel into (-1, 1) and 0 to 0. */
  lemma SmoothClampRange(m: Libm, x: real)
    requires Lawful(m)
    ensures -1.0 < SmoothClampChannel(m, x) < 1.0
    ensures x == 0.0 ==> SmoothClampChannel(m, x) == 0.0
  {
    ReciprocalInUnit(1.0 + m.exp(-3.0 * x));
    if x == 0.0 {
      assert -3.0 * x == 0.0;
    }
  }
}
