/** Pathways/PathwayLight.cs: a light and its device record, the element
    type of the new kernel's light buffer. */
module PathwayLights {
  import opened Numerics
  import Colors
  import Rotations

  datatype LightType = Point | Directional

  /** (int)Type: the enum's declaration order. */
  function TypeCode(t: LightType): (c: int)
    ensures 0 <= c <= 1
  {
    match t
    case Point => 0
    case Directional => 1
  }

  function TypeOfCode(c: int): (t: Option<LightType>)
    ensures t.Some? <==> 0 <= c <= 1
  {
    if c == 0 then Some(Point)
    else if c == 1 then Some(Directional)
    else None
  }

  lemma TypeCodeRoundTrip(t: LightType, c: int)
    ensures TypeOfCode(TypeCode(t)) == Some(t)
    ensures TypeOfCode(c).Some? ==> TypeCode(TypeOfCode(c).value) == c
  {
  }

  datatype PathwayLight = PathwayLight(
    position: Vec3,
    color: Colors.Color,
    rotation: Rotations.Rotation,
    intensity: real,
    shadowSharpness: real,
    lightType: LightType)

  /** PathwayLight.ShaderRepresentation */
  datatype ShaderRepresentation = ShaderRepresentation(
    position: Vec3,
    color: Vec3,
    rotation: Vec4,
    intensity: real,
    shadowSharpness: real,
    lightType: int)

  /** The ShadowSharpness field initialiser. */
  const DefaultShadowSharpness: real := 32.0

  /** The five-argument constructor; the sharpness keeps its initialiser. */
  function New(position: Vec3, color: Colors.Color, rotation: Rotations.Rotation, intensity: real, t: LightType): (l: PathwayLight)
    ensures l.shadowSharpness == 32.0
    ensures l.position == position && l.color == color && l.rotation == rotation
    ensures l.intensity == intensity && l.lightType == t
  {
    PathwayLight(position, color, rotation, intensity, DefaultShadowSharpness, t)
  }

  /** The parameterless constructor: a white point light of intensity 1 at
      the origin with the identity rotation. */
  function Default(): (l: PathwayLight)
    ensures l.position == Zero3 && l.color == Colors.White && l.intensity == 1.0
    ensures l.lightType == Point && l.shadowSharpness == 32.0
    ensures Rotations.ToVector4(l.rotation) == Vec4(0.0, 0.0, 0.0, 1.0)
  {
    New(Zero3, Colors.White, Rotations.Default(), 1.0, Point)
  }

  /** GetShaderRepresentation: fields copied, the quaternion copied X Y Z
      W, the colour as bytes / 255, the type as its code. */
  function GetShaderRepresentation(l: PathwayLight): (r: ShaderRepresentation)
    ensures r.position == l.position && r.intensity == l.intensity
    ensures r.shadowSharpness == l.shadowSharpness
    ensures r.rotation == Vec4(l.rotation.value.x, l.rotation.value.y, l.rotation.value.z, l.rotation.value.w)
    ensures TypeOfCode(r.lightType) == Some(l.lightType)
    ensures Colors.InUnitCube(r.color) && r.color == Colors.ToUnitRgb(l.color)
  {
    var q := l.rotation.value;
    ShaderRepresentation(
      l.position,
      Colors.ToUnitRgb(l.color),
      Vec4(q.x, q.y, q.z, q.w),
      l.intensity,
      l.shadowSharpness,
      TypeCode(l.lightType))
  }

  predicate SameButAlpha(a: PathwayLight, b: PathwayLight) {
    && a.position == b.position && a.rotation == b.rotation && a.intensity == b.intensity
    && a.shadowSharpness == b.shadowSharpness && a.lightType == b.lightType
    && a.color.r == b.color.r && a.color.g == b.color.g && a.color.b == b.color.b
  }

  /** The record loses only the alpha channel. */
  lemma RecordLosesOnlyAlpha(a: PathwayLight, b: PathwayLight)
    ensures GetShaderRepresentation(a) == GetShaderRepresentation(b) <==> SameButAlpha(a, b)
  {
    Colors.ToUnitRgbInjective(a.color, b.color);
    Rotations.ToVector4Injective(a.rotation, b.rotation);
    TypeCodeRoundTrip(a.lightType, 0);
    TypeCodeRoundTrip(b.lightType, 0);
  }

  /** The default light's record. */
  lemma DefaultRecord()
    ensures GetShaderRepresentation(Default()) ==
      ShaderRepresentation(Zero3, One3, Vec4(0.0, 0.0, 0.0, 1.0), 1.0, 32.0, 0)
  {
    Colors.WhiteIsOne();
  }
}
