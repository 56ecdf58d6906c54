/** Pathways/PathwayObject.cs: a renderable object and its device record,
    the element type of the new kernel's object buffer. */
module PathwayObjects {
  import opened Numerics
  import Colors
  import Rotations

  datatype ObjectType = Sphere | Box | Plane

  /** (int)Type: the enum's declaration order. */
  function TypeCode(t: ObjectType): (c: int)
    ensures 0 <= c <= 2
  {
    match t
    case Sphere => 0
    case Box => 1
    case Plane => 2
  }

  /** The enum member a device code names, if any. */
  function TypeOfCode(c: int): (t: Option<ObjectType>)
    ensures t.Some? <==> 0 <= c <= 2
  {
    if c == 0 then Some(Sphere)
    else if c == 1 then Some(Box)
    else if c == 2 then Some(Plane)
    else None
  }

  /** Encoding then decoding gives the type back, and decoding then encoding
      gives the code back, so the encoding is one-to-one onto {0,1,2}. */
  lemma TypeCodeRoundTrip(t: ObjectType, c: int)
    ensures TypeOfCode(TypeCode(t)) == Some(t)
    ensures TypeOfCode(c).Some? ==> TypeCode(TypeOfCode(c).value) == c
  {
  }

  datatype PathwayObject = PathwayObject(
    position: Vec3,
    rotation: Rotations.Rotation,
    scale: Vec3,
    objectType: ObjectType,
    color: Colors.Color,
    smoothness: real)

  /** PathwayObject.ShaderRepresentation */
  datatype ShaderRepresentation = ShaderRepresentation(
    position: Vec3,
    rotation: Vec4,
    scale: Vec3,
    objectType: int,
    color: Vec3,
    smoothness: real)

  /** new ShaderRepresentation(): every field zero. To the kernel this is a
      sphere (code 0) of radius 0 at the origin. */
  const ZeroRecord: ShaderRepresentation :=
    ShaderRepresentation(Zero3, Vec4(0.0, 0.0, 0.0, 0.0), Zero3, 0, Zero3, 0.0)

  /** The smoothness field initialiser. */
  const DefaultSmoothness: real := 0.5

  /** The five-argument constructor; smoothness keeps its initialiser. */
  function New(position: Vec3, rotation: Rotations.Rotation, scale: Vec3, t: ObjectType, color: Colors.Color): (o: PathwayObject)
    ensures o.smoothness == DefaultSmoothness
    ensures o.position == position && o.rotation == rotation && o.scale == scale
    ensures o.objectType == t && o.color == color
  {
    PathwayObject(position, rotation, scale, t, color, DefaultSmoothness)
  }

  /** The parameterless constructor: a white unit sphere at the origin with
      the identity rotation. */
  function Default(): (o: PathwayObject)
    ensures o.position == Zero3 && o.scale == One3
    ensures Rotations.ToVector4(o.rotation) == Vec4(0.0, 0.0, 0.0, 1.0)
    ensures o.objectType == Sphere && o.color == Colors.White
    ensures o.smoothness == 0.5
  {
    New(Zero3, Rotations.Default(), One3, Sphere, Colors.White)
  }

  /** GetShaderRepresentation: fields copied, the quaternion laid out X Y Z
      W, the type as its code, the colour as bytes / 255. */
  function GetShaderRepresentation(o: PathwayObject): (r: ShaderRepresentation)
    ensures r.position == o.position && r.scale == o.scale && r.smoothness == o.smoothness
    ensures r.rotation == Rotations.ToVector4(o.rotation)
    ensures TypeOfCode(r.objectType) == Some(o.objectType)
    ensures Colors.InUnitCube(r.color)
    ensures r.color == Colors.ToUnitRgb(o.color)
  {
    ShaderRepresentation(
      o.position,
      Rotations.ToVector4(o.rotation),
      o.scale,
      TypeCode(o.objectType),
      Colors.ToUnitRgb(o.color),
      o.smoothness)
  }

  /** Two objects agree in everything the device record keeps: all fields
      but the colour's alpha. */
  predicate SameButAlpha(a: PathwayObject, b: PathwayObject) {
    && a.position == b.position && a.rotation == b.rotation && a.scale == b.scale
    && a.objectType == b.objectType && a.smoothness == b.smoothness
    && a.color.r == b.color.r && a.color.g == b.color.g && a.color.b == b.color.b
  }

  /** The record loses only the alpha channel. */
  lemma RecordLosesOnlyAlpha(a: PathwayObject, b: PathwayObject)
    ensures GetShaderRepresentation(a) == GetShaderRepresentation(b) <==> SameButAlpha(a, b)
  {
    Colors.ToUnitRgbInjective(a.color, b.color);
    Rotations.ToVector4Injective(a.rotation, b.rotation);
    TypeCodeRoundTrip(a.objectType, 0);
    TypeCodeRoundTrip(b.objectType, 0);
  }

  /** The default object's record: origin, identity quaternion, unit scale,
      code 0, colour (1,1,1), smoothness 0.5. */
  lemma DefaultRecord()
    ensures GetShaderRepresentation(Default()) ==
      ShaderRepresentation(Zero3, Vec4(0.0, 0.0, 0.0, 1.0), One3, 0, One3, 0.5)
  {
    Colors.WhiteIsOne();
  }
}
