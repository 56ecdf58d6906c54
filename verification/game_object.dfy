/** Pathways/GameObject.cs: the older object type, the element type of the
    old kernel's object buffer. */
module GameObjects {
  import opened Numerics
  import Colors
  import Rotations

  datatype SdfType = Sphere | Box | Plane

  /** (int)Sdf: the enum's declaration order. */
  function TypeCode(t: SdfType): (c: int)
    ensures 0 <= c <= 2
  {
    match t
    case Sphere => 0
    case Box => 1
    case Plane => 2
  }

  function TypeOfCode(c: int): (t: Option<SdfType>)
    ensures t.Some? <==> 0 <= c <= 2
  {
    if c == 0 then Some(Sphere)
    else if c == 1 then Some(Box)
    else if c == 2 then Some(Plane)
    else None
  }

  lemma TypeCodeRoundTrip(t: SdfType, c: int)
    ensures TypeOfCode(TypeCode(t)) == Some(t)
    ensures TypeOfCode(c).Some? ==> TypeCode(TypeOfCode(c).value) == c
  {
  }

  datatype GameObject = GameObject(
    position: Vec3,
    rotation: Rotations.Rotation,
    scale: Vec3,
    sdf: SdfType,
    color: Colors.Color)

  /** GameObject.ShaderRepresentation */
  datatype ShaderRepresentation = ShaderRepresentation(
    position: Vec3,
    rotation: Vec4,
    scale: Vec3,
    sdfType: int,
    color: Vec3)

  /** The five-argument constructor. */
  function New(position: Vec3, rotation: Rotations.Rotation, scale: Vec3, sdf: SdfType, color: Colors.Color): (o: GameObject)
    ensures o.position == position && o.rotation == rotation && o.scale == scale
    ensures o.sdf == sdf && o.color == color
  {
    GameObject(position, rotation, scale, sdf, color)
  }

  /** The parameterless constructor: a red unit sphere at the origin with
      the identity rotation. */
  function Default(): (o: GameObject)
    ensures o.position == Zero3 && o.scale == One3
    ensures Rotations.ToVector4(o.rotation) == Vec4(0.0, 0.0, 0.0, 1.0)
    ensures o.sdf == Sphere && o.color == Colors.Red
  {
    New(Zero3, Rotations.Default(), One3, Sphere, Colors.Red)
  }

  /** GetShaderRepresentation: fields copied, the quaternion copied X Y Z
      W, the type as its code, the colour as bytes / 255. */
  function GetShaderRepresentation(o: GameObject): (r: ShaderRepresentation)
    ensures r.position == o.position && r.scale == o.scale
    ensures r.rotation == Vec4(o.rotation.value.x, o.rotation.value.y, o.rotation.value.z, o.rotation.value.w)
    ensures TypeOfCode(r.sdfType) == Some(o.sdf)
    ensures Colors.InUnitCube(r.color) && r.color == Colors.ToUnitRgb(o.color)
  {
    var q := o.rotation.value;
    ShaderRepresentation(
      o.position,
      Vec4(q.x, q.y, q.z, q.w),
      o.scale,
      TypeCode(o.sdf),
      Colors.ToUnitRgb(o.color))
  }

  predicate SameButAlpha(a: GameObject, b: GameObject) {
    && a.position == b.position && a.rotation == b.rotation && a.scale == b.scale
    && a.sdf == b.sdf
    && a.color.r == b.color.r && a.color.g == b.color.g && a.color.b == b.color.b
  }

  /** The record loses only the alpha channel. */
  lemma RecordLosesOnlyAlpha(a: GameObject, b: GameObject)
    ensures GetShaderRepresentation(a) == GetShaderRepresentation(b) <==> SameButAlpha(a, b)
  {
    Colors.ToUnitRgbInjective(a.color, b.color);
    Rotations.ToVector4Injective(a.rotation, b.rotation);
    TypeCodeRoundTrip(a.sdf, 0);
    TypeCodeRoundTrip(b.sdf, 0);
  }

  /** The default object's record; red is (230, 41, 55) / 255. */
  lemma DefaultRecord()
    ensures GetShaderRepresentation(Default()) ==
      ShaderRepresentation(Zero3, Vec4(0.0, 0.0, 0.0, 1.0), One3, 0, Vec3(230.0 / 255.0, 41.0 / 255.0, 55.0 / 255.0))
  {
  }
}
