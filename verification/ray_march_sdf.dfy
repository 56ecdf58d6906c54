/** The signed distance functions of the new kernel
    (Pathways/Shaders/RayMarchShader.cs, region "SDF functions"): sphere,
    rounded box and the flat quad called a plane, the dispatch on the type
    code, the scene minimum and the numeric normal. Exact distances depend
    on `sqrt`; the properties below are sign and shape facts. */
module RayMarchSdf {
  import opened Numerics
  import ShaderMath
  import PathwayObjects

  /** The rounding radius of the box. */
  const Rounding: real := 0.1

  function SphereSdf(m: Libm, point: Vec3, center: Vec3, radius: real): real {
    ShaderMath.Length(m, Sub(point, center)) - radius
  }

  /** The point relative to the centre, both rotated by the object's
      quaternion. */
  function Local(point: Vec3, center: Vec3, rotation: Vec4): Vec3 {
    Sub(ShaderMath.Transform(point, rotation), ShaderMath.Transform(center, rotation))
  }

  /** The usual box distance for q = |p| - size: the length of the outside
      part plus the (non-positive) inside part. */
  function BoxDistance(m: Libm, q: Vec3): real {
    ShaderMath.Length(m, ShaderMath.Max(q, Zero3)) + Min(Max(q.x, Max(q.y, q.z)), 0.0)
  }

  /** The box, rounded by 0.1. */
  function BoxSdf(m: Libm, point: Vec3, center: Vec3, size: Vec3, rotation: Vec4): real {
    var p := Local(point, center, rotation);
    var q := Sub(ShaderMath.Abs(p), size);
    BoxDistance(m, q) - Rounding
  }

  /** The quad's half-extents: the height is forced to 0. */
  function QuadSize(size: Vec3): Vec3 {
    Vec3(size.x, 0.0, size.z)
  }

  /** The offset the quad's distance is computed from. The rotated centre
      has already been subtracted once in `Local` and is subtracted a second
      time here. */
  function PlaneOffset(point: Vec3, center: Vec3, size: Vec3, rotation: Vec4): Vec3 {
    var c := ShaderMath.Transform(center, rotation);
    Sub(ShaderMath.Abs(Sub(Local(point, center, rotation), c)), QuadSize(size))
  }

  /** The quad: float.MaxValue ("no surface here") on the closed rectangle
      itself, otherwise the box distance of the offset. */
  function PlaneSdf(m: Libm, point: Vec3, center: Vec3, size: Vec3, rotation: Vec4): real {
    var s := QuadSize(size);
    var p := Local(point, center, rotation);
    if !(p.x < -s.x || p.x > s.x || p.y < -s.y || p.y > s.y || p.z < -s.z || p.z > s.z) then BIG
    else BoxDistance(m, PlaneOffset(point, center, size, rotation))
  }

  /** Dispatch on the type code: 0 sphere (radius size.X), 1 box, 2 quad,
      anything else distance 0. */
  function Sdf(m: Libm, point: Vec3, center: Vec3, size: Vec3, rotation: Vec4, sdfType: int): real {
    if sdfType == 0 then SphereSdf(m, point, center, size.x)
    else if sdfType == 1 then BoxSdf(m, point, center, size, rotation)
    else if sdfType == 2 then PlaneSdf(m, point, center, size, rotation)
    else 0.0
  }

  function ObjectSdf(m: Libm, point: Vec3, obj: PathwayObjects.ShaderRepresentation): real {
    Sdf(m, point, obj.position, obj.scale, obj.rotation, obj.objectType)
  }

  /** SceneSdf: the running minimum over the object buffer, starting from
      float.MaxValue; it is at most every object's distance and is one of
      them unless it is float.MaxValue. */
  function SceneSdf(m: Libm, objects: seq<PathwayObjects.ShaderRepresentation>, point: Vec3): (d: real)
    ensures d <= BIG
    ensures forall j :: 0 <= j < |objects| ==> d <= ObjectSdf(m, point, objects[j])
    ensures d == BIG || exists j :: 0 <= j < |objects| && d == ObjectSdf(m, point, objects[j])
    decreases |objects|
  {
    if |objects| == 0 then BIG
    else
      var n := |objects| - 1;
      Min(SceneSdf(m, objects[..n], point), ObjectSdf(m, point, objects[n]))
  }

  /** The four tetrahedral samples of the numeric gradient, h = 0.001. */
  function NormalSum(m: Libm, point: Vec3, center: Vec3, size: Vec3, rotation: Vec4, sdfType: int): Vec3 {
    var h := 0.001;
    var kxyy, kyyx, kyxy, kxxx := Vec3(1.0, -1.0, -1.0), Vec3(-1.0, -1.0, 1.0), Vec3(-1.0, 1.0, -1.0), Vec3(1.0, 1.0, 1.0);
    var n1 := Scale(kxyy, Sdf(m, Add(point, Scale(kxyy, h)), center, size, rotation, sdfType));
    var n2 := Scale(kyyx, Sdf(m, Add(point, Scale(kyyx, h)), center, size, rotation, sdfType));
    var n3 := Scale(kyxy, Sdf(m, Add(point, Scale(kyxy, h)), center, size, rotation, sdfType));
    var n4 := Scale(kxxx, Sdf(m, Add(point, Scale(kxxx, h)), center, size, rotation, sdfType));
    Add(Add(Add(Add(Zero3, n1), n2), n3), n4)
  }

  function GetNormal(m: Libm, point: Vec3, center: Vec3, size: Vec3, rotation: Vec4, sdfType: int): Vec3 {
    ShaderMath.Normalize(m, NormalSum(m, point, center, size, rotation, sdfType))
  }

  // ---------------------------------------------------------------------
  // Properties

  /** The normal is a unit vector wherever the sampled gradient is not
      zero. */
  lemma GetNormalIsUnit(m: Libm, point: Vec3, center: Vec3, size: Vec3, rotation: Vec4, sdfType: int)
    requires Lawful(m)
    requires NormalSum(m, point, center, size, rotation, sdfType) != Zero3
    ensures var n := GetNormal(m, point, center, size, rotation, sdfType); Dot(n, n) == 1.0
  {
    ShaderMath.NormalizeIsUnit(m, NormalSum(m, point, center, size, rotation, sdfType));
  }

  /** A sphere's distance is never below minus its radius, and reaches it
      exactly at the centre. */
  lemma SphereFacts(m: Libm, point: Vec3, center: Vec3, radius: real)
    requires Lawful(m)
    ensures SphereSdf(m, point, center, radius) >= -radius
    ensures SphereSdf(m, point, center, radius) == -radius <==> point == center
  {
    ShaderMath.LengthSign(m, Sub(point, center));
  }

  predicate AllNegative(q: Vec3) {
    q.x < 0.0 && q.y < 0.0 && q.z < 0.0
  }

  /** The box distance is negative exactly when every component of q is;
      then it is the largest component. */
  lemma BoxDistanceSign(m: Libm, q: Vec3)
    requires Lawful(m)
    ensures BoxDistance(m, q) < 0.0 <==> AllNegative(q)
    ensures AllNegative(q) ==> BoxDistance(m, q) == Max(q.x, Max(q.y, q.z))
  {
    var o := ShaderMath.Max(q, Zero3);
    ShaderMath.LengthSign(m, o);
    if AllNegative(q) {
      assert o == Zero3;
    }
  }

  /** |p| < size in every axis. */
  predicate StrictlyInside(p: Vec3, size: Vec3) {
    Abs(p.x) < size.x && Abs(p.y) < size.y && Abs(p.z) < size.z
  }

  /** The rounded box is below -0.1 exactly strictly inside the unrounded
      box, and at least -0.1 everywhere else. */
  lemma BoxInteriorIff(m: Libm, point: Vec3, center: Vec3, size: Vec3, rotation: Vec4)
    requires Lawful(m)
    ensures BoxSdf(m, point, center, size, rotation) < -Rounding <==> StrictlyInside(Local(point, center, rotation), size)
  {
    var p := Local(point, center, rotation);
    BoxDistanceSign(m, Sub(ShaderMath.Abs(p), size));
  }

  /** The closed rectangle of the quad: within the X and Z half-extents, at
      height exactly 0. */
  predicate OnQuad(p: Vec3, size: Vec3) {
    -size.x <= p.x <= size.x && p.y == 0.0 && -size.z <= p.z <= size.z
  }

  /** The quad's early exit fires exactly on the rectangle at local height
      0, because the height extent is forced to 0. */
  lemma PlaneEarlyExit(m: Libm, point: Vec3, center: Vec3, size: Vec3, rotation: Vec4)
    ensures OnQuad(Local(point, center, rotation), size) ==> PlaneSdf(m, point, center, size, rotation) == BIG
    ensures !OnQuad(Local(point, center, rotation), size) ==>
      PlaneSdf(m, point, center, size, rotation) == BoxDistance(m, PlaneOffset(point, center, size, rotation))
  {
  }

  /** The quad's distance is never negative: the forced zero height makes
      the offset's Y component |.| - 0 >= 0. */
  lemma PlaneNonNegative(m: Libm, point: Vec3, center: Vec3, size: Vec3, rotation: Vec4)
    requires Lawful(m)
    ensures PlaneSdf(m, point, center, size, rotation) >= 0.0
  {
    BoxDistanceSign(m, PlaneOffset(point, center, size, rotation));
  }

  /** 2^64: a bound on the offset under which a real-valued length stays
      below float.MaxValue. */
  const Far: real := 18446744073709551616.0

  predicate WithinFar(d: Vec3) {
    d.x <= Far && d.y <= Far && d.z <= Far
  }

  /** The box distance of an offset bounded by 2^64 is below float.MaxValue. */
  lemma BoxDistanceBelowBig(m: Libm, d: Vec3)
    requires Lawful(m)
    requires WithinFar(d)
    ensures BoxDistance(m, d) < BIG
  {
    var o := ShaderMath.Max(d, Zero3);
    ShaderMath.DotAsSquares(o);
    SqMonotone(o.x, Far);
    SqMonotone(o.y, Far);
    SqMonotone(o.z, Far);
    assert Dot(o, o) <= (2.0 * Far) * (2.0 * Far);
    ShaderMath.DotSelfNonNegative(o);
    SqrtAtMost(m, Dot(o, o), 2.0 * Far);
  }

  /** The quad answers float.MaxValue exactly on its rectangle, for points
      whose offset from it is below 2^64 in every axis. */
  lemma PlaneBigIffOnQuad(m: Libm, point: Vec3, center: Vec3, size: Vec3, rotation: Vec4)
    requires Lawful(m)
    requires WithinFar(PlaneOffset(point, center, size, rotation))
    ensures PlaneSdf(m, point, center, size, rotation) == BIG <==> OnQuad(Local(point, center, rotation), size)
  {
    PlaneEarlyExit(m, point, center, size, rotation);
    BoxDistanceBelowBig(m, PlaneOffset(point, center, size, rotation));
  }

  /** Off the rectangle, the quad measures from twice the rotated centre:
      the offset is |T(point) - 2 T(center)| - size. */
  lemma PlaneCentreSubtractedTwice(point: Vec3, center: Vec3, size: Vec3, rotation: Vec4)
    ensures PlaneOffset(point, center, size, rotation) ==
      Sub(ShaderMath.Abs(Sub(ShaderMath.Transform(point, rotation), Scale(ShaderMath.Transform(center, rotation), 2.0))), QuadSize(size))
  {
  }

  /** The double subtraction in action: off the rectangle, the quad reports
      distance 0 on a second rectangle, the first one moved by the rotated
      centre. With no rotation, a unit quad centred at (1,0,0) reports 0 at
      (3,0,0), one unit beyond its edge. */
  lemma PlaneZeroOnShiftedQuad(m: Libm, point: Vec3, center: Vec3, size: Vec3, rotation: Vec4)
    requires Lawful(m)
    requires !OnQuad(Local(point, center, rotation), size)
    requires OnQuad(Sub(Local(point, center, rotation), ShaderMath.Transform(center, rotation)), size)
    ensures PlaneSdf(m, point, center, size, rotation) == 0.0
  {
    PlaneEarlyExit(m, point, center, size, rotation);
    BoxDistanceZeroOnQuad(m, Local(point, center, rotation), ShaderMath.Transform(center, rotation), size);
  }

  lemma BoxDistanceZeroOnQuad(m: Libm, l: Vec3, c: Vec3, size: Vec3)
    requires Lawful(m)
    requires OnQuad(Sub(l, c), size)
    ensures BoxDistance(m, Sub(ShaderMath.Abs(Sub(l, c)), QuadSize(size))) == 0.0
  {
    var d := Sub(ShaderMath.Abs(Sub(l, c)), QuadSize(size));
    assert ShaderMath.Max(d, Zero3) == Zero3;
    ShaderMath.LengthSign(m, ShaderMath.Max(d, Zero3));
  }

  /** The dispatch agrees with the object type the record was made from. */
  lemma DispatchFollowsObjectType(m: Libm, point: Vec3, o: PathwayObjects.PathwayObject)
    ensures var r := PathwayObjects.GetShaderRepresentation(o);
      ObjectSdf(m, point, r) == match o.objectType
        case Sphere => SphereSdf(m, point, r.position, r.scale.x)
        case Box => BoxSdf(m, point, r.position, r.scale, r.rotation)
        case Plane => PlaneSdf(m, point, r.position, r.scale, r.rotation)
  {
  }

  /** A code outside {0,1,2} has distance 0 everywhere. */
  lemma UnknownCodeIsZero(m: Libm, point: Vec3, center: Vec3, size: Vec3, rotation: Vec4, sdfType: int)
    requires PathwayObjects.TypeOfCode(sdfType).None?
    ensures Sdf(m, point, center, size, rotation, sdfType) == 0.0
  {
  }

  /** The all-zero record is a sphere of radius 0 at the origin: its
      distance is the distance to the origin. */
  lemma ZeroRecordIsOriginPoint(m: Libm, point: Vec3)
    requires Lawful(m)
    ensures ObjectSdf(m, point, PathwayObjects.ZeroRecord) == ShaderMath.Length(m, point)
    ensures ObjectSdf(m, point, PathwayObjects.ZeroRecord) >= 0.0
    ensures ObjectSdf(m, point, PathwayObjects.ZeroRecord) == 0.0 <==> point == Zero3
  {
    assert Sub(point, Zero3) == point;
    ShaderMath.LengthSign(m, point);
  }
}
