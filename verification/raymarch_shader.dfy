/** The older kernel (Pathways/Shaders/RaymarchShader.cs): the same pixel
    mapping and camera ray as the new one, through the duplicate rotation
    helpers, a different selection loop over GameObject records, a box with
    an early exit inside it, and no shading: a hit returns the object's
    colour and a miss the ray length. */
module RaymarchShader {
  import opened Numerics
  import ShaderMath
  import ShaderRotationMethods
  import GameObjects
  import Cameras
  import RayMarchSdf
  import RayMarchSelection
  import RayMarchShader

  /** The loop bound of Raymarch. */
  const MaxIterations: nat := 128

  datatype Kernel = Kernel(
    width: int,
    height: int,
    objects: seq<GameObjects.ShaderRepresentation>,
    camera: Cameras.ShaderRepresentation)

  // ---------------------------------------------------------------------
  // Distance functions

  /** The rotated point relative to the rotated centre, through the
      duplicate Transform. */
  function Local(point: Vec3, center: Vec3, rotation: Vec4): Vec3 {
    Sub(ShaderRotationMethods.Transform(point, rotation), ShaderRotationMethods.Transform(center, rotation))
  }

  /** The file's own box distance: the inside part plus the length of the
      outside part, through its private Abs, Max and Length. */
  function BoxDistance(m: Libm, d: Vec3): real {
    Min(Max(d.x, Max(d.y, d.z)), 0.0) + ShaderMath.Length(m, MaxV(d, Zero3))
  }

  /** Outside the closed box [-size, size] in at least one axis. */
  predicate Outside(p: Vec3, size: Vec3) {
    p.x < -size.x || p.x > size.x || p.y < -size.y || p.y > size.y || p.z < -size.z || p.z > size.z
  }

  /** BoxSdf: float.MaxValue anywhere inside the closed box (so the world
      is not enclosed by it), the unrounded box distance outside. */
  function BoxSdf(m: Libm, point: Vec3, center: Vec3, size: Vec3, rotation: Vec4): real {
    var p := Local(point, center, rotation);
    if !Outside(p, size) then BIG
    else BoxDistance(m, Sub(ShaderMath.Abs(p), size))
  }

  /** PlaneSdf: written out as in the new kernel, with the rotated centre
      subtracted twice. */
  function PlaneSdf(m: Libm, point: Vec3, center: Vec3, size: Vec3, rotation: Vec4): real {
    var s := Vec3(size.x, 0.0, size.z);
    var c := ShaderRotationMethods.Transform(center, rotation);
    var p := Local(point, center, rotation);
    if !Outside(p, s) then BIG
    else BoxDistance(m, Sub(ShaderMath.Abs(Sub(p, c)), s))
  }

  /** The switch on SdfType; other codes leave the distance at 0. Vector3.Distance
      is the length of the difference, as in the new kernel's sphere. */
  function ObjectDistance(m: Libm, point: Vec3, obj: GameObjects.ShaderRepresentation): (d: real)
    ensures obj.sdfType != 1 ==> d == RayMarchSdf.Sdf(m, point, obj.position, obj.scale, obj.rotation, obj.sdfType)
  {
    PlaneAgrees(m, point, obj.position, obj.scale, obj.rotation);
    if obj.sdfType == 0 then RayMarchSdf.SphereSdf(m, point, obj.position, obj.scale.x)
    else if obj.sdfType == 1 then BoxSdf(m, point, obj.position, obj.scale, obj.rotation)
    else if obj.sdfType == 2 then PlaneSdf(m, point, obj.position, obj.scale, obj.rotation)
    else 0.0
  }

  // ---------------------------------------------------------------------
  // Selection

  /** A negative distance is replaced by float.MaxValue before it is
      compared. */
  function Sanitize(d: real): (r: real)
    ensures 0.0 <= r
    ensures r == (if d < 0.0 then BIG else d)
  {
    if d < 0.0 then BIG else d
  }

  /** The inner loop from object j on, `minDistance` the smallest sanitised
      distance so far. An object replaces the minimum only when strictly
      smaller, and ends the pass when it is also below 0.001. */
  function ScanFrom(ds: seq<real>, j: nat, minDistance: real): (r: RayMarchSelection.Pick)
    requires j <= |ds|
    requires RayMarchSelection.HitDistance <= minDistance
    ensures r.Hit? ==> j <= r.index < |ds| && RayMarchSelection.InHitBand(ds[r.index])
    ensures r.Hit? ==> forall i :: j <= i < r.index ==> !RayMarchSelection.InHitBand(ds[i])
    ensures r.Miss? ==> forall i :: j <= i < |ds| ==> !RayMarchSelection.InHitBand(ds[i])
    ensures r.Miss? ==> RayMarchSelection.HitDistance <= r.distance <= minDistance
    ensures r.Miss? ==> forall i :: j <= i < |ds| && 0.0 <= ds[i] ==> r.distance <= ds[i]
    ensures r.Miss? ==> r.distance == minDistance || r.distance == BIG || exists i :: j <= i < |ds| && r.distance == ds[i]
    decreases |ds| - j
  {
    if j == |ds| then RayMarchSelection.Miss(minDistance)
    else
      var d := Sanitize(ds[j]);
      if d < minDistance then
        if d < RayMarchSelection.HitDistance then RayMarchSelection.Hit(j)
        else ScanFrom(ds, j + 1, d)
      else ScanFrom(ds, j + 1, minDistance)
  }

  /** One pass from float.MaxValue. Its step is the smallest non-negative
      distance, or float.MaxValue when there is none. */
  function Scan(ds: seq<real>): (r: RayMarchSelection.Pick)
    ensures r.Hit? <==> exists i :: 0 <= i < |ds| && RayMarchSelection.InHitBand(ds[i])
    ensures r.Hit? ==> r.index < |ds| && RayMarchSelection.InHitBand(ds[r.index])
    ensures r.Hit? ==> forall i :: 0 <= i < r.index ==> !RayMarchSelection.InHitBand(ds[i])
    ensures r.Miss? ==> RayMarchSelection.HitDistance <= r.distance <= BIG
    ensures r.Miss? ==> forall i :: 0 <= i < |ds| && 0.0 <= ds[i] ==> r.distance <= ds[i]
    ensures r.Miss? ==> r.distance == BIG || exists i :: 0 <= i < |ds| && r.distance == ds[i]
  {
    ScanFrom(ds, 0, BIG)
  }

  /** Both kernels hit the same object: the first whose distance lies in
      [0, 0.001). */
  lemma HitsAgree(ds: seq<real>)
    ensures Scan(ds).Hit? <==> RayMarchSelection.Scan(ds).Hit?
    ensures Scan(ds).Hit? ==> Scan(ds).index == RayMarchSelection.Scan(ds).index
  {
  }

  /** They differ in the step: after 0.5 and then -1 the old pass keeps 0.5
      where the new one advances by float.MaxValue. */
  lemma KernelsDiffer()
    ensures Scan([0.5, -1.0]) == RayMarchSelection.Miss(0.5)
    ensures RayMarchSelection.Scan([0.5, -1.0]) == RayMarchSelection.Miss(BIG)
  {
    assert ScanFrom([0.5, -1.0], 2, 0.5) == RayMarchSelection.Miss(0.5);
    assert ScanFrom([0.5, -1.0], 1, 0.5) == RayMarchSelection.Miss(0.5);
    RayMarchSelection.NegativeDiscardsSmaller();
  }

  /** The outer loop: at most 128 passes, stopping at the first pass that
      hits; exhausted only when every remaining pass missed. */
  function MarchFrom(sample: real -> seq<real>, t: real, step: nat): (r: RayMarchSelection.Outcome)
    requires step <= MaxIterations
    ensures r.Struck? ==> step <= r.step < MaxIterations
    ensures r.Struck? ==> t + (r.step - step) as real * RayMarchSelection.HitDistance <= r.t
    ensures r.Struck? ==> Scan(sample(r.t)) == RayMarchSelection.Hit(r.index) && r.index < |sample(r.t)|
    ensures r.Struck? ==>
      r.t == RayMarchSelection.Trajectory(Scan, sample, t, r.step - step) && RayMarchSelection.MissesFor(Scan, sample, t, r.step - step)
    ensures r.Exhausted? ==> t + (MaxIterations - step) as real * RayMarchSelection.HitDistance <= r.t
    ensures r.Exhausted? ==>
      r.t == RayMarchSelection.Trajectory(Scan, sample, t, MaxIterations - step) && RayMarchSelection.MissesFor(Scan, sample, t, MaxIterations - step)
    decreases MaxIterations - step
  {
    if step == MaxIterations then RayMarchSelection.Exhausted(t)
    else
      match Scan(sample(t))
      case Hit(k) => RayMarchSelection.Struck(step, t, k)
      case Miss(d) =>
        var r := MarchFrom(sample, t + d, step + 1);
        RayMarchSelection.MarchAfterMiss(Scan, sample, t, step, MaxIterations, r);
        r
  }

  function March(sample: real -> seq<real>): (r: RayMarchSelection.Outcome)
    ensures r.Struck? ==> r.step < MaxIterations && 0.0 <= r.t
    ensures r.Struck? ==> Scan(sample(r.t)) == RayMarchSelection.Hit(r.index) && r.index < |sample(r.t)|
    ensures r.Struck? ==>
      r.t == RayMarchSelection.Trajectory(Scan, sample, 0.0, r.step) && RayMarchSelection.MissesFor(Scan, sample, 0.0, r.step)
    ensures r.Exhausted? ==> MaxIterations as real * RayMarchSelection.HitDistance <= r.t
    ensures r.Exhausted? ==>
      r.t == RayMarchSelection.Trajectory(Scan, sample, 0.0, MaxIterations) && RayMarchSelection.MissesFor(Scan, sample, 0.0, MaxIterations)
  {
    MarchFrom(sample, 0.0, 0)
  }

  // ---------------------------------------------------------------------
  // The kernel

  /** The per-object distances at a point, in buffer order. Except for
      boxes, each is what the new kernel's dispatch computes for the same
      position, scale, rotation and type code. */
  function Distances(m: Libm, objects: seq<GameObjects.ShaderRepresentation>, point: Vec3): (ds: seq<real>)
    ensures |ds| == |objects|
    ensures forall j :: 0 <= j < |ds| && objects[j].sdfType != 1 ==>
      ds[j] == RayMarchSdf.Sdf(m, point, objects[j].position, objects[j].scale, objects[j].rotation, objects[j].sdfType)
  {
    seq(|objects|, j requires 0 <= j < |objects| => ObjectDistance(m, point, objects[j]))
  }

  function Sample(m: Libm, objects: seq<GameObjects.ShaderRepresentation>, origin: Vec3, dir: Vec3): real -> seq<real> {
    t => Distances(m, objects, RayMarchShader.PointAt(origin, dir, t))
  }

  /** Raymarch: the hit object's colour with W = 1, or (t, t, t, 1) when the
      128 passes find nothing. */
  function Raymarch(m: Libm, objects: seq<GameObjects.ShaderRepresentation>, origin: Vec3, dir: Vec3): (c: Vec4)
    ensures c.w == 1.0
  {
    match March(Sample(m, objects, origin, dir))
    case Struck(_, _, j) => Vec4(objects[j].color.x, objects[j].color.y, objects[j].color.z, 1.0)
    case Exhausted(t) => Vec4(t, t, t, 1.0)
  }

  /** The camera ray through the duplicate helpers. */
  function RayDirection(m: Libm, k: Kernel, x: int, y: int): Vec3
    requires 0 < k.width && 0 < k.height
  {
    var e := RayMarchShader.CameraSpaceVector(m, k.width, k.height, k.camera.fov, x, y);
    ShaderRotationMethods.Normalize(m, ShaderRotationMethods.Transform(e, k.camera.rotation))
  }

  /** Execute: Output[id] receives the marched colour. */
  function Execute(m: Libm, k: Kernel, id: int): Vec4
    requires 0 < k.width && 0 < k.height && 0 <= id < k.width * k.height
  {
    var x, y := RayMarchShader.PixelX(k.width, id), RayMarchShader.PixelY(k.width, id);
    Raymarch(m, k.objects, k.camera.position, RayDirection(m, k, x, y))
  }

  // ---------------------------------------------------------------------
  // Properties

  /** The box never answers a negative distance: float.MaxValue inside the
      closed box, a strictly positive distance outside it. */
  lemma BoxSdfSign(m: Libm, point: Vec3, center: Vec3, size: Vec3, rotation: Vec4)
    requires Lawful(m)
    ensures !Outside(Local(point, center, rotation), size) ==> BoxSdf(m, point, center, size, rotation) == BIG
    ensures Outside(Local(point, center, rotation), size) ==> 0.0 < BoxSdf(m, point, center, size, rotation)
  {
    var p := Local(point, center, rotation);
    if Outside(p, size) {
      OutsidePositive(m, Sub(ShaderMath.Abs(p), size));
    }
  }

  /** Some component of |p| - size is positive outside the box. */
  lemma OutsidePositive(m: Libm, d: Vec3)
    requires Lawful(m)
    requires 0.0 < d.x || 0.0 < d.y || 0.0 < d.z
    ensures 0.0 < BoxDistance(m, d)
  {
    var o := MaxV(d, Zero3);
    assert o != Zero3;
    ShaderMath.LengthSign(m, o);
  }

  /** The file's box distance is the new kernel's, summed the other way
      round. */
  lemma BoxDistanceAgrees(m: Libm, d: Vec3)
    ensures BoxDistance(m, d) == RayMarchSdf.BoxDistance(m, d)
  {
    assert MaxV(d, Zero3) == ShaderMath.Max(d, Zero3);
  }

  /** The two kernels' quads are the same function. */
  lemma PlaneAgrees(m: Libm, point: Vec3, center: Vec3, size: Vec3, rotation: Vec4)
    ensures PlaneSdf(m, point, center, size, rotation) == RayMarchSdf.PlaneSdf(m, point, center, size, rotation)
  {
    ShaderRotationMethods.TransformAgrees(point, rotation);
    ShaderRotationMethods.TransformAgrees(center, rotation);
    var s := Vec3(size.x, 0.0, size.z);
    var c := ShaderRotationMethods.Transform(center, rotation);
    BoxDistanceAgrees(m, Sub(ShaderMath.Abs(Sub(Local(point, center, rotation), c)), s));
  }

  /** A code outside {0, 1, 2} keeps distance 0, inside the hit band: the
      first pass at the ray's origin stops at that object or one before
      it. */
  lemma UnknownTypeStopsRay(m: Libm, objects: seq<GameObjects.ShaderRepresentation>, origin: Vec3, dir: Vec3, j: nat)
    requires j < |objects| && GameObjects.TypeOfCode(objects[j].sdfType).None?
    ensures var r := March(Sample(m, objects, origin, dir));
      r.Struck? && r.step == 0 && r.t == 0.0 && r.index <= j
  {
    var ds := Sample(m, objects, origin, dir)(0.0);
    assert ds == Distances(m, objects, RayMarchShader.PointAt(origin, dir, 0.0));
    assert RayMarchSelection.InHitBand(ds[j]);
    HitsAgree(ds);
  }

  /** A hit returns the colour of the first object within 0.001; a miss
      returns grey (t, t, t) with t at least 128 * 0.001. */
  lemma RaymarchResult(m: Libm, objects: seq<GameObjects.ShaderRepresentation>, origin: Vec3, dir: Vec3)
    ensures var r := March(Sample(m, objects, origin, dir));
      r.Struck? ==> (r.index < |objects| &&
        RayMarchSelection.InHitBand(ObjectDistance(m, RayMarchShader.PointAt(origin, dir, r.t), objects[r.index])))
    ensures var r := March(Sample(m, objects, origin, dir));
      r.Struck? ==> (r.index < |objects| &&
        Raymarch(m, objects, origin, dir) == Vec4(objects[r.index].color.x, objects[r.index].color.y, objects[r.index].color.z, 1.0))
    ensures var r := March(Sample(m, objects, origin, dir));
      var c := Raymarch(m, objects, origin, dir);
      r.Exhausted? ==> c.x == c.y == c.z == r.t && MaxIterations as real * RayMarchSelection.HitDistance <= c.x
  {
    var r := March(Sample(m, objects, origin, dir));
    if r.Struck? {
      var ds := Sample(m, objects, origin, dir)(r.t);
      assert ds == Distances(m, objects, RayMarchShader.PointAt(origin, dir, r.t));
    }
  }

  /** The old camera ray is the new one: the duplicate helpers agree. */
  lemma RayDirectionAgrees(m: Libm, k: Kernel, x: int, y: int)
    requires 0 < k.width && 0 < k.height
    ensures RayDirection(m, k, x, y) == RayMarchShader.RayDirection(m, k.width, k.height, k.camera, x, y)
  {
    var e := RayMarchShader.CameraSpaceVector(m, k.width, k.height, k.camera.fov, x, y);
    ShaderRotationMethods.TransformAgrees(e, k.camera.rotation);
    ShaderRotationMethods.NormalizeAgrees(m, ShaderMath.Transform(e, k.camera.rotation));
  }
}
