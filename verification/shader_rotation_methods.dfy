/** Pathways/Shaders/ShaderRotationMethods.cs: an older copy of the rotation
    helpers of ShaderMath. The copy is written out again here, as in the
    source, and proved to agree with ShaderMath member by member, so every
    property proved there carries over. */
module ShaderRotationMethods {
  import opened Numerics
  import ShaderMath

  function Transform(value: Vec3, rotation: Vec4): Vec3 {
    var x2 := rotation.x + rotation.x;
    var y2 := rotation.y + rotation.y;
    var z2 := rotation.z + rotation.z;

    var wx2 := rotation.w * x2;
    var wy2 := rotation.w * y2;
    var wz2 := rotation.w * z2;
    var xx2 := rotation.x * x2;
    var xy2 := rotation.x * y2;
    var xz2 := rotation.x * z2;
    var yy2 := rotation.y * y2;
    var yz2 := rotation.y * z2;
    var zz2 := rotation.z * z2;

    Vec3(
      value.x * (1.0 - yy2 - zz2) + value.y * (xy2 - wz2) + value.z * (xz2 + wy2),
      value.x * (xy2 + wz2) + value.y * (1.0 - xx2 - zz2) + value.z * (yz2 - wx2),
      value.x * (xz2 - wy2) + value.y * (yz2 + wx2) + value.z * (1.0 - xx2 - yy2))
  }

  function TransformByMatrix(value: Vec3, rotation: ShaderMath.Float4x4): Vec3 {
    Vec3(
      value.x * rotation.m11 + value.y * rotation.m21 + value.z * rotation.m31,
      value.x * rotation.m12 + value.y * rotation.m22 + value.z * rotation.m32,
      value.x * rotation.m13 + value.y * rotation.m23 + value.z * rotation.m33)
  }

  function CreateMatrixFromQuaternion(rotation: Vec4): ShaderMath.Float4x4 {
    var x2 := rotation.x + rotation.x;
    var y2 := rotation.y + rotation.y;
    var z2 := rotation.z + rotation.z;

    var wx2 := rotation.w * x2;
    var wy2 := rotation.w * y2;
    var wz2 := rotation.w * z2;
    var xx2 := rotation.x * x2;
    var xy2 := rotation.x * y2;
    var xz2 := rotation.x * z2;
    var yy2 := rotation.y * y2;
    var yz2 := rotation.y * z2;
    var zz2 := rotation.z * z2;

    ShaderMath.Float4x4(
      1.0 - yy2 - zz2, xy2 - wz2, xz2 + wy2, 0.0,
      xy2 + wz2, 1.0 - xx2 - zz2, yz2 - wx2, 0.0,
      xz2 - wy2, yz2 + wx2, 1.0 - xx2 - yy2, 0.0,
      0.0, 0.0, 0.0, 1.0)
  }

  /** As in ShaderMath, the zero vector (NaN in the source) is returned
      unchanged. The squared length X*X + Y*Y + Z*Z is Dot(value, value). */
  function Normalize(m: Libm, value: Vec3): Vec3 {
    var length := m.sqrt(Dot(value, value));
    if length == 0.0 then value
    else Vec3(value.x / length, value.y / length, value.z / length)
  }

  /** The copy computes the same rotation as ShaderMath.Transform. */
  lemma TransformAgrees(v: Vec3, q: Vec4)
    ensures Transform(v, q) == ShaderMath.Transform(v, q)
  {
  }

  lemma MatrixAgrees(q: Vec4)
    ensures CreateMatrixFromQuaternion(q) == ShaderMath.CreateMatrixFromQuaternion(q)
  {
  }

  lemma TransformByMatrixAgrees(v: Vec3, r: ShaderMath.Float4x4)
    ensures TransformByMatrix(v, r) == ShaderMath.TransformByMatrix(v, r)
  {
  }

  lemma NormalizeAgrees(m: Libm, v: Vec3)
    ensures Normalize(m, v) == ShaderMath.Normalize(m, v)
  {
  }

  /** The identity quaternion leaves every vector where it is. */
  lemma TransformIdentity(v: Vec3)
    ensures Transform(v, ShaderMath.IdentityRotation) == v
  {
    TransformAgrees(v, ShaderMath.IdentityRotation);
    ShaderMath.TransformIdentity(v);
  }

  /** The matrix route of the copy rotates by the conjugate as well. */
  lemma MatrixRouteIsConjugate(v: Vec3, q: Vec4)
    ensures TransformByMatrix(v, CreateMatrixFromQuaternion(q)) == Transform(v, ShaderMath.Conjugate(q))
  {
    MatrixAgrees(q);
    TransformByMatrixAgrees(v, CreateMatrixFromQuaternion(q));
    ShaderMath.MatrixRouteIsConjugate(v, q);
    TransformAgrees(v, ShaderMath.Conjugate(q));
  }

  /** A non-zero vector normalises to length one. */
  lemma NormalizeIsUnit(m: Libm, v: Vec3)
    requires Lawful(m)
    requires v != Zero3
    ensures Dot(Normalize(m, v), Normalize(m, v)) == 1.0
    ensures ShaderMath.Length(m, Normalize(m, v)) == 1.0
  {
    NormalizeAgrees(m, v);
    ShaderMath.NormalizeIsUnit(m, v);
  }
}
