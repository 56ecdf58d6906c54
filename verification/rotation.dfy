/** Pathways/Rotation.cs: a mutable holder of a System.Numerics quaternion.
    The holder is modelled as an immutable value; every operation that
    assigns `Value` returns the new holder. The Euler-angle paths are not
    part of this model. */
module Rotations {
  import opened Numerics
  import ShaderMath

  /** System.Numerics.Quaternion: vector part X, Y, Z and scalar part W. */
  datatype Quaternion = Quaternion(x: real, y: real, z: real, w: real)

  const Identity: Quaternion := Quaternion(0.0, 0.0, 0.0, 1.0)

  /** Quaternion * Quaternion, the Hamilton product as System.Numerics
      computes it: the vector part is a.w b + b.w a + a x b, the scalar part
      a.w b.w - a . b. One function per component. */
  function Hamilton(a: Quaternion, b: Quaternion): Quaternion {
    Quaternion(HamiltonX(a, b), HamiltonY(a, b), HamiltonZ(a, b), HamiltonW(a, b))
  }

  function HamiltonX(a: Quaternion, b: Quaternion): real {
    a.x * b.w + b.x * a.w + (a.y * b.z - a.z * b.y)
  }

  function HamiltonY(a: Quaternion, b: Quaternion): real {
    a.y * b.w + b.y * a.w + (a.z * b.x - a.x * b.z)
  }

  function HamiltonZ(a: Quaternion, b: Quaternion): real {
    a.z * b.w + b.z * a.w + (a.x * b.y - a.y * b.x)
  }

  function HamiltonW(a: Quaternion, b: Quaternion): real {
    a.w * b.w - (a.x * b.x + a.y * b.y + a.z * b.z)
  }

  function QAdd(a: Quaternion, b: Quaternion): Quaternion {
    Quaternion(a.x + b.x, a.y + b.y, a.z + b.z, a.w + b.w)
  }

  function QSub(a: Quaternion, b: Quaternion): Quaternion {
    Quaternion(a.x - b.x, a.y - b.y, a.z - b.z, a.w - b.w)
  }

  /** Quaternion * float, component by component. */
  function QScale(a: Quaternion, s: real): Quaternion {
    Quaternion(a.x * s, a.y * s, a.z * s, a.w * s)
  }

  datatype Rotation = Rotation(value: Quaternion)

  /** new Rotation(Quaternion) */
  function FromQuaternion(q: Quaternion): (r: Rotation)
    ensures ToVector4(r) == Vec4(q.x, q.y, q.z, q.w)
  {
    Rotation(q)
  }

  /** new Rotation(): the identity quaternion. */
  function Default(): (r: Rotation)
    ensures ToVector4(r) == ShaderMath.IdentityRotation
  {
    Rotation(Identity)
  }

  /** The device layout of the quaternion. */
  function ToVector4(r: Rotation): Vec4 {
    Vec4(r.value.x, r.value.y, r.value.z, r.value.w)
  }

  /** Vector3.Transform(v, Value), which uses the same scalar expansion as
      the device-side ShaderMath.Transform. */
  function Apply(r: Rotation, v: Vec3): Vec3 {
    ShaderMath.Transform(v, ToVector4(r))
  }

  function Up(r: Rotation): Vec3 {
    Apply(r, Vec3(0.0, 1.0, 0.0))
  }

  function Right(r: Rotation): Vec3 {
    Apply(r, Vec3(1.0, 0.0, 0.0))
  }

  /** The image of -UnitZ. */
  function Forward(r: Rotation): Vec3 {
    Apply(r, Vec3(0.0, 0.0, -1.0))
  }

  /** operator *(Rotation, Rotation) */
  function Compose(a: Rotation, b: Rotation): Rotation {
    Rotation(Hamilton(a.value, b.value))
  }

  /** operator *(Rotation, float) */
  function MulScalar(a: Rotation, s: real): Rotation {
    Rotation(QScale(a.value, s))
  }

  /** operator *(float, Rotation) */
  function ScalarMul(s: real, b: Rotation): Rotation {
    Rotation(QScale(b.value, s))
  }

  /** operator +(Rotation, Rotation) */
  function Plus(a: Rotation, b: Rotation): Rotation {
    Rotation(QAdd(a.value, b.value))
  }

  /** operator -(Rotation, Rotation) */
  function Minus(a: Rotation, b: Rotation): Rotation {
    Rotation(QSub(a.value, b.value))
  }

  /** Rotate(Quaternion q): Value := q * Value, the new rotation applied
      after the old one. */
  function Rotate(r: Rotation, q: Quaternion): Rotation {
    Rotation(Hamilton(q, r.value))
  }

  // ---------------------------------------------------------------------
  // Properties

  /** The default rotation looks down -Z with +Y up and +X right. */
  lemma DefaultAxes()
    ensures Up(Default()) == Vec3(0.0, 1.0, 0.0)
    ensures Right(Default()) == Vec3(1.0, 0.0, 0.0)
    ensures Forward(Default()) == Vec3(0.0, 0.0, -1.0)
  {
    DefaultUp();
    DefaultRight();
    DefaultForward();
  }

  lemma DefaultUp()
    ensures Up(Default()) == Vec3(0.0, 1.0, 0.0)
  {
  }

  lemma DefaultRight()
    ensures Right(Default()) == Vec3(1.0, 0.0, 0.0)
  {
  }

  lemma DefaultForward()
    ensures Forward(Default()) == Vec3(0.0, 0.0, -1.0)
  {
  }

  /** Forward is the negated image of +Z. */
  lemma ForwardIsNegatedColumn(r: Rotation)
    ensures Forward(r) == Neg(ShaderMath.Column(ToVector4(r), 2))
  {
    ShaderMath.TransformHomogeneous(Vec3(0.0, 0.0, 1.0), -1.0, ToVector4(r));
  }

  lemma DotNeg(a: Vec3, b: Vec3)
    ensures Dot(Neg(a), b) == -Dot(a, b)
    ensures Dot(a, Neg(b)) == -Dot(a, b)
    ensures Dot(Neg(a), Neg(b)) == Dot(a, b)
  {
  }

  /** For a unit quaternion, Up, Right and Forward are unit vectors at
      right angles to each other. */
  lemma AxesOrthonormal(r: Rotation)
    requires ShaderMath.IsUnit(ToVector4(r))
    ensures Dot(Up(r), Up(r)) == 1.0
    ensures Dot(Right(r), Right(r)) == 1.0
    ensures Dot(Forward(r), Forward(r)) == 1.0
    ensures Dot(Up(r), Right(r)) == 0.0
    ensures Dot(Up(r), Forward(r)) == 0.0
    ensures Dot(Right(r), Forward(r)) == 0.0
  {
    var q := ToVector4(r);
    var c0, c1, c2 := ShaderMath.Column(q, 0), ShaderMath.Column(q, 1), ShaderMath.Column(q, 2);
    ShaderMath.ColumnsOrthonormal(q);
    ForwardIsNegatedColumn(r);
    ShaderMath.DotSymmetric(c0, c1);
    DotNeg(c2, c2);
    DotNeg(c1, c2);
    DotNeg(c0, c2);
  }

  lemma HamiltonIdentityLeft(q: Quaternion)
    ensures Hamilton(Identity, q) == q
  {
  }

  lemma HamiltonIdentityRight(q: Quaternion)
    ensures Hamilton(q, Identity) == q
  {
  }

  /** Rotating by the identity quaternion changes nothing. */
  lemma RotateIdentity(r: Rotation)
    ensures Rotate(r, Identity) == r
  {
    HamiltonIdentityLeft(r.value);
  }

  /** Starting from the default rotation, Rotate(a) followed by Rotate(b)
      leaves the product b * a: the later rotation is applied on the left. */
  lemma RotateTwiceFromDefault(a: Quaternion, b: Quaternion)
    ensures Rotate(Rotate(Default(), a), b).value == Hamilton(b, a)
  {
    HamiltonIdentityRight(a);
  }

  /** Subtraction undoes addition. */
  lemma PlusMinus(a: Rotation, b: Rotation)
    ensures Minus(Plus(a, b), b) == a
  {
  }

  /** Scaling on either side gives the same quaternion. */
  lemma ScalarSidesAgree(r: Rotation, s: real)
    ensures MulScalar(r, s) == ScalarMul(s, r)
  {
  }

  /** ToVector4 loses nothing: distinct rotations have distinct layouts. */
  lemma ToVector4Injective(r: Rotation, s: Rotation)
    ensures ToVector4(r) == ToVector4(s) <==> r == s
  {
  }

  /** The composition operator with the identity on either side. */
  lemma ComposeDefault(r: Rotation)
    ensures Compose(Default(), r) == r
    ensures Compose(r, Default()) == r
  {
    HamiltonIdentityLeft(r.value);
    HamiltonIdentityRight(r.value);
  }
}
