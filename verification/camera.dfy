/** Pathways/Camera.cs: the view. The Raylib camera's position, target, up
    and field of view are modelled as plain fields next to the rotation;
    each setter returns the updated camera. */
module Cameras {
  import opened Numerics
  import ShaderMath
  import Rotations

  datatype Camera = Camera(position: Vec3, target: Vec3, up: Vec3, fovy: real, rotation: Rotations.Rotation)

  /** Camera.ShaderRepresentation */
  datatype ShaderRepresentation = ShaderRepresentation(position: Vec3, target: Vec3, up: Vec3, rotation: Vec4, fov: real)

  /** The target sits one Forward step from the position and the up vector
      is the rotation's Up: the relation the rotation setter establishes. */
  predicate Aligned(c: Camera) {
    c.target == Add(c.position, Rotations.Forward(c.rotation)) && c.up == Rotations.Up(c.rotation)
  }

  /** new Camera(position, rotation, fov) */
  function New(position: Vec3, rotation: Rotations.Rotation, fov: real): (c: Camera)
    ensures Aligned(c)
    ensures c.position == position && c.rotation == rotation && c.fovy == fov
  {
    Camera(position, Add(position, Rotations.Forward(rotation)), Rotations.Up(rotation), fov, rotation)
  }

  /** new Camera(): position 0, target (0,0,1), up (0,1,0), field of view
      90. The zero Euler angles give the identity quaternion. */
  function Default(): (c: Camera)
    ensures c.position == Zero3 && c.target == Vec3(0.0, 0.0, 1.0) && c.up == Vec3(0.0, 1.0, 0.0)
    ensures c.fovy == 90.0
    ensures Rotations.ToVector4(c.rotation) == Vec4(0.0, 0.0, 0.0, 1.0)
  {
    Camera(Zero3, Vec3(0.0, 0.0, 1.0), Vec3(0.0, 1.0, 0.0), 90.0, Rotations.Default())
  }

  /** The Rotation setter. */
  function SetRotation(c: Camera, r: Rotations.Rotation): (d: Camera)
    ensures Aligned(d)
    ensures d.rotation == r && d.position == c.position && d.fovy == c.fovy
  {
    c.(rotation := r, target := Add(c.position, Rotations.Forward(r)), up := Rotations.Up(r))
  }

  /** The Position setter: only the position moves. */
  function SetPosition(c: Camera, p: Vec3): (d: Camera)
    ensures d.position == p
    ensures d.target == c.target && d.up == c.up && d.fovy == c.fovy && d.rotation == c.rotation
  {
    c.(position := p)
  }

  /** GetShaderRepresentation */
  function GetShaderRepresentation(c: Camera): (r: ShaderRepresentation)
    ensures r.position == c.position && r.target == c.target && r.up == c.up && r.fov == c.fovy
    ensures r.rotation == Rotations.ToVector4(c.rotation)
  {
    var q := c.rotation.value;
    ShaderRepresentation(c.position, c.target, c.up, Vec4(q.x, q.y, q.z, q.w), c.fovy)
  }

  // ---------------------------------------------------------------------
  // Properties

  /** The default camera looks toward +Z while its rotation's Forward is
      -Z: it is not aligned until the rotation is set. */
  lemma DefaultNotAligned()
    ensures !Aligned(Default())
    ensures Rotations.Forward(Default().rotation) == Vec3(0.0, 0.0, -1.0)
  {
    Rotations.DefaultForward();
  }

  /** Moving an aligned camera breaks the alignment: the target stays
      behind. */
  lemma SetPositionBreaksAlignment(c: Camera, p: Vec3)
    requires Aligned(c)
    requires p != c.position
    ensures !Aligned(SetPosition(c, p))
  {
  }

  /** Setting the rotation after moving gives the camera the new
      constructor would build. */
  lemma SetRotationRebuilds(c: Camera, p: Vec3, r: Rotations.Rotation)
    ensures SetRotation(SetPosition(c, p), r) == New(p, r, c.fovy)
  {
  }

  /** For a unit quaternion the view direction of an aligned camera is a
      unit vector at right angles to its up vector, which is a unit vector
      too. */
  lemma AlignedViewFrame(c: Camera)
    requires Aligned(c)
    requires ShaderMath.IsUnit(Rotations.ToVector4(c.rotation))
    ensures Dot(Sub(c.target, c.position), Sub(c.target, c.position)) == 1.0
    ensures Dot(c.up, c.up) == 1.0
    ensures Dot(c.up, Sub(c.target, c.position)) == 0.0
  {
    var f := Rotations.Forward(c.rotation);
    assert Sub(c.target, c.position) == f;
    Rotations.AxesOrthonormal(c.rotation);
  }
}
