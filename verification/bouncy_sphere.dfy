/** PathwaysDemo/BouncySphere.cs: the demo's bouncing object, a game object
    with a velocity whose height is kept between 1 and 4. */
module BouncySpheres {
  import opened Numerics
  import Colors
  import Rotations
  import GameObjects

  datatype BouncySphere = BouncySphere(body: GameObjects.GameObject, velocity: Vec3)

  const Floor: real := 1.0
  const Ceiling: real := 4.0

  /** new BouncySphere(): the default game object, made a red sphere, moving
      up at 4 units per second. */
  function NewSphere(): (s: BouncySphere)
    ensures s.velocity == Vec3(0.0, 4.0, 0.0)
    ensures s.body.sdf == GameObjects.Sphere && s.body.color == Colors.Red
    ensures s.body.position == Zero3 && s.body.scale == One3
    ensures Rotations.ToVector4(s.body.rotation) == Vec4(0.0, 0.0, 0.0, 1.0)
  {
    var base := GameObjects.Default();
    BouncySphere(base.(sdf := GameObjects.Sphere, color := Colors.Red), Vec3(0.0, 4.0, 0.0))
  }

  /** new BouncyCube(): a blue box moving up at 2 units per second. Its
      rotation comes from Euler angles (0, 45, 0), which this model does not
      compute; the resulting quaternion is a parameter. */
  function NewCube(yaw45: Rotations.Quaternion): (s: BouncySphere)
    ensures s.velocity == Vec3(0.0, 2.0, 0.0)
    ensures s.body.sdf == GameObjects.Box && s.body.color == Colors.Blue
    ensures s.body.rotation.value == yaw45
    ensures s.body.position == Zero3 && s.body.scale == One3
  {
    var sphere := NewSphere();
    BouncySphere(
      sphere.body.(rotation := Rotations.FromQuaternion(yaw45), sdf := GameObjects.Box, color := Colors.Blue),
      Vec3(0.0, 2.0, 0.0))
  }

  /** Update(deltaTime): move by velocity * dt, then, if the height left
      [1,4], put it back on the bound it crossed and reverse the vertical
      velocity. */
  function Update(s: BouncySphere, dt: real): (r: BouncySphere)
    ensures Floor <= r.body.position.y <= Ceiling
    ensures var p := Add(s.body.position, Scale(s.velocity, dt));
      r.body.position == Vec3(p.x, Min(Max(p.y, Floor), Ceiling), p.z)
    ensures var p := Add(s.body.position, Scale(s.velocity, dt));
      r.velocity == (if Floor <= p.y <= Ceiling then s.velocity
                     else Vec3(s.velocity.x, -s.velocity.y, s.velocity.z))
    ensures r.body == s.body.(position := r.body.position)
  {
    var p := Add(s.body.position, Scale(s.velocity, dt));
    var v := s.velocity;
    if p.y < Floor then
      BouncySphere(s.body.(position := Vec3(p.x, Floor, p.z)), Vec3(v.x, -v.y, v.z))
    else if p.y > Ceiling then
      BouncySphere(s.body.(position := Vec3(p.x, Ceiling, p.z)), Vec3(v.x, -v.y, v.z))
    else
      BouncySphere(s.body.(position := p), v)
  }

  /** A run of frames with the given frame times. */
  function Run(s: BouncySphere, dts: seq<real>): BouncySphere
    decreases |dts|
  {
    if |dts| == 0 then s else Run(Update(s, dts[0]), dts[1..])
  }

  /** However many frames run, the horizontal velocity never changes, the
      vertical speed keeps its magnitude, and after at least one frame the
      height is within [1,4]. Nothing but position and velocity changes. */
  lemma {:induction false} RunKeepsSpeed(s: BouncySphere, dts: seq<real>)
    ensures var r := Run(s, dts);
      && r.velocity.x == s.velocity.x && r.velocity.z == s.velocity.z
      && Abs(r.velocity.y) == Abs(s.velocity.y)
      && (|dts| > 0 ==> Floor <= r.body.position.y <= Ceiling)
      && r.body == s.body.(position := r.body.position)
    decreases |dts|
  {
    if |dts| > 0 {
      RunKeepsSpeed(Update(s, dts[0]), dts[1..]);
    }
  }
}
