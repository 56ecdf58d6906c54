/** The per-pixel entry point of the new kernel
    (Pathways/Shaders/RayMarchShader.cs, Execute and RayMarch): the thread
    id becomes a pixel, the pixel a camera ray, the ray is marched through
    the objects, the colour at the hit is shaded, tone-mapped, quantised to
    bytes and packed into one 32-bit word. */
module RayMarchShader {
  import opened Numerics
  import ShaderMath
  import PathwayObjects
  import PathwayLights
  import Cameras
  import RayMarchSdf
  import RayMarchSelection
  import RayMarchShading

  /** The kernel's inputs: the frame size, the two buffers and the camera
      record. */
  datatype Kernel = Kernel(
    width: int,
    height: int,
    objects: seq<PathwayObjects.ShaderRepresentation>,
    lights: seq<PathwayLights.ShaderRepresentation>,
    camera: Cameras.ShaderRepresentation)

  /** A frame with at least one pixel; the dispatch covers ids
      0 .. width * height - 1. */
  predicate Dispatchable(k: Kernel) {
    0 < k.width && 0 < k.height
  }

  /** MathF.PI, the single-precision value of pi. */
  const Pi: real := 3.1415927410125732421875

  // ---------------------------------------------------------------------
  // Pixels

  /** Column and row of a thread: id % Width and id / Width. The ids are
      non-negative, where the truncating division of C# and Dafny's
      Euclidean division agree. */
  function PixelX(width: int, id: int): int
    requires 0 < width && 0 <= id
  {
    id % width
  }

  function PixelY(width: int, id: int): int
    requires 0 < width && 0 <= id
  {
    id / width
  }

  /** The thread that draws pixel (x, y). */
  function PixelId(width: int, x: int, y: int): int {
    y * width + x
  }

  /** Every thread of the dispatch draws a pixel inside the frame, and the
      pixel gives the thread back. */
  lemma PixelCoords(width: int, height: int, id: int)
    requires 0 < width && 0 < height && 0 <= id < width * height
    ensures 0 <= PixelX(width, id) < width
    ensures 0 <= PixelY(width, id) < height
    ensures PixelId(width, PixelX(width, id), PixelY(width, id)) == id
  {
    var x, y := PixelX(width, id), PixelY(width, id);
    assert y * width + x == id;
    MulMonotone(height, y, width);
  }

  /** Multiplying by a positive int keeps the order. */
  lemma MulMonotone(a: int, b: int, w: int)
    requires 0 < w
    ensures a <= b ==> a * w <= b * w
  {
    if a <= b {
      assert b * w - a * w == (b - a) * w;
    }
  }

  /** Conversely, every pixel of the frame is drawn by exactly the thread
      PixelId names. */
  lemma PixelIdRoundTrip(width: int, height: int, x: int, y: int)
    requires 0 < width && 0 <= x < width && 0 <= y < height
    ensures 0 <= PixelId(width, x, y) < width * height
    ensures PixelX(width, PixelId(width, x, y)) == x && PixelY(width, PixelId(width, x, y)) == y
  {
    var id := PixelId(width, x, y);
    MulMonotone(y + 1, height, width);
    assert id < (y + 1) * width;
    DivModUnique(id, width, y, x);
  }

  /** Division with remainder has one answer. */
  lemma DivModUnique(n: int, w: int, q: int, r: int)
    requires 0 < w && 0 <= r < w && n == q * w + r
    ensures n / w == q && n % w == r
  {
    var q', r' := n / w, n % w;
    assert (q - q') * w == r' - r;
    MulMonotone(1, q - q', w);
    MulMonotone(q - q', -1, w);
  }

  /** The screen coordinate of column or row i of n: (i / n) * 2 - 1. */
  function ScreenCoord(i: int, n: int): (s: real)
    requires 0 < n
    ensures 0 <= i < n ==> -1.0 <= s < 1.0
  {
    (i as real / n as real) * 2.0 - 1.0
  }

  /** The camera ray through pixel (x, y) before rotation: the screen
      coordinates scaled by tan(fov / 2) and the aspect ratio, at depth -1
      in the camera's frame. */
  function CameraSpaceVector(m: Libm, width: int, height: int, fov: real, x: int, y: int): (e: Vec3)
    requires 0 < width && 0 < height
    ensures e.z == -1.0
  {
    var tanHalfFov := m.tan(Pi / 180.0 * fov / 2.0);
    var aspectRatio := width as real / height as real;
    var u := ScreenCoord(x, width) * tanHalfFov * aspectRatio;
    var v := ScreenCoord(y, height) * tanHalfFov;
    Vec3(u, -v, -1.0)
  }

  /** The camera ray through pixel (x, y): rotated by the camera's
      quaternion, then normalised. */
  function RayDirection(m: Libm, width: int, height: int, camera: Cameras.ShaderRepresentation, x: int, y: int): Vec3
    requires 0 < width && 0 < height
  {
    ShaderMath.Normalize(m, ShaderMath.Transform(CameraSpaceVector(m, width, height, camera.fov, x, y), camera.rotation))
  }

  /** For a unit camera quaternion every camera ray has length one: the
      unrotated vector has depth -1, so it is never zero, and the rotation
      keeps its length. */
  lemma RayDirectionUnit(m: Libm, width: int, height: int, camera: Cameras.ShaderRepresentation, x: int, y: int)
    requires Lawful(m) && 0 < width && 0 < height
    requires ShaderMath.IsUnit(camera.rotation)
    ensures Dot(RayDirection(m, width, height, camera, x, y), RayDirection(m, width, height, camera, x, y)) == 1.0
  {
    var e := CameraSpaceVector(m, width, height, camera.fov, x, y);
    ShaderMath.DotSelfPositive(e);
    ShaderMath.TransformPreservesLengthSquared(e, camera.rotation);
    ShaderMath.NormalizeIsUnit(m, ShaderMath.Transform(e, camera.rotation));
  }

  // ---------------------------------------------------------------------
  // Marching

  /** The per-object distances at a point, in buffer order. SceneSdf, which
      the shadow rays use, is the least of them, or float.MaxValue when that
      is smaller: the march and the shadows see the same scene. */
  function Distances(m: Libm, objects: seq<PathwayObjects.ShaderRepresentation>, point: Vec3): (ds: seq<real>)
    ensures |ds| == |objects|
    ensures forall j :: 0 <= j < |ds| ==> RayMarchSdf.SceneSdf(m, objects, point) <= ds[j]
    ensures RayMarchSdf.SceneSdf(m, objects, point) == BIG || exists j :: 0 <= j < |ds| && RayMarchSdf.SceneSdf(m, objects, point) == ds[j]
  {
    var ds := seq(|objects|, j requires 0 <= j < |objects| => RayMarchSdf.ObjectSdf(m, point, objects[j]));
    assert forall j :: 0 <= j < |ds| ==> ds[j] == RayMarchSdf.ObjectSdf(m, point, objects[j]);
    ds
  }

  function PointAt(origin: Vec3, dir: Vec3, t: real): Vec3 {
    Add(origin, Scale(dir, t))
  }

  /** What the march sees along a ray: the distances at origin + dir t. */
  function Sample(m: Libm, objects: seq<PathwayObjects.ShaderRepresentation>, origin: Vec3, dir: Vec3): real -> seq<real> {
    t => Distances(m, objects, PointAt(origin, dir, t))
  }

  /** RayMarch: the shaded colour of the object hit, with the normal taken
      from that object's own distance function; black when the step budget
      runs out. */
  function RayMarch(m: Libm, k: Kernel, origin: Vec3, dir: Vec3): Vec3 {
    match RayMarchSelection.March(Sample(m, k.objects, origin, dir))
    case Struck(_, t, j) =>
      var point := PointAt(origin, dir, t);
      var obj := k.objects[j];
      var normal := RayMarchSdf.GetNormal(m, point, obj.position, obj.scale, obj.rotation, obj.objectType);
      RayMarchShading.Shade(m, k.camera.position, k.objects, k.lights, point, normal, obj)
    case Exhausted(_) => Zero3
  }

  // ---------------------------------------------------------------------
  // Packing

  /** (int)Math.Clamp(c * 255, 0, 255): the clamp and then truncation, which
      on [0, 255] is the floor. */
  function Quantize(c: real): (n: int)
    ensures 0 <= n <= 255
    ensures c <= 0.0 ==> n == 0
    ensures 1.0 <= c ==> n == 255
    ensures 0.0 <= c <= 1.0 ==> n as real <= c * 255.0 < n as real + 1.0
  {
    ShaderMath.ClampScalar(c * 255.0, 0.0, 255.0).Floor
  }

  /** The quantised channel as the byte the word holds. */
  function ChannelByte(c: real): bv8 {
    Quantize(c) as bv8
  }

  /** outA << 24 | outB << 16 | outG << 8 | outR on 32 bits. */
  function Pack(r: bv8, g: bv8, b: bv8, a: bv8): bv32 {
    (a as bv32 << 24) | (b as bv32 << 16) | (g as bv32 << 8) | r as bv32
  }

  /** Byte i of a word, counting from the least significant. */
  function ByteOf(w: bv32, i: nat): bv8
    requires i < 4
  {
    ((w >> (8 * i) as bv5) & 0xFF) as bv8
  }

  /** The int the bits are stored as: two's complement. */
  function ToInt32(w: bv32): int {
    if w < 0x8000_0000 then w as int else w as int - 0x1_0000_0000
  }

  /** Packing loses nothing: each byte comes back out. */
  lemma PackRoundTrip(r: bv8, g: bv8, b: bv8, a: bv8)
    ensures ByteOf(Pack(r, g, b, a), 0) == r
    ensures ByteOf(Pack(r, g, b, a), 1) == g
    ensures ByteOf(Pack(r, g, b, a), 2) == b
    ensures ByteOf(Pack(r, g, b, a), 3) == a
  {
  }

  /** With alpha 255 the top bit is set, so every stored pixel is a
      negative int. */
  lemma OpaqueIsNegative(r: bv8, g: bv8, b: bv8)
    ensures ToInt32(Pack(r, g, b, 255)) < 0
  {
  }

  /** The tone-mapped colour of a pixel. */
  function PixelColor(m: Libm, k: Kernel, id: int): Vec3
    requires Dispatchable(k) && 0 <= id
  {
    var dir := RayDirection(m, k.width, k.height, k.camera, PixelX(k.width, id), PixelY(k.width, id));
    RayMarchShading.SmoothClampColor(m, RayMarch(m, k, k.camera.position, dir))
  }

  /** The opaque word of a colour. */
  function PackColor(c: Vec3): bv32 {
    Pack(ChannelByte(c.x), ChannelByte(c.y), ChannelByte(c.z), 255)
  }

  /** The word written for a pixel. */
  function PixelWord(m: Libm, k: Kernel, id: int): bv32
    requires Dispatchable(k) && 0 <= id
  {
    PackColor(PixelColor(m, k, id))
  }

  /** Execute: Buffer[id] receives the packed word. */
  function Execute(m: Libm, k: Kernel, id: int): int
    requires Dispatchable(k) && 0 <= id < k.width * k.height
  {
    ToInt32(PixelWord(m, k, id))
  }

  // ---------------------------------------------------------------------
  // Properties

  /** The stored word holds the quantised red, green and blue of the pixel
      in bytes 0, 1 and 2, and 255 in byte 3; as an int it is negative. */
  lemma ExecuteChannels(m: Libm, k: Kernel, id: int)
    requires Dispatchable(k) && 0 <= id < k.width * k.height
    ensures var c := PixelColor(m, k, id);
      && ByteOf(PixelWord(m, k, id), 0) == ChannelByte(c.x)
      && ByteOf(PixelWord(m, k, id), 1) == ChannelByte(c.y)
      && ByteOf(PixelWord(m, k, id), 2) == ChannelByte(c.z)
      && ByteOf(PixelWord(m, k, id), 3) == 255
    ensures Execute(m, k, id) < 0
  {
    var c := PixelColor(m, k, id);
    assert PixelWord(m, k, id) == PackColor(c);
    PackColorChannels(c);
  }

  lemma PackColorChannels(c: Vec3)
    ensures ByteOf(PackColor(c), 0) == ChannelByte(c.x)
    ensures ByteOf(PackColor(c), 1) == ChannelByte(c.y)
    ensures ByteOf(PackColor(c), 2) == ChannelByte(c.z)
    ensures ByteOf(PackColor(c), 3) == 255
    ensures ToInt32(PackColor(c)) < 0
  {
    var r, g, b := ChannelByte(c.x), ChannelByte(c.y), ChannelByte(c.z);
    PackRoundTrip(r, g, b, 255);
    OpaqueIsNegative(r, g, b);
  }

  /** A ray that never passes within 0.001 of an object comes back black. */
  lemma MissIsBlack(m: Libm, k: Kernel, origin: Vec3, dir: Vec3)
    requires RayMarchSelection.March(Sample(m, k.objects, origin, dir)).Exhausted?
    ensures RayMarch(m, k, origin, dir) == Zero3
  {
  }

  /** An object the kernel can see: a colour with no negative and at least
      one positive channel, and a non-negative smoothness. */
  predicate Visible(o: PathwayObjects.ShaderRepresentation) {
    && RayMarchShading.NonNegative(o.color)
    && (0.0 < o.color.x || 0.0 < o.color.y || 0.0 < o.color.z)
    && 0.0 <= o.smoothness
  }

  /** When every object is visible and every light non-negative, a ray is
      black exactly when the march runs out of steps: a hit always carries
      at least the ambient tenth of the object's colour. */
  lemma BlackIffMiss(m: Libm, k: Kernel, origin: Vec3, dir: Vec3)
    requires Lawful(m)
    requires forall j :: 0 <= j < |k.objects| ==> Visible(k.objects[j])
    requires RayMarchShading.LightsNonNegative(k.lights)
    ensures RayMarch(m, k, origin, dir) == Zero3 <==> RayMarchSelection.March(Sample(m, k.objects, origin, dir)).Exhausted?
  {
    match RayMarchSelection.March(Sample(m, k.objects, origin, dir))
    case Struck(_, t, j) =>
      var point := PointAt(origin, dir, t);
      var obj := k.objects[j];
      var normal := RayMarchSdf.GetNormal(m, point, obj.position, obj.scale, obj.rotation, obj.objectType);
      assert Visible(obj);
      RayMarchShading.ShadeAtLeastAmbient(m, k.camera.position, k.objects, k.lights, point, normal, obj);
    case Exhausted(_) =>
  }

  /** With no objects every pixel is opaque black, 0xFF000000. */
  lemma EmptySceneBlack(m: Libm, k: Kernel, id: int)
    requires Lawful(m)
    requires Dispatchable(k) && 0 <= id < k.width * k.height
    requires k.objects == []
    ensures Execute(m, k, id) == -16777216
  {
    var dir := RayDirection(m, k.width, k.height, k.camera, PixelX(k.width, id), PixelY(k.width, id));
    RayMarchSelection.NoBandNoHit(Sample(m, k.objects, k.camera.position, dir));
    RayMarchShading.SmoothClampRange(m, 0.0);
    assert PixelColor(m, k, id) == Zero3;
  }

  /** An object with a type code outside {0, 1, 2} is at distance 0 from
      every point, so the very first pass hits it or an object before it:
      the ray stops at its origin. */
  lemma UnknownTypeStopsRay(m: Libm, objects: seq<PathwayObjects.ShaderRepresentation>, origin: Vec3, dir: Vec3, j: nat)
    requires j < |objects| && PathwayObjects.TypeOfCode(objects[j].objectType).None?
    ensures var r := RayMarchSelection.March(Sample(m, objects, origin, dir));
      r.Struck? && r.step == 0 && r.t == 0.0 && r.index <= j
  {
    var ds := Sample(m, objects, origin, dir)(0.0);
    assert ds == Distances(m, objects, PointAt(origin, dir, 0.0));
    assert ds[j] == 0.0;
    assert RayMarchSelection.InHitBand(ds[j]);
  }
}
