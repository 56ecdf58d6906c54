/** Raylib's Color: four byte channels R, G, B, A, and the named colours the
    renderer uses. The device records carry the first three channels as
    floats in [0,1], each byte divided by 255. */
module Colors {
  import opened Numerics

  type Byte = x: int | 0 <= x < 256

  datatype Color = Color(r: Byte, g: Byte, b: Byte, a: Byte)

  const White: Color := Color(255, 255, 255, 255)
  const Red: Color := Color(230, 41, 55, 255)
  const Blue: Color := Color(0, 121, 241, 255)

  /** Every component lies in [0,1]. */
  predicate InUnitCube(v: Vec3) {
    0.0 <= v.x <= 1.0 && 0.0 <= v.y <= 1.0 && 0.0 <= v.z <= 1.0
  }

  /** One channel as a float: byte / 255. Multiplying back by 255 recovers
      the byte, so nothing is lost. */
  function Channel(c: Byte): (v: real)
    ensures 0.0 <= v <= 1.0
    ensures v * 255.0 == c as real
  {
    c as real / 255.0
  }

  /** The RGB part of a colour as the device sees it; alpha is dropped. */
  function ToUnitRgb(c: Color): (v: Vec3)
    ensures InUnitCube(v)
    ensures v.x * 255.0 == c.r as real && v.y * 255.0 == c.g as real && v.z * 255.0 == c.b as real
  {
    Vec3(Channel(c.r), Channel(c.g), Channel(c.b))
  }

  /** Two colours look the same to the device exactly when their R, G and B
      bytes agree. */
  lemma ToUnitRgbInjective(c: Color, d: Color)
    ensures ToUnitRgb(c) == ToUnitRgb(d) <==> (c.r == d.r && c.g == d.g && c.b == d.b)
  {
    if ToUnitRgb(c) == ToUnitRgb(d) {
      assert c.r as real == ToUnitRgb(c).x * 255.0 == d.r as real;
      assert c.g as real == ToUnitRgb(c).y * 255.0 == d.g as real;
      assert c.b as real == ToUnitRgb(c).z * 255.0 == d.b as real;
    }
  }

  /** White is (1,1,1) on the device. */
  lemma WhiteIsOne()
    ensures ToUnitRgb(White) == Vec3(1.0, 1.0, 1.0)
  {
  }
}
