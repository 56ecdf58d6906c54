/** Real-number stand-ins for the System.Numerics vector types and the MathF
    helpers the renderer uses. Single-precision floating point is modelled by
    `real`: rounding, infinities and NaN are not represented. */
module Numerics {

  /** float.MaxValue, (2 - 2^-23) * 2^127. The kernels use it both as the
      initial "nothing seen yet" distance and as the "no surface here" answer. */
  const BIG: real := 340282346638528859811704183484516925440.0

  /** MathF.Min */
  function Min(a: real, b: real): (r: real)
    ensures r <= a && r <= b
    ensures r == a || r == b
  {
    if a <= b then a else b
  }

  /** MathF.Max */
  function Max(a: real, b: real): (r: real)
    ensures r >= a && r >= b
    ensures r == a || r == b
  {
    if a >= b then a else b
  }

  /** MathF.Abs */
  function Abs(a: real): (r: real)
    ensures r >= 0.0
    ensures r == a || r == -a
  {
    if a < 0.0 then -a else a
  }

  /** Vector3 */
  datatype Vec3 = Vec3(x: real, y: real, z: real)

  /** Vector4 (also the device-side layout of a quaternion, X Y Z W) */
  datatype Vec4 = Vec4(x: real, y: real, z: real, w: real)

  const Zero3: Vec3 := Vec3(0.0, 0.0, 0.0)
  const One3: Vec3 := Vec3(1.0, 1.0, 1.0)

  /** The result of decoding an integer code that may name nothing. */
  datatype Option<T> = None | Some(value: T)

  function Add(a: Vec3, b: Vec3): Vec3 {
    Vec3(a.x + b.x, a.y + b.y, a.z + b.z)
  }

  function Sub(a: Vec3, b: Vec3): Vec3 {
    Vec3(a.x - b.x, a.y - b.y, a.z - b.z)
  }

  function Neg(a: Vec3): Vec3 {
    Vec3(-a.x, -a.y, -a.z)
  }

  /** Vector3 * float */
  function Scale(a: Vec3, s: real): Vec3 {
    Vec3(a.x * s, a.y * s, a.z * s)
  }

  /** Vector3 * Vector3, component-wise */
  function Mul(a: Vec3, b: Vec3): Vec3 {
    Vec3(a.x * b.x, a.y * b.y, a.z * b.z)
  }

  /** Vector3 / Vector3, component-wise; a zero divisor is an infinity in
      single precision, which this model does not represent. */
  function Div(a: Vec3, b: Vec3): Vec3
    requires b.x != 0.0 && b.y != 0.0 && b.z != 0.0
  {
    Vec3(a.x / b.x, a.y / b.y, a.z / b.z)
  }

  /** Vector3.Dot */
  function Dot(a: Vec3, b: Vec3): real {
    a.x * b.x + a.y * b.y + a.z * b.z
  }

  /** Vector3.Min, component-wise */
  function MinV(a: Vec3, b: Vec3): Vec3 {
    Vec3(Min(a.x, b.x), Min(a.y, b.y), Min(a.z, b.z))
  }

  /** Vector3.Max, component-wise */
  function MaxV(a: Vec3, b: Vec3): Vec3 {
    Vec3(Max(a.x, b.x), Max(a.y, b.y), Max(a.z, b.z))
  }

  /** Every component of `a` is at most the matching component of `b`. */
  predicate LessEq(a: Vec3, b: Vec3) {
    a.x <= b.x && a.y <= b.y && a.z <= b.z
  }

  /** The transcendental functions of MathF. They are calls into the runtime
      that the model cannot see, so they are a parameter of every computation
      that uses them; `Lawful` lists the only facts the proofs rely on. */
  datatype Libm = Libm(sqrt: real -> real, exp: real -> Positive, pow: (real, real) -> real, tan: real -> real)

  /** The positive reals, the range of MathF.Exp. */
  type Positive = r: real | 0.0 < r witness 1.0

  ghost predicate Lawful(m: Libm) {
    && (forall x :: 0.0 <= x ==> 0.0 <= m.sqrt(x))
    && (forall x :: 0.0 <= x ==> m.sqrt(x) * m.sqrt(x) == x)
    && m.exp(0.0) == 1.0
    && (forall b, e :: 0.0 <= b ==> 0.0 <= m.pow(b, e))
  }

  /** The product of two positive reals is positive. */
  lemma MulPositive(a: real, b: real)
    requires 0.0 < a && 0.0 < b
    ensures 0.0 < a * b
  {
  }

  /** The product of two non-negative reals is non-negative. */
  lemma MulNonNegative(a: real, b: real)
    requires 0.0 <= a && 0.0 <= b
    ensures 0.0 <= a * b
  {
  }

  /** (a / l) l = a */
  lemma QuotientTimes(a: real, l: real)
    requires l != 0.0
    ensures (a / l) * l == a
  {
  }

  /** Multiplication and squaring as named functions. Facts stated about
      `Prod(a, b)` carry over to any equal arguments by congruence, which the
      solver does not always manage for a bare product of equal terms. */
  function Prod(a: real, b: real): real {
    a * b
  }

  function Sq(a: real): real {
    Prod(a, a)
  }

  lemma ProdPositive(a: real, b: real)
    requires 0.0 < a && 0.0 < b
    ensures 0.0 < Prod(a, b)
  {
  }

  lemma ProdNegate(a: real, b: real)
    ensures Prod(-a, -b) == Prod(a, b)
  {
  }

  lemma SqPositive(a: real)
    requires a != 0.0
    ensures 0.0 < Sq(a)
  {
    if a < 0.0 {
      ProdPositive(-a, -a);
      ProdNegate(a, a);
    } else {
      ProdPositive(a, a);
    }
  }

  lemma SqNonNegative(a: real)
    ensures 0.0 <= Sq(a)
  {
    if a != 0.0 {
      SqPositive(a);
    }
  }

  /** A sum of three squares is non-negative, and positive unless every
      term is zero. */
  lemma SumOfSquares(x: real, y: real, z: real)
    ensures 0.0 <= Sq(x) + Sq(y) + Sq(z)
    ensures (x != 0.0 || y != 0.0 || z != 0.0) ==> 0.0 < Sq(x) + Sq(y) + Sq(z)
  {
    SqNonNegative(x);
    SqNonNegative(y);
    SqNonNegative(z);
    if x != 0.0 {
      SqPositive(x);
    }
    if y != 0.0 {
      SqPositive(y);
    }
    if z != 0.0 {
      SqPositive(z);
    }
  }

  /** x k == k with k positive forces x == 1. */
  lemma CancelPositive(x: real, k: real)
    requires 0.0 < k && Prod(x, k) == k
    ensures x == 1.0
  {
    if x < 1.0 {
      ProdPositive(1.0 - x, k);
    } else if x > 1.0 {
      ProdPositive(x - 1.0, k);
    }
  }

  /** Of two non-negative reals, the one with the larger square is larger. */
  lemma SquareMonotone(a: real, b: real)
    requires 0.0 <= a && 0.0 <= b
    requires a < b
    ensures a * a < b * b
  {
    assert b * b - a * a == (b - a) * (b + a);
    MulPositive(b - a, b + a);
  }

  /** Of two non-negative reals, the larger has the larger square. */
  lemma SqMonotone(a: real, b: real)
    requires 0.0 <= a <= b
    ensures Sq(a) <= Sq(b)
  {
    if a < b {
      SquareMonotone(a, b);
    }
  }

  lemma SqrtZero(m: Libm)
    requires Lawful(m)
    ensures m.sqrt(0.0) == 0.0
  {
    SqrtOfSquare(m, 0.0);
    assert 0.0 * 0.0 == 0.0;
  }

  lemma SqrtPositive(m: Libm, x: real)
    requires Lawful(m)
    requires 0.0 < x
    ensures 0.0 < m.sqrt(x)
  {
    var s := m.sqrt(x);
    assert 0.0 <= s && s * s == x;
  }

  lemma SqrtOfSquare(m: Libm, a: real)
    requires Lawful(m)
    requires 0.0 <= a
    ensures m.sqrt(a * a) == a
  {
    var s := m.sqrt(a * a);
    assert 0.0 <= s && s * s == a * a;
    if s < a {
      SquareMonotone(s, a);
    } else if a < s {
      SquareMonotone(a, s);
    }
  }

  lemma SqrtOne(m: Libm)
    requires Lawful(m)
    ensures m.sqrt(1.0) == 1.0
  {
    SqrtOfSquare(m, 1.0);
  }

  /** A square root never exceeds a bound whose square bounds its argument. */
  lemma SqrtAtMost(m: Libm, y: real, c: real)
    requires Lawful(m)
    requires 0.0 <= y <= c * c && 0.0 <= c
    ensures m.sqrt(y) <= c
  {
    var s := m.sqrt(y);
    assert 0.0 <= s && s * s == y;
    if c < s {
      SquareMonotone(c, s);
    }
  }
}
