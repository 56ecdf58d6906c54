/** The vector helpers of Pathways/Shaders/ShaderMath.cs, which the current
    kernel calls on the device. Every helper is a pure function of its
    arguments; the transcendental ones take the `Libm` parameter. */
module ShaderMath {
  import opened Numerics

  /** A quaternion of norm one, laid out X, Y, Z, W. */
  predicate IsUnit(q: Vec4) {
    q.x * q.x + q.y * q.y + q.z * q.z + q.w * q.w == 1.0
  }

  /** The conjugate quaternion: vector part negated, scalar part kept. */
  function Conjugate(q: Vec4): Vec4 {
    Vec4(-q.x, -q.y, -q.z, q.w)
  }

  const IdentityRotation: Vec4 := Vec4(0.0, 0.0, 0.0, 1.0)

  /** Rotates `value` by the quaternion `rotation`, expanded into scalar form
      (the expansion System.Numerics uses for Vector3.Transform). */
  function Transform(value: Vec3, rotation: Vec4): Vec3 {
    var x2 := rotation.x + rotation.x;
    var y2 := rotation.y + rotation.y;
    var z2 := rotation.z + rotation.z;

    var wx2 := rotation.w * x2;
    var wy2 := rotation.w * y2;
    var wz2 := rotation.w * z2;
    var xx2 := rotation.x * x2;
    var xy2 := rotation.x * y2;
    var xz2 := rotation.x * z2;
    var yy2 := rotation.y * y2;
    var yz2 := rotation.y * z2;
    var zz2 := rotation.z * z2;

    Vec3(
      value.x * (1.0 - yy2 - zz2) + value.y * (xy2 - wz2) + value.z * (xz2 + wy2),
      value.x * (xy2 + wz2) + value.y * (1.0 - xx2 - zz2) + value.z * (yz2 - wx2),
      value.x * (xz2 - wy2) + value.y * (yz2 + wx2) + value.z * (1.0 - xx2 - yy2))
  }

  /** float4x4, row-major: `mRC` is row R, column C. */
  datatype Float4x4 = Float4x4(
    m11: real, m12: real, m13: real, m14: real,
    m21: real, m22: real, m23: real, m24: real,
    m31: real, m32: real, m33: real, m34: real,
    m41: real, m42: real, m43: real, m44: real)

  /** The matrix overload of Transform: the vector is multiplied as a row,
      so each result component reads one COLUMN of the matrix. */
  function TransformByMatrix(value: Vec3, rotation: Float4x4): Vec3 {
    Vec3(
      value.x * rotation.m11 + value.y * rotation.m21 + value.z * rotation.m31,
      value.x * rotation.m12 + value.y * rotation.m22 + value.z * rotation.m32,
      value.x * rotation.m13 + value.y * rotation.m23 + value.z * rotation.m33)
  }

  /** Lays the coefficients of the quaternion Transform out as matrix ROWS. */
  function CreateMatrixFromQuaternion(rotation: Vec4): Float4x4 {
    var x2 := rotation.x + rotation.x;
    var y2 := rotation.y + rotation.y;
    var z2 := rotation.z + rotation.z;

    var wx2 := rotation.w * x2;
    var wy2 := rotation.w * y2;
    var wz2 := rotation.w * z2;
    var xx2 := rotation.x * x2;
    var xy2 := rotation.x * y2;
    var xz2 := rotation.x * z2;
    var yy2 := rotation.y * y2;
    var yz2 := rotation.y * z2;
    var zz2 := rotation.z * z2;

    Float4x4(
      1.0 - yy2 - zz2, xy2 - wz2, xz2 + wy2, 0.0,
      xy2 + wz2, 1.0 - xx2 - zz2, yz2 - wx2, 0.0,
      xz2 - wy2, yz2 + wx2, 1.0 - xx2 - yy2, 0.0,
      0.0, 0.0, 0.0, 1.0)
  }

  /** Euclidean length, through the runtime's square root. */
  function Length(m: Libm, value: Vec3): real {
    m.sqrt(Dot(value, value))
  }

  /** Divides by the length. For the zero vector the source divides 0 by 0
      (NaN components); this model returns the zero vector instead. */
  function Normalize(m: Libm, value: Vec3): Vec3 {
    var length := Length(m, value);
    if length == 0.0 then value
    else Vec3(value.x / length, value.y / length, value.z / length)
  }

  /** The length is the non-negative square root of the squared length,
      and it is zero exactly for the zero vector. */
  lemma LengthFacts(m: Libm, v: Vec3)
    requires Lawful(m)
    ensures 0.0 <= Length(m, v)
    ensures Sq(Length(m, v)) == Dot(v, v)
    ensures Length(m, v) == 0.0 <==> v == Zero3
  {
    DotSelfNonNegative(v);
    if v == Zero3 {
      SqrtZero(m);
    } else {
      DotSelfPositive(v);
      SqrtPositive(m, Dot(v, v));
    }
  }

  /** The sign facts of Length alone. */
  lemma LengthSign(m: Libm, v: Vec3)
    requires Lawful(m)
    ensures 0.0 <= Length(m, v)
    ensures Length(m, v) == 0.0 <==> v == Zero3
  {
    DotSelfNonNegative(v);
    if v == Zero3 {
      SqrtZero(m);
    } else {
      DotSelfPositive(v);
      SqrtPositive(m, Dot(v, v));
    }
  }

  lemma DotAsSquares(v: Vec3)
    ensures Dot(v, v) == Sq(v.x) + Sq(v.y) + Sq(v.z)
  {
  }

  /** The squared length is never negative ... */
  lemma DotSelfNonNegative(v: Vec3)
    ensures 0.0 <= Dot(v, v)
  {
    DotAsSquares(v);
    SumOfSquares(v.x, v.y, v.z);
  }

  /** ... and it is positive for every vector other than zero. */
  lemma DotSelfPositive(v: Vec3)
    requires v != Zero3
    ensures 0.0 < Dot(v, v)
  {
    DotAsSquares(v);
    SumOfSquares(v.x, v.y, v.z);
  }

  /** A vector of positive length normalises to one of length one. */
  lemma NormalizeIsUnit(m: Libm, v: Vec3)
    requires Lawful(m)
    requires v != Zero3
    ensures Dot(Normalize(m, v), Normalize(m, v)) == 1.0
    ensures Length(m, Normalize(m, v)) == 1.0
  {
    LengthFacts(m, v);
    var l := Length(m, v);
    var u := Normalize(m, v);
    NormalizeScalesBack(m, v);
    assert Dot(v, v) == Dot(Scale(u, l), Scale(u, l));
    UnitFromScaled(u, l);
    SqrtOne(m);
  }

  /** Scaling the normalised vector by the length gives the vector back. */
  lemma NormalizeScalesBack(m: Libm, v: Vec3)
    requires Lawful(m)
    ensures Scale(Normalize(m, v), Length(m, v)) == v
  {
    var l := Length(m, v);
    if l != 0.0 {
      QuotientTimes(v.x, l);
      QuotientTimes(v.y, l);
      QuotientTimes(v.z, l);
    } else {
      LengthFacts(m, v);
    }
  }

  /** If l u has squared length l^2 for a non-zero l, u has length one. */
  lemma UnitFromScaled(u: Vec3, l: real)
    requires l != 0.0 && Sq(l) == Dot(Scale(u, l), Scale(u, l))
    ensures Dot(u, u) == 1.0
  {
    DotScale(u, l);
    SqPositive(l);
    CancelPositive(Dot(u, u), Sq(l));
  }

  /** Scaling a vector by l scales its squared length by l^2. */
  lemma DotScale(u: Vec3, l: real)
    ensures Dot(Scale(u, l), Scale(u, l)) == Prod(Dot(u, u), Sq(l))
  {
  }

  /** Component-wise clamp, compiled to the device's `clamp`, i.e.
      min(max(x, lo), hi): it never throws, even when lo > hi. */
  function Clamp(x: Vec3, min: Vec3, max: Vec3): (r: Vec3)
    ensures LessEq(min, max) ==> LessEq(min, r) && LessEq(r, max)
    ensures LessEq(min, x) && LessEq(x, max) ==> r == x
  {
    Vec3(ClampScalar(x.x, min.x, max.x), ClampScalar(x.y, min.y, max.y), ClampScalar(x.z, min.z, max.z))
  }

  function ClampScalar(x: real, lo: real, hi: real): (r: real)
    ensures lo <= hi ==> lo <= r <= hi
    ensures lo <= x <= hi ==> r == x
  {
    Numerics.Min(Numerics.Max(x, lo), hi)
  }

  /** Hermite smoothstep. The source evaluates it with vector operations,
      each of which acts on one component at a time, so the model applies the
      scalar formula to each component. Equal edges divide by zero in the
      source; the model requires distinct edges. */
  function Smoothstep(edge0: Vec3, edge1: Vec3, x: Vec3): Vec3
    requires edge0.x != edge1.x && edge0.y != edge1.y && edge0.z != edge1.z
  {
    Vec3(SmoothstepScalar(edge0.x, edge1.x, x.x), SmoothstepScalar(edge0.y, edge1.y, x.y), SmoothstepScalar(edge0.z, edge1.z, x.z))
  }

  /** t^2 (3 - 2t) */
  function Hermite(t: real): real {
    t * t * (3.0 - 2.0 * t)
  }

  /** One component of Smoothstep. */
  function SmoothstepScalar(e0: real, e1: real, x: real): real
    requires e0 != e1
  {
    Hermite(ClampScalar((x - e0) / (e1 - e0), 0.0, 1.0))
  }

  /** On [0,1] the Hermite polynomial stays in [0,1]. */
  lemma HermiteInUnitRange(t: real)
    requires 0.0 <= t <= 1.0
    ensures 0.0 <= Hermite(t) <= 1.0
  {
    MulNonNegative(t, t);
    MulNonNegative(t * t, 3.0 - 2.0 * t);
    assert 1.0 - t * t * (3.0 - 2.0 * t) == (1.0 - t) * (1.0 - t) * (1.0 + 2.0 * t);
    MulNonNegative(1.0 - t, 1.0 - t);
    MulNonNegative((1.0 - t) * (1.0 - t), 1.0 + 2.0 * t);
  }

  lemma SmoothstepScalarRange(e0: real, e1: real, x: real)
    requires e0 != e1
    ensures 0.0 <= SmoothstepScalar(e0, e1, x) <= 1.0
  {
    HermiteInUnitRange(ClampScalar((x - e0) / (e1 - e0), 0.0, 1.0));
  }

  /** At or below the lower edge the result is 0. */
  lemma SmoothstepScalarBelow(e0: real, e1: real, x: real)
    requires x <= e0 < e1
    ensures SmoothstepScalar(e0, e1, x) == 0.0
  {
    RatioNonPositive(x - e0, e1 - e0);
  }

  /** At or above the upper edge the result is 1. */
  lemma SmoothstepScalarAbove(e0: real, e1: real, x: real)
    requires e0 < e1 <= x
    ensures SmoothstepScalar(e0, e1, x) == 1.0
  {
    RatioAtLeastOne(x - e0, e1 - e0);
  }

  lemma RatioNonPositive(a: real, d: real)
    requires 0.0 < d && a <= 0.0
    ensures a / d <= 0.0
  {
  }

  lemma RatioAtLeastOne(a: real, d: real)
    requires 0.0 < d <= a
    ensures a / d >= 1.0
  {
  }

  /** Every component lies in [0,1]; below the lower edges it is 0 and above
      the upper edges it is 1. */
  lemma SmoothstepRange(edge0: Vec3, edge1: Vec3, x: Vec3)
    requires edge0.x != edge1.x && edge0.y != edge1.y && edge0.z != edge1.z
    ensures LessEq(Zero3, Smoothstep(edge0, edge1, x))
    ensures LessEq(Smoothstep(edge0, edge1, x), Vec3(1.0, 1.0, 1.0))
  {
    SmoothstepScalarRange(edge0.x, edge1.x, x.x);
    SmoothstepScalarRange(edge0.y, edge1.y, x.y);
    SmoothstepScalarRange(edge0.z, edge1.z, x.z);
  }

  /** v * s, component by component. */
  function MulByScalar(v: Vec3, s: real): Vec3 {
    Vec3(v.x * s, v.y * s, v.z * s)
  }

  /** MulByScalar is the vector-times-scalar product the CPU side writes
      as `v * s`. */
  lemma MulByScalarIsScale(v: Vec3, s: real)
    ensures MulByScalar(v, s) == Scale(v, s)
  {
  }

  /** Component-wise absolute value. */
  function Abs(v: Vec3): (r: Vec3)
    ensures LessEq(Zero3, r)
    ensures (r.x == v.x || r.x == -v.x) && (r.y == v.y || r.y == -v.y) && (r.z == v.z || r.z == -v.z)
  {
    Vec3(Numerics.Abs(v.x), Numerics.Abs(v.y), Numerics.Abs(v.z))
  }

  /** Component-wise minimum. */
  function Min(a: Vec3, b: Vec3): (r: Vec3)
    ensures LessEq(r, a) && LessEq(r, b)
    ensures (r.x == a.x || r.x == b.x) && (r.y == a.y || r.y == b.y) && (r.z == a.z || r.z == b.z)
  {
    Vec3(Numerics.Min(a.x, b.x), Numerics.Min(a.y, b.y), Numerics.Min(a.z, b.z))
  }

  /** Component-wise maximum. */
  function Max(a: Vec3, b: Vec3): (r: Vec3)
    ensures LessEq(a, r) && LessEq(b, r)
    ensures (r.x == a.x || r.x == b.x) && (r.y == a.y || r.y == b.y) && (r.z == a.z || r.z == b.z)
  {
    Vec3(Numerics.Max(a.x, b.x), Numerics.Max(a.y, b.y), Numerics.Max(a.z, b.z))
  }

  // ---------------------------------------------------------------------
  // Properties of the quaternion transform

  lemma TransformIdentity(v: Vec3)
    ensures Transform(v, IdentityRotation) == v
  {
  }

  /** The image of the i-th axis: the i-th column of the rotation. */
  function Column(q: Vec4, i: nat): Vec3
    requires i < 3
  {
    if i == 0 then Transform(Vec3(1.0, 0.0, 0.0), q)
    else if i == 1 then Transform(Vec3(0.0, 1.0, 0.0), q)
    else Transform(Vec3(0.0, 0.0, 1.0), q)
  }

  /** v.x * c1 + v.y * c2 + v.z * c3 */
  function Combine(c1: Vec3, c2: Vec3, c3: Vec3, v: Vec3): Vec3 {
    Add(Add(Scale(c1, v.x), Scale(c2, v.y)), Scale(c3, v.z))
  }

  /** Transform is the combination of the columns weighted by the input. */
  lemma TransformByColumns(v: Vec3, q: Vec4)
    ensures Transform(v, q) == Combine(Column(q, 0), Column(q, 1), Column(q, 2), v)
  {
  }

  /** Rotating by the conjugate takes the dot product with each column. */
  lemma ConjugateReadsColumns(v: Vec3, q: Vec4)
    ensures Transform(v, Conjugate(q)) == Vec3(Dot(Column(q, 0), v), Dot(Column(q, 1), v), Dot(Column(q, 2), v))
  {
  }

  lemma CombineAdditive(c1: Vec3, c2: Vec3, c3: Vec3, a: Vec3, b: Vec3)
    ensures Combine(c1, c2, c3, Add(a, b)) == Add(Combine(c1, c2, c3, a), Combine(c1, c2, c3, b))
  {
  }

  lemma CombineHomogeneous(c1: Vec3, c2: Vec3, c3: Vec3, a: Vec3, s: real)
    ensures Combine(c1, c2, c3, Scale(a, s)) == Scale(Combine(c1, c2, c3, a), s)
  {
    CombineHomogeneousX(c1, c2, c3, a, s);
    CombineHomogeneousY(c1, c2, c3, a, s);
    CombineHomogeneousZ(c1, c2, c3, a, s);
  }

  lemma CombineHomogeneousX(c1: Vec3, c2: Vec3, c3: Vec3, a: Vec3, s: real)
    ensures Combine(c1, c2, c3, Scale(a, s)).x == Combine(c1, c2, c3, a).x * s
  {
    var sa, ca := Scale(a, s), Combine(c1, c2, c3, a);
    CombineComponents(c1, c2, c3, sa);
    CombineComponents(c1, c2, c3, a);
    Distribute(c1.x, c2.x, c3.x, a.x, a.y, a.z, s, sa.x, sa.y, sa.z, ca.x);
  }

  lemma CombineHomogeneousY(c1: Vec3, c2: Vec3, c3: Vec3, a: Vec3, s: real)
    ensures Combine(c1, c2, c3, Scale(a, s)).y == Combine(c1, c2, c3, a).y * s
  {
    var sa, ca := Scale(a, s), Combine(c1, c2, c3, a);
    CombineComponents(c1, c2, c3, sa);
    CombineComponents(c1, c2, c3, a);
    Distribute(c1.y, c2.y, c3.y, a.x, a.y, a.z, s, sa.x, sa.y, sa.z, ca.y);
  }

  lemma CombineHomogeneousZ(c1: Vec3, c2: Vec3, c3: Vec3, a: Vec3, s: real)
    ensures Combine(c1, c2, c3, Scale(a, s)).z == Combine(c1, c2, c3, a).z * s
  {
    var sa, ca := Scale(a, s), Combine(c1, c2, c3, a);
    CombineComponents(c1, c2, c3, sa);
    CombineComponents(c1, c2, c3, a);
    Distribute(c1.z, c2.z, c3.z, a.x, a.y, a.z, s, sa.x, sa.y, sa.z, ca.z);
  }

  lemma CombineComponents(c1: Vec3, c2: Vec3, c3: Vec3, v: Vec3)
    ensures Combine(c1, c2, c3, v)
      == Vec3(c1.x * v.x + c2.x * v.y + c3.x * v.z, c1.y * v.x + c2.y * v.y + c3.y * v.z, c1.z * v.x + c2.z * v.y + c3.z * v.z)
  {
  }

  /** a (p s) + b (q s) + c (r s) = (a p + b q + c r) s, with the products
      handed in as the caller's own terms. */
  lemma Distribute(a: real, b: real, c: real, p: real, q: real, r: real, s: real, ps: real, qs: real, rs: real, sum: real)
    requires ps == p * s && qs == q * s && rs == r * s
    requires sum == a * p + b * q + c * r
    ensures a * ps + b * qs + c * rs == sum * s
  {
  }

  lemma DotCombine(d: Vec3, c1: Vec3, c2: Vec3, c3: Vec3, v: Vec3)
    ensures Dot(d, Combine(c1, c2, c3, v)) == v.x * Dot(d, c1) + v.y * Dot(d, c2) + v.z * Dot(d, c3)
  {
  }

  lemma DotSymmetric(a: Vec3, b: Vec3)
    ensures Dot(a, b) == Dot(b, a)
  {
  }

  /** A weighted sum against one orthonormal-basis row picks one weight. */
  lemma PickWeight(a: real, b: real, c: real, da: real, db: real, dc: real)
    requires da == 1.0 && db == 0.0 && dc == 0.0
    ensures a * da + b * db + c * dc == a
  {
  }

  lemma TransformAdditive(a: Vec3, b: Vec3, q: Vec4)
    ensures Transform(Add(a, b), q) == Add(Transform(a, q), Transform(b, q))
  {
    TransformByColumns(Add(a, b), q);
    TransformByColumns(a, q);
    TransformByColumns(b, q);
    CombineAdditive(Column(q, 0), Column(q, 1), Column(q, 2), a, b);
  }

  lemma TransformHomogeneous(a: Vec3, s: real, q: Vec4)
    ensures Transform(Scale(a, s), q) == Scale(Transform(a, q), s)
  {
    TransformByColumns(Scale(a, s), q);
    TransformByColumns(a, q);
    CombineHomogeneous(Column(q, 0), Column(q, 1), Column(q, 2), a, s);
  }

  /** Reading the matrix by columns undoes the row layout, so the matrix
      route rotates by the CONJUGATE quaternion, for every quaternion. */
  lemma MatrixRouteIsConjugate(v: Vec3, q: Vec4)
    ensures TransformByMatrix(v, CreateMatrixFromQuaternion(q)) == Transform(v, Conjugate(q))
  {
  }

  lemma ColumnFormula0(q: Vec4)
    ensures Column(q, 0) == Vec3(1.0 - 2.0 * (q.y * q.y + q.z * q.z), 2.0 * (q.x * q.y + q.w * q.z), 2.0 * (q.x * q.z - q.w * q.y))
  {
  }

  lemma ColumnFormula1(q: Vec4)
    ensures Column(q, 1) == Vec3(2.0 * (q.x * q.y - q.w * q.z), 1.0 - 2.0 * (q.x * q.x + q.z * q.z), 2.0 * (q.y * q.z + q.w * q.x))
  {
  }

  lemma ColumnFormula2(q: Vec4)
    ensures Column(q, 2) == Vec3(2.0 * (q.x * q.z + q.w * q.y), 2.0 * (q.y * q.z - q.w * q.x), 1.0 - 2.0 * (q.x * q.x + q.y * q.y))
  {
  }

  /** The squared norm of a quaternion. */
  function NormSquared(q: Vec4): real {
    q.x * q.x + q.y * q.y + q.z * q.z + q.w * q.w
  }

  /** Column 0 with 1 replaced by the squared norm n. */
  function HomogeneousColumn0(q: Vec4): Vec3 {
    var n := NormSquared(q);
    Vec3(n - 2.0 * (q.y * q.y + q.z * q.z), 2.0 * (q.x * q.y + q.w * q.z), 2.0 * (q.x * q.z - q.w * q.y))
  }

  /** Column 1 with 1 replaced by the squared norm n. */
  function HomogeneousColumn1(q: Vec4): Vec3 {
    var n := NormSquared(q);
    Vec3(2.0 * (q.x * q.y - q.w * q.z), n - 2.0 * (q.x * q.x + q.z * q.z), 2.0 * (q.y * q.z + q.w * q.x))
  }

  /** Column 2 with 1 replaced by the squared norm n. */
  function HomogeneousColumn2(q: Vec4): Vec3 {
    var n := NormSquared(q);
    Vec3(2.0 * (q.x * q.z + q.w * q.y), 2.0 * (q.y * q.z - q.w * q.x), n - 2.0 * (q.x * q.x + q.y * q.y))
  }

  lemma HomogeneousLength0(q: Vec4)
    ensures Dot(HomogeneousColumn0(q), HomogeneousColumn0(q)) == NormSquared(q) * NormSquared(q)
  {
  }

  lemma HomogeneousLength1(q: Vec4)
    ensures Dot(HomogeneousColumn1(q), HomogeneousColumn1(q)) == NormSquared(q) * NormSquared(q)
  {
  }

  lemma HomogeneousLength2(q: Vec4)
    ensures Dot(HomogeneousColumn2(q), HomogeneousColumn2(q)) == NormSquared(q) * NormSquared(q)
  {
  }

  lemma HomogeneousOrthogonal01(q: Vec4)
    ensures Dot(HomogeneousColumn0(q), HomogeneousColumn1(q)) == 0.0
  {
  }

  lemma HomogeneousOrthogonal02(q: Vec4)
    ensures Dot(HomogeneousColumn0(q), HomogeneousColumn2(q)) == 0.0
  {
  }

  lemma HomogeneousOrthogonal12(q: Vec4)
    ensures Dot(HomogeneousColumn1(q), HomogeneousColumn2(q)) == 0.0
  {
  }

  lemma UnitColumn0(q: Vec4)
    requires IsUnit(q)
    ensures Column(q, 0) == HomogeneousColumn0(q)
  {
    ColumnFormula0(q);
  }

  lemma UnitColumn1(q: Vec4)
    requires IsUnit(q)
    ensures Column(q, 1) == HomogeneousColumn1(q)
  {
    ColumnFormula1(q);
  }

  lemma UnitColumn2(q: Vec4)
    requires IsUnit(q)
    ensures Column(q, 2) == HomogeneousColumn2(q)
  {
    ColumnFormula2(q);
  }

  /** The images of the three axes are orthonormal for a unit quaternion. */
  lemma ColumnsOrthonormal(q: Vec4)
    requires IsUnit(q)
    ensures Dot(Column(q, 0), Column(q, 0)) == 1.0
    ensures Dot(Column(q, 1), Column(q, 1)) == 1.0
    ensures Dot(Column(q, 2), Column(q, 2)) == 1.0
    ensures Dot(Column(q, 0), Column(q, 1)) == 0.0
    ensures Dot(Column(q, 0), Column(q, 2)) == 0.0
    ensures Dot(Column(q, 1), Column(q, 2)) == 0.0
  {
    UnitColumn0(q);
    UnitColumn1(q);
    UnitColumn2(q);
    HomogeneousLength0(q);
    HomogeneousLength1(q);
    HomogeneousLength2(q);
    HomogeneousOrthogonal01(q);
    HomogeneousOrthogonal02(q);
    HomogeneousOrthogonal12(q);
  }

  /** For a unit quaternion, rotating and then rotating by the conjugate
      gives the input back. */
  lemma TransformThenConjugate(v: Vec3, q: Vec4)
    requires IsUnit(q)
    ensures Transform(Transform(v, q), Conjugate(q)) == v
  {
    var c1, c2, c3 := Column(q, 0), Column(q, 1), Column(q, 2);
    var tv := Transform(v, q);
    TransformByColumns(v, q);
    ConjugateReadsColumns(tv, q);
    ColumnsOrthonormal(q);
    DotSymmetric(c1, c2);
    DotSymmetric(c1, c3);
    DotSymmetric(c2, c3);
    DotCombine(c1, c1, c2, c3, v);
    DotCombine(c2, c1, c2, c3, v);
    DotCombine(c3, c1, c2, c3, v);
    PickWeight(v.x, v.y, v.z, Dot(c1, c1), Dot(c1, c2), Dot(c1, c3));
    PickWeight(v.y, v.x, v.z, Dot(c2, c2), Dot(c2, c1), Dot(c2, c3));
    PickWeight(v.z, v.x, v.y, Dot(c3, c3), Dot(c3, c1), Dot(c3, c2));
  }

  /** For a unit quaternion the rotation keeps the squared length. */
  lemma TransformPreservesLengthSquared(v: Vec3, q: Vec4)
    requires IsUnit(q)
    ensures Dot(Transform(v, q), Transform(v, q)) == Dot(v, v)
  {
    var c1, c2, c3 := Column(q, 0), Column(q, 1), Column(q, 2);
    var tv := Transform(v, q);
    TransformThenConjugate(v, q);
    ConjugateReadsColumns(tv, q);
    TransformByColumns(v, q);
    DotCombine(tv, c1, c2, c3, v);
    DotSymmetric(tv, c1);
    DotSymmetric(tv, c2);
    DotSymmetric(tv, c3);
  }
}
