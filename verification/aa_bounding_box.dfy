/** Pathways/AaBoundingBox.cs: an axis-aligned box and the slab test for a
    ray. A zero direction component divides by zero, which gives an
    infinity in single precision; the model requires every component to be
    non-zero instead. */
module AaBoundingBoxes {
  import opened Numerics

  datatype AaBoundingBox = AaBoundingBox(lowerBound: Vec3, upperBound: Vec3)

  predicate NonZero(d: Vec3) {
    d.x != 0.0 && d.y != 0.0 && d.z != 0.0
  }

  /** The per-axis parameters at which the ray's line crosses the two
      planes of each slab. */
  function Crossings(bound: Vec3, origin: Vec3, dir: Vec3): Vec3
    requires NonZero(dir)
  {
    Div(Sub(bound, origin), dir)
  }

  /** The latest slab entry. */
  function Entry(b: AaBoundingBox, origin: Vec3, dir: Vec3): real
    requires NonZero(dir)
  {
    var tmin := MinV(Crossings(b.lowerBound, origin, dir), Crossings(b.upperBound, origin, dir));
    Max(tmin.x, Max(tmin.y, tmin.z))
  }

  /** The earliest slab exit. */
  function Exit(b: AaBoundingBox, origin: Vec3, dir: Vec3): real
    requires NonZero(dir)
  {
    var tmax := MaxV(Crossings(b.lowerBound, origin, dir), Crossings(b.upperBound, origin, dir));
    Min(tmax.x, Min(tmax.y, tmax.z))
  }

  /** x lies strictly between a and b, in whichever order they come. */
  predicate Between(a: real, x: real, b: real) {
    Min(a, b) < x < Max(a, b)
  }

  /** The point origin + t dir lies in the open box spanned by the two
      corners, whichever corner is the lower one. */
  ghost predicate InsideAt(b: AaBoundingBox, origin: Vec3, dir: Vec3, t: real) {
    var p := Add(origin, Scale(dir, t));
    && Between(b.lowerBound.x, p.x, b.upperBound.x)
    && Between(b.lowerBound.y, p.y, b.upperBound.y)
    && Between(b.lowerBound.z, p.z, b.upperBound.z)
  }

  /** Some point of the line through `origin` along `dir` lies inside the
      box. */
  ghost predicate LineMeetsBox(b: AaBoundingBox, origin: Vec3, dir: Vec3) {
    exists t :: InsideAt(b, origin, dir, t)
  }

  /** RayIntersects: the slab test. It answers whether the whole line (not
      only the half-line ahead of the origin) passes through the inside of
      the box. */
  function RayIntersects(b: AaBoundingBox, origin: Vec3, dir: Vec3): (hit: bool)
    requires NonZero(dir)
    ensures hit <==> LineMeetsBox(b, origin, dir)
  {
    SlabTest(b, origin, dir);
    var vt1 := Div(Sub(b.lowerBound, origin), dir);
    var vt2 := Div(Sub(b.upperBound, origin), dir);
    var tmin := MinV(vt1, vt2);
    var tmax := MaxV(vt1, vt2);
    var t0 := Max(tmin.x, Max(tmin.y, tmin.z));
    var t1 := Min(tmax.x, Min(tmax.y, tmax.z));
    t0 < t1
  }

  /** For a non-zero d, o + d t lies strictly between lo and hi exactly when
      t lies strictly between the parameters at which the line crosses them. */
  lemma AxisBetween(lo: real, hi: real, o: real, d: real, t: real, p: real, c1: real, c2: real)
    requires d != 0.0
    requires p == o + d * t && c1 == (lo - o) / d && c2 == (hi - o) / d
    ensures Between(lo, p, hi) <==> Between(c1, t, c2)
  {
    CrossingOrder(lo, o, d, t);
    CrossingOrder(hi, o, d, t);
    if 0.0 < d {
      assert (c1 < t <==> lo < p) && (t < c1 <==> p < lo);
      assert (c2 < t <==> hi < p) && (t < c2 <==> p < hi);
    } else {
      assert (c1 < t <==> p < lo) && (t < c1 <==> lo < p);
      assert (c2 < t <==> p < hi) && (t < c2 <==> hi < p);
    }
  }

  /** Where the line o + d t sits relative to the plane `bound`, read off
      from the crossing parameter (bound - o) / d. */
  lemma CrossingOrder(bound: real, o: real, d: real, t: real)
    requires d != 0.0
    ensures 0.0 < d ==> ((bound - o) / d < t <==> bound < o + d * t)
    ensures 0.0 < d ==> (t < (bound - o) / d <==> o + d * t < bound)
    ensures d < 0.0 ==> ((bound - o) / d < t <==> o + d * t < bound)
    ensures d < 0.0 ==> (t < (bound - o) / d <==> bound < o + d * t)
  {
    var c := (bound - o) / d;
    assert d * c == bound - o;
    MulStrict(d, c, t);
    MulStrict(d, t, c);
  }

  /** Multiplying by d keeps a strict order when d > 0 and reverses it when
      d < 0. */
  lemma MulStrict(d: real, a: real, b: real)
    ensures 0.0 < d && a < b ==> d * a < d * b
    ensures d < 0.0 && a < b ==> d * b < d * a
  {
    if a < b {
      assert d * b - d * a == d * (b - a);
      if 0.0 < d {
        MulPositive(d, b - a);
      } else if d < 0.0 {
        MulPositive(-d, b - a);
      }
    }
  }

  /** The line's point at t is inside the box exactly when t comes after
      every slab entry and before every slab exit. */
  lemma InsideAtIff(b: AaBoundingBox, origin: Vec3, dir: Vec3, t: real)
    requires NonZero(dir)
    ensures InsideAt(b, origin, dir, t) <==> Entry(b, origin, dir) < t < Exit(b, origin, dir)
  {
    var lo, hi := b.lowerBound, b.upperBound;
    var v1, v2 := Crossings(lo, origin, dir), Crossings(hi, origin, dir);
    var p := Add(origin, Scale(dir, t));
    AxisBetween(lo.x, hi.x, origin.x, dir.x, t, p.x, v1.x, v2.x);
    AxisBetween(lo.y, hi.y, origin.y, dir.y, t, p.y, v1.y, v2.y);
    AxisBetween(lo.z, hi.z, origin.z, dir.z, t, p.z, v1.z, v2.z);
    AllBetween(v1, v2, t);
  }

  /** t is after the largest of the three lower ends and before the smallest
      of the three upper ends exactly when it is strictly inside each pair. */
  lemma AllBetween(v1: Vec3, v2: Vec3, t: real)
    ensures var tmin, tmax := MinV(v1, v2), MaxV(v1, v2);
      (Max(tmin.x, Max(tmin.y, tmin.z)) < t < Min(tmax.x, Min(tmax.y, tmax.z)))
      <==> (Between(v1.x, t, v2.x) && Between(v1.y, t, v2.y) && Between(v1.z, t, v2.z))
  {
  }

  /** The slab test is exact: the latest entry precedes the earliest exit
      exactly when some point of the line is inside the box. */
  lemma SlabTest(b: AaBoundingBox, origin: Vec3, dir: Vec3)
    requires NonZero(dir)
    ensures Entry(b, origin, dir) < Exit(b, origin, dir) <==> LineMeetsBox(b, origin, dir)
  {
    var t0, t1 := Entry(b, origin, dir), Exit(b, origin, dir);
    if t0 < t1 {
      var t := (t0 + t1) / 2.0;
      InsideAtIff(b, origin, dir, t);
    }
    if LineMeetsBox(b, origin, dir) {
      var t :| InsideAt(b, origin, dir, t);
      InsideAtIff(b, origin, dir, t);
    }
  }

  // ---------------------------------------------------------------------
  // Properties

  /** Which corner is called lower does not matter. */
  lemma SwapBoundsInvariant(b: AaBoundingBox, origin: Vec3, dir: Vec3)
    requires NonZero(dir)
    ensures RayIntersects(AaBoundingBox(b.upperBound, b.lowerBound), origin, dir) == RayIntersects(b, origin, dir)
  {
  }

  lemma DivNegate(a: real, d: real)
    requires d != 0.0
    ensures a / (-d) == -(a / d)
  {
  }

  lemma CrossingsNegate(bound: Vec3, origin: Vec3, dir: Vec3)
    requires NonZero(dir)
    ensures Crossings(bound, origin, Neg(dir)) == Neg(Crossings(bound, origin, dir))
  {
    var a := Sub(bound, origin);
    DivNegate(a.x, dir.x);
    DivNegate(a.y, dir.y);
    DivNegate(a.z, dir.z);
  }

  /** Reversing the ray swaps entry and exit and negates both: the test is
      about the whole line, so a box behind the origin is reported too. */
  lemma NegatedDirectionInvariant(b: AaBoundingBox, origin: Vec3, dir: Vec3)
    requires NonZero(dir)
    ensures Entry(b, origin, Neg(dir)) == -Exit(b, origin, dir)
    ensures Exit(b, origin, Neg(dir)) == -Entry(b, origin, dir)
    ensures RayIntersects(b, origin, Neg(dir)) == RayIntersects(b, origin, dir)
  {
    CrossingsNegate(b.lowerBound, origin, dir);
    CrossingsNegate(b.upperBound, origin, dir);
  }

  lemma QuotientSigns(a: real, c: real, d: real)
    requires d != 0.0
    requires a < 0.0 < c
    ensures Min(a / d, c / d) < 0.0 < Max(a / d, c / d)
  {
    if d > 0.0 {
      assert a / d < 0.0 && 0.0 < c / d;
    } else {
      assert a / d > 0.0 && 0.0 > c / d;
    }
  }

  /** A ray starting strictly inside the box meets it. */
  lemma InsideOriginHits(b: AaBoundingBox, origin: Vec3, dir: Vec3)
    requires NonZero(dir)
    requires b.lowerBound.x < origin.x < b.upperBound.x
    requires b.lowerBound.y < origin.y < b.upperBound.y
    requires b.lowerBound.z < origin.z < b.upperBound.z
    ensures RayIntersects(b, origin, dir)
  {
    var lo, hi := Sub(b.lowerBound, origin), Sub(b.upperBound, origin);
    QuotientSigns(lo.x, hi.x, dir.x);
    QuotientSigns(lo.y, hi.y, dir.y);
    QuotientSigns(lo.z, hi.z, dir.z);
  }

  /** A box with no volume is never met. */
  lemma DegenerateBoxMisses(b: AaBoundingBox, origin: Vec3, dir: Vec3)
    requires NonZero(dir)
    requires b.lowerBound == b.upperBound
    ensures !RayIntersects(b, origin, dir)
  {
  }
}
