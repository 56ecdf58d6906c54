/** The selection rule and the marching loop of the new kernel
    (Pathways/Shaders/RayMarchShader.cs, RayMarch). They are stated over
    abstract data: a step sees only the sequence of per-object distances at
    the current point, and the march sees only the function from the ray
    parameter t to that sequence. */
module RayMarchSelection {
  import opened Numerics

  /** RayMarchShader.MaxSteps */
  const MaxSteps: nat := 256

  /** The hit threshold, 0.001f. */
  const HitDistance: real := 0.001

  predicate InHitBand(d: real) {
    0.0 <= d < HitDistance
  }

  /** The outcome of one pass over the objects: the object hit, or the
      distance to advance. */
  datatype Pick = Hit(index: nat) | Miss(distance: real)

  /** No distance from position `from` on is negative. */
  predicate NoNegativeFrom(ds: seq<real>, from: int) {
    forall k :: from <= k < |ds| && 0 <= k ==> ds[k] >= 0.0
  }

  /** The inner loop from object j on, with `running` the minimum so far.
      The running minimum is at least 0.001 whenever an object is examined:
      it starts at float.MaxValue, a negative minimum is replaced by
      float.MaxValue, and a minimum below 0.001 is always the current
      object's own distance, which ends the loop with a hit. Hence the hit
      is the first object whose distance lies in [0, 0.001). */
  function ScanFrom(ds: seq<real>, j: nat, running: real): (r: Pick)
    requires j <= |ds|
    requires running >= HitDistance
    ensures r.Hit? ==> j <= r.index < |ds| && InHitBand(ds[r.index])
    ensures r.Hit? ==> forall i :: j <= i < r.index ==> !InHitBand(ds[i])
    ensures r.Miss? ==> HitDistance <= r.distance <= Max(running, BIG)
    ensures r.Miss? ==> forall i :: j <= i < |ds| ==> !InHitBand(ds[i])
    ensures r.Miss? && NoNegativeFrom(ds, j) ==> r.distance <= running
    ensures r.Miss? ==> forall i {:trigger NoNegativeFrom(ds, i)} :: j <= i < |ds| && NoNegativeFrom(ds, i) ==> r.distance <= ds[i]
    ensures r.Miss? ==>
      || (NoNegativeFrom(ds, j) && r.distance == running)
      || r.distance == BIG
      || exists i :: j <= i < |ds| && NoNegativeFrom(ds, i) && r.distance == ds[i]
    decreases |ds| - j
  {
    if j == |ds| then Miss(running)
    else
      var d := Min(running, ds[j]);
      var next := if d < 0.0 then BIG else d;
      if ds[j] == next && next < HitDistance then Hit(j)
      else ScanFrom(ds, j + 1, next)
  }

  /** One pass, starting from float.MaxValue. */
  function Scan(ds: seq<real>): (r: Pick)
    ensures r.Hit? <==> exists i :: 0 <= i < |ds| && InHitBand(ds[i])
    ensures r.Hit? ==> r.index < |ds| && InHitBand(ds[r.index])
    ensures r.Hit? ==> forall i :: 0 <= i < r.index ==> !InHitBand(ds[i])
    ensures r.Miss? ==> HitDistance <= r.distance <= BIG
    ensures r.Miss? ==> forall i {:trigger NoNegativeFrom(ds, i)} :: 0 <= i < |ds| && NoNegativeFrom(ds, i) ==> r.distance <= ds[i]
    ensures r.Miss? ==> r.distance == BIG || exists i :: 0 <= i < |ds| && NoNegativeFrom(ds, i) && r.distance == ds[i]
  {
    ScanFrom(ds, 0, BIG)
  }

  /** A negative distance makes the pass forget everything before it: the
      pass continues as if it started afresh after that object. */
  lemma NegativeForgetsPrefix(ds: seq<real>, k: nat)
    requires k < |ds| && ds[k] < 0.0
    requires forall i :: 0 <= i < k ==> !InHitBand(ds[i])
    ensures Scan(ds) == ScanFrom(ds, k + 1, BIG)
  {
    ForgetFrom(ds, 0, BIG, k);
  }

  lemma {:induction false} ForgetFrom(ds: seq<real>, j: nat, running: real, k: nat)
    requires j <= k < |ds| && ds[k] < 0.0
    requires running >= HitDistance
    requires forall i :: j <= i < k ==> !InHitBand(ds[i])
    ensures ScanFrom(ds, j, running) == ScanFrom(ds, k + 1, BIG)
    decreases k - j
  {
    var d := Min(running, ds[j]);
    var next := if d < 0.0 then BIG else d;
    if j < k {
      assert !InHitBand(ds[j]);
      ForgetFrom(ds, j + 1, next, k);
    }
  }

  /** The forgetting discards smaller distances: after 0.5 and then -1 the
      pass advances by float.MaxValue, not by 0.5. */
  lemma NegativeDiscardsSmaller()
    ensures Scan([0.5, -1.0]) == Miss(BIG)
  {
    assert ScanFrom([0.5, -1.0], 2, BIG) == Miss(BIG);
    assert ScanFrom([0.5, -1.0], 1, 0.5) == Miss(BIG);
  }

  /** The outcome of the whole march. */
  datatype Outcome = Struck(step: nat, t: real, index: nat) | Exhausted(t: real)

  // ---------------------------------------------------------------------
  // The path of the ray parameter, for either kernel's pass

  /** One pass's effect on the ray parameter: a miss advances t by the
      pass's step, a hit leaves t where it is. */
  function Advance(scan: seq<real> -> Pick, sample: real -> seq<real>, t: real): real {
    match scan(sample(t))
    case Hit(_) => t
    case Miss(d) => t + d
  }

  /** The ray parameter after n passes starting from t. */
  function Trajectory(scan: seq<real> -> Pick, sample: real -> seq<real>, t: real, n: nat): real
    decreases n
  {
    if n == 0 then t else Trajectory(scan, sample, Advance(scan, sample, t), n - 1)
  }

  /** The first n passes starting from t all miss. */
  ghost predicate MissesFor(scan: seq<real> -> Pick, sample: real -> seq<real>, t: real, n: nat) {
    forall k :: 0 <= k < n ==> scan(sample(Trajectory(scan, sample, t, k))).Miss?
  }

  /** After a miss, the path from t is the path from the advanced parameter,
      one pass later, and its first n + 1 passes miss exactly when the first
      n passes from the advanced parameter do. */
  lemma {:induction false} TrajectoryAfterMiss(scan: seq<real> -> Pick, sample: real -> seq<real>, t: real, n: nat)
    requires scan(sample(t)).Miss?
    ensures Trajectory(scan, sample, t, n + 1) == Trajectory(scan, sample, Advance(scan, sample, t), n)
    ensures MissesFor(scan, sample, t, n + 1) <==> MissesFor(scan, sample, Advance(scan, sample, t), n)
  {
    var u := Advance(scan, sample, t);
    forall k | 0 <= k < n
      ensures Trajectory(scan, sample, t, k + 1) == Trajectory(scan, sample, u, k)
    {
    }
    if MissesFor(scan, sample, u, n) {
      forall k | 0 <= k < n + 1
        ensures scan(sample(Trajectory(scan, sample, t, k))).Miss?
      {
        if k > 0 {
          assert Trajectory(scan, sample, t, k) == Trajectory(scan, sample, u, k - 1);
        }
      }
    }
    if MissesFor(scan, sample, t, n + 1) {
      forall k | 0 <= k < n
        ensures scan(sample(Trajectory(scan, sample, u, k))).Miss?
      {
        assert Trajectory(scan, sample, t, k + 1) == Trajectory(scan, sample, u, k);
      }
    }
  }

  /** The empty path stays at its start and has no missed pass to show. */
  lemma StartOfPath(scan: seq<real> -> Pick, sample: real -> seq<real>, t: real)
    ensures Trajectory(scan, sample, t, 0) == t && MissesFor(scan, sample, t, 0)
  {
  }

  /** One missed pass: whatever the march from the advanced parameter
      reports about its own path holds of the path from t, one pass longer. */
  lemma MarchAfterMiss(scan: seq<real> -> Pick, sample: real -> seq<real>, t: real, step: nat, limit: nat, r: Outcome)
    requires scan(sample(t)).Miss? && step < limit
    requires r.Struck? ==> step + 1 <= r.step
    requires r.Struck? ==>
      r.t == Trajectory(scan, sample, Advance(scan, sample, t), r.step - (step + 1))
      && MissesFor(scan, sample, Advance(scan, sample, t), r.step - (step + 1))
    requires r.Exhausted? ==>
      r.t == Trajectory(scan, sample, Advance(scan, sample, t), limit - (step + 1))
      && MissesFor(scan, sample, Advance(scan, sample, t), limit - (step + 1))
    ensures r.Struck? ==> r.t == Trajectory(scan, sample, t, r.step - step) && MissesFor(scan, sample, t, r.step - step)
    ensures r.Exhausted? ==> r.t == Trajectory(scan, sample, t, limit - step) && MissesFor(scan, sample, t, limit - step)
  {
    TrajectoryAfterMiss(scan, sample, t, if r.Struck? then r.step - step - 1 else limit - step - 1);
  }

  // ---------------------------------------------------------------------
  // The march

  /** The outer loop from step `step` with ray parameter t. Each step either
      hits or advances t by the pass's minimum, which is at least 0.001. The
      march stops at the first pass that hits, after every earlier pass
      missed; it is exhausted only when every remaining pass missed. */
  function MarchFrom(sample: real -> seq<real>, t: real, step: nat): (r: Outcome)
    requires step <= MaxSteps
    ensures r.Struck? ==> step <= r.step < MaxSteps
    ensures r.Struck? ==> t + (r.step - step) as real * HitDistance <= r.t
    ensures r.Struck? ==> Scan(sample(r.t)) == Hit(r.index) && r.index < |sample(r.t)|
    ensures r.Exhausted? ==> t + (MaxSteps - step) as real * HitDistance <= r.t
    decreases MaxSteps - step
  {
    if step == MaxSteps then Exhausted(t)
    else
      match Scan(sample(t))
      case Hit(k) => Struck(step, t, k)
      case Miss(d) => MarchFrom(sample, t + d, step + 1)
  }

  /** The outer loop over an arbitrary pass, with `limit` passes in all;
      each kernel's march is this walk with its own pass and limit. */
  function Walk(scan: seq<real> -> Pick, sample: real -> seq<real>, t: real, step: nat, limit: nat): Outcome
    requires step <= limit
    decreases limit - step
  {
    if step == limit then Exhausted(t)
    else
      match scan(sample(t))
      case Hit(k) => Struck(step, t, k)
      case Miss(d) => Walk(scan, sample, t + d, step + 1, limit)
  }

  /** The walk follows the ray's path: it stops on the path at the first
      pass that hits, every earlier pass having missed, and is exhausted at
      the path's end only when every remaining pass missed. */
  lemma {:induction false} WalkFollowsPath(scan: seq<real> -> Pick, sample: real -> seq<real>, t: real, step: nat, limit: nat)
    requires step <= limit
    ensures var r := Walk(scan, sample, t, step, limit);
      r.Struck? ==> step <= r.step < limit && scan(sample(r.t)) == Hit(r.index)
    ensures var r := Walk(scan, sample, t, step, limit);
      r.Struck? ==> r.t == Trajectory(scan, sample, t, r.step - step) && MissesFor(scan, sample, t, r.step - step)
    ensures var r := Walk(scan, sample, t, step, limit);
      r.Exhausted? ==> r.t == Trajectory(scan, sample, t, limit - step) && MissesFor(scan, sample, t, limit - step)
    decreases limit - step
  {
    StartOfPath(scan, sample, t);
    if step < limit && scan(sample(t)).Miss? {
      var d := scan(sample(t)).distance;
      WalkFollowsPath(scan, sample, t + d, step + 1, limit);
      MarchAfterMiss(scan, sample, t, step, limit, Walk(scan, sample, t + d, step + 1, limit));
    }
  }

  /** The march from step `step` is the walk with this kernel's pass and
      256 passes in all. */
  lemma {:induction false} MarchFromIsWalk(sample: real -> seq<real>, t: real, step: nat)
    requires step <= MaxSteps
    ensures MarchFrom(sample, t, step) == Walk(Scan, sample, t, step, MaxSteps)
    decreases MaxSteps - step
  {
    if step < MaxSteps && Scan(sample(t)).Miss? {
      MarchFromIsWalk(sample, t + Scan(sample(t)).distance, step + 1);
    }
  }

  /** The march from step `step` walks the ray's path (WalkFollowsPath). */
  lemma MarchFromFollowsPath(sample: real -> seq<real>, t: real, step: nat)
    requires step <= MaxSteps
    ensures var r := MarchFrom(sample, t, step);
      r.Struck? ==> r.t == Trajectory(Scan, sample, t, r.step - step) && MissesFor(Scan, sample, t, r.step - step)
    ensures var r := MarchFrom(sample, t, step);
      r.Exhausted? ==> r.t == Trajectory(Scan, sample, t, MaxSteps - step) && MissesFor(Scan, sample, t, MaxSteps - step)
  {
    MarchFromIsWalk(sample, t, step);
    WalkFollowsPath(Scan, sample, t, step, MaxSteps);
  }

  /** The march from t = 0: at most 256 passes, t never decreasing, ending
      at the first pass that hits. */
  function March(sample: real -> seq<real>): (r: Outcome)
    ensures r.Struck? ==> r.step < MaxSteps && 0.0 <= r.t && Scan(sample(r.t)) == Hit(r.index)
    ensures r.Struck? ==> r.t == Trajectory(Scan, sample, 0.0, r.step) && MissesFor(Scan, sample, 0.0, r.step)
    ensures r.Exhausted? ==> MaxSteps as real * HitDistance <= r.t
    ensures r.Exhausted? ==> r.t == Trajectory(Scan, sample, 0.0, MaxSteps) && MissesFor(Scan, sample, 0.0, MaxSteps)
  {
    MarchFromFollowsPath(sample, 0.0, 0);
    MarchFrom(sample, 0.0, 0)
  }

  /** If every pass along the ray finds nothing in the hit band, the march
      ends without a hit. */
  lemma NoBandNoHit(sample: real -> seq<real>)
    requires forall t, i :: 0 <= i < |sample(t)| ==> !InHitBand(sample(t)[i])
    ensures March(sample).Exhausted?
  {
  }

  /** None of the first n passes along the ray's path sees a distance in the
      hit band. */
  ghost predicate NoBandAlong(sample: real -> seq<real>, n: nat) {
    forall k, i :: 0 <= k < n && 0 <= i < |sample(Trajectory(Scan, sample, 0.0, k))| ==>
      !InHitBand(sample(Trajectory(Scan, sample, 0.0, k))[i])
  }

  /** The march runs out of steps exactly when none of the 256 passes along
      the ray's path sees a distance in the hit band. */
  lemma ExhaustedIffNoBand(sample: real -> seq<real>)
    ensures March(sample).Exhausted? <==> NoBandAlong(sample, MaxSteps)
  {
    var r := March(sample);
    if r.Struck? {
      var ds := sample(Trajectory(Scan, sample, 0.0, r.step));
      assert ds == sample(r.t);
      assert r.index < |ds| && InHitBand(ds[r.index]);
    } else {
      forall k, i | 0 <= k < MaxSteps && 0 <= i < |sample(Trajectory(Scan, sample, 0.0, k))|
        ensures !InHitBand(sample(Trajectory(Scan, sample, 0.0, k))[i])
      {
        var ds := sample(Trajectory(Scan, sample, 0.0, k));
        assert Scan(ds).Miss?;
      }
    }
  }
}
