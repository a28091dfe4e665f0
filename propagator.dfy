/** R3BTPropagator: moves a tracking particle to a detector plane. Outside the field the
    move is a straight line through LineIntersectPlane; inside it the particle is stepped
    by a Runge-Kutta integrator (a parameter here) until the residual stop rule fires.
    The backward routines are the forward procedure with the field planes exchanged, the
    boundary normals negated and the last two plane points swapped. */
module Propagator {
  import opened Vectors
  import opened PropagatorGeometry

  /** What one OneStepRungeKutta call yields: the path length of the step and the new
      position and momentum (the direction cosines are folded into the momentum). */
  datatype RKOut = RKOut(length: real, position: Vec3, momentum: Vec3)

  /** The integrator: (charge, step size, position, momentum) to the step's outcome. */
  type Stepper = (real, real, Vec3, Vec3) -> RKOut

  /** Position, momentum and accumulated path length of a particle. */
  datatype Kinematics = Kinematics(position: Vec3, momentum: Vec3, length: real)

  /** A double as the residual can produce it: finite, +infinity or NaN (the residual
      divides by the initial distance to the plane, which may be zero). */
  datatype Ext = Finite(v: real) | PosInf | NaN

  /** The stop residual of the RK loop: the magnitude of the component-wise product of
      the offset from the plane point with the plane normal, over the initial signed
      distance, in absolute value; x/0 is +infinity for x > 0 and NaN for x == 0. */
  function Residual(dist: Vec3, norm: Vec3, diff: real, mag: Vec3 -> NonNegReal): (r: Ext)
    ensures r.Finite? <==> diff != 0.0
    ensures r.Finite? ==> r.v >= 0.0
    ensures r.NaN? <==> diff == 0.0 && mag(Hadamard(dist, norm)) == 0.0
  {
    var distance := mag(Hadamard(dist, norm));
    if diff != 0.0 then Finite(Abs(distance / diff))
    else if distance > 0.0 then PosInf
    else NaN
  }

  /** `a < b` on doubles: false whenever a is NaN or infinite. */
  predicate Less(a: Ext, b: real)
  {
    a.Finite? && a.v < b
  }

  /** `a > b` on doubles: false whenever either side is NaN; +infinity exceeds every
      finite value and not itself. */
  predicate Greater(a: Ext, b: Ext)
  {
    match a
    case NaN => false
    case PosInf => b.Finite?
    case Finite(x) => b.Finite? && x > b.v
  }

  /** The loop's exit test: converged, or moved away from the plane again. */
  predicate Stops(res: Ext, resOld: Ext)
  {
    Less(res, 0.001) || Greater(res, resOld)
  }

  /** The outcome of the RK loop: success, the final kinematics, the kinematics before the
      last step, the step count and the last two residuals compared. */
  datatype RKResult = RKResult(ok: bool, state: Kinematics, prev: Kinematics, steps: nat, res: Ext, resOld: Ext)

  /** One integrator step applied to the particle: new position and momentum, and the
      step's length added to the path. */
  function RKStep(rk: Stepper, charge: real, step: real, s: Kinematics): Kinematics
  {
    var o := rk(charge, step, s.position, s.momentum);
    Kinematics(o.position, o.momentum, s.length + o.length)
  }

  /** The particle after `k` more steps of the loop, the first of size `step` and every
      later one of size 1.0. */
  function RKTrail(rk: Stepper, charge: real, step: real, s: Kinematics, k: nat): Kinematics
    decreases k
  {
    if k == 0 then s else RKTrail(rk, charge, 1.0, RKStep(rk, charge, step, s), k - 1)
  }

  /** The residual the loop computes after its `k`-th step (k >= 1). */
  function TrailResidual(rk: Stepper, mag: Vec3 -> NonNegReal, charge: real, v1: Vec3, norm: Vec3,
                         diff: real, step: real, s: Kinematics, k: nat): Ext
  {
    Residual(Sub(RKTrail(rk, charge, step, s, k).position, v1), norm, diff, mag)
  }

  /** The residual the `k`-th step is compared against: `resOld` for the first step, the
      residual of the step before otherwise. */
  function PreviousResidual(rk: Stepper, mag: Vec3 -> NonNegReal, charge: real, v1: Vec3, norm: Vec3,
                            diff: real, step: real, s: Kinematics, resOld: Ext, k: nat): Ext
  {
    if k <= 1 then resOld else TrailResidual(rk, mag, charge, v1, norm, diff, step, s, k - 1)
  }

  /** The RK loop from step number `nStep` on: take a step, compute the residual, stop on
      success, fail after step 1001, otherwise continue with step size 1. The last step starts
      from `r.prev` (which is `s` when it is the first) and its residual is compared with
      `resOld` when it is the first step and with the residual at `r.prev` otherwise. */
  function RKLoop(rk: Stepper, mag: Vec3 -> NonNegReal, charge: real, v1: Vec3, norm: Vec3,
                  diff: real, step: real, s: Kinematics, resOld: Ext, nStep: nat): (r: RKResult)
    requires nStep <= 1000
    ensures nStep < r.steps <= 1001
    ensures r.steps == nStep + 1 ==> r.prev == s && r.resOld == resOld
    ensures r.state == RKStep(rk, charge, if r.steps == nStep + 1 then step else 1.0, r.prev)
    ensures r.steps > nStep + 1 ==> r.resOld == Residual(Sub(r.prev.position, v1), norm, diff, mag)
    ensures r.res == Residual(Sub(r.state.position, v1), norm, diff, mag)
    ensures r.ok <==> Stops(r.res, r.resOld)
    ensures !r.ok ==> r.steps == 1001
    decreases 1000 - nStep
  {
    var s' := RKStep(rk, charge, step, s);
    var n := nStep + 1;
    var res := Residual(Sub(s'.position, v1), norm, diff, mag);
    if Stops(res, resOld) then RKResult(true, s', s, n, res, resOld)
    else if n > 1000 then RKResult(false, s', s, n, res, resOld)
    else RKLoop(rk, mag, charge, v1, norm, diff, 1.0, s', res, n)
  }

  /** The loop follows the trail: the last step starts from the particle after
      `r.steps - nStep - 1` steps and ends at the particle after `r.steps - nStep`. */
  lemma {:induction false} RKLoopFollowsTrail(rk: Stepper, mag: Vec3 -> NonNegReal, charge: real, v1: Vec3,
                                              norm: Vec3, diff: real, step: real, s: Kinematics,
                                              resOld: Ext, nStep: nat)
    requires nStep <= 1000
    ensures var r := RKLoop(rk, mag, charge, v1, norm, diff, step, s, resOld, nStep);
            r.prev == RKTrail(rk, charge, step, s, r.steps - nStep - 1) &&
            r.state == RKTrail(rk, charge, step, s, r.steps - nStep)
    decreases 1000 - nStep
  {
    var r := RKLoop(rk, mag, charge, v1, norm, diff, step, s, resOld, nStep);
    var s' := RKStep(rk, charge, step, s);
    var res := Residual(Sub(s'.position, v1), norm, diff, mag);
    TrailFirst(rk, charge, step, s);
    if !Stops(res, resOld) && nStep + 1 <= 1000 {
      var r' := RKLoop(rk, mag, charge, v1, norm, diff, 1.0, s', res, nStep + 1);
      assert r == r';
      RKLoopFollowsTrail(rk, mag, charge, v1, norm, diff, 1.0, s', res, nStep + 1);
      var j := r.steps - nStep;
      assert RKTrail(rk, charge, step, s, j) == RKTrail(rk, charge, 1.0, s', j - 1);
      assert RKTrail(rk, charge, step, s, j - 1) == RKTrail(rk, charge, 1.0, s', j - 2);
    }
  }

  /** The loop stops at its first chance: no step before the last met the stop test
      against the residual before it. */
  lemma {:induction false} RKLoopNoEarlierStop(rk: Stepper, mag: Vec3 -> NonNegReal, charge: real, v1: Vec3,
                                               norm: Vec3, diff: real, step: real, s: Kinematics,
                                               resOld: Ext, nStep: nat)
    requires nStep <= 1000
    ensures var r := RKLoop(rk, mag, charge, v1, norm, diff, step, s, resOld, nStep);
            forall k | 1 <= k < r.steps - nStep ::
              !Stops(TrailResidual(rk, mag, charge, v1, norm, diff, step, s, k),
                     PreviousResidual(rk, mag, charge, v1, norm, diff, step, s, resOld, k))
    decreases 1000 - nStep
  {
    var r := RKLoop(rk, mag, charge, v1, norm, diff, step, s, resOld, nStep);
    var s' := RKStep(rk, charge, step, s);
    var res := Residual(Sub(s'.position, v1), norm, diff, mag);
    if !Stops(res, resOld) && nStep + 1 <= 1000 {
      var r' := RKLoop(rk, mag, charge, v1, norm, diff, 1.0, s', res, nStep + 1);
      assert r == r';
      RKLoopNoEarlierStop(rk, mag, charge, v1, norm, diff, 1.0, s', res, nStep + 1);
      NoEarlierStopShift(rk, mag, charge, v1, norm, diff, step, s, resOld, r.steps - nStep);
    }
  }

  /** If the first step did not stop and none of steps 1 .. j - 2 after it did, then none of
      steps 1 .. j - 1 from `s` did. */
  lemma NoEarlierStopShift(rk: Stepper, mag: Vec3 -> NonNegReal, charge: real, v1: Vec3, norm: Vec3,
                           diff: real, step: real, s: Kinematics, resOld: Ext, j: nat)
    requires j >= 2
    requires var s' := RKStep(rk, charge, step, s);
             var res := Residual(Sub(s'.position, v1), norm, diff, mag);
             !Stops(res, resOld) &&
             forall k | 1 <= k < j - 1 ::
               !Stops(TrailResidual(rk, mag, charge, v1, norm, diff, 1.0, s', k),
                      PreviousResidual(rk, mag, charge, v1, norm, diff, 1.0, s', res, k))
    ensures forall k | 1 <= k < j ::
              !Stops(TrailResidual(rk, mag, charge, v1, norm, diff, step, s, k),
                     PreviousResidual(rk, mag, charge, v1, norm, diff, step, s, resOld, k))
  {
    forall k | 1 <= k < j
      ensures !Stops(TrailResidual(rk, mag, charge, v1, norm, diff, step, s, k),
                     PreviousResidual(rk, mag, charge, v1, norm, diff, step, s, resOld, k))
    {
      TrailShift(rk, mag, charge, v1, norm, diff, step, s, resOld, k);
      if k == 1 {
        TrailFirst(rk, charge, step, s);
      }
    }
  }

  /** One step of the trail is one loop step. */
  lemma TrailFirst(rk: Stepper, charge: real, step: real, s: Kinematics)
    ensures RKTrail(rk, charge, step, s, 0) == s
    ensures RKTrail(rk, charge, step, s, 1) == RKStep(rk, charge, step, s)
  {
    assert RKTrail(rk, charge, step, s, 1) == RKTrail(rk, charge, 1.0, RKStep(rk, charge, step, s), 0);
  }

  /** Step `k` of the trail from `s` is step `k - 1` of the trail from the particle after one
      step, and so are its residual and the residual it is compared with. */
  lemma TrailShift(rk: Stepper, mag: Vec3 -> NonNegReal, charge: real, v1: Vec3, norm: Vec3,
                   diff: real, step: real, s: Kinematics, resOld: Ext, k: nat)
    requires k >= 1
    ensures var s' := RKStep(rk, charge, step, s);
            var res := Residual(Sub(s'.position, v1), norm, diff, mag);
            RKTrail(rk, charge, step, s, k) == RKTrail(rk, charge, 1.0, s', k - 1) &&
            TrailResidual(rk, mag, charge, v1, norm, diff, step, s, k)
              == TrailResidual(rk, mag, charge, v1, norm, diff, 1.0, s', k - 1) &&
            (k >= 2 ==> PreviousResidual(rk, mag, charge, v1, norm, diff, step, s, resOld, k)
                        == PreviousResidual(rk, mag, charge, v1, norm, diff, 1.0, s', res, k - 1))
  {
    var s' := RKStep(rk, charge, step, s);
    if k >= 2 {
      assert RKTrail(rk, charge, step, s, k - 1) == RKTrail(rk, charge, 1.0, s', k - 2);
      if k == 2 {
        TrailFirst(rk, charge, step, s);
      }
    }
  }

  /** PropagateToPlaneRK: the loop started with step 0.01 and previous residual 100,
      against the plane through the three target points. */
  function PropagateRK(rk: Stepper, mag: Vec3 -> NonNegReal, charge: real, s: Kinematics,
                       target: Triple): (r: RKResult)
    ensures 1 <= r.steps <= 1001
    ensures !r.ok ==> r.steps == 1001
    ensures r.steps == 1 ==> r.prev == s && r.resOld == Finite(100.0)
    ensures r.state == RKStep(rk, charge, if r.steps == 1 then 0.01 else 1.0, r.prev)
    ensures var norm := PlaneNormal(target, mag);
            var diff := Dot(Sub(s.position, target.p0), norm);
            (r.steps > 1 ==> r.resOld == Residual(Sub(r.prev.position, target.p0), norm, diff, mag)) &&
            r.res == Residual(Sub(r.state.position, target.p0), norm, diff, mag) &&
            (r.ok <==> Stops(r.res, r.resOld))
  {
    var norm := PlaneNormal(target, mag);
    var diff := Dot(Sub(s.position, target.p0), norm);
    RKLoop(rk, mag, charge, target.p0, norm, diff, 0.01, s, Finite(100.0), 0)
  }

  /** PropagateToPlaneRK stops at its first step whose residual is below 0.001 or above the
      residual of the step before (100 before the first): no earlier step met that test. */
  lemma PropagateRKStopsFirst(rk: Stepper, mag: Vec3 -> NonNegReal, charge: real, s: Kinematics,
                              target: Triple)
    ensures var r := PropagateRK(rk, mag, charge, s, target);
            var norm := PlaneNormal(target, mag);
            var diff := Dot(Sub(s.position, target.p0), norm);
            r.state == RKTrail(rk, charge, 0.01, s, r.steps) &&
            forall k | 1 <= k < r.steps ::
              !Stops(TrailResidual(rk, mag, charge, target.p0, norm, diff, 0.01, s, k),
                     PreviousResidual(rk, mag, charge, target.p0, norm, diff, 0.01, s, Finite(100.0), k))
  {
    var norm := PlaneNormal(target, mag);
    var diff := Dot(Sub(s.position, target.p0), norm);
    RKLoopFollowsTrail(rk, mag, charge, target.p0, norm, diff, 0.01, s, Finite(100.0), 0);
    RKLoopNoEarlierStop(rk, mag, charge, target.p0, norm, diff, 0.01, s, Finite(100.0), 0);
  }

  /** If every integrator step travels exactly the step size it is given, the loop adds
      the first step size once and 1.0 for every later step to the path. */
  lemma {:induction false} RKLoopLength(rk: Stepper, mag: Vec3 -> NonNegReal, charge: real, v1: Vec3,
                                        norm: Vec3, diff: real, step: real, s: Kinematics,
                                        resOld: Ext, nStep: nat)
    requires nStep <= 1000
    requires forall c, h, x, m :: rk(c, h, x, m).length == h
    ensures var r := RKLoop(rk, mag, charge, v1, norm, diff, step, s, resOld, nStep);
            r.state.length == s.length + step + (r.steps - nStep - 1) as real
    decreases 1000 - nStep
  {
    var s' := RKStep(rk, charge, step, s);
    var res := Residual(Sub(s'.position, v1), norm, diff, mag);
    if !Stops(res, resOld) && nStep + 1 <= 1000 {
      RKLoopLength(rk, mag, charge, v1, norm, diff, 1.0, s', res, nStep + 1);
    }
  }

  /** The step sizes of PropagateToPlaneRK: 0.01 first, 1.0 afterwards. */
  lemma RKStepSizes(rk: Stepper, mag: Vec3 -> NonNegReal, charge: real, s: Kinematics, target: Triple)
    requires forall c, h, x, m :: rk(c, h, x, m).length == h
    ensures var r := PropagateRK(rk, mag, charge, s, target);
            r.state.length == s.length + 0.01 + (r.steps - 1) as real
  {
    var norm := PlaneNormal(target, mag);
    RKLoopLength(rk, mag, charge, target.p0, norm, Dot(Sub(s.position, target.p0), norm),
                 0.01, s, Finite(100.0), 0);
  }

  /** With an integrator that never travels backwards, the RK loop never shortens the
      path. */
  lemma {:induction false} RKLoopMonotone(rk: Stepper, mag: Vec3 -> NonNegReal, charge: real, v1: Vec3,
                                          norm: Vec3, diff: real, step: real, s: Kinematics,
                                          resOld: Ext, nStep: nat)
    requires nStep <= 1000
    requires forall c, h, x, m :: rk(c, h, x, m).length >= 0.0
    ensures RKLoop(rk, mag, charge, v1, norm, diff, step, s, resOld, nStep).state.length >= s.length
    decreases 1000 - nStep
  {
    var s' := RKStep(rk, charge, step, s);
    var res := Residual(Sub(s'.position, v1), norm, diff, mag);
    if !Stops(res, resOld) && nStep + 1 <= 1000 {
      RKLoopMonotone(rk, mag, charge, v1, norm, diff, 1.0, s', res, nStep + 1);
    }
  }

  /** For a plane perpendicular to z the residual's numerator is the plane distance. */
  lemma ResidualAxisAligned(d: Vec3, mag: Vec3 -> NonNegReal)
    requires IsMag(mag)
    ensures mag(Hadamard(d, Vec3(0.0, 0.0, 1.0))) == Abs(Dot(d, Vec3(0.0, 0.0, 1.0)))
  {
    var h := Hadamard(d, Vec3(0.0, 0.0, 1.0));
    assert h == Vec3(0.0, 0.0, d.z);
    assert mag(h) * mag(h) == Dot(h, h);
    assert Abs(d.z) * Abs(d.z) == d.z * d.z;
    SquareRootUnique(mag(h), Abs(d.z));
  }

  /** For a plane tilted about y (cosine 0.6, sine 0.8) the residual's numerator does not
      vanish on the plane: an offset lying in the plane has zero signed distance but a
      non-zero component-wise product with the normal. */
  lemma ResidualTiltedPlane(mag: Vec3 -> NonNegReal)
    requires IsMag(mag)
    ensures Dot(Vec3(0.6, 0.0, -0.8), Vec3(0.8, 0.0, 0.6)) == 0.0
    ensures mag(Hadamard(Vec3(0.6, 0.0, -0.8), Vec3(0.8, 0.0, 0.6))) > 0.0
  {
    var h := Hadamard(Vec3(0.6, 0.0, -0.8), Vec3(0.8, 0.0, 0.6));
    assert h == Vec3(0.48, 0.0, -0.48);
    assert mag(h) * mag(h) == Dot(h, h) == 0.4608;
    PositiveFromSquare(mag(h), 0.4608);
  }

  lemma PositiveFromSquare(m: real, d: real)
    requires m >= 0.0 && m * m == d && d > 0.0
    ensures m > 0.0
  {
    ZeroSquare(m);
  }

  lemma ZeroSquare(m: real)
    ensures m == 0.0 ==> m * m == 0.0
  {
  }

  /** Which return statement of the routine was taken. */
  datatype Exit = AlreadyOnPlane | StraightToTarget | RKToTarget | RKFailed | StraightAfterField | Missed

  /** A routine's result: its return value, the particle afterwards and the exit taken. */
  datatype Outcome = Outcome(ok: bool, state: Kinematics, exit: Exit)

  /** SetPosition followed by AddStep of the distance moved. */
  function MoveTo(s: Kinematics, p: Vec3, mag: Vec3 -> NonNegReal): (r: Kinematics)
    ensures r.position == p && r.momentum == s.momentum
    ensures r.length >= s.length
  {
    Kinematics(p, s.momentum, s.length + mag(Sub(p, s.position)))
  }

  /** The straight move to a target nearer than the field entrance, as written: the
      crossing result is ignored, so when the target is not ahead the particle is moved
      to the stale `intersect` (the entrance point) and success is reported. */
  function StraightToTargetAsWritten(s: Kinematics, v1: Vec3, norm: Vec3, intersect: Vec3,
                                     mag: Vec3 -> NonNegReal): (r: Outcome)
    ensures r.ok
    ensures !LineIntersectPlane(s.position, s.momentum, v1, norm, intersect).crossed
            ==> r.state.position == intersect
  {
    var c := LineIntersectPlane(s.position, s.momentum, v1, norm, intersect);
    Outcome(true, MoveTo(s, c.intersect, mag), StraightToTarget)
  }

  /** A straight move onto the target plane with the crossing result checked: the particle
      moves only when the target plane lies ahead, and then ends on it. `tag` names the exit:
      StraightToTarget for the move before the field (the corrected form of the written
      code), StraightAfterField for the final move after it. */
  function StraightMoveChecked(s: Kinematics, v1: Vec3, norm: Vec3, intersect: Vec3,
                               mag: Vec3 -> NonNegReal, tag: Exit): (r: Outcome)
    ensures r.ok <==> LineIntersectPlane(s.position, s.momentum, v1, norm, intersect).crossed
    ensures r.exit == if r.ok then tag else Missed
    ensures r.ok ==> Dot(Sub(r.state.position, v1), norm) == 0.0
    ensures r.ok ==> r.state.momentum == s.momentum
    ensures r.ok ==> r.state.length == s.length + mag(Sub(r.state.position, s.position))
    ensures !r.ok ==> r.state == s
  {
    var c := LineIntersectPlane(s.position, s.momentum, v1, norm, intersect);
    if c.crossed then Outcome(true, MoveTo(s, c.intersect, mag), tag)
    else Outcome(false, s, Missed)
  }

  /** A particle at the origin flying along +z, a field entrance at z = 100 and a target
      plane at z = -10 behind it: the written code reports success with the particle on
      the entrance plane, 110 away from the target. */
  lemma StaleIntersectAccepted(mag: Vec3 -> NonNegReal)
    ensures var s := Kinematics(Zero, Vec3(0.0, 0.0, 1.0), 0.0);
            var entry := LineIntersectPlane(s.position, s.momentum, Vec3(0.0, 0.0, 100.0),
                                            Vec3(0.0, 0.0, 1.0), Zero);
            var r := StraightToTargetAsWritten(s, Vec3(0.0, 0.0, -10.0), Vec3(0.0, 0.0, 1.0),
                                               entry.intersect, mag);
            entry.crossed && r.ok && r.state.position == Vec3(0.0, 0.0, 100.0)
            && !OnPlane(r.state.position, Vec3(0.0, 0.0, -10.0), Vec3(0.0, 0.0, 1.0))
            && !StraightMoveChecked(s, Vec3(0.0, 0.0, -10.0), Vec3(0.0, 0.0, 1.0),
                                    entry.intersect, mag, StraightToTarget).ok
  {
    var z := Vec3(0.0, 0.0, 1.0);
    var s := Kinematics(Zero, z, 0.0);
    var gate := Vec3(0.0, 0.0, 100.0);
    var v1 := Vec3(0.0, 0.0, -10.0);
    assert Dot(z, z) == 1.0;
    assert Dot(Sub(gate, Zero), z) == 100.0;
    assert RayPoint(Zero, z, 100.0) == gate;
    var entry := LineIntersectPlane(s.position, s.momentum, gate, z, Zero);
    assert entry == Crossing(true, gate);
    assert Dot(Sub(v1, Zero), z) == -10.0;
    var target := LineIntersectPlane(s.position, s.momentum, v1, z, gate);
    assert target == Crossing(false, gate);
    var r := StraightToTargetAsWritten(s, v1, z, gate, mag);
    assert r.state.position == gate;
    assert Dot(Sub(gate, v1), z) == 110.0;
  }

  /** The three-region procedure shared by PropagateToPlane and PropagateToPlaneBackward:
      `entry` and `entryN` are the plane the particle enters the field through, `exit` and
      `exitN` the plane it leaves by, `target` the detector plane. A target nearer than the
      entrance is reached by the checked straight move, not the code's unchecked one
      (StraightToTargetAsWritten). */
  function Route(rk: Stepper, mag: Vec3 -> NonNegReal, charge: real, s: Kinematics,
                 entry: Vec3, entryN: Vec3, exit: Triple, exitN: Vec3, target: Triple): (r: Outcome)
    ensures r.exit == AlreadyOnPlane <==> OnPlane(s.position, target.p0, PlaneNormal(target, mag))
    ensures r.exit == AlreadyOnPlane ==> r.ok && r.state == s
    ensures r.ok <==> r.exit in {AlreadyOnPlane, StraightToTarget, RKToTarget, StraightAfterField}
    ensures r.exit in {StraightToTarget, StraightAfterField}
            ==> Dot(Sub(r.state.position, target.p0), PlaneNormal(target, mag)) == 0.0
    ensures r.exit == StraightToTarget
            ==> r.state.momentum == s.momentum
                && r.state.length == s.length + mag(Sub(r.state.position, s.position))
  {
    var v1 := target.p0;
    var norm := PlaneNormal(target, mag);
    if OnPlane(s.position, v1, norm) then Outcome(true, s, AlreadyOnPlane)
    else
      var c1 := LineIntersectPlane(s.position, s.momentum, entry, entryN, Zero);
      if c1.crossed && mag(Sub(v1, s.position)) < mag(Sub(entry, s.position)) then
        StraightMoveChecked(s, v1, norm, c1.intersect, mag, StraightToTarget)
      else
        var s1 := if c1.crossed then MoveTo(s, c1.intersect, mag) else s;
        AfterEntry(rk, mag, charge, s1, c1.intersect, exit, exitN, target)
  }

  /** The part of the route after the field entrance: through the field by RK to the target
      when it is nearer than the exit plane, otherwise by RK to the exit plane, and then
      straight to the target. `intersect` is the caller's variable, as the entrance test
      left it. */
  function AfterEntry(rk: Stepper, mag: Vec3 -> NonNegReal, charge: real, s: Kinematics, intersect: Vec3,
                      exit: Triple, exitN: Vec3, target: Triple): (r: Outcome)
    ensures r.exit in {RKToTarget, RKFailed, StraightAfterField, Missed}
    ensures r.ok <==> r.exit in {RKToTarget, StraightAfterField}
    ensures r.exit == StraightAfterField
            ==> Dot(Sub(r.state.position, target.p0), PlaneNormal(target, mag)) == 0.0
  {
    var v1 := target.p0;
    var norm := PlaneNormal(target, mag);
    var c2 := LineIntersectPlane(s.position, s.momentum, exit.p0, exitN, intersect);
    if c2.crossed && mag(Sub(v1, s.position)) < mag(Sub(exit.p0, s.position)) then
      var rr := PropagateRK(rk, mag, charge, s, target);
      Outcome(rr.ok, rr.state, if rr.ok then RKToTarget else RKFailed)
    else if c2.crossed then
      var rr := PropagateRK(rk, mag, charge, s, exit);
      if !rr.ok then Outcome(false, rr.state, RKFailed)
      else StraightMoveChecked(rr.state, v1, norm, c2.intersect, mag, StraightAfterField)
    else StraightMoveChecked(s, v1, norm, c2.intersect, mag, StraightAfterField)
  }

  /** PropagateToPlane: enter through plane 1, leave through plane 2. */
  function Forward(rk: Stepper, mag: Vec3 -> NonNegReal, charge: real, b: Boundaries,
                   s: Kinematics, target: Triple): Outcome
  {
    Route(rk, mag, charge, s, b.plane1.p0, b.norm1, b.plane2, b.norm2, target)
  }

  /** PropagateToPlaneBackward: enter through plane 2 against its normal, leave through
      plane 1, with the last two points of every plane swapped. */
  function Backward(rk: Stepper, mag: Vec3 -> NonNegReal, charge: real, b: Boundaries,
                    s: Kinematics, target: Triple): Outcome
  {
    Route(rk, mag, charge, s, b.plane2.p0, Neg(b.norm2), Swapped(b.plane1), Neg(b.norm1), Swapped(target))
  }

  /** With an integrator that never travels backwards, a propagation never shortens the
      path: each straight move adds a distance and each RK step a non-negative length. */
  lemma {:induction false} RouteMonotone(rk: Stepper, mag: Vec3 -> NonNegReal, charge: real, s: Kinematics,
                                         entry: Vec3, entryN: Vec3, exit: Triple, exitN: Vec3, target: Triple)
    requires forall c, h, x, m :: rk(c, h, x, m).length >= 0.0
    ensures Route(rk, mag, charge, s, entry, entryN, exit, exitN, target).state.length >= s.length
  {
    var v1 := target.p0;
    var norm := PlaneNormal(target, mag);
    if !OnPlane(s.position, v1, norm) {
      var c1 := LineIntersectPlane(s.position, s.momentum, entry, entryN, Zero);
      if !(c1.crossed && mag(Sub(v1, s.position)) < mag(Sub(entry, s.position))) {
        var s1 := if c1.crossed then MoveTo(s, c1.intersect, mag) else s;
        AfterEntryMonotone(rk, mag, charge, s1, c1.intersect, exit, exitN, target);
      }
    }
  }

  lemma {:induction false} AfterEntryMonotone(rk: Stepper, mag: Vec3 -> NonNegReal, charge: real, s: Kinematics,
                                              intersect: Vec3, exit: Triple, exitN: Vec3, target: Triple)
    requires forall c, h, x, m :: rk(c, h, x, m).length >= 0.0
    ensures AfterEntry(rk, mag, charge, s, intersect, exit, exitN, target).state.length >= s.length
  {
    var v1 := target.p0;
    var c2 := LineIntersectPlane(s.position, s.momentum, exit.p0, exitN, intersect);
    if c2.crossed && mag(Sub(v1, s.position)) < mag(Sub(exit.p0, s.position)) {
      var tn := PlaneNormal(target, mag);
      RKLoopMonotone(rk, mag, charge, target.p0, tn, Dot(Sub(s.position, target.p0), tn),
                     0.01, s, Finite(100.0), 0);
    } else if c2.crossed {
      var en := PlaneNormal(exit, mag);
      RKLoopMonotone(rk, mag, charge, exit.p0, en, Dot(Sub(s.position, exit.p0), en),
                     0.01, s, Finite(100.0), 0);
    }
  }

  /** The backward routine sees the same entrance crossing as a forward test of the same
      plane, and its target normal is the forward target normal reversed. */
  lemma {:induction false} BackwardMirrorsForward(mag: Vec3 -> NonNegReal, b: Boundaries, pos: Vec3,
                                                  mom: Vec3, target: Triple)
    requires IsMag(mag)
    ensures LineIntersectPlane(pos, mom, b.plane2.p0, Neg(b.norm2), Zero)
         == LineIntersectPlane(pos, mom, b.plane2.p0, b.norm2, Zero)
    ensures PlaneNormal(Swapped(target), mag) == Neg(PlaneNormal(target, mag))
  {
    assert Neg(b.norm2) == Scale(b.norm2, -1.0);
    IntersectIgnoresNormalScale(pos, mom, b.plane2.p0, b.norm2, Zero, -1.0);
    SwappedNormalIsNegated(target, mag);
  }

  /** R3BTrackingParticle, reduced to the state the propagator reads and writes. */
  class TrackingParticle {
    var position: Vec3
    var momentum: Vec3
    /** The accumulated path length (AddStep). */
    var length: real
    const charge: real

    function State(): Kinematics
      reads this
    {
      Kinematics(position, momentum, length)
    }

    constructor (position0: Vec3, momentum0: Vec3, charge0: real)
      ensures State() == Kinematics(position0, momentum0, 0.0) && charge == charge0
    {
      position := position0;
      momentum := momentum0;
      length := 0.0;
      charge := charge0;
    }
  }

  class TPropagator {
    /** fPlane1, fPlane2, fNorm1, fNorm2. */
    const bounds: Boundaries
    const mag: Vec3 -> NonNegReal
    /** FairRKPropagator::OneStepRungeKutta over the field map. */
    const rk: Stepper

    /** The constructor: the entrance and exit planes of the field box and their normals. */
    constructor (field: FieldBox, mag0: Vec3 -> NonNegReal, rk0: Stepper)
      ensures bounds == FieldBoundaries(field, mag0) && mag == mag0 && rk == rk0
      ensures bounds.norm1 == bounds.norm2
    {
      bounds := FieldBoundaries(field, mag0);
      mag := mag0;
      rk := rk0;
      BoundaryNormalsEqual(field, mag0);
    }

    /** PropagateToPlaneRK. */
    method PropagateToPlaneRK(p: TrackingParticle, v1: Vec3, v2: Vec3, v3: Vec3) returns (ok: bool)
      modifies p
      ensures var r := PropagateRK(rk, mag, p.charge, old(p.State()), Triple(v1, v2, v3));
              ok == r.ok && p.State() == r.state
    {
      var nStep := 0;
      var norm := PlaneNormal(Triple(v1, v2, v3), mag);
      var dist := Sub(p.position, v1);
      var diff := Dot(dist, norm);
      var step := 0.01;
      var resOld := Finite(100.0);
      ghost var goal := RKLoop(rk, mag, p.charge, v1, norm, diff, step, p.State(), resOld, 0);
      while true
        invariant nStep <= 1000
        invariant RKLoop(rk, mag, p.charge, v1, norm, diff, step, p.State(), resOld, nStep) == goal
        decreases 1000 - nStep
      {
        ghost var before := p.State();
        var out := rk(p.charge, step, p.position, p.momentum);
        p.position := out.position;
        p.momentum := out.momentum;
        p.length := p.length + out.length;
        assert p.State() == RKStep(rk, p.charge, step, before);
        nStep := nStep + 1;
        dist := Sub(p.position, v1);
        var res := Residual(dist, norm, diff, mag);
        if Less(res, 0.001) || Greater(res, resOld) {
          break;
        }
        resOld := res;
        step := 1.0;
        if nStep > 1000 {
          return false;
        }
      }
      return true;
    }

    /** SetPosition to the point, then AddStep of the distance moved. */
    method MoveParticle(p: TrackingParticle, point: Vec3)
      modifies p
      ensures p.State() == MoveTo(old(p.State()), point, mag)
    {
      var step := mag(Sub(point, p.position));
      p.position := point;
      p.length := p.length + step;
    }

    /** The body shared by PropagateToPlane and PropagateToPlaneBackward, with the checked
        straight move of Route. */
    method Propagate(p: TrackingParticle, entry: Vec3, entryN: Vec3, exit: Triple, exitN: Vec3,
                     target: Triple) returns (ok: bool)
      modifies p
      ensures var r := Route(rk, mag, p.charge, old(p.State()), entry, entryN, exit, exitN, target);
              ok == r.ok && p.State() == r.state
    {
      var v1 := target.p0;
      var norm := PlaneNormal(target, mag);
      if OnPlane(p.position, v1, norm) {
        return true;
      }
      var intersect := Zero;
      var crossing := LineIntersectPlane(p.position, p.momentum, entry, entryN, intersect);
      intersect := crossing.intersect;
      if crossing.crossed {
        if mag(Sub(v1, p.position)) < mag(Sub(entry, p.position)) {
          crossing := LineIntersectPlane(p.position, p.momentum, v1, norm, intersect);
          if !crossing.crossed {
            return false;
          }
          MoveParticle(p, crossing.intersect);
          return true;
        }
        MoveParticle(p, intersect);
      }
      ok := PropagateAfterEntry(p, intersect, exit, exitN, target);
    }

    /** The part after the field entrance, from the exit-plane test on. */
    method PropagateAfterEntry(p: TrackingParticle, intersect: Vec3, exit: Triple, exitN: Vec3,
                               target: Triple) returns (ok: bool)
      modifies p
      ensures var r := AfterEntry(rk, mag, p.charge, old(p.State()), intersect, exit, exitN, target);
              ok == r.ok && p.State() == r.state
    {
      var v1 := target.p0;
      var norm := PlaneNormal(target, mag);
      var crossing := LineIntersectPlane(p.position, p.momentum, exit.p0, exitN, intersect);
      var intersect := crossing.intersect;
      if crossing.crossed {
        if mag(Sub(v1, p.position)) < mag(Sub(exit.p0, p.position)) {
          ok := PropagateToPlaneRK(p, target.p0, target.p1, target.p2);
          return;
        }
        var result := PropagateToPlaneRK(p, exit.p0, exit.p1, exit.p2);
        if !result {
          return false;
        }
      }
      crossing := LineIntersectPlane(p.position, p.momentum, v1, norm, intersect);
      if crossing.crossed {
        MoveParticle(p, crossing.intersect);
        return true;
      }
      return false;
    }

    /** PropagateToPlane. */
    method PropagateToPlane(p: TrackingParticle, v1: Vec3, v2: Vec3, v3: Vec3) returns (ok: bool)
      modifies p
      ensures var r := Forward(rk, mag, p.charge, bounds, old(p.State()), Triple(v1, v2, v3));
              ok == r.ok && p.State() == r.state
    {
      ok := Propagate(p, bounds.plane1.p0, bounds.norm1, bounds.plane2, bounds.norm2, Triple(v1, v2, v3));
    }

    /** PropagateToPlaneBackward. */
    method PropagateToPlaneBackward(p: TrackingParticle, v1: Vec3, v2: Vec3, v3: Vec3) returns (ok: bool)
      modifies p
      ensures var r := Backward(rk, mag, p.charge, bounds, old(p.State()), Triple(v1, v2, v3));
              ok == r.ok && p.State() == r.state
    {
      ok := Propagate(p, bounds.plane2.p0, Neg(bounds.norm2), Swapped(bounds.plane1), Neg(bounds.norm1),
                      Swapped(Triple(v1, v2, v3)));
    }
  }
}
