# R3BRoot fragment tracking and ROLU hit calibration, in Dafny

This project models three parts of the R3BRoot analysis of the S494 experiment. It proves
properties of each model.

- **R3BFragmentTrackerS494::Exec** runs once per event. It tries two charge hypotheses in turn:
  charge 6 (carbon), then charge 2 (helium). For each hypothesis it loops over the hits of the
  time-of-flight wall (ToFD) that carry the requested charge and are still free. For each such
  hit it enumerates every combination of free hits in the fibre detectors on the matching side
  of the setup:
  - left: fi30, fi32, fi23b, fi23a;
  - right: fi33, fi31, fi23b, fi23a.

  An external momentum fitter fits each combination. A candidate is kept when its fit status
  is below 10. A fit whose momentum is NaN is meant to be dropped; as written, the loop then
  refits the same combination forever (see "## Findings"), and the model drops it. The first candidate of least chi² is
  accepted when that chi² is at most 1e5. The accepted candidate's hits are then marked used,
  and a track record is appended. Modules: `TrackerModel` (values and specification),
  `FragmentTrackerS494` (the imperative tracker, proved equal to the specification),
  `TrackerProperties` and `TrackerFindings`.
- **R3BTPropagator** moves a tracking particle to a detector plane. Outside the dipole field it
  moves in a straight line, using `LineIntersectPlane`. Inside the field it takes
  Runge–Kutta steps until a residual test stops it. The backward routine is the same
  three-region procedure, with the field planes exchanged and the normals reversed. Modules:
  `PropagatorGeometry` (intersection, plane normals, the field's boundary planes) and
  `Propagator` (the RK loop, the forward and backward routes, and the class).
- **R3BRoluCal2Hit::Exec** turns calibrated ROLU items into hit records, four channels per item.
  Each record carries the leading time and the time-over-threshold (ToT). Before the ToT is
  taken, the trailing time is moved forward by whole 2048-cycle periods of the coarse counter
  until it lies after the leading time. Module: `RoluCal2Hit`.

Shared modules: `Wrappers` (`Option`) and `Vectors` (`Vec3` algebra, standing in for TVector3).

Modelling choices:
- Doubles are `real`. NaN is `None`.
- C++'s double-to-int conversion is `Trunc`, truncation toward zero.
- The simulated charge `(int)(sqrt(e) * 22.678 + 0.5)` is computed without a square root. It is
  the integer `r` with `(r - 0.5)² ≤ e·22.678² < (r + 0.5)²`.
  `TrackerProperties.SimChargeIsRoundedRoot` proves that this equals the rounded root.
- These are parameters of the model:
  - the momentum fitter;
  - the Runge–Kutta stepper;
  - the vector magnitude `mag` (the lemmas that need it require `mag(v)² = v·v`);
  - the VFTX clock frequency;
  - the field box.

Where the design description and the code differ, the model follows the code, with one
exception: at the three sites listed under "## Findings" the code as written is evidently
wrong, and there the event model (`TrackerModel`, `FragmentTrackerS494`) and the propagation
model (`Propagator.Route` and the class) follow the intended behaviour. The code as written at
those sites is modelled beside them, in `TrackerFindings` and `Propagator`, and "## Left out"
names every member this affects. The other differences:
- The RK stop residual is described as the signed distance to the plane over the initial
  distance. The code takes the magnitude of the component-wise product of the offset and the
  normal (`R3BTPropagator.cxx:346`). `Propagator.ResidualAxisAligned` shows the two agree for a
  plane perpendicular to z. `Propagator.ResidualTiltedPlane` shows they differ for a tilted
  plane.
- Pooled candidates are described as freed when a hypothesis is rejected. In the code, the
  `continue` at `R3BFragmentTrackerS494.cxx:904` skips the cleanup, so the rejected pool is
  carried into the next hypothesis. `TrackerProperties.StaleNeverWins` and
  `TrackerProperties.HypothesisOutcome` show that such a carried-over candidate can never win.

## Model

| member | source | states |
|---|---|---|
| RoluCal2Hit.ShiftCount | rolu/R3BRoluCal2Hit.cxx:207-210 | the number of periods the wrap loop adds is the least count that puts the trailing time after the leading time; it is zero exactly when the trailing time is already later |
| RoluCal2Hit.ShiftCountLeast | rolu/R3BRoluCal2Hit.cxx:207-210 | no smaller count of periods than ShiftCount carries the trailing time past the leading time |
| RoluCal2Hit.ShiftTrailing | rolu/R3BRoluCal2Hit.cxx:207-210 | the wrap loop ends with the trailing time after the leading time, moved by exactly ShiftCount periods, less than one period later when it had to move, and unchanged when it did not |
| RoluCal2Hit.Tot | rolu/R3BRoluCal2Hit.cxx:204-213 | a ToT exists exactly when both times are present and positive; it is then positive, at most one period when wrapping was needed, and the plain difference otherwise |
| RoluCal2Hit.HitsOf | rolu/R3BRoluCal2Hit.cxx:184-220 | every calibrated item yields exactly four hit records |
| RoluCal2Hit.HitsOfAppend | rolu/R3BRoluCal2Hit.cxx:184-220 | the records of items followed by one more item are the records of the items followed by that item's four records |
| RoluCal2Hit.HitsOfLayout | rolu/R3BRoluCal2Hit.cxx:192-219 | record 4·p + ch holds item p's detector, channel ch + 1, its leading time and its channel's ToT |
| RoluCal2Hit.InitArray | rolu/R3BRoluCal2Hit.cxx:41-50 | every element of the work array is set to the initial value |
| RoluCal2Hit.CalibrateChannel | rolu/R3BRoluCal2Hit.cxx:195-213 | the slot receives the leading time and the ToT of the channel; no other slot of any work array changes |
| RoluCal2Hit.CalibrateItem | rolu/R3BRoluCal2Hit.cxx:189-220 | the channel loop emits the item's four records in channel order and leaves the slots of later items NaN |
| RoluCal2Hit.RoluCal2Hit.constructor | rolu/R3BRoluCal2Hit.cxx:54-60 | the clock period in ns is 1000 / VFTX_CLOCK_MHZ and the hit list starts empty |
| RoluCal2Hit.RoluCal2Hit.Exec | rolu/R3BRoluCal2Hit.cxx:133-227 | the event's hit list grows by exactly the records of all calibrated items in order, the counter by four per item, and the call count by one |
| RoluCal2Hit.RoluCal2Hit.FinishEvent | rolu/R3BRoluCal2Hit.cxx:229-237 | the hit list and its counter are reset |
| PropagatorGeometry.LineIntersectPlane | tracking/R3BTPropagator.cxx:370-392 | a crossing is reported exactly when the track is not parallel to the plane and the plane lies ahead; the reported point is on the plane; otherwise the caller's intersect is left as it was |
| PropagatorGeometry.IntersectIsTheCrossingPoint | tracking/R3BTPropagator.cxx:370-392 | any point ahead on a non-parallel track that lies on the plane is the one reported |
| PropagatorGeometry.IntersectIgnoresNormalScale | tracking/R3BTPropagator.cxx:214 | scaling the normal by any non-zero factor, including the -1 of the backward routine, changes no crossing |
| PropagatorGeometry.PlaneNormalIsUnitAndPerpendicular | tracking/R3BTPropagator.cxx:92 | the normal of a non-degenerate plane has length one and is perpendicular to both spanning vectors |
| PropagatorGeometry.SwappedNormalIsNegated | tracking/R3BTPropagator.cxx:202 | the backward target normal, built from the swapped points, is the forward normal negated |
| PropagatorGeometry.BoundarySpanIndependentOfDepth | tracking/R3BTPropagator.cxx:36-48 | the spanning vectors of a field boundary plane do not depend on its depth |
| PropagatorGeometry.BoundaryNormalsEqual | tracking/R3BTPropagator.cxx:49-50 | fNorm1 equals fNorm2: the entrance and exit planes are parallel |
| PropagatorGeometry.BoundaryCross | tracking/R3BTPropagator.cxx:36-50 | the cross product behind each boundary normal is the rotated beam axis scaled by twice the half width times the half height |
| PropagatorGeometry.BoundaryNormalIsBeamAxis | tracking/R3BTPropagator.cxx:34-50 | for a proper rotation and a box of positive size, both boundary normals are the rotated beam axis (sin, 0, cos) |
| PropagatorGeometry.BoundaryDepth | tracking/R3BTPropagator.cxx:34-48 | the exit plane lies zmax − zmin beyond the entrance plane along the beam axis |
| Propagator.Residual | tracking/R3BTPropagator.cxx:345-347 | the residual is a finite non-negative number exactly when the initial distance is non-zero, and NaN exactly when both distances are zero |
| Propagator.RKLoop | tracking/R3BTPropagator.cxx:328-365 | the loop takes at least one and at most 1001 steps; its last step goes from `prev` (the start when it is the first step, taken with the given step size, and 1.0 otherwise); the residual it reports is that of the final position, and the residual it is compared against is the given one for the first step and the previous position's otherwise; it succeeds exactly when that comparison stops the loop and fails only after step 1001 |
| Propagator.RKLoopFollowsTrail | tracking/R3BTPropagator.cxx:328-365 | the loop's last two positions are the trail of steps from the start (first step with the given size, then 1.0) at the step counts it took |
| Propagator.RKLoopNoEarlierStop | tracking/R3BTPropagator.cxx:345-358 | no step before the last one satisfied the stop test against its predecessor's residual |
| Propagator.PropagateRK | tracking/R3BTPropagator.cxx:302-368 | PropagateToPlaneRK takes between 1 and 1001 steps, the first of size 0.01 and the rest of size 1.0; the first is compared against the residual 100 and every later one against its predecessor's; it succeeds exactly when that comparison stops it and fails only after 1001 |
| Propagator.PropagateRKStopsFirst | tracking/R3BTPropagator.cxx:302-368 | PropagateToPlaneRK ends on the trail of steps from the start (0.01, then 1.0) at its step count, and no earlier step of that trail met the stop test |
| Propagator.RKLoopLength | tracking/R3BTPropagator.cxx:321-358 | with a stepper that travels its step size, the path grows by the first step plus 1.0 per later step |
| Propagator.RKStepSizes | tracking/R3BTPropagator.cxx:321-358 | the first step is 0.01 and every later one 1.0 |
| Propagator.RKLoopMonotone | tracking/R3BTPropagator.cxx:330-341 | with a stepper that never travels backwards, the loop never shortens the path |
| Propagator.ResidualAxisAligned | tracking/R3BTPropagator.cxx:346-347 | for a plane perpendicular to z the residual's numerator is the distance to the plane |
| Propagator.ResidualTiltedPlane | tracking/R3BTPropagator.cxx:346-347 | for a tilted plane an offset lying in the plane has a non-zero residual numerator |
| Propagator.MoveTo | tracking/R3BTPropagator.cxx:112-114 | the particle is placed on the point, keeps its momentum, and its path does not shrink |
| Propagator.AfterEntry | tracking/R3BTPropagator.cxx:133-194 | after the entrance, the route ends by RK to a target nearer than the exit plane, by RK failure, by a straight move after the field, or as a miss; it succeeds exactly on the RK-to-target and straight exits, and the straight exit lands on the target plane |
| Propagator.AfterEntryMonotone | tracking/R3BTPropagator.cxx:133-194 | with a stepper that never travels backwards, the part after the entrance never shortens the path |
| Propagator.StraightToTargetAsWritten | tracking/R3BTPropagator.cxx:111-115 | as written, the straight move to a near target always reports success, and lands on the stale intersect when the target is not ahead |
| Propagator.StraightMoveChecked | tracking/R3BTPropagator.cxx:111-115 | corrected form of the move before the field, and the final move after it (176-194): success exactly when the target lies ahead, then the particle is on the target plane with its momentum kept and the distance added to its path, under the given exit tag; otherwise nothing changes and the exit is Missed |
| Propagator.StaleIntersectAccepted | tracking/R3BTPropagator.cxx:102-115 | a target behind the particle, nearer than the field entrance, is reported reached while the particle sits 110 away on the entrance plane |
| Propagator.Route | tracking/R3BTPropagator.cxx:87-195 | the AlreadyOnPlane exit is taken exactly when the particle already lies on the target plane, and it then succeeds with the state unchanged; success exactly on the four successful exits; a straight exit ends on the target plane; the straight move to a near target keeps the momentum and adds the distance moved to the path length |
| Propagator.RouteMonotone | tracking/R3BTPropagator.cxx:87-195 | no propagation shortens the path |
| Propagator.BackwardMirrorsForward | tracking/R3BTPropagator.cxx:202-214 | the backward routine's entrance test with the reversed normal crosses exactly as the forward test, and its target normal is the forward one reversed |
| Propagator.TPropagator.constructor | tracking/R3BTPropagator.cxx:34-50 | the field planes are the rotated and shifted box corners, and the two normals are equal |
| Propagator.TPropagator.PropagateToPlaneRK | tracking/R3BTPropagator.cxx:302-368 | the method's result and the particle's new state are those of PropagateRK, so (PropagateRKStopsFirst) it ends at the first step of the 0.01-then-1.0 trail whose residual falls below 0.001 or rises above its predecessor's, or fails after 1001 steps |
| Propagator.TPropagator.Propagate | tracking/R3BTPropagator.cxx:87-195 | the method's result and the particle's new state are those of Route |
| Propagator.TPropagator.MoveParticle | tracking/R3BTPropagator.cxx:126-128 | the particle's new state is MoveTo of its old state: placed on the point with the distance added to its path |
| Propagator.TPropagator.PropagateAfterEntry | tracking/R3BTPropagator.cxx:133-194 | the method's result and the particle's new state are those of AfterEntry |
| Propagator.TPropagator.PropagateToPlane | tracking/R3BTPropagator.cxx:87-195 | the forward routine is Route through plane 1 then plane 2 |
| Propagator.TPropagator.PropagateToPlaneBackward | tracking/R3BTPropagator.cxx:197-300 | the backward routine is Route through plane 2 then plane 1, with reversed normals and swapped points |
| TrackerModel.SimChargeFrom | tracking/R3BFragmentTrackerS494.cxx:483 | the simulated charge r satisfies (r − 0.5)² ≤ e·22.678² < (r + 0.5)² |
| TrackerModel.Select | tracking/R3BFragmentTrackerS494.cxx:878-901 | the scan finds nothing exactly when every chi² is at least 1e10, and otherwise the first candidate of least chi² |
| TrackerModel.Consume | tracking/R3BFragmentTrackerS494.cxx:906-920 | consumption marks used exactly the winner's hits (fi23a, fi23b, its own side's two fibres, ToFD) and changes nothing else |
| TrackerModel.ProcessHypothesis | tracking/R3BFragmentTrackerS494.cxx:478-1157 | a hypothesis only uses up hits, keeps the event count, and either leaves flags and tracks alone or appends one track of the requested charge |
| TrackerModel.HypothesesUpTo | tracking/R3BFragmentTrackerS494.cxx:453-475 | the hypotheses for charges 6 and 2 add at most one track each, carrying charge 6 or 2, and only use up hits |
| TrackerModel.ProcessEvent | tracking/R3BFragmentTrackerS494.cxx:231-1172 | an event over the combination limit changes nothing but the cleared pool and is not counted; otherwise it is counted and adds at most two tracks |
| TrackerModel.CandidatesInRange | tracking/R3BFragmentTrackerS494.cxx:518-870 | every candidate's hit indices exist in their detectors |
| TrackerModel.CandidateProvenance | tracking/R3BFragmentTrackerS494.cxx:478-870 | every pooled candidate has a ToF hit of the requested charge, on the side its x sign selects, uses only free hits, and is the kept fit of its own combination |
| TrackerModel.TofFitsSound | tracking/R3BFragmentTrackerS494.cxx:478-870 | the same for the candidates of the first n ToF hits |
| TrackerModel.TofCandidatesSound | tracking/R3BFragmentTrackerS494.cxx:493-525 | a ToF hit contributes only when its charge matches and it is free, and each side only for its own sign of x |
| TrackerModel.SideFitsSound | tracking/R3BFragmentTrackerS494.cxx:543-693 | a side contributes only its own combinations with that ToF hit, with free hits only, kept from their fit |
| TrackerModel.OuterFitsSound | tracking/R3BFragmentTrackerS494.cxx:543-693 | the outer loop contributes only combinations whose outer and second fibre hits are free |
| TrackerModel.SecondFitsSound | tracking/R3BFragmentTrackerS494.cxx:553-687 | the second loop contributes only combinations whose second fibre hit is free |
| TrackerModel.Fi23bFitsSound | tracking/R3BFragmentTrackerS494.cxx:563-681 | the fi23b loop contributes only combinations with free fi23b and fi23a hits |
| TrackerModel.Fi23aFitsSound | tracking/R3BFragmentTrackerS494.cxx:574-675 | the fi23a loop contributes only kept fits of combinations with a free fi23a hit |
| TrackerProperties.Fi23aFitsComplete | tracking/R3BFragmentTrackerS494.cxx:574-675 | the fi23a loop pools every free hit whose fit is kept |
| TrackerProperties.Fi23bFitsComplete | tracking/R3BFragmentTrackerS494.cxx:563-681 | the fi23b loop pools every free pair whose fit is kept |
| TrackerProperties.SecondFitsComplete | tracking/R3BFragmentTrackerS494.cxx:553-687 | the second loop pools every free triple whose fit is kept |
| TrackerProperties.OuterFitsComplete | tracking/R3BFragmentTrackerS494.cxx:543-693 | the outer loop pools every free combination whose fit is kept |
| TrackerProperties.SideFitsComplete | tracking/R3BFragmentTrackerS494.cxx:699-865 | a side pools every one of its combinations whose upstream hits are free and whose fit is kept |
| TrackerProperties.TofFitsComplete | tracking/R3BFragmentTrackerS494.cxx:478-871 | the ToF loop pools every all-free combination of the right charge and side whose fit is kept |
| TrackerProperties.CandidatesComplete | tracking/R3BFragmentTrackerS494.cxx:478-871 | the converse of CandidateProvenance: every such combination is in the pool |
| TrackerProperties.SimChargeIsRoundedRoot | tracking/R3BFragmentTrackerS494.cxx:483 | the simulated charge is the floor of sqrt(e)·22.678 + 0.5 |
| TrackerProperties.TruncPositive | tracking/R3BFragmentTrackerS494.cxx:489-494 | an experimental hit has charge q ≥ 1 exactly when its energy loss lies in [q, q + 1) |
| TrackerProperties.TruncTowardZero | tracking/R3BFragmentTrackerS494.cxx:489 | the conversion keeps the sign and moves toward zero by less than one |
| TrackerProperties.FirstMinUnique | tracking/R3BFragmentTrackerS494.cxx:889-896 | the first minimum of a pool is unique |
| TrackerProperties.RejectedAllAbove | tracking/R3BFragmentTrackerS494.cxx:903-904 | a rejected pool holds only candidates with chi² above 1e5 |
| TrackerProperties.StaleNeverWins | tracking/R3BFragmentTrackerS494.cxx:878-904 | when a pool with a carried-over rejected part is accepted, the winner is the first best of the new candidates |
| TrackerProperties.CandidatesAllFree | tracking/R3BFragmentTrackerS494.cxx:518-870 | every new candidate uses free hits only |
| TrackerProperties.HypothesisOutcome | tracking/R3BFragmentTrackerS494.cxx:878-1057 | a hypothesis records a track exactly when its own candidates include one with chi² ≤ 1e5; the track is that first best candidate's, its hits were free and are the ones consumed, and the pool is cleared; the carried-over pool stays free and rejected |
| TrackerProperties.HypothesisRejected | tracking/R3BFragmentTrackerS494.cxx:880-904 | when the pool is empty or its best chi² is above 1e5, no track is recorded, no hit is consumed, the new candidates alone would not have been accepted, and the pool kept for the next hypothesis is free and rejected |
| TrackerProperties.HypothesisAccepted | tracking/R3BFragmentTrackerS494.cxx:880-920 | when the best chi² passes, the first best new candidate wins with the requested charge and free hits, its hits are consumed, its track is appended and the pool cleared |
| TrackerProperties.ConsumeTakesExactlyFootprint | tracking/R3BFragmentTrackerS494.cxx:906-920 | the hits going from free to used are exactly the winner's |
| TrackerProperties.NoHitReused | tracking/R3BFragmentTrackerS494.cxx:518-522 | no candidate found after a winner's consumption shares a hit with it |
| TrackerProperties.EventHypothesesStale | tracking/R3BFragmentTrackerS494.cxx:453-1157 | between the hypotheses of an event, every pooled candidate uses free hits and has been rejected |
| FragmentTrackerS494.SelectBest | tracking/R3BFragmentTrackerS494.cxx:878-901 | the selection loop returns the Select winner and the minimum chi², or nothing with the minimum at 1e10 |
| FragmentTrackerS494.FragmentTracker.constructor | tracking/R3BFragmentTrackerS494.cxx:57-72 | a new tracker has no hits, no pool, no tracks and no counted events |
| FragmentTrackerS494.FragmentTracker.ScanFi23a | tracking/R3BFragmentTrackerS494.cxx:574-675 | the fi23a loop appends exactly Fi23aFits to the pool, dropping NaN fits and advancing past them |
| FragmentTrackerS494.FragmentTracker.ScanFi23b | tracking/R3BFragmentTrackerS494.cxx:563-681 | the fi23b loop appends exactly Fi23bFits |
| FragmentTrackerS494.FragmentTracker.ScanSecond | tracking/R3BFragmentTrackerS494.cxx:553-687 | the fi32 (left) or fi31 (right) loop appends exactly SecondFits |
| FragmentTrackerS494.FragmentTracker.ScanOuter | tracking/R3BFragmentTrackerS494.cxx:543-693 | the fi30 (left) or fi33 (right) loop appends exactly SideFits |
| FragmentTrackerS494.FragmentTracker.CollectFromHit | tracking/R3BFragmentTrackerS494.cxx:480-525 | one pass of the ToF loop appends exactly TofCandidates for that hit |
| FragmentTrackerS494.FragmentTracker.CollectCandidates | tracking/R3BFragmentTrackerS494.cxx:478-871 | the ToF loop appends exactly Candidates to the pool |
| FragmentTrackerS494.FragmentTracker.ConsumeHits | tracking/R3BFragmentTrackerS494.cxx:906-920 | the flags afterwards are Consume of the flags before |
| FragmentTrackerS494.FragmentTracker.RunHypothesis | tracking/R3BFragmentTrackerS494.cxx:459-1157 | the tracker's state afterwards is ProcessHypothesis of its state before |
| FragmentTrackerS494.FragmentTracker.Exec | tracking/R3BFragmentTrackerS494.cxx:229-1175 | the tracker's state afterwards is ProcessEvent of its state before |
| FragmentTrackerS494.FragmentTracker.FinishEvent | tracking/R3BFragmentTrackerS494.cxx:1177-1181 | the track list and its counter are reset |
| TrackerFindings.Fi23aStepAsWritten | tracking/R3BFragmentTrackerS494.cxx:629-634 | as written, one pass of the fi23a loop leaves the index where it was after a NaN fit |
| TrackerFindings.NaNFitStallsAsWritten | tracking/R3BFragmentTrackerS494.cxx:629-634 | as written, a free hit with a NaN fit keeps the loop on that hit for any number of passes |
| TrackerFindings.Fi23aStep | tracking/R3BFragmentTrackerS494.cxx:574-675 | corrected: every pass advances the index by one |
| TrackerFindings.Fi23aRunFinishes | tracking/R3BFragmentTrackerS494.cxx:574-675 | corrected: the loop ends after one pass per hit, having pooled exactly Fi23aFits |
| TrackerFindings.ConsumeAsWritten | tracking/R3BFragmentTrackerS494.cxx:906-920 | as written, consumption keeps the flag shapes and picks the side by the momentum's x sign |
| TrackerFindings.ConsumeAsWrittenAgrees | tracking/R3BFragmentTrackerS494.cxx:906-920 | when the momentum sign matches the winner's side, the code as written consumes exactly as Consume |
| TrackerFindings.LeftWinnerHitsStayFreeAsWritten | tracking/R3BFragmentTrackerS494.cxx:906-912 | as written, a left winner with negative x momentum leaves its fi30 and fi32 hits free |
| TrackerFindings.RightWinnerHitsStayFreeAsWritten | tracking/R3BFragmentTrackerS494.cxx:913-919 | as written, a right winner with non-negative x momentum leaves its fi31 and fi33 hits free |

## Left out

- CopyHits and the setup of Exec (lines 241-439): the hit lists and free flags are the tracker's state when Exec begins.
- The dummy target hit pushed at lines 528-530. fNEventsLeft and fNEventsRight are never incremented, so that hit is pushed on every pass; it is not modelled.
- The field-scale calls to the field map (lines 532-541 and the right-side counterpart). They affect only the external fitter.
- Histograms, `cout` and `LOG` output, and the `fVis` drawing code. None of them changes the state the model tracks.
- The reference values per hypothesis, the resolution histograms (lines 922-1046) and the replay of the winner through each detector (lines 1059-1146). They only fill diagnostics.
- The backward-fit branch. `forward` is the constant `kTRUE`, so that branch is dead.
- The counters `counter1`, `alpha` and `carbon`, and `nCand`. They only feed output.
- Floating-point rounding: doubles are reals. NaN is modelled only where the code tests for it.
- TrackerModel.ChargeOf: a negative simulated energy loss has a NaN root, and its conversion to int is undefined in C++. The model gives such a hit no charge.
- TrackerFindings.ConsumeAsWritten: `GetHitIndexByName` of a detector name the winner lacks is taken to write nothing. R3BTrackingParticle is not part of this model.
- The momentum fitter (FitTrackMomentumForward) and OneStepRungeKutta are parameters. R3BTrackingParticle, R3BTrackingDetector and the field map are not part of this model.
- Propagator.Route: follows the corrected straight move to a target nearer than the field entrance (StraightMoveChecked). The code at R3BTPropagator.cxx:111-115 ignores the crossing result and returns true on the stale entrance intersect when the target is behind; that behaviour is StraightToTargetAsWritten, and StaleIntersectAccepted exhibits it.
- Propagator.TPropagator.Propagate: returns false and leaves the particle in place when the target nearer than the entrance is not ahead, where the code returns true at the stale intersect (lines 111-115 and 221-231).
- Propagator.TPropagator.PropagateToPlane: inherits the corrected straight move from Propagate; the forward routine as written reports success at the stale intersect (lines 111-115).
- Propagator.TPropagator.PropagateToPlaneBackward: inherits the corrected straight move from Propagate; the backward routine as written reports success at the stale intersect (lines 221-231).
- TrackerModel.Consume: marks the fibre hits of the side the winner was built from. The code picks the side by the sign of the winner's start momentum in x (lines 906-919); that is TrackerFindings.ConsumeAsWritten, and ConsumeAsWrittenAgrees shows the two agree whenever the sign matches the side.
- FragmentTrackerS494.FragmentTracker.ConsumeHits: branches on the winner's side, not on the sign of its start momentum in x (lines 906-919), as Consume does.
- TrackerModel.FitOne: drops a fit whose momentum z is NaN and the enumeration moves on; the code's `continue` at lines 633 and 805 skips the index increment, so it refits the same combination forever (TrackerFindings.NaNFitStallsAsWritten).
- FragmentTrackerS494.FragmentTracker.ScanFi23a: advances past a NaN fit where the code refits forever; the model's loop always terminates.
- TrackerModel.ProcessHypothesis: built on the corrected Consume and on FitOne's NaN drop, so it is the intended hypothesis, not the code as written at lines 633, 805 and 906-919.
- TrackerModel.HypothesesUpTo: composes the corrected ProcessHypothesis.
- TrackerModel.ProcessEvent: the overflow guard and the event count follow the code; the hypotheses inside are the corrected ones.
- FragmentTrackerS494.FragmentTracker.RunHypothesis: equals the corrected ProcessHypothesis.
- FragmentTrackerS494.FragmentTracker.Exec: equals the corrected ProcessEvent, and so terminates where the code as written can loop forever on a NaN fit.
- TrackerProperties.HypothesisOutcome: proved of the corrected consumption; for the code as written it holds when the winner's momentum sign matches its side (ConsumeAsWrittenAgrees), and LeftWinnerHitsStayFreeAsWritten shows it fails otherwise.
- TrackerProperties.HypothesisAccepted: proved of the corrected consumption; for the code as written it holds when the winner's momentum sign matches its side (ConsumeAsWrittenAgrees), and LeftWinnerHitsStayFreeAsWritten shows it fails otherwise.
- TrackerProperties.ConsumeTakesExactlyFootprint: proved of the corrected consumption, with the same proviso.
- TrackerProperties.NoHitReused: proved of the corrected consumption, with the same proviso.
- Propagator.TrackingParticle: the direction cosines and the momentum are folded into one momentum vector.
- The aoz slot of the track record holds the constant 2, as the code writes it.
- RoluCal2Hit: the histograms filled per item (lines 141-162 and 222-225) are left out. Well-formed items (detector 1 or 2, four channels) are a precondition, because the code indexes its work arrays with them unchecked.
- The integer width of the product in the overflow guard at lines 440-447 is not modelled. Hit counts are unbounded naturals.

## Findings

| source | as written | input that shows it | evidently intended | confidence | as-written member | corrected member |
|---|---|---|---|---|---|---|
| tracking/R3BFragmentTrackerS494.cxx:629-634 (and 802-806) | a fit whose momentum z is NaN leaves the `do/while` body by `continue` before `ifi23a += 1`, so the same combination is fitted again, forever | a free fi23a hit whose fit returns NaN momentum z | drop the candidate and go on with the next fi23a hit | high (not executed) | TrackerFindings.NaNFitStallsAsWritten | TrackerFindings.Fi23aRunFinishes |
| tracking/R3BFragmentTrackerS494.cxx:906-920 | the side whose fibre hits are marked used is chosen by the sign of the winner's start momentum in x | a left-side winner (ToF x > 0) whose start momentum has x < 0 | mark the fibre hits of the side the winner was built from | medium (not executed) | TrackerFindings.LeftWinnerHitsStayFreeAsWritten | TrackerModel.Consume |
| tracking/R3BTPropagator.cxx:111-115 (and 221-231) | the result of LineIntersectPlane toward the target is ignored; when the target is behind, the particle is moved to the stale entrance intersect and success is returned | a particle at the origin moving along +z, field entrance at z = 100, target plane at z = −10 | report failure when the target plane is not ahead | high (not executed) | Propagator.StaleIntersectAccepted | Propagator.StraightMoveChecked |
