/** Two places where R3BFragmentTrackerS494::Exec, as written, does not do what the rest of the
    tracker evidently intends. Each is modelled as written, with a lemma that exhibits the
    discrepancy, next to the corrected behaviour that TrackerModel and FragmentTrackerS494 use. */
module TrackerFindings {
  import opened Wrappers
  import opened TrackerModel

  // ---------------------------------------------------------------- a NaN fit stalls the fi23a loop

  /** Where the innermost `do/while` over fi23a stands: the index and the pool so far. */
  datatype Scan = Scan(a: nat, pool: seq<Candidate>)

  /** One pass of the fi23a loop body as written: a used hit advances the index; a fit whose
      momentum is NaN leaves by `continue` before the increment, so the index stays put; any
      other fit pools a kept candidate and advances. */
  function Fi23aStepAsWritten(fit: Fitter, q: int, f: Flags, side: Side, tof: nat, o: nat, s: nat, b: nat,
                              st: Scan): (r: Scan)
    requires st.a < |f.fi23a|
    ensures r.a == st.a || r.a == st.a + 1
  {
    if !f.fi23a[st.a] then Scan(st.a + 1, st.pool)
    else
      var r := FitOf(fit, q, MakeCombo(side, tof, o, s, b, st.a));
      if r.momentumZ.None? then st
      else if r.status < StatusLimit then Scan(st.a + 1, st.pool + [CandidateOf(MakeCombo(side, tof, o, s, b, st.a), q, r)])
      else Scan(st.a + 1, st.pool)
  }

  /** `k` passes of the loop as written, stopping once the loop condition fails. */
  function Fi23aRunAsWritten(fit: Fitter, q: int, f: Flags, side: Side, tof: nat, o: nat, s: nat, b: nat,
                             st: Scan, k: nat): Scan
    decreases k
  {
    if k == 0 || st.a >= |f.fi23a| then st
    else Fi23aRunAsWritten(fit, q, f, side, tof, o, s, b, Fi23aStepAsWritten(fit, q, f, side, tof, o, s, b, st), k - 1)
  }

  /** A free fi23a hit whose fit returns a NaN momentum is never passed: however many passes
      run, the index stays on it and the loop condition still holds, so Exec does not return. */
  lemma {:induction false} NaNFitStallsAsWritten(fit: Fitter, q: int, f: Flags, side: Side, tof: nat, o: nat,
                                                 s: nat, b: nat, st: Scan, k: nat)
    requires st.a < |f.fi23a| && f.fi23a[st.a]
    requires FitOf(fit, q, MakeCombo(side, tof, o, s, b, st.a)).momentumZ.None?
    ensures Fi23aRunAsWritten(fit, q, f, side, tof, o, s, b, st, k) == st
    ensures Fi23aRunAsWritten(fit, q, f, side, tof, o, s, b, st, k).a < |f.fi23a|
  {
    if k > 0 {
      assert Fi23aStepAsWritten(fit, q, f, side, tof, o, s, b, st) == st;
      NaNFitStallsAsWritten(fit, q, f, side, tof, o, s, b, st, k - 1);
    }
  }

  /** The loop body as intended: a NaN fit is dropped and the index advances like any other. */
  function Fi23aStep(fit: Fitter, q: int, f: Flags, side: Side, tof: nat, o: nat, s: nat, b: nat,
                     st: Scan): (r: Scan)
    requires st.a < |f.fi23a|
    ensures r.a == st.a + 1
  {
    var c := MakeCombo(side, tof, o, s, b, st.a);
    if f.fi23a[st.a] then Scan(st.a + 1, st.pool + FitOne(fit, q, c))
    else Scan(st.a + 1, st.pool)
  }

  /** `k` passes of the corrected loop. */
  function Fi23aRun(fit: Fitter, q: int, f: Flags, side: Side, tof: nat, o: nat, s: nat, b: nat,
                    st: Scan, k: nat): Scan
    decreases k
  {
    if k == 0 || st.a >= |f.fi23a| then st
    else Fi23aRun(fit, q, f, side, tof, o, s, b, Fi23aStep(fit, q, f, side, tof, o, s, b, st), k - 1)
  }

  /** The corrected loop ends after one pass per fi23a hit, with exactly the candidates the
      enumeration order of TrackerModel prescribes. */
  lemma {:induction false} Fi23aRunFinishes(fit: Fitter, q: int, f: Flags, side: Side, tof: nat, o: nat,
                                            s: nat, b: nat, pool: seq<Candidate>, a: nat)
    requires a <= |f.fi23a|
    ensures Fi23aRun(fit, q, f, side, tof, o, s, b, Scan(a, pool + Fi23aFits(fit, q, f, side, tof, o, s, b, a)), |f.fi23a| - a)
            == Scan(|f.fi23a|, pool + Fi23aFits(fit, q, f, side, tof, o, s, b, |f.fi23a|))
    decreases |f.fi23a| - a
  {
    if a < |f.fi23a| {
      var cur := Fi23aFits(fit, q, f, side, tof, o, s, b, a);
      var next := Fi23aFits(fit, q, f, side, tof, o, s, b, a + 1);
      var st := Scan(a, pool + cur);
      assert Fi23aStep(fit, q, f, side, tof, o, s, b, st) == Scan(a + 1, pool + next) by {
        var add := if f.fi23a[a] then FitOne(fit, q, MakeCombo(side, tof, o, s, b, a)) else [];
        assert next == cur + add;
        assert (pool + cur) + add == pool + (cur + add);
      }
      Fi23aRunFinishes(fit, q, f, side, tof, o, s, b, pool, a + 1);
    }
  }

  // ---------------------------------------------------------------- the winner's side

  /** Consumption as written: fi23a, fi23b and the ToF hit are marked used, then the side is
      chosen by the sign of the winner's start momentum in x, not by the side its hits came
      from. When the two disagree, the lookups by detector name find no hit of that name in
      the winner; the model takes such a lookup to write nothing. */
  function ConsumeAsWritten(f: Flags, c: Combo, momentumX: real): (r: Flags)
    requires InRange(f, c)
    ensures SameShape(r, f)
  {
    assert (Tofd, c.tof) in Footprint(c) && (Fi23a, c.fi23a) in Footprint(c) && (Fi23b, c.fi23b) in Footprint(c);
    assert (NearDet(c.side), c.near) in Footprint(c) && (FarDet(c.side), c.far) in Footprint(c);
    var g := f.(fi23a := f.fi23a[c.fi23a := false], fi23b := f.fi23b[c.fi23b := false],
                tofd := f.tofd[c.tof := false]);
    if momentumX < 0.0 then
      (if c.side == Right then g.(fi31 := g.fi31[c.near := false], fi33 := g.fi33[c.far := false]) else g)
    else
      (if c.side == Left then g.(fi30 := g.fi30[c.near := false], fi32 := g.fi32[c.far := false]) else g)
  }

  /** When the momentum sign agrees with the side, the code as written consumes what it should. */
  lemma ConsumeAsWrittenAgrees(f: Flags, c: Combo, momentumX: real)
    requires InRange(f, c)
    requires (c.side == Left) == (momentumX >= 0.0)
    ensures ConsumeAsWritten(f, c, momentumX) == Consume(f, c)
  {
    var r := ConsumeAsWritten(f, c, momentumX);
    var e := Consume(f, c);
    forall d
      ensures FlagsOf(r, d) == FlagsOf(e, d)
    {
      assert |FlagsOf(r, d)| == |FlagsOf(e, d)|;
      forall k | 0 <= k < |FlagsOf(r, d)|
        ensures FlagsOf(r, d)[k] == FlagsOf(e, d)[k]
      {
      }
    }
    assert FlagsOf(r, Fi23a) == FlagsOf(e, Fi23a) && FlagsOf(r, Fi23b) == FlagsOf(e, Fi23b);
    assert FlagsOf(r, Fi30) == FlagsOf(e, Fi30) && FlagsOf(r, Fi31) == FlagsOf(e, Fi31);
    assert FlagsOf(r, Fi32) == FlagsOf(e, Fi32) && FlagsOf(r, Fi33) == FlagsOf(e, Fi33);
    assert FlagsOf(r, Tofd) == FlagsOf(e, Tofd);
  }

  /** A left-side winner whose start momentum points to negative x keeps its fi30 and fi32 hits
      free, so a later hypothesis may build a second track on them. */
  lemma LeftWinnerHitsStayFreeAsWritten(f: Flags, c: Combo, momentumX: real)
    requires InRange(f, c) && AllFree(f, c)
    requires c.side == Left && momentumX < 0.0
    ensures FreeAt(ConsumeAsWritten(f, c, momentumX), (Fi30, c.near))
    ensures FreeAt(ConsumeAsWritten(f, c, momentumX), (Fi32, c.far))
    ensures ConsumeAsWritten(f, c, momentumX) != Consume(f, c)
  {
    assert (Fi30, c.near) in Footprint(c) && (Fi32, c.far) in Footprint(c);
    assert FreeAt(f, (Fi30, c.near));
    assert !Consume(f, c).fi30[c.near];
  }

  /** The same for a right-side winner whose momentum points to positive x (or is zero): its
      fi31 and fi33 hits stay free. */
  lemma RightWinnerHitsStayFreeAsWritten(f: Flags, c: Combo, momentumX: real)
    requires InRange(f, c) && AllFree(f, c)
    requires c.side == Right && momentumX >= 0.0
    ensures FreeAt(ConsumeAsWritten(f, c, momentumX), (Fi31, c.near))
    ensures FreeAt(ConsumeAsWritten(f, c, momentumX), (Fi33, c.far))
    ensures ConsumeAsWritten(f, c, momentumX) != Consume(f, c)
  {
    assert (Fi31, c.near) in Footprint(c) && (Fi33, c.far) in Footprint(c);
    assert FreeAt(f, (Fi31, c.near));
    assert !Consume(f, c).fi31[c.near];
  }
}
