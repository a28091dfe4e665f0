/** What R3BFragmentTrackerS494 is meant to promise about the tracks it records, stated over
    the specification in TrackerModel: every fittable free combination is found, the charge of
    a ToF hit is the rounded or truncated value the detector calibration intends, a candidate
    carried over from a rejected hypothesis never wins a later one, and a winner uses only free
    hits and consumes exactly those. TrackerModel consumes the hits of the winner's own side and
    drops NaN fits; TrackerFindings shows where the code as written departs from both. */
module TrackerProperties {
  import opened Wrappers
  import opened Vectors
  import opened TrackerModel

  // ---------------------------------------------------------------- completeness of the search

  /** The innermost loop finds fi23a hit `a` when it is free and its fit is kept. */
  lemma {:induction false} Fi23aFitsComplete(fit: Fitter, q: int, f: Flags, side: Side, tof: nat, o: nat,
                                             s: nat, b: nat, n: nat, a: nat)
    requires a < n <= |f.fi23a| && f.fi23a[a]
    requires Kept(FitOf(fit, q, MakeCombo(side, tof, o, s, b, a)))
    ensures CandidateOf(MakeCombo(side, tof, o, s, b, a), q, FitOf(fit, q, MakeCombo(side, tof, o, s, b, a)))
            in Fi23aFits(fit, q, f, side, tof, o, s, b, n)
  {
    var c := MakeCombo(side, tof, o, s, b, a);
    if a < n - 1 {
      Fi23aFitsComplete(fit, q, f, side, tof, o, s, b, n - 1, a);
    } else {
      assert FitOne(fit, q, c) == [CandidateOf(c, q, FitOf(fit, q, c))];
    }
  }

  lemma {:induction false} Fi23bFitsComplete(fit: Fitter, q: int, f: Flags, side: Side, tof: nat, o: nat,
                                             s: nat, n: nat, b: nat, a: nat)
    requires b < n <= |f.fi23b| && f.fi23b[b]
    requires a < |f.fi23a| && f.fi23a[a]
    requires Kept(FitOf(fit, q, MakeCombo(side, tof, o, s, b, a)))
    ensures CandidateOf(MakeCombo(side, tof, o, s, b, a), q, FitOf(fit, q, MakeCombo(side, tof, o, s, b, a)))
            in Fi23bFits(fit, q, f, side, tof, o, s, n)
  {
    var c := CandidateOf(MakeCombo(side, tof, o, s, b, a), q, FitOf(fit, q, MakeCombo(side, tof, o, s, b, a)));
    if b < n - 1 {
      Fi23bFitsComplete(fit, q, f, side, tof, o, s, n - 1, b, a);
      assert c in Fi23bFits(fit, q, f, side, tof, o, s, n - 1);
    } else {
      Fi23aFitsComplete(fit, q, f, side, tof, o, s, b, |f.fi23a|, a);
      assert c in Fi23aFits(fit, q, f, side, tof, o, s, b, |f.fi23a|);
    }
  }

  lemma {:induction false} SecondFitsComplete(fit: Fitter, q: int, f: Flags, side: Side, tof: nat, o: nat,
                                              n: nat, s: nat, b: nat, a: nat)
    requires s < n <= |FlagsOf(f, SecondDet(side))| && FlagsOf(f, SecondDet(side))[s]
    requires b < |f.fi23b| && f.fi23b[b] && a < |f.fi23a| && f.fi23a[a]
    requires Kept(FitOf(fit, q, MakeCombo(side, tof, o, s, b, a)))
    ensures CandidateOf(MakeCombo(side, tof, o, s, b, a), q, FitOf(fit, q, MakeCombo(side, tof, o, s, b, a)))
            in SecondFits(fit, q, f, side, tof, o, n)
  {
    var c := CandidateOf(MakeCombo(side, tof, o, s, b, a), q, FitOf(fit, q, MakeCombo(side, tof, o, s, b, a)));
    var prev := SecondFits(fit, q, f, side, tof, o, n - 1);
    if s < n - 1 {
      SecondFitsComplete(fit, q, f, side, tof, o, n - 1, s, b, a);
      assert c in prev;
    } else {
      Fi23bFitsComplete(fit, q, f, side, tof, o, s, |f.fi23b|, b, a);
      assert c in Fi23bFits(fit, q, f, side, tof, o, n - 1, |f.fi23b|);
    }
  }

  lemma {:induction false} OuterFitsComplete(fit: Fitter, q: int, f: Flags, side: Side, tof: nat, n: nat,
                                             o: nat, s: nat, b: nat, a: nat)
    requires o < n <= |FlagsOf(f, OuterDet(side))| && FlagsOf(f, OuterDet(side))[o]
    requires s < |FlagsOf(f, SecondDet(side))| && FlagsOf(f, SecondDet(side))[s]
    requires b < |f.fi23b| && f.fi23b[b] && a < |f.fi23a| && f.fi23a[a]
    requires Kept(FitOf(fit, q, MakeCombo(side, tof, o, s, b, a)))
    ensures CandidateOf(MakeCombo(side, tof, o, s, b, a), q, FitOf(fit, q, MakeCombo(side, tof, o, s, b, a)))
            in OuterFits(fit, q, f, side, tof, n)
  {
    var prev := OuterFits(fit, q, f, side, tof, n - 1);
    var last := if FlagsOf(f, OuterDet(side))[n - 1]
                then SecondFits(fit, q, f, side, tof, n - 1, |FlagsOf(f, SecondDet(side))|) else [];
    assert OuterFits(fit, q, f, side, tof, n) == prev + last;
    if o < n - 1 {
      OuterFitsComplete(fit, q, f, side, tof, n - 1, o, s, b, a);
    } else {
      SecondFitsComplete(fit, q, f, side, tof, o, |FlagsOf(f, SecondDet(side))|, s, b, a);
    }
  }

  /** A side finds every combination of its own that uses free hits only and fits. */
  lemma SideFitsComplete(fit: Fitter, q: int, f: Flags, c: Combo)
    requires UpstreamFree(f, c)
    requires Kept(FitOf(fit, q, c))
    ensures CandidateOf(c, q, FitOf(fit, q, c)) in SideFits(fit, q, f, c.side, c.tof)
  {
    assert FreeAt(f, (Fi23a, c.fi23a)) && FreeAt(f, (Fi23b, c.fi23b));
    assert FreeAt(f, (NearDet(c.side), c.near)) && FreeAt(f, (FarDet(c.side), c.far));
    if c.side == Left {
      assert c == MakeCombo(Left, c.tof, c.near, c.far, c.fi23b, c.fi23a);
      OuterFitsComplete(fit, q, f, Left, c.tof, |f.fi30|, c.near, c.far, c.fi23b, c.fi23a);
    } else {
      assert c == MakeCombo(Right, c.tof, c.far, c.near, c.fi23b, c.fi23a);
      OuterFitsComplete(fit, q, f, Right, c.tof, |f.fi33|, c.far, c.near, c.fi23b, c.fi23a);
    }
  }

  lemma {:induction false} TofFitsComplete(fit: Fitter, simu: bool, q: int, f: Flags, hits: seq<TofHit>,
                                           n: nat, c: Combo)
    requires c.tof < n <= |hits|
    requires ChargeOf(hits[c.tof].eloss, simu) == Some(q)
    requires c.side == Left ==> hits[c.tof].x > 0.0
    requires c.side == Right ==> hits[c.tof].x < 0.0
    requires AllFree(f, c)
    requires Kept(FitOf(fit, q, c))
    ensures CandidateOf(c, q, FitOf(fit, q, c)) in TofFits(fit, simu, q, f, hits, n)
  {
    var x := CandidateOf(c, q, FitOf(fit, q, c));
    if c.tof < n - 1 {
      TofFitsComplete(fit, simu, q, f, hits, n - 1, c);
      assert x in TofFits(fit, simu, q, f, hits, n - 1);
    } else {
      TofCandidatesComplete(fit, simu, q, f, hits, c);
      assert x in TofCandidates(fit, simu, q, f, hits, n - 1);
    }
  }

  /** What one ToF hit contributes holds every fitting free combination through that hit. */
  lemma TofCandidatesComplete(fit: Fitter, simu: bool, q: int, f: Flags, hits: seq<TofHit>, c: Combo)
    requires c.tof < |hits|
    requires ChargeOf(hits[c.tof].eloss, simu) == Some(q)
    requires c.side == Left ==> hits[c.tof].x > 0.0
    requires c.side == Right ==> hits[c.tof].x < 0.0
    requires AllFree(f, c)
    requires Kept(FitOf(fit, q, c))
    ensures CandidateOf(c, q, FitOf(fit, q, c)) in TofCandidates(fit, simu, q, f, hits, c.tof)
  {
    var i := c.tof;
    assert FreeAt(f, (Tofd, i)) && FreeAt(f, (Fi23a, c.fi23a)) && FreeAt(f, (Fi23b, c.fi23b));
    assert FreeAt(f, (NearDet(c.side), c.near)) && FreeAt(f, (FarDet(c.side), c.far));
    assert Populated(f, c.side);
    SideFitsComplete(fit, q, f, c);
  }

  /** The pool of a hypothesis holds exactly the kept fits of the combinations whose hits are
      all free, whose ToF hit has the requested charge, and whose side matches the sign of the
      ToF position. Together with CandidateProvenance this is an if-and-only-if. */
  lemma CandidatesComplete(fit: Fitter, simu: bool, q: int, f: Flags, hits: seq<TofHit>, c: Combo)
    requires c.tof < |hits| && ChargeOf(hits[c.tof].eloss, simu) == Some(q)
    requires c.side == Left ==> hits[c.tof].x > 0.0
    requires c.side == Right ==> hits[c.tof].x < 0.0
    requires AllFree(f, c)
    requires Kept(FitOf(fit, q, c))
    ensures CandidateOf(c, q, FitOf(fit, q, c)) in Candidates(fit, simu, q, f, hits)
  {
    TofFitsComplete(fit, simu, q, f, hits, |hits|, c);
  }

  // ---------------------------------------------------------------- charge of a ToF hit

  lemma SquareLess(a: real, b: real)
    requires 0.0 <= b && a * a < b * b
    ensures a < b
  {
  }

  lemma SquareAtMost(a: real, b: real)
    requires 0.0 <= a && a * a <= b * b && 0.0 <= b
    ensures a <= b
  {
    if a > b {
      assert a * a - b * b == (a - b) * (a + b);
      MulPositive(a - b, a + b);
    }
  }

  lemma MulPositive(x: real, y: real)
    requires 0.0 < x && 0.0 < y
    ensures 0.0 < x * y
  {
  }

  /** The simulated charge is `sqrt(e) * 22.678` rounded half up: for the root `s` of `e`,
      SimCharge(e) is the floor of `s * 22.678 + 0.5`. */
  lemma SimChargeIsRoundedRoot(e: real, s: real)
    requires 0.0 <= s && s * s == e
    ensures SimCharge(e) == (s * ChargeScale + 0.5).Floor
  {
    var r := SimCharge(e);
    var t := s * ChargeScale;
    assert t * t == e * ChargeScale2;
    SquareLess(t, r as real + 0.5);
    if r > 0 {
      SquareAtMost(r as real - 0.5, t);
    }
    assert r as real <= t + 0.5 < r as real + 1.0;
  }

  /** The experimental charge is the energy loss truncated toward zero, as a C++ cast does: for
      a positive charge `q`, the loss maps to `q` exactly when it lies in [q, q + 1). */
  lemma TruncPositive(e: real, q: int)
    requires q >= 1
    ensures Trunc(e) == q <==> q as real <= e < q as real + 1.0
  {
  }

  /** Truncation never moves away from zero by a whole unit and keeps the sign. */
  lemma TruncTowardZero(e: real)
    ensures 0.0 <= e ==> 0 <= Trunc(e) && Trunc(e) as real <= e < Trunc(e) as real + 1.0
    ensures e < 0.0 ==> Trunc(e) <= 0 && Trunc(e) as real - 1.0 < e <= Trunc(e) as real
  {
  }

  // ---------------------------------------------------------------- selection

  /** There is only one first minimum. */
  lemma FirstMinUnique(pool: seq<Candidate>, i: nat, j: nat)
    requires IsFirstMin(pool, i) && IsFirstMin(pool, j)
    ensures i == j
  {
  }

  /** A rejected pool holds only candidates whose chi² exceeds the acceptance bound. */
  lemma RejectedAllAbove(pool: seq<Candidate>)
    requires MinChi2(pool) > Chi2Accept
    ensures forall c | c in pool :: c.chi2 > Chi2Accept
  {
    forall c | c in pool
      ensures c.chi2 > Chi2Accept
    {
      var j :| 0 <= j < |pool| && pool[j] == c;
      var r := Select(pool);
      if r.Some? {
        assert pool[r.value].chi2 <= pool[j].chi2;
      }
    }
  }

  /** A candidate carried over from a rejected hypothesis never wins: when the best of
      `stale + recent` is accepted, it is the best of `recent`, at the same place after `stale`. */
  lemma StaleNeverWins(stale: seq<Candidate>, recent: seq<Candidate>)
    requires forall c | c in stale :: c.chi2 > Chi2Accept
    requires MinChi2(stale + recent) <= Chi2Accept
    ensures Select(stale + recent).Some? && Select(recent).Some?
    ensures Select(stale + recent).value == |stale| + Select(recent).value
    ensures MinChi2(stale + recent) == MinChi2(recent)
  {
    var pool := stale + recent;
    var k := Select(pool).value;
    assert pool[k].chi2 <= Chi2Accept;
    var m := k - |stale|;
    assert recent[m] == pool[k];
    forall j | 0 <= j < |recent|
      ensures recent[m].chi2 <= recent[j].chi2
    {
      assert recent[j] == pool[|stale| + j];
    }
    forall j | 0 <= j < m
      ensures recent[m].chi2 < recent[j].chi2
    {
      assert recent[j] == pool[|stale| + j];
    }
    assert IsFirstMin(recent, m);
    FirstMinUnique(recent, m, Select(recent).value);
  }

  // ---------------------------------------------------------------- one hypothesis

  /** Every pooled candidate uses free hits only and has a chi² the acceptance bound rejects:
      the state between two hypotheses. */
  predicate PoolStale(f: Flags, pool: seq<Candidate>)
  {
    forall c | c in pool :: AllFree(f, c.combo) && InRange(f, c.combo) && c.chi2 > Chi2Accept
  }

  /** Every recent candidate uses free hits only. */
  lemma CandidatesAllFree(fit: Fitter, simu: bool, q: int, f: Flags, hits: seq<TofHit>)
    ensures forall c | c in Candidates(fit, simu, q, f, hits) :: AllFree(f, c.combo) && InRange(f, c.combo)
  {
    forall c | c in Candidates(fit, simu, q, f, hits)
      ensures AllFree(f, c.combo) && InRange(f, c.combo)
    {
      CandidateProvenance(fit, simu, q, f, hits, c);
    }
  }

  /** One hypothesis keeps PoolStale, and records a track exactly when its own recent candidates
      hold one whose chi² passes. The recorded track is the first best recent candidate's, with
      the requested charge and the best chi²; that winner's hits were all free and are exactly
      the hits the hypothesis marks used. */
  lemma HypothesisOutcome(s: State, fit: Fitter, simu: bool, hits: seq<TofHit>, q: int)
    requires PoolStale(s.flags, s.fragments)
    ensures PoolInRange(s.flags, s.fragments)
    ensures PoolStale(ProcessHypothesis(s, fit, simu, hits, q).flags, ProcessHypothesis(s, fit, simu, hits, q).fragments)
    ensures var recent := Candidates(fit, simu, q, s.flags, hits);
            var r := ProcessHypothesis(s, fit, simu, hits, q);
            (|r.tracks| > |s.tracks| <==> Select(recent).Some? && MinChi2(recent) <= Chi2Accept) &&
            (|r.tracks| > |s.tracks| ==>
               var w := recent[Select(recent).value];
               w.charge == q && FromFit(fit, q, w) && AllFree(s.flags, w.combo) && InRange(s.flags, w.combo) &&
               r.flags == Consume(s.flags, w.combo) &&
               r.tracks == s.tracks + [TrackOf(w, q, w.chi2)] && r.fragments == [])
  {
    var pool := s.fragments + Candidates(fit, simu, q, s.flags, hits);
    if pool == [] || MinChi2(pool) > Chi2Accept {
      HypothesisRejected(s, fit, simu, hits, q);
    } else {
      HypothesisAccepted(s, fit, simu, hits, q);
    }
  }

  /** The rejected case of HypothesisOutcome: nothing is recorded or consumed, and the pool
      carried to the next hypothesis is stale. */
  lemma HypothesisRejected(s: State, fit: Fitter, simu: bool, hits: seq<TofHit>, q: int)
    requires PoolStale(s.flags, s.fragments)
    requires var pool := s.fragments + Candidates(fit, simu, q, s.flags, hits);
             pool == [] || MinChi2(pool) > Chi2Accept
    ensures PoolInRange(s.flags, s.fragments)
    ensures var r := ProcessHypothesis(s, fit, simu, hits, q);
            r.tracks == s.tracks && r.flags == s.flags && PoolStale(r.flags, r.fragments)
    ensures var recent := Candidates(fit, simu, q, s.flags, hits);
            !(Select(recent).Some? && MinChi2(recent) <= Chi2Accept)
  {
    var recent := Candidates(fit, simu, q, s.flags, hits);
    var pool := s.fragments + recent;
    if pool == [] {
      assert recent == [];
    } else {
      CandidatesAllFree(fit, simu, q, s.flags, hits);
      RejectedPool(s.fragments, recent);
      assert ProcessHypothesis(s, fit, simu, hits, q) == s.(fragments := pool);
      assert PoolStale(s.flags, pool) by {
        forall c | c in pool
          ensures AllFree(s.flags, c.combo) && InRange(s.flags, c.combo) && c.chi2 > Chi2Accept
        {
          assert c in s.fragments || c in recent;
        }
      }
    }
  }

  /** The accepted case of HypothesisOutcome: the first best recent candidate wins, with the
      requested charge and free hits, and the pool is emptied. */
  lemma HypothesisAccepted(s: State, fit: Fitter, simu: bool, hits: seq<TofHit>, q: int)
    requires PoolStale(s.flags, s.fragments)
    requires var pool := s.fragments + Candidates(fit, simu, q, s.flags, hits);
             pool != [] && MinChi2(pool) <= Chi2Accept
    ensures PoolInRange(s.flags, s.fragments)
    ensures var recent := Candidates(fit, simu, q, s.flags, hits);
            Select(recent).Some? && MinChi2(recent) <= Chi2Accept &&
            var w := recent[Select(recent).value];
            w.charge == q && FromFit(fit, q, w) && AllFree(s.flags, w.combo) && InRange(s.flags, w.combo) &&
            ProcessHypothesis(s, fit, simu, hits, q)
              == s.(flags := Consume(s.flags, w.combo), fragments := [], tracks := s.tracks + [TrackOf(w, q, w.chi2)])
  {
    var recent := Candidates(fit, simu, q, s.flags, hits);
    var pool := s.fragments + recent;
    StaleNeverWins(s.fragments, recent);
    var m := Select(recent).value;
    var w := recent[m];
    assert pool[|s.fragments| + m] == w;
    CandidateProvenance(fit, simu, q, s.flags, hits, w);
  }

  /** A rejected pool made of a carried-over part and new candidates: all its candidates are
      above the acceptance bound, so the new candidates alone would not be accepted either. */
  lemma RejectedPool(stale: seq<Candidate>, recent: seq<Candidate>)
    requires MinChi2(stale + recent) > Chi2Accept
    ensures forall c | c in stale + recent :: c.chi2 > Chi2Accept
    ensures !(Select(recent).Some? && MinChi2(recent) <= Chi2Accept)
  {
    RejectedAllAbove(stale + recent);
    if Select(recent).Some? {
      var m := Select(recent).value;
      assert (stale + recent)[|stale| + m] == recent[m];
    }
  }

  /** The hits the winner marks used are exactly its own, and each was free: no hit is
      assigned to two tracks. */
  lemma ConsumeTakesExactlyFootprint(f: Flags, c: Combo)
    requires AllFree(f, c) && InRange(f, c)
    ensures forall d, k | 0 <= k < |FlagsOf(f, d)| ::
              (FlagsOf(f, d)[k] && !FlagsOf(Consume(f, c), d)[k]) <==> (d, k) in Footprint(c)
  {
    var g := Consume(f, c);
    forall d, k | 0 <= k < |FlagsOf(f, d)|
      ensures (FlagsOf(f, d)[k] && !FlagsOf(g, d)[k]) <==> (d, k) in Footprint(c)
    {
      if (d, k) in Footprint(c) {
        assert FreeAt(f, (d, k));
      }
    }
  }

  /** After a winner is consumed, no later candidate shares a hit with it. */
  lemma NoHitReused(fit: Fitter, simu: bool, q: int, f: Flags, hits: seq<TofHit>, w: Combo, c: Candidate)
    requires InRange(f, w)
    requires c in Candidates(fit, simu, q, Consume(f, w), hits)
    ensures forall p | p in Footprint(c.combo) :: p !in Footprint(w)
  {
    var g := Consume(f, w);
    CandidateProvenance(fit, simu, q, g, hits, c);
    forall p | p in Footprint(c.combo)
      ensures p !in Footprint(w)
    {
      assert FreeAt(g, p);
    }
  }

  /** The two hypotheses of an event: the state between them is PoolStale, so the second one
      records its track from its own candidates only, never from the pool the first left. */
  lemma {:induction false} EventHypothesesStale(s: State, fit: Fitter, simu: bool, hits: seq<TofHit>, l: nat)
    requires FirstHypothesis <= l <= HypothesisEnd
    requires s.fragments == []
    ensures PoolStale(HypothesesUpTo(s, fit, simu, hits, l).flags, HypothesesUpTo(s, fit, simu, hits, l).fragments)
    decreases l
  {
    if l > FirstHypothesis {
      EventHypothesesStale(s, fit, simu, hits, l - 1);
      var p := HypothesesUpTo(s, fit, simu, hits, l - 1);
      HypothesisOutcome(p, fit, simu, hits, ChargeRequested(l - 1));
    }
  }
}
