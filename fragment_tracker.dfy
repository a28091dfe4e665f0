/** The fragment tracker of experiment S494 (R3BFragmentTrackerS494). For each event it looks
    first for a charge-6 and then for a charge-2 fragment. For each it fits every combination
    of still-free hits, keeps the best fit, marks that fit's hits as used and records its track.
    Every method is proved to compute the corresponding function of TrackerModel. */
module FragmentTrackerS494 {
  import opened Wrappers
  import opened Vectors
  import opened TrackerModel

  /** The scan over the pool: a candidate replaces the current one only when its chi² is
      strictly below the running minimum, which starts at Chi2Start. */
  method SelectBest(pool: seq<Candidate>) returns (found: bool, best: nat, minChi2: real)
    ensures found == Select(pool).Some?
    ensures found ==> best == Select(pool).value && IsFirstMin(pool, best) && minChi2 == pool[best].chi2
    ensures minChi2 == MinChi2(pool)
  {
    found, best, minChi2 := false, 0, Chi2Start;
    var k := 0;
    while k < |pool|
      invariant k <= |pool|
      invariant found == Select(pool[..k]).Some?
      invariant found ==> best == Select(pool[..k]).value && best < k
      invariant minChi2 == MinChi2(pool[..k])
    {
      assert pool[..k + 1][..k] == pool[..k];
      assert found ==> pool[..k][best] == pool[best];
      var parChi2 := pool[k].chi2;
      if parChi2 < minChi2 {
        found, best, minChi2 := true, k, parChi2;
      }
      k := k + 1;
    }
    assert pool[..k] == pool;
  }

  lemma AppendAssoc<T>(a: seq<T>, b: seq<T>, c: seq<T>)
    ensures (a + b) + c == a + (b + c)
  {
  }

  class FragmentTracker {
    /** The `free_hit` flags of each detector, one per hit of the current event. */
    var fi23a: array<bool>
    var fi23b: array<bool>
    var fi30: array<bool>
    var fi31: array<bool>
    var fi32: array<bool>
    var fi33: array<bool>
    var tofd: array<bool>
    /** The hits of the ToF wall in the current event. */
    var tofHits: seq<TofHit>
    /** The candidate pool (fFragments). */
    var fragments: seq<Candidate>
    /** The track records of the current event (fTrackItems) and their count. */
    var trackItems: seq<Track>
    var nofTrackItems: nat
    var nEvents: nat
    /** Whether the input is simulated (fSimu); it decides how a charge is derived. */
    const simu: bool

    ghost predicate Valid()
      reads this`fi23a, this`fi23b, this`fi30, this`fi31, this`fi32, this`fi33, this`tofd
      reads this`tofHits, this`trackItems, this`nofTrackItems
    {
      fi23a != fi23b && fi23a != fi30 && fi23a != fi31 && fi23a != fi32 && fi23a != fi33 && fi23a != tofd &&
      fi23b != fi30 && fi23b != fi31 && fi23b != fi32 && fi23b != fi33 && fi23b != tofd &&
      fi30 != fi31 && fi30 != fi32 && fi30 != fi33 && fi30 != tofd &&
      fi31 != fi32 && fi31 != fi33 && fi31 != tofd &&
      fi32 != fi33 && fi32 != tofd &&
      fi33 != tofd &&
      |tofHits| == tofd.Length &&
      nofTrackItems == |trackItems|
    }

    function FreeFlags(): Flags
      reads this`fi23a, this`fi23b, this`fi30, this`fi31, this`fi32, this`fi33, this`tofd
      reads fi23a, fi23b, fi30, fi31, fi32, fi33, tofd
    {
      Flags(fi23a[..], fi23b[..], fi30[..], fi31[..], fi32[..], fi33[..], tofd[..])
    }

    function Snapshot(): State
      reads this, fi23a, fi23b, fi30, fi31, fi32, fi33, tofd
    {
      State(FreeFlags(), fragments, trackItems, nEvents)
    }

    /** A tracker before its first event; the hits of an event are loaded by CopyHits. */
    constructor(simu: bool)
      ensures Valid() && this.simu == simu
      ensures Snapshot() == State(Flags([], [], [], [], [], [], []), [], [], 0) && tofHits == []
    {
      this.simu := simu;
      fi23a := new bool[0];
      fi23b := new bool[0];
      fi30 := new bool[0];
      fi31 := new bool[0];
      fi32 := new bool[0];
      fi33 := new bool[0];
      tofd := new bool[0];
      tofHits := [];
      fragments := [];
      trackItems := [];
      nofTrackItems := 0;
      nEvents := 0;
    }

    /** The innermost `do/while` loop, over fi23a. Both sides reach this loop with at least one
        hit, so the `do/while` runs exactly like a `while` from index 0. `f` is the flags as
        they stand during the whole enumeration. */
    method ScanFi23a(fit: Fitter, q: int, side: Side, tof: nat, outer: nat, second: nat, b: nat, ghost f: Flags)
      requires f.fi23a == fi23a[..]
      modifies this`fragments
      ensures fragments == old(fragments) + Fi23aFits(fit, q, f, side, tof, outer, second, b, |f.fi23a|)
    {
      var a := 0;
      while a < fi23a.Length
        invariant a <= fi23a.Length
        invariant fragments == old(fragments) + Fi23aFits(fit, q, f, side, tof, outer, second, b, a)
      {
        if !fi23a[a] {
          a := a + 1;
          continue;
        }
        var combo := MakeCombo(side, tof, outer, second, b, a);
        var r := fit(FitInput(combo, q, MassSeed(q), MomentumSeed(q), Beta0));
        if r.momentumZ.None? {
          // The candidate is dropped and the loop moves on to the next fi23a hit.
          a := a + 1;
          continue;
        }
        if r.status < StatusLimit {
          fragments := fragments + [CandidateOf(combo, q, r)];
        }
        a := a + 1;
      }
    }

    /** The fi23b loop. */
    method ScanFi23b(fit: Fitter, q: int, side: Side, tof: nat, outer: nat, second: nat, ghost f: Flags)
      requires f.fi23a == fi23a[..] && f.fi23b == fi23b[..]
      modifies this`fragments
      ensures fragments == old(fragments) + Fi23bFits(fit, q, f, side, tof, outer, second, |f.fi23b|)
    {
      var b := 0;
      while b < fi23b.Length
        invariant b <= fi23b.Length
        invariant fragments == old(fragments) + Fi23bFits(fit, q, f, side, tof, outer, second, b)
      {
        if !fi23b[b] {
          b := b + 1;
          continue;
        }
        ScanFi23a(fit, q, side, tof, outer, second, b, f);
        b := b + 1;
      }
    }

    /** The second loop: fi32 on the left, fi31 on the right. */
    method ScanSecond(fit: Fitter, q: int, side: Side, tof: nat, outer: nat, ghost f: Flags)
      requires f.fi23a == fi23a[..] && f.fi23b == fi23b[..] && f.fi31 == fi31[..] && f.fi32 == fi32[..]
      modifies this`fragments
      ensures fragments == old(fragments) + SecondFits(fit, q, f, side, tof, outer, |FlagsOf(f, SecondDet(side))|)
    {
      var det := if side == Left then fi32 else fi31;
      assert det[..] == FlagsOf(f, SecondDet(side));
      var s := 0;
      while s < det.Length
        invariant s <= det.Length
        invariant det[..] == FlagsOf(f, SecondDet(side))
        invariant fragments == old(fragments) + SecondFits(fit, q, f, side, tof, outer, s)
      {
        if !det[s] {
          s := s + 1;
          continue;
        }
        ScanFi23b(fit, q, side, tof, outer, s, f);
        s := s + 1;
      }
    }

    /** The outermost loop: fi30 on the left, fi33 on the right. */
    method ScanOuter(fit: Fitter, q: int, side: Side, tof: nat, ghost f: Flags)
      requires f.fi23a == fi23a[..] && f.fi23b == fi23b[..] && f.fi30 == fi30[..]
      requires f.fi31 == fi31[..] && f.fi32 == fi32[..] && f.fi33 == fi33[..]
      modifies this`fragments
      ensures fragments == old(fragments) + SideFits(fit, q, f, side, tof)
    {
      var det := if side == Left then fi30 else fi33;
      assert det[..] == FlagsOf(f, OuterDet(side));
      var o := 0;
      while o < det.Length
        invariant o <= det.Length
        invariant det[..] == FlagsOf(f, OuterDet(side))
        invariant f.fi23a == fi23a[..] && f.fi23b == fi23b[..] && f.fi31 == fi31[..] && f.fi32 == fi32[..]
        invariant fragments == old(fragments) + OuterFits(fit, q, f, side, tof, o)
      {
        ghost var sec: seq<Candidate> := [];
        if det[o] {
          ScanSecond(fit, q, side, tof, o, f);
          sec := SecondFits(fit, q, f, side, tof, o, |FlagsOf(f, SecondDet(side))|);
        }
        assert OuterFits(fit, q, f, side, tof, o + 1) == OuterFits(fit, q, f, side, tof, o) + sec;
        AppendAssoc(old(fragments), OuterFits(fit, q, f, side, tof, o), sec);
        o := o + 1;
      }
    }

    /** The body of the loop over the ToF-wall hits for hit `i`: a hit of another charge or one
        already used adds nothing; otherwise the left branch (x > 0) or the right branch
        (x < 0) is enumerated when all four of its detectors have hits. */
    method CollectFromHit(fit: Fitter, q: int, i: nat, ghost f: Flags)
      requires i < |tofHits| && |tofHits| == tofd.Length
      requires f.fi23a == fi23a[..] && f.fi23b == fi23b[..] && f.fi30 == fi30[..]
      requires f.fi31 == fi31[..] && f.fi32 == fi32[..] && f.fi33 == fi33[..] && f.tofd == tofd[..]
      modifies this`fragments
      ensures fragments == old(fragments) + TofCandidates(fit, simu, q, f, tofHits, i)
    {
      var charge := ChargeOf(tofHits[i].eloss, simu);
      if charge != Some(q) || !tofd[i] {
        return;
      }
      ghost var before := fragments;
      if tofHits[i].x > 0.0 && fi30.Length > 0 && fi32.Length > 0 && fi23a.Length > 0 && fi23b.Length > 0 {
        ScanOuter(fit, q, Left, i, f);
      }
      ghost var mid := fragments;
      assert mid == before + (if tofHits[i].x > 0.0 && Populated(f, Left) then SideFits(fit, q, f, Left, i) else []);
      if tofHits[i].x < 0.0 && fi31.Length > 0 && fi33.Length > 0 && fi23a.Length > 0 && fi23b.Length > 0 {
        ScanOuter(fit, q, Right, i, f);
      }
      AppendAssoc(before, if tofHits[i].x > 0.0 && Populated(f, Left) then SideFits(fit, q, f, Left, i) else [],
                  if tofHits[i].x < 0.0 && Populated(f, Right) then SideFits(fit, q, f, Right, i) else []);
    }

    /** The loop over the ToF-wall hits of one hypothesis. */
    method CollectCandidates(fit: Fitter, q: int)
      requires Valid()
      modifies this`fragments
      ensures fragments == old(fragments) + Candidates(fit, simu, q, FreeFlags(), tofHits)
    {
      ghost var f := FreeFlags();
      var i := 0;
      while i < |tofHits|
        invariant i <= |tofHits|
        invariant fragments == old(fragments) + TofFits(fit, simu, q, f, tofHits, i)
      {
        CollectFromHit(fit, q, i, f);
        AppendAssoc(old(fragments), TofFits(fit, simu, q, f, tofHits, i), TofCandidates(fit, simu, q, f, tofHits, i));
        i := i + 1;
      }
    }

    /** Mark the winner's hits as used: fi23a, fi23b, the two detectors of its own side, and
        its ToF hit (the side rule of TrackerModel.Consume). */
    method ConsumeHits(c: Combo)
      requires Valid() && InRange(FreeFlags(), c)
      modifies fi23a, fi23b, fi30, fi31, fi32, fi33, tofd
      ensures FreeFlags() == Consume(old(FreeFlags()), c)
    {
      assert (Tofd, c.tof) in Footprint(c) && (Fi23a, c.fi23a) in Footprint(c) && (Fi23b, c.fi23b) in Footprint(c);
      assert (NearDet(c.side), c.near) in Footprint(c) && (FarDet(c.side), c.far) in Footprint(c);
      fi23a[c.fi23a] := false;
      fi23b[c.fi23b] := false;
      if c.side == Left {
        fi30[c.near] := false;
        fi32[c.far] := false;
      } else {
        fi31[c.near] := false;
        fi33[c.far] := false;
      }
      tofd[c.tof] := false;
    }

    /** One pass of the hypothesis loop for charge `q`: collect, select, and either stop (the
        `continue` that leaves the pool in place) or consume, record and clear the pool. */
    method RunHypothesis(fit: Fitter, q: int)
      requires Valid() && PoolInRange(FreeFlags(), fragments)
      modifies this`fragments, this`trackItems, this`nofTrackItems
      modifies fi23a, fi23b, fi30, fi31, fi32, fi33, tofd
      ensures Valid()
      ensures Snapshot() == ProcessHypothesis(old(Snapshot()), fit, simu, tofHits, q)
    {
      ghost var s := Snapshot();
      CollectCandidates(fit, q);
      CandidatesInRange(fit, simu, q, s.flags, tofHits);
      if |fragments| > 0 {
        var found, best, minChi2 := SelectBest(fragments);
        if minChi2 > Chi2Accept {
          return;
        }
        var candidate := fragments[best];
        assert candidate in fragments;
        ConsumeHits(candidate.combo);
        trackItems := trackItems + [TrackOf(candidate, q, minChi2)];
        nofTrackItems := nofTrackItems + 1;
      }
      fragments := [];
    }

    /** One event: clear the pool, apply the overflow guard, run the hypotheses for charge 6
        and charge 2, and count the event. */
    method Exec(fit: Fitter)
      requires Valid()
      modifies this`fragments, this`trackItems, this`nofTrackItems, this`nEvents
      modifies fi23a, fi23b, fi30, fi31, fi32, fi33, tofd
      ensures Valid()
      ensures Snapshot() == ProcessEvent(old(Snapshot()), fit, simu, tofHits)
    {
      ghost var start := Snapshot();
      fragments := [];
      ghost var s0 := Snapshot();
      assert s0 == start.(fragments := []);
      var leftCount := fi23a.Length * fi23b.Length * fi30.Length * fi32.Length * tofd.Length;
      var rightCount := fi23a.Length * fi23b.Length * fi31.Length * fi33.Length * tofd.Length;
      assert Overflow(start.flags) <==> leftCount > MaxCombinations || rightCount > MaxCombinations;
      if leftCount > MaxCombinations {
        return;
      }
      if rightCount > MaxCombinations {
        return;
      }
      var l := FirstHypothesis;
      while l < HypothesisEnd
        invariant FirstHypothesis <= l <= HypothesisEnd
        invariant Valid()
        invariant PoolInRange(FreeFlags(), fragments)
        invariant Snapshot() == HypothesesUpTo(s0, fit, simu, tofHits, l)
      {
        RunHypothesis(fit, ChargeRequested(l));
        l := l + 1;
      }
      ghost var s2 := Snapshot();
      nEvents := nEvents + 1;
      assert Snapshot() == s2.(nEvents := s2.nEvents + 1);
    }

    /** The end of an event: the track list is emptied. */
    method FinishEvent()
      requires Valid()
      modifies this`trackItems, this`nofTrackItems
      ensures Valid() && trackItems == [] && nofTrackItems == 0
    {
      trackItems := [];
      nofTrackItems := 0;
    }
  }
}
