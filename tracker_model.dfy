/** The values and the specification of R3BFragmentTrackerS494::Exec: which hit
    combinations are fitted, which fitted candidates are pooled, which candidate wins, which
    hits it consumes and which track record it leaves. The imperative tracker in
    FragmentTrackerS494 is proved to compute exactly `ProcessEvent`. Two steps are the intended
    ones rather than the code as written (see TrackerFindings): a NaN fit is dropped and the
    enumeration moves on, and the winner's hits are consumed on its own side. */
module TrackerModel {
  import opened Wrappers
  import opened Vectors

  /** An event is tracked only while neither side has more hit combinations than this. */
  const MaxCombinations: nat := 10000
  /** A fit status of this value or more is a failed fit. */
  const StatusLimit: int := 10
  /** The running minimum chi² starts here, so a candidate must fit better to be chosen. */
  const Chi2Start: real := 10000000000.0
  /** A best chi² above this rejects the whole pool. */
  const Chi2Accept: real := 100000.0
  /** First guess of the velocity handed to the fitter. */
  const Beta0: real := 0.65
  /** Charge = sqrt(simulated energy loss) times this, rounded. */
  const ChargeScale: real := 22.678
  const ChargeScale2: real := ChargeScale * ChargeScale
  /** The hypothesis loop runs `l` from 1 while `l < 3`. */
  const FirstHypothesis: nat := 1
  const HypothesisEnd: nat := 3

  /** Which half of the setup behind the magnet a combination uses. */
  datatype Side = Left | Right

  /** The detectors whose hits the tracker combines. */
  datatype Det = Fi23a | Fi23b | Fi30 | Fi31 | Fi32 | Fi33 | Tofd

  /** A hit in the time-of-flight wall: its horizontal position and its energy loss. */
  datatype TofHit = TofHit(x: real, eloss: real)

  /** One combination of hit indices handed to the fitter. `near` is the fi30 (left) or fi31
      (right) hit, `far` the fi32 (left) or fi33 (right) hit. */
  datatype Combo = Combo(side: Side, tof: nat, near: nat, far: nat, fi23b: nat, fi23a: nat)

  /** The `free_hit` flags of every detector, one per hit of the event. */
  datatype Flags = Flags(fi23a: seq<bool>, fi23b: seq<bool>, fi30: seq<bool>, fi31: seq<bool>,
                         fi32: seq<bool>, fi33: seq<bool>, tofd: seq<bool>)

  /** What the fitter is given: the combination, the hypothesis and the starting guesses. */
  datatype FitInput = FitInput(combo: Combo, charge: int, mass: real, momentum: real, beta: real)

  /** What the fitter leaves in the candidate. `momentumZ` is `None` when it is NaN. */
  datatype FitResult = FitResult(status: int, chi2: real, startPosition: Vec3, startMomentum: Vec3,
                                 momentumZ: Option<real>)

  /** The momentum fitter is external; it is a parameter of the model. */
  type Fitter = FitInput -> FitResult

  /** A pooled, successfully fitted candidate. */
  datatype Candidate = Candidate(combo: Combo, charge: int, chi2: real, startPosition: Vec3,
                                 startMomentum: Vec3)

  /** A track record (R3BTrack): position in metres, momentum in MeV/c, charge, the constant 2
      in the mass-over-charge slot, chi² twice, and quality 0. */
  datatype Track = Track(position: Vec3, momentum: Vec3, charge: int, aoz: real, chi2X: real,
                         chi2Y: real, quality: int)

  /** Everything Exec changes: the flags, the candidate pool, the track list and the event count. */
  datatype State = State(flags: Flags, fragments: seq<Candidate>, tracks: seq<Track>, nEvents: nat)

  // ---------------------------------------------------------------- detectors and sides

  function FlagsOf(f: Flags, d: Det): seq<bool>
  {
    match d
    case Fi23a => f.fi23a
    case Fi23b => f.fi23b
    case Fi30 => f.fi30
    case Fi31 => f.fi31
    case Fi32 => f.fi32
    case Fi33 => f.fi33
    case Tofd => f.tofd
  }

  function NearDet(side: Side): Det { if side == Left then Fi30 else Fi31 }

  function FarDet(side: Side): Det { if side == Left then Fi32 else Fi33 }

  /** The detector of the outermost enumeration loop: fi30 on the left, fi33 on the right. */
  function OuterDet(side: Side): Det { if side == Left then Fi30 else Fi33 }

  /** The detector of the second loop: fi32 on the left, fi31 on the right. */
  function SecondDet(side: Side): Det { if side == Left then Fi32 else Fi31 }

  /** The combination reached with the given loop indices; the right side nests its loops
      far-before-near. */
  function MakeCombo(side: Side, tof: nat, outer: nat, second: nat, b: nat, a: nat): (c: Combo)
    ensures c.side == side && c.tof == tof && c.fi23b == b && c.fi23a == a
    ensures side == Left ==> c.near == outer && c.far == second
    ensures side == Right ==> c.far == outer && c.near == second
  {
    match side
    case Left => Combo(Left, tof, outer, second, b, a)
    case Right => Combo(Right, tof, second, outer, b, a)
  }

  /** The (detector, hit index) pairs a combination uses upstream of the ToF wall. */
  function Upstream(c: Combo): set<(Det, nat)>
  {
    {(Fi23a, c.fi23a), (Fi23b, c.fi23b), (NearDet(c.side), c.near), (FarDet(c.side), c.far)}
  }

  /** The (detector, hit index) pairs a combination uses, the target aside. */
  function Footprint(c: Combo): set<(Det, nat)>
  {
    Upstream(c) + {(Tofd, c.tof)}
  }

  /** Hit `p.1` of detector `p.0` exists and is free. */
  predicate FreeAt(f: Flags, p: (Det, nat))
  {
    p.1 < |FlagsOf(f, p.0)| && FlagsOf(f, p.0)[p.1]
  }

  predicate InRange(f: Flags, c: Combo)
  {
    forall p | p in Footprint(c) :: p.1 < |FlagsOf(f, p.0)|
  }

  /** Every hit of the combination is still free. */
  predicate AllFree(f: Flags, c: Combo)
  {
    forall p | p in Footprint(c) :: FreeAt(f, p)
  }

  /** Every hit upstream of the ToF wall is still free. */
  predicate UpstreamFree(f: Flags, c: Combo)
  {
    forall p | p in Upstream(c) :: FreeAt(f, p)
  }

  predicate PoolInRange(f: Flags, pool: seq<Candidate>)
  {
    forall c | c in pool :: InRange(f, c.combo)
  }

  predicate SameShape(f: Flags, g: Flags)
  {
    forall d :: |FlagsOf(f, d)| == |FlagsOf(g, d)|
  }

  /** `f` has no free hit that `g` has not: flags only ever go from free to used. */
  predicate FlagsLe(f: Flags, g: Flags)
  {
    SameShape(f, g) &&
    forall d, k | 0 <= k < |FlagsOf(f, d)| :: FlagsOf(f, d)[k] ==> FlagsOf(g, d)[k]
  }

  /** The overflow guard: the number of combinations on either side, counted with the ToF
      wall, may not exceed MaxCombinations. */
  predicate Overflow(f: Flags)
  {
    |f.fi23a| * |f.fi23b| * |f.fi30| * |f.fi32| * |f.tofd| > MaxCombinations ||
    |f.fi23a| * |f.fi23b| * |f.fi31| * |f.fi33| * |f.tofd| > MaxCombinations
  }

  /** A side is searched only when all four of its upstream detectors have hits. */
  predicate Populated(f: Flags, side: Side)
  {
    |f.fi23a| > 0 && |f.fi23b| > 0 && |FlagsOf(f, NearDet(side))| > 0 && |FlagsOf(f, FarDet(side))| > 0
  }

  // ---------------------------------------------------------------- charge of a ToF hit

  /** Search for the rounded charge of a simulated hit, from `q` upwards. The result `r` is the
      integer with (r - 0.5)² ≤ e·k² < (r + 0.5)², that is ⌊√e·k + 0.5⌋. */
  function SimChargeFrom(e: real, q: nat): (r: nat)
    requires 0.0 <= e
    requires q == 0 || (q as real - 0.5) * (q as real - 0.5) <= e * ChargeScale2
    ensures q <= r
    ensures e * ChargeScale2 < (r as real + 0.5) * (r as real + 0.5)
    ensures r == 0 || (r as real - 0.5) * (r as real - 0.5) <= e * ChargeScale2
    decreases (e * ChargeScale2).Floor - q
  {
    if e * ChargeScale2 < (q as real + 0.5) * (q as real + 0.5) then q
    else
      SquareAboveSelf(q as real);
      assert (q + 1) as real - 0.5 == q as real + 0.5;
      SimChargeFrom(e, q + 1)
  }

  lemma SquareAboveSelf(x: real)
    requires 0.0 <= x
    ensures x <= (x + 0.5) * (x + 0.5)
  {
    assert (x + 0.5) * (x + 0.5) == x * x + x + 0.25;
  }

  /** `(int)(sqrt(e) * 22.678 + 0.5)` for a non-negative simulated energy loss. */
  function SimCharge(e: real): nat
    requires 0.0 <= e
  {
    SimChargeFrom(e, 0)
  }

  /** C++'s conversion of a double to int: truncation toward zero. */
  function Trunc(e: real): int
  {
    if e >= 0.0 then e.Floor else -((-e).Floor)
  }

  /** The charge derived from a ToF hit. A negative simulated energy loss has a NaN root, and
      its conversion yields no usable charge. */
  function ChargeOf(eloss: real, simu: bool): Option<int>
  {
    if simu then (if eloss < 0.0 then None else Some(SimCharge(eloss)))
    else Some(Trunc(eloss))
  }

  /** `charge_requested` of hypothesis `l`. */
  function ChargeRequested(l: nat): int
  {
    if l == 0 then 8 else if l == 1 then 6 else if l == 2 then 2 else 0
  }

  function MassSeed(q: int): real
  {
    if q == 8 then 15.0124 else if q == 6 then 11.1749 else if q == 2 then 3.7284 else 0.0
  }

  function MomentumSeed(q: int): real
  {
    if q == 8 then 12.888 else if q == 6 then 9.666 else if q == 2 then 3.222 else 0.0
  }

  // ---------------------------------------------------------------- fitting one combination

  function FitOf(fit: Fitter, q: int, c: Combo): FitResult
  {
    fit(FitInput(c, q, MassSeed(q), MomentumSeed(q), Beta0))
  }

  /** A fit is pooled when its momentum is a number and its status is below the limit. */
  predicate Kept(r: FitResult)
  {
    r.momentumZ.Some? && r.status < StatusLimit
  }

  function CandidateOf(c: Combo, q: int, r: FitResult): Candidate
  {
    Candidate(c, q, r.chi2, r.startPosition, r.startMomentum)
  }

  /** What fitting one combination adds to the pool: nothing when the momentum is NaN or the
      status is a failure, the candidate otherwise. */
  function FitOne(fit: Fitter, q: int, c: Combo): seq<Candidate>
  {
    var r := FitOf(fit, q, c);
    if r.momentumZ.None? then []
    else if r.status < StatusLimit then [CandidateOf(c, q, r)]
    else []
  }

  // ---------------------------------------------------------------- enumeration order

  /** The innermost loop: the candidates from the first `n` fi23a hits, skipping used ones. */
  function Fi23aFits(fit: Fitter, q: int, f: Flags, side: Side, tof: nat, outer: nat, second: nat,
                     b: nat, n: nat): seq<Candidate>
    requires n <= |f.fi23a|
  {
    if n == 0 then []
    else
      Fi23aFits(fit, q, f, side, tof, outer, second, b, n - 1) +
      (if f.fi23a[n - 1] then FitOne(fit, q, MakeCombo(side, tof, outer, second, b, n - 1)) else [])
  }

  /** The fi23b loop: for each free one of the first `n` fi23b hits, the whole fi23a loop. */
  function Fi23bFits(fit: Fitter, q: int, f: Flags, side: Side, tof: nat, outer: nat, second: nat,
                     n: nat): seq<Candidate>
    requires n <= |f.fi23b|
  {
    if n == 0 then []
    else
      Fi23bFits(fit, q, f, side, tof, outer, second, n - 1) +
      (if f.fi23b[n - 1] then Fi23aFits(fit, q, f, side, tof, outer, second, n - 1, |f.fi23a|) else [])
  }

  /** The second loop (fi32 on the left, fi31 on the right). */
  function SecondFits(fit: Fitter, q: int, f: Flags, side: Side, tof: nat, outer: nat, n: nat): seq<Candidate>
    requires n <= |FlagsOf(f, SecondDet(side))|
  {
    if n == 0 then []
    else
      SecondFits(fit, q, f, side, tof, outer, n - 1) +
      (if FlagsOf(f, SecondDet(side))[n - 1] then Fi23bFits(fit, q, f, side, tof, outer, n - 1, |f.fi23b|) else [])
  }

  /** The outermost loop (fi30 on the left, fi33 on the right). */
  function OuterFits(fit: Fitter, q: int, f: Flags, side: Side, tof: nat, n: nat): seq<Candidate>
    requires n <= |FlagsOf(f, OuterDet(side))|
  {
    if n == 0 then []
    else
      OuterFits(fit, q, f, side, tof, n - 1) +
      (if FlagsOf(f, OuterDet(side))[n - 1]
       then SecondFits(fit, q, f, side, tof, n - 1, |FlagsOf(f, SecondDet(side))|) else [])
  }

  /** All candidates one side contributes for ToF hit `tof`. */
  function SideFits(fit: Fitter, q: int, f: Flags, side: Side, tof: nat): seq<Candidate>
  {
    OuterFits(fit, q, f, side, tof, |FlagsOf(f, OuterDet(side))|)
  }

  /** What ToF hit `i` contributes: nothing unless its charge is the requested one and it is
      free; then the left side when x > 0, the right side when x < 0, each only if populated. */
  function TofCandidates(fit: Fitter, simu: bool, q: int, f: Flags, hits: seq<TofHit>, i: nat): seq<Candidate>
    requires i < |hits|
  {
    if ChargeOf(hits[i].eloss, simu) == Some(q) && i < |f.tofd| && f.tofd[i] then
      (if hits[i].x > 0.0 && Populated(f, Left) then SideFits(fit, q, f, Left, i) else []) +
      (if hits[i].x < 0.0 && Populated(f, Right) then SideFits(fit, q, f, Right, i) else [])
    else []
  }

  /** The candidates of the first `n` ToF hits. */
  function TofFits(fit: Fitter, simu: bool, q: int, f: Flags, hits: seq<TofHit>, n: nat): seq<Candidate>
    requires n <= |hits|
  {
    if n == 0 then [] else TofFits(fit, simu, q, f, hits, n - 1) + TofCandidates(fit, simu, q, f, hits, n - 1)
  }

  /** Every candidate hypothesis `q` adds to the pool, in the order it is found. */
  function Candidates(fit: Fitter, simu: bool, q: int, f: Flags, hits: seq<TofHit>): seq<Candidate>
  {
    TofFits(fit, simu, q, f, hits, |hits|)
  }

  // ---------------------------------------------------------------- selection

  /** `k` is the first candidate of least chi², and that chi² beats the starting minimum. */
  predicate IsFirstMin(pool: seq<Candidate>, k: nat)
  {
    k < |pool| && pool[k].chi2 < Chi2Start &&
    (forall j | 0 <= j < |pool| :: pool[k].chi2 <= pool[j].chi2) &&
    (forall j | 0 <= j < k :: pool[k].chi2 < pool[j].chi2)
  }

  /** The scan over the pool with a strict `<` against the running minimum. */
  function Select(pool: seq<Candidate>): (r: Option<nat>)
    ensures r.None? <==> forall j | 0 <= j < |pool| :: pool[j].chi2 >= Chi2Start
    ensures r.Some? ==> IsFirstMin(pool, r.value)
  {
    if pool == [] then None
    else
      var init := pool[..|pool| - 1];
      var r0 := Select(init);
      var last := |pool| - 1;
      if pool[last].chi2 < (if r0.Some? then pool[r0.value].chi2 else Chi2Start) then Some(last)
      else r0
  }

  /** The `minChi2` the scan ends with. */
  function MinChi2(pool: seq<Candidate>): real
  {
    var r := Select(pool);
    if r.Some? then pool[r.value].chi2 else Chi2Start
  }

  // ---------------------------------------------------------------- consumption and record

  /** Mark the winner's hits as used on the detectors of its own side (the intended rule; the
      code picks the side by the sign of the start momentum in x, see TrackerFindings). */
  function Consume(f: Flags, c: Combo): (r: Flags)
    requires InRange(f, c)
    ensures SameShape(r, f)
    ensures forall d, k | 0 <= k < |FlagsOf(r, d)| :: FlagsOf(r, d)[k] == (FlagsOf(f, d)[k] && (d, k) !in Footprint(c))
  {
    assert (Tofd, c.tof) in Footprint(c) && (Fi23a, c.fi23a) in Footprint(c) && (Fi23b, c.fi23b) in Footprint(c);
    assert (NearDet(c.side), c.near) in Footprint(c) && (FarDet(c.side), c.far) in Footprint(c);
    var g := f.(fi23a := f.fi23a[c.fi23a := false], fi23b := f.fi23b[c.fi23b := false],
                tofd := f.tofd[c.tof := false]);
    if c.side == Left then g.(fi30 := g.fi30[c.near := false], fi32 := g.fi32[c.far := false])
    else g.(fi31 := g.fi31[c.near := false], fi33 := g.fi33[c.far := false])
  }

  /** The track record: position from cm to m, momentum from GeV/c to MeV/c. */
  function TrackOf(w: Candidate, q: int, minChi2: real): Track
  {
    Track(Vec3(w.startPosition.x / 100.0, w.startPosition.y / 100.0, w.startPosition.z / 100.0),
          Scale(w.startMomentum, 1000.0), q, 2.0, minChi2, minChi2, 0)
  }

  // ---------------------------------------------------------------- one hypothesis, one event

  /** One pass of the hypothesis loop for charge `q`. The pool is the carried-over pool plus the
      new candidates. An empty pool leaves everything but the pool alone. A best chi² above
      Chi2Accept leaves the pool in place, since the `continue` skips the cleanup. Otherwise
      the winner's hits are consumed, its track recorded and the pool cleared. */
  function ProcessHypothesis(s: State, fit: Fitter, simu: bool, hits: seq<TofHit>, q: int): (r: State)
    requires PoolInRange(s.flags, s.fragments)
    ensures FlagsLe(r.flags, s.flags)
    ensures PoolInRange(r.flags, r.fragments)
    ensures r.nEvents == s.nEvents
    ensures r.tracks == s.tracks || (|r.tracks| == |s.tracks| + 1 && r.tracks[..|s.tracks|] == s.tracks && r.tracks[|s.tracks|].charge == q)
    ensures r.tracks == s.tracks ==> r.flags == s.flags
  {
    var pool := s.fragments + Candidates(fit, simu, q, s.flags, hits);
    if pool == [] then s.(fragments := [])
    else
      var sel := Select(pool);
      if MinChi2(pool) > Chi2Accept then
        CandidatesInRange(fit, simu, q, s.flags, hits);
        s.(fragments := pool)
      else
        var w := pool[sel.value];
        CandidatesInRange(fit, simu, q, s.flags, hits);
        assert w in pool;
        var r := s.(flags := Consume(s.flags, w.combo), fragments := [],
                    tracks := s.tracks + [TrackOf(w, q, MinChi2(pool))]);
        assert r.tracks[..|s.tracks|] == s.tracks;
        r
  }

  /** The hypotheses `FirstHypothesis .. l - 1`, in order. */
  function HypothesesUpTo(s: State, fit: Fitter, simu: bool, hits: seq<TofHit>, l: nat): (r: State)
    requires PoolInRange(s.flags, s.fragments)
    requires l <= HypothesisEnd
    ensures FlagsLe(r.flags, s.flags)
    ensures PoolInRange(r.flags, r.fragments)
    ensures r.nEvents == s.nEvents
    ensures |s.tracks| <= |r.tracks| <= |s.tracks| + (if l <= FirstHypothesis then 0 else l - FirstHypothesis)
    ensures r.tracks[..|s.tracks|] == s.tracks
    ensures forall k | |s.tracks| <= k < |r.tracks| :: r.tracks[k].charge in {6, 2}
  {
    if l <= FirstHypothesis then s
    else
      var p := HypothesesUpTo(s, fit, simu, hits, l - 1);
      FlagsLeTrans(ProcessHypothesis(p, fit, simu, hits, ChargeRequested(l - 1)).flags, p.flags, s.flags);
      ProcessHypothesis(p, fit, simu, hits, ChargeRequested(l - 1))
  }

  /** What Exec does to the tracker: clear the pool, then either stop at the overflow guard
      (the event is not counted) or run both hypotheses and count the event. */
  function ProcessEvent(s: State, fit: Fitter, simu: bool, hits: seq<TofHit>): (r: State)
    ensures Overflow(s.flags) ==> r == s.(fragments := [])
    ensures !Overflow(s.flags) ==> r.nEvents == s.nEvents + 1
    ensures FlagsLe(r.flags, s.flags)
    ensures |s.tracks| <= |r.tracks| <= |s.tracks| + 2
    ensures r.tracks[..|s.tracks|] == s.tracks
    ensures forall k | |s.tracks| <= k < |r.tracks| :: r.tracks[k].charge in {6, 2}
  {
    var s0 := s.(fragments := []);
    FlagsLeRefl(s.flags);
    if Overflow(s.flags) then s0
    else
      var s2 := HypothesesUpTo(s0, fit, simu, hits, HypothesisEnd);
      s2.(nEvents := s2.nEvents + 1)
  }

  // ---------------------------------------------------------------- supporting lemmas

  lemma FlagsLeRefl(f: Flags)
    ensures FlagsLe(f, f)
  {
  }

  lemma FlagsLeTrans(f: Flags, g: Flags, h: Flags)
    requires FlagsLe(f, g) && FlagsLe(g, h)
    ensures FlagsLe(f, h)
  {
  }

  /** Every candidate of a hypothesis is in range of the flags it was found with. */
  lemma CandidatesInRange(fit: Fitter, simu: bool, q: int, f: Flags, hits: seq<TofHit>)
    ensures PoolInRange(f, Candidates(fit, simu, q, f, hits))
  {
    forall c | c in Candidates(fit, simu, q, f, hits)
      ensures InRange(f, c.combo)
    {
      CandidateProvenance(fit, simu, q, f, hits, c);
    }
  }

  /** The candidate is the kept result of fitting its own combination. */
  predicate FromFit(fit: Fitter, q: int, c: Candidate)
  {
    Kept(FitOf(fit, q, c.combo)) && c == CandidateOf(c.combo, q, FitOf(fit, q, c.combo))
  }

  /** Where a pooled candidate comes from: a free ToF hit of the requested charge on the side
      its position selects, a populated side, free hits on every detector, and a kept fit. */
  lemma CandidateProvenance(fit: Fitter, simu: bool, q: int, f: Flags, hits: seq<TofHit>, c: Candidate)
    requires c in Candidates(fit, simu, q, f, hits)
    ensures c.combo.tof < |hits| && ChargeOf(hits[c.combo.tof].eloss, simu) == Some(q)
    ensures c.combo.side == Left ==> hits[c.combo.tof].x > 0.0
    ensures c.combo.side == Right ==> hits[c.combo.tof].x < 0.0
    ensures Populated(f, c.combo.side)
    ensures AllFree(f, c.combo) && InRange(f, c.combo)
    ensures FromFit(fit, q, c)
  {
    TofFitsSound(fit, simu, q, f, hits, |hits|, c);
    UpstreamAndTof(f, c.combo);
  }

  lemma {:induction false} TofFitsSound(fit: Fitter, simu: bool, q: int, f: Flags, hits: seq<TofHit>, n: nat, c: Candidate)
    requires n <= |hits|
    requires c in TofFits(fit, simu, q, f, hits, n)
    ensures c.combo.tof < n && ChargeOf(hits[c.combo.tof].eloss, simu) == Some(q)
    ensures c.combo.side == Left ==> hits[c.combo.tof].x > 0.0
    ensures c.combo.side == Right ==> hits[c.combo.tof].x < 0.0
    ensures Populated(f, c.combo.side)
    ensures UpstreamFree(f, c.combo) && FreeAt(f, (Tofd, c.combo.tof))
    ensures FromFit(fit, q, c)
  {
    if c in TofFits(fit, simu, q, f, hits, n - 1) {
      TofFitsSound(fit, simu, q, f, hits, n - 1, c);
    } else {
      TofCandidatesSound(fit, simu, q, f, hits, n - 1, c);
    }
  }

  lemma TofCandidatesSound(fit: Fitter, simu: bool, q: int, f: Flags, hits: seq<TofHit>, i: nat, c: Candidate)
    requires i < |hits|
    requires c in TofCandidates(fit, simu, q, f, hits, i)
    ensures c.combo.tof == i && ChargeOf(hits[i].eloss, simu) == Some(q)
    ensures c.combo.side == Left ==> hits[i].x > 0.0
    ensures c.combo.side == Right ==> hits[i].x < 0.0
    ensures Populated(f, c.combo.side)
    ensures UpstreamFree(f, c.combo) && FreeAt(f, (Tofd, i))
    ensures FromFit(fit, q, c)
  {
    assert ChargeOf(hits[i].eloss, simu) == Some(q) && i < |f.tofd| && f.tofd[i];
    FreeAtTofd(f, i);
    var left := if hits[i].x > 0.0 && Populated(f, Left) then SideFits(fit, q, f, Left, i) else [];
    var right := if hits[i].x < 0.0 && Populated(f, Right) then SideFits(fit, q, f, Right, i) else [];
    assert TofCandidates(fit, simu, q, f, hits, i) == left + right;
    if c in left {
      SideFitsSound(fit, q, f, Left, i, c);
    } else {
      assert c in right;
      SideFitsSound(fit, q, f, Right, i, c);
    }
  }

  lemma FreeAtTofd(f: Flags, i: nat)
    requires i < |f.tofd| && f.tofd[i]
    ensures FreeAt(f, (Tofd, i))
  {
  }

  lemma UpstreamAndTof(f: Flags, c: Combo)
    requires UpstreamFree(f, c) && FreeAt(f, (Tofd, c.tof))
    ensures AllFree(f, c) && InRange(f, c)
  {
  }

  /** Every candidate a side contributes uses that side, that ToF hit, free hits only, and was
      kept from its own fit. */
  lemma SideFitsSound(fit: Fitter, q: int, f: Flags, side: Side, tof: nat, c: Candidate)
    requires c in SideFits(fit, q, f, side, tof)
    ensures c.combo.side == side && c.combo.tof == tof
    ensures UpstreamFree(f, c.combo)
    ensures FromFit(fit, q, c)
  {
    var o := OuterFitsSound(fit, q, f, side, tof, |FlagsOf(f, OuterDet(side))|, c);
    var s := c.combo;
    assert FreeAt(f, (OuterDet(side), o)) && FreeAt(f, (Fi23a, s.fi23a)) && FreeAt(f, (Fi23b, s.fi23b));
  }

  lemma {:induction false} OuterFitsSound(fit: Fitter, q: int, f: Flags, side: Side, tof: nat, n: nat, c: Candidate)
    returns (o: nat)
    requires n <= |FlagsOf(f, OuterDet(side))|
    requires c in OuterFits(fit, q, f, side, tof, n)
    ensures o < n && FreeAt(f, (OuterDet(side), o))
    ensures exists s :: c.combo == MakeCombo(side, tof, o, s, c.combo.fi23b, c.combo.fi23a) && FreeAt(f, (SecondDet(side), s))
    ensures FreeAt(f, (Fi23a, c.combo.fi23a)) && FreeAt(f, (Fi23b, c.combo.fi23b)) && FromFit(fit, q, c)
  {
    if c in OuterFits(fit, q, f, side, tof, n - 1) {
      o := OuterFitsSound(fit, q, f, side, tof, n - 1, c);
    } else {
      o := n - 1;
      SecondFitsSound(fit, q, f, side, tof, o, |FlagsOf(f, SecondDet(side))|, c);
    }
  }

  lemma {:induction false} SecondFitsSound(fit: Fitter, q: int, f: Flags, side: Side, tof: nat, o: nat, n: nat, c: Candidate)
    requires n <= |FlagsOf(f, SecondDet(side))|
    requires c in SecondFits(fit, q, f, side, tof, o, n)
    ensures exists s :: c.combo == MakeCombo(side, tof, o, s, c.combo.fi23b, c.combo.fi23a) && FreeAt(f, (SecondDet(side), s))
    ensures FreeAt(f, (Fi23a, c.combo.fi23a)) && FreeAt(f, (Fi23b, c.combo.fi23b)) && FromFit(fit, q, c)
  {
    if c in SecondFits(fit, q, f, side, tof, o, n - 1) {
      SecondFitsSound(fit, q, f, side, tof, o, n - 1, c);
    } else {
      Fi23bFitsSound(fit, q, f, side, tof, o, n - 1, |f.fi23b|, c);
      assert FreeAt(f, (SecondDet(side), n - 1));
    }
  }

  lemma {:induction false} Fi23bFitsSound(fit: Fitter, q: int, f: Flags, side: Side, tof: nat, o: nat, s: nat, n: nat, c: Candidate)
    requires n <= |f.fi23b|
    requires c in Fi23bFits(fit, q, f, side, tof, o, s, n)
    ensures c.combo == MakeCombo(side, tof, o, s, c.combo.fi23b, c.combo.fi23a)
    ensures FreeAt(f, (Fi23a, c.combo.fi23a)) && FreeAt(f, (Fi23b, c.combo.fi23b)) && FromFit(fit, q, c)
  {
    if c in Fi23bFits(fit, q, f, side, tof, o, s, n - 1) {
      Fi23bFitsSound(fit, q, f, side, tof, o, s, n - 1, c);
    } else {
      Fi23aFitsSound(fit, q, f, side, tof, o, s, n - 1, |f.fi23a|, c);
    }
  }

  lemma {:induction false} Fi23aFitsSound(fit: Fitter, q: int, f: Flags, side: Side, tof: nat, o: nat, s: nat, b: nat, n: nat, c: Candidate)
    requires n <= |f.fi23a|
    requires c in Fi23aFits(fit, q, f, side, tof, o, s, b, n)
    ensures c.combo == MakeCombo(side, tof, o, s, b, c.combo.fi23a)
    ensures FreeAt(f, (Fi23a, c.combo.fi23a)) && FromFit(fit, q, c)
  {
    if c in Fi23aFits(fit, q, f, side, tof, o, s, b, n - 1) {
      Fi23aFitsSound(fit, q, f, side, tof, o, s, b, n - 1, c);
    } else {
      assert c in FitOne(fit, q, MakeCombo(side, tof, o, s, b, n - 1));
    }
  }

}
