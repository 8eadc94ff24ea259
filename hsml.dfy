/** `Find_hsml` (src/sph.c:80-214): for one particle and a fixed neighbour list, adjust the
    smoothing length until the kernel-weighted neighbour count is within NNGBDEV of DESNNGB,
    by clamped Newton-Raphson steps and bisection in h^3. */
module HsmlSolver {
  import opened RealMath
  import opened Geometry
  import opened Kernels
  import opened NeighbourSums

  /** The pass whose number exceeds 128 is the last one (`it > 128` after the sums). */
  const MaxPasses: nat := 129

  /** `fabs(upper - lower) < 1e-4` means the bracket has collapsed. */
  const BracketTolerance: real := 0.0001

  /** The widening applied when the bracket collapses ("double volume"). */
  const CollapseWidening: real := 1.26

  /** The clamp on one Newton-Raphson step. */
  const StepLimit: real := 1.24

  /** The three ways out of the `for(;;)` of `Find_hsml`. */
  datatype Exit = Converged | HardExit | Collapsed

  /** The end of one run: how it ended, the smoothing length of the last pass (`probe`), the
      smoothing length handed back, the sums of the last pass and the number of passes made. */
  datatype Search = Search(exit: Exit, probe: real, hsml: real, sums: Sums, passes: nat)

  /** `ngbDev = fabs(wkNgb - DESNNGB)` */
  function Deviation(p: SphParams, wkNgb: real): (dev: real)
    ensures dev >= 0.0
    ensures dev == 0.0 <==> wkNgb == p.desNgb as real
  {
    Abs(wkNgb - p.desNgb as real)
  }

  /** `omega = 1 + hsml / (3 rho) * drho/dh`, the correction of the Newton step for the
      change of the density with the smoothing length. */
  function Omega(s: Sums, hsml: real): real
    requires s.rho != 0.0
  {
    1.0 + s.dRhodHsml * hsml / (3.0 * s.rho)
  }

  /** The clamped Newton-Raphson factor of lines 177-182. When omega is exactly zero the
      C quotient is an infinity (or NaN when the count is on target) and fmin/fmax turn it
      into one of the clamp bounds; that case is written out. */
  function NewtonFactor(des: real, s: Sums, hsml: real): (fac: real)
    requires s.rho != 0.0 && s.wkNgb != 0.0
    ensures 1.0 / StepLimit <= fac <= StepLimit
  {
    var omega := Omega(s, hsml);
    if omega == 0.0 then
      (if s.wkNgb > des then 1.0 / StepLimit else StepLimit)
    else
      Max(1.0 / StepLimit, Min(StepLimit, 1.0 - (s.wkNgb - des) / (3.0 * s.wkNgb * omega)))
  }

  /** The smoothing length of the next pass after a Newton-Raphson step. */
  function NewtonProbe(des: real, s: Sums, hsml: real): (h: real)
    requires s.rho != 0.0 && s.wkNgb != 0.0 && hsml > 0.0
    ensures hsml <= StepLimit * h && h <= StepLimit * hsml
    ensures h > 0.0
  {
    var fac := NewtonFactor(des, s, hsml);
    MulPositive(hsml, fac);
    MulMonotone(hsml, fac, StepLimit);
    MulMonotone(hsml, 1.0 / StepLimit, fac);
    hsml * fac
  }

  /** The bisection point in volume: `pow(0.5 * (p3(lower) + p3(upper)), 1/3)`. */
  function BisectInVolume(cbrt: real -> real, lower: real, upper: real): real
  {
    cbrt(0.5 * (Cube(lower) + Cube(upper)))
  }

  /** The WC6 self-contribution bias correction of Dehnen & Aly (2012), lines 206-207. */
  function BiasCorrection(p: SphParams, hsml: real): real
    requires hsml != 0.0
  {
    -0.0116 * p.biasPow * p.mpart * WC6(0.0, hsml)
  }

  /** In the Newton branch the count is above DESNNGB/2, hence positive, and so is the
      density: both divisions of the Newton step are defined. */
  lemma NewtonBranchDefined(p: SphParams, sqrt: real -> real, seps: seq<Vec3>, hsml: real)
    requires ValidParams(p) && hsml > 0.0
    ensures var s := SumsOver(p, sqrt, seps, hsml);
      Deviation(p, s.wkNgb) < 0.5 * (p.desNgb as real) ==> s.wkNgb > 0.0 && s.rho > 0.0
  {
    if SumsOver(p, sqrt, seps, hsml).wkNgb > 0.0 {
      PositiveCountPositiveDensity(p, sqrt, seps, hsml);
    }
  }

  /** What the `for(;;)` carries from one pass to the next: the smoothing length to probe
      and the bisection bracket [lower, upper]. */
  datatype Bracket = Bracket(probe: real, lower: real, upper: real)
  {
    predicate Ready()
    {
      probe > 0.0 && lower >= 0.0 && upper > 0.0
    }
  }

  /** The state before the first pass: lower = 0 and upper = hsml * sqrt3 (lines 86-89). */
  function Start(hsml: real): (b: Bracket)
    requires hsml > 0.0
    ensures b.Ready() && b.probe == hsml && b.lower < b.upper
    ensures b.lower == 0.0 && b.upper == hsml * Sqrt3 && b.lower < b.probe < b.upper
  {
    MulPositive(hsml, Sqrt3);
    Bracket(hsml, 0.0, hsml * Sqrt3)
  }

  /** `ngbDev < 0.5 * DESNNGB`: the count is close enough for a Newton-Raphson step. */
  predicate NearTarget(p: SphParams, wkNgb: real)
  {
    Deviation(p, wkNgb) < 0.5 * (p.desNgb as real)
  }

  /** The end of a pass that neither stopped nor collapsed (lines 170-195): a clamped
      Newton-Raphson step near the target, otherwise a bisection in volume after the bracket
      end on the wrong side has moved to the probe. */
  function Advance(p: SphParams, cbrt: real -> real, s: Sums, b: Bracket): (b': Bracket)
    requires IsCbrt(cbrt) && b.Ready()
    requires NearTarget(p, s.wkNgb) ==> s.rho != 0.0 && s.wkNgb != 0.0
    ensures b'.Ready()
  {
    var des := p.desNgb as real;
    if NearTarget(p, s.wkNgb) then
      Bracket(NewtonProbe(des, s, b.probe), b.lower, b.upper)
    else
      var upper := if s.wkNgb > des then b.probe else b.upper;
      var lower := if s.wkNgb < des then b.probe else b.lower;
      BisectionPositive(cbrt, lower, upper);
      Bracket(BisectInVolume(cbrt, lower, upper), lower, upper)
  }

  /** The solver itself, pass by pass: `it` passes have been made and `b` is the state the
      next one starts from. */
  function Refine(p: SphParams, sqrt: real -> real, cbrt: real -> real, seps: seq<Vec3>,
                  b: Bracket, it: nat): (s: Search)
    requires ValidParams(p) && IsCbrt(cbrt) && b.Ready() && it < MaxPasses
    ensures s.hsml > 0.0
    decreases MaxPasses - it
  {
    var sums := SumsOver(p, sqrt, seps, b.probe);
    var passes := it + 1;
    if passes > 128 then
      Search(HardExit, b.probe, b.probe, sums, passes)
    else if Deviation(p, sums.wkNgb) < p.ngbDev then
      Search(Converged, b.probe, b.probe, sums, passes)
    else if Abs(b.upper - b.lower) < BracketTolerance then
      MulPositive(b.probe, CollapseWidening);
      Search(Collapsed, b.probe, b.probe * CollapseWidening, sums, passes)
    else
      NewtonBranchDefined(p, sqrt, seps, b.probe);
      Refine(p, sqrt, cbrt, seps, Advance(p, cbrt, sums, b), passes)
  }

  /** What every run returns: a pass count within the limit, the sums of the last probe, a
      hard exit exactly when the limit is reached, convergence only within NNGBDEV of
      DESNNGB, and the smoothing length handed back for each way out. */
  lemma {:induction false} RefineOutcome(p: SphParams, sqrt: real -> real, cbrt: real -> real,
                                         seps: seq<Vec3>, b: Bracket, it: nat)
    requires ValidParams(p) && IsCbrt(cbrt) && b.Ready() && it < MaxPasses
    ensures var s := Refine(p, sqrt, cbrt, seps, b, it);
      && it < s.passes <= MaxPasses
      && s.probe > 0.0
      && s.sums == SumsOver(p, sqrt, seps, s.probe)
      && (s.exit == HardExit <==> s.passes == MaxPasses)
      && (s.exit == HardExit ==> s.hsml == s.probe)
      && (s.exit == Converged ==> Deviation(p, s.sums.wkNgb) < p.ngbDev && s.hsml == s.probe)
      && (s.exit == Collapsed ==> s.hsml == CollapseWidening * s.probe)
    decreases MaxPasses - it
  {
    var sums := SumsOver(p, sqrt, seps, b.probe);
    if it + 1 <= 128 && Deviation(p, sums.wkNgb) >= p.ngbDev && Abs(b.upper - b.lower) >= BracketTolerance {
      NewtonBranchDefined(p, sqrt, seps, b.probe);
      RefineOutcome(p, sqrt, cbrt, seps, Advance(p, cbrt, sums, b), it + 1);
    }
  }

  /** The bisection point is positive as soon as the upper end is. */
  lemma BisectionPositive(cbrt: real -> real, lower: real, upper: real)
    requires IsCbrt(cbrt) && lower >= 0.0 && upper > 0.0
    ensures BisectInVolume(cbrt, lower, upper) > 0.0
  {
    var x := 0.5 * (Cube(lower) + Cube(upper));
    CubeSigns(lower);
    CubeSigns(upper);
    var c := cbrt(x);
    assert c * c * c == x;
  }

  /** Bisecting in volume lands between the two ends of the bracket, whichever is larger. */
  lemma BisectionInBracket(cbrt: real -> real, lower: real, upper: real)
    requires IsCbrt(cbrt) && lower >= 0.0 && upper >= 0.0
    ensures Min(lower, upper) <= BisectInVolume(cbrt, lower, upper) <= Max(lower, upper)
  {
    var lo, hi := Min(lower, upper), Max(lower, upper);
    if lo < hi {
      CubeStrictlyIncreasing(lo, hi);
    }
    CbrtBetween(cbrt, lo, hi, 0.5 * (Cube(lower) + Cube(upper)));
  }

  /** Too many neighbours shrink the smoothing length and too few grow it, whenever the
      Newton denominator omega is positive. */
  lemma NewtonStepDirection(des: real, s: Sums, hsml: real)
    requires s.rho != 0.0 && s.wkNgb > 0.0
    requires Omega(s, hsml) > 0.0
    ensures s.wkNgb > des ==> NewtonFactor(des, s, hsml) < 1.0
    ensures s.wkNgb < des ==> NewtonFactor(des, s, hsml) > 1.0
  {
    NewtonQuotientSign(s.wkNgb - des, s.wkNgb, Omega(s, hsml));
  }

  lemma NewtonQuotientSign(a: real, w: real, omega: real)
    requires w > 0.0 && omega > 0.0
    ensures a > 0.0 ==> a / (3.0 * w * omega) > 0.0
    ensures a < 0.0 ==> a / (3.0 * w * omega) < 0.0
  {
    var d := 3.0 * w * omega;
    assert d > 0.0;
    QuotientSigns(a, d);
  }

  /** A Newton pass keeps the bracket, moves the probe by at most the clamp factor, and
      moves it the right way when omega is positive. */
  lemma AdvanceNewton(p: SphParams, cbrt: real -> real, s: Sums, b: Bracket)
    requires IsCbrt(cbrt) && b.Ready()
    requires NearTarget(p, s.wkNgb) && s.rho != 0.0 && s.wkNgb > 0.0
    ensures var b' := Advance(p, cbrt, s, b);
      && b'.lower == b.lower && b'.upper == b.upper
      && b.probe <= StepLimit * b'.probe && b'.probe <= StepLimit * b.probe
      && (Omega(s, b.probe) > 0.0 && s.wkNgb > p.desNgb as real ==> b'.probe < b.probe)
      && (Omega(s, b.probe) > 0.0 && s.wkNgb < p.desNgb as real ==> b'.probe > b.probe)
  {
    var des := p.desNgb as real;
    var fac := NewtonFactor(des, s, b.probe);
    var probe' := Advance(p, cbrt, s, b).probe;
    assert probe' == b.probe * fac;
    if Omega(s, b.probe) > 0.0 {
      NewtonStepDirection(des, s, b.probe);
      if s.wkNgb > des {
        ScaleDirection(b.probe, fac);
        assert probe' < b.probe;
      } else if s.wkNgb < des {
        ScaleDirection(b.probe, fac);
        assert probe' > b.probe;
      }
    }
  }

  lemma ScaleDirection(h: real, fac: real)
    requires h > 0.0
    ensures fac < 1.0 ==> h * fac < h
    ensures fac > 1.0 ==> h * fac > h
  {
    if fac < 1.0 {
      MulPositive(h, 1.0 - fac);
    } else if fac > 1.0 {
      MulPositive(h, fac - 1.0);
    }
  }

  /** A bisection pass replaces the upper end by the probe when there are too many
      neighbours and the lower end when there are too few, and probes between the ends. */
  lemma AdvanceBisect(p: SphParams, cbrt: real -> real, s: Sums, b: Bracket)
    requires IsCbrt(cbrt) && b.Ready() && !NearTarget(p, s.wkNgb)
    ensures var b' := Advance(p, cbrt, s, b);
      && (s.wkNgb > p.desNgb as real ==> b'.upper == b.probe && b'.lower == b.lower)
      && (s.wkNgb < p.desNgb as real ==> b'.lower == b.probe && b'.upper == b.upper)
      && Min(b'.lower, b'.upper) <= b'.probe <= Max(b'.lower, b'.upper)
  {
    var b' := Advance(p, cbrt, s, b);
    BisectionInBracket(cbrt, b'.lower, b'.upper);
  }

  /** The bias correction lowers the density of a converged WC6 particle. */
  lemma BiasCorrectionNegative(p: SphParams, hsml: real)
    requires ValidParams(p) && hsml > 0.0
    ensures BiasCorrection(p, hsml) < 0.0
  {
    WC6Support(0.0, hsml);
    MulPositive(p.biasPow, p.mpart);
    MulPositive(p.biasPow * p.mpart, WC6(0.0, hsml));
  }

  /** The three exits of a pass: what the run returns when this pass is its last. */
  lemma RefineStops(p: SphParams, sqrt: real -> real, cbrt: real -> real, seps: seq<Vec3>,
                    b: Bracket, it: nat)
    requires ValidParams(p) && IsCbrt(cbrt) && b.Ready() && it < MaxPasses
    ensures var sums := SumsOver(p, sqrt, seps, b.probe);
      var r := Refine(p, sqrt, cbrt, seps, b, it);
      && (it + 1 > 128 ==> r == Search(HardExit, b.probe, b.probe, sums, it + 1))
      && (it + 1 <= 128 && Deviation(p, sums.wkNgb) < p.ngbDev
          ==> r == Search(Converged, b.probe, b.probe, sums, it + 1))
      && (it + 1 <= 128 && Deviation(p, sums.wkNgb) >= p.ngbDev && Abs(b.upper - b.lower) < BracketTolerance
          ==> r == Search(Collapsed, b.probe, b.probe * CollapseWidening, sums, it + 1))
  {
  }

  /** A pass that does not stop hands the run on to the next pass from the advanced state. */
  lemma RefineContinues(p: SphParams, sqrt: real -> real, cbrt: real -> real, seps: seq<Vec3>,
                        b: Bracket, it: nat)
    requires ValidParams(p) && IsCbrt(cbrt) && b.Ready() && it < MaxPasses - 1
    requires Deviation(p, SumsOver(p, sqrt, seps, b.probe).wkNgb) >= p.ngbDev
    requires Abs(b.upper - b.lower) >= BracketTolerance
    ensures var s := SumsOver(p, sqrt, seps, b.probe);
      NearTarget(p, s.wkNgb) ==> s.rho != 0.0 && s.wkNgb != 0.0
    ensures Refine(p, sqrt, cbrt, seps, b, it)
         == Refine(p, sqrt, cbrt, seps, Advance(p, cbrt, SumsOver(p, sqrt, seps, b.probe), b), it + 1)
  {
    NewtonBranchDefined(p, sqrt, seps, b.probe);
  }

  /** Lines 170-195 on the solver's own variables. */
  method NextProbe(p: SphParams, cbrt: real -> real, sums: Sums, hsml: real, lower: real, upper: real)
    returns (hsml': real, lower': real, upper': real)
    requires IsCbrt(cbrt) && Bracket(hsml, lower, upper).Ready()
    requires NearTarget(p, sums.wkNgb) ==> sums.rho != 0.0 && sums.wkNgb != 0.0
    ensures Bracket(hsml', lower', upper') == Advance(p, cbrt, sums, Bracket(hsml, lower, upper))
  {
    var des := p.desNgb as real;
    hsml', lower', upper' := hsml, lower, upper;
    if Deviation(p, sums.wkNgb) < 0.5 * des {
      var fac := NewtonFactor(des, sums, hsml);
      hsml' := hsml * fac;
    } else {
      if sums.wkNgb > des {
        upper' := hsml;
      }
      if sums.wkNgb < des {
        lower' := hsml;
      }
      hsml' := BisectInVolume(cbrt, lower', upper');
    }
  }

  /** `Find_hsml`: the passes of the `for(;;)` of lines 96-196 over the neighbour list
      `ngblist` of particle `ipart`, then the writes of lines 198-211. `dRhodHsmlIn` is the
      value `*dRhodHsml_out` held before the call. */
  method FindHsml(p: SphParams, sqrt: real -> real, cbrt: real -> real, pos: seq<Vec3>,
                  ipart: int, ngblist: seq<int>, hsmlIn: real, dRhodHsmlIn: real)
    returns (done: bool, hsmlOut: real, rhoOut: real, dRhodHsmlOut: real)
    requires ValidParams(p) && IsCbrt(cbrt) && hsmlIn > 0.0
    requires 0 <= ipart < |pos| && IndicesIn(ngblist, |pos|)
    ensures var s := Refine(p, sqrt, cbrt, Separations(pos, ipart, ngblist, p.boxsize), Start(hsmlIn), 0);
      && done == (s.exit == Converged)
      && hsmlOut == s.hsml
      && rhoOut == (if done && p.kernel == WendlandC6 then s.sums.rho + BiasCorrection(p, s.hsml) else s.sums.rho)
      && dRhodHsmlOut == (if done && p.kernel == WendlandC6 then s.sums.dRhodHsml else dRhodHsmlIn)
  {
    var upper := hsmlIn * Sqrt3;
    var lower := 0.0;
    var hsml := hsmlIn;
    var rho, dRhodHsml := 0.0, 0.0;
    var it := 0;
    done := false;
    ghost var seps := Separations(pos, ipart, ngblist, p.boxsize);
    ghost var goal := Refine(p, sqrt, cbrt, seps, Start(hsmlIn), 0);
    while true
      invariant Bracket(hsml, lower, upper).Ready() && it < MaxPasses
      invariant Refine(p, sqrt, cbrt, seps, Bracket(hsml, lower, upper), it) == goal
      decreases MaxPasses - it
    {
      var wkNgb;
      wkNgb, rho, dRhodHsml := AccumulateNeighbours(p, sqrt, pos, ipart, ngblist, hsml);
      it := it + 1;
      if it > 128 {
        break;
      }
      var ngbDev := Deviation(p, wkNgb);
      if ngbDev < p.ngbDev {
        done := true;
        break;
      }
      if Abs(upper - lower) < BracketTolerance {
        hsml := hsml * CollapseWidening;
        break;
      }
      RefineContinues(p, sqrt, cbrt, seps, Bracket(hsml, lower, upper), it - 1);
      hsml, lower, upper := NextProbe(p, cbrt, Sums(wkNgb, rho, dRhodHsml), hsml, lower, upper);
    }
    hsmlOut := hsml;
    rhoOut := rho;
    dRhodHsmlOut := dRhodHsmlIn;
    if p.kernel == WendlandC6 && done {
      dRhodHsmlOut := dRhodHsml;
      rhoOut := rhoOut + BiasCorrection(p, hsml);
    }
  }
}
