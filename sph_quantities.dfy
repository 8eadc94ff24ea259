/** `Find_sph_quantities` (src/sph.c:13-75): for every gas particle, seed the smoothing
    length, retry the neighbour search until the list neither overflows nor starves, run
    `Find_hsml` on it until a pass converges, and store Hsml, Rho and VarHsmlFac. */
module SphQuantities {
  import opened RealMath
  import opened Geometry
  import opened Kernels
  import opened NeighbourSums
  import opened HsmlSolver
  import opened Particles

  /** `hsml /= 1.24` when the neighbour list is full. */
  const OverflowShrink: real := 1.24

  /** `hsml *= 1.23` when there are fewer than DESNNGB neighbours. */
  const StarvedGrowth: real := 1.23

  /** The smoothing length a particle starts from: its own, or twice the guess when unset. */
  function Seed(guess: int -> real, ipart: int, hsml: real): real
  {
    if hsml == 0.0 then 2.0 * guess(ipart) else hsml
  }

  /** The successful end of the `for(;;)` of lines 36-64: the smoothing length and density
      `Find_hsml` handed back, the density derivative it left in `dRhodHsml`, and the
      neighbour list of that pass. */
  datatype Settled = Settled(hsml: real, rho: real, dRhodHsml: real, ngbs: seq<int>)

  /** The density `Find_hsml` hands back for a converged run (lines 199-211). */
  function SettledDensity(p: SphParams, s: Search): real
    requires s.hsml != 0.0
  {
    if p.kernel == WendlandC6 then s.sums.rho + BiasCorrection(p, s.hsml) else s.sums.rho
  }

  /** The density derivative left in `dRhodHsml`: the cubic-spline build never writes it. */
  function SettledDerivative(p: SphParams, s: Search): real
  {
    if p.kernel == WendlandC6 then s.sums.dRhodHsml else 0.0
  }

  /** How one pass of the `for(;;)` of lines 36-64 ends: settled, or with the smoothing
      length the next pass starts from. */
  datatype Pass = Done(settled: Settled) | Retry(hsml: real)

  /** One pass: shrink on overflow, grow when starved, otherwise a `Find_hsml` run on the
      list. The test of lines 59-60 is left out: it cannot fire (see `SettleParticle`). */
  function OnePass(p: SphParams, sqrt: real -> real, cbrt: real -> real, ngb: (int, real) -> seq<int>,
                   pos: seq<Vec3>, ipart: int, hsml: real): (r: Pass)
    requires ValidParams(p) && IsCbrt(cbrt) && hsml > 0.0
    requires 0 <= ipart < |pos| && NeighbourSearch(ngb, |pos|, p.ngbMax)
    ensures r.Retry? ==> r.hsml > 0.0
  {
    var ngbs := ngb(ipart, hsml);
    if |ngbs| == p.ngbMax then Retry(hsml / OverflowShrink)
    else if |ngbs| < p.desNgb then Retry(hsml * StarvedGrowth)
    else
      var s := Refine(p, sqrt, cbrt, Separations(pos, ipart, ngbs, p.boxsize), Start(hsml), 0);
      if s.exit == Converged then Done(Settled(s.hsml, SettledDensity(p, s), SettledDerivative(p, s), ngbs))
      else Retry(s.hsml)
  }

  /** The outer `for(;;)` of one particle, with at most `fuel` passes left; None when the
      passes run out. */
  function Settle(p: SphParams, sqrt: real -> real, cbrt: real -> real, ngb: (int, real) -> seq<int>,
                  pos: seq<Vec3>, ipart: int, hsml: real, fuel: nat): Option<Settled>
    requires ValidParams(p) && IsCbrt(cbrt) && hsml > 0.0
    requires 0 <= ipart < |pos| && NeighbourSearch(ngb, |pos|, p.ngbMax)
    decreases fuel
  {
    if fuel == 0 then None
    else
      match OnePass(p, sqrt, cbrt, ngb, pos, ipart, hsml)
      case Done(st) => Some(st)
      case Retry(h) => Settle(p, sqrt, cbrt, ngb, pos, ipart, h, fuel - 1)
  }

  /** `1.0 / (1 + hsml/(3*rho) * dRhodHsml)` (line 66), where the real quotient exists. */
  function VarHsmlFactor(hsml: real, rho: real, dRhodHsml: real): Option<real>
  {
    if rho == 0.0 then None
    else
      var omega := 1.0 + hsml / (3.0 * rho) * dRhodHsml;
      if omega == 0.0 then None else Some(1.0 / omega)
  }

  /** What happens to one particle: its new `SphP` entry, or the reason there is none. */
  datatype Resolution = Resolved(d: SphData) | Exhausted | NoFactor

  /** One iteration of the particle loop of lines 21-72 on the entry `d` of particle ipart. */
  function Resolve(p: SphParams, sqrt: real -> real, cbrt: real -> real, ngb: (int, real) -> seq<int>,
                   guess: int -> real, pos: seq<Vec3>, ipart: int, d: SphData, fuel: nat): Resolution
    requires ValidParams(p) && IsCbrt(cbrt) && d.hsml >= 0.0 && guess(ipart) > 0.0
    requires 0 <= ipart < |pos| && NeighbourSearch(ngb, |pos|, p.ngbMax)
  {
    match Settle(p, sqrt, cbrt, ngb, pos, ipart, Seed(guess, ipart, d.hsml), fuel)
    case None => Exhausted
    case Some(st) =>
      match VarHsmlFactor(st.hsml, st.rho, st.dRhodHsml)
      case None => NoFactor
      case Some(v) => Resolved(d.(hsml := st.hsml, rho := st.rho, varHsmlFac := v))
  }

  /** What a settled particle satisfies: its smoothing length is positive, its neighbour list
      neither overflowed nor starved, the weighted count over that list at the final smoothing
      length is within NNGBDEV of DESNNGB, and its density is the SPH sum over that list (with
      the WC6 bias correction). */
  predicate Converges(p: SphParams, sqrt: real -> real, pos: seq<Vec3>, ipart: int, st: Settled)
    requires 0 <= ipart < |pos|
  {
    && ValidParams(p)
    && st.hsml > 0.0
    && p.desNgb <= |st.ngbs| < p.ngbMax
    && IndicesIn(st.ngbs, |pos|)
    && var sums := SumsOver(p, sqrt, Separations(pos, ipart, st.ngbs, p.boxsize), st.hsml);
    && Deviation(p, sums.wkNgb) < p.ngbDev
    && st.rho == (if p.kernel == WendlandC6 then sums.rho + BiasCorrection(p, st.hsml) else sums.rho)
    && st.dRhodHsml == (if p.kernel == WendlandC6 then sums.dRhodHsml else 0.0)
  }

  /** A pass that settles the particle leaves it converged. */
  lemma PassConverges(p: SphParams, sqrt: real -> real, cbrt: real -> real, ngb: (int, real) -> seq<int>,
                      pos: seq<Vec3>, ipart: int, hsml: real)
    requires ValidParams(p) && IsCbrt(cbrt) && hsml > 0.0
    requires 0 <= ipart < |pos| && NeighbourSearch(ngb, |pos|, p.ngbMax)
    ensures var r := OnePass(p, sqrt, cbrt, ngb, pos, ipart, hsml);
      r.Done? ==> Converges(p, sqrt, pos, ipart, r.settled)
  {
    var ngbs := ngb(ipart, hsml);
    if p.desNgb <= |ngbs| < p.ngbMax {
      RefineOutcome(p, sqrt, cbrt, Separations(pos, ipart, ngbs, p.boxsize), Start(hsml), 0);
    }
  }

  /** Every particle that settles converges. */
  lemma {:induction false} SettledIsConverged(p: SphParams, sqrt: real -> real, cbrt: real -> real,
                                              ngb: (int, real) -> seq<int>, pos: seq<Vec3>,
                                              ipart: int, hsml: real, fuel: nat)
    requires ValidParams(p) && IsCbrt(cbrt) && hsml > 0.0
    requires 0 <= ipart < |pos| && NeighbourSearch(ngb, |pos|, p.ngbMax)
    ensures var r := Settle(p, sqrt, cbrt, ngb, pos, ipart, hsml, fuel);
      r.Some? ==> Converges(p, sqrt, pos, ipart, r.value)
    decreases fuel
  {
    if fuel > 0 {
      PassConverges(p, sqrt, cbrt, ngb, pos, ipart, hsml);
      var r := OnePass(p, sqrt, cbrt, ngb, pos, ipart, hsml);
      if r.Retry? {
        SettledIsConverged(p, sqrt, cbrt, ngb, pos, ipart, r.hsml, fuel - 1);
      }
    }
  }

  /** More passes never change a particle that has settled: the bound only cuts off runs
      that would not have ended. */
  lemma {:induction false} SettleFuelMonotone(p: SphParams, sqrt: real -> real, cbrt: real -> real,
                                              ngb: (int, real) -> seq<int>, pos: seq<Vec3>,
                                              ipart: int, hsml: real, fuel: nat, more: nat)
    requires ValidParams(p) && IsCbrt(cbrt) && hsml > 0.0
    requires 0 <= ipart < |pos| && NeighbourSearch(ngb, |pos|, p.ngbMax)
    requires fuel <= more
    requires Settle(p, sqrt, cbrt, ngb, pos, ipart, hsml, fuel).Some?
    ensures Settle(p, sqrt, cbrt, ngb, pos, ipart, hsml, more) == Settle(p, sqrt, cbrt, ngb, pos, ipart, hsml, fuel)
    decreases fuel
  {
    var r := OnePass(p, sqrt, cbrt, ngb, pos, ipart, hsml);
    if r.Retry? {
      SettleFuelMonotone(p, sqrt, cbrt, ngb, pos, ipart, r.hsml, fuel - 1, more - 1);
    }
  }

  /** The stored factor inverts the denominator of line 66. */
  lemma VarHsmlFactorInverts(hsml: real, rho: real, dRhodHsml: real)
    ensures match VarHsmlFactor(hsml, rho, dRhodHsml)
      case None => rho == 0.0 || 1.0 + hsml / (3.0 * rho) * dRhodHsml == 0.0
      case Some(v) => rho != 0.0 && v * (1.0 + hsml / (3.0 * rho) * dRhodHsml) == 1.0
  {
  }

  /** With the cubic spline `dRhodHsml` stays 0, so VarHsmlFac is exactly 1 for every particle
      that settles with a non-zero density. */
  lemma CubicSplineFactorIsOne(p: SphParams, sqrt: real -> real, cbrt: real -> real,
                               ngb: (int, real) -> seq<int>, pos: seq<Vec3>,
                               ipart: int, hsml: real, fuel: nat)
    requires ValidParams(p) && IsCbrt(cbrt) && hsml > 0.0 && p.kernel == CubicSpline
    requires 0 <= ipart < |pos| && NeighbourSearch(ngb, |pos|, p.ngbMax)
    ensures match Settle(p, sqrt, cbrt, ngb, pos, ipart, hsml, fuel)
      case None => true
      case Some(st) => st.rho != 0.0 ==> VarHsmlFactor(st.hsml, st.rho, st.dRhodHsml) == Some(1.0)
  {
    SettledIsConverged(p, sqrt, cbrt, ngb, pos, ipart, hsml, fuel);
  }

  /** A resolved particle changes only Hsml, Rho and VarHsmlFac, to a positive smoothing length
      and a non-zero density. */
  lemma ResolveWritesOwnFields(p: SphParams, sqrt: real -> real, cbrt: real -> real,
                               ngb: (int, real) -> seq<int>, guess: int -> real, pos: seq<Vec3>,
                               ipart: int, d: SphData, fuel: nat)
    requires ValidParams(p) && IsCbrt(cbrt) && d.hsml >= 0.0 && guess(ipart) > 0.0
    requires 0 <= ipart < |pos| && NeighbourSearch(ngb, |pos|, p.ngbMax)
    ensures match Resolve(p, sqrt, cbrt, ngb, guess, pos, ipart, d, fuel)
      case Resolved(e) =>
        && e.u == d.u && e.apot == d.apot && e.bfld == d.bfld
        && e.hsml > 0.0 && e.rho != 0.0
      case _ => true
  {
    SettledHsmlPositive(p, sqrt, cbrt, ngb, pos, ipart, Seed(guess, ipart, d.hsml), fuel);
  }

  lemma SettledHsmlPositive(p: SphParams, sqrt: real -> real, cbrt: real -> real,
                            ngb: (int, real) -> seq<int>, pos: seq<Vec3>,
                            ipart: int, hsml: real, fuel: nat)
    requires ValidParams(p) && IsCbrt(cbrt) && hsml > 0.0
    requires 0 <= ipart < |pos| && NeighbourSearch(ngb, |pos|, p.ngbMax)
    ensures var r := Settle(p, sqrt, cbrt, ngb, pos, ipart, hsml, fuel);
      r.Some? ==> r.value.hsml > 0.0
  {
    SettledIsConverged(p, sqrt, cbrt, ngb, pos, ipart, hsml, fuel);
  }

  /** One pass of the `for(;;)` of lines 36-64: the neighbour search, the two `continue`s
      and the `Find_hsml` call. `dRhodHsml` is still 0 on entry, as nothing has written it. */
  method RunPass(p: SphParams, sqrt: real -> real, cbrt: real -> real, ngb: (int, real) -> seq<int>,
                 pos: seq<Vec3>, ipart: int, hsmlIn: real, dRhodHsmlIn: real)
    returns (done: bool, hsml: real, rho: real, dRhodHsml: real)
    requires ValidParams(p) && IsCbrt(cbrt) && hsmlIn > 0.0 && dRhodHsmlIn == 0.0
    requires 0 <= ipart < |pos| && NeighbourSearch(ngb, |pos|, p.ngbMax)
    ensures var r := OnePass(p, sqrt, cbrt, ngb, pos, ipart, hsmlIn);
      && done == r.Done?
      && (done ==> hsml == r.settled.hsml && rho == r.settled.rho && dRhodHsml == r.settled.dRhodHsml)
      && (!done ==> hsml == r.hsml && dRhodHsml == 0.0)
  {
    var ngblist := ngb(ipart, hsmlIn);
    var ngbcnt := |ngblist|;
    if ngbcnt == p.ngbMax {
      return false, hsmlIn / OverflowShrink, 0.0, dRhodHsmlIn;
    }
    if ngbcnt < p.desNgb {
      return false, hsmlIn * StarvedGrowth, 0.0, dRhodHsmlIn;
    }
    done, hsml, rho, dRhodHsml := FindHsml(p, sqrt, cbrt, pos, ipart, ngblist, hsmlIn, dRhodHsmlIn);
    if ngbcnt < p.desNgb && !done {
      // line 60 would widen hsml by 1.24 here; the starved case already looped back above
      assert false;
    }
  }

  /** The `for(;;)` of lines 36-64 for one particle, cut off after `fuel` passes. */
  method SettleParticle(p: SphParams, sqrt: real -> real, cbrt: real -> real, ngb: (int, real) -> seq<int>,
                        pos: seq<Vec3>, ipart: int, hsmlIn: real, fuel: nat)
    returns (found: bool, hsml: real, rho: real, dRhodHsml: real)
    requires ValidParams(p) && IsCbrt(cbrt) && hsmlIn > 0.0
    requires 0 <= ipart < |pos| && NeighbourSearch(ngb, |pos|, p.ngbMax)
    ensures var r := Settle(p, sqrt, cbrt, ngb, pos, ipart, hsmlIn, fuel);
      && found == r.Some?
      && (found ==> hsml == r.value.hsml && rho == r.value.rho && dRhodHsml == r.value.dRhodHsml)
  {
    hsml := hsmlIn;
    dRhodHsml := 0.0;
    rho := 0.0;
    found := false;
    var left := fuel;
    while true
      invariant hsml > 0.0 && dRhodHsml == 0.0
      invariant Settle(p, sqrt, cbrt, ngb, pos, ipart, hsml, left) == Settle(p, sqrt, cbrt, ngb, pos, ipart, hsmlIn, fuel)
      decreases left
    {
      if left == 0 {
        return;
      }
      left := left - 1;
      var done;
      done, hsml, rho, dRhodHsml := RunPass(p, sqrt, cbrt, ngb, pos, ipart, hsml, dRhodHsml);
      if done {
        found := true;
        return;
      }
    }
  }

  /** Lines 23-70 for one particle: seed, settle, and the new entry of `SphP`. */
  method ResolveParticle(p: SphParams, sqrt: real -> real, cbrt: real -> real, ngb: (int, real) -> seq<int>,
                         guess: int -> real, pos: seq<Vec3>, ipart: int, d: SphData, fuel: nat)
    returns (r: Resolution)
    requires ValidParams(p) && IsCbrt(cbrt) && d.hsml >= 0.0 && guess(ipart) > 0.0
    requires 0 <= ipart < |pos| && NeighbourSearch(ngb, |pos|, p.ngbMax)
    ensures r == Resolve(p, sqrt, cbrt, ngb, guess, pos, ipart, d, fuel)
  {
    var hsml := d.hsml;
    if hsml == 0.0 {
      hsml := 2.0 * guess(ipart);
    }
    var found, rho, dRhodHsml;
    found, hsml, rho, dRhodHsml := SettleParticle(p, sqrt, cbrt, ngb, pos, ipart, hsml, fuel);
    if !found {
      return Exhausted;
    }
    var fac := VarHsmlFactor(hsml, rho, dRhodHsml);
    if fac.None? {
      return NoFactor;
    }
    r := Resolved(d.(hsml := hsml, rho := rho, varHsmlFac := fac.value));
  }

  /** `Find_sph_quantities`: the particle loop of lines 21-72 over the gas particles
      `sph[0..]`, whose positions are the first entries of `part`. Particles are handled in
      index order; each reads only positions, so the order does not matter. */
  method FindSphQuantities(p: SphParams, sqrt: real -> real, cbrt: real -> real, ngb: (int, real) -> seq<int>,
                           guess: int -> real, part: array<Particle>, sph: array<SphData>, fuel: nat)
    returns (status: Status)
    requires ValidParams(p) && IsCbrt(cbrt) && sph.Length <= part.Length
    requires NeighbourSearch(ngb, sph.Length, p.ngbMax)
    requires forall i :: 0 <= i < sph.Length ==> sph[i].hsml >= 0.0 && guess(i) > 0.0
    modifies sph
    ensures var pos := Positions(part[..sph.Length]);
      var stop := if status.Completed? then sph.Length else status.ipart;
      && stop <= sph.Length
      && (!status.Completed? ==> stop < sph.Length)
      && (forall i :: 0 <= i < stop ==> Resolve(p, sqrt, cbrt, ngb, guess, pos, i, old(sph[i]), fuel) == Resolved(sph[i]))
      && (forall i :: stop <= i < sph.Length ==> sph[i] == old(sph[i]))
      && (status.OutOfFuel? ==> Resolve(p, sqrt, cbrt, ngb, guess, pos, stop, old(sph[stop]), fuel) == Exhausted)
      && (status.Undefined? ==> Resolve(p, sqrt, cbrt, ngb, guess, pos, stop, old(sph[stop]), fuel) == NoFactor)
  {
    var pos := Positions(part[..sph.Length]);
    var ipart := 0;
    while ipart < sph.Length
      invariant 0 <= ipart <= sph.Length
      invariant forall i :: 0 <= i < ipart ==> Resolve(p, sqrt, cbrt, ngb, guess, pos, i, old(sph[i]), fuel) == Resolved(sph[i])
      invariant forall i :: ipart <= i < sph.Length ==> sph[i] == old(sph[i])
    {
      var r := ResolveParticle(p, sqrt, cbrt, ngb, guess, pos, ipart, sph[ipart], fuel);
      match r
      case Exhausted =>
        return OutOfFuel(ipart);
      case NoFactor =>
        return Undefined(ipart);
      case Resolved(d) =>
        sph[ipart] := d;
      ipart := ipart + 1;
    }
    return Completed;
  }
}
