/** The particle arrays `P` and `SphP` as far as the SPH routines read and write them, and
    the neighbour search and smoothing-length guess those routines call (src/tree.h:2,5). */
module Particles {
  import opened RealMath
  import opened Geometry
  import opened Kernels
  import opened NeighbourSums

  datatype Option<T> = None | Some(value: T)

  /** Two accumulated terms under `+=`: both defined, their sum; otherwise undefined (a NaN
      propagates through `+=`). */
  function AddDefined<T>(a: Option<T>, b: Option<T>, plus: (T, T) -> T): (c: Option<T>)
    ensures c.Some? <==> a.Some? && b.Some?
  {
    if a.Some? && b.Some? then Some(plus(a.value, b.value)) else None
  }

  /** An entry of `P`: position and velocity. */
  datatype Particle = Particle(pos: Vec3, vel: Vec3)

  /** An entry of `SphP`: smoothing length, density, the factor `VarHsmlFac`, the specific
      internal energy `U`, the vector potential `Apot` and the magnetic field `Bfld`. */
  datatype SphData = SphData(hsml: real, rho: real, varHsmlFac: real, u: real, apot: Vec3, bfld: Vec3)

  /** The positions of a run of particles, in order. */
  function Positions(ps: seq<Particle>): (pos: seq<Vec3>)
    ensures |pos| == |ps|
    ensures forall i :: 0 <= i < |ps| ==> pos[i] == ps[i].pos
  {
    if |ps| == 0 then [] else Positions(ps[..|ps| - 1]) + [ps[|ps| - 1].pos]
  }

  /** The velocities of a run of particles, in order. */
  function Velocities(ps: seq<Particle>): (vel: seq<Vec3>)
    ensures |vel| == |ps|
    ensures forall i :: 0 <= i < |ps| ==> vel[i] == ps[i].vel
  {
    if |ps| == 0 then [] else Velocities(ps[..|ps| - 1]) + [ps[|ps| - 1].vel]
  }

  /** How a loop over the gas particles ended: every particle written, the first particle
      whose passes ran out, or the first particle whose result has no real value (where
      the C code would store a NaN or an infinity). */
  datatype Status = Completed | OutOfFuel(ipart: nat) | Undefined(ipart: nat)

  /** The pair weight `-mpart/rho_i * dwk / r * varHsmlFac` of src/sph.c:280 and 380 for a
      neighbour at distance r inside the support of h; None where the C code divides by
      zero. */
  function PairWeight(mpart: real, k: Kernel, r: real, h: real, rhoI: real, varFac: real): Option<real>
  {
    if h == 0.0 || r == 0.0 || rhoI == 0.0 then None
    else Some(-mpart / rhoI * DW(k, r, h) / r * varFac)
  }

  /** For a positive mass, density, factor and smoothing length, the weight of a
      neighbour strictly inside the support exists and is non-negative, because the kernel
      falls off with distance. */
  lemma PairWeightNonnegative(mpart: real, k: Kernel, r: real, h: real, rhoI: real, varFac: real)
    requires mpart > 0.0 && rhoI > 0.0 && varFac >= 0.0 && h > 0.0 && 0.0 < r <= h
    ensures PairWeight(mpart, k, r, h, rhoI, varFac).Some?
    ensures PairWeight(mpart, k, r, h, rhoI, varFac).value >= 0.0
  {
    KernelSigns(k, r, h);
    var a := -mpart / rhoI;
    QuotientSigns(mpart, rhoI);
    var b := a * DW(k, r, h);
    MulNonnegative(-a, -DW(k, r, h));
    assert b == (-a) * (-DW(k, r, h));
    QuotientSigns(b, r);
    MulNonnegative(b / r, varFac);
  }

  /** What the model needs of `Find_ngb_tree(ipart, hsml, ngblist)`: it returns at most
      NGBMAX neighbours, each the index of one of the n gas particles. Which particles it
      returns is left open. */
  ghost predicate NeighbourSearch(ngb: (int, real) -> seq<int>, n: int, ngbMax: nat)
  {
    forall i, h :: |ngb(i, h)| <= ngbMax && IndicesIn(ngb(i, h), n)
  }
}
