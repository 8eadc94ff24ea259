/** The particle bookkeeping of `Setup` (src/setup.c:4-302): how the total mass is split
    between the two clusters and between gas and dark matter, how many particles each cluster
    gets, where each cluster's slices start in the particle array, and where the two clusters
    are placed relative to their common centre of mass.

    The astrophysical quantities the C code computes with pow, log, atan and sqrt (R200, the
    concentration, the Hernquist scale length, the gas mass inside the sampling radius and the
    escape velocity) are inputs here. The globals `Halo[]` and `Param` start zeroed in C; the
    model starts from `Unset` records and returns the records Setup leaves behind. */
module ClusterSetup {
  import opened RealMath
  import opened Geometry
  import opened Profiles

  /** A per-species value: index 0 (gas) and index 1 (dark matter) of the C arrays. */
  datatype Species = Species(gas: real, dm: real)

  /** A per-species particle count. */
  datatype Counts = Counts(gas: int, dm: int)

  /** The mass and count fields of `struct HaloProperties` that Setup writes. */
  datatype Book = Book(
    mtotal200: real, mass200: Species, cNfw: real, r200: real, rs: real, aHernq: real,
    rSample: Species, rcut: real, rcore: real, massCorrFac: real, mass: Species,
    mtotal: real, npart: Counts, ntotal: int)

  /** A cluster after Setup: its bookkeeping, the offsets into `P` of its `Gas` and `DM`
      pointers, and its placement. */
  datatype Halo = Halo(book: Book, gasStart: int, dmStart: int, dCoM: Vec3, bulkVel: Vec3)

  /** A zeroed bookkeeping record. */
  const Unset := Book(0.0, Species(0.0, 0.0), 0.0, 0.0, 0.0, 0.0, Species(0.0, 0.0), 0.0, 0.0,
                      0.0, Species(0.0, 0.0), 0.0, Counts(0, 0), 0)

  /** Per cluster, the results of the transcendental functions: `Concentration_parameter`,
      R200, `A_hernq` and the gas mass `Mass_profile(R_Sample[0], Rho0, Rcore, Rcut)`. */
  datatype HaloInput = HaloInput(cNfw: real, r200: real, aHernq: real, gasMass: real)

  /** The parameter-file values Setup reads, the compile-time constants
      `R200_TO_RMAX_RATIO` and `ZERO_ENERGY_ORBIT_FRACTION`, the square root in the
      zero-energy orbit velocity, and whether neither PARABOLA nor COMET is defined. */
  datatype SetupInput = SetupInput(
    mtot200: real, massRatio: real, baryonFraction: real, ntotal: int, impactParam: real,
    cuspy: bv32, rmaxRatio: real, zeroEnergyFraction: real, orbitVelocity: real,
    directKinematics: bool, halo: seq<HaloInput>)

  /** The fields of `Param` that Setup writes. */
  datatype Params = Params(
    nhalos: nat, boxsize: real, mtotal: real, mpart: Species, npart: Counts,
    velHost: real, velInfall: real)

  /** Positive total mass, mass ratio and baryon fraction not negative, at least two
      particles, positive concentrations and radii and a box of at least unit size: the
      ranges for which no division in Setup has a zero divisor. */
  predicate ValidInput(inp: SetupInput)
  {
    && inp.mtot200 > 0.0 && inp.massRatio >= 0.0 && inp.baryonFraction >= 0.0
    && inp.ntotal >= 2
    && |inp.halo| == 2
    && (forall i :: 0 <= i < 2 ==> ValidHaloInput(inp.halo[i]))
    && BoxsizeOf(inp) >= 1.0
  }

  predicate ValidHaloInput(h: HaloInput)
  {
    h.cNfw > 0.0 && h.r200 > 0.0 && h.aHernq >= 0.0 && h.gasMass >= 0.0
  }

  /** `Param.Boxsize = floor(2 R200_TO_RMAX_RATIO R200)` of the first cluster. */
  function BoxsizeOf(inp: SetupInput): real
    requires |inp.halo| == 2
  {
    (2.0 * inp.rmaxRatio * inp.halo[0].r200).Floor as real
  }

  /** C's `round`: to the nearest integer, halves away from zero. */
  function Round(x: real): (n: int)
    ensures x >= 0.0 ==> x - 0.5 < n as real <= x + 0.5
    ensures x < 0.0 ==> x - 0.5 <= n as real < x + 0.5
  {
    if x >= 0.0 then (x + 0.5).Floor else -((-x + 0.5).Floor)
  }

  /** `round(mass / mpart)`: the number of particles of mass mpart whose total is nearest to
      mass, never negative for a non-negative mass. A zero particle mass occurs only in the
      dark-matter-only case, whose gas counts are overwritten afterwards; the model counts 0
      there. */
  function CountOf(mass: real, mpart: real): (n: int)
    ensures mpart > 0.0 ==> mass - mpart / 2.0 <= n as real * mpart <= mass + mpart / 2.0
    ensures mass >= 0.0 && mpart > 0.0 ==> n >= 0
    ensures mpart == 0.0 ==> n == 0
  {
    if mpart == 0.0 then 0
    else
      var x := mass / mpart;
      assert mpart > 0.0 ==> mass - mpart / 2.0 <= Round(x) as real * mpart <= mass + mpart / 2.0 by {
        if mpart > 0.0 {
          assert x * mpart == mass;
          MulNonnegative(Round(x) as real - (x - 0.5), mpart);
          MulNonnegative((x + 0.5) - Round(x) as real, mpart);
        }
      }
      assert mass >= 0.0 && mpart > 0.0 ==> x >= 0.0 by {
        if mpart > 0.0 { QuotientSigns(mass, mpart); }
      }
      Round(x)
  }

  /** The Hernquist-to-NFW mass correction factor `1 + 2q + q^2`. */
  function CorrectionTerm(q: real): (t: real)
    ensures q >= 0.0 ==> t >= 1.0
  {
    1.0 + 2.0 * q + q * q
  }

  /** First books loop (src/setup.c:28-42): the gas/DM split of the mass inside R200 and the
      structural radii. */
  function Structure(h: Book, hin: HaloInput, bf: real): (r: Book)
    requires bf >= 0.0 && ValidHaloInput(hin)
    ensures r.mtotal200 == h.mtotal200
    ensures r.mass200.gas + r.mass200.dm == h.mtotal200
    ensures r.mass200.dm * (1.0 + bf) == h.mtotal200
    ensures r.r200 == hin.r200 && r.rs > 0.0 && r.aHernq >= 0.0
    ensures h.mtotal200 >= 0.0 ==> r.mass200.dm >= 0.0
  {
    var dm := h.mtotal200 / (1.0 + bf);
    QuotientSigns(h.mtotal200, 1.0 + bf);
    QuotientSigns(hin.r200, hin.cNfw);
    h.(mass200 := Species(h.mtotal200 - dm, dm), cNfw := hin.cNfw, r200 := hin.r200,
       rs := hin.r200 / hin.cNfw, aHernq := hin.aHernq)
  }

  /** Second books loop (src/setup.c:46-90): sampling radii, core radius, the masses inside
      the sampling radii, and the dark-matter-only transfer of the gas mass. */
  function Masses(h: Book, i: nat, boxsize: real, cuspy: bv32, bf: real, gasMass: real): (r: Book)
    requires i < 2 && h.r200 > 0.0 && h.aHernq >= 0.0 && boxsize > 0.0
    ensures r.mass.gas + r.mass.dm == r.mtotal
    ensures bf == 0.0 ==> r.mass.gas == 0.0
    ensures bf != 0.0 ==> r.mass.gas == gasMass
    ensures r.mtotal == gasMass + r.mass200.dm * CorrectionTerm(h.aHernq / h.r200) * r.massCorrFac
    ensures r.mass200 == h.mass200 && r.mtotal200 == h.mtotal200 && r.r200 == h.r200
    ensures h.mass200.dm >= 0.0 && gasMass >= 0.0 ==> r.mass.gas >= 0.0 && r.mass.dm >= 0.0
  {
    var rSample := if i == 0 then Species(Sqrt3 * boxsize / 2.0, boxsize / 2.0)
                   else Species(h.r200 * 1.5, h.r200 * 1.5);
    assert rSample.dm > 0.0;
    var a := h.aHernq;
    QuotientSigns(a, rSample.dm);
    QuotientSigns(a, h.r200);
    var corr := 1.0 / CorrectionTerm(a / rSample.dm);
    var dm := h.mass200.dm * CorrectionTerm(a / h.r200) * corr;
    assert h.mass200.dm >= 0.0 ==> dm >= 0.0 by {
      QuotientSigns(1.0, CorrectionTerm(a / rSample.dm));
      if h.mass200.dm >= 0.0 {
        MulNonnegative(h.mass200.dm, CorrectionTerm(a / h.r200));
        MulNonnegative(h.mass200.dm * CorrectionTerm(a / h.r200), corr);
      }
    }
    var mass := if bf == 0.0 then Species(0.0, dm + gasMass) else Species(gasMass, dm);
    h.(rSample := rSample, rcut := h.r200, rcore := GasCoreRadius(cuspy, i, h.rs),
       massCorrFac := corr, mass := mass, mtotal := gasMass + dm)
  }

  /** A book with new particle counts and `Ntotal` their sum; nothing else changes. */
  function Recount(h: Book, n: Counts): (r: Book)
    ensures r.npart == n && r.ntotal == n.gas + n.dm
    ensures r.(npart := h.npart, ntotal := h.ntotal) == h
  {
    h.(npart := n, ntotal := n.gas + n.dm)
  }

  /** A cluster's own particle counts as written (src/setup.c:155-156, 167-168): each
      species' mass over its particle mass, rounded, or for a dark-matter-only run all of the
      cluster's mass in DM particles and no gas particles. Each count is within half a
      particle of the mass it stands for; nothing ties the counts to the quota. */
  function CountFor(h: Book, mpart: Species, dmOnly: bool): (n: Counts)
    ensures dmOnly ==> n.gas == 0
    ensures !dmOnly && mpart.gas > 0.0 ==>
      h.mass.gas - mpart.gas / 2.0 <= n.gas as real * mpart.gas <= h.mass.gas + mpart.gas / 2.0
    ensures mpart.dm > 0.0 ==> var m := if dmOnly then h.mtotal else h.mass.dm;
      m - mpart.dm / 2.0 <= n.dm as real * mpart.dm <= m + mpart.dm / 2.0
  {
    if dmOnly then Counts(0, CountOf(h.mtotal, mpart.dm))
    else Counts(CountOf(h.mass.gas, mpart.gas), CountOf(h.mass.dm, mpart.dm))
  }

  /** The particles of each species the array holds: `nGas` and `nDM`, half of `Param.Ntotal`
      each, or all of it in DM for a dark-matter-only run. */
  function Quota(inp: SetupInput): (q: Counts)
    requires inp.ntotal >= 2
    ensures q.gas >= 0 && q.dm >= 1 && q.gas + q.dm <= inp.ntotal
    ensures inp.baryonFraction != 0.0 ==> q.gas >= 1
  {
    if inp.baryonFraction == 0.0 then Counts(0, inp.ntotal) else Counts(inp.ntotal / 2, inp.ntotal / 2)
  }

  /** For non-negative masses m0 and m1 shared out in n particles of mass (m0 + m1)/n, the
      rounded count of m0 lies between 0 and n. */
  lemma CountWithinTotal(m0: real, m1: real, total: real, n: int)
    requires m0 >= 0.0 && m1 >= 0.0 && total == m0 + m1 && n >= 1
    ensures 0 <= CountOf(m0, total / n as real) <= n
  {
    var mpart := total / n as real;
    if mpart != 0.0 {
      assert mpart * n as real == total;
      QuotientSigns(total, n as real);
      QuotientNumeratorMonotone(m0, total, mpart);
      QuotientSigns(m0, mpart);
      assert total / mpart == n as real;
    }
  }

  /** Rounding each cluster separately can hand out more particles than there are: with
      `Param.Ntotal` 6 there are 3 gas slots, and two clusters of gas mass 1.5 each give a gas
      particle mass of 1, so both round 1.5 up and take 4 gas particles in all. */
  lemma RoundedCountsOverrun(h0: Book, h1: Book, mpart: Species, ntotal: int)
    requires ntotal == 6 && h0.mass.gas == 1.5 && h1.mass.gas == 1.5
    requires mpart.gas == (h0.mass.gas + h1.mass.gas) / (ntotal / 2) as real
    ensures CountFor(h0, mpart, false).gas + CountFor(h1, mpart, false).gas == 4 > ntotal / 2
  {
    assert mpart.gas == 1.0;
    assert Round(1.5) == 2;
  }

  /** The sum of f over the first n halos, `Param.Mtotal` and `mtot[k]` after n iterations. */
  function SumOver(hs: seq<Book>, n: nat, f: Book -> real): real
    requires n <= |hs|
  {
    if n == 0 then 0.0 else SumOver(hs, n - 1, f) + f(hs[n - 1])
  }

  function MassTotal(h: Book): real { h.mtotal }
  function GasMass(h: Book): real { h.mass.gas }
  function DmMass(h: Book): real { h.mass.dm }

  /** Mass in gas and DM adds up to the total mass over any number of halos. */
  lemma {:induction false} SpeciesSumToTotal(hs: seq<Book>, n: nat)
    requires n <= |hs|
    requires forall j :: 0 <= j < n ==> hs[j].mass.gas + hs[j].mass.dm == hs[j].mtotal
    ensures SumOver(hs, n, GasMass) + SumOver(hs, n, DmMass) == SumOver(hs, n, MassTotal)
  {
    if n > 0 {
      SpeciesSumToTotal(hs, n - 1);
    }
  }

  /** A sum of non-negative terms is not negative. */
  lemma {:induction false} SumNonnegative(hs: seq<Book>, n: nat, f: Book -> real)
    requires n <= |hs|
    requires forall j :: 0 <= j < n ==> f(hs[j]) >= 0.0
    ensures SumOver(hs, n, f) >= 0.0
  {
    if n > 0 {
      SumNonnegative(hs, n - 1, f);
    }
  }

  /** `Halo[0].Mtotal200 = Mtot200 / (1 + Xm)`, the rest to the second cluster. */
  function MainMass(mtot200: real, xm: real): (m0: real)
    requires xm >= 0.0
  {
    mtot200 / (1.0 + xm)
  }

  /** For a positive total and a positive mass ratio both clusters get positive mass,
      and the second gets Xm times the first. */
  lemma MassSplitPositive(mtot200: real, xm: real)
    requires mtot200 > 0.0 && xm > 0.0
    ensures 0.0 < MainMass(mtot200, xm) < mtot200
    ensures mtot200 - MainMass(mtot200, xm) == xm * MainMass(mtot200, xm)
  {
    var m0 := MainMass(mtot200, xm);
    assert m0 * (1.0 + xm) == mtot200;
    QuotientSigns(mtot200, 1.0 + xm);
    MulPositive(m0, xm);
  }

  /** Lines 19-25: the mass inside R200 split by the mass ratio; one cluster when Xm is 0. */
  method SplitBooks(mtot200: real, xm: real) returns (nhalos: nat, books: seq<Book>)
    requires mtot200 > 0.0 && xm >= 0.0
    ensures |books| == 2
    ensures books[0].mtotal200 == MainMass(mtot200, xm)
    ensures books[1].npart == Counts(0, 0)
    ensures books[0].mtotal200 + books[1].mtotal200 == mtot200
    ensures nhalos == (if xm == 0.0 then 1 else 2)
    ensures xm == 0.0 ==> books[1].mtotal200 == 0.0
    ensures forall j :: 0 <= j < nhalos ==> books[j].mtotal200 > 0.0
    ensures books[0] == Unset.(mtotal200 := books[0].mtotal200) && books[1] == Unset.(mtotal200 := books[1].mtotal200)
  {
    books := [Unset, Unset];
    var m0 := mtot200 / (1.0 + xm);
    books := books[0 := books[0].(mtotal200 := m0)];
    books := books[1 := books[1].(mtotal200 := mtot200 - books[0].mtotal200)];
    QuotientSigns(mtot200, 1.0 + xm);
    if xm == 0.0 {
      nhalos := 1;
    } else {
      nhalos := 2;
      MassSplitPositive(mtot200, xm);
    }
  }

  /** Lines 28-42: structure of every cluster in use. */
  method StructureLoop(inp: SetupInput, nhalos: nat, books0: seq<Book>) returns (books: seq<Book>)
    requires ValidInput(inp) && nhalos <= 2 && |books0| == 2
    ensures |books| == 2
    ensures forall j :: 0 <= j < nhalos ==> books[j] == Structure(books0[j], inp.halo[j], inp.baryonFraction)
    ensures forall j :: nhalos <= j < 2 ==> books[j] == books0[j]
  {
    books := books0;
    for i := 0 to nhalos
      invariant |books| == 2
      invariant forall j :: 0 <= j < i ==> books[j] == Structure(books0[j], inp.halo[j], inp.baryonFraction)
      invariant forall j :: i <= j < 2 ==> books[j] == books0[j]
    {
      books := books[i := Structure(books[i], inp.halo[i], inp.baryonFraction)];
    }
  }

  /** Lines 46-90 without the printing and the R500 estimate: masses of every cluster in use,
      accumulated into `Param.Mtotal` and `mtot[]`. */
  method MassLoop(inp: SetupInput, nhalos: nat, boxsize: real, books0: seq<Book>)
    returns (books: seq<Book>, mtotal: real, mtot: Species)
    requires ValidInput(inp) && nhalos <= 2 && |books0| == 2 && boxsize > 0.0
    requires forall j :: 0 <= j < nhalos ==> books0[j].r200 > 0.0 && books0[j].aHernq >= 0.0
    ensures |books| == 2
    ensures forall j :: 0 <= j < nhalos ==>
      books[j] == Masses(books0[j], j, boxsize, inp.cuspy, inp.baryonFraction, inp.halo[j].gasMass)
    ensures forall j :: nhalos <= j < 2 ==> books[j] == books0[j]
    ensures mtotal == SumOver(books, nhalos, MassTotal)
    ensures mtot == Species(SumOver(books, nhalos, GasMass), SumOver(books, nhalos, DmMass))
  {
    books := books0;
    mtotal := 0.0;
    mtot := Species(0.0, 0.0);
    for i := 0 to nhalos
      invariant |books| == 2
      invariant forall j :: 0 <= j < i ==>
        books[j] == Masses(books0[j], j, boxsize, inp.cuspy, inp.baryonFraction, inp.halo[j].gasMass)
      invariant forall j :: i <= j < 2 ==> books[j] == books0[j]
      invariant mtotal == SumOver(books, i, MassTotal)
      invariant mtot == Species(SumOver(books, i, GasMass), SumOver(books, i, DmMass))
    {
      ghost var before := books;
      books := books[i := Masses(books[i], i, boxsize, inp.cuspy, inp.baryonFraction, inp.halo[i].gasMass)];
      SumPrefixUnchanged(before, books, i, MassTotal);
      SumPrefixUnchanged(before, books, i, GasMass);
      SumPrefixUnchanged(before, books, i, DmMass);
      mtotal := mtotal + books[i].mtotal;
      mtot := Species(mtot.gas + books[i].mass.gas, mtot.dm + books[i].mass.dm);
    }
  }

  /** A sum over the first n halos sees only the summed field of those halos. */
  lemma {:induction false} SumPrefixUnchanged(hs: seq<Book>, hs': seq<Book>, n: nat, f: Book -> real)
    requires n <= |hs| && n <= |hs'|
    requires forall j :: 0 <= j < n ==> f(hs[j]) == f(hs'[j])
    ensures SumOver(hs, n, f) == SumOver(hs', n, f)
  {
    if n > 0 {
      SumPrefixUnchanged(hs, hs', n - 1, f);
    }
  }

  /** The particles the first n clusters take, species by species. */
  function Taken(books: seq<Book>, n: nat): (t: Counts)
    requires n <= |books|
  {
    if n == 0 then Counts(0, 0)
    else Counts(Taken(books, n - 1).gas + books[n - 1].npart.gas, Taken(books, n - 1).dm + books[n - 1].npart.dm)
  }

  /** What remains of the quota q once t is taken. */
  function Left(q: Counts, t: Counts): (r: Counts)
    ensures r.gas + t.gas == q.gas && r.dm + t.dm == q.dm
  {
    Counts(q.gas - t.gas, q.dm - t.dm)
  }

  /** The particles taken by the first n clusters depend on their counts only. */
  lemma {:induction false} TakenPrefix(hs: seq<Book>, hs': seq<Book>, n: nat)
    requires n <= |hs| && n <= |hs'|
    requires forall j :: 0 <= j < n ==> hs[j].npart == hs'[j].npart
    ensures Taken(hs, n) == Taken(hs', n)
  {
    if n > 0 {
      TakenPrefix(hs, hs', n - 1);
    }
  }

  /** A recount changes nothing a count depends on. */
  lemma RecountKeepsCounting(h: Book, n: Counts, mpart: Species, dmOnly: bool)
    ensures CountFor(Recount(h, n), mpart, dmOnly) == CountFor(h, mpart, dmOnly)
  {
  }

  /** Counting twice leaves the second count. */
  lemma RecountTwice(h: Book, a: Counts, b: Counts)
    ensures Recount(Recount(h, a), b) == Recount(h, b)
  {
  }

  /** One counting loop, corrected as listed under Findings: every cluster but the last gets
      its own counts, and the last one what the others leave of the quota. */
  method ShareOut(books0: seq<Book>, nhalos: nat, quota: Counts, mpart: Species, dmOnly: bool)
    returns (books: seq<Book>)
    requires 1 <= nhalos <= |books0|
    ensures |books| == |books0|
    ensures forall j :: 0 <= j < nhalos ==> books[j] == Recount(books0[j], books[j].npart)
    ensures forall j :: 0 <= j < nhalos - 1 ==> books[j].npart == CountFor(books0[j], mpart, dmOnly)
    ensures books[nhalos - 1].npart == Left(quota, Taken(books, nhalos - 1))
    ensures forall j :: nhalos <= j < |books0| ==> books[j] == books0[j]
  {
    books := books0;
    var taken := Counts(0, 0);
    for i := 0 to nhalos
      invariant |books| == |books0|
      invariant forall j :: 0 <= j < i && j < nhalos - 1 ==>
        books[j] == Recount(books0[j], CountFor(books0[j], mpart, dmOnly))
      invariant i == nhalos ==>
        books[nhalos - 1] == Recount(books0[nhalos - 1], Left(quota, Taken(books, nhalos - 1)))
      invariant forall j :: i <= j < |books0| ==> books[j] == books0[j]
      invariant i < nhalos ==> taken == Taken(books, i)
      invariant forall j :: 0 <= j < i ==> books[j] == Recount(books0[j], books[j].npart)
    {
      ghost var before := books;
      if i < nhalos - 1 {
        books := books[i := Recount(books[i], CountFor(books[i], mpart, dmOnly))];
        taken := Counts(taken.gas + books[i].npart.gas, taken.dm + books[i].npart.dm);
      } else {
        books := books[i := Recount(books[i], Counts(quota.gas - taken.gas, quota.dm - taken.dm))];
      }
      TakenPrefix(before, books, i);
    }
  }

  /** Lines 147-173, corrected as listed under Findings: particle masses and counts, and the
      dark-matter-only recount. */
  method CountLoop(inp: SetupInput, nhalos: nat, mtotal: real, mtot: Species, books0: seq<Book>)
    returns (books: seq<Book>, mpart: Species, nGas: int)
    requires ValidInput(inp) && 1 <= nhalos <= 2 && |books0| == 2
    requires forall j :: 0 <= j < nhalos ==>
      books0[j].mass.gas >= 0.0 && books0[j].mass.dm >= 0.0 && books0[j].mass.gas + books0[j].mass.dm == books0[j].mtotal
    requires mtotal == SumOver(books0, nhalos, MassTotal)
    requires mtot == Species(SumOver(books0, nhalos, GasMass), SumOver(books0, nhalos, DmMass))
    requires nhalos == 1 ==> books0[1].npart == Counts(0, 0)
    ensures |books| == 2
    ensures Taken(books, 2) == Quota(inp)
    ensures forall j :: 0 <= j < 2 ==> books[j].npart.gas >= 0 && books[j].npart.dm >= 0
    ensures inp.baryonFraction != 0.0 ==>
      && nGas == inp.ntotal / 2
      && mpart == Species(mtot.gas / nGas as real, mtot.dm / (inp.ntotal / 2) as real)
    ensures inp.baryonFraction == 0.0 ==>
      && nGas == 0
      && mpart == Species(0.0, mtotal / inp.ntotal as real)
    ensures forall j :: 0 <= j < nhalos ==> books[j] == Recount(books0[j], books[j].npart)
    ensures forall j :: 0 <= j < nhalos - 1 ==> books[j].npart == CountFor(books0[j], mpart, inp.baryonFraction == 0.0)
    ensures books[nhalos - 1].npart == Left(Quota(inp), Taken(books, nhalos - 1))
    ensures forall j :: nhalos <= j < 2 ==> books[j] == books0[j]
  {
    var nDm := inp.ntotal / 2;
    nGas := inp.ntotal / 2;
    mpart := Species(mtot.gas / nGas as real, mtot.dm / nDm as real);
    books := ShareOut(books0, nhalos, Counts(nGas, nDm), mpart, false);
    if inp.baryonFraction == 0.0 {
      nGas := 0;
      mpart := Species(0.0, mtotal / inp.ntotal as real);
      var counted := books;
      books := ShareOut(counted, nhalos, Counts(nGas, inp.ntotal), mpart, true);
      forall j | 0 <= j < nhalos
        ensures books[j] == Recount(books0[j], books[j].npart)
        ensures CountFor(counted[j], mpart, true) == CountFor(books0[j], mpart, true)
      {
        RecountTwice(books0[j], counted[j].npart, books[j].npart);
        RecountKeepsCounting(books0[j], counted[j].npart, mpart, true);
      }
    }
    if nhalos == 2 {
      FirstCountsFit(inp, books0, mtotal, mtot);
    }
    QuotaFilled(books, nhalos, Quota(inp));
  }

  /** When the last cluster takes what the first leaves of a quota, and the first takes no
      more than the quota, the counts are not negative and add up to the quota. */
  lemma QuotaFilled(books: seq<Book>, nhalos: nat, quota: Counts)
    requires |books| == 2 && 1 <= nhalos <= 2 && quota.gas >= 0 && quota.dm >= 0
    requires books[nhalos - 1].npart == Left(quota, Taken(books, nhalos - 1))
    requires nhalos == 1 ==> books[1].npart == Counts(0, 0)
    requires nhalos == 2 ==> 0 <= books[0].npart.gas <= quota.gas && 0 <= books[0].npart.dm <= quota.dm
    ensures Taken(books, 2) == quota
    ensures forall j :: 0 <= j < 2 ==> books[j].npart.gas >= 0 && books[j].npart.dm >= 0
  {
  }

  /** Of two clusters, the first one's rounded counts lie within the quotas. */
  lemma FirstCountsFit(inp: SetupInput, books0: seq<Book>, mtotal: real, mtot: Species)
    requires inp.ntotal >= 2 && |books0| == 2
    requires forall j :: 0 <= j < 2 ==>
      books0[j].mass.gas >= 0.0 && books0[j].mass.dm >= 0.0 && books0[j].mass.gas + books0[j].mass.dm == books0[j].mtotal
    requires mtotal == SumOver(books0, 2, MassTotal)
    requires mtot == Species(SumOver(books0, 2, GasMass), SumOver(books0, 2, DmMass))
    ensures 0 <= CountOf(books0[0].mass.gas, mtot.gas / (inp.ntotal / 2) as real) <= inp.ntotal / 2
    ensures 0 <= CountOf(books0[0].mass.dm, mtot.dm / (inp.ntotal / 2) as real) <= inp.ntotal / 2
    ensures 0 <= CountOf(books0[0].mtotal, mtotal / inp.ntotal as real) <= inp.ntotal
  {
    var m0, m1 := books0[0], books0[1];
    assert mtot.gas == SumOver(books0, 1, GasMass) + m1.mass.gas;
    assert mtot.dm == SumOver(books0, 1, DmMass) + m1.mass.dm;
    CountWithinTotal(m0.mass.gas, m1.mass.gas, mtot.gas, inp.ntotal / 2);
    CountWithinTotal(m0.mass.dm, m1.mass.dm, mtot.dm, inp.ntotal / 2);
    assert mtotal == SumOver(books0, 1, MassTotal) + m1.mtotal;
    CountWithinTotal(m0.mtotal, m1.mtotal, mtotal, inp.ntotal);
  }

  /** Lines 211-221: the `Gas` and `DM` pointers as offsets into `P`. The second cluster's
      pointers are set only when there are two clusters and stay null (offset 0) otherwise. */
  method LayOut(xm: real, nGas: int, books: seq<Book>) returns (halo: seq<Halo>)
    requires |books| == 2
    ensures |halo| == 2
    ensures forall j :: 0 <= j < 2 ==> halo[j].book == books[j] && halo[j].dCoM == halo[j].bulkVel == Origin
    ensures halo[0].gasStart == 0 && halo[0].dmStart == nGas
    ensures xm != 0.0 ==> halo[1].gasStart == books[0].npart.gas && halo[1].dmStart == nGas + books[0].npart.dm
    ensures xm == 0.0 ==> halo[1].gasStart == 0 && halo[1].dmStart == 0
  {
    halo := [Halo(books[0], 0, 0, Origin, Origin), Halo(books[1], 0, 0, Origin, Origin)];
    halo := halo[0 := halo[0].(gasStart := 0, dmStart := nGas)];
    if xm != 0.0 {
      halo := halo[1 := halo[1].(gasStart := halo[0].book.npart.gas, dmStart := nGas + halo[0].book.npart.dm)];
    }
  }

  /** The offset of the main cluster from the centre of mass, `-M1 d / Mtot200`. */
  function Lead(m1: real, d: real, mtot200: real): real
    requires mtot200 != 0.0
  {
    -1.0 * m1 * d / mtot200
  }

  /** Placing the main cluster at `Lead` and the second one d further puts the centre of
      mass at the origin with the clusters d apart. */
  lemma CentreOfMassBalance(m0: real, m1: real, mtot200: real, d: real)
    requires mtot200 != 0.0 && m0 + m1 == mtot200
    ensures (d + Lead(m1, d, mtot200)) - Lead(m1, d, mtot200) == d
    ensures m0 * Lead(m1, d, mtot200) + m1 * (d + Lead(m1, d, mtot200)) == 0.0
  {
    var l := Lead(m1, d, mtot200);
    assert l * mtot200 == -1.0 * m1 * d;
    calc {
      m0 * l + m1 * (d + l);
      (m0 + m1) * l + m1 * d;
      l * mtot200 + m1 * d;
    }
  }

  /** `d_clusters`: 0.9 times the sum of the two R200. */
  function Separation(halo: seq<Halo>): real
    requires |halo| == 2
  {
    0.9 * (halo[0].book.r200 + halo[1].book.r200)
  }

  /** Lines 232-295: the clusters' offsets from the centre of mass and the merger velocities,
      applied as bulk velocities unless PARABOLA or COMET applies them later. `Halo[]` starts
      zeroed and nothing before these lines writes `D_CoM` or `BulkVel`. */
  method Place(inp: SetupInput, halo0: seq<Halo>) returns (halo: seq<Halo>, velHost: real, velInfall: real)
    requires ValidInput(inp) && |halo0| == 2
    requires halo0[0].book.mtotal200 + halo0[1].book.mtotal200 == inp.mtot200
    requires inp.massRatio != 0.0 ==> halo0[1].book.mtotal200 != 0.0
    requires forall j :: 0 <= j < 2 ==> halo0[j].dCoM == Origin && halo0[j].bulkVel == Origin
    ensures |halo| == 2
    ensures forall j :: 0 <= j < 2 ==>
      halo[j].book == halo0[j].book && halo[j].gasStart == halo0[j].gasStart && halo[j].dmStart == halo0[j].dmStart
    ensures inp.massRatio != 0.0 ==>
      var d := Separation(halo0);
      var m1 := halo0[1].book.mtotal200;
      && halo[0].dCoM == Vec3(Lead(m1, d, inp.mtot200), Lead(m1, inp.impactParam, inp.mtot200), halo0[0].dCoM.z)
      && halo[1].dCoM == Vec3(d + Lead(m1, d, inp.mtot200), inp.impactParam + Lead(m1, inp.impactParam, inp.mtot200), halo0[1].dCoM.z)
      && halo[0].bulkVel == Vec3(if inp.directKinematics then velHost else 0.0, 0.0, 0.0)
      && halo[1].bulkVel == Vec3(if inp.directKinematics then velInfall else 0.0, 0.0, 0.0)
      && velHost == inp.orbitVelocity * inp.zeroEnergyFraction
      && m1 * velInfall == -inp.mtot200 * velHost
    ensures inp.massRatio == 0.0 ==>
      && halo[0].dCoM == Origin && halo[0].bulkVel == halo0[0].bulkVel && halo[1] == halo0[1]
      && velHost == 0.0 && velInfall == 0.0
    ensures Placed(inp, velHost, velInfall, halo)
  {
    halo := halo0;
    if inp.massRatio != 0.0 {
      var d := 0.9 * (halo[0].book.r200 + halo[1].book.r200);
      var m1 := halo[1].book.mtotal200;
      var d0x := -1.0 * m1 * d / inp.mtot200;
      var d0y := -1.0 * m1 * inp.impactParam / inp.mtot200;
      halo := halo[0 := halo[0].(dCoM := Vec3(d0x, d0y, halo[0].dCoM.z))];
      halo := halo[1 := halo[1].(dCoM := Vec3(d + d0x, inp.impactParam + d0y, halo[1].dCoM.z))];
      velHost := inp.orbitVelocity;
      velInfall := -inp.mtot200 / m1 * velHost;
      assert m1 * velInfall == -inp.mtot200 * velHost;
      velHost := velHost * inp.zeroEnergyFraction;
      velInfall := velInfall * inp.zeroEnergyFraction;
      halo := halo[0 := halo[0].(bulkVel := Vec3(0.0, 0.0, 0.0))];
      halo := halo[1 := halo[1].(bulkVel := Vec3(0.0, 0.0, 0.0))];
      if inp.directKinematics {
        halo := halo[0 := halo[0].(bulkVel := halo[0].bulkVel.(x := velHost))];
        halo := halo[1 := halo[1].(bulkVel := halo[1].bulkVel.(x := velInfall))];
      }
      CentreOfMassBalance(halo[0].book.mtotal200, m1, inp.mtot200, d);
      CentreOfMassBalance(halo[0].book.mtotal200, m1, inp.mtot200, inp.impactParam);
    } else {
      halo := halo[0 := halo[0].(dCoM := Vec3(0.0, 0.0, 0.0))];
      velHost, velInfall := 0.0, 0.0;
    }
  }

  /** The clusters' masses inside R200 split the total by the mass ratio (lines 19-25). */
  predicate ClustersSplit(inp: SetupInput, nhalos: nat, books: seq<Book>)
    requires |books| == 2 && inp.massRatio >= 0.0
  {
    && nhalos == (if inp.massRatio == 0.0 then 1 else 2)
    && books[0].mtotal200 == MainMass(inp.mtot200, inp.massRatio)
    && books[0].mtotal200 + books[1].mtotal200 == inp.mtot200
    && (inp.massRatio == 0.0 ==> books[1].mtotal200 == 0.0)
  }

  /** Inside each cluster in use, gas and DM add up both inside R200 and inside the sampling
      radii, neither is negative, a DM-only run has no gas mass, and `Param.Mtotal` adds the clusters' masses
      (lines 29-30, 80-87). */
  predicate SpeciesSplit(inp: SetupInput, nhalos: nat, mtotal: real, books: seq<Book>)
    requires |books| == 2 && nhalos <= 2
  {
    && (forall j :: 0 <= j < nhalos ==>
          && books[j].mass200.gas + books[j].mass200.dm == books[j].mtotal200
          && books[j].mass.gas + books[j].mass.dm == books[j].mtotal
          && books[j].mass.gas >= 0.0 && books[j].mass.dm >= 0.0
          && (inp.baryonFraction == 0.0 ==> books[j].mass.gas == 0.0))
    && mtotal == SumOver(books, nhalos, MassTotal)
  }

  /** The particle masses are the species' total masses over their quotas; the first of two
      clusters gets its masses over the particle masses, rounded, and the last cluster what
      is left, so that the counts are not negative and use up the quota of each species; a
      DM-only run has no gas particles and a zero gas particle mass (lines 147-173). */
  predicate Counted(inp: SetupInput, nhalos: nat, mtotal: real, mpart: Species, npart: Counts, books: seq<Book>)
    requires |books| == 2 && nhalos <= 2 && inp.ntotal >= 2
  {
    && npart == Counts(books[0].npart.gas + books[1].npart.gas, books[0].npart.dm + books[1].npart.dm)
    && npart == Quota(inp)
    && (nhalos == 1 ==> books[1].npart == Counts(0, 0))
    && (forall j :: 0 <= j < 2 ==> books[j].npart.gas >= 0 && books[j].npart.dm >= 0)
    && (forall j :: 0 <= j < nhalos ==> books[j].ntotal == books[j].npart.gas + books[j].npart.dm)
    && (inp.baryonFraction != 0.0 ==>
          && mpart == Species(SumOver(books, nhalos, GasMass) / (inp.ntotal / 2) as real,
                              SumOver(books, nhalos, DmMass) / (inp.ntotal / 2) as real)
          && (nhalos == 2 ==>
                books[0].npart == Counts(CountOf(books[0].mass.gas, mpart.gas), CountOf(books[0].mass.dm, mpart.dm))))
    && (inp.baryonFraction == 0.0 ==>
          && mpart == Species(0.0, mtotal / inp.ntotal as real)
          && (nhalos == 2 ==> books[0].npart == Counts(0, CountOf(books[0].mtotal, mpart.dm))))
  }

  /** The record of cluster j as the two books loops leave it, from its R200 mass alone:
      `Structure`, then `Masses` with the box of the first cluster (lines 28-90). */
  function Built(inp: SetupInput, j: nat, m200: real): Book
    requires ValidInput(inp) && j < 2
  {
    Masses(Structure(Unset.(mtotal200 := m200), inp.halo[j], inp.baryonFraction),
           j, BoxsizeOf(inp), inp.cuspy, inp.baryonFraction, inp.halo[j].gasMass)
  }

  /** Every cluster in use carries the masses and radii the books loops compute from its R200
      mass, with its particle counts on top: gas and DM inside R200 in the ratio bf : 1, the
      input gas mass (or none, for a DM-only run) and the corrected DM mass. A cluster not in
      use keeps its zeroed record: the loops stop at `Nhalos`. */
  predicate Massed(inp: SetupInput, nhalos: nat, books: seq<Book>)
    requires ValidInput(inp) && |books| == 2 && nhalos <= 2
  {
    && (forall j :: 0 <= j < nhalos ==> books[j] == Recount(Built(inp, j, books[j].mtotal200), books[j].npart))
    && (forall j :: nhalos <= j < 2 ==> books[j] == Unset)
  }

  /** Lines 19-90: the masses and radii of every cluster and the total mass, before any
      particle is counted. */
  method MassBooks(inp: SetupInput) returns (nhalos: nat, mtotal: real, mtot: Species, books: seq<Book>)
    requires ValidInput(inp)
    ensures |books| == 2 && 1 <= nhalos <= 2
    ensures ClustersSplit(inp, nhalos, books)
    ensures SpeciesSplit(inp, nhalos, mtotal, books)
    ensures mtot == Species(SumOver(books, nhalos, GasMass), SumOver(books, nhalos, DmMass))
    ensures forall j :: 0 <= j < nhalos ==> books[j] == Built(inp, j, books[j].mtotal200)
    ensures forall j :: nhalos <= j < 2 ==> books[j] == Unset
  {
    var b1;
    nhalos, b1 := SplitBooks(inp.mtot200, inp.massRatio);
    var b2 := StructureLoop(inp, nhalos, b1);
    books, mtotal, mtot := MassLoop(inp, nhalos, BoxsizeOf(inp), b2);
    BooksBuilt(inp, nhalos, b1, b2, books);
  }

  /** The records the two loops pass along are, cluster by cluster, `Built` from the mass
      `SplitBooks` gave each one; a record past `Nhalos` goes through untouched and stays
      zeroed. */
  lemma BooksBuilt(inp: SetupInput, nhalos: nat, b1: seq<Book>, b2: seq<Book>, b3: seq<Book>)
    requires ValidInput(inp) && nhalos <= 2 && |b1| == 2 && |b2| == 2 && |b3| == 2
    requires b1[0] == Unset.(mtotal200 := b1[0].mtotal200) && b1[1] == Unset.(mtotal200 := b1[1].mtotal200)
    requires forall j :: 0 <= j < nhalos ==> b2[j] == Structure(b1[j], inp.halo[j], inp.baryonFraction)
    requires forall j :: 0 <= j < nhalos ==> b2[j].r200 > 0.0 && b2[j].aHernq >= 0.0
    requires forall j :: 0 <= j < nhalos ==>
      b3[j] == Masses(b2[j], j, BoxsizeOf(inp), inp.cuspy, inp.baryonFraction, inp.halo[j].gasMass)
    requires nhalos == (if inp.massRatio == 0.0 then 1 else 2) && (inp.massRatio == 0.0 ==> b1[1].mtotal200 == 0.0)
    requires forall j :: nhalos <= j < 2 ==> b2[j] == b1[j]
    requires forall j :: nhalos <= j < 2 ==> b3[j] == b2[j]
    ensures forall j :: 0 <= j < nhalos ==> b3[j] == Built(inp, j, b3[j].mtotal200)
    ensures forall j :: nhalos <= j < 2 ==> b3[j] == Unset
  {
    forall j | 0 <= j < nhalos
      ensures b3[j] == Built(inp, j, b3[j].mtotal200)
    {
      assert b3[j] == Built(inp, j, b1[j].mtotal200);
    }
  }

  /** Lines 19-173: the bookkeeping of every cluster, the total mass and the particle masses
      and counts. */
  method Bookkeep(inp: SetupInput) returns (nhalos: nat, mtotal: real, mpart: Species, npart: Counts,
                                             nGas: int, books: seq<Book>)
    requires ValidInput(inp)
    ensures |books| == 2 && nhalos <= 2
    ensures nGas == (if inp.baryonFraction == 0.0 then 0 else inp.ntotal / 2)
    ensures ClustersSplit(inp, nhalos, books)
    ensures SpeciesSplit(inp, nhalos, mtotal, books)
    ensures Counted(inp, nhalos, mtotal, mpart, npart, books)
    ensures Massed(inp, nhalos, books)
  {
    var mtot, massed;
    nhalos, mtotal, mtot, massed := MassBooks(inp);
    books, mpart, nGas := CountLoop(inp, nhalos, mtotal, mtot, massed);
    npart := Counts(books[0].npart.gas + books[1].npart.gas, books[0].npart.dm + books[1].npart.dm);
    RecountKeepsBooks(inp, nhalos, mtotal, massed, books);
  }

  /** Counting the particles changes only the counts: the mass split, the species split, the
      per-cluster records and the species sums carry over from the records `MassBooks` left. */
  lemma RecountKeepsBooks(inp: SetupInput, nhalos: nat, mtotal: real, massed: seq<Book>, books: seq<Book>)
    requires ValidInput(inp) && |massed| == 2 && |books| == 2 && 1 <= nhalos <= 2
    requires ClustersSplit(inp, nhalos, massed) && SpeciesSplit(inp, nhalos, mtotal, massed)
    requires forall j :: 0 <= j < nhalos ==> massed[j] == Built(inp, j, massed[j].mtotal200)
    requires forall j :: nhalos <= j < 2 ==> massed[j] == Unset
    requires forall j :: 0 <= j < nhalos ==> books[j] == Recount(massed[j], books[j].npart)
    requires forall j :: nhalos <= j < 2 ==> books[j] == massed[j]
    ensures ClustersSplit(inp, nhalos, books) && SpeciesSplit(inp, nhalos, mtotal, books)
    ensures Massed(inp, nhalos, books)
    ensures SumOver(books, nhalos, GasMass) == SumOver(massed, nhalos, GasMass)
    ensures SumOver(books, nhalos, DmMass) == SumOver(massed, nhalos, DmMass)
  {
    assert forall j :: 0 <= j < 2 ==> books[j].mtotal200 == massed[j].mtotal200;
    assert forall j :: 0 <= j < 2 ==> books[j].mass == massed[j].mass && books[j].mtotal == massed[j].mtotal;
    SumPrefixUnchanged(massed, books, nhalos, MassTotal);
    SumPrefixUnchanged(massed, books, nhalos, GasMass);
    SumPrefixUnchanged(massed, books, nhalos, DmMass);
    forall j | 0 <= j < nhalos
      ensures books[j] == Recount(Built(inp, j, books[j].mtotal200), books[j].npart)
    {
      assert massed[j] == Built(inp, j, books[j].mtotal200);
    }
  }

  /** Halo 0's gas starts the array and its DM starts at `nGas`; halo 1's slices follow
      halo 0's in each species, and stay at 0 when there is no second cluster (lines 211-221). */
  predicate LaidOut(inp: SetupInput, nhalos: nat, halo: seq<Halo>)
    requires |halo| == 2 && inp.ntotal >= 2
  {
    && halo[0].gasStart == 0
    && halo[0].dmStart == (if inp.baryonFraction == 0.0 then 0 else inp.ntotal / 2)
    && (nhalos == 2 ==>
          && halo[1].gasStart == halo[0].gasStart + halo[0].book.npart.gas
          && halo[1].dmStart == halo[0].dmStart + halo[0].book.npart.dm)
    && (nhalos < 2 ==> halo[1].gasStart == 0 && halo[1].dmStart == 0)
  }

  /** Two clusters are `d_clusters` apart in x and the impact parameter apart in y with the
      centre of mass at the origin; the infalling cluster's R200 mass times its velocity is
      minus the total R200 mass times the host's (M1 V1 = -Mtot200 V0, lines 256-257), V0 is
      the zero-energy orbit velocity times ZERO_ENERGY_ORBIT_FRACTION, and the two become the
      clusters' x bulk velocities only when neither PARABOLA nor COMET is defined (lines
      263-268). Neither moves in z, which no line of the two-cluster branch writes. A single
      cluster sits at the origin at rest, and the unused second record stays zeroed (lines
      232-295). */
  predicate Placed(inp: SetupInput, velHost: real, velInfall: real, halo: seq<Halo>)
    requires |halo| == 2
  {
    && (inp.massRatio != 0.0 ==>
          && halo[1].dCoM.x - halo[0].dCoM.x == Separation(halo)
          && halo[0].book.mtotal200 * halo[0].dCoM.x + halo[1].book.mtotal200 * halo[1].dCoM.x == 0.0
          && halo[1].dCoM.y - halo[0].dCoM.y == inp.impactParam
          && halo[0].book.mtotal200 * halo[0].dCoM.y + halo[1].book.mtotal200 * halo[1].dCoM.y == 0.0
          && halo[1].book.mtotal200 * velInfall == -inp.mtot200 * velHost
          && velHost == inp.orbitVelocity * inp.zeroEnergyFraction
          && halo[0].bulkVel == Vec3(if inp.directKinematics then velHost else 0.0, 0.0, 0.0)
          && halo[1].bulkVel == Vec3(if inp.directKinematics then velInfall else 0.0, 0.0, 0.0)
          && halo[0].dCoM.z == 0.0 && halo[1].dCoM.z == 0.0)
    && (inp.massRatio == 0.0 ==>
          && halo[0].dCoM == Origin && halo[0].bulkVel == Origin && velHost == 0.0 && velInfall == 0.0
          && halo[1].dCoM == Origin && halo[1].bulkVel == Origin)
  }

  /** With M0 + M1 = Mtot200 and M1 V1 = -Mtot200 V0, the clusters' total momentum
      M0 V0 + M1 V1 is -M1 V0: the merger velocities do not put the centre of mass at rest
      unless the host starts at rest. */
  lemma MergerMomentum(m0: real, m1: real, mtot: real, v0: real, v1: real)
    requires m0 + m1 == mtot && m1 * v1 == -mtot * v0
    ensures m0 * v0 + m1 * v1 == -m1 * v0
  {
    assert mtot * v0 == m0 * v0 + m1 * v0;
  }

  /** The bookkeeping records of the clusters. */
  function Books(halo: seq<Halo>): (books: seq<Book>)
    ensures |books| == |halo| && forall j :: 0 <= j < |halo| ==> books[j] == halo[j].book
  {
    seq(|halo|, j requires 0 <= j < |halo| => halo[j].book)
  }

  /** `Setup` without printing, allocation, the softening length and the R500 estimate. */
  method Setup(inp: SetupInput) returns (param: Params, halo: seq<Halo>)
    requires ValidInput(inp)
    ensures |halo| == 2 && param.nhalos <= 2
    ensures param.boxsize == BoxsizeOf(inp)
    ensures ClustersSplit(inp, param.nhalos, Books(halo))
    ensures SpeciesSplit(inp, param.nhalos, param.mtotal, Books(halo))
    ensures Counted(inp, param.nhalos, param.mtotal, param.mpart, param.npart, Books(halo))
    ensures LaidOut(inp, param.nhalos, halo)
    ensures Placed(inp, param.velHost, param.velInfall, halo)
    ensures Massed(inp, param.nhalos, Books(halo))
  {
    var nhalos, mtotal, mpart, npart, nGas, books := Bookkeep(inp);
    var laid := LayOut(inp.massRatio, nGas, books);
    if inp.massRatio != 0.0 {
      MassSplitPositive(inp.mtot200, inp.massRatio);
    }
    var velHost, velInfall;
    halo, velHost, velInfall := Place(inp, laid);
    param := Params(nhalos, BoxsizeOf(inp), mtotal, mpart, npart, velHost, velInfall);
    assert Books(halo) == books;
  }
}
