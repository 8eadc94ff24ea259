/** The closed-form profiles of src/setup.c: the beta-model core radius, the double-beta gas
    density and the Wendland C2 kernel that the COMET orbit normalises with. */
module Profiles {
  import opened RealMath

  /** Bit i of `Param.Cuspy`, read as `Param.Cuspy & (1 << i)`. */
  predicate CoolCore(cuspy: bv32, i: nat)
    requires i < 32
  {
    cuspy & (1 as bv32 << i) != 0
  }

  /** Halo i is a cool core exactly when bit i of the mask, shifted down to bit 0, is 1. */
  lemma CoolCoreIsBit(cuspy: bv32, i: nat)
    requires i < 32
    ensures CoolCore(cuspy, i) <==> (cuspy >> i) & 1 == 1
  {
    var k := i as bv32;
    assert (1 as bv32 << i) == (1 as bv32 << k);
    assert (cuspy >> i) == (cuspy >> k);
  }

  /** `Gas_core_radius` (src/setup.c:507-531) without GIVEPARAMS: a tenth of the NFW scale
      radius for a cool core, a third for a disturbed cluster. For a positive scale radius
      the core radius is positive, at most rs/3, and below rs/3 exactly for a cool core. */
  function GasCoreRadius(cuspy: bv32, i: nat, rs: real): (rc: real)
    requires i < 32
    ensures rs > 0.0 ==> 0.0 < rc <= rs / 3.0
    ensures rs > 0.0 ==> (rc < rs / 3.0 <==> CoolCore(cuspy, i))
  {
    if CoolCore(cuspy, i) then rs / 10.0 else rs / 3.0
  }

  /** Read on the mask: for a positive scale radius the core is below rs/3 exactly when
      bit i of `Param.Cuspy` is set. */
  lemma CoolCoreIsSmaller(cuspy: bv32, i: nat, rs: real)
    requires i < 32 && rs > 0.0
    ensures GasCoreRadius(cuspy, i, rs) < rs / 3.0 <==> (cuspy >> i) & 1 == 1
  {
    CoolCoreIsBit(cuspy, i);
  }

  /** The core term 1 + (r/rc)^2 of the profile. */
  function CoreTerm(x: real): (t: real)
    ensures t >= 1.0
  {
    1.0 + x * x
  }

  /** The cut-off term 1 + (r/rcut)^4 of the profile, written as p3(y) * y. */
  function CutTerm(y: real): (t: real)
    ensures t >= 1.0
  {
    assert Cube(y) * y == (y * y) * (y * y);
    1.0 + Cube(y) * y
  }

  /** `Gas_density_profile` (src/setup.c:571-575): a beta = 2/3 profile with core radius rc,
      cut off as (r/rcut)^4 outside rcut. For positive rho0, rc and rcut the density lies in
      (0, rho0]. */
  function GasDensityProfile(r: real, rho0: real, rc: real, rcut: real): (rho: real)
    requires rc != 0.0 && rcut != 0.0
    ensures rho0 > 0.0 ==> 0.0 < rho <= rho0
  {
    var a := CoreTerm(r / rc);
    assert rho0 > 0.0 ==> 0.0 < rho0 / a / CutTerm(r / rcut) <= rho0 by {
      if rho0 > 0.0 {
        DivideByAtLeastOne(rho0, a);
        DivideByAtLeastOne(rho0 / a, CutTerm(r / rcut));
      }
    }
    rho0 / a / CutTerm(r / rcut)
  }

  /** The central density is rho0. */
  lemma GasDensityAtCentre(rho0: real, rc: real, rcut: real)
    requires rc != 0.0 && rcut != 0.0
    ensures GasDensityProfile(0.0, rho0, rc, rcut) == rho0
  {
    assert CoreTerm(0.0 / rc) == 1.0;
    assert CutTerm(0.0 / rcut) == 1.0;
  }

  lemma DivideByAtLeastOne(v: real, d: real)
    requires v > 0.0 && d >= 1.0
    ensures 0.0 < v / d <= v
  {
    assert v / d * d == v;
    MulMonotone(v / d, 1.0, d);
  }

  /** The density falls off: it never grows with the radius. */
  lemma GasDensityDecreasing(r: real, s: real, rho0: real, rc: real, rcut: real)
    requires rho0 > 0.0 && rc > 0.0 && rcut > 0.0 && 0.0 <= r <= s
    ensures GasDensityProfile(s, rho0, rc, rcut) <= GasDensityProfile(r, rho0, rc, rcut)
  {
    ScaledMonotone(r, s, rc);
    ScaledMonotone(r, s, rcut);
    var a, a' := CoreTerm(r / rc), CoreTerm(s / rc);
    var b, b' := CutTerm(r / rcut), CutTerm(s / rcut);
    TermsMonotone(r / rc, s / rc);
    TermsMonotone(r / rcut, s / rcut);
    QuotientMonotone(rho0, a, a');
    QuotientMonotone(rho0 / a', b, b');
    QuotientNumeratorMonotone(rho0 / a', rho0 / a, b);
  }

  lemma TermsMonotone(x: real, y: real)
    requires 0.0 <= x <= y
    ensures CoreTerm(x) <= CoreTerm(y) && CutTerm(x) <= CutTerm(y)
  {
    SquareMonotone(x, y);
    FourthPowerMonotone(x, y);
  }

  lemma ScaledMonotone(r: real, s: real, c: real)
    requires 0.0 <= r <= s && c > 0.0
    ensures 0.0 <= r / c <= s / c
  {
    QuotientNumeratorMonotone(r, s, c);
    QuotientSigns(r, c);
  }

  lemma SquareMonotone(x: real, y: real)
    requires 0.0 <= x <= y
    ensures x * x <= y * y
  {
    MulMonotone(x, x, y);
    MulMonotone(y, x, y);
  }

  lemma FourthPowerMonotone(x: real, y: real)
    requires 0.0 <= x <= y
    ensures Cube(x) * x <= Cube(y) * y
  {
    SquareMonotone(x, y);
    MulNonnegative(x, x);
    SquareMonotone(x * x, y * y);
    assert Cube(x) * x == (x * x) * (x * x);
    assert Cube(y) * y == (y * y) * (y * y);
  }

  lemma QuotientMonotone(v: real, d: real, d': real)
    requires v > 0.0 && 1.0 <= d <= d'
    ensures 0.0 < v / d' <= v / d
  {
    QuotientSigns(v, d');
    MulPositive(d, d');
    assert v / d - v / d' == v * (d' - d) / (d * d');
    MulNonnegative(v, d' - d);
    QuotientSigns(v * (d' - d), d * d');
  }

  lemma QuotientNumeratorMonotone(v: real, w: real, d: real)
    requires v <= w && d > 0.0
    ensures v / d <= w / d
  {
    QuotientSigns(w - v, d);
    assert w / d - v / d == (w - v) / d;
  }

  /** `21/2` in C integer arithmetic. */
  const Wc2Factor: int := 21 / 2

  /** `sph_kernel_wc2` (src/setup.c:304-310), the Wendland C2 kernel, as written: the
      normalisation 21/2 is an integer division. The kernel vanishes beyond its support
      u >= 1. */
  function Wc2(r: real, h: real): (w: real)
    requires h != 0.0
    ensures h > 0.0 && r >= h ==> w == 0.0
  {
    var u := r / h;
    assert h > 0.0 && r >= h ==> u >= 1.0 by {
      if h > 0.0 && r >= h {
        MulMonotone(1.0 / h, h, r);
        assert h * (1.0 / h) == 1.0;
      }
    }
    var t := Max(1.0 - u, 0.0);
    (Wc2Factor as real) / Pi / Cube(h) * t * t * t * t * (1.0 + 4.0 * u)
  }

  /** At the centre the kernel is 10/(pi h^3), 20/21 of the Wendland C2 value
      21/(2 pi h^3), because 21/2 is 10 in integer arithmetic. */
  lemma Wc2AtCentre(h: real)
    requires h > 0.0
    ensures Wc2(0.0, h) == 10.0 / Pi / Cube(h)
    ensures Wc2(0.0, h) < 21.0 / 2.0 / Pi / Cube(h)
  {
    CubeSigns(h);
    QuotientSigns(1.0, Pi);
    QuotientSigns(1.0 / Pi, Cube(h));
    assert 21.0 / 2.0 / Pi / Cube(h) == 10.5 * (1.0 / Pi / Cube(h));
    assert 10.0 / Pi / Cube(h) == 10.0 * (1.0 / Pi / Cube(h));
  }
}
