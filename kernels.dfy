/** The two SPH kernel families of src/sph.c:426-466 and their radial derivatives.

    Both are written in terms of u = r/h. Neither formula is zero beyond u = 1 by
    itself: the compact support comes from the callers, which skip every neighbour
    with r^2 > h^2 before evaluating a kernel. */
module Kernels {
  import opened RealMath

  /** The compile-time switch SPH_CUBIC_SPLINE, as a value. */
  datatype Kernel = WendlandC6 | CubicSpline

  /** 1365 / (64 pi), the normalisation of the Wendland C6 kernel. */
  const WC6Norm: real := 1365.0 / (64.0 * Pi)

  /** The polynomial factor of `sph_kernel_WC6`. */
  function WC6Poly(u: real): real
  {
    1.0 + 8.0 * u + 25.0 * u * u + 32.0 * u * u * u
  }

  /** The polynomial factor of `sph_kernel_derivative_WC6`. */
  function DWC6Poly(u: real): real
  {
    16.0 * u * u + 7.0 * u + 1.0
  }

  /** `sph_kernel_WC6` */
  function WC6(r: real, h: real): real
    requires h != 0.0
  {
    var u := r / h;
    WC6Norm / Pow(h, 3) * Pow(1.0 - u, 8) * WC6Poly(u)
  }

  /** `sph_kernel_derivative_WC6` */
  function DWC6(r: real, h: real): real
    requires h != 0.0
  {
    var u := r / h;
    WC6Norm / Pow(h, 4) * -22.0 * Pow(1.0 - u, 7) * u * DWC6Poly(u)
  }

  /** The branch of `sph_kernel_M4` taken for u < 1/2 (before the division by h^3). */
  function M4Inner(u: real): real
  {
    2.546479089470 + 15.278874536822 * (u - 1.0) * u * u
  }

  /** The branch of `sph_kernel_M4` taken for u >= 1/2 (before the division by h^3). */
  function M4Outer(u: real): real
  {
    5.092958178941 * Pow(1.0 - u, 3)
  }

  /** `sph_kernel_M4`, the cubic spline */
  function M4(r: real, h: real): real
    requires h != 0.0
  {
    var u := r / h;
    (if u < 0.5 then M4Inner(u) else M4Outer(u)) / Pow(h, 3)
  }

  /** The branch of `sph_kernel_derivative_M4` taken for u < 1/2 (before the division by h^4). */
  function DM4Inner(u: real): real
  {
    u * (45.836623610466 * u - 30.557749073644)
  }

  /** The branch of `sph_kernel_derivative_M4` taken for u >= 1/2 (before the division by h^4). */
  function DM4Outer(u: real): real
  {
    -15.278874536822 * Pow(1.0 - u, 2)
  }

  /** `sph_kernel_derivative_M4` */
  function DM4(r: real, h: real): real
    requires h != 0.0
  {
    var u := r / h;
    (if u < 0.5 then DM4Inner(u) else DM4Outer(u)) / Pow(h, 4)
  }

  /** The kernel the build selects. */
  function W(k: Kernel, r: real, h: real): real
    requires h != 0.0
  {
    match k
    case WendlandC6 => WC6(r, h)
    case CubicSpline => M4(r, h)
  }

  /** The kernel derivative the build selects. */
  function DW(k: Kernel, r: real, h: real): real
    requires h != 0.0
  {
    match k
    case WendlandC6 => DWC6(r, h)
    case CubicSpline => DM4(r, h)
  }

  lemma PolynomialsPositive(u: real)
    requires u >= 0.0
    ensures WC6Poly(u) >= 1.0 && DWC6Poly(u) >= 1.0
  {
    assert u * u >= 0.0;
    assert u * u * u >= 0.0;
  }

  /** Inside its support the Wendland C6 kernel is positive, and it vanishes at r = h. */
  lemma WC6Support(r: real, h: real)
    requires h > 0.0
    ensures 0.0 <= r < h ==> WC6(r, h) > 0.0
    ensures WC6(h, h) == 0.0
  {
    if 0.0 <= r < h {
      var u := r / h;
      RatioInUnit(r, h);
      PolynomialsPositive(u);
      QuotientSigns(WC6Norm, Pow(h, 3));
      MulPositive(WC6Norm / Pow(h, 3), Pow(1.0 - u, 8));
      MulPositive(WC6Norm / Pow(h, 3) * Pow(1.0 - u, 8), WC6Poly(u));
    }
    assert h / h == 1.0;
  }

  /** The Wendland C6 derivative is negative strictly inside the support and zero at both ends. */
  lemma DWC6Sign(r: real, h: real)
    requires h > 0.0
    ensures 0.0 < r < h ==> DWC6(r, h) < 0.0
    ensures DWC6(0.0, h) == 0.0
    ensures DWC6(h, h) == 0.0
  {
    if 0.0 < r < h {
      var u := r / h;
      RatioInUnit(r, h);
      PolynomialsPositive(u);
      QuotientSigns(WC6Norm, Pow(h, 4));
      MulNegative(WC6Norm / Pow(h, 4) * -22.0, Pow(1.0 - u, 7));
      MulNegative(WC6Norm / Pow(h, 4) * -22.0 * Pow(1.0 - u, 7), u);
      MulNegative(WC6Norm / Pow(h, 4) * -22.0 * Pow(1.0 - u, 7) * u, DWC6Poly(u));
    }
    assert 0.0 / h == 0.0;
    assert h / h == 1.0;
  }

  /** The cubic spline is positive inside its support and vanishes at r = h. */
  lemma M4Support(r: real, h: real)
    requires h > 0.0
    ensures 0.0 <= r < h ==> M4(r, h) > 0.0
    ensures M4(h, h) == 0.0
  {
    if 0.0 <= r < h {
      var u := r / h;
      RatioInUnit(r, h);
      if u < 0.5 {
        // u^2 <= u/2 and u (1 - u) <= 1/4, so (1 - u) u^2 <= 1/8
        assert u * u <= 0.5 * u;
        assert u * (1.0 - u) <= 0.25;
        assert (1.0 - u) * u * u <= 0.125;
        QuotientSigns(M4Inner(u), Pow(h, 3));
      } else {
        QuotientSigns(M4Outer(u), Pow(h, 3));
      }
    }
    assert h / h == 1.0;
    QuotientSigns(M4Outer(1.0), Pow(h, 3));
  }

  lemma DM4BranchesNegative(u: real)
    requires 0.0 < u < 1.0
    ensures u < 0.5 ==> DM4Inner(u) < 0.0
    ensures 0.5 <= u ==> DM4Outer(u) < 0.0
  {
    if u < 0.5 {
      MulNegative(45.836623610466 * u - 30.557749073644, u);
    }
  }

  /** The cubic-spline derivative is negative strictly inside the support and zero at both ends. */
  lemma DM4Sign(r: real, h: real)
    requires h > 0.0
    ensures 0.0 < r < h ==> DM4(r, h) < 0.0
    ensures DM4(0.0, h) == 0.0
    ensures DM4(h, h) == 0.0
  {
    if 0.0 < r < h {
      var u := r / h;
      RatioInUnit(r, h);
      DM4BranchesNegative(u);
      QuotientSigns(if u < 0.5 then DM4Inner(u) else DM4Outer(u), Pow(h, 4));
    }
    assert 0.0 / h == 0.0;
    assert h / h == 1.0;
    QuotientSigns(DM4Inner(0.0), Pow(h, 4));
    QuotientSigns(DM4Outer(1.0), Pow(h, 4));
  }

  /** At u = 1/2 the two derivative branches of the cubic spline agree exactly. */
  lemma DM4BranchesMeet()
    ensures DM4Inner(0.5) == DM4Outer(0.5)
  {
  }

  /** At u = 1/2 the two value branches of the cubic spline do NOT agree exactly: the
      rounded coefficients leave a jump of 3.75e-13 (relative size about 6e-13). */
  lemma M4BranchesJumpAtHalf()
    ensures M4Outer(0.5) - M4Inner(0.5) == 0.000000000000375
  {
  }

  lemma KernelSigns(k: Kernel, r: real, h: real)
    requires h > 0.0 && 0.0 <= r <= h
    ensures W(k, r, h) >= 0.0
    ensures DW(k, r, h) <= 0.0
  {
    WC6Support(r, h);
    DWC6Sign(r, h);
    M4Support(r, h);
    DM4Sign(r, h);
  }
}
