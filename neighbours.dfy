/** The neighbour sums of `Find_hsml` (src/sph.c:98-154): for a trial smoothing length
    h, every listed neighbour inside the kernel support adds its kernel weight to the
    weighted neighbour count, the density and the density derivative. */
module NeighbourSums {
  import opened RealMath
  import opened Geometry
  import opened Kernels

  /** The build-time and run-time constants the SPH loops read: the kernel choice
      (SPH_CUBIC_SPLINE), `Param.Boxsize`, `Param.Mpart[0]`, DESNNGB, NNGBDEV, NGBMAX
      and the factor `pow(DESNNGB*0.01, -2.236)` of the WC6 bias correction. */
  datatype SphParams = SphParams(
    kernel: Kernel,
    boxsize: real,
    mpart: real,
    desNgb: nat,
    ngbDev: real,
    ngbMax: nat,
    biasPow: real)

  /** The ranges the model relies on: a non-negative box, a positive gas particle mass and
      a positive bias factor (a power of a positive number). */
  predicate ValidParams(p: SphParams)
  {
    p.boxsize >= 0.0 && p.mpart > 0.0 && p.biasPow > 0.0
  }

  /** The three accumulators of one pass: `wkNgb`, `rho` and `dRhodHsml`. */
  datatype Sums = Sums(wkNgb: real, rho: real, dRhodHsml: real)
  {
    function Plus(o: Sums): Sums
    {
      Sums(wkNgb + o.wkNgb, rho + o.rho, dRhodHsml + o.dRhodHsml)
    }
  }

  const NoSums := Sums(0.0, 0.0, 0.0)

  /** A neighbour at separation d lies inside the support of radius h (the test of line 135
      is its negation). */
  predicate InSupport(d: Vec3, h: real)
  {
    d.Norm2() <= h * h
  }

  /** What one neighbour at nearest-image separation d adds in a pass with smoothing length h. */
  function Contribution(p: SphParams, sqrt: real -> real, d: Vec3, h: real): Sums
    requires h != 0.0
  {
    if !InSupport(d, h) then NoSums
    else
      var r := sqrt(d.Norm2());
      Weighted(p, r, h, W(p.kernel, r, h), DW(p.kernel, r, h))
  }

  /** The three increments of lines 147-150 for a neighbour at distance r whose kernel
      value is wk and whose kernel derivative is dwk. */
  function Weighted(p: SphParams, r: real, h: real, wk: real, dwk: real): Sums
    requires h != 0.0
  {
    Sums(FourPiThird * wk * Cube(h), p.mpart * wk, -p.mpart * (3.0 / h * wk + r / h * dwk))
  }

  /** Every index of a neighbour list refers to a particle of `pos`. */
  predicate IndicesIn(ngbs: seq<int>, n: int)
  {
    forall k :: 0 <= k < |ngbs| ==> 0 <= ngbs[k] < n
  }

  /** The nearest-image separations of particle i from the listed neighbours, in list order. */
  function Separations(pos: seq<Vec3>, i: int, ngbs: seq<int>, boxsize: real): (seps: seq<Vec3>)
    requires boxsize >= 0.0
    requires 0 <= i < |pos| && IndicesIn(ngbs, |pos|)
    ensures |seps| == |ngbs|
    ensures forall k :: 0 <= k < |ngbs| ==> seps[k] == ImageOffset(pos[i], pos[ngbs[k]], boxsize)
  {
    seq(|ngbs|, k requires 0 <= k < |ngbs| => ImageOffset(pos[i], pos[ngbs[k]], boxsize))
  }

  /** The sums of one pass over neighbours at separations `seps`, accumulated in list order. */
  function SumsOver(p: SphParams, sqrt: real -> real, seps: seq<Vec3>, h: real): Sums
    requires h != 0.0
  {
    if |seps| == 0 then NoSums
    else SumsOver(p, sqrt, seps[..|seps| - 1], h).Plus(Contribution(p, sqrt, seps[|seps| - 1], h))
  }

  /** One more neighbour adds its contribution to the sums of the ones before it. */
  lemma SumsOverStep(p: SphParams, sqrt: real -> real, seps: seq<Vec3>, i: nat, h: real)
    requires h != 0.0 && i < |seps|
    ensures SumsOver(p, sqrt, seps[..i + 1], h) == SumsOver(p, sqrt, seps[..i], h).Plus(Contribution(p, sqrt, seps[i], h))
  {
    assert seps[..i + 1][..i] == seps[..i];
  }

  /** The separations that lie inside the support, in list order. */
  function InSupportOnly(seps: seq<Vec3>, h: real): (near: seq<Vec3>)
    ensures |near| <= |seps|
    ensures forall d :: d in near ==> d in seps && InSupport(d, h)
  {
    if |seps| == 0 then []
    else
      var front := InSupportOnly(seps[..|seps| - 1], h);
      var last := seps[|seps| - 1];
      if InSupport(last, h) then front + [last] else front
  }

  /** Only neighbours with r^2 <= h^2 contribute: dropping the others changes no sum. */
  lemma {:induction false} OnlyNeighboursInSupportCount(p: SphParams, sqrt: real -> real, seps: seq<Vec3>, h: real)
    requires h != 0.0
    ensures SumsOver(p, sqrt, seps, h) == SumsOver(p, sqrt, InSupportOnly(seps, h), h)
  {
    if |seps| > 0 {
      var front := seps[..|seps| - 1];
      var last := seps[|seps| - 1];
      OnlyNeighboursInSupportCount(p, sqrt, front, h);
      var near := InSupportOnly(front, h);
      if InSupport(last, h) {
        assert (near + [last])[..|near|] == near;
      }
    }
  }

  /** With no neighbour inside the support, all three sums are zero. */
  lemma NoNeighbourInSupportNoSums(p: SphParams, sqrt: real -> real, seps: seq<Vec3>, h: real)
    requires h != 0.0
    requires forall k :: 0 <= k < |seps| ==> !InSupport(seps[k], h)
    ensures SumsOver(p, sqrt, seps, h) == NoSums
  {
    OnlyNeighboursInSupportCount(p, sqrt, seps, h);
  }

  /** Density and count in the ratio m : v. */
  predicate Proportional(s: Sums, v: real, m: real)
  {
    s.rho * v == m * s.wkNgb
  }

  lemma ProportionalSum(a: Sums, b: Sums, v: real, m: real)
    requires Proportional(a, v, m) && Proportional(b, v, m)
    ensures Proportional(a.Plus(b), v, m)
  {
    assert (a.rho + b.rho) * v == a.rho * v + b.rho * v;
  }

  lemma ContributionDensityMatchesCount(p: SphParams, sqrt: real -> real, d: Vec3, h: real)
    requires h != 0.0
    ensures Proportional(Contribution(p, sqrt, d, h), FourPiThird * Cube(h), p.mpart)
  {
  }

  /** `wkNgb` and `rho` accumulate the same kernel weights with different factors, so
      rho * (4 pi / 3) h^3 == mpart * wkNgb after every pass. */
  lemma {:induction false} DensityMatchesCount(p: SphParams, sqrt: real -> real, seps: seq<Vec3>, h: real)
    requires h != 0.0
    ensures Proportional(SumsOver(p, sqrt, seps, h), FourPiThird * Cube(h), p.mpart)
  {
    if |seps| > 0 {
      var front := seps[..|seps| - 1];
      DensityMatchesCount(p, sqrt, front, h);
      ContributionDensityMatchesCount(p, sqrt, seps[|seps| - 1], h);
      ProportionalSum(SumsOver(p, sqrt, front, h), Contribution(p, sqrt, seps[|seps| - 1], h), FourPiThird * Cube(h), p.mpart);
    }
  }

  /** A square root of r^2 <= h^2 lies in [0, h]. */
  lemma RootInSupport(sqrt: real -> real, r2: real, h: real)
    requires IsSqrt(sqrt)
    requires h > 0.0 && 0.0 <= r2 <= h * h
    ensures 0.0 <= sqrt(r2) <= h
  {
    var r := sqrt(r2);
    assert 0.0 <= r && r * r == r2;
    if r > h {
      MulPositive(r - h, r + h);
    }
  }

  /** Each neighbour inside the support adds a non-negative weight and density. */
  lemma ContributionNonnegative(p: SphParams, sqrt: real -> real, d: Vec3, h: real)
    requires IsSqrt(sqrt) && p.mpart > 0.0 && h > 0.0
    ensures Contribution(p, sqrt, d, h).wkNgb >= 0.0
    ensures Contribution(p, sqrt, d, h).rho >= 0.0
  {
    if InSupport(d, h) {
      var r := sqrt(d.Norm2());
      RootInSupport(sqrt, d.Norm2(), h);
      KernelSigns(p.kernel, r, h);
      MulNonnegative(FourPiThird * W(p.kernel, r, h), Cube(h));
      MulNonnegative(p.mpart, W(p.kernel, r, h));
    }
  }

  /** The weighted neighbour count and the density of a pass are never negative. */
  lemma {:induction false} SumsNonnegative(p: SphParams, sqrt: real -> real, seps: seq<Vec3>, h: real)
    requires IsSqrt(sqrt) && ValidParams(p) && h > 0.0
    ensures SumsOver(p, sqrt, seps, h).wkNgb >= 0.0
    ensures SumsOver(p, sqrt, seps, h).rho >= 0.0
  {
    if |seps| > 0 {
      SumsNonnegative(p, sqrt, seps[..|seps| - 1], h);
      ContributionNonnegative(p, sqrt, seps[|seps| - 1], h);
    }
  }

  /** A positive weighted count forces a positive density (the Newton step divides by rho). */
  lemma PositiveCountPositiveDensity(p: SphParams, sqrt: real -> real, seps: seq<Vec3>, h: real)
    requires ValidParams(p) && h > 0.0
    requires SumsOver(p, sqrt, seps, h).wkNgb > 0.0
    ensures SumsOver(p, sqrt, seps, h).rho > 0.0
  {
    var s := SumsOver(p, sqrt, seps, h);
    DensityMatchesCount(p, sqrt, seps, h);
    CubeSigns(h);
    MulPositive(FourPiThird, Cube(h));
    ProportionalPositive(s, FourPiThird * Cube(h), p.mpart);
  }

  lemma ProportionalPositive(s: Sums, v: real, m: real)
    requires Proportional(s, v, m) && v > 0.0 && m > 0.0 && s.wkNgb > 0.0
    ensures s.rho > 0.0
  {
    MulPositive(m, s.wkNgb);
    if s.rho <= 0.0 {
      MulNonpositive(s.rho, v);
    }
  }

  /** The body of the loop of src/sph.c:107-154 for one neighbour at separation d: nothing
      beyond the support (the `continue` of line 136), otherwise the kernel and its
      derivative at r = sqrt(r^2) weighted into the three sums. */
  method NeighbourTerms(p: SphParams, sqrt: real -> real, d: Vec3, hsml: real) returns (c: Sums)
    requires hsml != 0.0
    ensures c == Contribution(p, sqrt, d, hsml)
  {
    var r2 := d.Norm2();
    if r2 > hsml * hsml {
      return NoSums;
    }
    var r := sqrt(r2);
    var wk := W(p.kernel, r, hsml);
    var dwk := DW(p.kernel, r, hsml);
    c := Weighted(p, r, hsml, wk, dwk);
  }

  /** The loop of src/sph.c:107-154 for one trial smoothing length, with the nearest-image
      fold written as the C code writes it. */
  method AccumulateNeighbours(p: SphParams, sqrt: real -> real, pos: seq<Vec3>, ipart: int, ngblist: seq<int>, hsml: real)
    returns (wkNgb: real, rho: real, dRhodHsml: real)
    requires p.boxsize >= 0.0 && hsml != 0.0
    requires 0 <= ipart < |pos| && IndicesIn(ngblist, |pos|)
    ensures Sums(wkNgb, rho, dRhodHsml) == SumsOver(p, sqrt, Separations(pos, ipart, ngblist, p.boxsize), hsml)
  {
    var boxsize := p.boxsize;
    var posI := pos[ipart];
    wkNgb, rho, dRhodHsml := 0.0, 0.0, 0.0;
    ghost var seps := Separations(pos, ipart, ngblist, boxsize);
    var i := 0;
    while i < |ngblist|
      invariant 0 <= i <= |ngblist|
      invariant Sums(wkNgb, rho, dRhodHsml) == SumsOver(p, sqrt, seps[..i], hsml)
    {
      var jpart := ngblist[i];
      var dx := NearestImage(posI.x - pos[jpart].x, boxsize);
      var dy := NearestImage(posI.y - pos[jpart].y, boxsize);
      var dz := NearestImage(posI.z - pos[jpart].z, boxsize);
      var d := Vec3(dx, dy, dz);
      assert d == seps[i];
      SumsOverStep(p, sqrt, seps, i, hsml);
      var c := NeighbourTerms(p, sqrt, d, hsml);
      wkNgb := wkNgb + c.wkNgb;
      rho := rho + c.rho;
      dRhodHsml := dRhodHsml + c.dRhodHsml;
      i := i + 1;
    }
    assert seps[..|ngblist|] == seps;
  }
}
