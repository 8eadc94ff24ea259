/** `Smooth_SPH_quantities` (src/sph.c:302-423): a kernel-weighted average of the specific
    internal energy `U` and the velocity over each gas particle's neighbours. A gather phase
    fills the scratch buffers `uArr` and `velArr` from the unchanged particles, then a commit
    phase copies them back. */
module Smoothing {
  import opened RealMath
  import opened Geometry
  import opened Kernels
  import opened NeighbourSums
  import opened Particles

  /** JUMPTOLERANCE (line 5): the smallest change of U that is committed. */
  const JumpTolerance: real := 0.05

  /** The three accumulators of the neighbour loop: `wk_total`, `wk_u` and `wk_vel`. */
  datatype Gathered = Gathered(total: real, u: real, vel: Vec3)
  {
    function Plus(o: Gathered): Gathered
    {
      Gathered(total + o.total, u + o.u, vel.Plus(o.vel))
    }
  }

  const NothingGathered := Gathered(0.0, 0.0, Origin)

  /** The `+=` of the three accumulators. */
  function AddGathered(a: Gathered, b: Gathered): Gathered { a.Plus(b) }

  /** What neighbour j adds for particle i (lines 338-389): nothing for the particle itself
      or beyond the support, otherwise its weight, its U and its velocity times the weight.
      The kernel derivative is the one the build selects. */
  function GatherTerm(p: SphParams, sqrt: real -> real, pos: seq<Vec3>, vel: seq<Vec3>, sph: seq<SphData>, i: int, j: int): Option<Gathered>
    requires p.boxsize >= 0.0 && |vel| == |pos| && |sph| == |pos| && 0 <= i < |pos| && 0 <= j < |pos|
  {
    if j == i then Some(NothingGathered)
    else
      var d := ImageOffset(pos[i], pos[j], p.boxsize);
      if !InSupport(d, sph[i].hsml) then Some(NothingGathered)
      else
        match PairWeight(p.mpart, p.kernel, sqrt(d.Norm2()), sph[i].hsml, sph[i].rho, sph[i].varHsmlFac)
        case None => None
        case Some(w) => Some(Weighed(sph[j].u, vel[j], w))
  }

  /** The increments of lines 384-389 for a neighbour with energy u, velocity v and weight w. */
  function Weighed(u: real, v: Vec3, w: real): Gathered
  {
    Gathered(w, u * w, v.Scale(w))
  }

  /** The accumulators of particle i after the neighbour list `ngbs`, in list order. */
  function GatherOver(p: SphParams, sqrt: real -> real, pos: seq<Vec3>, vel: seq<Vec3>, sph: seq<SphData>, i: int, ngbs: seq<int>): Option<Gathered>
    requires p.boxsize >= 0.0 && |vel| == |pos| && |sph| == |pos| && 0 <= i < |pos| && IndicesIn(ngbs, |pos|)
  {
    if |ngbs| == 0 then Some(NothingGathered)
    else AddDefined(GatherOver(p, sqrt, pos, vel, sph, i, ngbs[..|ngbs| - 1]), GatherTerm(p, sqrt, pos, vel, sph, i, ngbs[|ngbs| - 1]), AddGathered)
  }

  /** The accumulators of particle i over the neighbours found within its `Hsml`. */
  function Gather(p: SphParams, sqrt: real -> real, ngb: (int, real) -> seq<int>, pos: seq<Vec3>, vel: seq<Vec3>, sph: seq<SphData>, i: int): Option<Gathered>
    requires p.boxsize >= 0.0 && |vel| == |pos| && |sph| == |pos| && 0 <= i < |pos| && NeighbourSearch(ngb, |pos|, p.ngbMax)
  {
    GatherOver(p, sqrt, pos, vel, sph, i, ngb(i, sph[i].hsml))
  }

  lemma GatherOverStep(p: SphParams, sqrt: real -> real, pos: seq<Vec3>, vel: seq<Vec3>, sph: seq<SphData>, i: int, ngbs: seq<int>, k: nat)
    requires p.boxsize >= 0.0 && |vel| == |pos| && |sph| == |pos| && 0 <= i < |pos| && IndicesIn(ngbs, |pos|) && k < |ngbs|
    ensures GatherOver(p, sqrt, pos, vel, sph, i, ngbs[..k + 1])
         == AddDefined(GatherOver(p, sqrt, pos, vel, sph, i, ngbs[..k]), GatherTerm(p, sqrt, pos, vel, sph, i, ngbs[k]), AddGathered)
  {
    assert ngbs[..k + 1][..k] == ngbs[..k];
  }

  /** `v / t` component by component (lines 392-394). */
  function Divided(v: Vec3, t: real): Vec3
    requires t != 0.0
  {
    Vec3(v.x / t, v.y / t, v.z / t)
  }

  /** The new U of a particle with accumulators g and old energy u: the weighted average
      `wk_u / wk_total` when it differs from u by more than JUMPTOLERANCE and is non-zero
      (a zero `uArr[ipart]` is not committed), otherwise u. With no weight at all the
      particle keeps its own U. */
  function SmoothedEnergy(g: Gathered, u: real): real
  {
    if g.total == 0.0 then u
    else
      var average := g.u / g.total;
      if Abs(average - u) > JumpTolerance && average != 0.0 then average else u
  }

  /** The new velocity: the weighted average `wk_vel / wk_total`; with no weight at all the
      particle keeps its own velocity. */
  function SmoothedVelocity(g: Gathered, v: Vec3): Vec3
  {
    if g.total == 0.0 then v else Divided(g.vel, g.total)
  }

  /** U changes exactly when there is weight, the average is non-zero and it lies more than
      JUMPTOLERANCE away; then it becomes the average. */
  lemma EnergyGate(g: Gathered, u: real)
    ensures SmoothedEnergy(g, u) != u <==>
      g.total != 0.0 && g.u / g.total != 0.0 && Abs(g.u / g.total - u) > JumpTolerance
    ensures SmoothedEnergy(g, u) != u ==> SmoothedEnergy(g, u) == g.u / g.total
  {
  }

  /** A neighbour contributes when it is another particle inside the support. */
  predicate Contributes(p: SphParams, pos: seq<Vec3>, sph: seq<SphData>, i: int, j: int)
    requires p.boxsize >= 0.0 && |sph| == |pos| && 0 <= i < |pos| && 0 <= j < |pos|
  {
    j != i && InSupport(ImageOffset(pos[i], pos[j], p.boxsize), sph[i].hsml)
  }

  /** Sums that carry the energy c and the velocity v on every unit of weight. */
  predicate Carries(g: Option<Gathered>, c: real, v: Vec3)
  {
    g.Some? ==> g.value.u == c * g.value.total && g.value.vel == v.Scale(g.value.total)
  }

  lemma CarriesAdd(a: Option<Gathered>, b: Option<Gathered>, c: real, v: Vec3)
    requires Carries(a, c, v) && Carries(b, c, v)
    ensures Carries(AddDefined(a, b, AddGathered), c, v)
  {
    if a.Some? && b.Some? {
      var s := a.value.total;
      var t := b.value.total;
      assert c * s + c * t == c * (s + t);
      assert v.Scale(s).Plus(v.Scale(t)) == v.Scale(s + t);
    }
  }

  /** Over neighbours that all carry the energy c and the velocity v, the weighted sums are
      c and v times the total weight. */
  lemma {:induction false} ConstantFieldSums(p: SphParams, sqrt: real -> real, pos: seq<Vec3>, vel: seq<Vec3>, sph: seq<SphData>,
                                             i: int, ngbs: seq<int>, c: real, v: Vec3)
    requires p.boxsize >= 0.0 && |vel| == |pos| && |sph| == |pos| && 0 <= i < |pos| && IndicesIn(ngbs, |pos|)
    requires forall k :: 0 <= k < |ngbs| && Contributes(p, pos, sph, i, ngbs[k]) ==> sph[ngbs[k]].u == c && vel[ngbs[k]] == v
    ensures Carries(GatherOver(p, sqrt, pos, vel, sph, i, ngbs), c, v)
  {
    if |ngbs| > 0 {
      var front := ngbs[..|ngbs| - 1];
      var j := ngbs[|ngbs| - 1];
      ConstantFieldSums(p, sqrt, pos, vel, sph, i, front, c, v);
      ConstantFieldTerm(p, sqrt, pos, vel, sph, i, j, c, v);
      CarriesAdd(GatherOver(p, sqrt, pos, vel, sph, i, front), GatherTerm(p, sqrt, pos, vel, sph, i, j), c, v);
    }
  }

  lemma ConstantFieldTerm(p: SphParams, sqrt: real -> real, pos: seq<Vec3>, vel: seq<Vec3>, sph: seq<SphData>,
                          i: int, j: int, c: real, v: Vec3)
    requires p.boxsize >= 0.0 && |vel| == |pos| && |sph| == |pos| && 0 <= i < |pos| && 0 <= j < |pos|
    requires Contributes(p, pos, sph, i, j) ==> sph[j].u == c && vel[j] == v
    ensures Carries(GatherTerm(p, sqrt, pos, vel, sph, i, j), c, v)
  {
  }

  /** Sums that carry c and v, with weight, average to exactly c and v. */
  lemma AverageOfConstant(g: Gathered, c: real, v: Vec3, u: real, own: Vec3)
    requires Carries(Some(g), c, v) && g.total != 0.0
    ensures SmoothedVelocity(g, own) == v
    ensures SmoothedEnergy(g, u) == (if Abs(c - u) > JumpTolerance && c != 0.0 then c else u)
  {
    var t := g.total;
    assert (c * t) / t == c;
    assert (t * v.x) / t == v.x && (t * v.y) / t == v.y && (t * v.z) / t == v.z;
  }

  /** The weighted average of a constant field is that constant: when every contributing
      neighbour carries the same energy c and velocity v and there is weight, the particle's
      velocity becomes v and its energy becomes c or, within JUMPTOLERANCE of c or when c is
      zero, stays its own. */
  lemma ConstantFieldReproduced(p: SphParams, sqrt: real -> real, pos: seq<Vec3>, vel: seq<Vec3>, sph: seq<SphData>,
                                i: int, ngbs: seq<int>, c: real, v: Vec3)
    requires p.boxsize >= 0.0 && |vel| == |pos| && |sph| == |pos| && 0 <= i < |pos| && IndicesIn(ngbs, |pos|)
    requires forall k :: 0 <= k < |ngbs| && Contributes(p, pos, sph, i, ngbs[k]) ==> sph[ngbs[k]].u == c && vel[ngbs[k]] == v
    ensures var g := GatherOver(p, sqrt, pos, vel, sph, i, ngbs);
      g.Some? && g.value.total != 0.0 ==>
        && SmoothedVelocity(g.value, vel[i]) == v
        && SmoothedEnergy(g.value, sph[i].u) == (if Abs(c - sph[i].u) > JumpTolerance && c != 0.0 then c else sph[i].u)
  {
    ConstantFieldSums(p, sqrt, pos, vel, sph, i, ngbs, c, v);
    var g := GatherOver(p, sqrt, pos, vel, sph, i, ngbs);
    if g.Some? && g.value.total != 0.0 {
      AverageOfConstant(g.value, c, v, sph[i].u, vel[i]);
    }
  }

  /** A particle with no weight keeps its own energy and velocity. */
  lemma UnweightedKeepsState(g: Gathered, u: real, v: Vec3)
    requires g.total == 0.0
    ensures SmoothedEnergy(g, u) == u && SmoothedVelocity(g, v) == v
  {
  }

  /** With no contributing neighbour (only the particle itself, or every neighbour beyond
      `hsml`) nothing is gathered. */
  lemma {:induction false} NoContributorsNothingGathered(p: SphParams, sqrt: real -> real, pos: seq<Vec3>, vel: seq<Vec3>, sph: seq<SphData>,
                                                         i: int, ngbs: seq<int>)
    requires p.boxsize >= 0.0 && |vel| == |pos| && |sph| == |pos| && 0 <= i < |pos| && IndicesIn(ngbs, |pos|)
    requires forall k :: 0 <= k < |ngbs| ==> !Contributes(p, pos, sph, i, ngbs[k])
    ensures GatherOver(p, sqrt, pos, vel, sph, i, ngbs) == Some(NothingGathered)
  {
    if |ngbs| > 0 {
      NoContributorsNothingGathered(p, sqrt, pos, vel, sph, i, ngbs[..|ngbs| - 1]);
      NonContributorNothingGathered(p, sqrt, pos, vel, sph, i, ngbs[|ngbs| - 1]);
      PlusNothing(NothingGathered);
      assert AddDefined(Some(NothingGathered), Some(NothingGathered), AddGathered) == Some(NothingGathered);
    }
  }

  lemma PlusNothing(g: Gathered)
    ensures AddGathered(g, NothingGathered) == g
  {
  }

  lemma NonContributorNothingGathered(p: SphParams, sqrt: real -> real, pos: seq<Vec3>, vel: seq<Vec3>, sph: seq<SphData>, i: int, j: int)
    requires p.boxsize >= 0.0 && |vel| == |pos| && |sph| == |pos| && 0 <= i < |pos| && 0 <= j < |pos|
    requires !Contributes(p, pos, sph, i, j)
    ensures GatherTerm(p, sqrt, pos, vel, sph, i, j) == Some(NothingGathered)
  {
  }

  /** An IEEE double as far as the unguarded divisions need one. */
  datatype Double = Finite(v: real) | NaN | Infinite(negative: bool)

  /** `a / b` in IEEE arithmetic for finite a and b: 0/0 is NaN, any other quotient by zero
      an infinity. */
  function Divide(a: real, b: real): Double
  {
    if b != 0.0 then Finite(a / b) else if a == 0.0 then NaN else Infinite(a < 0.0)
  }

  /** A velocity whose components are IEEE doubles. */
  datatype DoubleVec = DoubleVec(x: Double, y: Double, z: Double)

  /** U after lines 391-414 as written, with `wk_u /= wk_total` unguarded: a NaN average fails
      `u_err > JUMPTOLERANCE`, so U is kept; an infinite one passes the gate and is committed. */
  function AsWrittenEnergy(g: Gathered, u: real): Double
  {
    match Divide(g.u, g.total)
    case Finite(average) => Finite(if Abs(average - u) > JumpTolerance && average != 0.0 then average else u)
    case NaN => Finite(u)
    case Infinite(negative) => Infinite(negative)
  }

  /** The velocity after lines 392-414 as written: `wk_vel[k] /= wk_total`, always committed. */
  function AsWrittenVelocity(g: Gathered): DoubleVec
  {
    DoubleVec(Divide(g.vel.x, g.total), Divide(g.vel.y, g.total), Divide(g.vel.z, g.total))
  }

  /** Where there is weight the code as written and the guarded model agree. */
  lemma AsWrittenAgreesWithWeight(g: Gathered, u: real, v: Vec3)
    requires g.total != 0.0
    ensures AsWrittenEnergy(g, u) == Finite(SmoothedEnergy(g, u))
    ensures var s := SmoothedVelocity(g, v);
      AsWrittenVelocity(g) == DoubleVec(Finite(s.x), Finite(s.y), Finite(s.z))
  {
  }

  /** Without weight the code as written stores a velocity none of whose components is a
      number: NaN where the weighted sum is zero too, an infinity otherwise. */
  lemma AsWrittenLosesVelocity(g: Gathered)
    requires g.total == 0.0
    ensures !AsWrittenVelocity(g).x.Finite? && !AsWrittenVelocity(g).y.Finite? && !AsWrittenVelocity(g).z.Finite?
    ensures g.vel == Origin ==> AsWrittenVelocity(g) == DoubleVec(NaN, NaN, NaN)
  {
  }

  /** The input that shows it: a particle whose neighbour list holds only itself (or only
      particles outside its support) gathers nothing, and the code as written gives it the
      velocity (NaN, NaN, NaN), while the guarded model keeps its velocity. */
  lemma LoneParticleVelocity(p: SphParams, sqrt: real -> real, pos: seq<Vec3>, vel: seq<Vec3>, sph: seq<SphData>, i: int)
    requires p.boxsize >= 0.0 && |vel| == |pos| && |sph| == |pos| && 0 <= i < |pos|
    ensures var g := GatherOver(p, sqrt, pos, vel, sph, i, [i]);
      && g.Some?
      && AsWrittenVelocity(g.value) == DoubleVec(NaN, NaN, NaN)
      && SmoothedVelocity(g.value, vel[i]) == vel[i]
  {
    NoContributorsNothingGathered(p, sqrt, pos, vel, sph, i, [i]);
    AsWrittenLosesVelocity(NothingGathered);
    UnweightedKeepsState(NothingGathered, sph[i].u, vel[i]);
  }

  /** The neighbour loop of lines 338-389 for one particle. `defined` turns false at the
      first undefined term, as a NaN would stay in the accumulators. */
  method GatherAt(p: SphParams, sqrt: real -> real, pos: seq<Vec3>, vel: seq<Vec3>, sph: seq<SphData>, ipart: int, ngblist: seq<int>)
    returns (defined: bool, g: Gathered)
    requires p.boxsize >= 0.0 && |vel| == |pos| && |sph| == |pos| && 0 <= ipart < |pos| && IndicesIn(ngblist, |pos|)
    ensures GatherOver(p, sqrt, pos, vel, sph, ipart, ngblist) == (if defined then Some(g) else None)
  {
    defined := true;
    var wkTotal, wkU, wkVel := 0.0, 0.0, Origin;
    var i := 0;
    while i < |ngblist|
      invariant 0 <= i <= |ngblist|
      invariant GatherOver(p, sqrt, pos, vel, sph, ipart, ngblist[..i]) == (if defined then Some(Gathered(wkTotal, wkU, wkVel)) else None)
    {
      GatherOverStep(p, sqrt, pos, vel, sph, ipart, ngblist, i);
      var c := GatherTermAt(p, sqrt, pos, vel, sph, ipart, ngblist[i]);
      if c.None? {
        defined := false;
      } else if defined {
        wkTotal := wkTotal + c.value.total;
        wkU := wkU + c.value.u;
        wkVel := wkVel.Plus(c.value.vel);
      }
      i := i + 1;
    }
    assert ngblist[..|ngblist|] == ngblist;
    g := Gathered(wkTotal, wkU, wkVel);
  }

  /** The body of the neighbour loop for neighbour jpart: the `continue`s of lines 342 and
      370, then the weight and its three products. */
  method GatherTermAt(p: SphParams, sqrt: real -> real, pos: seq<Vec3>, vel: seq<Vec3>, sph: seq<SphData>, ipart: int, jpart: int)
    returns (c: Option<Gathered>)
    requires p.boxsize >= 0.0 && |vel| == |pos| && |sph| == |pos| && 0 <= ipart < |pos| && 0 <= jpart < |pos|
    ensures c == GatherTerm(p, sqrt, pos, vel, sph, ipart, jpart)
  {
    if jpart == ipart {
      return Some(NothingGathered);
    }
    var d := ImageOffset(pos[ipart], pos[jpart], p.boxsize);
    var hsml := sph[ipart].hsml;
    if d.Norm2() > hsml * hsml {
      return Some(NothingGathered);
    }
    var r := sqrt(d.Norm2());
    var weight := PairWeight(p.mpart, p.kernel, r, hsml, sph[ipart].rho, sph[ipart].varHsmlFac);
    if weight.None? {
      return None;
    }
    c := Some(Weighed(sph[jpart].u, vel[jpart], weight.value));
  }

  /** Particle i's slots as lines 391-403 fill them: its neighbour sums are defined, the
      energy slot `uArr[i]` is the smoothed energy or 0 where the gate keeps the old one, and
      the velocity slot `velArr[i]` is the smoothed velocity. */
  predicate SmoothedAt(p: SphParams, sqrt: real -> real, ngb: (int, real) -> seq<int>, pos: seq<Vec3>, vel: seq<Vec3>, sph: seq<SphData>,
                       i: int, u: real, v: Vec3)
    requires p.boxsize >= 0.0 && |vel| == |pos| && |sph| == |pos| && 0 <= i < |pos| && NeighbourSearch(ngb, |pos|, p.ngbMax)
  {
    var g := Gather(p, sqrt, ngb, pos, vel, sph, i);
    && g.Some?
    && SmoothedEnergy(g.value, sph[i].u) == (if u != 0.0 then u else sph[i].u)
    && v == SmoothedVelocity(g.value, vel[i])
  }

  /** The gather phase (lines 326-403): the buffers `uArr` and `velArr` for every gas
      particle, read from particles nothing has changed yet. A zero in `uArr` means "keep U".
      Stops at the first particle whose sums are undefined. */
  method GatherAll(p: SphParams, sqrt: real -> real, ngb: (int, real) -> seq<int>, pos: seq<Vec3>, vel: seq<Vec3>, sph: seq<SphData>)
    returns (status: Status, uArr: array<real>, velArr: array<Vec3>)
    requires p.boxsize >= 0.0 && |vel| == |pos| && |sph| == |pos| && NeighbourSearch(ngb, |pos|, p.ngbMax)
    ensures fresh(uArr) && fresh(velArr) && uArr.Length == |pos| && velArr.Length == |pos|
    ensures !status.OutOfFuel?
    ensures status.Completed? ==> forall i :: 0 <= i < |pos| ==> SmoothedAt(p, sqrt, ngb, pos, vel, sph, i, uArr[i], velArr[i])
    ensures status.Undefined? ==> status.ipart < |pos| && Gather(p, sqrt, ngb, pos, vel, sph, status.ipart).None?
  {
    uArr := new real[|pos|](_ => 0.0);
    velArr := new Vec3[|pos|](_ => Origin);
    var ipart := 0;
    while ipart < |pos|
      invariant 0 <= ipart <= |pos|
      invariant forall i :: 0 <= i < ipart ==> SmoothedAt(p, sqrt, ngb, pos, vel, sph, i, uArr[i], velArr[i])
    {
      var defined, g := GatherAt(p, sqrt, pos, vel, sph, ipart, ngb(ipart, sph[ipart].hsml));
      if !defined {
        return Undefined(ipart), uArr, velArr;
      }
      var buffered := EnergyBuffer(g, sph[ipart].u);
      uArr[ipart], velArr[ipart] := buffered, SmoothedVelocity(g, vel[ipart]);
      ipart := ipart + 1;
    }
    return Completed, uArr, velArr;
  }

  /** What `uArr[ipart]` holds after lines 392-398: the average where the gate lets it
      through, 0 otherwise. */
  method EnergyBuffer(g: Gathered, u: real) returns (buffered: real)
    ensures SmoothedEnergy(g, u) == (if buffered != 0.0 then buffered else u)
  {
    buffered := 0.0;
    if g.total != 0.0 {
      var average := g.u / g.total;
      var err := Abs(average - u);
      if err > JumpTolerance {
        buffered := average;
      }
    }
  }

  /** The commit loop of lines 405-414: U where the buffer is non-zero, the velocity always,
      for the first `uArr.Length` particles; nothing else changes. */
  method Commit(part: array<Particle>, sph: array<SphData>, uArr: array<real>, velArr: array<Vec3>)
    requires uArr.Length == sph.Length == velArr.Length && sph.Length <= part.Length
    modifies part, sph
    ensures forall i :: 0 <= i < sph.Length ==>
      sph[i] == old(sph[i]).(u := if old(uArr[i]) != 0.0 then old(uArr[i]) else old(sph[i].u))
    ensures forall i :: 0 <= i < sph.Length ==> part[i] == old(part[i]).(vel := old(velArr[i]))
    ensures forall i :: sph.Length <= i < part.Length ==> part[i] == old(part[i])
  {
    ghost var u0 := uArr[..];
    ghost var vel0 := velArr[..];
    ghost var sph0 := sph[..];
    ghost var part0 := part[..];
    var ipart := 0;
    while ipart < sph.Length
      invariant 0 <= ipart <= sph.Length
      invariant uArr[..] == u0 && velArr[..] == vel0
      invariant forall i :: 0 <= i < ipart ==> sph[i] == sph0[i].(u := if u0[i] != 0.0 then u0[i] else sph0[i].u)
      invariant forall i :: 0 <= i < ipart ==> part[i] == part0[i].(vel := vel0[i])
      invariant forall i :: ipart <= i < sph.Length ==> sph[i] == sph0[i]
      invariant forall i :: ipart <= i < part.Length ==> part[i] == part0[i]
    {
      if uArr[ipart] != 0.0 {
        sph[ipart] := sph[ipart].(u := uArr[ipart]);
      }
      part[ipart] := part[ipart].(vel := velArr[ipart]);
      ipart := ipart + 1;
    }
  }

  /** `Smooth_SPH_quantities` over the gas particles `sph[0..]`, the first entries of
      `part`: the gather phase, then the commit loop of lines 405-414, which overwrites U
      where the buffer is non-zero and always overwrites the velocity. Hsml, Rho, positions
      and every other field are untouched. When some particle's sums are undefined nothing is
      committed. */
  method SmoothSphQuantities(p: SphParams, sqrt: real -> real, ngb: (int, real) -> seq<int>,
                             part: array<Particle>, sph: array<SphData>)
    returns (status: Status)
    requires p.boxsize >= 0.0 && sph.Length <= part.Length
    requires NeighbourSearch(ngb, sph.Length, p.ngbMax)
    modifies part, sph
    ensures !status.OutOfFuel?
    ensures var pos := Positions(old(part[..sph.Length]));
      var vel := Velocities(old(part[..sph.Length]));
      status.Completed? ==>
        && (forall i :: 0 <= i < sph.Length ==>
              var g := Gather(p, sqrt, ngb, pos, vel, old(sph[..]), i);
              && g.Some?
              && sph[i] == old(sph[i]).(u := SmoothedEnergy(g.value, old(sph[i].u)))
              && part[i] == old(part[i]).(vel := SmoothedVelocity(g.value, old(part[i].vel))))
        && (forall i :: sph.Length <= i < part.Length ==> part[i] == old(part[i]))
    ensures var pos := Positions(old(part[..sph.Length]));
      var vel := Velocities(old(part[..sph.Length]));
      status.Undefined? ==>
        && status.ipart < sph.Length
        && Gather(p, sqrt, ngb, pos, vel, old(sph[..]), status.ipart).None?
        && part[..] == old(part[..]) && sph[..] == old(sph[..])
  {
    var pos := Positions(part[..sph.Length]);
    var vel := Velocities(part[..sph.Length]);
    var start := sph[..];
    var uArr, velArr;
    status, uArr, velArr := GatherAll(p, sqrt, ngb, pos, vel, start);
    if !status.Completed? {
      return;
    }
    Commit(part, sph, uArr, velArr);
  }
}
