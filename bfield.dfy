/** `Bfld_from_rotA_SPH` (src/sph.c:216-300): the magnetic field of every gas particle as the
    SPH curl of the vector potential `Apot`, summed over the particle's neighbours with the
    Wendland C6 kernel derivative whatever kernel the build selects. */
module MagneticField {
  import opened RealMath
  import opened Geometry
  import opened Kernels
  import opened NeighbourSums
  import opened Particles

  /** The curl term `dA x d` of lines 287-289, written component by component. */
  function Curl(dA: Vec3, d: Vec3): (c: Vec3)
    ensures dA == Origin ==> c == Origin
  {
    Vec3(d.z * dA.y - d.y * dA.z, d.x * dA.z - d.z * dA.x, d.y * dA.x - d.x * dA.y)
  }

  /** The `+=` of the field components. */
  function AddField(a: Vec3, b: Vec3): Vec3 { a.Plus(b) }

  /** What neighbour j adds to the field of particle i (lines 244-289): nothing for the
      particle itself or beyond the support, otherwise the weighted curl of the potential
      difference. */
  function CurlTerm(p: SphParams, sqrt: real -> real, pos: seq<Vec3>, sph: seq<SphData>, i: int, j: int): Option<Vec3>
    requires p.boxsize >= 0.0 && |sph| == |pos| && 0 <= i < |pos| && 0 <= j < |pos|
  {
    if j == i then Some(Origin)
    else
      var d := ImageOffset(pos[i], pos[j], p.boxsize);
      if !InSupport(d, sph[i].hsml) then Some(Origin)
      else
        match PairWeight(p.mpart, WendlandC6, sqrt(d.Norm2()), sph[i].hsml, sph[i].rho, sph[i].varHsmlFac)
        case None => None
        case Some(w) => Some(Curl(sph[i].apot.Minus(sph[j].apot), d).Scale(w))
  }

  /** The field of particle i summed over the neighbour list `ngbs` in list order. */
  function CurlOver(p: SphParams, sqrt: real -> real, pos: seq<Vec3>, sph: seq<SphData>, i: int, ngbs: seq<int>): Option<Vec3>
    requires p.boxsize >= 0.0 && |sph| == |pos| && 0 <= i < |pos| && IndicesIn(ngbs, |pos|)
  {
    if |ngbs| == 0 then Some(Origin)
    else AddDefined(CurlOver(p, sqrt, pos, sph, i, ngbs[..|ngbs| - 1]), CurlTerm(p, sqrt, pos, sph, i, ngbs[|ngbs| - 1]), AddField)
  }

  /** The field `SphP[i].Bfld` receives: the sum over the neighbours found within its `Hsml`. */
  function Field(p: SphParams, sqrt: real -> real, ngb: (int, real) -> seq<int>, pos: seq<Vec3>, sph: seq<SphData>, i: int): Option<Vec3>
    requires p.boxsize >= 0.0 && |sph| == |pos| && 0 <= i < |pos| && NeighbourSearch(ngb, |pos|, p.ngbMax)
  {
    CurlOver(p, sqrt, pos, sph, i, ngb(i, sph[i].hsml))
  }

  /** A neighbour contributes when it is another particle inside the support. */
  predicate Contributes(p: SphParams, pos: seq<Vec3>, sph: seq<SphData>, i: int, j: int)
    requires p.boxsize >= 0.0 && |sph| == |pos| && 0 <= i < |pos| && 0 <= j < |pos|
  {
    j != i && InSupport(ImageOffset(pos[i], pos[j], p.boxsize), sph[i].hsml)
  }

  lemma CurlOverStep(p: SphParams, sqrt: real -> real, pos: seq<Vec3>, sph: seq<SphData>, i: int, ngbs: seq<int>, k: nat)
    requires p.boxsize >= 0.0 && |sph| == |pos| && 0 <= i < |pos| && IndicesIn(ngbs, |pos|) && k < |ngbs|
    ensures CurlOver(p, sqrt, pos, sph, i, ngbs[..k + 1])
         == AddDefined(CurlOver(p, sqrt, pos, sph, i, ngbs[..k]), CurlTerm(p, sqrt, pos, sph, i, ngbs[k]), AddField)
  {
    assert ngbs[..k + 1][..k] == ngbs[..k];
  }

  /** With no contributing neighbour (only the particle itself, or every neighbour beyond
      `hsml`) the field is zero. */
  lemma {:induction false} NoContributorsNoField(p: SphParams, sqrt: real -> real, pos: seq<Vec3>, sph: seq<SphData>, i: int, ngbs: seq<int>)
    requires p.boxsize >= 0.0 && |sph| == |pos| && 0 <= i < |pos| && IndicesIn(ngbs, |pos|)
    requires forall k :: 0 <= k < |ngbs| ==> !Contributes(p, pos, sph, i, ngbs[k])
    ensures CurlOver(p, sqrt, pos, sph, i, ngbs) == Some(Origin)
  {
    if |ngbs| > 0 {
      NoContributorsNoField(p, sqrt, pos, sph, i, ngbs[..|ngbs| - 1]);
    }
  }

  /** Where every neighbour's potential equals the particle's own, the field is zero
      wherever it is defined. */
  lemma {:induction false} UniformPotentialNoField(p: SphParams, sqrt: real -> real, pos: seq<Vec3>, sph: seq<SphData>, i: int, ngbs: seq<int>)
    requires p.boxsize >= 0.0 && |sph| == |pos| && 0 <= i < |pos| && IndicesIn(ngbs, |pos|)
    requires forall k :: 0 <= k < |ngbs| ==> sph[ngbs[k]].apot == sph[i].apot
    ensures CurlOver(p, sqrt, pos, sph, i, ngbs).Some? ==> CurlOver(p, sqrt, pos, sph, i, ngbs) == Some(Origin)
  {
    if |ngbs| > 0 {
      UniformPotentialNoField(p, sqrt, pos, sph, i, ngbs[..|ngbs| - 1]);
      UniformPotentialNoTerm(p, sqrt, pos, sph, i, ngbs[|ngbs| - 1]);
    }
  }

  lemma UniformPotentialNoTerm(p: SphParams, sqrt: real -> real, pos: seq<Vec3>, sph: seq<SphData>, i: int, j: int)
    requires p.boxsize >= 0.0 && |sph| == |pos| && 0 <= i < |pos| && 0 <= j < |pos|
    requires sph[j].apot == sph[i].apot
    ensures CurlTerm(p, sqrt, pos, sph, i, j).Some? ==> CurlTerm(p, sqrt, pos, sph, i, j) == Some(Origin)
  {
    var dA := sph[i].apot.Minus(sph[j].apot);
    assert dA == Origin;
    var d := ImageOffset(pos[i], pos[j], p.boxsize);
    forall w: real ensures Curl(dA, d).Scale(w) == Origin {
      assert Curl(dA, d) == Origin;
    }
  }

  /** The field is defined whenever the density is non-zero, the smoothing length positive
      and no contributing neighbour sits on the particle's own nearest image. */
  lemma {:induction false} SeparatedFieldDefined(p: SphParams, sqrt: real -> real, pos: seq<Vec3>, sph: seq<SphData>, i: int, ngbs: seq<int>)
    requires p.boxsize >= 0.0 && |sph| == |pos| && 0 <= i < |pos| && IndicesIn(ngbs, |pos|)
    requires IsSqrt(sqrt) && sph[i].hsml > 0.0 && sph[i].rho != 0.0
    requires forall k :: 0 <= k < |ngbs| && Contributes(p, pos, sph, i, ngbs[k]) ==> ImageOffset(pos[i], pos[ngbs[k]], p.boxsize).Norm2() > 0.0
    ensures CurlOver(p, sqrt, pos, sph, i, ngbs).Some?
  {
    if |ngbs| > 0 {
      SeparatedFieldDefined(p, sqrt, pos, sph, i, ngbs[..|ngbs| - 1]);
      SeparatedTermDefined(p, sqrt, pos, sph, i, ngbs[|ngbs| - 1]);
    }
  }

  lemma SeparatedTermDefined(p: SphParams, sqrt: real -> real, pos: seq<Vec3>, sph: seq<SphData>, i: int, j: int)
    requires p.boxsize >= 0.0 && |sph| == |pos| && 0 <= i < |pos| && 0 <= j < |pos|
    requires IsSqrt(sqrt) && sph[i].hsml > 0.0 && sph[i].rho != 0.0
    requires Contributes(p, pos, sph, i, j) ==> ImageOffset(pos[i], pos[j], p.boxsize).Norm2() > 0.0
    ensures CurlTerm(p, sqrt, pos, sph, i, j).Some?
  {
    if Contributes(p, pos, sph, i, j) {
      var n := ImageOffset(pos[i], pos[j], p.boxsize).Norm2();
      SqrtPositive(sqrt, n);
    }
  }

  /** The same potential with a constant c added everywhere. */
  function Regauged(sph: seq<SphData>, c: Vec3): (sph': seq<SphData>)
    ensures |sph'| == |sph|
    ensures forall k :: 0 <= k < |sph| ==> sph'[k] == sph[k].(apot := sph[k].apot.Plus(c))
  {
    if |sph| == 0 then [] else Regauged(sph[..|sph| - 1], c) + [sph[|sph| - 1].(apot := sph[|sph| - 1].apot.Plus(c))]
  }

  /** Gauge invariance: B depends only on differences of A, so adding a constant vector to
      every potential leaves every field unchanged. */
  lemma {:induction false} FieldGaugeInvariant(p: SphParams, sqrt: real -> real, pos: seq<Vec3>, sph: seq<SphData>, i: int, ngbs: seq<int>, c: Vec3)
    requires p.boxsize >= 0.0 && |sph| == |pos| && 0 <= i < |pos| && IndicesIn(ngbs, |pos|)
    ensures CurlOver(p, sqrt, pos, Regauged(sph, c), i, ngbs) == CurlOver(p, sqrt, pos, sph, i, ngbs)
  {
    if |ngbs| > 0 {
      FieldGaugeInvariant(p, sqrt, pos, sph, i, ngbs[..|ngbs| - 1], c);
      var j := ngbs[|ngbs| - 1];
      var sph' := Regauged(sph, c);
      assert sph'[i].apot.Minus(sph'[j].apot) == sph[i].apot.Minus(sph[j].apot);
    }
  }

  /** Writing `Bfld` never changes a field: the sum reads only Apot, Hsml, Rho and
      VarHsmlFac, so it is the same whether particles before i have been written or not. */
  lemma {:induction false} FieldIgnoresBfld(p: SphParams, sqrt: real -> real, pos: seq<Vec3>, sph: seq<SphData>, sph': seq<SphData>, i: int, ngbs: seq<int>)
    requires p.boxsize >= 0.0 && |sph| == |pos| && |sph'| == |pos| && 0 <= i < |pos| && IndicesIn(ngbs, |pos|)
    requires forall k :: 0 <= k < |sph| ==> sph'[k] == sph[k].(bfld := sph'[k].bfld)
    ensures CurlOver(p, sqrt, pos, sph', i, ngbs) == CurlOver(p, sqrt, pos, sph, i, ngbs)
  {
    if |ngbs| > 0 {
      FieldIgnoresBfld(p, sqrt, pos, sph, sph', i, ngbs[..|ngbs| - 1]);
      var j := ngbs[|ngbs| - 1];
      assert sph'[j].apot == sph[j].apot;
    }
  }

  /** The body of the loop of lines 242-290 for neighbour jpart: the `continue` of line 246
      and of line 274, then the weight and the three `+=` increments. */
  method CurlContribution(p: SphParams, sqrt: real -> real, pos: seq<Vec3>, sph: seq<SphData>, ipart: int, jpart: int)
    returns (c: Option<Vec3>)
    requires p.boxsize >= 0.0 && |sph| == |pos| && 0 <= ipart < |pos| && 0 <= jpart < |pos|
    ensures c == CurlTerm(p, sqrt, pos, sph, ipart, jpart)
  {
    if jpart == ipart {
      return Some(Origin);
    }
    var d := ImageOffset(pos[ipart], pos[jpart], p.boxsize);
    var hsml := sph[ipart].hsml;
    if d.Norm2() > hsml * hsml {
      return Some(Origin);
    }
    var r := sqrt(d.Norm2());
    var weight := PairWeight(p.mpart, WendlandC6, r, hsml, sph[ipart].rho, sph[ipart].varHsmlFac);
    if weight.None? {
      return None;
    }
    var dA := sph[ipart].apot.Minus(sph[jpart].apot);
    c := Some(Curl(dA, d).Scale(weight.value));
  }

  /** The neighbour loop of lines 242-290 for one particle. `defined` turns false at the
      first undefined term, as a NaN would stay in `bfld`. */
  method FieldAt(p: SphParams, sqrt: real -> real, pos: seq<Vec3>, sph: seq<SphData>, ipart: int, ngblist: seq<int>)
    returns (defined: bool, bfld: Vec3)
    requires p.boxsize >= 0.0 && |sph| == |pos| && 0 <= ipart < |pos| && IndicesIn(ngblist, |pos|)
    ensures CurlOver(p, sqrt, pos, sph, ipart, ngblist) == (if defined then Some(bfld) else None)
  {
    defined, bfld := true, Origin;
    var i := 0;
    while i < |ngblist|
      invariant 0 <= i <= |ngblist|
      invariant CurlOver(p, sqrt, pos, sph, ipart, ngblist[..i]) == (if defined then Some(bfld) else None)
    {
      CurlOverStep(p, sqrt, pos, sph, ipart, ngblist, i);
      var c := CurlContribution(p, sqrt, pos, sph, ipart, ngblist[i]);
      if c.None? {
        defined := false;
      } else if defined {
        bfld := bfld.Plus(c.value);
      }
      i := i + 1;
    }
    assert ngblist[..|ngblist|] == ngblist;
  }

  /** The first n entries of `cur` carry the field `start` gives them, with every other
      field unchanged; the remaining entries are still those of `start`. */
  predicate FieldsWritten(p: SphParams, sqrt: real -> real, ngb: (int, real) -> seq<int>, pos: seq<Vec3>,
                          start: seq<SphData>, cur: seq<SphData>, n: int)
    requires p.boxsize >= 0.0 && |start| == |pos| && NeighbourSearch(ngb, |pos|, p.ngbMax)
  {
    && |cur| == |start| && 0 <= n <= |start|
    && (forall i :: 0 <= i < n ==>
          Field(p, sqrt, ngb, pos, start, i) == Some(cur[i].bfld) && cur[i] == start[i].(bfld := cur[i].bfld))
    && (forall i :: n <= i < |start| ==> cur[i] == start[i])
  }

  /** Writing the field of entry n extends the written prefix by one. */
  lemma FieldsWrittenStep(p: SphParams, sqrt: real -> real, ngb: (int, real) -> seq<int>, pos: seq<Vec3>,
                          start: seq<SphData>, cur: seq<SphData>, n: int, bfld: Vec3)
    requires p.boxsize >= 0.0 && |start| == |pos| && NeighbourSearch(ngb, |pos|, p.ngbMax)
    requires FieldsWritten(p, sqrt, ngb, pos, start, cur, n) && n < |start|
    requires Field(p, sqrt, ngb, pos, start, n) == Some(bfld)
    ensures FieldsWritten(p, sqrt, ngb, pos, start, cur[n := cur[n].(bfld := bfld)], n + 1)
  {
  }

  /** `Bfld_from_rotA_SPH` over the gas particles `sph[0..]`, whose positions are the first
      entries of `part`. The neighbour sums read the entries as they were on entry, which
      `FieldIgnoresBfld` shows is what reading them in place gives. */
  method BfldFromRotA(p: SphParams, sqrt: real -> real, ngb: (int, real) -> seq<int>,
                      part: array<Particle>, sph: array<SphData>)
    returns (status: Status)
    requires p.boxsize >= 0.0 && sph.Length <= part.Length
    requires NeighbourSearch(ngb, sph.Length, p.ngbMax)
    modifies sph
    ensures !status.OutOfFuel?
    ensures var pos := Positions(part[..sph.Length]);
      var stop := if status.Completed? then sph.Length else status.ipart;
      && stop <= sph.Length
      && (forall i :: 0 <= i < stop ==>
            Field(p, sqrt, ngb, pos, old(sph[..]), i) == Some(sph[i].bfld) && sph[i] == old(sph[i]).(bfld := sph[i].bfld))
      && (forall i :: stop <= i < sph.Length ==> sph[i] == old(sph[i]))
      && (status.Undefined? ==> stop < sph.Length && Field(p, sqrt, ngb, pos, old(sph[..]), stop).None?)
  {
    var pos := Positions(part[..sph.Length]);
    var start := sph[..];
    var ipart := 0;
    while ipart < sph.Length
      invariant 0 <= ipart <= sph.Length
      invariant FieldsWritten(p, sqrt, ngb, pos, start, sph[..], ipart)
    {
      var defined, bfld := FieldAt(p, sqrt, pos, start, ipart, ngb(ipart, start[ipart].hsml));
      if !defined {
        return Undefined(ipart);
      }
      var cur := sph[..];
      FieldsWrittenStep(p, sqrt, ngb, pos, start, cur, ipart, bfld);
      sph[ipart] := sph[ipart].(bfld := bfld);
      assert sph[..] == cur[ipart := cur[ipart].(bfld := bfld)];
      ipart := ipart + 1;
    }
    return Completed;
  }
}
