/** `Shift_Origin` (src/setup.c:384-452): each cluster's particles are moved by its
    centre-of-mass offset and boosted by its bulk velocity, then the origin is moved to the
    corner of the box and every position is folded back into the periodic box by repeated
    subtraction and addition of the box size. */
module OriginShift {
  import opened RealMath
  import opened Geometry
  import opened Particles
  import opened ClusterSetup

  /** A particle moved by an offset and boosted by a bulk velocity. */
  function Moved(p: Particle, dpos: Vec3, dvel: Vec3): Particle
  {
    Particle(p.pos.Plus(dpos), p.vel.Plus(dvel))
  }

  /** Index k lies in the slice of `count` particles starting at `start`. */
  predicate InSlice(k: int, start: int, count: int)
  {
    start <= k < start + count
  }

  /** One of the per-halo loops (lines 400-422): the particles of one slice moved, the others
      kept. */
  function ShiftSlice(ps: seq<Particle>, start: int, count: int, dpos: Vec3, dvel: Vec3): (r: seq<Particle>)
    ensures |r| == |ps|
    ensures forall k :: 0 <= k < |ps| && !InSlice(k, start, count) ==> r[k] == ps[k]
    ensures forall k :: 0 <= k < |ps| && InSlice(k, start, count) ==> r[k] == Moved(ps[k], dpos, dvel)
  {
    seq(|ps|, k requires 0 <= k < |ps| => if InSlice(k, start, count) then Moved(ps[k], dpos, dvel) else ps[k])
  }

  /** The DM slice and then the gas slice of halo h moved by its offset and bulk velocity. */
  function ShiftHalo(ps: seq<Particle>, h: Halo): (r: seq<Particle>)
    ensures |r| == |ps|
  {
    ShiftSlice(ShiftSlice(ps, h.dmStart, h.book.npart.dm, h.dCoM, h.bulkVel),
               h.gasStart, h.book.npart.gas, h.dCoM, h.bulkVel)
  }

  /** Lines 390-423: the first n clusters moved in turn. */
  function ShiftClusters(ps: seq<Particle>, halo: seq<Halo>, n: nat): (r: seq<Particle>)
    requires n <= |halo|
    ensures |r| == |ps|
  {
    if n == 0 then ps else ShiftHalo(ShiftClusters(ps, halo, n - 1), halo[n - 1])
  }

  /** Index k belongs to one of halo h's two slices. */
  predicate InHalo(k: int, h: Halo)
  {
    InSlice(k, h.dmStart, h.book.npart.dm) || InSlice(k, h.gasStart, h.book.npart.gas)
  }

  /** A particle outside every slice of the first n clusters is not moved. */
  lemma {:induction false} OutsideSlicesUnmoved(ps: seq<Particle>, halo: seq<Halo>, n: nat, k: int)
    requires n <= |halo| && 0 <= k < |ps|
    requires forall j :: 0 <= j < n ==> !InHalo(k, halo[j])
    ensures ShiftClusters(ps, halo, n)[k] == ps[k]
  {
    if n > 0 {
      OutsideSlicesUnmoved(ps, halo, n - 1, k);
    }
  }

  /** A particle in exactly one slice, of cluster i, is moved by that cluster's offset and
      bulk velocity and by no other. */
  lemma {:induction false} OwnSliceMoved(ps: seq<Particle>, halo: seq<Halo>, n: nat, i: nat, k: int)
    requires i < n <= |halo| && 0 <= k < |ps|
    requires InSlice(k, halo[i].dmStart, halo[i].book.npart.dm) != InSlice(k, halo[i].gasStart, halo[i].book.npart.gas)
    requires forall j :: 0 <= j < n && j != i ==> !InHalo(k, halo[j])
    ensures ShiftClusters(ps, halo, n)[k] == Moved(ps[k], halo[i].dCoM, halo[i].bulkVel)
  {
    if n - 1 == i {
      OutsideSlicesUnmoved(ps, halo, i, k);
    } else {
      OwnSliceMoved(ps, halo, n - 1, i, k);
    }
  }

  /** Moving by one box length moves the quotient by one. */
  lemma QuotientStep(x: real, b: real)
    requires b > 0.0
    ensures (x - b) / b == x / b - 1.0
    ensures x > b ==> x / b > 1.0
    ensures x > 0.0 ==> x / b > 0.0
  {
    assert (x - b) / b == x / b - b / b;
    QuotientSigns(x - b, b);
    QuotientSigns(x, b);
  }

  /** The `while (pos > boxsize) pos -= boxsize` loop. */
  function FoldDown(x: real, b: real): (r: real)
    requires b > 0.0
    ensures r <= b
    ensures x > b ==> r > 0.0
    ensures x <= b ==> r == x
    decreases if x > b then (x / b).Floor else 0
  {
    if x > b then
      QuotientStep(x, b);
      FoldDown(x - b, b)
    else x
  }

  /** The `while (pos < 0) pos += boxsize` loop. */
  function FoldUp(x: real, b: real): (r: real)
    requires b > 0.0
    ensures r >= 0.0
    ensures x < 0.0 ==> r < b
    ensures x >= 0.0 ==> r == x
    decreases if x < 0.0 then (-x / b).Floor + 1 else 0
  {
    if x < 0.0 then
      QuotientStep(-x, b);
      FoldUp(x + b, b)
    else x
  }

  /** How many box lengths FoldDown subtracts. */
  function DownTurns(x: real, b: real): nat
    requires b > 0.0
    decreases if x > b then (x / b).Floor else 0
  {
    if x > b then
      QuotientStep(x, b);
      DownTurns(x - b, b) + 1
    else 0
  }

  /** How many box lengths FoldUp adds. */
  function UpTurns(x: real, b: real): nat
    requires b > 0.0
    decreases if x < 0.0 then (-x / b).Floor + 1 else 0
  {
    if x < 0.0 then
      QuotientStep(-x, b);
      UpTurns(x + b, b) + 1
    else 0
  }

  lemma {:induction false} FoldDownTurns(x: real, b: real)
    requires b > 0.0
    ensures FoldDown(x, b) == x - (DownTurns(x, b) as real) * b
    decreases if x > b then (x / b).Floor else 0
  {
    if x > b {
      QuotientStep(x, b);
      FoldDownTurns(x - b, b);
      var d := DownTurns(x - b, b) as real;
      assert FoldDown(x, b) == FoldDown(x - b, b);
      assert DownTurns(x, b) as real == d + 1.0;
      assert (d + 1.0) * b == d * b + b;
      assert FoldDown(x - b, b) == x - b - d * b;
    } else {
      NoTurnsInside(x, b);
    }
  }

  lemma NoTurnsInside(x: real, b: real)
    requires b > 0.0 && x <= b
    ensures DownTurns(x, b) == 0
  {
  }

  lemma {:induction false} FoldUpTurns(x: real, b: real)
    requires b > 0.0
    ensures FoldUp(x, b) == x + (UpTurns(x, b) as real) * b
    decreases if x < 0.0 then (-x / b).Floor + 1 else 0
  {
    if x < 0.0 {
      QuotientStep(-x, b);
      FoldUpTurns(x + b, b);
      var u := UpTurns(x + b, b) as real;
      assert (u + 1.0) * b == u * b + b;
    }
  }

  /** One position component after both loops. */
  function Wrap(x: real, b: real): real
    requires b > 0.0
  {
    FoldUp(FoldDown(x, b), b)
  }

  /** The whole number of box lengths Wrap adds. */
  function WrapTurns(x: real, b: real): int
    requires b > 0.0
  {
    UpTurns(FoldDown(x, b), b) - DownTurns(x, b)
  }

  /** A wrapped component lies in [0, boxsize] and differs from the unwrapped one by a whole
      number of box lengths. */
  lemma WrapInBox(x: real, b: real)
    requires b > 0.0
    ensures 0.0 <= Wrap(x, b) <= b
    ensures Wrap(x, b) == x + (WrapTurns(x, b) as real) * b
  {
    FoldDownTurns(x, b);
    FoldUpTurns(FoldDown(x, b), b);
  }

  /** A component already inside the box is left alone. */
  lemma WrapKeepsInside(x: real, b: real)
    requires b > 0.0 && 0.0 <= x <= b
    ensures Wrap(x, b) == x
  {
  }

  /** Lines 426-448 for one particle: the origin moved by half a box, then folded. */
  function Wrapped(p: Particle, b: real): Particle
    requires b > 0.0
  {
    var half := b / 2.0;
    Particle(Vec3(Wrap(p.pos.x + half, b), Wrap(p.pos.y + half, b), Wrap(p.pos.z + half, b)), p.vel)
  }

  /** After the wrap every particle is in the box, and its velocity is unchanged. */
  lemma WrappedInBox(p: Particle, b: real)
    requires b > 0.0
    ensures InBox(Wrapped(p, b).pos, b)
    ensures Wrapped(p, b).vel == p.vel
  {
    var half := b / 2.0;
    WrapBounds(p.pos.x + half, b);
    WrapBounds(p.pos.y + half, b);
    WrapBounds(p.pos.z + half, b);
  }

  lemma WrapBounds(x: real, b: real)
    requires b > 0.0
    ensures 0.0 <= Wrap(x, b) <= b
  {
  }

  /** Every particle wrapped. */
  function WrapAll(ps: seq<Particle>, b: real): (r: seq<Particle>)
    requires b > 0.0
    ensures |r| == |ps| && forall k :: 0 <= k < |ps| ==> r[k] == Wrapped(ps[k], b)
  {
    seq(|ps|, k requires 0 <= k < |ps| => Wrapped(ps[k], b))
  }

  /** The two while loops on one component. */
  method WrapComponent(x: real, b: real) returns (y: real)
    requires b > 0.0
    ensures y == Wrap(x, b)
  {
    y := x;
    while y > b
      invariant FoldDown(y, b) == FoldDown(x, b)
      decreases (y / b).Floor
    {
      QuotientStep(y, b);
      y := y - b;
    }
    ghost var down := y;
    while y < 0.0
      invariant FoldUp(y, b) == FoldUp(down, b)
      decreases (-y / b).Floor + 1
    {
      QuotientStep(-y, b);
      y := y + b;
    }
  }

  /** One per-halo loop: the particles of one slice moved in place. */
  method ShiftSliceInPlace(P: array<Particle>, start: int, count: int, dpos: Vec3, dvel: Vec3)
    requires 0 <= start && 0 <= count && start + count <= P.Length
    modifies P
    ensures P[..] == ShiftSlice(old(P[..]), start, count, dpos, dvel)
  {
    for ipart := 0 to count
      invariant forall k :: 0 <= k < P.Length ==>
        P[k] == (if InSlice(k, start, ipart) then Moved(old(P[k]), dpos, dvel) else old(P[k]))
    {
      P[start + ipart] := Moved(P[start + ipart], dpos, dvel);
    }
  }

  /** The slices of the first n clusters lie inside an array of the given length. */
  predicate SlicesFit(halo: seq<Halo>, n: nat, len: int)
    requires n <= |halo|
  {
    forall j :: 0 <= j < n ==>
      && 0 <= halo[j].dmStart && 0 <= halo[j].book.npart.dm && halo[j].dmStart + halo[j].book.npart.dm <= len
      && 0 <= halo[j].gasStart && 0 <= halo[j].book.npart.gas && halo[j].gasStart + halo[j].book.npart.gas <= len
  }

  /** No index lies in two slices: neither in both slices of one of the first n clusters
      nor in slices of two of them. */
  ghost predicate SlicesApart(halo: seq<Halo>, n: nat)
    requires n <= |halo|
  {
    && (forall k, j :: 0 <= j < n ==>
          !(InSlice(k, halo[j].dmStart, halo[j].book.npart.dm) && InSlice(k, halo[j].gasStart, halo[j].book.npart.gas)))
    && (forall k, i, j :: 0 <= i < j < n ==> !(InHalo(k, halo[i]) && InHalo(k, halo[j])))
  }

  /** The slices Setup lays out lie inside the `Param.Ntotal` particles and do not overlap:
      the gas slices fill the first quota one after the other, the DM slices the next. */
  lemma SetupSlicesFit(inp: SetupInput, param: Params, halo: seq<Halo>)
    requires ValidInput(inp) && |halo| == 2 && 1 <= param.nhalos <= 2
    requires Counted(inp, param.nhalos, param.mtotal, param.mpart, param.npart, Books(halo))
    requires LaidOut(inp, param.nhalos, halo)
    ensures SlicesFit(halo, param.nhalos, inp.ntotal)
    ensures SlicesApart(halo, param.nhalos)
  {
    var books := Books(halo);
    assert books[0] == halo[0].book && books[1] == halo[1].book;
    var q := Quota(inp);
    assert halo[0].dmStart == q.gas;
  }

  /** For the layout Setup makes, a particle in a slice of cluster i is moved by that
      cluster's offset and bulk velocity, once. */
  lemma SetupShiftMovesOwn(ps: seq<Particle>, inp: SetupInput, param: Params, halo: seq<Halo>, i: nat, k: int)
    requires ValidInput(inp) && |halo| == 2 && 1 <= param.nhalos <= 2
    requires Counted(inp, param.nhalos, param.mtotal, param.mpart, param.npart, Books(halo))
    requires LaidOut(inp, param.nhalos, halo)
    requires i < param.nhalos && 0 <= k < |ps| && InHalo(k, halo[i])
    ensures ShiftClusters(ps, halo, param.nhalos)[k] == Moved(ps[k], halo[i].dCoM, halo[i].bulkVel)
  {
    SetupSlicesFit(inp, param, halo);
    OwnSliceMoved(ps, halo, param.nhalos, i, k);
  }

  /** `Shift_Origin`: P[..] holds the `Param.Ntotal` particles. */
  method ShiftOrigin(param: Params, halo: seq<Halo>, P: array<Particle>)
    requires |halo| == 2 && param.nhalos <= 2 && param.boxsize > 0.0
    requires SlicesFit(halo, param.nhalos, P.Length)
    modifies P
    ensures P[..] == WrapAll(ShiftClusters(old(P[..]), halo, param.nhalos), param.boxsize)
  {
    for i := 0 to param.nhalos
      invariant P[..] == ShiftClusters(old(P[..]), halo, i)
    {
      ShiftSliceInPlace(P, halo[i].dmStart, halo[i].book.npart.dm, halo[i].dCoM, halo[i].bulkVel);
      ShiftSliceInPlace(P, halo[i].gasStart, halo[i].book.npart.gas, halo[i].dCoM, halo[i].bulkVel);
    }
    ghost var shifted := P[..];
    var boxsize := param.boxsize;
    var boxHalf := boxsize / 2.0;
    for ipart := 0 to P.Length
      invariant forall k :: 0 <= k < ipart ==> P[k] == Wrapped(shifted[k], boxsize)
      invariant forall k :: ipart <= k < P.Length ==> P[k] == shifted[k]
    {
      var p := P[ipart];
      var x := WrapComponent(p.pos.x + boxHalf, boxsize);
      var y := WrapComponent(p.pos.y + boxHalf, boxsize);
      var z := WrapComponent(p.pos.z + boxHalf, boxsize);
      P[ipart] := Particle(Vec3(x, y, z), p.vel);
    }
  }

  /** After `Shift_Origin` every particle is inside the box. */
  lemma ShiftOriginInBox(ps: seq<Particle>, halo: seq<Halo>, n: nat, b: real, k: int)
    requires n <= |halo| && b > 0.0 && 0 <= k < |ps|
    ensures InBox(WrapAll(ShiftClusters(ps, halo, n), b)[k].pos, b)
    ensures WrapAll(ShiftClusters(ps, halo, n), b)[k].vel == ShiftClusters(ps, halo, n)[k].vel
  {
    WrappedInBox(ShiftClusters(ps, halo, n)[k], b);
  }
}
