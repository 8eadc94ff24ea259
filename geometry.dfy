/** Three-vectors and the periodic nearest-image separation used by every SPH estimator
    (src/sph.c:111-133, 249-271, 345-367). */
module Geometry {
  import opened RealMath

  datatype Vec3 = Vec3(x: real, y: real, z: real)
  {
    function Plus(o: Vec3): Vec3 { Vec3(x + o.x, y + o.y, z + o.z) }

    function Minus(o: Vec3): Vec3 { Vec3(x - o.x, y - o.y, z - o.z) }

    function Scale(s: real): Vec3 { Vec3(s * x, s * y, s * z) }

    /** Squared length, `p2(dx) + p2(dy) + p2(dz)`. */
    function Norm2(): (n: real)
      ensures n >= 0.0
    {
      x * x + y * y + z * z
    }
  }

  const Origin := Vec3(0.0, 0.0, 0.0)

  /** One component of the separation moved to its closest periodic image: first the
      `d > boxhalf` test, then the `d < -boxhalf` test, as the C code writes them. */
  function NearestImage(d: real, boxsize: real): (r: real)
    requires boxsize >= 0.0
    ensures r == d || r == d - boxsize || r == d + boxsize
  {
    var boxhalf := 0.5 * boxsize;
    var d1 := if d > boxhalf then d - boxsize else d;
    if d1 < -boxhalf then d1 + boxsize else d1
  }

  /** The nearest-image separation `pos_i - pos_j`, component by component. */
  function ImageOffset(posI: Vec3, posJ: Vec3, boxsize: real): Vec3
    requires boxsize >= 0.0
  {
    Vec3(NearestImage(posI.x - posJ.x, boxsize),
         NearestImage(posI.y - posJ.y, boxsize),
         NearestImage(posI.z - posJ.z, boxsize))
  }

  predicate InBox(p: Vec3, boxsize: real)
  {
    0.0 <= p.x <= boxsize && 0.0 <= p.y <= boxsize && 0.0 <= p.z <= boxsize
  }

  /** A separation of at most one box length is folded into [-boxsize/2, boxsize/2]. */
  lemma NearestImageBounded(d: real, boxsize: real)
    requires boxsize >= 0.0
    requires -boxsize <= d <= boxsize
    ensures -0.5 * boxsize <= NearestImage(d, boxsize) <= 0.5 * boxsize
  {
  }

  /** A value within half a box of zero is no longer than any of its periodic images. */
  lemma CentredIsShortest(r: real, boxsize: real, j: int)
    requires boxsize > 0.0
    requires -0.5 * boxsize <= r <= 0.5 * boxsize
    ensures Abs(r) <= Abs(r + (j as real) * boxsize)
  {
    var shift := (j as real) * boxsize;
    IntegerMultipleBound(j, boxsize);
    if j == 0 {
      assert shift == 0.0;
    }
    assert j >= 1 ==> shift >= boxsize;
    assert j <= -1 ==> shift <= -boxsize;
  }

  /** The folded separation is the shortest of all periodic images of `d`. */
  lemma NearestImageIsShortest(d: real, boxsize: real, k: int)
    requires boxsize > 0.0
    requires -boxsize <= d <= boxsize
    ensures Abs(NearestImage(d, boxsize)) <= Abs(d + (k as real) * boxsize)
  {
    var r := NearestImage(d, boxsize);
    NearestImageBounded(d, boxsize);
    // r differs from d by -1, 0 or +1 box lengths
    var m: int := if r == d then 0 else if r == d - boxsize then -1 else 1;
    assert d == r - (m as real) * boxsize;
    CentredIsShortest(r, boxsize, k - m);
    assert d + (k as real) * boxsize == r + ((k - m) as real) * boxsize;
  }

  /** Swapping the two particles negates the separation: both see the same image. */
  lemma NearestImageOdd(d: real, boxsize: real)
    requires boxsize >= 0.0
    ensures NearestImage(-d, boxsize) == -NearestImage(d, boxsize)
  {
  }

  /** For positions inside the box, every component of the offset is at most half a box. */
  lemma ImageOffsetBounded(posI: Vec3, posJ: Vec3, boxsize: real)
    requires boxsize >= 0.0
    requires InBox(posI, boxsize) && InBox(posJ, boxsize)
    ensures var o := ImageOffset(posI, posJ, boxsize);
      && Abs(o.x) <= 0.5 * boxsize
      && Abs(o.y) <= 0.5 * boxsize
      && Abs(o.z) <= 0.5 * boxsize
  {
    NearestImageBounded(posI.x - posJ.x, boxsize);
    NearestImageBounded(posI.y - posJ.y, boxsize);
    NearestImageBounded(posI.z - posJ.z, boxsize);
  }

  lemma ImageOffsetAntisymmetric(posI: Vec3, posJ: Vec3, boxsize: real)
    requires boxsize >= 0.0
    ensures ImageOffset(posJ, posI, boxsize) == ImageOffset(posI, posJ, boxsize).Scale(-1.0)
  {
    NearestImageOdd(posI.x - posJ.x, boxsize);
    NearestImageOdd(posI.y - posJ.y, boxsize);
    NearestImageOdd(posI.z - posJ.z, boxsize);
  }
}
