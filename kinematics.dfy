/** `Apply_kinematics` (src/setup.c:313-382): the merger velocity given to the particles
    when the orbit is set by compile-time option. Under PARABOLA the particles inside a cone
    ahead of the point where the two R200 spheres touch get the infall velocity; under COMET
    the second cluster's sphere and the cylinder trailing behind it do. Every other particle
    gets the host velocity. The two options are two methods here. */
module Kinematics {
  import opened RealMath
  import opened Geometry
  import opened Particles
  import opened ClusterSetup

  /** `P[ipart].Vel[0] += dv`: only the x velocity changes. */
  function Kick(p: Particle, dv: real): (r: Particle)
    ensures r.pos == p.pos && r.vel.y == p.vel.y && r.vel.z == p.vel.z
    ensures r.vel.x - p.vel.x == dv
  {
    Particle(p.pos, Vec3(p.vel.x + dv, p.vel.y, p.vel.z))
  }

  /** The PARABOLA shift of the origin to the touch point of the two R200 spheres
      (lines 318-321). */
  function TouchOffset(infall: Halo, boxsize: real): Vec3
  {
    Vec3(-infall.dCoM.x + boxsize / 2.0 + infall.book.r200, -infall.dCoM.y + boxsize / 2.0,
         -infall.dCoM.z + boxsize / 2.0)
  }

  /** Ahead of the touch point, inside the cone of half-opening 45 degrees around +x. */
  predicate InInfallCone(x: real, y: real, z: real)
  {
    y * y + z * z < x * x && x > 0.0
  }

  /** Lines 326-333 for one particle. */
  function ParabolaKick(p: Particle, offset: Vec3, vInfall: real, vHost: real): Particle
  {
    var q := p.pos.Plus(offset);
    Kick(p, if InInfallCone(q.x, q.y, q.z) then vInfall else vHost)
  }

  /** Under PARABOLA a particle's x velocity grows by exactly one of the two merger
      velocities, and nothing else changes. */
  lemma ParabolaKickIsOneOfTwo(p: Particle, offset: Vec3, vInfall: real, vHost: real)
    ensures var r := ParabolaKick(p, offset, vInfall, vHost);
      && r.pos == p.pos && r.vel.y == p.vel.y && r.vel.z == p.vel.z
      && (r.vel.x == p.vel.x + vInfall || r.vel.x == p.vel.x + vHost)
  {
  }

  /** Behind the touch point every particle moves with the host; on the axis ahead of it
      every particle moves with the infalling cluster. */
  lemma ParabolaSides(p: Particle, offset: Vec3, vInfall: real, vHost: real)
    ensures p.pos.x + offset.x <= 0.0 ==> ParabolaKick(p, offset, vInfall, vHost).vel.x == p.vel.x + vHost
    ensures p.pos.x + offset.x > 0.0 && p.pos.y + offset.y == 0.0 && p.pos.z + offset.z == 0.0 ==>
      ParabolaKick(p, offset, vInfall, vHost).vel.x == p.vel.x + vInfall
  {
    var q := p.pos.Plus(offset);
    if q.x > 0.0 && q.y == 0.0 && q.z == 0.0 {
      OnAxisInCone(q.x);
    }
  }

  lemma OnAxisInCone(x: real)
    requires x > 0.0
    ensures InInfallCone(x, 0.0, 0.0)
  {
    MulPositive(x, x);
  }

  /** `Apply_kinematics` with PARABOLA defined: P[..] holds the `Param.Ntotal` particles. */
  method ApplyParabola(param: Params, halo: seq<Halo>, P: array<Particle>)
    requires |halo| == 2
    modifies P
    ensures P[..] == seq(P.Length, k requires 0 <= k < P.Length =>
      ParabolaKick(old(P[k]), TouchOffset(halo[1], param.boxsize), param.velInfall, param.velHost))
  {
    var vxHost := param.velHost;
    var vxInfall := param.velInfall;
    var offset := TouchOffset(halo[1], param.boxsize);
    for ipart := 0 to P.Length
      invariant forall k :: 0 <= k < ipart ==> P[k] == ParabolaKick(old(P[k]), offset, vxInfall, vxHost)
      invariant forall k :: ipart <= k < P.Length ==> P[k] == old(P[k])
    {
      var x := P[ipart].pos.x + offset.x;
      var y := P[ipart].pos.y + offset.y;
      var z := P[ipart].pos.z + offset.z;
      if y * y + z * z < x * x && x > 0.0 {
        P[ipart] := Kick(P[ipart], vxInfall);
      } else {
        P[ipart] := Kick(P[ipart], vxHost);
      }
    }
  }

  /** The centre of the infalling cluster after the box shift (lines 339-343). */
  function CometCentre(infall: Halo, boxsize: real): Vec3
  {
    var boxhalf := boxsize / 2.0;
    Vec3(infall.dCoM.x + boxhalf, infall.dCoM.y + boxhalf, infall.dCoM.z + boxhalf)
  }

  /** Inside the second cluster's R200 sphere, or behind its centre within the cylinder of
      that radius around the x axis. */
  predicate InComet(dx: real, dy: real, dz: real, rVir2: real)
  {
    (dx > 0.0 && dy * dy + dz * dz < rVir2) || dx * dx + dy * dy + dz * dz < rVir2
  }

  /** The weight of the front half of the comet: the kernel taper is commented out in the
      source and the weight is 1. */
  const FrontWeight: real := 1.0

  /** Lines 353-377 for one particle. */
  function CometKick(p: Particle, centre: Vec3, rVir2: real, vInfall: real, vHost: real): Particle
  {
    var d := p.pos.Minus(centre);
    if InComet(d.x, d.y, d.z, rVir2) then
      if d.x < 0.0 then Kick(p, vInfall * FrontWeight) else Kick(p, vInfall)
    else Kick(p, vHost)
  }

  /** Under COMET a particle's x velocity grows by exactly one of the two merger
      velocities, the infall one exactly in the comet, and nothing else changes. */
  lemma CometKickIsOneOfTwo(p: Particle, centre: Vec3, rVir2: real, vInfall: real, vHost: real)
    ensures var r := CometKick(p, centre, rVir2, vInfall, vHost);
      && r.pos == p.pos && r.vel.y == p.vel.y && r.vel.z == p.vel.z
      && (InComet(p.pos.x - centre.x, p.pos.y - centre.y, p.pos.z - centre.z, rVir2) ==>
            r.vel.x == p.vel.x + vInfall)
      && (!InComet(p.pos.x - centre.x, p.pos.y - centre.y, p.pos.z - centre.z, rVir2) ==>
            r.vel.x == p.vel.x + vHost)
  {
  }

  /** The comet holds the whole R200 sphere and the trailing cylinder, and nothing ahead of
      the centre outside the sphere. */
  lemma CometShape(d: Vec3, rVir2: real)
    ensures d.Norm2() < rVir2 ==> InComet(d.x, d.y, d.z, rVir2)
    ensures d.x > 0.0 && d.y * d.y + d.z * d.z < rVir2 ==> InComet(d.x, d.y, d.z, rVir2)
    ensures d.x <= 0.0 && d.Norm2() >= rVir2 ==> !InComet(d.x, d.y, d.z, rVir2)
  {
  }

  /** `Apply_kinematics` with COMET defined. */
  method ApplyComet(param: Params, halo: seq<Halo>, P: array<Particle>)
    requires |halo| == 2
    modifies P
    ensures P[..] == seq(P.Length, k requires 0 <= k < P.Length =>
      CometKick(old(P[k]), CometCentre(halo[1], param.boxsize), halo[1].book.r200 * halo[1].book.r200,
                param.velInfall, param.velHost))
  {
    var vxHost := param.velHost;
    var vxInfall := param.velInfall;
    var centre := CometCentre(halo[1], param.boxsize);
    var rVir2 := halo[1].book.r200 * halo[1].book.r200;
    for ipart := 0 to P.Length
      invariant forall k :: 0 <= k < ipart ==> P[k] == CometKick(old(P[k]), centre, rVir2, vxInfall, vxHost)
      invariant forall k :: ipart <= k < P.Length ==> P[k] == old(P[k])
    {
      var dx := P[ipart].pos.x - centre.x;
      var dy := P[ipart].pos.y - centre.y;
      var dz := P[ipart].pos.z - centre.z;
      var r2Cyl := dy * dy + dz * dz;
      var r2 := dx * dx + dy * dy + dz * dz;
      if (dx > 0.0 && r2Cyl < rVir2) || r2 < rVir2 {
        if dx < 0.0 {
          P[ipart] := Kick(P[ipart], vxInfall * FrontWeight);
        } else {
          P[ipart] := Kick(P[ipart], vxInfall);
        }
      } else {
        P[ipart] := Kick(P[ipart], vxHost);
      }
    }
  }
}
