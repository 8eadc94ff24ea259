# Galaxy-cluster collision initial conditions: SPH core and setup bookkeeping

This project models, in Dafny, the core of a generator of initial conditions for two
colliding galaxy clusters (gas and dark matter sampled as particles in a periodic box).
Two parts are modelled:

- the SPH pipeline of `src/sph.c`:
  - `Find_sph_quantities` seeds and settles every gas particle's smoothing length and
    density;
  - `Find_hsml` is the Newton-Raphson / bisection solver for one particle;
  - `Bfld_from_rotA_SPH` takes the magnetic field as the SPH curl of the vector potential;
  - `Smooth_SPH_quantities` takes the kernel-weighted average of internal energy and
    velocity;
  - the Wendland C6 and cubic-spline kernels;
- the bookkeeping of `src/setup.c`:
  - `Setup` splits the mass between the clusters and between gas and dark matter, counts
    particles, lays the clusters' slices out in the particle array and places the two
    clusters around their common centre of mass;
  - `Shift_Origin` moves each cluster's particles and wraps them into the periodic box;
  - `Apply_kinematics` gives the merger velocities under PARABOLA and under COMET, as two
    methods;
  - the closed-form profiles `Gas_core_radius`, `Gas_density_profile` and `sph_kernel_wc2`.

All arithmetic is on Dafny's exact reals and unbounded integers. The square root, the cube
root and the neighbour search are parameters of the model, each with the law it must obey:
`RealMath.IsSqrt`, `RealMath.IsCbrt` and `Particles.NeighbourSearch`. The results of the
transcendental functions (R200, the NFW concentration, the Hernquist scale length, the gas
mass inside the sampling radius, the zero-energy orbit velocity) are inputs of `Setup`.

Each loop of the C code is a method, proved equal to a specification function:

- `FindHsml` against the recursive `Refine`;
- `FindSphQuantities` against `Settle` and `Resolve`;
- `BfldFromRotA` against `Field`;
- `SmoothSphQuantities` against `Gather` with `SmoothedEnergy` and `SmoothedVelocity`;
- `ShiftOrigin` against `ShiftClusters` and `WrapAll`;
- `ApplyParabola` and `ApplyComet` against `ParabolaKick` and `CometKick`.

Lemmas prove what the source promises about those functions. The particle arrays `P` and
`SphP` are Dafny arrays that the methods update in place. Where a zero divisor would make
C produce inf or NaN, the model returns `None` and the particle loops stop with status
`Undefined`. "Definition" in the table below marks a specification function without a
contract of its own; the rows it names state its properties.

## Model

| member | source | states |
|---|---|---|
| Geometry.NearestImage | src/sph.c:115-132 | the image of a separation is the separation itself or shifted by exactly one box length |
| Geometry.NearestImageBounded | src/sph.c:115-132 | a separation of at most one box length is folded into [-boxsize/2, boxsize/2] |
| Geometry.NearestImageIsShortest | src/sph.c:115-132 | the chosen image is no longer than any periodic image d + k * boxsize: it is the closest image |
| Geometry.NearestImageOdd | src/sph.c:115-132 | folding -d gives minus the folding of d |
| Geometry.ImageOffsetBounded | src/sph.c:111-132 | for two particles inside the box every component of their separation is at most half a box |
| Geometry.ImageOffsetAntisymmetric | src/sph.c:249-271 | swapping the two particles negates their separation |
| Kernels.WC6 | src/sph.c:426-432 | definition of `sph_kernel_WC6`: 1365/(64 pi h^3) (1-u)^8 (1 + 8u + 25u^2 + 32u^3) with u = r/h; its support and sign are the contract of `Kernels.WC6Support` |
| Kernels.DWC6 | src/sph.c:434-440 | definition of `sph_kernel_derivative_WC6`: -22 * 1365/(64 pi h^4) (1-u)^7 u (16u^2 + 7u + 1); its sign is the contract of `Kernels.DWC6Sign` |
| Kernels.M4 | src/sph.c:442-453 | definition of `sph_kernel_M4` with its two branches split at u = 1/2 and the decimal coefficients as written; see `Kernels.M4Support` and `Kernels.M4BranchesJumpAtHalf` |
| Kernels.DM4 | src/sph.c:455-466 | definition of `sph_kernel_derivative_M4`, branches split at u = 1/2; see `Kernels.DM4Sign` and `Kernels.DM4BranchesMeet` |
| Kernels.W | src/sph.c:140-146 | definition: the kernel SPH_CUBIC_SPLINE selects, the cubic spline when it is set and Wendland C6 otherwise |
| Kernels.DW | src/sph.c:140-146 | definition: the kernel derivative SPH_CUBIC_SPLINE selects, in the same way |
| Kernels.WC6Support | src/sph.c:426-432 | the Wendland C6 kernel is positive for 0 <= r < h and zero at r = h |
| Kernels.DWC6Sign | src/sph.c:434-440 | its derivative is negative inside the support and zero at r = 0 and r = h |
| Kernels.M4Support | src/sph.c:442-453 | the cubic spline is positive for 0 <= r < h and zero at r = h |
| Kernels.DM4Sign | src/sph.c:455-466 | its derivative is negative inside the support and zero at r = 0 and r = h |
| Kernels.DM4BranchesMeet | src/sph.c:455-466 | the two branches of the spline derivative agree at u = 1/2 |
| Kernels.M4BranchesJumpAtHalf | src/sph.c:442-453 | with the decimal coefficients as written, the two spline branches differ by 3.75e-13 at u = 1/2 |
| Kernels.KernelSigns | src/sph.c:140-146 | for either kernel choice the kernel is non-negative and its derivative non-positive inside the support |
| NeighbourSums.Contribution | src/sph.c:133-153 | definition: a neighbour with r^2 > h^2 adds nothing; one inside adds 4/3 pi h^3 W to the count, mpart W to the density and -mpart (3W/h + r/h dW) to the derivative |
| NeighbourSums.SumsOver | src/sph.c:107-154 | definition: the three sums of one pass, accumulated over the neighbour list in order; their properties are the contracts of the rows below |
| NeighbourSums.OnlyNeighboursInSupportCount | src/sph.c:135-136 | neighbours with r^2 > h^2 are skipped: the sums equal the sums over the neighbours inside the support |
| NeighbourSums.NoNeighbourInSupportNoSums | src/sph.c:135-136 | with no neighbour inside the support all three sums are zero |
| NeighbourSums.DensityMatchesCount | src/sph.c:149-151 | the density sum is the kernel neighbour count times mpart / (4/3 pi h^3) |
| NeighbourSums.SumsNonnegative | src/sph.c:149-151 | the kernel neighbour count and the density are non-negative |
| NeighbourSums.PositiveCountPositiveDensity | src/sph.c:149-151 | a positive kernel neighbour count means a positive density |
| NeighbourSums.AccumulateNeighbours | src/sph.c:107-154 | the loop over the neighbour list computes the three sums of the specification `SumsOver` |
| Particles.PairWeight | src/sph.c:280 | definition: the pair weight -mpart/rho_i dW/r VarHsmlFac, undefined exactly where h, r or rho_i is zero and C would divide by zero |
| Particles.PairWeightNonnegative | src/sph.c:280 | for positive mass, density and r inside the support the pair weight is defined and non-negative |
| HsmlSolver.Deviation | src/sph.c:159 | the deviation from the desired neighbour number is non-negative and zero exactly at the target |
| HsmlSolver.NewtonFactor | src/sph.c:175-182 | the Newton-Raphson factor is clamped to [1/1.24, 1.24] |
| HsmlSolver.NewtonProbe | src/sph.c:175-184 | a Newton step keeps the smoothing length positive and changes it by at most the factor 1.24 |
| HsmlSolver.NewtonBranchDefined | src/sph.c:175-179 | in the Newton branch the neighbour count and the density are positive, so neither divisor is zero |
| HsmlSolver.NewtonStepDirection | src/sph.c:177-182 | with positive omega, too many neighbours shrink the smoothing length and too few grow it |
| HsmlSolver.BisectInVolume | src/sph.c:194 | definition: the cube root of the mean of the cubed bounds; `HsmlSolver.BisectionInBracket` shows it lies between them |
| HsmlSolver.BiasCorrection | src/sph.c:206-207 | definition: -0.0116 (DESNNGB/100)^-2.236 mpart WC6(0, h); `HsmlSolver.BiasCorrectionNegative` shows it is negative |
| HsmlSolver.Start | src/sph.c:86-91 | the first bracket is [0, hsml * sqrt3], and the initial guess lies strictly inside it as the probe |
| HsmlSolver.Advance | src/sph.c:170-195 | the end of a pass leaves a usable state: a positive probe, a non-negative lower bound and a positive upper bound |
| HsmlSolver.AdvanceNewton | src/sph.c:175-184 | a Newton pass keeps the bracket and moves the probe toward the target by at most 1.24 |
| HsmlSolver.AdvanceBisect | src/sph.c:186-195 | bisection replaces the upper or the lower bound by the probe and the new probe lies inside the bracket |
| HsmlSolver.BisectionInBracket | src/sph.c:194 | the volume-weighted midpoint lies between the bounds |
| HsmlSolver.BisectionPositive | src/sph.c:194 | the volume-weighted midpoint of a bracket with a positive upper bound is positive |
| HsmlSolver.BiasCorrectionNegative | src/sph.c:202-210 | the Dehnen-Aly bias correction lowers the density |
| HsmlSolver.Refine | src/sph.c:96-196 | the solver, pass by pass, always hands back a positive smoothing length; its exits are the contract of `HsmlSolver.RefineOutcome` |
| HsmlSolver.RefineOutcome | src/sph.c:96-196 | the solver stops after at most 129 passes, with a hard exit exactly when it reaches pass 129. Convergence means a deviation below NNGBDEV at the final smoothing length. A collapsed bracket widens the length by 1.26 |
| HsmlSolver.RefineStops | src/sph.c:156-172 | the three exits of a pass: the hard exit once a pass number exceeds 128, convergence, and the collapsed bracket |
| HsmlSolver.RefineContinues | src/sph.c:168-195 | a pass that does not exit continues from the advanced bracket |
| HsmlSolver.NextProbe | src/sph.c:175-195 | the end of a pass computes the next bracket of `Advance` |
| HsmlSolver.FindHsml | src/sph.c:80-214 | `Find_hsml` returns convergence, the final smoothing length and density as `Refine` gives them, with the WC6 bias correction and the derivative only on convergence |
| SphQuantities.Seed | src/sph.c:23-26 | definition: the particle's own smoothing length, or twice the guess when it is 0 |
| SphQuantities.OnePass | src/sph.c:36-64 | a pass that does not settle the particle retries from a positive smoothing length: shrunk by 1.24 on overflow, grown by 1.23 when starved, or the one `Find_hsml` left |
| SphQuantities.Settle | src/sph.c:36-64 | definition: the retry loop of one particle with at most `fuel` passes; `SphQuantities.SettledIsConverged` states what a settled particle satisfies |
| SphQuantities.VarHsmlFactor | src/sph.c:66 | definition: 1 / (1 + h/(3 rho) drho/dh), undefined where either division has a zero divisor (see its line under Left out); `SphQuantities.VarHsmlFactorInverts` states it |
| SphQuantities.Resolve | src/sph.c:23-70 | definition: one iteration of the particle loop; `SphQuantities.ResolveWritesOwnFields` states what it writes |
| SphQuantities.PassConverges | src/sph.c:36-64 | a pass that settles a particle has converged at the settled smoothing length |
| SphQuantities.SettledIsConverged | src/sph.c:36-64 | every settled particle meets the convergence test |
| SphQuantities.SettleFuelMonotone | src/sph.c:36-64 | once a particle settles, more passes do not change the result |
| SphQuantities.SettledHsmlPositive | src/sph.c:36-64 | a settled smoothing length is positive |
| SphQuantities.VarHsmlFactorInverts | src/sph.c:66-68 | the variable-smoothing-length factor is the inverse of 1 + h/(3 rho) drho/dh, and is undefined exactly when that or rho is zero |
| SphQuantities.CubicSplineFactorIsOne | src/sph.c:199-211 | with the cubic spline the derivative is never written, so the factor is 1 |
| SphQuantities.ResolveWritesOwnFields | src/sph.c:23-70 | resolving a particle writes only its smoothing length, density and factor |
| SphQuantities.RunPass | src/sph.c:36-64 | one pass of the retry loop computes `OnePass` |
| SphQuantities.SettleParticle | src/sph.c:36-64 | the retry loop of one particle computes `Settle` |
| SphQuantities.ResolveParticle | src/sph.c:23-70 | one particle's work computes `Resolve` |
| SphQuantities.FindSphQuantities | src/sph.c:13-75 | every particle before the stopping index is resolved as `Resolve` says. Every later particle is unchanged. The status names why the loop stopped |
| MagneticField.CurlTerm | src/sph.c:244-289 | definition: nothing for the particle itself or beyond the support, otherwise the pair weight times dA x d, undefined where the weight is |
| MagneticField.CurlOver | src/sph.c:242-290 | definition: the curl terms summed over the neighbour list in order, undefined once any term is |
| MagneticField.Field | src/sph.c:228-290 | definition: the sum over the neighbours found within the particle's own `Hsml`; its properties are the contracts of the rows below |
| MagneticField.Curl | src/sph.c:287-289 | a uniform vector potential contributes no curl |
| MagneticField.CurlOverStep | src/sph.c:242-290 | the neighbour sum grows by one neighbour's term |
| MagneticField.NoContributorsNoField | src/sph.c:242-290 | with no contributing neighbour the field is zero |
| MagneticField.UniformPotentialNoField | src/sph.c:242-290 | a vector potential that is the same at every neighbour gives no field |
| MagneticField.SeparatedFieldDefined | src/sph.c:242-290 | if every contributing neighbour lies at non-zero distance, the field is defined |
| MagneticField.FieldGaugeInvariant | src/sph.c:242-290 | adding a constant to the vector potential leaves the field unchanged |
| MagneticField.FieldIgnoresBfld | src/sph.c:242-290 | the field does not read the old field values |
| MagneticField.CurlContribution | src/sph.c:244-289 | one neighbour's step computes `CurlTerm` |
| MagneticField.FieldAt | src/sph.c:242-290 | the neighbour loop computes `CurlOver` |
| MagneticField.BfldFromRotA | src/sph.c:216-300 | each particle before the stopping index gets the field `Field` and nothing else changes. A later particle is unchanged. An undefined field stops the loop |
| Smoothing.GatherTerm | src/sph.c:340-388 | definition: nothing for the particle itself or beyond the support, otherwise the weight with U and velocity times the weight |
| Smoothing.GatherOver | src/sph.c:338-389 | definition: the three accumulators summed over the neighbour list in order |
| Smoothing.Gather | src/sph.c:328-389 | definition: the accumulators over the neighbours found within the particle's own `Hsml` |
| Smoothing.SmoothedEnergy | src/sph.c:391-410 | definition: the new U, gated by JUMPTOLERANCE and by the zero test of line 409; `Smoothing.EnergyGate` states when it changes |
| Smoothing.SmoothedVelocity | src/sph.c:392-394 | definition, corrected: with weight the velocity is wk_vel / wk_total; without weight it stays. `Smoothing.UnweightedKeepsState` and `Smoothing.ConstantFieldReproduced` state it |
| Smoothing.GatherOverStep | src/sph.c:338-389 | the gathered sums grow by one neighbour's term |
| Smoothing.EnergyGate | src/sph.c:391-398 | U changes exactly when the weight is non-zero, the average is non-zero and it differs from U by more than the jump tolerance; it then becomes the average |
| Smoothing.ConstantFieldReproduced | src/sph.c:338-398 | when all contributing neighbours carry the same energy and velocity, the average reproduces them |
| Smoothing.UnweightedKeepsState | src/sph.c:391-398 | the corrected smoothing leaves energy and velocity as they were when the total weight is zero |
| Smoothing.NoContributorsNothingGathered | src/sph.c:338-389 | with no contributing neighbour nothing is gathered |
| Smoothing.AsWrittenAgreesWithWeight | src/sph.c:391-398 | for a non-zero total weight the as-written division and the guarded one agree |
| Smoothing.AsWrittenLosesVelocity | src/sph.c:392-394 | as written, a zero total weight makes every velocity component non-finite |
| Smoothing.LoneParticleVelocity | src/sph.c:338-394 | for a particle whose only neighbour is itself, the velocity as written is NaN. The corrected velocity is unchanged |
| Smoothing.GatherAt | src/sph.c:338-389 | the neighbour loop computes `GatherOver` |
| Smoothing.GatherTermAt | src/sph.c:340-388 | one neighbour's step computes `GatherTerm` |
| Smoothing.GatherAll | src/sph.c:326-403 | the buffers hold, for every particle, the smoothed energy (zero meaning "keep U") and the smoothed velocity |
| Smoothing.EnergyBuffer | src/sph.c:391-398 | the energy buffer entry encodes `SmoothedEnergy` |
| Smoothing.Commit | src/sph.c:405-414 | the commit loop writes U where the buffer is non-zero and the velocity always. It changes nothing else |
| Smoothing.SmoothSphQuantities | src/sph.c:302-423 | every gas particle's U and velocity become their smoothed values from the unchanged inputs, or nothing changes if a particle is undefined |
| Profiles.GasCoreRadius | src/setup.c:507-531 | for a positive scale radius the core radius is positive and at most rs/3, and below rs/3 exactly for a cool core |
| Profiles.CoolCoreIsBit | src/setup.c:519 | cluster i is a cool core exactly when bit i of `Cuspy` is set |
| Profiles.CoolCoreIsSmaller | src/setup.c:519-529 | for a positive scale radius the core radius is strictly below rs/3 exactly when bit i of `Cuspy` is set |
| Profiles.GasDensityProfile | src/setup.c:571-575 | for a positive rho0 the density lies in (0, rho0] |
| Profiles.GasDensityAtCentre | src/setup.c:571-575 | the density at r = 0 is rho0 |
| Profiles.GasDensityDecreasing | src/setup.c:571-575 | the density never grows with the radius |
| Profiles.Wc2 | src/setup.c:304-310 | the kernel is zero beyond its support r >= h |
| Profiles.Wc2AtCentre | src/setup.c:304-310 | because 21/2 is an integer division, the central value is 10/(pi h^3), below the Wendland C2 value 21/(2 pi h^3) |
| ClusterSetup.Round | src/setup.c:155-156 | rounding lands within half a unit of its argument, halves away from zero |
| ClusterSetup.CountOf | src/setup.c:155-156 | count times particle mass lies within half a particle of the mass, and a non-negative mass gives a non-negative count |
| ClusterSetup.CountWithinTotal | src/setup.c:147-156 | one cluster's rounded share of n particles lies in [0, n] |
| ClusterSetup.MassSplitPositive | src/setup.c:19-20 | for a positive mass ratio both clusters get a positive mass, and the second gets Xm times the first |
| ClusterSetup.SplitBooks | src/setup.c:19-25 | the masses inside R200 add up to `Mtot200`, the first is Mtot200/(1+Xm), and there is one cluster exactly when Xm is 0. Nothing else in either record is set yet |
| ClusterSetup.Structure | src/setup.c:28-42 | gas and DM inside R200 add up to the cluster mass, in the ratio bf : 1 |
| ClusterSetup.StructureLoop | src/setup.c:28-42 | every cluster in use gets `Structure` and the other is unchanged |
| ClusterSetup.CorrectionTerm | src/setup.c:76-77 | the finite-sampling correction of the DM mass is at least 1 |
| ClusterSetup.Masses | src/setup.c:46-90 | gas and DM add up to the total. A DM-only run moves all gas mass to DM. The DM mass is the corrected mass inside R200 |
| ClusterSetup.MassLoop | src/setup.c:46-112 | every cluster in use gets `Masses`, and `Param.Mtotal` and `mtot` are their sums |
| ClusterSetup.SpeciesSumToTotal | src/setup.c:110-112 | the summed gas and DM masses add up to the summed total |
| ClusterSetup.CountFor | src/setup.c:155-156 | as written, each of a cluster's counts is within half a particle of its own mass, with nothing tying it to the quota. A DM-only run counts all of the cluster's mass as DM and has no gas |
| ClusterSetup.RoundedCountsOverrun | src/setup.c:147-156 | as written, two clusters can be given 4 gas particles when the array holds 3 |
| ClusterSetup.Quota | src/setup.c:147-148 | the array holds at least one DM particle and, with gas, at least one gas particle, and no more than `Ntotal` |
| ClusterSetup.Recount | src/setup.c:158 | new counts with `Ntotal` their sum and nothing else changed |
| ClusterSetup.ShareOut | src/setup.c:153-173 | all clusters but the last get their own rounded counts, the last gets what is left of the quota, and nothing else changes |
| ClusterSetup.CountLoop | src/setup.c:147-173 | the particle masses are as written and the counts fill the array exactly. No count is negative |
| ClusterSetup.QuotaFilled | src/setup.c:147-173 | if the last cluster takes the remainder, the counts sum to the quota and none is negative |
| ClusterSetup.ClustersSplit | src/setup.c:19-25 | definition: one cluster exactly when Xm is 0; the first cluster's R200 mass is Mtot200/(1+Xm) and the two add up to Mtot200 |
| ClusterSetup.SpeciesSplit | src/setup.c:29-112 | definition: in each cluster gas and DM add up, neither is negative, a DM-only run has no gas, and `Param.Mtotal` adds the clusters' masses |
| ClusterSetup.Counted | src/setup.c:147-173 | definition: the particle masses as written, the first of two clusters' rounded counts, and counts that are non-negative and fill the quota |
| ClusterSetup.Built | src/setup.c:28-90 | definition: the record of one cluster as the structure and mass loops leave it, from its R200 mass alone |
| ClusterSetup.Massed | src/setup.c:28-90 | definition: every cluster in use holds the `Built` record of its own R200 mass, with its particle counts. A cluster not in use keeps its zeroed record |
| ClusterSetup.BooksBuilt | src/setup.c:19-90 | records that pass through the R200 split, the structure loop and the mass loop are each `Built` from their own R200 mass. A record past `Nhalos` stays zeroed |
| ClusterSetup.MassBooks | src/setup.c:19-90 | before counting: the mass split (`ClustersSplit`), the species split and `Param.Mtotal` (`SpeciesSplit`), the species sums, each cluster in use `Built` from its R200 mass, and an unused record zeroed |
| ClusterSetup.RecountKeepsBooks | src/setup.c:147-173 | counting the particles changes only the counts: the mass split, the species split, `Massed` and the species sums carry over |
| ClusterSetup.Bookkeep | src/setup.c:19-173 | the clusters split the mass as `ClustersSplit` and `SpeciesSplit` say. The counts are as `Counted` says, and fill `Ntotal`. Each cluster in use holds its own radii, gas mass and corrected DM mass (`Massed`) |
| ClusterSetup.LaidOut | src/setup.c:211-221 | definition: cluster 0's gas at 0 and its DM at nGas, cluster 1's slices right after cluster 0's, or at 0 when there is no second cluster |
| ClusterSetup.LayOut | src/setup.c:211-221 | cluster 0's gas starts at 0 and its DM at nGas. Cluster 1's slices start right after cluster 0's in each species |
| ClusterSetup.CentreOfMassBalance | src/setup.c:232-244 | the two offsets are d apart and the mass-weighted offsets cancel: the centre of mass is at the origin |
| ClusterSetup.Placed | src/setup.c:232-295 | definition: two clusters d_clusters and the impact parameter apart around the centre of mass. V0 is the zero-energy orbit velocity times ZERO_ENERGY_ORBIT_FRACTION, and M1 V1 = -Mtot200 V0. V0 and V1 are the x bulk velocities only without PARABOLA and COMET; otherwise the clusters start at rest. Neither cluster is offset in z. One cluster sits at the origin at rest, and the unused second record has no offset and no velocity |
| ClusterSetup.MergerMomentum | src/setup.c:253-257 | with M0 + M1 = Mtot200 and M1 V1 = -Mtot200 V0 the total momentum M0 V0 + M1 V1 is -M1 V0, not zero |
| ClusterSetup.Place | src/setup.c:229-295 | for two clusters, offsets balanced around the centre of mass. The velocities are the zero-energy orbit velocity V0 and V1 with M1 V1 = -Mtot200 V0, applied as bulk velocities only without PARABOLA and COMET. The z offsets stay as the zeroed records had them. For one cluster everything is zero, and the second record is left as it was |
| ClusterSetup.Setup | src/setup.c:4-302 | `Setup` as a whole: the box size, the mass split, the species split, each cluster's own masses and radii, the counts filling the array, the slice layout, and the centre-of-mass placement with its bulk velocities and no z offset. With one cluster the unused second record is entirely zero |
| OriginShift.ShiftHalo | src/setup.c:400-422 | definition: a cluster's DM slice and then its gas slice moved by its offset and bulk velocity |
| OriginShift.ShiftClusters | src/setup.c:390-423 | definition: the first n clusters moved in turn; `OriginShift.OwnSliceMoved` and `OriginShift.OutsideSlicesUnmoved` state the result |
| OriginShift.ShiftSlice | src/setup.c:400-422 | the particles of one slice are moved by the cluster's offset and bulk velocity; the rest are unchanged |
| OriginShift.OutsideSlicesUnmoved | src/setup.c:390-423 | a particle in no cluster's slices is not moved |
| OriginShift.OwnSliceMoved | src/setup.c:390-423 | a particle in exactly one slice of one cluster is moved by exactly that cluster's offset and velocity |
| OriginShift.FoldDownTurns | src/setup.c:432-433 | subtracting the box length until the coordinate is at most boxsize takes a whole number of box lengths off |
| OriginShift.FoldUpTurns | src/setup.c:435-436 | adding the box length until the coordinate is non-negative adds a whole number of box lengths |
| OriginShift.Wrap | src/setup.c:432-436 | definition: one coordinate after both while loops; `OriginShift.WrapInBox` states it |
| OriginShift.Wrapped | src/setup.c:426-449 | definition: the origin moved by half a box, then each coordinate wrapped; `OriginShift.WrappedInBox` states it |
| OriginShift.WrapInBox | src/setup.c:428-448 | a wrapped coordinate lies in [0, boxsize] and differs from the shifted one by a whole number of box lengths |
| OriginShift.WrapKeepsInside | src/setup.c:432-436 | a coordinate already in the box is not moved |
| OriginShift.WrappedInBox | src/setup.c:426-449 | every wrapped particle lies in the box with its velocity unchanged |
| OriginShift.WrapComponent | src/setup.c:432-436 | the two while loops compute `Wrap` |
| OriginShift.ShiftSliceInPlace | src/setup.c:400-422 | the in-place loop over one slice computes `ShiftSlice` |
| OriginShift.SetupSlicesFit | src/setup.c:147-221 | the slices `Setup` lays out lie inside `P[0..Ntotal)` and do not overlap |
| OriginShift.SetupShiftMovesOwn | src/setup.c:385-423 | after `Setup`, each particle of a cluster is moved by that cluster's offset and bulk velocity alone |
| OriginShift.ShiftOrigin | src/setup.c:385-452 | `Shift_Origin` leaves `P` as the wrapped image of the shifted clusters |
| OriginShift.ShiftOriginInBox | src/setup.c:385-452 | afterwards every particle lies inside the box and its velocity is the shifted one |
| Kinematics.Kick | src/setup.c:331-333 | a kick adds dv to the x velocity and changes nothing else |
| Kinematics.ParabolaKick | src/setup.c:326-333 | definition: the infall velocity inside the 45-degree cone ahead of the touch point, the host velocity elsewhere |
| Kinematics.ParabolaKickIsOneOfTwo | src/setup.c:326-333 | under PARABOLA every particle gains exactly the infall or the host velocity along x |
| Kinematics.ParabolaSides | src/setup.c:326-333 | behind the touch point a particle takes the host velocity; on the axis ahead of it, the infall velocity |
| Kinematics.ApplyParabola | src/setup.c:315-335 | every particle of `P` gets `ParabolaKick` with the touch-point offset |
| Kinematics.CometKick | src/setup.c:353-377 | definition: the infall velocity inside the R200 sphere or the trailing cylinder, the host velocity elsewhere |
| Kinematics.CometKickIsOneOfTwo | src/setup.c:353-377 | under COMET a particle gains the infall velocity exactly inside the comet and the host velocity otherwise |
| Kinematics.CometShape | src/setup.c:360 | the comet holds the whole R200 sphere and the trailing cylinder, and nothing in front of the centre outside the sphere |
| Kinematics.ApplyComet | src/setup.c:339-378 | every particle of `P` gets `CometKick` around the infalling cluster's centre |

## Left out

- Transcendental functions are not modelled. `Concentration_parameter`, `Critical_Density`, `Overdensity_Parameter`, R200 (`pow`), `A_hernq` (`sqrt`, `log`), `Mass_profile` (`log`, `atan`) and the orbit velocity `sqrt` become inputs of `Setup`. The square and cube roots of the SPH code become function parameters with their laws.
- `Hernquist_density_profile` is not modelled. It is a one-line formula, and no core operation uses it.
- The R500 radius and the effective baryon fraction `Bf_eff` are not modelled. They are only printed. The same goes for the gravitational softening length and `Rho0`, which are computed with `pow` and `Mass_profile` and used only outside this core.
- Floating-point rounding, `float` truncations and IEEE overflow are not modelled. All arithmetic is on exact reals. A zero divisor is modelled as an undefined result, not as inf or NaN. `floor` and `round` are modelled exactly. Integers are unbounded: `int nDM = 0.5 * Param.Ntotal` and `int nGas` (src/setup.c:147-148) truncate a double into a C `int`, which is undefined beyond INT_MAX, while `ClusterSetup.Quota` takes `Ntotal / 2` on unbounded integers.
- ClusterSetup.CountOf: a zero particle mass gives a count of 0, where C divides by zero. This happens only for the gas of a DM-only run, where the source overwrites the count with 0 anyway.
- ClusterSetup.ValidInput: the parameter ranges (positive masses and radii, at least two particles) stand in for the source's assumption of a sensible parameter file. The source does not check them.
- Only the gas and DM species of `Param.Npart` are modelled. Species 2 to 5 are always zero in this code.
- OpenMP parallel loops are modelled as sequential loops. Their iterations are independent.
- `printf`, `Malloc`, `memset`, `Free` and the timing of the source are not modelled.
- `P` and `SphP` are taken as already allocated arrays.
- The GIVEPARAMS, SUBSTRUCTURE and NFWC_* compile-time variants are not modelled, except where they switch a branch off.
- The neighbour search `Find_ngb_tree` and `Guess_hsml` are not modelled. Each is a function parameter with a contract: indices in range, at most NGBMAX of them, and a positive guess.
- SphQuantities.VarHsmlFactor: at zero density with a non-zero derivative and a non-zero smoothing length, C computes h/(3*0) = inf, 1 + (+-inf) = +-inf and 1/(+-inf) = 0, a finite factor it stores; the model returns `None` there. This zero density arises only when the WC6 bias correction cancels the kernel sum exactly. At zero density with a zero derivative C gets a NaN, and for a zero denominator an inf, both `None` in the model too.
- SphQuantities.FindSphQuantities: where `VarHsmlFactor` is `None` (src/sph.c:66; this includes the zero-density case of the line above, where C stores 0), the loop stops and returns `Undefined`, leaving that particle and every later one unchanged. C stores the non-finite factor and goes on with the next particle.
- MagneticField.BfldFromRotA: where a pair weight divides by zero (src/sph.c:280), the loop stops and returns `Undefined`, leaving that particle's field and every later one unchanged. C stores a NaN or inf field for that particle (src/sph.c:292-294) and goes on.
- Smoothing.GatherAll: where a pair weight divides by zero (src/sph.c:380), the gather stops and returns `Undefined`. C writes NaN into that particle's velocity buffer, leaves its U buffer at 0 and goes on.
- Smoothing.SmoothSphQuantities: when any particle is undefined, nothing is committed. C commits every particle, that one with a NaN velocity.
- SphQuantities.FindSphQuantities: the unbounded `for(;;)` retry loop is cut off after `fuel` passes, and running out of fuel is a separate status.
- SphQuantities.OnePass: the test that the neighbour count is below DESNNGB and the particle is not done (src/sph.c:59-60) cannot change the outcome and is left out.
- Kinematics.ApplyComet: the kernel taper of the front half is commented out in the source, so the weight is the constant 1. `norm`, `h` and `r` are computed but never used.
- Kinematics.ApplyParabola and Kinematics.ApplyComet: `P` holds exactly the `Param.Ntotal` particles, as `Setup` allocates them.
- OriginShift.ShiftOrigin: the source trusts the slice layout. The model requires the slices to lie inside `P` and proves, with `OriginShift.SetupSlicesFit`, that the corrected counts of `Setup` ensure this.

## Findings

| source | as written | input that shows it | evidently intended | confidence | as-written member | corrected member |
|---|---|---|---|---|---|---|
| src/sph.c:392-394 | `wk_vel[k] /= wk_total` is unguarded and always committed to `P[ipart].Vel` (lines 411-413), while U is guarded by the buffer test | a gas particle whose only neighbour inside its smoothing length is itself: it contributes nothing, so wk_total is 0 and the velocity becomes NaN | leave the velocity unchanged when no neighbour carries weight, as U already is | not executed | Smoothing.AsWrittenVelocity, Smoothing.LoneParticleVelocity | Smoothing.SmoothedVelocity, Smoothing.UnweightedKeepsState |
| src/setup.c:155-156 | each cluster's counts are rounded independently (also lines 167-168 in the DM-only case), so their sum can exceed `nGas`/`nDM` | Ntotal 6 with two clusters of gas mass 1.5 each: the gas particle mass is 1, both clusters round 1.5 up to 2, and 4 gas particles are claimed for 3 slots. Cluster 1's gas slice then runs into cluster 0's DM slice | hand every cluster but the last its rounded count and give the last one the rest of the species' quota, so the counts fill the array exactly | not executed | ClusterSetup.CountFor, ClusterSetup.RoundedCountsOverrun | ClusterSetup.CountLoop, ClusterSetup.ShareOut |

The setup model uses the corrected counts. `ClusterSetup.Counted` states that the summed counts equal the array's quota, and `OriginShift.SetupSlicesFit` proves that the slices then stay inside `P` without overlapping.
