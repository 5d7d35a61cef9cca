# Gravity engines, modelled in Dafny

This project models the two N-body engines of the simulator: the
unconstrained engine `PhysicsEngine` and the anchored engine
`HierarchicalEngine`. Each engine owns a list of bodies, a gravitational
constant `G` (100 at construction), a softening length of 5 and a step
counter. Each advances its bodies with one velocity-Verlet step per
`update(dt)`:

1. a half-kick from the stored acceleration, then a drift;
2. on every third step, a trail sample of each body's position;
3. new accelerations from all pairs;
4. a second half-kick.

The unconstrained engine then recentres the system on its barycentre.

The anchored engine differs in five ways:

- It never moves or kicks a static body, and never rewrites a static body's acceleration.
- It uses `Math.pow(s, 1.5)` for the inverse-cube factor, and skips a pair whose `pow` result is 0 (src/physics/HierarchicalEngine.ts:146).
- Its potential energy uses the softened distance `sqrt(|d|^2 + 5^2)` and has no test for two bodies at the same point; the unconstrained engine uses the raw distance and skips a pair whose distance is not positive.
- It runs a collision pass between the new accelerations and the second half-kick. The pass pushes overlapping pairs apart and gives an approaching pair an impulse with restitution 0.6.
- Its trails are longer and it does not recentre.

Modules:

- `Bodies` (`bodies.dfy`): vectors, the `Body` record, and the sums over a body list (mass, mass moment, momentum, mass-weighted acceleration, kinetic energy).
- `MathLib` (`mathlib.dfy`): `Math.sqrt` and `Math.pow` as function values in a `Math` datatype. `Lawful` is the only law assumed of `sqrt`: for `s >= 0` the root is non-negative and squares back to `s`. Nothing is assumed of `pow`.
- `Sums` (`sums.dfy`): row and grid sums of pair terms, and the cancellation of antisymmetric terms.
- `Integrator` (`integrator.dfy`): the half-kick, the drift and the bounded trail.
- `Physics` (`physics_engine.dfy`): the class `PhysicsEngine`.
- `Collisions` (`collisions.dfy`): the collision pass of the anchored engine, pair by pair and over the whole list.
- `Hierarchical` (`hierarchical_engine.dfy`): the class `HierarchicalEngine`.

How the model is organised:

- Each class keeps its bodies in a `seq<Body>` field of datatype values. A loop works on a local copy of the list, and the method assigns the result back to the field. `Update` assigns the field once after the drift and the trail sample, and once after the second half-kick; each method it calls assigns the field once more.
- Every loop of the source is a `while` loop. Its invariants tie it to a function that specifies it, and the properties are proved as lemmas about those functions.
- The oldest trail point is dropped only when the trail holds more than 50 points before the push (`> 50` at src/physics/Engine.ts:34), or more than 80 in the anchored engine (`> 80` at src/physics/HierarchicalEngine.ts:108). A trail of exactly 50 (or 80) points is kept whole and then takes the new point, so trails reach 51 (or 81) points. The proved bound is therefore 51 (81), and `PushTrailExceedsLimit` shows that this bound is reached.

## Model

| member | source | states |
|---|---|---|
| Integrator.VerletDrift | src/physics/Engine.ts:14-28 | After the first loop, the position is `x + v dt + a dt^2 / 2` and the velocity is `v + a dt / 2`; nothing else of the body changes |
| Integrator.KickDrift | src/physics/Engine.ts:20-28 | The first loop's treatment of a body changes only its velocity and position, and the velocity it drifts with is the half-kicked one |
| Integrator.Kick | src/physics/Engine.ts:43-46 | The second half-kick changes only the velocity, and by exactly `a dt / 2` |
| Integrator.PushTrail | src/physics/Engine.ts:33-36 | The new trail ends in the pushed point. When the old trail had more than the limit, exactly the oldest point is dropped and the rest keep their order; otherwise the old trail is kept whole. A trail of at most `limit + 1` points stays within that bound |
| Integrator.PushTrailExceedsLimit | src/physics/Engine.ts:34-35 | A trail of exactly `limit` points is not shortened, so it grows to `limit + 1`: the bound is reached |
| Integrator.PushTrails | src/physics/Engine.ts:33-36 | Every body's trail takes that body's current position; nothing but trails changes |
| Integrator.Trailed | src/physics/Engine.ts:31-37 | The trail pass pushes the current position only when the counter is a multiple of 3; otherwise nothing changes |
| Integrator.SampleTrails | src/physics/HierarchicalEngine.ts:106-109 | The trail loop computes `PushTrails` |
| Bodies.NormSq | src/physics/Engine.ts:93 | A squared distance is never negative |
| Bodies.KineticNonNegative | src/physics/Engine.ts:115-120 | With non-negative masses, the kinetic energy is non-negative |
| Bodies.TotalMassOfSameBodies | src/physics/Engine.ts:59-60 | Lists with the same masses have the same total mass |
| Bodies.PotentialGrowsWithDistance | src/physics/HierarchicalEngine.ts:178 | For non-negative `G` and masses, `-G m_a m_b / d` never decreases as `d` grows |
| Bodies.PotentialNonPositive | src/physics/Engine.ts:128-131 | For non-negative `G` and masses, the potential `-G m_a m_b / d` at a positive distance is never positive |
| Physics.PhysicsEngine.constructor | src/physics/Engine.ts:4-11 | `G` is 100, the counter is 0, and the bodies are a copy of the input |
| Physics.PhysicsEngine.Update | src/physics/Engine.ts:13-50 | The counter grows by exactly one, `G` is unchanged, and the bodies become `Stepped` of the old bodies with the new counter |
| Physics.Integrated | src/physics/Engine.ts:13-46 | The Verlet part of a step: the first half-kick and drift, the trail pass, the acceleration pass and the second half-kick, in that order. It keeps the body count and each body's id, mass, radius and static flag |
| Physics.Stepped | src/physics/Engine.ts:13-50 | A whole step is `Integrated` followed by the recentring. It keeps the body count and each id, mass, radius and static flag |
| Physics.UpdateTrails | src/physics/Engine.ts:31-36 | A trail takes a point only when the new counter is a multiple of 3, and that point is the body's position after the drift and before recentring; otherwise the trail is unchanged |
| Physics.UpdateTrailBound | src/physics/Engine.ts:34-35 | Trails of at most 51 points have at most 51 points after a step |
| Physics.UpdateRecentres | src/physics/Engine.ts:48-49 | With non-zero total mass, a step ends with zero mass moment and zero momentum |
| Physics.PhysicsEngine.RecenterSystem | src/physics/Engine.ts:52-80 | The bodies become `Recentred` of the old bodies; `G` and the counter are unchanged |
| Physics.MassSums | src/physics/Engine.ts:59-65 | The first loop computes the total mass, the mass moment and the momentum |
| Physics.ShiftBodies | src/physics/Engine.ts:74-79 | The second loop subtracts the same centre from every position and the same velocity from every velocity |
| Physics.Recentred | src/physics/Engine.ts:67-79 | Recentring changes only positions and velocities |
| Physics.ShiftedSums | src/physics/Engine.ts:74-79 | Shifting every position by `c` and every velocity by `u` keeps the total mass and lowers the mass moment by `c M` and the momentum by `u M` |
| Physics.SumsStep | src/physics/Engine.ts:59-65 | One more body adds its mass, its mass-weighted position and its momentum to the running sums |
| Physics.RecentreZeroes | src/physics/Engine.ts:52-80 | With non-zero total mass, recentring keeps the total mass and leaves zero mass moment and zero momentum; with total mass zero nothing changes |
| Physics.Shifted | src/physics/Engine.ts:74-79 | The second loop of the recentring moves every position by `-c` and every velocity by `-u`. It keeps the body count, every offset between two bodies and every relative velocity |
| Physics.PhysicsEngine.CalculateAccelerations | src/physics/Engine.ts:82-109 | The bodies become `WithAccelerations` of the old bodies; `G` and the counter are unchanged |
| Physics.PhysicsEngine.AccelerationOf | src/physics/Engine.ts:85-107 | The inner loop computes the sum of the pulls of all other bodies on body `i`, in index order |
| Physics.AccelTermAt | src/physics/Engine.ts:91-106 | The source's component form `dx * factor`, with `factor = G m / s^3`, is the pull of the force law |
| Physics.WithAccelerations | src/physics/Engine.ts:82-109 | Only accelerations change, and the body count is kept |
| Physics.PullOfSameLayout | src/physics/Engine.ts:87-107 | The pull on a body depends only on positions and masses |
| Physics.PairAccel | src/physics/Engine.ts:91-106 | The pull `G m (q - p) / s^3`, with `s = sqrt(|q - p|^2 + 5^2)`, of a source at `q` on a body at `p`. A source at the body's own position pulls with zero |
| Physics.AccelerationsOverwritten | src/physics/Engine.ts:84-85 | Every acceleration is overwritten: lists with the same positions and masses get the same accelerations, whatever they held before. Each acceleration is `G` times its value for `G = 1` |
| Physics.PairAccelLinearInG | src/physics/Engine.ts:102-103 | The pair term is linear in `G` |
| Physics.PairForceAntisymmetric | src/physics/Engine.ts:91-106 | The pair terms satisfy `m_i a_ij == -(m_j a_ji)` |
| Physics.ForceSumIsGrid | src/physics/Engine.ts:83-108 | The mass-weighted accelerations of the first `r` bodies sum to their rows of pair forces |
| Physics.ForceSumZero | src/physics/Engine.ts:82-109 | After the acceleration pass, the mass-weighted accelerations sum to zero |
| Physics.PhysicsEngine.GetTotalEnergy | src/physics/Engine.ts:111-136 | The result is kinetic energy plus the potential of every unordered pair; the method changes nothing |
| Physics.PhysicsEngine.AddRowPotential | src/physics/Engine.ts:122-132 | The inner loop adds the potential of every pair `(i, j)` with `j > i` and skips coincident pairs |
| Physics.PairPotentialNonPositive | src/physics/Engine.ts:124-131 | For non-negative `G` and masses, the potential of one pair is never positive |
| Physics.RowPotentialStep | src/physics/Engine.ts:124-131 | One more pair of a row adds the source's `-(G m_i m_j) / dist`, or nothing for a coincident pair |
| Physics.RowPotentialNonPositive | src/physics/Engine.ts:122-132 | For non-negative `G` and masses, the potential of a row of pairs is never positive |
| Physics.PotentialNonPositiveSum | src/physics/Engine.ts:115-133 | For non-negative `G` and masses, the potential of all unordered pairs is never positive |
| Physics.TotalEnergy | src/physics/Engine.ts:111-136 | Kinetic plus potential energy. For non-negative `G` and masses it is at most the kinetic energy |
| Physics.CoincidentPairNoPotential | src/physics/Engine.ts:129-131 | A coincident pair contributes no potential |
| Physics.PhysicsEngine.SetBodies | src/physics/Engine.ts:138-141 | The bodies become the new list with its force-law accelerations; `G` and the counter are unchanged |
| Physics.DriftAll | src/physics/Engine.ts:20-28 | The drift loop changes only positions and velocities, each body by its own half-kick and drift |
| Physics.KickAll | src/physics/Engine.ts:43-46 | The kick loop changes only velocities, each body by its own half-kick |
| Physics.DriftBodies | src/physics/Engine.ts:20-28 | The drift loop computes `DriftAll` |
| Physics.KickBodies | src/physics/Engine.ts:43-46 | The kick loop computes `KickAll` |
| Collisions.PushApart | src/physics/HierarchicalEngine.ts:31-50 | Only positions change, and a static body does not move |
| Collisions.Bounce | src/physics/HierarchicalEngine.ts:52-85 | Only velocities change, and a static body is not kicked |
| Collisions.Collide | src/physics/HierarchicalEngine.ts:16-86 | Only positions and velocities change, and a static body not at all |
| Collisions.SeparatePairUntouched | src/physics/HierarchicalEngine.ts:23-25 | A pair at distance 0, or at least `r_a + r_b + 2` apart, is left untouched |
| Collisions.StaticPairUntouched | src/physics/HierarchicalEngine.ts:32-33 | Two static bodies are never changed |
| Collisions.NormalIsUnit | src/physics/HierarchicalEngine.ts:28-29 | The normal is a unit vector, and the offset is the normal times the distance |
| Collisions.UnitAfterDivision | src/physics/HierarchicalEngine.ts:28-29 | A non-zero offset divided by its length has length one |
| Collisions.PushWidensOffset | src/physics/HierarchicalEngine.ts:34-50 | Unless both bodies are static, the push moves the offset by exactly `n * overlap` |
| Collisions.PushReachesMinDistance | src/physics/HierarchicalEngine.ts:25-50 | An overlapping pair that is not all static ends exactly `minDistance` apart, along the normal it had before |
| Collisions.CollideOffset | src/physics/HierarchicalEngine.ts:27-50 | After the pass, the offset of an overlapping pair is the normal times `minDistance` |
| Collisions.CollideMovesAsPush | src/physics/HierarchicalEngine.ts:52-85 | The impulse changes velocities only, so the pair ends where the push put it |
| Collisions.OffsetDistance | src/physics/HierarchicalEngine.ts:21 | Two bodies whose offset is a unit vector times `s >= 0` are `s` apart |
| Collisions.ScaledUnitLength | src/physics/HierarchicalEngine.ts:21 | A unit vector times `s` has squared length `s * s` |
| Collisions.PushKeepsBarycentre | src/physics/HierarchicalEngine.ts:40-50 | Pushing two dynamic bodies apart keeps `m_a x_a + m_b x_b` |
| Collisions.SharesBalance | src/physics/HierarchicalEngine.ts:42-44 | The two shares add up to the overlap and satisfy `m_a moveA == m_b moveB` |
| Collisions.BalancedShift | src/physics/HierarchicalEngine.ts:46-49 | Opposite moves of equal weight keep the mass-weighted position sum |
| Collisions.SplitShift | src/physics/HierarchicalEngine.ts:46-49 | Moves of `u` and `w` with `u + w == overlap` widen the offset by `n * overlap` |
| Collisions.ImpulseKeepsMomentum | src/physics/HierarchicalEngine.ts:76-83 | The impulse between two dynamic bodies keeps `m_a v_a + m_b v_b` |
| Collisions.ImpulseSplit | src/physics/HierarchicalEngine.ts:76-83 | The reduced-mass impulse, divided by each mass, adds up to the velocity change it was computed from |
| Collisions.ClosingShift | src/physics/HierarchicalEngine.ts:53-55 | Moving the velocities apart by `n * ka` and `n * kb` raises the closing speed by `ka + kb` |
| Collisions.BounceRestitution | src/physics/HierarchicalEngine.ts:52-85 | Along a unit normal, an approaching pair that is not all static leaves with `-0.6` times its closing speed, for static–dynamic and for dynamic–dynamic pairs. A pair that is not approaching keeps its velocities |
| Collisions.CollideRestitution | src/physics/HierarchicalEngine.ts:25-85 | For an overlapping pair, the whole pass turns a closing speed `c < 0` into `-0.6 c` unless both bodies are static. Otherwise no velocity changes |
| Collisions.CollideKeepsMomentum | src/physics/HierarchicalEngine.ts:25-85 | For two dynamic bodies, the whole pass keeps their momentum |
| Collisions.WallRestitution | src/physics/HierarchicalEngine.ts:61-74 | Against a static partner, the dynamic body of an approaching pair is reflected: the closing speed becomes `-0.6` times what it was |
| Collisions.DynamicRestitution | src/physics/HierarchicalEngine.ts:76-83 | Between two dynamic bodies, the reduced-mass impulse turns the closing speed `c` into `-0.6 c` |
| Collisions.ReducedImpulse | src/physics/HierarchicalEngine.ts:76-78 | The impulse `k / (1/m_a + 1/m_b)` of two positive masses is `k` times their reduced mass, which is positive |
| Collisions.KickedNormSq | src/physics/HierarchicalEngine.ts:80-83 | A velocity kicked by `k` along a unit normal has squared speed `|v|^2 + 2 k (v . n) + k^2` |
| Collisions.MassKick | src/physics/HierarchicalEngine.ts:80-83 | The same with the body's mass: `m |v'|^2 = m |v|^2 + 2 J (v . n) + J k` when `m k == J` |
| Collisions.ImpulseKicks | src/physics/HierarchicalEngine.ts:80-83 | Each body's `m |v|^2` after it takes its share of the impulse |
| Collisions.ImpulseShares | src/physics/HierarchicalEngine.ts:76-83 | The two shares `J / m_a` and `J / m_b` add up to the change of closing speed `k`, and `J` is `k` times the reduced mass |
| Collisions.PairKinetic | src/physics/HierarchicalEngine.ts:162-165 | The kinetic energy of a list of two bodies is the sum of their `m |v|^2 / 2` |
| Collisions.DissipatedEnergy | src/physics/HierarchicalEngine.ts:57-83 | The algebra of the energy balance: an impulse that turns `c < 0` into `-0.6 c` removes `(1 - 0.6^2) / 2 * mu * c^2`, which is positive |
| Collisions.ImpulseDissipates | src/physics/HierarchicalEngine.ts:76-83 | Two bodies that take the reduced-mass impulse lose exactly `(1 - 0.6^2) / 2 * mu * c^2` of kinetic energy, `mu` being the reduced mass and `c < 0` the closing speed, so they lose energy |
| Collisions.BounceDissipates | src/physics/HierarchicalEngine.ts:57-83 | The impulse between two approaching dynamic bodies removes exactly `(1 - 0.6^2) / 2 * mu * c^2` of kinetic energy along a unit normal, so the pair ends with less kinetic energy |
| Collisions.CollideDissipates | src/physics/HierarchicalEngine.ts:25-85 | For two dynamic bodies the whole pair treatment never adds kinetic energy. An overlapping pair that approaches loses exactly `(1 - 0.6^2) / 2 * mu * c^2` |
| Collisions.ResolvePair | src/physics/HierarchicalEngine.ts:16-86 | Resolving pair `(i, j)` changes no other body, keeps masses positive, and changes only positions and velocities, never of a static body |
| Collisions.ResolveRow | src/physics/HierarchicalEngine.ts:15-87 | A row of pairs changes only positions and velocities of dynamic bodies |
| Collisions.ResolveFrom | src/physics/HierarchicalEngine.ts:14-88 | The pass over rows `i, i + 1, ...` changes only positions and velocities of dynamic bodies |
| Collisions.Resolved | src/physics/HierarchicalEngine.ts:13-89 | The whole collision pass, rows in ascending `i` and pairs in ascending `j`. It changes only positions and velocities of dynamic bodies and keeps masses positive |
| Collisions.SeparateRowUntouched | src/physics/HierarchicalEngine.ts:15-25 | A row of a list with no overlapping pair is resolved without change |
| Collisions.SeparateBodiesUntouched | src/physics/HierarchicalEngine.ts:13-89 | A list with no overlapping pair goes through the pass unchanged |
| Hierarchical.HierarchicalEngine.constructor | src/physics/HierarchicalEngine.ts:4-11 | `G` is 100, the counter is 0, and the bodies are a copy of the input |
| Hierarchical.HierarchicalEngine.HandleCollisions | src/physics/HierarchicalEngine.ts:13-89 | The bodies become `Resolved` of the old bodies, and masses stay positive |
| Hierarchical.CollideRow | src/physics/HierarchicalEngine.ts:15-87 | The inner loop, which writes both bodies of each pair back, computes `ResolveRow` |
| Hierarchical.HierarchicalEngine.Update | src/physics/HierarchicalEngine.ts:91-127 | The counter grows by exactly one, `G` is unchanged, the bodies become `Stepped` of the old bodies, and masses stay positive |
| Hierarchical.Stepped | src/physics/HierarchicalEngine.ts:91-127 | A step changes only positions, velocities, accelerations and trails |
| Hierarchical.UpdateKeepsBodies | src/physics/HierarchicalEngine.ts:91-127 | A step keeps the body count and each id, mass, radius and static flag |
| Hierarchical.Drift | src/physics/HierarchicalEngine.ts:95-102 | The first loop's treatment of a body changes only its velocity and position, and a static body not at all |
| Hierarchical.SecondKick | src/physics/HierarchicalEngine.ts:120-124 | The second half-kick changes only the velocity, and a static body not at all |
| Hierarchical.UpdateKeepsStatics | src/physics/HierarchicalEngine.ts:91-132 | A static body ends a step with its position, velocity and acceleration unchanged; only its trail may change |
| Hierarchical.UpdateTrails | src/physics/HierarchicalEngine.ts:104-111 | A trail takes a point only when the new counter is a multiple of 3, and that point is the position after the drift; otherwise the trail is unchanged |
| Hierarchical.UpdateTrailBound | src/physics/HierarchicalEngine.ts:107-108 | Trails of at most 81 points have at most 81 points after a step |
| Hierarchical.DriftAll | src/physics/HierarchicalEngine.ts:95-102 | The drift loop changes only positions and velocities, and leaves static bodies as they were |
| Hierarchical.KickAll | src/physics/HierarchicalEngine.ts:119-124 | The kick loop changes only velocities, and leaves static bodies as they were |
| Hierarchical.DriftBodies | src/physics/HierarchicalEngine.ts:95-102 | The drift loop computes `DriftAll` |
| Hierarchical.KickBodies | src/physics/HierarchicalEngine.ts:119-124 | The kick loop computes `KickAll` |
| Hierarchical.HierarchicalEngine.CalculateAccelerations | src/physics/HierarchicalEngine.ts:129-156 | The bodies become `WithAccelerations` of the old bodies; `G` and the counter are unchanged |
| Hierarchical.HierarchicalEngine.AccelerationOf | src/physics/HierarchicalEngine.ts:134-154 | The inner loop computes the sum of the pulls of all other bodies, in index order, skipping a zero denominator |
| Hierarchical.AccelRowStep | src/physics/HierarchicalEngine.ts:140-153 | One more term of the row sum is the source's `(G m dx) / pow(s, 1.5)`, or nothing when the denominator is zero |
| Hierarchical.WithAccelerations | src/physics/HierarchicalEngine.ts:129-156 | Only accelerations change, and static bodies not at all |
| Hierarchical.PullOfSameLayout | src/physics/HierarchicalEngine.ts:136-154 | The pull on a body depends only on positions and masses |
| Hierarchical.AccelerationsOverwritten | src/physics/HierarchicalEngine.ts:130-134 | A static body's acceleration is never written. A dynamic body's is overwritten, so lists with the same positions and masses give the same values. Each is `G` times its value for `G = 1` |
| Hierarchical.PairAccelLinearInG | src/physics/HierarchicalEngine.ts:149-150 | The pair term is linear in `G` |
| Hierarchical.LinearQuotient | src/physics/HierarchicalEngine.ts:149-150 | One component of the pair term is `G` times its value for `G = 1` |
| Hierarchical.PairForceAntisymmetric | src/physics/HierarchicalEngine.ts:140-150 | The pair terms satisfy `m_i a_ij == -(m_j a_ji)`, because the denominator depends only on the squared distance |
| Hierarchical.PairAccel | src/physics/HierarchicalEngine.ts:140-153 | The pull `(G m d) / pow(|d|^2 + 5^2, 1.5)` of a source at offset `d`, or nothing when the denominator is zero. A source at the body's own position pulls with zero |
| Hierarchical.QuotientCancel | src/physics/HierarchicalEngine.ts:149-150 | One component of the two terms of a pair cancels |
| Hierarchical.HierarchicalEngine.GetTotalEnergy | src/physics/HierarchicalEngine.ts:158-183 | The result is kinetic energy plus the softened potential of every unordered pair; the method changes nothing |
| Hierarchical.KineticSum | src/physics/HierarchicalEngine.ts:162-165 | The kinetic loop computes the kinetic energy |
| Hierarchical.HierarchicalEngine.AddRowPotential | src/physics/HierarchicalEngine.ts:168-179 | The inner loop adds the softened potential of every pair `(i, j)` with `j > i` |
| Hierarchical.PairPotential | src/physics/HierarchicalEngine.ts:172-178 | The potential of a pair at the softened distance `sqrt(|d|^2 + 5^2)`. For non-negative `G` and masses it is never positive |
| Hierarchical.RowPotentialNonPositive | src/physics/HierarchicalEngine.ts:168-179 | For non-negative `G` and masses, the softened potential of a row of pairs is never positive |
| Hierarchical.PotentialNonPositiveSum | src/physics/HierarchicalEngine.ts:167-180 | For non-negative `G` and masses, the softened potential of all unordered pairs is never positive |
| Hierarchical.TotalEnergy | src/physics/HierarchicalEngine.ts:158-183 | Kinetic plus softened potential energy. For non-negative `G` and masses it is at most the kinetic energy |
| Hierarchical.SoftenedDistSq | src/physics/HierarchicalEngine.ts:174-176 | The softened squared distance is at least `5^2` |
| Hierarchical.CoincidentPairPotential | src/physics/HierarchicalEngine.ts:174-178 | Two coincident bodies have the finite potential of two bodies 5 apart |
| Hierarchical.CoincidentDistSq | src/physics/HierarchicalEngine.ts:174-176 | Two coincident bodies have softened squared distance `5^2` |
| Hierarchical.SoftenedPotentialBounded | src/physics/HierarchicalEngine.ts:174-178 | For non-negative `G` and masses, no pair has less potential than a coincident pair |
| Hierarchical.SofteningRoot | src/physics/HierarchicalEngine.ts:174-176 | The root of `5^2` is 5 |
| Hierarchical.HierarchicalEngine.SetGravity | src/physics/HierarchicalEngine.ts:185-187 | `G` takes the new value; the bodies and the counter are unchanged |

## Left out

- The React hooks, the components and the preset tables are not part of this model. The hooks drive the engines with several micro-steps per frame; the components are drawing code; the presets are constant data.
- Floating point is not modelled. Numbers are `real`, so rounding, NaN, Infinity and energy drift do not arise. A zero denominator is a modelled branch only where the source tests for it.
- `Math.sqrt` and `Math.pow` are parameters. `sqrt` obeys only its square law for non-negative arguments; `pow` obeys no law, and its only use is guarded by the source's zero test.
- `Hierarchical.HierarchicalEngine.Update`, `Hierarchical.HierarchicalEngine.HandleCollisions` and `Collisions.Collide`: the model requires every mass to be positive (`PositiveMasses`). So do `Collisions.PushApart`, `Collisions.Bounce`, `Collisions.ResolvePair`, `Collisions.ResolveRow`, `Collisions.ResolveFrom`, `Collisions.Resolved`, `Hierarchical.Stepped` and the lemmas about `Hierarchical.Stepped`. The code never checks masses. A zero mass in an overlapping dynamic pair makes the push share or the impulse divide by zero. The requirement also excludes lists the code handles: lists whose zero-mass bodies are static, or never overlap another body.
- The JSON deep copy on construction and in `setBodies` is modelled as value semantics: bodies are datatype values, so nothing is shared with the caller. Object identity and aliasing are therefore not modelled.
- The cosmetic and bookkeeping fields of a body are not part of this model: colour, icon, label, note, parent key and orbit radius.
- `Collisions.Collide`: the pair treatment is a function on two body values, and the loop writes both results back into the list. The source instead updates the two bodies' components in place, one assignment at a time. Component order cannot matter, because each assignment reads only the normal and values fixed before the assignments start.
- Several loops are written as separate methods, each proved against the function that specifies it. The inner loops are `AccelerationOf`, `AddRowPotential` and `CollideRow`. The outer loops are `KineticSum`, `MassSums`, `ShiftBodies`, `DriftBodies`, `KickBodies` and `SampleTrails`. In the source these loops are inline in their callers.
- `Hierarchical.HierarchicalEngine.AccelerationOf` computes each pull component through `Pull`, which is the source's expression `(G m dx) / denominator`.
- `velocity.x ** 2` in the anchored engine's energy is modelled as `velocity.x * velocity.x`.
- `addBody`, `loadBodies`, a `setGravity` on `PhysicsEngine` and a `setBodies` on `HierarchicalEngine` do not exist in these files and are not modelled.
