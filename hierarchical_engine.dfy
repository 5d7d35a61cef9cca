/** The anchored engine (`HierarchicalEngine`): static bodies (a star, say)
    are never moved or kicked and keep the acceleration they had, the others
    are integrated with velocity Verlet under softened all-pairs gravity, an
    overlap-and-impulse pass runs between the new accelerations and the second
    half-kick, trails are longer, and the system is not recentred. */
module Hierarchical {
  import opened Bodies
  import opened MathLib
  import opened Integrator
  import opened Sums
  import opened Collisions

  /** The softening length, fixed at construction and never changed. */
  const Softening := 5.0

  /** A trail is shortened before a push only when it holds more than this. */
  const TrailLimit: nat := 80

  // ---------------------------------------------------------------------------
  // Force law

  /** Acceleration that a source of mass `m` at `q` gives a body at `p`:
      `G m (q - p) / (|q - p|^2 + Softening^2)^1.5`, the power taken by
      `Math.pow`; a source whose denominator comes out zero is skipped. */
  function PairAccel(p: Vector2, q: Vector2, m: real, G: real, math: Math): (r: Vector2)
    ensures p == q ==> r == Zero
  {
    var d := Sub(q, p);
    var denominator := math.pow(NormSq(d) + Softening * Softening, 1.5);
    if denominator == 0.0 then Zero
    else Vector2(Pull(G, m, d.x, denominator), Pull(G, m, d.y, denominator))
  }

  /** One component of the pull of a mass `m` at offset component `offset`. */
  function Pull(G: real, m: real, offset: real, denominator: real): real
    requires denominator != 0.0
  {
    (G * m * offset) / denominator
  }

  /** The pairwise accelerations of a body list: `(i, j)` is the pull of body
      `j` on body `i`. */
  function AccelTerms(bs: seq<Body>, G: real, math: Math): (nat, nat) -> Vector2 {
    (i: nat, j: nat) =>
      if i < |bs| && j < |bs| then PairAccel(bs[i].position, bs[j].position, bs[j].mass, G, math) else Zero
  }

  /** Acceleration on body `i` from every other body, in index order. */
  function AccelOn(bs: seq<Body>, i: nat, G: real, math: Math): Vector2
    requires i < |bs|
  {
    RowSum(AccelTerms(bs, G, math), i, |bs|)
  }

  /** One more term of the row sum of body `i`'s pull, in the source's
      component form: nothing is added when the denominator vanishes. */
  lemma AccelRowStep(bs: seq<Body>, i: nat, j: nat, G: real, math: Math, dx: real, dy: real, denominator: real)
    requires i < |bs| && j < |bs| && i != j
    requires dx == bs[j].position.x - bs[i].position.x && dy == bs[j].position.y - bs[i].position.y
    requires denominator == math.pow(dx * dx + dy * dy + Softening * Softening, 1.5)
    ensures RowSum(AccelTerms(bs, G, math), i, j + 1) ==
      if denominator == 0.0 then RowSum(AccelTerms(bs, G, math), i, j)
      else Add(RowSum(AccelTerms(bs, G, math), i, j),
               Vector2(Pull(G, bs[j].mass, dx, denominator), Pull(G, bs[j].mass, dy, denominator)))
  {
    assert NormSq(Sub(bs[j].position, bs[i].position)) == dx * dx + dy * dy;
    assert AccelTerms(bs, G, math)(i, j) ==
      if denominator == 0.0 then Zero
      else Vector2(Pull(G, bs[j].mass, dx, denominator), Pull(G, bs[j].mass, dy, denominator));
  }

  /** Every dynamic body with its acceleration recomputed from the current
      positions and masses; a static body keeps the acceleration it had. */
  function WithAccelerations(bs: seq<Body>, G: real, math: Math): (r: seq<Body>)
    ensures |r| == |bs|
    ensures forall k :: 0 <= k < |bs| ==>
      r[k] == bs[k].(acceleration := r[k].acceleration) && (bs[k].isStatic ==> r[k] == bs[k])
  {
    seq(|bs|, i requires 0 <= i < |bs| =>
      if bs[i].isStatic then bs[i] else bs[i].(acceleration := AccelOn(bs, i, G, math)))
  }

  /** The pull on a body depends only on the positions and masses. */
  lemma PullOfSameLayout(bs: seq<Body>, cs: seq<Body>, i: nat, G: real, math: Math)
    requires |cs| == |bs| && i < |bs|
    requires forall k :: 0 <= k < |bs| ==> cs[k].position == bs[k].position && cs[k].mass == bs[k].mass
    ensures AccelOn(bs, i, G, math) == AccelOn(cs, i, G, math)
  {
    var T, U := AccelTerms(bs, G, math), AccelTerms(cs, G, math);
    forall j: nat | j < |bs| ensures T(i, j) == U(i, j) {
    }
    RowSumAgree(T, U, i, |bs|);
  }

  /** The pairwise force law is linear in `G`. */
  lemma PairAccelLinearInG(p: Vector2, q: Vector2, m: real, G: real, math: Math)
    ensures PairAccel(p, q, m, G, math) == Scale(PairAccel(p, q, m, 1.0, math), G)
  {
    var d := Sub(q, p);
    var denominator := math.pow(NormSq(d) + Softening * Softening, 1.5);
    if denominator != 0.0 {
      LinearQuotient(G, m, d.x, denominator);
      LinearQuotient(G, m, d.y, denominator);
    }
  }

  /** One component of the force law is `G` times its value for `G = 1`. */
  lemma LinearQuotient(G: real, m: real, x: real, c: real)
    requires c != 0.0
    ensures (G * m * x) / c == ((1.0 * m * x) / c) * G
  {
  }

  /** The pairwise terms are antisymmetric, `m_i a_ij == -(m_j a_ji)`: the
      offset changes sign and its length, hence the denominator, does not. */
  lemma PairForceAntisymmetric(p: Vector2, q: Vector2, mp: real, mq: real, G: real, math: Math)
    ensures Scale(PairAccel(p, q, mq, G, math), mp) == Neg(Scale(PairAccel(q, p, mp, G, math), mq))
  {
    var d := Sub(q, p);
    NormSqNeg(d);
    assert Sub(p, q) == Neg(d);
    var denominator := math.pow(NormSq(d) + Softening * Softening, 1.5);
    if denominator != 0.0 {
      QuotientCancel(G, mp, mq, d.x, denominator);
      QuotientCancel(G, mp, mq, d.y, denominator);
    }
  }

  /** One component of the two terms of a pair cancels. */
  lemma QuotientCancel(G: real, mp: real, mq: real, x: real, c: real)
    requires c != 0.0
    ensures ((G * mq * x) / c) * mp == -(((G * mp * -x) / c) * mq)
  {
    var k := G / c;
    assert (G * mq * x) / c == k * mq * x;
    assert (G * mp * -x) / c == -(k * mp * x);
  }

  /** Recomputing accelerations never touches a static body and overwrites
      every dynamic one: nothing of its previous acceleration survives (two
      lists that agree on positions, masses and static flags get the same
      accelerations for their dynamic bodies), and each is `G` times the one
      for `G = 1`. */
  lemma AccelerationsOverwritten(bs: seq<Body>, cs: seq<Body>, G: real, math: Math)
    requires |cs| == |bs|
    requires forall k :: 0 <= k < |bs| ==> cs[k].position == bs[k].position && cs[k].mass == bs[k].mass
    ensures forall k :: 0 <= k < |bs| && bs[k].isStatic ==> WithAccelerations(bs, G, math)[k] == bs[k]
    ensures forall k :: 0 <= k < |bs| && !bs[k].isStatic && !cs[k].isStatic ==>
      WithAccelerations(bs, G, math)[k].acceleration == WithAccelerations(cs, G, math)[k].acceleration
    ensures forall k :: 0 <= k < |bs| && !bs[k].isStatic ==>
      WithAccelerations(bs, G, math)[k].acceleration == Scale(WithAccelerations(bs, 1.0, math)[k].acceleration, G)
  {
    var T, T1 := AccelTerms(bs, G, math), AccelTerms(bs, 1.0, math);
    forall k | 0 <= k < |bs| && !bs[k].isStatic
      ensures !cs[k].isStatic ==>
        WithAccelerations(bs, G, math)[k].acceleration == WithAccelerations(cs, G, math)[k].acceleration
      ensures WithAccelerations(bs, G, math)[k].acceleration == Scale(WithAccelerations(bs, 1.0, math)[k].acceleration, G)
    {
      PullOfSameLayout(bs, cs, k, G, math);
      forall j: nat | j < |bs| ensures T(k, j) == Scale(T1(k, j), G) {
        PairAccelLinearInG(bs[k].position, bs[j].position, bs[j].mass, G, math);
      }
      RowSumScaled(T, T1, G, k, |bs|);
    }
  }

  // ---------------------------------------------------------------------------
  // One step

  /** Half-kick and drift of a dynamic body; a static body stays as it is. */
  function Drift(b: Body, halfDt: real, dt: real): (r: Body)
    ensures r == b.(velocity := r.velocity, position := r.position)
    ensures b.isStatic ==> r == b
  {
    if b.isStatic then b else KickDrift(b, halfDt, dt)
  }

  /** Second half-kick of a dynamic body; a static body stays as it is. */
  function SecondKick(b: Body, halfDt: real): (r: Body)
    ensures r == b.(velocity := r.velocity)
    ensures b.isStatic ==> r == b
  {
    if b.isStatic then b else Kick(b, halfDt)
  }

  /** The first loop of a step: only positions and velocities of dynamic bodies change. */
  function DriftAll(bs: seq<Body>, halfDt: real, dt: real): (r: seq<Body>)
    ensures |r| == |bs|
    ensures forall k :: 0 <= k < |bs| ==>
      r[k] == bs[k].(position := r[k].position, velocity := r[k].velocity) && r[k] == Drift(bs[k], halfDt, dt)
  {
    seq(|bs|, k requires 0 <= k < |bs| => Drift(bs[k], halfDt, dt))
  }

  /** The last loop of a step: only velocities of dynamic bodies change. */
  function KickAll(bs: seq<Body>, halfDt: real): (r: seq<Body>)
    ensures |r| == |bs|
    ensures forall k :: 0 <= k < |bs| ==>
      r[k] == bs[k].(velocity := r[k].velocity) && r[k] == SecondKick(bs[k], halfDt)
  {
    seq(|bs|, k requires 0 <= k < |bs| => SecondKick(bs[k], halfDt))
  }

  /** Only positions, velocities, accelerations and trails differ. */
  predicate SameBodiesFramed(bs: seq<Body>, r: seq<Body>) {
    |r| == |bs| &&
    forall k :: 0 <= k < |bs| ==>
      r[k] == bs[k].(position := r[k].position, velocity := r[k].velocity,
                     acceleration := r[k].acceleration, trail := r[k].trail)
  }

  /** The bodies after one `update(dt)` whose incremented counter is `count`:
      drift, trail sampling, new accelerations, the collision pass, and the
      second half-kick. */
  function Stepped(bs: seq<Body>, count: nat, G: real, math: Math, dt: real): (r: seq<Body>)
    requires PositiveMasses(bs)
    ensures SameBodiesFramed(bs, r)
  {
    var halfDt := Half(dt);
    var drifted := DriftAll(bs, halfDt, dt);
    var sampled := Trailed(drifted, count, TrailLimit);
    var accelerated := WithAccelerations(sampled, G, math);
    assert PositiveMasses(accelerated);
    KickAll(Resolved(accelerated, math), halfDt)
  }

  /** `Stepped` is the composition of the stages of a step, each taken from
      the result of the previous one. */
  lemma SteppedInStages(bs: seq<Body>, count: nat, G: real, math: Math, dt: real, halfDt: real)
    requires PositiveMasses(bs) && halfDt == Half(dt)
    requires PositiveMasses(WithAccelerations(Trailed(DriftAll(bs, halfDt, dt), count, TrailLimit), G, math))
    ensures Stepped(bs, count, G, math, dt) ==
      KickAll(Resolved(WithAccelerations(Trailed(DriftAll(bs, halfDt, dt), count, TrailLimit), G, math), math), halfDt)
  {
  }

  /** The stages before the collision pass keep every mass. */
  lemma StagesKeepMasses(bs: seq<Body>, count: nat, G: real, math: Math, halfDt: real, dt: real)
    requires PositiveMasses(bs)
    ensures PositiveMasses(WithAccelerations(Trailed(DriftAll(bs, halfDt, dt), count, TrailLimit), G, math))
  {
    var r := WithAccelerations(Trailed(DriftAll(bs, halfDt, dt), count, TrailLimit), G, math);
    forall k | 0 <= k < |r| ensures r[k].mass == bs[k].mass {
      assert Trailed(DriftAll(bs, halfDt, dt), count, TrailLimit)[k].mass == bs[k].mass;
    }
  }

  /** A step keeps the body count, every body's id, mass, radius and static
      flag, and hence the positivity of the masses. */
  lemma UpdateKeepsBodies(bs: seq<Body>, count: nat, G: real, math: Math, dt: real)
    requires PositiveMasses(bs)
    ensures SameBodies(bs, Stepped(bs, count, G, math, dt))
    ensures PositiveMasses(Stepped(bs, count, G, math, dt))
  {
  }

  /** A static body ends a step where it started, with the velocity and the
      acceleration it had: only its trail may change. */
  lemma UpdateKeepsStatics(bs: seq<Body>, count: nat, G: real, math: Math, dt: real)
    requires PositiveMasses(bs)
    ensures forall k :: 0 <= k < |bs| && bs[k].isStatic ==>
      Stepped(bs, count, G, math, dt)[k] == bs[k].(trail := Stepped(bs, count, G, math, dt)[k].trail)
  {
    var halfDt := Half(dt);
    var drifted := DriftAll(bs, halfDt, dt);
    var sampled := Trailed(drifted, count, TrailLimit);
    var accelerated := WithAccelerations(sampled, G, math);
    var resolved := Resolved(accelerated, math);
    var r := Stepped(bs, count, G, math, dt);
    forall k | 0 <= k < |bs| && bs[k].isStatic ensures r[k] == bs[k].(trail := r[k].trail) {
      assert drifted[k] == bs[k];
      assert accelerated[k] == sampled[k];
      assert resolved[k] == accelerated[k];
      assert r[k] == resolved[k];
    }
  }

  /** A step appends a trail point only when its counter is a multiple of
      three, and that point is the body's position after the drift (the
      unchanged position of a static body); otherwise the trail is unchanged.
      The collision pass and the kick do not touch trails. */
  lemma UpdateTrails(bs: seq<Body>, count: nat, G: real, math: Math, dt: real)
    requires PositiveMasses(bs)
    ensures forall k :: 0 <= k < |bs| ==>
      Stepped(bs, count, G, math, dt)[k].trail ==
        if count % 3 == 0 then PushTrail(bs[k].trail, Drift(bs[k], Half(dt), dt).position, TrailLimit)
        else bs[k].trail
  {
    var sampled := Trailed(DriftAll(bs, Half(dt), dt), count, TrailLimit);
    SampledTrails(bs, count, Half(dt), dt);
    assert PositiveMasses(WithAccelerations(sampled, G, math));
    LaterStagesKeepTrails(sampled, G, math, Half(dt));
  }

  /** The trail pass after the drift samples the drifted position. */
  lemma SampledTrails(bs: seq<Body>, count: nat, halfDt: real, dt: real)
    ensures forall k :: 0 <= k < |bs| ==>
      Trailed(DriftAll(bs, halfDt, dt), count, TrailLimit)[k].trail ==
        if count % 3 == 0 then PushTrail(bs[k].trail, Drift(bs[k], halfDt, dt).position, TrailLimit)
        else bs[k].trail
  {
    var drifted := DriftAll(bs, halfDt, dt);
    forall k | 0 <= k < |bs|
      ensures Trailed(drifted, count, TrailLimit)[k].trail ==
        if count % 3 == 0 then PushTrail(bs[k].trail, Drift(bs[k], halfDt, dt).position, TrailLimit)
        else bs[k].trail
    {
      assert drifted[k].trail == bs[k].trail;
    }
  }

  /** New accelerations, the collision pass and the second half-kick leave
      every trail as it was. */
  lemma LaterStagesKeepTrails(sampled: seq<Body>, G: real, math: Math, halfDt: real)
    requires PositiveMasses(WithAccelerations(sampled, G, math))
    ensures forall k :: 0 <= k < |sampled| ==>
      KickAll(Resolved(WithAccelerations(sampled, G, math), math), halfDt)[k].trail == sampled[k].trail
  {
    var accelerated := WithAccelerations(sampled, G, math);
    var resolved := Resolved(accelerated, math);
    forall k | 0 <= k < |sampled|
      ensures KickAll(resolved, halfDt)[k].trail == sampled[k].trail
    {
      assert KickAll(resolved, halfDt)[k].trail == resolved[k].trail;
      assert resolved[k].trail == accelerated[k].trail;
    }
  }

  /** Trails that hold at most `TrailLimit + 1` points still do after a step. */
  lemma UpdateTrailBound(bs: seq<Body>, count: nat, G: real, math: Math, dt: real)
    requires PositiveMasses(bs)
    requires forall k :: 0 <= k < |bs| ==> |bs[k].trail| <= TrailLimit + 1
    ensures forall k :: 0 <= k < |bs| ==> |Stepped(bs, count, G, math, dt)[k].trail| <= TrailLimit + 1
  {
    UpdateTrails(bs, count, G, math, dt);
  }

  // ---------------------------------------------------------------------------
  // Energy

  /** Softened potential energy of one pair: the Newtonian potential at the
      softened distance `sqrt(|b - a|^2 + Softening^2)`. */
  function PairPotential(a: Body, b: Body, G: real, math: Math): (r: real)
    requires Lawful(math)
    ensures G >= 0.0 && a.mass >= 0.0 && b.mass >= 0.0 ==> r <= 0.0
  {
    RootPositive(math, SoftenedDistSq(a, b));
    PotentialNonPositive(G, a.mass, b.mass, math.sqrt(SoftenedDistSq(a, b)));
    PotentialAt(G, a.mass, b.mass, math.sqrt(SoftenedDistSq(a, b)))
  }

  /** Squared distance of two bodies plus the squared softening length. */
  function SoftenedDistSq(a: Body, b: Body): (r: real)
    ensures r >= Softening * Softening
  {
    NormSq(Sub(b.position, a.position)) + Softening * Softening
  }

  /** Potential of the pairs `(i, j)` with `i < j < m`. */
  function RowPotential(bs: seq<Body>, i: nat, m: nat, G: real, math: Math): real
    requires Lawful(math) && i < |bs| && m <= |bs|
  {
    if m <= i + 1 then 0.0
    else RowPotential(bs, i, m - 1, G, math) + PairPotential(bs[i], bs[m - 1], G, math)
  }

  /** Potential of the pairs whose first index is below `n`, each unordered
      pair counted once. */
  function Potential(bs: seq<Body>, n: nat, G: real, math: Math): real
    requires Lawful(math) && n <= |bs|
  {
    if n == 0 then 0.0 else Potential(bs, n - 1, G, math) + RowPotential(bs, n - 1, |bs|, G, math)
  }

  /** Between non-negative masses and a non-negative `G`, the potential of a
      row of pairs is never positive. */
  lemma {:induction false} RowPotentialNonPositive(bs: seq<Body>, i: nat, m: nat, G: real, math: Math)
    requires Lawful(math) && i < |bs| && m <= |bs|
    ensures G >= 0.0 && NonNegativeMasses(bs) ==> RowPotential(bs, i, m, G, math) <= 0.0
    decreases m
  {
    if m > i + 1 {
      RowPotentialNonPositive(bs, i, m - 1, G, math);
    }
  }

  /** Between non-negative masses and a non-negative `G`, the potential of
      the pairs whose first index is below `n` is never positive. */
  lemma {:induction false} PotentialNonPositiveSum(bs: seq<Body>, n: nat, G: real, math: Math)
    requires Lawful(math) && n <= |bs|
    ensures G >= 0.0 && NonNegativeMasses(bs) ==> Potential(bs, n, G, math) <= 0.0
  {
    if n > 0 {
      PotentialNonPositiveSum(bs, n - 1, G, math);
      RowPotentialNonPositive(bs, n - 1, |bs|, G, math);
    }
  }

  /** Kinetic energy plus the softened potential of every unordered pair. */
  function TotalEnergy(bs: seq<Body>, G: real, math: Math): (r: real)
    requires Lawful(math)
    ensures G >= 0.0 && NonNegativeMasses(bs) ==> r <= KineticEnergy(bs)
  {
    PotentialNonPositiveSum(bs, |bs|, G, math);
    KineticEnergy(bs) + Potential(bs, |bs|, G, math)
  }

  /** Two coincident bodies still have a finite potential energy: the one
      they would have at the softening length. */
  lemma CoincidentPairPotential(a: Body, b: Body, G: real, math: Math)
    requires Lawful(math) && a.position == b.position
    ensures PairPotential(a, b, G, math) == PotentialAt(G, a.mass, b.mass, Softening)
  {
    CoincidentDistSq(a, b);
    SofteningRoot(math);
  }

  /** The softened squared distance of two coincident bodies is the square
      of the softening length. */
  lemma CoincidentDistSq(a: Body, b: Body)
    requires a.position == b.position
    ensures SoftenedDistSq(a, b) == Softening * Softening
  {
    assert Sub(b.position, a.position) == Zero;
  }

  /** Softening bounds the potential of a pair from below: no pair, however
      close, has less potential energy than two coincident bodies. */
  lemma SoftenedPotentialBounded(a: Body, b: Body, G: real, math: Math)
    requires Lawful(math) && G >= 0.0 && a.mass >= 0.0 && b.mass >= 0.0
    ensures PairPotential(a, b, G, math) >= PotentialAt(G, a.mass, b.mass, Softening)
  {
    var root := math.sqrt(SoftenedDistSq(a, b));
    RootLaw(math, SoftenedDistSq(a, b));
    if root < Softening {
      SquareIncreasing(root, Softening);
      assert false;
    }
    PotentialGrowsWithDistance(G, a.mass, b.mass, Softening, root);
  }

  /** The softened distance of two coincident bodies is the softening length. */
  lemma SofteningRoot(math: Math)
    requires Lawful(math)
    ensures math.sqrt(Softening * Softening) == Softening
  {
    RootUnique(math, Softening * Softening, Softening);
  }

  // ---------------------------------------------------------------------------
  // The engine

  class HierarchicalEngine {
    var G: real
    var bodies: seq<Body>
    var stepCount: nat
    const math: Math

    /** Takes its own copy of the initial bodies (values, so nothing is shared
        with the caller). */
    constructor (initialBodies: seq<Body>, math: Math)
      ensures G == 100.0 && bodies == initialBodies && stepCount == 0 && this.math == math
    {
      G := 100.0;
      bodies := initialBodies;
      stepCount := 0;
      this.math := math;
    }

    /** One velocity-Verlet step of size `dt` with the collision pass between
        the new accelerations and the second half-kick; no recentring. */
    method Update(dt: real)
      requires PositiveMasses(bodies)
      modifies this
      ensures G == old(G) && stepCount == old(stepCount) + 1
      ensures bodies == Stepped(old(bodies), stepCount, G, math, dt)
      ensures PositiveMasses(bodies)
    {
      var halfDt := Half(dt);
      ghost var start := bodies;
      var bs := DriftBodies(bodies, halfDt, dt);
      ghost var drifted := bs;
      stepCount := stepCount + 1;
      if stepCount % 3 == 0 {
        bs := SampleTrails(bs, TrailLimit);
      }
      assert bs == Trailed(drifted, stepCount, TrailLimit);
      bodies := bs;
      CalculateAccelerations();
      ghost var accelerated := bodies;
      StagesKeepMasses(start, stepCount, G, math, halfDt, dt);
      HandleCollisions();
      ghost var resolved := bodies;
      bodies := KickBodies(bodies, halfDt);
      SteppedInStages(start, stepCount, G, math, dt, halfDt);
      UpdateKeepsBodies(start, stepCount, G, math, dt);
    }

    /** Resolves every overlapping pair, `i` ascending and then `j > i`, each
        pair seeing the effect of those before it. */
    method HandleCollisions()
      requires PositiveMasses(bodies)
      modifies this
      ensures G == old(G) && stepCount == old(stepCount)
      ensures bodies == Resolved(old(bodies), math)
      ensures PositiveMasses(bodies)
    {
      var bs := bodies;
      ghost var target := Resolved(bodies, math);
      var i := 0;
      while i < |bs|
        invariant 0 <= i <= |bs| && PositiveMasses(bs)
        invariant ResolveFrom(bs, i, math) == target
        modifies {}
      {
        ghost var before := bs;
        bs := CollideRow(bs, i, math);
        SkipResolvedRow(before, i, math);
        i := i + 1;
      }
      bodies := bs;
    }

    /** Overwrites the acceleration of every dynamic body with the softened
        pull of all other bodies at their current positions; static bodies
        are skipped. */
    method CalculateAccelerations()
      modifies this
      ensures G == old(G) && stepCount == old(stepCount)
      ensures bodies == WithAccelerations(old(bodies), G, math)
    {
      var bs := bodies;
      ghost var start := bodies;
      var i := 0;
      while i < |bs|
        invariant 0 <= i <= |bs| == |start|
        invariant forall k :: 0 <= k < |bs| ==> bs[k] == start[k].(acceleration := bs[k].acceleration)
        invariant forall k :: 0 <= k < i ==> bs[k] == WithAccelerations(start, G, math)[k]
        invariant forall k :: i <= k < |bs| ==> bs[k] == start[k]
        modifies {}
      {
        if !bs[i].isStatic {
          var ax, ay := AccelerationOf(bs, i);
          PullOfSameLayout(bs, start, i, G, math);
          bs := bs[i := bs[i].(acceleration := Vector2(ax, ay))];
        }
        i := i + 1;
      }
      bodies := bs;
    }

    /** The inner loop of the acceleration pass: the pull on body `i` of
        every other body of `bs`, summed in index order. */
    method AccelerationOf(bs: seq<Body>, i: nat) returns (ax: real, ay: real)
      requires i < |bs|
      ensures Vector2(ax, ay) == AccelOn(bs, i, G, math)
    {
      ax, ay := 0.0, 0.0;
      var j := 0;
      while j < |bs|
        invariant 0 <= j <= |bs|
        invariant Vector2(ax, ay) == RowSum(AccelTerms(bs, G, math), i, j)
      {
        if i != j {
          var dx := bs[j].position.x - bs[i].position.x;
          var dy := bs[j].position.y - bs[i].position.y;
          var distSq := dx * dx + dy * dy;
          var softenedDistSq := distSq + Softening * Softening;
          var denominator := math.pow(softenedDistSq, 1.5);
          AccelRowStep(bs, i, j, G, math, dx, dy, denominator);
          if denominator != 0.0 {
            var pullX := Pull(G, bs[j].mass, dx, denominator);
            var pullY := Pull(G, bs[j].mass, dy, denominator);
            ax := ax + pullX;
            ay := ay + pullY;
          }
        }
        j := j + 1;
      }
    }

    /** Kinetic plus softened potential energy; changes nothing. */
    method GetTotalEnergy() returns (energy: real)
      requires Lawful(math)
      ensures energy == TotalEnergy(bodies, G, math)
    {
      var bs := bodies;
      var kineticEnergy := KineticSum(bs);
      var potentialEnergy := 0.0;
      var i := 0;
      while i < |bs|
        invariant 0 <= i <= |bs|
        invariant potentialEnergy == Potential(bs, i, G, math)
      {
        potentialEnergy := AddRowPotential(bs, i, potentialEnergy);
        i := i + 1;
      }
      energy := kineticEnergy + potentialEnergy;
    }

    /** The inner loop of the potential sum: adds the potential of every pair
        `(i, j)` with `j > i` to `potential`. */
    method AddRowPotential(bs: seq<Body>, i: nat, potential: real) returns (r: real)
      requires Lawful(math) && i < |bs|
      ensures r == potential + RowPotential(bs, i, |bs|, G, math)
    {
      r := potential;
      var j := i + 1;
      while j < |bs|
        invariant i + 1 <= j <= |bs|
        invariant r == potential + RowPotential(bs, i, j, G, math)
      {
        var bodyA := bs[i];
        var bodyB := bs[j];
        var dx := bodyB.position.x - bodyA.position.x;
        var dy := bodyB.position.y - bodyA.position.y;
        assert dx * dx + dy * dy == NormSq(Sub(bodyB.position, bodyA.position));
        RootPositive(math, dx * dx + dy * dy + Softening * Softening);
        var distance := math.sqrt(dx * dx + dy * dy + Softening * Softening);
        r := r - (G * bodyA.mass * bodyB.mass) / distance;
        j := j + 1;
      }
    }

    /** Sets the gravitational constant; nothing else changes. */
    method SetGravity(g: real)
      modifies this
      ensures G == g && bodies == old(bodies) && stepCount == old(stepCount)
    {
      G := g;
    }
  }

  // ---------------------------------------------------------------------------
  // The loops of a step

  /** The first loop of a step: every dynamic body takes a half-kick and
      drifts; static bodies are skipped. */
  method DriftBodies(bodies: seq<Body>, halfDt: real, dt: real) returns (bs: seq<Body>)
    ensures bs == DriftAll(bodies, halfDt, dt)
  {
    bs := bodies;
    var i := 0;
    while i < |bs|
      invariant 0 <= i <= |bs| == |bodies|
      invariant forall k :: 0 <= k < i ==> bs[k] == Drift(bodies[k], halfDt, dt)
      invariant forall k :: i <= k < |bs| ==> bs[k] == bodies[k]
    {
      var body := bs[i];
      if !body.isStatic {
        var vx := body.velocity.x + body.acceleration.x * halfDt;
        var vy := body.velocity.y + body.acceleration.y * halfDt;
        var px := body.position.x + vx * dt;
        var py := body.position.y + vy * dt;
        bs := bs[i := body.(velocity := Vector2(vx, vy), position := Vector2(px, py))];
      }
      i := i + 1;
    }
  }

  /** The inner loop of the collision pass: the pairs `(i, j)`, `j > i`, in
      ascending `j`, each written back in place. */
  method CollideRow(bodies: seq<Body>, i: nat, math: Math) returns (bs: seq<Body>)
    requires i < |bodies| && PositiveMasses(bodies)
    ensures bs == ResolveRow(bodies, i, i + 1, math) && PositiveMasses(bs)
  {
    bs := bodies;
    var j := i + 1;
    while j < |bs|
      invariant i + 1 <= j <= |bs| && PositiveMasses(bs)
      invariant ResolveRow(bs, i, j, math) == ResolveRow(bodies, i, i + 1, math)
    {
      var pair := Collide(bs[i], bs[j], math);
      assert bs[i := pair.0][j := pair.1] == ResolvePair(bs, i, j, math);
      bs := bs[i := pair.0][j := pair.1];
      j := j + 1;
    }
  }

  /** The kinetic loop of the energy: `0.5 m |v|^2` summed over all bodies. */
  method KineticSum(bs: seq<Body>) returns (kineticEnergy: real)
    ensures kineticEnergy == KineticEnergy(bs)
  {
    kineticEnergy := 0.0;
    var k := 0;
    while k < |bs|
      invariant 0 <= k <= |bs|
      invariant kineticEnergy == KineticEnergy(bs[..k])
    {
      var body := bs[k];
      var speedSq := body.velocity.x * body.velocity.x + body.velocity.y * body.velocity.y;
      assert speedSq == NormSq(body.velocity);
      KineticStep(bs, k);
      kineticEnergy := kineticEnergy + 0.5 * body.mass * speedSq;
      k := k + 1;
    }
    assert bs[..|bs|] == bs;
  }

  /** The last loop of a step: every dynamic body takes the second
      half-kick; static bodies are skipped. */
  method KickBodies(bodies: seq<Body>, halfDt: real) returns (bs: seq<Body>)
    ensures bs == KickAll(bodies, halfDt)
  {
    bs := bodies;
    var i := 0;
    while i < |bs|
      invariant 0 <= i <= |bs| == |bodies|
      invariant forall k :: 0 <= k < i ==> bs[k] == SecondKick(bodies[k], halfDt)
      invariant forall k :: i <= k < |bs| ==> bs[k] == bodies[k]
    {
      var body := bs[i];
      if !body.isStatic {
        var vx := body.velocity.x + body.acceleration.x * halfDt;
        var vy := body.velocity.y + body.acceleration.y * halfDt;
        bs := bs[i := body.(velocity := Vector2(vx, vy))];
      }
      i := i + 1;
    }
  }
}
