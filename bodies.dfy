/** The record shapes both engines work on (a 2D vector and a body), the vector
    arithmetic they use component by component, and the mass-weighted sums over
    a list of bodies. */
module Bodies {

  /** A 2D vector: a position, velocity, acceleration or trail point. */
  datatype Vector2 = Vector2(x: real, y: real)

  const Zero := Vector2(0.0, 0.0)

  function Add(u: Vector2, v: Vector2): Vector2 { Vector2(u.x + v.x, u.y + v.y) }

  function Sub(u: Vector2, v: Vector2): Vector2 { Vector2(u.x - v.x, u.y - v.y) }

  function Neg(u: Vector2): Vector2 { Vector2(-u.x, -u.y) }

  /** Every component multiplied by `s` (the source writes `v.x * s`). */
  function Scale(u: Vector2, s: real): Vector2 { Vector2(u.x * s, u.y * s) }

  /** Every component divided by `s` (the source writes `v.x / s`). */
  function Div(u: Vector2, s: real): Vector2
    requires s != 0.0
  {
    Vector2(u.x / s, u.y / s)
  }

  function Dot(u: Vector2, v: Vector2): real { u.x * v.x + u.y * v.y }

  /** The squared length `x*x + y*y`. */
  function NormSq(u: Vector2): (r: real)
    ensures r >= 0.0
  {
    u.x * u.x + u.y * u.y
  }

  /** Reversing a vector keeps its length. */
  lemma NormSqNeg(u: Vector2)
    ensures NormSq(Neg(u)) == NormSq(u)
  {
  }

  /** A simulated body. The cosmetic fields (colour, icon, label, note) and the
      orbital bookkeeping (parentKey, orbitRadius) play no part in the physics
      and are not modelled; an absent `isStatic` is `false`. */
  datatype Body = Body(
    id: int,
    mass: real,
    position: Vector2,
    velocity: Vector2,
    acceleration: Vector2,
    radius: real,
    trail: seq<Vector2>,
    isStatic: bool)

  /** `r` holds the same bodies as `bs` in the same order: identity, mass,
      radius and the static flag agree one by one. */
  predicate SameBodies(bs: seq<Body>, r: seq<Body>) {
    |r| == |bs| &&
    forall k :: 0 <= k < |bs| ==>
      r[k].id == bs[k].id && r[k].mass == bs[k].mass &&
      r[k].radius == bs[k].radius && r[k].isStatic == bs[k].isStatic
  }

  /** Every mass is zero or more. */
  predicate NonNegativeMasses(bs: seq<Body>) {
    forall k :: 0 <= k < |bs| ==> bs[k].mass >= 0.0
  }

  /** Every mass is positive. The code never checks this; the collision pass
      divides by the masses of an overlapping dynamic pair. */
  predicate PositiveMasses(bs: seq<Body>) {
    forall k :: 0 <= k < |bs| ==> bs[k].mass > 0.0
  }

  /** Sum of the masses, accumulated front to back. */
  function TotalMass(bs: seq<Body>): real {
    if bs == [] then 0.0 else TotalMass(bs[..|bs| - 1]) + bs[|bs| - 1].mass
  }

  /** Sum of mass times position (the mass moment; divided by the total mass
      it is the barycentre). */
  function MassMoment(bs: seq<Body>): Vector2 {
    if bs == [] then Zero
    else Add(MassMoment(bs[..|bs| - 1]), Scale(bs[|bs| - 1].position, bs[|bs| - 1].mass))
  }

  /** Sum of mass times velocity (the total momentum). */
  function Momentum(bs: seq<Body>): Vector2 {
    if bs == [] then Zero
    else Add(Momentum(bs[..|bs| - 1]), Scale(bs[|bs| - 1].velocity, bs[|bs| - 1].mass))
  }

  /** Sum of mass times stored acceleration (the net force on the system). */
  function ForceSum(bs: seq<Body>): Vector2 {
    if bs == [] then Zero
    else Add(ForceSum(bs[..|bs| - 1]), Scale(bs[|bs| - 1].acceleration, bs[|bs| - 1].mass))
  }

  /** Sum of `0.5 * mass * |velocity|^2`, accumulated front to back. */
  function KineticEnergy(bs: seq<Body>): real {
    if bs == [] then 0.0
    else KineticEnergy(bs[..|bs| - 1]) + 0.5 * bs[|bs| - 1].mass * NormSq(bs[|bs| - 1].velocity)
  }

  /** Newtonian potential energy `-G m_a m_b / dist` of two masses `dist` apart. */
  function PotentialAt(G: real, massA: real, massB: real, dist: real): real
    requires dist != 0.0
  {
    -((G * massA * massB) / dist)
  }

  /** Between non-negative masses and a non-negative `G` the potential at a
      positive distance is never positive: gravity only binds. */
  lemma PotentialNonPositive(G: real, massA: real, massB: real, dist: real)
    requires dist > 0.0
    ensures G >= 0.0 && massA >= 0.0 && massB >= 0.0 ==> PotentialAt(G, massA, massB, dist) <= 0.0
  {
    if G >= 0.0 && massA >= 0.0 && massB >= 0.0 {
      var x := G * massA * massB;
      assert G * massA >= 0.0;
      assert x >= 0.0;
      var q := x / dist;
      assert q * dist == x;
      assert q >= 0.0;
    }
  }

  /** Between non-negative masses and a non-negative `G` the potential never
      decreases as the distance grows. */
  lemma PotentialGrowsWithDistance(G: real, massA: real, massB: real, near: real, far: real)
    requires G >= 0.0 && massA >= 0.0 && massB >= 0.0 && 0.0 < near <= far
    ensures PotentialAt(G, massA, massB, near) <= PotentialAt(G, massA, massB, far)
  {
    var x := G * massA * massB;
    assert G * massA >= 0.0;
    assert x >= 0.0;
    var qn, qf := x / near, x / far;
    assert qf * far == x && qn * near == x && qf >= 0.0;
    assert qf * far - qf * near == qf * (far - near) >= 0.0;
    var d := qf - qn;
    assert d * near == qf * near - qn * near <= 0.0;
    assert d <= 0.0;
    assert PotentialAt(G, massA, massB, near) == -qn;
    assert PotentialAt(G, massA, massB, far) == -qf;
  }

  /** One more body in the kinetic sum. */
  lemma KineticStep(bs: seq<Body>, i: nat)
    requires i < |bs|
    ensures KineticEnergy(bs[..i + 1]) == KineticEnergy(bs[..i]) + 0.5 * bs[i].mass * NormSq(bs[i].velocity)
  {
    var front := bs[..i + 1];
    assert front[..i] == bs[..i] && front[i] == bs[i];
  }

  /** Kinetic energy is never negative when no mass is negative. */
  lemma {:induction false} KineticNonNegative(bs: seq<Body>)
    requires NonNegativeMasses(bs)
    ensures KineticEnergy(bs) >= 0.0
  {
    if bs != [] {
      var front := bs[..|bs| - 1];
      KineticNonNegative(front);
      var last := bs[|bs| - 1];
      var v2 := NormSq(last.velocity);
      assert 0.5 * last.mass * v2 >= 0.0 by {
        assert last.mass >= 0.0 && v2 >= 0.0;
      }
    }
  }

  /** Two lists of the same bodies have the same total mass. */
  lemma {:induction false} TotalMassOfSameBodies(bs: seq<Body>, r: seq<Body>)
    requires SameBodies(bs, r)
    ensures TotalMass(r) == TotalMass(bs)
  {
    if bs != [] {
      TotalMassOfSameBodies(bs[..|bs| - 1], r[..|r| - 1]);
    }
  }
}
