/** The unconstrained engine (`PhysicsEngine`): every body is integrated with
    velocity Verlet under softened all-pairs gravity, trails are sampled on
    every third step, and after each step the system is recentred so that its
    barycentre sits at the origin and its total momentum is zero. */
module Physics {
  import opened Bodies
  import opened MathLib
  import opened Integrator
  import opened Sums

  /** The softening length, fixed at construction and never changed. */
  const Softening := 5.0

  /** A trail is shortened before a push only when it holds more than this. */
  const TrailLimit: nat := 50

  // ---------------------------------------------------------------------------
  // Force law

  /** Acceleration that a source of mass `m` at `q` gives a body at `p`:
      `G m (q - p) / s^3` with `s = sqrt(|q - p|^2 + Softening^2)`. */
  function PairAccel(p: Vector2, q: Vector2, m: real, G: real, math: Math): (r: Vector2)
    requires Lawful(math)
    ensures p == q ==> r == Zero
  {
    var d := Sub(q, p);
    var softenedDistSq := NormSq(d) + Softening * Softening;
    var s := math.sqrt(softenedDistSq);
    RootPositive(math, softenedDistSq);
    Scale(d, (G * m) / (s * s * s))
  }

  /** The pairwise accelerations of a body list: `(i, j)` is the pull of body
      `j` on body `i`. */
  function AccelTerms(bs: seq<Body>, G: real, math: Math): (nat, nat) -> Vector2
    requires Lawful(math)
  {
    (i: nat, j: nat) =>
      if i < |bs| && j < |bs| then PairAccel(bs[i].position, bs[j].position, bs[j].mass, G, math) else Zero
  }

  /** Acceleration on body `i` from every other body, in index order. */
  function AccelOn(bs: seq<Body>, i: nat, G: real, math: Math): Vector2
    requires Lawful(math) && i < |bs|
  {
    RowSum(AccelTerms(bs, G, math), i, |bs|)
  }

  /** The pull of body `j` on body `i` in the source's component form: the
      offsets times the factor `G m_j / s^3`. */
  lemma AccelTermAt(bs: seq<Body>, i: nat, j: nat, G: real, math: Math, dx: real, dy: real, factor: real)
    requires Lawful(math) && i < |bs| && j < |bs|
    requires dx == bs[j].position.x - bs[i].position.x && dy == bs[j].position.y - bs[i].position.y
    requires var s := math.sqrt(dx * dx + dy * dy + Softening * Softening);
      s * s * s != 0.0 && factor == (G * bs[j].mass) / (s * s * s)
    ensures AccelTerms(bs, G, math)(i, j) == Vector2(dx * factor, dy * factor)
  {
    var d := Sub(bs[j].position, bs[i].position);
    assert NormSq(d) == dx * dx + dy * dy;
    assert PairAccel(bs[i].position, bs[j].position, bs[j].mass, G, math) == Scale(d, factor);
  }

  /** Every body with its acceleration recomputed from the current positions
      and masses; nothing but accelerations changes. */
  function WithAccelerations(bs: seq<Body>, G: real, math: Math): (r: seq<Body>)
    requires Lawful(math)
    ensures |r| == |bs|
    ensures forall k :: 0 <= k < |bs| ==> r[k] == bs[k].(acceleration := r[k].acceleration)
  {
    seq(|bs|, i requires 0 <= i < |bs| => bs[i].(acceleration := AccelOn(bs, i, G, math)))
  }

  /** The pull on a body depends only on the positions and masses. */
  lemma PullOfSameLayout(bs: seq<Body>, cs: seq<Body>, i: nat, G: real, math: Math)
    requires Lawful(math) && |cs| == |bs| && i < |bs|
    requires forall k :: 0 <= k < |bs| ==> cs[k].position == bs[k].position && cs[k].mass == bs[k].mass
    ensures AccelOn(bs, i, G, math) == AccelOn(cs, i, G, math)
  {
    var T, U := AccelTerms(bs, G, math), AccelTerms(cs, G, math);
    forall j: nat | j < |bs| ensures T(i, j) == U(i, j) {
    }
    RowSumAgree(T, U, i, |bs|);
  }

  /** The pairwise force law is linear in `G`. */
  lemma PairAccelLinearInG(p: Vector2, q: Vector2, m: real, G: real, math: Math)
    requires Lawful(math)
    ensures PairAccel(p, q, m, G, math) == Scale(PairAccel(p, q, m, 1.0, math), G)
  {
    var d := Sub(q, p);
    var softenedDistSq := NormSq(d) + Softening * Softening;
    var s := math.sqrt(softenedDistSq);
    RootPositive(math, softenedDistSq);
    var c := s * s * s;
    assert (G * m) / c == ((1.0 * m) / c) * G;
  }

  /** Recomputing accelerations overwrites every one of them: nothing of the
      previous accelerations survives (two lists that agree on positions and
      masses get the same accelerations), and every result is `G` times the
      result for `G = 1`, so doubling `G` doubles every acceleration. */
  lemma AccelerationsOverwritten(bs: seq<Body>, cs: seq<Body>, G: real, math: Math)
    requires Lawful(math) && |cs| == |bs|
    requires forall k :: 0 <= k < |bs| ==> cs[k].position == bs[k].position && cs[k].mass == bs[k].mass
    ensures forall k :: 0 <= k < |bs| ==>
      WithAccelerations(bs, G, math)[k].acceleration == WithAccelerations(cs, G, math)[k].acceleration
    ensures forall k :: 0 <= k < |bs| ==>
      WithAccelerations(bs, G, math)[k].acceleration == Scale(WithAccelerations(bs, 1.0, math)[k].acceleration, G)
  {
    var T, T1 := AccelTerms(bs, G, math), AccelTerms(bs, 1.0, math);
    forall k | 0 <= k < |bs|
      ensures WithAccelerations(bs, G, math)[k].acceleration == WithAccelerations(cs, G, math)[k].acceleration
      ensures WithAccelerations(bs, G, math)[k].acceleration == Scale(WithAccelerations(bs, 1.0, math)[k].acceleration, G)
    {
      PullOfSameLayout(bs, cs, k, G, math);
      forall j: nat | j < |bs| ensures T(k, j) == Scale(T1(k, j), G) {
        PairAccelLinearInG(bs[k].position, bs[j].position, bs[j].mass, G, math);
      }
      RowSumScaled(T, T1, G, k, |bs|);
    }
  }

  // ---------------------------------------------------------------------------
  // Newton's third law: the mass-weighted accelerations sum to zero

  /** Mass of body `i` times the acceleration body `j` gives it. */
  function ForceTerms(bs: seq<Body>, G: real, math: Math): (nat, nat) -> Vector2
    requires Lawful(math)
  {
    (i: nat, j: nat) =>
      if i < |bs| && j < |bs| then Scale(PairAccel(bs[i].position, bs[j].position, bs[j].mass, G, math), bs[i].mass)
      else Zero
  }

  /** The pairwise terms are antisymmetric: `m_i a_ij == -(m_j a_ji)`. */
  lemma PairForceAntisymmetric(p: Vector2, q: Vector2, mp: real, mq: real, G: real, math: Math)
    requires Lawful(math)
    ensures Scale(PairAccel(p, q, mq, G, math), mp) == Neg(Scale(PairAccel(q, p, mp, G, math), mq))
  {
    var d := Sub(q, p);
    NormSqNeg(d);
    assert Sub(p, q) == Neg(d);
    var softenedDistSq := NormSq(d) + Softening * Softening;
    RootPositive(math, softenedDistSq);
    var s := math.sqrt(softenedDistSq);
    PairAccelAt(p, q, mq, G, math, s);
    PairAccelAt(q, p, mp, G, math, s);
    ScaledPairCancel(d, s * s * s, G, mp, mq);
  }

  /** The pull of `m` at `q` on a body at `p`, with the offset and the
      softened distance named. */
  lemma PairAccelAt(p: Vector2, q: Vector2, m: real, G: real, math: Math, s: real)
    requires Lawful(math) && s == math.sqrt(NormSq(Sub(q, p)) + Softening * Softening)
    ensures s > 0.0 && PairAccel(p, q, m, G, math) == Scale(Sub(q, p), (G * m) / (s * s * s))
  {
    RootPositive(math, NormSq(Sub(q, p)) + Softening * Softening);
  }

  /** The two terms of a pair, in the component form of the force law, cancel. */
  lemma ScaledPairCancel(d: Vector2, c: real, G: real, mp: real, mq: real)
    requires c != 0.0
    ensures Scale(Scale(d, (G * mq) / c), mp) == Neg(Scale(Scale(Neg(d), (G * mp) / c), mq))
  {
    var k := G / c;
    assert (G * mq) / c == k * mq && (G * mp) / c == k * mp;
  }

  /** The mass-weighted accelerations of the first `r` bodies are the sum of their rows of pair forces. */
  lemma {:induction false} ForceSumIsGrid(bs: seq<Body>, r: nat, G: real, math: Math)
    requires Lawful(math) && r <= |bs|
    ensures ForceSum(WithAccelerations(bs, G, math)[..r]) == GridSum(ForceTerms(bs, G, math), r, |bs|)
  {
    var w := WithAccelerations(bs, G, math);
    if r > 0 {
      ForceSumIsGrid(bs, r - 1, G, math);
      assert w[..r][..r - 1] == w[..r - 1];
      var T, U := ForceTerms(bs, G, math), AccelTerms(bs, G, math);
      var q := r - 1;
      forall j: nat | j < |bs| ensures T(q, j) == Scale(U(q, j), bs[q].mass) {
      }
      RowSumScaled(T, U, bs[q].mass, q, |bs|);
    }
  }

  /** After the accelerations are recomputed, the mass-weighted accelerations
      sum to zero: the pairwise forces cancel. */
  lemma ForceSumZero(bs: seq<Body>, G: real, math: Math)
    requires Lawful(math)
    ensures ForceSum(WithAccelerations(bs, G, math)) == Zero
  {
    var w := WithAccelerations(bs, G, math);
    var T := ForceTerms(bs, G, math);
    ForceSumIsGrid(bs, |bs|, G, math);
    assert w[..|bs|] == w;
    forall i: nat, j: nat | i < |bs| && j < |bs| ensures T(i, j) == Neg(T(j, i)) {
      PairForceAntisymmetric(bs[i].position, bs[j].position, bs[i].mass, bs[j].mass, G, math);
    }
    AntisymmetricGridZero(T, |bs|);
  }

  // ---------------------------------------------------------------------------
  // Recentring on the barycentre

  /** Every position moved by `-c` and every velocity by `-u`; the offsets
      between bodies and their relative velocities stay as they were. */
  function Shifted(bs: seq<Body>, c: Vector2, u: Vector2): (r: seq<Body>)
    ensures |r| == |bs|
    ensures forall j, k :: 0 <= j < |bs| && 0 <= k < |bs| ==>
      Sub(r[j].position, r[k].position) == Sub(bs[j].position, bs[k].position) &&
      Sub(r[j].velocity, r[k].velocity) == Sub(bs[j].velocity, bs[k].velocity)
  {
    seq(|bs|, k requires 0 <= k < |bs| =>
      bs[k].(position := Sub(bs[k].position, c), velocity := Sub(bs[k].velocity, u)))
  }

  /** The recentred system: with non-zero total mass, the barycentre is
      subtracted from every position and the mass-weighted mean velocity from
      every velocity; with total mass zero nothing changes. */
  function Recentred(bs: seq<Body>): (r: seq<Body>)
    ensures |r| == |bs|
    ensures forall k :: 0 <= k < |bs| ==>
      r[k] == bs[k].(position := r[k].position, velocity := r[k].velocity)
  {
    var totalMass := TotalMass(bs);
    if totalMass == 0.0 then bs
    else Shifted(bs, Div(MassMoment(bs), totalMass), Div(Momentum(bs), totalMass))
  }

  /** Shifting every body by `c` and `u` moves the mass moment by
      `-c * M` and the momentum by `-u * M`, `M` the unchanged total mass. */
  lemma {:induction false} ShiftedSums(bs: seq<Body>, c: Vector2, u: Vector2)
    ensures TotalMass(Shifted(bs, c, u)) == TotalMass(bs)
    ensures MassMoment(Shifted(bs, c, u)) == Sub(MassMoment(bs), Scale(c, TotalMass(bs)))
    ensures Momentum(Shifted(bs, c, u)) == Sub(Momentum(bs), Scale(u, TotalMass(bs)))
  {
    var sh := Shifted(bs, c, u);
    if bs != [] {
      var n := |bs| - 1;
      var front := bs[..n];
      assert sh[..n] == Shifted(front, c, u);
      ShiftedSums(front, c, u);
      var b := bs[n];
      assert sh[n].position == Sub(b.position, c) && sh[n].velocity == Sub(b.velocity, u) && sh[n].mass == b.mass;
      ShiftStep(MassMoment(front), c, TotalMass(front), b.position, b.mass);
      ShiftStep(Momentum(front), u, TotalMass(front), b.velocity, b.mass);
    }
  }

  /** Shifting one more body by `c`: the running sum `A - c T` grows to
      `(A + m p) - c (T + m)`. */
  lemma ShiftStep(A: Vector2, c: Vector2, T: real, p: Vector2, m: real)
    ensures Add(Sub(A, Scale(c, T)), Scale(Sub(p, c), m)) == Sub(Add(A, Scale(p, m)), Scale(c, T + m))
  {
    ShiftComponents(A, c, T, p, m);
  }

  /** `ShiftStep` coordinate by coordinate. */
  lemma ShiftComponents(A: Vector2, c: Vector2, T: real, p: Vector2, m: real)
    ensures Add(Sub(A, Scale(c, T)), Scale(Sub(p, c), m)).x == Sub(Add(A, Scale(p, m)), Scale(c, T + m)).x
    ensures Add(Sub(A, Scale(c, T)), Scale(Sub(p, c), m)).y == Sub(Add(A, Scale(p, m)), Scale(c, T + m)).y
  {
    ShiftComponent(A.x, c.x, T, p.x, m);
    ShiftComponent(A.y, c.y, T, p.y, m);
  }

  /** One coordinate of `ShiftStep`. */
  lemma ShiftComponent(a: real, d: real, T: real, q: real, m: real)
    ensures (a - d * T) + (q - d) * m == (a + q * m) - d * (T + m)
  {
    assert (q - d) * m == q * m - d * m;
    assert d * (T + m) == d * T + d * m;
  }

  /** One more body in the sums of a list. */
  lemma SumsStep(bs: seq<Body>, i: nat)
    requires i < |bs|
    ensures TotalMass(bs[..i + 1]) == TotalMass(bs[..i]) + bs[i].mass
    ensures MassMoment(bs[..i + 1]) == Add(MassMoment(bs[..i]), Scale(bs[i].position, bs[i].mass))
    ensures Momentum(bs[..i + 1]) == Add(Momentum(bs[..i]), Scale(bs[i].velocity, bs[i].mass))
  {
    var front := bs[..i + 1];
    assert front[..i] == bs[..i] && front[i] == bs[i];
  }

  /** Recentring with non-zero total mass leaves the mass moment and the
      momentum exactly zero (and the total mass as it was); with total mass
      zero it changes nothing. */
  lemma RecentreZeroes(bs: seq<Body>)
    ensures TotalMass(bs) != 0.0 ==>
      TotalMass(Recentred(bs)) == TotalMass(bs) &&
      MassMoment(Recentred(bs)) == Zero && Momentum(Recentred(bs)) == Zero
    ensures TotalMass(bs) == 0.0 ==> Recentred(bs) == bs
  {
    var total := TotalMass(bs);
    if total != 0.0 {
      var mm, p := MassMoment(bs), Momentum(bs);
      var c, u := Div(mm, total), Div(p, total);
      assert Recentred(bs) == Shifted(bs, c, u);
      ShiftedSums(bs, c, u);
      DivBack(mm, total);
      DivBack(p, total);
    }
  }

  /** Dividing by `t` and scaling back by `t` is the identity. */
  lemma DivBack(v: Vector2, t: real)
    requires t != 0.0
    ensures Sub(v, Scale(Div(v, t), t)) == Zero
  {
    assert (v.x / t) * t == v.x && (v.y / t) * t == v.y;
  }

  // ---------------------------------------------------------------------------
  // One step

  /** Half-kick and drift of every body. */
  function DriftAll(bs: seq<Body>, halfDt: real, dt: real): (r: seq<Body>)
    ensures |r| == |bs|
    ensures forall k :: 0 <= k < |bs| ==>
      r[k] == bs[k].(position := r[k].position, velocity := r[k].velocity) && r[k] == KickDrift(bs[k], halfDt, dt)
  {
    seq(|bs|, k requires 0 <= k < |bs| => KickDrift(bs[k], halfDt, dt))
  }

  /** Second half-kick of every body. */
  function KickAll(bs: seq<Body>, halfDt: real): (r: seq<Body>)
    ensures |r| == |bs|
    ensures forall k :: 0 <= k < |bs| ==>
      r[k] == bs[k].(velocity := r[k].velocity) && r[k] == Kick(bs[k], halfDt)
  {
    seq(|bs|, k requires 0 <= k < |bs| => Kick(bs[k], halfDt))
  }

  /** The bodies after the velocity-Verlet part of one `update(dt)` whose
      incremented counter is `count`, before the recentring. */
  function Integrated(bs: seq<Body>, count: nat, G: real, math: Math, dt: real): (r: seq<Body>)
    requires Lawful(math)
    ensures SameBodies(bs, r)
  {
    var halfDt := Half(dt);
    var drifted := DriftAll(bs, halfDt, dt);
    var sampled := Trailed(drifted, count, TrailLimit);
    KickAll(WithAccelerations(sampled, G, math), halfDt)
  }

  /** The bodies after one `update(dt)` whose incremented counter is `count`. */
  function Stepped(bs: seq<Body>, count: nat, G: real, math: Math, dt: real): (r: seq<Body>)
    requires Lawful(math)
    ensures SameBodies(bs, r)
  {
    Recentred(Integrated(bs, count, G, math, dt))
  }

  /** `Integrated` is the composition of the stages of a step, each taken
      from the result of the previous one. */
  lemma IntegratedInStages(bs: seq<Body>, drifted: seq<Body>, sampled: seq<Body>, kicked: seq<Body>,
                           count: nat, G: real, math: Math, dt: real)
    requires Lawful(math)
    requires drifted == DriftAll(bs, Half(dt), dt)
    requires count % 3 == 0 ==> sampled == PushTrails(drifted, TrailLimit)
    requires count % 3 != 0 ==> sampled == drifted
    requires kicked == KickAll(WithAccelerations(sampled, G, math), Half(dt))
    ensures kicked == Integrated(bs, count, G, math, dt)
  {
  }

  /** A step appends a trail point only when its counter is a multiple of
      three, and that point is the body's position after the drift, before
      the recentring; otherwise the trail is unchanged. */
  lemma UpdateTrails(bs: seq<Body>, count: nat, G: real, math: Math, dt: real)
    requires Lawful(math)
    ensures forall k :: 0 <= k < |bs| ==>
      Stepped(bs, count, G, math, dt)[k].trail ==
        if count % 3 == 0 then PushTrail(bs[k].trail, KickDrift(bs[k], Half(dt), dt).position, TrailLimit)
        else bs[k].trail
  {
  }

  /** Trails that hold at most `TrailLimit + 1` points still do after a step. */
  lemma UpdateTrailBound(bs: seq<Body>, count: nat, G: real, math: Math, dt: real)
    requires Lawful(math)
    requires forall k :: 0 <= k < |bs| ==> |bs[k].trail| <= TrailLimit + 1
    ensures forall k :: 0 <= k < |bs| ==> |Stepped(bs, count, G, math, dt)[k].trail| <= TrailLimit + 1
  {
    UpdateTrails(bs, count, G, math, dt);
  }

  /** With non-zero total mass a step ends with the barycentre at the origin
      and zero total momentum. */
  lemma UpdateRecentres(bs: seq<Body>, count: nat, G: real, math: Math, dt: real)
    requires Lawful(math) && TotalMass(bs) != 0.0
    ensures MassMoment(Stepped(bs, count, G, math, dt)) == Zero
    ensures Momentum(Stepped(bs, count, G, math, dt)) == Zero
  {
    var integrated := Integrated(bs, count, G, math, dt);
    TotalMassOfSameBodies(bs, integrated);
    RecentreZeroes(integrated);
  }

  // ---------------------------------------------------------------------------
  // Energy

  /** Potential of a pair at their raw distance; a coincident pair (distance
      not positive) contributes nothing. */
  function PairPotential(a: Body, b: Body, G: real, math: Math): real
  {
    var dist := math.sqrt(NormSq(Sub(b.position, a.position)));
    if dist > 0.0 then PotentialAt(G, a.mass, b.mass, dist) else 0.0
  }

  /** Between non-negative masses and a non-negative `G`, a pair's potential
      is never positive. */
  lemma PairPotentialNonPositive(a: Body, b: Body, G: real, math: Math)
    ensures G >= 0.0 && a.mass >= 0.0 && b.mass >= 0.0 ==> PairPotential(a, b, G, math) <= 0.0
  {
    var dist := math.sqrt(NormSq(Sub(b.position, a.position)));
    if dist > 0.0 {
      PotentialNonPositive(G, a.mass, b.mass, dist);
    }
  }

  /** Potential of the pairs `(i, j)` with `i < j < m`. */
  function RowPotential(bs: seq<Body>, i: nat, m: nat, G: real, math: Math): real
    requires i < |bs| && m <= |bs|
  {
    if m <= i + 1 then 0.0
    else RowPotential(bs, i, m - 1, G, math) + PairPotential(bs[i], bs[m - 1], G, math)
  }

  /** Potential of the pairs whose first index is below `n`, each unordered
      pair counted once. */
  function Potential(bs: seq<Body>, n: nat, G: real, math: Math): real
    requires n <= |bs|
  {
    if n == 0 then 0.0 else Potential(bs, n - 1, G, math) + RowPotential(bs, n - 1, |bs|, G, math)
  }

  /** Between non-negative masses and a non-negative `G`, the potential of a
      row of pairs is never positive. */
  lemma {:induction false} RowPotentialNonPositive(bs: seq<Body>, i: nat, m: nat, G: real, math: Math)
    requires i < |bs| && m <= |bs|
    ensures G >= 0.0 && NonNegativeMasses(bs) ==> RowPotential(bs, i, m, G, math) <= 0.0
    decreases m
  {
    if m > i + 1 {
      RowPotentialNonPositive(bs, i, m - 1, G, math);
      PairPotentialNonPositive(bs[i], bs[m - 1], G, math);
    }
  }

  /** Between non-negative masses and a non-negative `G`, the potential of
      the pairs whose first index is below `n` is never positive. */
  lemma {:induction false} PotentialNonPositiveSum(bs: seq<Body>, n: nat, G: real, math: Math)
    requires n <= |bs|
    ensures G >= 0.0 && NonNegativeMasses(bs) ==> Potential(bs, n, G, math) <= 0.0
  {
    if n > 0 {
      PotentialNonPositiveSum(bs, n - 1, G, math);
      RowPotentialNonPositive(bs, n - 1, |bs|, G, math);
    }
  }

  /** Kinetic energy plus the potential of every unordered pair. */
  function TotalEnergy(bs: seq<Body>, G: real, math: Math): (r: real)
    ensures G >= 0.0 && NonNegativeMasses(bs) ==> r <= KineticEnergy(bs)
  {
    PotentialNonPositiveSum(bs, |bs|, G, math);
    KineticEnergy(bs) + Potential(bs, |bs|, G, math)
  }

  /** One more pair of a row in the source's form: `-(G m_i m_j) / dist`,
      or nothing when the two bodies coincide. */
  lemma RowPotentialStep(bs: seq<Body>, i: nat, j: nat, G: real, math: Math, dx: real, dy: real, dist: real)
    requires i < j < |bs|
    requires dx == bs[j].position.x - bs[i].position.x && dy == bs[j].position.y - bs[i].position.y
    requires dist == math.sqrt(dx * dx + dy * dy)
    ensures RowPotential(bs, i, j + 1, G, math) ==
      RowPotential(bs, i, j, G, math) + if dist > 0.0 then -((G * bs[i].mass * bs[j].mass) / dist) else 0.0
  {
    assert dx * dx + dy * dy == NormSq(Sub(bs[j].position, bs[i].position));
  }

  /** Two coincident bodies contribute no potential energy. */
  lemma CoincidentPairNoPotential(a: Body, b: Body, G: real, math: Math)
    requires Lawful(math) && a.position == b.position
    ensures PairPotential(a, b, G, math) == 0.0
  {
    RootOfZero(math);
    assert NormSq(Sub(b.position, a.position)) == 0.0;
  }

  /** The first loop of a step: every body takes a half-kick and drifts. */
  method DriftBodies(bodies: seq<Body>, halfDt: real, dt: real) returns (bs: seq<Body>)
    ensures bs == DriftAll(bodies, halfDt, dt)
  {
    bs := bodies;
    var i := 0;
    while i < |bs|
      invariant 0 <= i <= |bs| == |bodies|
      invariant forall k :: 0 <= k < i ==> bs[k] == KickDrift(bodies[k], halfDt, dt)
      invariant forall k :: i <= k < |bs| ==> bs[k] == bodies[k]
    {
      var body := bs[i];
      var vx := body.velocity.x + body.acceleration.x * halfDt;
      var vy := body.velocity.y + body.acceleration.y * halfDt;
      var px := body.position.x + vx * dt;
      var py := body.position.y + vy * dt;
      bs := bs[i := body.(velocity := Vector2(vx, vy), position := Vector2(px, py))];
      i := i + 1;
    }
  }

  /** The last loop of a step: every body takes the second half-kick. */
  method KickBodies(bodies: seq<Body>, halfDt: real) returns (bs: seq<Body>)
    ensures bs == KickAll(bodies, halfDt)
  {
    bs := bodies;
    var i := 0;
    while i < |bs|
      invariant 0 <= i <= |bs| == |bodies|
      invariant forall k :: 0 <= k < i ==> bs[k] == Kick(bodies[k], halfDt)
      invariant forall k :: i <= k < |bs| ==> bs[k] == bodies[k]
    {
      var body := bs[i];
      var vx := body.velocity.x + body.acceleration.x * halfDt;
      var vy := body.velocity.y + body.acceleration.y * halfDt;
      bs := bs[i := body.(velocity := Vector2(vx, vy))];
      i := i + 1;
    }
  }

  /** The accumulation loop of the recentring: the total mass, the mass
      moment and the momentum of `bs`, component by component. */
  method MassSums(bs: seq<Body>) returns (totalMass: real, comX: real, comY: real, momX: real, momY: real)
    ensures totalMass == TotalMass(bs)
    ensures Vector2(comX, comY) == MassMoment(bs)
    ensures Vector2(momX, momY) == Momentum(bs)
  {
    totalMass, comX, comY, momX, momY := 0.0, 0.0, 0.0, 0.0, 0.0;
    var i := 0;
    while i < |bs|
      invariant 0 <= i <= |bs|
      invariant totalMass == TotalMass(bs[..i])
      invariant Vector2(comX, comY) == MassMoment(bs[..i])
      invariant Vector2(momX, momY) == Momentum(bs[..i])
    {
      var body := bs[i];
      SumsStep(bs, i);
      totalMass := totalMass + body.mass;
      comX := comX + body.position.x * body.mass;
      comY := comY + body.position.y * body.mass;
      momX := momX + body.velocity.x * body.mass;
      momY := momY + body.velocity.y * body.mass;
      i := i + 1;
    }
    assert bs[..|bs|] == bs;
  }

  /** The shift loop of the recentring: every position moves by `-c` and
      every velocity by `-u`. */
  method ShiftBodies(bodies: seq<Body>, c: Vector2, u: Vector2) returns (bs: seq<Body>)
    ensures bs == Shifted(bodies, c, u)
  {
    bs := bodies;
    var i := 0;
    while i < |bs|
      invariant 0 <= i <= |bs| == |bodies|
      invariant forall k :: 0 <= k < i ==>
        bs[k] == bodies[k].(position := Sub(bodies[k].position, c), velocity := Sub(bodies[k].velocity, u))
      invariant forall k :: i <= k < |bs| ==> bs[k] == bodies[k]
    {
      var body := bs[i];
      bs := bs[i := body.(position := Vector2(body.position.x - c.x, body.position.y - c.y),
                          velocity := Vector2(body.velocity.x - u.x, body.velocity.y - u.y))];
      i := i + 1;
    }
  }

  // ---------------------------------------------------------------------------
  // The engine

  class PhysicsEngine {
    var G: real
    var bodies: seq<Body>
    var stepCount: nat
    const math: Math

    /** Takes its own copy of the initial bodies (values, so nothing is shared
        with the caller). */
    constructor (initialBodies: seq<Body>, math: Math)
      ensures G == 100.0 && bodies == initialBodies && stepCount == 0 && this.math == math
    {
      G := 100.0;
      bodies := initialBodies;
      stepCount := 0;
      this.math := math;
    }

    /** One velocity-Verlet step of size `dt`, followed by recentring. */
    method Update(dt: real)
      requires Lawful(math)
      modifies this
      ensures G == old(G) && stepCount == old(stepCount) + 1
      ensures bodies == Stepped(old(bodies), stepCount, G, math, dt)
    {
      var halfDt := Half(dt);
      ghost var start := bodies;
      var bs := DriftBodies(bodies, halfDt, dt);
      ghost var drifted := bs;
      stepCount := stepCount + 1;
      if stepCount % 3 == 0 {
        bs := SampleTrails(bs, TrailLimit);
      }
      ghost var sampled := bs;
      bodies := bs;
      CalculateAccelerations();
      bodies := KickBodies(bodies, halfDt);
      IntegratedInStages(start, drifted, sampled, bodies, stepCount, G, math, dt);
      RecenterSystem();
    }

    /** Moves the barycentre to the origin and removes the total momentum,
        unless the total mass is zero. */
    method RecenterSystem()
      modifies this
      ensures G == old(G) && stepCount == old(stepCount)
      ensures bodies == Recentred(old(bodies))
    {
      var bs := bodies;
      var totalMass, comX, comY, momX, momY := MassSums(bs);

      if totalMass == 0.0 {
        return;
      }

      var centerX := comX / totalMass;
      var centerY := comY / totalMass;
      var velX := momX / totalMass;
      var velY := momY / totalMass;
      assert Vector2(centerX, centerY) == Div(MassMoment(bs), totalMass);
      assert Vector2(velX, velY) == Div(Momentum(bs), totalMass);
      bodies := ShiftBodies(bs, Vector2(centerX, centerY), Vector2(velX, velY));
    }

    /** Overwrites every acceleration with the softened pull of all other
        bodies at their current positions. */
    method CalculateAccelerations()
      requires Lawful(math)
      modifies this
      ensures G == old(G) && stepCount == old(stepCount)
      ensures bodies == WithAccelerations(old(bodies), G, math)
    {
      var bs := bodies;
      ghost var start := bodies;
      var i := 0;
      while i < |bs|
        invariant 0 <= i <= |bs| == |start|
        invariant forall k :: 0 <= k < |bs| ==> bs[k] == start[k].(acceleration := bs[k].acceleration)
        invariant forall k :: 0 <= k < i ==> bs[k].acceleration == AccelOn(start, k, G, math)
        modifies {}
      {
        var ax, ay := AccelerationOf(bs, i);
        PullOfSameLayout(bs, start, i, G, math);
        bs := bs[i := bs[i].(acceleration := Vector2(ax, ay))];
        i := i + 1;
      }
      bodies := bs;
    }

    /** The inner loop of the acceleration pass: the pull on body `i` of
        every other body of `bs`, summed in index order. */
    method AccelerationOf(bs: seq<Body>, i: nat) returns (ax: real, ay: real)
      requires Lawful(math) && i < |bs|
      ensures Vector2(ax, ay) == AccelOn(bs, i, G, math)
    {
      ax, ay := 0.0, 0.0;
      var j := 0;
      while j < |bs|
        invariant 0 <= j <= |bs|
        invariant Vector2(ax, ay) == RowSum(AccelTerms(bs, G, math), i, j)
      {
        if i != j {
          var dx := bs[j].position.x - bs[i].position.x;
          var dy := bs[j].position.y - bs[i].position.y;
          var distSq := dx * dx + dy * dy;
          var softenedDistSq := distSq + Softening * Softening;
          var softenedDist := math.sqrt(softenedDistSq);
          RootPositive(math, softenedDistSq);
          var factor := (G * bs[j].mass) / (softenedDist * softenedDist * softenedDist);
          AccelTermAt(bs, i, j, G, math, dx, dy, factor);
          ax := ax + dx * factor;
          ay := ay + dy * factor;
        }
        j := j + 1;
      }
    }

    /** Kinetic plus potential energy; changes nothing. */
    method GetTotalEnergy() returns (energy: real)
      ensures energy == TotalEnergy(bodies, G, math)
    {
      var bs := bodies;
      var kinetic, potential := 0.0, 0.0;
      var i := 0;
      while i < |bs|
        invariant 0 <= i <= |bs|
        invariant kinetic == KineticEnergy(bs[..i])
        invariant potential == Potential(bs, i, G, math)
      {
        var bodyA := bs[i];
        var vSq := bodyA.velocity.x * bodyA.velocity.x + bodyA.velocity.y * bodyA.velocity.y;
        assert vSq == NormSq(bodyA.velocity);
        KineticStep(bs, i);
        kinetic := kinetic + 0.5 * bodyA.mass * vSq;
        potential := AddRowPotential(bs, i, potential);
        i := i + 1;
      }
      assert bs[..|bs|] == bs;
      energy := kinetic + potential;
    }

    /** The inner loop of the energy sum: adds the potential of every pair
        `(i, j)` with `j > i` to `potential`. */
    method AddRowPotential(bs: seq<Body>, i: nat, potential: real) returns (r: real)
      requires i < |bs|
      ensures r == potential + RowPotential(bs, i, |bs|, G, math)
    {
      r := potential;
      var bodyA := bs[i];
      var j := i + 1;
      while j < |bs|
        invariant i + 1 <= j <= |bs|
        invariant r == potential + RowPotential(bs, i, j, G, math)
      {
        var bodyB := bs[j];
        var dx := bodyB.position.x - bodyA.position.x;
        var dy := bodyB.position.y - bodyA.position.y;
        var dist := math.sqrt(dx * dx + dy * dy);
        RowPotentialStep(bs, i, j, G, math, dx, dy, dist);
        if dist > 0.0 {
          r := r - (G * bodyA.mass * bodyB.mass) / dist;
        }
        j := j + 1;
      }
    }

    /** Replaces the bodies by (a copy of) `newBodies` and computes their
        accelerations. */
    method SetBodies(newBodies: seq<Body>)
      requires Lawful(math)
      modifies this
      ensures G == old(G) && stepCount == old(stepCount)
      ensures bodies == WithAccelerations(newBodies, G, math)
    {
      bodies := newBodies;
      CalculateAccelerations();
    }
  }
}
