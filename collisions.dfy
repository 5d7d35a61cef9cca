/** The collision pass of the anchored engine: every unordered pair of bodies
    that overlaps (closer than the sum of the radii plus a small buffer, but
    not coincident) is pushed apart along the line of centres and, when the
    two are approaching, given an impulse with a fixed coefficient of
    restitution. A static body is never moved or kicked. Pairs are visited in
    the order of the engine's nested loops, each seeing the effect of the
    pairs before it. */
module Collisions {
  import opened Bodies
  import opened MathLib

  /** The coefficient of restitution of every impulse. */
  const Restitution := 0.6

  /** The gap added to the sum of the radii before two bodies count as
      overlapping. */
  const Buffer := 2.0

  /** The distance below which two bodies overlap. */
  function MinDistance(a: Body, b: Body): real {
    a.radius + b.radius + Buffer
  }

  /** The distance between the centres, from `a` to `b`. */
  function Distance(a: Body, b: Body, math: Math): real {
    math.sqrt(NormSq(Sub(b.position, a.position)))
  }

  /** The pair is resolved only when its centres are apart but closer than
      `MinDistance`. */
  predicate Overlapping(a: Body, b: Body, math: Math) {
    Distance(a, b, math) < MinDistance(a, b) && Distance(a, b, math) > 0.0
  }

  /** The unit vector from `a` towards `b`. */
  function Normal(a: Body, b: Body, math: Math): Vector2
    requires Distance(a, b, math) != 0.0
  {
    Div(Sub(b.position, a.position), Distance(a, b, math))
  }

  /** The relative velocity of `b` with respect to `a` along `n`; negative
      when the two approach each other. */
  function ClosingSpeed(a: Body, b: Body, n: Vector2): real {
    Dot(Sub(b.velocity, a.velocity), n)
  }

  /** Moves an overlapping pair apart by `overlap` along `n`: a static body
      stays where it is and the other one takes the whole correction; two
      dynamic bodies share it, each moving by the other's share of the total
      mass; two static bodies stay put. */
  function PushApart(a: Body, b: Body, n: Vector2, overlap: real): (r: (Body, Body))
    requires a.mass > 0.0 && b.mass > 0.0
    ensures r.0 == a.(position := r.0.position) && r.1 == b.(position := r.1.position)
    ensures a.isStatic ==> r.0 == a
    ensures b.isStatic ==> r.1 == b
  {
    if a.isStatic && b.isStatic then (a, b)
    else if a.isStatic then (a, b.(position := Add(b.position, Scale(n, overlap))))
    else if b.isStatic then (a.(position := Sub(a.position, Scale(n, overlap))), b)
    else
      var totalMass := a.mass + b.mass;
      var moveA := MassShare(overlap, b.mass, totalMass);
      var moveB := MassShare(overlap, a.mass, totalMass);
      (a.(position := Sub(a.position, Scale(n, moveA))), b.(position := Add(b.position, Scale(n, moveB))))
  }

  /** The part `overlap * m / totalMass` of a correction that one body of a
      dynamic pair takes, `m` being the mass of the other body. */
  function MassShare(overlap: real, m: real, totalMass: real): real
    requires totalMass != 0.0
  {
    (overlap * m) / totalMass
  }

  /** The impulse a dynamic body of mass `m` takes from a static partner,
      treated as infinitely heavy, at closing speed `closing`. */
  function WallImpulse(closing: real, m: real): real {
    -(1.0 + Restitution) * closing * m
  }

  /** The impulse pass of a pair along `n`: nothing happens unless the pair
      approaches; a static body is never kicked and a dynamic partner of a
      static body is reflected; two dynamic bodies exchange the reduced-mass
      impulse. */
  function Bounce(a: Body, b: Body, n: Vector2): (r: (Body, Body))
    requires a.mass > 0.0 && b.mass > 0.0
    ensures r.0 == a.(velocity := r.0.velocity) && r.1 == b.(velocity := r.1.velocity)
    ensures a.isStatic ==> r.0 == a
    ensures b.isStatic ==> r.1 == b
  {
    var closing := ClosingSpeed(a, b, n);
    if closing < 0.0 then
      if a.isStatic || b.isStatic then
        (if a.isStatic then a else a.(velocity := Sub(a.velocity, Scale(n, WallImpulse(closing, a.mass) / a.mass))),
         if b.isStatic then b else b.(velocity := Add(b.velocity, Scale(n, WallImpulse(closing, b.mass) / b.mass))))
      else
        var impulse := (-(1.0 + Restitution) * closing) / (1.0 / a.mass + 1.0 / b.mass);
        (a.(velocity := Sub(a.velocity, Scale(n, impulse / a.mass))),
         b.(velocity := Add(b.velocity, Scale(n, impulse / b.mass))))
    else (a, b)
  }

  /** The whole treatment of one pair: an overlapping pair is pushed apart
      and then takes its impulse along the normal taken before the push; any
      other pair is left as it is. Only positions and velocities change, and
      a static body not at all. */
  function Collide(a: Body, b: Body, math: Math): (r: (Body, Body))
    requires a.mass > 0.0 && b.mass > 0.0
    ensures r.0 == a.(position := r.0.position, velocity := r.0.velocity)
    ensures r.1 == b.(position := r.1.position, velocity := r.1.velocity)
    ensures a.isStatic ==> r.0 == a
    ensures b.isStatic ==> r.1 == b
  {
    if Overlapping(a, b, math) then
      var n := Normal(a, b, math);
      var pushed := PushApart(a, b, n, MinDistance(a, b) - Distance(a, b, math));
      Bounce(pushed.0, pushed.1, n)
    else (a, b)
  }

  // ---------------------------------------------------------------------------
  // One pair

  /** A pair that does not overlap, because it is far apart or coincident,
      is left untouched. */
  lemma SeparatePairUntouched(a: Body, b: Body, math: Math)
    requires a.mass > 0.0 && b.mass > 0.0
    requires Distance(a, b, math) >= MinDistance(a, b) || Distance(a, b, math) == 0.0
    ensures Collide(a, b, math) == (a, b)
  {
  }

  /** Two static bodies are never changed, whatever their distance. */
  lemma StaticPairUntouched(a: Body, b: Body, math: Math)
    requires a.mass > 0.0 && b.mass > 0.0 && a.isStatic && b.isStatic
    ensures Collide(a, b, math) == (a, b)
  {
  }

  /** The normal of an overlapping pair is a unit vector and points along
      the offset: `offset == n * distance`. */
  lemma NormalIsUnit(a: Body, b: Body, math: Math)
    requires Lawful(math) && Distance(a, b, math) > 0.0
    ensures NormSq(Normal(a, b, math)) == 1.0
    ensures Sub(b.position, a.position) == Scale(Normal(a, b, math), Distance(a, b, math))
  {
    var d := Sub(b.position, a.position);
    var dist := Distance(a, b, math);
    RootLaw(math, NormSq(d));
    if NormSq(d) == 0.0 {
      RootOfZero(math);
      assert false;
    }
    var n := Normal(a, b, math);
    assert n == Vector2(d.x / dist, d.y / dist);
    assert d.x == (d.x / dist) * dist && d.y == (d.y / dist) * dist;
    UnitAfterDivision(d, dist);
  }

  /** A vector other than zero divided by its length has length one. */
  lemma UnitAfterDivision(d: Vector2, dist: real)
    requires dist > 0.0 && dist * dist == NormSq(d) && NormSq(d) > 0.0
    ensures NormSq(Div(d, dist)) == 1.0
  {
    var n := Div(d, dist);
    assert n.x * dist == d.x && n.y * dist == d.y;
    assert Sq(dist) == Sq(d.x) + Sq(d.y);
    UnitQuotients(d.x, d.y, n.x, n.y, dist);
    assert NormSq(n) == Sq(n.x) + Sq(n.y);
  }

  /** Unless both are static, pushing a pair apart by `overlap` along `n`
      moves the offset from `a` to `b` by exactly `n * overlap`. */
  lemma PushWidensOffset(a: Body, b: Body, n: Vector2, overlap: real)
    requires a.mass > 0.0 && b.mass > 0.0 && !(a.isStatic && b.isStatic)
    ensures var r := PushApart(a, b, n, overlap);
      Sub(r.1.position, r.0.position) == Add(Sub(b.position, a.position), Scale(n, overlap))
  {
    if !a.isStatic && !b.isStatic {
      var totalMass := a.mass + b.mass;
      SharesBalance(overlap, a.mass, b.mass, totalMass);
      SplitShift(a.position, b.position, n, MassShare(overlap, b.mass, totalMass),
        MassShare(overlap, a.mass, totalMass), overlap);
    }
  }

  /** Moving `p` back by `n * u` and `q` forward by `n * w` moves the offset
      from `p` to `q` by `n * (u + w)`. */
  lemma SplitShift(p: Vector2, q: Vector2, n: Vector2, u: real, w: real, overlap: real)
    requires u + w == overlap
    ensures Sub(Add(q, Scale(n, w)), Sub(p, Scale(n, u))) == Add(Sub(q, p), Scale(n, overlap))
  {
    assert n.x * u + n.x * w == n.x * overlap;
    assert n.y * u + n.y * w == n.y * overlap;
  }

  /** After the pass, an overlapping pair that is not entirely static sits
      exactly `MinDistance` apart, along the normal it had before. */
  lemma PushReachesMinDistance(a: Body, b: Body, math: Math)
    requires Lawful(math) && a.mass > 0.0 && b.mass > 0.0
    requires Overlapping(a, b, math) && !(a.isStatic && b.isStatic)
    ensures var r := Collide(a, b, math);
      Sub(r.1.position, r.0.position) == Scale(Normal(a, b, math), MinDistance(a, b)) &&
      Distance(r.0, r.1, math) == MinDistance(a, b)
  {
    var r := Collide(a, b, math);
    CollideOffset(a, b, math);
    NormalIsUnit(a, b, math);
    OffsetDistance(r.0, r.1, Normal(a, b, math), MinDistance(a, b), math);
  }

  /** The offset of an overlapping pair after the pass is the normal scaled
      by `MinDistance`. */
  lemma CollideOffset(a: Body, b: Body, math: Math)
    requires Lawful(math) && a.mass > 0.0 && b.mass > 0.0
    requires Overlapping(a, b, math) && !(a.isStatic && b.isStatic)
    ensures var r := Collide(a, b, math);
      Sub(r.1.position, r.0.position) == Scale(Normal(a, b, math), MinDistance(a, b))
  {
    var n := Normal(a, b, math);
    var dist := Distance(a, b, math);
    var minD := MinDistance(a, b);
    NormalIsUnit(a, b, math);
    PushWidensOffset(a, b, n, minD - dist);
    ScaleSplit(n, dist, minD);
    CollideMovesAsPush(a, b, math);
  }

  /** An overlapping pair ends the pass where the push put it: the impulse
      changes velocities only. */
  lemma CollideMovesAsPush(a: Body, b: Body, math: Math)
    requires a.mass > 0.0 && b.mass > 0.0 && Overlapping(a, b, math)
    ensures var pushed := PushApart(a, b, Normal(a, b, math), MinDistance(a, b) - Distance(a, b, math));
      var r := Collide(a, b, math);
      r.0.position == pushed.0.position && r.1.position == pushed.1.position
  {
  }

  /** `n * dist + n * (minD - dist) == n * minD`. */
  lemma ScaleSplit(n: Vector2, dist: real, minD: real)
    ensures Add(Scale(n, dist), Scale(n, minD - dist)) == Scale(n, minD)
  {
    assert n.x * dist + n.x * (minD - dist) == n.x * minD;
    assert n.y * dist + n.y * (minD - dist) == n.y * minD;
  }

  /** Two bodies whose offset is a unit vector scaled by `s >= 0` are `s`
      apart. */
  lemma OffsetDistance(p: Body, q: Body, n: Vector2, s: real, math: Math)
    requires Lawful(math) && NormSq(n) == 1.0 && s >= 0.0
    requires Sub(q.position, p.position) == Scale(n, s)
    ensures Distance(p, q, math) == s
  {
    ScaledUnitLength(n, s);
    RootUnique(math, s * s, s);
  }

  /** A unit vector scaled by `s` has squared length `s * s`. */
  lemma ScaledUnitLength(n: Vector2, s: real)
    requires NormSq(n) == 1.0
    ensures NormSq(Scale(n, s)) == s * s
  {
    assert Sq(n.x) + Sq(n.y) == 1.0;
    ScaledUnit(n.x, n.y, s);
    assert NormSq(Scale(n, s)) == Sq(n.x * s) + Sq(n.y * s);
    assert Sq(s) == s * s;
  }

  /** Pushing two dynamic bodies apart keeps their mass-weighted position
      sum, hence their barycentre: the heavier body moves less. */
  lemma PushKeepsBarycentre(a: Body, b: Body, n: Vector2, overlap: real)
    requires a.mass > 0.0 && b.mass > 0.0 && !a.isStatic && !b.isStatic
    ensures var r := PushApart(a, b, n, overlap);
      Add(Scale(r.0.position, a.mass), Scale(r.1.position, b.mass)) ==
      Add(Scale(a.position, a.mass), Scale(b.position, b.mass))
  {
    var totalMass := a.mass + b.mass;
    SharesBalance(overlap, a.mass, b.mass, totalMass);
    BalancedShift(a.position, b.position, n, a.mass, b.mass,
      MassShare(overlap, b.mass, totalMass), MassShare(overlap, a.mass, totalMass));
  }

  /** The two shares of a correction add up to the whole of it and weigh the
      same: the mass of each body times its share is the same product. */
  lemma SharesBalance(overlap: real, ma: real, mb: real, totalMass: real)
    requires ma > 0.0 && mb > 0.0 && totalMass == ma + mb
    ensures ma * MassShare(overlap, mb, totalMass) == mb * MassShare(overlap, ma, totalMass)
    ensures MassShare(overlap, mb, totalMass) + MassShare(overlap, ma, totalMass) == overlap
  {
    var u := MassShare(overlap, mb, totalMass);
    var w := MassShare(overlap, ma, totalMass);
    assert ma * u == (ma * overlap * mb) / totalMass;
    assert mb * w == (mb * overlap * ma) / totalMass;
    assert u + w == (overlap * mb + overlap * ma) / totalMass;
    assert overlap * mb + overlap * ma == overlap * totalMass;
  }

  /** Opposite moves that weigh the same keep the mass-weighted sum of two positions. */
  lemma BalancedShift(p: Vector2, q: Vector2, n: Vector2, ma: real, mb: real, u: real, w: real)
    requires ma * u == mb * w
    ensures Add(Scale(Sub(p, Scale(n, u)), ma), Scale(Add(q, Scale(n, w)), mb)) ==
            Add(Scale(p, ma), Scale(q, mb))
  {
    BalancedComponents(p, q, n, ma, mb, u, w);
  }

  /** `BalancedShift` coordinate by coordinate. */
  lemma BalancedComponents(p: Vector2, q: Vector2, n: Vector2, ma: real, mb: real, u: real, w: real)
    requires ma * u == mb * w
    ensures Add(Scale(Sub(p, Scale(n, u)), ma), Scale(Add(q, Scale(n, w)), mb)).x ==
            Add(Scale(p, ma), Scale(q, mb)).x
    ensures Add(Scale(Sub(p, Scale(n, u)), ma), Scale(Add(q, Scale(n, w)), mb)).y ==
            Add(Scale(p, ma), Scale(q, mb)).y
  {
    BalancedComponent(p.x, q.x, n.x, ma, mb, u, w);
    BalancedComponent(p.y, q.y, n.y, ma, mb, u, w);
  }

  /** One coordinate of `BalancedShift`. */
  lemma BalancedComponent(p: real, q: real, d: real, ma: real, mb: real, u: real, w: real)
    requires ma * u == mb * w
    ensures (p - d * u) * ma + (q + d * w) * mb == p * ma + q * mb
  {
    assert (d * u) * ma == d * (ma * u);
    assert (d * w) * mb == d * (mb * w);
  }

  /** The impulse between two dynamic bodies conserves their momentum. */
  lemma ImpulseKeepsMomentum(a: Body, b: Body, n: Vector2)
    requires a.mass > 0.0 && b.mass > 0.0 && !a.isStatic && !b.isStatic
    ensures var r := Bounce(a, b, n);
      Add(Scale(r.0.velocity, a.mass), Scale(r.1.velocity, b.mass)) ==
      Add(Scale(a.velocity, a.mass), Scale(b.velocity, b.mass))
  {
    var closing := ClosingSpeed(a, b, n);
    if closing < 0.0 {
      var impulse := (-(1.0 + Restitution) * closing) / (1.0 / a.mass + 1.0 / b.mass);
      assert a.mass * (impulse / a.mass) == b.mass * (impulse / b.mass) by {
        assert a.mass * (impulse / a.mass) == impulse;
        assert b.mass * (impulse / b.mass) == impulse;
      }
      BalancedShift(a.velocity, b.velocity, n, a.mass, b.mass, impulse / a.mass, impulse / b.mass);
    }
  }

  /** Moving the two velocities apart by `n * ka` and `n * kb` changes the
      closing speed along a unit `n` by `ka + kb`. */
  lemma ClosingShift(a: Body, b: Body, n: Vector2, va: Vector2, vb: Vector2, ka: real, kb: real)
    requires NormSq(n) == 1.0
    requires va == Sub(a.velocity, Scale(n, ka)) && vb == Add(b.velocity, Scale(n, kb))
    ensures Dot(Sub(vb, va), n) == ClosingSpeed(a, b, n) + (ka + kb)
  {
    var d := Sub(b.velocity, a.velocity);
    assert Sub(vb, va) == Add(d, Scale(n, ka + kb));
    assert Dot(Add(d, Scale(n, ka + kb)), n) == Dot(d, n) + (ka + kb) * NormSq(n);
  }

  /** Restitution: along a unit normal, an approaching pair that is not
      entirely static leaves with `-Restitution` times its closing speed; a
      pair that is not approaching keeps its velocities. */
  lemma BounceRestitution(a: Body, b: Body, n: Vector2)
    requires a.mass > 0.0 && b.mass > 0.0 && NormSq(n) == 1.0
    ensures var r := Bounce(a, b, n);
      (ClosingSpeed(a, b, n) < 0.0 && !(a.isStatic && b.isStatic) ==>
         ClosingSpeed(r.0, r.1, n) == -Restitution * ClosingSpeed(a, b, n)) &&
      (ClosingSpeed(a, b, n) >= 0.0 ==> r == (a, b))
  {
    var closing := ClosingSpeed(a, b, n);
    if closing < 0.0 && !(a.isStatic && b.isStatic) {
      if a.isStatic || b.isStatic {
        WallRestitution(a, b, n);
      } else {
        DynamicRestitution(a, b, n);
      }
    }
  }

  /** Against a static partner, the dynamic body is reflected so that the
      closing speed becomes `-Restitution` times what it was. */
  lemma WallRestitution(a: Body, b: Body, n: Vector2)
    requires a.mass > 0.0 && b.mass > 0.0 && NormSq(n) == 1.0
    requires a.isStatic != b.isStatic && ClosingSpeed(a, b, n) < 0.0
    ensures var r := Bounce(a, b, n);
      ClosingSpeed(r.0, r.1, n) == -Restitution * ClosingSpeed(a, b, n)
  {
    var closing := ClosingSpeed(a, b, n);
    var r := Bounce(a, b, n);
    var k := -(1.0 + Restitution) * closing;
    if a.isStatic {
      var w := WallImpulse(closing, b.mass);
      var kb := w / b.mass;
      assert w == k * b.mass;
      assert kb * b.mass == w;
      assert (kb - k) * b.mass == 0.0;
      assert kb == k;
      assert r.0.velocity == Sub(a.velocity, Scale(n, 0.0));
      ClosingShift(a, b, n, r.0.velocity, r.1.velocity, 0.0, kb);
    } else {
      var w := WallImpulse(closing, a.mass);
      var ka := w / a.mass;
      assert w == k * a.mass;
      assert ka * a.mass == w;
      assert (ka - k) * a.mass == 0.0;
      assert ka == k;
      assert r.1.velocity == Add(b.velocity, Scale(n, 0.0));
      ClosingShift(a, b, n, r.0.velocity, r.1.velocity, ka, 0.0);
    }
  }

  /** Two dynamic bodies that exchange the reduced-mass impulse leave with
      `-Restitution` times their closing speed. */
  lemma DynamicRestitution(a: Body, b: Body, n: Vector2)
    requires a.mass > 0.0 && b.mass > 0.0 && NormSq(n) == 1.0
    requires !a.isStatic && !b.isStatic && ClosingSpeed(a, b, n) < 0.0
    ensures var r := Bounce(a, b, n);
      ClosingSpeed(r.0, r.1, n) == -Restitution * ClosingSpeed(a, b, n)
  {
    var closing := ClosingSpeed(a, b, n);
    var r := Bounce(a, b, n);
    var impulse := (-(1.0 + Restitution) * closing) / (1.0 / a.mass + 1.0 / b.mass);
    ImpulseSplit(impulse, a.mass, b.mass, -(1.0 + Restitution) * closing);
    ClosingShift(a, b, n, r.0.velocity, r.1.velocity, impulse / a.mass, impulse / b.mass);
  }

  /** The reduced mass `m_a m_b / (m_a + m_b)` of two bodies. */
  function ReducedMass(ma: real, mb: real): real
    requires ma + mb != 0.0
  {
    (ma * mb) / (ma + mb)
  }

  /** Dividing by `1 / m_a + 1 / m_b`, as the impulse does, is multiplying by
      the reduced mass, which is positive for positive masses. */
  lemma ReducedImpulse(ma: real, mb: real, k: real)
    requires ma > 0.0 && mb > 0.0
    ensures ReducedMass(ma, mb) > 0.0
    ensures k / (1.0 / ma + 1.0 / mb) == k * ReducedMass(ma, mb)
  {
    var s := 1.0 / ma + 1.0 / mb;
    var mu := ReducedMass(ma, mb);
    var p := ma * mb;
    assert p > 0.0;
    assert mu * (ma + mb) == p;
    assert s * p == mb + ma;
    assert (mu * s) * p == mu * (s * p);
    assert (mu * s - 1.0) * p == 0.0;
    assert mu * s == 1.0;
    assert (k / s) * s == k;
    assert (k * mu) * s == k * (mu * s);
    assert (k / s - k * mu) * s == 0.0;
  }

  /** Kicking a velocity by `k` along a unit `n` changes its squared length
      by `2 k (v . n) + k^2`. */
  lemma KickedNormSq(v: Vector2, n: Vector2, k: real)
    requires NormSq(n) == 1.0
    ensures NormSq(Add(v, Scale(n, k))) == NormSq(v) + 2.0 * k * Dot(v, n) + k * k
  {
    var w := Add(v, Scale(n, k));
    assert w.x * w.x == v.x * v.x + 2.0 * k * (v.x * n.x) + k * k * (n.x * n.x);
    assert w.y * w.y == v.y * v.y + 2.0 * k * (v.y * n.y) + k * k * (n.y * n.y);
    assert k * k * (n.x * n.x) + k * k * (n.y * n.y) == k * k * NormSq(n);
  }

  /** A body of mass `m` whose velocity changes by `k` along a unit normal,
      with `m k == J`, changes `m |v|^2` by `2 J (v . n) + J k`. */
  lemma MassKick(v: Vector2, n: Vector2, m: real, k: real, J: real)
    requires NormSq(n) == 1.0 && m * k == J
    ensures m * NormSq(Add(v, Scale(n, k))) == m * NormSq(v) + 2.0 * J * Dot(v, n) + J * k
  {
    KickedNormSq(v, n, k);
    var d := Dot(v, n);
    assert m * (NormSq(v) + 2.0 * k * d + k * k) == m * NormSq(v) + 2.0 * (m * k) * d + (m * k) * k;
  }

  /** The impulse between two dynamic bodies that approach dissipates energy:
      the pair loses `(1 - Restitution^2) / 2 * mu * c^2` of kinetic energy,
      `mu` being its reduced mass and `c` its closing speed along the unit
      normal. */
  lemma BounceDissipates(a: Body, b: Body, n: Vector2)
    requires a.mass > 0.0 && b.mass > 0.0 && NormSq(n) == 1.0
    requires !a.isStatic && !b.isStatic && ClosingSpeed(a, b, n) < 0.0
    ensures var r := Bounce(a, b, n);
      KineticEnergy([r.0, r.1]) == KineticEnergy([a, b]) -
        (1.0 - Restitution * Restitution) / 2.0 * ReducedMass(a.mass, b.mass) * Sq(ClosingSpeed(a, b, n))
    ensures var r := Bounce(a, b, n);
      KineticEnergy([r.0, r.1]) < KineticEnergy([a, b])
  {
    var c := ClosingSpeed(a, b, n);
    var r := Bounce(a, b, n);
    var J := (-(1.0 + Restitution) * c) / (1.0 / a.mass + 1.0 / b.mass);
    assert r.0.velocity == Add(a.velocity, Scale(n, -(J / a.mass)));
    assert r.1.velocity == Add(b.velocity, Scale(n, J / b.mass));
    assert r.0.mass == a.mass && r.1.mass == b.mass;
    ImpulseDissipates(a, b, n, J, r.0, r.1);
  }

  /** The energy balance of the reduced-mass impulse `J` along a unit normal,
      for any two bodies `ra`, `rb` that carry its result. */
  lemma ImpulseDissipates(a: Body, b: Body, n: Vector2, J: real, ra: Body, rb: Body)
    requires a.mass > 0.0 && b.mass > 0.0 && NormSq(n) == 1.0 && ClosingSpeed(a, b, n) < 0.0
    requires J == (-(1.0 + Restitution) * ClosingSpeed(a, b, n)) / (1.0 / a.mass + 1.0 / b.mass)
    requires ra.mass == a.mass && ra.velocity == Add(a.velocity, Scale(n, -(J / a.mass)))
    requires rb.mass == b.mass && rb.velocity == Add(b.velocity, Scale(n, J / b.mass))
    ensures KineticEnergy([ra, rb]) == KineticEnergy([a, b]) -
      (1.0 - Restitution * Restitution) / 2.0 * ReducedMass(a.mass, b.mass) * Sq(ClosingSpeed(a, b, n))
    ensures KineticEnergy([ra, rb]) < KineticEnergy([a, b])
  {
    var c := ClosingSpeed(a, b, n);
    var k := -(1.0 + Restitution) * c;
    var da, db := Dot(a.velocity, n), Dot(b.velocity, n);
    var ea := a.mass * NormSq(a.velocity);
    var eb := b.mass * NormSq(b.velocity);
    ImpulseKicks(a, b, n, J, ra, rb);
    ImpulseShares(J, a.mass, b.mass, k);
    assert a.mass * NormSq(ra.velocity) + b.mass * NormSq(rb.velocity) ==
      ea + eb + 2.0 * J * (db - da) + J * (J / a.mass + J / b.mass);
    PairKinetic(a, b);
    PairKinetic(ra, rb);
    DissipatedEnergy(ea + eb, a.mass * NormSq(ra.velocity) + b.mass * NormSq(rb.velocity),
      da, db, J, k, c, ReducedMass(a.mass, b.mass));
  }

  /** Each body's `m |v|^2` after it takes its share of the impulse `J`. */
  lemma ImpulseKicks(a: Body, b: Body, n: Vector2, J: real, ra: Body, rb: Body)
    requires a.mass > 0.0 && b.mass > 0.0 && NormSq(n) == 1.0
    requires ra.velocity == Add(a.velocity, Scale(n, -(J / a.mass)))
    requires rb.velocity == Add(b.velocity, Scale(n, J / b.mass))
    ensures a.mass * NormSq(ra.velocity) ==
      a.mass * NormSq(a.velocity) + 2.0 * -J * Dot(a.velocity, n) + -J * -(J / a.mass)
    ensures b.mass * NormSq(rb.velocity) ==
      b.mass * NormSq(b.velocity) + 2.0 * J * Dot(b.velocity, n) + J * (J / b.mass)
  {
    var ka, kb := J / a.mass, J / b.mass;
    assert a.mass * ka == J && b.mass * kb == J;
    MassKick(a.velocity, n, a.mass, -ka, -J);
    MassKick(b.velocity, n, b.mass, kb, J);
  }

  /** The reduced-mass impulse for a change of closing speed `k`: its two
      shares add up to `k`, and it is `k` times the reduced mass. */
  lemma ImpulseShares(J: real, ma: real, mb: real, k: real)
    requires ma > 0.0 && mb > 0.0 && J == k / (1.0 / ma + 1.0 / mb)
    ensures J / ma + J / mb == k
    ensures J == k * ReducedMass(ma, mb) && ReducedMass(ma, mb) > 0.0
  {
    ImpulseSplit(J, ma, mb, k);
    ReducedImpulse(ma, mb, k);
  }

  /** The kinetic energy of a pair of bodies. */
  lemma PairKinetic(a: Body, b: Body)
    ensures KineticEnergy([a, b]) == 0.5 * (a.mass * NormSq(a.velocity)) + 0.5 * (b.mass * NormSq(b.velocity))
  {
    assert [a][..0] == [];
    assert KineticEnergy([a]) == 0.5 * a.mass * NormSq(a.velocity);
    assert [a, b][..1] == [a];
    assert KineticEnergy([a, b]) == KineticEnergy([a]) + 0.5 * b.mass * NormSq(b.velocity);
  }

  /** The algebra of the energy loss, over the quantities of one impulse:
      `e` and `f` are the doubled kinetic energies before and after. */
  lemma DissipatedEnergy(e: real, f: real, da: real, db: real, J: real, k: real, c: real, mu: real)
    requires f == e + 2.0 * J * (db - da) + J * k
    requires c == db - da && k == -(1.0 + Restitution) * c && J == k * mu && mu > 0.0 && c < 0.0
    ensures 0.5 * f == 0.5 * e - (1.0 - Restitution * Restitution) / 2.0 * mu * Sq(c)
    ensures 0.5 * f < 0.5 * e
  {
    assert f - e == J * (2.0 * c + k);
    assert 2.0 * c + k == (1.0 - Restitution) * c;
    assert f - e == (1.0 - Restitution) * c * (k * mu);
    assert c * (k * mu) == -(1.0 + Restitution) * mu * (c * c);
    PositiveProduct(mu, Sq(c));
  }

  /** The reduced-mass impulse divided among the two bodies adds up to the
      velocity change `k` it was computed from. */
  lemma ImpulseSplit(impulse: real, ma: real, mb: real, k: real)
    requires ma > 0.0 && mb > 0.0 && impulse == k / (1.0 / ma + 1.0 / mb)
    ensures impulse / ma + impulse / mb == k
  {
    var s := 1.0 / ma + 1.0 / mb;
    assert s > 0.0;
    assert impulse / ma + impulse / mb == impulse * s;
    assert impulse * s == k;
  }

  /** Restitution for the whole pass on an overlapping pair: along the
      normal, the closing speed after is `-Restitution` times the closing
      speed before when the pair approaches; otherwise no velocity changes. */
  lemma CollideRestitution(a: Body, b: Body, math: Math)
    requires Lawful(math) && a.mass > 0.0 && b.mass > 0.0 && Overlapping(a, b, math)
    ensures var r := Collide(a, b, math);
      var n := Normal(a, b, math);
      (ClosingSpeed(a, b, n) < 0.0 && !(a.isStatic && b.isStatic) ==>
         ClosingSpeed(r.0, r.1, n) == -Restitution * ClosingSpeed(a, b, n)) &&
      (ClosingSpeed(a, b, n) >= 0.0 ==> r.0.velocity == a.velocity && r.1.velocity == b.velocity)
  {
    var n := Normal(a, b, math);
    NormalIsUnit(a, b, math);
    var pushed := PushApart(a, b, n, MinDistance(a, b) - Distance(a, b, math));
    assert ClosingSpeed(pushed.0, pushed.1, n) == ClosingSpeed(a, b, n);
    BounceRestitution(pushed.0, pushed.1, n);
  }

  /** For two dynamic bodies the whole pass never adds kinetic energy; an
      overlapping pair that approaches loses exactly the energy of its
      impulse, `(1 - Restitution^2) / 2 * mu * c^2`. The push moves positions
      only, so it changes no kinetic energy. */
  lemma CollideDissipates(a: Body, b: Body, math: Math)
    requires Lawful(math) && a.mass > 0.0 && b.mass > 0.0 && !a.isStatic && !b.isStatic
    ensures var r := Collide(a, b, math);
      KineticEnergy([r.0, r.1]) <= KineticEnergy([a, b])
    ensures var r := Collide(a, b, math);
      Overlapping(a, b, math) && ClosingSpeed(a, b, Normal(a, b, math)) < 0.0 ==>
        KineticEnergy([r.0, r.1]) == KineticEnergy([a, b]) -
          (1.0 - Restitution * Restitution) / 2.0 * ReducedMass(a.mass, b.mass) * Sq(ClosingSpeed(a, b, Normal(a, b, math)))
  {
    if Overlapping(a, b, math) {
      var n := Normal(a, b, math);
      NormalIsUnit(a, b, math);
      var pushed := PushApart(a, b, n, MinDistance(a, b) - Distance(a, b, math));
      PairKinetic(a, b);
      PairKinetic(pushed.0, pushed.1);
      assert KineticEnergy([pushed.0, pushed.1]) == KineticEnergy([a, b]);
      assert ClosingSpeed(pushed.0, pushed.1, n) == ClosingSpeed(a, b, n);
      if ClosingSpeed(a, b, n) < 0.0 {
        BounceDissipates(pushed.0, pushed.1, n);
      }
    }
  }

  /** For two dynamic bodies the whole pass conserves momentum. */
  lemma CollideKeepsMomentum(a: Body, b: Body, math: Math)
    requires a.mass > 0.0 && b.mass > 0.0 && !a.isStatic && !b.isStatic
    ensures var r := Collide(a, b, math);
      Add(Scale(r.0.velocity, a.mass), Scale(r.1.velocity, b.mass)) ==
      Add(Scale(a.velocity, a.mass), Scale(b.velocity, b.mass))
  {
    if Overlapping(a, b, math) {
      var n := Normal(a, b, math);
      var pushed := PushApart(a, b, n, MinDistance(a, b) - Distance(a, b, math));
      ImpulseKeepsMomentum(pushed.0, pushed.1, n);
    }
  }

  // ---------------------------------------------------------------------------
  // The pass over all pairs

  /** `r` differs from `bs` only in positions and velocities, and not at all
      in static bodies. */
  predicate CollisionFramed(bs: seq<Body>, r: seq<Body>) {
    |r| == |bs| &&
    forall k :: 0 <= k < |bs| ==>
      r[k] == bs[k].(position := r[k].position, velocity := r[k].velocity) &&
      (bs[k].isStatic ==> r[k] == bs[k])
  }

  /** The pair `(i, j)` resolved in place; no other body changes. */
  function ResolvePair(bs: seq<Body>, i: nat, j: nat, math: Math): (r: seq<Body>)
    requires i < j < |bs| && PositiveMasses(bs)
    ensures CollisionFramed(bs, r) && PositiveMasses(r)
    ensures forall k :: 0 <= k < |bs| && k != i && k != j ==> r[k] == bs[k]
  {
    var c := Collide(bs[i], bs[j], math);
    bs[i := c.0][j := c.1]
  }

  /** The pairs `(i, j), (i, j + 1), ...` up to the last body, in that
      order. */
  function ResolveRow(bs: seq<Body>, i: nat, j: nat, math: Math): (r: seq<Body>)
    requires i < j <= |bs| && PositiveMasses(bs)
    ensures CollisionFramed(bs, r) && PositiveMasses(r)
    decreases |bs| - j
  {
    if j == |bs| then bs else ResolveRow(ResolvePair(bs, i, j, math), i, j + 1, math)
  }

  /** The rows of first index `i, i + 1, ...`, in that order. */
  function ResolveFrom(bs: seq<Body>, i: nat, math: Math): (r: seq<Body>)
    requires i <= |bs| && PositiveMasses(bs)
    ensures CollisionFramed(bs, r) && PositiveMasses(r)
    decreases |bs| - i
  {
    if i == |bs| then bs else ResolveFrom(ResolveRow(bs, i, i + 1, math), i + 1, math)
  }

  /** Resolving row `i` and then the rows after it is resolving from row
      `i`. */
  lemma SkipResolvedRow(bs: seq<Body>, i: nat, math: Math)
    requires i < |bs| && PositiveMasses(bs)
    ensures ResolveFrom(bs, i, math) == ResolveFrom(ResolveRow(bs, i, i + 1, math), i + 1, math)
  {
  }

  /** The whole pass: every unordered pair once, `i` ascending and then `j`. */
  function Resolved(bs: seq<Body>, math: Math): (r: seq<Body>)
    requires PositiveMasses(bs)
    ensures CollisionFramed(bs, r) && PositiveMasses(r)
  {
    ResolveFrom(bs, 0, math)
  }

  /** No pair of the list overlaps. */
  predicate NoOverlaps(bs: seq<Body>, math: Math) {
    forall i, j :: 0 <= i < j < |bs| ==> !Overlapping(bs[i], bs[j], math)
  }

  /** A row in which no pair overlaps is resolved without change. */
  lemma {:induction false} SeparateRowUntouched(bs: seq<Body>, i: nat, j: nat, math: Math)
    requires i < j <= |bs| && PositiveMasses(bs) && NoOverlaps(bs, math)
    ensures ResolveRow(bs, i, j, math) == bs
    decreases |bs| - j
  {
    if j < |bs| {
      assert ResolvePair(bs, i, j, math) == bs;
      SeparateRowUntouched(bs, i, j + 1, math);
    }
  }

  /** A list in which no pair overlaps goes through the pass unchanged. */
  lemma {:induction false} SeparateBodiesUntouched(bs: seq<Body>, i: nat, math: Math)
    requires i <= |bs| && PositiveMasses(bs) && NoOverlaps(bs, math)
    ensures ResolveFrom(bs, i, math) == bs
    decreases |bs| - i
  {
    if i < |bs| {
      SeparateRowUntouched(bs, i, i + 1, math);
      SkipUntouchedRow(bs, i, math);
      SeparateBodiesUntouched(bs, i + 1, math);
    }
  }

  /** A row that the pass leaves as it is can be skipped. */
  lemma SkipUntouchedRow(bs: seq<Body>, i: nat, math: Math)
    requires i < |bs| && PositiveMasses(bs) && ResolveRow(bs, i, i + 1, math) == bs
    ensures ResolveFrom(bs, i, math) == ResolveFrom(bs, i + 1, math)
  {
  }
}
