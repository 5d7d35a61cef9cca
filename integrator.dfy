/** The per-body pieces of the velocity-Verlet step that both engines share:
    the half-kick, the drift, and the bounded trail that samples positions. */
module Integrator {
  import opened Bodies

  /** The half step of velocity Verlet, `0.5 * dt` in both engines. */
  function Half(dt: real): real {
    0.5 * dt
  }

  /** First half of a step: the velocity takes half a kick from the stored
      acceleration, then the position drifts with that new velocity. */
  function KickDrift(b: Body, halfDt: real, dt: real): (r: Body)
    ensures r == b.(velocity := r.velocity, position := r.position)
    ensures r.velocity == Kick(b, halfDt).velocity
  {
    var v := Add(b.velocity, Scale(b.acceleration, halfDt));
    b.(velocity := v, position := Add(b.position, Scale(v, dt)))
  }

  /** A half-kick: the velocity moves by the stored acceleration times `halfDt`. */
  function Kick(b: Body, halfDt: real): (r: Body)
    ensures r == b.(velocity := r.velocity)
    ensures Sub(r.velocity, b.velocity) == Scale(b.acceleration, halfDt)
  {
    b.(velocity := Add(b.velocity, Scale(b.acceleration, halfDt)))
  }

  /** The drift of a step of size `dt` lands where the Taylor expansion of
      velocity Verlet says, `x + v dt + a dt^2 / 2`, with the velocity at the
      half step, `v + a dt / 2`; nothing else of the body changes. */
  lemma VerletDrift(b: Body, dt: real)
    ensures KickDrift(b, 0.5 * dt, dt).position ==
      Add(Add(b.position, Scale(b.velocity, dt)), Scale(b.acceleration, 0.5 * dt * dt))
    ensures KickDrift(b, 0.5 * dt, dt).velocity == Add(b.velocity, Scale(b.acceleration, 0.5 * dt))
    ensures KickDrift(b, 0.5 * dt, dt) ==
      b.(position := KickDrift(b, 0.5 * dt, dt).position, velocity := KickDrift(b, 0.5 * dt, dt).velocity)
  {
    var h := 0.5 * dt;
    var v := Add(b.velocity, Scale(b.acceleration, h));
    assert (b.acceleration.x * h) * dt == b.acceleration.x * (h * dt);
    assert (b.acceleration.y * h) * dt == b.acceleration.y * (h * dt);
    assert Scale(v, dt) == Add(Scale(b.velocity, dt), Scale(b.acceleration, h * dt));
  }

  /** Appends `p` to a trail, first dropping the oldest point when the trail
      holds more than `limit` points. The result ends in `p`, keeps the newest
      points of the old trail in order, drops at most the oldest one and
      never grows past `limit + 1` points from a trail that had at most that. */
  function PushTrail(trail: seq<Vector2>, p: Vector2, limit: nat): (r: seq<Vector2>)
    ensures |r| > 0 && r[|r| - 1] == p
    ensures |trail| > limit ==> r[..|r| - 1] == trail[1..]
    ensures |trail| <= limit ==> r[..|r| - 1] == trail
    ensures |trail| <= limit + 1 ==> |r| <= limit + 1
  {
    (if |trail| > limit then trail[1..] else trail) + [p]
  }

  /** The bound `limit + 1` is reached: a trail of exactly `limit` points is
      not shortened, so the push leaves it one point over `limit`. */
  lemma PushTrailExceedsLimit(trail: seq<Vector2>, p: Vector2, limit: nat)
    requires |trail| == limit
    ensures |PushTrail(trail, p, limit)| == limit + 1
    ensures PushTrail(trail, p, limit) == trail + [p]
  {
  }

  /** Every body's trail takes that body's current position; only trails
      change. */
  function PushTrails(bs: seq<Body>, limit: nat): (r: seq<Body>)
    ensures |r| == |bs|
    ensures forall k :: 0 <= k < |bs| ==>
      r[k] == bs[k].(trail := PushTrail(bs[k].trail, bs[k].position, limit))
  {
    seq(|bs|, k requires 0 <= k < |bs| => bs[k].(trail := PushTrail(bs[k].trail, bs[k].position, limit)))
  }

  /** The trail pass of a step whose (already incremented) counter is `count`:
      on every third step each body's trail takes its current position,
      otherwise nothing changes. Only trails change. */
  function Trailed(bs: seq<Body>, count: nat, limit: nat): (r: seq<Body>)
    ensures |r| == |bs|
    ensures forall k :: 0 <= k < |bs| ==>
      r[k] == bs[k].(trail := r[k].trail) &&
      r[k].trail == if count % 3 == 0 then PushTrail(bs[k].trail, bs[k].position, limit) else bs[k].trail
  {
    if count % 3 == 0 then PushTrails(bs, limit) else bs
  }

  /** The trail loop of a step: every trail first loses its oldest point if it
      holds more than `limit`, then takes the body's position. */
  method SampleTrails(bodies: seq<Body>, limit: nat) returns (bs: seq<Body>)
    ensures bs == PushTrails(bodies, limit)
  {
    bs := bodies;
    var i := 0;
    while i < |bs|
      invariant 0 <= i <= |bs| == |bodies|
      invariant forall k :: 0 <= k < i ==>
        bs[k] == bodies[k].(trail := PushTrail(bodies[k].trail, bodies[k].position, limit))
      invariant forall k :: i <= k < |bs| ==> bs[k] == bodies[k]
    {
      var body := bs[i];
      var trail := body.trail;
      if |trail| > limit {
        trail := trail[1..];
      }
      trail := trail + [Vector2(body.position.x, body.position.y)];
      bs := bs[i := body.(trail := trail)];
      i := i + 1;
    }
  }
}
