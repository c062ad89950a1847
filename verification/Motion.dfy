/** Server-side motion (src/realtime/mod.rs): one tick moves a record towards its target. Coordinates
    are reals; the square root is not computed but given: `d` is the distance when it is non-negative
    and its square is the squared distance. */
module Motion {
  import opened Common

  datatype Vec3 = Vec3(x: real, y: real, z: real)

  const ORIGIN := Vec3(0.0, 0.0, 0.0)
  const WORLD_BOUND_XZ := 2000.0
  const WORLD_BOUND_Y := 500.0
  const DT_SECS := 0.05

  /** The motion's speed: 3.0 when absent, clamped to `[0.1, 50]`. `NaN` survives the clamp, but its
      only use is `speed.max(0.0)`, which then yields 0. */
  function ClampSpeed(speed: Option<F32>): real {
    match speed
    case None => 3.0
    case Some(Fin(v)) => if v < 0.1 then 0.1 else if v > 50.0 then 50.0 else v
    case Some(PosInf) => 50.0
    case Some(NegInf) => 0.1
    case Some(NaN) => 0.0
  }

  function ToVec3(v: seq<F32>): Option<Vec3> {
    if |v| != 3 || !v[0].Fin? || !v[1].Fin? || !v[2].Fin? then None
    else Some(Vec3(v[0].v, v[1].v, v[2].v))
  }

  predicate InWorldBounds(p: Vec3) {
    Abs(p.x) <= WORLD_BOUND_XZ && Abs(p.z) <= WORLD_BOUND_XZ && Abs(p.y) <= WORLD_BOUND_Y
  }

  function Sq(a: real): real {
    a * a
  }

  function SquaredDistance(a: Vec3, b: Vec3): real {
    Sq(b.x - a.x) + Sq(b.y - a.y) + Sq(b.z - a.z)
  }

  ghost predicate IsDistance(d: real, a: Vec3, b: Vec3) {
    0.0 <= d && Sq(d) == SquaredDistance(a, b)
  }

  function StepLength(speed: real): real {
    (if speed > 0.0 then speed else 0.0) * DT_SECS
  }

  predicate Arrives(dist: real, step: real) {
    dist <= 0.0001 || step <= 0.000001 || dist <= step
  }

  /** The point `step` further along the way from `cur` to `target`. */
  function Advance(cur: Vec3, target: Vec3, dist: real, step: real): Vec3
    requires dist != 0.0
  {
    var inv := 1.0 / dist;
    Vec3(cur.x + (target.x - cur.x) * inv * step,
         cur.y + (target.y - cur.y) * inv * step,
         cur.z + (target.z - cur.z) * inv * step)
  }

  /** Where a tick puts the record. */
  function NextPosition(cur: Vec3, target: Vec3, dist: real, step: real): Vec3
    requires 0.0 <= dist
  {
    if Arrives(dist, step) then target else Advance(cur, target, dist, step)
  }

  // ---------------------------------------------------- arithmetic of reals

  lemma MulNonNegative(a: real, b: real)
    requires 0.0 <= a && 0.0 <= b
    ensures 0.0 <= a * b
  {
  }

  lemma MulPositive(a: real, b: real)
    requires 0.0 < a && 0.0 < b
    ensures 0.0 < a * b
  {
  }

  lemma MulAssociates(a: real, b: real, c: real)
    ensures a * b * c == a * (b * c)
  {
  }

  lemma SquareMonotone(a: real, b: real)
    requires 0.0 <= a < b
    ensures Sq(a) < Sq(b)
  {
    MulPositive(b - a, b + a);
    assert b * b - a * a == (b - a) * (b + a);
  }

  lemma FractionIsProper(dist: real, t: real, step: real)
    requires 0.0 <= step < dist && dist * t == step
    ensures 0.0 <= t <= 1.0
  {
  }

  /** The travelled fraction of the way. */
  lemma Fraction(dist: real, step: real)
    requires 0.0 <= step < dist
    ensures var t := (1.0 / dist) * step; 0.0 <= t <= 1.0 && dist * t == step
  {
    var inv := 1.0 / dist;
    assert dist * inv == 1.0;
    MulAssociates(dist, inv, step);
    FractionIsProper(dist, inv * step, step);
  }

  ghost function Mix(a: real, b: real, t: real): real {
    a + (b - a) * t
  }

  lemma BetweenInterval(a: real, b: real, t: real, bound: real)
    requires 0.0 <= t <= 1.0 && Abs(a) <= bound && Abs(b) <= bound
    ensures Abs(Mix(a, b, t)) <= bound
  {
    var m := Mix(a, b, t);
    assert b - m == (b - a) * (1.0 - t);
    if a <= b {
      MulNonNegative(b - a, t);
      MulNonNegative(b - a, 1.0 - t);
    } else {
      MulNonNegative(a - b, t);
      MulNonNegative(a - b, 1.0 - t);
      assert (b - a) * t == -((a - b) * t);
      assert (b - a) * (1.0 - t) == -((a - b) * (1.0 - t));
    }
  }

  lemma ScaleComponent(a: real, t: real)
    ensures Sq(a - a * t) == Sq(a) * Sq(1.0 - t)
  {
    var u := 1.0 - t;
    assert a - a * t == a * u;
    assert (a * u) * (a * u) == a * a * (u * u);
  }

  lemma RestOfComponent(a: real, b: real, t: real)
    ensures Sq(b - Mix(a, b, t)) == Sq(b - a) * Sq(1.0 - t)
  {
    ScaleComponent(b - a, t);
    assert b - Mix(a, b, t) == (b - a) - (b - a) * t;
  }

  lemma ScaleSum(p: real, q: real, r: real, s: real, total: real)
    requires p + q + r == total
    ensures p * s + q * s + r * s == total * s
  {
  }

  lemma ScaleDistance(dist: real, t: real, step: real)
    requires dist * t == step
    ensures Sq(dist) * Sq(1.0 - t) == Sq(dist - step)
  {
    ScaleComponent(dist, t);
  }

  // --------------------------------------------------------------- one tick

  lemma DistanceIsUnique(d: real, e: real, a: Vec3, b: Vec3)
    requires IsDistance(d, a, b) && IsDistance(e, a, b)
    ensures d == e
  {
    if d < e {
      SquareMonotone(d, e);
    } else if e < d {
      SquareMonotone(e, d);
    }
  }

  /** The point a fraction `t` of the way from `cur` to `target`. */
  ghost function Along(cur: Vec3, target: Vec3, t: real): Vec3 {
    Vec3(Mix(cur.x, target.x, t), Mix(cur.y, target.y, t), Mix(cur.z, target.z, t))
  }

  lemma AdvanceIsAlong(cur: Vec3, target: Vec3, dist: real, step: real)
    requires dist != 0.0
    ensures Advance(cur, target, dist, step) == Along(cur, target, (1.0 / dist) * step)
  {
    var inv := 1.0 / dist;
    MulAssociates(target.x - cur.x, inv, step);
    MulAssociates(target.y - cur.y, inv, step);
    MulAssociates(target.z - cur.z, inv, step);
  }

  /** What is left of the way when the fraction `t` of it is behind. */
  lemma RestOfTheWay(cur: Vec3, target: Vec3, t: real, dist: real)
    requires IsDistance(dist, cur, target)
    ensures SquaredDistance(Along(cur, target, t), target) == Sq(dist) * Sq(1.0 - t)
  {
    hide Mix, Sq;
    var a, b, c := target.x - cur.x, target.y - cur.y, target.z - cur.z;
    RestOfComponent(cur.x, target.x, t);
    RestOfComponent(cur.y, target.y, t);
    RestOfComponent(cur.z, target.z, t);
    ScaleSum(Sq(a), Sq(b), Sq(c), Sq(1.0 - t), Sq(dist));
  }

  lemma AlongStaysInWorld(cur: Vec3, target: Vec3, t: real)
    requires InWorldBounds(cur) && InWorldBounds(target) && 0.0 <= t <= 1.0
    ensures InWorldBounds(Along(cur, target, t))
  {
    hide Abs, Mix;
    BetweenInterval(cur.x, target.x, t, WORLD_BOUND_XZ);
    BetweenInterval(cur.y, target.y, t, WORLD_BOUND_Y);
    BetweenInterval(cur.z, target.z, t, WORLD_BOUND_XZ);
  }

  /** A tick that does not arrive moves exactly `step` closer: no overshoot, no sideways drift. */
  lemma TickShrinksByStep(cur: Vec3, target: Vec3, dist: real, step: real)
    requires IsDistance(dist, cur, target) && !Arrives(dist, step)
    ensures IsDistance(dist - step, NextPosition(cur, target, dist, step), target)
  {
    hide SquaredDistance, Advance, Along, Sq;
    var t := (1.0 / dist) * step;
    Fraction(dist, step);
    AdvanceIsAlong(cur, target, dist, step);
    RestOfTheWay(cur, target, t, dist);
    ScaleDistance(dist, t, step);
  }

  /** Convexity: a tick between two points of the world box stays in the box. */
  lemma TickStaysInWorld(cur: Vec3, target: Vec3, dist: real, step: real)
    requires InWorldBounds(cur) && InWorldBounds(target) && 0.0 <= dist
    ensures InWorldBounds(NextPosition(cur, target, dist, step))
  {
    hide Advance, Along, InWorldBounds;
    if !Arrives(dist, step) {
      Fraction(dist, step);
      AdvanceIsAlong(cur, target, dist, step);
      AlongStaysInWorld(cur, target, (1.0 / dist) * step);
    }
  }

  // ----------------------------------------------------------- whole flights

  function Ceil(x: real): int {
    -((-x).Floor)
  }

  /** How many ticks a goto over distance `dist` takes at `step` per tick. */
  function TicksToArrive(dist: real, step: real): nat
    requires 0.0 <= dist && 0.0 < step
  {
    var n := Ceil(dist / step);
    if n < 1 then 1 else n
  }

  lemma MulMonotone(a: real, b: real, c: real)
    requires a <= b && 0.0 < c
    ensures a * c <= b * c
    ensures a < b ==> a * c < b * c
  {
    MulNonNegative(b - a, c);
    if a < b {
      MulPositive(b - a, c);
    }
    assert (b - a) * c == b * c - a * c;
  }

  lemma Covers(q: real, a: real, m: real, step: real, dist: real)
    requires q * step == dist && 0.0 < step && q <= a
    ensures dist <= a * step
    ensures m < q ==> m * step < dist
  {
    MulMonotone(q, a, step);
    if m < q {
      MulMonotone(m, q, step);
    }
  }

  lemma Divides(dist: real, step: real)
    requires 0.0 < step
    ensures (dist / step) * step == dist
  {
  }

  /** It is the first tick count whose travelled length covers the distance. */
  lemma TicksToArriveIsFirst(dist: real, step: real)
    requires 0.0 <= dist && 0.0 < step
    ensures var n := TicksToArrive(dist, step);
            1 <= n && dist <= n as real * step && (n == 1 || (n as real - 1.0) * step < dist)
  {
    var q := dist / step;
    var n := TicksToArrive(dist, step);
    Divides(dist, step);
    assert q <= Ceil(q) as real < q + 1.0;
    Covers(q, n as real, n as real - 1.0, step, dist);
  }

  /** An arriving tick is the last one; any other leaves exactly one tick less to go. This is the
      termination measure of a motion. */
  lemma OneTickLess(dist: real, step: real)
    requires 0.0 <= dist && 0.0001 < step
    ensures Arrives(dist, step) <==> TicksToArrive(dist, step) == 1
    ensures !Arrives(dist, step) ==> TicksToArrive(dist - step, step) == TicksToArrive(dist, step) - 1
  {
    var q := dist / step;
    assert q * step == dist;
    if Arrives(dist, step) {
      if q > 1.0 {
        MulMonotone(1.0, q, step);
      }
    } else {
      if q <= 1.0 {
        MulMonotone(q, 1.0, step);
      }
      var r := (dist - step) / step;
      assert r * step == dist - step;
      assert (q - 1.0) * step == dist - step;
      if r < q - 1.0 {
        MulMonotone(r, q - 1.0, step);
      } else if q - 1.0 < r {
        MulMonotone(q - 1.0, r, step);
      }
      assert Ceil(q - 1.0) == Ceil(q) - 1;
    }
  }
}
