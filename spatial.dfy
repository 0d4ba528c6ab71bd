/** The pursuit arena: the agent ("triangle") moves by the selected action, the target
    ("ball") random-walks or teleports, and touch is proximity under 20 units. */
module Spatial {
  import opened Params

  datatype Point = Point(x: real, y: real)

  function Min(a: real, b: real): real { if a <= b then a else b }
  function Max(a: real, b: real): real { if a >= b then a else b }

  /** Math.max(0, Math.min(boxSize, v)). */
  function Clamp(v: real): (r: real)
    ensures 0.0 <= r <= BoxSize
    ensures 0.0 <= v <= BoxSize ==> r == v
    ensures v < 0.0 ==> r == 0.0
    ensures v > BoxSize ==> r == BoxSize
  {
    Max(0.0, Min(BoxSize, v))
  }

  predicate InBox(p: Point) {
    0.0 <= p.x <= BoxSize && 0.0 <= p.y <= BoxSize
  }

  /** The step of each action: up, down, left, right (y grows downwards). */
  const Moves: seq<(real, real)> := [(0.0, -5.0), (0.0, 5.0), (-5.0, 0.0), (5.0, 0.0)]

  /** The agent's move for an action, clamped to the arena on both axes. */
  function StepTriangle(p: Point, action: nat): (q: Point)
    requires action < Actions
    ensures InBox(q)
  {
    Point(Clamp(p.x + Moves[action].0), Clamp(p.y + Moves[action].1))
  }

  /** From a point in the arena, an action moves the agent along its own axis only,
      by at most 5 units in its direction, exactly 5 when that stays inside, and never out. */
  lemma StepTriangleMoves(p: Point, action: nat)
    requires action < Actions && InBox(p)
    ensures InBox(StepTriangle(p, action))
    ensures action == 0 ==> StepTriangle(p, action).x == p.x && Max(0.0, p.y - 5.0) == StepTriangle(p, action).y
    ensures action == 1 ==> StepTriangle(p, action).x == p.x && Min(BoxSize, p.y + 5.0) == StepTriangle(p, action).y
    ensures action == 2 ==> StepTriangle(p, action).y == p.y && Max(0.0, p.x - 5.0) == StepTriangle(p, action).x
    ensures action == 3 ==> StepTriangle(p, action).y == p.y && Min(BoxSize, p.x + 5.0) == StepTriangle(p, action).x
  {
  }

  /** updateBall: on touch the target teleports to (r1 * boxSize, r2 * boxSize); otherwise
      each coordinate drifts by (r - 0.5) * 4 and is clamped. r1, r2 stand for the two
      Math.random() draws, in the order the engine makes them. */
  function StepBall(p: Point, touch: bool, r1: real, r2: real): (q: Point)
    ensures !touch ==> InBox(q)
    ensures touch ==> q.x == r1 * BoxSize && q.y == r2 * BoxSize
  {
    if touch then Point(r1 * BoxSize, r2 * BoxSize)
    else Point(Clamp(p.x + (r1 - 0.5) * 4.0), Clamp(p.y + (r2 - 0.5) * 4.0))
  }

  predicate IsDraw(r: real) { 0.0 <= r < 1.0 }

  /** With draws in [0,1) the target always lands inside the arena, and without touch
      it moves at most 2 units per axis from a point inside the arena. */
  lemma StepBallInBox(p: Point, touch: bool, r1: real, r2: real)
    requires IsDraw(r1) && IsDraw(r2)
    ensures InBox(StepBall(p, touch, r1, r2))
    ensures touch ==> StepBall(p, touch, r1, r2).x < BoxSize && StepBall(p, touch, r1, r2).y < BoxSize
    ensures !touch && InBox(p) ==>
      -2.0 <= StepBall(p, touch, r1, r2).x - p.x <= 2.0 && -2.0 <= StepBall(p, touch, r1, r2).y - p.y <= 2.0
  {
  }

  /** One recorded step of the target: the touch flag and the two draws. */
  datatype BallStep = BallStep(touch: bool, r1: real, r2: real)

  /** The target after a whole sequence of steps. */
  function BallWalk(p: Point, steps: seq<BallStep>): Point
    decreases |steps|
  {
    if |steps| == 0 then p
    else BallWalk(StepBall(p, steps[0].touch, steps[0].r1, steps[0].r2), steps[1..])
  }

  /** For any sequence of steps whose draws lie in [0,1), a target that starts inside the
      arena never leaves it. */
  lemma {:induction false} BallWalkStaysInBox(p: Point, steps: seq<BallStep>)
    requires InBox(p)
    requires forall k :: 0 <= k < |steps| ==> IsDraw(steps[k].r1) && IsDraw(steps[k].r2)
    ensures InBox(BallWalk(p, steps))
    decreases |steps|
  {
    if |steps| > 0 {
      StepBallInBox(p, steps[0].touch, steps[0].r1, steps[0].r2);
      BallWalkStaysInBox(StepBall(p, steps[0].touch, steps[0].r1, steps[0].r2), steps[1..]);
    }
  }

  function SquaredDistance(p: Point, q: Point): real {
    (p.x - q.x) * (p.x - q.x) + (p.y - q.y) * (p.y - q.y)
  }

  /** checkTouch, with the square root compared as its square. */
  predicate Touch(p: Point, q: Point)
  {
    SquaredDistance(p, q) < 400.0
  }

  /** Touching points are less than 20 apart on each axis. */
  lemma TouchIsNear(p: Point, q: Point)
    ensures Touch(p, q) ==> -20.0 < p.x - q.x < 20.0 && -20.0 < p.y - q.y < 20.0
  {
    SquareSumBelow(p.x - q.x, p.y - q.y);
    SquareSumBelow(p.y - q.y, p.x - q.x);
  }

  /** A sum of two squares below 400 bounds each term below 20 in magnitude. */
  lemma SquareSumBelow(d: real, e: real)
    ensures d * d + e * e < 400.0 ==> -20.0 < d < 20.0
  {
    if d * d + e * e < 400.0 {
      assert e * e >= 0.0;
      if d >= 20.0 {
        assert d * d >= 20.0 * d;
      }
    }
  }

  /** Touch agrees with the engine's test on the Euclidean distance: for the non-negative
      dist whose square is the squared distance, Touch holds iff dist < 20. */
  lemma TouchIffDistanceBelow20(p: Point, q: Point, dist: real)
    requires dist >= 0.0 && dist * dist == SquaredDistance(p, q)
    ensures Touch(p, q) <==> dist < 20.0
  {
    if dist < 20.0 {
      assert dist * dist <= dist * 20.0;
      assert dist * 20.0 < 400.0;
    } else {
      assert dist * dist >= dist * 20.0;
      assert dist * 20.0 >= 400.0;
    }
  }

  /** Touch is symmetric. */
  lemma TouchSymmetric(p: Point, q: Point)
    ensures Touch(p, q) <==> Touch(q, p)
  {
  }

  /** Agent at (100,100): a target at (105,100) (distance 5) touches, one at (130,100)
      (distance 30) does not. */
  lemma TouchExamples()
    ensures Touch(Point(100.0, 100.0), Point(105.0, 100.0))
    ensures !Touch(Point(100.0, 100.0), Point(130.0, 100.0))
  {
  }
}
