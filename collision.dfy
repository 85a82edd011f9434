/** The collision engine of app/lib/collision.ts.

    The four checks are pure functions of the current ball and paddle state and the
    projected ball position `x + speedX * dt`; they return result records whose optional
    fields mirror the source's optional properties. `HandleCollisions` applies them to the
    ball objects and the grid in the source's order, and is proved against `RunFrom`, a pure
    description of one whole pass. JavaScript truthiness is kept: `futureX || ball.getX()`
    falls back to the current coordinate when the projected one is 0, and a result field of
    0 is not applied. */
module Collisions {
  import opened Wrappers
  import opened Sides
  import opened Balls
  import opened Paddles
  import Grids

  // ---------------------------------------------------------------------------------------
  // JavaScript number truthiness

  /** `x || fallback` on numbers: 0 is falsy (NaN does not arise over the reals). */
  function OrElse(x: real, fallback: real): real {
    if x != 0.0 then x else fallback
  }

  /** `if (field) ball.setField(field)`: a present, non-zero value replaces the current one. */
  function Pick(field: Option<real>, current: real): real {
    if field.Some? && field.value != 0.0 then field.value else current
  }

  /** A reversal is never lost to truthiness: when the negated value is 0 the current value
      is 0 as well. */
  lemma NegationAlwaysApplies(v: real)
    ensures Pick(Some(-v), v) == -v
  {
  }

  /** The four setter calls that follow a boundary, paddle or grid hit. */
  function ApplyMove(b: BallView, speedX: Option<real>, speedY: Option<real>,
                     futureX: Option<real>, futureY: Option<real>): (r: BallView)
    ensures r.side == b.side && r.radius == b.radius
    ensures futureX.None? ==> r.x == b.x
    ensures futureY.None? ==> r.y == b.y
  {
    b.(speedX := Pick(speedX, b.speedX), speedY := Pick(speedY, b.speedY),
       x := Pick(futureX, b.x), y := Pick(futureY, b.y))
  }

  function Abs(x: real): (r: real)
    ensures r >= 0.0 && (r == x || r == -x)
  {
    if x < 0.0 then -x else x
  }

  // ---------------------------------------------------------------------------------------
  // Ball to boundary (checkBallToBoundaryCollision)

  datatype BoundaryCollision = BoundaryCollision(
    collided: bool,
    speedX: Option<real>, speedY: Option<real>,
    futureX: Option<real>, futureY: Option<real>,
    oppositeSide: bool)

  /** Left wall: the projected ball reaches x <= 0. */
  predicate TouchesLeft(b: BallView, futureX: real) {
    OrElse(futureX, b.x) - b.radius <= 0.0
  }

  /** Right wall, tested only when the left one is not touched. */
  predicate TouchesRight(b: BallView, futureX: real, width: real) {
    !TouchesLeft(b, futureX) && OrElse(futureX, b.x) + b.radius >= width
  }

  predicate TouchesTop(b: BallView, futureY: real) {
    OrElse(futureY, b.y) - b.radius <= 0.0
  }

  predicate TouchesBottom(b: BallView, futureY: real, height: real) {
    !TouchesTop(b, futureY) && OrElse(futureY, b.y) + b.radius >= height
  }

  /** The boundary check on the projected position. A side wall reverses `speedX` and places
      the ball one radius inside; it is the losing wall (`oppositeSide`) for a dark ball on the
      left and for a light ball on the right. The top and bottom walls reverse `speedY`, place
      the ball one radius inside and never lose the game. */
  function CheckBoundary(b: BallView, futureX: real, futureY: real, width: real, height: real): (c: BoundaryCollision)
    ensures c.collided <==> (TouchesLeft(b, futureX) || TouchesRight(b, futureX, width)
                             || TouchesTop(b, futureY) || TouchesBottom(b, futureY, height))
    ensures c.oppositeSide <==> ((TouchesLeft(b, futureX) && b.side == Dark)
                                 || (TouchesRight(b, futureX, width) && b.side == Light))
    ensures TouchesLeft(b, futureX) ==> c.speedX == Some(-b.speedX) && c.futureX == Some(b.radius)
    ensures TouchesRight(b, futureX, width) ==> c.speedX == Some(-b.speedX) && c.futureX == Some(width - b.radius)
    ensures !TouchesLeft(b, futureX) && !TouchesRight(b, futureX, width) ==> c.speedX.None? && c.futureX.None?
    ensures TouchesTop(b, futureY) ==> c.speedY == Some(-b.speedY) && c.futureY == Some(b.radius)
    ensures TouchesBottom(b, futureY, height) ==> c.speedY == Some(-b.speedY) && c.futureY == Some(height - b.radius)
    ensures !TouchesTop(b, futureY) && !TouchesBottom(b, futureY, height) ==> c.speedY.None? && c.futureY.None?
  {
    var left := TouchesLeft(b, futureX);
    var right := TouchesRight(b, futureX, width);
    var top := TouchesTop(b, futureY);
    var bottom := TouchesBottom(b, futureY, height);
    BoundaryCollision(
      collided := left || right || top || bottom,
      speedX := if left || right then Some(-b.speedX) else None,
      speedY := if top || bottom then Some(-b.speedY) else None,
      futureX := if left then Some(b.radius) else if right then Some(width - b.radius) else None,
      futureY := if top then Some(b.radius) else if bottom then Some(height - b.radius) else None,
      oppositeSide := (left && b.side == Dark) || (right && b.side == Light))
  }

  /** A light ball just inside the left wall and moving left bounces: its horizontal velocity
      changes sign and it is placed exactly one radius from the wall. */
  lemma LeftWallBounce(b: BallView, eps: real, dt: real, width: real, height: real)
    requires b.side == Light && b.radius > 0.0 && 0.0 < eps < b.radius && b.x == b.radius - eps
    requires b.speedX < 0.0 && dt >= 0.0
    ensures var c := CheckBoundary(b, b.x + b.speedX * dt, b.y + b.speedY * dt, width, height);
      && c.collided && !c.oppositeSide
      && var after := ApplyMove(b, c.speedX, c.speedY, c.futureX, c.futureY);
         after.x == b.radius && after.speedX == -b.speedX && after.speedX > 0.0
  {
    var fx := b.x + b.speedX * dt;
    assert b.speedX * dt <= 0.0;
    assert TouchesLeft(b, fx);
  }

  /** The same position on the dark ball's side loses the game. */
  lemma LeftWallLosesForDark(b: BallView, futureX: real, futureY: real, width: real, height: real)
    requires b.side == Dark && TouchesLeft(b, futureX)
    ensures CheckBoundary(b, futureX, futureY, width, height).oppositeSide
  {
  }

  /** The projected-zero quirk: a ball whose projection lands exactly on x = 0 is tested at
      its current position instead, so on the 512-pixel canvas this projected crossing of the
      left wall is not a collision at all. */
  lemma ProjectedZeroFallsBack()
    ensures var b := BallView(Dark, 400.0, 100.0, -4000.0, 0.0, 8.0);
      var futureX := b.x + b.speedX * 0.1;
      futureX == 0.0 && !CheckBoundary(b, futureX, b.y, 512.0, 512.0).collided
  {
  }

  // ---------------------------------------------------------------------------------------
  // Ball to paddle (checkBallToPaddleCollision)

  /** The `Math` functions the exit velocity uses, passed in: the model does not interpret
      floating-point trigonometry. */
  datatype Trig = Trig(pi: real, sqrt: real -> real, cos: real -> real, sin: real -> real)

  function Square(x: real): real { x * x }
  function Sqrt(t: Trig, x: real): real { t.sqrt(x) }
  function Cos(t: Trig, x: real): real { t.cos(x) }
  function Sin(t: Trig, x: real): real { t.sin(x) }

  datatype PaddleCollision = PaddleCollision(
    collided: bool,
    speedX: Option<real>, speedY: Option<real>,
    futureX: Option<real>, futureY: Option<real>)

  /** The circle-versus-box hit test on half extents, with its early exits and the corner test. */
  predicate PaddleHit(ballX: real, ballY: real, radius: real, p: PaddleView) {
    var distX := Abs(ballX - p.x - p.width / 2.0);
    var distY := Abs(ballY - p.y - p.height / 2.0);
    if distX > p.width / 2.0 + radius then false
    else if distY > p.height / 2.0 + radius then false
    else if distX <= p.width / 2.0 then true
    else if distY <= p.height / 2.0 then true
    else
      var dx := distX - p.width / 2.0;
      var dy := distY - p.height / 2.0;
      dx * dx + dy * dy <= radius * radius
  }

  /** Independent reference: the distance from the centre to the nearest point of the box,
      measured per axis on the half extents, is at most the radius. */
  ghost predicate CircleMeetsBox(ballX: real, ballY: real, radius: real, p: PaddleView) {
    var gapX := Paddles.Max(Abs(ballX - p.x - p.width / 2.0) - p.width / 2.0, 0.0);
    var gapY := Paddles.Max(Abs(ballY - p.y - p.height / 2.0) - p.height / 2.0, 0.0);
    gapX * gapX + gapY * gapY <= radius * radius
  }

  lemma SquareMonotone(a: real, b: real)
    requires 0.0 <= a <= b
    ensures a * a <= b * b
  {
    assert a * a <= a * b;
    assert a * b <= b * b;
  }

  lemma SquareStrictMonotone(a: real, b: real)
    requires 0.0 <= a < b
    ensures a * a < b * b
  {
    var d := b - a;
    assert b * b == a * a + 2.0 * a * d + d * d;
    assert 0.0 <= a * d;
    assert 0.0 < d * d;
  }

  /** The source's staged test decides exactly whether the ball's circle meets the paddle's box. */
  lemma PaddleHitIsCircleMeetsBox(ballX: real, ballY: real, radius: real, p: PaddleView)
    requires radius >= 0.0
    ensures PaddleHit(ballX, ballY, radius, p) <==> CircleMeetsBox(ballX, ballY, radius, p)
  {
    var distX := Abs(ballX - p.x - p.width / 2.0);
    var distY := Abs(ballY - p.y - p.height / 2.0);
    var gapX := Paddles.Max(distX - p.width / 2.0, 0.0);
    var gapY := Paddles.Max(distY - p.height / 2.0, 0.0);
    assert 0.0 <= gapX * gapX && 0.0 <= gapY * gapY;
    if distX > p.width / 2.0 + radius {
      SquareStrictMonotone(radius, gapX);
    } else if distY > p.height / 2.0 + radius {
      SquareStrictMonotone(radius, gapY);
    } else if distX <= p.width / 2.0 {
      SquareMonotone(gapY, radius);
    } else if distY <= p.height / 2.0 {
      SquareMonotone(gapX, radius);
    }
  }

  /** Where the ball's current centre meets the paddle, from -1 at the top edge to 1 at the
      bottom edge. */
  function CollidePoint(b: BallView, p: PaddleView): real
    requires p.height != 0.0
  {
    (b.y - (p.y + p.height / 2.0)) / (p.height / 2.0)
  }

  /** The exit angle: up to `pi / 3` either way. */
  function BounceAngle(b: BallView, p: PaddleView, t: Trig): real
    requires p.height != 0.0
  {
    (t.pi / 3.0) * CollidePoint(b, p)
  }

  /** The length of the ball's velocity. */
  function Magnitude(b: BallView, t: Trig): real {
    Sqrt(t, Square(b.speedX) + Square(b.speedY))
  }

  /** The exit velocity of a hit: the speed's magnitude turned by the bounce angle, pointing
      right off the dark paddle and left off the light one. A paddle of height 0 gives `NaN`
      in the source, which is falsy, so the model reports no speeds. */
  function ExitSpeeds(b: BallView, p: PaddleView, t: Trig): (s: (Option<real>, Option<real>))
    ensures p.height == 0.0 ==> s.0.None? && s.1.None?
    ensures p.height != 0.0 ==> s.0.Some? && s.1.Some?
  {
    if p.height == 0.0 then (None, None)
    else
      var cos := Cos(t, BounceAngle(b, p, t));
      var speedX := if p.side == Dark then Magnitude(b, t) * cos else -Magnitude(b, t) * cos;
      (Some(speedX), Some(Magnitude(b, t) * Sin(t, BounceAngle(b, p, t))))
  }

  /** The paddle check. A hit sets only the speeds: the source assigns the corrected x
      position to its local parameter, so the result never moves the ball. */
  function CheckPaddle(b: BallView, p: PaddleView, futureX: real, futureY: real, t: Trig): (c: PaddleCollision)
    ensures c.collided <==> PaddleHit(OrElse(futureX, b.x), OrElse(futureY, b.y), b.radius, p)
    ensures c.futureX.None? && c.futureY.None?
    ensures !c.collided ==> c.speedX.None? && c.speedY.None?
    ensures c.collided ==> (c.speedX, c.speedY) == ExitSpeeds(b, p, t)
  {
    if !PaddleHit(OrElse(futureX, b.x), OrElse(futureY, b.y), b.radius, p) then
      PaddleCollision(false, None, None, None, None)
    else
      var s := ExitSpeeds(b, p, t);
      PaddleCollision(true, s.0, s.1, None, None)
  }

  /** What `Math` promises at 0 for the functions the exit velocity uses. */
  ghost predicate HonestAtZero(t: Trig) {
    Cos(t, 0.0) == 1.0 && Sin(t, 0.0) == 0.0
  }


  /** A hit at the paddle's exact vertical centre computes a horizontal exit velocity of the
      full magnitude, away from the paddle's side; its vertical component is 0, which is
      falsy, so the ball keeps whatever vertical speed it had instead of leaving horizontally. */
  lemma CentreHitKeepsVerticalSpeed(b: BallView, p: PaddleView, t: Trig)
    requires HonestAtZero(t) && p.height != 0.0
    requires b.y == p.y + p.height / 2.0
    ensures var s := ExitSpeeds(b, p, t);
      && s.1 == Some(0.0)
      && s.0 == Some(if p.side == Dark then Magnitude(b, t) else -Magnitude(b, t))
      && ApplyMove(b, s.0, s.1, None, None).speedY == b.speedY
  {
    assert CollidePoint(b, p) == 0.0;
    assert BounceAngle(b, p, t) == 0.0;
  }

  // ---------------------------------------------------------------------------------------
  // Ball to ball (checkBallToBallCollision)

  datatype BallPairCollision = BallPairCollision(
    collided: bool,
    ballASpeedX: Option<real>, ballASpeedY: Option<real>,
    ballBSpeedX: Option<real>, ballBSpeedY: Option<real>)

  /** `Math.sqrt(d2) < reach` stated on squares: a negative or zero reach is never met. */
  predicate WithinReach(dx: real, dy: real, reach: real) {
    reach > 0.0 && dx * dx + dy * dy < reach * reach
  }

  /** For any square root `q` of the squared distance, the source's comparison and the model's
      agree. */
  lemma WithinReachIsSqrtTest(dx: real, dy: real, reach: real, q: real)
    requires q >= 0.0 && q * q == dx * dx + dy * dy
    ensures WithinReach(dx, dy, reach) <==> q < reach
  {
    if q < reach {
      SquareStrictMonotone(q, reach);
    } else if reach > 0.0 {
      SquareMonotone(reach, q);
    }
  }

  /** The ball-to-ball check: ball A at its projected centre against ball B at its current
      centre; when they overlap, both velocity components of both balls are reversed. */
  function CheckBallToBall(a: BallView, b: BallView, futureX: real, futureY: real): (c: BallPairCollision)
    ensures c.collided <==> WithinReach(OrElse(futureX, a.x) - b.x, OrElse(futureY, a.y) - b.y, a.radius + b.radius)
    ensures c.collided ==> c == BallPairCollision(true, Some(-a.speedX), Some(-a.speedY), Some(-b.speedX), Some(-b.speedY))
    ensures !c.collided ==> c == BallPairCollision(false, None, None, None, None)
  {
    var dx := OrElse(futureX, a.x) - b.x;
    var dy := OrElse(futureY, a.y) - b.y;
    if WithinReach(dx, dy, a.radius + b.radius) then
      BallPairCollision(true, Some(-a.speedX), Some(-a.speedY), Some(-b.speedX), Some(-b.speedY))
    else
      BallPairCollision(false, None, None, None, None)
  }

  /** Tested at the current positions, the overlap test does not depend on which ball is A. */
  lemma BallToBallSymmetricAtRest(a: BallView, b: BallView)
    ensures CheckBallToBall(a, b, a.x, a.y).collided == CheckBallToBall(b, a, b.x, b.y).collided
  {
    var dx := a.x - b.x;
    var dy := a.y - b.y;
    assert (-dx) * (-dx) + (-dy) * (-dy) == dx * dx + dy * dy;
  }

  // ---------------------------------------------------------------------------------------
  // Ball to grid (checkBallToGridCollision)

  datatype GridCollision = GridCollision(
    collided: bool,
    speedX: Option<real>, speedY: Option<real>,
    futureX: Option<real>, futureY: Option<real>,
    cells: Option<seq<(int, int)>>)

  function NoGridCollision(): GridCollision {
    GridCollision(false, None, None, None, None, None)
  }

  /** The cell covering the projected centre, on cells whose size is the ball's diameter:
      `(floor(x / 2r), floor(y / 2r))`, as (column, row). */
  function GridCellOf(b: BallView, futureX: real, futureY: real): (int, int)
    requires b.radius != 0.0
  {
    var cellSize := b.radius * 2.0;
    ((OrElse(futureX, b.x) / cellSize).Floor, (OrElse(futureY, b.y) / cellSize).Floor)
  }

  /** The ball strikes a cell: the covering cell is in the grid and owned by the ball's side.
      A radius of 0 divides by zero in the source; the resulting infinite or NaN indexes fail
      the bounds test, so there is no hit. */
  ghost predicate StrikesCell(b: BallView, futureX: real, futureY: real, cells: seq<seq<Side>>)
    requires Grids.Rectangular(cells)
  {
    && b.radius != 0.0
    && var (gx, gy) := GridCellOf(b, futureX, futureY);
       0 <= gy < |cells| && 0 <= gx < |cells[0]| && cells[gy][gx] == b.side
  }

  /** The grid check: on a hit both speeds are reversed, the position is the projection rolled
      back by one step of the (current) velocity, and exactly the struck cell is reported. */
  function CheckGrid(b: BallView, futureX: real, futureY: real, cells: seq<seq<Side>>, dt: real): (c: GridCollision)
    requires Grids.Rectangular(cells)
    ensures c.collided <==> StrikesCell(b, futureX, futureY, cells)
    ensures !c.collided ==> c == NoGridCollision()
    ensures c.collided ==>
      && c.speedX == Some(-b.speedX) && c.speedY == Some(-b.speedY)
      && c.futureX == Some(OrElse(futureX, b.x) - b.speedX * dt)
      && c.futureY == Some(OrElse(futureY, b.y) - b.speedY * dt)
      && c.cells == Some([GridCellOf(b, futureX, futureY)])
      && var (gx, gy) := GridCellOf(b, futureX, futureY);
         0 <= gy < |cells| && 0 <= gx < |cells[gy]| && cells[gy][gx] == b.side
  {
    if b.radius == 0.0 then NoGridCollision()
    else
      var cellSize := b.radius * 2.0;
      var ballX := OrElse(futureX, b.x);
      var ballY := OrElse(futureY, b.y);
      var gridX := (ballX / cellSize).Floor;
      var gridY := (ballY / cellSize).Floor;
      if 0 <= gridY < |cells| && 0 <= gridX < |cells[0]| && cells[gridY][gridX] == b.side then
        GridCollision(true, Some(-b.speedX), Some(-b.speedY),
                      Some(ballX - b.speedX * dt), Some(ballY - b.speedY * dt), Some([(gridX, gridY)]))
      else
        NoGridCollision()
  }

  /** When the projection was made with the ball's own velocity and neither projected
      coordinate is 0, a grid hit puts the ball back at its current position. */
  lemma GridHitRollsBack(b: BallView, cells: seq<seq<Side>>, dt: real)
    requires Grids.Rectangular(cells)
    requires b.x + b.speedX * dt != 0.0 && b.y + b.speedY * dt != 0.0
    requires StrikesCell(b, b.x + b.speedX * dt, b.y + b.speedY * dt, cells)
    ensures var c := CheckGrid(b, b.x + b.speedX * dt, b.y + b.speedY * dt, cells, dt);
      ApplyMove(b, c.speedX, c.speedY, c.futureX, c.futureY)
        == b.(speedX := -b.speedX, speedY := -b.speedY)
  {
  }

  // ---------------------------------------------------------------------------------------
  // One pass of handleCollisions, as a pure function

  /** Everything a pass reads besides the balls and the cells. */
  datatype Arena = Arena(paddles: seq<PaddleView>, dt: real, width: real, height: real, trig: Trig)

  /** The state a pass changes: the balls, the grid cells, and the winner once a ball has hit
      its losing wall. */
  datatype Frame = Frame(balls: seq<BallView>, cells: seq<seq<Side>>, winner: Option<Side>)

  ghost predicate SameShape(g: seq<seq<Side>>, h: seq<seq<Side>>) {
    |g| == |h| && forall r :: 0 <= r < |g| ==> |g[r]| == |h[r]|
  }

  lemma SameShapeRectangular(g: seq<seq<Side>>, h: seq<seq<Side>>)
    requires Grids.Rectangular(g) && SameShape(g, h)
    ensures Grids.Rectangular(h)
  {
  }

  lemma SameShapeHasShape(g: seq<seq<Side>>, h: seq<seq<Side>>, rows: nat, cols: nat)
    requires Grids.HasShape(g, rows, cols) && SameShape(g, h)
    ensures Grids.HasShape(h, rows, cols)
  {
  }

  /** `after` is `before` with zero, one or both velocity components reversed. */
  ghost predicate OnlyReversed(before: BallView, after: BallView) {
    && after.x == before.x && after.y == before.y
    && after.side == before.side && after.radius == before.radius
    && (after.speedX == before.speedX || after.speedX == -before.speedX)
    && (after.speedY == before.speedY || after.speedY == -before.speedY)
  }

  /** The projected position the source computes once per ball, before any check. */
  function FutureX(b: BallView, dt: real): real { b.x + b.speedX * dt }
  function FutureY(b: BallView, dt: real): real { b.y + b.speedY * dt }

  /** The paddle loop for one ball: every paddle, in order, against the ball as it is by then. */
  function PaddlePass(b: BallView, ps: seq<PaddleView>, futureX: real, futureY: real, t: Trig): BallView
    decreases |ps|
  {
    if ps == [] then b
    else
      var before := PaddlePass(b, ps[..|ps| - 1], futureX, futureY, t);
      var c := CheckPaddle(before, ps[|ps| - 1], futureX, futureY, t);
      if c.collided then ApplyMove(before, c.speedX, c.speedY, c.futureX, c.futureY) else before
  }

  /** The paddle loop never moves the ball and never changes its side or radius. */
  lemma {:induction false} PaddlePassKeepsPosition(b: BallView, ps: seq<PaddleView>, futureX: real, futureY: real, t: Trig)
    ensures var r := PaddlePass(b, ps, futureX, futureY, t);
      r.x == b.x && r.y == b.y && r.side == b.side && r.radius == b.radius
    decreases |ps|
  {
    if ps != [] {
      PaddlePassKeepsPosition(b, ps[..|ps| - 1], futureX, futureY, t);
    }
  }

  /** Ball `i` against ball `k` (nothing when `k == i`), both as they are by then. */
  function PairStep(vs: seq<BallView>, i: nat, k: nat, futureX: real, futureY: real): (r: seq<BallView>)
    requires i < |vs| && k < |vs|
    ensures |r| == |vs|
  {
    if i == k then vs
    else
      var c := CheckBallToBall(vs[i], vs[k], futureX, futureY);
      if !c.collided then vs
      else
        vs[i := ApplyMove(vs[i], c.ballASpeedX, c.ballASpeedY, None, None)]
          [k := ApplyMove(vs[k], c.ballBSpeedX, c.ballBSpeedY, None, None)]
  }

  /** The ball-to-ball loop for ball `i` over the first `j` balls. */
  function PairPass(vs: seq<BallView>, i: nat, j: nat, futureX: real, futureY: real): (r: seq<BallView>)
    requires i < |vs| && j <= |vs|
    ensures |r| == |vs|
    decreases j
  {
    if j == 0 then vs
    else PairStep(PairPass(vs, i, j - 1, futureX, futureY), i, j - 1, futureX, futureY)
  }

  lemma PairStepOnlyReverses(vs: seq<BallView>, i: nat, k: nat, futureX: real, futureY: real)
    requires i < |vs| && k < |vs|
    ensures var r := PairStep(vs, i, k, futureX, futureY);
      forall m :: 0 <= m < |vs| ==> OnlyReversed(vs[m], r[m])
  {
    if i != k && CheckBallToBall(vs[i], vs[k], futureX, futureY).collided {
      NegationAlwaysApplies(vs[i].speedX);
      NegationAlwaysApplies(vs[i].speedY);
      NegationAlwaysApplies(vs[k].speedX);
      NegationAlwaysApplies(vs[k].speedY);
    }
  }

  /** The ball-to-ball loop only ever reverses velocities: every ball keeps its position, side
      and radius, and each speed component is either kept or negated. */
  lemma {:induction false} PairPassOnlyReverses(vs: seq<BallView>, i: nat, j: nat, futureX: real, futureY: real)
    requires i < |vs| && j <= |vs|
    ensures var r := PairPass(vs, i, j, futureX, futureY);
      forall m :: 0 <= m < |vs| ==> OnlyReversed(vs[m], r[m])
    decreases j
  {
    if j > 0 {
      PairPassOnlyReverses(vs, i, j - 1, futureX, futureY);
      PairStepOnlyReverses(PairPass(vs, i, j - 1, futureX, futureY), i, j - 1, futureX, futureY);
    }
  }

  /** Writes `v` into every listed cell, in order. */
  function ApplyCells(g: seq<seq<Side>>, cs: seq<(int, int)>, v: Side): (h: seq<seq<Side>>)
    requires forall k :: 0 <= k < |cs| ==> 0 <= cs[k].1 < |g| && 0 <= cs[k].0 < |g[cs[k].1]|
    ensures SameShape(g, h)
    decreases |cs|
  {
    if cs == [] then g
    else
      var before := ApplyCells(g, cs[..|cs| - 1], v);
      var (x, y) := cs[|cs| - 1];
      Grids.WithCell(before, x, y, v)
  }

  /** The grid check of ball `i` and its captures: the struck cells go to the other side. */
  function GridStep(f: Frame, i: nat, futureX: real, futureY: real, dt: real): (r: Frame)
    requires i < |f.balls| && Grids.Rectangular(f.cells)
    ensures |r.balls| == |f.balls| && SameShape(f.cells, r.cells) && Grids.Rectangular(r.cells)
    ensures r.winner == f.winner
  {
    var b := f.balls[i];
    var gc := CheckGrid(b, futureX, futureY, f.cells, dt);
    if !gc.collided then f
    else
      var cells := ApplyCells(f.cells, gc.cells.value, Opposite(b.side));
      SameShapeRectangular(f.cells, cells);
      Frame(f.balls[i := ApplyMove(b, gc.speedX, gc.speedY, gc.futureX, gc.futureY)], cells, f.winner)
  }

  /** The grid step changes no cell, or exactly the struck cell, which was the ball's own
      side's and now belongs to the other side. */
  lemma GridStepCapturesAtMostOne(f: Frame, i: nat, futureX: real, futureY: real, dt: real)
    requires i < |f.balls| && Grids.Rectangular(f.cells)
    ensures var r := GridStep(f, i, futureX, futureY, dt);
      || r.cells == f.cells
      || exists x: nat, y: nat :: y < |f.cells| && x < |f.cells[y]| && f.cells[y][x] == f.balls[i].side
           && r.cells == Grids.WithCell(f.cells, x, y, Opposite(f.balls[i].side))
  {
    var b := f.balls[i];
    if CheckGrid(b, futureX, futureY, f.cells, dt).collided {
      var (x, y) := GridCellOf(b, futureX, futureY);
      assert ApplyCells(f.cells, [(x, y)], Opposite(b.side)) == Grids.WithCell(f.cells, x, y, Opposite(b.side));
    }
  }

  /** The boundary check of a ball reports its losing wall. */
  predicate Loses(b: BallView, a: Arena) {
    var bc := CheckBoundary(b, FutureX(b, a.dt), FutureY(b, a.dt), a.width, a.height);
    bc.collided && bc.oppositeSide
  }

  /** The ball after a boundary check that did not lose. */
  function AfterBoundary(b: BallView, a: Arena): (r: BallView)
    ensures r.side == b.side && r.radius == b.radius
  {
    var bc := CheckBoundary(b, FutureX(b, a.dt), FutureY(b, a.dt), a.width, a.height);
    if bc.collided then ApplyMove(b, bc.speedX, bc.speedY, bc.futureX, bc.futureY) else b
  }

  /** The paddle loop and the ball-to-ball loop of ball `i`, after its boundary check. */
  function ContactPass(vs: seq<BallView>, i: nat, a: Arena): (r: seq<BallView>)
    requires i < |vs|
    ensures |r| == |vs|
  {
    var b := vs[i];
    var futureX := FutureX(b, a.dt);
    var futureY := FutureY(b, a.dt);
    PairPass(vs[i := PaddlePass(AfterBoundary(b, a), a.paddles, futureX, futureY, a.trig)], i, |vs|, futureX, futureY)
  }

  /** No contact changes a ball's side or radius, and the balls other than `i` only have
      velocities reversed. */
  lemma ContactPassKeepsSides(vs: seq<BallView>, i: nat, a: Arena)
    requires i < |vs|
    ensures var r := ContactPass(vs, i, a);
      && (forall m :: 0 <= m < |vs| ==> r[m].side == vs[m].side && r[m].radius == vs[m].radius)
      && (forall m :: 0 <= m < |vs| && m != i ==> OnlyReversed(vs[m], r[m]))
  {
    var b := vs[i];
    var b1 := AfterBoundary(b, a);
    PaddlePassKeepsPosition(b1, a.paddles, FutureX(b, a.dt), FutureY(b, a.dt), a.trig);
    var b2 := PaddlePass(b1, a.paddles, FutureX(b, a.dt), FutureY(b, a.dt), a.trig);
    PairPassOnlyReverses(vs[i := b2], i, |vs|, FutureX(b, a.dt), FutureY(b, a.dt));
  }

  /** The whole treatment of ball `i`: boundary, paddles, other balls, grid. A losing wall
      records the winner, the other side, and stops before any other check. */
  function BallStep(f: Frame, i: nat, a: Arena): (r: Frame)
    requires i < |f.balls| && Grids.Rectangular(f.cells)
    ensures |r.balls| == |f.balls| && SameShape(f.cells, r.cells) && Grids.Rectangular(r.cells)
  {
    var b := f.balls[i];
    if Loses(b, a) then f.(winner := Some(Opposite(b.side)))
    else GridStep(f.(balls := ContactPass(f.balls, i, a)), i, FutureX(b, a.dt), FutureY(b, a.dt), a.dt)
  }

  /** The pass from ball `i` on: each ball in turn, stopping at the first loss like the
      source's `return`. A whole pass is `RunFrom(f, 0, a)`. */
  function RunFrom(f: Frame, i: nat, a: Arena): (r: Frame)
    requires i <= |f.balls| && Grids.Rectangular(f.cells)
    ensures |r.balls| == |f.balls| && SameShape(f.cells, r.cells)
    decreases |f.balls| - i
  {
    if i == |f.balls| || f.winner.Some? then f
    else RunFrom(BallStep(f, i, a), i + 1, a)
  }

  /** A ball's treatment changes no cell, or captures exactly one cell of its own side for the
      other side. */
  lemma BallStepCapturesAtMostOne(f: Frame, i: nat, a: Arena)
    requires i < |f.balls| && Grids.Rectangular(f.cells)
    ensures var r := BallStep(f, i, a);
      || r.cells == f.cells
      || exists x: nat, y: nat :: y < |f.cells| && x < |f.cells[y]| && f.cells[y][x] == f.balls[i].side
           && r.cells == Grids.WithCell(f.cells, x, y, Opposite(f.balls[i].side))
  {
    var b := f.balls[i];
    if !Loses(b, a) {
      ContactPassKeepsSides(f.balls, i, a);
      GridStepCapturesAtMostOne(f.(balls := ContactPass(f.balls, i, a)), i, FutureX(b, a.dt), FutureY(b, a.dt), a.dt);
    }
  }

  lemma BallStepKeepsSidesAndRadii(f: Frame, i: nat, a: Arena)
    requires i < |f.balls| && Grids.Rectangular(f.cells)
    ensures var r := BallStep(f, i, a);
      forall m :: 0 <= m < |f.balls| ==> r.balls[m].side == f.balls[m].side && r.balls[m].radius == f.balls[m].radius
  {
    if !Loses(f.balls[i], a) {
      ContactPassKeepsSides(f.balls, i, a);
    }
  }

  /** A pass never changes a ball's side or radius. */
  lemma {:induction false} RunFromKeepsSidesAndRadii(f: Frame, i: nat, a: Arena)
    requires i <= |f.balls| && Grids.Rectangular(f.cells)
    ensures var r := RunFrom(f, i, a);
      forall m :: 0 <= m < |f.balls| ==> r.balls[m].side == f.balls[m].side && r.balls[m].radius == f.balls[m].radius
    decreases |f.balls| - i
  {
    if i < |f.balls| && f.winner.None? {
      BallStepKeepsSidesAndRadii(f, i, a);
      RunFromKeepsSidesAndRadii(BallStep(f, i, a), i + 1, a);
    }
  }

  /** A ball's treatment ends with a winner only when the ball hit its losing wall, and the
      winner is then the other side. */
  lemma BallStepWinner(f: Frame, i: nat, a: Arena)
    requires i < |f.balls| && Grids.Rectangular(f.cells) && f.winner.None?
    ensures var r := BallStep(f, i, a);
      (r.winner.Some? <==> Loses(f.balls[i], a))
      && (r.winner.Some? ==> r.winner.value == Opposite(f.balls[i].side) && r.balls == f.balls && r.cells == f.cells)
  {
  }

  /** The frame after the balls `i` up to (not including) `m` have been treated, stopping at
      the first loss: the prefix of `RunFrom`, so that `RunFrom(f, i, a)` is
      `RunFrom(RunTo(f, i, m, a), m, a)`. */
  function RunTo(f: Frame, i: nat, m: nat, a: Arena): (r: Frame)
    requires i <= m <= |f.balls| && Grids.Rectangular(f.cells)
    ensures |r.balls| == |f.balls| && Grids.Rectangular(r.cells)
    ensures f.winner.Some? ==> r == f
    decreases m - i
  {
    if i == m || f.winner.Some? then f
    else RunTo(BallStep(f, i, a), i + 1, m, a)
  }

  /** Running to `m` and then on from `m` is the whole pass from `i`. */
  lemma {:induction false} RunToThenFrom(f: Frame, i: nat, m: nat, a: Arena)
    requires i <= m <= |f.balls| && Grids.Rectangular(f.cells)
    ensures RunFrom(RunTo(f, i, m, a), m, a) == RunFrom(f, i, a)
    decreases m - i
  {
    if i < m && f.winner.None? {
      var s := BallStep(f, i, a);
      assert RunTo(f, i, m, a) == RunTo(s, i + 1, m, a);
      assert RunFrom(f, i, a) == RunFrom(s, i + 1, a);
      RunToThenFrom(s, i + 1, m, a);
    } else {
      assert RunTo(f, i, m, a) == f;
    }
  }

  /** Ball `m` is where a pass from `i` stops: no winner yet when its turn came, and it hit
      its losing wall, so the pass ends with its opponent as the winner. */
  predicate StopsAt(f: Frame, i: nat, m: nat, a: Arena, w: Side)
    requires i <= m < |f.balls| && Grids.Rectangular(f.cells)
  {
    var g := RunTo(f, i, m, a);
    g.winner.None? && Loses(g.balls[m], a) && w == Opposite(g.balls[m].side)
  }

  /** One ball on, the stopping point is the same. */
  lemma StopsAtStep(f: Frame, i: nat, m: nat, a: Arena, w: Side)
    requires i < m < |f.balls| && Grids.Rectangular(f.cells) && f.winner.None?
    requires StopsAt(BallStep(f, i, a), i + 1, m, a, w)
    ensures StopsAt(f, i, m, a, w)
  {
    assert RunTo(f, i, m, a) == RunTo(BallStep(f, i, a), i + 1, m, a);
  }

  /** A pass that starts without a winner and ends with one stopped at a ball that, when its
      turn came with no winner yet, hit its losing wall; the winner is that ball's opponent. */
  lemma {:induction false} RunFromWinnerIsOpponentOfALoser(f: Frame, i: nat, a: Arena)
    requires i <= |f.balls| && Grids.Rectangular(f.cells) && f.winner.None?
    requires RunFrom(f, i, a).winner.Some?
    ensures exists m :: i <= m < |f.balls| && StopsAt(f, i, m, a, RunFrom(f, i, a).winner.value)
    decreases |f.balls| - i
  {
    assert i < |f.balls|;
    var s := BallStep(f, i, a);
    var w := RunFrom(f, i, a).winner.value;
    assert RunFrom(f, i, a) == RunFrom(s, i + 1, a);
    BallStepWinner(f, i, a);
    if s.winner.Some? {
      assert RunTo(f, i, i, a) == f;
      assert StopsAt(f, i, i, a, w);
    } else {
      RunFromWinnerIsOpponentOfALoser(s, i + 1, a);
      var m :| i + 1 <= m < |f.balls| && StopsAt(s, i + 1, m, a, w);
      StopsAtStep(f, i, m, a, w);
    }
  }

  // ---------------------------------------------------------------------------------------
  // The driver (handleCollisions) on the objects

  /** The views of a sequence of balls. */
  function Views(bs: seq<Ball>): (vs: seq<BallView>)
    reads bs
    ensures |vs| == |bs| && forall k :: 0 <= k < |bs| ==> vs[k] == bs[k].View()
  {
    seq(|bs|, k requires 0 <= k < |bs| reads bs => bs[k].View())
  }

  /** The views of a sequence of paddles; the paddle counterpart of `Views`. */
  function PaddleViews(ps: seq<Paddle>): (vs: seq<PaddleView>)
    reads ps
    ensures |vs| == |ps| && forall k :: 0 <= k < |ps| ==> vs[k] == ps[k].View()
  {
    seq(|ps|, k requires 0 <= k < |ps| reads ps => ps[k].View())
  }

  ghost predicate Distinct(bs: seq<Ball>) {
    forall m, n :: 0 <= m < n < |bs| ==> bs[m] != bs[n]
  }

  /** `if (r.speedX) ball.setSpeedX(r.speedX)` and the three lines after it. */
  method ApplyMotionTo(ball: Ball, speedX: Option<real>, speedY: Option<real>,
                       futureX: Option<real>, futureY: Option<real>)
    modifies ball
    ensures ball.View() == ApplyMove(old(ball.View()), speedX, speedY, futureX, futureY)
  {
    if speedX.Some? && speedX.value != 0.0 {
      ball.SetSpeedX(speedX.value);
    }
    if speedY.Some? && speedY.value != 0.0 {
      ball.SetSpeedY(speedY.value);
    }
    if futureX.Some? && futureX.value != 0.0 {
      ball.SetX(futureX.value);
    }
    if futureY.Some? && futureY.value != 0.0 {
      ball.SetY(futureY.value);
    }
  }

  /** The same four lines on ball `i` of the sequence. */
  method ApplyMotion(balls: seq<Ball>, i: nat, speedX: Option<real>, speedY: Option<real>,
                     futureX: Option<real>, futureY: Option<real>)
    requires i < |balls| && Distinct(balls)
    modifies balls[i]
    ensures Views(balls) == old(Views(balls))[i := ApplyMove(old(balls[i].View()), speedX, speedY, futureX, futureY)]
  {
    var ball := balls[i];
    ghost var before := ball.View();
    ghost var vs := Views(balls);
    ApplyMotionTo(ball, speedX, speedY, futureX, futureY);
    assert forall k :: 0 <= k < |balls| && k != i ==> balls[k] != ball;
    assert forall k :: 0 <= k < |balls| ==> Views(balls)[k] == vs[i := ball.View()][k];
  }

  /** The paddle loop of ball `i`. */
  method PaddleContacts(balls: seq<Ball>, i: nat, paddles: seq<Paddle>, futureX: real, futureY: real, trig: Trig)
    requires i < |balls| && Distinct(balls)
    modifies balls[i]
    ensures Views(balls) == old(Views(balls))[i := PaddlePass(old(balls[i].View()), PaddleViews(paddles), futureX, futureY, trig)]
  {
    ghost var ps := PaddleViews(paddles);
    ghost var vs := Views(balls);
    ghost var b := balls[i].View();
    for j := 0 to |paddles|
      invariant PaddleViews(paddles) == ps
      invariant Views(balls) == vs[i := PaddlePass(b, ps[..j], futureX, futureY, trig)]
    {
      assert ps[..j + 1][..j] == ps[..j];
      var pc := CheckPaddle(balls[i].View(), paddles[j].View(), futureX, futureY, trig);
      if pc.collided {
        ApplyMotion(balls, i, pc.speedX, pc.speedY, pc.futureX, pc.futureY);
      }
    }
    assert ps[..|paddles|] == ps;
  }

  /** The ball-to-ball loop of ball `i`. */
  method BallContacts(balls: seq<Ball>, i: nat, futureX: real, futureY: real)
    requires i < |balls| && Distinct(balls)
    modifies balls
    ensures Views(balls) == PairPass(old(Views(balls)), i, |balls|, futureX, futureY)
  {
    ghost var vs := Views(balls);
    for j := 0 to |balls|
      invariant Views(balls) == PairPass(vs, i, j, futureX, futureY)
    {
      if i == j {
        continue;
      }
      var pc := CheckBallToBall(balls[i].View(), balls[j].View(), futureX, futureY);
      if pc.collided {
        ApplyMotion(balls, i, pc.ballASpeedX, pc.ballASpeedY, None, None);
        ApplyMotion(balls, j, pc.ballBSpeedX, pc.ballBSpeedY, None, None);
      }
    }
  }

  /** The grid check of ball `i` and the loop over the struck cells. */
  method GridContact(balls: seq<Ball>, i: nat, grid: Grids.Grid, futureX: real, futureY: real, dt: real,
                     ghost f: Frame)
    requires i < |balls| && Distinct(balls) && Grids.Rectangular(grid.grid)
    requires f == Frame(Views(balls), grid.grid, None)
    modifies balls[i], grid`grid
    ensures Frame(Views(balls), grid.grid, None) == GridStep(f, i, futureX, futureY, dt)
  {
    var ball := balls[i];
    var gc := CheckGrid(ball.View(), futureX, futureY, grid.grid, dt);
    if gc.collided {
      ApplyMotion(balls, i, gc.speedX, gc.speedY, gc.futureX, gc.futureY);
      ghost var moved := Views(balls);
      var cells := gc.cells.value;
      ghost var g := grid.grid;
      for k := 0 to |cells|
        invariant grid.grid == ApplyCells(g, cells[..k], Opposite(ball.side))
        invariant Views(balls) == moved
      {
        assert cells[..k + 1][..k] == cells[..k];
        var cell := cells[k];
        grid.SetCell(cell.0, cell.1, Opposite(ball.side));
      }
      assert cells[..|cells|] == cells;
    }
  }

  /** The body of the source's loop for ball `i`: the boundary check (reporting the winner
      instead of going on when it is the ball's losing wall), then the paddle, ball and grid
      contacts. */
  method TreatBall(balls: seq<Ball>, i: nat, paddles: seq<Paddle>, grid: Grids.Grid,
                   dt: real, width: real, height: real, trig: Trig, ghost s: Frame, ghost a: Arena)
    returns (lost: Option<Side>)
    requires i < |balls| && Distinct(balls) && Grids.Rectangular(grid.grid)
    requires s == Frame(Views(balls), grid.grid, None)
    requires a == Arena(PaddleViews(paddles), dt, width, height, trig)
    modifies balls, grid`grid
    ensures PaddleViews(paddles) == a.paddles
    ensures Frame(Views(balls), grid.grid, lost) == BallStep(s, i, a)
  {
    ghost var b := s.balls[i];
    var ball := balls[i];
    var ballFutureX := FutureX(ball.View(), dt);
    var ballFutureY := FutureY(ball.View(), dt);
    var bc := CheckBoundary(ball.View(), ballFutureX, ballFutureY, width, height);
    if bc.collided {
      if bc.oppositeSide {
        return Some(Opposite(ball.side));
      }
      ApplyMotion(balls, i, bc.speedX, bc.speedY, bc.futureX, bc.futureY);
    }
    assert Views(balls) == s.balls[i := AfterBoundary(b, a)];
    Contacts(balls, i, paddles, grid, ballFutureX, ballFutureY, dt, trig, s, a);
    lost := None;
  }

  /** The paddle, ball and grid contacts of ball `i`, after a boundary check that did not
      lose. */
  method Contacts(balls: seq<Ball>, i: nat, paddles: seq<Paddle>, grid: Grids.Grid,
                  futureX: real, futureY: real, dt: real, trig: Trig, ghost s: Frame, ghost a: Arena)
    requires i < |s.balls| && |balls| == |s.balls| && Distinct(balls) && Grids.Rectangular(s.cells)
    requires s.winner.None?
    requires Views(balls) == s.balls[i := AfterBoundary(s.balls[i], a)] && grid.grid == s.cells
    requires futureX == FutureX(s.balls[i], a.dt) && futureY == FutureY(s.balls[i], a.dt)
    requires a.paddles == PaddleViews(paddles) && a.trig == trig && a.dt == dt
    modifies balls, grid`grid
    ensures PaddleViews(paddles) == a.paddles
    ensures Frame(Views(balls), grid.grid, None)
         == GridStep(Frame(ContactPass(s.balls, i, a), s.cells, None), i, futureX, futureY, a.dt)
  {
    ghost var b := s.balls[i];
    PaddleContacts(balls, i, paddles, futureX, futureY, trig);
    ghost var b2 := PaddlePass(AfterBoundary(b, a), a.paddles, futureX, futureY, trig);
    assert Views(balls) == s.balls[i := b2];
    BallContacts(balls, i, futureX, futureY);
    assert Views(balls) == ContactPass(s.balls, i, a);
    GridContact(balls, i, grid, futureX, futureY, dt, Frame(ContactPass(s.balls, i, a), s.cells, None));
  }

  /** `handleCollisions(balls, paddles)`: the whole pass applied in place. It returns the
      winner when a ball hits its losing wall; the game then calls `gameOver` with it, which is
      what the source does just before its `return`. */
  method HandleCollisions(balls: seq<Ball>, paddles: seq<Paddle>, grid: Grids.Grid,
                          dt: real, width: real, height: real, trig: Trig)
    returns (winner: Option<Side>)
    requires Distinct(balls) && Grids.Rectangular(grid.grid)
    modifies balls, grid`grid
    ensures var r := RunFrom(Frame(old(Views(balls)), old(grid.grid), None), 0,
                             Arena(PaddleViews(paddles), dt, width, height, trig));
      Views(balls) == r.balls && grid.grid == r.cells && winner == r.winner
    ensures PaddleViews(paddles) == old(PaddleViews(paddles)) && SameShape(old(grid.grid), grid.grid)
    ensures unchanged(paddles)
  {
    ghost var a := Arena(PaddleViews(paddles), dt, width, height, trig);
    ghost var f0 := Frame(Views(balls), grid.grid, None);
    var i := 0;
    winner := None;
    while i < |balls| && winner.None?
      invariant 0 <= i <= |balls|
      invariant PaddleViews(paddles) == a.paddles
      invariant Grids.Rectangular(grid.grid)
      invariant RunFrom(Frame(Views(balls), grid.grid, winner), i, a) == RunFrom(f0, 0, a)
      decreases |balls| - i
    {
      winner := TreatBall(balls, i, paddles, grid, dt, width, height, trig, Frame(Views(balls), grid.grid, None), a);
      i := i + 1;
    }
  }
}