/** The ball of app/lib/ball.ts: kinematic state with setters, a reset back to the
    construction options and a position step. Colour and drawing are not modelled. */
module Balls {
  import opened Wrappers
  import opened Sides

  /** `Ball.radius`, the default radius. */
  const DefaultRadius: real := 8.0

  /** `BallOptions` without the game reference and the colour. */
  datatype BallOptions = BallOptions(side: Side, x: real, y: real, speedX: real, speedY: real, radius: Option<real>)

  /** The state of a ball that the simulation reads and writes. */
  datatype BallView = BallView(side: Side, x: real, y: real, speedX: real, speedY: real, radius: real)

  /** The constructor keeps any radius that is given (`!== undefined`), even 0. */
  function ConstructedRadius(o: Option<real>): real {
    if o.Some? then o.value else DefaultRadius
  }

  /** `reset` uses `options.radius || Ball.radius`, so a radius of 0 becomes 8. */
  function ResetRadius(o: Option<real>): (r: real)
    ensures r != 0.0
  {
    if o.Some? && o.value != 0.0 then o.value else DefaultRadius
  }

  /** Construction and reset agree on the radius except for an explicit radius of 0. */
  lemma RadiusRulesDiffer(o: Option<real>)
    ensures ConstructedRadius(o) != ResetRadius(o) <==> o == Some(0.0)
  {
  }

  /** The state right after construction. */
  function Constructed(o: BallOptions): (b: BallView)
    ensures b.side == o.side && b.x == o.x && b.y == o.y
    ensures b.speedX == o.speedX && b.speedY == o.speedY
    ensures o.radius.Some? ==> b.radius == o.radius.value
    ensures o.radius.None? ==> b.radius == DefaultRadius
  {
    BallView(o.side, o.x, o.y, o.speedX, o.speedY, ConstructedRadius(o.radius))
  }

  /** The state `reset` restores. */
  function Restored(o: BallOptions): (b: BallView)
    ensures b.side == o.side && b.x == o.x && b.y == o.y
    ensures b.speedX == o.speedX && b.speedY == o.speedY
    ensures b.radius != 0.0
    ensures o.radius.Some? && o.radius.value != 0.0 ==> b.radius == o.radius.value
  {
    BallView(o.side, o.x, o.y, o.speedX, o.speedY, ResetRadius(o.radius))
  }

  /** `update`: one step of `dt` seconds along the current velocity. */
  function Advance(b: BallView, dt: real): (r: BallView)
    ensures r.side == b.side && r.radius == b.radius
    ensures r.speedX == b.speedX && r.speedY == b.speedY
    ensures r.x - b.x == b.speedX * dt && r.y - b.y == b.speedY * dt
  {
    b.(x := b.x + b.speedX * dt, y := b.y + b.speedY * dt)
  }

  /** With no elapsed time the ball stays where it is. */
  lemma AdvanceZero(b: BallView)
    ensures Advance(b, 0.0) == b
  {
  }

  /** Two steps are one step of the summed time, because a step keeps the velocity. */
  lemma AdvanceAdds(b: BallView, s: real, t: real)
    ensures Advance(Advance(b, s), t) == Advance(b, s + t)
  {
    calc {
      b.x + b.speedX * s + b.speedX * t;
      b.x + b.speedX * (s + t);
    }
    calc {
      b.y + b.speedY * s + b.speedY * t;
      b.y + b.speedY * (s + t);
    }
  }

  /** A ball of radius 8 at (100, 100) with velocity (300, 300) reaches (130, 130) after 0.1 s. */
  lemma MidFieldStep(side: Side)
    ensures Advance(BallView(side, 100.0, 100.0, 300.0, 300.0, 8.0), 0.1)
         == BallView(side, 130.0, 130.0, 300.0, 300.0, 8.0)
  {
  }

  class Ball {
    const options: BallOptions
    /** Fixed at construction: no method writes it. */
    const side: Side := options.side
    var x: real
    var y: real
    var speedX: real
    var speedY: real
    var radius: real

    function View(): (b: BallView)
      reads this
      ensures b.side == side
    {
      BallView(side, x, y, speedX, speedY, radius)
    }

    constructor (options: BallOptions)
      ensures this.options == options && View() == Constructed(options)
    {
      this.options := options;
      x := options.x;
      y := options.y;
      speedX := options.speedX;
      speedY := options.speedY;
      radius := ConstructedRadius(options.radius);
    }

    /** `reset`: position, velocity and radius back to the options. */
    method Reset()
      modifies this
      ensures View() == Restored(options)
    {
      x := options.x;
      y := options.y;
      speedX := options.speedX;
      speedY := options.speedY;
      radius := ResetRadius(options.radius);
    }

    method SetX(x: real)
      modifies this
      ensures View() == old(View()).(x := x)
    {
      this.x := x;
    }

    method SetY(y: real)
      modifies this
      ensures View() == old(View()).(y := y)
    {
      this.y := y;
    }

    method SetXY(x: real, y: real)
      modifies this
      ensures View() == old(View()).(x := x, y := y)
    {
      this.x := x;
      this.y := y;
    }

    method SetSpeedX(speedX: real)
      modifies this
      ensures View() == old(View()).(speedX := speedX)
    {
      this.speedX := speedX;
    }

    method SetSpeedY(speedY: real)
      modifies this
      ensures View() == old(View()).(speedY := speedY)
    {
      this.speedY := speedY;
    }

    method SetSpeed(speedX: real, speedY: real)
      modifies this
      ensures View() == old(View()).(speedX := speedX, speedY := speedY)
    {
      this.speedX := speedX;
      this.speedY := speedY;
    }

    /** `update`, with the game's time since the last frame passed as `dt`. */
    method Update(dt: real)
      modifies this
      ensures View() == Advance(old(View()), dt)
    {
      x := x + speedX * dt;
      y := y + speedY * dt;
    }
  }
}
