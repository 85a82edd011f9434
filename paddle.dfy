/** The paddle of app/lib/paddle.ts: position, geometry, speed and two independent
    movement flags. Colour and drawing are not modelled. */
module Paddles {
  import opened Wrappers
  import opened Sides

  /** `Paddle.height`, `Paddle.width` and `Paddle.speed`. */
  const DefaultHeight: real := 80.0
  const DefaultWidth: real := 16.0
  const DefaultSpeed: real := 500.0

  /** `PaddleOptions` without the game reference and the colour. */
  datatype PaddleOptions = PaddleOptions(side: Side, x: real, y: real,
                                         height: Option<real>, width: Option<real>, speed: Option<real>)

  /** What the collision engine reads of a paddle. */
  datatype PaddleView = PaddleView(side: Side, x: real, y: real, width: real, height: real)

  /** The constructor keeps every given dimension (`!== undefined`), even 0. */
  function Constructed(o: Option<real>, default: real): real {
    if o.Some? then o.value else default
  }

  /** `reset` uses `option || default`, so 0 becomes the default. */
  function Restored(o: Option<real>, default: real): (v: real)
    ensures default != 0.0 ==> v != 0.0
  {
    if o.Some? && o.value != 0.0 then o.value else default
  }

  /** A height of 0 survives construction but becomes 80 after `reset`. */
  lemma ZeroHeightRule()
    ensures Constructed(Some(0.0), DefaultHeight) == 0.0
    ensures Restored(Some(0.0), DefaultHeight) == 80.0
  {
  }

  function Max(a: real, b: real): real { if a >= b then a else b }
  function Min(a: real, b: real): real { if a <= b then a else b }

  /** How far a paddle of height `h` may leave the screen: 90% of its height. */
  function OffScreenLimit(h: real): real { h * 0.9 }

  /** The upper and lower limits for the top edge `y` on a canvas of height `canvasHeight`. */
  function TopLimit(h: real): real { -OffScreenLimit(h) }
  function BottomLimit(h: real, canvasHeight: real): real { canvasHeight - h + OffScreenLimit(h) }

  /** `Math.max` against the top limit, then `Math.min` against the bottom limit. */
  function ClampY(y: real, h: real, canvasHeight: real): (r: real)
    ensures r <= BottomLimit(h, canvasHeight)
    ensures TopLimit(h) <= BottomLimit(h, canvasHeight) ==> TopLimit(h) <= r
    ensures TopLimit(h) <= y <= BottomLimit(h, canvasHeight) ==> r == y
  {
    Min(Max(y, TopLimit(h)), BottomLimit(h, canvasHeight))
  }

  /** The move of `update` before clamping: up by `step` if `up`, then down by `step` if `down`. */
  function Shifted(y: real, up: bool, down: bool, step: real): real {
    var afterUp := if up then y - step else y;
    if down then afterUp + step else afterUp
  }

  /** The top edge after `update`. */
  function MovedY(y: real, up: bool, down: bool, speed: real, dt: real, h: real, canvasHeight: real): real {
    ClampY(Shifted(y, up, down, speed * dt), h, canvasHeight)
  }

  /** For non-negative height and canvas the paddle ends within the off-screen limits. */
  lemma MovedYBounds(y: real, up: bool, down: bool, speed: real, dt: real, h: real, canvasHeight: real)
    requires h >= 0.0 && canvasHeight >= 0.0
    ensures -0.9 * h <= MovedY(y, up, down, speed, dt, h, canvasHeight) <= canvasHeight - h + 0.9 * h
  {
  }

  /** Both flags set: the two displacements cancel and only the clamp can move the paddle. */
  lemma BothFlagsCancel(y: real, speed: real, dt: real, h: real, canvasHeight: real)
    ensures MovedY(y, true, true, speed, dt, h, canvasHeight) == ClampY(y, h, canvasHeight)
  {
  }

  /** No flag set: a paddle within the limits does not move. */
  lemma IdleInRangeStays(y: real, speed: real, dt: real, h: real, canvasHeight: real)
    requires TopLimit(h) <= y <= BottomLimit(h, canvasHeight)
    ensures MovedY(y, false, false, speed, dt, h, canvasHeight) == y
  {
  }

  /** Clamping twice is clamping once. */
  lemma ClampIdempotent(y: real, h: real, canvasHeight: real)
    requires h >= 0.0 && canvasHeight >= 0.0
    ensures ClampY(ClampY(y, h, canvasHeight), h, canvasHeight) == ClampY(y, h, canvasHeight)
  {
  }

  class Paddle {
    const options: PaddleOptions
    /** Fixed at construction: no method writes it. */
    const side: Side := options.side
    var x: real
    var y: real
    var height: real
    var width: real
    var speed: real
    var moveUp: bool
    var moveDown: bool

    function View(): (p: PaddleView)
      reads this
      ensures p.side == side
    {
      PaddleView(side, x, y, width, height)
    }

    constructor (options: PaddleOptions)
      ensures this.options == options && side == options.side
      ensures x == options.x && y == options.y
      ensures height == Constructed(options.height, DefaultHeight)
      ensures width == Constructed(options.width, DefaultWidth)
      ensures speed == Constructed(options.speed, DefaultSpeed)
      ensures !moveUp && !moveDown
    {
      this.options := options;
      x := options.x;
      y := options.y;
      height := Constructed(options.height, DefaultHeight);
      width := Constructed(options.width, DefaultWidth);
      speed := Constructed(options.speed, DefaultSpeed);
      moveUp := false;
      moveDown := false;
    }

    /** Position and dimensions as `reset` leaves them. */
    ghost predicate AtOptions()
      reads this
    {
      && x == options.x && y == options.y
      && height == Restored(options.height, DefaultHeight)
      && width == Restored(options.width, DefaultWidth)
      && speed == Restored(options.speed, DefaultSpeed)
    }

    /** `reset`: position and geometry back to the options (dimensions via `||`); the
        movement flags are left as they are. */
    method Reset()
      modifies this
      ensures x == options.x && y == options.y
      ensures height == Restored(options.height, DefaultHeight)
      ensures width == Restored(options.width, DefaultWidth)
      ensures speed == Restored(options.speed, DefaultSpeed)
      ensures moveUp == old(moveUp) && moveDown == old(moveDown)
    {
      x := options.x;
      y := options.y;
      height := Restored(options.height, DefaultHeight);
      width := Restored(options.width, DefaultWidth);
      speed := Restored(options.speed, DefaultSpeed);
    }

    method SetX(x: real)
      modifies this`x
      ensures this.x == x
    {
      this.x := x;
    }

    method SetY(y: real)
      modifies this`y
      ensures this.y == y
    {
      this.y := y;
    }

    method SetSpeed(speed: real)
      modifies this`speed
      ensures this.speed == speed
    {
      this.speed := speed;
    }

    /** `setMovement(up, down)`: both flags independently; both may be true. */
    method SetMovement(up: bool, down: bool)
      modifies this`moveUp, this`moveDown
      ensures moveUp == up && moveDown == down
    {
      moveUp := up;
      moveDown := down;
    }

    /** `update`, with the time since the last frame as `dt` and the canvas height passed in. */
    method Update(dt: real, canvasHeight: real)
      modifies this`y
      ensures y == MovedY(old(y), moveUp, moveDown, speed, dt, height, canvasHeight)
    {
      if moveUp {
        y := y - speed * dt;
      }
      if moveDown {
        y := y + speed * dt;
      }
      var offScreenLimit := height * 0.9;
      y := Max(y, -offScreenLimit);
      y := Min(y, canvasHeight - height + offScreenLimit);
    }
  }
}
