/** The game of app/lib/game.ts and the input manager of app/lib/controller.ts. The two
    classes hold references to each other (the game creates its manager with itself, and the
    manager pauses, restarts and steers that game), so they share one module.

    Time and randomness come in as parameters: `now` stands for `performance.now()`, `time`
    for the frame time `requestAnimationFrame` passes to the loop, and `ys` for the random
    heights `reset` gives the balls. Ids are a counter instead of ULIDs. */
module Games {
  import opened Wrappers
  import opened Sides
  import opened Controllers
  import Grids
  import Balls
  import Paddles
  import Collisions

  datatype GameState = Initial | Running | Paused | Stopped | Over

  /** `Game.ballSpeed`, `Game.paddleSpeed` and `Game.cellSize`. */
  const BallSpeed: real := 300.0
  const PaddleSpeed: real := 500.0
  const CellSize: nat := 16

  // ---------------------------------------------------------------------------------------
  // The state machine

  /** `togglePause`: running and paused swap; every other state stays. */
  function Toggled(s: GameState): (t: GameState)
    ensures (s == Running) == (t == Paused) && (s == Paused) == (t == Running)
    ensures s != Running && s != Paused ==> t == s
  {
    if s == Running then Paused else if s == Paused then Running else s
  }

  /** Toggling pause twice restores every state. */
  lemma ToggleTwice(s: GameState)
    ensures Toggled(Toggled(s)) == s
  {
  }

  /** `gameOver(side)` on the state and the winner. The method marks the game over, records
      the winner and then calls `stop`, so it ends in the stopped state; only a game that is
      already over (which no completed call leaves behind) is left alone. */
  function Ended(s: GameState, winner: Option<Side>, side: Side): (r: (GameState, Option<Side>))
    ensures s != Over ==> r == (Stopped, Some(side))
    ensures s == Over ==> r == (s, winner)
  {
    if s == Over then (s, winner) else (Stopped, Some(side))
  }

  /** Because `gameOver` never leaves the game over, a second call overwrites the winner. */
  lemma SecondGameOverOverwrites(s: GameState, winner: Option<Side>, first: Side, second: Side)
    requires s != Over
    ensures var r := Ended(s, winner, first); r.0 != Over && Ended(r.0, r.1, second) == (Stopped, Some(second))
  {
  }

  /** The seconds between two frame times given in milliseconds. */
  function FrameSeconds(time: real, last: real): (dt: real)
    ensures last + 1000.0 * dt == time
    ensures time == last ==> dt == 0.0
  {
    (time - last) / 1000.0
  }

  // ---------------------------------------------------------------------------------------
  // Views of the objects

  ghost function FlagsOf(p: Paddles.Paddle): Movement
    reads p
  {
    Movement(p.moveUp, p.moveDown)
  }

  /** Everything of a paddle besides its movement flags. */
  ghost function Placement(p: Paddles.Paddle): (Paddles.PaddleView, real)
    reads p
  {
    (p.View(), p.speed)
  }

  /** A paddle after `update`: only its top edge moves. */
  function Stepped(v: Paddles.PaddleView, f: Movement, speed: real, dt: real, canvasHeight: real): (w: Paddles.PaddleView)
    ensures w.(y := v.y) == v
    ensures w.y == Paddles.MovedY(v.y, f.up, f.down, speed, dt, v.height, canvasHeight)
  {
    v.(y := Paddles.MovedY(v.y, f.up, f.down, speed, dt, v.height, canvasHeight))
  }

  /** Every ball after `update`. */
  function Advanced(vs: seq<Balls.BallView>, dt: real): (ws: seq<Balls.BallView>)
    ensures |ws| == |vs| && forall k :: 0 <= k < |vs| ==> ws[k] == Balls.Advance(vs[k], dt)
  {
    seq(|vs|, k requires 0 <= k < |vs| => Balls.Advance(vs[k], dt))
  }

  ghost predicate DistinctPaddles(ps: seq<Paddles.Paddle>) {
    forall m, n :: 0 <= m < n < |ps| ==> ps[m] != ps[n]
  }

  /** The registered controllers as values. `Collisions.Views` and `Collisions.PaddleViews`
      do the same for balls and paddles: each class has its own `View` and there is no common
      supertype to abstract over, so there is one such function per class. */
  function ControllerViews(cs: seq<GameController>): (vs: seq<ControllerView>)
    reads cs
    ensures |vs| == |cs| && forall k :: 0 <= k < |cs| ==> vs[k] == cs[k].View()
  {
    seq(|cs|, k requires 0 <= k < |cs| reads cs => cs[k].View())
  }

  /** The gamepad snapshots the controllers were created with. */
  function Stored(cs: seq<GameController>): (gs: seq<Gamepad>)
    ensures |gs| == |cs| && forall k :: 0 <= k < |cs| ==> gs[k] == cs[k].gamepad
  {
    seq(|cs|, k requires 0 <= k < |cs| => cs[k].gamepad)
  }

  function SidesOf(cs: seq<GameController>): (ss: seq<Option<Side>>)
    reads cs
    ensures |ss| == |cs| && forall k :: 0 <= k < |cs| ==> ss[k] == cs[k].side
  {
    seq(|cs|, k requires 0 <= k < |cs| reads cs => cs[k].side)
  }

  /** The registry is a JavaScript `Map` keyed by controller id; it keeps insertion order,
      which the gamepad passes follow, so it is modelled as a sequence with distinct ids. */
  ghost predicate UniqueIds(cs: seq<GameController>) {
    forall m, n :: 0 <= m < n < |cs| ==> cs[m].id != cs[n].id
  }

  /** `controllers.get(id)`: the position of the controller with that id. */
  function Find(cs: seq<GameController>, id: string): (r: Option<nat>)
    ensures r.Some? ==> r.value < |cs| && cs[r.value].id == id
    ensures r.None? <==> forall k :: 0 <= k < |cs| ==> cs[k].id != id
  {
    if cs == [] then None
    else if cs[|cs| - 1].id == id then Some(|cs| - 1)
    else Find(cs[..|cs| - 1], id)
  }

  /** `controllers.delete` of the entry at `k`. */
  function Without(cs: seq<GameController>, k: nat): (ds: seq<GameController>)
    requires k < |cs|
    ensures |ds| == |cs| - 1
  {
    cs[..k] + cs[k + 1..]
  }

  /** Registering a new controller and then removing it by id gives back the registry. */
  lemma RegisterThenRemove(cs: seq<GameController>, c: GameController)
    requires Find(cs, c.id).None?
    ensures Find(cs + [c], c.id) == Some(|cs|)
    ensures Without(cs + [c], |cs|) == cs
  {
  }

  /** The id of every remaining controller differs from the removed one's, given unique ids. */
  lemma {:induction false} WithoutRemovesId(cs: seq<GameController>, k: nat)
    requires UniqueIds(cs) && k < |cs|
    ensures UniqueIds(Without(cs, k))
    ensures forall j :: 0 <= j < |Without(cs, k)| ==> Without(cs, k)[j].id != cs[k].id
  {
    var ds := Without(cs, k);
    assert forall j :: 0 <= j < |ds| ==> ds[j] == (if j < k then cs[j] else cs[j + 1]);
  }

  /** A reconnected controller: connected again, with the computed side if there is one. */
  function Reconnected(v: ControllerView, side: Option<Side>): (w: ControllerView)
    ensures w.state == Connected && w.lastTimestamp == v.lastTimestamp
    ensures w.side == if side.Some? then side else v.side
  {
    v.(state := Connected, side := if side.Some? then side else v.side)
  }

  class Game {
    const width: nat
    const height: nat
    const gamepadEnabled: bool
    const trig: Collisions.Trig
    const grid: Grids.Grid
    /** The light paddle, then the dark one; `Object.values(this.paddles)` is the same list. */
    const paddles: seq<Paddles.Paddle>
    /** The light ball, then the dark one. */
    const balls: seq<Balls.Ball>
    /** Set right after construction, because the manager is created with the game itself. */
    var controllerManager: ControllerManager?
    var id: nat
    var nextId: nat
    var gameState: GameState
    var winner: Option<Side>
    var lastFrameSince: real
    var lastFrameTime: real

    /** The layout the constructor builds, kept by every method: one paddle and one ball per
        side in a fixed order, a grid whose cells have the shape of its dimensions, the manager
        wired back to this game, a fresh id still ahead, and no game left in the over state. */
    ghost predicate Valid()
      reads this, grid, controllerManager
    {
      && |paddles| == 2 && paddles[0].side == Light && paddles[1].side == Dark
      && |balls| == 2 && balls[0].side == Light && balls[1].side == Dark
      && grid.Valid()
      && controllerManager != null && controllerManager.game == this
      && controllerManager.gamepadEnabled == gamepadEnabled
      && controllerManager.Valid()
      && id < nextId
      && gameState != Over
    }

    /** What `reset` leaves behind, given the id counter before it. */
    ghost predicate Restarted(previous: nat, now: real, ys: seq<real>)
      reads this, grid, paddles, balls
    {
      && id == previous && nextId == previous + 1
      && winner.None? && lastFrameSince == 0.0 && lastFrameTime == now
      && grid.Valid() && grid.grid == Grids.InitialLayout(grid.Rows(), grid.Cols())
      && (forall k :: 0 <= k < |paddles| ==> paddles[k].AtOptions())
      && |ys| == |balls|
      && (forall k :: 0 <= k < |balls| ==> balls[k].View() == Balls.Restored(balls[k].options).(y := ys[k]))
    }

    /** `new Game(options)` on a canvas of `width` by `height` pixels; `lightY` and `darkY` are
        the random heights of the two balls. */
    constructor (width: nat, height: nat, gamepadEnabled: bool, trig: Collisions.Trig, lightY: real, darkY: real)
      ensures Valid() && fresh(controllerManager)
      ensures this.width == width && this.height == height && this.gamepadEnabled == gamepadEnabled
      ensures gameState == Initial && winner.None? && lastFrameSince == 0.0 && lastFrameTime == 0.0
      ensures grid.cellSize == CellSize && grid.grid == Grids.InitialLayout(grid.Rows(), grid.Cols())
      ensures paddles[0].options == Paddles.PaddleOptions(Light, width as real - 2.0 * CellSize as real, height as real / 2.0 - 50.0,
                                                          Some(5.0 * CellSize as real), Some(CellSize as real), Some(PaddleSpeed))
      ensures paddles[1].options == Paddles.PaddleOptions(Dark, CellSize as real, height as real / 2.0 - 50.0,
                                                          Some(5.0 * CellSize as real), None, Some(PaddleSpeed))
      ensures balls[0].View() == Balls.BallView(Light, width as real / 4.0, lightY, BallSpeed, BallSpeed, 8.0)
      ensures balls[1].View() == Balls.BallView(Dark, width as real / 4.0 * 3.0, darkY, -BallSpeed, -BallSpeed, 8.0)
      ensures forall k :: 0 <= k < 2 ==> FlagsOf(paddles[k]) == Movement(false, false)
      ensures controllerManager.keysPressed == {} && controllerManager.controllers == []
    {
      this.width := width;
      this.height := height;
      this.gamepadEnabled := gamepadEnabled;
      this.trig := trig;
      var cell := CellSize as real;
      grid := new Grids.Grid(Grids.GridOptions(width, height, Some(CellSize)));
      var lightPaddle := new Paddles.Paddle(Paddles.PaddleOptions(Light, width as real - cell * 2.0, height as real / 2.0 - 50.0,
                                                                  Some(cell * 5.0), Some(cell), Some(PaddleSpeed)));
      var lightBall := new Balls.Ball(Balls.BallOptions(Light, width as real / 4.0, lightY, BallSpeed, BallSpeed, Some(cell / 2.0)));
      var darkPaddle := new Paddles.Paddle(Paddles.PaddleOptions(Dark, cell, height as real / 2.0 - 50.0,
                                                                 Some(cell * 5.0), None, Some(PaddleSpeed)));
      var darkBall := new Balls.Ball(Balls.BallOptions(Dark, width as real / 4.0 * 3.0, darkY, -BallSpeed, -BallSpeed, Some(cell / 2.0)));
      paddles := [lightPaddle, darkPaddle];
      balls := [lightBall, darkBall];
      controllerManager := null;
      id := 0;
      nextId := 1;
      gameState := Initial;
      winner := None;
      lastFrameSince := 0.0;
      lastFrameTime := 0.0;
      new;
      Grids.ShapedIsRectangular(grid.grid, grid.Rows(), grid.Cols());
      controllerManager := new ControllerManager(this, gamepadEnabled);
    }

    /** `getPaddle(side)`: the first paddle of that side; the source throws when there is none. */
    method GetPaddle(side: Side) returns (p: Option<Paddles.Paddle>)
      ensures p.None? <==> forall k :: 0 <= k < |paddles| ==> paddles[k].side != side
      ensures p.Some? ==> exists k :: 0 <= k < |paddles| && paddles[k] == p.value && p.value.side == side
                                      && forall j :: 0 <= j < k ==> paddles[j].side != side
    {
      for k := 0 to |paddles|
        invariant forall j :: 0 <= j < k ==> paddles[j].side != side
      {
        if paddles[k].side == side {
          return Some(paddles[k]);
        }
      }
      return None;
    }

    /** In a valid game each side has its paddle. */
    lemma PaddleOfSide(side: Side, p: Option<Paddles.Paddle>)
      requires Valid()
      requires p.None? <==> forall k :: 0 <= k < |paddles| ==> paddles[k].side != side
      requires p.Some? ==> exists k :: 0 <= k < |paddles| && paddles[k] == p.value && p.value.side == side
                                       && forall j :: 0 <= j < k ==> paddles[j].side != side
      ensures p == Some(if side == Light then paddles[0] else paddles[1])
    {
      assert paddles[if side == Light then 0 else 1].side == side;
    }

    /** `reset` on every paddle, in order. */
    method ResetPaddles()
      requires DistinctPaddles(paddles)
      modifies paddles
      ensures forall k :: 0 <= k < |paddles| ==> paddles[k].AtOptions() && FlagsOf(paddles[k]) == old(FlagsOf(paddles[k]))
    {
      for k := 0 to |paddles|
        invariant forall j :: 0 <= j < k ==> paddles[j].AtOptions()
        invariant forall j :: 0 <= j < |paddles| ==> FlagsOf(paddles[j]) == old(FlagsOf(paddles[j]))
      {
        paddles[k].Reset();
      }
    }

    /** `reset` and then `setY` with the next random height on every ball, in order. */
    method ResetBalls(ys: seq<real>)
      requires Collisions.Distinct(balls) && |ys| == |balls|
      modifies balls
      ensures forall k :: 0 <= k < |balls| ==> balls[k].View() == Balls.Restored(balls[k].options).(y := ys[k])
    {
      for k := 0 to |balls|
        invariant forall j :: 0 <= j < k ==> balls[j].View() == Balls.Restored(balls[j].options).(y := ys[j])
      {
        balls[k].Reset();
        balls[k].SetY(ys[k]);
      }
    }

    /** `reset`: a new id, the initial state without a winner, the grid, paddles and balls back
        to their options, no keys held, and the frame clock restarted at `now`. The paddles'
        movement flags and the debug overlay survive. */
    method Reset(now: real, ys: seq<real>)
      requires Valid() && |ys| == |balls|
      modifies this`id, this`nextId, this`gameState, this`winner, this`lastFrameSince, this`lastFrameTime
      modifies grid, paddles, balls, controllerManager`keysPressed
      ensures Valid() && Restarted(old(nextId), now, ys) && gameState == Initial
      ensures controllerManager.keysPressed == {}
      ensures forall k :: 0 <= k < |paddles| ==> FlagsOf(paddles[k]) == old(FlagsOf(paddles[k]))
      ensures grid.showDebugGrid == old(grid.showDebugGrid)
    {
      controllerManager.Reset();
      ResetPieces(ys);
      Restamp(now);
    }

    /** The grid, the paddles and the balls of `reset`, in that order. */
    method ResetPieces(ys: seq<real>)
      requires DistinctPaddles(paddles) && Collisions.Distinct(balls) && |ys| == |balls|
      modifies grid, paddles, balls
      ensures grid.Valid() && grid.grid == Grids.InitialLayout(grid.Rows(), grid.Cols())
      ensures grid.showDebugGrid == old(grid.showDebugGrid)
      ensures forall k :: 0 <= k < |paddles| ==> paddles[k].AtOptions() && FlagsOf(paddles[k]) == old(FlagsOf(paddles[k]))
      ensures forall k :: 0 <= k < |balls| ==> balls[k].View() == Balls.Restored(balls[k].options).(y := ys[k])
    {
      grid.Reset();
      ResetPaddles();
      ResetBalls(ys);
    }

    method Restamp(now: real)
      modifies this`id, this`nextId, this`gameState, this`winner, this`lastFrameSince, this`lastFrameTime
      ensures id == old(nextId) && nextId == old(nextId) + 1 && gameState == Initial && winner == None
      ensures lastFrameSince == 0.0 && lastFrameTime == now
    {
      id, nextId, gameState, winner, lastFrameSince, lastFrameTime := nextId, nextId + 1, Initial, None, 0.0, now;
    }

    /** `splash`: a reset without starting the game. */
    method Splash(now: real, ys: seq<real>)
      requires Valid() && |ys| == |balls|
      modifies this`id, this`nextId, this`gameState, this`winner, this`lastFrameSince, this`lastFrameTime
      modifies grid, paddles, balls, controllerManager`keysPressed
      ensures Valid() && Restarted(old(nextId), now, ys) && gameState == Initial
      ensures controllerManager.keysPressed == {}
      ensures forall k :: 0 <= k < |paddles| ==> FlagsOf(paddles[k]) == old(FlagsOf(paddles[k]))
      ensures grid.showDebugGrid == old(grid.showDebugGrid)
    {
      Reset(now, ys);
    }

    /** `start`: nothing while running; otherwise a reset and then the running state. */
    method Start(now: real, ys: seq<real>)
      requires Valid() && |ys| == |balls|
      modifies this`id, this`nextId, this`gameState, this`winner, this`lastFrameSince, this`lastFrameTime
      modifies grid, paddles, balls, controllerManager`keysPressed
      ensures Valid()
      ensures old(gameState) == Running ==>
                unchanged(this, grid, controllerManager) && unchanged(paddles) && unchanged(balls)
      ensures old(gameState) != Running ==>
                gameState == Running && Restarted(old(nextId), now, ys) && controllerManager.keysPressed == {}
      ensures forall k :: 0 <= k < |paddles| ==> FlagsOf(paddles[k]) == old(FlagsOf(paddles[k]))
      ensures grid.showDebugGrid == old(grid.showDebugGrid)
    {
      if gameState == Running {
        return;
      }
      Reset(now, ys);
      gameState := Running;
    }

    /** `stop`: the stopped state, from any state. */
    method Stop()
      requires Valid()
      modifies this`gameState
      ensures Valid() && gameState == Stopped
    {
      if gameState == Stopped {
        return;
      }
      gameState := Stopped;
    }

    /** `pause`: the paused state, from any state (also from initial or stopped). */
    method Pause()
      requires Valid()
      modifies this`gameState
      ensures Valid() && gameState == Paused
    {
      if gameState == Paused {
        return;
      }
      gameState := Paused;
    }

    /** `resume`: the running state; unless already running, the frame clock restarts at `now`. */
    method Resume(now: real)
      requires Valid()
      modifies this`gameState, this`lastFrameTime
      ensures Valid() && gameState == Running
      ensures lastFrameTime == if old(gameState) == Running then old(lastFrameTime) else now
    {
      if gameState == Running {
        return;
      }
      lastFrameTime := now;
      gameState := Running;
    }

    /** `togglePause`. */
    method TogglePause(now: real)
      requires Valid()
      modifies this`gameState, this`lastFrameTime
      ensures Valid() && gameState == Toggled(old(gameState))
      ensures lastFrameTime == if old(gameState) == Paused then now else old(lastFrameTime)
    {
      if gameState == Running {
        Pause();
      } else if gameState == Paused {
        Resume(now);
      }
    }

    /** `gameOver(side)`: the winner is recorded and `stop` ends the game in the stopped state. */
    method GameOver(side: Side)
      requires Valid()
      modifies this`gameState, this`winner
      ensures Valid() && (gameState, winner) == Ended(old(gameState), old(winner), side)
      ensures ControllerViews(controllerManager.controllers) == old(ControllerViews(controllerManager.controllers))
      ensures Collisions.PaddleViews(paddles) == old(Collisions.PaddleViews(paddles))
    {
      if gameState == Over {
        return;
      }
      gameState := Over;
      winner := Some(side);
      gameState := Stopped;
    }

    /** `destroy`: stop, then tear the manager down. */
    method Destroy()
      requires Valid()
      modifies this`gameState, controllerManager`keysPressed, controllerManager`controllers, controllerManager`polling
      ensures Valid() && gameState == Stopped
      ensures controllerManager.keysPressed == {} && controllerManager.controllers == [] && !controllerManager.polling
    {
      Stop();
      controllerManager.Destroy();
    }

    /** `paddle.update()` on every paddle, in order. */
    method UpdatePaddles()
      requires Valid()
      modifies paddles
      ensures Valid() && ControllerViews(controllerManager.controllers) == old(ControllerViews(controllerManager.controllers))
      ensures Collisions.Views(balls) == old(Collisions.Views(balls)) && grid.grid == old(grid.grid)
      ensures forall k :: 0 <= k < |paddles| ==>
                && paddles[k].View() == Stepped(old(paddles[k].View()), FlagsOf(paddles[k]), paddles[k].speed, lastFrameSince, height as real)
                && FlagsOf(paddles[k]) == old(FlagsOf(paddles[k])) && paddles[k].speed == old(paddles[k].speed)
    {
      assert paddles[0] != paddles[1];
      for k := 0 to |paddles|
        invariant forall j :: 0 <= j < |paddles| ==>
                    && FlagsOf(paddles[j]) == old(FlagsOf(paddles[j])) && paddles[j].speed == old(paddles[j].speed)
                    && paddles[j].View() == (if j < k then Stepped(old(paddles[j].View()), FlagsOf(paddles[j]), paddles[j].speed, lastFrameSince, height as real)
                                             else old(paddles[j].View()))
      {
        paddles[k].Update(lastFrameSince, height as real);
      }
    }

    /** `ball.update()` on every ball, in order. */
    method UpdateBalls()
      requires Valid()
      modifies balls
      ensures Valid() && ControllerViews(controllerManager.controllers) == old(ControllerViews(controllerManager.controllers))
      ensures Collisions.PaddleViews(paddles) == old(Collisions.PaddleViews(paddles))
      ensures Collisions.Views(balls) == Advanced(old(Collisions.Views(balls)), lastFrameSince)
    {
      ghost var before := Collisions.Views(balls);
      assert balls[0] != balls[1];
      for k := 0 to |balls|
        invariant forall j :: 0 <= j < |balls| ==>
                    balls[j].View() == (if j < k then Balls.Advance(before[j], lastFrameSince) else before[j])
      {
        balls[k].Update(lastFrameSince);
      }
      assert Collisions.Views(balls) == Advanced(before, lastFrameSince);
    }

    /** The collision pass of `update` over the balls, the paddles and the grid, as it runs on
        the arena `a`. */
    method Collide(ghost a: Collisions.Arena) returns (lost: Option<Side>)
      requires Valid()
      requires a == Collisions.Arena(Collisions.PaddleViews(paddles), lastFrameSince, width as real, height as real, trig)
      modifies balls, grid`grid
      ensures Valid() && Collisions.PaddleViews(paddles) == a.paddles
      ensures ControllerViews(controllerManager.controllers) == old(ControllerViews(controllerManager.controllers))
      ensures unchanged(paddles)
      ensures var r := Collisions.RunFrom(Collisions.Frame(old(Collisions.Views(balls)), old(grid.grid), None), 0, a);
              Collisions.Views(balls) == r.balls && grid.grid == r.cells && lost == r.winner
    {
      assert balls[0] != balls[1];
      ghost var cells := grid.grid;
      ghost var cv := ControllerViews(controllerManager.controllers);
      lost := Collisions.HandleCollisions(balls, paddles, grid, lastFrameSince, width as real, height as real, trig);
      Collisions.SameShapeHasShape(cells, grid.grid, grid.Rows(), grid.Cols());
      assert grid.Valid();
      assert ControllerViews(controllerManager.controllers) == cv;
    }

    /** The part of `update` after the controllers: the paddles move, the collision pass runs
        (with `gameOver` if it yields a winner), and then the balls move, even on the frame the
        game ends. */
    method Physics()
      requires Valid()
      modifies this`gameState, this`winner, paddles, balls, grid`grid
      ensures Valid() && ControllerViews(controllerManager.controllers) == old(ControllerViews(controllerManager.controllers))
      ensures lastFrameSince == old(lastFrameSince) && lastFrameTime == old(lastFrameTime)
      ensures controllerManager == old(controllerManager) && controllerManager.controllers == old(controllerManager.controllers)
      ensures forall k :: 0 <= k < 2 ==>
                && paddles[k].View() == Stepped(old(paddles[k].View()), FlagsOf(paddles[k]), paddles[k].speed, lastFrameSince, height as real)
                && FlagsOf(paddles[k]) == old(FlagsOf(paddles[k])) && paddles[k].speed == old(paddles[k].speed)
      ensures var r := Collisions.RunFrom(Collisions.Frame(old(Collisions.Views(balls)), old(grid.grid), None), 0,
                         Collisions.Arena(Collisions.PaddleViews(paddles), lastFrameSince, width as real, height as real, trig));
              && Collisions.Views(balls) == Advanced(r.balls, lastFrameSince)
              && grid.grid == r.cells
              && gameState == (if r.winner.Some? then Stopped else old(gameState))
              && winner == (if r.winner.Some? then r.winner else old(winner))
    {
      var lost := MoveAndCollide();
      Conclude(lost);
    }

    /** The paddles move, then the collision pass runs on the arena they leave behind. */
    method MoveAndCollide() returns (lost: Option<Side>)
      requires Valid()
      modifies paddles, balls, grid`grid
      ensures Valid() && ControllerViews(controllerManager.controllers) == old(ControllerViews(controllerManager.controllers))
      ensures forall k :: 0 <= k < 2 ==>
                && paddles[k].View() == Stepped(old(paddles[k].View()), FlagsOf(paddles[k]), paddles[k].speed, lastFrameSince, height as real)
                && FlagsOf(paddles[k]) == old(FlagsOf(paddles[k])) && paddles[k].speed == old(paddles[k].speed)
      ensures var r := Collisions.RunFrom(Collisions.Frame(old(Collisions.Views(balls)), old(grid.grid), None), 0,
                         Collisions.Arena(Collisions.PaddleViews(paddles), lastFrameSince, width as real, height as real, trig));
              Collisions.Views(balls) == r.balls && grid.grid == r.cells && lost == r.winner
    {
      ghost var bs, cells := Collisions.Views(balls), grid.grid;
      UpdatePaddles();
      ghost var a := Collisions.Arena(Collisions.PaddleViews(paddles), lastFrameSince, width as real, height as real, trig);
      lost := Collide(a);
    }

    /** `gameOver` if the collision pass yields a winner, then the balls move, even on the
        frame the game ends. */
    method Conclude(lost: Option<Side>)
      requires Valid()
      modifies this`gameState, this`winner, balls
      ensures Valid() && ControllerViews(controllerManager.controllers) == old(ControllerViews(controllerManager.controllers))
      ensures forall k :: 0 <= k < 2 ==> Placement(paddles[k]) == old(Placement(paddles[k])) && FlagsOf(paddles[k]) == old(FlagsOf(paddles[k]))
      ensures Collisions.PaddleViews(paddles) == old(Collisions.PaddleViews(paddles)) && grid.grid == old(grid.grid)
      ensures Collisions.Views(balls) == Advanced(old(Collisions.Views(balls)), lastFrameSince)
      ensures gameState == (if lost.Some? then Stopped else old(gameState))
      ensures winner == (if lost.Some? then lost else old(winner))
    {
      if lost.Some? {
        GameOver(lost.value);
      }
      UpdateBalls();
    }

    /** The controller pass of `update`, as the game sees it: the controllers are polled and
        steer the paddles; balls, grid, winner and clock are left as they were. */
    method PollControllers(pads: map<nat, Gamepad>, now: real)
      requires Valid() && gameState == Running && PadsHaveCommandButtons(pads)
      modifies this`gameState, this`lastFrameTime, controllerManager.controllers, paddles
      ensures Valid() && lastFrameTime == old(lastFrameTime) && lastFrameSince == old(lastFrameSince) && winner == old(winner)
      ensures controllerManager == old(controllerManager) && controllerManager.controllers == old(controllerManager.controllers)
      ensures Collisions.Views(balls) == old(Collisions.Views(balls)) && grid.grid == old(grid.grid)
      ensures var p := Polled(gamepadEnabled, Stored(controllerManager.controllers), old(ControllerViews(controllerManager.controllers)), pads);
              && ControllerViews(controllerManager.controllers) == p.views
              && gameState == (if p.toggled then Paused else Running)
              && FlagsOf(paddles[0]) == p.light.GetOr(old(FlagsOf(paddles[0])))
              && FlagsOf(paddles[1]) == p.dark.GetOr(old(FlagsOf(paddles[1])))
              && forall k :: 0 <= k < 2 ==> Placement(paddles[k]) == old(Placement(paddles[k]))
    {
      controllerManager.Update(pads, now);
    }

    /** `update`, inside a frame of a running game: the controllers first, then the paddles, then
        the collision pass (and `gameOver` if it yields a winner), then the balls. Since the
        game is running, a pause from a gamepad only pauses and `now` is not used. */
    method Update(pads: map<nat, Gamepad>, now: real)
      requires Valid() && gameState == Running && PadsHaveCommandButtons(pads)
      modifies this`gameState, this`winner, this`lastFrameTime
      modifies controllerManager.controllers, paddles, balls, grid`grid
      ensures Valid() && lastFrameSince == old(lastFrameSince) && lastFrameTime == old(lastFrameTime)
      ensures var p := Polled(gamepadEnabled, Stored(controllerManager.controllers), old(ControllerViews(controllerManager.controllers)), pads);
              && ControllerViews(controllerManager.controllers) == p.views
              && FlagsOf(paddles[0]) == p.light.GetOr(old(FlagsOf(paddles[0])))
              && FlagsOf(paddles[1]) == p.dark.GetOr(old(FlagsOf(paddles[1])))
              && (forall k :: 0 <= k < 2 ==>
                    && paddles[k].View() == Stepped(old(paddles[k].View()), FlagsOf(paddles[k]), paddles[k].speed, lastFrameSince, height as real)
                    && paddles[k].speed == old(paddles[k].speed))
              && var r := Collisions.RunFrom(Collisions.Frame(old(Collisions.Views(balls)), old(grid.grid), None), 0,
                            Collisions.Arena(Collisions.PaddleViews(paddles), lastFrameSince, width as real, height as real, trig));
                 && Collisions.Views(balls) == Advanced(r.balls, lastFrameSince)
                 && grid.grid == r.cells
                 && gameState == (if r.winner.Some? then Stopped else if p.toggled then Paused else Running)
                 && winner == (if r.winner.Some? then r.winner else old(winner))
    {
      PollControllers(pads, now);
      Physics();
    }

    /** `gameLoop(time)`: nothing unless running; otherwise the seconds since the last frame,
        the new frame time, and `update`. */
    method Tick(time: real, pads: map<nat, Gamepad>)
      requires Valid() && PadsHaveCommandButtons(pads)
      modifies this`gameState, this`winner, this`lastFrameSince, this`lastFrameTime
      modifies controllerManager.controllers, paddles, balls, grid`grid
      ensures Valid()
      ensures old(gameState) != Running ==>
                unchanged(this, grid) && unchanged(paddles) && unchanged(balls) && unchanged(controllerManager.controllers)
      ensures old(gameState) == Running ==>
                && lastFrameSince == FrameSeconds(time, old(lastFrameTime)) && lastFrameTime == time
                && var p := Polled(gamepadEnabled, Stored(controllerManager.controllers), old(ControllerViews(controllerManager.controllers)), pads);
                   && ControllerViews(controllerManager.controllers) == p.views
                   && FlagsOf(paddles[0]) == p.light.GetOr(old(FlagsOf(paddles[0])))
                   && FlagsOf(paddles[1]) == p.dark.GetOr(old(FlagsOf(paddles[1])))
                   && (forall k :: 0 <= k < 2 ==>
                         && paddles[k].View() == Stepped(old(paddles[k].View()), FlagsOf(paddles[k]), paddles[k].speed, lastFrameSince, height as real)
                         && paddles[k].speed == old(paddles[k].speed))
                   && var r := Collisions.RunFrom(Collisions.Frame(old(Collisions.Views(balls)), old(grid.grid), None), 0,
                                 Collisions.Arena(Collisions.PaddleViews(paddles), lastFrameSince, width as real, height as real, trig));
                      && Collisions.Views(balls) == Advanced(r.balls, lastFrameSince)
                      && grid.grid == r.cells
                      && gameState == (if r.winner.Some? then Stopped else if p.toggled then Paused else Running)
                      && winner == (if r.winner.Some? then r.winner else old(winner))
    {
      if gameState != Running {
        return;
      }
      SetClock(time);
      Update(pads, time);
    }

    /** The first two steps of a running frame: the seconds since the last frame, then the new
        frame time. Nothing else changes. */
    method SetClock(time: real)
      requires Valid()
      modifies this`lastFrameSince, this`lastFrameTime
      ensures Valid() && lastFrameSince == FrameSeconds(time, old(lastFrameTime)) && lastFrameTime == time
      ensures gameState == old(gameState) && winner == old(winner)
      ensures controllerManager == old(controllerManager) && controllerManager.controllers == old(controllerManager.controllers)
      ensures ControllerViews(controllerManager.controllers) == old(ControllerViews(controllerManager.controllers))
      ensures FlagsOf(paddles[0]) == old(FlagsOf(paddles[0])) && FlagsOf(paddles[1]) == old(FlagsOf(paddles[1]))
      ensures forall k :: 0 <= k < 2 ==> Placement(paddles[k]) == old(Placement(paddles[k]))
      ensures Collisions.Views(balls) == old(Collisions.Views(balls)) && grid.grid == old(grid.grid)
    {
      lastFrameSince, lastFrameTime := (time - lastFrameTime) / 1000.0, time;
    }
  }

  /** `ControllerManager`: the held keys, the gamepad registry and the interval flag. Event
      listener bookkeeping is not modelled; each handler is a method taking the event's data. */
  class ControllerManager {
    const game: Game
    const gamepadEnabled: bool
    var keysPressed: set<string>
    var controllers: seq<GameController>
    /** Whether the periodic gamepad check (`controllersInterval`) is scheduled. */
    var polling: bool

    /** Ids are unique, and the periodic check runs exactly while a gamepad is registered. */
    ghost predicate Valid()
      reads this
    {
      UniqueIds(controllers) && (polling <==> |controllers| > 0)
    }

    constructor (game: Game, gamepadEnabled: bool)
      ensures this.game == game && this.gamepadEnabled == gamepadEnabled
      ensures keysPressed == {} && controllers == [] && !polling && Valid()
    {
      this.game := game;
      this.gamepadEnabled := gamepadEnabled;
      keysPressed := {};
      controllers := [];
      polling := false;
    }

    /** `destroy`: the interval cleared, the registry and the held keys emptied. */
    method Destroy()
      modifies this`keysPressed, this`controllers, this`polling
      ensures keysPressed == {} && controllers == [] && !polling && Valid()
    {
      polling := false;
      controllers := [];
      keysPressed := {};
    }

    /** `reset`: no key is held any more. */
    method Reset()
      modifies this`keysPressed
      ensures keysPressed == {}
    {
      keysPressed := {};
    }

    /** `setPaddleMovement`: each paddle follows its two keys. */
    method SetPaddleMovement()
      requires game.Valid() && game.controllerManager == this
      modifies game.paddles
      ensures forall k :: 0 <= k < |game.paddles| ==>
                FlagsOf(game.paddles[k]) == KeyMovement(keysPressed, game.paddles[k].side)
                && Placement(game.paddles[k]) == old(Placement(game.paddles[k]))
    {
      var dark := game.GetPaddle(Dark);
      game.PaddleOfSide(Dark, dark);
      dark.value.SetMovement(UpKey(Dark) in keysPressed, DownKey(Dark) in keysPressed);
      var light := game.GetPaddle(Light);
      game.PaddleOfSide(Light, light);
      light.value.SetMovement(UpKey(Light) in keysPressed, DownKey(Light) in keysPressed);
    }

    /** `startContinuousMovement(key, paddle)`: the paddle of `paddle`'s side follows `key`. */
    method StartContinuousMovement(key: string, paddle: Paddles.Paddle)
      requires game.Valid() && game.controllerManager == this
      modifies game.paddles
      ensures forall k :: 0 <= k < |game.paddles| ==>
                FlagsOf(game.paddles[k]) == (if game.paddles[k].side == paddle.side then ContinuousMovement(key, paddle.side)
                                             else old(FlagsOf(game.paddles[k])))
                && Placement(game.paddles[k]) == old(Placement(game.paddles[k]))
    {
      if paddle.side == Dark {
        var p := game.GetPaddle(Dark);
        game.PaddleOfSide(Dark, p);
        p.value.SetMovement(key == "w", key == "s");
      } else {
        var p := game.GetPaddle(Light);
        game.PaddleOfSide(Light, p);
        p.value.SetMovement(key == "o", key == "l");
      }
    }

    /** `stopContinuousMovement(key, paddle)`: the paddle of `paddle`'s side stops; the key is
        not used. */
    method StopContinuousMovement(paddle: Paddles.Paddle)
      requires game.Valid() && game.controllerManager == this
      modifies game.paddles
      ensures forall k :: 0 <= k < |game.paddles| ==>
                FlagsOf(game.paddles[k]) == (if game.paddles[k].side == paddle.side then Movement(false, false)
                                             else old(FlagsOf(game.paddles[k])))
                && Placement(game.paddles[k]) == old(Placement(game.paddles[k]))
    {
      if paddle.side == Dark {
        var p := game.GetPaddle(Dark);
        game.PaddleOfSide(Dark, p);
        p.value.SetMovement(false, false);
      } else {
        var p := game.GetPaddle(Light);
        game.PaddleOfSide(Light, p);
        p.value.SetMovement(false, false);
      }
    }

    /** `togglePause`. */
    method TogglePause(now: real)
      requires game.Valid() && game.controllerManager == this
      modifies game`gameState, game`lastFrameTime
      ensures game.Valid() && ControllerViews(controllers) == old(ControllerViews(controllers))
      ensures forall j :: 0 <= j < 2 ==> FlagsOf(game.paddles[j]) == old(FlagsOf(game.paddles[j]))
                                         && Placement(game.paddles[j]) == old(Placement(game.paddles[j]))
      ensures game.gameState == Toggled(old(game.gameState))
      ensures game.lastFrameTime == if old(game.gameState) == Paused then now else old(game.lastFrameTime)
    {
      game.TogglePause(now);
    }

    /** `newGame`: `stop` and then `start`, so always a full reset into the running state. */
    method NewGame(now: real, ys: seq<real>)
      requires game.Valid() && game.controllerManager == this && |ys| == |game.balls|
      modifies game`id, game`nextId, game`gameState, game`winner, game`lastFrameSince, game`lastFrameTime
      modifies game.grid, game.paddles, game.balls, this`keysPressed
      ensures game.Valid() && game.gameState == Running && game.Restarted(old(game.nextId), now, ys)
      ensures keysPressed == {} && ControllerViews(controllers) == old(ControllerViews(controllers))
      ensures forall k :: 0 <= k < |game.paddles| ==> FlagsOf(game.paddles[k]) == old(FlagsOf(game.paddles[k]))
      ensures game.grid.showDebugGrid == old(game.grid.showDebugGrid)
    {
      game.Stop();
      game.Start(now, ys);
    }

    /** What `handleKeyDown` does for a command key before recording it: `n` starts a new
        game, `p` toggles pause, `g` toggles the debug grid, and any other key does nothing. */
    method RunKeyCommand(c: Command, now: real, ys: seq<real>)
      requires game.Valid() && game.controllerManager == this && |ys| == |game.balls|
      modifies game`id, game`nextId, game`gameState, game`winner, game`lastFrameSince, game`lastFrameTime
      modifies game.grid, game.paddles, game.balls, this`keysPressed
      ensures game.Valid()
      ensures c == Command.NewGame ==>
                && game.gameState == Running && game.Restarted(old(game.nextId), now, ys) && keysPressed == {}
                && game.grid.showDebugGrid == old(game.grid.showDebugGrid)
      ensures c != Command.NewGame ==>
                && keysPressed == old(keysPressed)
                && unchanged(game`id, game`nextId, game`winner, game`lastFrameSince)
                && unchanged(game.balls) && unchanged(game.paddles) && game.grid.grid == old(game.grid.grid)
                && game.gameState == (if c == Command.TogglePause then Toggled(old(game.gameState)) else old(game.gameState))
                && game.lastFrameTime == (if c == Command.TogglePause && old(game.gameState) == Paused then now
                                          else old(game.lastFrameTime))
                && game.grid.showDebugGrid == (old(game.grid.showDebugGrid) != (c == Command.ToggleGrid))
    {
      match c {
        case NewGame => NewGame(now, ys);
        case TogglePause => TogglePause(now);
        case ToggleGrid => game.grid.ToggleDebugGrid();
        case NoCommand =>
      }
    }

    /** `handleKeyDown`: `n`, `p` and `g` (after lowercasing) start a new game, toggle pause and
        toggle the debug grid; then the key is recorded and the paddles follow the held keys.
        A new game clears the held keys first, so afterwards only `n` is held. */
    method HandleKeyDown(key: string, now: real, ys: seq<real>)
      requires game.Valid() && game.controllerManager == this && |ys| == |game.balls|
      modifies game`id, game`nextId, game`gameState, game`winner, game`lastFrameSince, game`lastFrameTime
      modifies game.grid, game.paddles, game.balls, this`keysPressed
      ensures game.Valid()
      ensures var k := LowerKey(key);
              keysPressed == (if KeyCommand(k) == Command.NewGame then {} else old(keysPressed)) + {k}
      ensures forall k :: 0 <= k < |game.paddles| ==>
                FlagsOf(game.paddles[k]) == KeyMovement(keysPressed, game.paddles[k].side)
      ensures KeyCommand(LowerKey(key)) == Command.NewGame ==>
                game.gameState == Running && game.Restarted(old(game.nextId), now, ys)
                && game.grid.showDebugGrid == old(game.grid.showDebugGrid)
      ensures KeyCommand(LowerKey(key)) != Command.NewGame ==>
                && unchanged(game`id, game`nextId, game`winner, game`lastFrameSince)
                && unchanged(game.balls) && game.grid.grid == old(game.grid.grid)
                && (forall k :: 0 <= k < |game.paddles| ==> Placement(game.paddles[k]) == old(Placement(game.paddles[k])))
                && game.gameState == (if KeyCommand(LowerKey(key)) == Command.TogglePause then Toggled(old(game.gameState)) else old(game.gameState))
                && game.lastFrameTime == (if KeyCommand(LowerKey(key)) == Command.TogglePause && old(game.gameState) == Paused then now
                                          else old(game.lastFrameTime))
                && game.grid.showDebugGrid == (old(game.grid.showDebugGrid) != (KeyCommand(LowerKey(key)) == Command.ToggleGrid))
    {
      var k := LowerKey(key);
      RunKeyCommand(KeyCommand(k), now, ys);
      keysPressed := keysPressed + {k};
      SetPaddleMovement();
    }

    /** `handleKeyUp`: the lowercased key is released and the paddles follow the held keys. */
    method HandleKeyUp(key: string)
      requires game.Valid() && game.controllerManager == this
      modifies this`keysPressed, game.paddles
      ensures keysPressed == old(keysPressed) - {LowerKey(key)}
      ensures forall k :: 0 <= k < |game.paddles| ==>
                FlagsOf(game.paddles[k]) == KeyMovement(keysPressed, game.paddles[k].side)
                && Placement(game.paddles[k]) == old(Placement(game.paddles[k]))
    {
      keysPressed := keysPressed - {LowerKey(key)};
      SetPaddleMovement();
    }

    /** A known pad reconnects: its controller is marked connected and takes `side` if there is one. */
    method Reconnect(k: nat, side: Option<Side>)
      requires UniqueIds(controllers) && k < |controllers|
      modifies controllers[k]
      ensures ControllerViews(controllers) == old(ControllerViews(controllers))[k := Reconnected(old(controllers[k].View()), side)]
    {
      ghost var vs := ControllerViews(controllers);
      var c := controllers[k];
      c.SetState(Connected);
      if side.Some? {
        c.SetPlayerSide(side.value);
      }
      assert forall j :: 0 <= j < |controllers| && j != k ==> controllers[j] != c;
      assert ControllerViews(controllers) == vs[k := Reconnected(vs[k], side)];
    }

    /** A new pad: a fresh controller with `side` at the end of the registry, and the periodic
        check scheduled. */
    method Register(g: Gamepad, side: Option<Side>)
      requires Valid() && Find(controllers, ControllerId(g.index)).None?
      modifies this`controllers, this`polling
      ensures Valid() && polling
      ensures |controllers| == |old(controllers)| + 1 && controllers[..|old(controllers)|] == old(controllers)
      ensures fresh(controllers[|old(controllers)|]) && controllers[|old(controllers)|].gamepad == g
      ensures ControllerViews(controllers) == old(ControllerViews(controllers)) + [ControllerView(StateOf(g), side, 0.0)]
    {
      var gc := new GameController(g, side);
      ghost var vs := ControllerViews(controllers);
      controllers := controllers + [gc];
      assert ControllerViews(controllers) == vs + [gc.View()];
      if !polling {
        polling := true;
      }
    }

    /** `handleGamepadConnected(e)` for the pad `g`: the side comes from the registry as it was;
        a known pad is marked connected and takes that side if there is one; a new pad gets a
        fresh controller at the end of the registry, and the periodic check is scheduled. */
    method HandleGamepadConnected(g: Gamepad)
      requires Valid()
      modifies this`controllers, this`polling, controllers
      ensures Valid()
      ensures var side := AssignedSide(old(SidesOf(controllers)));
              var found := Find(old(controllers), ControllerId(g.index));
              && (found.Some? ==>
                    && controllers == old(controllers) && polling == old(polling)
                    && ControllerViews(controllers)
                       == old(ControllerViews(controllers))[found.value := Reconnected(old(controllers[found.value].View()), side)])
              && (found.None? ==>
                    && |controllers| == |old(controllers)| + 1 && controllers[..|old(controllers)|] == old(controllers)
                    && fresh(controllers[|old(controllers)|]) && controllers[|old(controllers)|].gamepad == g
                    && ControllerViews(controllers) == old(ControllerViews(controllers)) + [ControllerView(StateOf(g), side, 0.0)]
                    && polling)
    {
      var side: Option<Side> := None;
      if |controllers| == 0 {
        side := Some(Dark);
      } else if |controllers| == 1 {
        var first := controllers[0].side;
        if first == Some(Dark) {
          side := Some(Light);
        } else if first == Some(Light) {
          side := Some(Dark);
        }
      }
      assert side == AssignedSide(SidesOf(controllers));
      var found := Find(controllers, ControllerId(g.index));
      if found.Some? {
        Reconnect(found.value, side);
      } else {
        Register(g, side);
      }
    }

    /** `handleGamepadDisconnected(e)` for the pad `g`: its controller leaves the registry, and
        the periodic check stops once the registry is empty. */
    method HandleGamepadDisconnected(g: Gamepad)
      requires Valid()
      modifies this`controllers, this`polling
      ensures Valid()
      ensures var found := Find(old(controllers), ControllerId(g.index));
              && (found.None? ==> controllers == old(controllers) && polling == old(polling))
              && (found.Some? ==> controllers == Without(old(controllers), found.value))
      ensures forall k :: 0 <= k < |controllers| ==> controllers[k].id != ControllerId(g.index)
    {
      var found := Find(controllers, ControllerId(g.index));
      if found.None? {
        return;
      }
      WithoutRemovesId(controllers, found.value);
      controllers := Without(controllers, found.value);
      if |controllers| == 0 {
        polling := false;
      }
    }

    /** `getGamepad` on controller `k`, given what the browser reports for the pads. */
    method ReadController(pads: map<nat, Gamepad>, k: nat) returns (r: Reading)
      requires UniqueIds(controllers) && k < |controllers|
      modifies controllers[k]
      ensures var rd := Read(old(controllers[k].View()), controllers[k].gamepad, Current(pads, controllers[k].gamepad.index));
              r == rd.1 && ControllerViews(controllers) == old(ControllerViews(controllers))[k := rd.0]
    {
      ghost var vs := ControllerViews(controllers);
      var c := controllers[k];
      r := c.GetGamepad(Current(pads, c.gamepad.index));
      assert forall j :: 0 <= j < |controllers| && j != k ==> controllers[j] != c;
      assert ControllerViews(controllers) == vs[k := c.View()];
    }

    /** `getPaddle(side).setMovement(m.up, m.down)`: only the flags of the paddle of `side` change. */
    method SteerPaddle(side: Side, m: Movement)
      requires game.Valid() && game.controllerManager == this
      modifies game.paddles
      ensures game.Valid() && ControllerViews(controllers) == old(ControllerViews(controllers))
      ensures FlagsOf(game.paddles[0]) == (if side == Light then m else old(FlagsOf(game.paddles[0])))
      ensures FlagsOf(game.paddles[1]) == (if side == Dark then m else old(FlagsOf(game.paddles[1])))
      ensures forall k :: 0 <= k < 2 ==> Placement(game.paddles[k]) == old(Placement(game.paddles[k]))
    {
      var p := game.GetPaddle(side);
      game.PaddleOfSide(side, p);
      p.value.SetMovement(m.up, m.down);
    }

    /** The rest of an iteration of `update` once a controller with a side has been read:
        return on a stale, disconnected or sideless reading, toggle pause and return on
        `buttons[8]`, or set the paddle of the reading's side from the sticks. `f0` and `f1` are
        the movement flags the two paddles had before the pass. */
    method ApplyPollReading(r: Reading, now: real, ghost p: Poll, ghost f0: Movement, ghost f1: Movement)
      returns (halted: bool)
      requires game.Valid() && game.controllerManager == this && (r.isUpdated ==> HasCommandButtons(r.gamepad))
      requires !p.halted && !p.toggled
      requires FlagsOf(game.paddles[0]) == p.light.GetOr(f0) && FlagsOf(game.paddles[1]) == p.dark.GetOr(f1)
      modifies game`gameState, game`lastFrameTime, game.paddles
      ensures var q := PollReading(p, r);
              && halted == q.halted && game.Valid() && ControllerViews(controllers) == old(ControllerViews(controllers))
              && game.gameState == (if q.toggled then Toggled(old(game.gameState)) else old(game.gameState))
              && game.lastFrameTime == (if q.toggled && old(game.gameState) == Paused then now else old(game.lastFrameTime))
              && FlagsOf(game.paddles[0]) == q.light.GetOr(f0) && FlagsOf(game.paddles[1]) == q.dark.GetOr(f1)
              && forall j :: 0 <= j < 2 ==> Placement(game.paddles[j]) == old(Placement(game.paddles[j]))
    {
      if r.state != Connected || !r.isUpdated || r.side.None? {
        return true;
      }
      if r.gamepad.buttons[PauseButton] {
        TogglePause(now);
        return true;
      }
      SteerPaddle(r.side.value, StickMovement(r.gamepad));
      return false;
    }

    /** One iteration of `update` for controller `k`, reached with the pass still going: a
        controller with a side is read and the reading applied. */
    method PollController(pads: map<nat, Gamepad>, now: real, k: nat, ghost stored: seq<Gamepad>, ghost cur: Poll,
                          ghost f0: Movement, ghost f1: Movement)
      returns (halted: bool, ghost next: Poll)
      requires game.Valid() && game.controllerManager == this && PadsHaveCommandButtons(pads)
      requires k < |controllers| && stored == Stored(controllers) && cur.views == ControllerViews(controllers)
      requires !cur.halted && !cur.toggled
      requires FlagsOf(game.paddles[0]) == cur.light.GetOr(f0) && FlagsOf(game.paddles[1]) == cur.dark.GetOr(f1)
      modifies controllers[k], game`gameState, game`lastFrameTime, game.paddles
      ensures next == PollStep(stored, pads, k, cur) && halted == next.halted
      ensures game.Valid() && ControllerViews(controllers) == next.views
      ensures game.gameState == (if next.toggled then Toggled(old(game.gameState)) else old(game.gameState))
      ensures game.lastFrameTime == (if next.toggled && old(game.gameState) == Paused then now else old(game.lastFrameTime))
      ensures FlagsOf(game.paddles[0]) == next.light.GetOr(f0) && FlagsOf(game.paddles[1]) == next.dark.GetOr(f1)
      ensures forall j :: 0 <= j < 2 ==> Placement(game.paddles[j]) == old(Placement(game.paddles[j]))
    {
      next := PollStep(stored, pads, k, cur);
      if controllers[k].side.None? {
        return false, next;
      }
      var r := ReadController(pads, k);
      ghost var p := cur.(views := ControllerViews(controllers));
      assert next == PollReading(p, r);
      halted := ApplyPollReading(r, now, p, f0, f1);
    }

    /** `update`: with gamepads enabled, every controller with a side is read in registry
        order; the pass returns at the first stale, disconnected or sideless reading, toggles
        pause and returns on `buttons[8]`, and otherwise sets the paddle of the controller's side
        from the sticks. */
    method Update(pads: map<nat, Gamepad>, now: real)
      requires game.Valid() && game.controllerManager == this && PadsHaveCommandButtons(pads)
      modifies controllers, game`gameState, game`lastFrameTime, game.paddles
      ensures game.Valid()
      ensures var p := Polled(gamepadEnabled, Stored(controllers), old(ControllerViews(controllers)), pads);
              && ControllerViews(controllers) == p.views
              && game.gameState == (if p.toggled then Toggled(old(game.gameState)) else old(game.gameState))
              && game.lastFrameTime == (if p.toggled && old(game.gameState) == Paused then now else old(game.lastFrameTime))
              && FlagsOf(game.paddles[0]) == p.light.GetOr(old(FlagsOf(game.paddles[0])))
              && FlagsOf(game.paddles[1]) == p.dark.GetOr(old(FlagsOf(game.paddles[1])))
              && forall k :: 0 <= k < 2 ==> Placement(game.paddles[k]) == old(Placement(game.paddles[k]))
    {
      if !gamepadEnabled {
        return;
      }
      ghost var stored := Stored(controllers);
      ghost var start := Poll(ControllerViews(controllers), None, None, false, false);
      ghost var f0, f1 := FlagsOf(game.paddles[0]), FlagsOf(game.paddles[1]);
      ghost var cur := start;
      var k := 0;
      var halted := false;
      while k < |controllers| && !halted
        invariant controllers == old(controllers) && 0 <= k <= |controllers| && |cur.views| == |controllers|
        invariant halted == cur.halted && (!cur.toggled || cur.halted)
        invariant PollFrom(stored, pads, k, cur) == PollFrom(stored, pads, 0, start)
        invariant ControllerViews(controllers) == cur.views
        invariant game.Valid()
        invariant game.gameState == (if cur.toggled then Toggled(old(game.gameState)) else old(game.gameState))
        invariant game.lastFrameTime == (if cur.toggled && old(game.gameState) == Paused then now else old(game.lastFrameTime))
        invariant FlagsOf(game.paddles[0]) == cur.light.GetOr(f0) && FlagsOf(game.paddles[1]) == cur.dark.GetOr(f1)
        invariant forall j :: 0 <= j < 2 ==> Placement(game.paddles[j]) == old(Placement(game.paddles[j]))
      {
        ghost var next;
        halted, next := PollController(pads, now, k, stored, cur, f0, f1);
        cur := next;
        k := k + 1;
      }
    }

    /** The pass of the periodic check over the registry: every controller with a side is read
        in registry order until a stale or disconnected reading, `buttons[8]` or `buttons[9]` ends it;
        the command found is returned to be carried out. */
    method FindGamepadCommand(pads: map<nat, Gamepad>) returns (action: Command)
      requires UniqueIds(controllers) && PadsHaveCommandButtons(pads)
      modifies controllers
      ensures var s := Scanned(Stored(controllers), old(ControllerViews(controllers)), pads);
              ControllerViews(controllers) == s.views && action == s.action
      ensures unchanged(game, game.grid, this) && unchanged(game.paddles) && unchanged(game.balls)
    {
      ghost var stored := Stored(controllers);
      ghost var start := Scan(ControllerViews(controllers), NoCommand, false);
      ghost var cur := start;
      var k := 0;
      var halted := false;
      action := NoCommand;
      while k < |controllers| && !halted
        invariant 0 <= k <= |controllers| && |cur.views| == |controllers|
        invariant halted == cur.halted && action == cur.action
        invariant ScanFrom(stored, pads, k, cur) == ScanFrom(stored, pads, 0, start)
        invariant ControllerViews(controllers) == cur.views
      {
        ghost var next := ScanStep(stored, pads, k, cur);
        if controllers[k].side.Some? {
          var r := ReadController(pads, k);
          assert next == ScanReading(cur.(views := ControllerViews(controllers)), r);
          if r.state != Connected || !r.isUpdated {
            halted := true;
          } else if r.gamepad.buttons[PauseButton] {
            action, halted := Command.TogglePause, true;
          } else if r.gamepad.buttons[NewGameButton] {
            action, halted := Command.NewGame, true;
          }
        }
        cur := next;
        k := k + 1;
      }
    }

    /** What the periodic check does with the command it found: `togglePause` for the pause
        button, `newGame` for the new-game button, and nothing otherwise. */
    method RunGamepadCommand(action: Command, now: real, ys: seq<real>)
      requires game.Valid() && game.controllerManager == this && |ys| == |game.balls|
      modifies game`id, game`nextId, game`gameState, game`winner, game`lastFrameSince, game`lastFrameTime
      modifies game.grid, game.paddles, game.balls, this`keysPressed
      ensures game.Valid() && ControllerViews(controllers) == old(ControllerViews(controllers))
      ensures action == Command.TogglePause ==>
                && game.gameState == Toggled(old(game.gameState))
                && game.lastFrameTime == (if old(game.gameState) == Paused then now else old(game.lastFrameTime))
                && unchanged(game`id, game`nextId, game`winner, game`lastFrameSince, this`keysPressed)
                && unchanged(game.grid) && unchanged(game.paddles) && unchanged(game.balls)
      ensures action == Command.NewGame ==>
                && game.gameState == Running && game.Restarted(old(game.nextId), now, ys) && keysPressed == {}
                && game.grid.showDebugGrid == old(game.grid.showDebugGrid)
                && forall k :: 0 <= k < |game.paddles| ==> FlagsOf(game.paddles[k]) == old(FlagsOf(game.paddles[k]))
      ensures action != Command.TogglePause && action != Command.NewGame ==>
                unchanged(game, game.grid, this) && unchanged(game.paddles) && unchanged(game.balls)
    {
      match action {
        case TogglePause => TogglePause(now);
        case NewGame => NewGame(now, ys);
        case _ =>
      }
    }

    /** The periodic check scheduled while a gamepad is registered: nothing while the game is
        running; otherwise every controller with a side is read in registry order, and the
        check returns at the first stale or disconnected reading, toggles pause on
        `buttons[8]`, and starts a new game on `buttons[9]`. */
    method CheckGamepadCommands(pads: map<nat, Gamepad>, now: real, ys: seq<real>)
      requires game.Valid() && game.controllerManager == this && PadsHaveCommandButtons(pads)
      requires polling && |ys| == |game.balls|
      modifies controllers
      modifies game`id, game`nextId, game`gameState, game`winner, game`lastFrameSince, game`lastFrameTime
      modifies game.grid, game.paddles, game.balls, this`keysPressed
      ensures game.Valid()
      ensures old(game.gameState) == Running ==>
                unchanged(game, game.grid, this) && unchanged(controllers) && unchanged(game.paddles) && unchanged(game.balls)
      ensures old(game.gameState) != Running ==>
                var s := Scanned(Stored(controllers), old(ControllerViews(controllers)), pads);
                && ControllerViews(controllers) == s.views
                && (s.action == Command.TogglePause ==>
                      && game.gameState == Toggled(old(game.gameState))
                      && game.lastFrameTime == (if old(game.gameState) == Paused then now else old(game.lastFrameTime))
                      && unchanged(game`id, game`nextId, game`winner, game`lastFrameSince, this`keysPressed)
                      && unchanged(game.grid) && unchanged(game.paddles) && unchanged(game.balls))
                && (s.action == Command.NewGame ==>
                      && game.gameState == Running && game.Restarted(old(game.nextId), now, ys) && keysPressed == {}
                      && game.grid.showDebugGrid == old(game.grid.showDebugGrid)
                      && forall k :: 0 <= k < |game.paddles| ==> FlagsOf(game.paddles[k]) == old(FlagsOf(game.paddles[k])))
                && (s.action == NoCommand ==>
                      unchanged(game, game.grid, this) && unchanged(game.paddles) && unchanged(game.balls))
    {
      if game.gameState == Running {
        return;
      }
      var action := FindGamepadCommand(pads);
      RunGamepadCommand(action, now, ys);
    }
  }
}
