# dotp simulation core in Dafny

This project models the simulation core of dotp, a two-player paddle game on a territory grid, written in TypeScript (the files under `app/lib/`). Each player has a paddle, a ball and half of a grid of cells. A ball that strikes a cell of its own side bounces back and hands that cell to the other side. A ball that reaches its losing wall ends the match, and the other side wins.

The modules follow the source files:

| module | file | models |
|---|---|---|
| `Sides` | sides.dfy | the two player sides (`PlayerSide`) |
| `Grids` | grid.dfy | `Grid`: the cell layout, reset, cell reads and writes |
| `Balls` | ball.dfy | `Ball`: the constructor, reset, setters and the position step |
| `Paddles` | paddle.dfy | `Paddle`: construction, reset, movement flags, the clamped step |
| `Collisions` | collision.dfy | `CollisionManager`: the four collision checks and `handleCollisions` |
| `Controllers` | controller.dfy | the keyboard map, gamepad readings and `GameController` |
| `Games` | game.dfy | `Game` with its state machine and frame loop, and `ControllerManager` |
| `Env` | env.dfy | `env.ts`: `getEnv`, `normalizeEnv`, the two memo caches and env-file loading |
| `Wrappers` | wrappers.dfy | an `Option` type |

## How the model is built

The objects the source mutates are classes whose methods change their fields: `Grid`, `Ball`, `Paddle`, `GameController`, `Game`, `ControllerManager` and `Environment`. The environment class holds `process.env` and the two caches.

Each loop of the source is a loop in the model, proved against a pure function of the state it reads:
- `handleCollisions` and the pure pass `Collisions.RunFrom`;
- `ControllerManager.update` and `Controllers.Polled`;
- the interval check and `Controllers.Scanned`;
- `initGrid` and `Grids.InitialLayout`;
- the env-file loop and `Env.LoadedText`.

Properties are then proved about those functions, for example:
- a pass changes no ball's side or radius;
- treating a ball captures at most one cell;
- a pass ends with a winner only at a ball that, when its turn came with no winner yet, hit its losing wall, and the winner is that ball's opponent;
- a second gamepad poll on the same snapshots is stale;
- the last assignment to an environment variable wins.

JavaScript number semantics are kept where the code relies on them:
- `futureX || ball.getX()` falls back to the current position when the projection is 0;
- a result field of 0 or `NaN` is not applied;
- `options.x || default` turns 0 into the default on reset;
- the constructor keeps any value that is not `undefined`.

Numbers are Dafny reals, not IEEE doubles. `Math.PI`, `Math.sqrt`, `Math.cos` and `Math.sin` come in as a `Trig` record of functions. The gamepads the browser reports come in as a map from pad index to snapshot. Frame times, `performance.now()` and the random ball heights are parameters. Game ids are a counter rather than ULIDs.

Three behaviours of the code are easy to misread, and the model follows the code in each:
- `gameOver` sets the `over` state but then calls `stop`, so a finished game sits in `stopped`. A second `gameOver` call therefore overwrites the winner (`Games.SecondGameOverOverwrites`).
- A ball hitting a paddle at its exact vertical centre does not leave horizontally. The computed vertical speed is 0, which is falsy, so the ball keeps its old vertical speed (`Collisions.CentreHitKeepsVerticalSpeed`).
- The paddle check computes a corrected x position, but assigns it to its own parameter. The result never moves the ball (`Collisions.CheckPaddle`).

## Model

| member | source | states |
|---|---|---|
| Sides.Opposite | app/lib/collision.ts:45 | the other player is never the same side |
| Sides.OppositeInvolution | app/lib/collision.ts:45 | taking the other player twice gives the side back |
| Grids.CeilDivIsCeiling | app/lib/grid.ts:50-51 | the row and column counts cover the canvas, and one fewer cell would not |
| Grids.ResetCellSize | app/lib/grid.ts:43 | the cell size `reset` picks is never 0 (`options.cellSize \|\| 16`) |
| Grids.ShapedIsRectangular | app/lib/grid.ts:48-60 | a grid of a given shape has rows of equal length |
| Grids.InitialLayout | app/lib/grid.ts:48-60 | the initial grid has the computed shape, and a cell is dark exactly when its column is left of `floor(cols / 2)` |
| Grids.WithCell | app/lib/grid.ts:85-87 | writing a cell changes that cell only and keeps every row's length |
| Grids.WithCellKeepsShape | app/lib/grid.ts:85-87 | writing an in-range cell keeps the grid's shape |
| Grids.DefaultCanvasLayout | app/lib/grid.ts:48-60 | on a 512-pixel canvas with 16-pixel cells the grid is 32 by 32 with the 16 left columns dark |
| Grids.Grid.constructor | app/lib/grid.ts:26-37 | the dimensions come from the options, and the cell size is any given one or 16; the cells are the initial layout and the debug overlay is off |
| Grids.Grid.Reset | app/lib/grid.ts:40-45 | the dimensions are restored and the cell size falls back to 16 for 0; every captured cell is discarded; the overlay flag is kept |
| Grids.Grid.InitGrid | app/lib/grid.ts:48-60 | the two nested loops build exactly the initial layout for the current dimensions |
| Grids.Grid.GetRowLength | app/lib/grid.ts:68-70 | the row count is the ceiling of height over cell size |
| Grids.Grid.GetColLength | app/lib/grid.ts:73-75 | the length of row 0 is the ceiling of width over cell size |
| Grids.Grid.ToggleDebugGrid | app/lib/grid.ts:78-80 | the overlay flag flips and nothing else changes |
| Grids.Grid.GetCell | app/lib/grid.ts:92-94 | the owner of column `x`, row `y`: the column index is the first argument, the row index the second, while the cells are stored row first |
| Grids.Grid.SetCell | app/lib/grid.ts:85-87 | the cell at column x, row y becomes the value, and `getCell` then reads it back |
| Balls.ResetRadius | app/lib/ball.ts:53 | the radius `reset` restores is never 0 |
| Balls.RadiusRulesDiffer | app/lib/ball.ts:43-53 | construction and reset pick different radii exactly when the option is an explicit 0 |
| Balls.Constructed | app/lib/ball.ts:33-45 | a new ball takes side, position and velocity from the options, and the radius when one is given, else 8 |
| Balls.Restored | app/lib/ball.ts:48-55 | reset restores the options' position and velocity, and a non-zero radius |
| Balls.Advance | app/lib/ball.ts:134-138 | one step moves the position by velocity times elapsed time, keeping velocity, side and radius |
| Balls.AdvanceZero | app/lib/ball.ts:134-138 | no elapsed time, no movement |
| Balls.AdvanceAdds | app/lib/ball.ts:134-138 | two steps equal one step of the summed time |
| Balls.MidFieldStep | app/lib/ball.ts:134-138 | a ball at (100, 100) with velocity (300, 300) is at (130, 130) after 0.1 s |
| Balls.Ball.View | app/lib/ball.ts:24 | the side in a ball's state is the one it was built with |
| Balls.Ball.constructor | app/lib/ball.ts:33-45 | the new ball's state is `Constructed(options)` |
| Balls.Ball.Reset | app/lib/ball.ts:48-55 | the ball's state becomes `Restored(options)` |
| Balls.Ball.SetX | app/lib/ball.ts:88-90 | only x changes, to the argument |
| Balls.Ball.SetY | app/lib/ball.ts:93-95 | only y changes, to the argument |
| Balls.Ball.SetXY | app/lib/ball.ts:98-101 | only the position changes, to the arguments |
| Balls.Ball.SetSpeedX | app/lib/ball.ts:104-106 | only the horizontal speed changes |
| Balls.Ball.SetSpeedY | app/lib/ball.ts:109-111 | only the vertical speed changes |
| Balls.Ball.SetSpeed | app/lib/ball.ts:114-117 | only the velocity changes, to the arguments |
| Balls.Ball.Update | app/lib/ball.ts:134-138 | the new state is one `Advance` step of the time since the last frame |
| Paddles.Restored | app/lib/paddle.ts:56-58 | a dimension restored with `option \|\| default` is never 0 when the default is not |
| Paddles.ZeroHeightRule | app/lib/paddle.ts:46-56 | a height of 0 survives construction, but `reset` turns it into 80 |
| Paddles.ClampY | app/lib/paddle.ts:130-132 | the clamped top edge never passes the bottom limit, and never passes the top limit when the limits are ordered; a position within the limits is kept |
| Paddles.MovedYBounds | app/lib/paddle.ts:120-133 | for non-negative height and canvas, a moved paddle's top edge stays between -0.9 h and canvas - h + 0.9 h |
| Paddles.BothFlagsCancel | app/lib/paddle.ts:122-123 | with both flags set, the two displacements cancel and only the clamp acts |
| Paddles.IdleInRangeStays | app/lib/paddle.ts:120-133 | with no flag set, a paddle within the limits stays put |
| Paddles.ClampIdempotent | app/lib/paddle.ts:131-132 | clamping twice is clamping once |
| Paddles.Paddle.View | app/lib/paddle.ts:26 | the side in a paddle's state is the one it was built with |
| Paddles.Paddle.constructor | app/lib/paddle.ts:38-50 | side and position come from the options; every given dimension is kept, even 0, else the default is used; both flags are off |
| Paddles.Paddle.Reset | app/lib/paddle.ts:53-60 | position restored; the dimensions restored with the `\|\|` fallback; the movement flags kept |
| Paddles.Paddle.SetX | app/lib/paddle.ts:68-70 | x becomes the argument and nothing else changes |
| Paddles.Paddle.SetY | app/lib/paddle.ts:78-80 | y becomes the argument and nothing else changes |
| Paddles.Paddle.SetSpeed | app/lib/paddle.ts:98-100 | the speed becomes the argument and nothing else changes |
| Paddles.Paddle.SetMovement | app/lib/paddle.ts:108-111 | both flags are set independently, and both may be on |
| Paddles.Paddle.Update | app/lib/paddle.ts:120-133 | only y changes: it is moved by the flags and then clamped (`MovedY`) |
| Collisions.NegationAlwaysApplies | app/lib/collision.ts:73-76 | a reversed speed is never dropped by the truthiness test, since a 0 reversal leaves 0 |
| Collisions.ApplyMove | app/lib/collision.ts:48-51 | applying a result never changes side or radius, and a coordinate without a result value keeps its value |
| Collisions.Abs | app/lib/collision.ts:148-149 | `Math.abs` is non-negative and is the value or its negation |
| Collisions.CheckBoundary | app/lib/collision.ts:98-139 | a collision happens exactly when a wall is touched; the side walls (left first, right otherwise) reverse `speedX` and place the ball one radius inside; the top and bottom walls do the same for y; `oppositeSide` is set exactly for a dark ball on the left or a light ball on the right |
| Collisions.LeftWallBounce | app/lib/collision.ts:98-125 | a light ball just inside the left wall and moving left is bounced, not lost: placed one radius from the wall and moving right |
| Collisions.LeftWallLosesForDark | app/lib/collision.ts:113-115 | a dark ball touching the left wall is on its losing wall |
| Collisions.ProjectedZeroFallsBack | app/lib/collision.ts:100 | a projection landing exactly on x = 0 is replaced by the current position (`futureX \|\| x`), so a crossing of the left wall can go undetected |
| Collisions.SquareMonotone | app/lib/collision.ts:169 | squaring keeps the order of non-negative numbers |
| Collisions.SquareStrictMonotone | app/lib/collision.ts:169 | squaring keeps the strict order of non-negative numbers |
| Collisions.PaddleHitIsCircleMeetsBox | app/lib/collision.ts:147-175 | the staged test, with its early exits and corner test, decides exactly whether the ball's circle meets the paddle's rectangle |
| Collisions.ExitSpeeds | app/lib/collision.ts:177-197 | a paddle of height 0 yields no speeds (`NaN` is falsy); any other paddle yields both components, the magnitude turned by the bounce angle, away from the paddle's side |
| Collisions.CheckPaddle | app/lib/collision.ts:142-200 | a hit is reported exactly when the circle meets the box at the projected centre; a hit sets the exit speeds and never a position, as the corrected x is assigned to a local only; a miss sets nothing |
| Collisions.CentreHitKeepsVerticalSpeed | app/lib/collision.ts:178-189 | a hit at the paddle's exact centre computes a horizontal exit at the full magnitude, but its vertical speed of 0 is falsy, so the ball keeps its old vertical speed |
| Collisions.WithinReachIsSqrtTest | app/lib/collision.ts:211-214 | comparing squares decides the same as the source's `Math.sqrt(d2) < r1 + r2` |
| Collisions.CheckBallToBall | app/lib/collision.ts:203-223 | the balls collide exactly when the centre distance is below the sum of the radii; a collision reverses both components of both balls; a miss sets nothing |
| Collisions.BallToBallSymmetricAtRest | app/lib/collision.ts:203-223 | at current positions, which ball is tested first does not matter |
| Collisions.CheckGrid | app/lib/collision.ts:226-253 | a hit happens exactly when the cell under the projected centre (cells one diameter wide) is in the grid and owned by the ball's side; a hit reverses both speeds, rolls the position back one step and reports exactly that cell; otherwise nothing is set |
| Collisions.GridHitRollsBack | app/lib/collision.ts:245-246 | a grid hit puts the ball back at its current position with both speeds reversed |
| Collisions.SameShapeRectangular | app/lib/collision.ts:87-92 | writing cells keeps a rectangular grid rectangular |
| Collisions.SameShapeHasShape | app/lib/collision.ts:87-92 | writing cells keeps a grid's shape |
| Collisions.PaddlePassKeepsPosition | app/lib/collision.ts:55-63 | the paddle loop never moves the ball or changes its side or radius |
| Collisions.PairStep | app/lib/collision.ts:67-77 | one ball-to-ball iteration keeps the number of balls |
| Collisions.PairPass | app/lib/collision.ts:66-78 | the ball-to-ball loop keeps the number of balls |
| Collisions.PairStepOnlyReverses | app/lib/collision.ts:67-77 | one ball-to-ball iteration only reverses speed components of the two balls |
| Collisions.PairPassOnlyReverses | app/lib/collision.ts:66-78 | the ball-to-ball loop changes no position, side or radius; each speed component is kept or negated |
| Collisions.ApplyCells | app/lib/collision.ts:87-92 | writing the captured cells keeps the grid's shape |
| Collisions.GridStep | app/lib/collision.ts:81-93 | the grid step keeps the number of balls, the grid's shape and the winner |
| Collisions.GridStepCapturesAtMostOne | app/lib/collision.ts:81-93 | the grid step changes no cell, or exactly one cell that belonged to the ball's side and now belongs to the other |
| Collisions.AfterBoundary | app/lib/collision.ts:39-52 | the boundary step never changes side or radius |
| Collisions.ContactPass | app/lib/collision.ts:55-78 | the paddle and ball loops keep the number of balls |
| Collisions.ContactPassKeepsSides | app/lib/collision.ts:55-78 | no contact changes a side or radius, and the other balls only have speeds reversed |
| Collisions.BallStep | app/lib/collision.ts:34-93 | one ball's treatment keeps the number of balls and the grid's shape |
| Collisions.RunFrom | app/lib/collision.ts:31-95 | a pass keeps the number of balls and the grid's shape |
| Collisions.BallStepCapturesAtMostOne | app/lib/collision.ts:34-93 | treating one ball captures at most one cell, one owned by the ball's side, for the other side |
| Collisions.BallStepKeepsSidesAndRadii | app/lib/collision.ts:34-93 | treating one ball changes no ball's side or radius |
| Collisions.RunFromKeepsSidesAndRadii | app/lib/collision.ts:31-95 | a whole pass changes no ball's side or radius |
| Collisions.BallStepWinner | app/lib/collision.ts:40-47 | a winner appears exactly when the ball hit its losing wall; it is the other side, and nothing else changes |
| Collisions.RunTo | app/lib/collision.ts:31-95 | the prefix of the pass: balls `i` up to `m` treated, nothing changed once a winner is set |
| Collisions.RunToThenFrom | app/lib/collision.ts:31-95 | running to ball `m` and then on from `m` is the whole pass |
| Collisions.StopsAtStep | app/lib/collision.ts:31-47 | a ball where the pass from the next ball stops is also where the pass from this ball stops |
| Collisions.RunFromWinnerIsOpponentOfALoser | app/lib/collision.ts:31-47 | when a pass that started without a winner ends with one, there is a ball `m` such that the pass reached `m` with no winner yet, ball `m` as it then stood hit its losing wall, and the winner is its opponent |
| Collisions.Views | app/lib/collision.ts:31 | the views list each ball's state in order |
| Collisions.PaddleViews | app/lib/collision.ts:31 | the views list each paddle's state in order |
| Collisions.ApplyMotionTo | app/lib/collision.ts:48-51 | the four guarded setter calls produce `ApplyMove` of the old state |
| Collisions.ApplyMotion | app/lib/collision.ts:48-51 | the four setter calls on ball i change that ball only |
| Collisions.PaddleContacts | app/lib/collision.ts:55-63 | the paddle loop leaves ball i as `PaddlePass` says and the other balls as they were |
| Collisions.BallContacts | app/lib/collision.ts:66-78 | the ball-to-ball loop leaves the balls as `PairPass` says |
| Collisions.GridContact | app/lib/collision.ts:81-93 | the grid check and the cell loop leave balls and cells as `GridStep` says |
| Collisions.TreatBall | app/lib/collision.ts:34-93 | the loop body for ball i gives exactly `BallStep`, reporting the winner at a losing wall |
| Collisions.Contacts | app/lib/collision.ts:54-93 | paddle, ball and grid contacts after a boundary check that did not lose |
| Collisions.HandleCollisions | app/lib/collision.ts:31-95 | the in-place pass leaves the balls, the cells and the winner exactly as the pure `RunFrom` pass does; paddles unchanged and the grid's shape kept |
| Controllers.LowerChar | app/lib/controller.ts:142 | each ASCII capital becomes its own lower-case letter (`A` to `a`, …, `Z` to `z`), and every other character is kept |
| Controllers.LowerKey | app/lib/controller.ts:142-162 | a lower-cased key has the same length, every character lower-cased, and no capital left |
| Controllers.LowerKeyIdempotent | app/lib/controller.ts:142-162 | lower-casing twice is lower-casing once, so a key released with any case is the key that was recorded |
| Controllers.ShiftedKeysAreLowered | app/lib/controller.ts:142 | `W`, `O` and `N` act as `w`, `o` and `n` |
| Controllers.KeyMovement | app/lib/controller.ts:115-119 | a paddle moves up exactly when its up key (`w` or `o`) is held, and down exactly when its down key (`s` or `l`) is held |
| Controllers.MovementKeysDistinct | app/lib/controller.ts:117-118 | the four movement keys are all different |
| Controllers.KeyMovementIndependent | app/lib/controller.ts:115-119 | pressing or releasing a key of one paddle leaves the other paddle's flags unchanged |
| Controllers.ContinuousMovement | app/lib/controller.ts:122-128 | a touch or click moves up exactly for the paddle's up key, and down exactly for its down key |
| Controllers.ContinuousMovementExclusive | app/lib/controller.ts:122-128 | a touch or click never moves a paddle both ways |
| Controllers.KeyCommand | app/lib/controller.ts:143-153 | `n` is new game, `p` is pause and `g` is the grid overlay, and no other key is a command |
| Controllers.PressThenRelease | app/lib/controller.ts:155-162 | a key down followed by its key up restores the held-key set |
| Controllers.StickMovementMeaning | app/lib/controller.ts:89-90 | up exactly when either vertical stick is past -0.2, down exactly when either is past 0.2 |
| Controllers.DeadZoneIsIdle | app/lib/controller.ts:89-90 | sticks inside the dead zone move nothing |
| Controllers.BothDirectionsNeedBothSticks | app/lib/controller.ts:89-90 | both directions at once need the two sticks pushed opposite ways |
| Controllers.Digit | app/lib/controller.ts:324 | a digit is a character from `0` to `9` |
| Controllers.Decimal | app/lib/controller.ts:324 | the decimal form of an index is a non-empty string of digits |
| Controllers.ValueOfDecimal | app/lib/controller.ts:324 | reading the decimal form back gives the index |
| Controllers.ControllerIdInjective | app/lib/controller.ts:324 | two gamepad indexes with the same id `'g' + index` are equal |
| Controllers.AssignedSide | app/lib/controller.ts:213-226 | the first controller gets dark; the second gets the opposite of the first one's side, or none when the first has none; a third or later one gets none; an assigned side is never one already held |
| Controllers.FirstTwoPadsGetBothSides | app/lib/controller.ts:213-226 | two pads connected in turn onto an empty registry get dark and light |
| Controllers.Read | app/lib/controller.ts:351-362 | a pad no longer listed disconnects the controller and drops its side; otherwise the state follows `connected`; the reading is fresh exactly when the timestamp is newer, which is then recorded |
| Controllers.RereadIsStale | app/lib/controller.ts:359-360 | reading the same snapshot twice, the second reading is never fresh |
| Controllers.FreshOnlyWhenNewer | app/lib/controller.ts:359 | a timestamp that is not newer is never fresh and keeps the side |
| Controllers.PollStep | app/lib/controller.ts:79-91 | one iteration touches only its own controller; a sideless controller is skipped; pause is toggled only with a return |
| Controllers.PollReading | app/lib/controller.ts:82-90 | a stale, disconnected or sideless reading returns; pause toggles and returns; otherwise the sticks steer the reading side's paddle |
| Controllers.PollFrom | app/lib/controller.ts:79-92 | the rest of the pass keeps the number of controllers |
| Controllers.Polled | app/lib/controller.ts:76-94 | the pass keeps the number of controllers, stops at a toggle, and does nothing when gamepads are disabled |
| Controllers.PollFromEnds | app/lib/controller.ts:84-87 | a pass that toggles pause has returned |
| Controllers.PollFromKeepsEarlier | app/lib/controller.ts:79-92 | the rest of the pass does not touch earlier controllers |
| Controllers.PollSkipsSideless | app/lib/controller.ts:80 | controllers without a side are passed over |
| Controllers.SecondPollIsStale | app/lib/controller.ts:76-94 | a second `update` on the same gamepad snapshots moves no paddle and does not toggle pause |
| Controllers.ScanStep | app/lib/controller.ts:247-259 | one iteration of the interval check touches only its own controller, and finds a command only with a return |
| Controllers.ScanReading | app/lib/controller.ts:249-258 | a stale or disconnected reading returns; pause (`buttons[8]`) beats new game (`buttons[9]`); each returns |
| Controllers.ScanFrom | app/lib/controller.ts:247-260 | the rest of the check keeps the number of controllers |
| Controllers.Scanned | app/lib/controller.ts:245-261 | the check keeps the number of controllers |
| Controllers.ScanFindsGamepadCommands | app/lib/controller.ts:251-258 | the interval check only ever pauses, resumes or starts a new game, and a command it finds ends the check |
| Controllers.PauseWinsOverNewGame | app/lib/controller.ts:252-257 | pause and new game held together on the first pad read gives pause |
| Controllers.GameController.constructor | app/lib/controller.ts:323-328 | the id is `'g' + index`; the state follows `connected`; the side is as given; the last timestamp is 0 |
| Controllers.GameController.SetState | app/lib/controller.ts:336-338 | the state becomes the argument |
| Controllers.GameController.SetPlayerSide | app/lib/controller.ts:346-348 | the side becomes the argument |
| Controllers.GameController.GetGamepad | app/lib/controller.ts:351-362 | the controller's new state and the reading are exactly `Read` of the old state |
| Games.Toggled | app/lib/game.ts:247-253 | running becomes paused and paused becomes running; every other state stays |
| Games.ToggleTwice | app/lib/game.ts:247-253 | toggling pause twice restores every state |
| Games.Ended | app/lib/game.ts:256-263 | a game not over records the winner and ends stopped, because `gameOver` calls `stop`; a game already over is left alone |
| Games.SecondGameOverOverwrites | app/lib/game.ts:256-263 | `gameOver` never leaves the game over, so a second call overwrites the winner |
| Games.FrameSeconds | app/lib/game.ts:270 | the frame's seconds, times 1000, bridge the last frame time and the new one; equal times give 0 |
| Games.Stepped | app/lib/paddle.ts:120-133 | a paddle's update moves only its top edge, to `MovedY` |
| Games.Advanced | app/lib/game.ts:292-294 | every ball takes one `Advance` step |
| Games.ControllerViews | app/lib/controller.ts:25 | the views list each registered controller's state in order |
| Games.Stored | app/lib/controller.ts:317 | each controller keeps the pad snapshot it was created with |
| Games.SidesOf | app/lib/controller.ts:218-225 | the sides of the registered controllers, in order |
| Games.Find | app/lib/controller.ts:110-112 | the lookup finds a controller with that id, and finds nothing exactly when no controller has it |
| Games.Without | app/lib/controller.ts:286 | removing an entry shortens the registry by one |
| Games.RegisterThenRemove | app/lib/controller.ts:286 | registering a new controller and removing it by id restores the registry |
| Games.WithoutRemovesId | app/lib/controller.ts:286 | after the removal, ids are still unique and none is the removed id |
| Games.Reconnected | app/lib/controller.ts:230-234 | a known pad shows connected again, takes the computed side if there is one, and keeps its timestamp |
| Games.Game.constructor | app/lib/game.ts:61-127 | initial state, no winner, and the clock at 0; 16-pixel grid in its initial layout; the light paddle at the right (x = width - 32, 80 by 16) and the dark one at x = 16 (80 high, default width), both with speed 500 and centred (y = height / 2 - 50); the light ball at a quarter width moving (300, 300) and the dark one at three quarters moving (-300, -300), both of radius 8 at the given random heights; no flags, no keys, no controllers |
| Games.Game.GetPaddle | app/lib/game.ts:161-168 | returns the first paddle of the side, and nothing exactly when no paddle has that side (where the source throws) |
| Games.Game.PaddleOfSide | app/lib/game.ts:161-168 | in a valid game each side's paddle is found, so the source never throws |
| Games.Game.ResetPaddles | app/lib/game.ts:191-193 | every paddle is back at its options, keeping its movement flags |
| Games.Game.ResetBalls | app/lib/game.ts:194-197 | every ball is restored and then placed at its new random height |
| Games.Game.Reset | app/lib/game.ts:181-207 | new id, initial state, no winner and clock restarted at `now`; grid, paddles and balls restored; no key held; flags and the grid overlay survive |
| Games.Game.ResetPieces | app/lib/game.ts:190-197 | grid, paddles and balls are restored in that order |
| Games.Game.Restamp | app/lib/game.ts:181-207 | the next id, the initial state, no winner and the clock restarted |
| Games.Game.Splash | app/lib/game.ts:210-214 | a reset that leaves the game in its initial state |
| Games.Game.Start | app/lib/game.ts:217-222 | a running game is left untouched; any other is reset and then runs |
| Games.Game.Stop | app/lib/game.ts:225-229 | the game is stopped, from any state |
| Games.Game.Pause | app/lib/game.ts:232-236 | the game is paused, from any state |
| Games.Game.Resume | app/lib/game.ts:239-244 | the game runs; the frame clock restarts unless it was already running |
| Games.Game.TogglePause | app/lib/game.ts:247-253 | the state becomes `Toggled` of the old one, and the clock restarts exactly when resuming |
| Games.Game.GameOver | app/lib/game.ts:256-263 | state and winner are `Ended` of the old ones; controllers and paddles untouched |
| Games.Game.Destroy | app/lib/game.ts:130-133 | the game is stopped and the manager holds no keys, no controllers and no interval |
| Games.Game.UpdatePaddles | app/lib/game.ts:284-286 | every paddle takes its `Stepped` update; flags, speeds, balls, grid and controllers untouched |
| Games.Game.UpdateBalls | app/lib/game.ts:292-294 | the balls become `Advanced` of their old states; paddles and controllers untouched |
| Games.Game.Collide | app/lib/game.ts:289 | balls, cells and winner are exactly the pure pass `RunFrom` on the paddles as they are; paddles untouched |
| Games.Game.Physics | app/lib/game.ts:283-294 | paddles stepped; then the collision pass with `gameOver` on a loss; then every ball advanced, also on the frame the game ends |
| Games.Game.MoveAndCollide | app/lib/game.ts:283-289 | the paddles move, then the pass runs on the arena they leave behind |
| Games.Game.Conclude | app/lib/game.ts:289-294 | a winner stops the game and is recorded; then the balls advance |
| Games.Game.PollControllers | app/lib/game.ts:281 | controller states and paddle flags are those of the `Polled` pass, and a toggle pauses the running game; balls, grid, winner and clock untouched |
| Games.Game.Update | app/lib/game.ts:279-295 | a running frame: controllers polled; paddles stepped with the resulting flags; balls and cells as `RunFrom` gives them, then advanced; the state is stopped on a loss, else paused on a gamepad toggle, else running |
| Games.Game.Tick | app/lib/game.ts:266-276 | a game that is not running is untouched; otherwise `lastFrameSince` is the elapsed seconds, the frame time is recorded, and `update` runs as `Update` states |
| Games.Game.SetClock | app/lib/game.ts:270-271 | the elapsed seconds and the new frame time, and nothing else |
| Games.ControllerManager.constructor | app/lib/controller.ts:33-54 | no keys, no controllers, no interval; `gamepadEnabled` as given |
| Games.ControllerManager.Destroy | app/lib/controller.ts:57-68 | interval cleared, registry and held keys emptied |
| Games.ControllerManager.Reset | app/lib/controller.ts:71-73 | no key is held |
| Games.ControllerManager.SetPaddleMovement | app/lib/controller.ts:115-119 | each paddle's flags are `KeyMovement` of the held keys; positions untouched |
| Games.ControllerManager.StartContinuousMovement | app/lib/controller.ts:122-128 | only the paddle of the given side changes, to `ContinuousMovement` of the key |
| Games.ControllerManager.StopContinuousMovement | app/lib/controller.ts:131-137 | only the paddle of the given side stops |
| Games.ControllerManager.TogglePause | app/lib/controller.ts:104-107 | the game's state is toggled |
| Games.ControllerManager.NewGame | app/lib/controller.ts:97-101 | `stop` then `start`: always a full reset into the running state |
| Games.ControllerManager.RunKeyCommand | app/lib/controller.ts:143-153 | `n` restarts the game; `p` toggles pause; `g` flips the grid overlay; other keys change nothing |
| Games.ControllerManager.HandleKeyDown | app/lib/controller.ts:140-157 | the lower-cased key's command runs; the key is recorded, after the key set is cleared by a new game; both paddles then follow the held keys |
| Games.ControllerManager.HandleKeyUp | app/lib/controller.ts:160-164 | the lower-cased key is released and both paddles follow the held keys |
| Games.ControllerManager.Reconnect | app/lib/controller.ts:230-234 | only controller k changes, to `Reconnected` |
| Games.ControllerManager.Register | app/lib/controller.ts:238-245 | a fresh controller for the pad is appended with the computed side, and the interval is scheduled |
| Games.ControllerManager.HandleGamepadConnected | app/lib/controller.ts:200-263 | the side is `AssignedSide` of the registry; a known pad reconnects in place; a new pad is appended and the interval scheduled; ids stay unique |
| Games.ControllerManager.HandleGamepadDisconnected | app/lib/controller.ts:266-294 | an unknown pad changes nothing; a known one is removed; the interval stops once the registry is empty; the pad's id is gone |
| Games.ControllerManager.ReadController | app/lib/controller.ts:351-362 | reading controller k yields `Read` and changes only that controller |
| Games.ControllerManager.SteerPaddle | app/lib/controller.ts:88-90 | only the flags of the given side's paddle change |
| Games.ControllerManager.ApplyPollReading | app/lib/controller.ts:82-90 | the reading acts on the game as `PollReading` says |
| Games.ControllerManager.PollController | app/lib/controller.ts:80-91 | one iteration acts as `PollStep` says |
| Games.ControllerManager.Update | app/lib/controller.ts:76-94 | controllers, the game's state and the paddle flags end as the pure `Polled` pass says; positions untouched |
| Games.ControllerManager.FindGamepadCommand | app/lib/controller.ts:247-260 | controller states and the command found are those of `Scanned` |
| Games.ControllerManager.RunGamepadCommand | app/lib/controller.ts:252-258 | pause: toggled state, clock restarted only on resume, and id, winner, keys, grid, paddles and balls kept; new game: a full restart into running with the keys cleared, and the paddles' movement flags and the grid overlay kept; otherwise nothing changes; the registry is never touched |
| Games.ControllerManager.CheckGamepadCommands | app/lib/controller.ts:245-261 | nothing while the game runs. Otherwise the controllers end as `Scanned` leaves them. Pause toggles the state and restarts the clock only on resume, keeping id, winner, keys, grid, paddles and balls. New game restarts into running, clears the keys and keeps the movement flags and the overlay. No command leaves the game untouched. |
| Env.Lookup | app/lib/env.ts:16-18 | a value is found exactly when the variable is set, and it is the variable's value |
| Env.Normalize | app/lib/env.ts:50-73 | the result is always production, development or test: production exactly for `production`, `prd` and `prod`; test exactly for `test`; development for every other value and for an unset variable |
| Env.NormalizeStable | app/lib/env.ts:58-69 | the development spellings give development, and a normalised value normalises to itself |
| Env.GetEnv | app/lib/env.ts:21-27 | the variable's value when it is set and non-empty, else the default |
| Env.IndexOf | app/lib/env.ts:91 | the first position of the character, or nothing exactly when the text does not hold it |
| Env.Split | app/lib/env.ts:87 | `split` gives at least one piece, and no piece holds the separator |
| Env.JoinSplit | app/lib/env.ts:87 | joining the pieces with the separator gives the text back |
| Env.SplitJoin | app/lib/env.ts:87 | splitting a join of separator-free pieces gives the pieces back |
| Env.Assignment | app/lib/env.ts:91 | the key is the text before the first `=`; the value is the text after it, up to a second `=` or the end of the line; neither holds an `=` |
| Env.AssignmentOfWritten | app/lib/env.ts:91 | `key=value` and `key=value=rest` both read back as the key and the value, with the rest dropped |
| Env.AssignmentOf | app/lib/env.ts:91 | a line that starts `key=value` and then ends or has another `=` assigns that value to that key |
| Env.LastValue | app/lib/env.ts:87-93 | a last value found comes from an assignment line among the lines |
| Env.ApplyLine | app/lib/env.ts:87-93 | an assignment line sets its key to its value and keeps every other variable; any other line changes nothing |
| Env.ApplyLinesSnoc | app/lib/env.ts:87-93 | the lines are applied in order, one after another |
| Env.LastWriterWins | app/lib/env.ts:87-93 | after loading, a key holds the value of its last assignment, and a key never assigned keeps what it had |
| Env.LaterLineWins | app/lib/env.ts:87-93 | of two lines assigning the same key, the later one wins |
| Env.SkippedLine | app/lib/env.ts:88-90 | a blank line, a comment or a line without `=` sets nothing |
| Env.Environment.constructor | app/lib/env.ts:8-9 | the process variables as given, and both caches empty |
| Env.Environment.SetVar | app/lib/env.ts:92 | one variable is set, and nothing else changes |
| Env.Environment.GetNodeEnv | app/lib/env.ts:30-37 | a cached key returns its cached value and changes nothing; any other key returns `Normalize` of the variable, which is cached; every cached value is one of the three names |
| Env.Environment.GetAppEnv | app/lib/env.ts:40-47 | the same memoisation, with the separate app cache |
| Env.Environment.LoadText | app/lib/env.ts:87-93 | the loop over the lines leaves the variables as `LoadedText` says |
| Env.Environment.LoadEnvFile | app/lib/env.ts:76-95 | an empty name or a missing file changes nothing; otherwise the file's text is loaded |
| Env.Environment.LoadConfiguredFiles | app/lib/env.ts:12-13 | the files named, comma-separated, by a non-empty `APP_ENV_FILES` are loaded in order |
| Env.LoadedFilesSnoc | app/lib/env.ts:13 | the files are loaded in order, one after another |

## Left out

- Drawing is left out because no simulated state depends on it: the canvas context, colours, `draw`, `clearRect`, `requestAnimationFrame` and `cancelAnimationFrame`, and `animationFrameId`. `Game.Tick` takes the frame time as a parameter.
- Event-listener bookkeeping is left out, because Dafny has no DOM. This covers `addEventListener`/`removeEventListener`, the `eventListeners` list and `handleMouseEvent`. Each handler is a method that takes the event's data. `handleMouseEvent` only registers listeners, which call `StartContinuousMovement` and `StopContinuousMovement`.
- The `onNewGame`, `onTogglePause`, `onGameOver`, `onControllerConnected` and `onControllerDisconnected` callbacks are foreign code and are not called.
- `console.debug` logging, `path.resolve` and the file system are I/O. A file's existence and text come in as `Option<string>`, and configured files are looked up by name in a map.
- `CollisionManager.reset` has an empty body and is not modelled.
- Trivial getters are read as fields in the model: `getX`, `getY`, `getRadius`, `getSpeedX`, `getSpeedY`, `getPlayerSide`, `getHeight`, `getWidth`, `getGameState`, `getWinner`, `getSinceLastFrame`, `getId`, `getGrid`, `getController`, `getContext`, `getGrid()` returning the array, and `getState`/`getPlayerSide` of a controller. `getControllerByGamepad` is `Games.Find`.
- `setColor` on balls and paddles is not modelled, because colour is not simulated state.
- Grids.Grid.SetCell: requires an in-range cell. The source writes past a row without complaint, but the collision engine only passes cells it has checked to be in range.
- Grids.Grid.constructor: requires a cell size other than 0. In the source a 0 size makes `new Array` throw.
- Controllers.PadsHaveCommandButtons: the gamepad passes require pads with at least 10 buttons. The source throws when it reads `buttons[8]` or `buttons[9]` of a smaller pad; the standard mapping has 17.
- Controllers.LowerChar: lower-cases ASCII letters only, because `toLowerCase` on other Unicode letters is not modelled.
- Env.IsSpace: knows tab, line feed, vertical tab, form feed, carriage return, space, U+00A0, U+FEFF, U+2028 and U+2029. The other Unicode space separators that `String.prototype.trim` also removes are not modelled.
- ulid is replaced by a counter (`id`, `nextId`), because only freshness matters.
- `randomNumber` is replaced by parameters (`lightY`, `darkY`, `ys`), because randomness is not modelled.
- Games.ControllerManager.CheckGamepadCommands: the command is carried out after the registry pass rather than inside it. The pass returns right after finding a command, so no controller is read after it, and the effect is the same.
- Games.Game.Update: stated for a running game only, because `gameLoop` calls `update` only then.
- The `setInterval` timer is a boolean `polling` flag. One run of the timer is `CheckGamepadCommands`.
- `wss.ts`, the logger, the services, the UI components and the API route lie outside the simulation core. They are not part of this model.
