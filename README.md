# Arcade game logic in Dafny

This project models the game logic of three small browser arcade games. Each
game is a state-transition module: a value holding the whole game, and
functions that create it, pause it and advance it by one step.

- **Snake** (`snake.dfy`, module `Snake`): the snake moves one cell per step
  on an integer grid. It dies on walls and on its own body, and grows on food.
  New food goes on the k-th free cell in row-major order, with k drawn from an
  injected random-integer source.
- **Shooter** (`shooter.dfy` and `shooter_step.dfy`, modules `Shooter` and
  `ShooterStep`): a player ship fires at a marching enemy formation. The
  formation bounces off the walls and steps down, and returns fire on a timer.
  One frame runs in fixed order: player movement and the shot cooldown, shot
  flight, the formation march, the enemy-fire catch-up loop, two collision
  passes, game over and the wave clear.
- **Brick-breaker** (`breakout.dfy` and `breakout_step.dfy`, modules
  `Breakout` and `BreakoutStep`): a ball bounces between walls, a paddle and a
  grid of bricks. One frame runs in this order: paddle movement, ball flight
  and walls, a first-hit brick scan, the paddle rebound, life loss and the
  level clear.

Shared pieces are `Wrappers` (an `Option` type) and `Numeric` (`Max`, `Min`,
`Clamp` and row-major grid slots).

Each game state is an immutable datatype value. The source works on fresh
copies of the state inside each step, so no caller ever sees an update in
place.

- Code that loops or updates a local copy step by step is a `method` with loop
  invariants. Examples are food placement, the formation and brick-grid
  builders, shot flight, the formation shift, the enemy-fire `while` loop, the
  collision passes and the brick scan.
- Each such method is proved equal to a recursive or closed-form function.
- The properties the games promise are proved about those functions as lemmas.
- Each `Step` method is proved equal to the composition of its phase
  functions.

Positions, sizes, speeds and times are `real`. Scores, lives, levels, ids and
grid coordinates are integers. Random sources and `Math.sqrt`, `Math.hypot`,
`Math.sin`, `Math.cos` and `Math.PI` are parameters. The model assumes nothing
about their values beyond the stated ranges of the random sources.

The two frame games carry an invariant, `Coherent`, that ties the level's
formulas to the state: the shooter's formation speed and firing interval,
and the brick-breaker's ball speed, are those of the current level, and in
the brick-breaker the lives never drop below zero and the game is over
exactly when they reach zero. `CreateInitialState` establishes it and every
`Step` keeps it, so a cleared wave or level makes the game strictly faster
whenever the speed step is positive. The snake's invariant is `Valid`: a
non-empty snake of distinct cells on the board, food on a free cell, and no
queued reversal. `CreateInitialState` establishes it for a default start and
every `Step` keeps it.

## Model

| member | source | states |
|---|---|---|
| Snake.Delta | src/snake/logic.mjs:1-6 | every direction moves the head by exactly one cell along one axis |
| Snake.Opposite | src/snake/logic.mjs:8-13 | the opposite of a direction differs from it and moves the head by the negated delta |
| Snake.ParseDirection | src/snake/logic.mjs:1-6 | a turn token is recognised exactly when it is one of UP, DOWN, LEFT, RIGHT, and the recognised direction carries that name |
| Snake.ParseName | src/snake/logic.mjs:1-6 | parsing the name of a direction gives back that direction |
| Snake.IsSameCell | src/snake/logic.mjs:19-21 | two cells are the same exactly when both coordinates agree |
| Snake.IsOutOfBounds | src/snake/logic.mjs:23-30 | a cell is out of bounds exactly when it is not on the gridSize x gridSize board |
| Snake.FreeInRowSpec | src/snake/logic.mjs:37-41 | the inner loop collects exactly the free cells of one row left of x, in increasing x |
| Snake.FreeInRowsSpec | src/snake/logic.mjs:36-42 | the nested loops collect exactly the free cells of the rows above y, in row-major order |
| Snake.FreeCellsSpec | src/snake/logic.mjs:36-42 | the available list holds exactly the in-bounds cells off the snake, sorted row-major (y outer, x inner) |
| Snake.NoFreeCellIffFull | src/snake/logic.mjs:44-46 | the available list is empty exactly when every board cell is covered by the snake |
| Snake.OnlyFreeCell | src/snake/logic.mjs:36-42 | with a single uncovered cell, the available list is exactly that cell |
| Snake.FoodChoice | src/snake/logic.mjs:32-50 | no food exactly when the board is full; otherwise the food is an in-bounds cell off the snake |
| Snake.FoodOnOnlyFreeCell | src/snake/logic.mjs:44-49 | with one free cell the food goes there, whatever the random source says |
| Snake.PlaceFood | src/snake/logic.mjs:32-50 | the loop builds the available list and picks the idx-th entry; it equals FoodChoice, with the same null and off-snake guarantees |
| Snake.CreateInitialState | src/snake/logic.mjs:52-75 | defaults are grid 20 and RIGHT; the given snake and food are kept; a default snake is the one cell (g/2, g/2); generated food is the `FoodChoice` of the start snake, so it is absent only on a full board and otherwise off the snake; a default start satisfies the board invariant |
| Snake.SetDirection | src/snake/logic.mjs:77-95 | unknown tokens, the queued turn, the committed direction and its reverse leave the state unchanged; otherwise only the queued turn changes; a queued turn never becomes the committed direction's reverse |
| Snake.TogglePause | src/snake/logic.mjs:97-106 | identity once the game is over; otherwise only isPaused flips |
| Snake.TogglePauseTwice | src/snake/logic.mjs:97-106 | toggling twice restores the state |
| Snake.MoveKeepsValid | src/snake/logic.mjs:140-145 | a plain move keeps the snake in bounds, without repeated cells and off the food |
| Snake.GrowKeepsValid | src/snake/logic.mjs:149-155 | growing keeps the board invariant when the new food is off the grown snake |
| Snake.Step | src/snake/logic.mjs:108-166 | identity when paused or over. A wall or body hit (tail excluded unless growing) commits the direction, ends the game and leaves snake, food and score unchanged. A plain move gives head + body without tail. Eating gives head + whole body, score + 1 and new food off the snake, or game over on a full board. Score tracks growth, and the board invariant is preserved |
| Numeric.Clamp | src/galaga/logic.mjs:5-7 | the result never exceeds the upper bound, is at least the lower bound when the bounds are ordered, equals the value inside the range, gives the lower bound below it and the upper bound above it, gives the upper bound when the bounds cross, and is always one of value, lower or upper (the brick-breaker's clamp at src/breakout/logic.mjs:1-3 is the same) |
| Shooter.IntersectsIffCommonPoint | src/galaga/logic.mjs:9-16 | for boxes of positive size the overlap test holds exactly when some point lies in both boxes |
| Shooter.FormationRowLayout | src/galaga/logic.mjs:32-42 | the inner loop places column col at x = marginX + col*(w+gapX) with the next id |
| Shooter.FormationRowsIds | src/galaga/logic.mjs:31-43 | ids run 1, 2, 3 ... in storage order and every enemy starts alive |
| Shooter.FormationRowsSize | src/galaga/logic.mjs:31-43 | n rows hold n*cols enemies |
| Shooter.FormationRowsLayout | src/galaga/logic.mjs:31-43 | the enemy of grid position (row, col) sits at slot row*cols+col |
| Shooter.FormationLayout | src/galaga/logic.mjs:18-46 | the formation has rows*cols living enemies with ids 1..rows*cols, and grid position (row, col) is at slot row*cols+col |
| Shooter.CreateEnemyFormation | src/galaga/logic.mjs:18-46 | the nested loops build exactly the formation, with its size, ids and liveness |
| Shooter.WaveInterval | src/galaga/logic.mjs:62-65 | the shooting interval never drops below the minimum |
| Shooter.MakeWave | src/galaga/logic.mjs:48-67 | a wave carries its level and a fresh full formation with ids 1..rows*cols, all alive |
| Shooter.WaveProgression | src/galaga/logic.mjs:61-65 | each level adds the speed step (a strict rise when the step is positive), and the interval never grows when the interval step is non-negative and always stays at or above the minimum |
| Shooter.CreateInitialState | src/galaga/logic.mjs:69-119 | the configuration is the default one (4x8 formation, speed step 10, interval step 60, minimum 300) with the given options; the player is 40x24 at (width/2 - 20, height - 54) with speed 280, cooldown 0 and shot delay 220; board 480x640 by default, fresh formation, level 1, 3 lives, no score and no shots, speed 48, direction 1, interval and timer 900, cooldown 0, player on the board; speed and interval are those of level 1 (`Coherent`) |
| Shooter.TogglePause | src/galaga/logic.mjs:121-130 | identity once the game is over; otherwise only isPaused flips |
| Shooter.TogglePauseTwice | src/galaga/logic.mjs:121-130 | toggling twice restores the state |
| ShooterStep.FrameMs | src/galaga/logic.mjs:137 | the frame time is never negative: 16 when missing, 0 for a negative time, and a non-negative given time is taken as is (no upper clamp) |
| ShooterStep.MovedPlayer | src/galaga/logic.mjs:140-148 | only x and the cooldown change; x never exceeds width - player.width and is at least 0 when the board is at least as wide as the player; a move inside the range is taken as is, one past the left wall gives 0 and one past the right wall gives width - player.width; the cooldown is never negative and never grows |
| ShooterStep.ArmedPlayer | src/galaga/logic.mjs:148-161 | firing resets the cooldown to shotDelayMs; otherwise the decremented cooldown stays |
| ShooterStep.Launched | src/galaga/logic.mjs:150-161 | exactly one player shot is appended when firing and none otherwise; earlier shots are unchanged |
| ShooterStep.NoSecondShotWithinDelay | src/galaga/logic.mjs:148-161 | after a shot, a frame shorter than the shot delay cannot fire again |
| ShooterStep.Flown | src/galaga/logic.mjs:163-169 | flight keeps the number of shots |
| ShooterStep.AdvanceShots | src/galaga/logic.mjs:163-169 | the loop moves player shots up and enemy shots down; it equals Flown and keeps owners and x |
| ShooterStep.KeepOnBoard | src/galaga/logic.mjs:171-173 | the filter never adds shots |
| ShooterStep.KeepOnBoardMembers | src/galaga/logic.mjs:171-173 | the filter keeps exactly the shots still on the board |
| ShooterStep.Living | src/galaga/logic.mjs:178 | the living list is no longer than the formation |
| ShooterStep.LivingMembers | src/galaga/logic.mjs:178 | the living list holds exactly the living enemies |
| ShooterStep.LeftEdge | src/galaga/logic.mjs:181 | the left edge is the least x among the living enemies |
| ShooterStep.RightEdge | src/galaga/logic.mjs:182 | the right edge is the greatest x + width among the living enemies |
| ShooterStep.Shifted | src/galaga/logic.mjs:193-196 | shifting keeps the formation's size |
| ShooterStep.LivingShifted | src/galaga/logic.mjs:193-196 | shifting keeps the number of living enemies |
| ShooterStep.ShiftFormation | src/galaga/logic.mjs:193-196 | the loop moves every enemy by the same (dx, dy) |
| ShooterStep.Marched | src/galaga/logic.mjs:179-197 | the march keeps the formation's size and its living count |
| ShooterStep.MarchFormation | src/galaga/logic.mjs:175-197 | the march code equals the march functions |
| ShooterStep.MarchBounce | src/galaga/logic.mjs:187-191 | on a bounce the direction flips and every enemy keeps x and moves down by enemyStepDown |
| ShooterStep.MarchShift | src/galaga/logic.mjs:180-196 | without a bounce every enemy moves by the same dx and the direction stays |
| ShooterStep.MarchInside | src/galaga/logic.mjs:179-197 | without a bounce every living enemy ends within [0, width] |
| ShooterStep.ShooterIndex | src/galaga/logic.mjs:202 | floor(r*n) is a valid index for r in [0,1) |
| ShooterStep.VolleysSpec | src/galaga/logic.mjs:201-212 | the k-th loop iteration runs exactly when the timer after k refills is still <= 0 |
| ShooterStep.VolleysBracket | src/galaga/logic.mjs:201-212 | the loop ends with a positive timer, at most one interval after it started firing, and fires at all exactly when the timer was <= 0 |
| ShooterStep.Volley | src/galaga/logic.mjs:201-212 | k iterations append k enemy shots |
| ShooterStep.EnemyVolley | src/galaga/logic.mjs:199-215 | every shot the fire phase adds is an enemy shot |
| ShooterStep.TimerAfterFireRange | src/galaga/logic.mjs:199-215 | with a positive interval and a timer at most one interval, the fire phase ends with 0 < timer <= interval |
| ShooterStep.EnemyFire | src/galaga/logic.mjs:199-215 | the while loop appends exactly the volley and ends on the computed timer; with nobody alive the timer is reset to the interval |
| ShooterStep.FirstTarget | src/galaga/logic.mjs:226-238 | the target is the first living enemy in storage order that the shot overlaps |
| ShooterStep.PlayerPass | src/galaga/logic.mjs:220-239 | only player shots are marked; each enemy either stays as it was or goes from alive to dead |
| ShooterStep.KillOne | src/galaga/logic.mjs:233 | downing one living enemy lowers the living count by one |
| ShooterStep.PlayerPassMarked | src/galaga/logic.mjs:220-239 | a shot is marked exactly when it is a player shot that finds a living target among the enemies the earlier shots left, so every hitting shot is removed |
| ShooterStep.PlayerPassCount | src/galaga/logic.mjs:220-239 | the living count falls by exactly the number of hits, so each player shot downs at most one enemy |
| ShooterStep.ResolvePlayerShots | src/galaga/logic.mjs:217-239 | the nested loops with continue and break equal pass 1; the score rises by 100 per hit |
| ShooterStep.EnemyPass | src/galaga/logic.mjs:244-254 | marks are kept; new marks are enemy shots on the player; every unmarked enemy shot on the player is marked |
| ShooterStep.EnemyPassCounts | src/galaga/logic.mjs:244-254 | with the player shots marked, pass 2 counts exactly the enemy shots that overlap the player |
| ShooterStep.ResolveEnemyShots | src/galaga/logic.mjs:241-254 | the loop equals pass 2; lives fall by one per hit |
| ShooterStep.DropMarked | src/galaga/logic.mjs:256 | the purge removes exactly the marked shots (by count) and adds none |
| ShooterStep.DropMarkedKeeps | src/galaga/logic.mjs:256 | every unmarked shot stays, in order, at its index less the number of marked shots before it |
| ShooterStep.PlayerPassMarks | src/galaga/logic.mjs:234 | pass 1 marks exactly one shot per hit |
| ShooterStep.EnemyPassMarks | src/galaga/logic.mjs:251 | pass 2 adds exactly one mark per life lost |
| ShooterStep.FormationReachesPlayer | src/galaga/logic.mjs:262-273 | the loop finds an invader exactly when a living enemy reaches the player's y or overlaps the player |
| ShooterStep.CollidedCounts | src/galaga/logic.mjs:217-256 | the score rises in hundreds, one per enemy downed; lives fall by the enemy hits; the shot list shrinks by exactly both kinds of hit |
| ShooterStep.FinishGameOver | src/galaga/logic.mjs:258-273 | game over exactly when lives <= 0 or a living enemy reaches the player; without a wave clear the frame's enemies, shots and timer stand |
| ShooterStep.FinishWave | src/galaga/logic.mjs:275-292 | a clear with the game on raises the level, brings a fresh full formation with ids 1..rows*cols, sets speed base + level*step and interval max(min, base - level*stepMs), fills the timer and drops all shots |
| ShooterStep.TimerStaysInRange | src/galaga/logic.mjs:199-292 | a frame that starts with the timer at most one interval ends it in (0, interval] |
| ShooterStep.Collide | src/galaga/logic.mjs:217-256 | the collision code equals both passes and the purge |
| ShooterStep.Conclude | src/galaga/logic.mjs:258-292 | the end-of-frame code equals the game-over and wave-clear rules |
| ShooterStep.MovePlayer | src/galaga/logic.mjs:140-161 | the player code equals the movement, cooldown and launch functions |
| ShooterStep.FinishCoherent | src/galaga/logic.mjs:275-292 | the end of a frame keeps speed and interval those of the level, raises the level by at most one, and a clear with a positive speed step makes the formation strictly faster |
| ShooterStep.Step | src/galaga/logic.mjs:132-308 | identity when paused or over; otherwise the frame equals the phases composed in source order, with shooters firing from their marched positions; a coherent state stays coherent, and a cleared wave strictly raises `enemySpeed` when the speed step is positive |
| Breakout.NearestOnAxis | src/breakout/logic.mjs:1-3 | along one axis the clamped coordinate is the nearest point of the interval |
| Breakout.NearestIsClosest | src/breakout/logic.mjs:5-11 | the clamped point lies in the rectangle and is nearer the centre than any other point of it |
| Breakout.CircleIntersectsRectIff | src/breakout/logic.mjs:5-11 | for a rectangle of non-negative size, the test holds exactly when some point of the rectangle lies within the radius |
| Breakout.CreateBallHeading | src/breakout/logic.mjs:13-24 | a new ball starts at the given point with the given radius, moves sideways in the given direction, and moves upward when the square root is non-negative |
| Breakout.BrickRowLayout | src/breakout/logic.mjs:42-55 | the inner loop places column col at x = marginX + col*(brickWidth+gapX) with the next id |
| Breakout.BrickRowsIds | src/breakout/logic.mjs:41-56 | ids run 1, 2, 3 ... in storage order and every brick starts alive |
| Breakout.BrickRowsSize | src/breakout/logic.mjs:41-56 | n rows hold n*cols bricks |
| Breakout.BrickRowsLayout | src/breakout/logic.mjs:41-56 | the brick of grid position (row, col) sits at slot row*cols+col |
| Breakout.BricksLayout | src/breakout/logic.mjs:26-58 | a grid has rows*cols living bricks; the brick at (row, col) has id row*cols+col+1 and records its row and column |
| Breakout.BrickTiling | src/breakout/logic.mjs:37-46 | adjacent bricks are one gap apart and the last column ends one margin short of the right edge |
| Breakout.CreateBricks | src/breakout/logic.mjs:26-58 | the nested loops build exactly the grid, with its size, ids and liveness |
| Breakout.LevelSpeedSteps | src/breakout/logic.mjs:61 | level 1 has the base speed and each level adds the speed step |
| Breakout.MakeLevel | src/breakout/logic.mjs:60-77 | a level brings rows*cols living bricks with ids 1..rows*cols |
| Breakout.CreateInitialState | src/breakout/logic.mjs:79-132 | defaults 480x640 with a 5x8 grid; the paddle is the configured 88x14 paddle with speed 360, centred and sitting paddleBottomGap above the floor; the ball has the configured radius; the ball starts on the paddle centre heading right at speed 260; level 1, 3 lives, no score; the state is `Coherent` |
| Breakout.TogglePause | src/breakout/logic.mjs:134-143 | identity once the game is over; otherwise only isPaused flips |
| Breakout.TogglePauseTwice | src/breakout/logic.mjs:134-143 | toggling twice restores the state |
| BreakoutStep.FrameMs | src/breakout/logic.mjs:150 | the frame time lies in [0, 40]: 16 when missing, 40 for a longer time, 0 for a negative one, and a time already in range is kept |
| BreakoutStep.MovedPaddle | src/breakout/logic.mjs:153-159 | only x changes; x never exceeds width - paddle.width and is at least 0 when the board is at least as wide as the paddle; a move inside the range is taken as is, one past the left wall gives 0 and one past the right wall gives width - paddle.width |
| BreakoutStep.WallX | src/breakout/logic.mjs:168-174 | past the left wall the ball gets x = radius and vx >= 0; past the right wall x = width - radius and vx <= 0; otherwise it is unchanged; speed is kept |
| BreakoutStep.WallY | src/breakout/logic.mjs:176-179 | past the top the ball gets y = radius and vy >= 0; otherwise it is unchanged; speed is kept |
| BreakoutStep.FlightInsideWalls | src/breakout/logic.mjs:161-179 | on a board at least one ball wide, the ball ends between the side walls and below the top, with its speed along each axis kept |
| BreakoutStep.FlyBall | src/breakout/logic.mjs:161-179 | the field-by-field code equals flight then walls |
| BreakoutStep.FirstStruck | src/breakout/logic.mjs:184-195 | the struck brick is the first living brick in storage order that the ball touches |
| BreakoutStep.Bounce | src/breakout/logic.mjs:197-212 | from the left the ball goes to vx <= 0, from the right to vx >= 0, from above to vy <= 0, from below to vy >= 0, otherwise vy is negated; a side hit keeps vy; position and speed along each axis are kept |
| BreakoutStep.Remaining | src/breakout/logic.mjs:257 | the count of living bricks is at most the number of bricks |
| BreakoutStep.RemainingZero | src/breakout/logic.mjs:257-258 | the count is zero exactly when no brick is alive |
| BreakoutStep.RemainingAll | src/breakout/logic.mjs:256-262 | on a fresh grid every brick counts |
| BreakoutStep.KillBrick | src/breakout/logic.mjs:193 | killing one living brick lowers the count by one |
| BreakoutStep.StruckAtMostOne | src/breakout/logic.mjs:181-214 | either nothing changes, or exactly one living brick dies, all other bricks stay, the score rises by 100 and one fewer brick is left |
| BreakoutStep.ScanBricks | src/breakout/logic.mjs:181-214 | the loop with continue and break equals the first-hit scan |
| BreakoutStep.Offset | src/breakout/logic.mjs:220-224 | the hit offset along the paddle lies in [-1, 1] |
| BreakoutStep.ReboundHeadsUp | src/breakout/logic.mjs:216-233 | only a falling ball that touches the paddle rebounds; it then rests on the paddle, has vy <= 0 and abs(vx) >= 45, and gets the sine's vx or 45 toward the offset's side |
| BreakoutStep.ReboundBall | src/breakout/logic.mjs:216-233 | the field-by-field code equals the rebound |
| BreakoutStep.SettleLives | src/breakout/logic.mjs:235-254 | a lost ball costs exactly one life; game over exactly when it is lost with at most one life left; score and paddle are kept |
| BreakoutStep.SettleServe | src/breakout/logic.mjs:240-254 | with lives to spare and bricks left, the ball is served from above the paddle centre and heads left exactly when the remaining lives are even |
| BreakoutStep.SettleLevelClear | src/breakout/logic.mjs:256-272 | with the game on and no brick alive, the level rises, the full grid returns, the speed is that of the new level and the ball is served again |
| BreakoutStep.SettleCarriesOn | src/breakout/logic.mjs:235-284 | with the ball in play and bricks left, only paddle, ball, bricks and score are replaced |
| BreakoutStep.Conclude | src/breakout/logic.mjs:235-284 | the end-of-frame code equals the life-loss and level-clear rules |
| BreakoutStep.FrameBounds | src/breakout/logic.mjs:145-284 | over a running frame the paddle stays on the board at its width and the score rises by 0 or 100 |
| BreakoutStep.SettleCoherent | src/breakout/logic.mjs:235-272 | settling a running frame keeps lives >= 0, game over exactly at 0 lives and the ball speed that of the level; the level rises by at most one, and a clear with a positive speed step makes the ball strictly faster |
| BreakoutStep.Step | src/breakout/logic.mjs:145-285 | identity when paused or over; otherwise the frame equals paddle move, flight, brick scan, rebound and settle composed in source order; the paddle width is kept; a coherent state stays coherent, and a cleared level strictly raises `ballSpeed` when the speed step is positive |

## Left out

- The `game.mjs` modules: canvas drawing, DOM text, keyboard and pointer listeners and frame scheduling. They are input/output shims.
- `Math.random` defaults: the snake's random integer source is a function `int -> int` with values in `[0, n)`. The shooter's `nextRandom` is a function `nat -> real` whose k-th call in a frame returns `nextRandom(k)`, with values in `[0, 1)`.
- `Math.sqrt`, `Math.hypot`, `Math.sin`, `Math.cos` and `Math.PI` are uninterpreted parameters (`Breakout.Trig`). No claim is made about the exact velocities they produce.
- IEEE-754 arithmetic: positions and times are exact reals, so rounding, `NaN` and infinities are not modelled.
- Breakout.BrickWidth: with zero columns the source divides by zero; the model uses width 0, which no brick ever carries because no brick is built.
- Snake.CreateInitialState: the `initialDirection` option is one of the four directions; the source stores any string it is given, and a state holding an unknown direction is not modelled.
- Snake.ParseDirection: direction tokens are the four names; JavaScript object keys inherited from the prototype are not modelled as tokens.
- Snake.Step requires a non-empty snake while running: the source reads `snake[0]` and fails on an empty snake.
- Snake.Step uses the queued direction as it stands; the source's fallback to the committed direction when no turn is queued cannot arise, because every state always carries a queued direction.
- Snake.FreeCells: the occupied set of `"x,y"` strings is modelled as membership in the snake sequence.
- Grid row and column counts are natural numbers; fractional or negative counts given as options are not modelled.
- ShooterStep.Step requires `CanStep`: with enemies alive, a timer at or below zero and a non-positive interval, the source's fire loop never ends, so the model asks for a positive interval in that case.
- Shooter lives are plain integers: two enemy shots in one frame can take lives below zero, as in the source.
- BreakoutStep.Step requires a paddle of non-zero width while running: the rebound divides by half the paddle width. `Breakout.CreateInitialState` gives the paddle width 88 and every `Step` keeps the paddle width, so every state the game reaches meets it.
- BreakoutStep.Settle follows the code: the level clear also applies in a frame where a life was lost, as long as the game is not over. The ball counts as lost only when it is wholly below the board (`y - radius > height`), and game over is `lives <= 0`.
- BreakoutStep.ReboundHeadsUp states the rebound's velocity only through the uninterpreted sine, cosine and hypot, with no claim about the angle's numeric value.
