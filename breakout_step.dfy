/** One frame of the brick-breaker (`step`): the paddle moves, the ball flies
    and bounces off the walls, strikes at most one brick, rebounds off the
    paddle, and then a lost ball costs a life and a cleared board opens the
    next level. Each phase is a function; the loops and in-place updates are
    methods proved equal to those functions, and `Step` is proved equal to
    their composition. */
module BreakoutStep {
  import opened Wrappers
  import opened Numeric
  import opened Breakout

  /** The keys held and the frame time; `None` is a missing `dtMs`. */
  datatype Input = Input(dtMs: Option<real>, left: bool, right: bool)

  predicate Running(s: State) {
    !s.isPaused && !s.isGameOver
  }

  // ---------------------------------------------------------------------------
  // The paddle

  /** The frame time in milliseconds: 16 when missing, kept within [0, 40]. */
  function FrameMs(input: Input): (ms: real)
    ensures 0.0 <= ms <= 40.0
    ensures 0.0 <= input.dtMs.GetOr(16.0) <= 40.0 ==> ms == input.dtMs.GetOr(16.0)
    ensures input.dtMs.None? ==> ms == 16.0
    ensures input.dtMs.Some? && input.dtMs.value > 40.0 ==> ms == 40.0
    ensures input.dtMs.Some? && input.dtMs.value < 0.0 ==> ms == 0.0
  {
    Max(0.0, Min(40.0, input.dtMs.GetOr(16.0)))
  }

  function FrameSec(input: Input): real {
    FrameMs(input) / 1000.0
  }

  function MoveDir(input: Input): real {
    (if input.right then 1.0 else 0.0) - (if input.left then 1.0 else 0.0)
  }

  /** The paddle slides by its speed in the held direction and is kept on the
      board; nothing else about it changes. */
  function MovedPaddle(s: State, input: Input): (p: Paddle)
    ensures p == s.paddle.(x := p.x)
    ensures p.x <= s.cfg.width - s.paddle.width
    ensures s.paddle.width <= s.cfg.width ==> 0.0 <= p.x
    ensures var target := s.paddle.x + MoveDir(input) * s.paddle.speed * FrameSec(input);
            var w := s.cfg.width - s.paddle.width;
            (0.0 <= target <= w ==> p.x == target) &&
            (target < 0.0 <= w ==> p.x == 0.0) &&
            (0.0 <= w < target ==> p.x == w)
  {
    s.paddle.(x := Clamp(s.paddle.x + MoveDir(input) * s.paddle.speed * FrameSec(input),
                         0.0, s.cfg.width - s.paddle.width))
  }

  // ---------------------------------------------------------------------------
  // Flight and the walls

  function Advanced(ball: Ball, dtSec: real): Ball {
    ball.(x := ball.x + ball.vx * dtSec, y := ball.y + ball.vy * dtSec)
  }

  /** The side walls: a ball past one is put back against it and sent away from it. */
  function WallX(ball: Ball, width: real): (r: Ball)
    ensures r.y == ball.y && r.vy == ball.vy && r.radius == ball.radius
    ensures Abs(r.vx) == Abs(ball.vx)
    ensures ball.x - ball.radius < 0.0 ==> r.x == ball.radius && r.vx >= 0.0
    ensures 0.0 <= ball.x - ball.radius && ball.x + ball.radius > width ==> r.x == width - ball.radius && r.vx <= 0.0
    ensures 0.0 <= ball.x - ball.radius && ball.x + ball.radius <= width ==> r == ball
  {
    if ball.x - ball.radius < 0.0 then ball.(x := ball.radius, vx := Abs(ball.vx))
    else if ball.x + ball.radius > width then ball.(x := width - ball.radius, vx := -Abs(ball.vx))
    else ball
  }

  /** The top wall; there is no bottom wall. */
  function WallY(ball: Ball): (r: Ball)
    ensures r.x == ball.x && r.vx == ball.vx && r.radius == ball.radius
    ensures Abs(r.vy) == Abs(ball.vy)
    ensures ball.y - ball.radius < 0.0 ==> r.y == ball.radius && r.vy >= 0.0
    ensures 0.0 <= ball.y - ball.radius ==> r == ball
  {
    if ball.y - ball.radius < 0.0 then ball.(y := ball.radius, vy := Abs(ball.vy)) else ball
  }

  /** The ball after flying for the frame and meeting the walls. */
  function Flight(s: State, input: Input): Ball {
    WallY(WallX(Advanced(s.ball, FrameSec(input)), s.cfg.width))
  }

  /** On a board at least one ball wide the walls keep the whole ball between
      the side walls and below the top one, at its old speed along each axis. */
  lemma FlightInsideWalls(s: State, input: Input)
    requires 0.0 <= s.ball.radius && 2.0 * s.ball.radius <= s.cfg.width
    ensures var b := Flight(s, input);
            s.ball.radius <= b.x <= s.cfg.width - s.ball.radius && s.ball.radius <= b.y &&
            b.radius == s.ball.radius && Abs(b.vx) == Abs(s.ball.vx) && Abs(b.vy) == Abs(s.ball.vy)
  {
  }

  method FlyBall(s: State, input: Input) returns (ball: Ball)
    ensures ball == Flight(s, input)
  {
    ball := Advanced(s.ball, FrameSec(input));
    if ball.x - ball.radius < 0.0 {
      ball := ball.(x := ball.radius, vx := Abs(ball.vx));
    } else if ball.x + ball.radius > s.cfg.width {
      ball := ball.(x := s.cfg.width - ball.radius, vx := -Abs(ball.vx));
    }
    if ball.y - ball.radius < 0.0 {
      ball := ball.(y := ball.radius, vy := Abs(ball.vy));
    }
  }

  // ---------------------------------------------------------------------------
  // Striking a brick

  predicate Strikes(ball: Ball, brick: Brick) {
    brick.alive && CircleIntersectsRect(ball, BrickRect(brick))
  }

  /** The first brick at or after `from` the ball strikes. */
  function FirstStruck(ball: Ball, bricks: seq<Brick>, from: nat): (t: Option<nat>)
    decreases |bricks| - from
    ensures t.Some? ==> from <= t.value < |bricks| && Strikes(ball, bricks[t.value])
    ensures forall j :: from <= j < |bricks| && (t.None? || j < t.value) ==> !Strikes(ball, bricks[j])
  {
    if from >= |bricks| then None
    else if Strikes(ball, bricks[from]) then Some(from)
    else FirstStruck(ball, bricks, from + 1)
  }

  /** The bounce off a struck brick, judged from where the ball was at the start
      of the frame: coming from the left it heads left, from the right it heads
      right, from above it heads up, from below it heads down; otherwise it
      reverses vertically. The ball keeps its position and its speed along
      each axis. */
  function Bounce(ball: Ball, prevX: real, prevY: real, brick: Brick): (r: Ball)
    ensures r.x == ball.x && r.y == ball.y && r.radius == ball.radius
    ensures Abs(r.vx) == Abs(ball.vx) && Abs(r.vy) == Abs(ball.vy)
    ensures r.vx == ball.vx || r.vy == ball.vy
    ensures prevX + ball.radius <= brick.x || prevX - ball.radius >= brick.x + brick.width ==> r.vy == ball.vy
    ensures prevX + ball.radius <= brick.x ==> r.vx <= 0.0
    ensures prevX + ball.radius > brick.x && prevX - ball.radius >= brick.x + brick.width ==> r.vx >= 0.0
    ensures prevX + ball.radius > brick.x && prevX - ball.radius < brick.x + brick.width ==>
      r.vx == ball.vx &&
      (prevY + ball.radius <= brick.y ==> r.vy <= 0.0) &&
      (prevY + ball.radius > brick.y && prevY - ball.radius >= brick.y + brick.height ==> r.vy >= 0.0) &&
      (prevY + ball.radius > brick.y && prevY - ball.radius < brick.y + brick.height ==> r.vy == -ball.vy)
  {
    var fromLeft := prevX + ball.radius <= brick.x;
    var fromRight := prevX - ball.radius >= brick.x + brick.width;
    var fromTop := prevY + ball.radius <= brick.y;
    var fromBottom := prevY - ball.radius >= brick.y + brick.height;
    if fromLeft then ball.(vx := -Abs(ball.vx))
    else if fromRight then ball.(vx := Abs(ball.vx))
    else if fromTop then ball.(vy := -Abs(ball.vy))
    else if fromBottom then ball.(vy := Abs(ball.vy))
    else ball.(vy := -ball.vy)
  }

  /** The board, the score and the ball after the brick scan. */
  datatype Strike = Strike(bricks: seq<Brick>, score: int, ball: Ball)

  /** The brick scan: the first brick struck dies, scores 100 and bounces the ball. */
  function Struck(bricks: seq<Brick>, score: int, ball: Ball, prevX: real, prevY: real): Strike {
    match FirstStruck(ball, bricks, 0)
    case None => Strike(bricks, score, ball)
    case Some(i) => Strike(bricks[i := bricks[i].(alive := false)], score + 100, Bounce(ball, prevX, prevY, bricks[i]))
  }

  /** `bricks.filter((brick) => brick.alive).length`. */
  function Remaining(bricks: seq<Brick>): (n: nat)
    ensures n <= |bricks|
  {
    if |bricks| == 0 then 0
    else Remaining(bricks[..|bricks| - 1]) + (if bricks[|bricks| - 1].alive then 1 else 0)
  }

  /** The board is clear exactly when no brick is alive. */
  lemma {:induction false} RemainingZero(bricks: seq<Brick>)
    ensures Remaining(bricks) == 0 <==> forall i :: 0 <= i < |bricks| ==> !bricks[i].alive
  {
    if |bricks| > 0 {
      var init := bricks[..|bricks| - 1];
      RemainingZero(init);
      assert forall i :: 0 <= i < |init| ==> init[i] == bricks[i];
    }
  }

  /** A fresh grid has all its bricks left. */
  lemma {:induction false} RemainingAll(bricks: seq<Brick>)
    requires forall i :: 0 <= i < |bricks| ==> bricks[i].alive
    ensures Remaining(bricks) == |bricks|
  {
    if |bricks| > 0 {
      RemainingAll(bricks[..|bricks| - 1]);
    }
  }

  lemma {:induction false} KillBrick(bricks: seq<Brick>, j: nat)
    requires j < |bricks| && bricks[j].alive
    ensures Remaining(bricks[j := bricks[j].(alive := false)]) + 1 == Remaining(bricks)
  {
    var n := |bricks|;
    var after := bricks[j := bricks[j].(alive := false)];
    if j < n - 1 {
      KillBrick(bricks[..n - 1], j);
      assert after[..n - 1] == bricks[..n - 1][j := bricks[j].(alive := false)];
    } else {
      assert after[..n - 1] == bricks[..n - 1];
    }
  }

  /** A frame strikes at most one brick: either nothing changes, or one living
      brick dies, everything else about the board stays, the score rises by
      100 and one fewer brick is left. */
  lemma StruckAtMostOne(bricks: seq<Brick>, score: int, ball: Ball, prevX: real, prevY: real)
    ensures var st := Struck(bricks, score, ball, prevX, prevY);
            |st.bricks| == |bricks| &&
            ((st.bricks == bricks && st.score == score && st.ball == ball) ||
             (exists i :: 0 <= i < |bricks| && bricks[i].alive &&
                st.bricks == bricks[i := bricks[i].(alive := false)] &&
                st.score == score + 100 && Remaining(st.bricks) + 1 == Remaining(bricks)))
  {
    match FirstStruck(ball, bricks, 0)
    case None =>
    case Some(i) =>
      KillBrick(bricks, i);
  }

  /** The scan of `step`: skip dead bricks and missed bricks, stop at the first hit. */
  method ScanBricks(bricks: seq<Brick>, score: int, ball: Ball, prevX: real, prevY: real)
    returns (outBricks: seq<Brick>, outScore: int, outBall: Ball)
    ensures Strike(outBricks, outScore, outBall) == Struck(bricks, score, ball, prevX, prevY)
  {
    outBricks, outScore, outBall := bricks, score, ball;
    for i := 0 to |bricks|
      invariant outBricks == bricks && outScore == score && outBall == ball
      invariant FirstStruck(ball, bricks, 0) == FirstStruck(ball, bricks, i)
    {
      var brick := outBricks[i];
      if !brick.alive {
        continue;
      }
      if !CircleIntersectsRect(outBall, BrickRect(brick)) {
        continue;
      }
      outBricks := outBricks[i := brick.(alive := false)];
      outScore := outScore + 100;
      outBall := Bounce(outBall, prevX, prevY, brick);
      break;
    }
  }

  // ---------------------------------------------------------------------------
  // The paddle rebound

  /** Where along the paddle the ball meets it: -1 at the left end, 0 in the
      middle, 1 at the right end. */
  function Offset(ball: Ball, paddle: Paddle): (o: real)
    requires paddle.width != 0.0
    ensures -1.0 <= o <= 1.0
  {
    Clamp((ball.x - (paddle.x + paddle.width / 2.0)) / (paddle.width / 2.0), -1.0, 1.0)
  }

  /** The rebound angle from the vertical: up to 60 degrees either way. */
  function Angle(ball: Ball, paddle: Paddle, trig: Trig): real
    requires paddle.width != 0.0
  {
    Offset(ball, paddle) * (trig.pi / 3.0)
  }

  /** The sideways speed the rebound angle gives the ball, before the 45 floor. */
  function SideSpeed(ball: Ball, paddle: Paddle, trig: Trig): real
    requires paddle.width != 0.0
  {
    trig.hypot(ball.vx, ball.vy) * trig.sin(Angle(ball, paddle, trig))
  }

  predicate MeetsPaddle(ball: Ball, paddle: Paddle) {
    ball.vy > 0.0 && CircleIntersectsRect(ball, PaddleRect(paddle))
  }

  /** A falling ball that touches the paddle is put on top of it and sent off
      at up to 60 degrees from the vertical, steeper the nearer the middle,
      with the same speed and at least 45 sideways. */
  function Rebound(ball: Ball, paddle: Paddle, trig: Trig): Ball
    requires paddle.width != 0.0
  {
    if !MeetsPaddle(ball, paddle) then ball
    else
      var vx := SideSpeed(ball, paddle, trig);
      ball.(y := paddle.y - ball.radius,
            vx := if Abs(vx) < 45.0 then (if Offset(ball, paddle) >= 0.0 then 45.0 else -45.0) else vx,
            vy := -Abs(trig.hypot(ball.vx, ball.vy) * trig.cos(Angle(ball, paddle, trig))))
  }

  /** A rebound leaves the ball resting on the paddle, never heading down, and
      moving sideways at least 45, to the side of the paddle it met when the
      sine gives less. Anything else passes the paddle untouched. */
  lemma ReboundHeadsUp(ball: Ball, paddle: Paddle, trig: Trig)
    requires paddle.width != 0.0
    ensures var r := Rebound(ball, paddle, trig);
            (!MeetsPaddle(ball, paddle) ==> r == ball) &&
            (MeetsPaddle(ball, paddle) ==>
               r.x == ball.x && r.radius == ball.radius && r.y + r.radius == paddle.y &&
               r.vy <= 0.0 && Abs(r.vx) >= 45.0 &&
               (Abs(SideSpeed(ball, paddle, trig)) >= 45.0 ==> r.vx == SideSpeed(ball, paddle, trig)) &&
               (Abs(SideSpeed(ball, paddle, trig)) < 45.0 ==>
                  (r.vx == 45.0 <==> Offset(ball, paddle) >= 0.0) && (r.vx == -45.0 <==> Offset(ball, paddle) < 0.0)))
  {
  }

  method ReboundBall(ball: Ball, paddle: Paddle, trig: Trig) returns (r: Ball)
    requires paddle.width != 0.0
    ensures r == Rebound(ball, paddle, trig)
  {
    r := ball;
    if r.vy > 0.0 && CircleIntersectsRect(r, PaddleRect(paddle)) {
      r := r.(y := paddle.y - r.radius);
      var speed := trig.hypot(r.vx, r.vy);
      var offset := Offset(ball, paddle);
      var angle := Angle(ball, paddle, trig);
      r := r.(vx := speed * trig.sin(angle), vy := -Abs(speed * trig.cos(angle)));
      if Abs(r.vx) < 45.0 {
        r := r.(vx := if offset >= 0.0 then 45.0 else -45.0);
      }
    }
  }

  // ---------------------------------------------------------------------------
  // Lives and levels

  /** The ball has dropped wholly below the board. */
  predicate Lost(s: State, ball: Ball) {
    ball.y - ball.radius > s.cfg.height
  }

  function DirFor(n: int): real {
    if n % 2 == 0 then -1.0 else 1.0
  }

  /** A new ball above the middle of the paddle. */
  function Serve(s: State, paddle: Paddle, speed: real, n: int, trig: Trig): Ball {
    CreateBall(paddle.x + paddle.width / 2.0, paddle.y - s.cfg.ballRadius - 2.0,
               speed, s.cfg.ballRadius, DirFor(n), trig)
  }

  /** The end of the frame: a lost ball costs a life, and ends the game when
      none is left or is served again otherwise; then, unless the game is
      over, a cleared board opens the next level with a fresh grid, a faster
      ball and a new serve. */
  function Settle(s: State, paddle: Paddle, ball: Ball, bricks: seq<Brick>, score: int, trig: Trig): State {
    var lost := Lost(s, ball);
    var lives := if lost then s.lives - 1 else s.lives;
    var over := lost && lives <= 0;
    var served := if lost && !over then Serve(s, paddle, s.ballSpeed, lives, trig) else ball;
    if !over && Remaining(bricks) == 0 then
      var next := MakeLevel(s.cfg, s.level + 1);
      s.(paddle := paddle, ball := Serve(s, paddle, next.ballSpeed, s.level + 1, trig),
         bricks := next.bricks, ballSpeed := next.ballSpeed, score := score,
         lives := lives, level := s.level + 1, isGameOver := false)
    else
      s.(paddle := paddle, ball := served, bricks := bricks, score := score,
         lives := lives, isGameOver := over)
  }

  /** The game ends exactly when the ball is lost with at most one life left;
      a lost ball costs exactly one life, and the score, the paddle and the
      board's setup are never touched. */
  lemma SettleLives(s: State, paddle: Paddle, ball: Ball, bricks: seq<Brick>, score: int, trig: Trig)
    ensures var r := Settle(s, paddle, ball, bricks, score, trig);
            r.cfg == s.cfg && r.paddle == paddle && r.score == score && r.isPaused == s.isPaused &&
            (r.isGameOver <==> Lost(s, ball) && s.lives <= 1) &&
            r.lives == (if Lost(s, ball) then s.lives - 1 else s.lives)
  {
  }

  /** A lost ball with lives to spare is served again from the paddle at the
      current speed, heading left after an even number of lives and right
      after an odd one. */
  lemma SettleServe(s: State, paddle: Paddle, ball: Ball, bricks: seq<Brick>, score: int, trig: Trig)
    requires Lost(s, ball) && s.lives > 1 && Remaining(bricks) > 0 && s.ballSpeed > 0.0
    ensures var r := Settle(s, paddle, ball, bricks, score, trig);
            r.ball.x == paddle.x + paddle.width / 2.0 &&
            r.ball.y == paddle.y - s.cfg.ballRadius - 2.0 &&
            r.ball.radius == s.cfg.ballRadius &&
            r.bricks == bricks && r.level == s.level && r.ballSpeed == s.ballSpeed &&
            ((s.lives - 1) % 2 == 0 <==> r.ball.vx < 0.0)
  {
    CreateBallHeading(paddle.x + paddle.width / 2.0, paddle.y - s.cfg.ballRadius - 2.0,
                      s.ballSpeed, s.cfg.ballRadius, DirFor(s.lives - 1), trig);
  }

  /** A cleared board, unless the game has just ended, opens the next level:
      a full fresh grid, the level's ball speed and a serve from the paddle. */
  lemma SettleLevelClear(s: State, paddle: Paddle, ball: Ball, bricks: seq<Brick>, score: int, trig: Trig)
    requires Remaining(bricks) == 0 && !(Lost(s, ball) && s.lives <= 1)
    ensures var r := Settle(s, paddle, ball, bricks, score, trig);
            r.level == s.level + 1 && !r.isGameOver &&
            r.bricks == Bricks(GridOf(s.cfg)) &&
            Remaining(r.bricks) == s.cfg.brickRows * s.cfg.brickCols &&
            r.ballSpeed == LevelSpeed(s.cfg, s.level + 1) &&
            r.ball == Serve(s, paddle, r.ballSpeed, s.level + 1, trig)
  {
    var r := Settle(s, paddle, ball, bricks, score, trig);
    RemainingAll(r.bricks);
  }

  /** While bricks remain and the ball is in play, the board and level carry over. */
  lemma SettleCarriesOn(s: State, paddle: Paddle, ball: Ball, bricks: seq<Brick>, score: int, trig: Trig)
    requires !Lost(s, ball) && Remaining(bricks) > 0
    ensures Settle(s, paddle, ball, bricks, score, trig) ==
            s.(paddle := paddle, ball := ball, bricks := bricks, score := score, isGameOver := false)
  {
  }

  /** Settling a running frame keeps the state coherent: the lives stay at or
      above zero with game over exactly at zero, and the ball speed stays that
      of the level; a level clear, the only way the level rises, makes the
      ball faster when the speed step is positive. */
  lemma SettleCoherent(s: State, paddle: Paddle, ball: Ball, bricks: seq<Brick>, score: int, trig: Trig)
    requires Coherent(s) && !s.isGameOver
    ensures var r := Settle(s, paddle, ball, bricks, score, trig);
            Coherent(r) && r.cfg == s.cfg && (r.level == s.level || r.level == s.level + 1)
    ensures var r := Settle(s, paddle, ball, bricks, score, trig);
            r.level == s.level + 1 && s.cfg.ballSpeedStep > 0.0 ==> r.ballSpeed > s.ballSpeed
  {
    LevelSpeedSteps(s.cfg, s.level);
  }

  method Conclude(s: State, paddle: Paddle, ball: Ball, bricks: seq<Brick>, score: int, trig: Trig)
    returns (r: State)
    ensures r == Settle(s, paddle, ball, bricks, score, trig)
  {
    var lives := s.lives;
    var level := s.level;
    var ballSpeed := s.ballSpeed;
    var isGameOver := false;
    var outBall := ball;
    var outBricks := bricks;
    if ball.y - ball.radius > s.cfg.height {
      lives := lives - 1;
      if lives <= 0 {
        isGameOver := true;
      } else {
        outBall := Serve(s, paddle, ballSpeed, lives, trig);
      }
    }
    if !isGameOver {
      if Remaining(outBricks) == 0 {
        var nextLevel := s.level + 1;
        var levelData := MakeLevel(s.cfg, nextLevel);
        level := nextLevel;
        ballSpeed := levelData.ballSpeed;
        outBricks := levelData.bricks;
        outBall := Serve(s, paddle, ballSpeed, nextLevel, trig);
      }
    }
    r := s.(paddle := paddle, ball := outBall, bricks := outBricks, ballSpeed := ballSpeed,
            score := score, lives := lives, level := level, isGameOver := isGameOver);
  }

  // ---------------------------------------------------------------------------
  // The frame

  /** Over a whole running frame the paddle stays on the board at its width,
      and the score rises by 100 for a struck brick or not at all. */
  lemma FrameBounds(s: State, input: Input, trig: Trig)
    requires s.paddle.width != 0.0 && s.paddle.width <= s.cfg.width
    ensures var paddle := MovedPaddle(s, input);
            var strike := Struck(s.bricks, s.score, Flight(s, input), s.ball.x, s.ball.y);
            var r := Settle(s, paddle, Rebound(strike.ball, paddle, trig), strike.bricks, strike.score, trig);
            0.0 <= r.paddle.x <= r.cfg.width - r.paddle.width && r.paddle.width == s.paddle.width &&
            (r.score == s.score || r.score == s.score + 100)
  {
    var paddle := MovedPaddle(s, input);
    var strike := Struck(s.bricks, s.score, Flight(s, input), s.ball.x, s.ball.y);
    StruckAtMostOne(s.bricks, s.score, Flight(s, input), s.ball.x, s.ball.y);
    SettleLives(s, paddle, Rebound(strike.ball, paddle, trig), strike.bricks, strike.score, trig);
  }

  method Step(s: State, input: Input, trig: Trig) returns (r: State)
    requires Running(s) ==> s.paddle.width != 0.0
    ensures !Running(s) ==> r == s
    ensures Running(s) ==>
      var paddle := MovedPaddle(s, input);
      var strike := Struck(s.bricks, s.score, Flight(s, input), s.ball.x, s.ball.y);
      r == Settle(s, paddle, Rebound(strike.ball, paddle, trig), strike.bricks, strike.score, trig)
    ensures r.paddle.width == s.paddle.width
    ensures Coherent(s) ==> Coherent(r)
    ensures Coherent(s) && r.level > s.level && s.cfg.ballSpeedStep > 0.0 ==> r.ballSpeed > s.ballSpeed
  {
    if s.isPaused || s.isGameOver {
      return s;
    }
    var paddle := MovedPaddle(s, input);
    var ball := FlyBall(s, input);
    var bricks, score;
    bricks, score, ball := ScanBricks(s.bricks, s.score, ball, s.ball.x, s.ball.y);
    ball := ReboundBall(ball, paddle, trig);
    r := Conclude(s, paddle, ball, bricks, score, trig);
    if Coherent(s) {
      SettleCoherent(s, paddle, ball, bricks, score, trig);
    }
  }
}
