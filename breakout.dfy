/** The brick-breaker: its entities, the circle-rectangle overlap test, the
    ball constructor, the brick grid and its levels, the initial state and
    pausing. The frame step is in module BreakoutStep. Positions, sizes and
    speeds are `real`; score, lives, level and ids are integers. */
module Breakout {
  import opened Wrappers
  import opened Numeric

  /** The axis-aligned rectangle `circleIntersectsRect` reads of a brick or the paddle. */
  datatype Rect = Rect(x: real, y: real, width: real, height: real)

  datatype Paddle = Paddle(x: real, y: real, width: real, height: real, speed: real)

  datatype Ball = Ball(x: real, y: real, vx: real, vy: real, radius: real)

  datatype Brick = Brick(id: int, x: real, y: real, width: real, height: real, row: nat, col: nat, alive: bool)

  /** The board and the tuning constants, fixed when the game is created. */
  datatype Config = Config(
    width: real, height: real,
    brickRows: nat, brickCols: nat,
    brickMarginX: real, brickMarginY: real,
    brickGapX: real, brickGapY: real, brickHeight: real,
    paddleWidth: real, paddleHeight: real, paddleSpeed: real, paddleBottomGap: real,
    ballRadius: real, ballBaseSpeed: real, ballSpeedStep: real)

  datatype State = State(
    cfg: Config,
    paddle: Paddle,
    ball: Ball,
    bricks: seq<Brick>,
    ballSpeed: real,
    score: int,
    lives: int,
    level: int,
    isPaused: bool,
    isGameOver: bool)

  /** The options of `createInitialState`; `None` takes the default. */
  datatype Options = Options(
    width: Option<real>, height: Option<real>,
    brickRows: Option<nat>, brickCols: Option<nat>)

  /** The arguments of `createBricks`. */
  datatype Grid = Grid(
    rows: nat, cols: nat,
    marginX: real, marginY: real,
    gapX: real, gapY: real,
    width: real, brickHeight: real)

  /** What `makeLevel` produces for a level. */
  datatype Level = Level(bricks: seq<Brick>, ballSpeed: real)

  /** `Math.sqrt`, `Math.hypot`, `Math.sin`, `Math.cos` and `Math.PI`, left
      uninterpreted: the game makes no claim about their exact values. */
  datatype Trig = Trig(
    sqrt: real -> real,
    hypot: (real, real) -> real,
    sin: real -> real,
    cos: real -> real,
    pi: real)

  function Abs(x: real): real { if x < 0.0 then -x else x }

  // ---------------------------------------------------------------------------
  // Circle against rectangle

  function BrickRect(b: Brick): Rect { Rect(b.x, b.y, b.width, b.height) }
  function PaddleRect(p: Paddle): Rect { Rect(p.x, p.y, p.width, p.height) }

  /** The squared distance between two points. */
  function Dist2(ax: real, ay: real, qx: real, qy: real): real {
    (ax - qx) * (ax - qx) + (ay - qy) * (ay - qy)
  }

  /** The point of the rectangle (border included) nearest the ball's centre. */
  function NearestX(ball: Ball, rect: Rect): real { Clamp(ball.x, rect.x, rect.x + rect.width) }
  function NearestY(ball: Ball, rect: Rect): real { Clamp(ball.y, rect.y, rect.y + rect.height) }

  /** `circleIntersectsRect`: the nearest point of the rectangle lies within the radius. */
  predicate CircleIntersectsRect(ball: Ball, rect: Rect) {
    Dist2(ball.x, ball.y, NearestX(ball, rect), NearestY(ball, rect)) <= ball.radius * ball.radius
  }

  predicate InRect(rect: Rect, px: real, py: real) {
    rect.x <= px <= rect.x + rect.width && rect.y <= py <= rect.y + rect.height
  }

  lemma SquareMono(a: real, b: real)
    requires 0.0 <= a <= b
    ensures a * a <= b * b
  {
    assert a * a <= a * b;
    assert a * b <= b * b;
  }

  /** Along one axis the clamped coordinate is no farther from `c` than any
      coordinate of the interval. */
  lemma NearestOnAxis(c: real, lo: real, hi: real, p: real)
    requires lo <= p <= hi
    ensures (c - Clamp(c, lo, hi)) * (c - Clamp(c, lo, hi)) <= (c - p) * (c - p)
  {
    var n := Clamp(c, lo, hi);
    if c < lo {
      SquareMono(n - c, p - c);
    } else if c > hi {
      SquareMono(c - n, c - p);
    } else {
      assert n == c;
    }
  }

  /** The clamped point is the point of the rectangle nearest the centre. */
  lemma NearestIsClosest(ball: Ball, rect: Rect, px: real, py: real)
    requires InRect(rect, px, py)
    ensures InRect(rect, NearestX(ball, rect), NearestY(ball, rect))
    ensures Dist2(ball.x, ball.y, NearestX(ball, rect), NearestY(ball, rect)) <= Dist2(ball.x, ball.y, px, py)
  {
    NearestOnAxis(ball.x, rect.x, rect.x + rect.width, px);
    NearestOnAxis(ball.y, rect.y, rect.y + rect.height, py);
  }

  /** For a rectangle of non-negative size the test holds exactly when some
      point of the rectangle lies within the ball's radius. */
  lemma CircleIntersectsRectIff(ball: Ball, rect: Rect)
    requires rect.width >= 0.0 && rect.height >= 0.0
    ensures CircleIntersectsRect(ball, rect) <==>
      exists px, py :: InRect(rect, px, py) && Dist2(ball.x, ball.y, px, py) <= ball.radius * ball.radius
  {
    var nx, ny := NearestX(ball, rect), NearestY(ball, rect);
    assert InRect(rect, nx, ny);
    forall px, py | InRect(rect, px, py) && Dist2(ball.x, ball.y, px, py) <= ball.radius * ball.radius
      ensures CircleIntersectsRect(ball, rect)
    {
      NearestIsClosest(ball, rect, px, py);
    }
  }

  // ---------------------------------------------------------------------------
  // The ball

  /** `createBall`: 72% of the speed goes sideways in the given direction,
      the rest upwards (`vy` is minus a square root). */
  function CreateBall(x: real, y: real, speed: real, radius: real, horizontalDir: real, trig: Trig): Ball {
    var vx := speed * 0.72 * horizontalDir;
    Ball(x, y, vx, -trig.sqrt(speed * speed - vx * vx), radius)
  }

  ghost predicate SqrtNonNegative(trig: Trig) {
    forall v :: trig.sqrt(v) >= 0.0
  }

  /** A new ball leaves from the given point, heads sideways in the given
      direction and, with a square root that is never negative, upwards. */
  lemma CreateBallHeading(x: real, y: real, speed: real, radius: real, horizontalDir: real, trig: Trig)
    requires speed > 0.0
    ensures var b := CreateBall(x, y, speed, radius, horizontalDir, trig);
            b.x == x && b.y == y && b.radius == radius &&
            (horizontalDir > 0.0 ==> b.vx > 0.0) && (horizontalDir < 0.0 ==> b.vx < 0.0)
    ensures SqrtNonNegative(trig) ==> CreateBall(x, y, speed, radius, horizontalDir, trig).vy <= 0.0
  {
    var b := CreateBall(x, y, speed, radius, horizontalDir, trig);
    if horizontalDir > 0.0 {
      assert speed * 0.72 > 0.0;
      assert b.vx == (speed * 0.72) * horizontalDir;
    } else if horizontalDir < 0.0 {
      assert speed * 0.72 > 0.0;
      assert b.vx == (speed * 0.72) * horizontalDir;
    }
  }

  // ---------------------------------------------------------------------------
  // The brick grid

  /** The common brick width: the board less both margins and the gaps, shared
      out among the columns. With no columns no brick is built and the width
      is never used. */
  function BrickWidth(g: Grid): real {
    if g.cols == 0 then 0.0
    else (g.width - g.marginX * 2.0 - g.gapX * (g.cols as real - 1.0)) / g.cols as real
  }

  /** The brick `createBricks` puts at grid position (row, col) with the given id. */
  function BrickAt(g: Grid, id: int, row: nat, col: nat): Brick {
    Brick(id,
          g.marginX + col as real * (BrickWidth(g) + g.gapX),
          g.marginY + row as real * (g.brickHeight + g.gapY),
          BrickWidth(g), g.brickHeight, row, col, true)
  }

  /** Columns `0 .. n-1` of one row, numbered on from the `before` bricks already placed. */
  function BrickRow(g: Grid, row: nat, n: nat, before: nat): (r: seq<Brick>)
    ensures |r| == n
  {
    if n == 0 then [] else BrickRow(g, row, n - 1, before) + [BrickAt(g, before + n, row, n - 1)]
  }

  /** Rows `0 .. n-1` of the grid, row by row. */
  function BrickRows(g: Grid, n: nat): seq<Brick> {
    if n == 0 then []
    else
      var prefix := BrickRows(g, n - 1);
      prefix + BrickRow(g, n - 1, g.cols, |prefix|)
  }

  function Bricks(g: Grid): seq<Brick> {
    BrickRows(g, g.rows)
  }

  /** The brick the grid holds at position (row, col): its id is `row * cols + col + 1`. */
  function GridBrick(g: Grid, row: nat, col: nat): Brick {
    BrickAt(g, Slot(g.cols, row, col) + 1, row, col)
  }

  lemma {:induction false} BrickRowLayout(g: Grid, row: nat, n: nat, before: nat)
    ensures forall col :: 0 <= col < n ==> BrickRow(g, row, n, before)[col] == BrickAt(g, before + col + 1, row, col)
  {
    if n > 0 {
      BrickRowLayout(g, row, n - 1, before);
    }
  }

  lemma {:induction false} BrickRowsIds(g: Grid, n: nat)
    ensures forall i :: 0 <= i < |BrickRows(g, n)| ==> BrickRows(g, n)[i].id == i + 1 && BrickRows(g, n)[i].alive
  {
    if n > 0 {
      BrickRowsIds(g, n - 1);
      var prefix := BrickRows(g, n - 1);
      BrickRowLayout(g, n - 1, g.cols, |prefix|);
    }
  }

  lemma {:induction false} BrickRowsSize(g: Grid, n: nat)
    ensures |BrickRows(g, n)| == n * g.cols
  {
    if n > 0 {
      BrickRowsSize(g, n - 1);
      assert (n - 1) * g.cols + g.cols == n * g.cols;
    }
  }

  lemma {:induction false} BrickRowsLayout(g: Grid, n: nat)
    ensures forall row, col :: 0 <= row < n && 0 <= col < g.cols ==>
      Slot(g.cols, row, col) < |BrickRows(g, n)| &&
      BrickRows(g, n)[Slot(g.cols, row, col)] == GridBrick(g, row, col)
  {
    var cols := g.cols;
    if n > 0 {
      BrickRowsLayout(g, n - 1);
      BrickRowsSize(g, n - 1);
      var prefix := BrickRows(g, n - 1);
      var last := BrickRow(g, n - 1, cols, |prefix|);
      BrickRowLayout(g, n - 1, cols, |prefix|);
      assert BrickRows(g, n) == prefix + last;
      forall row, col | 0 <= row < n && 0 <= col < cols
        ensures Slot(cols, row, col) < |prefix + last|
        ensures (prefix + last)[Slot(cols, row, col)] == GridBrick(g, row, col)
      {
        if row < n - 1 {
          SlotBelow(row, col, n - 1, cols);
        } else {
          assert Slot(cols, row, col) == |prefix| + col;
        }
      }
    }
  }

  /** A fresh grid: `rows * cols` living bricks with ids 1 .. rows*cols in
      storage order, and the brick of grid position (row, col), which records
      its row and column, at slot `row * cols + col`. */
  lemma BricksLayout(g: Grid)
    ensures |Bricks(g)| == g.rows * g.cols
    ensures forall i :: 0 <= i < |Bricks(g)| ==> Bricks(g)[i].id == i + 1 && Bricks(g)[i].alive
    ensures forall row, col :: 0 <= row < g.rows && 0 <= col < g.cols ==>
      Slot(g.cols, row, col) < |Bricks(g)| && Bricks(g)[Slot(g.cols, row, col)] == GridBrick(g, row, col)
  {
    BrickRowsIds(g, g.rows);
    BrickRowsSize(g, g.rows);
    BrickRowsLayout(g, g.rows);
  }

  /** The bricks of a row tile the board: neighbours are one gap apart, and the
      last column ends one margin short of the right edge. */
  lemma BrickTiling(g: Grid, row: nat)
    requires g.cols > 0
    ensures forall col :: 0 <= col < g.cols - 1 ==>
      BrickAt(g, 0, row, col + 1).x == BrickAt(g, 0, row, col).x + BrickWidth(g) + g.gapX
    ensures BrickAt(g, 0, row, g.cols - 1).x + BrickWidth(g) == g.width - g.marginX
  {
    var c := g.cols as real;
    var w := BrickWidth(g);
    var inner := g.width - g.marginX * 2.0 - g.gapX * (c - 1.0);
    assert w * c == inner;
    assert (c - 1.0) * (w + g.gapX) + w == w * c + g.gapX * (c - 1.0);
  }

  method CreateBricks(g: Grid) returns (bricks: seq<Brick>)
    ensures bricks == Bricks(g)
    ensures |bricks| == g.rows * g.cols
    ensures forall i :: 0 <= i < |bricks| ==> bricks[i].id == i + 1 && bricks[i].alive
  {
    bricks := [];
    var id := 1;
    for row := 0 to g.rows
      invariant bricks == BrickRows(g, row)
      invariant id == |bricks| + 1
    {
      ghost var prefix := bricks;
      for col := 0 to g.cols
        invariant bricks == prefix + BrickRow(g, row, col, |prefix|)
        invariant id == |bricks| + 1
      {
        var brick := BrickAt(g, id, row, col);
        assert |bricks| == |prefix| + col;
        bricks := bricks + [brick];
        id := id + 1;
      }
    }
    BricksLayout(g);
  }

  // ---------------------------------------------------------------------------
  // Levels

  function GridOf(cfg: Config): Grid {
    Grid(cfg.brickRows, cfg.brickCols, cfg.brickMarginX, cfg.brickMarginY,
         cfg.brickGapX, cfg.brickGapY, cfg.width, cfg.brickHeight)
  }

  function LevelSpeed(cfg: Config, level: int): real {
    cfg.ballBaseSpeed + (level - 1) as real * cfg.ballSpeedStep
  }

  /** Each level's ball is faster than the last by the speed step, starting
      from the base speed at level 1. */
  lemma LevelSpeedSteps(cfg: Config, level: int)
    ensures LevelSpeed(cfg, 1) == cfg.ballBaseSpeed
    ensures LevelSpeed(cfg, level + 1) == LevelSpeed(cfg, level) + cfg.ballSpeedStep
  {
  }

  /** The state's ball speed is that of its level, the lives never drop
      below zero, and the game is over exactly when no life is left. */
  predicate Coherent(s: State) {
    s.ballSpeed == LevelSpeed(s.cfg, s.level) && s.lives >= 0 && (s.isGameOver <==> s.lives == 0)
  }

  /** `makeLevel`: a fresh grid and the level's ball speed. */
  function MakeLevel(cfg: Config, level: int): (l: Level)
    ensures |l.bricks| == cfg.brickRows * cfg.brickCols
    ensures forall i :: 0 <= i < |l.bricks| ==> l.bricks[i].id == i + 1 && l.bricks[i].alive
  {
    BricksLayout(GridOf(cfg));
    Level(Bricks(GridOf(cfg)), LevelSpeed(cfg, level))
  }

  // ---------------------------------------------------------------------------
  // Creation and pause

  /** The constants `createInitialState` fixes; only the board and the grid size are options. */
  function DefaultConfig(width: real, height: real, rows: nat, cols: nat): Config {
    Config(width, height, rows, cols, 24.0, 84.0, 8.0, 8.0, 18.0,
           88.0, 14.0, 360.0, 30.0, 8.0, 260.0, 20.0)
  }

  function CreateInitialState(opts: Options, trig: Trig): (s: State)
    ensures s.cfg == DefaultConfig(opts.width.GetOr(480.0), opts.height.GetOr(640.0),
                                   opts.brickRows.GetOr(5), opts.brickCols.GetOr(8))
    ensures s.bricks == Bricks(GridOf(s.cfg)) && |s.bricks| == s.cfg.brickRows * s.cfg.brickCols
    ensures s.paddle == Paddle(s.cfg.width / 2.0 - s.cfg.paddleWidth / 2.0,
                               s.cfg.height - s.cfg.paddleBottomGap - s.cfg.paddleHeight,
                               s.cfg.paddleWidth, s.cfg.paddleHeight, s.cfg.paddleSpeed)
    ensures s.paddle.width == 88.0 && s.ball.radius == s.cfg.ballRadius
    ensures s.paddle.x + s.paddle.width / 2.0 == s.cfg.width / 2.0
    ensures s.paddle.y + s.paddle.height + s.cfg.paddleBottomGap == s.cfg.height
    ensures s.ball.x == s.paddle.x + s.paddle.width / 2.0 && s.ball.y == s.paddle.y - s.ball.radius - 2.0
    ensures s.ball.vx > 0.0 && s.ballSpeed == 260.0
    ensures s.level == 1 && s.lives == 3 && s.score == 0 && !s.isPaused && !s.isGameOver
    ensures Coherent(s)
  {
    var cfg := DefaultConfig(opts.width.GetOr(480.0), opts.height.GetOr(640.0),
                             opts.brickRows.GetOr(5), opts.brickCols.GetOr(8));
    var paddleX := cfg.width / 2.0 - cfg.paddleWidth / 2.0;
    var paddleY := cfg.height - cfg.paddleBottomGap - cfg.paddleHeight;
    var first := MakeLevel(cfg, 1);
    CreateBallHeading(paddleX + cfg.paddleWidth / 2.0, paddleY - cfg.ballRadius - 2.0,
                      first.ballSpeed, cfg.ballRadius, 1.0, trig);
    State(cfg,
          Paddle(paddleX, paddleY, cfg.paddleWidth, cfg.paddleHeight, cfg.paddleSpeed),
          CreateBall(paddleX + cfg.paddleWidth / 2.0, paddleY - cfg.ballRadius - 2.0,
                     first.ballSpeed, cfg.ballRadius, 1.0, trig),
          first.bricks, first.ballSpeed, 0, 3, 1, false, false)
  }

  function TogglePause(s: State): (r: State)
    ensures s.isGameOver ==> r == s
    ensures !s.isGameOver ==> r.isPaused != s.isPaused && r.(isPaused := s.isPaused) == s
  {
    if s.isGameOver then s else s.(isPaused := !s.isPaused)
  }

  lemma TogglePauseTwice(s: State)
    ensures TogglePause(TogglePause(s)) == s
  {
  }
}
