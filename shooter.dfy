/** The fixed-shooter game: its entities, the rectangle overlap test, the
    enemy formation and its waves, the initial state and pausing. The frame
    step is in module ShooterStep. Positions, sizes, speeds and times are
    `real`; score, lives, level and ids are integers. */
module Shooter {
  import opened Wrappers
  import opened Numeric

  datatype Owner = PlayerOwned | EnemyOwned

  /** An axis-aligned rectangle: the shape `intersects` reads of any entity. */
  datatype Box = Box(x: real, y: real, width: real, height: real)

  datatype Player = Player(
    x: real, y: real, width: real, height: real, speed: real,
    shotCooldownMs: real, shotDelayMs: real)

  datatype Shot = Shot(x: real, y: real, width: real, height: real, speed: real, owner: Owner)

  datatype Enemy = Enemy(id: int, x: real, y: real, width: real, height: real, alive: bool)

  /** The board and the tuning constants, fixed when the game is created. */
  datatype Config = Config(
    width: real, height: real,
    enemyRows: nat, enemyCols: nat,
    enemyWidth: real, enemyHeight: real,
    enemyGapX: real, enemyGapY: real,
    enemyMarginX: real, enemyMarginY: real,
    enemyBaseSpeed: real, enemySpeedStep: real, enemyStepDown: real,
    enemyShootBaseIntervalMs: real, enemyShootStepMs: real, enemyShootMinIntervalMs: real)

  datatype State = State(
    cfg: Config,
    player: Player,
    shots: seq<Shot>,
    enemies: seq<Enemy>,
    enemyDir: real,
    enemySpeed: real,
    enemyShootIntervalMs: real,
    enemyShootTimerMs: real,
    score: int,
    lives: int,
    level: int,
    isPaused: bool,
    isGameOver: bool)

  /** The options of `createInitialState`; `None` takes the default. */
  datatype Options = Options(
    width: Option<real>, height: Option<real>,
    enemyRows: Option<nat>, enemyCols: Option<nat>)

  /** What `makeWave` produces for a level. */
  datatype Wave = Wave(enemies: seq<Enemy>, level: int, enemySpeed: real, enemyShootIntervalMs: real)

  // ---------------------------------------------------------------------------
  // Overlap of rectangles

  function PlayerBox(p: Player): Box { Box(p.x, p.y, p.width, p.height) }
  function ShotBox(s: Shot): Box { Box(s.x, s.y, s.width, s.height) }
  function EnemyBox(e: Enemy): Box { Box(e.x, e.y, e.width, e.height) }

  /** `intersects`: the rectangles overlap on both axes (touching edges do not count). */
  predicate Intersects(a: Box, b: Box) {
    a.x < b.x + b.width &&
    a.x + a.width > b.x &&
    a.y < b.y + b.height &&
    a.y + a.height > b.y
  }

  /** The point lies strictly inside the rectangle. */
  predicate Inside(b: Box, px: real, py: real) {
    b.x < px < b.x + b.width && b.y < py < b.y + b.height
  }

  /** For rectangles of positive size, `intersects` holds exactly when some
      point lies inside both. */
  lemma IntersectsIffCommonPoint(a: Box, b: Box)
    requires a.width > 0.0 && a.height > 0.0 && b.width > 0.0 && b.height > 0.0
    ensures Intersects(a, b) <==> exists px, py :: Inside(a, px, py) && Inside(b, px, py)
  {
    if Intersects(a, b) {
      var px := (Max(a.x, b.x) + Min(a.x + a.width, b.x + b.width)) / 2.0;
      var py := (Max(a.y, b.y) + Min(a.y + a.height, b.y + b.height)) / 2.0;
      assert Inside(a, px, py) && Inside(b, px, py);
    }
  }

  // ---------------------------------------------------------------------------
  // The enemy formation

  /** The enemy `createEnemyFormation` puts at grid position (row, col) with the given id. */
  function EnemyAt(cfg: Config, id: int, row: nat, col: nat): Enemy
  {
    Enemy(id,
          cfg.enemyMarginX + col as real * (cfg.enemyWidth + cfg.enemyGapX),
          cfg.enemyMarginY + row as real * (cfg.enemyHeight + cfg.enemyGapY),
          cfg.enemyWidth, cfg.enemyHeight, true)
  }

  /** Columns `0 .. n-1` of one formation row, numbered on from the `before`
      enemies already placed. */
  function FormationRow(cfg: Config, row: nat, n: nat, before: nat): (r: seq<Enemy>)
    ensures |r| == n
  {
    if n == 0 then [] else FormationRow(cfg, row, n - 1, before) + [EnemyAt(cfg, before + n, row, n - 1)]
  }

  /** Rows `0 .. n-1` of the formation, row by row. */
  function FormationRows(cfg: Config, n: nat): seq<Enemy>
  {
    if n == 0 then []
    else
      var prefix := FormationRows(cfg, n - 1);
      prefix + FormationRow(cfg, n - 1, cfg.enemyCols, |prefix|)
  }

  function Formation(cfg: Config): seq<Enemy>
  {
    FormationRows(cfg, cfg.enemyRows)
  }

  lemma {:induction false} FormationRowLayout(cfg: Config, row: nat, n: nat, before: nat)
    ensures forall col :: 0 <= col < n ==>
      FormationRow(cfg, row, n, before)[col] == EnemyAt(cfg, before + col + 1, row, col)
  {
    if n > 0 {
      FormationRowLayout(cfg, row, n - 1, before);
    }
  }

  lemma {:induction false} FormationRowsIds(cfg: Config, n: nat)
    ensures forall i :: 0 <= i < |FormationRows(cfg, n)| ==>
      FormationRows(cfg, n)[i].id == i + 1 && FormationRows(cfg, n)[i].alive
  {
    if n > 0 {
      FormationRowsIds(cfg, n - 1);
      var prefix := FormationRows(cfg, n - 1);
      FormationRowLayout(cfg, n - 1, cfg.enemyCols, |prefix|);
    }
  }

  lemma {:induction false} FormationRowsSize(cfg: Config, n: nat)
    ensures |FormationRows(cfg, n)| == n * cfg.enemyCols
  {
    if n > 0 {
      FormationRowsSize(cfg, n - 1);
      assert (n - 1) * cfg.enemyCols + cfg.enemyCols == n * cfg.enemyCols;
    }
  }

  /** The enemy the formation holds at grid position (row, col). */
  function GridEnemy(cfg: Config, row: nat, col: nat): Enemy
  {
    EnemyAt(cfg, Slot(cfg.enemyCols, row, col) + 1, row, col)
  }

  lemma {:induction false} FormationRowsLayout(cfg: Config, n: nat)
    ensures forall row, col :: 0 <= row < n && 0 <= col < cfg.enemyCols ==>
      Slot(cfg.enemyCols, row, col) < |FormationRows(cfg, n)| &&
      FormationRows(cfg, n)[Slot(cfg.enemyCols, row, col)] == GridEnemy(cfg, row, col)
  {
    var cols := cfg.enemyCols;
    if n > 0 {
      FormationRowsLayout(cfg, n - 1);
      FormationRowsSize(cfg, n - 1);
      var prefix := FormationRows(cfg, n - 1);
      var last := FormationRow(cfg, n - 1, cols, |prefix|);
      FormationRowLayout(cfg, n - 1, cols, |prefix|);
      assert FormationRows(cfg, n) == prefix + last;
      forall row, col | 0 <= row < n && 0 <= col < cols
        ensures Slot(cols, row, col) < |prefix + last|
        ensures (prefix + last)[Slot(cols, row, col)] == GridEnemy(cfg, row, col)
      {
        if row < n - 1 {
          SlotBelow(row, col, n - 1, cols);
        } else {
          assert Slot(cols, row, col) == |prefix| + col;
        }
      }
    }
  }

  /** A fresh formation: `rows * cols` living enemies with ids 1 .. rows*cols in
      storage order, and the enemy of grid position (row, col) at slot
      `row * cols + col`. */
  lemma FormationLayout(cfg: Config)
    ensures |Formation(cfg)| == cfg.enemyRows * cfg.enemyCols
    ensures forall i :: 0 <= i < |Formation(cfg)| ==> Formation(cfg)[i].id == i + 1 && Formation(cfg)[i].alive
    ensures forall row, col :: 0 <= row < cfg.enemyRows && 0 <= col < cfg.enemyCols ==>
      Slot(cfg.enemyCols, row, col) < |Formation(cfg)| &&
      Formation(cfg)[Slot(cfg.enemyCols, row, col)] == GridEnemy(cfg, row, col)
  {
    FormationRowsIds(cfg, cfg.enemyRows);
    FormationRowsSize(cfg, cfg.enemyRows);
    FormationRowsLayout(cfg, cfg.enemyRows);
  }

  method CreateEnemyFormation(cfg: Config) returns (enemies: seq<Enemy>)
    ensures enemies == Formation(cfg)
    ensures |enemies| == cfg.enemyRows * cfg.enemyCols
    ensures forall i :: 0 <= i < |enemies| ==> enemies[i].id == i + 1 && enemies[i].alive
  {
    enemies := [];
    var id := 1;
    for row := 0 to cfg.enemyRows
      invariant enemies == FormationRows(cfg, row)
      invariant id == |enemies| + 1
    {
      ghost var prefix := enemies;
      for col := 0 to cfg.enemyCols
        invariant enemies == prefix + FormationRow(cfg, row, col, |prefix|)
        invariant id == |enemies| + 1
      {
        var enemy := EnemyAt(cfg, id, row, col);
        assert |enemies| == |prefix| + col;
        enemies := enemies + [enemy];
        id := id + 1;
      }
    }
    FormationLayout(cfg);
  }

  // ---------------------------------------------------------------------------
  // Waves

  function WaveSpeed(cfg: Config, level: int): real {
    cfg.enemyBaseSpeed + (level - 1) as real * cfg.enemySpeedStep
  }

  function WaveInterval(cfg: Config, level: int): (ms: real)
    ensures ms >= cfg.enemyShootMinIntervalMs
  {
    Max(cfg.enemyShootMinIntervalMs,
        cfg.enemyShootBaseIntervalMs - (level - 1) as real * cfg.enemyShootStepMs)
  }

  /** The state's formation speed and firing interval are those of its level. */
  predicate Coherent(s: State) {
    s.enemySpeed == WaveSpeed(s.cfg, s.level) && s.enemyShootIntervalMs == WaveInterval(s.cfg, s.level)
  }

  function MakeWave(cfg: Config, level: int): (w: Wave)
    ensures w.level == level
    ensures |w.enemies| == cfg.enemyRows * cfg.enemyCols
    ensures forall i :: 0 <= i < |w.enemies| ==> w.enemies[i].id == i + 1 && w.enemies[i].alive
  {
    FormationLayout(cfg);
    Wave(Formation(cfg), level, WaveSpeed(cfg, level), WaveInterval(cfg, level))
  }

  /** Each wave is faster than the one before when the speed step is positive;
      the firing interval never grows and never drops below its minimum. */
  lemma WaveProgression(cfg: Config, level: int)
    ensures cfg.enemySpeedStep > 0.0 ==> WaveSpeed(cfg, level + 1) > WaveSpeed(cfg, level)
    ensures WaveSpeed(cfg, level + 1) == WaveSpeed(cfg, level) + cfg.enemySpeedStep
    ensures cfg.enemyShootStepMs >= 0.0 ==> WaveInterval(cfg, level + 1) <= WaveInterval(cfg, level)
    ensures cfg.enemyShootMinIntervalMs <= WaveInterval(cfg, level + 1)
  {
  }

  // ---------------------------------------------------------------------------
  // Creation and pause

  /** The constants `createInitialState` fixes; only the board and the
      formation size are options. */
  function DefaultConfig(width: real, height: real, rows: nat, cols: nat): Config {
    Config(width, height, rows, cols, 28.0, 20.0, 14.0, 14.0, 38.0, 70.0,
           48.0, 10.0, 20.0, 900.0, 60.0, 300.0)
  }

  function CreateInitialState(opts: Options): (s: State)
    ensures s.cfg == DefaultConfig(opts.width.GetOr(480.0), opts.height.GetOr(640.0),
                                   opts.enemyRows.GetOr(4), opts.enemyCols.GetOr(8))
    ensures s.player == Player(s.cfg.width / 2.0 - 20.0, s.cfg.height - 54.0, 40.0, 24.0, 280.0, 0.0, 220.0)
    ensures s.enemies == Formation(s.cfg) && |s.enemies| == s.cfg.enemyRows * s.cfg.enemyCols
    ensures s.level == 1 && s.lives == 3 && s.score == 0 && s.shots == []
    ensures s.enemySpeed == 48.0 && s.enemyDir == 1.0
    ensures s.enemyShootIntervalMs == s.enemyShootTimerMs == 900.0
    ensures s.player.width <= s.cfg.width ==> 0.0 <= s.player.x <= s.cfg.width - s.player.width
    ensures s.player.shotCooldownMs == 0.0 && !s.isPaused && !s.isGameOver
    ensures Coherent(s)
  {
    var width := opts.width.GetOr(480.0);
    var height := opts.height.GetOr(640.0);
    var cfg := DefaultConfig(width, height, opts.enemyRows.GetOr(4), opts.enemyCols.GetOr(8));
    var first := MakeWave(cfg, 1);
    State(cfg,
          Player(width / 2.0 - 20.0, height - 54.0, 40.0, 24.0, 280.0, 0.0, 220.0),
          [], first.enemies, 1.0, first.enemySpeed, first.enemyShootIntervalMs,
          first.enemyShootIntervalMs, 0, 3, 1, false, false)
  }

  function TogglePause(s: State): (r: State)
    ensures s.isGameOver ==> r == s
    ensures !s.isGameOver ==> r.isPaused != s.isPaused && r.(isPaused := s.isPaused) == s
  {
    if s.isGameOver then s else s.(isPaused := !s.isPaused)
  }

  lemma TogglePauseTwice(s: State)
    ensures TogglePause(TogglePause(s)) == s
  {
  }
}
