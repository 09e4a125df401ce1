/** The shooter's frame step. `Step` runs the sub-steps of one frame in the
    source's order: player move and cooldown, firing, shot flight, formation
    march, enemy fire, the two collision passes, game over and wave clear.
    Each sub-step that loops is a method proved against a function of its
    inputs; `Next` composes those functions and `Step` is proved to compute it. */
module ShooterStep {
  import opened Wrappers
  import opened Numeric
  import opened Shooter

  datatype Input = Input(dtMs: Option<real>, left: bool, right: bool, shoot: bool)

  /** The contract of the injected `nextRandom()`: the k-th call made within one
      step returns `nextRandom(k)`, a value in `[0, 1)`. */
  ghost predicate RandomOk(nextRandom: nat -> real) {
    forall k :: 0.0 <= nextRandom(k) < 1.0
  }

  predicate Running(s: State) {
    !s.isPaused && !s.isGameOver
  }

  // ---------------------------------------------------------------------------
  // Player: move, cooldown, fire

  /** `Math.max(0, input.dtMs ?? 16)`: the frame time is floored at 0, not capped. */
  function FrameMs(input: Input): (ms: real)
    ensures ms >= 0.0
    ensures input.dtMs.None? ==> ms == 16.0
    ensures input.dtMs.Some? && input.dtMs.value < 0.0 ==> ms == 0.0
    ensures input.dtMs.Some? && input.dtMs.value >= 0.0 ==> ms == input.dtMs.value
  {
    Max(0.0, input.dtMs.GetOr(16.0))
  }

  /** The frame time in seconds. */
  function FrameSec(input: Input): real {
    FrameMs(input) / 1000.0
  }

  function MoveDir(input: Input): real {
    (if input.right then 1.0 else 0.0) - (if input.left then 1.0 else 0.0)
  }

  /** The player after the clamped move and the cooldown tick. */
  function MovedPlayer(s: State, input: Input): (p: Player)
    ensures p == s.player.(x := p.x, shotCooldownMs := p.shotCooldownMs)
    ensures p.x <= s.cfg.width - s.player.width
    ensures s.player.width <= s.cfg.width ==> 0.0 <= p.x
    ensures 0.0 <= p.shotCooldownMs
    ensures s.player.shotCooldownMs >= 0.0 ==> p.shotCooldownMs <= s.player.shotCooldownMs
    ensures var target := s.player.x + MoveDir(input) * s.player.speed * FrameSec(input);
            var w := s.cfg.width - s.player.width;
            (0.0 <= target <= w ==> p.x == target) &&
            (target < 0.0 <= w ==> p.x == 0.0) &&
            (0.0 <= w < target ==> p.x == w)
  {
    var dtMs := FrameMs(input);
    s.player.(x := Clamp(s.player.x + MoveDir(input) * s.player.speed * FrameSec(input),
                         0.0, s.cfg.width - s.player.width),
              shotCooldownMs := Max(0.0, s.player.shotCooldownMs - dtMs))
  }

  /** A shot leaves only when asked for and the cooldown has run out. */
  predicate Fires(s: State, input: Input) {
    input.shoot && MovedPlayer(s, input).shotCooldownMs == 0.0
  }

  /** The player at the end of the step: the cooldown restarts on a shot. */
  function ArmedPlayer(s: State, input: Input): (p: Player)
    ensures p == MovedPlayer(s, input).(shotCooldownMs := p.shotCooldownMs)
    ensures Fires(s, input) ==> p.shotCooldownMs == s.player.shotDelayMs
    ensures !Fires(s, input) ==> p.shotCooldownMs == MovedPlayer(s, input).shotCooldownMs
  {
    var p := MovedPlayer(s, input);
    if Fires(s, input) then p.(shotCooldownMs := p.shotDelayMs) else p
  }

  function PlayerShotFrom(p: Player): Shot {
    Shot(p.x + p.width / 2.0 - 2.0, p.y - 12.0, 4.0, 12.0, 360.0, PlayerOwned)
  }

  function EnemyShotFrom(e: Enemy): Shot {
    Shot(e.x + e.width / 2.0 - 2.0, e.y + e.height, 4.0, 12.0, 220.0, EnemyOwned)
  }

  /** The shot list after firing: one player shot appended exactly when the player fires. */
  function Launched(s: State, input: Input): (shots: seq<Shot>)
    ensures |shots| == |s.shots| + (if Fires(s, input) then 1 else 0)
    ensures shots[..|s.shots|] == s.shots
    ensures Fires(s, input) ==> shots[|s.shots|].owner == PlayerOwned
  {
    s.shots + (if Fires(s, input) then [PlayerShotFrom(MovedPlayer(s, input))] else [])
  }

  /** Two frames in a row with `shoot` held fire only once while the second
      frame is shorter than the shot delay. */
  lemma NoSecondShotWithinDelay(s: State, first: Input, t: State, second: Input)
    requires Fires(s, first)
    requires t.player == ArmedPlayer(s, first)
    requires FrameMs(second) < s.player.shotDelayMs
    ensures !Fires(t, second)
  {
  }

  // ---------------------------------------------------------------------------
  // Shots in flight

  /** Player shots fly up, enemy shots fly down. */
  function Advanced(shot: Shot, dtSec: real): Shot {
    if shot.owner == PlayerOwned then shot.(y := shot.y - shot.speed * dtSec)
    else shot.(y := shot.y + shot.speed * dtSec)
  }

  function Flown(shots: seq<Shot>, dtSec: real): (r: seq<Shot>)
    ensures |r| == |shots|
  {
    seq(|shots|, i requires 0 <= i < |shots| => Advanced(shots[i], dtSec))
  }

  method AdvanceShots(shots: seq<Shot>, dtSec: real) returns (moved: seq<Shot>)
    ensures moved == Flown(shots, dtSec)
    ensures forall i :: 0 <= i < |moved| ==> moved[i].owner == shots[i].owner && moved[i].x == shots[i].x
  {
    moved := shots;
    for i := 0 to |moved|
      invariant |moved| == |shots|
      invariant forall k :: 0 <= k < i ==> moved[k] == Advanced(shots[k], dtSec)
      invariant forall k :: i <= k < |moved| ==> moved[k] == shots[k]
    {
      var shot := moved[i];
      if shot.owner == PlayerOwned {
        shot := shot.(y := shot.y - shot.speed * dtSec);
      } else {
        shot := shot.(y := shot.y + shot.speed * dtSec);
      }
      moved := moved[i := shot];
    }
  }

  predicate OnBoard(shot: Shot, height: real) {
    shot.y + shot.height >= 0.0 && shot.y <= height
  }

  /** The shots still overlapping the board vertically, in order. */
  function KeepOnBoard(shots: seq<Shot>, height: real): (r: seq<Shot>)
    ensures |r| <= |shots|
  {
    if |shots| == 0 then []
    else
      var last := shots[|shots| - 1];
      KeepOnBoard(shots[..|shots| - 1], height) + (if OnBoard(last, height) then [last] else [])
  }

  /** The filter keeps exactly the shots still on the board. */
  lemma {:induction false} KeepOnBoardMembers(shots: seq<Shot>, height: real)
    ensures forall x :: x in KeepOnBoard(shots, height) <==> x in shots && OnBoard(x, height)
  {
    if |shots| > 0 {
      var last := shots[|shots| - 1];
      assert shots == shots[..|shots| - 1] + [last];
      KeepOnBoardMembers(shots[..|shots| - 1], height);
    }
  }

  function InFlight(s: State, input: Input): seq<Shot> {
    KeepOnBoard(Flown(Launched(s, input), FrameSec(input)), s.cfg.height)
  }

  // ---------------------------------------------------------------------------
  // The formation march

  /** `enemies.filter((enemy) => enemy.alive)`. */
  function Living(enemies: seq<Enemy>): (r: seq<Enemy>)
    ensures |r| <= |enemies|
  {
    if |enemies| == 0 then []
    else
      var last := enemies[|enemies| - 1];
      Living(enemies[..|enemies| - 1]) + (if last.alive then [last] else [])
  }

  /** The filter keeps exactly the living enemies. */
  lemma {:induction false} LivingMembers(enemies: seq<Enemy>)
    ensures forall e :: e in Living(enemies) <==> e in enemies && e.alive
  {
    if |enemies| > 0 {
      var last := enemies[|enemies| - 1];
      assert enemies == enemies[..|enemies| - 1] + [last];
      LivingMembers(enemies[..|enemies| - 1]);
    }
  }

  function AliveCount(enemies: seq<Enemy>): nat {
    |Living(enemies)|
  }

  /** The left edge of the living span: the least x. */
  function LeftEdge(alive: seq<Enemy>): (m: real)
    requires |alive| > 0
    ensures forall e :: e in alive ==> m <= e.x
    ensures exists e :: e in alive && m == e.x
  {
    if |alive| == 1 then alive[0].x
    else
      var last := alive[|alive| - 1];
      assert alive == alive[..|alive| - 1] + [last];
      Min(LeftEdge(alive[..|alive| - 1]), last.x)
  }

  /** The right edge of the living span: the greatest x + width. */
  function RightEdge(alive: seq<Enemy>): (m: real)
    requires |alive| > 0
    ensures forall e :: e in alive ==> e.x + e.width <= m
    ensures exists e :: e in alive && m == e.x + e.width
  {
    if |alive| == 1 then alive[0].x + alive[0].width
    else
      var last := alive[|alive| - 1];
      assert alive == alive[..|alive| - 1] + [last];
      Max(RightEdge(alive[..|alive| - 1]), last.x + last.width)
  }

  function Shifted(enemies: seq<Enemy>, dx: real, dy: real): (r: seq<Enemy>)
    ensures |r| == |enemies|
  {
    seq(|enemies|, j requires 0 <= j < |enemies| =>
      enemies[j].(x := enemies[j].x + dx, y := enemies[j].y + dy))
  }

  lemma {:induction false} LivingShifted(enemies: seq<Enemy>, dx: real, dy: real)
    ensures AliveCount(Shifted(enemies, dx, dy)) == AliveCount(enemies)
  {
    if |enemies| > 0 {
      var n := |enemies|;
      LivingShifted(enemies[..n - 1], dx, dy);
      assert Shifted(enemies, dx, dy)[..n - 1] == Shifted(enemies[..n - 1], dx, dy);
    }
  }

  method ShiftFormation(enemies: seq<Enemy>, dx: real, dy: real) returns (moved: seq<Enemy>)
    ensures moved == Shifted(enemies, dx, dy)
  {
    moved := enemies;
    for j := 0 to |moved|
      invariant |moved| == |enemies|
      invariant forall k :: 0 <= k < j ==> moved[k] == enemies[k].(x := enemies[k].x + dx, y := enemies[k].y + dy)
      invariant forall k :: j <= k < |moved| ==> moved[k] == enemies[k]
    {
      var enemy := moved[j];
      enemy := enemy.(x := enemy.x + dx);
      enemy := enemy.(y := enemy.y + dy);
      moved := moved[j := enemy];
    }
  }

  function ShiftX(s: State, dtSec: real): real {
    s.enemyDir * s.enemySpeed * dtSec
  }

  /** Shifting the living span would leave `[0, width]`. */
  predicate Bounces(s: State, dtSec: real) {
    var alive := Living(s.enemies);
    |alive| > 0 &&
    (LeftEdge(alive) + ShiftX(s, dtSec) < 0.0 || RightEdge(alive) + ShiftX(s, dtSec) > s.cfg.width)
  }

  /** Every enemy (living or not) after the march: a step down on a bounce,
      otherwise the common horizontal shift; nothing moves with no one alive. */
  function Marched(s: State, dtSec: real): (r: seq<Enemy>)
    ensures |r| == |s.enemies|
    ensures AliveCount(r) == AliveCount(s.enemies)
  {
    LivingShifted(s.enemies, 0.0, s.cfg.enemyStepDown);
    LivingShifted(s.enemies, ShiftX(s, dtSec), 0.0);
    if AliveCount(s.enemies) == 0 then s.enemies
    else if Bounces(s, dtSec) then Shifted(s.enemies, 0.0, s.cfg.enemyStepDown)
    else Shifted(s.enemies, ShiftX(s, dtSec), 0.0)
  }

  function MarchedDir(s: State, dtSec: real): real {
    if Bounces(s, dtSec) then s.enemyDir * -1.0 else s.enemyDir
  }

  /** The march as the step performs it: measure the living span, bounce or shift. */
  method MarchFormation(s: State, dtSec: real) returns (enemies: seq<Enemy>, enemyDir: real)
    ensures enemies == Marched(s, dtSec)
    ensures enemyDir == MarchedDir(s, dtSec)
  {
    enemies, enemyDir := s.enemies, s.enemyDir;
    var alive := Living(s.enemies);
    if |alive| > 0 {
      var shiftX := ShiftX(s, dtSec);
      var left := LeftEdge(alive);
      var right := RightEdge(alive);
      var appliedShiftX, appliedShiftY := shiftX, 0.0;
      if left + shiftX < 0.0 || right + shiftX > s.cfg.width {
        enemyDir := enemyDir * -1.0;
        appliedShiftX, appliedShiftY := 0.0, s.cfg.enemyStepDown;
      }
      enemies := ShiftFormation(enemies, appliedShiftX, appliedShiftY);
    }
  }

  /** On a bounce the direction flips and every enemy keeps its x and steps down. */
  lemma MarchBounce(s: State, dtSec: real)
    requires Bounces(s, dtSec)
    ensures MarchedDir(s, dtSec) == -s.enemyDir
    ensures forall j :: 0 <= j < |s.enemies| ==>
      Marched(s, dtSec)[j] == s.enemies[j].(y := s.enemies[j].y + s.cfg.enemyStepDown)
  {
    assert Marched(s, dtSec) == Shifted(s.enemies, 0.0, s.cfg.enemyStepDown);
  }

  /** Without a bounce every enemy moves by the same horizontal shift. */
  lemma MarchShift(s: State, dtSec: real)
    requires !Bounces(s, dtSec) && AliveCount(s.enemies) > 0
    ensures MarchedDir(s, dtSec) == s.enemyDir
    ensures forall j :: 0 <= j < |s.enemies| ==>
      Marched(s, dtSec)[j] == s.enemies[j].(x := s.enemies[j].x + ShiftX(s, dtSec))
  {
    assert Marched(s, dtSec) == Shifted(s.enemies, ShiftX(s, dtSec), 0.0);
  }

  /** Without a bounce every living enemy ends inside `[0, width]`. */
  lemma MarchInside(s: State, dtSec: real)
    requires !Bounces(s, dtSec)
    ensures forall j :: 0 <= j < |s.enemies| && Marched(s, dtSec)[j].alive ==>
      0.0 <= Marched(s, dtSec)[j].x && Marched(s, dtSec)[j].x + Marched(s, dtSec)[j].width <= s.cfg.width
  {
    var alive := Living(s.enemies);
    LivingMembers(s.enemies);
    if |alive| == 0 {
      assert forall e :: e in s.enemies ==> !e.alive;
    } else {
      var m := Marched(s, dtSec);
      var dx := ShiftX(s, dtSec);
      assert m == Shifted(s.enemies, dx, 0.0);
      var lo, hi := LeftEdge(alive), RightEdge(alive);
      forall j | 0 <= j < |s.enemies| && m[j].alive
        ensures 0.0 <= m[j].x && m[j].x + m[j].width <= s.cfg.width
      {
        var e := s.enemies[j];
        assert e in alive;
        assert lo <= e.x && e.x + e.width <= hi;
        assert m[j].x == e.x + dx && m[j].width == e.width;
      }
    }
  }

  // ---------------------------------------------------------------------------
  // Enemy fire

  /** `Math.floor(r * n)`: the shooter's index among `n` living enemies. */
  function ShooterIndex(r: real, n: nat): (i: nat)
    requires 0.0 <= r < 1.0 && n > 0
    ensures i < n
  {
    var f := (r * n as real).Floor;
    assert r * n as real < n as real;
    f
  }

  /** How many times the catch-up loop runs: the least k with `timer + k * interval > 0`. */
  function Volleys(timer: real, interval: real): nat
    requires timer <= 0.0 ==> interval > 0.0
  {
    if timer > 0.0 then 0 else ((-timer) / interval).Floor + 1
  }

  lemma FloorAtLeast(k: int, q: real)
    ensures k as real <= q <==> k <= q.Floor
  {
  }

  lemma MulLe(a: real, b: real, c: real)
    requires c > 0.0
    ensures a <= b <==> a * c <= b * c
  {
  }

  /** The loop runs once more exactly while the timer has not climbed above 0. */
  lemma VolleysSpec(timer: real, interval: real, k: nat)
    requires interval > 0.0
    ensures timer + k as real * interval <= 0.0 <==> k < Volleys(timer, interval)
  {
    if timer <= 0.0 {
      var q := (-timer) / interval;
      assert q * interval == -timer;
      MulLe(k as real, q, interval);
      FloorAtLeast(k, q);
    }
  }

  /** After the catch-up loop the timer lies in `(0, interval]` whenever it
      started at or below 0 (otherwise it is untouched). */
  lemma VolleysBracket(timer: real, interval: real)
    requires interval > 0.0
    ensures 0.0 < timer + Volleys(timer, interval) as real * interval
    ensures Volleys(timer, interval) > 0 ==> timer + Volleys(timer, interval) as real * interval <= interval
    ensures Volleys(timer, interval) == 0 <==> timer > 0.0
  {
    var v := Volleys(timer, interval);
    VolleysSpec(timer, interval, v);
    if v > 0 {
      VolleysSpec(timer, interval, v - 1);
      assert timer + v as real * interval == timer + (v - 1) as real * interval + interval;
    }
  }

  /** The enemy shots of `k` loop rounds, each from the shooter the k-th random draw picks. */
  function Volley(shooters: seq<Enemy>, nextRandom: nat -> real, k: nat): (v: seq<Shot>)
    requires |shooters| > 0 && RandomOk(nextRandom)
    ensures |v| == k
    ensures forall i :: 0 <= i < k ==> v[i].owner == EnemyOwned
  {
    if k == 0 then []
    else Volley(shooters, nextRandom, k - 1) + [EnemyShotFrom(shooters[ShooterIndex(nextRandom(k - 1), |shooters|)])]
  }

  /** The catch-up loop stops: with enemies alive and the timer run out, the interval is positive. */
  predicate FireTerminates(alive: nat, t0: real, interval: real) {
    alive > 0 && t0 <= 0.0 ==> interval > 0.0
  }

  /** The enemy shots one step adds, given the living enemies (at their marched
      positions) and the timer after this frame's tick. */
  function EnemyVolley(alive: seq<Enemy>, t0: real, interval: real, nextRandom: nat -> real): (v: seq<Shot>)
    requires RandomOk(nextRandom) && FireTerminates(|alive|, t0, interval)
    ensures forall i :: 0 <= i < |v| ==> v[i].owner == EnemyOwned
  {
    if |alive| > 0 then Volley(alive, nextRandom, Volleys(t0, interval)) else []
  }

  /** The fire timer after the catch-up loop; it idles at the full interval with no one alive. */
  function TimerAfterFire(alive: seq<Enemy>, t0: real, interval: real): real
    requires FireTerminates(|alive|, t0, interval)
  {
    if |alive| > 0 then t0 + Volleys(t0, interval) as real * interval else interval
  }

  /** A timer that starts the frame at most one interval away ends it inside `(0, interval]`. */
  lemma TimerAfterFireRange(alive: seq<Enemy>, t0: real, interval: real)
    requires interval > 0.0 && t0 <= interval
    ensures 0.0 < TimerAfterFire(alive, t0, interval) <= interval
  {
    VolleysBracket(t0, interval);
  }

  method EnemyFire(alive: seq<Enemy>, t0: real, interval: real, shots: seq<Shot>, nextRandom: nat -> real)
    returns (timer: real, out: seq<Shot>)
    requires RandomOk(nextRandom) && FireTerminates(|alive|, t0, interval)
    ensures timer == TimerAfterFire(alive, t0, interval)
    ensures out == shots + EnemyVolley(alive, t0, interval, nextRandom)
  {
    timer, out := t0, shots;
    if |alive| == 0 {
      timer := interval;
      return;
    }
    var k: nat := 0;
    while timer <= 0.0
      invariant t0 <= 0.0 ==> interval > 0.0
      invariant k <= Volleys(t0, interval)
      invariant timer == t0 + k as real * interval
      invariant out == shots + Volley(alive, nextRandom, k)
      decreases Volleys(t0, interval) - k
    {
      VolleysSpec(t0, interval, k);
      var shooter := alive[ShooterIndex(nextRandom(k), |alive|)];
      out := out + [EnemyShotFrom(shooter)];
      timer := timer + interval;
      k := k + 1;
    }
    if t0 <= 0.0 {
      VolleysSpec(t0, interval, k);
    }
  }

  // ---------------------------------------------------------------------------
  // Collision pass 1: player shots against enemies

  predicate Hits(shot: Shot, e: Enemy) {
    e.alive && Intersects(ShotBox(shot), EnemyBox(e))
  }

  /** The first living enemy at or after `from`, in storage order, that the shot overlaps. */
  function FirstTarget(shot: Shot, enemies: seq<Enemy>, from: nat): (t: Option<nat>)
    decreases |enemies| - from
    ensures t.Some? ==> from <= t.value < |enemies| && Hits(shot, enemies[t.value])
    ensures forall j :: from <= j < |enemies| && (t.None? || j < t.value) ==> !Hits(shot, enemies[j])
  {
    if from >= |enemies| then None
    else if Hits(shot, enemies[from]) then Some(from)
    else FirstTarget(shot, enemies, from + 1)
  }

  datatype Pass = Pass(enemies: seq<Enemy>, removed: set<nat>, hits: nat)

  /** Pass 1 over the first `n` shots: each player shot downs the first living
      enemy it overlaps, if any, and is marked for removal. */
  function PlayerPass(shots: seq<Shot>, enemies: seq<Enemy>, n: nat): (p: Pass)
    requires n <= |shots|
    ensures |p.enemies| == |enemies|
    ensures forall i :: i in p.removed ==> i < n && shots[i].owner == PlayerOwned
    ensures forall j :: 0 <= j < |enemies| ==>
      p.enemies[j] == enemies[j] || (enemies[j].alive && p.enemies[j] == enemies[j].(alive := false))
  {
    if n == 0 then Pass(enemies, {}, 0)
    else
      var prev := PlayerPass(shots, enemies, n - 1);
      var shot := shots[n - 1];
      if shot.owner != PlayerOwned then prev
      else
        match FirstTarget(shot, prev.enemies, 0)
        case None => prev
        case Some(j) =>
          Pass(prev.enemies[j := prev.enemies[j].(alive := false)], prev.removed + {n - 1}, prev.hits + 1)
  }

  lemma {:induction false} KillOne(enemies: seq<Enemy>, j: nat)
    requires j < |enemies| && enemies[j].alive
    ensures AliveCount(enemies[j := enemies[j].(alive := false)]) + 1 == AliveCount(enemies)
  {
    var n := |enemies|;
    var after := enemies[j := enemies[j].(alive := false)];
    if j < n - 1 {
      KillOne(enemies[..n - 1], j);
      assert after[..n - 1] == enemies[..n - 1][j := enemies[j].(alive := false)];
    } else {
      assert after[..n - 1] == enemies[..n - 1];
    }
  }

  /** Every hit of pass 1 downs a distinct living enemy: the living count
      drops by exactly the number of shots marked. */
  lemma {:induction false} PlayerPassCount(shots: seq<Shot>, enemies: seq<Enemy>, n: nat)
    requires n <= |shots|
    ensures AliveCount(PlayerPass(shots, enemies, n).enemies) + PlayerPass(shots, enemies, n).hits == AliveCount(enemies)
  {
    if n > 0 {
      PlayerPassCount(shots, enemies, n - 1);
      var prev := PlayerPass(shots, enemies, n - 1);
      var shot := shots[n - 1];
      if shot.owner == PlayerOwned {
        match FirstTarget(shot, prev.enemies, 0)
        case None =>
        case Some(j) => KillOne(prev.enemies, j);
      }
    }
  }

  lemma PlayerPassUnfold(shots: seq<Shot>, enemies: seq<Enemy>, i: nat)
    requires i < |shots|
    ensures var prev := PlayerPass(shots, enemies, i);
            PlayerPass(shots, enemies, i + 1) ==
              if shots[i].owner != PlayerOwned || FirstTarget(shots[i], prev.enemies, 0).None? then prev
              else
                var j := FirstTarget(shots[i], prev.enemies, 0).value;
                Pass(prev.enemies[j := prev.enemies[j].(alive := false)], prev.removed + {i}, prev.hits + 1)
  {
  }

  /** Pass 1 marks a shot exactly when it is a player shot that finds a living
      target among the enemies the earlier shots left standing. */
  lemma {:induction false} PlayerPassMarked(shots: seq<Shot>, enemies: seq<Enemy>, n: nat, i: nat)
    requires i < n <= |shots|
    ensures i in PlayerPass(shots, enemies, n).removed <==>
      shots[i].owner == PlayerOwned && FirstTarget(shots[i], PlayerPass(shots, enemies, i).enemies, 0).Some?
  {
    if i < n - 1 {
      PlayerPassMarked(shots, enemies, n - 1, i);
    }
  }

  method ResolvePlayerShots(shots: seq<Shot>, enemies: seq<Enemy>, score: int)
    returns (out: seq<Enemy>, removed: set<nat>, newScore: int)
    ensures out == PlayerPass(shots, enemies, |shots|).enemies
    ensures removed == PlayerPass(shots, enemies, |shots|).removed
    ensures newScore == score + 100 * PlayerPass(shots, enemies, |shots|).hits
  {
    out, removed, newScore := enemies, {}, score;
    for i := 0 to |shots|
      invariant out == PlayerPass(shots, enemies, i).enemies
      invariant removed == PlayerPass(shots, enemies, i).removed
      invariant newScore == score + 100 * PlayerPass(shots, enemies, i).hits
    {
      PlayerPassUnfold(shots, enemies, i);
      var shot := shots[i];
      if shot.owner != PlayerOwned {
        continue;
      }
      ghost var before := out;
      var j := 0;
      while j < |out|
        invariant 0 <= j <= |out| && out == before
        invariant FirstTarget(shot, out, 0) == FirstTarget(shot, out, j)
      {
        var enemy := out[j];
        if !enemy.alive {
          j := j + 1;
          continue;
        }
        if Intersects(ShotBox(shot), EnemyBox(enemy)) {
          out := out[j := enemy.(alive := false)];
          removed := removed + {i};
          newScore := newScore + 100;
          break;
        }
        j := j + 1;
      }
    }
  }

  // ---------------------------------------------------------------------------
  // Collision pass 2: enemy shots against the player

  datatype Marks = Marks(removed: set<nat>, hits: nat)

  predicate HitsPlayer(shot: Shot, p: Player) {
    shot.owner == EnemyOwned && Intersects(ShotBox(shot), PlayerBox(p))
  }

  /** Pass 2 over the first `n` shots: every enemy shot not yet marked that
      overlaps the player is marked and costs a life. */
  function EnemyPass(shots: seq<Shot>, p: Player, marked: set<nat>, n: nat): (m: Marks)
    requires n <= |shots|
    ensures marked <= m.removed
    ensures forall i :: i in m.removed && i !in marked ==> i < n && HitsPlayer(shots[i], p)
    ensures forall i :: 0 <= i < n && HitsPlayer(shots[i], p) ==> i in m.removed
  {
    if n == 0 then Marks(marked, 0)
    else
      var prev := EnemyPass(shots, p, marked, n - 1);
      var shot := shots[n - 1];
      if shot.owner != EnemyOwned || (n - 1) in prev.removed then prev
      else if Intersects(ShotBox(shot), PlayerBox(p)) then Marks(prev.removed + {n - 1}, prev.hits + 1)
      else prev
  }

  /** How many of the first `n` shots are enemy shots overlapping the player. */
  function CountHits(shots: seq<Shot>, p: Player, n: nat): nat
    requires n <= |shots|
  {
    if n == 0 then 0 else CountHits(shots, p, n - 1) + (if HitsPlayer(shots[n - 1], p) then 1 else 0)
  }

  /** When the marks handed over are all player shots, pass 2 takes one life
      for every enemy shot overlapping the player, and no more. */
  lemma {:induction false} EnemyPassCounts(shots: seq<Shot>, p: Player, marked: set<nat>, n: nat)
    requires n <= |shots|
    requires forall i :: i in marked ==> i < |shots| && shots[i].owner == PlayerOwned
    ensures EnemyPass(shots, p, marked, n).hits == CountHits(shots, p, n)
  {
    if n > 0 {
      EnemyPassCounts(shots, p, marked, n - 1);
      var prev := EnemyPass(shots, p, marked, n - 1);
      if HitsPlayer(shots[n - 1], p) {
        assert n - 1 !in marked;
        assert n - 1 !in prev.removed;
      }
    }
  }

  lemma EnemyPassUnfold(shots: seq<Shot>, p: Player, marked: set<nat>, i: nat)
    requires i < |shots|
    ensures var prev := EnemyPass(shots, p, marked, i);
            EnemyPass(shots, p, marked, i + 1) ==
              if shots[i].owner != EnemyOwned || i in prev.removed || !Intersects(ShotBox(shots[i]), PlayerBox(p)) then prev
              else Marks(prev.removed + {i}, prev.hits + 1)
  {
  }

  method ResolveEnemyShots(shots: seq<Shot>, p: Player, marked: set<nat>, lives: int)
    returns (removed: set<nat>, newLives: int)
    ensures removed == EnemyPass(shots, p, marked, |shots|).removed
    ensures newLives == lives - EnemyPass(shots, p, marked, |shots|).hits
  {
    removed, newLives := marked, lives;
    for i := 0 to |shots|
      invariant removed == EnemyPass(shots, p, marked, i).removed
      invariant newLives == lives - EnemyPass(shots, p, marked, i).hits
    {
      EnemyPassUnfold(shots, p, marked, i);
      var shot := shots[i];
      if shot.owner != EnemyOwned || i in removed {
        continue;
      }
      if Intersects(ShotBox(shot), PlayerBox(p)) {
        removed := removed + {i};
        newLives := newLives - 1;
      }
    }
  }

  // ---------------------------------------------------------------------------
  // Removing marked shots

  /** How many of the indices `0 .. n-1` are marked. */
  function CountMarked(removed: set<nat>, n: nat): (c: nat)
    ensures c <= n
  {
    if n == 0 then 0 else CountMarked(removed, n - 1) + (if n - 1 in removed then 1 else 0)
  }

  /** `shots.filter((_, idx) => !removeShot.has(idx))`. */
  function DropMarked(shots: seq<Shot>, removed: set<nat>): (r: seq<Shot>)
    ensures |r| == |shots| - CountMarked(removed, |shots|)
    ensures forall x :: x in r ==> x in shots
  {
    if |shots| == 0 then []
    else
      var n := |shots|;
      assert shots == shots[..n - 1] + [shots[n - 1]];
      DropMarked(shots[..n - 1], removed) + (if n - 1 in removed then [] else [shots[n - 1]])
  }

  /** The purge keeps every unmarked shot, in order: the shot at index `i`
      moves down by the number of marked shots before it. */
  lemma {:induction false} DropMarkedKeeps(shots: seq<Shot>, removed: set<nat>, i: nat)
    requires i < |shots| && i !in removed
    ensures i - CountMarked(removed, i) < |DropMarked(shots, removed)|
    ensures DropMarked(shots, removed)[i - CountMarked(removed, i)] == shots[i]
  {
    var n := |shots|;
    var front := shots[..n - 1];
    if i < n - 1 {
      DropMarkedKeeps(front, removed, i);
      assert front[i] == shots[i];
    } else {
      assert |DropMarked(front, removed)| == i - CountMarked(removed, i);
    }
  }

  lemma {:induction false} CountMarkedAgree(a: set<nat>, b: set<nat>, n: nat)
    requires forall i :: 0 <= i < n ==> (i in a <==> i in b)
    ensures CountMarked(a, n) == CountMarked(b, n)
  {
    if n > 0 {
      CountMarkedAgree(a, b, n - 1);
    }
  }

  /** Pass 1 marks exactly one shot per enemy downed. */
  lemma {:induction false} PlayerPassMarks(shots: seq<Shot>, enemies: seq<Enemy>, n: nat)
    requires n <= |shots|
    ensures CountMarked(PlayerPass(shots, enemies, n).removed, n) == PlayerPass(shots, enemies, n).hits
  {
    if n > 0 {
      PlayerPassMarks(shots, enemies, n - 1);
      var prev := PlayerPass(shots, enemies, n - 1);
      var cur := PlayerPass(shots, enemies, n);
      CountMarkedAgree(cur.removed, prev.removed, n - 1);
    }
  }

  /** Pass 2 adds exactly one mark per life taken. */
  lemma {:induction false} EnemyPassMarks(shots: seq<Shot>, p: Player, marked: set<nat>, n: nat)
    requires n <= |shots|
    ensures CountMarked(EnemyPass(shots, p, marked, n).removed, n) == CountMarked(marked, n) + EnemyPass(shots, p, marked, n).hits
  {
    if n > 0 {
      EnemyPassMarks(shots, p, marked, n - 1);
      var prev := EnemyPass(shots, p, marked, n - 1);
      var cur := EnemyPass(shots, p, marked, n);
      CountMarkedAgree(cur.removed, prev.removed, n - 1);
    }
  }

  // ---------------------------------------------------------------------------
  // Game over

  /** A living enemy whose bottom reaches the player's top row, or that overlaps the player. */
  predicate Reaches(e: Enemy, p: Player) {
    e.alive && (e.y + e.height >= p.y || Intersects(EnemyBox(e), PlayerBox(p)))
  }

  predicate Invaded(enemies: seq<Enemy>, p: Player) {
    exists j :: 0 <= j < |enemies| && Reaches(enemies[j], p)
  }

  method FormationReachesPlayer(enemies: seq<Enemy>, p: Player) returns (reached: bool)
    ensures reached <==> Invaded(enemies, p)
  {
    for j := 0 to |enemies|
      invariant forall k :: 0 <= k < j ==> !Reaches(enemies[k], p)
    {
      var enemy := enemies[j];
      if !enemy.alive {
        continue;
      }
      if enemy.y + enemy.height >= p.y || Intersects(EnemyBox(enemy), PlayerBox(p)) {
        return true;
      }
    }
    return false;
  }

  // ---------------------------------------------------------------------------
  // The step

  datatype Outcome = Outcome(enemies: seq<Enemy>, shots: seq<Shot>, score: int, lives: int)

  /** Both collision passes and the purge of marked shots: 100 points per
      enemy downed, one life per enemy shot on the player. */
  function Collided(s: State, player: Player, shots: seq<Shot>, marched: seq<Enemy>): Outcome {
    var pass := PlayerPass(shots, marched, |shots|);
    var marks := EnemyPass(shots, player, pass.removed, |shots|);
    Outcome(pass.enemies, DropMarked(shots, marks.removed), s.score + 100 * pass.hits, s.lives - marks.hits)
  }

  /** Game over and the wave clear: the end of a frame. */
  function Finish(s: State, player: Player, o: Outcome, enemyDir: real, timer: real): State {
    var over := o.lives <= 0 || Invaded(o.enemies, player);
    var common := s.(player := player, enemyDir := enemyDir, score := o.score, lives := o.lives, isGameOver := over);
    if !over && AliveCount(o.enemies) == 0 then
      var wave := MakeWave(s.cfg, s.level + 1);
      common.(shots := [], enemies := wave.enemies, level := wave.level,
              enemySpeed := wave.enemySpeed, enemyShootIntervalMs := wave.enemyShootIntervalMs,
              enemyShootTimerMs := wave.enemyShootIntervalMs)
    else
      common.(shots := o.shots, enemies := o.enemies, enemyShootTimerMs := timer)
  }

  /** The bookkeeping of both passes: the living count falls by the points
      scored over 100, the lives fall by the enemy shots on the player, and the
      shot list shrinks by exactly the hits of both kinds. */
  lemma CollidedCounts(s: State, player: Player, shots: seq<Shot>, marched: seq<Enemy>)
    ensures var o := Collided(s, player, shots, marched);
            var downed := (o.score - s.score) / 100;
            o.score >= s.score && (o.score - s.score) % 100 == 0 &&
            AliveCount(o.enemies) + downed == AliveCount(marched) &&
            s.lives - o.lives == CountHits(shots, player, |shots|) &&
            |o.shots| == |shots| - downed - (s.lives - o.lives)
  {
    var n := |shots|;
    var pass := PlayerPass(shots, marched, n);
    var marks := EnemyPass(shots, player, pass.removed, n);
    PlayerPassCount(shots, marched, n);
    EnemyPassCounts(shots, player, pass.removed, n);
    PlayerPassMarks(shots, marched, n);
    EnemyPassMarks(shots, player, pass.removed, n);
    assert CountMarked(marks.removed, n) == pass.hits + marks.hits;
  }

  /** Game over is sticky within the frame's own rules: it is set exactly when
      the lives are gone or a living enemy reaches the player. */
  lemma FinishGameOver(s: State, player: Player, o: Outcome, enemyDir: real, timer: real)
    ensures var r := Finish(s, player, o, enemyDir, timer);
            (r.isGameOver <==> o.lives <= 0 || Invaded(o.enemies, player)) &&
            r.player == player && r.enemyDir == enemyDir && r.score == o.score && r.lives == o.lives
    ensures var r := Finish(s, player, o, enemyDir, timer);
            r.isGameOver || AliveCount(o.enemies) > 0 ==>
              r.level == s.level && r.enemies == o.enemies && r.shots == o.shots && r.enemyShootTimerMs == timer
  {
  }

  /** A wave is cleared when the game goes on with nobody alive: the level
      rises by one, a fresh fully alive formation with ids 1..rows*cols
      arrives, speed and interval follow the new level, the timer is full and
      every shot is dropped. */
  lemma FinishWave(s: State, player: Player, o: Outcome, enemyDir: real, timer: real)
    requires o.lives > 0 && !Invaded(o.enemies, player) && AliveCount(o.enemies) == 0
    ensures var r := Finish(s, player, o, enemyDir, timer);
            !r.isGameOver && r.level == s.level + 1 && r.shots == [] &&
            |r.enemies| == s.cfg.enemyRows * s.cfg.enemyCols &&
            (forall i :: 0 <= i < |r.enemies| ==> r.enemies[i].id == i + 1 && r.enemies[i].alive) &&
            r.enemySpeed == s.cfg.enemyBaseSpeed + s.level as real * s.cfg.enemySpeedStep &&
            r.enemyShootIntervalMs == Max(s.cfg.enemyShootMinIntervalMs,
                                          s.cfg.enemyShootBaseIntervalMs - s.level as real * s.cfg.enemyShootStepMs) &&
            r.enemyShootTimerMs == r.enemyShootIntervalMs
  {
  }

  /** `0 < timer <= interval` carries over from frame to frame: the catch-up
      loop restores it, and a new wave starts with a full timer. */
  lemma TimerStaysInRange(s: State, player: Player, o: Outcome, enemyDir: real, alive: seq<Enemy>, t0: real)
    requires s.enemyShootIntervalMs > 0.0 && s.cfg.enemyShootMinIntervalMs > 0.0
    requires t0 <= s.enemyShootIntervalMs
    ensures var r := Finish(s, player, o, enemyDir, TimerAfterFire(alive, t0, s.enemyShootIntervalMs));
            0.0 < r.enemyShootTimerMs <= r.enemyShootIntervalMs
  {
    TimerAfterFireRange(alive, t0, s.enemyShootIntervalMs);
  }

  /** The end of a frame keeps each state's speed and firing interval those of
      its level, and a cleared wave, the only way the level rises, makes the
      formation faster when the speed step is positive. */
  lemma FinishCoherent(s: State, player: Player, o: Outcome, enemyDir: real, timer: real)
    requires Coherent(s)
    ensures var r := Finish(s, player, o, enemyDir, timer);
            Coherent(r) && r.cfg == s.cfg && (r.level == s.level || r.level == s.level + 1)
    ensures var r := Finish(s, player, o, enemyDir, timer);
            r.level == s.level + 1 && s.cfg.enemySpeedStep > 0.0 ==> r.enemySpeed > s.enemySpeed
  {
    WaveProgression(s.cfg, s.level);
  }

  method Collide(s: State, player: Player, shots: seq<Shot>, marched: seq<Enemy>) returns (o: Outcome)
    ensures o == Collided(s, player, shots, marched)
  {
    var enemies, removeShot, score := ResolvePlayerShots(shots, marched, s.score);
    var lives;
    removeShot, lives := ResolveEnemyShots(shots, player, removeShot, s.lives);
    o := Outcome(enemies, DropMarked(shots, removeShot), score, lives);
  }

  method Conclude(s: State, player: Player, o: Outcome, enemyDir: real, timer: real) returns (r: State)
    ensures r == Finish(s, player, o, enemyDir, timer)
  {
    var isGameOver := false;
    if o.lives <= 0 {
      isGameOver := true;
    }
    if !isGameOver {
      isGameOver := FormationReachesPlayer(o.enemies, player);
    }
    var shots, enemies, level := o.shots, o.enemies, s.level;
    var enemySpeed, enemyShootIntervalMs, enemyShootTimerMs := s.enemySpeed, s.enemyShootIntervalMs, timer;
    if !isGameOver {
      var remaining := AliveCount(enemies);
      if remaining == 0 {
        var nextLevel := s.level + 1;
        level := nextLevel;
        enemies := CreateEnemyFormation(s.cfg);
        enemySpeed := WaveSpeed(s.cfg, nextLevel);
        enemyShootIntervalMs := WaveInterval(s.cfg, nextLevel);
        enemyShootTimerMs := enemyShootIntervalMs;
        shots := [];
      }
    }
    r := s.(player := player, shots := shots, enemies := enemies, enemyDir := enemyDir,
            enemyShootTimerMs := enemyShootTimerMs, enemyShootIntervalMs := enemyShootIntervalMs,
            enemySpeed := enemySpeed, score := o.score, lives := o.lives, level := level,
            isGameOver := isGameOver);
  }

  /** The player's move, cooldown tick and firing. */
  method MovePlayer(s: State, input: Input) returns (player: Player, shots: seq<Shot>)
    ensures player == ArmedPlayer(s, input)
    ensures shots == Launched(s, input)
  {
    var dtMs := FrameMs(input);
    var dtSec := FrameSec(input);
    player := s.player;
    var moveDir := MoveDir(input);
    player := player.(x := Clamp(player.x + moveDir * player.speed * dtSec, 0.0, s.cfg.width - player.width));
    player := player.(shotCooldownMs := Max(0.0, player.shotCooldownMs - dtMs));
    assert player == MovedPlayer(s, input);
    shots := s.shots;
    if input.shoot && player.shotCooldownMs == 0.0 {
      shots := shots + [PlayerShotFrom(player)];
      player := player.(shotCooldownMs := player.shotDelayMs);
    }
  }

  /** The fire timer after this frame's tick, before the catch-up loop. */
  function Ticked(s: State, input: Input): real {
    s.enemyShootTimerMs - FrameMs(input)
  }

  /** What a running frame may assume about the injected fire rate. */
  predicate CanStep(s: State, input: Input) {
    FireTerminates(AliveCount(s.enemies), Ticked(s, input), s.enemyShootIntervalMs)
  }

  method Step(s: State, input: Input, nextRandom: nat -> real) returns (r: State)
    requires RandomOk(nextRandom)
    requires Running(s) ==> CanStep(s, input)
    ensures !Running(s) ==> r == s
    ensures Running(s) ==>
      var marched := Marched(s, FrameSec(input));
      var alive := Living(marched);
      var player := ArmedPlayer(s, input);
      var shots := InFlight(s, input) + EnemyVolley(alive, Ticked(s, input), s.enemyShootIntervalMs, nextRandom);
      r == Finish(s, player, Collided(s, player, shots, marched), MarchedDir(s, FrameSec(input)),
                  TimerAfterFire(alive, Ticked(s, input), s.enemyShootIntervalMs))
    ensures Coherent(s) ==> Coherent(r)
    ensures Coherent(s) && r.level > s.level && s.cfg.enemySpeedStep > 0.0 ==> r.enemySpeed > s.enemySpeed
  {
    if s.isPaused || s.isGameOver {
      return s;
    }
    var dtSec := FrameSec(input);
    var player, shots := MovePlayer(s, input);
    shots := AdvanceShots(shots, dtSec);
    var filtered := KeepOnBoard(shots, s.cfg.height);
    var enemies, enemyDir := MarchFormation(s, dtSec);
    var enemyShootTimerMs;
    enemyShootTimerMs, filtered := EnemyFire(Living(enemies), Ticked(s, input), s.enemyShootIntervalMs, filtered, nextRandom);
    var outcome := Collide(s, player, filtered, enemies);
    r := Conclude(s, player, outcome, enemyDir, enemyShootTimerMs);
    if Coherent(s) {
      FinishCoherent(s, player, outcome, enemyDir, enemyShootTimerMs);
    }
  }
}
