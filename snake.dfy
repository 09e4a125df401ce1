/** The grid snake game: a turn-based state machine on a square board of
    `gridSize` x `gridSize` integer cells. One `Step` moves the snake one cell,
    detects wall and self collisions, grows the snake on food and places new
    food on a free cell chosen by an injected random-integer source. */
module Snake {
  import opened Wrappers

  datatype Cell = Cell(x: int, y: int)

  datatype Direction = Up | Down | Left | Right

  /** The game state; `snake` is head first, tail last. */
  datatype State = State(
    gridSize: int,
    snake: seq<Cell>,
    direction: Direction,
    pendingDirection: Direction,
    food: Option<Cell>,
    score: int,
    isGameOver: bool,
    isPaused: bool)

  /** The options of `createInitialState`; `None` takes the default. */
  datatype Config = Config(
    gridSize: Option<int>,
    initialSnake: Option<seq<Cell>>,
    initialDirection: Option<Direction>,
    initialFood: Option<Cell>)

  const DefaultGridSize := 20
  const DefaultDirection := Right

  // ---------------------------------------------------------------------------
  // The DIRECTIONS and OPPOSITE tables

  /** The unit step a direction moves the head by (y grows downwards). */
  function Delta(d: Direction): (c: Cell)
    ensures c.x * c.x + c.y * c.y == 1
  {
    match d
    case Up => Cell(0, -1)
    case Down => Cell(0, 1)
    case Left => Cell(-1, 0)
    case Right => Cell(1, 0)
  }

  /** The direction that would reverse `d`: it steps exactly the other way. */
  function Opposite(d: Direction): (o: Direction)
    ensures o != d
    ensures Delta(o).x == -Delta(d).x && Delta(o).y == -Delta(d).y
  {
    match d
    case Up => Down
    case Down => Up
    case Left => Right
    case Right => Left
  }

  /** The token a direction is requested by. */
  function Name(d: Direction): string
  {
    match d
    case Up => "UP"
    case Down => "DOWN"
    case Left => "LEFT"
    case Right => "RIGHT"
  }

  /** Looks a requested token up in the DIRECTIONS table; unknown tokens give `None`. */
  function ParseDirection(token: string): (r: Option<Direction>)
    ensures r.Some? <==> token in {"UP", "DOWN", "LEFT", "RIGHT"}
    ensures r.Some? ==> Name(r.value) == token
  {
    if token == "UP" then Some(Up)
    else if token == "DOWN" then Some(Down)
    else if token == "LEFT" then Some(Left)
    else if token == "RIGHT" then Some(Right)
    else None
  }

  lemma ParseName(d: Direction)
    ensures ParseDirection(Name(d)) == Some(d)
  {
  }

  // ---------------------------------------------------------------------------
  // Cells

  predicate InBounds(c: Cell, gridSize: int) {
    0 <= c.x < gridSize && 0 <= c.y < gridSize
  }

  function IsSameCell(a: Cell, b: Cell): (r: bool)
    ensures r <==> a == b
  {
    a.x == b.x && a.y == b.y
  }

  function IsOutOfBounds(c: Cell, gridSize: int): (r: bool)
    ensures r <==> !InBounds(c, gridSize)
  {
    c.x < 0 || c.y < 0 || c.x >= gridSize || c.y >= gridSize
  }

  /** Row-major order: by row (y) first, then by column (x). */
  predicate Before(a: Cell, b: Cell) {
    a.y < b.y || (a.y == b.y && a.x < b.x)
  }

  predicate RowMajorSorted(s: seq<Cell>) {
    forall i, j :: 0 <= i < j < |s| ==> Before(s[i], s[j])
  }

  /** Every cell of the board is covered by a snake segment. */
  ghost predicate Full(gridSize: int, snake: seq<Cell>) {
    forall c :: InBounds(c, gridSize) ==> c in snake
  }

  // ---------------------------------------------------------------------------
  // Free cells, in the order placeFood's nested loops visit them

  function Side(gridSize: int): nat {
    if gridSize < 0 then 0 else gridSize
  }

  /** The free cells of row `y` among columns `0 .. x-1`, left to right. */
  function FreeInRow(snake: seq<Cell>, y: int, x: nat): seq<Cell>
  {
    if x == 0 then []
    else FreeInRow(snake, y, x - 1) + (if Cell(x - 1, y) in snake then [] else [Cell(x - 1, y)])
  }

  /** The free cells of rows `0 .. y-1` of a board `n` cells wide, in row-major order. */
  function FreeInRows(n: nat, snake: seq<Cell>, y: nat): seq<Cell>
  {
    if y == 0 then [] else FreeInRows(n, snake, y - 1) + FreeInRow(snake, y - 1, n)
  }

  /** Every unoccupied cell of the board, in row-major order. */
  function FreeCells(gridSize: int, snake: seq<Cell>): seq<Cell>
  {
    FreeInRows(Side(gridSize), snake, Side(gridSize))
  }

  lemma {:induction false} SortedAppend(a: seq<Cell>, b: seq<Cell>)
    requires RowMajorSorted(a) && RowMajorSorted(b)
    requires forall i, j :: 0 <= i < |a| && 0 <= j < |b| ==> Before(a[i], b[j])
    ensures RowMajorSorted(a + b)
  {
    forall i, j | 0 <= i < j < |a + b| ensures Before((a + b)[i], (a + b)[j]) {
      if j < |a| {
      } else if i < |a| {
        assert (a + b)[j] == b[j - |a|];
      } else {
        assert (a + b)[i] == b[i - |a|] && (a + b)[j] == b[j - |a|];
      }
    }
  }

  lemma {:induction false} FreeInRowSpec(snake: seq<Cell>, y: int, x: nat)
    ensures forall c :: c in FreeInRow(snake, y, x) <==> c.y == y && 0 <= c.x < x && c !in snake
    ensures RowMajorSorted(FreeInRow(snake, y, x))
  {
    if x > 0 {
      FreeInRowSpec(snake, y, x - 1);
      var prefix := FreeInRow(snake, y, x - 1);
      var tail := if Cell(x - 1, y) in snake then [] else [Cell(x - 1, y)];
      assert forall i :: 0 <= i < |prefix| ==> prefix[i] in prefix;
      SortedAppend(prefix, tail);
    }
  }

  lemma {:induction false} FreeInRowsSpec(n: nat, snake: seq<Cell>, y: nat)
    ensures forall c :: c in FreeInRows(n, snake, y) <==> 0 <= c.y < y && 0 <= c.x < n && c !in snake
    ensures RowMajorSorted(FreeInRows(n, snake, y))
  {
    if y > 0 {
      FreeInRowsSpec(n, snake, y - 1);
      FreeInRowSpec(snake, y - 1, n);
      var prefix := FreeInRows(n, snake, y - 1);
      var row := FreeInRow(snake, y - 1, n);
      assert FreeInRows(n, snake, y) == prefix + row;
      forall i, j | 0 <= i < |prefix| && 0 <= j < |row| ensures Before(prefix[i], row[j]) {
        assert prefix[i] in prefix && row[j] in row;
      }
      SortedAppend(prefix, row);
      forall c ensures c in prefix + row <==> 0 <= c.y < y && 0 <= c.x < n && c !in snake {
        assert c in prefix + row <==> c in prefix || c in row;
      }
    }
  }

  /** placeFood's candidate list holds exactly the in-bounds cells not on the
      snake, each once, in row-major order (y outer, x inner). */
  lemma FreeCellsSpec(gridSize: int, snake: seq<Cell>)
    ensures forall c :: c in FreeCells(gridSize, snake) <==> InBounds(c, gridSize) && c !in snake
    ensures RowMajorSorted(FreeCells(gridSize, snake))
  {
    FreeInRowsSpec(Side(gridSize), snake, Side(gridSize));
  }

  /** There is no free cell exactly when the snake covers the whole board. */
  lemma NoFreeCellIffFull(gridSize: int, snake: seq<Cell>)
    ensures |FreeCells(gridSize, snake)| == 0 <==> Full(gridSize, snake)
  {
    FreeCellsSpec(gridSize, snake);
    var free := FreeCells(gridSize, snake);
    if |free| > 0 {
      assert free[0] in free;
    }
  }

  lemma SortedAt(s: seq<Cell>, i: int, j: int)
    requires RowMajorSorted(s) && 0 <= i < j < |s|
    ensures Before(s[i], s[j]) && s[i] in s && s[j] in s
  {
  }

  /** With exactly one free cell, that cell is the only candidate. */
  lemma OnlyFreeCell(gridSize: int, snake: seq<Cell>, c: Cell)
    requires InBounds(c, gridSize) && c !in snake
    requires forall d :: InBounds(d, gridSize) && d != c ==> d in snake
    ensures FreeCells(gridSize, snake) == [c]
  {
    FreeCellsSpec(gridSize, snake);
    var free := FreeCells(gridSize, snake);
    assert c in free;
    if |free| > 1 {
      SortedAt(free, 0, 1);
      assert false;
    }
  }

  // ---------------------------------------------------------------------------
  // Food placement

  /** The contract of the injected `nextRandomInt(n)`: a value in `[0, n)`. */
  ghost predicate RandomIntOk(rand: int -> int) {
    forall n :: n > 0 ==> 0 <= rand(n) < n
  }

  /** The food placeFood chooses: the `rand(k)`-th of the `k` free cells in
      row-major order, or none when the board is full. */
  function FoodChoice(gridSize: int, snake: seq<Cell>, rand: int -> int): (food: Option<Cell>)
    requires RandomIntOk(rand)
    ensures food.None? <==> Full(gridSize, snake)
    ensures food.Some? ==> InBounds(food.value, gridSize) && food.value !in snake
  {
    NoFreeCellIffFull(gridSize, snake);
    FreeCellsSpec(gridSize, snake);
    var free := FreeCells(gridSize, snake);
    if |free| == 0 then None
    else
      var k := rand(|free|);
      assert free[k] in free;
      Some(free[k])
  }

  /** With a single free cell on the board the food goes exactly there. */
  lemma FoodOnOnlyFreeCell(gridSize: int, snake: seq<Cell>, rand: int -> int, c: Cell)
    requires RandomIntOk(rand)
    requires InBounds(c, gridSize) && c !in snake
    requires forall d :: InBounds(d, gridSize) && d != c ==> d in snake
    ensures FoodChoice(gridSize, snake, rand) == Some(c)
  {
    OnlyFreeCell(gridSize, snake, c);
  }

  method PlaceFood(gridSize: int, snake: seq<Cell>, rand: int -> int) returns (food: Option<Cell>)
    requires RandomIntOk(rand)
    ensures food == FoodChoice(gridSize, snake, rand)
    ensures food.None? <==> Full(gridSize, snake)
    ensures food.Some? ==> InBounds(food.value, gridSize) && food.value !in snake
  {
    var available: seq<Cell> := [];
    var y := 0;
    while y < gridSize
      invariant 0 <= y <= Side(gridSize)
      invariant available == FreeInRows(Side(gridSize), snake, y)
    {
      var x := 0;
      while x < gridSize
        invariant 0 <= x <= gridSize
        invariant available == FreeInRows(Side(gridSize), snake, y) + FreeInRow(snake, y, x)
      {
        if Cell(x, y) !in snake {
          available := available + [Cell(x, y)];
        }
        x := x + 1;
      }
      y := y + 1;
    }
    if |available| == 0 {
      return None;
    }
    var idx := rand(|available|);
    food := Some(available[idx]);
  }

  // ---------------------------------------------------------------------------
  // Initial state, direction requests and pause

  function CreateInitialState(cfg: Config, rand: int -> int): (s: State)
    requires RandomIntOk(rand)
    ensures s.gridSize == cfg.gridSize.GetOr(DefaultGridSize)
    ensures s.direction == s.pendingDirection == cfg.initialDirection.GetOr(DefaultDirection)
    ensures s.score == 0 && !s.isGameOver && !s.isPaused
    ensures cfg.initialSnake.Some? ==> s.snake == cfg.initialSnake.value
    ensures cfg.initialSnake.None? ==> s.snake == [Cell(s.gridSize / 2, s.gridSize / 2)]
    ensures cfg.initialFood.Some? ==> s.food == cfg.initialFood
    ensures cfg.initialFood.None? ==> s.food == FoodChoice(s.gridSize, s.snake, rand)
    ensures cfg.initialFood.None? && s.food.Some? ==> s.food.value !in s.snake
    ensures cfg.initialSnake.None? && cfg.initialFood.None? && s.gridSize > 0 ==> Valid(s)
  {
    var gridSize := cfg.gridSize.GetOr(DefaultGridSize);
    var snake := cfg.initialSnake.GetOr([Cell(gridSize / 2, gridSize / 2)]);
    var food := if cfg.initialFood.Some? then cfg.initialFood else FoodChoice(gridSize, snake, rand);
    var direction := cfg.initialDirection.GetOr(DefaultDirection);
    State(gridSize, snake, direction, direction, food, 0, false, false)
  }

  /** Queues a turn for the next step. Unknown tokens, repeats of the queued
      turn, and the committed direction or its reverse are ignored. */
  function SetDirection(s: State, token: string): (r: State)
    ensures ParseDirection(token).None? ==> r == s
    ensures ParseDirection(token).Some? ==>
      var d := ParseDirection(token).value;
      if d == s.pendingDirection || d == s.direction || d == Opposite(s.direction) then r == s
      else r == s.(pendingDirection := d)
    ensures s.pendingDirection != Opposite(s.direction) ==> r.pendingDirection != Opposite(r.direction)
  {
    match ParseDirection(token)
    case None => s
    case Some(d) =>
      if d == s.pendingDirection then s
      else if d == s.direction || d == Opposite(s.direction) then s
      else s.(pendingDirection := d)
  }

  function TogglePause(s: State): (r: State)
    ensures s.isGameOver ==> r == s
    ensures !s.isGameOver ==> r.isPaused != s.isPaused && r.(isPaused := s.isPaused) == s
  {
    if s.isGameOver then s else s.(isPaused := !s.isPaused)
  }

  lemma TogglePauseTwice(s: State)
    ensures TogglePause(TogglePause(s)) == s
  {
  }

  // ---------------------------------------------------------------------------
  // The step

  /** The board invariant: a non-empty snake of distinct in-bounds cells, food
      (if any) on a free in-bounds cell, and no queued reversal. */
  predicate Valid(s: State) {
    && |s.snake| > 0
    && (forall i :: 0 <= i < |s.snake| ==> InBounds(s.snake[i], s.gridSize))
    && (forall i, j :: 0 <= i < j < |s.snake| ==> s.snake[i] != s.snake[j])
    && (s.food.Some? ==> InBounds(s.food.value, s.gridSize) && s.food.value !in s.snake)
    && s.pendingDirection != Opposite(s.direction)
  }

  predicate Running(s: State) {
    !s.isGameOver && !s.isPaused
  }

  /** The cell the head enters when the queued direction is committed. */
  function NextHead(s: State): Cell
    requires |s.snake| > 0
  {
    var d := Delta(s.pendingDirection);
    Cell(s.snake[0].x + d.x, s.snake[0].y + d.y)
  }

  predicate WillGrow(s: State)
    requires |s.snake| > 0
  {
    s.food.Some? && NextHead(s) == s.food.value
  }

  /** The segments the new head must avoid: the tail vacates unless the snake grows. */
  function CollisionBody(s: State): seq<Cell>
    requires |s.snake| > 0
  {
    if WillGrow(s) then s.snake else s.snake[..|s.snake| - 1]
  }

  /** The step ends the game on a wall or a body hit. */
  predicate Crashes(s: State)
    requires |s.snake| > 0
  {
    !InBounds(NextHead(s), s.gridSize) || NextHead(s) in CollisionBody(s)
  }

  /** A plain move keeps the board invariant: the new head is in bounds and
      off the body that stays, and the food was neither entered nor covered. */
  lemma MoveKeepsValid(s: State)
    requires Valid(s) && !Crashes(s) && !WillGrow(s)
    ensures Valid(s.(snake := [NextHead(s)] + s.snake[..|s.snake| - 1],
                     direction := s.pendingDirection, isGameOver := false))
  {
    var body := s.snake[..|s.snake| - 1];
    var moved := [NextHead(s)] + body;
    assert forall i :: 1 <= i < |moved| ==> moved[i] == s.snake[i - 1];
    assert NextHead(s) !in body;
    forall i, j | 0 <= i < j < |moved| ensures moved[i] != moved[j] {
      if i == 0 {
        assert moved[j] in body;
      }
    }
  }

  /** Growing onto the food keeps the board invariant when the new food is
      off the grown snake. */
  lemma GrowKeepsValid(s: State, food: Option<Cell>)
    requires Valid(s) && !Crashes(s) && WillGrow(s)
    requires food.Some? ==> InBounds(food.value, s.gridSize) && food.value !in [NextHead(s)] + s.snake
    ensures Valid(s.(snake := [NextHead(s)] + s.snake, direction := s.pendingDirection,
                     food := food, score := s.score + 1, isGameOver := food.None?))
  {
    var grown := [NextHead(s)] + s.snake;
    assert forall i :: 1 <= i < |grown| ==> grown[i] == s.snake[i - 1];
    forall i, j | 0 <= i < j < |grown| ensures grown[i] != grown[j] {
      if i == 0 {
        assert grown[j] in s.snake;
      }
    }
  }

  method Step(s: State, rand: int -> int) returns (r: State)
    requires RandomIntOk(rand)
    requires Running(s) ==> |s.snake| > 0
    // paused or over: nothing changes
    ensures !Running(s) ==> r == s
    // a wall or body hit: the queued direction is committed and the game ends
    ensures Running(s) && Crashes(s) ==>
      r == s.(direction := s.pendingDirection, isGameOver := true)
    // a plain move: head added, tail dropped, score and food kept
    ensures Running(s) && !Crashes(s) && !WillGrow(s) ==>
      r == s.(snake := [NextHead(s)] + s.snake[..|s.snake| - 1],
              direction := s.pendingDirection, isGameOver := false)
    // eating: head added, tail kept, one point, new food on a free cell or game over
    ensures Running(s) && !Crashes(s) && WillGrow(s) ==>
      var grown := [NextHead(s)] + s.snake;
      var food := FoodChoice(s.gridSize, grown, rand);
      r == s.(snake := grown, direction := s.pendingDirection, food := food,
              score := s.score + 1, isGameOver := food.None?)
    ensures Running(s) && !Crashes(s) && WillGrow(s) ==>
      (r.food.Some? ==> r.food.value !in r.snake) && (r.food.None? ==> r.isGameOver)
    // on a valid board, stepping onto the food never counts as a body hit
    ensures Running(s) && Valid(s) && InBounds(NextHead(s), s.gridSize) && WillGrow(s) ==>
      |r.snake| == |s.snake| + 1 && r.score == s.score + 1
    ensures r.score - s.score == |r.snake| - |s.snake|
    ensures r.isPaused == s.isPaused && r.gridSize == s.gridSize
    ensures Valid(s) ==> Valid(r)
  {
    if s.isGameOver || s.isPaused {
      return s;
    }
    var direction := s.pendingDirection;
    var delta := Delta(direction);
    var head := s.snake[0];
    var nextHead := Cell(head.x + delta.x, head.y + delta.y);
    if IsOutOfBounds(nextHead, s.gridSize) {
      return s.(direction := direction, isGameOver := true);
    }
    var willGrow := s.food.Some? && IsSameCell(nextHead, s.food.value);
    var bodyToCheck := if willGrow then s.snake else s.snake[..|s.snake| - 1];
    if nextHead in bodyToCheck {
      return s.(direction := direction, isGameOver := true);
    }
    var nextSnake := [nextHead] + s.snake;
    if !willGrow {
      nextSnake := nextSnake[..|nextSnake| - 1];
      assert nextSnake == [nextHead] + s.snake[..|s.snake| - 1];
    }
    var nextFood := s.food;
    var nextScore := s.score;
    var isGameOver := false;
    if willGrow {
      nextScore := nextScore + 1;
      nextFood := PlaceFood(s.gridSize, nextSnake, rand);
      if nextFood.None? {
        isGameOver := true;
      }
    }
    r := s.(snake := nextSnake, direction := direction, pendingDirection := direction,
            food := nextFood, score := nextScore, isGameOver := isGameOver);
    if Valid(s) {
      if willGrow {
        GrowKeepsValid(s, nextFood);
      } else {
        MoveKeepsValid(s);
      }
    }
  }
}
