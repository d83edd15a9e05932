/** Model of the Snake Master engine (games/snake-master.js): movement on a square
    grid, wall and self collision, growth, food placement, speed steps and the
    waiting / playing / paused / game-over lifecycle.

    The canvas, the drawing and the interval timer are not modelled: `Update` is
    the body of one timer callback. `Math.random` is replaced by a caller-supplied
    sequence of candidate food cells, one per attempt of the retry loop. */
module Snake {

  /** A grid cell (x, y). */
  type Cell = (int, int)

  datatype GameState = Waiting | Playing | Paused | GameOver

  const InitialSpeed: int := 150    // milliseconds between moves
  const SpeedFloor: int := 80       // the speed only drops while it is above this
  const SpeedStep: int := 10
  const FoodPoints: int := 10
  const SpeedUpScore: int := 50     // speed drops when the score is a multiple of this
  const MaxFoodAttempts: nat := 100
  const InitialFood: Cell := (15, 15)

  /** The three-cell snake every new game starts with, head first, facing nowhere. */
  function InitialBody(): seq<Cell> { [(10, 10), (9, 10), (8, 10)] }

  function Abs(x: int): nat { if x < 0 then -x else x }

  function Max(a: int, b: int): int { if a < b then b else a }

  predicate InGrid(c: Cell, n: int) { 0 <= c.0 < n && 0 <= c.1 < n }

  /** Cells that share a side. */
  predicate Adjacent(a: Cell, b: Cell) { Abs(a.0 - b.0) + Abs(a.1 - b.1) == 1 }

  /** The shape a snake body always has: at least three cells, all on the grid,
      no cell twice, each cell next to the one before it. */
  predicate WellFormed(body: seq<Cell>, n: int)
  {
    && |body| >= 3
    && (forall i :: 0 <= i < |body| ==> InGrid(body[i], n))
    && (forall i, j :: 0 <= i < j < |body| ==> body[i] != body[j])
    && (forall i :: 0 <= i < |body| - 1 ==> Adjacent(body[i], body[i + 1]))
  }

  /** (dx, dy) is standing still or one of the four unit steps. */
  predicate IsDirection(dx: int, dy: int) { Abs(dx) + Abs(dy) <= 1 }

  predicate IsMoveKey(key: string) { key == "w" || key == "a" || key == "s" || key == "d" }

  /** The direction a movement key asks for. */
  function KeyDirection(key: string): (int, int)
    requires IsMoveKey(key)
  {
    if key == "w" then (0, -1)
    else if key == "s" then (0, 1)
    else if key == "a" then (-1, 0)
    else (1, 0)
  }

  /** handleKeyPress: the direction after `key` has been handled while the snake
      moves along (dx, dy). */
  function Steer(key: string, dx: int, dy: int): (d: (int, int))
    ensures IsDirection(dx, dy) ==> IsDirection(d.0, d.1)
    // a moving snake is never turned straight back
    ensures IsDirection(dx, dy) && (dx, dy) != (0, 0) ==> d != (-dx, -dy)
    // a movement key takes effect unless it asks for the reverse
    ensures IsDirection(dx, dy) && IsMoveKey(key) ==>
      d == (if KeyDirection(key) == (-dx, -dy) then (dx, dy) else KeyDirection(key))
    // any other key leaves the direction alone
    ensures !IsMoveKey(key) ==> d == (dx, dy)
  {
    if key == "w" && dy == 1 then (dx, dy)
    else if key == "s" && dy == -1 then (dx, dy)
    else if key == "a" && dx == 1 then (dx, dy)
    else if key == "d" && dx == -1 then (dx, dy)
    else if key == "w" then (0, -1)
    else if key == "s" then (0, 1)
    else if key == "a" then (-1, 0)
    else if key == "d" then (1, 0)
    else (dx, dy)
  }

  /** The reversal check compares against the last key, not the last move:
      two presses between two moves turn a snake heading right to face left. */
  lemma TwoPressesReverse()
    ensures var up := Steer("w", 1, 0); Steer("a", up.0, up.1) == (-1, 0)
  {
  }

  /** The cell the head moves into. */
  function NextHead(body: seq<Cell>, dx: int, dy: int): Cell
    requires |body| > 0
  {
    (body[0].0 + dx, body[0].1 + dy)
  }

  /** What one timer step does to a playing snake. */
  datatype Move = Idle | HitWall | HitSelf | Slide(body: seq<Cell>) | Grow(body: seq<Cell>)

  /** The snake stands still only with no direction; it hits the wall exactly when it
      moves off the grid; it grows exactly when it moves onto the food in an open cell;
      a surviving move puts the new head in the grid, in front of the old body. */
  function StepOutcome(body: seq<Cell>, dx: int, dy: int, food: Cell, n: int): (r: Move)
    requires |body| > 0
    ensures r.Idle? <==> dx == 0 && dy == 0
    ensures r.HitWall? <==> (dx != 0 || dy != 0) && !InGrid(NextHead(body, dx, dy), n)
    ensures r.HitSelf? <==>
      && (dx != 0 || dy != 0) && InGrid(NextHead(body, dx, dy), n)
      && NextHead(body, dx, dy) in body[1..]
    ensures r.Grow? <==>
      && (dx != 0 || dy != 0) && InGrid(NextHead(body, dx, dy), n)
      && NextHead(body, dx, dy) !in body[1..] && NextHead(body, dx, dy) == food
    ensures r.Grow? || r.Slide? ==>
      && |r.body| == |body| + (if r.Grow? then 1 else 0)
      && r.body[0] == NextHead(body, dx, dy) && InGrid(r.body[0], n)
  {
    if dx == 0 && dy == 0 then Idle
    else
      var head := NextHead(body, dx, dy);
      if !InGrid(head, n) then HitWall
      else if head in body[1..] then HitSelf
      else if head == food then Grow([head] + body)
      else Slide([head] + body[..|body| - 1])
  }

  /** A step either ends the game (wall, or any segment but the head, including the
      tail that was about to move away) or yields a body of the same shape: one cell
      longer when the food is eaten, the same length otherwise. */
  lemma MoveKeepsShape(body: seq<Cell>, dx: int, dy: int, food: Cell, n: int)
    requires WellFormed(body, n) && IsDirection(dx, dy)
    ensures (dx != 0 || dy != 0) && InGrid(NextHead(body, dx, dy), n) ==>
      forall i :: 1 <= i < |body| && body[i] == NextHead(body, dx, dy) ==>
        StepOutcome(body, dx, dy, food, n).HitSelf?
    ensures match StepOutcome(body, dx, dy, food, n)
      case Idle => dx == 0 && dy == 0
      case HitWall => !InGrid(NextHead(body, dx, dy), n)
      case HitSelf => exists i :: 1 <= i < |body| && body[i] == NextHead(body, dx, dy)
      case Slide(b) =>
        && WellFormed(b, n) && |b| == |body|
        && b[0] == NextHead(body, dx, dy) && b[1..] == body[..|body| - 1]
        && NextHead(body, dx, dy) != food && NextHead(body, dx, dy) !in body[1..]
      case Grow(b) =>
        && WellFormed(b, n) && |b| == |body| + 1
        && b[0] == NextHead(body, dx, dy) == food && b[1..] == body
  {
    if dx != 0 || dy != 0 {
      var head := NextHead(body, dx, dy);
      assert Adjacent(head, body[0]);
      assert head != body[0];
      if InGrid(head, n) && head !in body[1..] {
        assert forall i :: 1 <= i < |body| ==> body[i] != head by {
          forall i | 1 <= i < |body| ensures body[i] != head {
            assert body[i] == body[1..][i - 1];
          }
        }
        var b := if head == food then [head] + body else [head] + body[..|body| - 1];
        assert forall i :: 0 < i < |b| ==> b[i] == body[i - 1];
        assert forall i, j :: 0 <= i < j < |b| ==> b[i] != b[j] by {
          forall i, j | 0 <= i < j < |b| ensures b[i] != b[j] {
            if i > 0 {
              assert b[i] == body[i - 1] && b[j] == body[j - 1];
            }
          }
        }
      } else if InGrid(head, n) {
        var k :| 0 <= k < |body[1..]| && body[1..][k] == head;
        assert body[k + 1] == head;
      }
    }
  }
  /** Moving onto the tail ends the game, although the tail would have moved away. */
  lemma TailHitEndsGame(body: seq<Cell>, dx: int, dy: int, food: Cell, n: int)
    requires WellFormed(body, n) && IsDirection(dx, dy) && (dx != 0 || dy != 0)
    requires InGrid(NextHead(body, dx, dy), n) && NextHead(body, dx, dy) == body[|body| - 1]
    ensures StepOutcome(body, dx, dy, food, n) == HitSelf
  {
    MoveKeepsShape(body, dx, dy, food, n);
  }


  /** The collision loop of update(): does `head` meet any segment after the first? */
  method HitsBody(body: seq<Cell>, head: Cell) returns (hit: bool)
    requires |body| > 0
    ensures hit <==> head in body[1..]
    ensures hit <==> exists i :: 1 <= i < |body| && body[i] == head
  {
    var i := 1;
    while i < |body|
      invariant 1 <= i <= |body|
      invariant forall j :: 1 <= j < i ==> body[j] != head
    {
      if body[i] == head {
        assert body[1..][i - 1] == head;
        return true;
      }
      i := i + 1;
    }
    hit := false;
    assert forall k :: 0 <= k < |body[1..]| ==> body[1..][k] == body[k + 1];
  }

  /** Candidate cells for the retry loop of generateFood: one per attempt, each drawn
      on the grid. */
  predicate FoodDraws(draws: seq<Cell>, n: int)
  {
    |draws| >= MaxFoodAttempts && forall k :: 0 <= k < |draws| ==> InGrid(draws[k], n)
  }

  /** The attempt, counted from 0, at which the retry loop started at attempt `k`
      stops: at the first candidate off the body, or at the last attempt. */
  function SettledIndex(body: seq<Cell>, draws: seq<Cell>, k: nat): (i: nat)
    requires k < MaxFoodAttempts <= |draws|
    ensures k <= i < MaxFoodAttempts
    ensures forall j :: k <= j < i ==> draws[j] in body
    ensures draws[i] in body ==> i == MaxFoodAttempts - 1
    decreases MaxFoodAttempts - k
  {
    if draws[k] !in body || k == MaxFoodAttempts - 1 then k
    else SettledIndex(body, draws, k + 1)
  }

  /** The food cell generateFood settles on for a snake `body`. */
  function FoodChoice(body: seq<Cell>, draws: seq<Cell>): (c: Cell)
    requires |draws| >= MaxFoodAttempts
    // the first candidate that is off the snake is taken
    ensures forall k ::
      (0 <= k < MaxFoodAttempts && draws[k] !in body && (forall j :: 0 <= j < k ==> draws[j] in body))
      ==> c == draws[k]
    // a cell on the snake is taken only when all attempts landed on the snake
    ensures c in body ==> forall k :: 0 <= k < MaxFoodAttempts ==> draws[k] in body
    ensures forall n :: FoodDraws(draws, n) ==> InGrid(c, n)
  {
    draws[SettledIndex(body, draws, 0)]
  }

  /** The do-while retry loop of generateFood. */
  method PickFood(body: seq<Cell>, draws: seq<Cell>) returns (food: Cell)
    requires |draws| >= MaxFoodAttempts
    ensures food == FoodChoice(body, draws)
  {
    var attempts := 0;
    food := draws[attempts];
    attempts := attempts + 1;
    while food in body && attempts < MaxFoodAttempts
      invariant 1 <= attempts <= MaxFoodAttempts
      invariant food == draws[attempts - 1]
      invariant SettledIndex(body, draws, attempts - 1) == SettledIndex(body, draws, 0)
      decreases MaxFoodAttempts - attempts
    {
      food := draws[attempts];
      attempts := attempts + 1;
    }
  }

  /** The speed after eating, once the score has already been raised to `score`:
      10 ms faster when the score is a multiple of 50 and the speed is above 80. */
  function SpeedAfterEat(score: int, speed: int): (r: int)
    ensures r == speed || r == speed - SpeedStep
    ensures r < speed <==> score % SpeedUpScore == 0 && speed > SpeedFloor
    ensures SpeedFloor <= speed && speed % SpeedStep == 0 ==> SpeedFloor <= r && r % SpeedStep == 0
  {
    if score % SpeedUpScore == 0 && speed > SpeedFloor then speed - SpeedStep else speed
  }

  /** The speed after `k` foods eaten since the score was last 0, starting from
      `speed`. The score is 0 when the page loads and after resetGame, which keeps
      the speed; so the j-th of these foods raises the score to 10 * j. */
  function SpeedAfterFoods(speed: int, k: nat): int
  {
    if k == 0 then speed else SpeedAfterEat(FoodPoints * k, SpeedAfterFoods(speed, k - 1))
  }

  /** The score after `k` foods is a multiple of 50 exactly when `k` is a multiple of 5. */
  lemma EveryFifthFood(k: nat)
    ensures (FoodPoints * k) % SpeedUpScore == 0 <==> k % 5 == 0
  {
    var m := FoodPoints * k;
    assert m == 10 * k;
    assert m % SpeedUpScore == (10 * k) % 50;
  }

  /** Counting from a score of 0 and any speed the game can hold, every fifth food
      is 10 ms faster, down to the 80 ms floor. */
  lemma {:induction false} SpeedSchedule(speed: int, k: nat)
    requires SpeedFloor <= speed && speed % SpeedStep == 0
    ensures SpeedAfterFoods(speed, k) == Max(SpeedFloor, speed - SpeedStep * (k / 5))
  {
    if k > 0 {
      SpeedSchedule(speed, k - 1);
      EveryFifthFood(k);
      var q := (k - 1) / 5;
      var t := speed / 10;
      assert speed == 10 * t;
      var prev := SpeedAfterFoods(speed, k - 1);
      assert prev == Max(80, 10 * t - 10 * q);
      if k % 5 == 0 {
        assert k / 5 == q + 1;
        assert SpeedStep * (k / 5) == 10 * q + 10;
      } else {
        assert k / 5 == q;
        assert SpeedStep * (k / 5) == 10 * q;
      }
    }
  }

  /** Within one page visit with no reset, the speed after k foods. */
  lemma PageVisitSchedule(k: nat)
    ensures SpeedAfterFoods(InitialSpeed, k) == Max(SpeedFloor, InitialSpeed - SpeedStep * (k / 5))
    ensures SpeedAfterFoods(InitialSpeed, k) >= SpeedFloor
  {
    SpeedSchedule(InitialSpeed, k);
  }

  /** ASCII lower-casing of a key name, as toLowerCase does for the keys that matter. */
  function LowerCase(s: string): (r: string)
    ensures |r| == |s|
    ensures forall i :: 0 <= i < |r| ==> !('A' <= r[i] <= 'Z')
    ensures forall i :: 0 <= i < |s| && 'A' <= s[i] <= 'Z' ==> r[i] as int == s[i] as int + 32
    ensures forall i :: 0 <= i < |s| && !('A' <= s[i] <= 'Z') ==> r[i] == s[i]
  {
    if s == [] then []
    else
      var c := s[0];
      [if 'A' <= c <= 'Z' then (c as int + 32) as char else c] + LowerCase(s[1..])
  }

  /** With caps lock or shift held, the movement keys still steer. */
  lemma UpperMoveKeys()
    ensures LowerCase("W") == "w" && LowerCase("A") == "a"
    ensures LowerCase("S") == "s" && LowerCase("D") == "d"
  {
  }

  /** The game object: its fields are the ones the source updates in place. */
  class SnakeGame {
    const tileCount: int
    var snake: seq<Cell>
    var dx: int
    var dy: int
    var food: Cell
    var score: int
    var highScore: int
    var gameSpeed: int
    var gameState: GameState

    ghost predicate Valid()
      reads this
    {
      && tileCount > 10
      && WellFormed(snake, tileCount)
      && IsDirection(dx, dy)
      && score >= 0
      && SpeedFloor <= gameSpeed <= InitialSpeed && gameSpeed % SpeedStep == 0
    }

    /** `storedHighScore` is what local storage held (0 when nothing was stored). */
    constructor (tiles: int, storedHighScore: int)
      requires tiles > 10
      ensures Valid()
      ensures tileCount == tiles && gameState == Waiting
      ensures snake == InitialBody() && dx == 0 && dy == 0 && food == InitialFood
      ensures score == 0 && highScore == storedHighScore && gameSpeed == InitialSpeed
    {
      tileCount := tiles;
      gameState := Waiting;
      snake := InitialBody();
      dx, dy := 0, 0;
      food := InitialFood;
      score := 0;
      highScore := storedHighScore;
      gameSpeed := InitialSpeed;
    }

    /** handleKeyPress. */
    method HandleKeyPress(key: string)
      requires Valid()
      modifies this`dx, this`dy
      ensures Valid()
      ensures (dx, dy) == Steer(key, old(dx), old(dy))
    {
      if key == "w" && dy == 1 { return; }
      if key == "s" && dy == -1 { return; }
      if key == "a" && dx == 1 { return; }
      if key == "d" && dx == -1 { return; }
      if key == "w" {
        dx, dy := 0, -1;
      } else if key == "s" {
        dx, dy := 0, 1;
      } else if key == "a" {
        dx, dy := -1, 0;
      } else if key == "d" {
        dx, dy := 1, 0;
      }
    }

    /** resetSnake. */
    method ResetSnake()
      requires Valid()
      modifies this`snake, this`dx, this`dy
      ensures Valid()
      ensures snake == InitialBody() && dx == 0 && dy == 0
    {
      snake := InitialBody();
      dx, dy := 0, 0;
    }

    /** generateFood. */
    method GenerateFood(draws: seq<Cell>)
      requires Valid() && FoodDraws(draws, tileCount)
      modifies this`food
      ensures food == FoodChoice(snake, draws) && InGrid(food, tileCount)
    {
      food := PickFood(snake, draws);
    }

    /** startGame: from waiting or game over, a fresh snake and food; the score is
        kept (only resetGame zeroes it). */
    method StartGame(draws: seq<Cell>)
      requires Valid() && FoodDraws(draws, tileCount)
      modifies this`gameState, this`snake, this`dx, this`dy, this`food
      ensures Valid()
      ensures old(gameState) in {Waiting, GameOver} ==>
        && gameState == Playing && snake == InitialBody() && dx == 0 && dy == 0
        && food == FoodChoice(InitialBody(), draws)
      ensures old(gameState) !in {Waiting, GameOver} ==> unchanged(this)
    {
      if gameState == Waiting || gameState == GameOver {
        gameState := Playing;
        ResetSnake();
        GenerateFood(draws);
      }
    }

    /** pauseGame. */
    method PauseGame()
      modifies this`gameState
      ensures gameState == if old(gameState) == Playing then Paused else old(gameState)
    {
      if gameState == Playing {
        gameState := Paused;
      }
    }

    /** resumeGame. */
    method ResumeGame()
      modifies this`gameState
      ensures gameState == if old(gameState) == Paused then Playing else old(gameState)
    {
      if gameState == Paused {
        gameState := Playing;
      }
    }

    /** resetGame: back to waiting with score 0, a fresh snake and food; the high
        score and the speed are kept. */
    method ResetGame(draws: seq<Cell>)
      requires Valid() && FoodDraws(draws, tileCount)
      modifies this`gameState, this`score, this`snake, this`dx, this`dy, this`food
      ensures Valid()
      ensures gameState == Waiting && score == 0
      ensures snake == InitialBody() && dx == 0 && dy == 0
      ensures food == FoodChoice(InitialBody(), draws)
    {
      gameState := Waiting;
      score := 0;
      ResetSnake();
      GenerateFood(draws);
    }

    /** gameOver (its state part): the game ends and the high score is raised. */
    method EndGame()
      modifies this`gameState, this`highScore
      ensures gameState == GameOver
      ensures highScore == Max(old(highScore), score)
    {
      gameState := GameOver;
      if score > highScore {
        highScore := score;
      }
    }

    /** eatFood, called once the head has been pushed onto the snake. */
    method EatFood(draws: seq<Cell>)
      requires Valid() && FoodDraws(draws, tileCount)
      modifies this`score, this`food, this`gameSpeed
      ensures Valid()
      ensures score == old(score) + FoodPoints
      ensures food == FoodChoice(snake, draws)
      ensures gameSpeed == SpeedAfterEat(score, old(gameSpeed))
    {
      score := score + FoodPoints;
      GenerateFood(draws);
      if score % SpeedUpScore == 0 && gameSpeed > SpeedFloor {
        gameSpeed := gameSpeed - SpeedStep;
      }
    }

    /** update: one timer step of the game loop. */
    method Update(draws: seq<Cell>)
      requires Valid() && FoodDraws(draws, tileCount)
      modifies this`snake, this`food, this`score, this`gameSpeed, this`gameState, this`highScore
      ensures Valid()
      ensures old(gameState) != Playing ==> unchanged(this)
      ensures old(gameState) == Playing ==>
        match StepOutcome(old(snake), dx, dy, old(food), tileCount)
        case Idle => unchanged(this)
        case HitWall =>
          && gameState == GameOver && highScore == Max(old(highScore), score)
          && snake == old(snake) && food == old(food) && score == old(score)
          && gameSpeed == old(gameSpeed)
        case HitSelf =>
          && gameState == GameOver && highScore == Max(old(highScore), score)
          && snake == old(snake) && food == old(food) && score == old(score)
          && gameSpeed == old(gameSpeed)
        case Slide(b) =>
          && snake == b && gameState == Playing && food == old(food)
          && score == old(score) && gameSpeed == old(gameSpeed) && highScore == old(highScore)
        case Grow(b) =>
          && snake == b && gameState == Playing
          && score == old(score) + FoodPoints && food == FoodChoice(b, draws)
          && gameSpeed == SpeedAfterEat(score, old(gameSpeed)) && highScore == old(highScore)
    {
      if gameState != Playing { return; }
      if dx == 0 && dy == 0 { return; }
      ghost var m := StepOutcome(snake, dx, dy, food, tileCount);
      MoveKeepsShape(snake, dx, dy, food, tileCount);
      var head := (snake[0].0 + dx, snake[0].1 + dy);
      if head.0 < 0 || head.0 >= tileCount || head.1 < 0 || head.1 >= tileCount {
        assert m == HitWall;
        EndGame();
        return;
      }
      var hit := HitsBody(snake, head);
      if hit {
        assert m == HitSelf;
        EndGame();
        return;
      }
      if head == food {
        assert m == Grow([head] + snake);
        snake := [head] + snake;
        EatFood(draws);
      } else {
        assert m == Slide([head] + snake[..|snake| - 1]);
        snake := [head] + snake[..|snake| - 1];
      }
    }

    /** The keydown listener: movement keys while playing; space starts, resumes
        or resets otherwise. */
    method KeyDown(key: string, draws: seq<Cell>)
      requires Valid() && FoodDraws(draws, tileCount)
      modifies this`gameState, this`score, this`snake, this`dx, this`dy, this`food
      ensures Valid()
      ensures old(gameState) == Playing ==>
        && (dx, dy) == Steer(LowerCase(key), old(dx), old(dy))
        && gameState == Playing && snake == old(snake) && food == old(food) && score == old(score)
      ensures old(gameState) != Playing && key != " " ==> unchanged(this)
      // space from waiting: startGame
      ensures old(gameState) == Waiting && key == " " ==>
        && gameState == Playing && snake == InitialBody() && dx == 0 && dy == 0
        && food == FoodChoice(InitialBody(), draws) && score == old(score)
      // space while paused: resumeGame
      ensures old(gameState) == Paused && key == " " ==>
        && gameState == Playing && snake == old(snake) && dx == old(dx) && dy == old(dy)
        && food == old(food) && score == old(score)
      // space after game over: resetGame
      ensures old(gameState) == GameOver && key == " " ==>
        && gameState == Waiting && score == 0 && snake == InitialBody() && dx == 0 && dy == 0
        && food == FoodChoice(InitialBody(), draws)
    {
      if gameState == Playing {
        HandleKeyPress(LowerCase(key));
      } else if key == " " {
        if gameState == Waiting {
          StartGame(draws);
        } else if gameState == Paused {
          ResumeGame();
        } else if gameState == GameOver {
          ResetGame(draws);
        }
      }
    }
  }
}
