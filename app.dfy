// The game component (App.tsx): its state, the reset, the space-bar
// handler and the per-frame game loop. The loop's effect on the state is
// the function Step; the class Game holds the state the component keeps
// and updates it in place, and its methods are proved to agree with the
// functions.
module App {
  import opened Constants
  import opened Types
  import opened Seqs
  import opened Player
  import opened Bullets
  import opened Formation
  import opened Collision

  /** Everything the component keeps between frames. */
  datatype GameState = GameState(
    gameStarted: bool,
    gameOver: bool,
    score: int,
    player: GameObject,
    bullets: seq<GameObject>,
    enemies: seq<Enemy>,
    enemyBullets: seq<GameObject>,
    enemyDirection: int)

  /** What a frame reads from outside: whether a left key ('ArrowLeft' or
      'a') and a right key ('ArrowRight' or 'd') are held, the successive
      values Math.random() returns while the enemies fire, and Date.now(). */
  datatype FrameInput = FrameInput(left: bool, right: bool, draws: seq<real>, now: int)

  /** The state before the first reset: not started, nothing on the board. */
  function Initial(): (s: GameState)
    ensures !s.gameStarted && !s.gameOver && s.score == 0
    ensures s.bullets == [] && s.enemies == [] && s.enemyBullets == []
  {
    GameState(false, false, 0, StartPosition(), [], [], [], 1)
  }

  /** resetGame: score 0, ship back at the start, no bullets, a fresh grid,
      sweeping right, running. */
  function Reset(now: int): (s: GameState)
    ensures s.gameStarted && !s.gameOver && s.score == 0
    ensures s.player == StartPosition() && s.bullets == [] && s.enemyBullets == []
    ensures s.enemies == Grid(now) && |s.enemies| == ENEMY_ROWS * ENEMY_COLS && s.enemyDirection == 1
  {
    GridLayout(now);
    GameState(true, false, 0, StartPosition(), [], Grid(now), [], 1)
  }

  /** The space-bar handler: a volley while the game runs, nothing otherwise. */
  function PressFire(s: GameState, now: int): GameState {
    if s.gameStarted && !s.gameOver then s.(bullets := FireVolley(s.bullets, s.player, now)) else s
  }

  // The game loop queues its state updates in five groups; React applies
  // them in that order, each to the result of the one before. Every group
  // that reads the state reads the values the frame started with.

  /** Ship movement and the advance of both bullet lists. */
  function MovementUpdates(s: GameState, input: FrameInput): GameState {
    s.(player := MovePlayer(s.player, input.left, input.right),
       bullets := AdvancePlayerBullets(s.bullets),
       enemyBullets := AdvanceEnemyBullets(s.enemyBullets))
  }

  /** The formation sweep, the direction flip it queues when an enemy began
      at a wall, and the shots of the moved enemies. */
  function FormationUpdates(s: GameState, input: FrameInput): GameState {
    var moved := Sweep(s.enemies, s.enemyDirection);
    s.(enemies := moved,
       enemyDirection := if WallHit(s.enemies) then -s.enemyDirection else s.enemyDirection,
       enemyBullets := s.enemyBullets + Volley(moved, input.draws, input.now))
  }

  /** The collision pass over the frame's bullets and enemies: when it
      scores, its arrays replace the bullet and enemy lists. */
  function CollisionUpdates(s: GameState, bullets: seq<GameObject>, enemies: seq<Enemy>): GameState {
    var hits := Collide(bullets, enemies);
    if hits.score > 0 then s.(score := s.score + hits.score, bullets := hits.bullets, enemies := hits.enemies)
    else s
  }

  /** The two game-over tests on the frame's enemy bullets, enemies and ship. */
  function GameOverUpdates(s: GameState, enemyBullets: seq<GameObject>, enemies: seq<Enemy>, player: GameObject): GameState {
    if PlayerShot(enemyBullets, player) || Invaded(enemies, player) then s.(gameOver := true) else s
  }

  /** Level clear: a frame that began with no enemies brings a fresh grid
      and the bonus. */
  function LevelUpdates(s: GameState, enemies: seq<Enemy>, now: int): GameState {
    if |enemies| == 0 then s.(enemies := Grid(now), score := s.score + 100) else s
  }

  /** One run of the game loop: nothing before the start or after game over,
      otherwise the five groups of updates in order. */
  function Step(s: GameState, input: FrameInput): GameState {
    if !s.gameStarted || s.gameOver then s
    else
      var moved := FormationUpdates(MovementUpdates(s, input), input);
      var scored := CollisionUpdates(moved, s.bullets, s.enemies);
      var tested := GameOverUpdates(scored, s.enemyBullets, s.enemies, s.player);
      LevelUpdates(tested, s.enemies, input.now)
  }

  /** The whole effect of a running frame, field by field. */
  lemma StepFields(s: GameState, input: FrameInput)
    requires s.gameStarted && !s.gameOver
    ensures var r := Step(s, input);
      var moved := Sweep(s.enemies, s.enemyDirection);
      var hits := Collide(s.bullets, s.enemies);
      && r.gameStarted
      && r.gameOver == (PlayerShot(s.enemyBullets, s.player) || Invaded(s.enemies, s.player))
      && r.score == s.score + (if hits.score > 0 then hits.score else 0) + (if s.enemies == [] then 100 else 0)
      && r.player == MovePlayer(s.player, input.left, input.right)
      && r.bullets == (if hits.score > 0 then hits.bullets else AdvancePlayerBullets(s.bullets))
      && r.enemies == (if s.enemies == [] then Grid(input.now) else if hits.score > 0 then hits.enemies else moved)
      && r.enemyBullets == AdvanceEnemyBullets(s.enemyBullets) + Volley(moved, input.draws, input.now)
      && r.enemyDirection == (if WallHit(s.enemies) then -s.enemyDirection else s.enemyDirection)
  {
  }

  /** Frames one after another. */
  function Run(s: GameState, inputs: seq<FrameInput>): GameState
    decreases |inputs|
  {
    if inputs == [] then s else Run(Step(s, inputs[0]), inputs[1..])
  }

  /** What holds of every state the game reaches: the sweep direction is +1
      or -1, the score is not negative, the ship is on the board at its fixed
      height, at most MAX_PLAYER_BULLETS player bullets are live, and no two
      enemies share an id. */
  predicate Valid(s: GameState) {
    && (s.enemyDirection == 1 || s.enemyDirection == -1)
    && s.score >= 0
    && 0.0 <= s.player.x <= MAX_X
    && s.player.y == StartPosition().y
    && |s.bullets| <= MAX_PLAYER_BULLETS
    && Unique(s.enemies, EnemyId)
  }

  lemma InitialValid()
    ensures Valid(Initial())
  {
  }

  lemma ResetValid(now: int)
    ensures Valid(Reset(now))
  {
    GridLayout(now);
  }

  lemma PressFireValid(s: GameState, now: int)
    requires Valid(s)
    ensures Valid(PressFire(s, now))
  {
  }

  /** A step keeps every state invariant. */
  lemma StepValid(s: GameState, input: FrameInput)
    requires Valid(s)
    ensures Valid(Step(s, input))
    ensures |Step(s, input).bullets| <= |s.bullets|
  {
    if s.gameStarted && !s.gameOver {
      var r := Step(s, input);
      var hits := Collide(s.bullets, s.enemies);
      StepFields(s, input);
      CollideAccounting(s.bullets, s.enemies);
      assert |r.bullets| <= |s.bullets| by {
        assert |AdvancePlayerBullets(s.bullets)| <= |Map(s.bullets, MoveUp)| == |s.bullets|;
      }
      assert Unique(r.enemies, EnemyId) by {
        if |s.enemies| == 0 {
          GridLayout(input.now);
        } else if hits.score > 0 {
          SubsequenceUnique(hits.enemies, s.enemies, EnemyId);
        } else {
          SweepKeepsIds(s.enemies, s.enemyDirection);
        }
      }
    }
  }

  lemma {:induction false} RunValid(s: GameState, inputs: seq<FrameInput>)
    requires Valid(s)
    ensures Valid(Run(s, inputs))
    decreases |inputs|
  {
    if inputs != [] {
      StepValid(s, inputs[0]);
      RunValid(Step(s, inputs[0]), inputs[1..]);
    }
  }

  /** Before the start and after game over a frame changes nothing, so any
      number of frames leave such a state as it is. */
  lemma {:induction false} IdleWhileStopped(s: GameState, inputs: seq<FrameInput>)
    requires !s.gameStarted || s.gameOver
    ensures Run(s, inputs) == s
    decreases |inputs|
  {
    if inputs != [] {
      IdleWhileStopped(Step(s, inputs[0]), inputs[1..]);
    }
  }

  /** Score accounting of one running frame: ten points per enemy the
      collision pass removed, plus 100 when the frame began with no enemies. */
  lemma StepScore(s: GameState, input: FrameInput)
    requires s.gameStarted && !s.gameOver
    ensures var r := Step(s, input);
      var survivors := Collide(s.bullets, s.enemies).enemies;
      && |survivors| <= |s.enemies|
      && r.score == s.score + 10 * (|s.enemies| - |survivors|) + (if s.enemies == [] then 100 else 0)
  {
    CollideAccounting(s.bullets, s.enemies);
    SubsequenceLength(Collide(s.bullets, s.enemies).enemies, s.enemies);
  }

  /** The score never goes down, over any number of frames. */
  lemma {:induction false} ScoreNeverDecreases(s: GameState, inputs: seq<FrameInput>)
    ensures Run(s, inputs).score >= s.score
    decreases |inputs|
  {
    if inputs != [] {
      var input := inputs[0];
      if s.gameStarted && !s.gameOver {
        StepScore(s, input);
      }
      ScoreNeverDecreases(Step(s, input), inputs[1..]);
    }
  }

  /** Level clear: a running frame that starts with no enemies brings a full
      fresh grid and exactly 100 points. */
  lemma LevelClear(s: GameState, input: FrameInput)
    requires s.gameStarted && !s.gameOver && s.enemies == []
    ensures var r := Step(s, input);
      && r.enemies == Grid(input.now)
      && |r.enemies| == ENEMY_ROWS * ENEMY_COLS
      && Unique(r.enemies, EnemyId)
      && r.score == s.score + 100
  {
    GridLayout(input.now);
    CollideQuiet(s.bullets, s.enemies);
  }

  /** A running frame with enemies either scores or moves. When some bullet
      overlaps some enemy, the collision pass's arrays replace the frame's
      updates: the survivors are the frame's starting bullets and enemies,
      unmoved and in order, no enemy that none of the frame's bullets
      overlaps is lost, and the score rises. Otherwise the bullets
      advance, the formation sweeps and the score stays. */
  lemma HitOrMove(s: GameState, input: FrameInput)
    requires s.gameStarted && !s.gameOver && s.enemies != []
    ensures var r := Step(s, input);
      AnyHit(s.bullets, s.enemies) ==>
        && IsSubsequence(r.bullets, s.bullets)
        && IsSubsequence(r.enemies, s.enemies)
        && |r.enemies| < |s.enemies|
        && r.score == s.score + 10 * (|s.enemies| - |r.enemies|)
        && (forall e :: (forall i :: 0 <= i < |s.bullets| ==> !BulletHitsEnemy(s.bullets[i], e)) ==>
              multiset(r.enemies)[e] == multiset(s.enemies)[e])
    ensures var r := Step(s, input);
      !AnyHit(s.bullets, s.enemies) ==>
        && r.bullets == AdvancePlayerBullets(s.bullets)
        && r.enemies == Sweep(s.enemies, s.enemyDirection)
        && r.score == s.score
  {
    CollideQuiet(s.bullets, s.enemies);
    CollideAccounting(s.bullets, s.enemies);
    CollideSparesUnhit(s.bullets, s.enemies);
  }

  /** The sweep direction flips in a running frame exactly when some enemy
      began it at a wall, whichever way the formation was going. */
  lemma DirectionFlip(s: GameState, input: FrameInput)
    requires Valid(s) && s.gameStarted && !s.gameOver
    ensures Step(s, input).enemyDirection != s.enemyDirection <==>
      exists i :: 0 <= i < |s.enemies| && AtWall(s.enemies[i])
  {
  }

  /** As written, a formation that has just reached a wall stays there:
      over two quiet frames the direction flips twice, every enemy comes back
      to the x it started from, two descents lower, and the wall is hit again,
      so the same two frames repeat while the game runs. */
  lemma WallOscillation(s: GameState, first: FrameInput, second: FrameInput)
    requires s.gameStarted && !s.gameOver && s.bullets == []
    requires s.enemyDirection == 1 || s.enemyDirection == -1
    requires WallHit(s.enemies) && JustArrived(s.enemies, s.enemyDirection)
    requires !Step(s, first).gameOver
    ensures var s1 := Step(s, first);
      var s2 := Step(s1, second);
      && s1.enemyDirection == -s.enemyDirection
      && s2.enemyDirection == s.enemyDirection
      && |s2.enemies| == |s.enemies|
      && (forall i :: 0 <= i < |s.enemies| ==>
            s2.enemies[i].x == s.enemies[i].x && s2.enemies[i].y == s.enemies[i].y + 2.0 * ENEMY_VERTICAL_SPEED)
      && WallHit(s2.enemies)
  {
    var s1 := Step(s, first);
    assert AdvancePlayerBullets([]) == [];
    assert Collide([], s.enemies) == Pass([], s.enemies, 0);
    assert s1.enemies == Sweep(s.enemies, s.enemyDirection);
    assert s1.bullets == [];
    SweepFlipsAgain(s.enemies, s.enemyDirection);
    assert Collide([], s1.enemies) == Pass([], s1.enemies, 0);
  }

  /** The component's state, updated in place by its handlers. */
  class Game {
    var gameStarted: bool
    var gameOver: bool
    var score: int
    var playerPos: GameObject
    var bullets: seq<GameObject>
    var enemies: seq<Enemy>
    var enemyBullets: seq<GameObject>
    var enemyDirection: int

    function State(): GameState
      reads this
    {
      GameState(gameStarted, gameOver, score, playerPos, bullets, enemies, enemyBullets, enemyDirection)
    }

    /** The initial values of the component's state hooks. */
    constructor ()
      ensures State() == Initial()
      ensures Valid(State())
    {
      gameStarted, gameOver, score := false, false, 0;
      playerPos := StartPosition();
      bullets, enemies, enemyBullets := [], [], [];
      enemyDirection := 1;
    }

    /** resetGame, run from the start and game-over screens. */
    method ResetGame(now: int)
      modifies this
      ensures State() == Reset(now)
      ensures Valid(State())
    {
      score := 0;
      playerPos := StartPosition();
      bullets := [];
      enemyBullets := [];
      enemies := CreateEnemies(now);
      enemyDirection := 1;
      gameOver := false;
      gameStarted := true;
      ResetValid(now);
    }

    /** The space-bar branch of the key-down handler. */
    method PressSpace(now: int)
      modifies this
      ensures State() == PressFire(old(State()), now)
      ensures old(Valid(State())) ==> Valid(State())
    {
      if gameStarted && !gameOver {
        bullets := FireVolley(bullets, playerPos, now);
      }
    }

    /** gameLoop: the state updates of one frame, in the order the component
        queues them. */
    method GameLoop(input: FrameInput)
      modifies this
      ensures State() == Step(old(State()), input)
      ensures old(Valid(State())) ==> Valid(State())
    {
      if !gameStarted || gameOver {
        return;
      }
      ghost var start := State();
      // The values the frame reads; the later passes use these, not the
      // updated lists.
      var frameBullets, frameEnemies, frameEnemyBullets, framePlayer := bullets, enemies, enemyBullets, playerPos;
      MovementStep(input);
      FormationStep(input);
      Collisions(frameBullets, frameEnemies);
      GameOverTests(frameEnemyBullets, frameEnemies, framePlayer);
      LevelCheck(frameEnemies, input.now);
      if Valid(start) {
        StepValid(start, input);
      }
    }

    /** Ship movement and the advance of both bullet lists. */
    method MovementStep(input: FrameInput)
      modifies this
      ensures State() == MovementUpdates(old(State()), input)
    {
      playerPos := MovePlayer(playerPos, input.left, input.right);
      bullets := AdvancePlayerBullets(bullets);
      enemyBullets := AdvanceEnemyBullets(enemyBullets);
    }

    /** The formation updater, then the firing updater over the moved enemies. */
    method FormationStep(input: FrameInput)
      modifies this
      ensures State() == FormationUpdates(old(State()), input)
    {
      var moved, wallHit := SweepFormation(enemies, enemyDirection);
      if wallHit {
        enemyDirection := -enemyDirection;
      }
      enemies := moved;
      enemyBullets := EnemyFiring(enemies, input.draws, input.now, enemyBullets);
    }

    /** The collision pass over the frame's lists; a scoring pass replaces
        the bullet and enemy lists with its own. */
    method Collisions(frameBullets: seq<GameObject>, frameEnemies: seq<Enemy>)
      modifies this
      ensures State() == CollisionUpdates(old(State()), frameBullets, frameEnemies)
    {
      var newBullets, newEnemies, scoreToAdd := CollisionPass(frameBullets, frameEnemies);
      if scoreToAdd > 0 {
        score := score + scoreToAdd;
        bullets := newBullets;
        enemies := newEnemies;
      }
    }

    /** Both game-over tests, each on the frame's values. */
    method GameOverTests(frameEnemyBullets: seq<GameObject>, frameEnemies: seq<Enemy>, framePlayer: GameObject)
      modifies this
      ensures State() == GameOverUpdates(old(State()), frameEnemyBullets, frameEnemies, framePlayer)
    {
      var shot := CheckPlayerShot(frameEnemyBullets, framePlayer);
      if shot {
        gameOver := true;
      }
      var invaded := CheckInvaded(frameEnemies, framePlayer);
      if invaded {
        gameOver := true;
      }
    }

    /** Level clear, tested on the frame's enemy list. */
    method LevelCheck(frameEnemies: seq<Enemy>, now: int)
      modifies this
      ensures State() == LevelUpdates(old(State()), frameEnemies, now)
    {
      if |frameEnemies| == 0 {
        enemies := CreateEnemies(now);
        score := score + 100;
      }
    }
  }
}
