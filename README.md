# galaxyv2 shooter: a Dafny model of the game step

This project models the simulation core of the galaxyv2 arcade shooter, the
React component in `App.tsx`. The player's ship moves along the bottom of an
800 × 600 board and fires volleys of three bullets. A 4 × 10 formation of
enemies sweeps sideways, steps down at each wall and fires back
at random.

The model covers:

- the state the component keeps: the ship, both bullet lists, the enemies,
  the sweep direction, the score and the start/game-over flags;
- `createEnemies` and `resetGame`;
- the space-bar volley;
- one run of `gameLoop`, with its updates in the order React applies them.

Module by module:

- `Constants` and `Types` mirror `constants.js` and `types.ts`.
  Coordinates are `real`, because the enemy speeds are fractional.
- `Seqs` holds the JavaScript array operations the step uses:
  - `map` and `filter`;
  - `splice(i, 1)`, which does nothing past the end;
  - the subsequence order that filtering and splicing keep.
- `Player`: the clamped ship movement and the volley updater.
- `Bullets`: the per-frame advance and cull of both bullet lists.
- `Formation`:
  - the grid `createEnemies` pushes;
  - the sweep, with its direction-blind wall test, its flip and its descent;
  - the per-enemy firing.
- `Collision`:
  - the overlap tests;
  - the bullet-versus-enemy pass, which splices both arrays inside nested
    `forEach` loops. JavaScript fixes each loop's length when it starts and
    skips indices that no longer exist;
  - the two game-over tests.
- `App`: the state record `GameState`, the per-frame function `Step`, and
  the class `Game`. `Game`'s fields are the component's state hooks, and its
  methods update them in place.

`Step` applies the frame's updates in five groups, in the order the
component queues them:

1. the ship moves and both bullet lists advance;
2. the formation sweeps, the direction flip is queued, and the moved enemies
   fire;
3. the collision pass runs over the frame's starting bullets and enemies.
   When it scores, its arrays replace the bullet and enemy lists;
4. the two game-over tests read the frame's starting values;
5. level clear: a frame that began with no enemies brings a fresh grid and
   100 points.

`Game.GameLoop` is proved equal to `Step`. The constructor, `ResetGame`,
`PressSpace` and `GameLoop` each keep the invariant `Valid`:

- the direction is ±1;
- the score is not negative;
- the ship is on the board at its fixed height;
- there are at most `MAX_PLAYER_BULLETS` player bullets;
- enemy ids are distinct.

The five phase methods `GameLoop` calls are stated by their effect on the
state alone; the invariant holds again once all five have run.

The collision pass follows the code as written, not the tidier reading
"a bullet is removed with the first enemy it hits":

- a bullet can remove several enemies in one pass;
- an overlapping enemy that shifts into an index the inner loop has already
  visited is not tested against that bullet (a later bullet can still remove
  it);
- `newBullets.splice(bIndex, 1)` can remove a different bullet, or nothing.

`Collision.OneBulletTwoEnemies` exhibits the first two and the removal of a
different bullet. `Collision.LoneBulletSplicesNothing` exhibits a splice that
removes nothing: a lone bullet's second match splices an empty array.

The sweep also follows the code as written: the frame that hits a wall still
moves the formation by the direction it started with. `Step` keeps that
behaviour. `Formation.SweepTurning` is the sweep that turns in the frame that
hits the wall; it stands beside `Step` for comparison (see "## Findings").

## Model

| member | source | states |
|---|---|---|
| Player.StartPosition | App.tsx:17 | the ship starts horizontally centred, with its bottom edge 20 above the board's bottom |
| Player.MovePlayer | App.tsx:86-92 | after a move the ship's x lies in [0, GAME_WIDTH - PLAYER_WIDTH]; its id and y are kept |
| Player.MovePlayerCases | App.tsx:86-92 | for a ship on the board, neither key or both keys leave it in place; one key moves it PLAYER_SPEED that way, clamped at the edge |
| Player.FireVolley | App.tsx:55-66 | with at most MAX_PLAYER_BULLETS - 3 live bullets, exactly three are appended after the unchanged list: ids now, now+1, now+2, the ship's y, x at x, x + PLAYER_WIDTH/2 - 3 and x + PLAYER_WIDTH - 6. Otherwise the list is unchanged. A volley never takes the count past MAX_PLAYER_BULLETS |
| Player.VolleyShape | App.tsx:57-62 | the three new bullets have distinct ids and start within the ship's width at its height |
| Seqs.Map | App.tsx:95 | `map` keeps the length and applies the function to each element in place |
| Seqs.Filter | App.tsx:95 | `filter` is no longer than its input, and a value is in the result iff it is in the input and passes the test |
| Seqs.FilterCounts | App.tsx:95 | `filter` keeps every copy of a value that passes the test and no copy of one that fails it |
| Seqs.SubsequenceAppend | App.tsx:127 | appending the same element to both sides keeps the subsequence order, and so does appending it to the longer side alone |
| Seqs.RemoveAt | App.tsx:147-148 | `splice(i, 1)` drops exactly element i and keeps the elements on both sides in order; past the end it changes nothing |
| Seqs.FilterSubsequence | App.tsx:95 | a filtered list is a subsequence of the original |
| Seqs.RemoveAtSubsequence | App.tsx:147-148 | a spliced array is a subsequence of the array before |
| Seqs.SubsequenceUnique | App.tsx:147-148 | deleting elements keeps keys pairwise distinct |
| Bullets.PlayerBulletsAdvance | App.tsx:95 | every player bullet moves up BULLET_SPEED and is kept iff its new y > 0; survivors keep their order and none is added |
| Bullets.EnemyBulletsAdvance | App.tsx:98 | every enemy bullet moves down BULLET_SPEED and is kept iff its new y < GAME_HEIGHT; survivors keep their order and none is added |
| Bullets.PlayerBulletsCounts | App.tsx:95 | each moved player bullet with y > 0 keeps its multiplicity, and no bullet at or above the top survives |
| Bullets.EnemyBulletsCounts | App.tsx:98 | each moved enemy bullet with y < GAME_HEIGHT keeps its multiplicity, and no bullet at or below the bottom survives |
| Bullets.BulletLifetime | App.tsx:95 | a lone live bullet is still on the board after n frames iff y - n*BULLET_SPEED > 0, and it is then exactly that much higher |
| Formation.RowStartIsProduct | App.tsx:29 | the number of enemies pushed before a row is row * ENEMY_COLS |
| Formation.GridLayout | App.tsx:24-37 | the grid has ENEMY_ROWS*ENEMY_COLS enemies. Enemy (row, col) has x = col*(ENEMY_WIDTH+ENEMY_GAP)+ENEMY_GAP and y = row*(ENEMY_HEIGHT+ENEMY_GAP)+50, and enemy k has id base+k, so ids are distinct |
| Formation.CreateEnemies | App.tsx:24-37 | the nested push loops build exactly that grid |
| Formation.SweepFormation | App.tsx:101-121 | the two passes return the sweep of the formation, and the flag they raise is the wall test on the enemies before the move |
| Formation.SweepMoves | App.tsx:101-121 | the sweep keeps the count, order, ids and kinds, and shifts every x by ENEMY_SPEED*direction. Every y drops by ENEMY_VERTICAL_SPEED iff some enemy was at either wall before the move; otherwise every y is unchanged |
| Formation.SweepKeepsIds | App.tsx:108-109 | a formation with distinct ids keeps them through the sweep |
| Formation.SweepFlipsAgain | App.tsx:101-121 | as written, a formation that has just reached a wall is still at it after the next sweep; sweeping back puts every enemy at its old x, two descents lower, and at the wall again |
| Formation.TurningSweepLeavesWall | App.tsx:101-121 | the turning sweep moves a formation that has just reached a wall one step back out, one descent lower, and no enemy is then at a wall |
| Formation.EnemyFiring | App.tsx:124-131 | the firing pass appends the volley of the moved enemies to the enemy bullets |
| Formation.VolleyInOrder | App.tsx:124-131 | the appended bullets are the enemies' shots, in enemy order, with the silent enemies' shots left out |
| Formation.VolleyMembers | App.tsx:124-131 | a bullet is appended iff it is the shot of an enemy whose draw fell below ENEMY_FIRE_RATE, centred under that enemy with id now + enemy id. The shots come in enemy order, at most one per enemy, and no more than there are enemies |
| Formation.VolleyIdsDistinct | App.tsx:124-131 | enemies with distinct ids drop shots with pairwise distinct ids within one frame's volley |
| Formation.VolleyExtremes | App.tsx:126-128 | if every draw is below the rate, every enemy fires once, in order; if none is, nobody fires |
| Collision.CollisionPass | App.tsx:135-152 | the nested forEach/splice loops compute the pass `Collide` describes, JavaScript's fixed lengths and skipped indices included |
| Collision.CollideAccounting | App.tsx:135-152 | scoreToAdd = 10 × the number of enemies removed. The surviving enemies and bullets are subsequences of the frame's lists, and there are no more bullets than before |
| Seqs.RemoveAtCounts | App.tsx:147-148 | `splice(i, 1)` removes exactly one copy of element i, and nothing past the end |
| Collision.CollideSparesUnhit | App.tsx:139-152 | an enemy that none of the frame's bullets overlaps keeps every copy it had, so every enemy the pass removes was overlapped by some bullet |
| Collision.CollideQuiet | App.tsx:135-158 | the pass scores nothing iff no bullet overlaps any enemy, and then it returns the lists unchanged |
| Collision.ExactOverlapScores | App.tsx:141-149 | a bullet at an enemy's position removes both and scores 10 |
| Collision.OneBulletTwoEnemies | App.tsx:139-152 | as written, one bullet removes two enemies, an overlapping enemy survives, and an unrelated bullet is spliced out |
| Collision.LoneBulletSplicesNothing | App.tsx:139-152 | as written, a lone bullet over two enemies removes both and scores 20; the second `splice(bIndex, 1)` removes nothing |
| Collision.CheckPlayerShot | App.tsx:161-170 | the first game-over loop reports a hit iff some enemy bullet's 4×10 box overlaps the ship |
| Collision.CheckInvaded | App.tsx:173-183 | the second game-over loop reports a hit iff some enemy is past the bottom edge or overlaps the ship |
| App.Initial | App.tsx:13-21 | before the first reset the game is neither started nor over, the score is 0 and the board is empty |
| App.Reset | App.tsx:39-48 | resetGame starts a running game: score 0, the ship at its start, no bullets, exactly the grid createEnemies builds for the clock value (ENEMY_ROWS*ENEMY_COLS enemies), direction 1 |
| App.InitialValid | App.tsx:13-21 | the initial state satisfies the state invariant |
| App.ResetValid | App.tsx:39-48 | a reset state satisfies the state invariant |
| App.PressFireValid | App.tsx:52-66 | a volley keeps the state invariant, the cap of MAX_PLAYER_BULLETS player bullets included |
| App.StepFields | App.tsx:82-191 | the effect of a running frame, field by field. gameOver is set iff an enemy bullet hits the ship or an enemy reaches it or the bottom, all on the frame's starting values. Scoring frames replace bullets and enemies with the pass's survivors. The direction flips on a wall hit, and the moved enemies fire |
| App.StepValid | App.tsx:82-191 | a frame keeps the state invariant and never adds player bullets (the advance filters, the pass only splices), and enemy ids stay distinct through the sweep, the pass and a new grid |
| App.RunValid | App.tsx:82-191 | any number of frames keep the state invariant |
| App.IdleWhileStopped | App.tsx:83 | before the start or after game over, any number of frames change nothing |
| App.StepScore | App.tsx:135-189 | a running frame adds 10 per enemy the pass removed, plus 100 if it began with no enemies |
| App.ScoreNeverDecreases | App.tsx:135-189 | over any number of frames the score never goes down |
| App.LevelClear | App.tsx:185-189 | a running frame that begins with no enemies brings a full grid with distinct ids and adds exactly 100 |
| App.HitOrMove | App.tsx:154-158 | if some bullet overlaps some enemy, the frame's bullets and enemies are unmoved survivors of the starting lists, no enemy that none of the frame's bullets overlaps is lost, and the score rises by 10 per loss. Otherwise the bullets advance, the formation sweeps and the score stays |
| App.DirectionFlip | App.tsx:101-115 | the direction changes in a running frame iff some enemy began the frame at a wall |
| App.WallOscillation | App.tsx:101-121 | as written, two quiet running frames from a formation that has just reached a wall flip the direction twice and bring every enemy back to its x two descents lower, still at the wall |
| App.Game.constructor | App.tsx:13-21 | the state hooks start at the initial state |
| App.Game.ResetGame | App.tsx:39-48 | the reset sets every field to the reset state |
| App.Game.PressSpace | App.tsx:52-66 | the space-bar branch applies the volley updater only while the game runs, and keeps the invariant |
| App.Game.GameLoop | App.tsx:82-191 | one frame takes the component's state to Step of it and keeps the invariant |
| App.Game.MovementStep | App.tsx:86-98 | the movement and bullet updaters |
| App.Game.FormationStep | App.tsx:101-131 | the formation updater, the flip it queues, and the firing updater |
| App.Game.Collisions | App.tsx:135-158 | the collision pass and the replacement of bullets, enemies and score when it scores |
| App.Game.GameOverTests | App.tsx:161-183 | both game-over tests, on the frame's starting values |
| App.Game.LevelCheck | App.tsx:185-189 | level clear on the frame's starting enemy list |

## Findings

| source | as written | input that shows it | evidently intended | confidence | as-written member | corrected member |
|---|---|---|---|---|---|---|
| App.tsx:101-121 | the frame that detects a wall still moves every enemy by the direction the frame started with, and the wall test ignores the direction of travel, so the next frame detects the wall again and flips back | direction 1, rightmost enemy at x = 760.02 (it was at 759.97 a frame earlier): while no bullet scores, every later frame hits the wall, and the formation drops 0.5 per frame while its x alternates between 760.07 and 760.02 | the formation turns away from the wall it has reached and descends once | not executed | App.WallOscillation, Formation.SweepFlipsAgain | Formation.SweepTurning, Formation.TurningSweepLeavesWall |

`Step` keeps the sweep as written, so the rest of the model describes the
game as it behaves; the corrected sweep and its lemma stand beside it.

## Left out

- Rendering is not modelled: `GameScreen`, `StartScreen`, `GameOverScreen` and the JSX returned by `App` only draw the state.
- Browser wiring is not modelled: the key listeners, the `keysPressed` map and the `requestAnimationFrame` scheduling. Each frame receives two booleans instead. Left is 'ArrowLeft' or 'a' held; right is 'ArrowRight' or 'd' held.
- `Math.random()` is a parameter: the frame receives the draws in enemy order. A frame given fewer draws than enemies fires nothing from the rest.
- `Date.now()` is a parameter: each frame, volley and reset receives one clock value. Ids are distinct within one grid, within one space-bar volley, and within one frame's enemy shots when the enemies' ids are distinct. The model makes no claim about ids across frames, which the clock alone decides.
- Floating point is not modelled: coordinates are exact reals, so IEEE-754 rounding of 0.05 and 0.5 is not captured.
- React artefacts beyond the update order are not modelled:
  - each queued updater is assumed to run exactly once, in queue order;
  - strict-mode double invocation is ignored;
  - the timing of updaters queued from inside other updaters is ignored;
  - so are closures that are stale across effect re-registrations.
- The space-bar handler reads the ship position from the last render. The model reads it from the current state, which is the same value once the frame has rendered.
