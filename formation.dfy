// The enemy formation (App.tsx): the 4 x 10 grid built by createEnemies,
// the per-frame sideways sweep with its wall test, flip and descent, and
// the per-enemy random firing.
module Formation {
  import opened Constants
  import opened Types
  import opened Seqs

  /** How many enemies createEnemies pushes before row `row`: row * ENEMY_COLS,
      counted row by row (RowStartIsProduct). */
  function RowStart(row: nat): nat
    decreases row
  {
    if row == 0 then 0 else RowStart(row - 1) + ENEMY_COLS
  }

  lemma {:induction false} RowStartIsProduct(row: nat)
    ensures RowStart(row) == row * ENEMY_COLS
    decreases row
  {
    if row > 0 {
      RowStartIsProduct(row - 1);
    }
  }

  /** The enemy that createEnemies places at (row, col) when the clock reads
      base: id base + row * ENEMY_COLS + col, columns ENEMY_WIDTH + ENEMY_GAP
      apart starting at ENEMY_GAP, rows ENEMY_HEIGHT + ENEMY_GAP apart starting
      at 50. */
  function EnemyAt(base: int, row: nat, col: nat): Enemy {
    Enemy(base + RowStart(row) + col,
          (col as real) * (ENEMY_WIDTH + ENEMY_GAP) + ENEMY_GAP,
          (row as real) * (ENEMY_HEIGHT + ENEMY_GAP) + 50.0,
          Default)
  }

  /** One row of the grid, in push order. */
  function Row(base: int, row: nat): seq<Enemy> {
    seq(ENEMY_COLS, c requires 0 <= c < ENEMY_COLS => EnemyAt(base, row, c))
  }

  /** The first `rows` complete rows, in push order. */
  function Rows(base: int, rows: nat): seq<Enemy>
    decreases rows
  {
    if rows == 0 then [] else Rows(base, rows - 1) + Row(base, rows - 1)
  }

  function Grid(base: int): seq<Enemy> {
    Rows(base, ENEMY_ROWS)
  }

  /** The enemy pushed at (r, c) of the first `rows` rows sits at index
      RowStart(r) + c, and enemy k has id base + k. */
  lemma {:induction false} RowsAt(base: int, rows: nat, r: nat, c: nat)
    requires r < rows && c < ENEMY_COLS
    ensures |Rows(base, rows)| == RowStart(rows)
    ensures RowStart(r) + c < |Rows(base, rows)|
    ensures Rows(base, rows)[RowStart(r) + c] == EnemyAt(base, r, c)
    decreases rows
  {
    var prefix, last := Rows(base, rows - 1), Row(base, rows - 1);
    if r < rows - 1 {
      RowsAt(base, rows - 1, r, c);
      assert Rows(base, rows)[RowStart(r) + c] == prefix[RowStart(r) + c];
    } else {
      RowsLength(base, rows - 1);
      assert Rows(base, rows)[RowStart(r) + c] == last[c];
    }
  }

  lemma {:induction false} RowsLength(base: int, rows: nat)
    ensures |Rows(base, rows)| == RowStart(rows)
    decreases rows
  {
    if rows > 0 {
      RowsLength(base, rows - 1);
    }
  }

  /** Enemy k of the first `rows` rows has id base + k. */
  lemma {:induction false} RowsIds(base: int, rows: nat, k: nat)
    requires k < |Rows(base, rows)|
    ensures Rows(base, rows)[k].id == base + k
    decreases rows
  {
    RowsLength(base, rows - 1);
    var prefix, last := Rows(base, rows - 1), Row(base, rows - 1);
    assert Rows(base, rows) == prefix + last;
    if k < |prefix| {
      RowsIds(base, rows - 1, k);
      assert Rows(base, rows)[k] == prefix[k];
    } else {
      assert Rows(base, rows)[k] == last[k - |prefix|];
    }
  }

  /** The grid holds ENEMY_ROWS * ENEMY_COLS enemies laid out row by row, and
      no two of them share an id. */
  lemma GridLayout(base: int)
    ensures |Grid(base)| == ENEMY_ROWS * ENEMY_COLS
    ensures forall r, c :: 0 <= r < ENEMY_ROWS && 0 <= c < ENEMY_COLS ==>
      Grid(base)[r * ENEMY_COLS + c] == EnemyAt(base, r, c)
    ensures forall k :: 0 <= k < |Grid(base)| ==> Grid(base)[k].id == base + k
    ensures Unique(Grid(base), EnemyId)
  {
    RowsLength(base, ENEMY_ROWS);
    RowStartIsProduct(ENEMY_ROWS);
    forall r, c | 0 <= r < ENEMY_ROWS && 0 <= c < ENEMY_COLS
      ensures Grid(base)[r * ENEMY_COLS + c] == EnemyAt(base, r, c)
    {
      RowsAt(base, ENEMY_ROWS, r, c);
      RowStartIsProduct(r);
    }
    forall k | 0 <= k < |Grid(base)| ensures Grid(base)[k].id == base + k {
      RowsIds(base, ENEMY_ROWS, k);
    }
  }

  /** createEnemies: two nested loops pushing one enemy per (row, col). */
  method CreateEnemies(base: int) returns (grid: seq<Enemy>)
    ensures grid == Grid(base)
  {
    grid := [];
    var row := 0;
    while row < ENEMY_ROWS
      invariant 0 <= row <= ENEMY_ROWS
      invariant grid == Rows(base, row)
    {
      var col := 0;
      while col < ENEMY_COLS
        invariant 0 <= col <= ENEMY_COLS
        invariant grid == Rows(base, row) + Row(base, row)[..col]
      {
        grid := grid + [EnemyAt(base, row, col)];
        col := col + 1;
      }
      row := row + 1;
    }
  }

  /** The wall test, read on an enemy before it moves. It does not look at
      the sweep direction: either edge counts whichever way the formation goes. */
  predicate AtWall(e: Enemy) {
    e.x + ENEMY_WIDTH >= GAME_WIDTH || e.x <= 0.0
  }

  predicate WallHit(es: seq<Enemy>) {
    exists i :: 0 <= i < |es| && AtWall(es[i])
  }

  /** The descent applied to the whole formation this frame. */
  function Descent(es: seq<Enemy>): real {
    if WallHit(es) then ENEMY_VERTICAL_SPEED else 0.0
  }

  /** The formation updater's result: every enemy moved sideways by
      ENEMY_SPEED in the frame's starting direction, then, if any enemy was at
      a wall before the move, moved down by ENEMY_VERTICAL_SPEED. */
  function Sweep(es: seq<Enemy>, direction: int): seq<Enemy> {
    seq(|es|, i requires 0 <= i < |es| =>
      es[i].(x := es[i].x + ENEMY_SPEED * (direction as real), y := es[i].y + Descent(es)))
  }

  /** The formation updater: one pass that moves each enemy sideways and
      raises the wall flag, then a second pass for the descent. */
  method SweepFormation(prev: seq<Enemy>, direction: int) returns (next: seq<Enemy>, wallHit: bool)
    ensures wallHit == WallHit(prev)
    ensures next == Sweep(prev, direction)
  {
    wallHit := false;
    var moved: seq<Enemy> := [];
    var i := 0;
    while i < |prev|
      invariant 0 <= i <= |prev|
      invariant |moved| == i
      invariant forall j :: 0 <= j < i ==> moved[j] == prev[j].(x := prev[j].x + ENEMY_SPEED * (direction as real))
      invariant wallHit <==> exists j :: 0 <= j < i && AtWall(prev[j])
    {
      var e := prev[i];
      if !wallHit && AtWall(e) {
        wallHit := true;
      }
      moved := moved + [e.(x := e.x + ENEMY_SPEED * (direction as real))];
      i := i + 1;
    }
    var moveDown := wallHit;
    if moveDown {
      next := [];
      i := 0;
      while i < |moved|
        invariant 0 <= i <= |moved|
        invariant |next| == i
        invariant forall j :: 0 <= j < i ==> next[j] == moved[j].(y := moved[j].y + ENEMY_VERTICAL_SPEED)
      {
        next := next + [moved[i].(y := moved[i].y + ENEMY_VERTICAL_SPEED)];
        i := i + 1;
      }
    } else {
      next := moved;
    }
  }

  /** What the sweep does to each enemy: same id and kind, x moved by
      ENEMY_SPEED in the given direction, y lowered by ENEMY_VERTICAL_SPEED
      exactly when some enemy started the frame at a wall. */
  lemma SweepMoves(es: seq<Enemy>, direction: int)
    ensures |Sweep(es, direction)| == |es|
    ensures forall i :: 0 <= i < |es| ==>
      && Sweep(es, direction)[i].id == es[i].id
      && Sweep(es, direction)[i].kind == es[i].kind
      && Sweep(es, direction)[i].x == es[i].x + ENEMY_SPEED * (direction as real)
      && Sweep(es, direction)[i].y ==
           (if exists j :: 0 <= j < |es| && AtWall(es[j]) then es[i].y + ENEMY_VERTICAL_SPEED else es[i].y)
  {
  }

  /** The sweep keeps the set of ids, so a formation with distinct ids keeps them. */
  lemma SweepKeepsIds(es: seq<Enemy>, direction: int)
    requires Unique(es, EnemyId)
    ensures Unique(Sweep(es, direction), EnemyId)
  {
    var r := Sweep(es, direction);
    forall i, j | 0 <= i < j < |r| ensures EnemyId(r[i]) != EnemyId(r[j]) {
      assert EnemyId(r[i]) == EnemyId(es[i]) && EnemyId(r[j]) == EnemyId(es[j]);
    }
  }

  /** The formation has just reached a wall while moving in `direction`:
      one step back, every enemy was clear of both walls. This is how every
      wall hit begins, since the frame before had none. */
  predicate JustArrived(es: seq<Enemy>, direction: int) {
    forall i :: 0 <= i < |es| ==>
      0.0 < es[i].x - ENEMY_SPEED * (direction as real) &&
      es[i].x - ENEMY_SPEED * (direction as real) + ENEMY_WIDTH < GAME_WIDTH
  }

  /** As written, the sweep moves by the direction the frame started with,
      so a formation that has just reached a wall moves further into it:
      the next frame hits the wall again and flips again, and the frame
      after that puts every enemy back where it was, still at the wall and
      two descents lower. The formation never turns away. */
  lemma SweepFlipsAgain(es: seq<Enemy>, direction: int)
    requires direction == 1 || direction == -1
    requires WallHit(es) && JustArrived(es, direction)
    ensures WallHit(Sweep(es, direction))
    ensures var back := Sweep(Sweep(es, direction), -direction);
      && |back| == |es|
      && (forall i :: 0 <= i < |es| ==>
            back[i].x == es[i].x && back[i].y == es[i].y + 2.0 * ENEMY_VERTICAL_SPEED)
      && WallHit(back)
  {
    var k :| 0 <= k < |es| && AtWall(es[k]);
    var moved := Sweep(es, direction);
    assert AtWall(moved[k]);
    var back := Sweep(moved, -direction);
    assert back[k].x == es[k].x;
    assert AtWall(back[k]);
  }

  /** The sweep the wall test is evidently meant for: the frame that hits a
      wall already moves in the flipped direction; off the walls it is the
      sweep as written. */
  function SweepTurning(es: seq<Enemy>, direction: int): (r: seq<Enemy>)
    ensures |r| == |es|
  {
    Sweep(es, if WallHit(es) then -direction else direction)
  }

  /** With the turning sweep, a formation that has just reached a wall
      steps back out of it, one descent lower, so the next frame does not
      flip again. */
  lemma TurningSweepLeavesWall(es: seq<Enemy>, direction: int)
    requires direction == 1 || direction == -1
    requires WallHit(es) && JustArrived(es, direction)
    ensures var r := SweepTurning(es, direction);
      && !WallHit(r)
      && (forall i :: 0 <= i < |es| ==>
            r[i].x == es[i].x - ENEMY_SPEED * (direction as real) && r[i].y == es[i].y + ENEMY_VERTICAL_SPEED)
  {
    var r := SweepTurning(es, direction);
    forall i | 0 <= i < |r| ensures !AtWall(r[i]) {
      assert r[i].x == es[i].x - ENEMY_SPEED * (direction as real);
    }
  }

  /** Whether Math.random() drew below ENEMY_FIRE_RATE for enemy i; a frame
      that supplies no draw for i fires nothing from it. */
  predicate Fires(draws: seq<real>, i: nat) {
    i < |draws| && draws[i] < ENEMY_FIRE_RATE
  }

  /** The bullet an enemy drops: centred under it (bullet half-width 2), at
      its bottom edge, id now + enemy id. */
  function Shot(e: Enemy, now: int): GameObject {
    GameObject(now + e.id, e.x + ENEMY_WIDTH / 2.0 - 2.0, e.y + ENEMY_HEIGHT)
  }

  /** The bullets appended by the firing updater, in enemy order. */
  function Volley(es: seq<Enemy>, draws: seq<real>, now: int): seq<GameObject>
    decreases |es|
  {
    if es == [] then []
    else Volley(es[..|es| - 1], draws, now) + (if Fires(draws, |es| - 1) then [Shot(es[|es| - 1], now)] else [])
  }

  /** The firing updater: for each enemy in order, one draw of Math.random();
      a draw below ENEMY_FIRE_RATE appends that enemy's shot to the enemy
      bullets. */
  method EnemyFiring(enemies: seq<Enemy>, draws: seq<real>, now: int, enemyBullets: seq<GameObject>)
    returns (eb: seq<GameObject>)
    ensures eb == enemyBullets + Volley(enemies, draws, now)
  {
    eb := enemyBullets;
    var i := 0;
    while i < |enemies|
      invariant 0 <= i <= |enemies|
      invariant eb == enemyBullets + Volley(enemies[..i], draws, now)
    {
      assert enemies[..i + 1][..i] == enemies[..i];
      if i < |draws| && draws[i] < ENEMY_FIRE_RATE {
        eb := eb + [Shot(enemies[i], now)];
      }
      i := i + 1;
    }
    assert enemies[..|enemies|] == enemies;
  }

  /** The volley is the enemies' shots with the silent enemies' left out. */
  lemma {:induction false} VolleyInOrder(es: seq<Enemy>, draws: seq<real>, now: int)
    ensures IsSubsequence(Volley(es, draws, now), Map(es, e => Shot(e, now)))
    decreases |es|
  {
    if es != [] {
      var init, last := es[..|es| - 1], es[|es| - 1];
      var shoot := e => Shot(e, now);
      VolleyInOrder(init, draws, now);
      assert Map(es, shoot) == Map(init, shoot) + [Shot(last, now)];
      SubsequenceAppend(Volley(init, draws, now), Map(init, shoot), Shot(last, now));
      if Fires(draws, |es| - 1) {
        assert Volley(es, draws, now) == Volley(init, draws, now) + [Shot(last, now)];
      } else {
        assert Volley(es, draws, now) == Volley(init, draws, now);
      }
    }
  }

  /** A shot is in the volley exactly when it is the shot of an enemy whose
      draw fell below the rate; the volley picks shots out of the enemies'
      shots in enemy order, so there is at most one per enemy. */
  lemma {:induction false} VolleyMembers(es: seq<Enemy>, draws: seq<real>, now: int)
    ensures |Volley(es, draws, now)| <= |es|
    ensures IsSubsequence(Volley(es, draws, now), Map(es, e => Shot(e, now)))
    ensures forall s :: s in Volley(es, draws, now) <==>
      exists i :: 0 <= i < |es| && Fires(draws, i) && s == Shot(es[i], now)
    decreases |es|
  {
    VolleyInOrder(es, draws, now);
    if es != [] {
      var init := es[..|es| - 1];
      VolleyMembers(init, draws, now);
      forall s | s in Volley(es, draws, now)
        ensures exists i :: 0 <= i < |es| && Fires(draws, i) && s == Shot(es[i], now)
      {
        if s in Volley(init, draws, now) {
          var i :| 0 <= i < |init| && Fires(draws, i) && s == Shot(init[i], now);
          assert es[i] == init[i];
        }
      }
      forall s | exists i :: 0 <= i < |es| && Fires(draws, i) && s == Shot(es[i], now)
        ensures s in Volley(es, draws, now)
      {
        var i :| 0 <= i < |es| && Fires(draws, i) && s == Shot(es[i], now);
        if i < |es| - 1 {
          assert es[i] == init[i];
        }
      }
    }
  }

  /** Enemies with distinct ids drop shots with distinct ids: shot ids are
      now + enemy id, and the volley keeps at most one shot per enemy. */
  lemma VolleyIdsDistinct(es: seq<Enemy>, draws: seq<real>, now: int)
    requires Unique(es, EnemyId)
    ensures var v := Volley(es, draws, now);
      forall i, j :: 0 <= i < j < |v| ==> v[i].id != v[j].id
  {
    var shots := Map(es, e => Shot(e, now));
    var key := (b: GameObject) => b.id;
    forall i, j | 0 <= i < j < |shots| ensures key(shots[i]) != key(shots[j]) {
      assert EnemyId(es[i]) != EnemyId(es[j]);
    }
    VolleyInOrder(es, draws, now);
    SubsequenceUnique(Volley(es, draws, now), shots, key);
  }

  /** With every draw below the rate every enemy fires, once, in order; with
      none below it nobody fires. */
  lemma {:induction false} VolleyExtremes(es: seq<Enemy>, draws: seq<real>, now: int)
    ensures (forall i :: 0 <= i < |es| ==> Fires(draws, i)) ==>
      Volley(es, draws, now) == seq(|es|, i requires 0 <= i < |es| => Shot(es[i], now))
    ensures (forall i :: 0 <= i < |es| ==> !Fires(draws, i)) ==> Volley(es, draws, now) == []
    decreases |es|
  {
    if es != [] {
      var init := es[..|es| - 1];
      VolleyExtremes(init, draws, now);
      assert forall i :: 0 <= i < |init| ==> init[i] == es[i];
    }
  }
}
