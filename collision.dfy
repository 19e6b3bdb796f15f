// Hit tests of the game step (App.tsx): the rectangle overlap, the
// bullet-versus-enemy pass that splices both arrays while iterating them,
// and the two tests that end the game.
module Collision {
  import opened Constants
  import opened Types
  import opened Seqs

  /** An axis-aligned box: left edge x, top edge y, width w, height h. */
  datatype Box = Box(x: real, y: real, w: real, h: real)

  /** Strict overlap of two boxes; boxes that only touch do not overlap. */
  predicate Overlap(a: Box, b: Box) {
    a.x < b.x + b.w && a.x + a.w > b.x && a.y < b.y + b.h && a.y + a.h > b.y
  }

  /** A player bullet is 6 wide and 15 tall for hit tests. */
  function PlayerBulletBox(b: GameObject): Box { Box(b.x, b.y, 6.0, 15.0) }
  /** An enemy bullet is 4 wide and 10 tall for hit tests. */
  function EnemyBulletBox(b: GameObject): Box { Box(b.x, b.y, 4.0, 10.0) }
  function EnemyBox(e: Enemy): Box { Box(e.x, e.y, ENEMY_WIDTH, ENEMY_HEIGHT) }
  function PlayerBox(p: GameObject): Box { Box(p.x, p.y, PLAYER_WIDTH, PLAYER_HEIGHT) }

  predicate BulletHitsEnemy(b: GameObject, e: Enemy) {
    Overlap(PlayerBulletBox(b), EnemyBox(e))
  }

  /** Some pair of a bullet and an enemy overlaps. */
  predicate AnyHit(bullets: seq<GameObject>, enemies: seq<Enemy>) {
    exists i, j :: 0 <= i < |bullets| && 0 <= j < |enemies| && BulletHitsEnemy(bullets[i], enemies[j])
  }

  /** The three values the collision pass works on. */
  datatype Pass = Pass(bullets: seq<GameObject>, enemies: seq<Enemy>, score: int)

  /** What a match does: splice(bIndex, 1) on the bullets (nothing when the
      index is past the end), splice(eIndex, 1) on the enemies, ten points. */
  function Match(st: Pass, bIndex: nat, eIndex: nat): Pass {
    Pass(RemoveAt(st.bullets, bIndex), RemoveAt(st.enemies, eIndex), st.score + 10)
  }

  /** The inner forEach over the enemies for one bullet, from index eIndex on.
      eLen is the length the array had when the loop began; an index no longer
      present is skipped, and the bullet value stays the one read at the start. */
  function InnerFrom(bullet: GameObject, bIndex: nat, eIndex: nat, eLen: nat, st: Pass): Pass
    decreases eLen - eIndex
  {
    if eIndex >= eLen then st
    else if eIndex < |st.enemies| && BulletHitsEnemy(bullet, st.enemies[eIndex]) then
      InnerFrom(bullet, bIndex, eIndex + 1, eLen, Match(st, bIndex, eIndex))
    else
      InnerFrom(bullet, bIndex, eIndex + 1, eLen, st)
  }

  /** The outer forEach over the bullets, from index bIndex on, with the
      length bLen fixed when the loop began. */
  function OuterFrom(bIndex: nat, bLen: nat, st: Pass): Pass
    decreases bLen - bIndex
  {
    if bIndex >= bLen then st
    else if bIndex < |st.bullets| then
      OuterFrom(bIndex + 1, bLen, InnerFrom(st.bullets[bIndex], bIndex, 0, |st.enemies|, st))
    else
      OuterFrom(bIndex + 1, bLen, st)
  }

  /** The whole pass over copies of the frame's starting bullets and enemies. */
  function Collide(bullets: seq<GameObject>, enemies: seq<Enemy>): Pass {
    OuterFrom(0, |bullets|, Pass(bullets, enemies, 0))
  }

  /** The collision pass as the game runs it: nested loops over the two
      arrays, splicing both on every match and adding ten points. */
  method CollisionPass(bullets: seq<GameObject>, enemies: seq<Enemy>)
    returns (newBullets: seq<GameObject>, newEnemies: seq<Enemy>, scoreToAdd: int)
    ensures Pass(newBullets, newEnemies, scoreToAdd) == Collide(bullets, enemies)
  {
    newBullets, newEnemies, scoreToAdd := bullets, enemies, 0;
    var bLen := |newBullets|;
    var bIndex := 0;
    while bIndex < bLen
      invariant 0 <= bIndex <= bLen
      invariant OuterFrom(bIndex, bLen, Pass(newBullets, newEnemies, scoreToAdd)) == Collide(bullets, enemies)
    {
      if bIndex < |newBullets| {
        var bullet := newBullets[bIndex];
        ghost var before := Pass(newBullets, newEnemies, scoreToAdd);
        var eLen := |newEnemies|;
        var eIndex := 0;
        while eIndex < eLen
          invariant 0 <= eIndex <= eLen
          invariant InnerFrom(bullet, bIndex, eIndex, eLen, Pass(newBullets, newEnemies, scoreToAdd))
                 == InnerFrom(bullet, bIndex, 0, eLen, before)
        {
          if eIndex < |newEnemies| {
            var enemy := newEnemies[eIndex];
            if BulletHitsEnemy(bullet, enemy) {
              newBullets := RemoveAt(newBullets, bIndex);
              newEnemies := RemoveAt(newEnemies, eIndex);
              scoreToAdd := scoreToAdd + 10;
            }
          }
          eIndex := eIndex + 1;
        }
      }
      bIndex := bIndex + 1;
    }
  }

  /** Accounting for one run of the inner loop: every match removes exactly
      one enemy and adds ten points; both arrays only lose elements. */
  lemma {:induction false} InnerAccounting(bullet: GameObject, bIndex: nat, eIndex: nat, eLen: nat, st: Pass)
    ensures var r := InnerFrom(bullet, bIndex, eIndex, eLen, st);
      && r.score - st.score == 10 * (|st.enemies| - |r.enemies|)
      && IsSubsequence(r.enemies, st.enemies)
      && IsSubsequence(r.bullets, st.bullets)
    decreases eLen - eIndex
  {
    if eIndex >= eLen {
      SubsequenceRefl(st.enemies);
      SubsequenceRefl(st.bullets);
    } else if eIndex < |st.enemies| && BulletHitsEnemy(bullet, st.enemies[eIndex]) {
      var next := Match(st, bIndex, eIndex);
      var r := InnerFrom(bullet, bIndex, eIndex + 1, eLen, next);
      InnerAccounting(bullet, bIndex, eIndex + 1, eLen, next);
      RemoveAtSubsequence(st.enemies, eIndex);
      RemoveAtSubsequence(st.bullets, bIndex);
      SubsequenceTrans(r.enemies, next.enemies, st.enemies);
      SubsequenceTrans(r.bullets, next.bullets, st.bullets);
    } else {
      InnerAccounting(bullet, bIndex, eIndex + 1, eLen, st);
    }
  }

  lemma {:induction false} OuterAccounting(bIndex: nat, bLen: nat, st: Pass)
    ensures var r := OuterFrom(bIndex, bLen, st);
      && r.score - st.score == 10 * (|st.enemies| - |r.enemies|)
      && IsSubsequence(r.enemies, st.enemies)
      && IsSubsequence(r.bullets, st.bullets)
    decreases bLen - bIndex
  {
    if bIndex >= bLen {
      SubsequenceRefl(st.enemies);
      SubsequenceRefl(st.bullets);
    } else if bIndex < |st.bullets| {
      var mid := InnerFrom(st.bullets[bIndex], bIndex, 0, |st.enemies|, st);
      var r := OuterFrom(bIndex + 1, bLen, mid);
      InnerAccounting(st.bullets[bIndex], bIndex, 0, |st.enemies|, st);
      OuterAccounting(bIndex + 1, bLen, mid);
      SubsequenceTrans(r.enemies, mid.enemies, st.enemies);
      SubsequenceTrans(r.bullets, mid.bullets, st.bullets);
    } else {
      OuterAccounting(bIndex + 1, bLen, st);
    }
  }

  /** Score accounting of the pass: ten points per removed enemy; the
      surviving enemies and bullets are subsequences of the starting ones. */
  lemma CollideAccounting(bullets: seq<GameObject>, enemies: seq<Enemy>)
    ensures var r := Collide(bullets, enemies);
      && r.score == 10 * (|enemies| - |r.enemies|)
      && r.score >= 0
      && IsSubsequence(r.enemies, enemies)
      && IsSubsequence(r.bullets, bullets)
      && |r.bullets| <= |bullets|
  {
    var r := Collide(bullets, enemies);
    OuterAccounting(0, |bullets|, Pass(bullets, enemies, 0));
    SubsequenceLength(r.enemies, enemies);
    SubsequenceLength(r.bullets, bullets);
  }

  /** The inner loop never removes an enemy its bullet does not overlap. */
  lemma {:induction false} InnerSpares(bullet: GameObject, bIndex: nat, eIndex: nat, eLen: nat, st: Pass, e: Enemy)
    requires !BulletHitsEnemy(bullet, e)
    ensures multiset(InnerFrom(bullet, bIndex, eIndex, eLen, st).enemies)[e] == multiset(st.enemies)[e]
    decreases eLen - eIndex
  {
    if eIndex < eLen {
      if eIndex < |st.enemies| && BulletHitsEnemy(bullet, st.enemies[eIndex]) {
        RemoveAtCounts(st.enemies, eIndex);
        InnerSpares(bullet, bIndex, eIndex + 1, eLen, Match(st, bIndex, eIndex), e);
      } else {
        InnerSpares(bullet, bIndex, eIndex + 1, eLen, st, e);
      }
    }
  }

  /** The outer loop never removes an enemy that no remaining bullet overlaps;
      the bullets it tests later are among those it started with. */
  lemma {:induction false} OuterSpares(bIndex: nat, bLen: nat, st: Pass, e: Enemy)
    requires forall b :: b in st.bullets ==> !BulletHitsEnemy(b, e)
    ensures multiset(OuterFrom(bIndex, bLen, st).enemies)[e] == multiset(st.enemies)[e]
    decreases bLen - bIndex
  {
    if bIndex < bLen {
      if bIndex < |st.bullets| {
        var mid := InnerFrom(st.bullets[bIndex], bIndex, 0, |st.enemies|, st);
        InnerSpares(st.bullets[bIndex], bIndex, 0, |st.enemies|, st, e);
        InnerAccounting(st.bullets[bIndex], bIndex, 0, |st.enemies|, st);
        forall b | b in mid.bullets ensures !BulletHitsEnemy(b, e) {
          SubsequenceMember(mid.bullets, st.bullets, b);
        }
        OuterSpares(bIndex + 1, bLen, mid, e);
      } else {
        OuterSpares(bIndex + 1, bLen, st, e);
      }
    }
  }

  /** Only hit enemies die: an enemy that no bullet of the frame overlaps
      keeps every copy it had. Every removed enemy was therefore overlapped
      by some bullet; the converse fails, as OneBulletTwoEnemies shows. */
  lemma CollideSparesUnhit(bullets: seq<GameObject>, enemies: seq<Enemy>)
    ensures forall e :: (forall i :: 0 <= i < |bullets| ==> !BulletHitsEnemy(bullets[i], e)) ==>
      multiset(Collide(bullets, enemies).enemies)[e] == multiset(enemies)[e]
  {
    forall e | forall i :: 0 <= i < |bullets| ==> !BulletHitsEnemy(bullets[i], e)
      ensures multiset(Collide(bullets, enemies).enemies)[e] == multiset(enemies)[e]
    {
      OuterSpares(0, |bullets|, Pass(bullets, enemies, 0), e);
    }
  }

  /** The inner loop scores nothing exactly when the bullet overlaps none of
      the enemies it visits, and then it changes nothing. */
  lemma {:induction false} InnerQuiet(bullet: GameObject, bIndex: nat, eIndex: nat, eLen: nat, st: Pass)
    ensures var r := InnerFrom(bullet, bIndex, eIndex, eLen, st);
      && r.score >= st.score
      && (r.score == st.score <==>
            forall j :: eIndex <= j < eLen && j < |st.enemies| ==> !BulletHitsEnemy(bullet, st.enemies[j]))
      && (r.score == st.score ==> r == st)
    decreases eLen - eIndex
  {
    if eIndex < eLen {
      if eIndex < |st.enemies| && BulletHitsEnemy(bullet, st.enemies[eIndex]) {
        InnerQuiet(bullet, bIndex, eIndex + 1, eLen, Match(st, bIndex, eIndex));
      } else {
        InnerQuiet(bullet, bIndex, eIndex + 1, eLen, st);
      }
    }
  }

  lemma {:induction false} OuterQuiet(bIndex: nat, bLen: nat, st: Pass)
    ensures var r := OuterFrom(bIndex, bLen, st);
      && r.score >= st.score
      && (r.score == st.score <==>
            forall i, j :: bIndex <= i < bLen && i < |st.bullets| && 0 <= j < |st.enemies| ==>
              !BulletHitsEnemy(st.bullets[i], st.enemies[j]))
      && (r.score == st.score ==> r == st)
    decreases bLen - bIndex
  {
    if bIndex < bLen {
      if bIndex < |st.bullets| {
        var mid := InnerFrom(st.bullets[bIndex], bIndex, 0, |st.enemies|, st);
        InnerQuiet(st.bullets[bIndex], bIndex, 0, |st.enemies|, st);
        OuterQuiet(bIndex + 1, bLen, mid);
      } else {
        OuterQuiet(bIndex + 1, bLen, st);
      }
    }
  }

  /** The pass scores nothing exactly when no bullet overlaps any enemy, and
      in that case it hands back the arrays it was given. */
  lemma CollideQuiet(bullets: seq<GameObject>, enemies: seq<Enemy>)
    ensures Collide(bullets, enemies).score == 0 <==> !AnyHit(bullets, enemies)
    ensures !AnyHit(bullets, enemies) ==> Collide(bullets, enemies) == Pass(bullets, enemies, 0)
  {
    OuterQuiet(0, |bullets|, Pass(bullets, enemies, 0));
  }

  /** A bullet and an enemy at the same place: one pass removes both and
      scores ten. */
  lemma ExactOverlapScores(b: GameObject, e: Enemy)
    requires b.x == e.x && b.y == e.y
    ensures Collide([b], [e]) == Pass([], [], 10)
  {
    var st := Pass([b], [e], 0);
    assert InnerFrom(b, 0, 1, 1, Match(st, 0, 0)) == Pass([], [], 10);
  }

  /** As written, one bullet can take out two enemies in one pass, while an
      enemy it overlaps survives: after the first splice the enemy behind the
      hit one shifts into the index just visited and is never tested, and the
      second match splices out the next bullet, which hit nothing. */
  lemma OneBulletTwoEnemies()
    ensures var b1 := GameObject(1, 100.0, 100.0);
      var b2 := GameObject(2, 500.0, 500.0);
      var hit1 := Enemy(10, 100.0, 100.0, Default);
      var skipped := Enemy(11, 100.0, 100.0, Default);
      var hit2 := Enemy(12, 100.0, 100.0, Default);
      Collide([b1, b2], [hit1, skipped, hit2]) == Pass([], [skipped], 20)
  {
    var b1 := GameObject(1, 100.0, 100.0);
    var b2 := GameObject(2, 500.0, 500.0);
    var hit1 := Enemy(10, 100.0, 100.0, Default);
    var skipped := Enemy(11, 100.0, 100.0, Default);
    var hit2 := Enemy(12, 100.0, 100.0, Default);
    var st0 := Pass([b1, b2], [hit1, skipped, hit2], 0);
    var st1 := Pass([b2], [skipped, hit2], 10);
    var st2 := Pass([], [skipped], 20);
    assert Match(st0, 0, 0) == st1;
    assert Match(st1, 0, 1) == st2;
    assert InnerFrom(b1, 0, 2, 3, st2) == st2;
    assert InnerFrom(b1, 0, 1, 3, st1) == st2;
    assert InnerFrom(b1, 0, 0, 3, st0) == st2;
    assert OuterFrom(1, 2, st2) == st2;
  }

  /** A lone bullet over two enemies: the second match splices index 0 of a
      bullet array that is already empty, which removes nothing, yet it still
      removes an enemy and scores. Two enemies go for one bullet. */
  lemma LoneBulletSplicesNothing()
    ensures var b := GameObject(1, 100.0, 100.0);
      var hit1 := Enemy(10, 100.0, 100.0, Default);
      var skipped := Enemy(11, 100.0, 100.0, Default);
      var hit2 := Enemy(12, 100.0, 100.0, Default);
      Collide([b], [hit1, skipped, hit2]) == Pass([], [skipped], 20)
  {
    var b := GameObject(1, 100.0, 100.0);
    var hit1 := Enemy(10, 100.0, 100.0, Default);
    var skipped := Enemy(11, 100.0, 100.0, Default);
    var hit2 := Enemy(12, 100.0, 100.0, Default);
    var st0 := Pass([b], [hit1, skipped, hit2], 0);
    var st1 := Pass([], [skipped, hit2], 10);
    var st2 := Pass([], [skipped], 20);
    assert Match(st0, 0, 0) == st1;
    assert RemoveAt(st1.bullets, 0) == [];
    assert Match(st1, 0, 1) == st2;
    assert InnerFrom(b, 0, 2, 3, st2) == st2;
    assert InnerFrom(b, 0, 1, 3, st1) == st2;
    assert InnerFrom(b, 0, 0, 3, st0) == st2;
  }

  /** Enemy bullet against the player's ship. */
  predicate ShotHitsPlayer(b: GameObject, p: GameObject) {
    Overlap(EnemyBulletBox(b), PlayerBox(p))
  }

  /** An enemy that has reached the bottom edge or overlaps the ship. */
  predicate EnemyReachesPlayer(e: Enemy, p: GameObject) {
    e.y + ENEMY_HEIGHT > GAME_HEIGHT || Overlap(EnemyBox(e), PlayerBox(p))
  }

  predicate PlayerShot(enemyBullets: seq<GameObject>, p: GameObject) {
    exists i :: 0 <= i < |enemyBullets| && ShotHitsPlayer(enemyBullets[i], p)
  }

  predicate Invaded(enemies: seq<Enemy>, p: GameObject) {
    exists i :: 0 <= i < |enemies| && EnemyReachesPlayer(enemies[i], p)
  }

  /** The first game-over pass: walks the frame's enemy bullets and reports
      whether any of them overlaps the ship. */
  method CheckPlayerShot(enemyBullets: seq<GameObject>, p: GameObject) returns (hit: bool)
    ensures hit <==> PlayerShot(enemyBullets, p)
  {
    hit := false;
    var i := 0;
    while i < |enemyBullets|
      invariant 0 <= i <= |enemyBullets|
      invariant hit <==> exists j :: 0 <= j < i && ShotHitsPlayer(enemyBullets[j], p)
    {
      if ShotHitsPlayer(enemyBullets[i], p) {
        hit := true;
      }
      i := i + 1;
    }
  }

  /** The second game-over pass: walks the frame's enemies and reports whether
      any has reached the bottom edge or the ship. */
  method CheckInvaded(enemies: seq<Enemy>, p: GameObject) returns (hit: bool)
    ensures hit <==> Invaded(enemies, p)
  {
    hit := false;
    var i := 0;
    while i < |enemies|
      invariant 0 <= i <= |enemies|
      invariant hit <==> exists j :: 0 <= j < i && EnemyReachesPlayer(enemies[j], p)
    {
      if EnemyReachesPlayer(enemies[i], p) {
        hit := true;
      }
      i := i + 1;
    }
  }
}
