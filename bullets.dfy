// Per-frame bullet advance (App.tsx): player bullets move up and leave at
// the top edge, enemy bullets move down and leave at the bottom edge. Each
// is a `map` followed by a `filter` over the live list.
module Bullets {
  import opened Constants
  import opened Types
  import opened Seqs

  function MoveUp(b: GameObject): GameObject { b.(y := b.y - BULLET_SPEED) }
  predicate BelowTop(b: GameObject) { b.y > 0.0 }

  function MoveDown(b: GameObject): GameObject { b.(y := b.y + BULLET_SPEED) }
  predicate AboveBottom(b: GameObject) { b.y < GAME_HEIGHT }

  function AdvancePlayerBullets(bs: seq<GameObject>): seq<GameObject> {
    Filter(Map(bs, MoveUp), BelowTop)
  }

  function AdvanceEnemyBullets(bs: seq<GameObject>): seq<GameObject> {
    Filter(Map(bs, MoveDown), AboveBottom)
  }

  /** Every player bullet moves up by BULLET_SPEED and survives exactly when
      its new y is positive; survivors keep their order and nothing is
      added. */
  lemma {:induction false} PlayerBulletsAdvance(bs: seq<GameObject>)
    ensures var r := AdvancePlayerBullets(bs);
      && |r| <= |bs|
      && IsSubsequence(r, Map(bs, MoveUp))
      && (forall i :: 0 <= i < |bs| ==>
            (bs[i].(y := bs[i].y - BULLET_SPEED) in r <==> bs[i].y - BULLET_SPEED > 0.0))
      && (forall i :: 0 <= i < |r| ==>
            r[i].y > 0.0 && exists k :: 0 <= k < |bs| && r[i] == bs[k].(y := bs[k].y - BULLET_SPEED))
  {
    var moved := Map(bs, MoveUp);
    var r := Filter(moved, BelowTop);
    FilterSubsequence(moved, BelowTop);
    forall i | 0 <= i < |bs|
      ensures bs[i].(y := bs[i].y - BULLET_SPEED) in r <==> BelowTop(moved[i])
    {
      assert moved[i] == bs[i].(y := bs[i].y - BULLET_SPEED);
    }
    forall i | 0 <= i < |r|
      ensures r[i].y > 0.0 && exists k :: 0 <= k < |bs| && r[i] == bs[k].(y := bs[k].y - BULLET_SPEED)
    {
      assert r[i] in moved && BelowTop(r[i]);
      var k :| 0 <= k < |moved| && moved[k] == r[i];
      assert r[i] == bs[k].(y := bs[k].y - BULLET_SPEED);
    }
  }

  /** Every enemy bullet moves down by BULLET_SPEED and survives exactly when
      its new y is below GAME_HEIGHT; survivors keep their order and nothing
      is added. */
  lemma {:induction false} EnemyBulletsAdvance(bs: seq<GameObject>)
    ensures var r := AdvanceEnemyBullets(bs);
      && |r| <= |bs|
      && IsSubsequence(r, Map(bs, MoveDown))
      && (forall i :: 0 <= i < |bs| ==>
            (bs[i].(y := bs[i].y + BULLET_SPEED) in r <==> bs[i].y + BULLET_SPEED < GAME_HEIGHT))
      && (forall i :: 0 <= i < |r| ==>
            r[i].y < GAME_HEIGHT && exists k :: 0 <= k < |bs| && r[i] == bs[k].(y := bs[k].y + BULLET_SPEED))
  {
    var moved := Map(bs, MoveDown);
    var r := Filter(moved, AboveBottom);
    FilterSubsequence(moved, AboveBottom);
    forall i | 0 <= i < |bs|
      ensures bs[i].(y := bs[i].y + BULLET_SPEED) in r <==> AboveBottom(moved[i])
    {
      assert moved[i] == bs[i].(y := bs[i].y + BULLET_SPEED);
    }
    forall i | 0 <= i < |r|
      ensures r[i].y < GAME_HEIGHT && exists k :: 0 <= k < |bs| && r[i] == bs[k].(y := bs[k].y + BULLET_SPEED)
    {
      assert r[i] in moved && AboveBottom(r[i]);
      var k :| 0 <= k < |moved| && moved[k] == r[i];
      assert r[i] == bs[k].(y := bs[k].y + BULLET_SPEED);
    }
  }

  /** Counting copies: after the advance, each moved position that is still
      on the board appears exactly as often as it did among the moved
      bullets, and a position off the board not at all. */
  lemma PlayerBulletsCounts(bs: seq<GameObject>)
    ensures forall x :: multiset(AdvancePlayerBullets(bs))[x] == (if x.y > 0.0 then multiset(Map(bs, MoveUp))[x] else 0)
  {
    FilterCounts(Map(bs, MoveUp), BelowTop);
  }

  lemma EnemyBulletsCounts(bs: seq<GameObject>)
    ensures forall x :: multiset(AdvanceEnemyBullets(bs))[x] == (if x.y < GAME_HEIGHT then multiset(Map(bs, MoveDown))[x] else 0)
  {
    FilterCounts(Map(bs, MoveDown), AboveBottom);
  }

  /** n frames of player-bullet movement with nothing else happening. */
  function AdvanceFrames(bs: seq<GameObject>, n: nat): seq<GameObject>
    decreases n
  {
    if n == 0 then bs else AdvanceFrames(AdvancePlayerBullets(bs), n - 1)
  }

  lemma {:induction false} NoBulletsStayNone(n: nat)
    ensures AdvanceFrames([], n) == []
    decreases n
  {
    if n > 0 {
      assert AdvancePlayerBullets([]) == [];
      NoBulletsStayNone(n - 1);
    }
  }

  /** Lifetime of a lone live bullet: after n frames it is still on the board,
      n * BULLET_SPEED higher, exactly when y0 - n * BULLET_SPEED > 0; so it
      leaves after ceil(y0 / BULLET_SPEED) frames. */
  lemma {:induction false} BulletLifetime(b: GameObject, n: nat)
    requires b.y > 0.0
    ensures AdvanceFrames([b], n) ==
      if b.y - (n as real) * BULLET_SPEED > 0.0 then [b.(y := b.y - (n as real) * BULLET_SPEED)] else []
    decreases n
  {
    if n > 0 {
      var up := MoveUp(b);
      assert Map([b], MoveUp) == [up];
      assert AdvancePlayerBullets([b]) == if up.y > 0.0 then [up] else [];
      if up.y > 0.0 {
        BulletLifetime(up, n - 1);
        assert up.y - ((n - 1) as real) * BULLET_SPEED == b.y - (n as real) * BULLET_SPEED;
        assert up.(y := up.y - ((n - 1) as real) * BULLET_SPEED) == b.(y := b.y - (n as real) * BULLET_SPEED);
      } else {
        NoBulletsStayNone(n - 1);
        assert b.y - (n as real) * BULLET_SPEED <= up.y;
      }
    }
  }
}
