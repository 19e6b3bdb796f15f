// The player's ship: the clamped horizontal move of each frame and the
// space-bar volley of three bullets (App.tsx).
module Player {
  import opened Constants
  import opened Types

  /** Where the ship starts: centred horizontally, 20 above the bottom edge. */
  function StartPosition(): (p: GameObject)
    ensures p.x == GAME_WIDTH / 2.0 - PLAYER_WIDTH / 2.0
    ensures p.y + PLAYER_HEIGHT + 20.0 == GAME_HEIGHT
  {
    GameObject(0, 375.0, 560.0)
  }

  /** Largest x the ship's left edge may take. */
  const MAX_X: real := GAME_WIDTH - PLAYER_WIDTH

  /** The movement updater: left and right are read independently (both may
      apply), then x is clamped to [0, GAME_WIDTH - PLAYER_WIDTH]. */
  function MovePlayer(p: GameObject, left: bool, right: bool): (r: GameObject)
    ensures 0.0 <= r.x <= MAX_X
    ensures r.id == p.id && r.y == p.y
  {
    var afterLeft := if left then p.x - PLAYER_SPEED else p.x;
    var wanted := if right then afterLeft + PLAYER_SPEED else afterLeft;
    var capped := if wanted < MAX_X then wanted else MAX_X;
    var clamped := if capped > 0.0 then capped else 0.0;
    p.(x := clamped)
  }

  /** How each key combination moves a ship that is on the board: nowhere
      with neither or both keys, one step left or right otherwise, never
      past an edge. */
  lemma MovePlayerCases(p: GameObject, left: bool, right: bool)
    requires 0.0 <= p.x <= MAX_X
    ensures left == right ==> MovePlayer(p, left, right) == p
    ensures left && !right ==>
      MovePlayer(p, left, right).x == if p.x - PLAYER_SPEED > 0.0 then p.x - PLAYER_SPEED else 0.0
    ensures right && !left ==>
      MovePlayer(p, left, right).x == if p.x + PLAYER_SPEED < MAX_X then p.x + PLAYER_SPEED else MAX_X
  {
  }

  /** The bullet-list updater run on a space-bar press: while at most
      MAX_PLAYER_BULLETS - 3 bullets are live, three bullets are appended at
      the ship's left edge, centre and right edge; otherwise nothing changes. */
  function FireVolley(prev: seq<GameObject>, p: GameObject, now: int): (r: seq<GameObject>)
    ensures |prev| <= MAX_PLAYER_BULLETS - 3 <==> |r| == |prev| + 3
    ensures |prev| > MAX_PLAYER_BULLETS - 3 ==> r == prev
    ensures r[..|prev|] == prev
    ensures |prev| <= MAX_PLAYER_BULLETS ==> |r| <= MAX_PLAYER_BULLETS
    ensures |r| == |prev| + 3 ==>
      && r[|prev|] == GameObject(now, p.x, p.y)
      && r[|prev| + 1] == GameObject(now + 1, p.x + PLAYER_WIDTH / 2.0 - 3.0, p.y)
      && r[|prev| + 2] == GameObject(now + 2, p.x + PLAYER_WIDTH - 6.0, p.y)
  {
    if |prev| <= MAX_PLAYER_BULLETS - 3 then
      prev + [GameObject(now, p.x, p.y),
              GameObject(now + 1, p.x + PLAYER_WIDTH / 2.0 - 3.0, p.y),
              GameObject(now + 2, p.x + PLAYER_WIDTH - 6.0, p.y)]
    else
      prev
  }

  /** The three bullets of one volley have distinct ids and start inside the
      ship's width. */
  lemma VolleyShape(prev: seq<GameObject>, p: GameObject, now: int)
    requires |prev| <= MAX_PLAYER_BULLETS - 3
    ensures var r := FireVolley(prev, p, now);
      && (forall i, j :: |prev| <= i < j < |r| ==> r[i].id != r[j].id)
      && (forall i :: |prev| <= i < |r| ==> p.x <= r[i].x < p.x + PLAYER_WIDTH && r[i].y == p.y)
  {
  }
}
