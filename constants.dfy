// Board geometry, speeds, rates and caps of the shooter (constants.js).
// Lengths and speeds are reals because the enemy speeds are fractional;
// counts are naturals.
module Constants {
  const GAME_WIDTH: real := 800.0
  const GAME_HEIGHT: real := 600.0

  const PLAYER_WIDTH: real := 50.0
  const PLAYER_HEIGHT: real := 20.0
  const PLAYER_SPEED: real := 7.0

  const BULLET_SPEED: real := 15.0
  const MAX_PLAYER_BULLETS: nat := 24

  const ENEMY_WIDTH: real := 40.0
  const ENEMY_HEIGHT: real := 30.0
  const ENEMY_ROWS: nat := 4
  const ENEMY_COLS: nat := 10
  const ENEMY_GAP: real := 20.0
  const ENEMY_SPEED: real := 0.05
  const ENEMY_VERTICAL_SPEED: real := 0.5
  const ENEMY_FIRE_RATE: real := 0.00008
}
