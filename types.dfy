// The entities of the game (types.ts): every object on the board has an id
// and a position; an enemy also carries its kind, of which there is one.
module Types {
  datatype GameObject = GameObject(id: int, x: real, y: real)

  datatype EnemyKind = Default

  datatype Enemy = Enemy(id: int, x: real, y: real, kind: EnemyKind)

  function EnemyId(e: Enemy): int { e.id }
}
