/** Spawning. The frame loop decides by timers whether to spawn, draws the
    kind and the x position with `Math.random()`, and appends the new
    entity at the top of the field; here the draws are parameters. */
module Spawning {
  import opened Entities

  /** The kind two draws in `[0, 1)` select: a first draw above 0.7 makes a
      special enemy, and then a second draw above 0.5 makes it fast and
      otherwise a tank. */
  function EnemyKindFor(first: real, second: real): (k: EnemyKind)
    ensures k == Normal <==> first <= 0.7
    ensures k == Fast <==> first > 0.7 && second > 0.5
    ensures k == Tank <==> first > 0.7 && second <= 0.5
  {
    if first > 0.7 then (if second > 0.5 then Fast else Tank) else Normal
  }

  /** The kind at index `floor(draw * 3)` of the table's key order
      multishot, speedup, shield. */
  function PowerupKindFor(draw: real): (k: PowerupKind)
    requires 0.0 <= draw < 1.0
    ensures k == Multishot <==> draw * 3.0 < 1.0
    ensures k == Speedup <==> 1.0 <= draw * 3.0 < 2.0
    ensures k == Shield <==> 2.0 <= draw * 3.0
  {
    var index := (draw * 3.0).Floor;
    if index == 0 then Multishot else if index == 1 then Speedup else Shield
  }

  /** A new enemy of `kind` at `(x, 0)` with its kind's full hit points, appended last. */
  function SpawnEnemy(s: GameState, kind: EnemyKind, x: int): (r: GameState)
    ensures |r.enemies| == |s.enemies| + 1 && r.enemies[..|s.enemies|] == s.enemies
    ensures r.enemies[|s.enemies|].y == 0 && r.enemies[|s.enemies|].hp == Stats(kind).hp
    ensures r.enemies[|s.enemies|].kind == kind && r.enemies[|s.enemies|].x == x
    ensures r.player == s.player && r.bullets == s.bullets && r.powerups == s.powerups
    ensures r.score == s.score && r.highScore == s.highScore && r.gameOver == s.gameOver && r.difficulty == s.difficulty
    ensures Valid(s) ==> Valid(r)
  {
    s.(enemies := s.enemies + [Enemy(x, 0, kind, Stats(kind).hp)])
  }

  /** A new powerup of `kind` at `(x, 0)`, appended last. */
  function SpawnPowerup(s: GameState, kind: PowerupKind, x: int): (r: GameState)
    ensures |r.powerups| == |s.powerups| + 1 && r.powerups[..|s.powerups|] == s.powerups
    ensures r.powerups[|s.powerups|] == Powerup(x, 0, kind)
    ensures r.player == s.player && r.bullets == s.bullets && r.enemies == s.enemies
    ensures r.score == s.score && r.highScore == s.highScore && r.gameOver == s.gameOver && r.difficulty == s.difficulty
    ensures Valid(s) ==> Valid(r)
  {
    s.(powerups := s.powerups + [Powerup(x, 0, kind)])
  }
}
