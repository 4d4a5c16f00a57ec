/** The game's records: the enemy and powerup tables, the player, bullets,
    enemies, powerups, and the whole state snapshot with its invariant. */
module Entities {
  import opened Prelude
  import opened Geometry

  const FieldHeight := 600
  const BulletSize := 4
  const PowerupSize := 15
  const StartX := 200
  const StartY := 500
  const MaxPowerLevel := 3
  const MaxDifficulty := 5

  datatype EnemyKind = Normal | Fast | Tank

  /** One row of the enemy table: what every enemy of a kind is spawned with. */
  datatype EnemyStats = EnemyStats(width: int, height: int, speed: int, points: int, hp: int)

  function Stats(kind: EnemyKind): (t: EnemyStats)
    ensures t.width > 0 && t.height > 0 && t.speed > 0 && t.points > 0 && t.hp >= 1
  {
    match kind
    case Normal => EnemyStats(20, 20, 2, 100, 1)
    case Fast => EnemyStats(15, 15, 4, 150, 1)
    case Tank => EnemyStats(30, 30, 1, 200, 3)
  }

  datatype PowerupKind = Multishot | Speedup | Shield

  /** The player. `shield` is absent from the initial record, which
      JavaScript reads as false. */
  datatype Player = Player(x: int, y: int, powerLevel: int, shield: bool)
  {
    /** The player record has no size, so the collision test gives it its default box. */
    function Hitbox(): Box
    {
      Box(x, y, None, None)
    }
  }

  /** A bullet; every bullet is created 4 by 4. */
  datatype Bullet = Bullet(x: int, y: int)
  {
    function Hitbox(): Box
    {
      Box(x, y, Some(BulletSize), Some(BulletSize))
    }
  }

  /** An enemy. Size, speed and points are copied from its kind's table
      row when it spawns and never written again, so they are read from
      the table here; only the hit points change. */
  datatype Enemy = Enemy(x: int, y: int, kind: EnemyKind, hp: int)
  {
    function Speed(): int
    {
      Stats(kind).speed
    }

    function Points(): int
    {
      Stats(kind).points
    }

    function Bounds(): Rect
    {
      Rect(x, y, Stats(kind).width, Stats(kind).height)
    }
  }

  /** A powerup; every powerup is created 15 by 15. */
  datatype Powerup = Powerup(x: int, y: int, kind: PowerupKind)
  {
    function Bounds(): Rect
    {
      Rect(x, y, PowerupSize, PowerupSize)
    }
  }

  /** The whole snapshot the frame loop and the click handler replace. */
  datatype GameState = GameState(
    player: Player,
    bullets: seq<Bullet>,
    enemies: seq<Enemy>,
    powerups: seq<Powerup>,
    score: int,
    highScore: int,
    gameOver: bool,
    difficulty: int)

  function PointsOf(e: Enemy): int
  {
    e.Points()
  }

  function HpOf(e: Enemy): int
  {
    e.hp
  }

  /** The points all of `es` are worth together. */
  function TotalPoints(es: seq<Enemy>): int
  {
    SumOf(es, PointsOf)
  }

  /** The hit points `es` have left together. */
  function TotalHp(es: seq<Enemy>): int
  {
    SumOf(es, HpOf)
  }

  /** Every enemy still in play has at least one hit point. */
  predicate AllAlive(es: seq<Enemy>)
  {
    forall e :: e in es ==> e.hp >= 1
  }

  /** Nothing is kept outside the field: bullets are below its top edge,
      enemies and powerups above its bottom edge. */
  predicate InField(s: GameState)
  {
    && (forall b :: b in s.bullets ==> b.y > 0)
    && (forall e :: e in s.enemies ==> e.y < FieldHeight)
    && (forall u :: u in s.powerups ==> u.y < FieldHeight)
  }

  /** The invariant every reachable state keeps. */
  predicate Valid(s: GameState)
  {
    && 1 <= s.player.powerLevel <= MaxPowerLevel
    && s.player.y == StartY
    && 1 <= s.difficulty <= MaxDifficulty
    && 0 <= s.score <= s.highScore
    && AllAlive(s.enemies)
    && InField(s)
  }

  /** The state a session starts in, and the one a restart returns to,
      carrying over the high score. */
  function Initial(highScore: int): (s: GameState)
    ensures highScore >= 0 ==> Valid(s)
    ensures s.highScore == highScore && s.score == 0 && !s.gameOver
    ensures s.player == Player(StartX, StartY, 1, false)
    ensures s.bullets == [] && s.enemies == [] && s.powerups == [] && s.difficulty == 1
  {
    GameState(Player(StartX, StartY, 1, false), [], [], [], 0, highScore, false, 1)
  }
}
