/** The click handler: fire a volley and move the player to the click, or
    restart once the game is over. The click's x is taken already
    translated into field coordinates. */
module Input {
  import opened Entities

  /** New bullets start this far above the player. */
  const MuzzleOffset := 20
  /** Horizontal spacing between the bullets of one volley. */
  const Spread := 10

  /** Bullet `b` sits `d` spreads to the right of `x` at height `y`. */
  predicate FiredAt(v: seq<Bullet>, x: int, y: int, d: int)
  {
    Bullet(x + Spread * d, y) in v
  }

  /** The bullets one click fires at `x` from height `y`: the centre one from
      power level 1, the pair at 10 either side from level 2, and the pair
      at 20 either side from level 3, in that order. */
  function Volley(x: int, y: int, powerLevel: int): (v: seq<Bullet>)
    ensures forall b :: b in v ==> b.y == y && x - 2 * Spread <= b.x <= x + 2 * Spread
    ensures powerLevel < 1 ==> |v| == 0
    ensures 1 <= powerLevel <= MaxPowerLevel ==> |v| == 2 * powerLevel - 1
    ensures powerLevel >= MaxPowerLevel ==> |v| == 5
    ensures 1 <= powerLevel <= MaxPowerLevel ==>
              forall d :: -(powerLevel - 1) <= d <= powerLevel - 1 <==> FiredAt(v, x, y, d)
    ensures forall d :: FiredAt(v, x, y, d) ==> FiredAt(v, x, y, -d)
    ensures forall k, m :: 0 <= k < m < |v| ==> v[k] != v[m]
  {
    (if powerLevel >= 1 then [Bullet(x, y)] else [])
    + (if powerLevel >= 2 then [Bullet(x - Spread, y), Bullet(x + Spread, y)] else [])
    + (if powerLevel >= 3 then [Bullet(x - 2 * Spread, y), Bullet(x + 2 * Spread, y)] else [])
  }

  /** The exact volleys of levels 1, 2 and 3. */
  lemma VolleyByLevel(x: int, y: int)
    ensures Volley(x, y, 1) == [Bullet(x, y)]
    ensures Volley(x, y, 2) == [Bullet(x, y), Bullet(x - 10, y), Bullet(x + 10, y)]
    ensures Volley(x, y, 3) == [Bullet(x, y), Bullet(x - 10, y), Bullet(x + 10, y), Bullet(x - 20, y), Bullet(x + 20, y)]
  {
  }

  /** A click while playing: the player moves to `x` and the volley is
      appended after the bullets already in flight. */
  function Fire(s: GameState, x: int): (r: GameState)
    ensures r.player == s.player.(x := x)
    ensures r.bullets == s.bullets + Volley(x, s.player.y - MuzzleOffset, s.player.powerLevel)
    ensures |r.bullets| >= |s.bullets| && r.bullets[..|s.bullets|] == s.bullets
    ensures forall k :: |s.bullets| <= k < |r.bullets| ==>
              r.bullets[k].y == s.player.y - MuzzleOffset && x - 2 * Spread <= r.bullets[k].x <= x + 2 * Spread
    ensures 1 <= s.player.powerLevel <= MaxPowerLevel ==> |r.bullets| == |s.bullets| + 2 * s.player.powerLevel - 1
    ensures r.enemies == s.enemies && r.powerups == s.powerups && r.score == s.score
    ensures r.highScore == s.highScore && r.gameOver == s.gameOver && r.difficulty == s.difficulty
    ensures Valid(s) ==> Valid(r)
  {
    var v := Volley(x, s.player.y - MuzzleOffset, s.player.powerLevel);
    AppendedBullets(s.bullets, v);
    s.(player := s.player.(x := x), bullets := s.bullets + v)
  }

  lemma AppendedBullets(bs: seq<Bullet>, v: seq<Bullet>)
    ensures forall k :: |bs| <= k < |bs + v| ==> (bs + v)[k] in v
    ensures forall b :: b in bs + v ==> b in bs || b in v
  {
  }

  /** A click after game over: everything returns to the start except the high score. */
  function Restart(s: GameState): (r: GameState)
    ensures r.highScore == s.highScore
    ensures r.player == Player(StartX, StartY, 1, false)
    ensures r.bullets == [] && r.enemies == [] && r.powerups == []
    ensures r.score == 0 && r.difficulty == 1 && !r.gameOver
    ensures Valid(s) ==> Valid(r)
  {
    Initial(s.highScore)
  }

  /** `handleCanvasClick` at field coordinate `x`. */
  function Click(s: GameState, x: int): (r: GameState)
    ensures s.gameOver ==> r == Restart(s)
    ensures !s.gameOver ==> r == Fire(s, x)
    ensures r.highScore == s.highScore
    ensures Valid(s) ==> Valid(r)
  {
    if s.gameOver then Restart(s) else Fire(s, x)
  }
}
