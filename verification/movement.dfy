/** The movement half of a frame: every entity steps once, whatever left
    the field is dropped, and the difficulty follows the score. */
module Movement {
  import opened Prelude
  import opened Entities

  const BulletStep := 7
  const PowerupStep := 1
  const PointsPerLevel := 1000

  /** Each element of `s` stepped once, keeping (in order) those whose
      stepped value passes `keep`: a `map` followed by a `filter`. */
  function Advance<T>(s: seq<T>, step: T -> T, keep: T -> bool): (r: seq<T>)
    ensures |r| <= |s|
    ensures forall k :: 0 <= k < |s| && keep(step(s[k])) ==> step(s[k]) in r
    ensures forall x :: x in r ==> keep(x) && exists k :: 0 <= k < |s| && x == step(s[k])
    decreases |s|
  {
    if |s| == 0 then []
    else
      var rest := Advance(s[1..], step, keep);
      assert forall k :: 1 <= k < |s| ==> s[1..][k - 1] == s[k];
      var moved := step(s[0]);
      if keep(moved) then [moved] + rest else rest
  }

  /** Advancing a concatenation advances each part in place, so the
      elements kept keep their relative order. */
  lemma {:induction false} AdvanceAppend<T>(a: seq<T>, b: seq<T>, step: T -> T, keep: T -> bool)
    ensures Advance(a + b, step, keep) == Advance(a, step, keep) + Advance(b, step, keep)
    decreases |a|
  {
    if |a| == 0 {
      assert a + b == b;
    } else {
      assert (a + b)[1..] == a[1..] + b;
      AdvanceAppend(a[1..], b, step, keep);
    }
  }

  function BulletMoved(b: Bullet): Bullet
  {
    b.(y := b.y - BulletStep)
  }

  predicate BulletOnField(b: Bullet)
  {
    b.y > 0
  }

  function EnemyMoved(e: Enemy): Enemy
  {
    e.(y := e.y + e.Speed())
  }

  predicate EnemyOnField(e: Enemy)
  {
    e.y < FieldHeight
  }

  function PowerupMoved(u: Powerup): Powerup
  {
    u.(y := u.y + PowerupStep)
  }

  predicate PowerupOnField(u: Powerup)
  {
    u.y < FieldHeight
  }

  /** Bullets rise 7 and are kept while their new y is above 0. */
  function MoveBullets(bs: seq<Bullet>): (r: seq<Bullet>)
    ensures forall k :: 0 <= k < |bs| && bs[k].y - BulletStep > 0 ==> Bullet(bs[k].x, bs[k].y - BulletStep) in r
    ensures forall b :: b in r ==> b.y > 0 && Bullet(b.x, b.y + BulletStep) in bs
  {
    Advance(bs, BulletMoved, BulletOnField)
  }

  /** Enemies fall by their kind's speed and are kept while their new y is below the field height. */
  function MoveEnemies(es: seq<Enemy>): (r: seq<Enemy>)
    ensures forall k :: 0 <= k < |es| && es[k].y + es[k].Speed() < FieldHeight ==>
              Enemy(es[k].x, es[k].y + es[k].Speed(), es[k].kind, es[k].hp) in r
    ensures forall e :: e in r ==> e.y < FieldHeight && Enemy(e.x, e.y - e.Speed(), e.kind, e.hp) in es
  {
    Advance(es, EnemyMoved, EnemyOnField)
  }

  /** Powerups fall 1 and are kept while their new y is below the field height. */
  function MovePowerups(us: seq<Powerup>): (r: seq<Powerup>)
    ensures forall k :: 0 <= k < |us| && us[k].y + PowerupStep < FieldHeight ==>
              Powerup(us[k].x, us[k].y + PowerupStep, us[k].kind) in r
    ensures forall u :: u in r ==> u.y < FieldHeight && Powerup(u.x, u.y - PowerupStep, u.kind) in us
  {
    Advance(us, PowerupMoved, PowerupOnField)
  }

  /** `Math.min(5, 1 + Math.floor(score / 1000))`. Dafny's `/` by a
      positive divisor rounds down like `Math.floor` for every sign. */
  function Difficulty(score: int): (d: int)
    ensures d <= MaxDifficulty
    ensures score >= 0 ==> 1 <= d
    ensures d < MaxDifficulty ==> (d - 1) * PointsPerLevel <= score < d * PointsPerLevel
    ensures d == MaxDifficulty <==> score >= (MaxDifficulty - 1) * PointsPerLevel
  {
    Min(MaxDifficulty, 1 + score / PointsPerLevel)
  }

  /** A higher score never lowers the difficulty. */
  lemma DifficultyMonotone(a: int, b: int)
    requires a <= b
    ensures Difficulty(a) <= Difficulty(b)
  {
  }

  /** Difficulty 1 at score 0, 2 at 1500, and 5 from 5000 on. */
  lemma DifficultyExamples(score: int)
    requires score >= 5000
    ensures Difficulty(0) == 1 && Difficulty(1500) == 2 && Difficulty(score) == MaxDifficulty
  {
  }

  /** The movement update of one frame. */
  function Move(s: GameState): (r: GameState)
    ensures InField(r)
    ensures r.player == s.player && r.score == s.score && r.highScore == s.highScore && r.gameOver == s.gameOver
    ensures r.difficulty == Difficulty(s.score)
    ensures r.bullets == MoveBullets(s.bullets)
    ensures r.enemies == MoveEnemies(s.enemies)
    ensures r.powerups == MovePowerups(s.powerups)
    ensures forall b :: b in r.bullets ==> Bullet(b.x, b.y + BulletStep) in s.bullets
    ensures forall e :: e in r.enemies ==> Enemy(e.x, e.y - e.Speed(), e.kind, e.hp) in s.enemies
    ensures forall u :: u in r.powerups ==> Powerup(u.x, u.y - PowerupStep, u.kind) in s.powerups
    ensures Valid(s) ==> Valid(r)
  {
    var r := s.(bullets := MoveBullets(s.bullets),
                enemies := MoveEnemies(s.enemies),
                powerups := MovePowerups(s.powerups),
                difficulty := Difficulty(s.score));
    assert AllAlive(s.enemies) ==> AllAlive(r.enemies) by {
      if AllAlive(s.enemies) {
        forall e | e in r.enemies
          ensures e.hp >= 1
        {
          assert Enemy(e.x, e.y - e.Speed(), e.kind, e.hp) in s.enemies;
        }
      }
    }
    r
  }
}
