/** The collision half of a frame, in its fixed order: bullets against
    enemies, the player against powerups, the player against enemies, and
    finally the high score. */
module Collisions {
  import opened Prelude
  import opened Geometry
  import opened Entities

  predicate Hits(b: Bullet, e: Enemy)
  {
    Collides(b.Hitbox(), e.Bounds())
  }

  /** `a` is `b` after wear: the same enemy in the same place with no more hit points. */
  predicate WornDown(a: Enemy, b: Enemy)
  {
    a.x == b.x && a.y == b.y && a.kind == b.kind && a.hp <= b.hp
  }

  /** `after` is `before` with some enemies removed and the rest worn down,
      in the same order. */
  predicate Culled(after: seq<Enemy>, before: seq<Enemy>)
    decreases |before|
  {
    if |before| == 0 then |after| == 0
    else
      || (|after| > 0 && WornDown(after[0], before[0]) && Culled(after[1..], before[1..]))
      || Culled(after, before[1..])
  }

  lemma {:induction false} CulledReflexive(s: seq<Enemy>)
    ensures Culled(s, s)
    decreases |s|
  {
    if |s| > 0 {
      CulledReflexive(s[1..]);
    }
  }

  lemma {:induction false} CulledTransitive(a: seq<Enemy>, b: seq<Enemy>, c: seq<Enemy>)
    requires Culled(a, b) && Culled(b, c)
    ensures Culled(a, c)
    decreases |c|
  {
    if |c| == 0 {
    } else if Culled(b, c[1..]) {
      CulledTransitive(a, b, c[1..]);
    } else if |a| > 0 && WornDown(a[0], b[0]) && Culled(a[1..], b[1..]) {
      CulledTransitive(a[1..], b[1..], c[1..]);
    } else {
      CulledTransitive(a, b[1..], c[1..]);
    }
  }

  /** Removing one enemy culls the sequence. */
  lemma {:induction false} CulledRemoveAt(s: seq<Enemy>, j: nat)
    requires j < |s|
    ensures Culled(RemoveAt(s, j), s)
    decreases j
  {
    if j == 0 {
      assert RemoveAt(s, j) == s[1..];
      CulledReflexive(s[1..]);
    } else {
      var r := RemoveAt(s, j);
      assert r[1..] == RemoveAt(s[1..], j - 1);
      CulledRemoveAt(s[1..], j - 1);
    }
  }

  /** Wearing one enemy down culls the sequence. */
  lemma {:induction false} CulledUpdate(s: seq<Enemy>, j: nat, e: Enemy)
    requires j < |s| && WornDown(e, s[j])
    ensures Culled(s[j := e], s)
    decreases j
  {
    if j == 0 {
      assert s[j := e][1..] == s[1..];
      CulledReflexive(s[1..]);
    } else {
      assert s[j := e][1..] == s[1..][j - 1 := e];
      CulledUpdate(s[1..], j - 1, e);
    }
  }

  /** Every enemy of a culled sequence is a worn-down enemy of the original. */
  lemma {:induction false} CulledTwin(a: seq<Enemy>, b: seq<Enemy>, e: Enemy)
    requires Culled(a, b) && e in a
    ensures exists f :: f in b && WornDown(e, f)
    decreases |b|
  {
    if |a| > 0 && WornDown(a[0], b[0]) && Culled(a[1..], b[1..]) {
      if e == a[0] {
        assert b[0] in b;
      } else {
        CulledTwin(a[1..], b[1..], e);
        var f :| f in b[1..] && WornDown(e, f);
        assert f in b;
      }
    } else {
      CulledTwin(a, b[1..], e);
      var f :| f in b[1..] && WornDown(e, f);
      assert f in b;
    }
  }

  /** Culling never raises the points on the field. */
  lemma {:induction false} CulledPoints(a: seq<Enemy>, b: seq<Enemy>)
    requires Culled(a, b)
    ensures TotalPoints(a) <= TotalPoints(b)
    decreases |b|
  {
    if |b| == 0 {
    } else if |a| > 0 && WornDown(a[0], b[0]) && Culled(a[1..], b[1..]) {
      CulledPoints(a[1..], b[1..]);
    } else {
      CulledPoints(a, b[1..]);
    }
  }

  /** Culling keeps every enemy inside the field bound. */
  lemma CulledInField(a: seq<Enemy>, b: seq<Enemy>)
    requires Culled(a, b)
    ensures (forall e :: e in b ==> e.y < FieldHeight) ==> (forall e :: e in a ==> e.y < FieldHeight)
  {
  }

  /** The enemy a bullet strikes: scanning `es[..j]` from the back, the
      first one it overlaps, so the highest overlapping index wins. */
  function LastHit(b: Bullet, es: seq<Enemy>, j: nat): (r: Option<nat>)
    requires j <= |es|
    ensures r.Some? ==> r.value < j && Hits(b, es[r.value])
    ensures r.Some? ==> forall m :: r.value < m < j ==> !Hits(b, es[m])
    ensures r.None? ==> forall m :: 0 <= m < j ==> !Hits(b, es[m])
    decreases j
  {
    if j == 0 then None
    else if Hits(b, es[j - 1]) then Some(j - 1)
    else LastHit(b, es, j - 1)
  }

  /** The enemies and the score after a hit. */
  datatype Tally = Tally(enemies: seq<Enemy>, score: int)

  /** Enemy `j` loses a hit point; at 0 or below it is removed and its points scored. */
  function Strike(es: seq<Enemy>, j: nat, score: int): (r: Tally)
    requires j < |es|
    ensures Culled(r.enemies, es)
    ensures r.score - score == TotalPoints(es) - TotalPoints(r.enemies)
    ensures es[j].hp <= 1 ==> |r.enemies| == |es| - 1 && r.score == score + es[j].Points()
    ensures es[j].hp <= 1 ==>
              && (forall k :: 0 <= k < j ==> r.enemies[k] == es[k])
              && (forall k :: j <= k < |r.enemies| ==> r.enemies[k] == es[k + 1])
    ensures es[j].hp > 1 ==> |r.enemies| == |es| && r.enemies[j].hp == es[j].hp - 1 && r.score == score
    ensures es[j].hp > 1 ==> WornDown(r.enemies[j], es[j])
    ensures es[j].hp > 1 ==> forall k :: 0 <= k < |es| && k != j ==> r.enemies[k] == es[k]
    ensures AllAlive(es) ==> AllAlive(r.enemies) && TotalHp(es) - TotalHp(r.enemies) == 1
  {
    var hit := es[j].(hp := es[j].hp - 1);
    if hit.hp <= 0 then
      CulledRemoveAt(es, j);
      SumOfRemoveAt(es, j, PointsOf);
      SumOfRemoveAt(es, j, HpOf);
      Tally(RemoveAt(es, j), score + hit.Points())
    else
      CulledUpdate(es, j, hit);
      SumOfUpdate(es, j, hit, PointsOf);
      SumOfUpdate(es, j, hit, HpOf);
      Tally(es[j := hit], score)
  }

  /** The bullets, enemies and score after bullets meet enemies. */
  datatype ShotResult = ShotResult(bullets: seq<Bullet>, enemies: seq<Enemy>, score: int)

  /** The bullet-enemy scan: bullets `bs[..i]` are still to be tried, from
      the back; those from `i` on were tried already and overlap nothing in
      `es`. A bullet that strikes is removed and stops the enemy scan. */
  function BulletPass(bs: seq<Bullet>, es: seq<Enemy>, score: int, i: nat): (r: ShotResult)
    requires i <= |bs|
    requires forall k, e :: i <= k < |bs| && e in es ==> !Hits(bs[k], e)
    ensures Culled(r.enemies, es)
    ensures r.score - score == TotalPoints(es) - TotalPoints(r.enemies)
    ensures multiset(r.bullets) <= multiset(bs)
    ensures forall b, e :: b in r.bullets && e in r.enemies ==> !Hits(b, e)
    ensures forall b :: b in multiset(bs) - multiset(r.bullets) ==> exists e :: e in es && Hits(b, e)
    ensures AllAlive(es) ==> AllAlive(r.enemies) && TotalHp(es) - TotalHp(r.enemies) == |bs| - |r.bullets|
    decreases i
  {
    if i == 0 then
      CulledReflexive(es);
      ShotResult(bs, es, score)
    else
      match LastHit(bs[i - 1], es, |es|)
      case None =>
        BulletPass(bs, es, score, i - 1)
      case Some(j) =>
        var t := Strike(es, j, score);
        var rest := RemoveAt(bs, i - 1);
        TriedStayClear(bs, rest, es, t.enemies, i);
        var r := BulletPass(rest, t.enemies, t.score, i - 1);
        CulledTransitive(r.enemies, t.enemies, es);
        RemovedBulletsHit(bs, rest, i, r.bullets, es, t.enemies, j);
        r
  }

  /** After a strike the bullets already tried still overlap none of the enemies left. */
  lemma TriedStayClear(bs: seq<Bullet>, rest: seq<Bullet>, es: seq<Enemy>, es': seq<Enemy>, i: nat)
    requires 0 < i <= |bs| && rest == RemoveAt(bs, i - 1)
    requires forall k, e :: i <= k < |bs| && e in es ==> !Hits(bs[k], e)
    requires Culled(es', es)
    ensures forall k, e :: i - 1 <= k < |rest| && e in es' ==> !Hits(rest[k], e)
  {
    forall k, e | i - 1 <= k < |rest| && e in es'
      ensures !Hits(rest[k], e)
    {
      CulledTwin(es', es, e);
      var f :| f in es && WornDown(e, f);
      assert e.Bounds() == f.Bounds();
    }
  }

  /** The bullet just removed struck an enemy, and every bullet the rest of the
      scan removes struck one of the enemies left, so struck one of `es`. */
  lemma RemovedBulletsHit(bs: seq<Bullet>, rest: seq<Bullet>, i: nat, kept: seq<Bullet>, es: seq<Enemy>, es': seq<Enemy>, j: nat)
    requires 0 < i <= |bs| && j < |es| && rest == RemoveAt(bs, i - 1)
    requires Hits(bs[i - 1], es[j])
    requires Culled(es', es)
    requires multiset(kept) <= multiset(rest)
    requires forall b :: b in multiset(rest) - multiset(kept) ==> exists e :: e in es' && Hits(b, e)
    ensures multiset(kept) <= multiset(bs)
    ensures forall b :: b in multiset(bs) - multiset(kept) ==> exists e :: e in es && Hits(b, e)
  {
    forall b | b in multiset(bs) - multiset(kept)
      ensures exists e :: e in es && Hits(b, e)
    {
      if b == bs[i - 1] {
        assert es[j] in es;
      } else {
        assert multiset(rest)[b] == multiset(bs)[b];
        assert b in multiset(rest) - multiset(kept);
        var e :| e in es' && Hits(b, e);
        CulledTwin(es', es, e);
        var f :| f in es && WornDown(e, f);
        assert e.Bounds() == f.Bounds();
      }
    }
  }

  /** Tried on its own, a bullet is removed exactly when it overlaps some
      enemy, and then exactly one hit point is taken. */
  lemma LoneBulletRemovedIffOverlap(b: Bullet, es: seq<Enemy>, score: int)
    requires AllAlive(es)
    ensures var r := BulletPass([b], es, score, 1);
            && (r.bullets == [] <==> exists e :: e in es && Hits(b, e))
            && (r.bullets == [] ==> TotalHp(es) - TotalHp(r.enemies) == 1)
            && (r.bullets != [] ==> r.enemies == es && r.score == score)
  {
    var r := BulletPass([b], es, score, 1);
    match LastHit(b, es, |es|)
    case None =>
      assert r == BulletPass([b], es, score, 0);
    case Some(j) =>
      assert es[j] in es;
  }

  predicate Catches(hb: Box, u: Powerup)
  {
    Collides(hb, u.Bounds())
  }

  /** The powerups of `us` the box does not touch, in order: the reference
      the back-to-front pickup scan is measured against. */
  function Uncaught(hb: Box, us: seq<Powerup>): (r: seq<Powerup>)
    ensures |r| <= |us|
    decreases |us|
  {
    if |us| == 0 then []
    else
      var last := us[|us| - 1];
      Uncaught(hb, us[..|us| - 1]) + (if Catches(hb, last) then [] else [last])
  }

  /** A powerup survives the pickup exactly when the box does not touch it. */
  lemma {:induction false} UncaughtMembers(hb: Box, us: seq<Powerup>)
    ensures forall u :: u in Uncaught(hb, us) <==> u in us && !Catches(hb, u)
    decreases |us|
  {
    if |us| > 0 {
      var front := us[..|us| - 1];
      assert us == front + [us[|us| - 1]];
      UncaughtMembers(hb, front);
    }
  }

  /** How many powerups of `kind` in `us` the box touches. */
  function CaughtCount(hb: Box, us: seq<Powerup>, kind: PowerupKind): (n: nat)
    ensures n <= |us|
    decreases |us|
  {
    if |us| == 0 then 0
    else
      var last := us[|us| - 1];
      CaughtCount(hb, us[..|us| - 1], kind) + (if Catches(hb, last) && last.kind == kind then 1 else 0)
  }

  /** The count is positive exactly when some touched powerup has that kind. */
  lemma {:induction false} CaughtCountPositive(hb: Box, us: seq<Powerup>, kind: PowerupKind)
    ensures CaughtCount(hb, us, kind) > 0 <==> exists u :: u in us && Catches(hb, u) && u.kind == kind
    decreases |us|
  {
    if |us| > 0 {
      var front := us[..|us| - 1];
      assert us == front + [us[|us| - 1]];
      CaughtCountPositive(hb, front, kind);
    }
  }

  /** A powerup's effect on the player: multishot raises the power level
      up to 3, shield raises the shield, speedup does nothing. */
  function Absorb(p: Player, kind: PowerupKind): (q: Player)
    ensures q.x == p.x && q.y == p.y
    ensures 1 <= p.powerLevel <= MaxPowerLevel ==> 1 <= q.powerLevel <= MaxPowerLevel
    ensures q.powerLevel >= p.powerLevel || q.powerLevel == MaxPowerLevel
    ensures kind == Multishot ==> q.powerLevel == Min(MaxPowerLevel, p.powerLevel + 1) && q.shield == p.shield
    ensures kind == Shield ==> q.shield && q.powerLevel == p.powerLevel
    ensures kind == Speedup ==> q == p
  {
    match kind
    case Multishot => p.(powerLevel := Min(MaxPowerLevel, p.powerLevel + 1))
    case Speedup => p
    case Shield => p.(shield := true)
  }

  /** The player and the powerups left after pickups. */
  datatype Pickup = Pickup(player: Player, powerups: seq<Powerup>)

  /** The player-powerup scan: powerups `us[..i]` are still to be tried, from
      the back, against the box `hb` of the player as the frame began. */
  function PowerupPass(hb: Box, p: Player, us: seq<Powerup>, i: nat): (r: Pickup)
    requires i <= |us|
    ensures r.powerups == Uncaught(hb, us[..i]) + us[i..]
    ensures r.player.x == p.x && r.player.y == p.y
    ensures var n := CaughtCount(hb, us[..i], Multishot);
            r.player.powerLevel == if n == 0 then p.powerLevel else Min(MaxPowerLevel, p.powerLevel + n)
    ensures r.player.shield == (p.shield || CaughtCount(hb, us[..i], Shield) > 0)
    decreases i
  {
    if i == 0 then
      assert us[..0] == [];
      Pickup(p, us)
    else if Catches(hb, us[i - 1]) then
      var r := PowerupPass(hb, Absorb(p, us[i - 1].kind), RemoveAt(us, i - 1), i - 1);
      SplitAround(us, i);
      CaughtOneMore(hb, p, us, i, r);
      r
    else
      var r := PowerupPass(hb, p, us, i - 1);
      MissedOneMore(hb, p, us, i, r);
      r
  }

  /** The scan's promise extends from `i - 1` to `i` over a powerup the player touches. */
  lemma CaughtOneMore(hb: Box, p: Player, us: seq<Powerup>, i: nat, r: Pickup)
    requires 0 < i <= |us| && Catches(hb, us[i - 1])
    requires r.powerups == Uncaught(hb, us[..i - 1]) + us[i..]
    requires var q := Absorb(p, us[i - 1].kind);
             var n := CaughtCount(hb, us[..i - 1], Multishot);
             && r.player.powerLevel == (if n == 0 then q.powerLevel else Min(MaxPowerLevel, q.powerLevel + n))
             && r.player.shield == (q.shield || CaughtCount(hb, us[..i - 1], Shield) > 0)
    ensures r.powerups == Uncaught(hb, us[..i]) + us[i..]
    ensures var n := CaughtCount(hb, us[..i], Multishot);
            r.player.powerLevel == if n == 0 then p.powerLevel else Min(MaxPowerLevel, p.powerLevel + n)
    ensures r.player.shield == (p.shield || CaughtCount(hb, us[..i], Shield) > 0)
  {
    PrefixStep(hb, us, i);
    var q := Absorb(p, us[i - 1].kind);
    MultishotsAccumulate(p.powerLevel, q.powerLevel, r.player.powerLevel,
      CaughtCount(hb, us[..i - 1], Multishot), us[i - 1].kind == Multishot);
  }

  /** The scan's promise extends from `i - 1` to `i` over a powerup the player misses. */
  lemma MissedOneMore(hb: Box, p: Player, us: seq<Powerup>, i: nat, r: Pickup)
    requires 0 < i <= |us| && !Catches(hb, us[i - 1])
    requires r.powerups == Uncaught(hb, us[..i - 1]) + us[i - 1..]
    requires var n := CaughtCount(hb, us[..i - 1], Multishot);
             r.player.powerLevel == if n == 0 then p.powerLevel else Min(MaxPowerLevel, p.powerLevel + n)
    requires r.player.shield == (p.shield || CaughtCount(hb, us[..i - 1], Shield) > 0)
    ensures r.powerups == Uncaught(hb, us[..i]) + us[i..]
    ensures var n := CaughtCount(hb, us[..i], Multishot);
            r.player.powerLevel == if n == 0 then p.powerLevel else Min(MaxPowerLevel, p.powerLevel + n)
    ensures r.player.shield == (p.shield || CaughtCount(hb, us[..i], Shield) > 0)
  {
    SplitAround(us, i);
    PrefixStep(hb, us, i);
  }

  /** How a prefix of length `i` and the element at `i - 1` sit in `us` and in `us` without that element. */
  lemma SplitAround<T>(us: seq<T>, i: nat)
    requires 0 < i <= |us|
    ensures RemoveAt(us, i - 1)[..i - 1] == us[..i - 1]
    ensures RemoveAt(us, i - 1)[i - 1..] == us[i..]
    ensures us[i - 1..] == [us[i - 1]] + us[i..]
  {
  }

  /** How the reference definitions grow by one element at the end of a prefix. */
  lemma PrefixStep(hb: Box, us: seq<Powerup>, i: nat)
    requires 0 < i <= |us|
    ensures Uncaught(hb, us[..i]) == Uncaught(hb, us[..i - 1]) + (if Catches(hb, us[i - 1]) then [] else [us[i - 1]])
    ensures CaughtCount(hb, us[..i], Multishot)
              == CaughtCount(hb, us[..i - 1], Multishot) + (if Catches(hb, us[i - 1]) && us[i - 1].kind == Multishot then 1 else 0)
    ensures CaughtCount(hb, us[..i], Shield)
              == CaughtCount(hb, us[..i - 1], Shield) + (if Catches(hb, us[i - 1]) && us[i - 1].kind == Shield then 1 else 0)
  {
    assert us[..i][..i - 1] == us[..i - 1];
  }

  /** One more multishot, taken before `n` others, still lands at `Min(3, level + count)`. */
  lemma MultishotsAccumulate(level: int, next: int, final: int, n: nat, multishot: bool)
    requires next == if multishot then Min(MaxPowerLevel, level + 1) else level
    requires final == if n == 0 then next else Min(MaxPowerLevel, next + n)
    ensures var m := n + (if multishot then 1 else 0);
            final == if m == 0 then level else Min(MaxPowerLevel, level + m)
  {
  }

  predicate Touches(hb: Box, e: Enemy)
  {
    Collides(hb, e.Bounds())
  }

  /** The first enemy of `es[k..]` the player's box touches, front to back. */
  function FirstContact(hb: Box, es: seq<Enemy>, k: nat): (r: Option<nat>)
    requires k <= |es|
    ensures r.Some? ==> k <= r.value < |es| && Touches(hb, es[r.value])
    ensures r.Some? ==> forall m :: k <= m < r.value ==> !Touches(hb, es[m])
    ensures r.None? ==> forall m :: k <= m < |es| ==> !Touches(hb, es[m])
    decreases |es| - k
  {
    if k == |es| then None
    else if Touches(hb, es[k]) then Some(k)
    else FirstContact(hb, es, k + 1)
  }

  /** The player and the game-over flag after the player meets enemies. */
  datatype Fate = Fate(player: Player, gameOver: bool)

  /** The player-enemy scan: at the first enemy touched, a raised shield is
      spent and the game goes on; without one the game is over. Only that
      one enemy is looked at, and no enemy is removed. */
  function Confront(hb: Box, p: Player, es: seq<Enemy>, gameOver: bool): (r: Fate)
    ensures r.player.x == p.x && r.player.y == p.y && r.player.powerLevel == p.powerLevel
    ensures (exists e :: e in es && Touches(hb, e)) ==>
              if p.shield then !r.player.shield && r.gameOver == gameOver
              else !r.player.shield && r.gameOver
    ensures !(exists e :: e in es && Touches(hb, e)) ==> r == Fate(p, gameOver)
  {
    match FirstContact(hb, es, 0)
    case None =>
      Fate(p, gameOver)
    case Some(k) =>
      if p.shield then Fate(p.(shield := false), gameOver) else Fate(p, true)
  }

  /** Bullets against enemies: the first stage of the collision update. */
  function ShootStage(s: GameState): (r: GameState)
    ensures r.player == s.player && r.powerups == s.powerups && r.gameOver == s.gameOver
    ensures r.highScore == s.highScore && r.difficulty == s.difficulty
    ensures Culled(r.enemies, s.enemies)
    ensures r.score >= s.score
    ensures r.score - s.score == TotalPoints(s.enemies) - TotalPoints(r.enemies)
    ensures AllAlive(s.enemies) ==>
              AllAlive(r.enemies) && TotalHp(s.enemies) - TotalHp(r.enemies) == |s.bullets| - |r.bullets|
    ensures multiset(r.bullets) <= multiset(s.bullets)
    ensures forall b, e :: b in r.bullets && e in r.enemies ==> !Hits(b, e)
    ensures forall b :: b in multiset(s.bullets) - multiset(r.bullets) ==> exists e :: e in s.enemies && Hits(b, e)
    ensures InField(s) ==> InField(r)
  {
    var v := BulletPass(s.bullets, s.enemies, s.score, |s.bullets|);
    CulledPoints(v.enemies, s.enemies);
    CulledInField(v.enemies, s.enemies);
    var r := s.(bullets := v.bullets, enemies := v.enemies, score := v.score);
    assert forall b :: b in r.bullets ==> b in s.bullets by {
      forall b | b in r.bullets
        ensures b in s.bullets
      {
        assert multiset(r.bullets)[b] > 0;
      }
    }
    r
  }

  /** The shield the player holds when enemies are checked: the one it
      began the frame with, or one picked up in this frame. */
  predicate ShieldedAfterPickup(s: GameState)
  {
    s.player.shield || exists u :: u in s.powerups && Catches(s.player.Hitbox(), u) && u.kind == Shield
  }

  /** The player against powerups: the second stage. Every touched powerup
      is removed and its effect applied. */
  function PickupStage(s: GameState): (r: GameState)
    ensures r.bullets == s.bullets && r.enemies == s.enemies && r.score == s.score
    ensures r.gameOver == s.gameOver && r.highScore == s.highScore && r.difficulty == s.difficulty
    ensures r.powerups == Uncaught(s.player.Hitbox(), s.powerups)
    ensures forall u :: u in r.powerups <==> u in s.powerups && !Catches(s.player.Hitbox(), u)
    ensures r.player.x == s.player.x && r.player.y == s.player.y
    ensures var n := CaughtCount(s.player.Hitbox(), s.powerups, Multishot);
            r.player.powerLevel == if n == 0 then s.player.powerLevel else Min(MaxPowerLevel, s.player.powerLevel + n)
    ensures 1 <= s.player.powerLevel <= MaxPowerLevel ==> 1 <= r.player.powerLevel <= MaxPowerLevel
    ensures r.player.shield <==> ShieldedAfterPickup(s)
  {
    var hb := s.player.Hitbox();
    assert s.powerups[..|s.powerups|] == s.powerups;
    var pick := PowerupPass(hb, s.player, s.powerups, |s.powerups|);
    UncaughtMembers(hb, s.powerups);
    CaughtCountPositive(hb, s.powerups, Shield);
    s.(player := pick.player, powerups := pick.powerups)
  }

  /** The player against enemies: the third stage. */
  function ContactStage(s: GameState): (r: GameState)
    ensures r.bullets == s.bullets && r.enemies == s.enemies && r.powerups == s.powerups && r.score == s.score
    ensures r.highScore == s.highScore && r.difficulty == s.difficulty
    ensures r.player.x == s.player.x && r.player.y == s.player.y && r.player.powerLevel == s.player.powerLevel
    ensures (exists e :: e in s.enemies && Touches(s.player.Hitbox(), e)) ==>
              !r.player.shield && (r.gameOver <==> s.gameOver || !s.player.shield)
    ensures !(exists e :: e in s.enemies && Touches(s.player.Hitbox(), e)) ==>
              r.player == s.player && r.gameOver == s.gameOver
  {
    var fate := Confront(s.player.Hitbox(), s.player, s.enemies, s.gameOver);
    s.(player := fate.player, gameOver := fate.gameOver)
  }

  /** The collision update of one frame: the three stages in order, then the
      high score. The player's box is the same in every stage, since only
      its power level and shield change. */
  function Resolve(s: GameState): (r: GameState)
    ensures r.difficulty == s.difficulty
    ensures r.player.x == s.player.x && r.player.y == s.player.y
    ensures Culled(r.enemies, s.enemies)
    ensures r.score >= s.score
    ensures r.score - s.score == TotalPoints(s.enemies) - TotalPoints(r.enemies)
    ensures AllAlive(s.enemies) ==>
              AllAlive(r.enemies) && TotalHp(s.enemies) - TotalHp(r.enemies) == |s.bullets| - |r.bullets|
    ensures multiset(r.bullets) <= multiset(s.bullets)
    ensures r.powerups == Uncaught(s.player.Hitbox(), s.powerups)
    ensures 1 <= s.player.powerLevel <= MaxPowerLevel ==> 1 <= r.player.powerLevel <= MaxPowerLevel
    ensures (exists e :: e in r.enemies && Touches(s.player.Hitbox(), e)) ==>
              !r.player.shield && (r.gameOver <==> s.gameOver || !ShieldedAfterPickup(s))
    ensures !(exists e :: e in r.enemies && Touches(s.player.Hitbox(), e)) ==>
              (r.player.shield <==> ShieldedAfterPickup(s)) && r.gameOver == s.gameOver
    ensures r.highScore >= s.highScore && r.highScore >= r.score
    ensures r.highScore == s.highScore || r.highScore == r.score
    ensures InField(s) ==> InField(r)
    ensures Valid(s) ==> Valid(r)
  {
    var shot := ShootStage(s);
    var picked := PickupStage(shot);
    var met := ContactStage(picked);
    met.(highScore := Max(s.highScore, met.score))
  }
}
