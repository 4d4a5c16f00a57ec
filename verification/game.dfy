/** The frame loop and the events that drive it. A frame does nothing once
    the game is over; otherwise it spawns what the timers call for, moves
    everything, and resolves collisions. Clicks arrive between frames. */
module Game {
  import opened Prelude
  import opened Entities
  import opened Movement
  import opened Collisions
  import opened Input
  import opened Spawning

  /** What the timers and random draws produced this frame. */
  datatype EnemySpawn = EnemySpawn(kind: EnemyKind, x: int)
  datatype PowerupSpawn = PowerupSpawn(kind: PowerupKind, x: int)

  /** One animation frame. */
  function Frame(s: GameState, enemy: Option<EnemySpawn>, powerup: Option<PowerupSpawn>): (r: GameState)
    ensures s.gameOver ==> r == s
    ensures !s.gameOver ==> InField(r)
    ensures r.highScore >= s.highScore && r.score >= s.score
    ensures Valid(s) ==> Valid(r)
  {
    if s.gameOver then s
    else
      var s1 := match enemy
        case None => s
        case Some(e) => SpawnEnemy(s, e.kind, e.x);
      var s2 := match powerup
        case None => s1
        case Some(u) => SpawnPowerup(s1, u.kind, u.x);
      Resolve(Move(s2))
  }

  /** Something that happens to the game: a frame or a click. */
  datatype Event =
    | Tick(enemy: Option<EnemySpawn>, powerup: Option<PowerupSpawn>)
    | Tap(x: int)

  function Step(s: GameState, ev: Event): (r: GameState)
    ensures r.highScore >= s.highScore
    ensures Valid(s) ==> Valid(r)
  {
    match ev
    case Tick(e, u) => Frame(s, e, u)
    case Tap(x) => Click(s, x)
  }

  /** The state after the events of `evs`, in order. */
  function Run(s: GameState, evs: seq<Event>): GameState
    decreases |evs|
  {
    if |evs| == 0 then s else Run(Step(s, evs[0]), evs[1..])
  }

  /** From a valid state, every run of frames and clicks keeps the invariant,
      and the high score never goes down. */
  lemma {:induction false} RunKeepsInvariant(s: GameState, evs: seq<Event>)
    requires Valid(s)
    ensures Valid(Run(s, evs))
    ensures Run(s, evs).highScore >= s.highScore
    decreases |evs|
  {
    if |evs| > 0 {
      RunKeepsInvariant(Step(s, evs[0]), evs[1..]);
    }
  }

  /** Every session that starts from a stored high score keeps the invariant. */
  lemma SessionKeepsInvariant(stored: nat, evs: seq<Event>)
    ensures Valid(Run(Initial(stored), evs))
    ensures Run(Initial(stored), evs).highScore >= stored
  {
    RunKeepsInvariant(Initial(stored), evs);
  }

  /** A shield absorbs exactly one hit: with no bullets or powerups in play
      and an enemy on the player, the first collision update spends the
      shield and the game goes on, and the next one ends the game. */
  lemma ShieldAbsorbsOneHit(s: GameState, e: Enemy)
    requires s.player.shield && !s.gameOver
    requires s.bullets == [] && s.powerups == []
    requires e in s.enemies && Touches(s.player.Hitbox(), e)
    ensures !Resolve(s).gameOver && !Resolve(s).player.shield
    ensures Resolve(Resolve(s)).gameOver
  {
  }

  /** For an unshielded player in a valid state, the collision update ends
      the game exactly when an enemy that survives it touches the player.
      The high score becomes the larger of the old high score and the new
      score, and after a death the restart keeps that value and starts the
      score over. Bullets may be in play, so kills in the death frame count. */
  lemma DeathRecordsHighScore(s: GameState, x: int)
    requires Valid(s) && !s.gameOver && !ShieldedAfterPickup(s)
    ensures Resolve(s).gameOver <==> exists e :: e in Resolve(s).enemies && Touches(s.player.Hitbox(), e)
    ensures Resolve(s).highScore == Max(s.highScore, Resolve(s).score)
    ensures Resolve(s).gameOver ==>
              Click(Resolve(s), x).highScore == Resolve(s).highScore && Click(Resolve(s), x).score == 0
  {
  }

  /** The game together with the high score kept in persistent storage. */
  datatype Session = Session(game: GameState, stored: int)

  /** The frame `before` to `after` ends the game. */
  predicate DiedIn(before: GameState, after: GameState)
  {
    !before.gameOver && after.gameOver
  }

  /** The stored high score after a frame, as the source writes it: on death,
      and only when the final score beats the high score held in the state
      before this frame's collision update. */
  function SavedAsWritten(stored: int, before: GameState, after: GameState): (r: int)
    ensures !DiedIn(before, after) ==> r == stored
    ensures DiedIn(before, after) && after.score > before.highScore ==> r == after.score
    ensures DiedIn(before, after) && after.score <= before.highScore ==> r == stored
  {
    if DiedIn(before, after) && after.score > before.highScore then after.score else stored
  }

  /** A death in a frame without kills past the state's high score leaves
      storage behind: stored 500, a high score of 800 reached in earlier
      frames, and an enemy on the unshielded player. */
  lemma SavedAsWrittenLags()
    ensures var s := GameState(Player(StartX, StartY, 1, false), [], [Enemy(StartX, StartY, Normal, 1)], [], 800, 800, false, 1);
            var r := Resolve(s);
            && Valid(s) && DiedIn(s, r) && r.highScore == 800
            && SavedAsWritten(500, s, r) == 500
  {
    var s := GameState(Player(StartX, StartY, 1, false), [], [Enemy(StartX, StartY, Normal, 1)], [], 800, 800, false, 1);
    var e := Enemy(StartX, StartY, Normal, 1);
    assert Touches(s.player.Hitbox(), e);
    assert Resolve(s).enemies == s.enemies;
  }

  /** The stored high score after a frame, corrected: a death stores the
      high score the state now holds whenever it beats the stored one. */
  function Saved(stored: int, before: GameState, after: GameState): (r: int)
    ensures r >= stored
    ensures !DiedIn(before, after) ==> r == stored
    ensures DiedIn(before, after) && stored <= after.highScore ==> r == after.highScore
  {
    if DiedIn(before, after) then Max(stored, after.highScore) else stored
  }

  /** Storage never runs ahead of the state, and holds its high score once the game is over. */
  predicate InSync(ss: Session)
  {
    ss.stored <= ss.game.highScore && (ss.game.gameOver ==> ss.stored == ss.game.highScore)
  }

  /** One event of a session: a frame may write storage, a click never does. */
  function SessionStep(ss: Session, ev: Event): (r: Session)
    ensures r.game == Step(ss.game, ev)
    ensures r.stored >= ss.stored
    ensures InSync(ss) ==> InSync(r)
  {
    match ev
    case Tick(e, u) =>
      var g := Frame(ss.game, e, u);
      Session(g, Saved(ss.stored, ss.game, g))
    case Tap(x) =>
      Session(Click(ss.game, x), ss.stored)
  }

  /** The session after the events of `evs`, in order. */
  function SessionRun(ss: Session, evs: seq<Event>): Session
    decreases |evs|
  {
    if |evs| == 0 then ss else SessionRun(SessionStep(ss, evs[0]), evs[1..])
  }

  /** With the corrected write, storage holds the high score at every game
      over, and the game follows the same states as without storage. */
  lemma {:induction false} SessionStaysInSync(ss: Session, evs: seq<Event>)
    requires InSync(ss)
    ensures InSync(SessionRun(ss, evs))
    ensures SessionRun(ss, evs).game == Run(ss.game, evs)
    decreases |evs|
  {
    if |evs| > 0 {
      SessionStaysInSync(SessionStep(ss, evs[0]), evs[1..]);
    }
  }

  /** A session that starts from what storage holds is in sync from the start. */
  lemma StoredSessionInSync(stored: nat, evs: seq<Event>)
    ensures var r := SessionRun(Session(Initial(stored), stored), evs);
            && InSync(r) && r.game == Run(Initial(stored), evs)
            && (r.game.gameOver ==> r.stored == r.game.highScore)
  {
    SessionStaysInSync(Session(Initial(stored), stored), evs);
  }
}
