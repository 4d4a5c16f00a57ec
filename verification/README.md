# Shooting game: the state machine behind the canvas

This project models the game logic of a single-component browser arcade
shooter. The player sits near the bottom of a 400×600 field. A click moves
the player sideways and fires a volley of bullets. Enemies of three kinds
(normal, fast, tank) fall from the top. Powerups (multishot, speedup,
shield) fall slowly and are picked up on contact. Destroying an enemy scores
its points. Touching an enemy ends the game unless a shield absorbs the hit.
A click after game over restarts and keeps the high score.

The component keeps one immutable-style state record (player, bullets,
enemies, powerups, score, high score, game-over flag, difficulty) and
replaces it through functional updates. The model is the same record as a
Dafny datatype, with one pure function for each update:

- `Geometry`: `checkCollision`, the strict axis-aligned overlap test. Its
  first box may lack a size, and `width || 30` then reads as 30 (so does 0).
- `Entities`: the enemy and powerup tables, the records, the initial state,
  and the invariant `Valid` that every reachable state keeps:
  - power level in [1, 3], difficulty in [1, 5], 0 ≤ score ≤ high score;
  - every enemy has at least one hit point;
  - nothing is kept outside the field.
- `Movement`: each frame bullets rise 7, enemies fall by their kind's speed
  and powerups fall 1. Whatever crossed the field edge is dropped, in order.
  The difficulty becomes `min(5, 1 + floor(score / 1000))`.
- `Collisions`: the collision update, in the source's fixed order:
  - bullets against enemies, scanned back to front, each bullet striking at
    most the last overlapping enemy (`LastHit`, `Strike`, `BulletPass`);
  - the player against powerups (`PowerupPass`);
  - the player against the first enemy touched (`Confront`);
  - then the high score becomes the maximum of the old one and the score.
- `Input`: the click handler. It fires 1, 3 or 5 bullets by power level and
  moves the player, or restarts after game over.
- `Spawning`: spawning of enemies and powerups, with the random draws and
  the x position as parameters.
- `Game`: one animation frame (spawn, move, resolve; nothing once the game
  is over), runs of frames and clicks, and the invariant over every run.

Enemy records keep only position, kind and hit points. Size, speed and
points are copied from the kind's table row at spawn and never written
again, so the model reads them from the table. Colours only matter for
drawing and are not modelled. The source's in-place
`hp--` on an object shared with the previous state is modelled as a value
update.

Dafny's `/` by a positive divisor rounds down for every sign, as
`Math.floor(a / b)` does, so the difficulty formula needs no adjustment.

Behaviour of the code worth knowing:

- A bullet is dropped once its top edge reaches y ≤ 0. Every fired bullet
  starts at y 480 and rises 7 a frame, so it is dropped at y −3. At that
  point one row of its 4×4 collision box is still inside the field.
- An enemy dies when its hit points reach 0 or below.
- The player–enemy scan stops at the first enemy touched, even when a shield
  was spent on it, so one frame costs at most one shield.
- The difficulty is computed in the movement step from the score before this
  frame's kills.
- The player has no size fields and relies on the test's 30×30 default.

Collision boxes are anchored at an entity's top-left (x, y). The renderer
centres the player's square and the bullets' squares on (x, y) instead, so
what is drawn and what collides are offset. The model keeps the collision
geometry as written.

## Model

| member | source | states |
|---|---|---|
| `Geometry.Collides` | src/ShootingGame.jsx:373-378 | `checkCollision`: whenever some integer cell lies inside both boxes they collide, for any sizes (the converse, for positive sizes, is `Geometry.CollidesIffSharedCell`) |
| `Geometry.Extent` | src/ShootingGame.jsx:375-377 | a missing size and a zero size both read as 30; any other size is used as is |
| `Geometry.CollidesIffSharedCell` | src/ShootingGame.jsx:373-378 | for boxes of positive size, the test holds exactly when some integer cell lies inside both boxes |
| `Geometry.TouchingEdgesDoNotCollide` | src/ShootingGame.jsx:373-378 | boxes that only share an edge do not collide, because every comparison is strict |
| `Geometry.CollidesSymmetric` | src/ShootingGame.jsx:373-378 | with explicit non-zero sizes on both sides, swapping the arguments does not change the answer |
| `Geometry.MissingSizeMeansThirty` | src/ShootingGame.jsx:375-377 | a first box with no size, or with width 0, collides exactly like a 30×30 box |
| `Geometry.OverlapExamples` | src/ShootingGame.jsx:373-378 | (0,0,10,10) overlaps (5,5,10,10); (0,0,10,10) does not overlap (20,20,10,10) |
| `Entities.Stats` | src/ShootingGame.jsx:111-115 | every enemy kind has a positive size, speed and point value and at least one hit point |
| `Entities.Initial` | src/ShootingGame.jsx:7-16 | the start state keeps the stored high score; the player is at (200, 500) with level 1 and no shield; every list is empty; score 0, difficulty 1, not over; valid when the stored score is not negative |
| `Movement.Advance` | src/ShootingGame.jsx:178-186 | the map-then-filter of the movement step: every stepped element that passes the bound is kept, every kept element passes it and is a stepped input, and the output is no longer than the input |
| `Movement.AdvanceAppend` | src/ShootingGame.jsx:178-186 | moving a concatenation moves each part in place, so kept entities keep their relative order |
| `Movement.MoveBullets` | src/ShootingGame.jsx:178-180 | a bullet is kept, 7 higher, exactly when its new y is above 0 |
| `Movement.MoveEnemies` | src/ShootingGame.jsx:181-183 | an enemy is kept, lowered by its kind's speed, exactly when its new y is below 600 |
| `Movement.MovePowerups` | src/ShootingGame.jsx:184-186 | a powerup is kept, 1 lower, exactly when its new y is below 600 |
| `Movement.Difficulty` | src/ShootingGame.jsx:187 | the difficulty is at most 5 and at least 1 for a non-negative score; below 5 it is the thousand-point band the score lies in; it is 5 exactly from 4000 points on |
| `Movement.DifficultyMonotone` | src/ShootingGame.jsx:187 | a higher score never gives a lower difficulty |
| `Movement.DifficultyExamples` | src/ShootingGame.jsx:187 | difficulty 1 at score 0, 2 at 1500, and 5 at every score from 5000 on |
| `Movement.Move` | src/ShootingGame.jsx:176-188 | after movement nothing is outside the field; bullets, enemies and powerups are exactly the moved-and-filtered lists of `Movement.MoveBullets`, `Movement.MoveEnemies` and `Movement.MovePowerups` (so every entity still on the field is kept, in order); every kept entity is an input entity moved by its step; player, score, high score and game-over flag are unchanged; the invariant is kept |
| `Collisions.LastHit` | src/ShootingGame.jsx:201-202 | the enemy a bullet strikes is the overlapping one with the highest index; when there is none, the bullet overlaps no enemy |
| `Collisions.Strike` | src/ShootingGame.jsx:203-209 | a hit takes exactly one hit point; the enemy is removed and its points scored exactly when its hit points were at most 1, and then it is that enemy that goes, the others keeping their order; otherwise it stays in place with one point less and every other enemy is unchanged |
| `Collisions.BulletPass` | src/ShootingGame.jsx:200-213 | hit points lost equal bullets removed; score gained equals the points of enemies removed; survivors keep ≥ 1 hp; every removed bullet overlapped an enemy; no kept bullet overlaps an enemy left; enemies are only removed or worn down, in order |
| `Collisions.LoneBulletRemovedIffOverlap` | src/ShootingGame.jsx:200-213 | a bullet tried against the enemies is removed exactly when it overlaps one of them, and then exactly one hit point is taken; otherwise enemies and score are untouched |
| `Collisions.ShootStage` | src/ShootingGame.jsx:192-213 | the bullet–enemy stage never lowers the score and changes nothing but bullets, enemies and score |
| `Collisions.UncaughtMembers` | src/ShootingGame.jsx:216-219 | a powerup survives pickup exactly when the player's box does not touch it |
| `Collisions.Absorb` | src/ShootingGame.jsx:222-233 | multishot raises the power level to at most 3, shield raises the shield, speedup changes nothing; the power level stays in [1, 3] |
| `Collisions.PowerupPass` | src/ShootingGame.jsx:216-235 | the back-to-front pickup scan leaves the untouched powerups in order; the power level ends at min(3, level + multishots caught); the shield is up if it was or a shield was caught |
| `Collisions.PickupStage` | src/ShootingGame.jsx:216-235 | the powerup stage keeps exactly the untouched powerups, keeps the power level in [1, 3], and changes nothing but the player and the powerups |
| `Collisions.FirstContact` | src/ShootingGame.jsx:238-239 | the front-to-back scan finds the first enemy the player touches, or reports that none is touched |
| `Collisions.Confront` | src/ShootingGame.jsx:238-252 | touching an enemy with a shield spends it and the game goes on; without one the game is over; with no contact nothing changes; position and power level never change |
| `Collisions.ContactStage` | src/ShootingGame.jsx:238-252 | the player–enemy stage removes no enemy and changes nothing but the shield and the game-over flag |
| `Collisions.Resolve` | src/ShootingGame.jsx:191-264 | the score never falls and rises by the points of the enemies removed; the high score never falls and ends at least the score; the shield counts one picked up this frame; the invariant is kept |
| `Input.Volley` | src/ShootingGame.jsx:353-362 | a volley has 1, 3 or 5 bullets for levels 1, 2, 3, all at one height, pairwise distinct, symmetric about the click, and for level n exactly at offsets −10(n−1) … 10(n−1) in steps of 10 |
| `Input.VolleyByLevel` | src/ShootingGame.jsx:354-362 | the volleys are [x], [x, x−10, x+10] and [x, x−10, x+10, x−20, x+20], in that order |
| `Input.Fire` | src/ShootingGame.jsx:352-369 | the player moves to the click x and keeps y, level and shield; the bullets become the old ones followed by exactly the `Input.Volley` fired at the click x from 20 above the player (so 1, 3 or 5 new bullets at x, x±10, x±20 by level); nothing else changes |
| `Input.Restart` | src/ShootingGame.jsx:332-343 | a restart puts the player at (200, 500) with level 1 and no shield, empties every list, zeroes the score, sets difficulty 1 and clears game over, and keeps the high score |
| `Input.Click` | src/ShootingGame.jsx:331-369 | a click restarts after game over and fires otherwise; it never changes the high score and keeps the invariant |
| `Spawning.EnemyKindFor` | src/ShootingGame.jsx:144-145 | a first draw at or below 0.7 gives a normal enemy; above it, a second draw above 0.5 gives a fast one and otherwise a tank |
| `Spawning.PowerupKindFor` | src/ShootingGame.jsx:160 | a draw in [0, 1) whose exact product with 3 lies in [0, 1), [1, 2) or [2, 3) picks multishot, speedup or shield |
| `Spawning.SpawnEnemy` | src/ShootingGame.jsx:146-154 | a new enemy is appended last at y 0 with its kind's full hit points, and nothing else changes |
| `Spawning.SpawnPowerup` | src/ShootingGame.jsx:161-171 | a new powerup is appended last at y 0, and nothing else changes |
| `Game.Frame` | src/ShootingGame.jsx:132-264 | a frame after game over changes nothing; otherwise nothing is left outside the field; score and high score never fall; the invariant is kept |
| `Game.RunKeepsInvariant` | src/ShootingGame.jsx:132-369 | from a valid state, any run of frames and clicks keeps the invariant and never lowers the high score |
| `Game.SessionKeepsInvariant` | src/ShootingGame.jsx:7-16 | every session from a stored high score stays valid and never drops below that high score |
| `Game.ShieldAbsorbsOneHit` | src/ShootingGame.jsx:238-252 | with no bullets or powerups in play, a shielded player touching an enemy survives one collision update with the shield spent, and the next update ends the game |
| `Game.DeathRecordsHighScore` | src/ShootingGame.jsx:238-262 | from any valid state with an unshielded player, the update ends the game exactly when a surviving enemy touches the player; the high score becomes the larger of the old high score and the final score (kills in that frame included); after a death the restart keeps it with the score back at 0 |
| `Game.SavedAsWritten` | src/ShootingGame.jsx:245-247 | storage is written only on a death whose final score beats the high score the state held before the collision update, and then with that score; otherwise it is kept |
| `Game.SavedAsWrittenLags` | src/ShootingGame.jsx:245-247 | with 500 stored and a high score of 800 reached in earlier frames, a death without further kills leaves 500 stored while the state's high score is 800 |
| `Game.Saved` | src/ShootingGame.jsx:245-247 | corrected write: never lowers storage; a death stores the state's new high score; no death leaves storage alone |
| `Game.SessionStep` | src/ShootingGame.jsx:132-369 | one event of a session drives the game exactly as `Game.Step` does, never lowers storage, and keeps storage in sync with the state's high score |
| `Game.SessionStaysInSync` | src/ShootingGame.jsx:132-369 | along any run, storage never exceeds the state's high score and equals it whenever the game is over, and the game follows `Game.Run` |
| `Game.StoredSessionInSync` | src/ShootingGame.jsx:7-16 | a session started from the stored value holds the state's high score in storage at every game over |

## Left out

- Rendering (src/ShootingGame.jsx:266-318) and the JSX markup (380-410): they draw the state and never change it.
- Sound (`createSound`, 92-108): Web Audio calls with no effect on the state; every sound is a no-op here.
- Sharing (`handleShare`, 24-89): a call into the host messaging platform plus alerts.
- Persistent storage (13, 247): the read and the write are I/O. The start state takes the stored value as a parameter. A `Game.Session` pairs the state with the stored value. The model uses the corrected write `Game.Saved`, not the one at 246-248 (see "## Findings"). Under the code as written, the stored value can fall behind the state's high score.
- `Entities.Initial`: a stored entry that does not parse to a non-negative integer (`NaN` or a negative value) is not modelled; a fractional entry is cut to its integer part by `parseInt`, which an integer parameter covers; validity is promised only for a non-negative stored high score.
- The animation-frame scheduling and the spawn timers (125-131, 143, 159, 320-328): whether a frame spawns an enemy or a powerup is a parameter of `Game.Frame`, not derived from timestamps and `1000 / difficulty`.
- Random draws (144-145, 150, 160, 165): they are parameters. Spawn x is an integer, where the source draws a fractional value.
- Click coordinate translation (346-348): DOM geometry; the click's field x is the input. In the source that x can be fractional, because the canvas's bounding-box offset can be. Like every position here, it is taken as an integer, so the player's and the bullets' x are integers too.
- React update batching and stale closures: the model applies each update to the previous state in order, as the functional `setGameState` updates do.
- The `default` branch of the powerup switch (231-232): unreachable, since every powerup has one of the three kinds.
- `Collisions.BulletPass`: "removed exactly when it overlapped an enemy still present" is stated as two halves. Every removed bullet overlapped some enemy of the frame's input. No kept bullet overlaps any enemy left at the end. `Collisions.LoneBulletRemovedIffOverlap` states the exact equivalence for one bullet tried on its own. For a whole scan, the model does not state which enemies were present at the moment each bullet was tried.
- `Spawning.PowerupKindFor`: the product `draw * 3` is taken in exact reals, not in double-precision floating point. Near the thirds the two can differ: the double nearest 1/3 lies just below 1/3 but its double product rounds to 1.0, so the source picks speedup where the model picks multishot. The double nearest 2/3 likewise gives shield in the source and speedup here. Floating-point rounding is not modelled.
- `Collisions.Resolve`: the bullet facts of `Collisions.ShootStage` (kept and removed bullets) are not repeated in its contract.

## Findings

| source | as written | input that shows it | evidently intended | confidence | as-written member | corrected member |
|---|---|---|---|---|---|---|
| src/ShootingGame.jsx:245-247 | on death, storage is written only when the final score beats `prev.highScore`, which line 262 has already raised to the best score of earlier frames | stored 500; the score reaches 800 over earlier frames, so the state's high score is 800; the player then dies in a frame without kills: nothing is written, storage keeps 500, and the next session starts from 500 | at game over, storage holds the session's high score | high (not executed) | `Game.SavedAsWrittenLags` | `Game.SessionStaysInSync` |
