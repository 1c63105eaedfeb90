# Space Invaders rules, modelled in Dafny

This project models the game rules of a small browser Space Invaders game written with the
PIXI.js rendering library. The player moves along the bottom of a 640 by 480 field and fires a
single projectile at a time. A formation of aliens sweeps sideways, steps down at the edges and
drops projectiles. A hit on an alien scores 10 points. A hit on the player costs a life and
clears the field. The formation reaching the floor line ends the game.

The repository holds two versions of these rules, and both are modelled:

- **The modular version.**
  - `globals.dfy`: the shared game state and its two event subscriptions.
  - `projectile.dfy`: one projectile and its move and bounds test.
  - `projectiles_manager.dfy`: the list of live projectiles. It adds, removes by identity, resets,
    spawns enemy projectiles and runs a physics tick.
  - `player.dfy`: input, movement with its clamp, the single-shot lock, hits, the destroy
    animation and reset.
  - `enemies.dfy`: the 30-alien grid, the sideways and downward steps, the loss test near the
    floor, enemy fire, hits, win detection and reset.
- **The earlier all-in-one version**, `monolith.dfy`. One `Game` object holds the player, the
  enemy group and the projectile array. `MainLoop` runs one frame: the player step, the formation
  step, the shot timer, the projectile step and the collision pass.

`arrays.dfy` states the JavaScript array semantics both versions rely on: `findIndex` by
identity, `splice(start, 1)` with its negative-start rule, and a `forEach`/`map` pass whose
callback splices elements out of the array it is iterating. `Fates` states once which elements
such a pass visits. When the callback removes the element it is visiting, the next element
shifts into that slot and is not visited in that pass. The projectile tick and the collision
pass are both proved against `Fates`.

Objects the source updates in place are classes here, as are objects it shares by reference:
the global state, a projectile, the projectile list, the player, the enemy formation and the
all-in-one game. Enemies are values in a sequence field of their formation, and an enemy is known
by its index. Callbacks become data (`OnHitHook`, `OutOfBoundsHook`) or results handed back to
the caller (`restart`, `died`, `win`, `gameOver`). Values from `Math.random()` are parameters in
[0, 1). Texture and container sizes are parameters or fields.

The all-in-one version is modelled as written, defects included:

- The player clamp tests and writes `player.x`, a property nothing else sets, so the player's
  sprite is never kept in [50, 540] (`PlayerStep`, `PlayerLeavesBand`).
- `clear_projectiles` empties the array but leaves the player's `active` flag set. A player hit
  while its projectile is in flight therefore becomes `Stuck` and can never shoot again.
  `PlayerOnHit` ensures `active ==> Stuck()`, and every step preserves `Stuck`.
- The modular version has defects of its own that the contracts state: `removeProjectile`
  removes the last projectile when it is given one that is not listed, and `forEach` skips the
  element after one that is spliced out. Where a contract states less than the code does, the
  member is named under "## Left out".

## Model

| member | source | states |
|---|---|---|
| Globals.Code | game/globals.js:1-6 | the four states are numbered below 4, and `Ok` is the only state numbered 0 |
| Globals.FromCode | game/globals.js:1-6 | a number stands for a state exactly when it lies in 0..3 |
| Globals.CodesRoundTrip | game/globals.js:1-7 | decoding a state's number gives the state back, encoding a valid number gives the number back, and distinct states have distinct numbers |
| Globals.GlobalState.constructor | game/globals.js:9-12 | the game starts in `Ok` with neither event subscribed |
| Globals.GlobalState.SetCurGameState | game/globals.js:19 | the current state becomes the given one and the subscriptions are untouched |
| Globals.GlobalState.SetOnGameOver | game/globals.js:26 | only the game-over subscription is replaced |
| Globals.GlobalState.SetOnGameWin | game/globals.js:33 | only the game-won subscription is replaced |
| Projectile.Projectile.Create | game/projectile/projectile.js:13-22 | a new projectile has no sprite, direction 0, no owner flag and no callbacks |
| Projectile.Projectile.Ready | game/projectile/projectile.js:29-30 | the sprite is placed exactly at the given position and keeps its size |
| Projectile.Projectile.Move | game/projectile/projectile.js:59-65 | the sprite moves vertically by direction × 3 × dt, and the result is true exactly when its bottom edge leaves [0, 480] |
| Projectile.AdvanceMovesVertically | game/projectile/projectile.js:60 | a move changes only the vertical position, by direction × SPEED × dt, and two moves add up to one move of the summed time |
| Projectile.LeavingUpwardsIsFinal | game/projectile/projectile.js:59-65 | a projectile above the field that keeps moving up stays out of bounds |
| Arrays.FindIndex | game/projectile/projectiles_manager.js:89 | the result is -1 exactly when the element is absent; otherwise it is the first index holding the element |
| Arrays.SpliceOneShifts | game/projectile/projectiles_manager.js:90 | after `splice(start, 1)`, the elements before the start keep their index and the later ones move down by one |
| Arrays.RemoveByIdentity | game/projectile/projectiles_manager.js:88-91 | removing a present element deletes exactly its first occurrence, and the multiset loses one copy; removing an absent one deletes the last element |
| Arrays.RemovingAbsentDropsLast | game/projectile/projectiles_manager.js:88-91 | a concrete case: removing 7 from [1, 2, 3] leaves [1, 2] |
| Arrays.VisitedWithOwnVerdict | game/projectile/projectiles_manager.js:33-46 | an element the pass visits is treated by the callback's verdict on that element |
| Arrays.DropSkipsNext | game/projectile/projectiles_manager.js:33-46 | the element right after a spliced-out one is not visited |
| Arrays.SkippedOnlyAfterRemoval | game/projectile/projectiles_manager.js:33-46 | an element is skipped only right after a spliced-out one, or after the array was emptied |
| Arrays.NoRemovalVisitsAll | game/projectile/projectiles_manager.js:33-46 | when no element is removed, every element is visited and the array is unchanged |
| Arrays.RemovalSparesNext | game/projectile/projectiles_manager.js:33-46 | for every array and every verdict list with no emptying: the element right after a spliced-out one stays in the array, whatever its own verdict |
| Arrays.SecondOfTwoRemovalsSurvives | game/projectile/projectiles_manager.js:33-46 | a concrete example of `RemovalSparesNext`: of two elements that both ask to be removed, the second stays |
| Arrays.KeepMembers | game/projectile/projectiles_manager.js:33-46 | an element is in the array after the pass exactly when some position holding it survived |
| Arrays.KeepDistinct | game/projectile/projectiles_manager.js:33-46 | a pass over an array without repeats leaves an array without repeats |
| Arrays.KeepSubMultiset | game/index.js:346-407 | a pass only removes: what it keeps is a sub-multiset of what was there |
| ProjectilesManager.VerdictOf | game/projectile/projectiles_manager.js:34-41 | the tick splices out a projectile exactly when its moved sprite is out of the field, and never empties the list |
| ProjectilesManager.EnemyVariant | game/projectile/projectiles_manager.js:74 | the animation variant is 1, 2 or 3, with 1 for random values below 1/3 and 3 for values from 2/3 on |
| ProjectilesManager.DroppedIsGone | game/projectile/projectiles_manager.js:40-41 | a projectile the tick splices out is no longer in the list |
| ProjectilesManager.ProjectileList.constructor | game/projectile/projectiles_manager.js:6 | the list starts empty |
| ProjectilesManager.ProjectileList.AddProjectile | game/projectile/projectiles_manager.js:54-57 | the projectile is appended, and a list without repeats stays so when the projectile was not already listed |
| ProjectilesManager.ProjectileList.RemoveProjectile | game/projectile/projectiles_manager.js:88-91 | the list becomes `splice(findIndex(p), 1)`: a listed projectile loses exactly its first occurrence, and for an unlisted one the last projectile goes |
| ProjectilesManager.ProjectileList.Reset | game/projectile/projectiles_manager.js:97-108 | the list is emptied, every listed player projectile is unlocked, and nothing else about any projectile changes |
| ProjectilesManager.ProjectileList.InstantiateProjectile | game/projectile/projectiles_manager.js:73-81 | exactly one fresh downward enemy projectile is appended, with no callbacks, variant 1..3, at the given position |
| ProjectilesManager.ProjectileList.HitProjectile | game/projectile/projectile.js:43-50 | the `onHit` callback awards its points and releases the lock, then the projectile is removed through `removeProjectile` |
| ProjectilesManager.ProjectileList.Visit | game/projectile/projectiles_manager.js:34-45 | one callback call: the projectile moves, and exactly when it leaves the field it is spliced out at its index and its `outOfBounds` callback releases the lock |
| ProjectilesManager.ProjectileList.PhysicsTick | game/projectile/projectiles_manager.js:32-47 | the list becomes the survivors given by `Fates` of the verdicts of `move`, still without repeats; exactly the visited projectiles moved; exactly the spliced-out ones with a releasing callback were unlocked |
| Player.HeldAfter | game/player/player.js:94-98 | after a key event, its code is held exactly when the event is a keydown, and every other code is unchanged |
| Player.MoveIntent | game/player/player.js:100-102 | the intent is -1, 0 or 1: it is 1 exactly when a right key is held and no left key, and -1 exactly in the mirror case |
| Player.Clamped | game/player/player.js:128-133 | the position ends up in [50, 540]; inside the range it is unchanged, and outside it goes to the nearer edge |
| Player.ClampIdempotentMonotone | game/player/player.js:128-133 | clamping twice equals clamping once, and clamping keeps the order of positions |
| Player.Muzzle | game/player/player.js:204-207 | the shot starts 2 left of the player's horizontal centre and half its height above its position |
| Player.Player.constructor | game/player/player.js:28-87 | the player starts with 3 lives, no score, no keys held, at (50, 380), with an unlocked projectile that moves up, belongs to the player, and awards 10 points and releases its lock |
| Player.Player.EmptyListInFlight | game/player/player.js:76 | an unlocked player with an empty list satisfies the lock-agrees-with-list invariant |
| Player.Player.AtMostOneInFlight | game/player/player.js:197-202 | under that invariant, at most one player projectile is in the list |
| Player.Player.TickKeepsInFlight | game/player/player.js:74 | the list's tick keeps the lock in step with the list: the player's projectile leaves the list exactly when its `outOfBounds` callback unlocks it |
| Player.Player.Shoot | game/player/player.js:197-211 | with the lock set, nothing changes; otherwise the lock is set, the projectile goes to the muzzle and is appended once; the invariant is kept |
| Player.Player.Input | game/player/player.js:94-119 | keys and intent are updated; a shoot keydown signals a restart exactly in `GameOver`; otherwise, while unlocked, it locks, places the projectile at the muzzle and appends it once, and while locked nothing else changes |
| Player.Player.PhysicsTick | game/player/player.js:125-134 | only the horizontal position changes: it becomes the clamp of the position plus intent × 2.5 × dt, so it stays in [50, 540] |
| Player.Player.GetBounds | game/player/player.js:140-148 | the box starts at the sprite's position and spans its width and height |
| Player.Player.OnProjectileHit | game/player/player.js:69-73 | the score rises by 10, the lock is released, the projectile is removed, and the invariant holds with the projectile gone |
| Player.Player.Hit | game/player/player.js:154-165 | the state becomes `PlayerDestroyed`, a life is lost, the list is emptied and the destroy animation starts; a lock that agreed with the list is released; every projectile that was listed keeps its sprite and setup, the player's ones are unlocked and the enemies' ones keep their flag |
| Player.Player.CompleteDestroyAnimation | game/player/player.js:166-174 | the player died exactly when no lives are left, and nothing changes then; otherwise it is idle and the state is `Ok` |
| Player.Player.OnLevelReset | game/player/player.js:180-182 | only the position changes, back to (50, 380) |
| Player.Player.Reset | game/player/player.js:185-191 | start position, score 0, 3 lives, idle; on a player already in that state it changes nothing |
| Enemies.KindOfRow | game/enemies/enemies.js:42-50 | rows 0-1 are `alien_1`, row 4 is `alien_3`, and the rows in between are `alien_2` |
| Enemies.LayoutInjective | game/enemies/enemies.js:53 | the 30 grid slots are distinct positions inside a 240 by 144 box |
| Enemies.BuildGrid | game/enemies/enemies.js:33-64 | the loop creates 30 enemies, and enemy `i` is at column `i / 5`, row `i % 5`, alive, visible and idle |
| Enemies.AliveIndices | game/enemies/enemies.js:163 | the result holds, in increasing order, exactly the indices of the alive enemies |
| Enemies.AllAlive | game/enemies/enemies.js:38 | with every enemy alive, the alive count is the number of enemies |
| Enemies.KillOne | game/enemies/enemies.js:122-125 | killing one alive enemy lowers the alive count by exactly one |
| Enemies.OtherFrame | game/enemies/enemies.js:95 | a toggle shows frame 0 or 1, and differs from a frame of 0 or 1 |
| Enemies.ToggleProperties | game/enemies/enemies.js:88-96 | the toggle changes only frames, and changes a frame exactly for the alive enemies; who is alive is unchanged; toggling twice restores the enemies |
| Enemies.ShotOrigin | game/enemies/enemies.js:166-171 | an enemy's shot starts centred horizontally on the enemy, at its bottom edge |
| Enemies.PickIndex | game/enemies/enemies.js:164 | `floor(random × n)` is an index below `n` |
| Enemies.ShotDelay | game/enemies/enemies.js:113 | the next shot delay lies in [20, 170) |
| Enemies.BandStepInBand | game/enemies/enemies.js:99-107 | after the edge rule a formation no wider than 540 lies in [50, 590], any formation lies right of 50 or flush with 590, and game over happens exactly on a step down at the right edge with the bottom near the floor |
| Enemies.Formation.constructor | game/enemies/enemies.js:11-64 | the formation starts with direction 1, move timer 30, shot timer 2, and the 30-enemy grid all alive |
| Enemies.Formation.ToggleFrames | game/enemies/enemies.js:88-96 | the loop leaves the enemies equal to `Toggled` of the enemies before |
| Enemies.Formation.StepDown | game/enemies/enemies.js:178-186 | the direction becomes left and the formation drops 36; game over exactly when the bottom is strictly within 32 of the floor line 425 |
| Enemies.Formation.KeepInBand | game/enemies/enemies.js:99-107 | the new position, row, direction and game-over signal are `BandStep` of the old ones: left of 50 it is placed on 50, turns right and drops 36 with no game over; past 590 it is placed flush with the edge and steps down, game over exactly when near the floor; otherwise nothing changes |
| Enemies.Formation.Shoot | game/enemies/enemies.js:158-172 | it shoots exactly when the alive counter is not 0; the shooter is the alive enemy at `floor(pick × count)` among the alive ones, the list keeps its projectiles, and one downward enemy projectile of variant 1..3, without callbacks, is appended at the shooter's shot origin |
| Enemies.Formation.PhysicsTick | game/enemies/enemies.js:81-115 | the move timer restarts at 30 with the frames toggled exactly when it runs out. The position, row, direction and game-over signal are `BandStep` of the position after the sideways step of `moveDir × 16 × dt`. The shot timer restarts in [20, 170) exactly when it runs out, and an enemy then shoots as `Shoot` states; the invariant is kept |
| Enemies.Formation.MoveStep | game/enemies/enemies.js:82-107 | the timer restarts at 30 and the frames toggle exactly when it runs out; then the new position, row, direction and game-over signal are `BandStep` of the position after the sideways step of `moveDir × 16 × dt` |
| Enemies.Formation.ShotStep | game/enemies/enemies.js:109-114 | the timer restarts in [20, 170) exactly when it runs out; an enemy shoots exactly then, if the alive counter is not 0: the picked alive enemy, with the list kept and its projectile appended as `Shoot` states |
| Enemies.Formation.OnHit | game/enemies/enemies.js:122-128 | the counter drops by one, and the enemy dies and shows the destroy animation from its first frame; hitting an alive enemy keeps the counter equal to the alive count |
| Enemies.Formation.CompleteDestroyAnimation | game/enemies/enemies.js:130-137 | the enemy becomes invisible and the container is measured again; win exactly when the counter is 0 |
| Enemies.Formation.Reset | game/enemies/enemies.js:143-155 | direction right, position (50, 64), every enemy revived, and the counter equal to the number of enemies; resetting a reset formation changes nothing |
| Monolith.FirstHit | game/index.js:360-381 | the hit is the first enemy, in container order, whose box strictly contains the point; none when no box contains it |
| Monolith.ShotVerdict | game/index.js:346-407 | the player's projectile is spliced out exactly when it is out of bounds or inside an enemy. An enemy projectile is spliced out exactly when it is out of bounds, and empties the array exactly when it is in bounds and inside the player |
| Monolith.OnlyPlayerShot | game/index.js:65-72 | while the player's projectile is listed at most once, its position is the one `findIndex` reports |
| Monolith.Destroyed | game/index.js:121-124 | a hit enemy keeps its box |
| Monolith.ToggleKeepsBoxes | game/index.js:313-315 | the frame toggle moves no enemy box |
| Monolith.FallenKeepsPlayerShots | game/index.js:337-343 | the projectile step keeps how often, and whether, the player's projectile is in the array |
| Monolith.Intent | game/index.js:292 | `right - left` is -1, 0 or 1: it is 0 exactly when both or neither key is held, and 1 exactly for right alone |
| Monolith.PlayerMoved | game/index.js:292 | only the sprite's horizontal position changes, by `(right - left) × 2 × dt` |
| Monolith.PlayerLeavesBand | game/index.js:292-299 | the player step's `PlayerMoved` does not keep the sprite in [50, 540]: from within one step of either edge, moving towards it, the sprite ends past it |
| Monolith.BuildAliens | game/index.js:252-266 | ten enemies, enemy `i` at (50 × (i % 5), 50 × (i / 5)) |
| Monolith.EdgeRuleInBand | game/index.js:318-327 | after the edge rule a formation no wider than 490 lies in [50, 540]; it drops 24 exactly when it was outside the band, and then faces right exactly when it was left of it |
| Monolith.EnemyShotFrom | game/index.js:133-140 | an enemy projectile of variant 1..3 with the texture's size, horizontally centred on the picked enemy's box and at its bottom edge |
| Monolith.Game.constructor | game/index.js:42-283 | state `Ok`, 3 lives, no score, player at (320, 400) with idle textures, no key held, no projectile active, the projectile sprite fresh, empty array; the container at (0, 0) with the measured size, direction 1, move timer 75 and first shot after 2.5; each of the ten enemies at its grid slot with its size, idle textures and frame 0; and the invariant holds |
| Monolith.Game.Input | game/index.js:50-78 | a move key sets its side; a shoot keydown with no active projectile places it 24 right of the player, appends it once and sets `active`; otherwise nothing else changes |
| Monolith.Game.PlayerOnHit | game/index.js:79-90 | the state becomes `PlayerDestroyed`, a life is lost, the array is emptied and the destroy animation starts; `active` is left set |
| Monolith.Game.ClearProjectiles | game/index.js:154-164 | only the array changes: it is emptied |
| Monolith.Game.CompletePlayerDestroy | game/index.js:91-101 | the player is idle, and the state is `PlayerFail` exactly when no lives are left, otherwise `Ok` |
| Monolith.Game.EnemyOnHit | game/index.js:121-125 | the enemy shows the destroy animation and stays in the container with its box |
| Monolith.Game.CompleteEnemyDestroy | game/index.js:126-129 | the enemy is removed from the container and the container is measured again |
| Monolith.Game.EnemyShoot | game/index.js:133-143 | the array gains exactly `EnemyShotFrom` of the enemy `floor(pick × count)`; the timer restarts in [20, 170) |
| Monolith.Game.PlayerStep | game/index.js:292-299 | the sprite becomes `PlayerMoved` of the old one, unclamped, and the clamped property stays undefined; no other field changes |
| Monolith.Game.ToggleAll | game/index.js:313-315 | the loop leaves the enemies equal to `Toggled` of the enemies before |
| Monolith.Game.FormationStep | game/index.js:307-327 | the sideways step of 48 and the toggle happen exactly when the timer runs out, which restarts at 75; the new position, row and direction are `EdgeRule` of the position after the step: left of 50 placed on 50, facing right, down 24; past 540 placed flush with it, facing left, down 24 |
| Monolith.Game.MoveProjectiles | game/index.js:337-343 | every enemy projectile falls by 3 × dt; the player's projectile rises by 3 × dt exactly when it is listed |
| Monolith.Game.HitEnemy | game/index.js:360-381 | the loop's result is `FirstHit` of the enemy boxes |
| Monolith.Game.Collide | game/index.js:346-407 | one callback call: the verdict is `ShotVerdict`, and each verdict's effect on the array, the flag, the score, the enemies and the state is stated |
| Monolith.Game.CollisionPass | game/index.js:346-407 | the array becomes `AfterPass` of the verdicts. The player is destroyed exactly when some visited enemy projectile hit it. `active` is cleared exactly when the player's projectile was visited and spliced out; that scores and destroys the first enemy hit exactly when it was in bounds |
| Monolith.Game.EnemiesStep | game/index.js:307-333 | the formation step's full effect as `FormationStep` states it; the shot timer restarts in [20, 170) exactly when it runs out, and the array then gains `EnemyShotFrom` of the enemies as the step left them, and is otherwise unchanged |
| Monolith.Game.Prepare | game/index.js:307-343 | `EnemyPhase` of the enemy-side state before and after: the formation as `EnemiesStep` leaves it, the array becomes `Fallen` of the array with the new enemy shot, and the player's projectile rises by 3 × dt exactly when it is listed; keys, size, player, score, state, lives and flag are unchanged |
| Monolith.Game.Advance | game/index.js:301-407 | an empty container leaves everything unchanged. Otherwise the enemy-side state `mid` is `EnemyPhase` of the state before (formation, timers and projectiles as `Prepare` leaves them), the collision pass from `mid`'s array and enemies ends with `CollisionOutcome` (array `AfterPass`; state, lives, score, `active` and the enemies as `CollisionPass` states), and position, direction, timers and the player's projectile sprite keep `mid`'s values; keys, size and the player are unchanged; the invariant is kept and `Stuck` is preserved |
| Monolith.Game.MainLoop | game/index.js:286-408 | outside `Ok` nothing changes. In `Ok` the keys and the container's size are left as they were, an undefined clamped property stays undefined, and the player sprite becomes `PlayerMoved` with the keys held at the start of the frame; with an empty container nothing else changes; otherwise the rest of the frame is as `Advance` states (`EnemyPhase` to `mid`, `CollisionOutcome` from `mid`, `Settled`). The invariant is kept, and a `Stuck` player stays stuck |
| Monolith.Game.OkFrame | game/index.js:291-407 | one frame in `Ok`: keys and size unchanged, an undefined clamped property stays undefined, the player sprite becomes `PlayerMoved` with the keys held at the start; an empty container leaves the enemy side, projectiles, score, state, lives and flag unchanged; otherwise `EnemyPhase` to `mid`, `CollisionOutcome` from `mid`, and `Settled(mid)`; the invariant is kept and `Stuck` is preserved |

## Left out

- Rendering, asset loading, the HUD, the DOM event wiring and animation playback are not modelled. An animation's completion is an operation the caller invokes.
- Positions and times are exact reals: floating-point rounding is not modelled.
- Sprite and container sizes come from textures and from measuring the container, so they are parameters or fields.
- `ready` of the enemy formation calls `container.set.position`, which does not exist. The constructor therefore leaves the container at the origin, and `ready` is not part of this model.
- The restart hook that `input` calls on a shoot keydown in `GameOver` is not defined in the shared globals. `Input` returns a restart signal instead of calling it.
- The `onDied`, `onGameOver` and `onGameWin` callbacks are results handed back to the caller.
- game/application/application.js, game/floor/floor.js and game/ui/hud.js are not part of this model. The floor line 425 appears as a constant.
- ProjectilesManager.ProjectileList.PhysicsTick: requires that the list holds no projectile twice and that every listed projectile has a sprite. The player only adds its own projectile while unlocked, so this holds in the game.
- ProjectilesManager.ProjectileList.PhysicsTick, ProjectilesManager.ProjectileList.TickFrom and Monolith.Game.PassFrom: the `forEach`/`map` loops are written as recursion over the visited index, one call per index.
- Arrays.SpliceOne: its own contract states only the length; what it keeps is stated by Arrays.SpliceOneShifts and Arrays.RemoveByIdentity.
- Monolith.Destroyed, Monolith.Game.EnemyOnHit and Enemies.Formation.OnHit: an enemy keeps its width and height when it switches to the destroy animation. In the source a sprite's size follows its current texture frame, so this assumes the destroy frames have the size of the idle frames.
- Monolith.Game.EnemyShoot: requires a non-empty container. The frame loop returns before shooting when the container is empty.
