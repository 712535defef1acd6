# Flux platformer core in Dafny

This project models the movement-and-collision core of the Flux 2D
platformer and the small state machines around it. Each part is modelled in
the form the Rust code takes.

- **Actor movement** (`actor.dfy`).
  - An `Actor` is a class whose `position` and `remainder` change in place.
  - `move_x` and `move_y` truncate the requested displacement to whole
    steps. They then walk one unit at a time against a list of `Solid`s and
    stop before the first step that would make the actor's box intersect
    one.
  - The callback each move ends with becomes a result:
    - `MoveX` returns whether `on_collide()` ran;
    - `MoveY` returns the argument given to `on_collide`, or `None` when it
      was not called.
  - The stepping loop is proved against `FreeSteps`, a recursive
    description of how far the sweep gets. `FreeStepsIsStopPoint` ties
    `FreeSteps` to a direct characterisation: every box passed is clear,
    and the next box is blocked when the move falls short.
- **Geometry** (`vector2.dfy`, `bound.dfy`, `solid.dfy`).
  - Vectors with real components.
  - Half-open box intersection.
  - Translation of a box.
  - The centred rectangle that both `Solid` and `Actor` use as their bound.
- **Actor manager** (`actor_manager.dfy`): a class with a map of actors and a
  monotonic `next_id` counter. Its invariant is that every key is below the
  counter, so a spawn never overwrites an existing actor.
- **Player** (`player.dfy`).
  - The `IsLanded` / `InJump` / `IsFalling` state machine, with coyote time
    and jump buffering.
  - The frame's velocity update in `handle_input`.
  - `actor_move`'s reactions to the collision callbacks.
- **Rigid body** (`rigid_body.dfy`).
  - The older tile-based body.
  - `check_collision`'s probe points.
  - The correction loops of `check_collision_tilemap`. Each loop is proved
    against `BackOff`, which describes where a loop stops.
- **Tiles and tile map** (`tile.dfy`, `tilemap.dfy`).
  - The half-open grid cell.
  - The row-major scan that builds the map from a 0/1 grid.
  - The viewport clamp.
- **Particles** (`particle_manager.dfy`).
  - The per-particle lifetime and tail counters.
  - The pool's tick-then-swap-remove compaction.
  - The capacity check when spawning a box of particles.
  - `change_alpha`.
- **Menu, levels, HUD** (`main_menu.dfy`, `level_manager.dfy`, `hud.dfy`).
  - Option cycling on an array of options.
  - The level progression.
  - The HUD's shake countdown.

Coordinates are `real`, and `f32::trunc` is `Numeric.Trunc`, which rounds
toward zero. Integers are unbounded. Random values, the gamepad, and the
flux-field step that extends a particle's tail are parameters.

Four consequences of the code as written are worth knowing:

- **Touching boxes do not intersect.** A box that only touches a solid's
  edge is not blocked by it (`Bounds.TouchingDoNotIntersect`). So an actor
  whose bottom edge is one unit above a solid's top can take one more step
  down, into the touching position. From the touching position the next
  step down overlaps the solid and is blocked, so that is where the actor
  rests and where the landing callback fires.
- **A landed player never starts falling through `actor_move`.**
  - Landing sets the vertical velocity to 0.
  - While landed, `handle_input` applies no gravity.
  - A `move_y` of 0 calls no callback.
  - So the branch of the y-callback that sets `IsFalling` and restarts the
    coyote timer is unreachable from any state where `IsLanded` implies
    `vy == 0`. The constructor establishes that state, and both
    `HandleInput` and `ActorMove` preserve it.
  - `Players.Player.ActorMove` proves this:
    `old(AtRestWhenLanded()) && old(movementStatus) == IsLanded ==> movementStatus == IsLanded`.
  - So a player who walks off a ledge stays `IsLanded` and gets no gravity.
    This reads like a defect, but no single corrected behaviour follows
    from the code. It is recorded here as an observation only: the model
    has no corrected version of it.
- **Deceleration can overshoot zero.** With no direction pressed, `handle_input`
  takes `deceleration` off the magnitude of `velocity.x` without stopping at
  0. A speed below `deceleration` therefore flips sign. For example, 1.0 with
  deceleration 2.0 becomes -1.0. `Players.Steer` states this case.
- **The left probe is asymmetric.** `check_collision`'s two `Left` probe
  points are `x + 1` and `x - 1` (`pad_x - 1` and `-1`).
  `RigidBodies.ProbePoints` keeps this asymmetry as written.

## Model

| member | source | states |
|---|---|---|
| Numeric.Trunc | src/actor.rs:26 | `f32::trunc` as an integer: the result lies within one unit of the argument, on the side of zero |
| Numeric.Clamp | src/tilemap.rs:36 | `f32::clamp`: the result lies in `[lo, hi]`, equals the value when it is inside, and the nearer bound otherwise |
| Numeric.RemTrunc | src/hud.rs:34-35 | Rust's `%` on `i32`: the remainder is smaller in magnitude than the divisor, takes the sign of the dividend, and differs from the dividend by a multiple of the divisor |
| Vectors.Vector2.Add | src/vector2.rs:31-37 | the sum differs from `self` by exactly `rhs` in each component |
| Vectors.AddZero | src/vector2.rs:17-22 | `zero()` is a two-sided identity of `+` |
| Vectors.AddAssign | src/vector2.rs:39-44 | `a += &b` leaves `a` equal to `&a + &b` |
| Bounds.BoundingBox.Translate | src/bound.rs:59-70 | translating by `v` shifts left/right by `v.x` and top/bottom by `v.y`, and keeps width and height |
| Bounds.IntersectsSymmetric | src/bound.rs:22-29 | `intersects` does not depend on argument order |
| Bounds.TouchingDoNotIntersect | src/bound.rs:22-29 | boxes that share only a vertical or horizontal edge do not intersect |
| Bounds.IntersectsIffInteriorsMeet | src/bound.rs:22-29 | for boxes of positive size, `intersects` holds iff the open interiors share a point |
| Bounds.ContainsIgnoresY | src/bound.rs:31-33 | `contains` gives the same answer for every `y` |
| Bounds.TranslateZero | src/bound.rs:59-70 | translating by the zero vector returns an equal box |
| Bounds.TranslateTwice | src/bound.rs:59-70 | translating by `u` then `v` is translating by `u + v` |
| Solids.Centred | src/solid.rs:11-18 | the bound has the given width and height, is centred on the position, and is well formed for non-negative sizes |
| Solids.CentredTranslate | src/solid.rs:11-18 | moving the centre by `v` moves the bound by `v` |
| Solids.Solid.Bound | src/solid.rs:11-18 | a solid's bound has the solid's width and height, is centred on its position, and is well formed for non-negative sizes |
| ActorMovement.CollideAtIffSomeIntersects | src/actor.rs:77-84 | `collide_at` is true iff some solid's bound intersects the box |
| ActorMovement.CollideWith | src/actor.rs:86-93 | `collide_with` is true iff some actor's bound intersects the box |
| ActorMovement.FreeStepsClear | src/actor.rs:30-40 | every box the sweep reaches, the last included, intersects no solid |
| ActorMovement.FreeStepsBlocked | src/actor.rs:32-38 | a sweep that stops short does so because the next unit step is blocked |
| ActorMovement.FreeStepsIsStopPoint | src/actor.rs:30-40 | the sweep length is the unique stop point: all boxes up to it are clear, and the next is blocked unless all steps were taken |
| ActorMovement.Sweep | src/actor.rs:25-62 | a move covers at most `abs(trunc(amount))` unit steps |
| ActorMovement.Actor.constructor | src/actor.rs:14-23 | `Actor::new` stores position and size, zero remainder, and is neither a child nor carried |
| ActorMovement.Actor.Bound | src/actor.rs:66-73 | the actor's bound has the actor's width and height, is centred on its position, and is well formed for non-negative sizes |
| ActorMovement.Actor.MoveX | src/actor.rs:25-42 | position moves by `Sweep` unit steps toward the sign of `amount`, never past `trunc(amount)` and only on x; `remainder.x` drops by `trunc(amount)`; the callback runs iff the move stopped short; a full move lands exactly at `trunc(amount)`; a box that moved ends clear of every solid |
| ActorMovement.Actor.MoveY | src/actor.rs:44-62 | the same sweep on y only; the callback argument is `None` for a zero step count, otherwise `Some(true)` iff blocked before finishing and `Some(false)` iff the whole distance was covered |
| ActorMovement.Actor.Steps | src/actor.rs:30-40 | the stepping loop ends `FreeSteps` units along, reports blocked iff it fell short, and a moved box is clear |
| ActorMovement.Walk | src/actor.rs:30-40 | the loop commits `taken` clear steps and ends with all steps taken or the next one blocked |
| ActorMovement.Displacement | src/actor.rs:30-40 | `k <= abs(trunc(amount))` unit steps move only the moved axis, with the sign of `amount` and at most `trunc(amount)`, and exactly `trunc(amount)` when all are taken |
| ActorMovement.StepsScale | src/actor.rs:36-37 | `k` unit steps toward `sign` cover `sign * k` units on their axis and none on the other |
| ActorMovement.AdvanceOneStep | src/actor.rs:32-36 | committing a clear step leaves the rest of the sweep to be taken from the moved box |
| ActorMovement.SweepEnds | src/actor.rs:30-40 | where the loop stops is exactly the sweep length, and a box that moved ends clear |
| ActorManagers.ActorManager.constructor | src/actor_manager.rs:14-19 | `new()` has `next_id == 0` and no actors |
| ActorManagers.ActorManager.SpawnActor | src/actor_manager.rs:21-28 | returns the old `next_id`, increments it by one, inserts under a fresh key, keeps every other entry, and the actor can be looked up |
| ActorManagers.ActorManager.GetActor | src/actor_manager.rs:34-36 | lookup succeeds iff the id is stored, yields the stored actor, and an id never issued yields `None` |
| ActorManagers.ActorManager.GetActorMut | src/actor_manager.rs:30-32 | the same lookup, changing nothing |
| ActorManagers.SpawnLookupScenario | src/actor_manager.rs:21-36 | two spawns on a fresh manager return 0 then 1, both are found and distinct, and id 999 yields `None` |
| Players.Countdown | src/player.rs:106-112 | a positive timer drops by one, any other is unchanged, and a non-negative timer stays non-negative |
| Players.Steer | src/player.rs:78-90 | left accelerates left; otherwise right accelerates right; otherwise a moving velocity moves by exactly `deceleration` toward and possibly past 0: it keeps its direction when its speed is at least `deceleration`, flips sign when the speed is below it, and 0 stays 0 |
| Players.GravityFor | src/player.rs:94-101 | for positive gravity the pull is positive and at most six times gravity; it is the sixfold pull exactly when falling without jump held; otherwise it is below gravity exactly when `vy < 25` |
| Players.Player.constructor | src/player.rs:24-43 | a 45 by 62 actor at `(x, y)`, zero velocity, both timers 0, `IsFalling`, facing left |
| Players.Player.HandleInput | src/player.rs:45-113 | the three status transitions (jump from `IsLanded` on press or buffer; `InJump` to `IsFalling` when moving down; coyote jump or buffering from `IsFalling`); `velocity.x` is the clamped steer result in `[-12, 12]`; airborne `velocity.y` ends in `[-jump_force, max_gravity]`; timers count down; facing follows the pressed direction |
| Players.Player.Transition | src/player.rs:51-76 | the status transition and the jump launch alone |
| Players.Player.SteerHorizontally | src/player.rs:78-92 | the steered, clamped horizontal velocity and the facing |
| Players.Player.ApplyAirGravity | src/player.rs:93-104 | airborne gravity and the vertical clamp; nothing changes when landed |
| Players.Player.CountDownTimers | src/player.rs:106-112 | both timers count down by one when positive |
| Players.Player.ActorMove | src/player.rs:119-144 | the actor moves by the x sweep, then by the y sweep from there; an x block zeroes `velocity.x`; a y block zeroes `velocity.y` and lands a player moving down; a full y move starts a fall with coyote time for a landed player; a landed player at rest stays landed; the actor's remainder drops by the truncated velocity on each axis |
| Tiles.Tile.Top | src/tile.rs:16-18 | `top` is one tile height above the cell's upper edge, for `grid_y >= 1` |
| Tiles.SameCell | src/tile.rs:20-27 | two grid indices whose cells of size `s` overlap are equal |
| Tiles.CellsDisjoint | src/tile.rs:20-27 | two tiles of the same positive size that both contain a point are the same cell |
| TileMaps.TileMap.LockViewportToTilemap | src/tilemap.rs:30-37 | x ends in `[vw/2, width - vw/2]` and y in `[-1e8, height - vh/2]`; a coordinate inside its range is unchanged, and one outside goes to the nearer edge, on all four sides |
| TileMaps.NewTileMap | src/tilemap.rs:11-28 | one tile per cell holding 1, at that cell's grid coordinates, in row-major order; width and height are the grid size times the tile size |
| TileMaps.RowTilesMembers | src/tilemap.rs:17-21 | a row scan yields exactly the filled cells of that row |
| TileMaps.GridTilesMembers | src/tilemap.rs:16-22 | the grid scan yields exactly the filled cells of the grid |
| TileMaps.RowTilesOrdered | src/tilemap.rs:17-21 | a row's tiles come in increasing column order |
| TileMaps.GridTilesOrdered | src/tilemap.rs:16-22 | the grid's tiles come row by row, each row in column order |
| TileMaps.ConcatRowMajor | src/tilemap.rs:16-22 | appending a later row to earlier rows keeps row-major order |
| RigidBodies.ProbePoints | src/rigid_body.rs:96-121 | up probes the art's two top corners and down its two bottom corners, starting at `(x + 2, y + 3)` or `(x + 2, y + 58)`, 48 apart; right probes column `x + 51` from `y + 3` down 55; left probes `(x + 1, y + 3)` and `(x - 1, y + 58)` |
| RigidBodies.CheckCollision | src/rigid_body.rs:85-129 | `check_collision` is true iff some tile contains one of the two probe points |
| RigidBodies.BackOffStops | src/rigid_body.rs:50-80 | a correction loop ends with the velocity no longer moving toward the wall, or with a clear probe |
| RigidBodies.BackOffWhole | src/rigid_body.rs:50-80 | the up and left loops only raise the velocity, the right loop only lowers it, always by a whole number of units |
| RigidBodies.BackOffPassesBlocked | src/rigid_body.rs:50-80 | every velocity a loop passed through still moved toward the wall and had a blocked probe |
| RigidBodies.RigidBody.UpdatePosition | src/rigid_body.rs:13-15 | position advances by velocity |
| RigidBodies.RigidBody.ApplyGravity | src/rigid_body.rs:17-19 | gravity 1.6 is added to `velocity.y` only |
| RigidBodies.RigidBody.AddVelocity | src/rigid_body.rs:21-23 | velocity is increased by the argument |
| RigidBodies.RigidBody.ClampVelocityX | src/rigid_body.rs:25-27 | `velocity.x` ends in `[max.x, max.y]`, unchanged when already inside, and `velocity.y` is untouched |
| RigidBodies.RigidBody.ClampVelocityY | src/rigid_body.rs:29-31 | the same for `velocity.y` |
| RigidBodies.RigidBody.StopY | src/rigid_body.rs:33-35 | `velocity.y` becomes 0 and `velocity.x` is kept |
| RigidBodies.RigidBody.CheckCollisionTilemap | src/rigid_body.rs:41-81 | only the velocity changes: a blocked downward `vy` becomes 0, then the up loop backs `vy` off, and the right and left loops back `vx` off |
| RigidBodies.RigidBody.BackOffUp | src/rigid_body.rs:49-58 | the up loop ends at `BackOff` of `vy` |
| RigidBodies.RigidBody.BackOffRight | src/rigid_body.rs:60-69 | the right loop ends at `BackOff` of `vx` |
| RigidBodies.RigidBody.BackOffLeft | src/rigid_body.rs:71-80 | the left loop ends at `BackOff` of `vx` |
| Particles.Particle.Update | src/particle_manager.rs:89-120 | a dead particle is unchanged; a live one loses one unit of lifetime and dies exactly when it reaches 0; the counter stays within the interval; the tail grows only when the counter wraps to 0, and stays 1 to 8 long |
| Particles.TailAfterPush | src/particle_manager.rs:113-119 | the new position is appended and the oldest is dropped once the tail reaches 9 |
| Particles.NewParticle | src/particle_manager.rs:72-87 | a live particle whose tail is its starting point, diameter 1 to 3, interval 2, counter 0 |
| Particles.Ticked | src/particle_manager.rs:22-23 | the pool keeps its length; a particle is alive after the tick iff it was alive with more than one frame left, and a live particle loses one frame of lifetime |
| Particles.SwapRemoveMultiset | src/particle_manager.rs:30-32 | swapping index `idx` with the last element and popping removes exactly that particle |
| Particles.RemoveLargestDead | src/particle_manager.rs:29-33 | popping the largest dead index moves a live particle (or the same one) into its place, so the remaining indices still name exactly the dead particles and no live particle is lost |
| Particles.ParticleManager.constructor | src/particle_manager.rs:14-18 | the pool starts empty |
| Particles.ParticleManager.Update | src/particle_manager.rs:20-34 | afterwards the pool holds exactly the particles alive after their own update, as a multiset, and no dead one |
| Particles.ParticleManager.TickAll | src/particle_manager.rs:21-27 | the pool is ticked, and the dead indices are recorded in increasing order |
| Particles.ParticleManager.RemoveDead | src/particle_manager.rs:29-33 | removing the recorded indices from the largest down keeps every live particle and leaves no dead one |
| Particles.ParticleManager.GenerateBoxOfParticles | src/particle_manager.rs:47-56 | nothing changes if the pool would exceed 1000; otherwise exactly `n` live particles with lifetime 180, placed inside the box, are appended |
| Particles.ChangeAlphaAsWritten | src/particle_manager.rs:164-170 | the upper 24 bits are kept; for alpha below 1 the low byte is `alpha * 256` rounded toward zero; an alpha outside `[0, 1]` leaves the colour unchanged |
| Particles.ChangeAlphaAsWrittenDropsFullOpacity | src/particle_manager.rs:166 | as written, alpha 1.0 gives low byte 0 while 0.999 gives 255 |
| Particles.ChangeAlpha | src/particle_manager.rs:164-170 | the upper 24 bits are kept, the low byte becomes `alpha * 255` rounded toward zero, and an out-of-range alpha leaves the colour unchanged |
| Particles.ChangeAlphaMonotone | src/particle_manager.rs:166 | corrected, the low byte grows with alpha and is 255 at alpha 1.0 |
| MainMenu.FirstSelected | src/main_menu.rs:121 | `position(is_selected)` is the first selected index, and `None` iff nothing is selected |
| MainMenu.NextIndex | src/main_menu.rs:128-141 | Down goes from `i` to `i + 1`, wrapping to 0, and from no selection to 0; Up goes from `i > 0` to `i - 1`, and from 0 or no selection to `len - 1` |
| MainMenu.Cycled | src/main_menu.rs:115-145 | an empty list is unchanged; otherwise only the flags change, and exactly the next index is selected |
| MainMenu.CycleRoundTrip | src/main_menu.rs:128-141 | with one option selected, cycling one way and then back restores the list |
| MainMenu.Position | src/main_menu.rs:121 | the scan finds the first selected option |
| MainMenu.CycleOption | src/main_menu.rs:115-145 | the array after `cycle_option` is `Cycled` of the array before |
| MainMenu.GetMainMenuOptions | src/main_menu.rs:72-84 | START, Co-Op and Credits at x 63 and y 90, 120, 150, with only START selected |
| MainMenu.Confirmed | src/main_menu.rs:97-105 | confirming yields a text iff some option is selected, and that text is the first selected option's |
| MainMenu.ConfirmOnlySelected | src/main_menu.rs:97-105 | with one option selected, confirming yields its text |
| MainMenu.HandleInput | src/main_menu.rs:86-108 | cycle up, then down, as pressed; on B, return the selected option's text |
| Levels.GetNextLevel | src/level_manager.rs:49-56 | the next level is the one after in play order, and there is none after Level4 |
| Levels.AdvanceOrdinal | src/level_manager.rs:49-56 | `n` steps from a level reach the level `n` places later, and run out exactly when that passes Level4 |
| Levels.LevelManager.constructor | src/level_manager.rs:17-23 | starts at Level1 with Level1 loaded |
| Levels.LevelManager.LoadNextLevel | src/level_manager.rs:25-38 | with no current level nothing changes; otherwise advances, loads the new level, and after Level4 clears the current level and keeps the loaded one |
| Levels.LevelManager.ReloadCurrentLevel | src/level_manager.rs:40-47 | the current level is kept and rebuilt |
| Levels.PlayThrough | src/level_manager.rs:17-56 | a fresh manager visits Level1 to Level4 and then none, with Level4 still loaded |
| Huds.ShakeAfter | src/hud.rs:27-36 | a unit change restarts the shake at `SHAKE_COUNT - 1`; otherwise a positive count drops by one and 0 stays 0 |
| Huds.SettleCountsDown | src/hud.rs:33-36 | after `f` quiet updates the count is `count - f`, or 0 once that many have passed |
| Huds.Hud.constructor | src/hud.rs:16-24 | every field starts at zero |
| Huds.Hud.Update | src/hud.rs:26-41 | both flux values are stored; the count follows `ShakeAfter` and stays below `SHAKE_COUNT`; offsets are the random values `% 2` while shaking and 0 when idle |

## Left out

- Drawing, audio and engine calls are not modelled (`sprite!`, `rect!`, `text!`, `draw*`, `camera`, `audio::play`), nor the `Display` impls.
- Random values and the gamepad are parameters.
- `src/flux.rs` is not part of this model. Its field numerics are floating point, and a particle's new tail position is a parameter of the tick.
- `src/lib.rs` is not part of this model. It is frame-loop glue, and its calls to `handle_input`, `pick_item` and `actor_move` pass an actor manager that the `src/player.rs` of this revision does not take. The model follows `src/player.rs`.
- `src/harvester.rs`, `src/door.rs`, `src/level.rs`, `src/background.rs` and `src/camera.rs` are not part of this model.
- Floating point is not modelled: no `f32` rounding, NaN or infinities. Coordinates are `real`, and `as` casts are truncation toward zero.
- `Actor.remainder` is only decremented by the step count, as the code does. It is never read back into later moves.
- `is_child` and `carried_by_player` are stored but not consulted. The model does the same.
- ActorManagers.ActorManager.SpawnActor: `next_id` is unbounded, so the `u32` overflow after 2^32 spawns is not modelled. The map stores `Actor` object references, so the move of ownership into the arena is not modelled either: the model allows one object to be spawned under two ids, and lets the caller keep changing an actor after spawning it. The distinctness in `ActorManagers.SpawnLookupScenario` is object identity only.
- ActorManagers.ActorManager.GetActorMut: returns the stored actor reference rather than a mutable borrow; the borrow discipline is not modelled.
- Vectors.AddAssign: modelled on values (the caller reassigns), not as an update of a field in place.
- Particles.Particle.Update: particles are values inside the pool, so a tick is a function from the old particle to the new one rather than an in-place update.
- Particles.ParticleManager.GenerateBoxOfParticles: the pool length check is `u32` arithmetic in the source. Its overflow is not modelled.
- `ParticleManager::draw` only draws and is not modelled. After `update` every particle in the pool is alive, so its early `break` never fires (`Particles.ParticleManager.Update`).
- `Player::pick_item` has an empty body and is not modelled. `Player::get_position` and `RigidBody::rotation_degrees` are accessors or floating point and are not modelled.
- Players.Player.HandleInput: `Vector2::clamp_x`/`clamp_y` are called at `src/player.rs:92` and `src/player.rs:103` but not defined in `src/vector2.rs`. They are modelled as a clamp of one component into `[lo, hi]`.
- Panics become preconditions. `Tiles.Tile.Top` requires `grid_y >= 1`, because `grid_y - 1` underflows a `usize` at 0. `TileMaps.NewTileMap` requires a non-empty grid, because it reads `data[0]`. `TileMaps.TileMap.LockViewportToTilemap`, `Numeric.Clamp`, `RigidBodies.RigidBody.ClampVelocityX` and `RigidBodies.RigidBody.ClampVelocityY` require ordered clamp bounds, because `f32::clamp` panics otherwise. `Particles.Particle.Update` requires a live particle to have `lifetime >= 1`, because the `u32` decrement at 0 panics in debug builds and wraps in release builds.
- Huds.Hud.Update: `FLUX_PER_UNIT` is used in `src/hud.rs:27` and defined outside `src/hud.rs`. It is a positive constructor parameter, and the flux-unit index is `trunc(flux / FLUX_PER_UNIT)`.
- Levels.LevelManager.LoadNextLevel: building a level's contents (`construct_level_1` to `construct_level_4`) is not part of this model. A loaded level is represented by the name it was built for.
- Players.Player.ActorMove: the callbacks are modelled as the value each move returns, applied after the move. The source calls them as the move's last action, so the resulting state is the same.

## Findings

| source | as written | input that shows it | evidently intended | confidence | as-written member | corrected member |
|---|---|---|---|---|---|---|
| src/particle_manager.rs:166 | `(alpha * 256.) as u32 & 0xff` | alpha 1.0: `256 & 0xff == 0`, so fully opaque becomes fully transparent, while 0.999 gives 255 | scale by 255, so alpha 1.0 gives 0xff | high (not executed) | Particles.ChangeAlphaAsWrittenDropsFullOpacity | Particles.ChangeAlphaMonotone |
