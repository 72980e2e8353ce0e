# Dino-Fu arena core in Dafny

Dino-Fu is a local-multiplayer arena game built on SFML. Up to four
dinosaurs, one per game controller, run, jump and dash across a tile
level and throw a boomerang at each other. A boomerang that touches
another player's hitbox kills them. The player who survives alone wins the
round.

This project models the simulation logic of the game and proves
properties of it:

- `geometry.dfy` (module `Geometry`): vectors and rectangles over the
  reals, the overlap test for boxes, the closest-point circle test,
  reflection, and `length` and `normalize`.
- `tilemap.dfy` (module `Tilemap`): the level layout and its expansion
  into 40 x 40 tile rectangles.
- `player.dfy` (module `Players`): the player controller. This covers the
  throw charge and its one-frame ready pulse, the launch velocity, the
  Normal/Dashing/Stunned movement machine, gravity, jumps and dashes,
  collisions with the tiles one axis at a time, the arena clamp, the kill
  latch and the frame-table animation with the one-shot death strip.
- `boomerang.dfy` (module `Boomerangs`): the boomerang. It moves through
  FlyingOut, Hanging, Returning and Caught, with drag on the way out and a
  ricochet off the first tile it touches each frame (damped on the way
  out). It homes back at a fixed speed and spins at a fixed rate.
- `runner.dfy` (module `Runner`): the frame loop of `main`. This covers
  joining in the menu, the start guard and the five loops of the gameplay
  frame: throw input and launch, movement and update, boomerang update,
  kills, and the stable sweeps. It also covers the one-second round-over
  timer and the reset to the menu.

The player and boomerang modules follow the same pattern:

- A datatype (`PlayerState`, `BoomerangState`) holds the values of the
  C++ class's mutable fields.
- Each member function becomes a step function on that value, and the
  lemmas state what the steps promise.
- A class (`Player`, `Boomerang`) carries the same fields and updates them
  in place, loops over the tiles included. Each method's postcondition
  equates the new `Model()` with the step function applied to the old one.

The game itself is the class `Runner.Game`, whose `Valid()` invariant
holds between frames. It says:

- at most four players, with increasing ids below four, each in a
  reachable state;
- at most one boomerang;
- no controller joined twice;
- the game-over trigger is set exactly in GameOver;
- in the menu, player `i` has id `i` and the `i`-th joined controller.

Floats are reals. Each `sf::Clock` is the time of its last restart, and
the caller passes the current time `now`. `std::sqrt` is a parameter
`sqrt`, whose only promise (`Geometry.IsSqrt`) is the non-negative square
root. Controller and keyboard reads become parameters: an `Intent` (left,
right, jump, dash) for `handleInput`, and a `Controls` value (throw button,
aim, movement) per player and frame. The aim is already normalised, or
zero inside the dead zone.

### Behaviour of the source that the model keeps

- Each tile loop of `Player::update` tests every tile against the hitbox
  from before the loop. `m_shape` is not moved inside the loop, so after
  the first snap no later tile can move the player again
  (`VerticalPassFirstHit`, `HorizontalPassFirstHit`).
- `m_animationTime` advances twice per update, at player.cpp lines 302
  and 358. A death therefore takes 36 updates, not 72 (`DeathTakes36Updates`).
- The gameplay frame calls `handleInput` twice per player. When both calls
  see the same time and the same buttons, the second changes nothing
  (`FrameCallsInputOnce`).
- A boomerang homes on `players[ownerId]`, indexing the list by owner id.
  After a sweep has removed players, that can be another player, and the
  update is skipped when the index is out of range (`BoomerangTurn`).
- The Returning boomerang is caught on the distance before it moves, and
  it does not move on that frame (`Transitions`).
- `releaseThrow`'s fallback to the dash direction never fires. The stored
  aim starts at (1, 0) and is only ever replaced by a non-zero sample
  (`ReleaseKeepsAim`).
- `Player::State::Stunned` and `AnimationState::Throwing` are never
  assigned. `Throwing` has no row in the frame table (`Players.Inv`,
  `FrameData`).
- The round-over timer uses time zero as "unset". A frame at exactly time
  zero therefore cannot start it (`RoundCheck`). With no players left at
  all, the round never ends.
- The sixth row of the level string is 21 characters long. The expansion
  still yields a tile per solid cell (`Tilemap.Level`).
- Neither `releaseThrow` nor the launch clears `readyToThrow`. Only the next
  `handleThrowInput` does, and that call returns early for a dead player.
  A player who released while a boomerang was in flight and was then
  killed therefore keeps the flag. The launch check in runner.cpp does not
  test `isAlive`, so that player launches, while still dying, once the
  boomerang is gone (`ThrowTurn` leaves dead players unchanged, and
  `ThrowPhase` launches from the first ready player).
- The constructor sets `m_isGrounded` to false, so a new player first
  falls (`Spawn`).

## Model

| member | source | states |
|---|---|---|
| Geometry.IntersectsIffCommonInterior | runner.cpp:419 | `findIntersection` yields a value iff some point lies strictly inside both boxes |
| Geometry.IntersectsSymmetric | runner.cpp:419 | the overlap test does not depend on which box asks |
| Geometry.ClosestPoint | boomerang.cpp:62-63 | the clamped point lies in the tile, and is the centre itself when the centre is in the tile |
| Geometry.CircleHitsIffOverlap | boomerang.cpp:61-71 | the squared-distance test reports a hit iff some point of the tile lies strictly inside the collision circle |
| Geometry.CentreInsideHits | boomerang.cpp:71-81 | a circle whose centre is on the tile always hits it, which is the case that needs the fallback normal |
| Geometry.ReflectFlipsNormal | boomerang.cpp:84-86 | reflection about a unit normal negates the velocity component along the normal |
| Geometry.ReflectKeepsTangent | boomerang.cpp:84-86 | reflection leaves every component perpendicular to the normal unchanged |
| Geometry.ReflectKeepsSpeed | boomerang.cpp:84-86 | reflection about a unit normal preserves the squared speed |
| Geometry.ReflectInvolution | boomerang.cpp:84-86 | reflecting twice about the same unit normal restores the velocity |
| Geometry.Length | boomerang.cpp:5-7 | `length` is non-negative, squares to the dot product, and is zero iff the vector is zero |
| Geometry.LengthBelowIff | boomerang.cpp:98 | `length(v) < k` holds iff the squared length is below `k` squared |
| Geometry.Normalize | boomerang.cpp:9-15 | `normalize` maps zero to zero and any other vector to a unit vector, never dividing by zero; `bnormalize` (runner.cpp, lines 33-37) is the same computation |
| Geometry.NormalizeKeepsDirection | boomerang.cpp:9-15 | a normalised non-zero vector is parallel to the input and points the same way |
| Tilemap.TileAt | runner.cpp:257-273 | the tile of cell (x, y) is the 40 x 40 square at (40x, 40y) |
| Tilemap.ExpandTiles | runner.cpp:254-277 | the two nested loops produce exactly the tile list `TilesOf(level)` |
| Tilemap.TileMembership | runner.cpp:254-277 | a rectangle is in the tile list iff it is the square of a `#` or `G` cell |
| Tilemap.TileCount | runner.cpp:254-277 | there are exactly as many tiles as solid cells |
| Tilemap.MapTilesAt | runner.cpp:254-277 | the tiles are in row-major order: a solid cell's tile comes after those of all earlier rows and of the solid cells to its left |
| Tilemap.RowTilesAt | runner.cpp:255-275 | within a row, a solid cell's tile comes after the tiles of the solid cells to its left |
| Tilemap.MapTilesFrom | runner.cpp:254-277 | every tile comes from a solid cell of the level |
| Tilemap.TilesOf | runner.cpp:254-277 | the tile list of a level; its meaning is carried by `ExpandTiles`, `TileMembership`, `TileCount`, `MapTilesAt` and `MapTilesFrom` |
| Tilemap.LevelShape | runner.cpp:233-248 | the `Level` layout: 14 rows of 20 cells, except the sixth row, whose extra 21st cell is empty |
| Tilemap.TilesInGrid | runner.cpp:254-277 | when every solid cell lies in the first `cols` columns, every tile lies within the 40 `cols` by 40 rows rectangle at the origin |
| Tilemap.LevelTilesInArena | runner.cpp:233-277 | every tile of the level lies inside the 800 x 560 arena |
| Players.Hitbox | player.cpp:446-448 | `getBounds` is the 48 x 48 box centred on the position (the origin is set to half the box at player.cpp line 43), so the position lies strictly inside it |
| Players.Spawn | player.cpp:6-45 | a new player stands at the given position with zero velocity, not grounded (so it first falls), in the Normal state, aiming and dashing to the right, facing right, idle at frame 0 with animation time 0, with every clock started at `now`; alive, not dying, not charging, not ready, and the player invariant holds |
| Players.Inv | player.cpp:6-45 | the facts every reachable player state keeps: never Stunned or Throwing, alive iff not Dying, finished only when dead, charging only in Normal, a non-zero aim, a dash direction of left or right, a non-negative clock; `Spawn` establishes it and every operation keeps it (`ThrowInput`, `MoveInput`, `Killed`, `StepFacts`) |
| Players.ThrowInput | player.cpp:98-121 | on a live player: ready iff the button was released while charging; charging iff held and (already charging or Normal); a zero aim keeps the old aim; a new charge zeroes the horizontal speed and restarts the charge clock, and nothing else zeroes it; a dead player is unchanged; only the throw fields and the horizontal speed change; the invariant is kept |
| Players.ThrowAim | player.cpp:101-106 | the ready flag drops, and a non-zero sample replaces the aim; nothing else changes |
| Players.ThrowCharge | player.cpp:108-114 | a press while not charging and Normal starts a charge, zeroing the horizontal speed and restarting the charge clock; nothing else starts one or touches the speed |
| Players.ThrowRelease | player.cpp:116-120 | releasing while charging ends the charge and raises the ready flag; nothing else changes |
| Players.LaunchVelocity | player.cpp:127-137 | `releaseThrow` returns 30 times the aim, or 30 times the dash direction when the aim is zero |
| Players.ReleaseKeepsAim | player.cpp:127-137 | in every reachable state the fallback is dead: `releaseThrow` leaves the state alone and returns 30 times the aim |
| Players.ChargeStarted | player.cpp:460-465 | `startThrowCharge` from Normal sets charging and restarts the charge clock at `now` and changes nothing else; outside Normal it changes nothing; motion is left alone and the invariant is kept |
| Players.ReadyIsAPulse | player.cpp:98-121 | the ready flag is never raised on two consecutive `handleThrowInput` calls |
| Players.MoveInput | player.cpp:144-194 | a dead, dashing or charging player is unchanged; otherwise the horizontal speed is exactly -5, +5 or 0 (left first) with the dash direction to match; a grounded jump sets the vertical speed to -10 and unsets grounded, and nothing else changes them; the dash button after the 1 s cooldown starts a dash and restarts both dash clocks, and nothing else changes the state; only the motion, dash and grounded fields change; the invariant is kept |
| Players.Steer | player.cpp:171-179 | the run speed and dash direction follow left, right or neither; nothing else changes |
| Players.Hop | player.cpp:181-184 | a grounded jump sets the vertical speed to -10 and grounded to false, and nothing else changes the state |
| Players.StartDash | player.cpp:186-191 | the dash button after the 1 s cooldown starts a dash and restarts both dash clocks, and nothing else does |
| Players.MoveInputIdempotent | player.cpp:144-194 | a second `handleInput` at the same time with the same buttons changes nothing |
| Players.Accelerate | player.cpp:214-230 | Normal: gravity 0.5 capped at 15; Dashing: vertical speed 0 and horizontal speed 25 times the dash direction until 0.15 s, then Normal with speed 0; Stunned: no change |
| Players.Fall | player.cpp:231-233 | vertical motion, after which the player is taken to be airborne; see `PhysicsGrounded` |
| Players.LandOn | player.cpp:240-249 | an overlap while falling snaps the hitbox onto the tile top, stops and grounds; while rising snaps under the tile and stops; at rest nothing changes |
| Players.VerticalPass | player.cpp:236-250 | the vertical tile loop over the pre-loop hitbox; it equals a snap onto the first overlapping tile (`VerticalPassFirstHit`) and changes only y, vy and grounded (`VerticalPassFrame`) |
| Players.FirstHit | player.cpp:236-250 | the index returned is the first tile the box overlaps, or -1 when there is none |
| Players.VerticalPassFirstHit | player.cpp:236-250 | the vertical loop, testing the box from before the loop, has the effect of landing on the first overlapping tile only |
| Players.VerticalPassFrame | player.cpp:236-250 | the vertical loop changes only the vertical position, the vertical speed and grounded |
| Players.BumpSide | player.cpp:264-271 | an overlap pushes the hitbox out on the side the player came from, and always stops horizontal motion |
| Players.HorizontalPass | player.cpp:260-272 | the horizontal tile loop over the pre-loop hitbox; it equals a push out of the first overlapping tile (`HorizontalPassFirstHit`) and changes only x and vx (`HorizontalPassFrame`) |
| Players.Advance | player.cpp:252-257 | horizontal motion, skipped while charging; see `ChargingHoldsPosition` |
| Players.HorizontalPassFirstHit | player.cpp:260-272 | the horizontal loop has the effect of bumping the first overlapping tile only |
| Players.HorizontalPassFrame | player.cpp:260-272 | the horizontal loop changes only the horizontal position and speed |
| Players.ClampHorizontal | player.cpp:279-285 | the centre ends in [24, 776]; a centre inside is left alone; past the left wall it is pinned to 24, past the right wall to 776, and the horizontal speed is zeroed |
| Players.ClampVertical | player.cpp:288-295 | the centre ends in [24, 536]; a centre inside is left alone; above the ceiling it is pinned to 24 with grounded kept, below the floor to 536 with grounded set, and the vertical speed is zeroed; only the floor grounds the player |
| Players.ClampToArena | player.cpp:279-295 | the hitbox ends inside the 800 x 560 arena; a hitbox already inside is left alone; a moved coordinate loses its speed; grounded is set by the floor or kept |
| Players.Physics | player.cpp:214-298 | the physics half of `update`: movement state, fall, vertical pass, advance, horizontal pass and the arena bounds, in the source's order; see `PhysicsFacts`, `PhysicsGrounded` and `ChargingHoldsPosition` |
| Players.PhysicsGrounded | player.cpp:233-295 | after the physics step the player is grounded exactly when the vertical pass found a tile while falling or the floor caught them |
| Players.PhysicsFacts | player.cpp:214-298 | a physics step keeps the player inside the arena, can only end a dash, and touches only position, velocity, grounded and the movement state |
| Players.TilePassesFrame | player.cpp:236-272 | the two tile loops with the advance between them touch only position, velocity and grounded |
| Players.ChargingHoldsPosition | player.cpp:252-257 | a charging player standing still keeps their horizontal position through a physics step |
| Players.FrameData | player.cpp:344-350 | the frame table has a row for every animation except Throwing, each with frames and a positive frame time |
| Players.Trunc | player.cpp:374 | `static_cast<int>` rounds toward zero: the result is the integer at most 1 away from the value on the side of zero |
| Players.CppRem | player.cpp:382 | the C++ `%`: the remainder lies strictly within the divisor's magnitude, takes the sign of the dividend, and the dividend minus it is the truncated quotient times the divisor |
| Players.ChooseAnimation | player.cpp:314-333 | Dashing picks the dash animation; Normal picks Jumping in the air, Running above 0.1 horizontal speed, else Idle; Stunned keeps the animation |
| Players.Pose | player.cpp:304-333 | a live player faces right above +0.1 horizontal speed and left below -0.1, and otherwise keeps facing; a dead player keeps facing and animation; a live player takes the chosen animation; nothing else changes |
| Players.DeathFrames | player.cpp:361-379 | the death strip touches only the completion latch and the frame |
| Players.LoopFrames | player.cpp:380-394 | a looping strip touches only the clock and the frame, and never makes the clock negative |
| Players.LoopFrame | player.cpp:380-394 | a looping animation shows frame floor(t / frameTime) mod count, inside its strip |
| Players.DyingFrame | player.cpp:361-379 | the death animation's frame always lies inside its strip |
| Players.PlayFrames | player.cpp:354-395 | the frame-table update: the clock advances a second time, Dying plays once, the rest loop; see `PlayFramesFacts`, `LoopFrame`, `DyingFrame` and `DyingStep` |
| Players.PlayFramesFacts | player.cpp:354-395 | the table step changes only the clock, the death latch and the frame; only the death strip latches |
| Players.Animate | player.cpp:300-395 | the animation half of `update`, which also runs for the dead; see `AnimateFacts`, `AnimateClock` and `Pose` |
| Players.AnimateFacts | player.cpp:300-395 | the animation half of `update` touches only the animation fields, and picks the animation from the movement state exactly for live players |
| Players.AnimateClock | player.cpp:300-395 | the animation clock never goes negative, and only the Dying animation latches `deathComplete` |
| Players.Step | player.cpp:196-200 | once the death animation has completed, `update` changes nothing |
| Players.StepFacts | player.cpp:196-399 | `update` keeps life and the throw fields, freezes a dead player's position and speed, keeps a live player in the arena, and keeps the invariant |
| Players.Killed | player.cpp:454-458 | `kill` makes the player dead, Dying, with animation time 0, and changes nothing else: the ready flag, aim, charge, velocity and movement state are kept; the invariant is kept |
| Players.DyingStep | player.cpp:358-379 | one update of a dying player moves the clock by 2/60 s and latches completion iff it reaches 1.2 s |
| Players.Steps | player.cpp:196-399 | `n` calls of `update`; see `DeathCountdown`, `DeathTakes36Updates` and `FinishedStaysFinished` |
| Players.DeathCountdown | player.cpp:361-372 | after `kill`, update n (n at most 35) leaves the clock at n/30 s and the death unfinished |
| Players.DeathTakes36Updates | player.cpp:361-372 | the death latches on the 36th update after `kill`, not before |
| Players.FinishedStaysFinished | player.cpp:200 | after completion, any number of updates is a no-op |
| Players.Player.constructor | player.cpp:6-45 | the fields are the spawn state at the given position, with the given id and controller id |
| Players.Player.Bounds | player.cpp:446-448 | `getBounds` is the hitbox around the current position |
| Players.Player.HandleThrowInput | player.cpp:98-121 | updates the fields exactly as `ThrowInput` |
| Players.Player.UpdateAim | player.cpp:101-106 | updates the fields exactly as `ThrowAim` |
| Players.Player.UpdateCharge | player.cpp:108-114 | updates the fields exactly as `ThrowCharge` |
| Players.Player.UpdateRelease | player.cpp:116-120 | updates the fields exactly as `ThrowRelease` |
| Players.Player.ReleaseThrow | player.cpp:127-137 | returns `LaunchVelocity` and stores the substituted aim |
| Players.Player.StartThrowCharge | player.cpp:460-465 | updates the fields exactly as `ChargeStarted` |
| Players.Player.HandleInput | player.cpp:144-194 | updates the fields exactly as `MoveInput` |
| Players.Player.Run | player.cpp:171-179 | updates the fields exactly as `Steer` |
| Players.Player.Jump | player.cpp:181-184 | updates the fields exactly as `Hop` |
| Players.Player.Dash | player.cpp:186-191 | updates the fields exactly as `StartDash` |
| Players.Player.Kill | player.cpp:454-458 | updates the fields exactly as `Killed` |
| Players.Player.Update | player.cpp:196-399 | updates the fields exactly as `Step` |
| Players.Player.ApplyMovementState | player.cpp:214-230 | updates the fields exactly as `Accelerate` |
| Players.Player.SettleVertical | player.cpp:236-250 | the vertical tile loop, against the hitbox from before the loop, equals `VerticalPass` |
| Players.Player.SettleHorizontal | player.cpp:260-272 | the horizontal tile loop equals `HorizontalPass` |
| Players.Player.ApplyBounds | player.cpp:279-295 | updates the fields exactly as `ClampToArena` |
| Players.Player.UpdateAnimation | player.cpp:300-395 | updates the fields exactly as `Animate` |
| Players.Player.UpdatePose | player.cpp:304-333 | updates the fields exactly as `Pose` |
| Players.Player.PlayAnimationFrames | player.cpp:357-394 | updates the fields exactly as `PlayFrames` |
| Players.Player.PlayDeathFrames | player.cpp:361-379 | updates the fields exactly as `DeathFrames` |
| Players.Player.PlayLoopFrames | player.cpp:380-394 | updates the fields exactly as `LoopFrames` |
| Boomerangs.Radius | boomerang.cpp:56 | the collision radius is positive and below half the hitbox side |
| Boomerangs.Launch | boomerang.cpp:17-24 | a new boomerang flies out from the start position with the given velocity, unrotated |
| Boomerangs.FirstCircleHit | boomerang.cpp:58-96 | the index returned is the first tile the circle touches, or -1 when there is none |
| Boomerangs.ContactNormal | boomerang.cpp:72-81 | the contact normal is a unit vector, or zero only for a boomerang at rest on the tile |
| Boomerangs.Direction | boomerang.cpp:76-77 | the offset divided by its length is a unit vector |
| Boomerangs.Against | boomerang.cpp:78-80 | `normalize(-v)` is a unit vector unless the velocity is zero |
| Boomerangs.DampFactor | boomerang.cpp:87 | a bounce scales the squared speed by a factor in (0, 1] |
| Boomerangs.Bounce | boomerang.cpp:83-92 | the tile loop's body on a hit: the bounced velocity and the pushed-out position; only those change (`BounceFrame`) |
| Boomerangs.BounceVelocity | boomerang.cpp:83-87 | a bounce multiplies the squared speed by 0.85 squared on the way out and keeps it on the way back; the velocity component along the contact normal changes sign, scaled by 0.85 on the way out |
| Boomerangs.Rebound | boomerang.cpp:83-87 | the same two facts about the reflection for any unit normal, or the zero normal of a boomerang at rest |
| Boomerangs.BounceKeepsTangent | boomerang.cpp:83-87 | the velocity component along the contact surface is kept, scaled by 0.85 on the way out |
| Boomerangs.PushOut | boomerang.cpp:89-92 | the centre moved along the contact normal by the penetration plus half a pixel; see `PushOutClears` |
| Boomerangs.Ricochet | boomerang.cpp:58-96 | the tile loop with its early break: a bounce off the first tile the circle touches, or nothing; see `RicochetAt`, `RicochetFrame` and `RicochetSpeed` |
| Boomerangs.RicochetAt | boomerang.cpp:58-96 | once the tiles before i have missed, a hit at i decides the loop's outcome, and running out of tiles means no change |
| Boomerangs.Homing | boomerang.cpp:114-121 | the return velocity has speed 5 and points straight at the owner, or is zero on top of them |
| Boomerangs.Spin | boomerang.cpp:175-176 | the rotation advances by 12 degrees and wraps once, staying in [0, 360) |
| Boomerangs.Fly | boomerang.cpp:48-169 | the state switch of `update`; see `StateAdvancesByOne`, `MovesWhenClear`, `Transitions`, `ReturnSpeedIsFixed` and `FlyingOutSlowsDown` |
| Boomerangs.Step | boomerang.cpp:48-181 | `update`: the state switch, then the spin; see the lemmas under `Fly` and `SpinStaysInRange` |
| Boomerangs.StateAdvancesByOne | boomerang.cpp:48-169 | each update moves the flight at most one stage forward, and a caught boomerang only spins |
| Boomerangs.MovesWhenClear | boomerang.cpp:50-53 | with no tile in the way it moves by its new velocity: drag first, then the move, and homing straight at the owner on the way back |
| Boomerangs.Transitions | boomerang.cpp:98-122 | FlyingOut to Hanging iff the squared speed after the bounce is below 1, restarting the hang clock; Hanging to Returning iff 0.05 s have passed; Returning to Caught iff the owner is closer than 20 before the move, without moving |
| Boomerangs.PushOutClears | boomerang.cpp:89-92 | the push-out leaves the centre exactly radius + 0.5 from the contact point |
| Boomerangs.RicochetSpeed | boomerang.cpp:83-92 | the tile loop never raises the squared speed, and keeps it exactly on the way back |
| Boomerangs.ReturnSpeedIsFixed | boomerang.cpp:111-164 | a returning boomerang that moves does so at exactly speed 5, ricochet or not |
| Boomerangs.FlyingOutSlowsDown | boomerang.cpp:50-96 | on the way out the squared speed shrinks by at least the drag squared per update |
| Boomerangs.SpinStaysInRange | boomerang.cpp:175-176 | any number of spins from [0, 360) stays in [0, 360) |
| Boomerangs.BounceFrame | boomerang.cpp:83-92 | a bounce changes only position and velocity |
| Boomerangs.RicochetFrame | boomerang.cpp:58-96 | the tile loop changes only position and velocity |
| Boomerangs.Boomerang.constructor | boomerang.cpp:17-46 | the fields are the launch state, with the given owner and hitbox side |
| Boomerangs.Boomerang.Bounds | boomerang.cpp:209-211 | `getBounds` is the square hitbox centred on the position |
| Boomerangs.Boomerang.Update | boomerang.cpp:48-181 | updates the fields exactly as `Step` |
| Boomerangs.Boomerang.CheckTiles | boomerang.cpp:58-96 | the tile loop with its early break equals `Ricochet`: only the first tile hit is handled |
| Boomerangs.Boomerang.BounceOff | boomerang.cpp:72-94 | updates the fields exactly as `Bounce` |
| Runner.Staying | runner.cpp:425-440 | the number of survivors of a prefix is at most its length |
| Runner.Kept | runner.cpp:425-440 | the erase-remove idiom: the elements whose flag is false, in order; see `KeptMembership`, `KeptAt`, `KeptLength` and `KeptOrdered` |
| Runner.KeptMembership | runner.cpp:425-440 | the sweep keeps exactly the unflagged elements |
| Runner.KeptAt | runner.cpp:425-440 | each survivor lands after exactly the survivors before it, so the order is kept |
| Runner.KeptLength | runner.cpp:425-440 | the swept list is as long as the number of unflagged elements |
| Runner.KeptOrdered | runner.cpp:425-440 | any order between earlier and later elements survives the sweep |
| Runner.RoundCheck | runner.cpp:442-454 | the trigger fires only with one player left, after a recorded start at least 1 s back; once fired it stays; more than one player clears the start; none changes nothing; the first sight of a single survivor records the time |
| Runner.GraceSecond | runner.cpp:442-450 | with one player left the round ends on the first frame at least a second after the first sighting, and not before |
| Runner.TriggerLatches | runner.cpp:442-454 | once fired, the trigger survives any later sequence of frames |
| Runner.RoundChecks | runner.cpp:442-454 | the round check over a run of frames; see `TriggerLatches` |
| Runner.ThrowTurn | runner.cpp:391-395 | a player's first-loop turn keeps the invariant, position and life; it leaves dead players alone; it raises the ready flag iff the throw was released while charging |
| Runner.MoveTurn | runner.cpp:403-405 | a player's second-loop turn keeps the invariant, life and the throw fields: the ready flag, aim, charging flag and charge clock |
| Runner.MovedStayValid | runner.cpp:403-406 | the second loop keeps every player's invariant |
| Runner.FrameCallsInputOnce | runner.cpp:395-405 | when both `handleInput` calls of a frame see the same time and buttons, the second is a no-op, so the frame is input once, then `update` |
| Runner.KillTurn | runner.cpp:419-421 | a strike kills in place, keeping the invariant |
| Runner.Strikes | runner.cpp:417-419 | the kill test: the boomerang's box overlaps the player's hitbox and the boomerang belongs to someone else |
| Runner.KillPass | runner.cpp:415-423 | the player after the first `n` boomerangs of the kill loop; see `KillPassResult` and `KillPassKeepsInv` |
| Runner.KillPassResult | runner.cpp:415-423 | a player is killed iff alive and some boomerang of another owner overlaps their box; a killed player is killed once, where they stand |
| Runner.KillPassKeepsInv | runner.cpp:415-423 | the kill loop keeps every player's invariant |
| Runner.TurnedStep | runner.cpp:365-413 | updating entity i extends the prefix pass by one |
| Runner.Turned | runner.cpp:365-413 | a pass over a list updating each entity with its own input; see `TurnedStep` |
| Runner.BoomerangTurn | runner.cpp:408-413 | a boomerang homes on the player at index `ownerId` and is skipped when that index is out of range |
| Runner.RemoveCaught | runner.cpp:425-431 | the `remove_if` loop keeps exactly the boomerangs not Caught, in order |
| Runner.RemoveFinished | runner.cpp:434-440 | the `remove_if` loop keeps exactly the players whose death has not completed, in order |
| Runner.SweptPlayersStayValid | runner.cpp:434-440 | the player sweep keeps ids increasing and below four, and every player valid |
| Runner.Game.constructor | runner.cpp:251-296 | start-up is the menu, with no players, boomerangs or joined controllers, and the expanded level |
| Runner.Game.Reset | runner.cpp:19-31 | `resetToMainMenu` empties every list, clears the trigger and the delay, and returns to the menu |
| Runner.Game.Join | runner.cpp:305-317 | in the menu, a new controller with fewer than four players gets player n with id n, its start position and that controller; otherwise nothing changes |
| Runner.Game.AddPlayer | runner.cpp:311-316 | the new player is appended with the next id and start position, and the controller is recorded |
| Runner.Game.MenuFrame | runner.cpp:327-342 | the start button enters Gameplay only with at least one player |
| Runner.Game.ThrowTurnAt | runner.cpp:392-395 | only player i changes, exactly by `ThrowTurn` |
| Runner.Game.MoveTurnAt | runner.cpp:404-405 | only player i changes, exactly by `MoveTurn` |
| Runner.Game.LaunchFrom | runner.cpp:396-399 | `releaseThrow` leaves the player unchanged, and one new boomerang owned by them is appended at their position with 30 times their aim |
| Runner.Game.ThrowTurnStep | runner.cpp:392-395 | player `i`'s first-loop turn extends the pass by one and keeps the launches so far |
| Runner.Game.LaunchStep | runner.cpp:396-399 | the launch check after player `i`'s turn: a ready player launches iff no boomerang is in the air, from the first ready player, and nothing else changes |
| Runner.Game.ThrowLoop | runner.cpp:365-400 | the first loop: every player's turn taken in order, and at most one launch, from the first ready player when no boomerang was in the air |
| Runner.Game.ThrowPhase | runner.cpp:365-400 | every player takes a throw turn; a boomerang in flight blocks launches; otherwise one is launched iff some player ends ready, and it comes from the first ready player |
| Runner.Game.MovePhase | runner.cpp:403-406 | every player takes a move turn, and the game invariant holds afterwards |
| Runner.Game.MoveLoop | runner.cpp:403-406 | the loop applies `MoveTurn` to every player in order |
| Runner.Game.BoomerangTurnAt | runner.cpp:409-412 | only boomerang k changes, exactly by `BoomerangTurn` |
| Runner.Game.BoomerangPhase | runner.cpp:408-413 | every boomerang homes on the player at the index of its owner id, and is skipped when there is none |
| Runner.Game.KillTurnAt | runner.cpp:417-421 | only player i changes, exactly by `KillTurn` |
| Runner.Game.KillAll | runner.cpp:416-422 | one boomerang's inner loop applies `KillTurn` to every player |
| Runner.Game.KillPhase | runner.cpp:415-423 | every player ends as `KillPass` says, and the game invariant holds |
| Runner.Game.KillLoop | runner.cpp:415-423 | the nested loops give every player the result of `KillPass` over all boomerangs |
| Runner.Game.SweepBoomerangs | runner.cpp:425-431 | caught boomerangs leave the list, the rest keep their order, and the invariant holds |
| Runner.Game.SweepPlayers | runner.cpp:434-440 | finished players leave the list, the rest keep their order, and the invariant holds |
| Runner.Game.RoundOverCheck | runner.cpp:442-454 | the timer moves exactly as `RoundCheck`, and the state is GameOver iff the trigger fired |
| Runner.Game.ThrowFrame | runner.cpp:365-400 | the first loop keeps the roster and the invariant, and never launches while a boomerang flies |
| Runner.Game.UpdateLoops | runner.cpp:365-413 | the three update loops keep the invariant and the roster, and stay in Gameplay |
| Runner.Game.ResolveFrame | runner.cpp:415-454 | kills, sweeps and the round check keep the invariant, and game over only comes with a single player left |
| Runner.Game.GameplayFrame | runner.cpp:365-454 | a gameplay frame keeps the invariant, and leaves Gameplay only for GameOver with exactly one player |
| Runner.Game.GameOverFrame | runner.cpp:464-473 | the restart button resets to an empty menu; otherwise nothing changes: the same players, boomerangs, joined controllers, delay and game-over flag |

## Left out

- Rendering is not modelled: `draw`, `drawAimIndicator`, sprites, textures, the texture rectangle (only its x offset `frameLeft` is kept), overlays and the menu previews. It is presentation only.
- Asset loading and the `std::cerr`/`std::cout` messages have no effect on the simulation.
- The window and its event loop are not modelled. The menu join is modelled as `Join` calls with the pressed controller's id. The fixed 60 Hz frame pacing is taken as given.
- Device polling is not modelled (`sf::Joystick`, `sf::Keyboard`, the axis thresholds and dead zone, the keyboard fallback for controller -1). Its results are parameters: `Intent`, `Controls` and the start and restart booleans.
- The random choice of the gameplay background affects nothing but drawing.
- `sf::Clock` is modelled as a restart time plus a caller-supplied `now`. Nothing constrains `now` to increase between calls.
- One `now` and one button sample stand for a whole frame. The source reads the dash-cooldown clock (player.cpp:186) and the controller's stick and buttons, or the keyboard (player.cpp:155-167), again on each `handleInput` call. A cooldown that runs out, or a key pressed, between the two calls at runner.cpp:395 and runner.cpp:404 could start a dash or change the run speed on the second call; `FrameCallsInputOnce` does not cover that case.
- IEEE single-precision rounding is not modelled: every float is a real. `Players.DeathTakes36Updates`: the count of 36 holds for exact arithmetic. With float accumulation of 1/60 the boundary update could differ by one.
- `std::sqrt` is a parameter assumed to return the exact non-negative root (`Geometry.IsSqrt`).
- The boomerang's hitbox side is a parameter (`Boomerang.size`, `Game.boomerangSize`), because it comes from the texture size (2.5 times its larger side).
- Per-instance constants that the source never changes are module constants: the dash speed, duration and cooldown, the hang duration and the rotation speed.
- `shared_ptr` ownership and object identity are left out. Players and boomerangs are heap objects in lists, and the game invariant requires distinct ids.
- Const getters (`getPosition`, `getId`, `isAlive`, `getReadyToThrow`, `isDeathAnimationComplete`, `getControllerId`, `getState`, `getOwnerId`) are plain field reads of the classes. `getFacingDirection` and `isChargingThrow` have no callers in the core.
- `Runner.Game.UpdateLoops`, `Runner.Game.ResolveFrame` and `Runner.Game.GameplayFrame` state the whole-frame invariant and the state transition only. The per-loop effects are stated by the phase methods they call (`ThrowPhase`, `MovePhase`, `BoomerangPhase`, `KillPhase`, the sweeps and `RoundOverCheck`).
- `Runner.Game.ThrowFrame` restates only the one-boomerang cap of `ThrowPhase`, for use by the frame.
