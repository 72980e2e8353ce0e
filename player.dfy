/** The player controller of the arena (player.hpp, player.cpp).

    The pure part of the module describes one player's state as a value,
    `PlayerState`, and each member function of the C++ class as a step
    function on that value; the lemmas state what those steps promise.  The
    class `Player` carries the same fields as the C++ class and its methods
    change them in place, as the source does, each proved equal to its step
    function.

    An `sf::Clock` is modelled by the time of its last restart: the elapsed
    time is `now - start`, where `now` is passed in by the caller.  The
    device polling of `handleInput` becomes an `Intent` parameter. */
module Players {
  import opened Geometry

  /** `Player::State`. */
  datatype MoveState = Normal | Dashing | Stunned

  /** `Player::AnimationState`. */
  datatype AnimationState = Idle | Running | Jumping | Dashing | Throwing | Dying

  /** The buttons `handleInput` reads from the player's controller. */
  datatype Intent = Intent(left: bool, right: bool, jump: bool, dash: bool)

  /** One row of the animation table: first frame, number of frames and
      seconds per frame. */
  datatype Frames = Frames(start: int, count: int, frameTime: real)

  /** The mutable fields of `Player`.  `dashStart`, `cooldownStart` and
      `chargeStart` are the restart times of `m_dashTimer`,
      `m_dashCooldownTimer` and `m_throwChargeTimer`; `frameLeft` is the
      x offset of `m_currentFrame` in the sprite sheet. */
  datatype PlayerState = PlayerState(
    position: Vec,
    velocity: Vec,
    grounded: bool,
    state: MoveState,
    dashDirection: Vec,
    dashStart: real,
    cooldownStart: real,
    charging: bool,
    chargeStart: real,
    readyToThrow: bool,
    aim: Vec,
    alive: bool,
    deathComplete: bool,
    facingRight: bool,
    animationTime: real,
    animation: AnimationState,
    frameLeft: int)

  const HalfBox: real := 24.0        // half of the 48 x 48 hitbox
  const ArenaWidth: real := 800.0
  const ArenaHeight: real := 560.0
  const Gravity: real := 0.5
  const MaxFallSpeed: real := 15.0
  const RunSpeed: real := 5.0
  const JumpSpeed: real := 10.0
  const DashSpeed: real := 25.0
  const DashDuration: real := 0.15
  const DashCooldown: real := 1.0
  const ThrowSpeed: real := 30.0
  const FrameStep: real := 1.0 / 60.0
  const FrameWidth: int := 24        // width of one sprite-sheet frame

  const Right := Vec(1.0, 0.0)
  const Left := Vec(-1.0, 0.0)

  /** `getBounds()`: the 48 x 48 hitbox centred on the position. */
  function Hitbox(p: Vec): (r: Rect)
    ensures r.width == 2.0 * HalfBox && r.height == 2.0 * HalfBox
    ensures r.left + HalfBox == p.x && r.top + HalfBox == p.y
    ensures Inside(p, r)
  {
    Centered(p, 2.0 * HalfBox, 2.0 * HalfBox)
  }

  /** The constructor: standing still at `(x, y)`, facing right, idle, with
      every clock started at `now`. */
  function Spawn(p: Vec, now: real): (s: PlayerState)
    ensures s.position == p && s.velocity == Zero && !s.grounded && s.state == Normal
    ensures s.aim == Right && s.dashDirection == Right && s.facingRight
    ensures s.dashStart == now && s.cooldownStart == now && s.chargeStart == now
    ensures s.animation == Idle && s.animationTime == 0.0 && s.frameLeft == 0
    ensures Inv(s) && s.alive && !s.deathComplete && !s.charging && !s.readyToThrow
  {
    PlayerState(p, Zero, false, Normal, Right, now, now, false, now, false,
                Right, true, false, true, 0.0, Idle, 0)
  }

  /** The facts every reachable player state satisfies. */
  ghost predicate Inv(s: PlayerState) {
    s.state != Stunned &&
    s.animation != Throwing &&
    (s.alive <==> s.animation != Dying) &&
    (s.deathComplete ==> !s.alive) &&
    (s.charging ==> s.state == Normal) &&
    s.aim != Zero &&
    (s.dashDirection == Left || s.dashDirection == Right) &&
    0.0 <= s.animationTime
  }

  // ---------------------------------------------------------------------
  // Throwing (player.cpp, lines 98-137)
  // ---------------------------------------------------------------------

  /** `handleThrowInput`: the ready flag is a pulse raised on the frame the
      throw button is released after charging; a zero aim sample keeps the
      last aim. */
  function ThrowInput(s: PlayerState, pressed: bool, aim: Vec, now: real): (r: PlayerState)
    ensures !s.alive ==> r == s
    ensures s.alive ==> (r.readyToThrow <==> !pressed && s.charging)
    ensures s.alive ==> (r.charging <==> pressed && (s.charging || s.state == Normal))
    ensures s.alive ==> r.aim == (if aim == Zero then s.aim else aim)
    ensures s.alive && pressed && !s.charging && s.state == Normal ==>
      r.velocity.x == 0.0 && r.chargeStart == now
    ensures r.velocity.x != s.velocity.x ==>
      r.velocity.x == 0.0 && pressed && !s.charging && s.state == Normal
    ensures r == s.(readyToThrow := r.readyToThrow, charging := r.charging, chargeStart := r.chargeStart,
                    aim := r.aim, velocity := Vec(r.velocity.x, s.velocity.y))
    ensures Inv(s) ==> Inv(r)
  {
    if !s.alive then s
    else ThrowRelease(ThrowCharge(ThrowAim(s, aim), pressed, now), pressed)
  }

  /** The pulse is lowered and a non-zero aim sample is taken. */
  function ThrowAim(s: PlayerState, aim: Vec): (r: PlayerState)
    ensures r == s.(readyToThrow := false, aim := r.aim)
    ensures r.aim == if aim == Zero then s.aim else aim
  {
    s.(readyToThrow := false, aim := if aim.x != 0.0 || aim.y != 0.0 then aim else s.aim)
  }

  /** Pressing the button while free to move starts a charge, which stops
      the player. */
  function ThrowCharge(s: PlayerState, pressed: bool, now: real): (r: PlayerState)
    ensures r == s.(charging := r.charging, chargeStart := r.chargeStart, velocity := Vec(r.velocity.x, s.velocity.y))
    ensures r.charging <==> s.charging || (pressed && s.state == Normal)
    ensures pressed && !s.charging && s.state == Normal ==> r.velocity.x == 0.0 && r.chargeStart == now
    ensures r.velocity.x != s.velocity.x ==> r.velocity.x == 0.0 && pressed && !s.charging && s.state == Normal
  {
    if pressed && !s.charging && s.state == Normal
    then s.(charging := true, chargeStart := now, velocity := Vec(0.0, s.velocity.y))
    else s
  }

  /** Letting go of a charged button raises the pulse. */
  function ThrowRelease(s: PlayerState, pressed: bool): (r: PlayerState)
    ensures r == s.(charging := r.charging, readyToThrow := r.readyToThrow)
    ensures r.charging <==> s.charging && pressed
    ensures r.readyToThrow <==> s.readyToThrow || (!pressed && s.charging)
  {
    if !pressed && s.charging then s.(charging := false, readyToThrow := true) else s
  }

  /** The aim `releaseThrow` leaves behind: the dash direction stands in for
      a zero aim. */
  function ReleasedAim(s: PlayerState): Vec {
    if s.aim.x == 0.0 && s.aim.y == 0.0 then s.dashDirection else s.aim
  }

  /** `releaseThrow`'s result: thirty times the (substituted) aim. */
  function LaunchVelocity(s: PlayerState): (v: Vec)
    ensures s.aim != Zero ==> v == Scale(s.aim, ThrowSpeed)
    ensures s.aim == Zero ==> v == Scale(s.dashDirection, ThrowSpeed)
  {
    Scale(ReleasedAim(s), ThrowSpeed)
  }

  /** The stored aim is never zero, so the fallback of `releaseThrow` never
      fires and the call leaves the state as it is. */
  lemma ReleaseKeepsAim(s: PlayerState)
    requires Inv(s)
    ensures s.(aim := ReleasedAim(s)) == s
    ensures LaunchVelocity(s) == Scale(s.aim, ThrowSpeed)
  {
  }

  /** `startThrowCharge`: charging starts from Normal only; unlike the
      charge start inside `handleThrowInput` it neither checks that the
      player is alive nor stops the horizontal motion. */
  function ChargeStarted(s: PlayerState, now: real): (r: PlayerState)
    ensures r.charging <==> s.charging || s.state == Normal
    ensures s.state == Normal ==> r == s.(charging := true, chargeStart := now)
    ensures s.state != Normal ==> r == s
    ensures r.velocity == s.velocity && r.position == s.position && r.state == s.state
    ensures Inv(s) ==> Inv(r)
  {
    if s.state == Normal then s.(charging := true, chargeStart := now) else s
  }

  /** The ready flag lasts one frame: two consecutive `handleThrowInput`
      calls on a live player never both raise it. */
  lemma ReadyIsAPulse(s: PlayerState, p1: bool, a1: Vec, p2: bool, a2: Vec, now: real)
    requires s.alive
    ensures ThrowInput(s, p1, a1, now).readyToThrow ==>
      !ThrowInput(ThrowInput(s, p1, a1, now), p2, a2, now).readyToThrow
  {
  }

  // ---------------------------------------------------------------------
  // Movement input (player.cpp, lines 144-194)
  // ---------------------------------------------------------------------

  /** `handleInput` after the device has been read. */
  function MoveInput(s: PlayerState, i: Intent, now: real): (r: PlayerState)
    ensures !s.alive || s.state != Normal || s.charging ==> r == s
    ensures s.alive && s.state == Normal && !s.charging ==>
      r.velocity.x == (if i.left then -RunSpeed else if i.right then RunSpeed else 0.0) &&
      r.dashDirection == (if i.left then Left else if i.right then Right else s.dashDirection)
    ensures s.alive && s.state == Normal && !s.charging && i.jump && s.grounded ==>
      r.velocity.y == -JumpSpeed && !r.grounded
    ensures s.alive && s.state == Normal && !s.charging && i.dash && now - s.cooldownStart >= DashCooldown ==>
      r.state == MoveState.Dashing && r.dashStart == now && r.cooldownStart == now
    ensures r.velocity.y != s.velocity.y || r.grounded != s.grounded ==>
      i.jump && s.grounded && r.velocity.y == -JumpSpeed && !r.grounded
    ensures r.state != s.state ==>
      s.state == Normal && r.state == MoveState.Dashing && i.dash &&
      now - s.cooldownStart >= DashCooldown &&
      r.dashStart == now && r.cooldownStart == now
    ensures r.dashStart != s.dashStart || r.cooldownStart != s.cooldownStart ==> r.state != s.state
    ensures r == s.(velocity := r.velocity, grounded := r.grounded, dashDirection := r.dashDirection,
                    state := r.state, dashStart := r.dashStart, cooldownStart := r.cooldownStart)
    ensures Inv(s) ==> Inv(r)
  {
    if !s.alive then s
    else if s.state == Normal && !s.charging then StartDash(Hop(Steer(s, i), i), i, now)
    else s
  }

  /** Left, right or neither: the run speed and the dash direction. */
  function Steer(s: PlayerState, i: Intent): (r: PlayerState)
    ensures r == s.(velocity := Vec(r.velocity.x, s.velocity.y), dashDirection := r.dashDirection)
    ensures r.velocity.x == (if i.left then -RunSpeed else if i.right then RunSpeed else 0.0)
    ensures r.dashDirection == (if i.left then Left else if i.right then Right else s.dashDirection)
  {
    if i.left then s.(velocity := Vec(-RunSpeed, s.velocity.y), dashDirection := Left)
    else if i.right then s.(velocity := Vec(RunSpeed, s.velocity.y), dashDirection := Right)
    else s.(velocity := Vec(0.0, s.velocity.y))
  }

  /** A jump from the ground. */
  function Hop(s: PlayerState, i: Intent): (r: PlayerState)
    ensures r == s.(velocity := Vec(s.velocity.x, r.velocity.y), grounded := r.grounded)
    ensures i.jump && s.grounded ==> r.velocity.y == -JumpSpeed && !r.grounded
    ensures r != s ==> i.jump && s.grounded && r.velocity.y == -JumpSpeed && !r.grounded
  {
    if i.jump && s.grounded then s.(velocity := Vec(s.velocity.x, -JumpSpeed), grounded := false)
    else s
  }

  /** A dash once the cooldown has passed. */
  function StartDash(s: PlayerState, i: Intent, now: real): (r: PlayerState)
    ensures r == s.(state := r.state, dashStart := r.dashStart, cooldownStart := r.cooldownStart)
    ensures i.dash && now - s.cooldownStart >= DashCooldown ==>
      r.state == MoveState.Dashing && r.dashStart == now && r.cooldownStart == now
    ensures r != s ==>
      r.state == MoveState.Dashing && i.dash && now - s.cooldownStart >= DashCooldown &&
      r.dashStart == now && r.cooldownStart == now
  {
    if i.dash && now - s.cooldownStart >= DashCooldown
    then s.(state := MoveState.Dashing, dashStart := now, cooldownStart := now)
    else s
  }

  /** A second `handleInput` at the same time with the same buttons changes
      nothing. */
  lemma MoveInputIdempotent(s: PlayerState, i: Intent, now: real)
    ensures MoveInput(MoveInput(s, i, now), i, now) == MoveInput(s, i, now)
  {
  }

  // ---------------------------------------------------------------------
  // Physics (player.cpp, lines 196-298)
  // ---------------------------------------------------------------------

  /** The movement-state switch at the top of `update`. */
  function Accelerate(s: PlayerState, now: real): (r: PlayerState)
    ensures s.state == Normal ==>
      r.velocity == Vec(s.velocity.x, Min(s.velocity.y + Gravity, MaxFallSpeed)) && r.state == Normal
    ensures s.state == MoveState.Dashing ==>
      r.velocity.y == 0.0 &&
      (now - s.dashStart >= DashDuration <==> r.state == Normal) &&
      r.velocity.x == (if r.state == Normal then 0.0 else s.dashDirection.x * DashSpeed)
    ensures s.state == Stunned ==> r == s
    ensures r == s.(velocity := r.velocity, state := r.state)
  {
    match s.state
    case Normal =>
      var vy := s.velocity.y + Gravity;
      s.(velocity := Vec(s.velocity.x, if vy > MaxFallSpeed then MaxFallSpeed else vy))
    case Dashing =>
      var d := s.(velocity := Vec(s.dashDirection.x * DashSpeed, 0.0));
      if now - s.dashStart >= DashDuration
      then d.(state := Normal, velocity := Vec(0.0, d.velocity.y))
      else d
    case Stunned => s
  }

  /** Vertical motion, after which the player is taken to be airborne. */
  function Fall(s: PlayerState): PlayerState {
    s.(position := Vec(s.position.x, s.position.y + s.velocity.y), grounded := false)
  }

  /** The body of the vertical tile loop for an overlapping tile: landing
      when falling, a head bump when rising, nothing at rest. */
  function LandOn(s: PlayerState, tile: Rect): (r: PlayerState)
    ensures s.velocity.y > 0.0 ==>
      r == s.(position := Vec(s.position.x, tile.top - HalfBox), velocity := Vec(s.velocity.x, 0.0), grounded := true)
    ensures s.velocity.y < 0.0 ==>
      r == s.(position := Vec(s.position.x, tile.Bottom() + HalfBox), velocity := Vec(s.velocity.x, 0.0))
    ensures s.velocity.y == 0.0 ==> r == s
    ensures r == s.(position := Vec(s.position.x, r.position.y),
                    velocity := Vec(s.velocity.x, r.velocity.y), grounded := r.grounded)
  {
    if s.velocity.y > 0.0 then
      s.(position := Vec(s.position.x, tile.top - HalfBox), velocity := Vec(s.velocity.x, 0.0), grounded := true)
    else if s.velocity.y < 0.0 then
      s.(position := Vec(s.position.x, tile.top + tile.height + HalfBox), velocity := Vec(s.velocity.x, 0.0))
    else s
  }

  /** The vertical tile loop, tile by tile; every tile is tested against the
      same `box`, the hitbox from before the loop. */
  function VerticalPass(s: PlayerState, box: Rect, tiles: seq<Rect>): PlayerState
    decreases |tiles|
  {
    if |tiles| == 0 then s
    else
      var p := VerticalPass(s, box, tiles[..|tiles| - 1]);
      if Intersects(box, tiles[|tiles| - 1]) then LandOn(p, tiles[|tiles| - 1]) else p
  }

  /** The index of the first tile the box overlaps, or -1. */
  function FirstHit(box: Rect, tiles: seq<Rect>): (i: int)
    ensures -1 <= i < |tiles|
    ensures i >= 0 ==> Intersects(box, tiles[i])
    ensures forall j :: 0 <= j < |tiles| && (i < 0 || j < i) ==> !Intersects(box, tiles[j])
    decreases |tiles|
  {
    if |tiles| == 0 then -1
    else
      var p := FirstHit(box, tiles[..|tiles| - 1]);
      if p >= 0 then p
      else if Intersects(box, tiles[|tiles| - 1]) then |tiles| - 1
      else -1
  }

  /** Only the first overlapping tile matters: its snap zeroes the vertical
      velocity, and later overlaps find nothing to do. */
  lemma {:induction false} VerticalPassFirstHit(s: PlayerState, box: Rect, tiles: seq<Rect>)
    ensures var i := FirstHit(box, tiles);
      VerticalPass(s, box, tiles) == if i < 0 then s else LandOn(s, tiles[i])
    decreases |tiles|
  {
    if |tiles| > 0 {
      VerticalPassFirstHit(s, box, tiles[..|tiles| - 1]);
    }
  }

  /** The body of the horizontal tile loop for an overlapping tile: push
      out on the side the player came from, and stop. */
  function BumpSide(s: PlayerState, tile: Rect): (r: PlayerState)
    ensures s.velocity.x > 0.0 ==> r.position.x == tile.left - HalfBox
    ensures s.velocity.x < 0.0 ==> r.position.x == tile.Right() + HalfBox
    ensures s.velocity.x == 0.0 ==> r.position == s.position
    ensures r == s.(position := Vec(r.position.x, s.position.y), velocity := Vec(0.0, s.velocity.y))
  {
    var x :=
      if s.velocity.x > 0.0 then tile.left - HalfBox
      else if s.velocity.x < 0.0 then tile.left + tile.width + HalfBox
      else s.position.x;
    s.(position := Vec(x, s.position.y), velocity := Vec(0.0, s.velocity.y))
  }

  /** The horizontal tile loop, tile by tile, against the fixed `box`. */
  function HorizontalPass(s: PlayerState, box: Rect, tiles: seq<Rect>): PlayerState
    decreases |tiles|
  {
    if |tiles| == 0 then s
    else
      var p := HorizontalPass(s, box, tiles[..|tiles| - 1]);
      if Intersects(box, tiles[|tiles| - 1]) then BumpSide(p, tiles[|tiles| - 1]) else p
  }

  /** As for the vertical pass, only the first overlapping tile moves the
      player. */
  lemma {:induction false} HorizontalPassFirstHit(s: PlayerState, box: Rect, tiles: seq<Rect>)
    ensures var i := FirstHit(box, tiles);
      HorizontalPass(s, box, tiles) == if i < 0 then s else BumpSide(s, tiles[i])
    decreases |tiles|
  {
    if |tiles| > 0 {
      HorizontalPassFirstHit(s, box, tiles[..|tiles| - 1]);
    }
  }

  /** Horizontal motion, skipped while a throw is being charged. */
  function Advance(s: PlayerState): PlayerState {
    if !s.charging then s.(position := Vec(s.position.x + s.velocity.x, s.position.y)) else s
  }

  /** The left and right arena walls: position pinned, horizontal speed zeroed. */
  function ClampHorizontal(s: PlayerState): (r: PlayerState)
    ensures HalfBox <= r.position.x <= ArenaWidth - HalfBox
    ensures HalfBox <= s.position.x <= ArenaWidth - HalfBox ==> r == s
    ensures s.position.x < HalfBox ==> r.position.x == HalfBox && r.velocity.x == 0.0
    ensures s.position.x > ArenaWidth - HalfBox ==> r.position.x == ArenaWidth - HalfBox && r.velocity.x == 0.0
    ensures r.position.y == s.position.y && r.velocity.y == s.velocity.y
    ensures r.position.x != s.position.x ==> r.velocity.x == 0.0
    ensures r == s.(position := r.position, velocity := r.velocity)
  {
    if s.position.x - HalfBox < 0.0 then s.(position := Vec(HalfBox, s.position.y), velocity := Vec(0.0, s.velocity.y))
    else if s.position.x + HalfBox > ArenaWidth then s.(position := Vec(ArenaWidth - HalfBox, s.position.y), velocity := Vec(0.0, s.velocity.y))
    else s
  }

  /** The ceiling and the floor: position pinned, vertical speed zeroed, and
      the floor grounds the player. */
  function ClampVertical(s: PlayerState): (r: PlayerState)
    ensures HalfBox <= r.position.y <= ArenaHeight - HalfBox
    ensures HalfBox <= s.position.y <= ArenaHeight - HalfBox ==> r == s
    ensures s.position.y < HalfBox ==> r.position.y == HalfBox && r.velocity.y == 0.0 && r.grounded == s.grounded
    ensures s.position.y > ArenaHeight - HalfBox ==>
      r.position.y == ArenaHeight - HalfBox && r.velocity.y == 0.0 && r.grounded
    ensures r.position.x == s.position.x && r.velocity.x == s.velocity.x
    ensures r.position.y != s.position.y ==> r.velocity.y == 0.0
    ensures s.position.y + HalfBox > ArenaHeight ==> r.grounded
    ensures r.grounded ==> s.grounded || s.position.y + HalfBox > ArenaHeight
    ensures r == s.(position := r.position, velocity := r.velocity, grounded := r.grounded)
  {
    if s.position.y - HalfBox < 0.0 then s.(position := Vec(s.position.x, HalfBox), velocity := Vec(s.velocity.x, 0.0))
    else if s.position.y + HalfBox > ArenaHeight then
      s.(position := Vec(s.position.x, ArenaHeight - HalfBox), velocity := Vec(s.velocity.x, 0.0), grounded := true)
    else s
  }

  /** The bounds check that keeps the hitbox inside the 800 x 560 arena:
      the walls first, then the ceiling and the floor. */
  function ClampToArena(s: PlayerState): (r: PlayerState)
    ensures HalfBox <= r.position.x <= ArenaWidth - HalfBox
    ensures HalfBox <= r.position.y <= ArenaHeight - HalfBox
    ensures HalfBox <= s.position.x <= ArenaWidth - HalfBox && HalfBox <= s.position.y <= ArenaHeight - HalfBox ==>
      r == s
    ensures r.position.x != s.position.x ==> r.velocity.x == 0.0
    ensures r.position.y != s.position.y ==> r.velocity.y == 0.0
    ensures s.position.y + HalfBox > ArenaHeight ==> r.grounded
    ensures r.grounded ==> s.grounded || s.position.y + HalfBox > ArenaHeight
    ensures r == s.(position := r.position, velocity := r.velocity, grounded := r.grounded)
  {
    ClampVertical(ClampHorizontal(s))
  }

  /** The physics half of `update` for a live player. */
  function Physics(s: PlayerState, tiles: seq<Rect>, now: real): PlayerState {
    var a := Fall(Accelerate(s, now));
    var v := VerticalPass(a, Hitbox(a.position), tiles);
    var h := Advance(v);
    ClampToArena(HorizontalPass(h, Hitbox(h.position), tiles))
  }

  /** The vertical pass changes only the vertical coordinate, the vertical
      velocity and the grounded flag. */
  lemma {:induction false} VerticalPassFrame(s: PlayerState, box: Rect, tiles: seq<Rect>)
    ensures var r := VerticalPass(s, box, tiles);
      r == s.(position := Vec(s.position.x, r.position.y),
              velocity := Vec(s.velocity.x, r.velocity.y), grounded := r.grounded)
    decreases |tiles|
  {
    if |tiles| > 0 {
      var p := VerticalPass(s, box, tiles[..|tiles| - 1]);
      VerticalPassFrame(s, box, tiles[..|tiles| - 1]);
      if Intersects(box, tiles[|tiles| - 1]) {
        var r := LandOn(p, tiles[|tiles| - 1]);
        assert r.position.x == s.position.x && r.velocity.x == s.velocity.x;
      }
    }
  }

  /** The horizontal pass changes only the horizontal coordinate and the
      horizontal velocity. */
  lemma {:induction false} HorizontalPassFrame(s: PlayerState, box: Rect, tiles: seq<Rect>)
    ensures var r := HorizontalPass(s, box, tiles);
      r == s.(position := Vec(r.position.x, s.position.y), velocity := Vec(r.velocity.x, s.velocity.y))
    decreases |tiles|
  {
    if |tiles| > 0 {
      var p := HorizontalPass(s, box, tiles[..|tiles| - 1]);
      HorizontalPassFrame(s, box, tiles[..|tiles| - 1]);
      if Intersects(box, tiles[|tiles| - 1]) {
        var r := BumpSide(p, tiles[|tiles| - 1]);
        assert r.position.y == s.position.y && r.velocity.y == s.velocity.y;
      }
    }
  }

  /** A physics step keeps the player inside the arena, can only end a dash,
      and touches nothing but position, velocity, the grounded flag and the
      movement state. */
  lemma PhysicsFacts(s: PlayerState, tiles: seq<Rect>, now: real)
    ensures var r := Physics(s, tiles, now);
      r == s.(position := r.position, velocity := r.velocity, grounded := r.grounded, state := r.state) &&
      (r.state == s.state || r.state == Normal) &&
      HalfBox <= r.position.x <= ArenaWidth - HalfBox &&
      HalfBox <= r.position.y <= ArenaHeight - HalfBox
  {
    var a := Fall(Accelerate(s, now));
    assert a == s.(position := a.position, velocity := a.velocity, grounded := a.grounded, state := a.state);
    TilePassesFrame(a, tiles);
    var v := VerticalPass(a, Hitbox(a.position), tiles);
    var h := Advance(v);
    var z := HorizontalPass(h, Hitbox(h.position), tiles);
    assert Physics(s, tiles, now) == ClampToArena(z);
  }

  /** The two tile passes and the horizontal advance between them touch
      only position, velocity and the grounded flag. */
  lemma TilePassesFrame(a: PlayerState, tiles: seq<Rect>)
    ensures var v := VerticalPass(a, Hitbox(a.position), tiles);
      var h := Advance(v);
      var z := HorizontalPass(h, Hitbox(h.position), tiles);
      z == a.(position := z.position, velocity := z.velocity, grounded := z.grounded)
  {
    VerticalPassFrame(a, Hitbox(a.position), tiles);
    var v := VerticalPass(a, Hitbox(a.position), tiles);
    var h := Advance(v);
    assert h == a.(position := h.position, velocity := h.velocity, grounded := h.grounded);
    HorizontalPassFrame(h, Hitbox(h.position), tiles);
  }

  /** After a physics step the player is grounded exactly when the vertical
      pass landed them on a tile while falling, or the floor caught them:
      `update` clears the flag before the tile loop, and only a landing or
      the floor sets it again. */
  lemma PhysicsGrounded(s: PlayerState, tiles: seq<Rect>, now: real)
    ensures var a := Fall(Accelerate(s, now));
      var v := VerticalPass(a, Hitbox(a.position), tiles);
      Physics(s, tiles, now).grounded <==>
        (a.velocity.y > 0.0 && FirstHit(Hitbox(a.position), tiles) >= 0) || v.position.y > ArenaHeight - HalfBox
  {
    var a := Fall(Accelerate(s, now));
    VerticalPassFirstHit(a, Hitbox(a.position), tiles);
    var v := VerticalPass(a, Hitbox(a.position), tiles);
    assert v.grounded <==> a.velocity.y > 0.0 && FirstHit(Hitbox(a.position), tiles) >= 0;
    var h := Advance(v);
    HorizontalPassFrame(h, Hitbox(h.position), tiles);
    var z := HorizontalPass(h, Hitbox(h.position), tiles);
    assert z.grounded == v.grounded && z.position.y == v.position.y;
    assert Physics(s, tiles, now) == ClampToArena(z);
  }

  /** A player who is charging a throw and standing still stays where they
      are horizontally: `handleThrowInput` zeroed the horizontal velocity
      and nothing in the physics step gives it back. */
  lemma ChargingHoldsPosition(s: PlayerState, tiles: seq<Rect>, now: real)
    requires s.charging && s.state == Normal && s.velocity.x == 0.0
    requires HalfBox <= s.position.x <= ArenaWidth - HalfBox
    ensures Physics(s, tiles, now).position.x == s.position.x
    ensures Physics(s, tiles, now).velocity.x == 0.0
  {
    var a := Fall(Accelerate(s, now));
    VerticalPassFrame(a, Hitbox(a.position), tiles);
    var v := VerticalPass(a, Hitbox(a.position), tiles);
    HorizontalPassFirstHit(v, Hitbox(v.position), tiles);
  }

  // ---------------------------------------------------------------------
  // Animation (player.cpp, lines 300-395)
  // ---------------------------------------------------------------------

  /** The frame table; `Throwing` has no row. */
  function FrameData(a: AnimationState): (f: Option<Frames>)
    ensures f.None? <==> a == Throwing
    ensures f.Some? ==> 0 < f.value.count && 0.0 < f.value.frameTime
  {
    match a
    case Idle => Some(Frames(0, 4, 0.15))
    case Running => Some(Frames(4, 6, 0.1))
    case Jumping => Some(Frames(11, 1, 0.1))
    case Dashing => Some(Frames(22, 1, 0.1))
    case Dying => Some(Frames(14, 3, 0.4))
    case Throwing => None
  }

  /** `static_cast<int>` of a real: truncation toward zero. */
  function Trunc(r: real): (n: int)
    ensures 0.0 <= r ==> n as real <= r < n as real + 1.0
    ensures r < 0.0 ==> n as real - 1.0 < r <= n as real
  {
    if r >= 0.0 then r.Floor else -((-r).Floor)
  }

  /** C++ `%` on `int`: the remainder takes the sign of the dividend. */
  function CppRem(a: int, b: int): (m: int)
    requires b != 0
    ensures 0 <= a ==> 0 <= m < Abs(b)
    ensures a < 0 ==> -Abs(b) < m <= 0
    ensures a == CppQuot(a, b) * b + m
  {
    if a >= 0 then a % b else -((-a) % b)
  }

  /** C++ integer division, which truncates toward zero. */
  function CppQuot(a: int, b: int): int
    requires b != 0
  {
    if a >= 0 then a / b else -((-a) / b)
  }

  function Abs(b: int): int {
    if b < 0 then -b else b
  }

  /** The animation a live player's movement state selects. */
  function ChooseAnimation(s: PlayerState): (a: AnimationState)
    ensures s.state == MoveState.Dashing ==> a == AnimationState.Dashing
    ensures s.state == Normal ==>
      a == (if !s.grounded then Jumping else if s.velocity.x > 0.1 || s.velocity.x < -0.1 then Running else Idle)
    ensures s.state == Stunned ==> a == s.animation
  {
    match s.state
    case Dashing => AnimationState.Dashing
    case Stunned => s.animation
    case Normal =>
      if !s.grounded then Jumping
      else if (if s.velocity.x < 0.0 then -s.velocity.x else s.velocity.x) > 0.1 then Running
      else Idle
  }

  /** The frame-table part of the animation update, for an animation with a
      row `f`: the clock advances a second time, the death animation plays
      once and latches `deathComplete`, every other one loops. */
  function PlayFrames(s: PlayerState, f: Frames): PlayerState
    requires 0 < f.count && 0.0 < f.frameTime
  {
    var s1 := s.(animationTime := s.animationTime + FrameStep);
    if s.animation == Dying then DeathFrames(s1, f) else LoopFrames(s1, f)
  }

  /** The death strip, played once: past its end the last frame stays and
      `deathComplete` is latched. */
  function DeathFrames(s: PlayerState, f: Frames): (r: PlayerState)
    requires 0 < f.count && 0.0 < f.frameTime
    ensures r == s.(deathComplete := r.deathComplete, frameLeft := r.frameLeft)
  {
    var t := s.animationTime;
    if t >= f.frameTime * f.count as real then
      s.(deathComplete := true, frameLeft := (f.start + f.count - 1) * FrameWidth)
    else
      var i := Trunc(t / f.frameTime);
      var k := if i >= f.count then f.count - 1 else i;
      s.(frameLeft := (f.start + k) * FrameWidth)
  }

  /** A looping strip: the clock restarts once frame 0 comes round again
      after the strip's length. */
  function LoopFrames(s: PlayerState, f: Frames): (r: PlayerState)
    requires 0 < f.count && 0.0 < f.frameTime
    ensures r == s.(animationTime := r.animationTime, frameLeft := r.frameLeft)
    ensures 0.0 <= s.animationTime ==> 0.0 <= r.animationTime
  {
    var t := s.animationTime;
    var i := CppRem(Trunc(t / f.frameTime), f.count);
    s.(animationTime := if i == 0 && t >= f.frameTime * f.count as real then 0.0 else t,
       frameLeft := (f.start + i) * FrameWidth)
  }

  /** The animation half of `update`, which also runs for dead players. */
  function Animate(s: PlayerState): PlayerState {
    var s1 := Pose(s.(animationTime := s.animationTime + FrameStep));
    match FrameData(s1.animation)
    case None => s1
    case Some(f) => PlayFrames(s1, f)
  }

  /** A live player faces the way they move (with a dead zone of 0.1) and
      takes the animation their movement state selects; a dead one keeps
      both. */
  function Pose(s: PlayerState): (r: PlayerState)
    ensures r == s.(facingRight := r.facingRight, animation := r.animation)
    ensures r.animation == if s.alive then ChooseAnimation(s) else s.animation
    ensures s.alive && s.velocity.x > 0.1 ==> r.facingRight
    ensures s.alive && s.velocity.x < -0.1 ==> !r.facingRight
    ensures !s.alive || -0.1 <= s.velocity.x <= 0.1 ==> r.facingRight == s.facingRight
  {
    if !s.alive then s
    else
      var facing :=
        if s.velocity.x > 0.1 then true
        else if s.velocity.x < -0.1 then false
        else s.facingRight;
      s.(facingRight := facing, animation := ChooseAnimation(s))
  }

  /** A looping animation shows frame `floor(t / frameTime) mod count` of
      its strip, and the shown frame always lies inside the strip. */
  lemma LoopFrame(s: PlayerState, f: Frames)
    requires 0 < f.count && 0.0 < f.frameTime && s.animation != Dying
    requires 0.0 <= s.animationTime
    ensures var t := s.animationTime + FrameStep;
      PlayFrames(s, f).frameLeft == (f.start + (t / f.frameTime).Floor % f.count) * FrameWidth
    ensures f.start * FrameWidth <= PlayFrames(s, f).frameLeft <= (f.start + f.count - 1) * FrameWidth
  {
    var t := s.animationTime + FrameStep;
    assert 0.0 <= t / f.frameTime;
  }

  /** The shown frame of the death animation always lies inside its strip. */
  lemma DyingFrame(s: PlayerState, f: Frames)
    requires 0 < f.count && 0.0 < f.frameTime && s.animation == Dying
    requires 0.0 <= s.animationTime
    ensures f.start * FrameWidth <= PlayFrames(s, f).frameLeft <= (f.start + f.count - 1) * FrameWidth
  {
    var t := s.animationTime + FrameStep;
    assert 0.0 <= t / f.frameTime;
  }

  // ---------------------------------------------------------------------
  // update, kill, and the death sequence
  // ---------------------------------------------------------------------

  /** The frame-table step touches only the clock, the completion latch and
      the frame, and the latch can only be set by the death animation. */
  lemma PlayFramesFacts(s: PlayerState, f: Frames)
    requires 0 < f.count && 0.0 < f.frameTime
    ensures var r := PlayFrames(s, f);
      r == s.(animationTime := r.animationTime, deathComplete := r.deathComplete, frameLeft := r.frameLeft) &&
      (0.0 <= s.animationTime ==> 0.0 <= r.animationTime) &&
      (r.deathComplete ==> s.deathComplete || s.animation == Dying)
  {
    var s1 := s.(animationTime := s.animationTime + FrameStep);
    if s.animation == Dying {
      assert PlayFrames(s, f) == DeathFrames(s1, f);
    } else {
      assert PlayFrames(s, f) == LoopFrames(s1, f);
    }
  }

  /** The animation step picks the animation from the movement state of a
      live player, keeps a dead player's, and touches nothing but the
      animation fields. */
  lemma AnimateFacts(s: PlayerState)
    ensures var r := Animate(s);
      r == s.(animationTime := r.animationTime, facingRight := r.facingRight, animation := r.animation,
              deathComplete := r.deathComplete, frameLeft := r.frameLeft) &&
      r.animation == (if s.alive then ChooseAnimation(s) else s.animation)
  {
    var s0 := s.(animationTime := s.animationTime + FrameStep);
    var s1 := Pose(s0);
    assert ChooseAnimation(s0) == ChooseAnimation(s);
    assert s1 == s.(animationTime := s1.animationTime, facingRight := s1.facingRight, animation := s1.animation);
    match FrameData(s1.animation)
    case None =>
    case Some(f) =>
      var r := PlayFrames(s1, f);
      assert Animate(s) == r;
      PlayFramesFacts(s1, f);
      AnimationFieldsCompose(s, s1, r);
  }

  /** A change of the clock, facing and animation followed by a change of
      the clock, death latch and frame changes only the animation fields. */
  lemma AnimationFieldsCompose(s: PlayerState, s1: PlayerState, r: PlayerState)
    requires s1 == s.(animationTime := s1.animationTime, facingRight := s1.facingRight, animation := s1.animation)
    requires r == s1.(animationTime := r.animationTime, deathComplete := r.deathComplete, frameLeft := r.frameLeft)
    ensures r == s.(animationTime := r.animationTime, facingRight := r.facingRight, animation := r.animation,
                    deathComplete := r.deathComplete, frameLeft := r.frameLeft)
  {
  }

  /** The animation clock never goes negative, and only the death animation
      can latch `deathComplete`. */
  lemma AnimateClock(s: PlayerState)
    ensures var r := Animate(s);
      (0.0 <= s.animationTime ==> 0.0 <= r.animationTime) &&
      (r.deathComplete ==> s.deathComplete || r.animation == Dying)
  {
    var s1 := Pose(s.(animationTime := s.animationTime + FrameStep));
    match FrameData(s1.animation)
    case None =>
    case Some(f) =>
      assert Animate(s) == PlayFrames(s1, f);
      PlayFramesFacts(s1, f);
  }

  /** `update`: a finished death freezes the player; a dead one only
      animates; a live one moves and then animates. */
  function Step(s: PlayerState, tiles: seq<Rect>, now: real): (r: PlayerState)
    ensures s.deathComplete ==> r == s
  {
    if s.deathComplete then s
    else Animate(if s.alive then Physics(s, tiles, now) else s)
  }

  /** What one `update` keeps: life, the throw fields, a dead player's
      position and velocity, a live player's place inside the arena, and
      the invariant. */
  lemma StepFacts(s: PlayerState, tiles: seq<Rect>, now: real)
    ensures var r := Step(s, tiles, now);
      r.alive == s.alive && r.readyToThrow == s.readyToThrow && r.aim == s.aim &&
      r.charging == s.charging && r.chargeStart == s.chargeStart &&
      (!s.alive ==> r.position == s.position && r.velocity == s.velocity) &&
      (s.alive && !s.deathComplete ==>
         HalfBox <= r.position.x <= ArenaWidth - HalfBox &&
         HalfBox <= r.position.y <= ArenaHeight - HalfBox) &&
      (Inv(s) ==> Inv(r))
  {
    if !s.deathComplete {
      var p := if s.alive then Physics(s, tiles, now) else s;
      PhysicsFacts(s, tiles, now);
      AnimateFacts(p);
      AnimateClock(p);
      if Inv(s) && p.alive {
        assert ChooseAnimation(p) != Dying && ChooseAnimation(p) != Throwing;
      }
    }
  }

  /** `kill`: the player dies and the death animation starts from its first
      frame. */
  function Killed(s: PlayerState): (r: PlayerState)
    ensures !r.alive && r.animation == Dying && r.animationTime == 0.0
    ensures r == s.(alive := r.alive, animation := r.animation, animationTime := r.animationTime)
    ensures Inv(s) ==> Inv(r)
  {
    s.(alive := false, animation := Dying, animationTime := 0.0)
  }

  /** `n` calls of `update` with the same tiles and time. */
  ghost function Steps(s: PlayerState, tiles: seq<Rect>, now: real, n: nat): PlayerState
    decreases n
  {
    if n == 0 then s else Step(Steps(s, tiles, now, n - 1), tiles, now)
  }

  /** After `kill` the death animation runs for 35 updates, each moving
      its clock by two sixtieths of a second, and the 36th update latches
      `deathComplete`. */
  lemma {:induction false} DeathCountdown(s: PlayerState, tiles: seq<Rect>, now: real, n: nat)
    requires !s.alive && s.animation == Dying && !s.deathComplete && s.animationTime == 0.0
    requires n <= 35
    ensures Steps(s, tiles, now, n).animationTime == n as real / 30.0
    ensures !Steps(s, tiles, now, n).deathComplete
    ensures !Steps(s, tiles, now, n).alive && Steps(s, tiles, now, n).animation == Dying
  {
    if n > 0 {
      var p := Steps(s, tiles, now, n - 1);
      DeathCountdown(s, tiles, now, n - 1);
      assert p.animationTime == (n - 1) as real / 30.0;
      DyingStep(p, tiles, now);
      assert Steps(s, tiles, now, n) == Step(p, tiles, now);
    }
  }

  /** One update of a dying player: the clock moves twice, and the death
      latches once it reaches the 1.2 s of the three-frame strip. */
  lemma DyingStep(p: PlayerState, tiles: seq<Rect>, now: real)
    requires !p.alive && p.animation == Dying && !p.deathComplete
    ensures var r := Step(p, tiles, now);
      !r.alive && r.animation == Dying && r.animationTime == p.animationTime + 2.0 * FrameStep &&
      (r.deathComplete <==> p.animationTime + 2.0 * FrameStep >= 1.2)
  {
    var s1 := Pose(p.(animationTime := p.animationTime + FrameStep));
    assert s1 == p.(animationTime := p.animationTime + FrameStep);
    assert Step(p, tiles, now) == DeathFrames(s1.(animationTime := s1.animationTime + FrameStep), Frames(14, 3, 0.4));
  }

  lemma DeathTakes36Updates(s: PlayerState, tiles: seq<Rect>, now: real)
    requires !s.deathComplete
    ensures !Steps(Killed(s), tiles, now, 35).deathComplete
    ensures Steps(Killed(s), tiles, now, 36).deathComplete
  {
    DeathCountdown(Killed(s), tiles, now, 35);
    DyingStep(Steps(Killed(s), tiles, now, 35), tiles, now);
  }

  /** Once the death animation has completed, no later update changes
      anything. */
  lemma {:induction false} FinishedStaysFinished(s: PlayerState, tiles: seq<Rect>, now: real, n: nat)
    requires s.deathComplete
    ensures Steps(s, tiles, now, n) == s
  {
    if n > 0 {
      FinishedStaysFinished(s, tiles, now, n - 1);
    }
  }

  // ---------------------------------------------------------------------
  // The class
  // ---------------------------------------------------------------------

  /** `Player`, with the fields of player.hpp that the game logic uses. */
  class Player {
    const id: int
    const controllerId: int
    var position: Vec
    var velocity: Vec
    var grounded: bool
    var state: MoveState
    var dashDirection: Vec
    var dashStart: real
    var cooldownStart: real
    var charging: bool
    var chargeStart: real
    var readyToThrow: bool
    var aim: Vec
    var alive: bool
    var deathComplete: bool
    var facingRight: bool
    var animationTime: real
    var animation: AnimationState
    var frameLeft: int

    /** The current field values as a `PlayerState`. */
    function Model(): PlayerState
      reads this
    {
      PlayerState(position, velocity, grounded, state, dashDirection, dashStart,
                  cooldownStart, charging, chargeStart, readyToThrow, aim, alive,
                  deathComplete, facingRight, animationTime, animation, frameLeft)
    }

    ghost predicate Valid()
      reads this
    {
      Inv(Model())
    }

    /** `Player(x, y, id, controllerId, texture)`, started at time `now`. */
    constructor (x: real, y: real, id: int, controllerId: int, now: real)
      ensures Model() == Spawn(Vec(x, y), now) && Valid()
      ensures this.id == id && this.controllerId == controllerId
    {
      this.id := id;
      this.controllerId := controllerId;
      position := Vec(x, y);
      velocity := Vec(0.0, 0.0);
      charging := false;
      alive := true;
      deathComplete := false;
      readyToThrow := false;
      aim := Vec(1.0, 0.0);
      state := Normal;
      dashDirection := Vec(1.0, 0.0);
      dashStart, cooldownStart, chargeStart := now, now, now;
      frameLeft := 0;
      facingRight := true;
      animationTime := 0.0;
      animation := Idle;
      grounded := false;
    }

    /** `getBounds()`. */
    function Bounds(): (r: Rect)
      reads this
      ensures r == Hitbox(position)
      ensures InRect(position, r)
    {
      Centered(position, 2.0 * HalfBox, 2.0 * HalfBox)
    }

    /** `handleThrowInput(throwPressed, aimDirection)`. */
    method HandleThrowInput(pressed: bool, aimDirection: Vec, now: real)
      modifies this
      ensures Model() == ThrowInput(old(Model()), pressed, aimDirection, now)
    {
      if !alive { return; }
      UpdateAim(aimDirection);
      UpdateCharge(pressed, now);
      UpdateRelease(pressed);
    }

    /** The aim part of `handleThrowInput`. */
    method UpdateAim(aimDirection: Vec)
      modifies this
      ensures Model() == ThrowAim(old(Model()), aimDirection)
    {
      readyToThrow := false;
      if aimDirection.x != 0.0 || aimDirection.y != 0.0 {
        aim := aimDirection;
      }
    }

    /** The press part of `handleThrowInput`. */
    method UpdateCharge(pressed: bool, now: real)
      modifies this
      ensures Model() == ThrowCharge(old(Model()), pressed, now)
    {
      if pressed && !charging && state == Normal {
        charging := true;
        chargeStart := now;
        velocity := Vec(0.0, velocity.y);
      }
    }

    /** The release part of `handleThrowInput`. */
    method UpdateRelease(pressed: bool)
      modifies this
      ensures Model() == ThrowRelease(old(Model()), pressed)
    {
      if !pressed && charging {
        charging := false;
        readyToThrow := true;
      }
    }

    /** `releaseThrow()`. */
    method ReleaseThrow() returns (v: Vec)
      modifies this
      ensures v == LaunchVelocity(old(Model()))
      ensures Model() == old(Model()).(aim := ReleasedAim(old(Model())))
    {
      if aim.x == 0.0 && aim.y == 0.0 {
        aim := dashDirection;
      }
      v := Vec(aim.x * ThrowSpeed, aim.y * ThrowSpeed);
    }

    /** `startThrowCharge()`. */
    method StartThrowCharge(now: real)
      modifies this
      ensures Model() == ChargeStarted(old(Model()), now)
    {
      if state == Normal {
        charging := true;
        chargeStart := now;
      }
    }

    /** `handleInput()`, with the buttons already read into `intent`. */
    method HandleInput(intent: Intent, now: real)
      modifies this
      ensures Model() == MoveInput(old(Model()), intent, now)
    {
      if !alive { return; }
      if state == Normal && !charging {
        Run(intent);
        Jump(intent);
        Dash(intent, now);
      }
    }

    /** The left/right branch of `handleInput`. */
    method Run(intent: Intent)
      modifies this
      ensures Model() == Steer(old(Model()), intent)
    {
      if intent.left {
        velocity := Vec(-RunSpeed, velocity.y);
        dashDirection := Vec(-1.0, 0.0);
      } else if intent.right {
        velocity := Vec(RunSpeed, velocity.y);
        dashDirection := Vec(1.0, 0.0);
      } else {
        velocity := Vec(0.0, velocity.y);
      }
    }

    /** The jump branch of `handleInput`. */
    method Jump(intent: Intent)
      modifies this
      ensures Model() == Hop(old(Model()), intent)
    {
      if intent.jump && grounded {
        velocity := Vec(velocity.x, -JumpSpeed);
        grounded := false;
      }
    }

    /** The dash branch of `handleInput`. */
    method Dash(intent: Intent, now: real)
      modifies this
      ensures Model() == StartDash(old(Model()), intent, now)
    {
      if intent.dash && now - cooldownStart >= DashCooldown {
        state := MoveState.Dashing;
        dashStart := now;
        cooldownStart := now;
      }
    }

    /** `kill()`. */
    method Kill()
      modifies this
      ensures Model() == Killed(old(Model()))
    {
      alive := false;
      animation := Dying;
      animationTime := 0.0;
    }

    /** `update(tiles)`. */
    method Update(tiles: seq<Rect>, now: real)
      modifies this
      ensures Model() == Step(old(Model()), tiles, now)
    {
      if deathComplete { return; }
      ghost var s0 := Model();
      if alive {
        ApplyMovementState(now);
        position := Vec(position.x, position.y + velocity.y);
        grounded := false;
        ghost var a := Model();
        assert a == Fall(Accelerate(s0, now));
        SettleVertical(tiles);
        if !charging {
          position := Vec(position.x + velocity.x, position.y);
        }
        ghost var h := Model();
        assert h == Advance(VerticalPass(a, Hitbox(a.position), tiles));
        SettleHorizontal(tiles);
        ApplyBounds();
        assert Model() == Physics(s0, tiles, now);
      }
      UpdateAnimation();
    }

    /** The movement-state switch of `update`. */
    method ApplyMovementState(now: real)
      modifies this
      ensures Model() == Accelerate(old(Model()), now)
    {
      match state {
        case Normal =>
          velocity := Vec(velocity.x, velocity.y + Gravity);
          if velocity.y > MaxFallSpeed {
            velocity := Vec(velocity.x, MaxFallSpeed);
          }
        case Dashing =>
          velocity := Vec(dashDirection.x * DashSpeed, 0.0);
          if now - dashStart >= DashDuration {
            state := Normal;
            velocity := Vec(0.0, velocity.y);
          }
        case Stunned =>
      }
    }

    /** The vertical tile loop.  The hitbox is taken once, before the loop,
        because the shape is not moved inside it. */
    method SettleVertical(tiles: seq<Rect>)
      modifies this
      ensures Model() == VerticalPass(old(Model()), Hitbox(old(position)), tiles)
    {
      var box := Bounds();
      ghost var s0 := Model();
      var i := 0;
      while i < |tiles|
        invariant 0 <= i <= |tiles|
        invariant Model() == VerticalPass(s0, box, tiles[..i])
      {
        if Intersects(box, tiles[i]) {
          if velocity.y > 0.0 {
            position := Vec(position.x, tiles[i].top - HalfBox);
            velocity := Vec(velocity.x, 0.0);
            grounded := true;
          } else if velocity.y < 0.0 {
            position := Vec(position.x, tiles[i].top + tiles[i].height + HalfBox);
            velocity := Vec(velocity.x, 0.0);
          }
        }
        assert tiles[..i + 1][..i] == tiles[..i];
        i := i + 1;
      }
      assert tiles[..|tiles|] == tiles;
    }

    /** The horizontal tile loop, against the hitbox from before the loop. */
    method SettleHorizontal(tiles: seq<Rect>)
      modifies this
      ensures Model() == HorizontalPass(old(Model()), Hitbox(old(position)), tiles)
    {
      var box := Bounds();
      ghost var s0 := Model();
      var i := 0;
      while i < |tiles|
        invariant 0 <= i <= |tiles|
        invariant Model() == HorizontalPass(s0, box, tiles[..i])
      {
        if Intersects(box, tiles[i]) {
          if velocity.x > 0.0 {
            position := Vec(tiles[i].left - HalfBox, position.y);
          } else if velocity.x < 0.0 {
            position := Vec(tiles[i].left + tiles[i].width + HalfBox, position.y);
          }
          velocity := Vec(0.0, velocity.y);
        }
        assert tiles[..i + 1][..i] == tiles[..i];
        i := i + 1;
      }
      assert tiles[..|tiles|] == tiles;
    }

    /** The bounds check against the arena edges. */
    method ApplyBounds()
      modifies this
      ensures Model() == ClampToArena(old(Model()))
    {
      if position.x - HalfBox < 0.0 {
        position := Vec(HalfBox, position.y);
        velocity := Vec(0.0, velocity.y);
      } else if position.x + HalfBox > ArenaWidth {
        position := Vec(ArenaWidth - HalfBox, position.y);
        velocity := Vec(0.0, velocity.y);
      }
      if position.y - HalfBox < 0.0 {
        position := Vec(position.x, HalfBox);
        velocity := Vec(velocity.x, 0.0);
      } else if position.y + HalfBox > ArenaHeight {
        position := Vec(position.x, ArenaHeight - HalfBox);
        velocity := Vec(velocity.x, 0.0);
        grounded := true;
      }
    }

    /** The animation part of `update`. */
    method UpdateAnimation()
      modifies this
      ensures Model() == Animate(old(Model()))
    {
      animationTime := animationTime + FrameStep;
      UpdatePose();
      var data := FrameData(animation);
      if data.Some? {
        PlayAnimationFrames(data.value);
      }
    }

    /** The facing and animation choice of a live player. */
    method UpdatePose()
      modifies this
      ensures Model() == Pose(old(Model()))
    {
      if alive {
        if velocity.x > 0.1 {
          facingRight := true;
        } else if velocity.x < -0.1 {
          facingRight := false;
        }
        match state {
          case Dashing => animation := AnimationState.Dashing;
          case Stunned =>
          case Normal =>
            if !grounded {
              animation := Jumping;
            } else if (if velocity.x < 0.0 then -velocity.x else velocity.x) > 0.1 {
              animation := Running;
            } else {
              animation := Idle;
            }
        }
      }
    }

    /** The frame-table lookup hit: advance the clock again and pick the
        frame. */
    method PlayAnimationFrames(f: Frames)
      requires 0 < f.count && 0.0 < f.frameTime
      modifies this
      ensures Model() == PlayFrames(old(Model()), f)
    {
      animationTime := animationTime + FrameStep;
      if animation == Dying {
        PlayDeathFrames(f);
      } else {
        PlayLoopFrames(f);
      }
    }

    /** The death branch of the frame pick. */
    method PlayDeathFrames(f: Frames)
      requires 0 < f.count && 0.0 < f.frameTime
      modifies this
      ensures Model() == DeathFrames(old(Model()), f)
    {
      if animationTime >= f.frameTime * f.count as real {
        deathComplete := true;
        frameLeft := (f.start + f.count - 1) * FrameWidth;
        return;
      }
      var i := Trunc(animationTime / f.frameTime);
      if i >= f.count {
        i := f.count - 1;
      }
      frameLeft := (f.start + i) * FrameWidth;
    }

    /** The looping branch of the frame pick. */
    method PlayLoopFrames(f: Frames)
      requires 0 < f.count && 0.0 < f.frameTime
      modifies this
      ensures Model() == LoopFrames(old(Model()), f)
    {
      var i := CppRem(Trunc(animationTime / f.frameTime), f.count);
      frameLeft := (f.start + i) * FrameWidth;
      if i == 0 && animationTime >= f.frameTime * f.count as real {
        animationTime := 0.0;
      }
    }
  }
}
