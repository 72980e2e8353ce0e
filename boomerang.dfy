/** The boomerang (boomerang.hpp, boomerang.cpp): it flies out with drag,
    ricochets off tiles, hangs for a moment, homes back on its owner at a
    fixed speed and is caught near them; its sprite spins at a fixed rate.

    As for the player, `BoomerangState` is the value of the mutable fields,
    `Step` is `update` as a function on it, and the class `Boomerang`
    changes its fields in place and is proved to follow `Step`.  The hang
    clock is the time of its last restart; `std::sqrt` is the parameter
    `sqrt` (see `Geometry.IsSqrt`). */
module Boomerangs {
  import opened Geometry

  /** `Boomerang::State`. */
  datatype Flight = FlyingOut | Hanging | Returning | Caught

  /** The mutable fields of `Boomerang`; `hangStart` is the restart time of
      `m_hangTimer`. */
  datatype BoomerangState = BoomerangState(
    position: Vec,
    velocity: Vec,
    state: Flight,
    rotation: real,
    hangStart: real)

  const Drag: real := 0.98
  const Restitution: real := 0.85
  const HangDuration: real := 0.05
  const ReturnSpeed: real := 5.0
  const CatchDistance: real := 20.0
  const StopSpeed: real := 1.0
  const PushBuffer: real := 0.5
  const NormalEpsilon: real := 0.001
  const RotationSpeed: real := 720.0
  const SpinPerFrame: real := RotationSpeed * (1.0 / 60.0)

  /** The collision radius: 70% of half the side of the square hitbox. */
  function Radius(size: real): (r: real)
    ensures 0.0 < size ==> 0.0 < r < size / 2.0
  {
    size / 2.0 * 0.7
  }

  /** The constructor: flying out from `start` with `velocity`, unrotated;
      the hang clock starts with the object. */
  function Launch(start: Vec, velocity: Vec, now: real): (b: BoomerangState)
    ensures b.state == FlyingOut && b.position == start && b.velocity == velocity
    ensures b.rotation == 0.0
  {
    BoomerangState(start, velocity, FlyingOut, 0.0, now)
  }

  /** The index of the first tile the circle touches, or -1. */
  function FirstCircleHit(p: Vec, radius: real, tiles: seq<Rect>): (i: int)
    ensures -1 <= i < |tiles|
    ensures i >= 0 ==> CircleHits(p, radius, tiles[i])
    ensures forall j :: 0 <= j < |tiles| && (i < 0 || j < i) ==> !CircleHits(p, radius, tiles[j])
    decreases |tiles|
  {
    if |tiles| == 0 then -1
    else
      var k := FirstCircleHit(p, radius, tiles[..|tiles| - 1]);
      if k >= 0 then k
      else if CircleHits(p, radius, tiles[|tiles| - 1]) then |tiles| - 1
      else -1
  }

  /** The contact normal, given the offset `off` of the centre from the
      closest point of the tile and the velocity `v`: the offset scaled to
      length one, or, when the centre is (almost) on the tile, the unit
      vector against the velocity.  It is a unit vector unless the
      boomerang stands still on the tile. */
  function ContactNormal(off: Vec, v: Vec, sqrt: real -> real): (n: Vec)
    requires IsSqrt(sqrt)
    ensures n == Zero || Dot(n, n) == 1.0
    ensures n == Zero ==> v == Zero
  {
    var d := Length(off, sqrt);
    if d > NormalEpsilon then Direction(off, d)
    else Against(v, sqrt)
  }

  /** The offset divided by its length. */
  function Direction(off: Vec, d: real): (n: Vec)
    requires 0.0 < d && Sq(d) == Dot(off, off)
    ensures Dot(n, n) == 1.0
  {
    UnitScale(off, d);
    Vec(off.x / d, off.y / d)
  }

  /** `normalize(-v)`. */
  function Against(v: Vec, sqrt: real -> real): (n: Vec)
    requires IsSqrt(sqrt)
    ensures n == Zero || Dot(n, n) == 1.0
    ensures n == Zero ==> v == Zero
  {
    var n := Normalize(Neg(v), sqrt);
    if v == Zero then n
    else
      assert Neg(v) != Zero;
      assert Dot(n, n) == 1.0;
      assert n != Zero;
      n
  }

  /** The body of the tile loop on a hit: reflect the velocity about the
      normal, damp it on the way out, and push the boomerang out along the
      normal by the penetration plus half a pixel. */
  function Bounce(s: BoomerangState, tile: Rect, radius: real, damp: bool, sqrt: real -> real): BoomerangState
    requires IsSqrt(sqrt)
  {
    var off := Offset(s.position, tile);
    s.(velocity := BounceVelocity(s.velocity, off, damp, sqrt),
       position := PushOut(s.position, s.velocity, off, radius, sqrt))
  }

  /** The offset of the centre from the closest point of the tile. */
  function Offset(p: Vec, tile: Rect): Vec {
    Sub(p, ClosestPoint(p, tile))
  }

  /** What a bounce does to the squared speed: 0.85 squared on the way
      out, 1 on the way back. */
  function DampFactor(damp: bool): (f: real)
    ensures 0.0 < f <= 1.0
  {
    if damp then Restitution * Restitution else 1.0
  }

  /** The velocity after a bounce: the reflection about the contact normal,
      scaled by the restitution on the way out.  Reflection keeps the
      squared speed, so the bounce multiplies it by 0.85 squared on the way
      out and by 1 on the way back; the component along the normal changes
      sign and shrinks by the same restitution. */
  function BounceVelocity(v: Vec, off: Vec, damp: bool, sqrt: real -> real): (w: Vec)
    requires IsSqrt(sqrt)
    ensures Dot(w, w) == DampFactor(damp) * Dot(v, v)
    ensures var n := ContactNormal(off, v, sqrt);
      Dot(w, n) == if damp then -Restitution * Dot(v, n) else -Dot(v, n)
  {
    var n := ContactNormal(off, v, sqrt);
    assert n == Zero || Dot(n, n) == 1.0;
    var w := Rebound(v, n, damp);
    assert Dot(w, w) == DampFactor(damp) * Dot(v, v);
    w
  }

  /** The bounce about a given contact normal, unit or (for a boomerang at
      rest) zero. */
  function Rebound(v: Vec, n: Vec, damp: bool): (w: Vec)
    requires n == Zero || Dot(n, n) == 1.0
    requires n == Zero ==> v == Zero
    ensures Dot(w, w) == DampFactor(damp) * Dot(v, v)
    ensures Dot(w, n) == if damp then -Restitution * Dot(v, n) else -Dot(v, n)
  {
    var r := Reflect(v, n);
    ReflectAboutContact(v, n);
    if damp then
      var w := Scale(r, Restitution);
      assert Dot(w, w) == DampFactor(damp) * Dot(v, v) by {
        DotScale(r, Restitution);
      }
      assert Dot(w, n) == -Restitution * Dot(v, n) by {
        ScaleFlipped(r, v, n, Restitution);
      }
      w
    else r
  }

  /** The position after a bounce: moved along the contact normal by the
      penetration depth plus half a pixel. */
  function PushOut(p: Vec, v: Vec, off: Vec, radius: real, sqrt: real -> real): Vec
    requires IsSqrt(sqrt)
  {
    var n := ContactNormal(off, v, sqrt);
    Add(p, Scale(n, radius - Length(off, sqrt) + PushBuffer))
  }

  /** The tile loop: only the first tile the circle touches is handled. */
  function Ricochet(s: BoomerangState, radius: real, tiles: seq<Rect>, damp: bool, sqrt: real -> real): BoomerangState
    requires IsSqrt(sqrt)
  {
    var i := FirstCircleHit(s.position, radius, tiles);
    if i < 0 then s else Bounce(s, tiles[i], radius, damp, sqrt)
  }

  /** After the tiles before `i` missed, the tile loop's outcome is decided
      at `i`: a bounce off it if it is hit, no change if the tiles ran out. */
  lemma RicochetAt(s: BoomerangState, radius: real, tiles: seq<Rect>, damp: bool, sqrt: real -> real, i: int)
    requires IsSqrt(sqrt) && 0 <= i <= |tiles|
    requires forall j :: 0 <= j < i ==> !CircleHits(s.position, radius, tiles[j])
    ensures i == |tiles| ==> Ricochet(s, radius, tiles, damp, sqrt) == s
    ensures i < |tiles| && CircleHits(s.position, radius, tiles[i]) ==>
      Ricochet(s, radius, tiles, damp, sqrt) == Bounce(s, tiles[i], radius, damp, sqrt)
  {
    var k := FirstCircleHit(s.position, radius, tiles);
    if i < |tiles| && CircleHits(s.position, radius, tiles[i]) {
      assert k == i;
    }
  }

  /** The state switch of `update`. */
  function Fly(s: BoomerangState, size: real, target: Vec, tiles: seq<Rect>, now: real,
               sqrt: real -> real): BoomerangState
    requires IsSqrt(sqrt)
  {
    match s.state
    case FlyingOut =>
      var v := Scale(s.velocity, Drag);
      var b := Ricochet(s.(velocity := v, position := Add(s.position, v)), Radius(size), tiles, true, sqrt);
      if Length(b.velocity, sqrt) < StopSpeed then b.(state := Hanging, hangStart := now) else b
    case Hanging =>
      if now - s.hangStart >= HangDuration then s.(state := Returning) else s
    case Returning =>
      var dir := Sub(target, s.position);
      if Length(dir, sqrt) < CatchDistance then s.(state := Caught)
      else
        var v := Homing(dir, sqrt);
        Ricochet(s.(velocity := v, position := Add(s.position, v)), Radius(size), tiles, false, sqrt)
    case Caught => s
  }

  /** The return velocity: the direction to the owner at the return speed.
      Away from the owner it has exactly that speed and points straight at
      them. */
  function Homing(dir: Vec, sqrt: real -> real): (v: Vec)
    requires IsSqrt(sqrt)
    ensures dir == Zero ==> v == Zero
    ensures dir != Zero ==> Dot(v, v) == ReturnSpeed * ReturnSpeed
    ensures dir != Zero ==> 0.0 < Dot(v, dir) && v.x * dir.y == v.y * dir.x
  {
    var u := Normalize(dir, sqrt);
    if dir != Zero then
      NormalizeKeepsDirection(dir, sqrt);
      UnitAtSpeed(u, dir, ReturnSpeed);
      Scale(u, ReturnSpeed)
    else
      assert u == Zero;
      assert Scale(Zero, ReturnSpeed) == Zero;
      Scale(u, ReturnSpeed)
  }

  lemma UnitAtSpeed(u: Vec, dir: Vec, k: real)
    requires 0.0 < k && Dot(u, u) == 1.0
    requires 0.0 < Dot(u, dir) && u.x * dir.y == u.y * dir.x
    ensures var v := Scale(u, k);
      Dot(v, v) == k * k && 0.0 < Dot(v, dir) && v.x * dir.y == v.y * dir.x
  {
    var v := Scale(u, k);
    DotScale(u, k);
    calc {
      Dot(v, dir);
      == (u.x * k) * dir.x + (u.y * k) * dir.y;
      == k * Dot(u, dir);
    }
    MulPos(k, Dot(u, dir));
    calc {
      v.x * dir.y;
      == k * (u.x * dir.y);
      == k * (u.y * dir.x);
      == v.y * dir.x;
    }
  }

  /** The spin at the end of `update`, in every state: twelve degrees per
      frame, wrapped once at 360. */
  function Spin(rotation: real): (r: real)
    ensures 0.0 <= rotation < 360.0 ==> 0.0 <= r < 360.0
    ensures r == rotation + SpinPerFrame || r == rotation + SpinPerFrame - 360.0
  {
    var t := rotation + SpinPerFrame;
    if t >= 360.0 then t - 360.0 else t
  }

  /** `update(playerPosition, tiles)`, where `size` is the side of the
      boomerang's square hitbox and `target` the position it homes on. */
  function Step(s: BoomerangState, size: real, target: Vec, tiles: seq<Rect>, now: real,
                sqrt: real -> real): BoomerangState
    requires IsSqrt(sqrt)
  {
    var f := Fly(s, size, target, tiles, now, sqrt);
    f.(rotation := Spin(f.rotation))
  }

  // ---------------------------------------------------------------------
  // Properties
  // ---------------------------------------------------------------------

  function Rank(f: Flight): nat {
    match f
    case FlyingOut => 0
    case Hanging => 1
    case Returning => 2
    case Caught => 3
  }

  lemma BounceFrame(s: BoomerangState, tile: Rect, radius: real, damp: bool, sqrt: real -> real)
    requires IsSqrt(sqrt)
    ensures var r := Bounce(s, tile, radius, damp, sqrt);
      r.state == s.state && r.rotation == s.rotation && r.hangStart == s.hangStart
  {
  }

  lemma RicochetFrame(s: BoomerangState, radius: real, tiles: seq<Rect>, damp: bool, sqrt: real -> real)
    requires IsSqrt(sqrt)
    ensures var r := Ricochet(s, radius, tiles, damp, sqrt);
      r.state == s.state && r.rotation == s.rotation && r.hangStart == s.hangStart
  {
  }

  /** The flight only ever moves one stage forward per update, and a
      caught boomerang stays caught, where it is. */
  lemma StateAdvancesByOne(s: BoomerangState, size: real, target: Vec, tiles: seq<Rect>, now: real,
                           sqrt: real -> real)
    requires IsSqrt(sqrt)
    ensures var r := Step(s, size, target, tiles, now, sqrt);
      Rank(r.state) == Rank(s.state) || Rank(r.state) == Rank(s.state) + 1
    ensures s.state == Caught ==>
      Step(s, size, target, tiles, now, sqrt) == s.(rotation := Spin(s.rotation))
  {
    var f := Fly(s, size, target, tiles, now, sqrt);
    assert Step(s, size, target, tiles, now, sqrt).state == f.state;
    match s.state
    case FlyingOut =>
      var v := Scale(s.velocity, Drag);
      var m := s.(velocity := v, position := Add(s.position, v));
      RicochetFrame(m, Radius(size), tiles, true, sqrt);
      assert Ricochet(m, Radius(size), tiles, true, sqrt).state == FlyingOut;
      assert f.state == FlyingOut || f.state == Hanging;
    case Hanging =>
    case Returning =>
      var dir := Sub(target, s.position);
      if Length(dir, sqrt) >= CatchDistance {
        var v := Homing(dir, sqrt);
        var m := s.(velocity := v, position := Add(s.position, v));
        RicochetFrame(m, Radius(size), tiles, false, sqrt);
        assert f == Ricochet(m, Radius(size), tiles, false, sqrt);
      }
    case Caught =>
  }

  /** With no tile in the way the boomerang moves by its new velocity: on
      the way out that is the old velocity after drag (drag first, then the
      move), on the way back the return velocity, aimed at the owner. */
  lemma MovesWhenClear(s: BoomerangState, size: real, target: Vec, tiles: seq<Rect>, now: real,
                       sqrt: real -> real)
    requires IsSqrt(sqrt) && (s.state == FlyingOut || s.state == Returning)
    requires var v := if s.state == FlyingOut then Scale(s.velocity, Drag)
                      else Homing(Sub(target, s.position), sqrt);
      forall j :: 0 <= j < |tiles| ==> !CircleHits(Add(s.position, v), Radius(size), tiles[j])
    ensures var r := Step(s, size, target, tiles, now, sqrt);
      r.state != Caught ==> r.position == Add(s.position, r.velocity)
    ensures var r := Step(s, size, target, tiles, now, sqrt);
      s.state == FlyingOut ==> r.velocity == Scale(s.velocity, Drag)
    ensures var r := Step(s, size, target, tiles, now, sqrt);
      var dir := Sub(target, s.position);
      s.state == Returning && r.state == Returning ==>
        0.0 < Dot(r.velocity, dir) && r.velocity.x * dir.y == r.velocity.y * dir.x
  {
    var dir := Sub(target, s.position);
    var v := if s.state == FlyingOut then Scale(s.velocity, Drag) else Homing(dir, sqrt);
    var m := s.(velocity := v, position := Add(s.position, v));
    assert FirstCircleHit(m.position, Radius(size), tiles) < 0;
    assert Ricochet(m, Radius(size), tiles, s.state == FlyingOut, sqrt) == m;
    if s.state == Returning && Length(dir, sqrt) >= CatchDistance {
      assert dir != Zero;
    }
  }

  /** The transitions and their exact guards: out-flight ends when the speed
      after drag and ricochet is below 1 (decided on squared speed), the hang
      ends after 0.05 s, and the return ends, without moving, when the owner
      is less than 20 away before the move. */
  lemma Transitions(s: BoomerangState, size: real, target: Vec, tiles: seq<Rect>, now: real,
                    sqrt: real -> real)
    requires IsSqrt(sqrt)
    ensures var r := Step(s, size, target, tiles, now, sqrt);
      (s.state == FlyingOut ==>
         (r.state == Hanging <==> Dot(r.velocity, r.velocity) < StopSpeed * StopSpeed) &&
         (r.state == Hanging ==> r.hangStart == now)) &&
      (s.state == Hanging ==>
         (r.state == Returning <==> now - s.hangStart >= HangDuration) &&
         r.position == s.position && r.velocity == s.velocity) &&
      (s.state == Returning ==>
         (r.state == Caught <==> DistSq(target, s.position) < CatchDistance * CatchDistance)) &&
      (s.state == Returning && r.state == Caught ==>
         r.position == s.position && r.velocity == s.velocity)
  {
    match s.state
    case FlyingOut =>
      var v := Scale(s.velocity, Drag);
      var b := Ricochet(s.(velocity := v, position := Add(s.position, v)), Radius(size), tiles, true, sqrt);
      RicochetFrame(s.(velocity := v, position := Add(s.position, v)), Radius(size), tiles, true, sqrt);
      LengthBelowIff(b.velocity, StopSpeed, sqrt);
    case Hanging =>
    case Returning =>
      var dir := Sub(target, s.position);
      LengthBelowIff(dir, CatchDistance, sqrt);
      var v := Homing(dir, sqrt);
      RicochetFrame(s.(velocity := v, position := Add(s.position, v)), Radius(size), tiles, false, sqrt);
    case Caught =>
  }

  lemma DotScale(v: Vec, k: real)
    ensures Dot(Scale(v, k), Scale(v, k)) == k * k * Dot(v, v)
  {
  }

  /** Reflection about a contact normal, unit or zero, keeps the speed and
      flips the normal component. */
  lemma ReflectAboutContact(v: Vec, n: Vec)
    requires n == Zero || Dot(n, n) == 1.0
    requires n == Zero ==> v == Zero
    ensures Dot(Reflect(v, n), Reflect(v, n)) == Dot(v, v)
    ensures Dot(Reflect(v, n), n) == -Dot(v, n)
  {
    if n == Zero {
      assert Dot(v, n) == 0.0;
      assert Reflect(v, n) == Zero;
    } else {
      ReflectKeepsSpeed(v, n);
      ReflectFlipsNormal(v, n);
    }
  }

  lemma DotScaleLeft(v: Vec, k: real, u: Vec)
    ensures Dot(Scale(v, k), u) == k * Dot(v, u)
  {
  }

  lemma ScaleFlipped(r: Vec, v: Vec, n: Vec, k: real)
    requires Dot(r, n) == -Dot(v, n)
    ensures Dot(Scale(r, k), n) == -k * Dot(v, n)
  {
    DotScaleLeft(r, k, n);
  }

  /** Along the contact surface the bounce keeps the velocity, up to the
      restitution on the way out. */
  lemma BounceKeepsTangent(v: Vec, off: Vec, damp: bool, sqrt: real -> real, t: Vec)
    requires IsSqrt(sqrt)
    requires Dot(t, ContactNormal(off, v, sqrt)) == 0.0
    ensures Dot(BounceVelocity(v, off, damp, sqrt), t) == (if damp then Restitution else 1.0) * Dot(v, t)
  {
    var n := ContactNormal(off, v, sqrt);
    ReflectKeepsTangent(v, n, t);
    DotScaleLeft(Reflect(v, n), Restitution, t);
  }

  /** When the centre is clear of the tile, the push leaves it exactly the
      radius plus half a pixel away from the point of contact, so the circle
      no longer touches that point. */
  lemma PushOutClears(p: Vec, v: Vec, off: Vec, radius: real, sqrt: real -> real)
    requires IsSqrt(sqrt) && Length(off, sqrt) > NormalEpsilon
    ensures DistSq(PushOut(p, v, off, radius, sqrt), Sub(p, off)) == Sq(radius + PushBuffer)
  {
    var d := Length(off, sqrt);
    var n := Direction(off, d);
    assert ContactNormal(off, v, sqrt) == n;
    var k := radius - d + PushBuffer;
    var q := PushOut(p, v, off, radius, sqrt);
    assert q == Add(p, Scale(n, k));
    DivMul(off.x, d);
    DivMul(off.y, d);
    var e := Sub(q, Sub(p, off));
    assert e == Scale(n, radius + PushBuffer) by {
      calc {
        e.x;
        == off.x + n.x * k;
        == n.x * d + n.x * k;
        == n.x * (radius + PushBuffer);
      }
      calc {
        e.y;
        == off.y + n.y * k;
        == n.y * d + n.y * k;
        == n.y * (radius + PushBuffer);
      }
    }
    DotScale(n, radius + PushBuffer);
  }

  /** The tile loop never raises the squared speed, and on the way back,
      where there is no damping, it keeps it exactly. */
  lemma RicochetSpeed(s: BoomerangState, radius: real, tiles: seq<Rect>, damp: bool, sqrt: real -> real)
    requires IsSqrt(sqrt)
    ensures var r := Ricochet(s, radius, tiles, damp, sqrt);
      Dot(r.velocity, r.velocity) <= Dot(s.velocity, s.velocity) &&
      (!damp ==> Dot(r.velocity, r.velocity) == Dot(s.velocity, s.velocity))
  {
    var i := FirstCircleHit(s.position, radius, tiles);
    if i >= 0 {
      assert Ricochet(s, radius, tiles, damp, sqrt) == Bounce(s, tiles[i], radius, damp, sqrt);
      DotSelfNonNeg(s.velocity);
    }
  }

  /** On the way back, whenever the boomerang moves, it moves at exactly the
      return speed, ricochet or not. */
  lemma ReturnSpeedIsFixed(s: BoomerangState, size: real, target: Vec, tiles: seq<Rect>, now: real,
                           sqrt: real -> real)
    requires IsSqrt(sqrt) && s.state == Returning
    requires Step(s, size, target, tiles, now, sqrt).state == Returning
    ensures var r := Step(s, size, target, tiles, now, sqrt);
      Dot(r.velocity, r.velocity) == ReturnSpeed * ReturnSpeed
  {
    var dir := Sub(target, s.position);
    var v := Homing(dir, sqrt);
    var m := s.(velocity := v, position := Add(s.position, v));
    assert Length(dir, sqrt) >= CatchDistance;
    assert dir != Zero;
    assert Fly(s, size, target, tiles, now, sqrt) == Ricochet(m, Radius(size), tiles, false, sqrt);
    RicochetSpeed(m, Radius(size), tiles, false, sqrt);
  }

  /** On the way out the boomerang only slows down: drag and any bounce
      never raise its squared speed. */
  lemma FlyingOutSlowsDown(s: BoomerangState, size: real, target: Vec, tiles: seq<Rect>, now: real,
                           sqrt: real -> real)
    requires IsSqrt(sqrt) && s.state == FlyingOut
    ensures var r := Step(s, size, target, tiles, now, sqrt);
      Dot(r.velocity, r.velocity) <= Drag * Drag * Dot(s.velocity, s.velocity)
  {
    var v := Scale(s.velocity, Drag);
    var m := s.(velocity := v, position := Add(s.position, v));
    DotScale(s.velocity, Drag);
    var b := Ricochet(m, Radius(size), tiles, true, sqrt);
    RicochetSpeed(m, Radius(size), tiles, true, sqrt);
    assert Fly(s, size, target, tiles, now, sqrt).velocity == b.velocity;
  }

  /** The spin angle stays in [0, 360) from any start in that range. */
  lemma {:induction false} SpinStaysInRange(rotation: real, n: nat)
    requires 0.0 <= rotation < 360.0
    ensures 0.0 <= SpinN(rotation, n) < 360.0
  {
    if n > 0 {
      SpinStaysInRange(rotation, n - 1);
    }
  }

  /** `n` spins in a row. */
  function SpinN(rotation: real, n: nat): real {
    if n == 0 then rotation else Spin(SpinN(rotation, n - 1))
  }

  // ---------------------------------------------------------------------
  // The class
  // ---------------------------------------------------------------------

  /** `Boomerang`, with the fields of boomerang.hpp that the game logic
      uses; `size` is the side of the square hitbox `m_shape`, fixed at
      construction from the texture size. */
  class Boomerang {
    const ownerId: int
    const size: real
    var position: Vec
    var velocity: Vec
    var state: Flight
    var rotation: real
    var hangStart: real

    function Model(): BoomerangState
      reads this
    {
      BoomerangState(position, velocity, state, rotation, hangStart)
    }

    /** `Boomerang(texture, startPosition, initialVelocity, ownerId)`. */
    constructor (start: Vec, initialVelocity: Vec, ownerId: int, size: real, now: real)
      ensures Model() == Launch(start, initialVelocity, now)
      ensures this.ownerId == ownerId && this.size == size
    {
      this.ownerId := ownerId;
      this.size := size;
      position := start;
      velocity := initialVelocity;
      state := FlyingOut;
      rotation := 0.0;
      hangStart := now;
    }

    /** `getBounds()`: the square hitbox centred on the position. */
    function Bounds(): (r: Rect)
      reads this
      ensures r.width == size && r.height == size
      ensures r.left + size / 2.0 == position.x && r.top + size / 2.0 == position.y
    {
      Centered(position, size, size)
    }

    /** `update(playerPosition, tiles)`. */
    method Update(target: Vec, tiles: seq<Rect>, now: real, sqrt: real -> real)
      requires IsSqrt(sqrt)
      modifies this
      ensures Model() == Step(old(Model()), size, target, tiles, now, sqrt)
    {
      ghost var s0 := Model();
      match state {
        case FlyingOut =>
          velocity := Scale(velocity, Drag);
          position := Add(position, velocity);
          CheckTiles(Radius(size), tiles, true, sqrt);
          if Length(velocity, sqrt) < StopSpeed {
            state := Hanging;
            hangStart := now;
          }
        case Hanging =>
          if now - hangStart >= HangDuration {
            state := Returning;
          }
        case Returning =>
          var dir := Sub(target, position);
          if Length(dir, sqrt) < CatchDistance {
            state := Caught;
          } else {
            dir := Normalize(dir, sqrt);
            velocity := Scale(dir, ReturnSpeed);
            position := Add(position, velocity);
            CheckTiles(Radius(size), tiles, false, sqrt);
          }
        case Caught =>
      }
      assert Model() == Fly(s0, size, target, tiles, now, sqrt);
      rotation := rotation + RotationSpeed * (1.0 / 60.0);
      if rotation >= 360.0 {
        rotation := rotation - 360.0;
      }
    }

    /** The tile loop: the first tile the circle touches is handled and the
        loop stops. */
    method CheckTiles(radius: real, tiles: seq<Rect>, damp: bool, sqrt: real -> real)
      requires IsSqrt(sqrt)
      modifies this
      ensures Model() == Ricochet(old(Model()), radius, tiles, damp, sqrt)
    {
      var i := 0;
      while i < |tiles|
        invariant 0 <= i <= |tiles|
        invariant Model() == old(Model())
        invariant forall j :: 0 <= j < i ==> !CircleHits(position, radius, tiles[j])
      {
        var closest := ClosestPoint(position, tiles[i]);
        var distanceSquared := DistSq(position, closest);
        if distanceSquared < Sq(radius) {
          RicochetAt(Model(), radius, tiles, damp, sqrt, i);
          BounceOff(tiles[i], radius, damp, sqrt);
          return;
        }
        i := i + 1;
      }
      RicochetAt(Model(), radius, tiles, damp, sqrt, i);
    }

    /** The body of the tile loop on a hit. */
    method BounceOff(tile: Rect, radius: real, damp: bool, sqrt: real -> real)
      requires IsSqrt(sqrt)
      modifies this
      ensures Model() == Bounce(old(Model()), tile, radius, damp, sqrt)
    {
      var closest := ClosestPoint(position, tile);
      var off := Sub(position, closest);
      var distance := Length(off, sqrt);
      var normal := ContactNormal(off, velocity, sqrt);
      var bounced := Reflect(velocity, normal);
      if damp {
        bounced := Scale(bounced, Restitution);
      }
      var overlap := radius - distance + PushBuffer;
      var pushed := Add(position, Scale(normal, overlap));
      assert bounced == BounceVelocity(velocity, off, damp, sqrt);
      assert pushed == PushOut(position, velocity, off, radius, sqrt);
      velocity, position := bounced, pushed;
    }
  }
}
