/** The frame orchestration of runner.cpp: the menu where controllers join,
    the gameplay frame that runs players and boomerangs against the tiles
    and against each other, and the round-over timer that ends the round
    when a single player is left.

    The class `Game` holds the locals of `main` that persist across frames
    (the game state, the player and boomerang lists, the joined controllers
    and the round-over timer).  Device reads become parameters: the start
    and restart buttons are booleans and each player's controller is read
    into a `Controls` value.  The clock is the parameter `now` (seconds
    since start-up) and `std::sqrt` is the parameter `sqrt`. */
module Runner {
  import opened Geometry
  import opened Tilemap
  import Players
  import Boomerangs

  /** `GameState`. */
  datatype GameState = MainMenu | Gameplay | GameOver

  /** One frame's reading of a player's controller: the throw button, the
      aim (zero inside the stick's dead zone) and the movement buttons. */
  datatype Controls = Controls(throwPressed: bool, aim: Vec, move: Players.Intent)

  const MaxPlayers: nat := 4
  const MaxBoomerangs: nat := 1
  const GameOverWait: real := 1.0

  /** `startpositions`, indexed by the id of the joining player. */
  const StartPositions: seq<Vec> := [Vec(100.0, 100.0), Vec(700.0, 100.0), Vec(200.0, 100.0), Vec(600.0, 100.0)]

  // ---------------------------------------------------------------------
  // The sweeps: a stable removal
  // ---------------------------------------------------------------------

  /** The elements of `s` whose flag in `gone` is false, in their order. */
  function Kept<T>(s: seq<T>, gone: seq<bool>): seq<T>
    requires |gone| == |s|
  {
    if |s| == 0 then []
    else Kept(s[..|s| - 1], gone[..|s| - 1]) + (if gone[|s| - 1] then [] else [s[|s| - 1]])
  }

  /** The number of elements among the first `n` that stay. */
  function Staying(gone: seq<bool>, n: nat): (c: nat)
    requires n <= |gone|
    ensures c <= n
  {
    if n == 0 then 0 else Staying(gone, n - 1) + (if gone[n - 1] then 0 else 1)
  }

  /** Exactly the unflagged elements stay. */
  lemma {:induction false} KeptMembership<T>(s: seq<T>, gone: seq<bool>, x: T)
    requires |gone| == |s|
    ensures x in Kept(s, gone) <==> exists i :: 0 <= i < |s| && !gone[i] && s[i] == x
  {
    if |s| > 0 {
      var n := |s| - 1;
      KeptMembership(s[..n], gone[..n], x);
      if exists i :: 0 <= i < n && !gone[..n][i] && s[..n][i] == x {
        var i :| 0 <= i < n && !gone[..n][i] && s[..n][i] == x;
        assert !gone[i] && s[i] == x;
      }
      if exists i :: 0 <= i < |s| && !gone[i] && s[i] == x {
        var i :| 0 <= i < |s| && !gone[i] && s[i] == x;
        if i < n {
          assert !gone[..n][i] && s[..n][i] == x;
        }
      }
    }
  }

  /** The result is as long as the number of unflagged elements, and the
      `i`-th element, when it stays, lands after exactly the staying
      elements before it: the order is kept. */
  lemma {:induction false} KeptAt<T>(s: seq<T>, gone: seq<bool>, i: nat)
    requires |gone| == |s| && i < |s| && !gone[i]
    ensures |Kept(s, gone)| == Staying(gone, |s|)
    ensures Staying(gone, i) < |Kept(s, gone)| && Kept(s, gone)[Staying(gone, i)] == s[i]
  {
    var n := |s| - 1;
    KeptLength(s, gone);
    KeptLength(s[..n], gone[..n]);
    StayingPrefix(gone, n, i);
    StayingPrefix(gone, n, n);
    if i < n {
      KeptAt(s[..n], gone[..n], i);
    }
  }

  lemma {:induction false} KeptLength<T>(s: seq<T>, gone: seq<bool>)
    requires |gone| == |s|
    ensures |Kept(s, gone)| == Staying(gone, |s|)
  {
    if |s| > 0 {
      var n := |s| - 1;
      KeptLength(s[..n], gone[..n]);
      StayingPrefix(gone, n, n);
    }
  }

  /** Counting in a prefix of the flags is counting in the flags. */
  lemma {:induction false} StayingPrefix(gone: seq<bool>, n: nat, k: nat)
    requires k <= n <= |gone|
    ensures Staying(gone[..n], k) == Staying(gone, k)
  {
    if k > 0 {
      StayingPrefix(gone, n, k - 1);
    }
  }

  /** Whatever order the list had, the sweep keeps it: a relation between
      every earlier and later element still holds afterwards. */
  lemma {:induction false} KeptOrdered<T>(s: seq<T>, gone: seq<bool>, before: (T, T) -> bool)
    requires |gone| == |s|
    requires forall i, j :: 0 <= i < j < |s| ==> before(s[i], s[j])
    ensures var r := Kept(s, gone);
      forall i, j :: 0 <= i < j < |r| ==> before(r[i], r[j])
  {
    if |s| > 0 {
      var n := |s| - 1;
      KeptOrdered(s[..n], gone[..n], before);
      var p := Kept(s[..n], gone[..n]);
      forall i | 0 <= i < |p|
        ensures before(p[i], s[n])
      {
        KeptMembership(s[..n], gone[..n], p[i]);
        var k :| 0 <= k < n && !gone[..n][k] && s[..n][k] == p[i];
      }
    }
  }

  // ---------------------------------------------------------------------
  // The round-over timer (runner.cpp, lines 442-454)
  // ---------------------------------------------------------------------

  /** The timer: whether game over has fired, and the time the single
      survivor was first seen (zero when unset). */
  datatype RoundClock = RoundClock(triggered: bool, delay: real)

  /** One check at the end of a gameplay frame with `count` players left. */
  function RoundCheck(c: RoundClock, count: nat, now: real): (r: RoundClock)
    ensures r.triggered != c.triggered <==>
      count == 1 && !c.triggered && c.delay != 0.0 && now - c.delay >= GameOverWait
    ensures c.triggered ==> r.triggered
    ensures count > 1 ==> r == RoundClock(c.triggered, 0.0)
    ensures count == 0 ==> r == c
    ensures count == 1 && !c.triggered && c.delay == 0.0 ==> r == RoundClock(false, now)
  {
    if count == 1 && !c.triggered then
      if c.delay == 0.0 then c.(delay := now)
      else if now - c.delay >= GameOverWait then c.(triggered := true)
      else c
    else if count > 1 then c.(delay := 0.0)
    else c
  }

  /** The grace second: with one player left from a frame at time `t0`
      (not zero) on, the round ends on the first later frame at least a
      second after `t0`, and not before. */
  lemma GraceSecond(t0: real, t1: real, t2: real)
    requires t0 != 0.0 && t1 - t0 < GameOverWait
    ensures var c0 := RoundCheck(RoundClock(false, 0.0), 1, t0);
      var c1 := RoundCheck(c0, 1, t1);
      !c1.triggered && c1.delay == t0 &&
      (RoundCheck(c1, 1, t2).triggered <==> t2 - t0 >= GameOverWait)
  {
  }

  /** Once fired, the trigger stays set whatever happens to the players, so
      game over is entered at most once per round. */
  lemma {:induction false} TriggerLatches(c: RoundClock, counts: seq<nat>, times: seq<real>)
    requires c.triggered && |counts| == |times|
    ensures RoundChecks(c, counts, times).triggered
  {
    if |counts| > 0 {
      TriggerLatches(c, counts[..|counts| - 1], times[..|times| - 1]);
    }
  }

  /** A run of checks, one per frame. */
  function RoundChecks(c: RoundClock, counts: seq<nat>, times: seq<real>): RoundClock
    requires |counts| == |times|
  {
    if |counts| == 0 then c
    else RoundCheck(RoundChecks(c, counts[..|counts| - 1], times[..|times| - 1]),
                    counts[|counts| - 1], times[|times| - 1])
  }

  // ---------------------------------------------------------------------
  // Per-player steps of the gameplay frame
  // ---------------------------------------------------------------------

  /** A player's turn in the first loop of the frame: throw input, then
      movement input. */
  function ThrowTurn(s: Players.PlayerState, c: Controls, now: real): (r: Players.PlayerState)
    ensures Players.Inv(s) ==> Players.Inv(r)
    ensures r.position == s.position && r.alive == s.alive && r.deathComplete == s.deathComplete
    ensures !s.alive ==> r == s
    ensures s.alive ==> (r.readyToThrow <==> !c.throwPressed && s.charging)
  {
    Players.MoveInput(Players.ThrowInput(s, c.throwPressed, c.aim, now), c.move, now)
  }

  /** A player's turn in the second loop: movement input again, then
      `update`. */
  function MoveTurn(s: Players.PlayerState, c: Controls, tiles: seq<Rect>, now: real): (r: Players.PlayerState)
    ensures Players.Inv(s) ==> Players.Inv(r)
    ensures r.alive == s.alive && r.readyToThrow == s.readyToThrow && r.aim == s.aim
    ensures r.charging == s.charging && r.chargeStart == s.chargeStart
  {
    var m := Players.MoveInput(s, c.move, now);
    Players.StepFacts(m, tiles, now);
    Players.Step(m, tiles, now)
  }

  /** The second loop keeps every player's invariant. */
  lemma MovedStayValid(before: seq<Players.PlayerState>, after: seq<Players.PlayerState>,
                       controls: seq<Controls>, tiles: seq<Rect>, now: real)
    requires |controls| == |before|
    requires after == Turned(before, controls, (s, c) => MoveTurn(s, c, tiles, now), |before|)
    requires forall j :: 0 <= j < |before| ==> Players.Inv(before[j])
    ensures forall j :: 0 <= j < |after| ==> Players.Inv(after[j])
  {
    forall j | 0 <= j < |after|
      ensures Players.Inv(after[j])
    {
      assert after[j] == MoveTurn(before[j], controls[j], tiles, now);
    }
  }

  /** When both calls of `handleInput` in a frame see the same time and the
      same buttons, the second changes nothing: the two loops together give
      input once and then `update`. */
  lemma FrameCallsInputOnce(s: Players.PlayerState, c: Controls, tiles: seq<Rect>, now: real)
    ensures MoveTurn(ThrowTurn(s, c, now), c, tiles, now) ==
      Players.Step(ThrowTurn(s, c, now), tiles, now)
  {
    Players.MoveInputIdempotent(Players.ThrowInput(s, c.throwPressed, c.aim, now), c.move, now);
  }

  /** The kill test of the frame: the boxes overlap and the boomerang is
      someone else's. */
  predicate Strikes(boomerangBox: Rect, ownerId: int, position: Vec, id: int) {
    Intersects(boomerangBox, Players.Hitbox(position)) && ownerId != id
  }

  /** What one boomerang, with box `hazard.0` and owner `hazard.1`, does to
      the player with id `id` in the kill loop. */
  function KillTurn(s: Players.PlayerState, id: int, hazard: (Rect, int)): (r: Players.PlayerState)
    ensures r.position == s.position && r.deathComplete == s.deathComplete
    ensures Players.Inv(s) ==> Players.Inv(r)
  {
    if Strikes(hazard.0, hazard.1, s.position, id) && s.alive then Players.Killed(s) else s
  }

  /** The player after the first `n` boomerangs of the kill loop. */
  function KillPass(s: Players.PlayerState, id: int, hazards: seq<(Rect, int)>, n: nat): Players.PlayerState
    requires n <= |hazards|
  {
    if n == 0 then s else KillTurn(KillPass(s, id, hazards, n - 1), id, hazards[n - 1])
  }

  /** The kill loop kills a player exactly when it was alive and some
      boomerang strikes it; a killed player is killed once, where it
      stood. */
  lemma {:induction false} KillPassResult(s: Players.PlayerState, id: int, hazards: seq<(Rect, int)>, n: nat)
    requires n <= |hazards|
    ensures KillPass(s, id, hazards, n) ==
      if s.alive && exists k :: 0 <= k < n && Strikes(hazards[k].0, hazards[k].1, s.position, id)
      then Players.Killed(s) else s
  {
    if n > 0 {
      KillPassResult(s, id, hazards, n - 1);
      if s.alive && exists k :: 0 <= k < n - 1 && Strikes(hazards[k].0, hazards[k].1, s.position, id) {
        assert !KillPass(s, id, hazards, n - 1).alive;
      }
    }
  }

  /** The kill pass keeps a player's invariant. */
  lemma KillPassKeepsInv(s: Players.PlayerState, id: int, hazards: seq<(Rect, int)>, n: nat)
    requires n <= |hazards| && Players.Inv(s)
    ensures Players.Inv(KillPass(s, id, hazards, n))
  {
    KillPassResult(s, id, hazards, n);
  }

  // ---------------------------------------------------------------------
  // Passes over a list of entities
  // ---------------------------------------------------------------------

  /** The states of a list of entities after the first `i` of them have
      each been updated by `f` with their own input. */
  function Turned<S, C>(xs: seq<S>, inputs: seq<C>, f: (S, C) -> S, i: int): (r: seq<S>)
    requires |inputs| == |xs|
    ensures |r| == |xs|
  {
    seq(|xs|, j requires 0 <= j < |xs| => if j < i then f(xs[j], inputs[j]) else xs[j])
  }

  /** Updating entity `i` extends the pass by one. */
  lemma TurnedStep<S, C>(xs: seq<S>, inputs: seq<C>, f: (S, C) -> S, i: int)
    requires |inputs| == |xs| && 0 <= i < |xs|
    ensures Turned(xs, inputs, f, i)[i := f(xs[i], inputs[i])] == Turned(xs, inputs, f, i + 1)
  {
  }

  /** The models of a list of players, in list order. */
  ghost function Models(ps: seq<Players.Player>): (m: seq<Players.PlayerState>)
    reads ps
    ensures |m| == |ps| && forall j :: 0 <= j < |ps| ==> m[j] == ps[j].Model()
  {
    seq(|ps|, j reads ps requires 0 <= j < |ps| => ps[j].Model())
  }

  /** The ids of a list of players, in list order. */
  function Ids(ps: seq<Players.Player>): (ids: seq<int>)
    ensures |ids| == |ps| && forall j :: 0 <= j < |ps| ==> ids[j] == ps[j].id
  {
    seq(|ps|, j requires 0 <= j < |ps| => ps[j].id)
  }

  /** The models of a list of boomerangs, in list order. */
  ghost function BoomerangModels(bs: seq<Boomerangs.Boomerang>): (m: seq<Boomerangs.BoomerangState>)
    reads bs
    ensures |m| == |bs| && forall k :: 0 <= k < |bs| ==> m[k] == bs[k].Model()
  {
    seq(|bs|, k reads bs requires 0 <= k < |bs| => bs[k].Model())
  }

  /** The owner ids and sizes of a list of boomerangs. */
  function Owners(bs: seq<Boomerangs.Boomerang>): (o: seq<(int, real)>)
    ensures |o| == |bs| && forall k :: 0 <= k < |bs| ==> o[k] == (bs[k].ownerId, bs[k].size)
  {
    seq(|bs|, k requires 0 <= k < |bs| => (bs[k].ownerId, bs[k].size))
  }

  /** The boxes and owner ids of a list of boomerangs. */
  ghost function Hazards(bs: seq<Boomerangs.Boomerang>): (h: seq<(Rect, int)>)
    reads bs
    ensures |h| == |bs| && forall k :: 0 <= k < |bs| ==> h[k] == (bs[k].Bounds(), bs[k].ownerId)
  {
    seq(|bs|, k reads bs requires 0 <= k < |bs| => (bs[k].Bounds(), bs[k].ownerId))
  }

  /** A boomerang's update in the third loop: it homes on the position of
      the player at index `owner.0` of `positions`, and is skipped when
      there is none. */
  function BoomerangTurn(b: Boomerangs.BoomerangState, owner: (int, real), positions: seq<Vec>,
                         tiles: seq<Rect>, now: real, sqrt: real -> real): Boomerangs.BoomerangState
    requires IsSqrt(sqrt)
  {
    if 0 <= owner.0 < |positions|
    then Boomerangs.Step(b, owner.1, positions[owner.0], tiles, now, sqrt)
    else b
  }

  /** The player with the lowest index among the first `n` whose ready
      flag is set is player `j`. */
  predicate FirstReady(ms: seq<Players.PlayerState>, j: int, n: int) {
    0 <= j < n <= |ms| && ms[j].readyToThrow &&
    forall k :: 0 <= k < j ==> !ms[k].readyToThrow
  }

  /** Which boomerangs the sweep removes: the caught ones. */
  ghost function CaughtFlags(bs: seq<Boomerangs.Boomerang>): (g: seq<bool>)
    reads bs
    ensures |g| == |bs|
  {
    seq(|bs|, i reads bs requires 0 <= i < |bs| => bs[i].state == Boomerangs.Caught)
  }

  /** Which players the sweep removes: those whose death has played out. */
  ghost function FinishedFlags(ps: seq<Players.Player>): (g: seq<bool>)
    reads ps
    ensures |g| == |ps|
  {
    seq(|ps|, i reads ps requires 0 <= i < |ps| => ps[i].deathComplete)
  }

  /** The `remove_if` over the boomerangs. */
  method RemoveCaught(bs: seq<Boomerangs.Boomerang>) returns (flying: seq<Boomerangs.Boomerang>)
    ensures flying == Kept(bs, CaughtFlags(bs))
  {
    ghost var caught := CaughtFlags(bs);
    flying := [];
    var k := 0;
    while k < |bs|
      invariant 0 <= k <= |bs|
      invariant flying == Kept(bs[..k], caught[..k])
    {
      if bs[k].state != Boomerangs.Caught {
        flying := flying + [bs[k]];
      }
      assert bs[..k + 1][..k] == bs[..k];
      assert caught[..k + 1][..k] == caught[..k];
      k := k + 1;
    }
    assert bs[..|bs|] == bs && caught[..|bs|] == caught;
  }

  /** The `remove_if` over the players. */
  method RemoveFinished(ps: seq<Players.Player>) returns (remaining: seq<Players.Player>)
    ensures remaining == Kept(ps, FinishedFlags(ps))
  {
    ghost var finished := FinishedFlags(ps);
    remaining := [];
    var i := 0;
    while i < |ps|
      invariant 0 <= i <= |ps|
      invariant remaining == Kept(ps[..i], finished[..i])
    {
      if !ps[i].deathComplete {
        remaining := remaining + [ps[i]];
      }
      assert ps[..i + 1][..i] == ps[..i];
      assert finished[..i + 1][..i] == finished[..i];
      i := i + 1;
    }
    assert ps[..|ps|] == ps && finished[..|ps|] == finished;
  }

  /** The player sweep keeps what the game needs of its list: no more
      players, ids still increasing and below four, each player still in a
      reachable state. */
  lemma SweptPlayersStayValid(ps: seq<Players.Player>, gone: seq<bool>)
    requires |gone| == |ps|
    requires forall i, j :: 0 <= i < j < |ps| ==> ps[i].id < ps[j].id
    requires forall i :: 0 <= i < |ps| ==> 0 <= ps[i].id < MaxPlayers as int && ps[i].Valid()
    ensures var r := Kept(ps, gone);
      |r| <= |ps| &&
      (forall i, j :: 0 <= i < j < |r| ==> r[i].id < r[j].id) &&
      (forall i :: 0 <= i < |r| ==> 0 <= r[i].id < MaxPlayers as int && r[i].Valid())
  {
    KeptLength(ps, gone);
    KeptOrdered(ps, gone, (p: Players.Player, q: Players.Player) => p.id < q.id);
    forall p | p in Kept(ps, gone)
      ensures 0 <= p.id < MaxPlayers as int && p.Valid()
    {
      KeptMembership(ps, gone, p);
    }
  }

  // ---------------------------------------------------------------------
  // The game
  // ---------------------------------------------------------------------

  class Game {
    /** The side of the boomerang's square hitbox, fixed by its texture. */
    const boomerangSize: real
    /** The solid tiles of the level. */
    const tiles: seq<Rect>
    var state: GameState
    var gameOverTriggered: bool
    var players: seq<Players.Player>
    var boomerangs: seq<Boomerangs.Boomerang>
    var joinedControllers: seq<int>
    var gameOverDelay: real

    /** What holds between frames: at most four players with increasing ids
        below four, each in a reachable state; at most one boomerang; no
        controller joined twice; the trigger set exactly in GameOver; and
        in the menu, player `i` has id `i` and the `i`-th joined
        controller. */
    ghost predicate Valid()
      reads this, players, boomerangs
    {
      Shape() && PlayersValid()
    }

    /** The part of `Valid` about the lists themselves: it reads only the
        game's own fields and the players' constant ids. */
    ghost predicate Shape()
      reads this
    {
      |players| <= MaxPlayers && |boomerangs| <= MaxBoomerangs &&
      |joinedControllers| <= MaxPlayers &&
      (forall i, j :: 0 <= i < j < |players| ==> players[i].id < players[j].id) &&
      (forall i :: 0 <= i < |players| ==> 0 <= players[i].id < MaxPlayers as int) &&
      (forall i, j :: 0 <= i < j < |joinedControllers| ==> joinedControllers[i] != joinedControllers[j]) &&
      (gameOverTriggered <==> state == GameOver) &&
      (state == MainMenu ==>
         |players| == |joinedControllers| &&
         forall i :: 0 <= i < |players| ==>
           players[i].id == i && players[i].controllerId == joinedControllers[i])
    }

    /** Every player is in a reachable state. */
    ghost predicate PlayersValid()
      reads this, players
    {
      forall i :: 0 <= i < |players| ==> players[i].Valid()
    }

    /** Start-up: the menu, nobody joined, and the level expanded. */
    constructor (boomerangSize: real)
      ensures Valid() && state == MainMenu && players == [] && boomerangs == []
      ensures joinedControllers == [] && gameOverDelay == 0.0
      ensures tiles == TilesOf(Level) && this.boomerangSize == boomerangSize
    {
      this.boomerangSize := boomerangSize;
      var t := ExpandTiles(Level);
      tiles := t;
      state := MainMenu;
      gameOverTriggered := false;
      players := [];
      boomerangs := [];
      joinedControllers := [];
      gameOverDelay := 0.0;
    }

    /** `resetToMainMenu`. */
    method Reset()
      modifies this
      ensures Valid() && state == MainMenu && !gameOverTriggered
      ensures players == [] && boomerangs == [] && joinedControllers == [] && gameOverDelay == 0.0
    {
      state := MainMenu;
      gameOverTriggered := false;
      players := [];
      boomerangs := [];
      joinedControllers := [];
      gameOverDelay := 0.0;
    }

    /** A controller's button press in the menu: a controller not yet
        joined gets the next player, while there are fewer than four. */
    method Join(jid: int, now: real)
      requires Valid()
      modifies this
      ensures Valid()
      ensures var n := |old(players)|;
        if old(state) == MainMenu && jid !in old(joinedControllers) && n < MaxPlayers then
          |players| == n + 1 && players[..n] == old(players) && fresh(players[n]) &&
          players[n].id == n && players[n].controllerId == jid &&
          players[n].Model() == Players.Spawn(StartPositions[n], now) &&
          joinedControllers == old(joinedControllers) + [jid]
        else
          players == old(players) && joinedControllers == old(joinedControllers)
      ensures state == old(state) && boomerangs == old(boomerangs)
      ensures gameOverTriggered == old(gameOverTriggered) && gameOverDelay == old(gameOverDelay)
    {
      if state == MainMenu {
        var alreadyJoined := jid in joinedControllers;
        if !alreadyJoined && |players| < MaxPlayers {
          AddPlayer(jid, now);
        }
      }
    }

    /** A new player for controller `jid`, with the next id and that id's
        start position. */
    method AddPlayer(jid: int, now: real)
      requires Valid() && state == MainMenu && jid !in joinedControllers && |players| < MaxPlayers
      modifies this
      ensures Valid()
      ensures var n := |old(players)|;
        |players| == n + 1 && players[..n] == old(players) && fresh(players[n]) &&
        players[n].id == n && players[n].controllerId == jid &&
        players[n].Model() == Players.Spawn(StartPositions[n], now) &&
        joinedControllers == old(joinedControllers) + [jid]
      ensures state == old(state) && boomerangs == old(boomerangs)
      ensures gameOverTriggered == old(gameOverTriggered) && gameOverDelay == old(gameOverDelay)
    {
      var newPlayerId := |players|;
      var p := new Players.Player(StartPositions[newPlayerId].x, StartPositions[newPlayerId].y,
                                  newPlayerId, jid, now);
      players := players + [p];
      joinedControllers := joinedControllers + [jid];
    }

    /** The menu frame: the start button begins the game, but only once
        somebody has joined. */
    method MenuFrame(startPressed: bool)
      requires Valid() && state == MainMenu
      modifies this
      ensures Valid()
      ensures state == (if startPressed && |players| > 0 then Gameplay else MainMenu)
      ensures players == old(players) && boomerangs == old(boomerangs)
      ensures joinedControllers == old(joinedControllers) && gameOverDelay == old(gameOverDelay)
    {
      if startPressed && |players| > 0 {
        state := Gameplay;
      }
    }

    /** One player's turn in the first loop: `handleThrowInput`, then
        `handleInput`. */
    method ThrowTurnAt(i: int, c: Controls, now: real)
      requires Shape() && 0 <= i < |players|
      modifies players[i]
      ensures Models(players) == old(Models(players))[i := ThrowTurn(old(players[i].Model()), c, now)]
    {
      var player := players[i];
      assert forall j :: 0 <= j < |players| && j != i ==> players[j] != player;
      player.HandleThrowInput(c.throwPressed, c.aim, now);
      player.HandleInput(c.move, now);
    }

    /** One player's turn in the second loop: `handleInput`, then
        `update`. */
    method MoveTurnAt(i: int, c: Controls, now: real)
      requires Shape() && 0 <= i < |players|
      modifies players[i]
      ensures Models(players) == old(Models(players))[i := MoveTurn(old(players[i].Model()), c, tiles, now)]
    {
      var player := players[i];
      assert forall j :: 0 <= j < |players| && j != i ==> players[j] != player;
      player.HandleInput(c.move, now);
      player.Update(tiles, now);
    }

    /** `b` is a boomerang of this game launched at time `now` by the player
        with id `id` and state `s`: at its position, along its aim. */
    ghost predicate LaunchedFrom(b: Boomerangs.Boomerang, s: Players.PlayerState, id: int, now: real)
      reads this, b
    {
      b.ownerId == id && b.size == boomerangSize &&
      b.Model() == Boomerangs.Launch(s.position, Scale(s.aim, Players.ThrowSpeed), now)
    }

    /** The launch in the first loop: `releaseThrow` and a new boomerang at
        the position of player `i`, appended to the list. */
    method LaunchFrom(i: int, now: real)
      requires 0 <= i < |players| && Players.Inv(players[i].Model())
      modifies this, players[i]
      ensures Models(players) == old(Models(players))
      ensures |boomerangs| == |old(boomerangs)| + 1 && boomerangs[..|old(boomerangs)|] == old(boomerangs)
      ensures fresh(boomerangs[|old(boomerangs)|])
      ensures LaunchedFrom(boomerangs[|old(boomerangs)|], players[i].Model(), players[i].id, now)
      ensures players == old(players) && state == old(state) && gameOverTriggered == old(gameOverTriggered)
      ensures joinedControllers == old(joinedControllers) && gameOverDelay == old(gameOverDelay)
    {
      var player := players[i];
      Players.ReleaseKeepsAim(player.Model());
      var velocity := player.ReleaseThrow();
      var boomerang := new Boomerangs.Boomerang(player.position, velocity, player.id, boomerangSize, now);
      boomerangs := boomerangs + [boomerang];
    }

    /** The first `i` players of the first loop, which started from the
        models `before`, have taken their turn. */
    ghost predicate ThrowTurns(i: int, before: seq<Players.PlayerState>, controls: seq<Controls>, now: real)
      reads this, players
    {
      0 <= i <= |players| == |before| == |controls| && Shape() &&
      Models(players) == Turned(before, controls, (s, c) => ThrowTurn(s, c, now), i)
    }

    /** The launches among the first `n` players of the first loop, which
        started with the boomerangs `b0`: if a boomerang was launched,
        `launcher` is the first of them that was ready and the boomerang
        left from it; otherwise none of them was ready or a boomerang was
        already in the air. */
    ghost predicate Launches(n: int, now: real, b0: seq<Boomerangs.Boomerang>, launcher: int)
      reads this, players, boomerangs
    {
      n <= |players| && -1 <= launcher < n && |b0| <= 1 &&
      (|b0| == 1 ==> boomerangs == b0 && launcher == -1) &&
      (|b0| == 0 && launcher == -1 ==>
         boomerangs == [] && forall k :: 0 <= k < n ==> !Models(players)[k].readyToThrow) &&
      (launcher >= 0 ==>
         |b0| == 0 && |boomerangs| == 1 && FirstReady(Models(players), launcher, n) &&
         LaunchedFrom(boomerangs[0], Models(players)[launcher], players[launcher].id, now))
    }

    /** Player `i`'s turn in the first loop keeps the launches of the
        players before it. */
    method ThrowTurnStep(i: int, controls: seq<Controls>, now: real, ghost before: seq<Players.PlayerState>,
                         ghost b0: seq<Boomerangs.Boomerang>, ghost launcher: int)
      requires ThrowTurns(i, before, controls, now) && Launches(i, now, b0, launcher) && i < |players|
      modifies players[i]
      ensures ThrowTurns(i + 1, before, controls, now) && Launches(i, now, b0, launcher)
    {
      ghost var ms := Models(players);
      TurnedStep(before, controls, (s, c) => ThrowTurn(s, c, now), i);
      ThrowTurnAt(i, controls[i], now);
      assert forall k :: 0 <= k < i ==> Models(players)[k] == ms[k];
    }

    /** The launch check after player `i`'s turn. */
    method LaunchStep(i: int, controls: seq<Controls>, now: real, ghost before: seq<Players.PlayerState>,
                      ghost b0: seq<Boomerangs.Boomerang>, ghost launcher: int) returns (ghost launcher': int)
      requires ThrowTurns(i + 1, before, controls, now) && Launches(i, now, b0, launcher)
      requires forall j :: 0 <= j < |before| ==> Players.Inv(before[j])
      modifies this, players[i]
      ensures ThrowTurns(i + 1, before, controls, now) && Launches(i + 1, now, b0, launcher')
      ensures launcher' == launcher ==> boomerangs == old(boomerangs)
      ensures launcher' != launcher ==> fresh(boomerangs[0])
      ensures players == old(players) && state == old(state) && gameOverTriggered == old(gameOverTriggered)
      ensures joinedControllers == old(joinedControllers) && gameOverDelay == old(gameOverDelay)
    {
      launcher' := launcher;
      ghost var ms := Models(players);
      if players[i].readyToThrow && |boomerangs| < MaxBoomerangs {
        assert ms[i].readyToThrow && Players.Inv(ms[i]);
        LaunchFrom(i, now);
        launcher' := i;
        assert Models(players) == ms;
      }
    }

    /** The first loop of the gameplay frame: throw input and movement
        input for every player, and a new boomerang from the first ready
        player while none is in the air. */
    method ThrowPhase(controls: seq<Controls>, now: real)
      requires Valid() && |controls| == |players|
      modifies this, players
      ensures Valid()
      ensures players == old(players) && state == old(state) && gameOverTriggered == old(gameOverTriggered)
      ensures joinedControllers == old(joinedControllers) && gameOverDelay == old(gameOverDelay)
      ensures Models(players) == Turned(old(Models(players)), controls, (s, c) => ThrowTurn(s, c, now), |players|)
      ensures |old(boomerangs)| == 1 ==> boomerangs == old(boomerangs)
      ensures |old(boomerangs)| == 0 ==>
        (|boomerangs| == 1 <==> exists j :: 0 <= j < |players| && Models(players)[j].readyToThrow)
      ensures |old(boomerangs)| == 0 && |boomerangs| == 1 ==>
        fresh(boomerangs[0]) &&
        exists j :: FirstReady(Models(players), j, |players|) &&
          LaunchedFrom(boomerangs[0], Models(players)[j], players[j].id, now)
    {
      ghost var before := Models(players);
      ghost var launcher := ThrowLoop(controls, now, before);
    }

    /** The first loop itself. */
    method ThrowLoop(controls: seq<Controls>, now: real, ghost before: seq<Players.PlayerState>)
      returns (ghost launcher: int)
      requires ThrowTurns(0, before, controls, now) && |boomerangs| <= 1
      requires forall j :: 0 <= j < |before| ==> Players.Inv(before[j])
      modifies this, players
      ensures ThrowTurns(|players|, before, controls, now) && Launches(|players|, now, old(boomerangs), launcher)
      ensures launcher >= 0 ==> fresh(boomerangs[0])
      ensures players == old(players) && state == old(state) && gameOverTriggered == old(gameOverTriggered)
      ensures joinedControllers == old(joinedControllers) && gameOverDelay == old(gameOverDelay)
    {
      launcher := -1;
      var i := 0;
      while i < |players|
        invariant ThrowTurns(i, before, controls, now) && Launches(i, now, old(boomerangs), launcher)
        invariant launcher >= 0 ==> fresh(boomerangs[0])
        invariant players == old(players) && state == old(state) && gameOverTriggered == old(gameOverTriggered)
        invariant joinedControllers == old(joinedControllers) && gameOverDelay == old(gameOverDelay)
      {
        ThrowTurnStep(i, controls, now, before, old(boomerangs), launcher);
        launcher := LaunchStep(i, controls, now, before, old(boomerangs), launcher);
        i := i + 1;
      }
    }

    /** The second loop: movement input again and `update` for every
        player. */
    method MovePhase(controls: seq<Controls>, now: real)
      requires Valid() && |controls| == |players|
      modifies players
      ensures Valid()
      ensures Models(players) ==
        Turned(old(Models(players)), controls, (s, c) => MoveTurn(s, c, tiles, now), |players|)
    {
      ghost var before := Models(players);
      MoveLoop(controls, now);
      MovedStayValid(before, Models(players), controls, tiles, now);
    }

    /** The second loop itself. */
    method MoveLoop(controls: seq<Controls>, now: real)
      requires Shape() && |controls| == |players|
      modifies players
      ensures Models(players) ==
        Turned(old(Models(players)), controls, (s, c) => MoveTurn(s, c, tiles, now), |players|)
    {
      ghost var before := Models(players);
      ghost var turn := (s, c) => MoveTurn(s, c, tiles, now);
      var i := 0;
      while i < |players|
        invariant 0 <= i <= |players|
        invariant Models(players) == Turned(before, controls, turn, i)
      {
        TurnedStep(before, controls, turn, i);
        MoveTurnAt(i, controls[i], now);
        i := i + 1;
      }
    }

    /** One boomerang's turn in the third loop. */
    method BoomerangTurnAt(k: int, now: real, sqrt: real -> real)
      requires IsSqrt(sqrt) && 0 <= k < |boomerangs| <= 1
      modifies boomerangs[k]
      ensures BoomerangModels(boomerangs) == old(BoomerangModels(boomerangs))[k :=
        BoomerangTurn(old(boomerangs[k].Model()), (boomerangs[k].ownerId, boomerangs[k].size),
                      Positions(), tiles, now, sqrt)]
    {
      var boomerang := boomerangs[k];
      var ownerId := boomerang.ownerId;
      if ownerId >= 0 && ownerId < |players| {
        boomerang.Update(players[ownerId].position, tiles, now, sqrt);
      }
    }

    /** The players' positions, in list order. */
    ghost function Positions(): (ps: seq<Vec>)
      reads this, players
      ensures |ps| == |players| && forall j :: 0 <= j < |players| ==> ps[j] == players[j].position
    {
      seq(|players|, j reads this, players requires 0 <= j < |players| => players[j].position)
    }

    /** The third loop: each boomerang homes on `players[ownerId]`, the
        player at the position given by its owner's id, and is skipped when
        there is no player at that position. */
    method BoomerangPhase(now: real, sqrt: real -> real)
      requires Valid() && IsSqrt(sqrt)
      modifies boomerangs
      ensures Valid()
      ensures var positions := Positions();
        BoomerangModels(boomerangs) ==
          Turned(old(BoomerangModels(boomerangs)), Owners(boomerangs),
                 (b, owner) => BoomerangTurn(b, owner, positions, tiles, now, sqrt), |boomerangs|)
    {
      ghost var before := BoomerangModels(boomerangs);
      ghost var positions := Positions();
      ghost var turn := (b, owner) => BoomerangTurn(b, owner, positions, tiles, now, sqrt);
      var k := 0;
      while k < |boomerangs|
        invariant 0 <= k <= |boomerangs|
        invariant Positions() == positions
        invariant BoomerangModels(boomerangs) == Turned(before, Owners(boomerangs), turn, k)
      {
        TurnedStep(before, Owners(boomerangs), turn, k);
        BoomerangTurnAt(k, now, sqrt);
        k := k + 1;
      }
    }

    /** One player's check against boomerang box `box` in the fourth
        loop. */
    method KillTurnAt(i: int, box: Rect, ownerId: int)
      requires Shape() && 0 <= i < |players|
      modifies players[i]
      ensures Models(players) == old(Models(players))[i := KillTurn(old(players[i].Model()), players[i].id, (box, ownerId))]
    {
      var player := players[i];
      assert forall j :: 0 <= j < |players| && j != i ==> players[j] != player;
      if Intersects(box, player.Bounds()) && ownerId != player.id && player.alive {
        player.Kill();
      }
    }

    /** The inner kill loop: boomerang box `box`, owned by `ownerId`,
        against every player in turn. */
    method KillAll(box: Rect, ownerId: int)
      requires Shape()
      modifies players
      ensures Models(players) ==
        Turned(old(Models(players)), Ids(players), (s, id) => KillTurn(s, id, (box, ownerId)), |players|)
    {
      ghost var mid := Models(players);
      var i := 0;
      while i < |players|
        invariant 0 <= i <= |players|
        invariant Models(players) == Turned(mid, Ids(players), (s, id) => KillTurn(s, id, (box, ownerId)), i)
      {
        TurnedStep(mid, Ids(players), (s, id) => KillTurn(s, id, (box, ownerId)), i);
        KillTurnAt(i, box, ownerId);
        i := i + 1;
      }
    }

    /** The fourth loop: a boomerang kills every live player whose box it
        overlaps, except its owner. */
    method KillPhase()
      requires Valid()
      modifies players
      ensures Valid()
      ensures forall j :: 0 <= j < |players| ==>
        players[j].Model() == KillPass(old(players[j].Model()), players[j].id, Hazards(boomerangs), |boomerangs|)
    {
      ghost var before := Models(players);
      KillLoop();
      forall j | 0 <= j < |players|
        ensures players[j].Valid()
      {
        KillPassKeepsInv(before[j], players[j].id, Hazards(boomerangs), |boomerangs|);
      }
    }

    /** The fourth loop itself. */
    method KillLoop()
      requires Shape()
      modifies players
      ensures forall j :: 0 <= j < |players| ==>
        players[j].Model() == KillPass(old(players[j].Model()), players[j].id, Hazards(boomerangs), |boomerangs|)
    {
      ghost var before := Models(players);
      ghost var hazards := Hazards(boomerangs);
      var k := 0;
      while k < |boomerangs|
        invariant 0 <= k <= |boomerangs|
        invariant Hazards(boomerangs) == hazards
        invariant forall j :: 0 <= j < |players| ==>
          Models(players)[j] == KillPass(before[j], players[j].id, hazards, k)
      {
        var box := boomerangs[k].Bounds();
        var ownerId := boomerangs[k].ownerId;
        assert hazards[k] == (box, ownerId);
        KillAll(box, ownerId);
        k := k + 1;
      }
    }

    /** The first sweep: caught boomerangs leave the list; the rest keep
        their order. */
    method SweepBoomerangs()
      requires Valid()
      modifies this
      ensures Valid()
      ensures boomerangs == Kept(old(boomerangs), CaughtFlags(old(boomerangs)))
      ensures players == old(players) && state == old(state) && gameOverTriggered == old(gameOverTriggered)
      ensures joinedControllers == old(joinedControllers) && gameOverDelay == old(gameOverDelay)
    {
      var flying := RemoveCaught(boomerangs);
      KeptLength(boomerangs, CaughtFlags(boomerangs));
      boomerangs := flying;
    }

    /** The second sweep: players whose death has played out leave the
        list; the rest keep their order, so the ids stay increasing. */
    method SweepPlayers()
      requires Valid() && state != MainMenu
      modifies this
      ensures Valid()
      ensures players == Kept(old(players), FinishedFlags(old(players)))
      ensures boomerangs == old(boomerangs) && state == old(state) && gameOverTriggered == old(gameOverTriggered)
      ensures joinedControllers == old(joinedControllers) && gameOverDelay == old(gameOverDelay)
    {
      ghost var gone := FinishedFlags(players);
      var remaining := RemoveFinished(players);
      assert remaining == Kept(players, gone);
      SweptPlayersStayValid(players, gone);
      players := remaining;
      assert players == Kept(old(players), gone);
      assert gone == FinishedFlags(old(players));
    }

    /** The round-over check at the end of the gameplay frame. */
    method RoundOverCheck(now: real)
      requires Valid() && state == Gameplay
      modifies this
      ensures Valid()
      ensures RoundClock(gameOverTriggered, gameOverDelay) ==
        RoundCheck(RoundClock(old(gameOverTriggered), old(gameOverDelay)), |players|, now)
      ensures state == (if gameOverTriggered then GameOver else Gameplay)
      ensures players == old(players) && boomerangs == old(boomerangs)
      ensures joinedControllers == old(joinedControllers)
    {
      if |players| == 1 && !gameOverTriggered {
        if gameOverDelay == 0.0 {
          gameOverDelay := now;
        } else if now - gameOverDelay >= GameOverWait {
          state := GameOver;
          gameOverTriggered := true;
        }
      } else if |players| > 1 {
        gameOverDelay := 0.0;
      }
    }

    /** The first half of the gameplay frame: the three update loops. */
    method UpdateLoops(controls: seq<Controls>, now: real, sqrt: real -> real)
      requires Valid() && state == Gameplay && |controls| == |players| && IsSqrt(sqrt)
      modifies this, players, boomerangs
      ensures Valid() && state == Gameplay && players == old(players)
      ensures joinedControllers == old(joinedControllers) && gameOverDelay == old(gameOverDelay)
    {
      ThrowFrame(controls, now);
      MovePhase(controls, now);
      BoomerangPhase(now, sqrt);
    }

    /** The throw loop, seen from the rest of the frame: it keeps the
        roster and at most one boomerang is in flight afterwards. */
    method ThrowFrame(controls: seq<Controls>, now: real)
      requires Valid() && |controls| == |players|
      modifies this, players
      ensures Valid() && players == old(players) && state == old(state)
      ensures joinedControllers == old(joinedControllers) && gameOverDelay == old(gameOverDelay)
      ensures |old(boomerangs)| == 1 ==> boomerangs == old(boomerangs)
      ensures |old(boomerangs)| == 0 && |boomerangs| == 1 ==> fresh(boomerangs[0])
    {
      ThrowPhase(controls, now);
    }

    /** The second half of the gameplay frame: kills, sweeps and the
        round-over check. */
    method ResolveFrame(now: real)
      requires Valid() && state == Gameplay
      modifies this, players
      ensures Valid()
      ensures state == Gameplay || (state == GameOver && |players| == 1)
      ensures joinedControllers == old(joinedControllers)
    {
      KillPhase();
      SweepBoomerangs();
      SweepPlayers();
      RoundOverCheck(now);
    }

    /** The gameplay frame, in the order of runner.cpp: throw and movement
        input, player updates, boomerang updates, kills, sweeps, and the
        round-over check. */
    method GameplayFrame(controls: seq<Controls>, now: real, sqrt: real -> real)
      requires Valid() && state == Gameplay && |controls| == |players| && IsSqrt(sqrt)
      modifies this, players, boomerangs
      ensures Valid()
      ensures state == Gameplay || (state == GameOver && |players| == 1)
      ensures joinedControllers == old(joinedControllers)
    {
      UpdateLoops(controls, now, sqrt);
      ResolveFrame(now);
    }

    /** The game-over frame: a restart button goes back to the menu. */
    method GameOverFrame(restartPressed: bool)
      requires Valid() && state == GameOver
      modifies this
      ensures Valid()
      ensures restartPressed ==>
        state == MainMenu && players == [] && boomerangs == [] &&
        joinedControllers == [] && gameOverDelay == 0.0
      ensures !restartPressed ==> state == GameOver && players == old(players)
      ensures !restartPressed ==>
        boomerangs == old(boomerangs) && joinedControllers == old(joinedControllers) &&
        gameOverDelay == old(gameOverDelay) && gameOverTriggered == old(gameOverTriggered)
    {
      if restartPressed {
        Reset();
      }
    }
  }
}
