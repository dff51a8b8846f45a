/** The game-logic side of one board's simulation: the per-player input
    table, the rule that turns held keys into a horizontal force and a
    clamped velocity, and the jump guard. The physics engine itself is not
    modelled: a rigid body is reduced to the values this logic reads and
    writes, and the engine's contact information is a set of collider pairs. */
module Physics {

  const MAX_SPEED: real := 3.0
  const ALMOST_ZERO: real := 0.001
  const MOVE_FORCE: real := 10.0
  /** Upward impulse of a jump. */
  const JUMP_IMPULSE: real := 5.0
  /** Upward impulse of the strong hit, which is given to the ball. */
  const STRONG_IMPULSE: real := 1.0

  /** Handles into the engine's arenas; a fresh arena hands out indices
      0, 1, 2, ... in insertion order. */
  datatype BodyHandle = BodyHandle(index: nat)
  datatype ColliderHandle = ColliderHandle(index: nat)

  /** One entry `[left, right]` of the input table: which keys are held. */
  datatype Held = Held(left: bool, right: bool)

  /** What the game logic sees of a rigid body: linear velocity, the user
      force accumulated on it, angular velocity, and the total impulse
      applied to it (the engine turns impulses into velocity through the
      body's mass, which is not modelled). */
  datatype Body = Body(vx: real, vy: real, fx: real, fy: real, angvel: real, impulseX: real, impulseY: real)

  const AT_REST: Body := Body(0.0, 0.0, 0.0, 0.0, 0.0, 0.0, 0.0)

  function Abs(x: real): (r: real)
    ensures r >= 0.0 && (r == x || r == -x)
  {
    if x < 0.0 then -x else x
  }

  /** `contact`: the narrow phase holds a pair for the two colliders (in
      either order) that has an active contact. */
  predicate Contact(activeContacts: set<(ColliderHandle, ColliderHandle)>, c1: ColliderHandle, c2: ColliderHandle)
  {
    (c1, c2) in activeContacts || (c2, c1) in activeContacts
  }

  /** The movement-control rule, from the body before (`b`) to after (`a`).
      Every decision is taken on the velocity and force read before any
      change. */
  ghost predicate Controlled(held: Held, b: Body, a: Body)
  {
    // angular velocity is zeroed, vertical velocity and impulses are kept
    && a.angvel == 0.0 && a.vy == b.vy && a.impulseX == b.impulseX && a.impulseY == b.impulseY
    // too fast: clamp to MAX_SPEED by sign; almost still: snap to zero
    && a.vx == (if Abs(b.vx) > MAX_SPEED then (if b.vx > 0.0 then MAX_SPEED else -MAX_SPEED)
                else if Abs(b.vx) < ALMOST_ZERO then 0.0
                else b.vx)
    // forces are reset when clamping or when no key is held; otherwise a
    // force is added only where none is present, right winning over left
    && (if Abs(b.vx) > MAX_SPEED || (!held.left && !held.right) then a.fx == 0.0 && a.fy == 0.0
        else a.fy == b.fy && a.fx == (if b.fx != 0.0 then b.fx else if held.right then MOVE_FORCE else -MOVE_FORCE))
  }

  /** `control_player` on one body, step by step. */
  method ControlBody(held: Held, body: Body) returns (b: Body)
    ensures Controlled(held, body, b)
    ensures -MAX_SPEED <= b.vx <= MAX_SPEED
    ensures body.fx != 0.0 ==> b.fx == body.fx || b.fx == 0.0
    ensures held.right && body.fx == 0.0 && b.fx != 0.0 ==> b.fx == MOVE_FORCE
  {
    b := body.(angvel := 0.0);
    var vx, vy := b.vx, b.vy;
    var f := b.fx;

    if held.right && f == 0.0 {
      b := b.(fx := b.fx + MOVE_FORCE);
    } else if held.left && f == 0.0 {
      b := b.(fx := b.fx - MOVE_FORCE);
    }

    if Abs(vx) > MAX_SPEED {
      b := b.(vx := if vx > 0.0 then MAX_SPEED else -MAX_SPEED, vy := vy);
      b := b.(fx := 0.0, fy := 0.0);
    }
    if !held.left && !held.right {
      b := b.(fx := 0.0, fy := 0.0);
    }

    if Abs(vx) < ALMOST_ZERO {
      b := b.(vx := 0.0, vy := vy);
    }
  }

  /** The part of `GameState` this model keeps: the body and collider
      handles, the bodies' control-relevant state, the engine's active
      contacts, and the input table. */
  class GameState {
    var player1Handle: BodyHandle
    var player2Handle: BodyHandle
    var ballHandle: BodyHandle
    var groundHandle: ColliderHandle
    var rightWallHandle: ColliderHandle
    var leftWallHandle: ColliderHandle
    var middleWallHandle: ColliderHandle
    var netHandle: ColliderHandle
    var player1ColliderHandle: ColliderHandle
    var player2ColliderHandle: ColliderHandle
    var ballColliderHandle: ColliderHandle

    var bodies: map<BodyHandle, Body>
    var activeContacts: set<(ColliderHandle, ColliderHandle)>
    var playerInput: map<BodyHandle, Held>

    /** Three distinct bodies exist, and the input table has exactly the two players. */
    ghost predicate Valid()
      reads this
    {
      && player1Handle != player2Handle
      && ballHandle != player1Handle && ballHandle != player2Handle
      && bodies.Keys == {player1Handle, player2Handle, ballHandle}
      && playerInput.Keys == {player1Handle, player2Handle}
    }

    /** The body of player 1 or player 2. */
    function PlayerHandle(isPlayer1: bool): (h: BodyHandle)
      reads this
      requires Valid()
      ensures h in playerInput && h in bodies && h != ballHandle
    {
      if isPlayer1 then player1Handle else player2Handle
    }

    /** `new`: colliders and bodies are inserted in the order ground, walls,
        net, player 1, player 2, ball; both players start with no key held. */
    constructor ()
      ensures Valid()
      ensures playerInput == map[player1Handle := Held(false, false), player2Handle := Held(false, false)]
      ensures forall h :: h in bodies ==> bodies[h] == AT_REST
      ensures activeContacts == {}
      ensures player1ColliderHandle != groundHandle && player2ColliderHandle != groundHandle
    {
      var input: map<BodyHandle, Held> := map[];
      groundHandle := ColliderHandle(0);
      rightWallHandle := ColliderHandle(1);
      leftWallHandle := ColliderHandle(2);
      middleWallHandle := ColliderHandle(3);
      netHandle := ColliderHandle(4);
      var p1, p2, ball := BodyHandle(0), BodyHandle(1), BodyHandle(2);
      player1Handle := p1;
      player1ColliderHandle := ColliderHandle(5);
      player2Handle := p2;
      player2ColliderHandle := ColliderHandle(6);
      input := input[p1 := Held(false, false)];
      input := input[p2 := Held(false, false)];
      ballHandle := ball;
      ballColliderHandle := ColliderHandle(7);
      playerInput := input;
      bodies := map[p1 := AT_REST, p2 := AT_REST, ball := AT_REST];
      activeContacts := {};
    }

    /** `control_player`: applies the movement-control rule to one player's body. */
    method ControlPlayer(handle: BodyHandle)
      requires Valid() && handle in playerInput
      modifies this`bodies
      ensures Valid()
      ensures bodies.Keys == old(bodies).Keys
      ensures Controlled(playerInput[handle], old(bodies[handle]), bodies[handle])
      ensures forall h :: h in bodies && h != handle ==> bodies[h] == old(bodies[h])
    {
      var held := playerInput[handle];
      var after := ControlBody(held, bodies[handle]);
      bodies := bodies[handle := after];
    }

    /** `apply_impulse`: a jump lifts the player only while the player's
        collider touches the ground; the strong impulse always goes to the ball. */
    method ApplyImpulse(isStrong: bool, isPlayer1: bool)
      requires Valid()
      modifies this`bodies
      ensures Valid()
      ensures !isStrong ==>
        var h := PlayerHandle(isPlayer1);
        var c := if isPlayer1 then player1ColliderHandle else player2ColliderHandle;
        bodies == if Contact(activeContacts, c, groundHandle)
                  then old(bodies)[h := old(bodies[h]).(impulseY := old(bodies[h]).impulseY + JUMP_IMPULSE)]
                  else old(bodies)
      ensures isStrong ==>
        bodies == old(bodies)[ballHandle := old(bodies[ballHandle]).(impulseY := old(bodies[ballHandle]).impulseY + STRONG_IMPULSE)]
    {
      if !isStrong {
        var handler, collHandler := if isPlayer1 then player1Handle else player2Handle,
                                    if isPlayer1 then player1ColliderHandle else player2ColliderHandle;
        if Contact(activeContacts, collHandler, groundHandle) {
          var body := bodies[handler];
          bodies := bodies[handler := body.(impulseX := body.impulseX + 0.0, impulseY := body.impulseY + JUMP_IMPULSE)];
        }
      } else {
        var body := bodies[ballHandle];
        bodies := bodies[ballHandle := body.(impulseX := body.impulseX + 0.0, impulseY := body.impulseY + STRONG_IMPULSE)];
      }
    }

    /** `add_force`: marks the right (or left) key of one player as held,
        keeping that player's other flag. */
    method AddForce(rightForce: bool, isPlayer1: bool)
      requires Valid()
      modifies this`playerInput
      ensures Valid()
      ensures var h := PlayerHandle(isPlayer1);
        playerInput == old(playerInput)[h := if rightForce then old(playerInput[h]).(right := true)
                                              else old(playerInput[h]).(left := true)]
    {
      var handle := if isPlayer1 then player1Handle else player2Handle;
      var Held(left, right) := playerInput[handle];
      if rightForce {
        playerInput := playerInput[handle := Held(left, true)];
      } else {
        playerInput := playerInput[handle := Held(true, right)];
      }
    }

    /** `reset_force`: marks the right (or left) key of one player as
        released, keeping that player's other flag. */
    method ResetForce(rightForce: bool, isPlayer1: bool)
      requires Valid()
      modifies this`playerInput
      ensures Valid()
      ensures var h := PlayerHandle(isPlayer1);
        playerInput == old(playerInput)[h := if rightForce then old(playerInput[h]).(right := false)
                                              else old(playerInput[h]).(left := false)]
    {
      var handle := if isPlayer1 then player1Handle else player2Handle;
      var Held(left, right) := playerInput[handle];
      if rightForce {
        playerInput := playerInput[handle := Held(left, false)];
      } else {
        playerInput := playerInput[handle := Held(false, right)];
      }
    }
  }

  /** Pressing the same key twice leaves the table as pressing it once, and
      the other player's entry is untouched. */
  method PressTwice(g: GameState, rightForce: bool, isPlayer1: bool)
    requires g.Valid()
    modifies g`playerInput
    ensures g.Valid()
    ensures var h := old(g.PlayerHandle(isPlayer1));
      g.playerInput == old(g.playerInput)[h := if rightForce then old(g.playerInput[h]).(right := true)
                                                else old(g.playerInput[h]).(left := true)]
    ensures g.playerInput[g.PlayerHandle(!isPlayer1)] == old(g.playerInput[g.PlayerHandle(!isPlayer1)])
  {
    g.AddForce(rightForce, isPlayer1);
    g.AddForce(rightForce, isPlayer1);
  }

  /** Releasing the same key twice leaves the table as releasing it once. */
  method ReleaseTwice(g: GameState, rightForce: bool, isPlayer1: bool)
    requires g.Valid()
    modifies g`playerInput
    ensures g.Valid()
    ensures var h := old(g.PlayerHandle(isPlayer1));
      g.playerInput == old(g.playerInput)[h := if rightForce then old(g.playerInput[h]).(right := false)
                                                else old(g.playerInput[h]).(left := false)]
    ensures g.playerInput[g.PlayerHandle(!isPlayer1)] == old(g.playerInput[g.PlayerHandle(!isPlayer1)])
  {
    g.ResetForce(rightForce, isPlayer1);
    g.ResetForce(rightForce, isPlayer1);
  }
}
