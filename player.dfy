/**
 * The player character (src/player.rs): a movement state machine with
 * coyote time and jump buffering, driven once per frame by `handle_input`,
 * and `actor_move`, which moves the player's actor and reacts to the
 * collision callbacks.
 *
 * The gamepad is a parameter: each button is a pair of flags, held this
 * frame and pressed this frame.
 */
module Players {
  import opened Numeric
  import opened Optional
  import opened Vectors
  import opened Solids
  import opened ActorMovement

  datatype MovementStatus = IsLanded | IsFalling | InJump

  datatype Button = Button(pressed: bool, justPressed: bool)

  /** The buttons of gamepad 0 that `handle_input` reads. */
  datatype Gamepad = Gamepad(up: Button, start: Button, left: Button, right: Button, a: Button)

  /** A jump starts on a fresh press of up or start... */
  function JumpJustPressed(gp: Gamepad): bool {
    gp.up.justPressed || gp.start.justPressed
  }

  /** ...and is held while either of them is down. */
  function JumpPressed(gp: Gamepad): bool {
    gp.up.pressed || gp.start.pressed
  }

  /** The end-of-frame countdown applied to both timers. */
  function Countdown(t: int): (r: int)
    ensures 0 < t ==> r == t - 1
    ensures t <= 0 ==> r == t
    ensures 0 <= t ==> 0 <= r <= t
  {
    if t > 0 then t - 1 else t
  }

  /**
   * Horizontal velocity after the directional input, before the clamp:
   * left accelerates leftwards, otherwise right accelerates rightwards,
   * otherwise the velocity decays toward 0 by `deceleration`.
   */
  function Steer(vx: real, gp: Gamepad, acceleration: real, deceleration: real): (r: real)
    ensures gp.left.pressed ==> r == vx - acceleration
    ensures !gp.left.pressed && gp.right.pressed ==> r == vx + acceleration
    ensures !gp.left.pressed && !gp.right.pressed && 0.0 <= deceleration <= Magnitude(vx) ==>
              Magnitude(r) == Magnitude(vx) - deceleration && (r == 0.0 || (r < 0.0 <==> vx < 0.0))
    ensures !gp.left.pressed && !gp.right.pressed && vx != 0.0 && 0.0 < deceleration ==>
              Magnitude(r - vx) == deceleration && (vx > 0.0 ==> r < vx) && (vx < 0.0 ==> r > vx)
    ensures !gp.left.pressed && !gp.right.pressed && 0.0 < Magnitude(vx) < deceleration ==>
              (r < 0.0 <==> 0.0 < vx) && r != 0.0
    ensures !gp.left.pressed && !gp.right.pressed && vx == 0.0 ==> r == 0.0
  {
    if gp.left.pressed then vx - acceleration
    else if gp.right.pressed then vx + acceleration
    else if vx > 0.0 then vx - deceleration
    else if vx < 0.0 then vx + deceleration
    else vx
  }

  function Magnitude(r: real): real {
    if r < 0.0 then -r else r
  }

  /**
   * The vertical pull for one frame while airborne: six times gravity when
   * falling without the jump held, a third of it while rising or slower
   * than 25 units per frame, full gravity otherwise.
   */
  function GravityFor(status: MovementStatus, jumpHeld: bool, vy: real, gravity: real): (g: real)
    ensures 0.0 < gravity ==> 0.0 < g <= 6.0 * gravity
    ensures 0.0 < gravity ==> (g == 6.0 * gravity <==> status == IsFalling && !jumpHeld)
    ensures 0.0 < gravity && !(status == IsFalling && !jumpHeld) ==> (g < gravity <==> vy < 25.0)
  {
    if status == IsFalling && !jumpHeld then gravity * 6.0
    else if vy < 25.0 then gravity / 3.0
    else gravity
  }

  class Player {
    const actor: Actor
    var velocity: Vector2
    var isFacingLeft: bool
    var coyoteTimer: int
    var jumpBufferTimer: int
    // The tuning fields are set by `new` and never written afterwards.
    const gravity: real := 6.0
    const maxGravity: real := 25.0
    const moveSpeedMax: real := 12.0
    const acceleration: real := 6.0
    const deceleration: real := 2.0
    const jumpForce: real := 30.0
    const coyoteTimerDuration: int := 3
    const jumpBufferTimerDuration: int := 8
    var movementStatus: MovementStatus
    var tryPickItem: bool
    var pickedItem: Option<nat>

    /**
     * What every frame preserves: both timers stay within their durations
     * and the horizontal speed within `move_speed_max`.
     */
    ghost predicate Valid()
      reads this
    {
      && 0 <= coyoteTimer <= coyoteTimerDuration
      && 0 <= jumpBufferTimer <= jumpBufferTimerDuration
      && -moveSpeedMax <= velocity.x <= moveSpeedMax
    }

    /**
     * A landed player has no vertical velocity. Landing zeroes it, and
     * `handle_input` applies no gravity on the ground.
     */
    ghost predicate AtRestWhenLanded()
      reads this
    {
      movementStatus == IsLanded ==> velocity.y == 0.0
    }

    /** `Player::new(x, y)`: a 45 x 62 actor at `(x, y)`, at rest, falling. */
    constructor (x: real, y: real)
      ensures Valid() && AtRestWhenLanded()
      ensures fresh(actor)
      ensures actor.position == Vector2(x, y) && actor.width == 45.0 && actor.height == 62.0
      ensures actor.remainder == Zero()
      ensures velocity == Zero() && isFacingLeft
      ensures coyoteTimer == 0 && jumpBufferTimer == 0
      ensures movementStatus == IsFalling && !tryPickItem && pickedItem == None
    {
      actor := new Actor(Vector2(x, y), 45.0, 62.0);
      velocity := Vector2(0.0, 0.0);
      coyoteTimer := 0;
      jumpBufferTimer := 0;
      isFacingLeft := true;
      movementStatus := IsFalling;
      tryPickItem := false;
      pickedItem := None;
    }

    /**
     * `handle_input`: one frame of input. The status machine may start a
     * jump (from the ground, from a buffered press, or within coyote time
     * after leaving a ledge) or turn a rising jump into a fall; a jump
     * pressed too late while falling is buffered. Then the horizontal
     * velocity is steered and clamped, gravity is applied to an airborne
     * player, and both timers count down.
     */
    method HandleInput(gp: Gamepad)
      requires Valid()
      modifies this
      ensures Valid()
      ensures old(AtRestWhenLanded()) ==> AtRestWhenLanded()
      ensures movementStatus != IsLanded ==> -jumpForce <= velocity.y <= maxGravity
      ensures old(movementStatus) == IsLanded ==>
                movementStatus == (if JumpJustPressed(gp) || old(jumpBufferTimer) > 0 then InJump else IsLanded)
      ensures old(movementStatus) == InJump ==>
                movementStatus == (if old(velocity.y) > 0.0 then IsFalling else InJump)
      ensures old(movementStatus) == IsFalling ==>
                movementStatus == (if old(coyoteTimer) > 0 && JumpJustPressed(gp) then InJump else IsFalling)
      ensures movementStatus == IsLanded ==> old(movementStatus) == IsLanded && velocity.y == old(velocity.y)
      ensures var launched := movementStatus == InJump && old(movementStatus) != InJump;
              var vy := if launched then -jumpForce else old(velocity.y);
              movementStatus != IsLanded ==>
                velocity.y == Clamp(vy + GravityFor(movementStatus, JumpPressed(gp), vy, gravity), -jumpForce, maxGravity)
      ensures velocity.x == Clamp(Steer(old(velocity.x), gp, acceleration, deceleration), -moveSpeedMax, moveSpeedMax)
      ensures isFacingLeft == (if gp.left.pressed then true else if gp.right.pressed then false else old(isFacingLeft))
      ensures coyoteTimer == Countdown(old(coyoteTimer))
      ensures var buffered := old(movementStatus) == IsFalling && old(coyoteTimer) <= 0 && JumpJustPressed(gp);
              jumpBufferTimer == Countdown(if buffered then jumpBufferTimerDuration else old(jumpBufferTimer))
      ensures tryPickItem == (old(tryPickItem) || (old(movementStatus) == IsLanded && gp.a.justPressed))
      ensures pickedItem == old(pickedItem)
    {
      var jumpJustPressed := gp.up.justPressed || gp.start.justPressed;
      var jumpPressed := gp.up.pressed || gp.start.pressed;
      Transition(jumpJustPressed, gp.a.justPressed);
      SteerHorizontally(gp);
      ApplyAirGravity(jumpPressed);
      CountDownTimers();
    }

    /**
     * The status `match` of `handle_input`: a jump launches the player at
     * `-jump_force`; on the ground a press of `a` also requests a pick-up.
     */
    method Transition(jumpJustPressed: bool, pickJustPressed: bool)
      modifies this`movementStatus, this`velocity, this`jumpBufferTimer, this`tryPickItem
      ensures old(movementStatus) == IsLanded ==>
                movementStatus == (if jumpJustPressed || old(jumpBufferTimer) > 0 then InJump else IsLanded)
      ensures old(movementStatus) == InJump ==>
                movementStatus == (if old(velocity.y) > 0.0 then IsFalling else InJump)
      ensures old(movementStatus) == IsFalling ==>
                movementStatus == (if old(coyoteTimer) > 0 && jumpJustPressed then InJump else IsFalling)
      ensures velocity == (if movementStatus == InJump && old(movementStatus) != InJump
                           then old(velocity).(y := -jumpForce) else old(velocity))
      ensures jumpBufferTimer == (if old(movementStatus) == IsFalling && old(coyoteTimer) <= 0 && jumpJustPressed
                                  then jumpBufferTimerDuration else old(jumpBufferTimer))
      ensures tryPickItem == (old(tryPickItem) || (old(movementStatus) == IsLanded && pickJustPressed))
    {
      match movementStatus {
        case IsLanded =>
          if jumpJustPressed || jumpBufferTimer > 0 {
            velocity := velocity.(y := -jumpForce);
            movementStatus := InJump;
          }
          if pickJustPressed {
            tryPickItem := true;
          }
        case InJump =>
          if velocity.y > 0.0 {
            movementStatus := IsFalling;
          }
        case IsFalling =>
          if coyoteTimer > 0 && jumpJustPressed {
            velocity := velocity.(y := -jumpForce);
            movementStatus := InJump;
          } else if jumpJustPressed {
            jumpBufferTimer := jumpBufferTimerDuration;
          }
      }
    }

    /** Directional input, then `clamp_x` to `[-move_speed_max, move_speed_max]`. */
    method SteerHorizontally(gp: Gamepad)
      modifies this`velocity, this`isFacingLeft
      ensures velocity == Vector2(Clamp(Steer(old(velocity.x), gp, acceleration, deceleration), -moveSpeedMax, moveSpeedMax),
                                  old(velocity.y))
      ensures isFacingLeft == (if gp.left.pressed then true else if gp.right.pressed then false else old(isFacingLeft))
    {
      if gp.left.pressed {
        velocity := AddAssign(velocity, Vector2(-acceleration, 0.0));
        isFacingLeft := true;
      } else if gp.right.pressed {
        velocity := AddAssign(velocity, Vector2(acceleration, 0.0));
        isFacingLeft := false;
      } else {
        if velocity.x > 0.0 {
          velocity := AddAssign(velocity, Vector2(-deceleration, 0.0));
        } else if velocity.x < 0.0 {
          velocity := AddAssign(velocity, Vector2(deceleration, 0.0));
        }
      }
      velocity := velocity.(x := Clamp(velocity.x, -moveSpeedMax, moveSpeedMax));
    }

    /** An airborne player is pulled down, then `clamp_y` to `[-jump_force, max_gravity]`. */
    method ApplyAirGravity(jumpPressed: bool)
      modifies this`velocity
      ensures movementStatus == IsLanded ==> velocity == old(velocity)
      ensures movementStatus != IsLanded ==>
                velocity == Vector2(old(velocity.x),
                                    Clamp(old(velocity.y) + GravityFor(movementStatus, jumpPressed, old(velocity.y), gravity),
                                          -jumpForce, maxGravity))
    {
      if movementStatus != IsLanded {
        var currentGravity :=
          if movementStatus == IsFalling && !jumpPressed then Vector2(0.0, gravity * 6.0)
          else if velocity.y < 25.0 then Vector2(0.0, gravity / 3.0)
          else Vector2(0.0, gravity);
        velocity := AddAssign(velocity, currentGravity);
        velocity := velocity.(y := Clamp(velocity.y, -jumpForce, maxGravity));
      }
    }

    /** Both timers count down toward 0. */
    method CountDownTimers()
      modifies this`coyoteTimer, this`jumpBufferTimer
      ensures coyoteTimer == Countdown(old(coyoteTimer))
      ensures jumpBufferTimer == Countdown(old(jumpBufferTimer))
    {
      if coyoteTimer > 0 {
        coyoteTimer := coyoteTimer - 1;
      }
      if jumpBufferTimer > 0 {
        jumpBufferTimer := jumpBufferTimer - 1;
      }
    }

    /**
     * `actor_move`: moves the actor by the frame's velocity, x first, then y.
     * A blocked x move stops horizontal motion. A blocked y move stops
     * vertical motion and lands a player that was moving down; a y move
     * that covered its whole distance starts a fall, with coyote time, for
     * a player that was on the ground.
     */
    method ActorMove(solids: seq<Solid>)
      requires Valid()
      modifies this, actor`position, actor`remainder
      ensures Valid()
      ensures var vx := old(velocity.x);
              var afterX := old(actor.position).Add(Times(UnitStep(Sign(Trunc(vx)), true),
                                                          Sweep(solids, old(actor.Bound()), vx, true)));
              var vy := old(velocity.y);
              && actor.position == afterX.Add(Times(UnitStep(Sign(Trunc(vy)), false),
                                                    Sweep(solids, Centred(afterX, actor.width, actor.height), vy, false)))
              && velocity.x == (if Sweep(solids, old(actor.Bound()), vx, true) < Abs(Trunc(vx)) then 0.0 else vx)
              && var signal := YSignal(solids, Centred(afterX, actor.width, actor.height), vy);
                 && velocity.y == (if signal == Some(true) then 0.0 else vy)
                 && movementStatus == (if signal == Some(true) && vy > 0.0 then IsLanded
                                       else if signal == Some(false) && old(movementStatus) == IsLanded then IsFalling
                                       else old(movementStatus))
                 && coyoteTimer == (if signal == Some(false) && old(movementStatus) == IsLanded then coyoteTimerDuration
                                    else old(coyoteTimer))
      ensures Trunc(old(velocity.y)) == 0 ==> movementStatus == old(movementStatus)
      ensures old(AtRestWhenLanded()) ==> AtRestWhenLanded()
      ensures old(AtRestWhenLanded()) && old(movementStatus) == IsLanded ==>
                movementStatus == IsLanded && coyoteTimer == old(coyoteTimer)
      ensures isFacingLeft == old(isFacingLeft) && jumpBufferTimer == old(jumpBufferTimer)
      ensures tryPickItem == old(tryPickItem) && pickedItem == old(pickedItem)
      ensures actor.remainder == Vector2(old(actor.remainder.x) - Trunc(old(velocity.x)) as real,
                                         old(actor.remainder.y) - Trunc(old(velocity.y)) as real)
    {
      var currentVelocityX := velocity.x;
      var currentVelocityY := velocity.y;

      var collidedX := actor.MoveX(solids, currentVelocityX);
      if collidedX {
        velocity := velocity.(x := 0.0);
      }

      var signal := actor.MoveY(solids, currentVelocityY);
      match signal {
        case None =>
        case Some(collisionHappened) =>
          if collisionHappened {
            if velocity.y > 0.0 {
              movementStatus := IsLanded;
            }
            velocity := velocity.(y := 0.0);
          } else {
            if movementStatus == IsLanded {
              coyoteTimer := coyoteTimerDuration;
              movementStatus := IsFalling;
            }
          }
      }
    }
  }
}
