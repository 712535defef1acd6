/**
 * The older tile-based physics body (src/rigid_body.rs): velocity updates,
 * and a collision correction that shrinks the velocity one unit at a time
 * while the sprite's probe points, moved by that velocity, fall inside a
 * tile.
 */
module RigidBodies {
  import opened Numeric
  import opened Vectors
  import opened Tiles

  const GRAVITY: real := 1.6

  // The sprite art's size and its offset from the body's position.
  const ART_WIDTH: real := 48.0
  const ART_HEIGHT: real := 55.0
  const PAD_X: real := 2.0
  const PAD_Y: real := 3.0

  datatype Direction = Up | Down | Left | Right

  /**
   * The two points `check_collision` tests for a sprite whose corner is at
   * `position`: the top edge for `Up`, the bottom edge for `Down`, and a
   * column just outside the art for `Left` and `Right`.
   */
  function ProbePoints(position: Vector2, direction: Direction): (probes: (Vector2, Vector2))
    ensures direction == Up || direction == Down ==>
              probes.0.x == position.x + PAD_X && probes.1.x - probes.0.x == ART_WIDTH
              && probes.0.y == probes.1.y
    ensures direction == Up ==> probes.0.y == position.y + PAD_Y
    ensures direction == Down ==> probes.0.y == position.y + PAD_Y + ART_HEIGHT
    ensures direction == Right ==>
              probes.0.x == probes.1.x == position.x + PAD_X + ART_WIDTH + 1.0
              && probes.0.y == position.y + PAD_Y && probes.1.y - probes.0.y == ART_HEIGHT
    ensures direction == Left ==>
              probes.0.x == position.x + PAD_X - 1.0 && probes.1.x == position.x - 1.0
              && probes.0.y == position.y + PAD_Y && probes.1.y - probes.0.y == ART_HEIGHT
  {
    var x := position.x;
    var y := position.y;
    match direction
    case Up => (Vector2(x + PAD_X, y + PAD_Y), Vector2(x + PAD_X + ART_WIDTH, y + PAD_Y))
    case Down => (Vector2(x + PAD_X, y + PAD_Y + ART_HEIGHT), Vector2(x + PAD_X + ART_WIDTH, y + PAD_Y + ART_HEIGHT))
    case Left => (Vector2(x + PAD_X - 1.0, y + PAD_Y), Vector2(x - 1.0, y + PAD_Y + ART_HEIGHT))
    case Right => (Vector2(x + PAD_X + ART_WIDTH + 1.0, y + PAD_Y), Vector2(x + PAD_X + ART_WIDTH + 1.0, y + PAD_Y + ART_HEIGHT))
  }

  /** Some tile holds one of the two probe points. */
  predicate ProbeHits(position: Vector2, direction: Direction, tiles: seq<Tile>) {
    var probes := ProbePoints(position, direction);
    exists i :: 0 <= i < |tiles| && (tiles[i].Contains(probes.0.x, probes.0.y) || tiles[i].Contains(probes.1.x, probes.1.y))
  }

  /** `check_collision`: scans the tiles for one that holds a probe point. */
  method CheckCollision(position: Vector2, direction: Direction, tiles: seq<Tile>) returns (hit: bool)
    ensures hit == ProbeHits(position, direction, tiles)
  {
    var probes := ProbePoints(position, direction);
    for i := 0 to |tiles|
      invariant forall k :: 0 <= k < i ==>
                  !(tiles[k].Contains(probes.0.x, probes.0.y) || tiles[k].Contains(probes.1.x, probes.1.y))
    {
      if tiles[i].Contains(probes.0.x, probes.0.y) || tiles[i].Contains(probes.1.x, probes.1.y) {
        return true;
      }
    }
    return false;
  }

  /** Whether a velocity component `v` still moves toward `direction`. */
  predicate Toward(v: real, direction: Direction) {
    match direction
    case Up => v < 0.0
    case Left => v < 0.0
    case Right => v > 0.0
    case Down => v > 0.0
  }

  /** The unit a correction loop adds per blocked probe: it turns the velocity away from the wall. */
  function Push(direction: Direction): real {
    if direction == Right || direction == Down then -1.0 else 1.0
  }

  /** Where the probe is taken for a velocity component `v` along `direction`'s axis. */
  function Probe(position: Vector2, v: real, direction: Direction): Vector2 {
    if direction == Up || direction == Down then position.Add(Vector2(0.0, v)) else position.Add(Vector2(v, 0.0))
  }

  /** An upper bound on the unit pushes left before `v` stops moving toward `direction`. */
  function Remaining(v: real, direction: Direction): nat {
    if !Toward(v, direction) then 0
    else if Push(direction) < 0.0 then v.Floor + 1
    else (-v).Floor + 1
  }

  /**
   * The velocity component a correction loop of `check_collision_tilemap`
   * ends with: while `v` moves toward `direction` and the probe moved by `v`
   * hits a tile, `v` is pushed back by one unit.
   */
  function BackOff(position: Vector2, v: real, direction: Direction, tiles: seq<Tile>): real
    decreases Remaining(v, direction)
  {
    if Toward(v, direction) && ProbeHits(Probe(position, v, direction), direction, tiles)
    then BackOff(position, v + Push(direction), direction, tiles)
    else v
  }

  /** The correction ends where the velocity no longer moves toward the wall or its probe is clear. */
  lemma {:induction false} BackOffStops(position: Vector2, v: real, direction: Direction, tiles: seq<Tile>)
    ensures var r := BackOff(position, v, direction, tiles);
            !(Toward(r, direction) && ProbeHits(Probe(position, r, direction), direction, tiles))
    decreases Remaining(v, direction)
  {
    if Toward(v, direction) && ProbeHits(Probe(position, v, direction), direction, tiles) {
      BackOffStops(position, v + Push(direction), direction, tiles);
    }
  }

  /**
   * The correction moves `v` only away from the wall, by a whole number of
   * units: up and left only raise it, right only lowers it.
   */
  lemma {:induction false} BackOffWhole(position: Vector2, v: real, direction: Direction, tiles: seq<Tile>)
    ensures var r := BackOff(position, v, direction, tiles);
            Push(direction) == 1.0 ==> v <= r && (r - v).Floor as real == r - v
    ensures var r := BackOff(position, v, direction, tiles);
            Push(direction) == -1.0 ==> r <= v && (v - r).Floor as real == v - r
    decreases Remaining(v, direction)
  {
    if Toward(v, direction) && ProbeHits(Probe(position, v, direction), direction, tiles) {
      var w := v + Push(direction);
      BackOffWhole(position, w, direction, tiles);
      var r := BackOff(position, w, direction, tiles);
      if Push(direction) == 1.0 {
        assert r - v == (r - w) + 1.0;
        assert (r - v).Floor == (r - w).Floor + 1;
      } else {
        assert v - r == (w - r) + 1.0;
        assert (v - r).Floor == (w - r).Floor + 1;
      }
    }
  }

  /** Every velocity the correction passed through still moved toward the wall and had a blocked probe. */
  lemma {:induction false} BackOffPassesBlocked(position: Vector2, v: real, direction: Direction, tiles: seq<Tile>, j: nat)
    requires (j as real) < (BackOff(position, v, direction, tiles) - v) * Push(direction)
    ensures var u := v + j as real * Push(direction);
            Toward(u, direction) && ProbeHits(Probe(position, u, direction), direction, tiles)
    decreases Remaining(v, direction)
  {
    if Toward(v, direction) && ProbeHits(Probe(position, v, direction), direction, tiles) {
      if j > 0 {
        var w := v + Push(direction);
        assert (BackOff(position, w, direction, tiles) - w) * Push(direction)
               == (BackOff(position, v, direction, tiles) - v) * Push(direction) - 1.0;
        BackOffPassesBlocked(position, w, direction, tiles, j - 1);
        assert w + (j - 1) as real * Push(direction) == v + j as real * Push(direction);
      }
    }
  }

  class RigidBody {
    var position: Vector2
    var rotation: real
    var velocity: Vector2

    /** `update_position`: one frame of motion. */
    method UpdatePosition()
      modifies this`position
      ensures position == old(position).Add(velocity)
    {
      position := AddAssign(position, velocity);
    }

    /** `apply_gravity`: gravity adds `GRAVITY` to the vertical velocity only. */
    method ApplyGravity()
      modifies this`velocity
      ensures velocity == Vector2(old(velocity.x), old(velocity.y) + GRAVITY)
    {
      AddVelocity(Vector2(0.0, GRAVITY));
    }

    /** `add_velocity`. */
    method AddVelocity(v: Vector2)
      modifies this`velocity
      ensures velocity == old(velocity).Add(v)
    {
      velocity := AddAssign(velocity, v);
    }

    /** `clamp_velocity_x`: the range is `[max_velocity.x, max_velocity.y]`, which `f32::clamp` requires to be ordered. */
    method ClampVelocityX(maxVelocity: Vector2)
      requires maxVelocity.x <= maxVelocity.y
      modifies this`velocity
      ensures velocity.y == old(velocity.y)
      ensures maxVelocity.x <= velocity.x <= maxVelocity.y
      ensures maxVelocity.x <= old(velocity.x) <= maxVelocity.y ==> velocity == old(velocity)
      ensures velocity.x == Clamp(old(velocity.x), maxVelocity.x, maxVelocity.y)
    {
      velocity := velocity.(x := Clamp(velocity.x, maxVelocity.x, maxVelocity.y));
    }

    /** `clamp_velocity_y`: the same on the vertical component. */
    method ClampVelocityY(maxVelocity: Vector2)
      requires maxVelocity.x <= maxVelocity.y
      modifies this`velocity
      ensures velocity.x == old(velocity.x)
      ensures maxVelocity.x <= velocity.y <= maxVelocity.y
      ensures maxVelocity.x <= old(velocity.y) <= maxVelocity.y ==> velocity == old(velocity)
      ensures velocity.y == Clamp(old(velocity.y), maxVelocity.x, maxVelocity.y)
    {
      velocity := velocity.(y := Clamp(velocity.y, maxVelocity.x, maxVelocity.y));
    }

    /** `stop_y`. */
    method StopY()
      modifies this`velocity
      ensures velocity == Vector2(old(velocity.x), 0.0)
    {
      velocity := velocity.(y := 0.0);
    }

    /**
     * `check_collision_tilemap`: a downward velocity whose probe hits a tile
     * is stopped; then the up, right and left loops back the velocity off
     * the walls one unit at a time. Only the velocity changes.
     */
    method CheckCollisionTilemap(tiles: seq<Tile>)
      modifies this`velocity
      ensures var vy := old(velocity.y);
              var landed := vy > 0.0 && ProbeHits(position.Add(Vector2(0.0, vy)), Down, tiles);
              velocity.y == BackOff(position, if landed then 0.0 else vy, Up, tiles)
      ensures velocity.x == BackOff(position, BackOff(position, old(velocity.x), Right, tiles), Left, tiles)
    {
      if velocity.y > 0.0 {
        var hit := CheckCollision(position.Add(Vector2(0.0, velocity.y)), Down, tiles);
        if hit {
          StopY();
        }
      }
      ghost var vx := velocity.x;
      BackOffUp(tiles);
      assert velocity.x == vx;
      BackOffRight(tiles);
      BackOffLeft(tiles);
    }

    /** The up loop: raises the vertical velocity one unit at a time while the upper probe hits a tile. */
    method BackOffUp(tiles: seq<Tile>)
      modifies this`velocity
      ensures velocity == Vector2(old(velocity.x), BackOff(position, old(velocity.y), Up, tiles))
    {
      if velocity.y < 0.0 {
        while velocity.y < 0.0
          invariant velocity.x == old(velocity.x)
          invariant BackOff(position, velocity.y, Up, tiles) == BackOff(position, old(velocity.y), Up, tiles)
          decreases Remaining(velocity.y, Up)
        {
          var hit := CheckCollision(position.Add(Vector2(0.0, velocity.y)), Up, tiles);
          if hit {
            AddVelocity(Vector2(0.0, 1.0));
          } else {
            break;
          }
        }
      }
    }

    /** The right loop: lowers the horizontal velocity one unit at a time while the right probe hits a tile. */
    method BackOffRight(tiles: seq<Tile>)
      modifies this`velocity
      ensures velocity == Vector2(BackOff(position, old(velocity.x), Right, tiles), old(velocity.y))
    {
      if velocity.x > 0.0 {
        while velocity.x > 0.0
          invariant velocity.y == old(velocity.y)
          invariant BackOff(position, velocity.x, Right, tiles) == BackOff(position, old(velocity.x), Right, tiles)
          decreases Remaining(velocity.x, Right)
        {
          var hit := CheckCollision(position.Add(Vector2(velocity.x, 0.0)), Right, tiles);
          if hit {
            AddVelocity(Vector2(-1.0, 0.0));
          } else {
            break;
          }
        }
      }
    }

    /** The left loop: raises the horizontal velocity one unit at a time while the left probe hits a tile. */
    method BackOffLeft(tiles: seq<Tile>)
      modifies this`velocity
      ensures velocity == Vector2(BackOff(position, old(velocity.x), Left, tiles), old(velocity.y))
    {
      if velocity.x < 0.0 {
        while velocity.x < 0.0
          invariant velocity.y == old(velocity.y)
          invariant BackOff(position, velocity.x, Left, tiles) == BackOff(position, old(velocity.x), Left, tiles)
          decreases Remaining(velocity.x, Left)
        {
          var hit := CheckCollision(position.Add(Vector2(velocity.x, 0.0)), Left, tiles);
          if hit {
            AddVelocity(Vector2(1.0, 0.0));
          } else {
            break;
          }
        }
      }
    }
  }
}
