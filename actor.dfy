/**
 * Integer-stepped actor movement against static solids (src/actor.rs).
 *
 * `move_x` and `move_y` truncate the requested displacement to a whole number
 * of steps and advance one unit at a time, testing the translated bounding
 * box against every solid; the first blocked step ends the move. The source
 * reports through a callback that is always the last thing a move does, so
 * here the move returns the callback's argument instead: `MoveX` returns
 * whether `on_collide()` ran, `MoveY` returns the `bool` passed to
 * `on_collide` (or `None` when it was not called).
 */
module ActorMovement {
  import opened Numeric
  import opened Optional
  import opened Vectors
  import opened Bounds
  import opened Solids

  /** `collide_at`: a first-hit linear scan of `solids` for a bound that intersects `box`. */
  function CollideAt(solids: seq<Solid>, box: BoundingBox): bool {
    if solids == [] then false
    else if solids[0].Bound().Intersects(box) then true
    else CollideAt(solids[1..], box)
  }

  /** `collide_at` is true exactly when some solid's bound intersects `box`. */
  lemma {:induction false} CollideAtIffSomeIntersects(solids: seq<Solid>, box: BoundingBox)
    ensures CollideAt(solids, box) <==> exists i :: 0 <= i < |solids| && solids[i].Bound().Intersects(box)
  {
    if solids != [] {
      CollideAtIffSomeIntersects(solids[1..], box);
      assert forall i :: 1 <= i < |solids| ==> solids[i] == solids[1..][i - 1];
    }
  }

  /** `v` added to itself `j` times. */
  function Times(v: Vector2, j: nat): Vector2 {
    if j == 0 then Zero() else Times(v, j - 1).Add(v)
  }

  /** The `f32` value of a `signum` result: 1.0, -1.0 or 0.0. */
  function SignValue(sign: int): real {
    if 0 < sign then 1.0 else if sign < 0 then -1.0 else 0.0
  }

  /** One unit step in direction `sign` along the x axis (`horizontal`) or the y axis. */
  function UnitStep(sign: int, horizontal: bool): Vector2 {
    if horizontal then Vector2(SignValue(sign), 0.0) else Vector2(0.0, SignValue(sign))
  }

  /**
   * The number of unit steps `step` that can be taken from `box`, at most
   * `n`, before the next step would make the box intersect a solid.
   */
  function FreeSteps(solids: seq<Solid>, box: BoundingBox, step: Vector2, n: nat): (k: nat)
    ensures k <= n
    decreases n
  {
    if n == 0 then 0
    else if CollideAt(solids, box.Translate(step)) then 0
    else 1 + FreeSteps(solids, box.Translate(step), step, n - 1)
  }

  /**
   * Reference description of where a sweep of at most `n` steps stops: every
   * box reached after 1..k steps is clear, and if the sweep stopped short,
   * step k + 1 is blocked.
   */
  ghost predicate IsStopPoint(solids: seq<Solid>, box: BoundingBox, step: Vector2, n: nat, k: nat) {
    && k <= n
    && (forall j :: 1 <= j <= k ==> !CollideAt(solids, box.Translate(Times(step, j))))
    && (k < n ==> CollideAt(solids, box.Translate(Times(step, k + 1))))
  }

  lemma TranslateStepThenTimes(box: BoundingBox, step: Vector2, j: nat)
    ensures box.Translate(step).Translate(Times(step, j)) == box.Translate(Times(step, j + 1))
  {
  }

  /** Every box the sweep passes through, the last one included, is clear of all solids. */
  lemma {:induction false} FreeStepsClear(solids: seq<Solid>, box: BoundingBox, step: Vector2, n: nat, j: int)
    requires 1 <= j <= FreeSteps(solids, box, step, n)
    ensures !CollideAt(solids, box.Translate(Times(step, j)))
    decreases n
  {
    var next := box.Translate(step);
    if j == 1 {
      assert Times(step, 1) == step;
    } else {
      FreeStepsClear(solids, next, step, n - 1, j - 1);
      TranslateStepThenTimes(box, step, j - 1);
    }
  }

  /** A sweep that stops short of `n` steps stops because the next step is blocked. */
  lemma {:induction false} FreeStepsBlocked(solids: seq<Solid>, box: BoundingBox, step: Vector2, n: nat)
    requires FreeSteps(solids, box, step, n) < n
    ensures CollideAt(solids, box.Translate(Times(step, FreeSteps(solids, box, step, n) + 1)))
    decreases n
  {
    var next := box.Translate(step);
    if CollideAt(solids, next) {
      assert Times(step, 1) == step;
    } else {
      var k := FreeSteps(solids, next, step, n - 1);
      FreeStepsBlocked(solids, next, step, n - 1);
      TranslateStepThenTimes(box, step, k + 1);
    }
  }

  /** `FreeSteps` is exactly the stop point of the sweep, and the stop point is unique. */
  lemma FreeStepsIsStopPoint(solids: seq<Solid>, box: BoundingBox, step: Vector2, n: nat, k: nat)
    ensures IsStopPoint(solids, box, step, n, k) <==> k == FreeSteps(solids, box, step, n)
  {
    var f := FreeSteps(solids, box, step, n);
    forall j | 1 <= j <= f
      ensures !CollideAt(solids, box.Translate(Times(step, j)))
    {
      FreeStepsClear(solids, box, step, n, j);
    }
    if f < n {
      FreeStepsBlocked(solids, box, step, n);
    }
    if IsStopPoint(solids, box, step, n, k) {
      if k < f {
        FreeStepsClear(solids, box, step, n, k + 1);
      } else if f < k {
        assert false;
      }
    }
  }

  /** How many whole units a move by `amount` along one axis covers, starting from `box`. */
  function Sweep(solids: seq<Solid>, box: BoundingBox, amount: real, horizontal: bool): (k: nat)
    ensures k <= Abs(Trunc(amount))
  {
    FreeSteps(solids, box, UnitStep(Sign(Trunc(amount)), horizontal), Abs(Trunc(amount)))
  }

  /**
   * The argument `move_y` hands its callback: no call for a zero step count,
   * otherwise `true` exactly when a solid stopped the move short.
   */
  function YSignal(solids: seq<Solid>, box: BoundingBox, amount: real): Option<bool> {
    if Trunc(amount) == 0 then None else Some(Sweep(solids, box, amount, false) < Abs(Trunc(amount)))
  }

  /** `collide_with`: does some actor's bound intersect `box`? */
  function CollideWith(actors: seq<Actor>, box: BoundingBox): (r: bool)
    reads actors
    ensures r <==> exists i :: 0 <= i < |actors| && actors[i].Bound().Intersects(box)
  {
    if actors == [] then false
    else if actors[0].Bound().Intersects(box) then true
    else
      var rest := CollideWith(actors[1..], box);
      assert forall i :: 1 <= i < |actors| ==> actors[i] == actors[1..][i - 1];
      rest
  }

  class Actor {
    var position: Vector2
    var isChild: bool
    var remainder: Vector2
    const width: real
    const height: real
    var carriedByPlayer: bool

    /** `Actor::new`. */
    constructor (position: Vector2, width: real, height: real)
      ensures this.position == position && this.width == width && this.height == height
      ensures remainder == Zero() && !isChild && !carriedByPlayer
    {
      this.position := position;
      this.width := width;
      this.height := height;
      remainder := Zero();
      isChild := false;
      carriedByPlayer := false;
    }

    /** `get_bound`: the actor's rectangle, centred on its position. */
    function Bound(): (b: BoundingBox)
      reads this
      ensures b.right - b.left == width && b.bottom - b.top == height
      ensures (b.left + b.right) / 2.0 == position.x && (b.top + b.bottom) / 2.0 == position.y
      ensures 0.0 <= width && 0.0 <= height ==> b.WellFormed()
      ensures b == Centred(position, width, height)
    {
      Centred(position, width, height)
    }

    /**
     * `move_x`: moves `Sweep` whole units toward the sign of `amount`, stopping
     * before the first step that would hit a solid; `collided` says whether
     * `on_collide` ran, which happens exactly when the move stopped short.
     */
    method MoveX(solids: seq<Solid>, amount: real) returns (collided: bool)
      modifies this`position, this`remainder
      ensures position == old(position).Add(Times(UnitStep(Sign(Trunc(amount)), true), Sweep(solids, old(Bound()), amount, true)))
      ensures position.y == old(position.y)
      ensures 0.0 <= amount ==> old(position.x) <= position.x <= old(position.x) + Trunc(amount) as real
      ensures amount < 0.0 ==> old(position.x) + Trunc(amount) as real <= position.x <= old(position.x)
      ensures remainder == Vector2(old(remainder.x) - Trunc(amount) as real, old(remainder.y))
      ensures collided <==> Sweep(solids, old(Bound()), amount, true) < Abs(Trunc(amount))
      ensures !collided ==> position.x == old(position.x) + Trunc(amount) as real
      ensures position != old(position) ==> !CollideAt(solids, Bound())
    {
      var stepsToMove := Trunc(amount);
      collided := false;
      if stepsToMove != 0 {
        remainder := remainder.(x := remainder.x - stepsToMove as real);
        collided := Steps(solids, stepsToMove, true);
      }
      Displacement(amount, Sweep(solids, old(Bound()), amount, true));
    }

    /**
     * `move_y`: the same sweep along y. When the step count is nonzero the
     * callback runs exactly once: `Some(true)` when a solid stopped the move,
     * `Some(false)` when the whole distance was covered.
     */
    method MoveY(solids: seq<Solid>, amount: real) returns (signal: Option<bool>)
      modifies this`position, this`remainder
      ensures position == old(position).Add(Times(UnitStep(Sign(Trunc(amount)), false), Sweep(solids, old(Bound()), amount, false)))
      ensures position.x == old(position.x)
      ensures 0.0 <= amount ==> old(position.y) <= position.y <= old(position.y) + Trunc(amount) as real
      ensures amount < 0.0 ==> old(position.y) + Trunc(amount) as real <= position.y <= old(position.y)
      ensures remainder == Vector2(old(remainder.x), old(remainder.y) - Trunc(amount) as real)
      ensures signal == YSignal(solids, old(Bound()), amount)
      ensures signal == Some(false) ==> position.y == old(position.y) + Trunc(amount) as real
      ensures position != old(position) ==> !CollideAt(solids, Bound())
    {
      var stepsToMove := Trunc(amount);
      signal := None;
      if stepsToMove != 0 {
        remainder := remainder.(y := remainder.y - stepsToMove as real);
        var blocked := Steps(solids, stepsToMove, false);
        signal := Some(blocked);
      }
      Displacement(amount, Sweep(solids, old(Bound()), amount, false));
    }

    /**
     * The stepping loop shared by `move_x` and `move_y`, run on the actor's
     * centre: the actor ends `FreeSteps` unit steps further along the axis,
     * and `blocked` is true when a solid ended the loop early.
     */
    method Steps(solids: seq<Solid>, stepsToMove: int, horizontal: bool) returns (blocked: bool)
      modifies this`position
      ensures var step := UnitStep(Sign(stepsToMove), horizontal);
              var k := FreeSteps(solids, old(Bound()), step, Abs(stepsToMove));
              && position == old(position).Add(Times(step, k))
              && blocked == (k < Abs(stepsToMove))
              && (k > 0 ==> !CollideAt(solids, Bound()))
    {
      var step := UnitStep(Sign(stepsToMove), horizontal);
      var pos;
      ghost var taken;
      pos, taken, blocked := Walk(solids, position, width, height, stepsToMove, step);
      position := pos;
      SweepEnds(solids, old(position), width, height, step, Abs(stepsToMove), taken);
    }
  }

  /**
   * The loop of `Steps`, on the centre of a `width` by `height` box starting
   * at `origin`: while steps remain, test the box one `step` further and
   * either commit the step or stop. `taken` counts the committed steps;
   * the loop ends with all of them taken or the next one blocked.
   */
  method Walk(solids: seq<Solid>, origin: Vector2, width: real, height: real, stepsToMove: int, step: Vector2)
    returns (pos: Vector2, ghost taken: nat, blocked: bool)
    ensures taken <= Abs(stepsToMove) && pos == origin.Add(Times(step, taken))
    ensures FreeSteps(solids, Centred(origin, width, height), step, Abs(stepsToMove))
            == taken + FreeSteps(solids, Centred(pos, width, height), step, Abs(stepsToMove) - taken)
    ensures blocked <==> taken < Abs(stepsToMove)
    ensures blocked ==> CollideAt(solids, Centred(pos, width, height).Translate(step))
  {
    var rest := stepsToMove;
    var sign := Sign(stepsToMove);
    pos := origin;
    ghost var n := Abs(stepsToMove);
    taken := 0;
    blocked := false;
    while rest != 0
      invariant taken + Abs(rest) == n
      invariant rest == 0 || Sign(rest) == sign
      invariant pos == origin.Add(Times(step, taken))
      invariant FreeSteps(solids, Centred(origin, width, height), step, n)
                == taken + FreeSteps(solids, Centred(pos, width, height), step, n - taken)
      decreases Abs(rest)
    {
      var nextStep := Centred(pos, width, height).Translate(step);
      if !CollideAt(solids, nextStep) {
        AdvanceOneStep(solids, step, n - taken, pos, width, height);
        pos := pos.Add(step);
        rest := rest - sign;
        taken := taken + 1;
      } else {
        blocked := true;
        break;
      }
    }
  }

  /**
   * `k` of the `|trunc(amount)|` unit steps of a move displace the actor
   * toward the sign of `amount`, by at most `trunc(amount)`, on the moved
   * axis only.
   */
  lemma Displacement(amount: real, k: nat)
    requires k <= Abs(Trunc(amount))
    ensures var dx := Times(UnitStep(Sign(Trunc(amount)), true), k);
            && dx.y == 0.0
            && (0.0 <= amount ==> 0.0 <= dx.x <= Trunc(amount) as real)
            && (amount < 0.0 ==> Trunc(amount) as real <= dx.x <= 0.0)
            && (k == Abs(Trunc(amount)) ==> dx.x == Trunc(amount) as real)
    ensures var dy := Times(UnitStep(Sign(Trunc(amount)), false), k);
            && dy.x == 0.0
            && (0.0 <= amount ==> 0.0 <= dy.y <= Trunc(amount) as real)
            && (amount < 0.0 ==> Trunc(amount) as real <= dy.y <= 0.0)
            && (k == Abs(Trunc(amount)) ==> dy.y == Trunc(amount) as real)
  {
    var t := Trunc(amount);
    StepsScale(Sign(t), k);
    if t > 0 {
      assert Sign(t) * k == k;
    } else if t < 0 {
      assert Sign(t) * k == 0 - k;
    } else {
      assert k == 0;
    }
  }

  /** `k` unit steps toward `sign` cover `sign * k` units on their axis and none on the other. */
  lemma {:induction false} StepsScale(sign: int, k: nat)
    requires -1 <= sign <= 1
    ensures Times(UnitStep(sign, true), k) == Vector2((sign * k) as real, 0.0)
    ensures Times(UnitStep(sign, false), k) == Vector2(0.0, (sign * k) as real)
  {
    assert SignValue(sign) == sign as real;
    if k > 0 {
      StepsScale(sign, k - 1);
      assert sign * k == sign * (k - 1) + sign;
    }
  }

  /**
   * One committed step: when the box one step ahead is clear, the sweep from
   * the current box is that step followed by the sweep from the moved box.
   */
  lemma AdvanceOneStep(solids: seq<Solid>, step: Vector2, m: nat, position: Vector2, width: real, height: real)
    requires 0 < m
    requires !CollideAt(solids, Centred(position, width, height).Translate(step))
    ensures FreeSteps(solids, Centred(position, width, height), step, m)
            == 1 + FreeSteps(solids, Centred(position.Add(step), width, height), step, m - 1)
  {
    CentredTranslate(position, width, height, step);
  }

  /**
   * Where the stepping loop stops: after `taken` clear steps from the box
   * centred on `origin`, with either all `n` steps taken or the next one
   * blocked, the sweep has covered exactly `taken` steps and, if it moved,
   * ended on a clear box.
   */
  lemma SweepEnds(solids: seq<Solid>, origin: Vector2, width: real, height: real, step: Vector2, n: nat, taken: nat)
    requires taken <= n
    requires FreeSteps(solids, Centred(origin, width, height), step, n)
             == taken + FreeSteps(solids, Centred(origin.Add(Times(step, taken)), width, height), step, n - taken)
    requires taken == n || CollideAt(solids, Centred(origin.Add(Times(step, taken)), width, height).Translate(step))
    ensures FreeSteps(solids, Centred(origin, width, height), step, n) == taken
    ensures taken > 0 ==> !CollideAt(solids, Centred(origin.Add(Times(step, taken)), width, height))
  {
    if taken > 0 {
      FreeStepsClear(solids, Centred(origin, width, height), step, n, taken);
      CentredTranslate(origin, width, height, Times(step, taken));
    }
  }
}
