/**
 * The heads-up display's shake (src/hud.rs): whenever the collected flux
 * crosses into another whole unit, the energy bar shakes for
 * `SHAKE_COUNT` frames by a random offset smaller than `SHAKE_INTENSITY`.
 *
 * `FLUX_PER_UNIT` is defined outside this file, so the size of a flux unit
 * is a constructor parameter; the random `i32`s drawn for the offsets are
 * method parameters.
 */
module Huds {
  import opened Numeric

  const SHAKE_COUNT: nat := 15
  const SHAKE_INTENSITY: int := 2

  /** `(flux / FLUX_PER_UNIT) as i32`: the whole number of flux units collected. */
  function UnitIndex(flux: real, fluxPerUnit: real): int
    requires fluxPerUnit > 0.0
  {
    Trunc(flux / fluxPerUnit)
  }

  /** The shake count after one update, given whether the flux unit changed. */
  function ShakeAfter(shakeCount: nat, unitChanged: bool): (r: nat)
    ensures unitChanged ==> r == SHAKE_COUNT - 1
    ensures !unitChanged && 0 < shakeCount ==> r + 1 == shakeCount
    ensures !unitChanged && shakeCount == 0 ==> r == 0
  {
    var restarted := if unitChanged then SHAKE_COUNT else shakeCount;
    if restarted > 0 then restarted - 1 else 0
  }

  /** The shake count after `frames` updates with no change of flux unit. */
  function Settle(shakeCount: nat, frames: nat): nat
    decreases frames
  {
    if frames == 0 then shakeCount else Settle(ShakeAfter(shakeCount, false), frames - 1)
  }

  /**
   * A shake dies down one frame at a time: after `frames` quiet updates the
   * count is `shakeCount - frames`, or 0 once that many frames have passed.
   */
  lemma {:induction false} SettleCountsDown(shakeCount: nat, frames: nat)
    ensures frames <= shakeCount ==> Settle(shakeCount, frames) == shakeCount - frames
    ensures shakeCount <= frames ==> Settle(shakeCount, frames) == 0
    decreases frames
  {
    if frames > 0 {
      SettleCountsDown(ShakeAfter(shakeCount, false), frames - 1);
    }
  }

  class Hud {
    var totalFlux: real
    var requiredFlux: real
    var shakeCount: nat
    var shakeXOffset: int
    var shakeYOffset: int
    const fluxPerUnit: real

    /** The count never exceeds a full shake, and the offsets stay within the intensity. */
    ghost predicate Valid()
      reads this
    {
      && fluxPerUnit > 0.0
      && shakeCount <= SHAKE_COUNT
      && Abs(shakeXOffset) < SHAKE_INTENSITY && Abs(shakeYOffset) < SHAKE_INTENSITY
    }

    /** `Hud::new`: no flux, no shake. */
    constructor (fluxPerUnit: real)
      requires fluxPerUnit > 0.0
      ensures Valid() && this.fluxPerUnit == fluxPerUnit
      ensures totalFlux == 0.0 && requiredFlux == 0.0
      ensures shakeCount == 0 && shakeXOffset == 0 && shakeYOffset == 0
    {
      this.fluxPerUnit := fluxPerUnit;
      requiredFlux := 0.0;
      totalFlux := 0.0;
      shakeCount := 0;
      shakeXOffset := 0;
      shakeYOffset := 0;
    }

    /**
     * `Hud::update`: records both flux values; restarts the shake when the
     * whole number of flux units changes; while shaking, sets each offset
     * to a random value `% SHAKE_INTENSITY` and counts down, otherwise
     * zeroes both offsets.
     */
    method Update(totalFlux: real, requiredFlux: real, randomX: int, randomY: int)
      requires Valid()
      modifies this
      ensures Valid() && shakeCount < SHAKE_COUNT
      ensures this.totalFlux == totalFlux && this.requiredFlux == requiredFlux
      ensures shakeCount ==
                ShakeAfter(old(shakeCount), UnitIndex(old(this.totalFlux), fluxPerUnit) != UnitIndex(totalFlux, fluxPerUnit))
      ensures old(shakeCount) == 0 && UnitIndex(old(this.totalFlux), fluxPerUnit) == UnitIndex(totalFlux, fluxPerUnit) ==>
                shakeXOffset == 0 && shakeYOffset == 0
      ensures shakeCount < old(shakeCount) || UnitIndex(old(this.totalFlux), fluxPerUnit) != UnitIndex(totalFlux, fluxPerUnit) ==>
                shakeXOffset == RemTrunc(randomX, SHAKE_INTENSITY) && shakeYOffset == RemTrunc(randomY, SHAKE_INTENSITY)
    {
      if UnitIndex(this.totalFlux, fluxPerUnit) != UnitIndex(totalFlux, fluxPerUnit) {
        shakeCount := SHAKE_COUNT;
      }
      this.totalFlux := totalFlux;
      this.requiredFlux := requiredFlux;

      if shakeCount > 0 {
        shakeXOffset := RemTrunc(randomX, SHAKE_INTENSITY);
        shakeYOffset := RemTrunc(randomY, SHAKE_INTENSITY);
        shakeCount := shakeCount - 1;
      } else {
        shakeXOffset := 0;
        shakeYOffset := 0;
      }
    }
  }
}
