/** The simulated ablator of the game: a margin that the player widens or
    narrows once a target has been set up. */
module Ablation {
  import opened Common
  import opened RealMath
  import opened Geometry

  /** The step by which the margin changes. */
  const MarginIncrement: real := 0.1

  /** The margin after one decrease: it drops by the increment and is clamped
      at zero, which is max(margin - increment, 0). */
  function DecreasedMargin(margin: real, increment: real): (r: real)
    ensures 0.0 <= r
    ensures margin - increment <= r
    ensures r == 0.0 || r == margin - increment
  {
    var m := margin - increment;
    if m <= 0.0 then 0.0 else m
  }

  /** From a non-negative margin, a decrease undoes an increase. */
  lemma DecreaseUndoesIncrease(margin: real, increment: real)
    requires 0.0 <= margin
    ensures DecreasedMargin(margin + increment, increment) == margin
  {
  }

  /** Repeated decreases reach zero and stay there. */
  lemma {:induction false} DecreasesReachZero(margin: real, increment: real, steps: nat)
    requires 0.0 < increment && 0.0 <= margin <= steps as real * increment
    ensures DecreasedMarginTimes(margin, increment, steps) == 0.0
    decreases steps
  {
    if steps > 0 {
      var next := DecreasedMargin(margin, increment);
      var k := (steps - 1) as real;
      calc {
        steps as real * increment;
      ==
        (k + 1.0) * increment;
      ==
        k * increment + increment;
      }
      MulNonNegative(k, increment);
      assert next <= k * increment;
      DecreasesReachZero(next, increment, steps - 1);
    }
  }

  /** The margin after `steps` decreases in a row. */
  function DecreasedMarginTimes(margin: real, increment: real, steps: nat): (r: real)
    ensures steps > 0 ==> 0.0 <= r
    decreases steps
  {
    if steps == 0 then margin
    else DecreasedMarginTimes(DecreasedMargin(margin, increment), increment, steps - 1)
  }

  class Ablator {
    var margin: Option<real>
    var target: Option<Vec3>
    var estTarget: Option<Vec3>
    var targetRadius: Option<real>
    var ready: bool
    var marginIncrement: real

    /** Once ready, the margin, target and radius are set; the increment
        never changes. */
    ghost predicate Valid()
      reads this
    {
      (ready ==> margin.Some? && target.Some? && targetRadius.Some?)
      && marginIncrement == MarginIncrement
    }

    ghost predicate MarginNonNegative()
      reads this
    {
      margin.Some? ==> 0.0 <= margin.value
    }

    /** A fresh ablator has nothing set up and is not ready. */
    constructor ()
      ensures Valid()
      ensures margin == None && target == None && estTarget == None && targetRadius == None
      ensures !ready && marginIncrement == MarginIncrement
    {
      margin := None;
      target := None;
      estTarget := None;
      targetRadius := None;
      ready := false;
      marginIncrement := MarginIncrement;
    }

    method Setup(newMargin: real, newTarget: Vec3, newTargetRadius: real)
      requires Valid()
      modifies this
      ensures Valid()
      ensures margin == Some(newMargin) && target == Some(newTarget) && targetRadius == Some(newTargetRadius)
      ensures ready
      ensures estTarget == old(estTarget) && marginIncrement == old(marginIncrement)
    {
      margin := Some(newMargin);
      target := Some(newTarget);
      targetRadius := Some(newTargetRadius);
      ready := true;
    }

    /** Widens the margin by one increment; does nothing before setup. */
    method IncreaseMargin()
      requires Valid()
      modifies this
      ensures Valid()
      ensures old(ready) ==> margin == Some(old(margin).value + marginIncrement)
      ensures !old(ready) ==> margin == old(margin)
      ensures old(MarginNonNegative()) ==> MarginNonNegative()
      ensures target == old(target) && estTarget == old(estTarget) && targetRadius == old(targetRadius)
      ensures ready == old(ready) && marginIncrement == old(marginIncrement)
    {
      if ready {
        margin := Some(margin.value + marginIncrement);
      }
    }

    /** Narrows the margin by one increment, never below zero; does nothing
        before setup. */
    method DecreaseMargin()
      requires Valid()
      modifies this
      ensures Valid()
      ensures old(ready) ==> margin == Some(DecreasedMargin(old(margin).value, marginIncrement))
      ensures !old(ready) ==> margin == old(margin)
      ensures old(MarginNonNegative()) ==> MarginNonNegative()
      ensures target == old(target) && estTarget == old(estTarget) && targetRadius == old(targetRadius)
      ensures ready == old(ready) && marginIncrement == old(marginIncrement)
    {
      if ready {
        var m := margin.value - marginIncrement;
        if m <= 0.0 {
          m := 0.0;
        }
        margin := Some(m);
      }
    }

    /** Fires at the estimated target. It produces no score, ready or not, and
        changes nothing. */
    method Alate(estimatedTarget: Vec3) returns (score: Option<real>)
      ensures score == None
    {
      score := None;
    }
  }
}
