/**
 * `RubberBandingModifier`: the rubber-band displacement function, the
 * velocity mapping used when a drag is released, the sliding preference and
 * the modifier's drag-offset state.
 */
module RubberBanding {

  import opened Wrappers
  import opened Geometry

  /** The band's resistance coefficient. */
  const Coefficient: real := 0.55

  /** Band length the modifier uses when none is given. */
  const DefaultBandLength: real := 50.0

  /** Stiffness and damping of the springs that settle a released drag. */
  const ReleaseStiffness: real := 200.0
  const ReleaseDamping: real := 50.0

  /** Mass of `interpolatingSpring` when the caller passes none. */
  const DefaultSpringMass: real := 1.0

  // ---------------------------------------------------------------------
  // The band closure

  /** Denominator of the band closure; never below 1 on the closure's domain. */
  function Denominator(x: real, bandLength: real): (d: real)
    requires bandLength > 0.0 && x >= 0.0
    ensures d >= 1.0
    ensures d == 1.0 <==> x == 0.0
  {
    assert x * Coefficient / bandLength >= 0.0;
    x * Coefficient / bandLength + 1.0
  }

  /**
   * The band closure: where a drag that went `x` past a bound lands,
   * measured from that bound. It accepts `x` in `[0, +inf)`.
   */
  function Band(x: real, bandLength: real): (r: real)
    requires bandLength > 0.0 && x >= 0.0
    ensures 0.0 <= r < bandLength
    ensures r == 0.0 <==> x == 0.0
    ensures r <= Coefficient * x
  {
    var d := Denominator(x, bandLength);
    BandClosedForm(x, bandLength);
    bandLength * (1.0 - 1.0 / d)
  }

  /** The band is `Coefficient * x` shrunk by the denominator. */
  lemma BandClosedForm(x: real, bandLength: real)
    requires bandLength > 0.0 && x >= 0.0
    ensures var d := Denominator(x, bandLength);
      0.0 < 1.0 / d <= 1.0 &&
      bandLength * (1.0 - 1.0 / d) == Coefficient * x / d &&
      Coefficient * x / d <= Coefficient * x
  {
    var d := Denominator(x, bandLength);
    assert bandLength * (d - 1.0) == Coefficient * x;
    calc {
      bandLength * (1.0 - 1.0 / d);
      bandLength * ((d - 1.0) / d);
      (bandLength * (d - 1.0)) / d;
      Coefficient * x / d;
    }
    assert Coefficient * x / d <= Coefficient * x by {
      assert Coefficient * x >= 0.0;
      assert Coefficient * x == (Coefficient * x / d) * d;
    }
  }

  /** The further past the bound, the further the band stretches. */
  lemma BandIncreasing(x: real, y: real, bandLength: real)
    requires bandLength > 0.0 && 0.0 <= x < y
    ensures Band(x, bandLength) < Band(y, bandLength)
  {
    var dx, dy := Denominator(x, bandLength), Denominator(y, bandLength);
    assert dy - dx == (y - x) * Coefficient / bandLength;
    assert dx < dy;
    assert 1.0 / dy < 1.0 / dx by {
      assert 1.0 / dy * dx < 1.0 / dy * dy;
    }
  }

  // ---------------------------------------------------------------------
  // rubberBand

  /**
   * `rubberBand(value:min:max:bandLength:)` for a finite `value` and
   * `bandLength`. Inside `[min, max]` the value passes through; outside it,
   * with no band the result is `min` (on either side), and with a band the
   * excess is replaced by `Band` of it. An infinite bound with a band absorbs
   * the result, as `Band` of an infinite excess is `bandLength`.
   */
  function RubberBand(value: real, min: Extended, max: Extended, bandLength: real): (r: Extended)
    ensures min.Finite? && max.Finite? ==> r.Finite?
  {
    if !LessThan(value, min) && !GreaterThan(value, max) then
      Finite(value)
    else if bandLength <= 0.0 then
      min
    else if GreaterThan(value, max) then
      // max is finite or -infinity here
      if max.Finite? then Finite(Band(value - max.value, bandLength) + max.value) else MinusInfinity
    else
      // value < min, so min is finite or +infinity here
      if min.Finite? then Finite(min.value - Band(min.value - value, bandLength)) else PlusInfinity
  }

  /** Free zone: inside `[min, max]`, both ends included, nothing changes. */
  lemma FreeZone(value: real, min: real, max: real, bandLength: real)
    requires min <= value <= max
    ensures RubberBand(value, Finite(min), Finite(max), bandLength) == Finite(value)
  {
  }

  /** Without a band an out-of-range value is clamped to `min`, even above `max`. */
  lemma ClampToMin(value: real, min: Extended, max: Extended, bandLength: real)
    requires LessThan(value, min) || GreaterThan(value, max)
    requires bandLength <= 0.0
    ensures RubberBand(value, min, max, bandLength) == min
  {
  }

  /**
   * Above the range the result is `max + Band(value - max)`: strictly
   * between `max` and `max + bandLength`, and never further past `max` than
   * `Coefficient` times the excess (so it meets `max` continuously).
   */
  lemma AboveRange(value: real, min: Extended, max: real, bandLength: real)
    requires value > max && bandLength > 0.0
    ensures var r := RubberBand(value, min, Finite(max), bandLength);
      && r == Finite(max + Band(value - max, bandLength))
      && max < r.value < max + bandLength
      && r.value - max <= Coefficient * (value - max)
  {
  }

  /** Below the range (and not above it) the mirror image of `AboveRange`. */
  lemma BelowRange(value: real, min: real, max: Extended, bandLength: real)
    requires value < min && !GreaterThan(value, max) && bandLength > 0.0
    ensures var r := RubberBand(value, Finite(min), max, bandLength);
      && r == Finite(min - Band(min - value, bandLength))
      && min - bandLength < r.value < min
      && min - r.value <= Coefficient * (min - value)
  {
  }

  /** With a band, the result never leaves `(min - bandLength, max + bandLength)`. */
  lemma WithinBand(value: real, min: real, max: real, bandLength: real)
    requires min <= max && bandLength > 0.0
    ensures var r := RubberBand(value, Finite(min), Finite(max), bandLength);
      r.Finite? && min - bandLength < r.value < max + bandLength
  {
    if value > max {
      AboveRange(value, Finite(min), max, bandLength);
    } else if value < min {
      BelowRange(value, min, Finite(max), bandLength);
    }
  }

  /** With a band, `rubberBand` is strictly increasing across all three zones. */
  lemma StrictlyIncreasing(v1: real, v2: real, min: real, max: real, bandLength: real)
    requires min <= max && bandLength > 0.0 && v1 < v2
    ensures RubberBand(v1, Finite(min), Finite(max), bandLength).value
          < RubberBand(v2, Finite(min), Finite(max), bandLength).value
  {
    if v1 > max {
      BandIncreasing(v1 - max, v2 - max, bandLength);
    } else if v2 < min {
      BandIncreasing(min - v2, min - v1, bandLength);
    } else {
      if v1 < min {
        BelowRange(v1, min, Finite(max), bandLength);
      }
      if v2 > max {
        AboveRange(v2, Finite(min), max, bandLength);
      }
    }
  }

  /** With a band, reflecting the value and the range reflects the result. */
  lemma MirrorSymmetric(value: real, min: real, max: real, bandLength: real)
    requires min <= max && bandLength > 0.0
    ensures RubberBand(-value, Finite(-max), Finite(-min), bandLength)
         == Finite(-RubberBand(value, Finite(min), Finite(max), bandLength).value)
  {
    if value > max {
      assert -max - (-value) == value - max;
    } else if value < min {
      assert -value - (-min) == min - value;
    }
  }

  /** An infinite bound with a band absorbs a value beyond it. */
  lemma InfiniteBoundAbsorbs(value: real, min: Extended, max: Extended, bandLength: real)
    requires bandLength > 0.0
    ensures max == MinusInfinity ==> RubberBand(value, min, max, bandLength) == MinusInfinity
    ensures min == PlusInfinity && !GreaterThan(value, max) ==> RubberBand(value, min, max, bandLength) == PlusInfinity
  {
  }

  /** A drag of 100 past a single point with band 50 lands at 550/21 (about 26.19). */
  lemma HundredPastZero()
    ensures RubberBand(100.0, Finite(0.0), Finite(0.0), 50.0) == Finite(550.0 / 21.0)
  {
    assert Denominator(100.0, 50.0) == 2.1;
  }

  // ---------------------------------------------------------------------
  // Release: velocity mapping and springs

  /**
   * The values passed to `interpolatingSpring`; an `initialVelocity` of
   * `None` stands for the infinite or NaN velocity of a division by zero.
   */
  datatype Spring = InterpolatingSpring(mass: real, stiffness: real, damping: real, initialVelocity: Option<real>)

  /**
   * Release velocity divided by the remaining distance `-position` to the
   * resting offset 0: a fraction of the distance per unit time. Undefined
   * when the offset is already 0; an infinite offset gives 0.
   */
  function MapVelocity(velocity: real, position: Extended): (r: Option<real>)
    ensures r.None? <==> position == Finite(0.0)
    ensures position.Finite? && r.Some? ==> r.value * -position.value == velocity
    ensures !position.Finite? ==> r == Some(0.0)
  {
    match position
    case Finite(p) => if p == 0.0 then None else Some(velocity / -p)
    case _ => Some(0.0)
  }

  /** A velocity of 100 with 50 left to travel maps to 2. */
  lemma MapVelocityExample()
    ensures MapVelocity(100.0, Finite(-50.0)) == Some(2.0)
  {
  }

  // ---------------------------------------------------------------------
  // The sliding preference

  /** `RubberBandingIsSlidingPreferenceKey.defaultValue`. */
  const SlidingDefault: bool := false

  /** `RubberBandingIsSlidingPreferenceKey.reduce`: the next child's value replaces the accumulated one. */
  function ReduceSliding(value: bool, nextValue: bool): (r: bool)
  {
    nextValue
  }

  /** The preference value seen above `children`: `reduce` folded over them from the default. */
  function ReduceSlidingAll(children: seq<bool>): (r: bool)
  {
    if children == [] then SlidingDefault
    else ReduceSliding(ReduceSlidingAll(children[..|children| - 1]), children[|children| - 1])
  }

  /** Only the last child's sliding flag survives the reduction. */
  lemma ReduceSlidingKeepsLast(children: seq<bool>)
    ensures ReduceSlidingAll(children) == (children != [] && children[|children| - 1])
  {
  }

  // ---------------------------------------------------------------------
  // The modifier

  /** One axis of a drag change: the translation banded around the single point 0. */
  function Displacement(translation: real, bandLength: real): (r: real)
    ensures bandLength > 0.0 ==> -bandLength < r < bandLength
    ensures r == 0.0 <==> bandLength <= 0.0 || translation == 0.0
  {
    var r := RubberBand(translation, Finite(0.0), Finite(0.0), bandLength);
    assert bandLength > 0.0 ==> -bandLength < r.value < bandLength by {
      if bandLength > 0.0 {
        WithinBand(translation, 0.0, 0.0, bandLength);
      }
    }
    r.value
  }

  class RubberBandingModifier {

    const bandLength: real
    /** The `@State` offset of the dragged content. */
    var position: Size

    constructor (bandLength: real := DefaultBandLength)
      ensures this.bandLength == bandLength && position == Zero
    {
      this.bandLength := bandLength;
      position := Zero;
    }

    /** The value published under the sliding preference key. */
    function IsSliding(): (r: bool)
      reads this
      ensures r <==> position.width != 0.0 || position.height != 0.0
    {
      position != Zero
    }

    /** `onChanged`: each axis of the offset becomes the banded translation on that axis. */
    method OnChanged(translation: Size)
      modifies this
      ensures position == Size(Displacement(translation.width, bandLength), Displacement(translation.height, bandLength))
      ensures bandLength > 0.0 ==> -bandLength < position.width < bandLength && -bandLength < position.height < bandLength
      ensures IsSliding() <==> bandLength > 0.0 && translation != Zero
    {
      position := position.(height := Displacement(translation.height, bandLength));
      position := position.(width := Displacement(translation.width, bandLength));
    }

    /**
     * `onEnded`: both axes spring back to 0, each spring starting from the
     * release velocity on its axis mapped by the offset before the reset.
     */
    method OnEnded(velocity: Vector) returns (animationX: Spring, animationY: Spring)
      modifies this
      ensures position == Zero && !IsSliding()
      ensures animationX == InterpolatingSpring(DefaultSpringMass, ReleaseStiffness, ReleaseDamping,
                                                MapVelocity(velocity.dx, Finite(old(position.width))))
      ensures animationY == InterpolatingSpring(DefaultSpringMass, ReleaseStiffness, ReleaseDamping,
                                                MapVelocity(velocity.dy, Finite(old(position.height))))
    {
      var distance := Size(-position.width, -position.height);
      var mappedVelocity := (MapVelocity(velocity.dx, Finite(-distance.width)),
                             MapVelocity(velocity.dy, Finite(-distance.height)));
      animationX := InterpolatingSpring(DefaultSpringMass, ReleaseStiffness, ReleaseDamping, mappedVelocity.0);
      position := position.(width := 0.0);
      animationY := InterpolatingSpring(DefaultSpringMass, ReleaseStiffness, ReleaseDamping, mappedVelocity.1);
      position := position.(height := 0.0);
    }
  }
}
