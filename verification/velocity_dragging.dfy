/**
 * `VelocityDraggingModifier`: a drag offset that follows the translation on
 * the axes it is configured for, rubber-banded per axis by its own boundary,
 * and springs back to the origin on release.
 */
module VelocityDragging {

  import opened Wrappers
  import opened Geometry
  import opened RubberBanding

  /** `Axis`: the members of an `Axis.Set`. */
  datatype Axis = Horizontal | Vertical

  /** `SpringParameter`: the spring used to settle a released drag. */
  datatype SpringParameter = Interpolation(mass: real, stiffness: real, damping: real)
  {
    /** The spring animation for one axis, starting at `initialVelocity`. */
    function Animation(initialVelocity: Option<real>): (s: Spring)
    {
      InterpolatingSpring(mass, stiffness, damping, initialVelocity)
    }
  }

  /** `SpringParameter.hard`. */
  const Hard: SpringParameter := Interpolation(1.0, 200.0, 20.0)

  /** `Boundary`: the free zone and band length of one axis. */
  datatype Boundary = Boundary(min: Extended, max: Extended, bandLength: real)
  {
    /** `Boundary.infinity` as defined: BOTH ends at `+infinity`, no band. */
    static const Infinity: Boundary := Boundary(PlusInfinity, PlusInfinity, 0.0)

    /** The boundary `Infinity` stands for: every finite value is free. */
    static const Unbounded: Boundary := Boundary(MinusInfinity, PlusInfinity, 0.0)

    /**
     * The offset a translation on this axis is mapped to: the translation
     * itself inside `[min, max]`, `min` outside it when there is no band,
     * and a finite offset whenever both ends are finite.
     */
    function Apply(translation: real): (r: Extended)
      ensures !LessThan(translation, min) && !GreaterThan(translation, max) ==> r == Finite(translation)
      ensures (LessThan(translation, min) || GreaterThan(translation, max)) && bandLength <= 0.0 ==> r == min
      ensures min.Finite? && max.Finite? ==> r.Finite?
    {
      RubberBand(translation, min, max, bandLength)
    }
  }

  /**
   * `Boundary.infinity` as defined: no finite translation lies in
   * `[+infinity, +infinity]` and there is no band, so every translation is
   * clamped to `min`, which is `+infinity`.
   */
  lemma InfinityClampsToPlusInfinity(translation: real)
    ensures Boundary.Infinity.Apply(translation) == PlusInfinity
  {
    ClampToMin(translation, PlusInfinity, PlusInfinity, 0.0);
  }

  /** The unbounded boundary passes every translation through unchanged. */
  lemma UnboundedPassesThrough(translation: real)
    ensures Boundary.Unbounded.Apply(translation) == Finite(translation)
  {
  }

  /**
   * A finite boundary with a band keeps the axis finite, inside the free
   * zone widened by the band, and increasing in the translation.
   */
  lemma FiniteBoundaryBounds(b: Boundary, t1: real, t2: real)
    requires b.min.Finite? && b.max.Finite? && b.min.value <= b.max.value && b.bandLength > 0.0
    ensures b.Apply(t1).Finite?
    ensures b.min.value - b.bandLength < b.Apply(t1).value < b.max.value + b.bandLength
    ensures t1 < t2 ==> b.Apply(t1).value < b.Apply(t2).value
  {
    WithinBand(t1, b.min.value, b.max.value, b.bandLength);
    if t1 < t2 {
      StrictlyIncreasing(t1, t2, b.min.value, b.max.value, b.bandLength);
    }
  }

  /** A drag offset, per axis; `Origin` is `CGSize.zero`. */
  datatype Offset = Offset(width: Extended, height: Extended)

  const Origin: Offset := Offset(Finite(0.0), Finite(0.0))

  class VelocityDraggingModifier {

    const axis: set<Axis>
    const springParameter: SpringParameter
    const horizontalBoundary: Boundary
    const verticalBoundary: Boundary
    /** The `@State` offset of the dragged content. */
    var position: Offset

    constructor (axis: set<Axis> := {Horizontal, Vertical},
                 horizontalBoundary: Boundary := Boundary.Infinity,
                 verticalBoundary: Boundary := Boundary.Infinity,
                 springParameter: SpringParameter := Hard)
      ensures this.axis == axis && this.springParameter == springParameter
      ensures this.horizontalBoundary == horizontalBoundary && this.verticalBoundary == verticalBoundary
      ensures position == Origin
    {
      this.axis := axis;
      this.springParameter := springParameter;
      this.horizontalBoundary := horizontalBoundary;
      this.verticalBoundary := verticalBoundary;
      position := Origin;
    }

    /**
     * `onChanged`: an axis in `axis` takes its translation through its own
     * boundary; an axis not in `axis` keeps its offset.
     */
    method OnChanged(translation: Size)
      modifies this
      ensures position.width == if Horizontal in axis then horizontalBoundary.Apply(translation.width) else old(position.width)
      ensures position.height == if Vertical in axis then verticalBoundary.Apply(translation.height) else old(position.height)
    {
      if Horizontal in axis {
        position := position.(width := horizontalBoundary.Apply(translation.width));
      }
      if Vertical in axis {
        position := position.(height := verticalBoundary.Apply(translation.height));
      }
    }

    /**
     * `onEnded`: both axes return to 0 whatever `axis` holds; each axis's
     * spring uses the configured parameters and the release velocity on that
     * axis mapped by the offset before the reset.
     */
    method OnEnded(velocity: Vector) returns (animationX: Spring, animationY: Spring)
      modifies this
      ensures position == Origin
      ensures animationX == springParameter.Animation(MapVelocity(velocity.dx, old(position.width)))
      ensures animationY == springParameter.Animation(MapVelocity(velocity.dy, old(position.height)))
    {
      var mappedVelocity := (MapVelocity(velocity.dx, position.width), MapVelocity(velocity.dy, position.height));
      animationX := springParameter.Animation(mappedVelocity.0);
      animationY := springParameter.Animation(mappedVelocity.1);
      position := position.(width := Finite(0.0));
      position := position.(height := Finite(0.0));
    }
  }
}
