/**
 * The framework's geometry values, with `CGFloat`/`Double` modelled as
 * `real`.  Infinite values are kept apart in `Extended`, because a drag
 * boundary may be infinite; NaN is not modelled.
 */
module Geometry {

  /** `CGSize`: a drag translation or an offset along both axes. */
  datatype Size = Size(width: real, height: real)

  /** `CGSize.zero`. */
  const Zero: Size := Size(0.0, 0.0)

  /** `CGVector`: a release velocity. */
  datatype Vector = Vector(dx: real, dy: real)

  /** A `Double` that is finite, `+infinity` or `-infinity`. */
  datatype Extended = Finite(value: real) | PlusInfinity | MinusInfinity

  /** `v < b` for a finite `v`. */
  predicate LessThan(v: real, b: Extended)
  {
    match b
    case Finite(x) => v < x
    case PlusInfinity => true
    case MinusInfinity => false
  }

  /** `v > b` for a finite `v`. */
  predicate GreaterThan(v: real, b: Extended)
  {
    match b
    case Finite(x) => v > x
    case PlusInfinity => false
    case MinusInfinity => true
  }
}
