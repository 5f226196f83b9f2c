/** Geometry records used by the layout engine: points, sizes, rectangles and
    dimensions with a baseline. Coordinates are exact reals; floating-point
    rounding is not modelled. */
module Geom {

  /** A position; `Add` is the translation used when layouts are embedded. */
  datatype Point = Point(x: real, y: real)

  /** The zero point: translating by it changes nothing. */
  const Origin := Point(0.0, 0.0)

  function Add(p: Point, q: Point): Point
  {
    Point(p.x + q.x, p.y + q.y)
  }

  datatype Size = Size(width: real, height: real)

  /** An axis-aligned rectangle from (x0, y0) to (x1, y1). */
  datatype Rect = Rect(x0: real, y0: real, x1: real, y1: real)
  {
    function Width(): real { x1 - x0 }

    function Height(): real { y1 - y0 }

    /** Neither pair of opposite edges is crossed. */
    predicate Ordered() { x0 <= x1 && y0 <= y1 }

    /** `inner` lies inside this rectangle. */
    predicate Contains(inner: Rect)
    {
      x0 <= inner.x0 && inner.x1 <= x1 && y0 <= inner.y0 && inner.y1 <= y1
    }
  }

  /** A box whose vertical extent is split at the baseline: `height` above it,
      `depth` below it. */
  datatype Dim = Dim(width: real, height: real, depth: real)
  {
    function ToSize(): Size { Size(width, height + depth) }
  }
}
