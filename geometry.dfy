/** Pixel positions reported by the browser geometry helpers, and the offset of
    a code annotation relative to the scroll position of its code block. */
module Geometry {

  /** A position in pixels, x to the right and y downwards. */
  datatype Point = Point(x: int, y: int)

  /** The position of the annotation marker relative to what is visible of its
      container: the marker's element offset minus the container's content
      (scroll) offset, taken per component. Adding the scroll back gives the
      marker's own offset. */
  function Offset(anchor: Point, scroll: Point): (r: Point)
    ensures r.x + scroll.x == anchor.x
    ensures r.y + scroll.y == anchor.y
  {
    Point(anchor.x - scroll.x, anchor.y - scroll.y)
  }
}
