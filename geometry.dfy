/**
 * Integer geometry shared by the bubble's placement and painting: SWT's
 * Point and Rectangle, Rectangle.contains, Java's truncating division by
 * two, and the two rectangle-padding helpers of Bubble.
 */
module Geometry {

  datatype Point = Point(x: int, y: int)

  datatype Rectangle = Rectangle(x: int, y: int, width: int, height: int)

  /** SWT's Rectangle.contains(Point): the rectangle is half-open, so its
      right column x + width and bottom row y + height are outside it. */
  predicate Contains(r: Rectangle, p: Point) {
    r.x <= p.x < r.x + r.width && r.y <= p.y < r.y + r.height
  }

  /** Java's `a / 2` on int: the quotient is truncated toward zero, so the
      remainder takes the sign of the dividend (Dafny's `/` is Euclidean). */
  function JavaHalf(a: int): (h: int)
    ensures a >= 0 ==> 0 <= a - 2 * h <= 1
    ensures a < 0 ==> -1 <= a - 2 * h <= 0
  {
    if a >= 0 then a / 2 else -((-a) / 2)
  }

  const TextHeightPadding := 5
  const TextWidthPadding := 10
  const BorderThickness := 1

  /** calculateContainingRectangleRegion: the bubble's region, the text
      extent grown by the padding, anchored at the surface's origin. */
  function ContainingRectangleRegion(textExtent: Point): Rectangle {
    Rectangle(0, 0, textExtent.x + TextWidthPadding, textExtent.y + TextHeightPadding)
  }

  /** calculateBorderRectangle: the rectangle handed to drawRectangle, which
      paints the outline from (x, y) to (x + width, y + height) inclusive. */
  function BorderRectangle(containing: Rectangle): Rectangle {
    Rectangle(containing.x, containing.y,
              containing.width - BorderThickness, containing.height - BorderThickness)
  }

  /** The region is the text extent grown by 10 x 5 pixels at the origin,
      the border one pixel narrower and shorter; so the one-pixel outline drawn
      from the border rectangle runs exactly along the outermost pixels of
      the region, and the text painted at (TextWidthPadding / 2,
      TextHeightPadding / 2) lies inside the region. */
  lemma BorderOutlineOnRegionEdge(textExtent: Point)
    requires textExtent.x >= 0 && textExtent.y >= 0
    ensures var r := ContainingRectangleRegion(textExtent);
            var b := BorderRectangle(r);
            && r.x == 0 && r.y == 0 && b.x == 0 && b.y == 0
            && r.width == textExtent.x + 10 && r.height == textExtent.y + 5
            && b.width == r.width - 1 && b.height == r.height - 1
    ensures var r := ContainingRectangleRegion(textExtent);
            var b := BorderRectangle(r);
            && Contains(r, Point(b.x, b.y))
            && Contains(r, Point(b.x + b.width, b.y + b.height))
            && !Contains(r, Point(b.x + b.width + 1, b.y))
            && !Contains(r, Point(b.x, b.y + b.height + 1))
    ensures var r := ContainingRectangleRegion(textExtent);
            && Contains(r, Point(TextWidthPadding / 2, TextHeightPadding / 2))
            && TextWidthPadding / 2 + textExtent.x <= r.width
            && TextHeightPadding / 2 + textExtent.y <= r.height
  {
  }
}
