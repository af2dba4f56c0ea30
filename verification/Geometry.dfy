/**
 * Axis-aligned boxes and the overlap test the game uses for every
 * collision (pygame's Rect and its `colliderect`, over the reals).
 */
module Geometry {

  function Abs(x: real): real {
    if x < 0.0 then -x else x
  }

  /** A rectangle given by its top-left corner and its size. */
  datatype Box = Box(left: real, top: real, width: real, height: real) {
    function Right(): real { left + width }
    function Bottom(): real { top + height }
    function CenterX(): real { left + width / 2.0 }
    function CenterY(): real { top + height / 2.0 }
  }

  /** The box of the given size whose centre is (cx, cy): what assigning `rect.center` yields. */
  function Centered(cx: real, cy: real, width: real, height: real): (b: Box)
    ensures b.CenterX() == cx && b.CenterY() == cy
    ensures b.width == width && b.height == height
  {
    Box(cx - width / 2.0, cy - height / 2.0, width, height)
  }

  /** The interiors of the two boxes intersect: touching edges do not count. */
  predicate Overlaps(a: Box, b: Box) {
    a.left < b.Right() && b.left < a.Right() && a.top < b.Bottom() && b.top < a.Bottom()
  }

  /**
   * Two boxes overlap exactly when their centres are closer, on each axis,
   * than half the sum of their sizes on that axis. In particular overlap is
   * symmetric: which sprite is tested against which does not matter.
   */
  lemma OverlapsByCentres(a: Box, b: Box)
    ensures Overlaps(a, b)
        <==> Abs(a.CenterX() - b.CenterX()) < (a.width + b.width) / 2.0 &&
             Abs(a.CenterY() - b.CenterY()) < (a.height + b.height) / 2.0
    ensures Overlaps(a, b) <==> Overlaps(b, a)
  {
  }

  /** The same test for boxes given by their centres and sizes. */
  lemma CenteredOverlap(x1: real, y1: real, w1: real, h1: real, x2: real, y2: real, w2: real, h2: real)
    ensures Overlaps(Centered(x1, y1, w1, h1), Centered(x2, y2, w2, h2))
        <==> Abs(x1 - x2) < (w1 + w2) / 2.0 && Abs(y1 - y2) < (h1 + h2) / 2.0
  {
    OverlapsByCentres(Centered(x1, y1, w1, h1), Centered(x2, y2, w2, h2));
  }
}
