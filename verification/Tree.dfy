/**
 * A tree: a passive obstacle with a fixed 5 x 5 box centred on the point it
 * was built at. Nothing changes a tree once it exists, so it is a value.
 */
module Trees {
  import opened Geometry

  const TreeSize: int := 5

  datatype Tree = Tree(width: int, height: int, x: int, y: int, pos: (int, int), rect: Box)

  /** Building a tree at (initX, initY). */
  function NewTree(initX: int, initY: int): (t: Tree)
    ensures t.width == TreeSize && t.height == TreeSize
    ensures t.x == initX && t.y == initY && t.pos == (initX, initY)
    ensures t.rect.width == TreeSize as real && t.rect.height == TreeSize as real
    ensures t.rect.CenterX() == t.pos.0 as real && t.rect.CenterY() == t.pos.1 as real
  {
    Tree(TreeSize, TreeSize, initX, initY, (initX, initY),
         Centered(initX as real, initY as real, TreeSize as real, TreeSize as real))
  }

  /** Trees built at different points are different trees, so a level never merges two. */
  lemma NewTreeInjective(x1: int, y1: int, x2: int, y2: int)
    ensures NewTree(x1, y1) == NewTree(x2, y2) <==> x1 == x2 && y1 == y2
  {
  }

  /** A box overlaps a tree exactly when it comes within 2.5 plus its half-size of the tree's centre. */
  lemma TreeHit(t: Tree, cx: real, cy: real, w: real, h: real)
    requires t == NewTree(t.x, t.y)
    ensures Overlaps(Centered(cx, cy, w, h), t.rect)
        <==> Abs(cx - t.x as real) < (w + 5.0) / 2.0 && Abs(cy - t.y as real) < (h + 5.0) / 2.0
  {
    CenteredOverlap(cx, cy, w, h, t.x as real, t.y as real, 5.0, 5.0);
  }
}
