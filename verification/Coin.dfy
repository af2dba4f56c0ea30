/**
 * A coin: a collectable placed at a grid point. Coin.py is not part of this
 * model; what the game relies on is its centre, and its box size is a
 * parameter of the game.
 */
module Coins {
  import opened Geometry

  datatype Coin = Coin(x: int, y: int) {
    /** The coin's box for a given coin size: centred on the coin. */
    function Rect(width: real, height: real): (b: Box)
      ensures b.CenterX() == x as real && b.CenterY() == y as real
      ensures b.width == width && b.height == height
    {
      Centered(x as real, y as real, width, height)
    }
  }
}
