/**
 * The collision tests of a tick: leaving the slope or touching a tree ends
 * the run; touching coins collects them. pygame's `spritecollide` becomes a
 * scan over a sequence, in the group's order, with the box overlap test.
 */
module Collision {
  import opened Geometry
  import opened Trees
  import opened Coins

  /** Some tree's box overlaps the player's box. */
  predicate HitsTree(box: Box, trees: seq<Tree>) {
    exists i :: 0 <= i < |trees| && Overlaps(box, trees[i].rect)
  }

  /** The run ends: the player is left of 0, right of the screen width, or on a tree. */
  predicate Crashed(x: real, screenWidth: real, box: Box, trees: seq<Tree>) {
    x < 0.0 || x > screenWidth || HitsTree(box, trees)
  }

  /** A player of size w x h at (x, y) comes within its half-size plus 2.5 of the point (tx, ty), on both axes. */
  predicate NearTree(x: real, y: real, w: real, h: real, tx: int, ty: int) {
    Abs(x - tx as real) < (w + TreeSize as real) / 2.0 && Abs(y - ty as real) < (h + TreeSize as real) / 2.0
  }

  /**
   * For a player of size w x h at (x, y) among trees built the way the game
   * builds them, the run ends exactly when x leaves [0, screenWidth] or the
   * player is near some tree's centre.
   */
  lemma CrashNear(x: real, y: real, w: real, h: real, screenWidth: real, trees: seq<Tree>)
    requires forall i :: 0 <= i < |trees| ==> trees[i] == NewTree(trees[i].x, trees[i].y)
    ensures Crashed(x, screenWidth, Centered(x, y, w, h), trees)
        <==> x < 0.0 || x > screenWidth ||
             exists i :: 0 <= i < |trees| && NearTree(x, y, w, h, trees[i].x, trees[i].y)
  {
    forall i | 0 <= i < |trees|
      ensures Overlaps(Centered(x, y, w, h), trees[i].rect) <==> NearTree(x, y, w, h, trees[i].x, trees[i].y)
    {
      TreeHit(trees[i], x, y, w, h);
    }
  }

  /** The player's box overlaps the coin's box. */
  predicate Touches(box: Box, c: Coin, coinWidth: real, coinHeight: real) {
    Overlaps(box, c.Rect(coinWidth, coinHeight))
  }

  /** The coins left in the group, in order, once those the player touches are killed. */
  function Remaining(coins: seq<Coin>, box: Box, coinWidth: real, coinHeight: real): (rest: seq<Coin>)
    ensures |rest| <= |coins|
  {
    if coins == [] then []
    else
      var last := coins[|coins| - 1];
      Remaining(coins[..|coins| - 1], box, coinWidth, coinHeight) +
      (if Touches(box, last, coinWidth, coinHeight) then [] else [last])
  }

  /** The coins the player touches, in order: the list `spritecollide` returns. */
  function Collected(coins: seq<Coin>, box: Box, coinWidth: real, coinHeight: real): (got: seq<Coin>)
    ensures |got| + |Remaining(coins, box, coinWidth, coinHeight)| == |coins|
  {
    if coins == [] then []
    else
      var last := coins[|coins| - 1];
      Collected(coins[..|coins| - 1], box, coinWidth, coinHeight) +
      (if Touches(box, last, coinWidth, coinHeight) then [last] else [])
  }

  /** Collection splits the group: every coin is either kept or collected, with its multiplicity. */
  lemma {:induction false} CollectSplits(coins: seq<Coin>, box: Box, coinWidth: real, coinHeight: real)
    ensures multiset(Remaining(coins, box, coinWidth, coinHeight)) + multiset(Collected(coins, box, coinWidth, coinHeight))
            == multiset(coins)
  {
    if coins != [] {
      var front := coins[..|coins| - 1];
      CollectSplits(front, box, coinWidth, coinHeight);
      assert coins == front + [coins[|coins| - 1]];
    }
  }

  /** The coins kept are exactly those the player does not touch; the coins collected, exactly those it does. */
  lemma {:induction false} CollectMembers(coins: seq<Coin>, box: Box, coinWidth: real, coinHeight: real)
    ensures forall c :: c in Remaining(coins, box, coinWidth, coinHeight) <==>
                        c in coins && !Touches(box, c, coinWidth, coinHeight)
    ensures forall c :: c in Collected(coins, box, coinWidth, coinHeight) <==>
                        c in coins && Touches(box, c, coinWidth, coinHeight)
  {
    if coins != [] {
      var front := coins[..|coins| - 1];
      CollectMembers(front, box, coinWidth, coinHeight);
      assert coins == front + [coins[|coins| - 1]];
    }
  }

  /**
   * A coin is collected once: after a collection, the same box collects
   * nothing more and keeps every coin left.
   */
  lemma {:induction false} CollectOnce(coins: seq<Coin>, box: Box, coinWidth: real, coinHeight: real)
    ensures Collected(Remaining(coins, box, coinWidth, coinHeight), box, coinWidth, coinHeight) == []
    ensures Remaining(Remaining(coins, box, coinWidth, coinHeight), box, coinWidth, coinHeight)
            == Remaining(coins, box, coinWidth, coinHeight)
  {
    if coins != [] {
      var front := coins[..|coins| - 1];
      var last := coins[|coins| - 1];
      CollectOnce(front, box, coinWidth, coinHeight);
      var rest := Remaining(front, box, coinWidth, coinHeight);
      if Touches(box, last, coinWidth, coinHeight) {
        assert Remaining(coins, box, coinWidth, coinHeight) == rest;
      } else {
        var kept := rest + [last];
        assert Remaining(coins, box, coinWidth, coinHeight) == kept;
        assert kept[..|kept| - 1] == rest && kept[|kept| - 1] == last;
        assert Remaining(kept, box, coinWidth, coinHeight) == Remaining(rest, box, coinWidth, coinHeight) + [last];
        assert Collected(kept, box, coinWidth, coinHeight) == Collected(rest, box, coinWidth, coinHeight);
      }
    }
  }

  /** Whether any tree's box overlaps the player's box. */
  method AnyTreeHit(box: Box, trees: seq<Tree>) returns (hit: bool)
    ensures hit <==> HitsTree(box, trees)
  {
    hit := false;
    var i := 0;
    while i < |trees|
      invariant 0 <= i <= |trees|
      invariant hit <==> exists j :: 0 <= j < i && Overlaps(box, trees[j].rect)
    {
      if Overlaps(box, trees[i].rect) {
        hit := true;
      }
      i := i + 1;
    }
  }

  /** `spritecollide` with killing: the touched coins, and the group that is left. */
  method CollideAndKill(box: Box, coins: seq<Coin>, coinWidth: real, coinHeight: real)
    returns (got: seq<Coin>, rest: seq<Coin>)
    ensures got == Collected(coins, box, coinWidth, coinHeight)
    ensures rest == Remaining(coins, box, coinWidth, coinHeight)
  {
    got, rest := [], [];
    var i := 0;
    while i < |coins|
      invariant 0 <= i <= |coins|
      invariant got == Collected(coins[..i], box, coinWidth, coinHeight)
      invariant rest == Remaining(coins[..i], box, coinWidth, coinHeight)
    {
      assert coins[..i + 1][..i] == coins[..i];
      if Touches(box, coins[i], coinWidth, coinHeight) {
        got := got + [coins[i]];
      } else {
        rest := rest + [coins[i]];
      }
      i := i + 1;
    }
    assert coins[..i] == coins;
  }
}
