/**
 * What loading a level places: a row-major scan over the level's grid of
 * alpha values. A non-zero cell becomes a tree; once a tree has been seen,
 * a zero cell draws from `randint(0, 50)` and becomes a coin when the draw
 * is 0. The draws are an oracle indexed by how many draws came before, so
 * the scan is a function of its inputs.
 */
module Levels {
  import opened Trees
  import opened Coins

  /** One result of `random.randint(0, 50)`. */
  type Draw = d: int | 0 <= d <= 50

  /** The grid pitch and the offset of an entity's centre inside its cell. */
  const CellSize: int := 20
  const CellCentre: int := 10

  /**
   * What the file system offers for one level: whether the image and the
   * metadata file exist, the grid dimensions the metadata gives, and the
   * alpha channel of the image, row by row.
   */
  datatype LevelFiles = LevelFiles(imageFound: bool, metadataFound: bool,
                                   nbRows: nat, nbColumns: nat, alpha: seq<seq<int>>)
  {
    predicate Present() { imageFound && metadataFound }

    /** The image is at least as large as the grid the metadata announces. */
    predicate Covers() {
      nbRows <= |alpha| && forall r :: 0 <= r < nbRows ==> nbColumns <= |alpha[r]|
    }
  }

  datatype Cell = Cell(row: nat, col: nat)

  /** The alpha value of a cell; a cell outside the image reads as empty. */
  function AlphaAt(alpha: seq<seq<int>>, c: Cell): int {
    if c.row < |alpha| && c.col < |alpha[c.row]| then alpha[c.row][c.col] else 0
  }

  predicate NonZero(alpha: seq<seq<int>>, c: Cell) {
    AlphaAt(alpha, c) != 0
  }

  function WorldX(c: Cell): int { c.col * CellSize + CellCentre }
  function WorldY(c: Cell): int { c.row * CellSize + CellCentre }

  function TreeAt(c: Cell): Tree { NewTree(WorldX(c), WorldY(c)) }
  function CoinAt(c: Cell): Coin { Coin(WorldX(c), WorldY(c)) }

  /** Distinct cells have distinct world positions. */
  lemma WorldInjective(a: Cell, b: Cell)
    requires WorldX(a) == WorldX(b) && WorldY(a) == WorldY(b)
    ensures a == b
  {
  }

  /** The first n cells of a row, left to right. */
  function RowCells(row: nat, n: nat): (cs: seq<Cell>)
    ensures |cs| == n
    ensures forall i :: 0 <= i < n ==> cs[i] == Cell(row, i)
  {
    if n == 0 then [] else RowCells(row, n - 1) + [Cell(row, n - 1)]
  }

  /** The cells of the first `rows` rows, in the order the loader visits them. */
  function Cells(rows: nat, cols: nat): (cs: seq<Cell>)
    ensures |cs| == rows * cols
  {
    if rows == 0 then [] else Cells(rows - 1, cols) + RowCells(rows - 1, cols)
  }

  /** Row-major order: earlier rows first, then left to right. */
  predicate RowMajorBefore(a: Cell, b: Cell) {
    a.row < b.row || (a.row == b.row && a.col < b.col)
  }

  /** The cells of a row are exactly the cells of that row left of n. */
  lemma RowCellsMembers(row: nat, n: nat)
    ensures forall c :: c in RowCells(row, n) <==> c.row == row && c.col < n
  {
    var cs := RowCells(row, n);
    forall c: Cell | c.row == row && c.col < n
      ensures c in cs
    {
      assert cs[c.col] == c;
    }
  }

  /** One cell is visited by the scan exactly when it lies in the grid. */
  lemma {:induction false} CellInGrid(rows: nat, cols: nat, c: Cell)
    ensures c in Cells(rows, cols) <==> c.row < rows && c.col < cols
  {
    if rows > 0 {
      CellInGrid(rows - 1, cols, c);
      var front, last := Cells(rows - 1, cols), RowCells(rows - 1, cols);
      assert Cells(rows, cols) == front + last;
      assert c in front + last <==> c in front || c in last;
      if c.row == rows - 1 && c.col < cols {
        assert last[c.col] == c;
      }
    }
  }

  /** The scan visits exactly the cells of the grid. */
  lemma CellsInGrid(rows: nat, cols: nat)
    ensures forall c :: c in Cells(rows, cols) <==> c.row < rows && c.col < cols
  {
    forall c: Cell
      ensures c in Cells(rows, cols) <==> c.row < rows && c.col < cols
    {
      CellInGrid(rows, cols, c);
    }
  }

  /** A sequence of cells in strictly increasing row-major order. */
  predicate Ordered(cs: seq<Cell>) {
    forall i, j :: 0 <= i < j < |cs| ==> RowMajorBefore(cs[i], cs[j])
  }

  /** Two ordered runs, the first wholly before the second, make an ordered run. */
  lemma OrderedAppend(a: seq<Cell>, b: seq<Cell>)
    requires Ordered(a) && Ordered(b)
    requires forall x, y :: x in a && y in b ==> RowMajorBefore(x, y)
    ensures Ordered(a + b)
  {
    var ab := a + b;
    forall i, j | 0 <= i < j < |ab|
      ensures RowMajorBefore(ab[i], ab[j])
    {
      if j < |a| {
        assert ab[i] == a[i] && ab[j] == a[j];
      } else if i < |a| {
        assert ab[i] == a[i] && ab[j] == b[j - |a|];
        assert a[i] in a && b[j - |a|] in b;
      } else {
        assert ab[i] == b[i - |a|] && ab[j] == b[j - |a|];
      }
    }
  }

  /** The scan visits the cells in strictly increasing row-major order. */
  lemma {:induction false} CellsOrdered(rows: nat, cols: nat)
    ensures Ordered(Cells(rows, cols))
  {
    if rows > 0 {
      CellsOrdered(rows - 1, cols);
      CellsInGrid(rows - 1, cols);
      RowCellsMembers(rows - 1, cols);
      OrderedAppend(Cells(rows - 1, cols), RowCells(rows - 1, cols));
    }
  }

  /** The loader's state between cells: the flag, the draws used so far, what it placed. */
  datatype ScanState = ScanState(treePlaced: bool, drawn: nat, trees: seq<Tree>, coins: seq<Coin>)

  /**
   * One cell of the scan. The flag records whether a non-zero cell has been
   * seen; a cell places a tree or makes a draw, never both, and a coin costs
   * a draw.
   */
  function Step(alpha: seq<seq<int>>, draws: nat -> Draw, s: ScanState, c: Cell): (r: ScanState)
    ensures r.treePlaced <==> s.treePlaced || NonZero(alpha, c)
    ensures r.drawn >= s.drawn && |r.trees| >= |s.trees| && |r.coins| >= |s.coins|
    ensures (r.drawn - s.drawn) + (|r.trees| - |s.trees|) <= 1
    ensures |r.coins| - |s.coins| <= r.drawn - s.drawn
  {
    if NonZero(alpha, c) then
      s.(treePlaced := true, trees := s.trees + [TreeAt(c)])
    else if s.treePlaced then
      if draws(s.drawn) == 0 then s.(drawn := s.drawn + 1, coins := s.coins + [CoinAt(c)])
      else s.(drawn := s.drawn + 1)
    else
      s
  }

  /**
   * The scan over `cells`, from state `s`. It never forgets a tree it has
   * seen; each cell adds at most one tree or one draw, and every coin it
   * places has cost a draw.
   */
  function ScanFrom(alpha: seq<seq<int>>, draws: nat -> Draw, s: ScanState, cells: seq<Cell>): (r: ScanState)
    ensures s.treePlaced ==> r.treePlaced
    ensures r.drawn >= s.drawn && |r.trees| >= |s.trees| && |r.coins| >= |s.coins|
    ensures (r.drawn - s.drawn) + (|r.trees| - |s.trees|) <= |cells|
    ensures |r.coins| - |s.coins| <= r.drawn - s.drawn
  {
    if cells == [] then s
    else Step(alpha, draws, ScanFrom(alpha, draws, s, cells[..|cells| - 1]), cells[|cells| - 1])
  }

  /** The scan over `cells`, starting with no tree seen, nothing placed and `d0` draws already used. */
  function Scan(alpha: seq<seq<int>>, draws: nat -> Draw, d0: nat, cells: seq<Cell>): (r: ScanState)
    ensures r.drawn >= d0
    ensures |r.trees| + (r.drawn - d0) <= |cells|
    ensures |r.coins| <= r.drawn - d0
  {
    ScanFrom(alpha, draws, ScanState(false, d0, [], []), cells)
  }

  /** Scanning one more cell is one more step. */
  lemma ScanSnoc(alpha: seq<seq<int>>, draws: nat -> Draw, s: ScanState, done: seq<Cell>, c: Cell)
    ensures ScanFrom(alpha, draws, s, done + [c]) == Step(alpha, draws, ScanFrom(alpha, draws, s, done), c)
  {
    assert (done + [c])[..|done|] == done;
  }

  /**
   * Entities already present when the scan starts stay in front of what it
   * places, and do not change what it places.
   */
  lemma {:induction false} ScanKeeps(alpha: seq<seq<int>>, draws: nat -> Draw, d0: nat,
                                     trees0: seq<Tree>, coins0: seq<Coin>, cells: seq<Cell>)
    ensures var e := Scan(alpha, draws, d0, cells);
            ScanFrom(alpha, draws, ScanState(false, d0, trees0, coins0), cells)
            == ScanState(e.treePlaced, e.drawn, trees0 + e.trees, coins0 + e.coins)
  {
    if cells != [] {
      var front := cells[..|cells| - 1];
      ScanKeeps(alpha, draws, d0, trees0, coins0, front);
      var e := Scan(alpha, draws, d0, front);
      var c := cells[|cells| - 1];
      assert (trees0 + e.trees) + [TreeAt(c)] == trees0 + (e.trees + [TreeAt(c)]);
      assert (coins0 + e.coins) + [CoinAt(c)] == coins0 + (e.coins + [CoinAt(c)]);
    }
  }

  /**
   * The same scan indexed the way the loader's two loops are: the state
   * once every row before `row` and the first `el` cells of row `row` are done.
   */
  function ScanGrid(alpha: seq<seq<int>>, draws: nat -> Draw, s: ScanState, cols: nat, row: nat, el: nat): ScanState
    decreases row, el
  {
    if el == 0 then
      if row == 0 then s else ScanGrid(alpha, draws, s, cols, row - 1, cols)
    else
      Step(alpha, draws, ScanGrid(alpha, draws, s, cols, row, el - 1), Cell(row, el - 1))
  }

  /** The loop-indexed scan is the scan over the cells in row-major order. */
  lemma {:induction false} ScanGridIsScan(alpha: seq<seq<int>>, draws: nat -> Draw, s: ScanState, cols: nat, row: nat, el: nat)
    requires el <= cols
    ensures ScanGrid(alpha, draws, s, cols, row, el) == ScanFrom(alpha, draws, s, Cells(row, cols) + RowCells(row, el))
    decreases row, el
  {
    if el == 0 {
      assert Cells(row, cols) + RowCells(row, 0) == Cells(row, cols);
      if row > 0 {
        ScanGridIsScan(alpha, draws, s, cols, row - 1, cols);
      }
    } else {
      ScanGridIsScan(alpha, draws, s, cols, row, el - 1);
      CellsNext(row, el - 1, cols);
      ScanSnoc(alpha, draws, s, Cells(row, cols) + RowCells(row, el - 1), Cell(row, el - 1));
    }
  }

  /** The prefix of the grid scanned once `el` cells of row `row` are done. */
  lemma CellsNext(row: nat, el: nat, cols: nat)
    ensures Cells(row, cols) + RowCells(row, el + 1) == (Cells(row, cols) + RowCells(row, el)) + [Cell(row, el)]
    ensures Cells(row, cols) + RowCells(row, 0) == Cells(row, cols)
    ensures Cells(row + 1, cols) == Cells(row, cols) + RowCells(row, cols)
  {
  }

  /**
   * The whole grid of a level: at most one tree or one draw per cell of the
   * grid, and no more coins than draws.
   */
  function LevelScan(files: LevelFiles, draws: nat -> Draw, d0: nat): (r: ScanState)
    ensures r.drawn >= d0
    ensures |r.trees| + (r.drawn - d0) <= files.nbRows * files.nbColumns
    ensures |r.coins| <= r.drawn - d0
  {
    Scan(files.alpha, draws, d0, Cells(files.nbRows, files.nbColumns))
  }

  // ---------------------------------------------------------------------------
  // A reference description of the scan, cell by cell, without the loop state.

  /** Some cell of `cells` is non-zero. */
  predicate TreeSeen(alpha: seq<seq<int>>, cells: seq<Cell>) {
    exists j :: 0 <= j < |cells| && NonZero(alpha, cells[j])
  }

  /** How many cells of `cells` call `randint`: zero cells after some tree. */
  function DrawCount(alpha: seq<seq<int>>, cells: seq<Cell>): nat {
    if cells == [] then 0
    else
      var front := cells[..|cells| - 1];
      DrawCount(alpha, front) +
      (if !NonZero(alpha, cells[|cells| - 1]) && TreeSeen(alpha, front) then 1 else 0)
  }

  /**
   * Cell i becomes a coin: it is zero, a tree came before it, and the draw
   * it makes is 0.
   */
  predicate CoinPlaced(alpha: seq<seq<int>>, draws: nat -> Draw, d0: nat, cells: seq<Cell>, i: int)
    requires 0 <= i < |cells|
  {
    !NonZero(alpha, cells[i]) && TreeSeen(alpha, cells[..i]) &&
    draws(d0 + DrawCount(alpha, cells[..i])) == 0
  }

  /** The loader's flag and draw counter agree with the reference description. */
  lemma {:induction false} ScanFlags(alpha: seq<seq<int>>, draws: nat -> Draw, d0: nat, cells: seq<Cell>)
    ensures Scan(alpha, draws, d0, cells).treePlaced == TreeSeen(alpha, cells)
    ensures Scan(alpha, draws, d0, cells).drawn == d0 + DrawCount(alpha, cells)
  {
    if cells != [] {
      var front := cells[..|cells| - 1];
      ScanFlags(alpha, draws, d0, front);
      if TreeSeen(alpha, front) {
        var j :| 0 <= j < |front| && NonZero(alpha, front[j]);
        assert cells[j] == front[j];
      }
      if TreeSeen(alpha, cells) && !NonZero(alpha, cells[|cells| - 1]) {
        var j :| 0 <= j < |cells| && NonZero(alpha, cells[j]);
        assert front[j] == cells[j];
      }
    }
  }

  /** The scan places a tree for exactly the non-zero cells, at their world position. */
  lemma {:induction false} ScanTrees(alpha: seq<seq<int>>, draws: nat -> Draw, d0: nat, cells: seq<Cell>)
    ensures forall t :: t in Scan(alpha, draws, d0, cells).trees <==>
              exists i :: 0 <= i < |cells| && NonZero(alpha, cells[i]) && t == TreeAt(cells[i])
  {
    if cells != [] {
      var n := |cells| - 1;
      var front := cells[..n];
      ScanTrees(alpha, draws, d0, front);
      var before, after := Scan(alpha, draws, d0, front).trees, Scan(alpha, draws, d0, cells).trees;
      forall t | t in after
        ensures exists i :: 0 <= i < |cells| && NonZero(alpha, cells[i]) && t == TreeAt(cells[i])
      {
        if t in before {
          var i :| 0 <= i < |front| && NonZero(alpha, front[i]) && t == TreeAt(front[i]);
          assert cells[i] == front[i];
        } else {
          assert NonZero(alpha, cells[n]) && t == TreeAt(cells[n]);
        }
      }
      forall i | 0 <= i < |cells| && NonZero(alpha, cells[i])
        ensures TreeAt(cells[i]) in after
      {
        if i < n {
          assert front[i] == cells[i];
          assert TreeAt(front[i]) in before;
        }
      }
    }
  }

  /** Whether an earlier cell becomes a coin does not depend on the cells after it. */
  lemma CoinPlacedPrefix(alpha: seq<seq<int>>, draws: nat -> Draw, d0: nat, cells: seq<Cell>, i: int)
    requires 0 <= i < |cells| - 1
    ensures cells[..|cells| - 1][i] == cells[i]
    ensures CoinPlaced(alpha, draws, d0, cells[..|cells| - 1], i) == CoinPlaced(alpha, draws, d0, cells, i)
  {
    assert cells[..|cells| - 1][..i] == cells[..i];
  }

  /** The scan places a coin for exactly the cells the reference description selects. */
  lemma {:induction false} ScanCoins(alpha: seq<seq<int>>, draws: nat -> Draw, d0: nat, cells: seq<Cell>)
    ensures forall c :: c in Scan(alpha, draws, d0, cells).coins <==>
              exists i :: 0 <= i < |cells| && CoinPlaced(alpha, draws, d0, cells, i) && c == CoinAt(cells[i])
  {
    if cells != [] {
      var n := |cells| - 1;
      var front := cells[..n];
      ScanCoins(alpha, draws, d0, front);
      ScanFlags(alpha, draws, d0, front);
      var before, after := Scan(alpha, draws, d0, front).coins, Scan(alpha, draws, d0, cells).coins;
      if CoinPlaced(alpha, draws, d0, cells, n) {
        assert after == before + [CoinAt(cells[n])];
      } else {
        assert after == before;
      }
      forall c | c in after
        ensures exists i :: 0 <= i < |cells| && CoinPlaced(alpha, draws, d0, cells, i) && c == CoinAt(cells[i])
      {
        if c in before {
          var i :| 0 <= i < |front| && CoinPlaced(alpha, draws, d0, front, i) && c == CoinAt(front[i]);
          CoinPlacedPrefix(alpha, draws, d0, cells, i);
        }
      }
      forall i | 0 <= i < n && CoinPlaced(alpha, draws, d0, cells, i)
        ensures CoinAt(cells[i]) in after
      {
        CoinPlacedPrefix(alpha, draws, d0, cells, i);
        assert CoinAt(front[i]) in before;
      }
    }
  }

  // ---------------------------------------------------------------------------
  // What a level load places, stated on the grid.

  /**
   * A level gets a tree at (col * 20 + 10, row * 20 + 10) for exactly the
   * grid cells whose alpha is non-zero, and no other tree.
   */
  lemma LevelTrees(files: LevelFiles, draws: nat -> Draw, d0: nat)
    ensures forall r: nat, c: nat :: r < files.nbRows && c < files.nbColumns ==>
              (TreeAt(Cell(r, c)) in LevelScan(files, draws, d0).trees <==> NonZero(files.alpha, Cell(r, c)))
    ensures forall t :: t in LevelScan(files, draws, d0).trees ==>
              exists cell: Cell :: cell.row < files.nbRows && cell.col < files.nbColumns &&
                             NonZero(files.alpha, cell) && t == TreeAt(cell)
  {
    var cells := Cells(files.nbRows, files.nbColumns);
    ScanTrees(files.alpha, draws, d0, cells);
    CellsInGrid(files.nbRows, files.nbColumns);
    forall r: nat, c: nat | r < files.nbRows && c < files.nbColumns &&
                            TreeAt(Cell(r, c)) in LevelScan(files, draws, d0).trees
      ensures NonZero(files.alpha, Cell(r, c))
    {
      var i :| 0 <= i < |cells| && NonZero(files.alpha, cells[i]) && TreeAt(Cell(r, c)) == TreeAt(cells[i]);
      WorldInjective(Cell(r, c), cells[i]);
    }
    forall r: nat, c: nat | r < files.nbRows && c < files.nbColumns && NonZero(files.alpha, Cell(r, c))
      ensures TreeAt(Cell(r, c)) in LevelScan(files, draws, d0).trees
    {
      var i :| 0 <= i < |cells| && cells[i] == Cell(r, c);
    }
    forall t | t in LevelScan(files, draws, d0).trees
      ensures exists cell: Cell :: cell.row < files.nbRows && cell.col < files.nbColumns &&
                             NonZero(files.alpha, cell) && t == TreeAt(cell)
    {
      var i :| 0 <= i < |cells| && NonZero(files.alpha, cells[i]) && t == TreeAt(cells[i]);
      assert cells[i] in cells;
    }
  }

  /**
   * Every coin of a level sits on a zero cell of the grid, and some non-zero
   * cell of the grid comes before it in row-major order: no coin precedes
   * the first tree.
   */
  lemma LevelCoinsAfterFirstTree(files: LevelFiles, draws: nat -> Draw, d0: nat)
    ensures forall coin :: coin in LevelScan(files, draws, d0).coins ==>
              exists cell: Cell :: cell.row < files.nbRows && cell.col < files.nbColumns &&
                             !NonZero(files.alpha, cell) && coin == CoinAt(cell) &&
                             exists first: Cell :: first.row < files.nbRows && first.col < files.nbColumns &&
                                             NonZero(files.alpha, first) && RowMajorBefore(first, cell)
  {
    var cells := Cells(files.nbRows, files.nbColumns);
    ScanCoins(files.alpha, draws, d0, cells);
    CellsInGrid(files.nbRows, files.nbColumns);
    CellsOrdered(files.nbRows, files.nbColumns);
    forall coin | coin in LevelScan(files, draws, d0).coins
      ensures exists cell: Cell :: cell.row < files.nbRows && cell.col < files.nbColumns &&
                             !NonZero(files.alpha, cell) && coin == CoinAt(cell) &&
                             exists first: Cell :: first.row < files.nbRows && first.col < files.nbColumns &&
                                             NonZero(files.alpha, first) && RowMajorBefore(first, cell)
    {
      var i :| 0 <= i < |cells| && CoinPlaced(files.alpha, draws, d0, cells, i) && coin == CoinAt(cells[i]);
      var j :| 0 <= j < |cells[..i]| && NonZero(files.alpha, cells[..i][j]);
      assert cells[..i][j] == cells[j];
      assert RowMajorBefore(cells[j], cells[i]);
      assert cells[i] in cells && cells[j] in cells;
    }
  }

  /** A cell never yields both a tree and a coin: no coin shares a tree's position. */
  lemma LevelTreesAndCoinsApart(files: LevelFiles, draws: nat -> Draw, d0: nat)
    ensures forall t, coin :: t in LevelScan(files, draws, d0).trees && coin in LevelScan(files, draws, d0).coins ==>
              (t.x, t.y) != (coin.x, coin.y)
  {
    var cells := Cells(files.nbRows, files.nbColumns);
    var s := LevelScan(files, draws, d0);
    ScanTrees(files.alpha, draws, d0, cells);
    ScanCoins(files.alpha, draws, d0, cells);
    forall t, coin | t in s.trees && coin in s.coins
      ensures (t.x, t.y) != (coin.x, coin.y)
    {
      var i :| 0 <= i < |cells| && NonZero(files.alpha, cells[i]) && t == TreeAt(cells[i]);
      var j :| 0 <= j < |cells| && CoinPlaced(files.alpha, draws, d0, cells, j) && coin == CoinAt(cells[j]);
      if (t.x, t.y) == (coin.x, coin.y) {
        WorldInjective(cells[i], cells[j]);
        assert false;
      }
    }
  }

  /** Scanning only zero cells changes nothing: the flag never rises, so no draw and no coin. */
  lemma {:induction false} ScanAllZero(alpha: seq<seq<int>>, draws: nat -> Draw, d0: nat, cells: seq<Cell>)
    requires forall i :: 0 <= i < |cells| ==> !NonZero(alpha, cells[i])
    ensures Scan(alpha, draws, d0, cells) == ScanState(false, d0, [], [])
  {
    if cells != [] {
      var front := cells[..|cells| - 1];
      assert forall i :: 0 <= i < |front| ==> front[i] == cells[i];
      ScanAllZero(alpha, draws, d0, front);
    }
  }

  /** A grid with no non-zero cell yields no tree and no coin. */
  lemma LevelEmpty(files: LevelFiles, draws: nat -> Draw, d0: nat)
    requires forall r: nat, c: nat :: r < files.nbRows && c < files.nbColumns ==> !NonZero(files.alpha, Cell(r, c))
    ensures LevelScan(files, draws, d0).trees == [] && LevelScan(files, draws, d0).coins == []
  {
    var cells := Cells(files.nbRows, files.nbColumns);
    CellsInGrid(files.nbRows, files.nbColumns);
    forall i | 0 <= i < |cells|
      ensures !NonZero(files.alpha, cells[i])
    {
      assert cells[i] in cells;
    }
    ScanAllZero(files.alpha, draws, d0, cells);
  }
}
