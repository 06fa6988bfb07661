/**
 * The grid helpers of the move route: gravity placement of a piece,
 * four-in-a-row detection and the full-board test.
 *
 * A board is a 6 x 7 grid of numbers, row 0 at the top and row 5 at the
 * bottom; 0 is an empty cell, any other number is the piece of that seat.
 */
module Board {
  import opened Wrappers

  type Grid = seq<seq<int>>

  const Rows := 6
  const Cols := 7

  /** The shape every stored board has: 6 rows of 7 cells. */
  predicate WellFormed(b: Grid) {
    |b| == Rows && forall i :: 0 <= i < Rows ==> |b[i]| == Cols
  }

  /** No piece floats: a non-empty cell has a non-empty cell below it. */
  ghost predicate Gravity(b: Grid)
    requires WellFormed(b)
  {
    forall i, j {:trigger b[i][j]} :: 0 <= i < Rows - 1 && 0 <= j < Cols && b[i][j] != 0 ==> b[i + 1][j] != 0
  }

  /**
   * The test `newBoard[row][column] === 0`. A column outside 0..6 reads
   * `undefined`, which is never 0, so such a column has no empty cell.
   */
  predicate IsEmptyCell(b: Grid, row: int, col: int)
    requires WellFormed(b) && 0 <= row < Rows
  {
    0 <= col < Cols && b[row][col] == 0
  }

  /** The first empty cell met when scanning column `col` up from `row` to row 0 (descending row index). */
  function LowestEmptyFrom(b: Grid, col: int, row: int): (r: Option<int>)
    requires WellFormed(b) && -1 <= row < Rows
    ensures r.Some? ==> 0 <= r.value <= row && IsEmptyCell(b, r.value, col)
    ensures r.Some? ==> forall k :: r.value < k <= row ==> !IsEmptyCell(b, k, col)
    ensures r.None? ==> forall k :: 0 <= k <= row ==> !IsEmptyCell(b, k, col)
    decreases row + 1
  {
    if row < 0 then None
    else if IsEmptyCell(b, row, col) then Some(row)
    else LowestEmptyFrom(b, col, row - 1)
  }

  /** The row a piece dropped into `col` lands in: the scan starts at the bottom row 5. */
  function LowestEmpty(b: Grid, col: int): Option<int>
    requires WellFormed(b)
  {
    LowestEmptyFrom(b, col, Rows - 1)
  }

  /** The board after dropping `player` into `col`, or None when the column has no empty cell ("Column full"). */
  function Drop(b: Grid, col: int, player: int): (r: Option<Grid>)
    requires WellFormed(b)
    ensures r.Some? ==> WellFormed(r.value)
  {
    match LowestEmpty(b, col)
    case None => None
    case Some(row) => Some(b[row := b[row][col := player]])
  }

  /**
   * `dropPiece`: copy the board, scan the column from row 5 down to row 0
   * and write `player` into the first empty cell; throw when there is none.
   */
  method DropPiece(board: Grid, column: int, player: int) returns (r: Option<Grid>)
    requires WellFormed(board)
    ensures r == Drop(board, column, player)
  {
    var newBoard := board;
    var row := Rows - 1;
    while row >= 0
      invariant -1 <= row < Rows
      invariant LowestEmpty(board, column) == LowestEmptyFrom(board, column, row)
    {
      if IsEmptyCell(newBoard, row, column) {
        newBoard := newBoard[row := newBoard[row][column := player]];
        return Some(newBoard);
      }
      row := row - 1;
    }
    return None;
  }

  /** `dropPiece` fails exactly on a full column and on a column outside 0..6. */
  lemma DropFailsIff(b: Grid, col: int, player: int)
    requires WellFormed(b)
    ensures Drop(b, col, player).None? <==>
              (col < 0 || col >= Cols || forall k :: 0 <= k < Rows ==> b[k][col] != 0)
  {
    if Drop(b, col, player).None? && 0 <= col < Cols {
      forall k | 0 <= k < Rows ensures b[k][col] != 0 {
        assert !IsEmptyCell(b, k, col);
      }
    }
    if 0 <= col < Cols && forall k :: 0 <= k < Rows ==> b[k][col] != 0 {
      assert LowestEmpty(b, col).None?;
    }
  }

  /**
   * A successful drop writes `player` into the empty cell of column `col`
   * with the highest row index (every cell below it is occupied), leaves
   * every other cell as it was, and `b` itself is a value that is not changed.
   */
  lemma DropPlacement(b: Grid, col: int, player: int)
    requires WellFormed(b) && Drop(b, col, player).Some?
    ensures 0 <= col < Cols && LowestEmpty(b, col).Some?
    ensures var row, nb := LowestEmpty(b, col).value, Drop(b, col, player).value;
      && 0 <= row < Rows
      && b[row][col] == 0
      && (forall k :: row < k < Rows ==> b[k][col] != 0)
      && nb[row][col] == player
      && (forall i, j :: 0 <= i < Rows && 0 <= j < Cols && (i != row || j != col) ==> nb[i][j] == b[i][j])
  {
    var row := LowestEmpty(b, col).value;
    forall k | row < k < Rows ensures b[k][col] != 0 {
      assert !IsEmptyCell(b, k, col);
    }
  }

  /** Conversely, an empty cell with only occupied cells below it is where the piece lands. */
  lemma DropLandsAt(b: Grid, col: int, player: int, row: int)
    requires WellFormed(b) && 0 <= col < Cols && 0 <= row < Rows
    requires b[row][col] == 0 && forall k :: row < k < Rows ==> b[k][col] != 0
    ensures Drop(b, col, player) == Some(b[row := b[row][col := player]])
  {
    assert IsEmptyCell(b, row, col);
  }

  /** Dropping into a board without floating pieces yields a board without floating pieces. */
  lemma DropPreservesGravity(b: Grid, col: int, player: int)
    requires WellFormed(b) && Gravity(b) && Drop(b, col, player).Some?
    ensures Gravity(Drop(b, col, player).value)
  {
    DropPlacement(b, col, player);
    var row, nb := LowestEmpty(b, col).value, Drop(b, col, player).value;
    forall i, j {:trigger nb[i][j]} | 0 <= i < Rows - 1 && 0 <= j < Cols && nb[i][j] != 0
      ensures nb[i + 1][j] != 0
    {
      if j == col && i + 1 == row {
        assert false;
      }
    }
  }

  /** Number of occupied cells of one row. */
  function RowPieces(row: seq<int>): nat {
    if row == [] then 0 else (if row[0] != 0 then 1 else 0) + RowPieces(row[1..])
  }

  /** Number of occupied cells of a board. */
  function Pieces(b: Grid): nat {
    if b == [] then 0 else RowPieces(b[0]) + Pieces(b[1..])
  }

  lemma {:induction false} RowPiecesUpdate(row: seq<int>, j: int, v: int)
    requires 0 <= j < |row|
    ensures RowPieces(row[j := v]) ==
              RowPieces(row) - (if row[j] != 0 then 1 else 0) + (if v != 0 then 1 else 0)
  {
    if j > 0 {
      assert row[j := v][1..] == row[1..][j - 1 := v];
      RowPiecesUpdate(row[1..], j - 1, v);
    } else {
      assert row[j := v][1..] == row[1..];
    }
  }

  lemma {:induction false} PiecesUpdate(b: Grid, i: int, row: seq<int>)
    requires 0 <= i < |b|
    ensures Pieces(b[i := row]) == Pieces(b) - RowPieces(b[i]) + RowPieces(row)
  {
    if i > 0 {
      assert b[i := row][1..] == b[1..][i - 1 := row];
      PiecesUpdate(b[1..], i - 1, row);
    } else {
      assert b[i := row][1..] == b[1..];
    }
  }

  lemma {:induction false} NoRowPieces(row: seq<int>)
    requires forall j :: 0 <= j < |row| ==> row[j] == 0
    ensures RowPieces(row) == 0
  {
    if row != [] {
      NoRowPieces(row[1..]);
    }
  }

  /** A board whose every cell is 0 holds no pieces. */
  lemma {:induction false} NoPiecesOnEmptyCells(b: Grid)
    requires forall i, j :: 0 <= i < |b| && 0 <= j < |b[i]| ==> b[i][j] == 0
    ensures Pieces(b) == 0
  {
    if b != [] {
      NoRowPieces(b[0]);
      assert forall i, j :: 0 <= i < |b[1..]| && 0 <= j < |b[1..][i]| ==> b[1..][i][j] == b[i + 1][j];
      NoPiecesOnEmptyCells(b[1..]);
    }
  }

  /** A successful drop of a real piece (non-zero) adds exactly one piece to the board. */
  lemma DropAddsOnePiece(b: Grid, col: int, player: int)
    requires WellFormed(b) && player != 0 && Drop(b, col, player).Some?
    ensures Pieces(Drop(b, col, player).value) == Pieces(b) + 1
  {
    DropPlacement(b, col, player);
    var row := LowestEmpty(b, col).value;
    RowPiecesUpdate(b[row], col, player);
    PiecesUpdate(b, row, b[row][col := player]);
  }

  /** Four cells starting at (r, c) and stepping by (dr, dc) all hold `p`. */
  predicate LineAt(b: Grid, p: int, r: int, c: int, dr: int, dc: int)
    requires WellFormed(b)
    requires 0 <= r < Rows && 0 <= c < Cols
    requires 0 <= r + 3 * dr < Rows && 0 <= c + 3 * dc < Cols
    requires -1 <= dr <= 1 && -1 <= dc <= 1
  {
    b[r][c] == p && b[r + dr][c + dc] == p &&
    b[r + 2 * dr][c + 2 * dc] == p && b[r + 3 * dr][c + 3 * dc] == p
  }

  /**
   * What `checkWin` tests, scan by scan: horizontal runs from columns 0..3,
   * vertical runs from rows 0..2, `/` runs rising from rows 3..5 and `\`
   * runs falling from rows 0..2 (both from columns 0..3).
   */
  predicate LineScans(b: Grid, p: int)
    requires WellFormed(b)
  {
    (exists r, c :: 0 <= r < Rows && 0 <= c < 4 && LineAt(b, p, r, c, 0, 1)) ||
    (exists r, c :: 0 <= r < 3 && 0 <= c < Cols && LineAt(b, p, r, c, 1, 0)) ||
    (exists r, c :: 3 <= r < Rows && 0 <= c < 4 && LineAt(b, p, r, c, -1, 1)) ||
    (exists r, c :: 0 <= r < 3 && 0 <= c < 4 && LineAt(b, p, r, c, 1, 1))
  }

  /** Four in-grid cells in a straight line in any of the eight directions all hold `p`. */
  ghost predicate SomeRun(b: Grid, p: int)
    requires WellFormed(b)
  {
    exists r, c, dr, dc :: IsRun(b, p, r, c, dr, dc)
  }

  /** Cells (r, c) to (r + 3dr, c + 3dc), stepping one cell in a fixed direction, lie on the grid and all hold `p`. */
  ghost predicate IsRun(b: Grid, p: int, r: int, c: int, dr: int, dc: int)
    requires WellFormed(b)
  {
    -1 <= dr <= 1 && -1 <= dc <= 1 && (dr != 0 || dc != 0) &&
    0 <= r < Rows && 0 <= c < Cols && 0 <= r + 3 * dr < Rows && 0 <= c + 3 * dc < Cols &&
    LineAt(b, p, r, c, dr, dc)
  }

  /** A run in one of the four directions the scans use is found by the matching scan. */
  lemma ForwardRunFound(b: Grid, p: int, r: int, c: int, dr: int, dc: int)
    requires WellFormed(b)
    requires (dc == 1 && -1 <= dr <= 1) || (dc == 0 && dr == 1)
    requires 0 <= r < Rows && 0 <= c < Cols && 0 <= r + 3 * dr < Rows && 0 <= c + 3 * dc < Cols
    requires LineAt(b, p, r, c, dr, dc)
    ensures LineScans(b, p)
  {
  }

  /** A run read from its other end is a run in the opposite direction. */
  lemma RunReversed(b: Grid, p: int, r: int, c: int, dr: int, dc: int)
    requires WellFormed(b) && -1 <= dr <= 1 && -1 <= dc <= 1
    requires 0 <= r < Rows && 0 <= c < Cols && 0 <= r + 3 * dr < Rows && 0 <= c + 3 * dc < Cols
    requires LineAt(b, p, r, c, dr, dc)
    ensures LineAt(b, p, r + 3 * dr, c + 3 * dc, -dr, -dc)
  {
  }

  /** Every run of four, in any of the eight directions, is found by one of the four scans. */
  lemma SomeRunFound(b: Grid, p: int)
    requires WellFormed(b) && SomeRun(b, p)
    ensures LineScans(b, p)
  {
    var r, c, dr, dc :| IsRun(b, p, r, c, dr, dc);
    if dc < 0 || (dc == 0 && dr < 0) {
      RunReversed(b, p, r, c, dr, dc);
      ForwardRunFound(b, p, r + 3 * dr, c + 3 * dc, -dr, -dc);
    } else {
      ForwardRunFound(b, p, r, c, dr, dc);
    }
  }

  /** The four scans of `checkWin` find a line exactly when the board has four in a row anywhere. */
  lemma LineScansIffSomeRun(b: Grid, p: int)
    requires WellFormed(b)
    ensures LineScans(b, p) <==> SomeRun(b, p)
  {
    if SomeRun(b, p) {
      SomeRunFound(b, p);
    }
    if LineScans(b, p) {
      if r, c :| 0 <= r < Rows && 0 <= c < 4 && LineAt(b, p, r, c, 0, 1) {
        assert IsRun(b, p, r, c, 0, 1);
      } else if r, c :| 0 <= r < 3 && 0 <= c < Cols && LineAt(b, p, r, c, 1, 0) {
        assert IsRun(b, p, r, c, 1, 0);
      } else if r, c :| 3 <= r < Rows && 0 <= c < 4 && LineAt(b, p, r, c, -1, 1) {
        assert IsRun(b, p, r, c, -1, 1);
      } else {
        var r, c :| 0 <= r < 3 && 0 <= c < 4 && LineAt(b, p, r, c, 1, 1);
        assert IsRun(b, p, r, c, 1, 1);
      }
    }
  }

  /**
   * The verdict of `checkWin` for `p`: whether one of its four scans finds
   * a line, which is exactly when four cells in a straight line anywhere on
   * the grid all hold `p`.
   */
  predicate HasLine(b: Grid, p: int): (r: bool)
    requires WellFormed(b)
    ensures r <==> SomeRun(b, p)
  {
    LineScansIffSomeRun(b, p);
    LineScans(b, p)
  }

  /**
   * `checkWin`: the four nested scans, each returning true at the first
   * run of four cells equal to `player`. Every cell read lies in 0..5 x 0..6.
   */
  method CheckWin(b: Grid, player: int) returns (win: bool)
    requires WellFormed(b)
    ensures win == HasLine(b, player)
  {
    // Horizontal
    var row := 0;
    while row < Rows
      invariant 0 <= row <= Rows
      invariant forall r, c :: 0 <= r < row && 0 <= c < 4 ==> !LineAt(b, player, r, c, 0, 1)
    {
      var col := 0;
      while col < 4
        invariant 0 <= col <= 4
        invariant forall r, c :: 0 <= r < row && 0 <= c < 4 ==> !LineAt(b, player, r, c, 0, 1)
        invariant forall c :: 0 <= c < col ==> !LineAt(b, player, row, c, 0, 1)
      {
        if b[row][col] == player && b[row][col + 1] == player &&
           b[row][col + 2] == player && b[row][col + 3] == player {
          assert LineAt(b, player, row, col, 0, 1);
          return true;
        }
        col := col + 1;
      }
      row := row + 1;
    }
    // Vertical
    var col := 0;
    while col < Cols
      invariant 0 <= col <= Cols
      invariant forall r, c :: 0 <= r < 3 && 0 <= c < col ==> !LineAt(b, player, r, c, 1, 0)
    {
      row := 0;
      while row < 3
        invariant 0 <= row <= 3
        invariant forall r, c :: 0 <= r < 3 && 0 <= c < col ==> !LineAt(b, player, r, c, 1, 0)
        invariant forall r :: 0 <= r < row ==> !LineAt(b, player, r, col, 1, 0)
      {
        if b[row][col] == player && b[row + 1][col] == player &&
           b[row + 2][col] == player && b[row + 3][col] == player {
          assert LineAt(b, player, row, col, 1, 0);
          return true;
        }
        row := row + 1;
      }
      col := col + 1;
    }
    // Diagonal /
    row := 3;
    while row < Rows
      invariant 3 <= row <= Rows
      invariant forall r, c :: 3 <= r < row && 0 <= c < 4 ==> !LineAt(b, player, r, c, -1, 1)
    {
      col := 0;
      while col < 4
        invariant 0 <= col <= 4
        invariant forall r, c :: 3 <= r < row && 0 <= c < 4 ==> !LineAt(b, player, r, c, -1, 1)
        invariant forall c :: 0 <= c < col ==> !LineAt(b, player, row, c, -1, 1)
      {
        if b[row][col] == player && b[row - 1][col + 1] == player &&
           b[row - 2][col + 2] == player && b[row - 3][col + 3] == player {
          assert LineAt(b, player, row, col, -1, 1);
          return true;
        }
        col := col + 1;
      }
      row := row + 1;
    }
    // Diagonal \
    row := 0;
    while row < 3
      invariant 0 <= row <= 3
      invariant forall r, c :: 0 <= r < row && 0 <= c < 4 ==> !LineAt(b, player, r, c, 1, 1)
    {
      col := 0;
      while col < 4
        invariant 0 <= col <= 4
        invariant forall r, c :: 0 <= r < row && 0 <= c < 4 ==> !LineAt(b, player, r, c, 1, 1)
        invariant forall c :: 0 <= c < col ==> !LineAt(b, player, row, c, 1, 1)
      {
        if b[row][col] == player && b[row + 1][col + 1] == player &&
           b[row + 2][col + 2] == player && b[row + 3][col + 3] == player {
          assert LineAt(b, player, row, col, 1, 1);
          return true;
        }
        col := col + 1;
      }
      row := row + 1;
    }
    return false;
  }

  /** True when no cell of the row is 0, checked from the first cell on. */
  function RowFull(row: seq<int>): (r: bool)
    ensures r <==> forall j :: 0 <= j < |row| ==> row[j] != 0
  {
    row == [] || (row[0] != 0 && RowFull(row[1..]))
  }

  /** The tie test: true when every row is full, that is when no cell of the board is 0. */
  function IsFull(b: Grid): (r: bool)
    ensures r <==> forall i, j :: 0 <= i < |b| && 0 <= j < |b[i]| ==> b[i][j] != 0
  {
    b == [] || (RowFull(b[0]) && IsFull(b[1..]))
  }
}
