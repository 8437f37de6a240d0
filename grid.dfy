/**
 * Grid primitives: the empty board, writing a locked tile into a copy,
 * clearing completely filled rows, and the top-out test.
 */
module GridOps {
  import opened GameConstants
  import opened GameTypes

  /** `createEmptyGrid()`: GridHeight rows of GridWidth empty cells. */
  function EmptyGrid(): (g: Grid)
    ensures forall y, x :: 0 <= y < GridHeight && 0 <= x < GridWidth ==> g[y][x].None?
  {
    seq(GridHeight, _ => EmptyRow)
  }

  /** The grid cell a locked block becomes. */
  function CellOf(b: Block): (c: Cell)
    ensures c.letter == b.letter && c.value == b.value && c.color == b.color
  {
    Cell(b.letter, b.value, b.color)
  }

  /**
   * `lockBlockToGrid(block, position, grid)`: a copy of the grid with the block
   * written at `pos` when its row lies on the board, an unchanged copy otherwise.
   * Callers only lock at a column on the board.
   */
  function LockBlockToGrid(b: Block, pos: Position, g: Grid): (r: Grid)
    requires 0 <= pos.y < GridHeight ==> 0 <= pos.x < GridWidth
    ensures 0 <= pos.y < GridHeight ==> r[pos.y][pos.x] == Some(CellOf(b))
    ensures forall y, x :: 0 <= y < GridHeight && 0 <= x < GridWidth && Position(x, y) != pos ==> r[y][x] == g[y][x]
    ensures !(0 <= pos.y < GridHeight) ==> r == g
  {
    if 0 <= pos.y < GridHeight then g[pos.y := g[pos.y][pos.x := Some(CellOf(b))]] else g
  }

  /** A row in which every cell holds a tile. */
  predicate IsFull(row: Row) {
    forall x :: 0 <= x < |row| ==> row[x].Some?
  }

  /** A row holding at least one tile. */
  predicate IsOccupied(row: Row) {
    exists x :: 0 <= x < |row| && row[x].Some?
  }

  /** The rows that are not full, in their original order. */
  function KeptRows(rows: seq<Row>): (r: seq<Row>)
    ensures |r| <= |rows|
  {
    if |rows| == 0 then [] else (if IsFull(rows[0]) then [] else [rows[0]]) + KeptRows(rows[1..])
  }

  /** No kept row is full. */
  lemma {:induction false} KeptRowsAreNotFull(rows: seq<Row>)
    ensures forall i :: 0 <= i < |KeptRows(rows)| ==> !IsFull(KeptRows(rows)[i])
  {
    if |rows| > 0 {
      KeptRowsAreNotFull(rows[1..]);
    }
  }

  /** The number of full rows. */
  function FullRowCount(rows: seq<Row>): nat {
    if |rows| == 0 then 0 else (if IsFull(rows[0]) then 1 else 0) + FullRowCount(rows[1..])
  }

  /** The rows that are not full, bottom-aligned, with empty rows added on top. */
  function ClearedGrid(g: Grid): Grid {
    var kept := KeptRows(g);
    seq(GridHeight - |kept|, _ => EmptyRow) + kept
  }

  /**
   * `clearLines(grid)`: scans rows bottom-up, keeps each row that is not full
   * in front of those kept so far, counts the full ones, then pads with empty
   * rows at the top.
   */
  method ClearLines(g: Grid) returns (newGrid: Grid, linesCleared: int)
    ensures newGrid == ClearedGrid(g)
    ensures linesCleared == FullRowCount(g)
  {
    var kept: seq<Row> := [];
    linesCleared := 0;
    var y := GridHeight - 1;
    while y >= 0
      invariant -1 <= y < GridHeight
      invariant kept == KeptRows(g[y + 1..])
      invariant linesCleared == FullRowCount(g[y + 1..])
    {
      ScanStep(g, y);
      if !IsFull(g[y]) {
        kept := [g[y]] + kept;
      } else {
        linesCleared := linesCleared + 1;
      }
      y := y - 1;
    }
    assert g[0..] == g;
    newGrid := PadWithEmptyRows(kept);
    BlankIsPadding(GridHeight - |kept|);
  }

  /** The `while` loop of clearLines: empty rows go on top until the grid has GridHeight rows. */
  method PadWithEmptyRows(rows: seq<Row>) returns (padded: seq<Row>)
    requires |rows| <= GridHeight
    ensures padded == Blank(GridHeight - |rows|) + rows
  {
    padded := rows;
    var pad := 0;
    while |padded| < GridHeight
      invariant pad <= GridHeight - |rows|
      invariant padded == Blank(pad) + rows
    {
      BlankStep(pad, rows);
      padded := [BlankRow()] + padded;
      pad := pad + 1;
    }
  }

  /** One step of the bottom-up scan: row y is kept or counted, in front of the rows below it. */
  lemma ScanStep(g: Grid, y: int)
    requires 0 <= y < GridHeight
    ensures KeptRows(g[y..]) == (if IsFull(g[y]) then [] else [g[y]]) + KeptRows(g[y + 1..])
    ensures FullRowCount(g[y..]) == (if IsFull(g[y]) then 1 else 0) + FullRowCount(g[y + 1..])
  {
    assert g[y..][0] == g[y] && g[y..][1..] == g[y + 1..];
  }

  /** A row of GridWidth empty cells. */
  function BlankRow(): Row {
    seq(GridWidth, _ => None)
  }

  /** n empty rows, added one at a time as the padding loop does. */
  function Blank(n: nat): (r: seq<Row>)
    ensures |r| == n
  {
    if n == 0 then [] else [BlankRow()] + Blank(n - 1)
  }

  /** One more empty row on top of the padding. */
  lemma BlankStep(pad: nat, rows: seq<Row>)
    ensures [BlankRow()] + (Blank(pad) + rows) == Blank(pad + 1) + rows
  {
  }

  /** The padding built row by row is the padding of ClearedGrid. */
  lemma {:induction false} BlankIsPadding(n: nat)
    ensures BlankRow() == EmptyRow
    ensures Blank(n) == seq(n, _ => EmptyRow)
  {
    if n > 0 {
      BlankIsPadding(n - 1);
      assert [EmptyRow] + seq(n - 1, _ => EmptyRow) == seq(n, _ => EmptyRow);
    }
  }

  /** `isGameOver(grid)`: a tile in row 0 or row 1. */
  predicate IsGameOver(g: Grid) {
    IsOccupied(g[0]) || IsOccupied(g[1])
  }

  /** Rows split into kept and full ones: the cleared grid has as many rows as before. */
  lemma {:induction false} KeptAndFullPartitionRows(rows: seq<Row>)
    ensures |KeptRows(rows)| + FullRowCount(rows) == |rows|
  {
    if |rows| > 0 {
      KeptAndFullPartitionRows(rows[1..]);
    }
  }

  /**
   * clearLines removes exactly the full rows: the count it returns plus the
   * kept rows make up the board, the kept rows sit at the bottom in order
   * under empty rows, and no row of the result is full.
   */
  lemma ClearedGridShape(g: Grid)
    ensures |KeptRows(g)| + FullRowCount(g) == GridHeight
    ensures forall y :: 0 <= y < FullRowCount(g) ==> ClearedGrid(g)[y] == EmptyRow
    ensures forall i :: 0 <= i < |KeptRows(g)| ==> ClearedGrid(g)[FullRowCount(g) + i] == KeptRows(g)[i]
    ensures forall y :: 0 <= y < GridHeight ==> !IsFull(ClearedGrid(g)[y])
  {
    KeptAndFullPartitionRows(g);
    KeptRowsAreNotFull(g);
    var c := ClearedGrid(g);
    forall y | 0 <= y < FullRowCount(g) ensures !IsFull(c[y]) {
      assert c[y][0].None?;
    }
  }

  /** Without full rows there is nothing to keep out: the rows pass through in order. */
  lemma {:induction false} NoFullRowKeepsAll(rows: seq<Row>)
    requires forall i :: 0 <= i < |rows| ==> !IsFull(rows[i])
    ensures KeptRows(rows) == rows && FullRowCount(rows) == 0
  {
    if |rows| > 0 {
      NoFullRowKeepsAll(rows[1..]);
    }
  }

  /** A grid with no full row comes back unchanged with 0 lines cleared. */
  lemma ClearLinesWithoutFullRows(g: Grid)
    requires forall y :: 0 <= y < GridHeight ==> !IsFull(g[y])
    ensures ClearedGrid(g) == g && FullRowCount(g) == 0
  {
    NoFullRowKeepsAll(g);
  }

  /** Clearing twice changes nothing more. */
  lemma ClearLinesIdempotent(g: Grid)
    ensures ClearedGrid(ClearedGrid(g)) == ClearedGrid(g) && FullRowCount(ClearedGrid(g)) == 0
  {
    ClearedGridShape(g);
    ClearLinesWithoutFullRows(ClearedGrid(g));
  }

  /** Locking a tile into row 0 or row 1 tops the board out. */
  lemma LockInTopRowsIsGameOver(b: Block, pos: Position, g: Grid)
    requires 0 <= pos.x < GridWidth && 0 <= pos.y <= 1
    ensures IsGameOver(LockBlockToGrid(b, pos, g))
  {
    var r := LockBlockToGrid(b, pos, g);
    assert r[pos.y][pos.x].Some?;
  }

  /** The empty board is not topped out, and has no full row. */
  lemma EmptyGridIsPlayable()
    ensures !IsGameOver(EmptyGrid())
    ensures ClearedGrid(EmptyGrid()) == EmptyGrid()
  {
    var e := EmptyGrid();
    forall y | 0 <= y < GridHeight ensures !IsFull(e[y]) {
      assert e[y][0].None?;
    }
    ClearLinesWithoutFullRows(e);
  }
}
