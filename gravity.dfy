/**
 * Removing a word's tiles and letting the rest fall: every column of the
 * board is compacted to the bottom, keeping the order of its tiles.
 */
module Gravity {
  import opened GameConstants
  import opened GameTypes

  /** The tiles of column x in rows [y, GridHeight), lowest first. */
  function Stack(g: Grid, x: int, y: int): (s: seq<Cell>)
    requires 0 <= x < GridWidth && 0 <= y <= GridHeight
    ensures |s| <= GridHeight - y
    decreases GridHeight - y
  {
    if y == GridHeight then []
    else Stack(g, x, y + 1) + (if g[y][x].Some? then [g[y][x].value] else [])
  }

  /** Row r of a column holding the tiles s packed at the bottom, lowest first. */
  function PackedCell(s: seq<Cell>, r: int): Option<Cell> {
    var k := GridHeight - 1 - r;
    if 0 <= k < |s| then Some(s[k]) else None
  }

  /** Every column's tiles, lowest first, packed at the bottom: the board gravity leaves, all columns at once. */
  function Packed(g: Grid): Grid {
    seq(GridHeight, r requires 0 <= r < GridHeight =>
      seq(GridWidth, x requires 0 <= x < GridWidth => PackedCell(Stack(g, x, 0), r)))
  }

  /** Column x of the board packed at the bottom, the other columns unchanged. */
  function CompactColumn(g: Grid, x: int): Grid
    requires 0 <= x < GridWidth
  {
    seq(GridHeight, r requires 0 <= r < GridHeight =>
      seq(GridWidth, c requires 0 <= c < GridWidth => if c == x then PackedCell(Stack(g, x, 0), r) else g[r][c]))
  }

  /** Columns x to GridWidth - 1 packed one after the other, from the left. */
  function CompactFrom(g: Grid, x: int): Grid
    requires 0 <= x <= GridWidth
    decreases GridWidth - x
  {
    if x == GridWidth then g else CompactFrom(CompactColumn(g, x), x + 1)
  }

  /** The board after gravity, column by column from the left, as `applyGravity` works. */
  function Gravity(g: Grid): Grid {
    CompactFrom(g, 0)
  }

  /** Two grids with the same cells are equal. */
  lemma GridExtensionality(a: Grid, b: Grid)
    requires forall r, x :: 0 <= r < GridHeight && 0 <= x < GridWidth ==> a[r][x] == b[r][x]
    ensures a == b
  {
    forall r | 0 <= r < GridHeight
      ensures a[r] == b[r]
    {
    }
  }

  /** A cell of the packed board, read through the definition. */
  lemma PackedCellAt(g: Grid, r: int, x: int)
    requires 0 <= r < GridHeight && 0 <= x < GridWidth
    ensures Packed(g)[r][x] == PackedCell(Stack(g, x, 0), r)
  {
  }

  /** A cell of the board with column x packed, read through the definition. */
  lemma CompactColumnCell(g: Grid, x: int, r: int, c: int)
    requires 0 <= x < GridWidth && 0 <= r < GridHeight && 0 <= c < GridWidth
    ensures CompactColumn(g, x)[r][c] == if c == x then PackedCell(Stack(g, x, 0), r) else g[r][c]
  {
  }

  /** After packing columns x to GridWidth - 1 one at a time, those columns are packed and the others untouched. */
  lemma {:induction false} CompactFromCells(g: Grid, x: int, r: int, c: int)
    requires 0 <= x <= GridWidth && 0 <= r < GridHeight && 0 <= c < GridWidth
    ensures CompactFrom(g, x)[r][c] == if c >= x then PackedCell(Stack(g, c, 0), r) else g[r][c]
    decreases GridWidth - x
  {
    if x < GridWidth {
      var g' := CompactColumn(g, x);
      assert CompactFrom(g, x) == CompactFrom(g', x + 1);
      CompactFromCells(g', x + 1, r, c);
      CompactColumnCell(g, x, r, c);
      if c > x {
        CompactColumnKeepsOtherStacks(g, x, c);
      }
    }
  }

  /** Packing column x leaves every other column's tiles alone. */
  lemma CompactColumnKeepsOtherStacks(g: Grid, x: int, c: int)
    requires 0 <= x < GridWidth && 0 <= c < GridWidth && c != x
    ensures Stack(CompactColumn(g, x), c, 0) == Stack(g, c, 0)
  {
    var g' := CompactColumn(g, x);
    forall y | 0 <= y < GridHeight
      ensures g'[y][c] == g[y][c]
    {
      CompactColumnCell(g, x, y, c);
    }
    ColumnStackUnchanged(g', g, c, 0);
  }

  /** Packing the columns one at a time gives the board with every column packed. */
  lemma GravityIsPacked(g: Grid)
    ensures Gravity(g) == Packed(g)
  {
    forall r, x | 0 <= r < GridHeight && 0 <= x < GridWidth
      ensures Gravity(g)[r][x] == Packed(g)[r][x]
    {
      CompactFromCells(g, 0, r, x);
      PackedCellAt(g, r, x);
    }
    GridExtensionality(Gravity(g), Packed(g));
  }

  /** Adding a tile on top of a packed column fills the next row up and leaves the others. */
  lemma PackedCellPush(s: seq<Cell>, t: Cell, r: int)
    ensures PackedCell(s + [t], r) == if r == GridHeight - 1 - |s| then Some(t) else PackedCell(s, r)
  {
  }

  /**
   * `applyGravity(grid)`: starts from an empty board and, column by column,
   * copies each tile met bottom-up into the lowest free row of that column.
   */
  method ApplyGravity(g: Grid) returns (ng: Grid)
    ensures ng == Gravity(g)
  {
    ng := seq(GridHeight, _ => EmptyRow);
    var x := 0;
    while x < GridWidth
      invariant 0 <= x <= GridWidth
      invariant forall r, c {:trigger ng[r][c]} :: 0 <= r < GridHeight && 0 <= c < GridWidth ==>
        ng[r][c] == if c < x then PackedCell(Stack(g, c, 0), r) else None
    {
      var writeY := GridHeight - 1;
      var y := GridHeight - 1;
      assert Stack(g, x, GridHeight) == [];
      while y >= 0
        invariant -1 <= y < GridHeight
        invariant writeY == GridHeight - 1 - |Stack(g, x, y + 1)|
        invariant forall r, c {:trigger ng[r][c]} :: 0 <= r < GridHeight && 0 <= c < GridWidth ==>
          ng[r][c] == if c < x then PackedCell(Stack(g, c, 0), r)
                      else if c == x then PackedCell(Stack(g, x, y + 1), r)
                      else None
      {
        ghost var below := Stack(g, x, y + 1);
        if g[y][x].Some? {
          assert Stack(g, x, y) == below + [g[y][x].value];
          forall r | 0 <= r < GridHeight
            ensures PackedCell(Stack(g, x, y), r) == if r == writeY then g[y][x] else PackedCell(below, r)
          {
            PackedCellPush(below, g[y][x].value, r);
          }
          ng := ng[writeY := ng[writeY][x := g[y][x]]];
          writeY := writeY - 1;
        } else {
          assert Stack(g, x, y) == below;
        }
        y := y - 1;
      }
      x := x + 1;
    }
    GridExtensionality(ng, Packed(g));
    GravityIsPacked(g);
  }

  /** The cells of the board with the given positions emptied (positions off the board change nothing). */
  function ClearAt(g: Grid, ps: seq<Position>): Grid {
    seq(GridHeight, r requires 0 <= r < GridHeight =>
      seq(GridWidth, x requires 0 <= x < GridWidth => if Position(x, r) in ps then None else g[r][x]))
  }

  /**
   * `removeWordBlocks(grid, word)`: empties the word's cells in a copy of the
   * grid and applies gravity. Every position's row must be on the board; a
   * column off the board only ever touches cells gravity does not read.
   */
  method RemoveWordBlocks(g: Grid, m: WordMatch) returns (r: Grid)
    requires forall i :: 0 <= i < |m.positions| ==> 0 <= m.positions[i].y < GridHeight
    ensures r == Gravity(ClearAt(g, m.positions))
  {
    var ng := g;
    var i := 0;
    while i < |m.positions|
      invariant 0 <= i <= |m.positions|
      invariant forall y, x :: 0 <= y < GridHeight && 0 <= x < GridWidth ==>
        ng[y][x] == if Position(x, y) in m.positions[..i] then None else g[y][x]
    {
      var pos := m.positions[i];
      if 0 <= pos.x < GridWidth {
        ng := ng[pos.y := ng[pos.y][pos.x := None]];
      }
      assert m.positions[..i + 1] == m.positions[..i] + [pos];
      i := i + 1;
    }
    assert m.positions[..i] == m.positions;
    GridExtensionality(ng, ClearAt(g, m.positions));
    r := ApplyGravity(ng);
  }

  // ---------------------------------------------------------------------------
  // Properties of gravity
  // ---------------------------------------------------------------------------

  function Min(a: int, b: int): int {
    if a <= b then a else b
  }

  /** In the packed board, the tiles of rows [y, GridHeight) of a column are the lowest ones of the original column. */
  lemma StackOfPacked(g: Grid, x: int, y: int)
    requires 0 <= x < GridWidth && 0 <= y <= GridHeight
    ensures Stack(Packed(g), x, y) == Stack(g, x, 0)[..Min(|Stack(g, x, 0)|, GridHeight - y)]
  {
    var G := Packed(g);
    forall r | 0 <= r < GridHeight
      ensures G[r][x] == PackedCell(Stack(g, x, 0), r)
    {
      PackedCellAt(g, r, x);
    }
    StackOfPackedColumn(G, Stack(g, x, 0), x, y);
  }

  /** A column holding the tiles s packed at the bottom stacks, from row y down, the lowest tiles of s that fit. */
  lemma {:induction false} StackOfPackedColumn(G: Grid, s: seq<Cell>, x: int, y: int)
    requires 0 <= x < GridWidth && 0 <= y <= GridHeight && |s| <= GridHeight
    requires forall r :: 0 <= r < GridHeight ==> G[r][x] == PackedCell(s, r)
    ensures Stack(G, x, y) == s[..Min(|s|, GridHeight - y)]
    decreases GridHeight - y
  {
    if y < GridHeight {
      StackOfPackedColumn(G, s, x, y + 1);
      var k := GridHeight - 1 - y;
      assert G[y][x] == PackedCell(s, y);
      if k < |s| {
        assert Stack(G, x, y) == s[..k] + [s[k]];
        assert s[..k] + [s[k]] == s[..k + 1];
      } else {
        assert Stack(G, x, y) == s[..|s|];
      }
    }
  }

  /** Gravity keeps each column's tiles, in the same bottom-to-top order, and so their number. */
  lemma GravityKeepsColumnTiles(g: Grid, x: int)
    requires 0 <= x < GridWidth
    ensures Stack(Gravity(g), x, 0) == Stack(g, x, 0)
    ensures |Stack(Gravity(g), x, 0)| == |Stack(g, x, 0)|
  {
    GravityIsPacked(g);
    StackOfPacked(g, x, 0);
    assert Stack(g, x, 0)[..|Stack(g, x, 0)|] == Stack(g, x, 0);
  }

  /** After gravity no tile sits above an empty cell: the tiles are packed at the bottom. */
  lemma GravityPacks(g: Grid)
    ensures forall r1, r2, x :: 0 <= r1 <= r2 < GridHeight && 0 <= x < GridWidth && Gravity(g)[r1][x].Some? ==> Gravity(g)[r2][x].Some?
    ensures forall r, x :: 0 <= r < GridHeight && 0 <= x < GridWidth ==>
      (Gravity(g)[r][x].Some? <==> r >= GridHeight - |Stack(g, x, 0)|)
  {
    GravityIsPacked(g);
    forall r, x | 0 <= r < GridHeight && 0 <= x < GridWidth
      ensures Gravity(g)[r][x] == PackedCell(Stack(g, x, 0), r)
    {
      PackedCellAt(g, r, x);
    }
  }

  /** Applying gravity twice changes nothing more. */
  lemma GravityIdempotent(g: Grid)
    ensures Gravity(Gravity(g)) == Gravity(g)
  {
    forall x | 0 <= x < GridWidth
      ensures Stack(Gravity(g), x, 0) == Stack(g, x, 0)
    {
      GravityKeepsColumnTiles(g, x);
    }
    GravityIsPacked(g);
    GravityIsPacked(Gravity(g));
    GridExtensionality(Packed(Gravity(g)), Packed(g));
  }

  /**
   * Removing a word compacts every column, not only those the word touches:
   * a column holding none of the word's cells ends up as gravity alone would
   * leave it.
   */
  lemma RemovalCompactsEveryColumn(g: Grid, ps: seq<Position>, x: int)
    requires 0 <= x < GridWidth
    requires forall i :: 0 <= i < |ps| ==> ps[i].x != x
    ensures forall r :: 0 <= r < GridHeight ==> Gravity(ClearAt(g, ps))[r][x] == Gravity(g)[r][x]
  {
    ColumnStackUnchanged(g, ClearAt(g, ps), x, 0);
    GravityIsPacked(g);
    GravityIsPacked(ClearAt(g, ps));
  }

  /** Two grids agreeing on column x have the same tiles there. */
  lemma {:induction false} ColumnStackUnchanged(a: Grid, b: Grid, x: int, y: int)
    requires 0 <= x < GridWidth && 0 <= y <= GridHeight
    requires forall r :: 0 <= r < GridHeight ==> a[r][x] == b[r][x]
    ensures Stack(a, x, y) == Stack(b, x, y)
    decreases GridHeight - y
  {
    if y < GridHeight {
      ColumnStackUnchanged(a, b, x, y + 1);
    }
  }

  /** Removing a word keeps, in each column, exactly the tiles not on the word, in order. */
  lemma RemovalKeepsOtherTiles(g: Grid, ps: seq<Position>, x: int)
    requires 0 <= x < GridWidth
    ensures Stack(Gravity(ClearAt(g, ps)), x, 0) == Stack(ClearAt(g, ps), x, 0)
    ensures forall i :: 0 <= i < |ps| && ps[i].x == x && 0 <= ps[i].y < GridHeight ==> ClearAt(g, ps)[ps[i].y][x].None?
  {
    GravityKeepsColumnTiles(ClearAt(g, ps), x);
  }
}
