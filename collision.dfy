/**
 * Collision tests: the on-board test, where a falling tile may be, and the
 * row a hard drop lands on.
 */
module Collision {
  import opened GameConstants
  import opened GameTypes

  /** `isValidPosition(p)`: p lies on the board. */
  predicate IsValidPosition(p: Position) {
    p.x >= 0 && p.x < GridWidth && p.y >= 0 && p.y < GridHeight
  }

  /**
   * `canPlaceBlock(p, grid)`: a column on the board and a row above the floor;
   * any row above the board is allowed, a row on the board must be empty there.
   */
  function CanPlaceBlock(p: Position, g: Grid): (ok: bool)
    ensures !(0 <= p.x < GridWidth) || p.y >= GridHeight ==> !ok
    ensures 0 <= p.x < GridWidth && p.y < 0 ==> ok
    ensures IsValidPosition(p) ==> (ok <==> g[p.y][p.x].None?)
  {
    if p.x < 0 || p.x >= GridWidth || p.y >= GridHeight then false
    else if p.y < 0 then true
    else g[p.y][p.x] == None
  }

  /** The row a tile at (x, y) comes to rest on when it keeps falling while the row below is free. */
  function DropRow(x: int, y: int, g: Grid): int
    decreases GridHeight - y
  {
    if CanPlaceBlock(Position(x, y + 1), g) then DropRow(x, y + 1, g) else y
  }

  /**
   * `getDropPosition(start, grid)`: moves down one row at a time while the row
   * below can hold the tile.
   */
  method GetDropPosition(start: Position, g: Grid) returns (r: Position)
    ensures r == Position(start.x, DropRow(start.x, start.y, g))
  {
    var dropY := start.y;
    while CanPlaceBlock(Position(start.x, dropY + 1), g)
      invariant DropRow(start.x, dropY, g) == DropRow(start.x, start.y, g)
      decreases GridHeight - dropY
    {
      dropY := dropY + 1;
    }
    r := Position(start.x, dropY);
  }

  /**
   * The hard-drop row is the first stop below the start: it is not above the
   * start, every row passed on the way is free, and the row under it is not.
   */
  lemma {:induction false} DropRowIsFirstStop(x: int, y: int, g: Grid)
    ensures DropRow(x, y, g) >= y
    ensures forall k :: y < k <= DropRow(x, y, g) ==> CanPlaceBlock(Position(x, k), g)
    ensures !CanPlaceBlock(Position(x, DropRow(x, y, g) + 1), g)
    decreases GridHeight - y
  {
    if CanPlaceBlock(Position(x, y + 1), g) {
      DropRowIsFirstStop(x, y + 1, g);
    }
  }

  /**
   * A tile dropped from a free cell of the board lands on the board, either on the floor or on top of a tile.
   */
  lemma DropLandsOnFloorOrTile(x: int, y: int, g: Grid)
    requires CanPlaceBlock(Position(x, y), g)
    requires y >= 0
    ensures 0 <= DropRow(x, y, g) < GridHeight
    ensures DropRow(x, y, g) == GridHeight - 1 || g[DropRow(x, y, g) + 1][x].Some?
  {
    DropRowIsFirstStop(x, y, g);
    var r := DropRow(x, y, g);
    assert CanPlaceBlock(Position(x, r), g);
  }
}
