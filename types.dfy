/**
 * The game's value types: positions, tiles, the 10x10 grid of optional
 * cells, word matches and scored words.
 */
module GameTypes {
  import opened GameConstants

  datatype Option<T> = None | Some(value: T)

  /** A grid coordinate; `y` grows downwards and may be negative above the field. */
  datatype Position = Position(x: int, y: int)

  /** The falling tile: one letter with its point value and colour. */
  datatype Block = Block(letter: char, value: int, color: string)

  /** A tile resting in the grid. */
  datatype Cell = Cell(letter: char, value: int, color: string)

  /** One grid row: GridWidth optional cells. */
  type Row = r: seq<Option<Cell>> | |r| == GridWidth witness seq(GridWidth, _ => None)

  /** The board: GridHeight rows, row 0 at the top. */
  type Grid = g: seq<Row> | |g| == GridHeight witness seq(GridHeight, _ => EmptyRow)

  /** A row with no tile. */
  const EmptyRow: Row := seq(GridWidth, _ => None)

  predicate InGrid(p: Position) {
    0 <= p.x < GridWidth && 0 <= p.y < GridHeight
  }

  datatype Direction = Horizontal | Vertical

  /** A detected word: its letters, the cells it covers (in letter order), and its base score. */
  datatype WordMatch = WordMatch(word: string, positions: seq<Position>, direction: Direction, score: int)

  /** A word match with the multipliers that were applied to it and its final score. */
  datatype ScoredWord = ScoredWord(
    wordMatch: WordMatch,
    finalScore: int,
    lengthBonus: real,
    levelMultiplier: int,
    comboMultiplier: Option<real>,
    chainMultiplier: Option<real>)
}
