/**
 * Word detection: every row left to right, then every column top to bottom,
 * is scanned for maximal runs of tiles; a run of three or more letters that
 * the dictionary accepts becomes a word match.
 *
 * A row and a column are both a `Line` of optional cells; the scan of a line
 * is the same for both directions, only the positions it reports differ.
 */
module WordFinder {
  import opened GameConstants
  import opened GameTypes
  import opened Dictionary
  import opened Score

  /** The letters of the run of tiles that ends just before index x, or "" when cell x - 1 is empty. */
  function RunWord(line: seq<Option<Cell>>, x: int): (w: string)
    requires 0 <= x <= |line|
    ensures |w| <= x
  {
    if x == 0 || line[x - 1].None? then "" else RunWord(line, x - 1) + [line[x - 1].value.letter]
  }

  /** Index x closes a run: the line ends there or the cell is empty. */
  predicate EndsRun(line: seq<Option<Cell>>, x: int)
    requires 0 <= x <= |line|
  {
    x == |line| || line[x].None?
  }

  /** A word is reported where a run closes, is three or more letters long, and is in the dictionary. */
  predicate EmitsAt(line: seq<Option<Cell>>, x: int, dict: Option<set<string>>)
    requires 0 <= x <= |line|
  {
    EndsRun(line, x) && |RunWord(line, x)| >= 3 && IsValidWord(dict, RunWord(line, x))
  }

  /** The cell k of line `fixed` in direction dir: column k of row `fixed`, or row k of column `fixed`. */
  function PosOf(dir: Direction, fixed: int, k: int): Position {
    if dir == Horizontal then Position(k, fixed) else Position(fixed, k)
  }

  /** The n consecutive cells of a line starting at index `start`. */
  function RunPositions(dir: Direction, fixed: int, start: int, n: nat): (ps: seq<Position>)
    ensures |ps| == n
    ensures forall i :: 0 <= i < n ==> ps[i] == PosOf(dir, fixed, start + i)
  {
    seq(n, i => PosOf(dir, fixed, start + i))
  }

  /** All positions lie on the board. */
  predicate AllInGrid(ps: seq<Position>) {
    forall i :: 0 <= i < |ps| ==> InGrid(ps[i])
  }

  /** A match's score: with the grid from before the lock, the premium score; otherwise calculateWordBaseScore. */
  function MatchScore(word: string, ps: seq<Position>, prior: Option<Grid>): int
    requires AllInGrid(ps)
  {
    if prior.Some? then LetterTotal(word, ps, prior.value, |ps|) * WordProduct(ps, prior.value, |ps|)
    else WordBaseScore(word)
  }

  /** The match for `word` laid along line `fixed` from index `start`, with its score. */
  function MatchOf(word: string, dir: Direction, fixed: int, start: int, prior: Option<Grid>): WordMatch
    requires 0 <= fixed < GridWidth && 0 <= start && start + |word| <= GridWidth
  {
    var ps := RunPositions(dir, fixed, start, |word|);
    WordMatch(word, ps, dir, MatchScore(word, ps, prior))
  }

  /** The match reported where the run closing at x ends. */
  function MatchAt(line: seq<Option<Cell>>, dir: Direction, fixed: int, x: int, prior: Option<Grid>): WordMatch
    requires |line| == GridWidth && 0 <= fixed < GridWidth && 0 <= x <= |line|
  {
    var w := RunWord(line, x);
    MatchOf(w, dir, fixed, x - |w|, prior)
  }

  /** The matches a scan of one line reports at indices below n, in order. */
  function LineMatches(line: seq<Option<Cell>>, dir: Direction, fixed: int, dict: Option<set<string>>, prior: Option<Grid>, n: nat): seq<WordMatch>
    requires |line| == GridWidth && 0 <= fixed < GridWidth && n <= |line| + 1
  {
    if n == 0 then []
    else
      var found := if EmitsAt(line, n - 1, dict) then [MatchAt(line, dir, fixed, n - 1, prior)] else [];
      LineMatches(line, dir, fixed, dict, prior, n - 1) + found
  }

  /** Column x, read top to bottom. */
  function Column(g: Grid, x: int): (col: seq<Option<Cell>>)
    requires 0 <= x < GridWidth
    ensures |col| == GridHeight
    ensures forall y :: 0 <= y < GridHeight ==> col[y] == g[y][x]
  {
    seq(GridHeight, y requires 0 <= y < GridHeight => g[y][x])
  }

  /** The matches of the first n rows. */
  function RowMatches(g: Grid, dict: Option<set<string>>, prior: Option<Grid>, n: nat): seq<WordMatch>
    requires n <= GridHeight
  {
    if n == 0 then [] else RowMatches(g, dict, prior, n - 1) + LineMatches(g[n - 1], Horizontal, n - 1, dict, prior, GridWidth + 1)
  }

  /** The matches of the first n columns. */
  function ColumnMatches(g: Grid, dict: Option<set<string>>, prior: Option<Grid>, n: nat): seq<WordMatch>
    requires n <= GridWidth
  {
    if n == 0 then [] else ColumnMatches(g, dict, prior, n - 1) + LineMatches(Column(g, n - 1), Vertical, n - 1, dict, prior, GridHeight + 1)
  }

  /** Every match of the grid: the rows top-down, then the columns left to right. */
  function FindWordsSpec(g: Grid, dict: Option<set<string>>, prior: Option<Grid>): seq<WordMatch> {
    RowMatches(g, dict, prior, GridHeight) + ColumnMatches(g, dict, prior, GridWidth)
  }

  /**
   * The scan of one line in `findWords`: walks the indices 0..|line|, reading
   * an empty cell past the end, extends the current word over tiles, and on
   * an empty cell reports the word when it is long enough and in the
   * dictionary, then starts over.
   */
  method ScanLine(line: seq<Option<Cell>>, dir: Direction, fixed: int, dict: Option<set<string>>, prior: Option<Grid>)
    returns (words: seq<WordMatch>)
    requires |line| == GridWidth && 0 <= fixed < GridWidth
    ensures words == LineMatches(line, dir, fixed, dict, prior, |line| + 1)
  {
    words := [];
    var currentWord: string := "";
    var start := 0;
    var x := 0;
    while x <= |line|
      invariant 0 <= x <= |line| + 1
      invariant x <= |line| ==> currentWord == RunWord(line, x)
      invariant x <= |line| && |currentWord| > 0 ==> start == x - |currentWord|
      invariant words == LineMatches(line, dir, fixed, dict, prior, x)
    {
      var cell := if x < |line| then line[x] else None;
      if cell.Some? {
        TileExtendsRun(line, dir, fixed, dict, prior, x);
        if currentWord == "" {
          start := x;
        }
        currentWord := currentWord + [cell.value.letter];
      } else {
        words := CloseRun(line, dir, fixed, dict, prior, x, words, currentWord, start);
        currentWord := "";
      }
      x := x + 1;
    }
  }

  /**
   * The empty-cell branch of the scan: the word of the run that closes at x
   * is appended when it has three or more letters and is in the dictionary.
   */
  method CloseRun(line: seq<Option<Cell>>, dir: Direction, fixed: int, dict: Option<set<string>>, prior: Option<Grid>,
                  x: int, words: seq<WordMatch>, currentWord: string, start: int)
    returns (r: seq<WordMatch>)
    requires |line| == GridWidth && 0 <= fixed < GridWidth && 0 <= x <= |line| && EndsRun(line, x)
    requires currentWord == RunWord(line, x) && (|currentWord| > 0 ==> start == x - |currentWord|)
    requires words == LineMatches(line, dir, fixed, dict, prior, x)
    ensures r == LineMatches(line, dir, fixed, dict, prior, x + 1)
    ensures x < |line| ==> RunWord(line, x + 1) == ""
  {
    RunEndReports(line, dir, fixed, dict, prior, x);
    r := words;
    if |currentWord| >= 3 && IsValidWord(dict, currentWord) {
      var m := BuildMatch(currentWord, dir, fixed, start, prior);
      r := words + [m];
    }
  }

  /** A tile at index x extends the current run by its letter and reports nothing. */
  lemma TileExtendsRun(line: seq<Option<Cell>>, dir: Direction, fixed: int, dict: Option<set<string>>, prior: Option<Grid>, x: int)
    requires |line| == GridWidth && 0 <= fixed < GridWidth && 0 <= x < |line| && line[x].Some?
    ensures LineMatches(line, dir, fixed, dict, prior, x + 1) == LineMatches(line, dir, fixed, dict, prior, x)
    ensures RunWord(line, x + 1) == RunWord(line, x) + [line[x].value.letter]
  {
  }

  /**
   * An empty cell or the end of the line at index x closes the run: its word
   * is reported, laid from where the run started, when it has three or more
   * letters and is in the dictionary; the next run starts empty.
   */
  lemma RunEndReports(line: seq<Option<Cell>>, dir: Direction, fixed: int, dict: Option<set<string>>, prior: Option<Grid>, x: int)
    requires |line| == GridWidth && 0 <= fixed < GridWidth && 0 <= x <= |line| && EndsRun(line, x)
    ensures var w := RunWord(line, x);
      LineMatches(line, dir, fixed, dict, prior, x + 1) == LineMatches(line, dir, fixed, dict, prior, x)
        + (if |w| >= 3 && IsValidWord(dict, w) then [MatchOf(w, dir, fixed, x - |w|, prior)] else [])
    ensures x < |line| ==> RunWord(line, x + 1) == ""
  {
  }

  /** The match for a word found at `start`: its positions along the line, and its score. */
  method BuildMatch(word: string, dir: Direction, fixed: int, start: int, prior: Option<Grid>) returns (m: WordMatch)
    requires 0 <= fixed < GridWidth && 0 <= start && start + |word| <= GridWidth
    ensures m == MatchOf(word, dir, fixed, start, prior)
  {
    var positions: seq<Position> := [];
    var i := 0;
    while i < |word|
      invariant 0 <= i <= |word|
      invariant positions == RunPositions(dir, fixed, start, i)
    {
      positions := positions + [PosOf(dir, fixed, start + i)];
      i := i + 1;
    }
    var score;
    if prior.Some? {
      var wordMultiplier;
      score, wordMultiplier := CalculateWordScoreWithPremiumSquares(word, positions, prior.value);
    } else {
      score := WordBaseScore(word);
    }
    m := WordMatch(word, positions, dir, score);
  }

  /** `findWords(grid, gridBeforeLock?)`, with the word set as input: rows first, then columns. */
  method FindWords(g: Grid, dict: Option<set<string>>, prior: Option<Grid>) returns (words: seq<WordMatch>)
    ensures words == FindWordsSpec(g, dict, prior)
  {
    words := [];
    var y := 0;
    while y < GridHeight
      invariant 0 <= y <= GridHeight
      invariant words == RowMatches(g, dict, prior, y)
    {
      var found := ScanLine(g[y], Horizontal, y, dict, prior);
      words := words + found;
      y := y + 1;
    }
    var x := 0;
    while x < GridWidth
      invariant 0 <= x <= GridWidth
      invariant words == RowMatches(g, dict, prior, GridHeight) + ColumnMatches(g, dict, prior, x)
    {
      var found := ScanLine(Column(g, x), Vertical, x, dict, prior);
      words := words + found;
      x := x + 1;
    }
  }

  // ---------------------------------------------------------------------------
  // What a reported match is
  // ---------------------------------------------------------------------------

  /** The index where the run ending before x starts. */
  function RunStart(line: seq<Option<Cell>>, x: int): (s: int)
    requires 0 <= x <= |line|
    ensures 0 <= s <= x
  {
    x - |RunWord(line, x)|
  }

  /**
   * The run ending before x: its cells are tiles spelling the word in order,
   * and the cell before its first letter is empty or off the line.
   */
  lemma {:induction false} RunWordSpellsCells(line: seq<Option<Cell>>, x: int)
    requires 0 <= x <= |line|
    ensures forall k :: RunStart(line, x) <= k < x ==> line[k].Some?
    ensures forall i :: 0 <= i < |RunWord(line, x)| ==>
      line[RunStart(line, x) + i].Some? && line[RunStart(line, x) + i].value.letter == RunWord(line, x)[i]
    ensures RunStart(line, x) == 0 || line[RunStart(line, x) - 1].None?
    decreases x
  {
    if x > 0 && line[x - 1].Some? {
      RunWordSpellsCells(line, x - 1);
      assert RunStart(line, x) == RunStart(line, x - 1);
      assert RunWord(line, x) == RunWord(line, x - 1) + [line[x - 1].value.letter];
    }
  }

  /** The run ending before x is every tile back to the first empty cell: a run of tiles [s, x) preceded by an empty cell or the line start has exactly those letters. */
  lemma {:induction false} RunWordOfMaximalRun(line: seq<Option<Cell>>, s: int, x: int)
    requires 0 <= s <= x <= |line|
    requires forall k :: s <= k < x ==> line[k].Some?
    requires s == 0 || line[s - 1].None?
    ensures |RunWord(line, x)| == x - s
    decreases x
  {
    if x > s {
      RunWordOfMaximalRun(line, s, x - 1);
    }
  }

  /** A cell of a line is the grid cell at the position reported for it. */
  predicate LineOf(g: Grid, line: seq<Option<Cell>>, dir: Direction, fixed: int)
    requires 0 <= fixed < GridWidth
  {
    |line| == GridWidth &&
    forall k :: 0 <= k < |line| ==> InGrid(PosOf(dir, fixed, k)) && line[k] == g[PosOf(dir, fixed, k).y][PosOf(dir, fixed, k).x]
  }

  /** The cell of the grid at p. */
  function CellAt(g: Grid, p: Position): Option<Cell>
    requires InGrid(p)
  {
    g[p.y][p.x]
  }

  /** The position d steps along direction dir from p. */
  function Step(dir: Direction, p: Position, d: int): Position {
    if dir == Horizontal then Position(p.x + d, p.y) else Position(p.x, p.y + d)
  }

  /** A cell position outside the board or holding no tile. */
  predicate OpenAt(g: Grid, p: Position) {
    !InGrid(p) || CellAt(g, p).None?
  }

  /**
   * What every match of findWords is: at least three letters, accepted by
   * the dictionary, laid on consecutive cells of one row or column whose
   * tiles spell the word, bounded on both sides by an empty cell or the
   * edge, and scored with calculateWordBaseScore when no earlier grid is
   * given.
   */
  predicate WellFormedMatch(g: Grid, dict: Option<set<string>>, prior: Option<Grid>, m: WordMatch) {
    |m.word| >= 3 && IsValidWord(dict, m.word)
    && SpellsOnGrid(g, m) && BoundedOnGrid(g, m)
    && (prior.None? ==> m.score == WordBaseScore(m.word))
  }

  /** The positions are consecutive cells along the match's direction, holding tiles that spell the word. */
  predicate SpellsOnGrid(g: Grid, m: WordMatch) {
    |m.positions| == |m.word|
    && (forall i :: 0 <= i < |m.positions| ==> m.positions[i] == Step(m.direction, m.positions[0], i))
    && (forall i :: 0 <= i < |m.positions| ==>
          (InGrid(m.positions[i]) && CellAt(g, m.positions[i]).Some? && CellAt(g, m.positions[i]).value.letter == m.word[i]))
  }

  /** The cells just before the first and just after the last position are empty or off the board. */
  predicate BoundedOnGrid(g: Grid, m: WordMatch) {
    |m.positions| > 0
    && OpenAt(g, Step(m.direction, m.positions[0], -1))
    && OpenAt(g, Step(m.direction, m.positions[0], |m.positions|))
  }

  /** The match closing at x lies on the line's cells [RunStart, x), one step apart, and they spell its word. */
  lemma MatchAtSpells(g: Grid, line: seq<Option<Cell>>, dir: Direction, fixed: int, prior: Option<Grid>, x: int)
    requires 0 <= fixed < GridWidth && LineOf(g, line, dir, fixed) && 0 <= x <= |line|
    ensures SpellsOnGrid(g, MatchAt(line, dir, fixed, x, prior))
    ensures |RunWord(line, x)| > 0 ==> MatchAt(line, dir, fixed, x, prior).positions[0] == PosOf(dir, fixed, RunStart(line, x))
  {
    var m := MatchAt(line, dir, fixed, x, prior);
    var w := RunWord(line, x);
    var ps := RunPositions(dir, fixed, RunStart(line, x), |w|);
    assert m == WordMatch(w, ps, dir, m.score);
    RunPositionsSpell(g, line, dir, fixed, x, m.score);
    if |w| > 0 {
      assert ps[0] == PosOf(dir, fixed, RunStart(line, x) + 0);
    }
  }

  /** The positions of the run closing at x are one step apart along the line, on the board, and hold its letters. */
  lemma RunPositionsSpell(g: Grid, line: seq<Option<Cell>>, dir: Direction, fixed: int, x: int, score: int)
    requires 0 <= fixed < GridWidth && LineOf(g, line, dir, fixed) && 0 <= x <= |line|
    ensures SpellsOnGrid(g, WordMatch(RunWord(line, x), RunPositions(dir, fixed, RunStart(line, x), |RunWord(line, x)|), dir, score))
  {
    var w := RunWord(line, x);
    var s := RunStart(line, x);
    var ps := RunPositions(dir, fixed, s, |w|);
    RunWordSpellsCells(line, x);
    forall i | 0 <= i < |ps|
      ensures ps[i] == Step(dir, ps[0], i)
      ensures InGrid(ps[i]) && CellAt(g, ps[i]) == line[s + i]
    {
      assert ps[i] == PosOf(dir, fixed, s + i);
    }
  }

  /** The cells just before and just after the match closing at x are open. */
  lemma MatchAtIsMaximal(g: Grid, line: seq<Option<Cell>>, dir: Direction, fixed: int, prior: Option<Grid>, x: int)
    requires 0 <= fixed < GridWidth && LineOf(g, line, dir, fixed) && 0 <= x <= |line| && EndsRun(line, x)
    requires |RunWord(line, x)| > 0
    ensures BoundedOnGrid(g, MatchAt(line, dir, fixed, x, prior))
  {
    RunWordSpellsCells(line, x);
    var s := RunStart(line, x);
    var m := MatchAt(line, dir, fixed, x, prior);
    assert m.positions[0] == PosOf(dir, fixed, s);
    if s > 0 {
      assert Step(dir, PosOf(dir, fixed, s), -1) == PosOf(dir, fixed, s - 1);
    }
    if x < |line| {
      assert Step(dir, PosOf(dir, fixed, s), x - s) == PosOf(dir, fixed, x);
    }
  }

  lemma MatchAtIsWellFormed(g: Grid, line: seq<Option<Cell>>, dir: Direction, fixed: int, dict: Option<set<string>>, prior: Option<Grid>, x: int)
    requires 0 <= fixed < GridWidth && LineOf(g, line, dir, fixed)
    requires 0 <= x <= |line| && EmitsAt(line, x, dict)
    ensures WellFormedMatch(g, dict, prior, MatchAt(line, dir, fixed, x, prior))
  {
    MatchAtSpells(g, line, dir, fixed, prior, x);
    MatchAtIsMaximal(g, line, dir, fixed, prior, x);
  }

  /** Every match of one line's scan is the match closing at some index below n. */
  lemma {:induction false} LineMatchesAreEmitted(line: seq<Option<Cell>>, dir: Direction, fixed: int, dict: Option<set<string>>, prior: Option<Grid>, n: nat, m: WordMatch)
    requires |line| == GridWidth && 0 <= fixed < GridWidth && n <= |line| + 1
    requires m in LineMatches(line, dir, fixed, dict, prior, n)
    ensures exists x :: 0 <= x < n && EmitsAt(line, x, dict) && m == MatchAt(line, dir, fixed, x, prior)
  {
    if m !in LineMatches(line, dir, fixed, dict, prior, n - 1) {
      assert EmitsAt(line, n - 1, dict) && m == MatchAt(line, dir, fixed, n - 1, prior);
    } else {
      LineMatchesAreEmitted(line, dir, fixed, dict, prior, n - 1, m);
    }
  }

  /** Row y is the line of direction Horizontal at `fixed` y; column x the line of direction Vertical at x. */
  lemma RowsAndColumnsAreLines(g: Grid, k: int)
    requires 0 <= k < GridWidth
    ensures LineOf(g, g[k], Horizontal, k)
    ensures LineOf(g, Column(g, k), Vertical, k)
  {
  }

  lemma {:induction false} RowMatchesWellFormed(g: Grid, dict: Option<set<string>>, prior: Option<Grid>, n: nat, m: WordMatch)
    requires n <= GridHeight && m in RowMatches(g, dict, prior, n)
    ensures WellFormedMatch(g, dict, prior, m)
  {
    if m in RowMatches(g, dict, prior, n - 1) {
      RowMatchesWellFormed(g, dict, prior, n - 1, m);
    } else {
      RowsAndColumnsAreLines(g, n - 1);
      LineMatchWellFormed(g, g[n - 1], Horizontal, n - 1, dict, prior, m);
    }
  }

  /** Every match of the scan of a line of the grid is well formed. */
  lemma LineMatchWellFormed(g: Grid, line: seq<Option<Cell>>, dir: Direction, fixed: int, dict: Option<set<string>>, prior: Option<Grid>, m: WordMatch)
    requires 0 <= fixed < GridWidth && LineOf(g, line, dir, fixed)
    requires m in LineMatches(line, dir, fixed, dict, prior, |line| + 1)
    ensures WellFormedMatch(g, dict, prior, m)
  {
    LineMatchesAreEmitted(line, dir, fixed, dict, prior, |line| + 1, m);
    var x :| 0 <= x < |line| + 1 && EmitsAt(line, x, dict) && m == MatchAt(line, dir, fixed, x, prior);
    MatchAtIsWellFormed(g, line, dir, fixed, dict, prior, x);
  }

  lemma {:induction false} ColumnMatchesWellFormed(g: Grid, dict: Option<set<string>>, prior: Option<Grid>, n: nat, m: WordMatch)
    requires n <= GridWidth && m in ColumnMatches(g, dict, prior, n)
    ensures WellFormedMatch(g, dict, prior, m)
  {
    if m in ColumnMatches(g, dict, prior, n - 1) {
      ColumnMatchesWellFormed(g, dict, prior, n - 1, m);
    } else {
      RowsAndColumnsAreLines(g, n - 1);
      LineMatchWellFormed(g, Column(g, n - 1), Vertical, n - 1, dict, prior, m);
    }
  }

  /** Soundness of findWords: every reported match is a well-formed word of the grid. */
  lemma FindWordsSound(g: Grid, dict: Option<set<string>>, prior: Option<Grid>, m: WordMatch)
    requires m in FindWordsSpec(g, dict, prior)
    ensures WellFormedMatch(g, dict, prior, m)
  {
    if m in RowMatches(g, dict, prior, GridHeight) {
      RowMatchesWellFormed(g, dict, prior, GridHeight, m);
    } else {
      ColumnMatchesWellFormed(g, dict, prior, GridWidth, m);
    }
  }

  // ---------------------------------------------------------------------------
  // Completeness
  // ---------------------------------------------------------------------------

  /** A line's scan reports the match closing at every index below n where a word closes. */
  lemma {:induction false} EmittedIsInLineMatches(line: seq<Option<Cell>>, dir: Direction, fixed: int, dict: Option<set<string>>, prior: Option<Grid>, n: nat, x: int)
    requires |line| == GridWidth && 0 <= fixed < GridWidth && n <= |line| + 1
    requires 0 <= x < n && EmitsAt(line, x, dict)
    ensures MatchAt(line, dir, fixed, x, prior) in LineMatches(line, dir, fixed, dict, prior, n)
  {
    if x < n - 1 {
      EmittedIsInLineMatches(line, dir, fixed, dict, prior, n - 1, x);
    }
  }

  lemma {:induction false} RowMatchesContainRow(g: Grid, dict: Option<set<string>>, prior: Option<Grid>, n: nat, y: int, m: WordMatch)
    requires 0 <= y < n <= GridHeight
    requires m in LineMatches(g[y], Horizontal, y, dict, prior, GridWidth + 1)
    ensures m in RowMatches(g, dict, prior, n)
  {
    if y < n - 1 {
      RowMatchesContainRow(g, dict, prior, n - 1, y, m);
    }
  }

  lemma {:induction false} ColumnMatchesContainColumn(g: Grid, dict: Option<set<string>>, prior: Option<Grid>, n: nat, x: int, m: WordMatch)
    requires 0 <= x < n <= GridWidth
    requires m in LineMatches(Column(g, x), Vertical, x, dict, prior, GridHeight + 1)
    ensures m in ColumnMatches(g, dict, prior, n)
  {
    if x < n - 1 {
      ColumnMatchesContainColumn(g, dict, prior, n - 1, x, m);
    }
  }

  /** The letters of the tiles at indices [s, e) of a line. */
  function Letters(line: seq<Option<Cell>>, s: int, e: int): (w: string)
    requires 0 <= s <= e <= |line|
    requires forall k :: s <= k < e ==> line[k].Some?
    ensures |w| == e - s
  {
    seq(e - s, i requires 0 <= i < e - s => line[s + i].value.letter)
  }

  /** A maximal run of tiles [s, e) of a line, at least three long and accepted by the dictionary. */
  predicate WordRun(line: seq<Option<Cell>>, dict: Option<set<string>>, s: int, e: int) {
    0 <= s && s + 3 <= e <= |line|
    && (forall k :: s <= k < e ==> line[k].Some?)
    && (s == 0 || line[s - 1].None?)
    && (e == |line| || line[e].None?)
    && IsValidWord(dict, Letters(line, s, e))
  }

  /** A word run closes at its end index, where the scan reports it. */
  lemma WordRunIsEmitted(line: seq<Option<Cell>>, dict: Option<set<string>>, s: int, e: int)
    requires WordRun(line, dict, s, e)
    ensures EmitsAt(line, e, dict) && RunWord(line, e) == Letters(line, s, e)
  {
    RunWordOfMaximalRun(line, s, e);
    RunWordSpellsCells(line, e);
    assert RunWord(line, e) == Letters(line, s, e);
  }

  /**
   * Completeness of findWords for rows: every maximal run of three or more
   * tiles in a row that the dictionary accepts is reported, as a horizontal
   * match on exactly those cells.
   */
  lemma FindWordsCompleteRows(g: Grid, dict: Option<set<string>>, prior: Option<Grid>, y: int, s: int, e: int)
    requires 0 <= y < GridHeight && WordRun(g[y], dict, s, e)
    ensures exists m :: (m in FindWordsSpec(g, dict, prior) && m.direction == Horizontal
      && m.word == Letters(g[y], s, e) && m.positions == RunPositions(Horizontal, y, s, e - s))
  {
    WordRunIsEmitted(g[y], dict, s, e);
    var m := MatchAt(g[y], Horizontal, y, e, prior);
    EmittedIsInLineMatches(g[y], Horizontal, y, dict, prior, GridWidth + 1, e);
    RowMatchesContainRow(g, dict, prior, GridHeight, y, m);
    assert m in FindWordsSpec(g, dict, prior);
  }

  /** Completeness of findWords for columns, read top to bottom. */
  lemma FindWordsCompleteColumns(g: Grid, dict: Option<set<string>>, prior: Option<Grid>, x: int, s: int, e: int)
    requires 0 <= x < GridWidth && WordRun(Column(g, x), dict, s, e)
    ensures exists m :: (m in FindWordsSpec(g, dict, prior) && m.direction == Vertical
      && m.word == Letters(Column(g, x), s, e) && m.positions == RunPositions(Vertical, x, s, e - s))
  {
    var col := Column(g, x);
    WordRunIsEmitted(col, dict, s, e);
    var m := MatchAt(col, Vertical, x, e, prior);
    EmittedIsInLineMatches(col, Vertical, x, dict, prior, GridHeight + 1, e);
    ColumnMatchesContainColumn(g, dict, prior, GridWidth, x, m);
    assert m in FindWordsSpec(g, dict, prior);
  }

  // ---------------------------------------------------------------------------
  // The grid from before the lock only changes scores
  // ---------------------------------------------------------------------------

  /** Two match lists that agree on everything except the scores. */
  predicate SameWords(a: seq<WordMatch>, b: seq<WordMatch>) {
    |a| == |b| && forall i :: 0 <= i < |a| ==>
      a[i].word == b[i].word && a[i].positions == b[i].positions && a[i].direction == b[i].direction
  }

  lemma {:induction false} LineMatchesSameWords(line: seq<Option<Cell>>, dir: Direction, fixed: int, dict: Option<set<string>>, p1: Option<Grid>, p2: Option<Grid>, n: nat)
    requires |line| == GridWidth && 0 <= fixed < GridWidth && n <= |line| + 1
    ensures SameWords(LineMatches(line, dir, fixed, dict, p1, n), LineMatches(line, dir, fixed, dict, p2, n))
  {
    if n > 0 {
      LineMatchesSameWords(line, dir, fixed, dict, p1, p2, n - 1);
    }
  }

  lemma SameWordsConcat(a1: seq<WordMatch>, b1: seq<WordMatch>, a2: seq<WordMatch>, b2: seq<WordMatch>)
    requires SameWords(a1, b1) && SameWords(a2, b2)
    ensures SameWords(a1 + a2, b1 + b2)
  {
    forall i | 0 <= i < |a1 + a2|
      ensures (a1 + a2)[i].word == (b1 + b2)[i].word && (a1 + a2)[i].positions == (b1 + b2)[i].positions
        && (a1 + a2)[i].direction == (b1 + b2)[i].direction
    {
      if i >= |a1| {
        assert (a1 + a2)[i] == a2[i - |a1|] && (b1 + b2)[i] == b2[i - |a1|];
      }
    }
  }

  lemma {:induction false} RowMatchesSameWords(g: Grid, dict: Option<set<string>>, p1: Option<Grid>, p2: Option<Grid>, n: nat)
    requires n <= GridHeight
    ensures SameWords(RowMatches(g, dict, p1, n), RowMatches(g, dict, p2, n))
  {
    if n > 0 {
      RowMatchesSameWords(g, dict, p1, p2, n - 1);
      LineMatchesSameWords(g[n - 1], Horizontal, n - 1, dict, p1, p2, GridWidth + 1);
      SameWordsConcat(RowMatches(g, dict, p1, n - 1), RowMatches(g, dict, p2, n - 1),
        LineMatches(g[n - 1], Horizontal, n - 1, dict, p1, GridWidth + 1),
        LineMatches(g[n - 1], Horizontal, n - 1, dict, p2, GridWidth + 1));
    }
  }

  lemma {:induction false} ColumnMatchesSameWords(g: Grid, dict: Option<set<string>>, p1: Option<Grid>, p2: Option<Grid>, n: nat)
    requires n <= GridWidth
    ensures SameWords(ColumnMatches(g, dict, p1, n), ColumnMatches(g, dict, p2, n))
  {
    if n > 0 {
      ColumnMatchesSameWords(g, dict, p1, p2, n - 1);
      LineMatchesSameWords(Column(g, n - 1), Vertical, n - 1, dict, p1, p2, GridHeight + 1);
      SameWordsConcat(ColumnMatches(g, dict, p1, n - 1), ColumnMatches(g, dict, p2, n - 1),
        LineMatches(Column(g, n - 1), Vertical, n - 1, dict, p1, GridHeight + 1),
        LineMatches(Column(g, n - 1), Vertical, n - 1, dict, p2, GridHeight + 1));
    }
  }

  /**
   * The grid from before the lock changes only the scores: with or without
   * it, findWords reports the same words on the same cells in the same order.
   */
  lemma PriorGridOnlyChangesScores(g: Grid, dict: Option<set<string>>, p1: Option<Grid>, p2: Option<Grid>)
    ensures SameWords(FindWordsSpec(g, dict, p1), FindWordsSpec(g, dict, p2))
  {
    RowMatchesSameWords(g, dict, p1, p2, GridHeight);
    ColumnMatchesSameWords(g, dict, p1, p2, GridWidth);
    SameWordsConcat(RowMatches(g, dict, p1, GridHeight), RowMatches(g, dict, p2, GridHeight),
      ColumnMatches(g, dict, p1, GridWidth), ColumnMatches(g, dict, p2, GridWidth));
  }

  /** Before the word list is loaded nothing is found. */
  lemma NothingFoundBeforeLoading(g: Grid, prior: Option<Grid>)
    ensures FindWordsSpec(g, None, prior) == []
  {
    NoLineMatchesBeforeLoading(g, prior, GridHeight, GridWidth);
  }

  lemma {:induction false} NoLineMatchesBeforeLoading(g: Grid, prior: Option<Grid>, rows: nat, cols: nat)
    requires rows <= GridHeight && cols <= GridWidth
    ensures RowMatches(g, None, prior, rows) == [] && ColumnMatches(g, None, prior, cols) == []
  {
    if rows > 0 {
      NoLineMatchesBeforeLoading(g, prior, rows - 1, cols);
      NoLineMatchWithoutDictionary(g[rows - 1], Horizontal, rows - 1, prior, GridWidth + 1);
    }
    if cols > 0 {
      NoLineMatchesBeforeLoading(g, prior, rows, cols - 1);
      NoLineMatchWithoutDictionary(Column(g, cols - 1), Vertical, cols - 1, prior, GridHeight + 1);
    }
  }

  lemma {:induction false} NoLineMatchWithoutDictionary(line: seq<Option<Cell>>, dir: Direction, fixed: int, prior: Option<Grid>, n: nat)
    requires |line| == GridWidth && 0 <= fixed < GridWidth && n <= |line| + 1
    ensures LineMatches(line, dir, fixed, None, prior, n) == []
  {
    if n > 0 {
      NoLineMatchWithoutDictionary(line, dir, fixed, prior, n - 1);
    }
  }

  // ---------------------------------------------------------------------------
  // Order
  // ---------------------------------------------------------------------------

  /** Where a match sits in the scan: its line (rows 0..9, then columns as 10..19) and its first cell along that line. */
  function ScanRank(m: WordMatch): int {
    if |m.positions| == 0 then 0
    else if m.direction == Horizontal then m.positions[0].y * 20 + m.positions[0].x
    else (GridHeight + m.positions[0].x) * 20 + m.positions[0].y
  }

  /** Strictly ordered by scan rank. */
  predicate InScanOrder(ms: seq<WordMatch>) {
    forall i, j :: 0 <= i < j < |ms| ==> ScanRank(ms[i]) < ScanRank(ms[j])
  }

  /** The start of the run closing at x: after every empty cell before x. */
  lemma RunStartsAfterEmptyCells(line: seq<Option<Cell>>, x: int, k: int)
    requires 0 <= k < x <= |line| && line[k].None?
    ensures x - |RunWord(line, x)| > k
  {
    RunWordSpellsCells(line, x);
  }

  /** A match reported before index x starts before the run that closes at x. */
  lemma EarlierMatchStartsBefore(line: seq<Option<Cell>>, dir: Direction, fixed: int, dict: Option<set<string>>, prior: Option<Grid>, x: nat, m: WordMatch)
    requires |line| == GridWidth && 0 <= fixed < GridWidth && x <= |line|
    requires m in LineMatches(line, dir, fixed, dict, prior, x)
    ensures StartOf(m) < RunStart(line, x)
  {
    LineMatchesAreEmitted(line, dir, fixed, dict, prior, x, m);
    var k :| 0 <= k < x && EmitsAt(line, k, dict) && m == MatchAt(line, dir, fixed, k, prior);
    StartOfMatchAt(line, dir, fixed, k, prior);
    RunStartsAfterEmptyCells(line, x, k);
  }

  /** Within one line, matches come in order of their first cell, each starting after the previous one ended. */
  lemma {:induction false} LineMatchesOrdered(line: seq<Option<Cell>>, dir: Direction, fixed: int, dict: Option<set<string>>, prior: Option<Grid>, n: nat)
    requires |line| == GridWidth && 0 <= fixed < GridWidth && n <= |line| + 1
    ensures forall i :: 0 <= i < |LineMatches(line, dir, fixed, dict, prior, n)| ==>
      StartOf(LineMatches(line, dir, fixed, dict, prior, n)[i]) < n
    ensures forall i, j :: 0 <= i < j < |LineMatches(line, dir, fixed, dict, prior, n)| ==>
      StartOf(LineMatches(line, dir, fixed, dict, prior, n)[i]) < StartOf(LineMatches(line, dir, fixed, dict, prior, n)[j])
  {
    if n > 0 {
      LineMatchesOrdered(line, dir, fixed, dict, prior, n - 1);
      var prev := LineMatches(line, dir, fixed, dict, prior, n - 1);
      var ms := LineMatches(line, dir, fixed, dict, prior, n);
      if EmitsAt(line, n - 1, dict) {
        var last := MatchAt(line, dir, fixed, n - 1, prior);
        assert ms == prev + [last];
        StartOfMatchAt(line, dir, fixed, n - 1, prior);
        forall i | 0 <= i < |prev|
          ensures StartOf(prev[i]) < StartOf(last)
        {
          assert prev[i] in prev;
          EarlierMatchStartsBefore(line, dir, fixed, dict, prior, n - 1, prev[i]);
        }
      } else {
        assert ms == prev;
      }
    }
  }

  /** The match closing at x starts where its run starts, and lies along the line. */
  lemma StartOfMatchAt(line: seq<Option<Cell>>, dir: Direction, fixed: int, x: int, prior: Option<Grid>)
    requires |line| == GridWidth && 0 <= fixed < GridWidth && 0 <= x <= |line|
    requires |RunWord(line, x)| > 0
    ensures var m := MatchAt(line, dir, fixed, x, prior);
      m.direction == dir && |m.positions| == |RunWord(line, x)|
      && StartOf(m) == RunStart(line, x) && m.positions[0] == PosOf(dir, fixed, RunStart(line, x))
  {
    var m := MatchAt(line, dir, fixed, x, prior);
    var ps := RunPositions(dir, fixed, RunStart(line, x), |RunWord(line, x)|);
    assert m.positions == ps && m.direction == dir;
    assert ps[0] == PosOf(dir, fixed, RunStart(line, x) + 0);
  }

  /** The index along its line of a match's first cell. */
  function StartOf(m: WordMatch): int {
    if |m.positions| == 0 then 0
    else if m.direction == Horizontal then m.positions[0].x
    else m.positions[0].y
  }

  /** A match of one line's scan lies on that line, starts at index StartOf, at most GridWidth - 3, and has three or more cells. */
  lemma LineMatchShape(line: seq<Option<Cell>>, dir: Direction, fixed: int, dict: Option<set<string>>, prior: Option<Grid>, n: nat, m: WordMatch)
    requires |line| == GridWidth && 0 <= fixed < GridWidth && n <= |line| + 1
    requires m in LineMatches(line, dir, fixed, dict, prior, n)
    ensures m.direction == dir && |m.positions| >= 3
    ensures m.positions[0] == PosOf(dir, fixed, StartOf(m)) && 0 <= StartOf(m) <= GridWidth - 3
  {
    LineMatchesAreEmitted(line, dir, fixed, dict, prior, n, m);
    var x :| 0 <= x < n && EmitsAt(line, x, dict) && m == MatchAt(line, dir, fixed, x, prior);
    StartOfMatchAt(line, dir, fixed, x, prior);
  }

  /** The scan rank of a line: rows 0..9, then columns as 10..19. */
  function LineRank(dir: Direction, fixed: int): int {
    if dir == Horizontal then fixed else GridHeight + fixed
  }

  /** The matches of one full line are in scan order, with ranks inside that line's band of 20. */
  lemma LineMatchesInOrder(line: seq<Option<Cell>>, dir: Direction, fixed: int, dict: Option<set<string>>, prior: Option<Grid>)
    requires |line| == GridWidth && 0 <= fixed < GridWidth
    ensures var ms := LineMatches(line, dir, fixed, dict, prior, |line| + 1);
      InScanOrder(ms) &&
      forall i :: 0 <= i < |ms| ==> LineRank(dir, fixed) * 20 <= ScanRank(ms[i]) < LineRank(dir, fixed) * 20 + 20
  {
    var ms := LineMatches(line, dir, fixed, dict, prior, |line| + 1);
    LineMatchesOrdered(line, dir, fixed, dict, prior, |line| + 1);
    forall i | 0 <= i < |ms|
      ensures ScanRank(ms[i]) == LineRank(dir, fixed) * 20 + StartOf(ms[i]) && 0 <= StartOf(ms[i]) < 20
    {
      LineMatchShape(line, dir, fixed, dict, prior, |line| + 1, ms[i]);
    }
  }

  /** Two lists in scan order, every rank of the first below every rank of the second, stay in scan order when joined. */
  lemma ConcatInScanOrder(a: seq<WordMatch>, b: seq<WordMatch>, bound: int)
    requires InScanOrder(a) && InScanOrder(b)
    requires forall i :: 0 <= i < |a| ==> ScanRank(a[i]) < bound
    requires forall i :: 0 <= i < |b| ==> bound <= ScanRank(b[i])
    ensures InScanOrder(a + b)
  {
    var c := a + b;
    forall i, j | 0 <= i < j < |c|
      ensures ScanRank(c[i]) < ScanRank(c[j])
    {
      if j < |a| {
        assert c[i] == a[i] && c[j] == a[j];
      } else if i >= |a| {
        assert c[i] == b[i - |a|] && c[j] == b[j - |a|];
      } else {
        assert c[i] == a[i] && c[j] == b[j - |a|];
      }
    }
  }

  lemma {:induction false} RowMatchesInOrder(g: Grid, dict: Option<set<string>>, prior: Option<Grid>, n: nat)
    requires n <= GridHeight
    ensures InScanOrder(RowMatches(g, dict, prior, n))
    ensures forall i :: 0 <= i < |RowMatches(g, dict, prior, n)| ==> 0 <= ScanRank(RowMatches(g, dict, prior, n)[i]) < n * 20
  {
    if n > 0 {
      RowMatchesInOrder(g, dict, prior, n - 1);
      var a := RowMatches(g, dict, prior, n - 1);
      var b := LineMatches(g[n - 1], Horizontal, n - 1, dict, prior, GridWidth + 1);
      LineMatchesInOrder(g[n - 1], Horizontal, n - 1, dict, prior);
      ConcatInScanOrder(a, b, (n - 1) * 20);
      var c := RowMatches(g, dict, prior, n);
      assert c == a + b;
      forall i | 0 <= i < |c|
        ensures 0 <= ScanRank(c[i]) < n * 20
      {
        if i >= |a| {
          assert c[i] == b[i - |a|];
        }
      }
    }
  }

  lemma {:induction false} ColumnMatchesInOrder(g: Grid, dict: Option<set<string>>, prior: Option<Grid>, n: nat)
    requires n <= GridWidth
    ensures InScanOrder(ColumnMatches(g, dict, prior, n))
    ensures forall i :: 0 <= i < |ColumnMatches(g, dict, prior, n)| ==>
      GridHeight * 20 <= ScanRank(ColumnMatches(g, dict, prior, n)[i]) < (GridHeight + n) * 20
  {
    if n > 0 {
      ColumnMatchesInOrder(g, dict, prior, n - 1);
      var a := ColumnMatches(g, dict, prior, n - 1);
      var b := LineMatches(Column(g, n - 1), Vertical, n - 1, dict, prior, GridHeight + 1);
      LineMatchesInOrder(Column(g, n - 1), Vertical, n - 1, dict, prior);
      ConcatInScanOrder(a, b, (GridHeight + n - 1) * 20);
      var c := ColumnMatches(g, dict, prior, n);
      assert c == a + b;
      forall i | 0 <= i < |c|
        ensures GridHeight * 20 <= ScanRank(c[i]) < (GridHeight + n) * 20
      {
        if i >= |a| {
          assert c[i] == b[i - |a|];
        }
      }
    }
  }

  /**
   * The output order of findWords: every horizontal match before every
   * vertical one, rows top-down and columns left to right, and within a line
   * by the index of the first cell.
   */
  lemma FindWordsInScanOrder(g: Grid, dict: Option<set<string>>, prior: Option<Grid>)
    ensures InScanOrder(FindWordsSpec(g, dict, prior))
  {
    RowMatchesInOrder(g, dict, prior, GridHeight);
    ColumnMatchesInOrder(g, dict, prior, GridWidth);
    ConcatInScanOrder(RowMatches(g, dict, prior, GridHeight), ColumnMatches(g, dict, prior, GridWidth), GridHeight * 20);
  }
}
