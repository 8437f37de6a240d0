/**
 * The game session as a state machine: each store action is a function from
 * the state before to the state after. The store class in module
 * GameSession runs these steps in place; the lemmas here say what the steps
 * promise.
 *
 * Inputs from outside the store are parameters: `u` is the value
 * `Math.random()` yields for a new tile, `dict` the dictionary's word set
 * (None until it is loaded). Timers are events: a scheduled lock-delay
 * timeout is the flag `lockDelayTimer`, and its firing is `LockDelayExpired`.
 * The cascade after a word runs to its end in one step, without the
 * animation pauses between words.
 */
module StoreTransitions {
  import opened GameConstants
  import opened GameTypes
  import opened GridOps
  import opened Collision
  import Score
  import opened Letters
  import opened WordFinder
  import opened WordSelection
  import Gravity

  /**
   * The persisted fields of the store. `lockDelayTimer` records whether a
   * lock-delay timeout is scheduled (the timer handle is not null).
   */
  datatype GameState = GameState(
    grid: Grid,
    currentBlock: Option<Block>,
    currentPosition: Position,
    nextBlocks: seq<Block>,
    score: int,
    level: int,
    wordsFormed: int,
    isPlaying: bool,
    isPaused: bool,
    isGameOver: bool,
    highScore: int,
    recentWords: seq<ScoredWord>,
    currentChain: int,
    lockDelayActive: bool,
    lockDelayTimer: bool)

  /** Where every new tile appears. */
  const SpawnPosition: Position := Position(4, 0)

  /** The longest cascade: chain levels run from 0 up to this. */
  const MaxChainLevel: nat := 10

  /** One new tile per random number, in order. */
  function NewBlocks(us: seq<real>): (bs: seq<Block>)
    ensures |bs| == |us|
  {
    if |us| == 0 then [] else NewBlocks(us[..|us| - 1]) + [NewBlock(us[|us| - 1])]
  }

  /** The i-th new tile is drawn from the i-th random number. */
  lemma {:induction false} NewBlocksAt(us: seq<real>, i: int)
    requires 0 <= i < |us|
    ensures NewBlocks(us)[i] == NewBlock(us[i])
  {
    if i < |us| - 1 {
      NewBlocksAt(us[..|us| - 1], i);
    }
  }

  /** The tiles of one more random number: one more tile, at the end. */
  lemma NewBlocksOfLongerPrefix(us: seq<real>, i: int)
    requires 0 <= i < |us|
    ensures NewBlocks(us[..i + 1]) == NewBlocks(us[..i]) + [NewBlock(us[i])]
  {
    assert us[..i + 1][..i] == us[..i];
  }

  /** The store's initial state, with the high score read from storage. */
  function Initial(highScore: int): GameState {
    GameState(EmptyGrid(), None, SpawnPosition, [], 0, 1, 0, false, false, false, highScore, [], 0, false, false)
  }

  /**
   * The store's invariant: the falling tile is on the board, the lock-delay
   * flag and the timer go together, a game in progress has five tiles
   * queued, at most three recent words are kept, and level and chain are in
   * range.
   */
  predicate ValidState(s: GameState) {
    InGrid(s.currentPosition)
    && s.lockDelayActive == s.lockDelayTimer
    && (s.currentBlock.Some? ==> |s.nextBlocks| == 5)
    && |s.recentWords| <= 3
    && 1 <= s.level <= MaxLevel
    && s.wordsFormed >= 0
    && 0 <= s.currentChain <= MaxChainLevel
  }

  // ---------------------------------------------------------------------------
  // Starting, pausing and ending a game
  // ---------------------------------------------------------------------------

  /**
   * `startGame()`: five tiles are drawn, the first becomes the falling tile
   * and a sixth joins the queue; everything but the high score is reset.
   */
  function StartGame(s: GameState, draws: seq<real>): GameState
    requires |draws| == 6
  {
    StartWith(s, NewBlocks(draws[..5]), NewBlock(draws[5]))
  }

  /** A new game whose first five tiles are `initialBlocks`, followed by `extra` in the queue. */
  function StartWith(s: GameState, initialBlocks: seq<Block>, extra: Block): GameState
    requires |initialBlocks| == 5
  {
    Initial(s.highScore).(currentBlock := Some(initialBlocks[0]), nextBlocks := initialBlocks[1..] + [extra], isPlaying := true)
  }

  function PauseGame(s: GameState): GameState {
    s.(isPaused := true)
  }

  function ResumeGame(s: GameState): GameState {
    s.(isPaused := false)
  }

  /** `gameOver()`: the high score becomes the larger of the two and play stops. */
  function GameOver(s: GameState): GameState {
    s.(highScore := if s.score > s.highScore then s.score else s.highScore, isGameOver := true, isPlaying := false)
  }

  /** Clearing the pending lock-delay timeout. */
  function CancelLockDelay(s: GameState): GameState {
    s.(lockDelayActive := false, lockDelayTimer := false)
  }

  /** Scheduling the lock-delay timeout. */
  function StartLockDelay(s: GameState): GameState {
    s.(lockDelayActive := true, lockDelayTimer := true)
  }

  // ---------------------------------------------------------------------------
  // Moving the falling tile
  // ---------------------------------------------------------------------------

  /**
   * `moveBlock(dx)`: refused when not playing, paused or without a tile, and
   * when the target cannot hold the tile. A move onto a cell with free space
   * below cancels a pending lock delay.
   */
  function MoveBlock(s: GameState, dx: int): (GameState, bool) {
    if !s.isPlaying || s.isPaused || s.currentBlock.None? then (s, false)
    else
      var p := Position(s.currentPosition.x + dx, s.currentPosition.y);
      if CanPlaceBlock(p, s.grid) then
        var moved := s.(currentPosition := p);
        if CanPlaceBlock(Position(p.x, p.y + 1), s.grid) && s.lockDelayTimer then (CancelLockDelay(moved), true)
        else (moved, true)
      else (s, false)
  }

  /**
   * `softDrop()`: one row down for one point, cancelling the lock delay; when
   * the tile cannot fall, the lock delay starts unless it is already running.
   * There is no check that a game is in progress.
   */
  function SoftDrop(s: GameState): GameState {
    var p := Position(s.currentPosition.x, s.currentPosition.y + 1);
    if CanPlaceBlock(p, s.grid) then
      var s1 := if s.lockDelayTimer then CancelLockDelay(s) else s;
      s1.(currentPosition := p, score := s.score + 1)
    else if !s.lockDelayActive then StartLockDelay(s)
    else s
  }

  /** `tick()`: gravity on the falling tile, or the start of the lock delay when it has landed. */
  function Tick(s: GameState): GameState {
    if !s.isPlaying || s.isPaused then s
    else
      var p := Position(s.currentPosition.x, s.currentPosition.y + 1);
      if CanPlaceBlock(p, s.grid) then
        var moved := s.(currentPosition := p);
        if s.lockDelayTimer then CancelLockDelay(moved) else moved
      else if !s.lockDelayActive then StartLockDelay(s)
      else s
  }

  // ---------------------------------------------------------------------------
  // Locking the tile and the word cascade
  // ---------------------------------------------------------------------------

  /** The next tile from the queue becomes the falling tile at the spawn point, and a new one is queued. */
  function Spawn(s: GameState, u: real): GameState {
    var q := s.nextBlocks;
    s.(currentBlock := if |q| > 0 then Some(q[0]) else None,
       currentPosition := SpawnPosition,
       nextBlocks := (if |q| > 0 then q[1..] else []) + [NewBlock(u)])
  }

  /** What a cascade carries from one word removal to the next. `credited` lists the words removed, oldest first. */
  datatype Cascade = Cascade(grid: Grid, score: int, recent: seq<ScoredWord>, credited: seq<ScoredWord>, chain: nat)

  /** The recent-words list after a word: newest first, at most three. */
  function PushRecent(recent: seq<ScoredWord>, w: ScoredWord): seq<ScoredWord> {
    var l := [w] + recent;
    if |l| <= 3 then l else l[..3]
  }

  /** The match findHighestScoringWord picks from a non-empty list. */
  function BestMatch(words: seq<WordMatch>, level: int): WordMatch
    requires |words| > 0
  {
    words[BestIndex(words, level, |words|)]
  }

  /** The words `findWords(grid)` reports with the dictionary dict and no premium squares. */
  function Finder(dict: Option<set<string>>): Grid -> seq<WordMatch> {
    (g: Grid) => FindWordsSpec(g, dict, None)
  }

  /** `calculateWordScore(match, level, 1, chainLevel)`: how a cascade scores a word at a chain level. */
  function Scorer(level: int): (WordMatch, nat) -> ScoredWord {
    (m: WordMatch, chain: nat) => Score.WordScore(m, level, 1, chain)
  }

  /** `removeWordBlocks(grid, word)`: the word's cells emptied and the tiles above them fallen. */
  function Remover(): (Grid, seq<Position>) -> Grid {
    (g: Grid, ps: seq<Position>) => Gravity.Gravity(Gravity.ClearAt(g, ps))
  }

  /**
   * What a cascade needs to know of the game: the words on a board, how a
   * word is scored at a chain level, how a word's cells leave the board, and
   * the level the best word is picked at.
   */
  datatype Rules = Rules(
    words: Grid -> seq<WordMatch>,
    scoreAt: (WordMatch, nat) -> ScoredWord,
    remove: (Grid, seq<Position>) -> Grid,
    level: int)

  /**
   * The rules `processWordRemoval` plays by: no premium squares, combo count
   * 1, the store's level, and gravity after each removal.
   */
  function StoreRules(dict: Option<set<string>>, level: int): Rules {
    Rules(Finder(dict), Scorer(level), Remover(), level)
  }

  /**
   * `processWordRemoval(chainLevel)`: the best word the finder reports on the
   * board is scored at this chain level and removed; the cascade goes on while
   * the new board holds a word and the chain level is below 10.
   */
  function CascadeFrom(c: Cascade, rules: Rules): Cascade
    requires c.chain <= MaxChainLevel
    decreases MaxChainLevel - c.chain, 1
  {
    if |rules.words(c.grid)| == 0 then c
    else AfterRemoval(RemoveBest(c, rules.words(c.grid), rules), rules)
  }

  /**
   * What follows the removal of a word: the cascade goes on at the next
   * chain level while the new board holds a word and the chain level is
   * below 10, and otherwise ends here.
   */
  function AfterRemoval(next: Cascade, rules: Rules): Cascade
    requires next.chain <= MaxChainLevel
    decreases MaxChainLevel - next.chain, 0
  {
    if |rules.words(next.grid)| > 0 && next.chain < MaxChainLevel then
      CascadeFrom(next.(chain := next.chain + 1), rules)
    else next
  }

  /** One unfolding of the cascade, as `processWordRemoval` takes it step by step. */
  lemma CascadeStep(c: Cascade, rules: Rules)
    requires c.chain <= MaxChainLevel
    ensures |rules.words(c.grid)| == 0 ==> CascadeFrom(c, rules) == c
    ensures |rules.words(c.grid)| > 0 ==>
      var next := RemoveBest(c, rules.words(c.grid), rules);
      CascadeFrom(c, rules) ==
        if |rules.words(next.grid)| > 0 && c.chain < MaxChainLevel then CascadeFrom(next.(chain := c.chain + 1), rules)
        else next
  {
  }

  /** One step of the cascade: the best of the words found is credited and removed from the board. */
  function RemoveBest(c: Cascade, found: seq<WordMatch>, rules: Rules): Cascade
    requires |found| > 0
  {
    var best := BestMatch(found, rules.level);
    var scored := rules.scoreAt(best, c.chain);
    Cascade(rules.remove(c.grid, best.positions), c.score + scored.finalScore,
            PushRecent(c.recent, scored), c.credited + [scored], c.chain)
  }

  /**
   * `finalizeBlockLock`: full rows are cleared (and scored at the level the
   * new word count gives), `wordsFormed` grows by the length of the recent
   * list, the level follows it, and the next tile spawns.
   */
  function Finalize(s: GameState, c: Cascade, u: real): GameState {
    Spawn(Settled(s, c), u)
  }

  /** The state after the cascade and the line clearing, before the next tile spawns. */
  function Settled(s: GameState, c: Cascade): GameState {
    var wordsFormed := s.wordsFormed + |c.recent|;
    var lines := FullRowCount(c.grid);
    var total := c.score + (if lines > 0 then Score.LineScore(lines, Score.Level(wordsFormed)) else 0);
    s.(grid := ClearedGrid(c.grid), score := total, level := Score.Level(wordsFormed), wordsFormed := wordsFormed,
       currentChain := c.chain, recentWords := c.recent)
  }

  /** Finalising overwrites the board, score and recent words, so their values before it do not matter. */
  lemma FinalizeOverwritesCascadeFields(s: GameState, c: Cascade, u: real, g: Grid, score: int, recent: seq<ScoredWord>)
    ensures Finalize(s.(grid := g, score := score, recentWords := recent), c, u) == Finalize(s, c, u)
  {
    assert Settled(s.(grid := g, score := score, recentWords := recent), c) == Settled(s, c);
  }

  /** The cascade a lock starts, on the board with the tile locked in. */
  function StartCascade(s: GameState, g: Grid): Cascade {
    Cascade(g, s.score, s.recentWords, [], 0)
  }

  /**
   * `lockBlock()`: cancels the lock delay; with a falling tile, writes it into
   * the grid. A tile in row 0 or 1 ends the game (the grid keeps its old
   * cells). Without a word on the new board (scored with premium squares
   * against the old board) the next tile spawns at once; otherwise the
   * cascade runs and the lock is finalised.
   */
  function LockBlock(s: GameState, dict: Option<set<string>>, u: real): GameState
    requires 0 <= s.currentPosition.y < GridHeight ==> 0 <= s.currentPosition.x < GridWidth
  {
    LockCurrent(if s.lockDelayTimer then CancelLockDelay(s) else s, dict, u)
  }

  /** The lock once the lock delay is cancelled. */
  function LockCurrent(s: GameState, dict: Option<set<string>>, u: real): GameState
    requires 0 <= s.currentPosition.y < GridHeight ==> 0 <= s.currentPosition.x < GridWidth
  {
    if s.currentBlock.None? then s
    else
      var g := LockBlockToGrid(s.currentBlock.value, s.currentPosition, s.grid);
      if IsGameOver(g) then GameOver(s)
      else if |FindWordsSpec(g, dict, Some(s.grid))| == 0 then Spawn(s.(grid := g), u)
      else Finalize(s, CascadeFrom(StartCascade(s, g), StoreRules(dict, s.level)), u)
  }

  /**
   * The state a hard drop locks: lock delay cancelled, the tile moved down to
   * its landing row, and two points added per row fallen.
   */
  function Dropped(s: GameState): GameState {
    var s1 := if s.lockDelayTimer then CancelLockDelay(s) else s;
    var x := s.currentPosition.x;
    var y := DropRow(x, s.currentPosition.y, s.grid);
    s1.(currentPosition := Position(x, y), score := s1.score + (y - s.currentPosition.y) * 2)
  }

  /**
   * `hardDrop()`: drops the tile to its landing row and locks it there. The
   * second component is the distance dropped.
   */
  function HardDrop(s: GameState, dict: Option<set<string>>, u: real): (GameState, int)
    requires 0 <= s.currentPosition.x < GridWidth
  {
    var d := Dropped(s);
    (LockBlock(d, dict, u), d.currentPosition.y - s.currentPosition.y)
  }

  /** The lock-delay timeout fires: the tile is locked and the flags are cleared. */
  function LockDelayExpired(s: GameState, dict: Option<set<string>>, u: real): GameState
    requires 0 <= s.currentPosition.y < GridHeight ==> 0 <= s.currentPosition.x < GridWidth
  {
    CancelLockDelay(LockBlock(s, dict, u))
  }

  // ---------------------------------------------------------------------------
  // The invariant
  // ---------------------------------------------------------------------------

  /** A new store satisfies the invariant, on the empty board, with nothing falling. */
  lemma InitialIsValid(highScore: int)
    ensures ValidState(Initial(highScore))
    ensures !IsGameOver(Initial(highScore).grid)
  {
    EmptyGridIsPlayable();
  }

  /**
   * Starting a game gives a valid state from any state: the tile at the
   * spawn point, five tiles queued, score and word count zero, the high
   * score kept.
   */
  lemma StartGameIsValid(s: GameState, draws: seq<real>)
    requires |draws| == 6
    ensures var r := StartGame(s, draws);
      ValidState(r) && r.isPlaying && !r.isGameOver && !r.isPaused
      && r.currentBlock == Some(NewBlock(draws[0])) && r.currentPosition == SpawnPosition
      && |r.nextBlocks| == 5 && r.nextBlocks[4] == NewBlock(draws[5])
      && (forall i :: 0 <= i < 4 ==> r.nextBlocks[i] == NewBlock(draws[i + 1]))
      && r.score == 0 && r.wordsFormed == 0 && r.level == 1 && r.highScore == s.highScore
      && r.grid == EmptyGrid() && r.recentWords == [] && r.currentChain == 0
      && !r.lockDelayActive && !r.lockDelayTimer
  {
    forall i | 0 <= i < 5 {
      NewBlocksAt(draws[..5], i);
    }
  }

  /** Moves keep the invariant. */
  lemma MoveBlockIsValid(s: GameState, dx: int)
    requires ValidState(s)
    ensures ValidState(MoveBlock(s, dx).0)
  {
  }

  /** Soft drops keep the invariant. */
  lemma SoftDropIsValid(s: GameState)
    requires ValidState(s)
    ensures ValidState(SoftDrop(s))
  {
  }

  /** Ticks keep the invariant. */
  lemma TickIsValid(s: GameState)
    requires ValidState(s)
    ensures ValidState(Tick(s))
  {
  }

  /** Game over keeps the invariant. */
  lemma GameOverIsValid(s: GameState)
    requires ValidState(s)
    ensures ValidState(GameOver(s)) && ValidState(PauseGame(s)) && ValidState(ResumeGame(s))
  {
  }

  // ---------------------------------------------------------------------------
  // Moves, drops and ticks
  // ---------------------------------------------------------------------------

  /**
   * A refused move changes nothing; an accepted one shifts only the column,
   * by dx, onto a cell that can hold the tile, and cancels the lock delay
   * exactly when a timeout was pending and the cell below the target is free.
   */
  lemma MoveBlockOutcome(s: GameState, dx: int)
    ensures !MoveBlock(s, dx).1 ==> MoveBlock(s, dx).0 == s
    ensures MoveBlock(s, dx).1 <==>
      s.isPlaying && !s.isPaused && s.currentBlock.Some?
      && CanPlaceBlock(Position(s.currentPosition.x + dx, s.currentPosition.y), s.grid)
    ensures var r := MoveBlock(s, dx).0; MoveBlock(s, dx).1 ==>
      r.currentPosition == Position(s.currentPosition.x + dx, s.currentPosition.y)
      && InGrid(r.currentPosition) == (r.currentPosition.y >= 0)
      && (r.lockDelayTimer != s.lockDelayTimer <==>
            s.lockDelayTimer && CanPlaceBlock(Position(r.currentPosition.x, r.currentPosition.y + 1), s.grid))
      && r.(currentPosition := s.currentPosition, lockDelayActive := s.lockDelayActive, lockDelayTimer := s.lockDelayTimer) == s
  {
  }

  /**
   * A soft drop either moves one row down for exactly one point, leaving no
   * timeout pending, or, when the row below is blocked, leaves the tile and
   * score alone and makes sure the lock delay is running. Nothing else
   * changes, whether or not a game is in progress.
   */
  lemma SoftDropOutcome(s: GameState)
    requires ValidState(s)
    ensures CanPlaceBlock(Position(s.currentPosition.x, s.currentPosition.y + 1), s.grid) ==>
      SoftDrop(s) == s.(currentPosition := Position(s.currentPosition.x, s.currentPosition.y + 1), score := s.score + 1,
                        lockDelayActive := false, lockDelayTimer := false)
    ensures !CanPlaceBlock(Position(s.currentPosition.x, s.currentPosition.y + 1), s.grid) ==>
      SoftDrop(s) == s.(lockDelayActive := true, lockDelayTimer := true)
  {
  }

  /**
   * Ticking does nothing while paused or not playing. During play a tile
   * with a free cell below falls one row, cancels any pending timeout and
   * changes nothing else; a tile that has landed stays put and starts the
   * lock delay, so a second tick changes nothing more.
   */
  lemma TickOutcome(s: GameState)
    requires ValidState(s)
    ensures !s.isPlaying || s.isPaused ==> Tick(s) == s
    ensures s.isPlaying && !s.isPaused && CanPlaceBlock(Position(s.currentPosition.x, s.currentPosition.y + 1), s.grid) ==>
      Tick(s) == s.(currentPosition := Position(s.currentPosition.x, s.currentPosition.y + 1),
                    lockDelayActive := false, lockDelayTimer := false)
    ensures s.isPlaying && !s.isPaused && !CanPlaceBlock(Position(s.currentPosition.x, s.currentPosition.y + 1), s.grid) ==>
      Tick(s) == s.(lockDelayActive := true, lockDelayTimer := true)
    ensures !CanPlaceBlock(Position(s.currentPosition.x, s.currentPosition.y + 1), s.grid) ==>
      Tick(Tick(s)) == Tick(s) && Tick(s).currentPosition == s.currentPosition
  {
  }

  /** A tile keeps falling by ticks exactly down to the row a hard drop reaches. */
  lemma {:induction false} TicksReachDropRow(s: GameState)
    requires ValidState(s) && s.isPlaying && !s.isPaused
    ensures var d := DropRow(s.currentPosition.x, s.currentPosition.y, s.grid);
      d >= s.currentPosition.y
      && (d == s.currentPosition.y <==> !CanPlaceBlock(Position(s.currentPosition.x, s.currentPosition.y + 1), s.grid))
      && (d > s.currentPosition.y ==> DropRow(Tick(s).currentPosition.x, Tick(s).currentPosition.y, Tick(s).grid) == d)
  {
    DropRowIsFirstStop(s.currentPosition.x, s.currentPosition.y, s.grid);
  }

  /**
   * A hard drop falls to the landing row of getDropPosition (DropRow, the
   * first row whose successor cannot hold the tile; see DropRowIsFirstStop),
   * cancels the lock delay, earns two points per row fallen and locks the
   * tile there; the distance reported is the number of rows fallen.
   */
  lemma HardDropOutcome(s: GameState, dict: Option<set<string>>, u: real)
    requires ValidState(s)
    ensures var x, y := s.currentPosition.x, s.currentPosition.y;
      var distance := DropRow(x, y, s.grid) - y;
      HardDrop(s, dict, u)
        == (LockBlock(CancelLockDelay(s).(currentPosition := Position(x, y + distance), score := s.score + 2 * distance), dict, u),
            distance)
  {
    DroppedLanding(s);
  }

  /**
   * The state a hard drop locks: the tile sits at DropRow, every row it
   * passed can hold it and the row below cannot; the lock delay is cancelled
   * and two points are added per row.
   */
  lemma DroppedLanding(s: GameState)
    requires ValidState(s)
    ensures var d := Dropped(s);
      var distance := d.currentPosition.y - s.currentPosition.y;
      distance >= 0
      && d.currentPosition.y == DropRow(s.currentPosition.x, s.currentPosition.y, s.grid)
      && d.currentPosition.y < GridHeight
      && (forall k :: s.currentPosition.y < k <= d.currentPosition.y ==> CanPlaceBlock(Position(d.currentPosition.x, k), s.grid))
      && !CanPlaceBlock(Position(d.currentPosition.x, d.currentPosition.y + 1), s.grid)
      && d == CancelLockDelay(s).(currentPosition := Position(s.currentPosition.x, s.currentPosition.y + distance),
                                 score := s.score + 2 * distance)
  {
    DropRowIsFirstStop(s.currentPosition.x, s.currentPosition.y, s.grid);
  }

  // ---------------------------------------------------------------------------
  // Locks
  // ---------------------------------------------------------------------------

  /**
   * Locking a tile in row 0 or 1 ends the game: play stops, the high score
   * becomes the larger of score and high score, and the board is left
   * without the tile.
   */
  lemma LockInTopRowsEndsGame(s: GameState, dict: Option<set<string>>, u: real)
    requires ValidState(s) && s.currentBlock.Some? && s.currentPosition.y <= 1
    ensures var r := LockBlock(s, dict, u);
      r.isGameOver && !r.isPlaying
      && r.highScore == (if s.score > s.highScore then s.score else s.highScore)
      && r.grid == s.grid && r.score == s.score
  {
    LockInTopRowsIsGameOver(s.currentBlock.value, s.currentPosition, s.grid);
  }

  /**
   * A lock that forms no word spawns the next tile at once, skipping line
   * clearing and the level update: the board keeps the locked tile even
   * when rows are full, and score, level and word count stay.
   */
  lemma LockWithoutWordSkipsClearing(s: GameState, dict: Option<set<string>>, u: real)
    requires ValidState(s) && s.currentBlock.Some?
    requires !IsGameOver(LockBlockToGrid(s.currentBlock.value, s.currentPosition, s.grid))
    requires FindWordsSpec(LockBlockToGrid(s.currentBlock.value, s.currentPosition, s.grid), dict, Some(s.grid)) == []
    ensures var r := LockBlock(s, dict, u);
      r.grid == LockBlockToGrid(s.currentBlock.value, s.currentPosition, s.grid)
      && r.score == s.score && r.level == s.level && r.wordsFormed == s.wordsFormed
      && r.currentBlock == Some(s.nextBlocks[0]) && r.currentPosition == SpawnPosition
      && r.nextBlocks == s.nextBlocks[1..] + [NewBlock(u)]
      && !r.lockDelayActive && !r.lockDelayTimer
      && r.(grid := s.grid, currentBlock := s.currentBlock, currentPosition := s.currentPosition,
            nextBlocks := s.nextBlocks, lockDelayActive := s.lockDelayActive, lockDelayTimer := s.lockDelayTimer) == s
  {
  }

  /** Whether a word forms at a lock does not depend on the premium scoring against the old board. */
  lemma LockFindsWordsWithOrWithoutPremium(g: Grid, old_: Grid, dict: Option<set<string>>)
    ensures |FindWordsSpec(g, dict, Some(old_))| == |FindWordsSpec(g, dict, None)|
  {
    PriorGridOnlyChangesScores(g, dict, Some(old_), None);
  }

  // ---------------------------------------------------------------------------
  // The cascade
  // ---------------------------------------------------------------------------

  /** The recent list after pushing the words ws, oldest first, onto r0. */
  function PushAll(r0: seq<ScoredWord>, ws: seq<ScoredWord>): seq<ScoredWord> {
    if |ws| == 0 then r0 else PushRecent(PushAll(r0, ws[..|ws| - 1]), ws[|ws| - 1])
  }

  /** The sum of the final scores of ws. */
  function SumFinal(ws: seq<ScoredWord>): int {
    if |ws| == 0 then 0 else SumFinal(ws[..|ws| - 1]) + ws[|ws| - 1].finalScore
  }

  /**
   * The i-th word removed was scored by the rules at chain level i (with the
   * store's rules: combo count 1, the store's level), and from its plain
   * letter sum: premium squares never reach a credited score.
   */
  predicate ScoredAtChainLevels(ws: seq<ScoredWord>, rules: Rules) {
    forall i :: 0 <= i < |ws| ==>
      ws[i] == rules.scoreAt(ws[i].wordMatch, i)
      && ws[i].wordMatch.score == Score.WordBaseScore(ws[i].wordMatch.word)
  }

  /** The chain level of a cascade only grows and stops at 10, and one word is credited per chain level. */
  lemma {:induction false} CascadeChain(c: Cascade, rules: Rules)
    requires c.chain <= MaxChainLevel && |c.credited| == c.chain
    ensures var r := CascadeFrom(c, rules);
      c.chain <= r.chain <= MaxChainLevel
      && (|r.credited| == r.chain || |r.credited| == r.chain + 1)
    decreases MaxChainLevel - c.chain
  {
    if |rules.words(c.grid)| > 0 {
      var next := RemoveBest(c, rules.words(c.grid), rules);
      if |rules.words(next.grid)| > 0 && c.chain < MaxChainLevel {
        CascadeChain(next.(chain := c.chain + 1), rules);
      }
    }
  }

  /** A cascade only adds to the credited words: the earlier ones stay, in order. */
  lemma {:induction false} CascadeKeepsCredited(c: Cascade, rules: Rules)
    requires c.chain <= MaxChainLevel
    ensures var r := CascadeFrom(c, rules);
      |c.credited| <= |r.credited| && r.credited[..|c.credited|] == c.credited
    decreases MaxChainLevel - c.chain
  {
    if |rules.words(c.grid)| > 0 {
      var next := RemoveBest(c, rules.words(c.grid), rules);
      assert next.credited[..|c.credited|] == c.credited;
      if |rules.words(next.grid)| > 0 && c.chain < MaxChainLevel {
        var n1 := next.(chain := c.chain + 1);
        CascadeKeepsCredited(n1, rules);
        var r := CascadeFrom(n1, rules);
        assert r.credited[..|c.credited|] == r.credited[..|n1.credited|][..|c.credited|];
      }
    }
  }

  /** A cascade that stops below chain level 10 leaves no word on the board. */
  lemma {:induction false} CascadeStopsWithoutWords(c: Cascade, rules: Rules)
    requires c.chain <= MaxChainLevel
    ensures var r := CascadeFrom(c, rules);
      r.chain < MaxChainLevel ==> |rules.words(r.grid)| == 0
    decreases MaxChainLevel - c.chain
  {
    if |rules.words(c.grid)| > 0 {
      var next := RemoveBest(c, rules.words(c.grid), rules);
      if |rules.words(next.grid)| > 0 && c.chain < MaxChainLevel {
        CascadeStopsWithoutWords(next.(chain := c.chain + 1), rules);
      }
    }
  }

  /** Each word a cascade credits is scored at its own chain level, from its plain letter sum. */
  lemma {:induction false} CascadeScoresAtChainLevels(c: Cascade, rules: Rules)
    requires c.chain <= MaxChainLevel && |c.credited| == c.chain
    requires SoundRules(rules) && ScoredAtChainLevels(c.credited, rules)
    ensures ScoredAtChainLevels(CascadeFrom(c, rules).credited, rules)
    decreases MaxChainLevel - c.chain
  {
    if |rules.words(c.grid)| > 0 {
      var next := RemoveBest(c, rules.words(c.grid), rules);
      RemoveBestScores(c, rules.words(c.grid), rules);
      if |rules.words(next.grid)| > 0 && c.chain < MaxChainLevel {
        CascadeScoresAtChainLevels(next.(chain := c.chain + 1), rules);
      }
    }
  }

  /**
   * Every word the finder reports is scored from its plain letter sum, on
   * every board.
   */
  ghost predicate PlainScores(words: Grid -> seq<WordMatch>) {
    forall g: Grid, i :: 0 <= i < |words(g)| ==> words(g)[i].score == Score.WordBaseScore(words(g)[i].word)
  }

  /** `findWords` without premium squares scores every word from its plain letter sum. */
  lemma FinderScoresPlainly(dict: Option<set<string>>)
    ensures PlainScores(Finder(dict))
  {
    forall g: Grid, i | 0 <= i < |Finder(dict)(g)|
      ensures Finder(dict)(g)[i].score == Score.WordBaseScore(Finder(dict)(g)[i].word)
    {
      FindWordsSound(g, dict, None, FindWordsSpec(g, dict, None)[i]);
    }
  }

  /** Rules whose finder scores every word plainly and whose scorer keeps the match it scores. */
  ghost predicate SoundRules(rules: Rules) {
    PlainScores(rules.words) && forall m: WordMatch, i: nat :: rules.scoreAt(m, i).wordMatch == m
  }

  /** The store's rules are sound. */
  lemma StoreRulesAreSound(dict: Option<set<string>>, level: int)
    ensures SoundRules(StoreRules(dict, level))
  {
    FinderScoresPlainly(dict);
    assert StoreRules(dict, level).words == Finder(dict);
  }

  /**
   * One cascade step credits the best word found (the first with the highest
   * effective score), scored at the current chain level from its plain letter
   * sum.
   */
  lemma RemoveBestScores(c: Cascade, found: seq<WordMatch>, rules: Rules)
    requires |found| > 0 && |c.credited| == c.chain
    requires forall i :: 0 <= i < |found| ==> found[i].score == Score.WordBaseScore(found[i].word)
    requires forall m: WordMatch, i: nat :: rules.scoreAt(m, i).wordMatch == m
    requires ScoredAtChainLevels(c.credited, rules)
    ensures var ws := RemoveBest(c, found, rules).credited;
      |ws| == |c.credited| + 1 && ws[|c.credited|] == rules.scoreAt(BestMatch(found, rules.level), c.chain)
    ensures ScoredAtChainLevels(RemoveBest(c, found, rules).credited, rules)
  {
    var best := BestMatch(found, rules.level);
    assert best == found[BestIndex(found, rules.level, |found|)];
    var ws := RemoveBest(c, found, rules).credited;
    assert ws == c.credited + [rules.scoreAt(best, c.chain)];
    assert ws[c.chain].wordMatch == best;
  }

  /**
   * The first word a cascade credits is the best of the words on the board it
   * starts from, scored at the chain level it starts at; later steps only
   * append.
   */
  lemma CascadeCreditsBestFirst(c: Cascade, rules: Rules)
    requires c.chain <= MaxChainLevel && |rules.words(c.grid)| > 0
    ensures var r := CascadeFrom(c, rules);
      |c.credited| < |r.credited|
      && r.credited[|c.credited|] == rules.scoreAt(BestMatch(rules.words(c.grid), rules.level), c.chain)
  {
    var next := RemoveBest(c, rules.words(c.grid), rules);
    assert next.credited[|c.credited|] == rules.scoreAt(BestMatch(rules.words(c.grid), rules.level), c.chain);
    if |rules.words(next.grid)| > 0 && c.chain < MaxChainLevel {
      var n1 := next.(chain := c.chain + 1);
      CascadeKeepsCredited(n1, rules);
      var r := CascadeFrom(n1, rules);
      assert r.credited[|c.credited|] == r.credited[..|n1.credited|][|c.credited|];
    }
  }

  /** A cascade adds exactly the final scores of the words it credits, and pushes them onto the recent list in turn. */
  lemma {:induction false} CascadeScoreAndRecent(c: Cascade, rules: Rules, r0: seq<ScoredWord>)
    requires c.chain <= MaxChainLevel
    requires c.recent == PushAll(r0, c.credited)
    ensures var r := CascadeFrom(c, rules);
      r.recent == PushAll(r0, r.credited)
      && r.score - SumFinal(r.credited) == c.score - SumFinal(c.credited)
    decreases MaxChainLevel - c.chain
  {
    if |rules.words(c.grid)| > 0 {
      var next := RemoveBest(c, rules.words(c.grid), rules);
      assert next.credited[..|next.credited| - 1] == c.credited;
      if |rules.words(next.grid)| > 0 && c.chain < MaxChainLevel {
        CascadeScoreAndRecent(next.(chain := c.chain + 1), rules, r0);
      }
    }
  }

  /** The recent list holds the newest words first, at most three of them. */
  lemma {:induction false} PushAllShape(r0: seq<ScoredWord>, ws: seq<ScoredWord>)
    requires |r0| <= 3
    ensures |PushAll(r0, ws)| == Score.Min(3, |r0| + |ws|)
    ensures forall i :: 0 <= i < |PushAll(r0, ws)| && i < |ws| ==> PushAll(r0, ws)[i] == ws[|ws| - 1 - i]
  {
    if |ws| > 0 {
      PushAllShape(r0, ws[..|ws| - 1]);
    }
  }

  /**
   * A lock that forms a word runs the cascade from chain level 0 and credits
   * its words: the chain ends at level 10 at most, the score grows by the
   * credited final scores, each credited word was scored at its chain level
   * from its plain letter sum, the recent list starts with the newest
   * credited word, and a chain that stops early leaves no word on the board.
   * The store's rules are sound (StoreRulesAreSound), so this holds of every
   * lock the store makes.
   */
  lemma LockCascade(s: GameState, g: Grid, rules: Rules)
    requires ValidState(s) && SoundRules(rules)
    ensures var r := CascadeFrom(StartCascade(s, g), rules);
      r.chain <= MaxChainLevel
      && |r.credited| <= MaxChainLevel + 1
      && r.score == s.score + SumFinal(r.credited)
      && ScoredAtChainLevels(r.credited, rules)
      && |r.recent| == Score.Min(3, |s.recentWords| + |r.credited|)
      && (|r.credited| > 0 ==> r.recent[0] == r.credited[|r.credited| - 1])
      && (r.chain < MaxChainLevel ==> |rules.words(r.grid)| == 0)
      && (|rules.words(g)| > 0 ==>
            |r.credited| > 0 && r.credited[0] == rules.scoreAt(BestMatch(rules.words(g), rules.level), 0))
  {
    var c := StartCascade(s, g);
    if |rules.words(g)| > 0 {
      CascadeCreditsBestFirst(c, rules);
    }
    assert c.recent == PushAll(s.recentWords, []);
    CascadeChain(c, rules);
    CascadeStopsWithoutWords(c, rules);
    CascadeScoresAtChainLevels(c, rules);
    CascadeScoreAndRecent(c, rules, s.recentWords);
    PushAllShape(s.recentWords, CascadeFrom(c, rules).credited);
  }

  /**
   * `wordsFormed` grows by the length of the recent list, which still holds
   * words of earlier locks: once three words are recent, every lock with a
   * word adds three to the count however many words it removed.
   */
  lemma WordsFormedCountsRecentList(s: GameState, c: Cascade, u: real)
    requires |s.recentWords| == 3
    requires |c.recent| == 3
    ensures Finalize(s, c, u).wordsFormed == s.wordsFormed + 3
    ensures Finalize(s, c, u).level == Score.Level(s.wordsFormed + 3)
  {
  }

  /**
   * Finalising clears the full rows of the cascade's board, adds the line
   * score only when a line was cleared, and spawns the next tile.
   */
  lemma FinalizeOutcome(s: GameState, c: Cascade, u: real)
    requires s.wordsFormed >= 0 && c.chain <= MaxChainLevel && |c.recent| <= 3 && |s.nextBlocks| == 5
    ensures var r := Finalize(s, c, u);
      r.grid == ClearedGrid(c.grid)
      && (forall y :: 0 <= y < GridHeight ==> !IsFull(r.grid[y]))
      && (FullRowCount(c.grid) == 0 ==> r.score == c.score)
      && (FullRowCount(c.grid) > 0 ==> r.score == c.score + Score.LineScore(FullRowCount(c.grid), r.level))
      && r.wordsFormed == s.wordsFormed + |c.recent|
      && r.level == Score.Level(s.wordsFormed + |c.recent|)
      && 1 <= r.level <= MaxLevel
      && r.currentBlock == Some(s.nextBlocks[0]) && |r.nextBlocks| == 5
      && r.currentPosition == SpawnPosition
      && r.currentChain == c.chain && r.recentWords == c.recent
      && r.(grid := s.grid, score := s.score, level := s.level, wordsFormed := s.wordsFormed,
            currentChain := s.currentChain, recentWords := s.recentWords,
            currentBlock := s.currentBlock, currentPosition := s.currentPosition, nextBlocks := s.nextBlocks) == s
  {
    ClearedGridShape(c.grid);
    Score.LevelBounds(s.wordsFormed + |c.recent|, s.wordsFormed + |c.recent|);
  }

  /** Locking keeps the invariant. */
  lemma LockBlockIsValid(s: GameState, dict: Option<set<string>>, u: real)
    requires ValidState(s)
    ensures ValidState(LockBlock(s, dict, u))
  {
    var s1 := CancelLockDelay(s);
    assert LockBlock(s, dict, u) == LockBlock(s1, dict, u);
    if s1.currentBlock.Some? {
      var g := LockBlockToGrid(s1.currentBlock.value, s1.currentPosition, s1.grid);
      if !IsGameOver(g) && |FindWordsSpec(g, dict, Some(s1.grid))| > 0 {
        CascadeLockIsValid(s1, dict, u);
      }
    }
  }

  /** A lock that forms a word ends in a valid state. */
  lemma CascadeLockIsValid(s: GameState, dict: Option<set<string>>, u: real)
    requires ValidState(s) && s.currentBlock.Some? && !s.lockDelayTimer
    requires !IsGameOver(LockBlockToGrid(s.currentBlock.value, s.currentPosition, s.grid))
    requires |FindWordsSpec(LockBlockToGrid(s.currentBlock.value, s.currentPosition, s.grid), dict, Some(s.grid))| > 0
    ensures ValidState(LockBlock(s, dict, u))
  {
    var g := LockBlockToGrid(s.currentBlock.value, s.currentPosition, s.grid);
    var c := CascadeFrom(StartCascade(s, g), StoreRules(dict, s.level));
    assert LockBlock(s, dict, u) == Finalize(s, c, u);
    CascadeChain(StartCascade(s, g), StoreRules(dict, s.level));
    CascadeKeepsRecentShort(StartCascade(s, g), StoreRules(dict, s.level));
    FinalizeOutcome(s, c, u);
  }

  /** The recent list of a cascade never grows past three words. */
  lemma {:induction false} CascadeKeepsRecentShort(c: Cascade, rules: Rules)
    requires c.chain <= MaxChainLevel && |c.recent| <= 3
    ensures |CascadeFrom(c, rules).recent| <= 3
    decreases MaxChainLevel - c.chain
  {
    if |rules.words(c.grid)| > 0 {
      var next := RemoveBest(c, rules.words(c.grid), rules);
      if |rules.words(next.grid)| > 0 && c.chain < MaxChainLevel {
        CascadeKeepsRecentShort(next.(chain := c.chain + 1), rules);
      }
    }
  }

  /** The lock-delay timeout keeps the invariant. */
  lemma LockDelayExpiredIsValid(s: GameState, dict: Option<set<string>>, u: real)
    requires ValidState(s)
    ensures ValidState(LockDelayExpired(s, dict, u))
    ensures !LockDelayExpired(s, dict, u).lockDelayTimer
  {
    LockBlockIsValid(s, dict, u);
  }

  /** Hard drops keep the invariant. */
  lemma HardDropIsValid(s: GameState, dict: Option<set<string>>, u: real)
    requires ValidState(s)
    ensures ValidState(HardDrop(s, dict, u).0)
  {
    DroppedIsValid(s);
    LockBlockIsValid(Dropped(s), dict, u);
  }

  /** The dropped state is valid: the landing row is on the board. */
  lemma DroppedIsValid(s: GameState)
    requires ValidState(s)
    ensures ValidState(Dropped(s))
  {
    var x := s.currentPosition.x;
    var y := DropRow(x, s.currentPosition.y, s.grid);
    DropRowIsFirstStop(x, s.currentPosition.y, s.grid);
    if y > s.currentPosition.y {
      assert CanPlaceBlock(Position(x, y), s.grid);
    }
  }
}
