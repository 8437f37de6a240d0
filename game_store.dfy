/**
 * The game store: the session's fields, updated in place by its actions.
 * Every action is proved to take the store from a state to exactly the state
 * the matching step of StoreTransitions gives, and to keep the store's
 * invariant.
 */
module GameSession {
  import opened GameConstants
  import opened GameTypes
  import opened GridOps
  import opened Collision
  import Score
  import opened Letters
  import opened WordFinder
  import opened WordSelection
  import Gravity
  import T = StoreTransitions

  /**
   * `processWordRemoval`, run to its end: finds the best word on the board
   * (without premium squares), credits it at the current chain level,
   * removes it under gravity, and goes on while the new board holds a word
   * and the chain level is below 10.
   */
  method ProcessWordRemoval(g: Grid, score: int, recentWords: seq<ScoredWord>, dict: Option<set<string>>, level: int)
    returns (currentGrid: Grid, totalScore: int, allWordsFound: seq<ScoredWord>, chainLevel: int)
    ensures var r := T.CascadeFrom(T.Cascade(g, score, recentWords, [], 0), T.StoreRules(dict, level));
      currentGrid == r.grid && totalScore == r.score && allWordsFound == r.recent && chainLevel == r.chain
  {
    ghost var target := T.CascadeFrom(T.Cascade(g, score, recentWords, [], 0), T.StoreRules(dict, level));
    currentGrid, totalScore, allWordsFound, chainLevel := g, score, recentWords, 0;
    ghost var cur := T.Cascade(g, score, recentWords, [], 0);
    var done := false;
    while !done
      invariant 0 <= chainLevel <= T.MaxChainLevel
      invariant cur.grid == currentGrid && cur.score == totalScore && cur.recent == allWordsFound && cur.chain == chainLevel
      invariant !done ==> T.CascadeFrom(cur, T.StoreRules(dict, level)) == target
      invariant done ==> cur == target
      decreases if done then 0 else 1, T.MaxChainLevel - chainLevel
    {
      T.CascadeStep(cur, T.StoreRules(dict, level));
      var words := FindWords(currentGrid, dict, None);
      assert words == T.StoreRules(dict, level).words(currentGrid);
      if |words| == 0 {
        done := true;
      } else {
        ghost var next := T.RemoveBest(cur, words, T.StoreRules(dict, level));
        currentGrid, totalScore, allWordsFound := RemoveHighestWord(currentGrid, totalScore, allWordsFound, chainLevel, words, dict, level, cur);
        var nextWords := FindWords(currentGrid, dict, None);
        assert nextWords == T.StoreRules(dict, level).words(next.grid);
        if |nextWords| > 0 && chainLevel < T.MaxChainLevel {
          chainLevel := chainLevel + 1;
          cur := next.(chain := chainLevel);
        } else {
          done := true;
          cur := next;
        }
      }
    }
  }

  /**
   * One step of `processWordRemoval`: the highest-scoring word is scored at
   * this chain level, added to the score and the recent list, and removed
   * from the board under gravity.
   */
  method RemoveHighestWord(currentGrid: Grid, totalScore: int, allWordsFound: seq<ScoredWord>, chainLevel: int,
                           words: seq<WordMatch>, dict: Option<set<string>>, level: int, ghost cur: T.Cascade)
    returns (newGrid: Grid, newScore: int, newRecent: seq<ScoredWord>)
    requires words == FindWordsSpec(currentGrid, dict, None) && |words| > 0
    requires cur.grid == currentGrid && cur.score == totalScore && cur.recent == allWordsFound && cur.chain == chainLevel
    ensures var next := T.RemoveBest(cur, words, T.StoreRules(dict, level));
      newGrid == next.grid && newScore == next.score && newRecent == next.recent
  {
    var word := FindHighestScoringWord(words, level);
    var best := word.value;
    assert best in words;
    FindWordsSound(currentGrid, dict, None, best);
    var scoredWord := Score.WordScore(best, level, 1, chainLevel);
    newScore := totalScore + scoredWord.finalScore;
    newRecent := T.PushRecent(allWordsFound, scoredWord);
    newGrid := Gravity.RemoveWordBlocks(currentGrid, best);
  }

  /** `Array(n).fill(null).map(() => createBlock())`: one new tile per random number. */
  method CreateBlocks(draws: seq<real>) returns (blocks: seq<Block>)
    ensures blocks == T.NewBlocks(draws)
  {
    blocks := [];
    var i := 0;
    while i < |draws|
      invariant 0 <= i <= |draws|
      invariant blocks == T.NewBlocks(draws[..i])
    {
      var b := CreateBlock(draws[i]);
      T.NewBlocksOfLongerPrefix(draws, i);
      blocks := blocks + [b];
      i := i + 1;
    }
    assert draws[..i] == draws;
  }

  class GameStore {
    var grid: Grid
    var currentBlock: Option<Block>
    var currentPosition: Position
    var nextBlocks: seq<Block>
    var score: int
    var level: int
    var wordsFormed: int
    var isPlaying: bool
    var isPaused: bool
    var isGameOver: bool
    var highScore: int
    var recentWords: seq<ScoredWord>
    var currentChain: int
    var lockDelayActive: bool
    /** Whether a lock-delay timeout is scheduled. */
    var lockDelayTimer: bool

    /** The store's fields as a value. */
    function Snapshot(): T.GameState
      reads this
    {
      T.GameState(grid, currentBlock, currentPosition, nextBlocks, score, level, wordsFormed,
                  isPlaying, isPaused, isGameOver, highScore, recentWords, currentChain,
                  lockDelayActive, lockDelayTimer)
    }

    predicate Valid()
      reads this
    {
      T.ValidState(Snapshot())
    }

    /** The store as first created, with the high score read from storage. */
    constructor (storedHighScore: int)
      ensures Snapshot() == T.Initial(storedHighScore)
      ensures Valid()
    {
      grid := EmptyGrid();
      currentBlock := None;
      currentPosition := T.SpawnPosition;
      nextBlocks := [];
      score := 0;
      level := 1;
      wordsFormed := 0;
      isPlaying := false;
      isPaused := false;
      isGameOver := false;
      highScore := storedHighScore;
      recentWords := [];
      currentChain := 0;
      lockDelayActive := false;
      lockDelayTimer := false;
      T.InitialIsValid(storedHighScore);
    }

    /** `startGame()`, with the six random numbers its tiles are drawn from. */
    method StartGame(draws: seq<real>)
      requires |draws| == 6
      modifies this
      ensures Snapshot() == T.StartGame(old(Snapshot()), draws)
      ensures Valid()
    {
      ghost var s0 := Snapshot();
      var initialBlocks := CreateBlocks(draws[..5]);
      var last := CreateBlock(draws[5]);
      Begin(initialBlocks, last);
      T.StartGameIsValid(s0, draws);
    }

    /** The state update of `startGame()`, once its tiles are drawn. */
    method Begin(initialBlocks: seq<Block>, last: Block)
      requires |initialBlocks| == 5
      modifies this
      ensures Snapshot() == T.StartWith(old(Snapshot()), initialBlocks, last)
    {
      ClearSession();
      currentBlock, nextBlocks, isPlaying := Some(initialBlocks[0]), initialBlocks[1..] + [last], true;
    }

    /** Every field of `startGame()`'s update except the tiles and the playing flag: an empty board and zero counters. */
    method ClearSession()
      modifies this
      ensures Snapshot() == T.Initial(old(highScore)).(currentBlock := old(currentBlock), nextBlocks := old(nextBlocks), isPlaying := old(isPlaying))
    {
      grid, currentPosition, score, level, wordsFormed, recentWords, currentChain := EmptyGrid(), T.SpawnPosition, 0, 1, 0, [], 0;
      isPaused, isGameOver, lockDelayActive, lockDelayTimer := false, false, false, false;
    }

    /** `resetGame()`: starts a new game. */
    method ResetGame(draws: seq<real>)
      requires |draws| == 6
      modifies this
      ensures Snapshot() == T.StartGame(old(Snapshot()), draws)
      ensures Valid()
    {
      StartGame(draws);
    }

    method PauseGame()
      requires Valid()
      modifies this
      ensures Snapshot() == T.PauseGame(old(Snapshot()))
      ensures Valid()
    {
      isPaused := true;
    }

    method ResumeGame()
      requires Valid()
      modifies this
      ensures Snapshot() == T.ResumeGame(old(Snapshot()))
      ensures Valid()
    {
      isPaused := false;
    }

    /** `gameOver()`. */
    method GameOver()
      modifies this
      ensures Snapshot() == T.GameOver(old(Snapshot()))
      ensures old(Valid()) ==> Valid()
    {
      if score > highScore {
        highScore := score;
      }
      isGameOver := true;
      isPlaying := false;
    }

    /** `moveBlock(dx)`. */
    method MoveBlock(dx: int) returns (moved: bool)
      requires Valid()
      modifies this
      ensures (Snapshot(), moved) == T.MoveBlock(old(Snapshot()), dx)
      ensures Valid()
    {
      T.MoveBlockIsValid(Snapshot(), dx);
      if !isPlaying || isPaused || currentBlock.None? {
        return false;
      }
      var newPosition := Position(currentPosition.x + dx, currentPosition.y);
      if CanPlaceBlock(newPosition, grid) {
        currentPosition := newPosition;
        var canFallFurther := CanPlaceBlock(Position(newPosition.x, newPosition.y + 1), grid);
        if canFallFurther && lockDelayTimer {
          lockDelayActive, lockDelayTimer := false, false;
        }
        return true;
      }
      return false;
    }

    /** `softDrop()`. */
    method SoftDrop()
      requires Valid()
      modifies this
      ensures Snapshot() == T.SoftDrop(old(Snapshot()))
      ensures Valid()
    {
      T.SoftDropIsValid(Snapshot());
      var newPosition := Position(currentPosition.x, currentPosition.y + 1);
      if CanPlaceBlock(newPosition, grid) {
        if lockDelayTimer {
          lockDelayActive, lockDelayTimer := false, false;
        }
        currentPosition := newPosition;
        score := score + 1;
      } else if !lockDelayActive {
        lockDelayActive, lockDelayTimer := true, true;
      }
    }

    /** `tick()`. */
    method Tick()
      requires Valid()
      modifies this
      ensures Snapshot() == T.Tick(old(Snapshot()))
      ensures Valid()
    {
      T.TickIsValid(Snapshot());
      if !isPlaying || isPaused {
        return;
      }
      var newPosition := Position(currentPosition.x, currentPosition.y + 1);
      if CanPlaceBlock(newPosition, grid) {
        currentPosition := newPosition;
        if lockDelayTimer {
          lockDelayActive, lockDelayTimer := false, false;
        }
      } else if !lockDelayActive {
        lockDelayActive, lockDelayTimer := true, true;
      }
    }

    /** The next tile from the queue falls from the spawn point, and a new tile is queued. */
    method SpawnNext(u: real)
      modifies this
      ensures Snapshot() == T.Spawn(old(Snapshot()), u)
    {
      var block := CreateBlock(u);
      currentBlock := if |nextBlocks| > 0 then Some(nextBlocks[0]) else None;
      nextBlocks := (if |nextBlocks| > 0 then nextBlocks[1..] else []) + [block];
      currentPosition := T.SpawnPosition;
    }

    /**
     * `finalizeBlockLock(totalScore, allWordsFound, chainLevel)`: clears the
     * full rows of the current grid, scores them, updates the word count and
     * level, and spawns the next tile.
     */
    method FinalizeBlockLock(totalScore: int, allWordsFound: seq<ScoredWord>, chainLevel: int, u: real, ghost c: T.Cascade)
      requires c.grid == grid && c.score == totalScore && c.recent == allWordsFound && c.chain == chainLevel
      modifies this
      ensures Snapshot() == T.Finalize(old(Snapshot()), c, u)
    {
      ghost var s0 := Snapshot();
      var total := totalScore;
      var clearedGrid, linesCleared := ClearLines(grid);
      if linesCleared > 0 {
        var newLevel := Score.Level(wordsFormed + |allWordsFound|);
        total := total + Score.LineScore(linesCleared, newLevel);
      }
      var newWordsFormed := wordsFormed + |allWordsFound|;
      var newLevel := Score.Level(newWordsFormed);
      grid, score, level, wordsFormed, currentChain, recentWords := clearedGrid, total, newLevel, newWordsFormed, chainLevel, allWordsFound;
      assert Snapshot() == T.Settled(s0, c);
      SpawnNext(u);
    }

    /**
     * `lockBlock()`, with the word set and the random number for the next
     * tile: the cascade after a word runs to its end before it returns.
     */
    method LockBlock(dict: Option<set<string>>, u: real)
      requires Valid()
      modifies this
      ensures Snapshot() == T.LockBlock(old(Snapshot()), dict, u)
      ensures Valid()
    {
      T.LockBlockIsValid(Snapshot(), dict, u);
      if lockDelayTimer {
        lockDelayActive, lockDelayTimer := false, false;
      }
      LockCurrent(dict, u);
    }

    /** The lock, once the lock delay is cancelled. */
    method LockCurrent(dict: Option<set<string>>, u: real)
      requires 0 <= currentPosition.y < GridHeight ==> 0 <= currentPosition.x < GridWidth
      modifies this
      ensures Snapshot() == T.LockCurrent(old(Snapshot()), dict, u)
    {
      if currentBlock.None? {
        return;
      }
      var gridBeforeLock := grid;
      var newGrid := LockBlockToGrid(currentBlock.value, currentPosition, grid);
      if IsGameOver(newGrid) {
        GameOver();
        return;
      }
      var foundWords := FindWords(newGrid, dict, Some(gridBeforeLock));
      if |foundWords| == 0 {
        grid := newGrid;
        SpawnNext(u);
        return;
      }
      ResolveWords(newGrid, foundWords, dict, u);
    }

    /**
     * The lock of a tile that formed a word: the tile is written into the
     * grid and the cascade runs to its end, then the lock is finalised.
     */
    method ResolveWords(newGrid: Grid, foundWords: seq<WordMatch>, dict: Option<set<string>>, u: real)
      requires |foundWords| > 0
      modifies this
      ensures Snapshot() == T.Finalize(old(Snapshot()), T.CascadeFrom(T.StartCascade(old(Snapshot()), newGrid), T.StoreRules(dict, old(level))), u)
    {
      // The premium-scored choice only picks the tiles to animate.
      var highestWord := FindHighestScoringWord(foundWords, level);
      ghost var s0 := Snapshot();
      ghost var c := T.CascadeFrom(T.StartCascade(s0, newGrid), T.StoreRules(dict, level));
      assert T.StartCascade(s0, newGrid) == T.Cascade(newGrid, score, recentWords, [], 0);
      var currentGrid, totalScore, allWordsFound, chainLevel := ProcessWordRemoval(newGrid, score, recentWords, dict, level);
      grid, score, recentWords := currentGrid, totalScore, allWordsFound;
      assert Snapshot() == s0.(grid := currentGrid, score := totalScore, recentWords := allWordsFound);
      T.FinalizeOverwritesCascadeFields(s0, c, u, currentGrid, totalScore, allWordsFound);
      FinalizeBlockLock(totalScore, allWordsFound, chainLevel, u, c);
    }

    /** `hardDrop()`: returns the number of rows the tile fell. */
    method HardDrop(dict: Option<set<string>>, u: real) returns (dropDistance: int)
      requires Valid()
      modifies this
      ensures (Snapshot(), dropDistance) == T.HardDrop(old(Snapshot()), dict, u)
      ensures Valid()
    {
      ghost var s0 := Snapshot();
      T.DroppedIsValid(s0);
      dropDistance := DropToLanding();
      LockBlock(dict, u);
    }

    /**
     * The first half of `hardDrop()`: cancels the lock delay, moves the tile
     * down while the row below is free and adds two points per row.
     */
    method DropToLanding() returns (dropDistance: int)
      requires Valid()
      modifies this
      ensures Snapshot() == T.Dropped(old(Snapshot()))
      ensures dropDistance == currentPosition.y - old(currentPosition.y)
    {
      if lockDelayTimer {
        lockDelayActive, lockDelayTimer := false, false;
      }
      dropDistance := 0;
      var newY := currentPosition.y;
      while CanPlaceBlock(Position(currentPosition.x, newY + 1), grid)
        invariant DropRow(currentPosition.x, newY, grid) == DropRow(currentPosition.x, currentPosition.y, grid)
        invariant dropDistance == newY - currentPosition.y
        decreases GridHeight - newY
      {
        newY := newY + 1;
        dropDistance := dropDistance + 1;
      }
      currentPosition, score := Position(currentPosition.x, newY), score + dropDistance * 2;
    }

    /** The lock-delay timeout fires: the tile locks and the lock delay is cleared. */
    method LockDelayExpired(dict: Option<set<string>>, u: real)
      requires Valid() && lockDelayTimer
      modifies this
      ensures Snapshot() == T.LockDelayExpired(old(Snapshot()), dict, u)
      ensures Valid()
    {
      T.LockDelayExpiredIsValid(Snapshot(), dict, u);
      LockBlock(dict, u);
      lockDelayActive, lockDelayTimer := false, false;
    }
  }
}
