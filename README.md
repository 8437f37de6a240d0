# Word-falling game: model of the match, score and cascade engine

This project models the core of a falling-letter word game (`cursor-sonnet/src`).

The game has a 10 by 10 board. Single-letter tiles, drawn by weight from a
Scrabble tile bag, fall from the top. When a tile locks, every row and column
is scanned for words of three or more letters that the dictionary accepts.
The highest-scoring word is removed and the remaining tiles fall under
gravity. This repeats as a cascade of up to eleven words, at chain levels 0
to 10. Full rows are then cleared, the level is updated and the next tile
spawns.

The modules follow the program's files:

- `GameTypes` (`types.dfy`): positions, blocks, cells, the grid, word matches, scored words.
- `GameConstants` (`constants.dfy`): board size, letter values, tile distribution, colours, multiplier tables.
- `PremiumSquares` (`premium_squares.dfy`): the premium definitions and the layout map keyed by "row,column".
- `GridOps` (`grid.dfy`): empty grid, locking a tile, clearing full rows, top-out.
- `Collision` (`collision.dfy`): the on-board test, where a tile may be, the hard-drop row.
- `Dictionary` (`dictionary.dfy`): word-list normalisation, the fallback list, the loader's state, the membership test.
- `Score` (`score.dfy`): base scores, premium squares, the final word score, line score, level, fall speed.
- `WordFinder` (`words.dfy`): the row and column scan of `findWords`.
- `WordSelection` (`selection.dfy`): `findHighestScoringWord` and its effective score.
- `Gravity` (`gravity.dfy`): `removeWordBlocks` and `applyGravity`.
- `Letters` (`letters.dfy`): the weighted letter draw and the block factory.
- `StoreTransitions` (`store_transitions.dfy`): every store action as a function from state to state, and what each one promises.
- `GameSession` (`game_store.dfy`): the store as a class whose methods update its fields in place.

Each loop of the source is a `method` with a `while` loop. Each method is
proved equal to a specification function, and the properties are proved as
lemmas about that function. The following loops are modelled this way:

- the bottom-up row scan of `clearLines`;
- the `getDropPosition` loop and the `hardDrop` loop;
- the premium-square `forEach`;
- the nested scan of `findWords`;
- the running maximum of `findHighestScoringWord`;
- the column compaction of `applyGravity`;
- the weight subtraction of `getRandomLetter`;
- the cascade of `processWordRemoval`.

The store (`gameStore.ts`) is the class `GameSession.GameStore`, with one
field per store field. Each action ensures that `Snapshot()` (the fields
taken as a `StoreTransitions.GameState` value) equals the matching
transition function applied to the old snapshot. Each action also keeps the
invariant `Valid()`.

Inputs from outside the program are parameters:

- `u` is the value `Math.random()` returns for a new tile.
- `dict` is the dictionary's word set. `None` means it has not loaded yet.
- The fetched dictionary text is `Some(text)`, or `None` for a failed fetch.

The lock-delay timer is the flag `lockDelayTimer`. Its timeout firing is the
event `LockDelayExpired`.

The model keeps these behaviours of the code as written:

- **Premium squares do not reach the credited score.** They only decide
  whether the lock found a word. The cascade finds words again without the
  earlier grid (`LockFindsWordsWithOrWithoutPremium`, `FinderScoresPlainly`,
  `LockCascade`).
- **`wordsFormed` grows by the length of the recent-words list.** That list
  still holds words from earlier locks (`WordsFormedCountsRecentList`).
- **A lock that forms no word does not clear lines or update the level**
  (`LockWithoutWordSkipsClearing`).
- **Gravity compacts every column**, not only the columns the removed word
  touched (`RemovalCompactsEveryColumn`).

## Model

| member | source | states |
|---|---|---|
| `GameConstants.GridIsTenByTen` | cursor-sonnet/src/constants/game.ts:1-2 | The board is 10 columns by 10 rows. |
| `GameConstants.EveryLetterHasPositiveValue` | cursor-sonnet/src/constants/game.ts:13-17 | Each of the 26 letters A to Z has a point value, and it is positive. The value table has no other keys. |
| `GameConstants.EveryLetterValueHasColor` | cursor-sonnet/src/constants/game.ts:13-35 | Every point value a letter carries has an entry in the colour table. |
| `GameConstants.DistributionLetters` | cursor-sonnet/src/constants/game.ts:20-24 | The letters of the tile bag in key order: the same length as the bag, with letter i at position i. |
| `GameConstants.DistributionCoversAlphabet` | cursor-sonnet/src/constants/game.ts:20-24 | The bag's keys are exactly A to Z, in order, and every weight is positive. |
| `GameConstants.WeightSumPositive` | cursor-sonnet/src/constants/game.ts:20-24 | A sum of positive weights is never negative, and is positive when there is at least one weight. |
| `GameConstants.PrefixWeights` | cursor-sonnet/src/constants/game.ts:20-24 | The first k letters of the bag hold `RunningTotals[k]` tiles. |
| `GameConstants.RunningTotalStep` | cursor-sonnet/src/constants/game.ts:20-24 | Each running total is the previous total plus the next letter's weight. |
| `GameConstants.TotalWeightIs98` | cursor-sonnet/src/constants/game.ts:20-24 | The bag holds 98 tiles. |
| `GameConstants.WordLengthBonusSteps` | cursor-sonnet/src/constants/game.ts:38-47 | The length-bonus table has keys 3 to 10. It is 1.0 at 3 and 4.5 at 10, and rises by exactly 0.5 per letter. |
| `GameConstants.MultiplierTablesAscend` | cursor-sonnet/src/constants/game.ts:50-53 | Combo multipliers never decrease and chain multipliers strictly increase. All of them are at least 1. |
| `GameConstants.LevelConstants` | cursor-sonnet/src/constants/game.ts:55-58 | Ten words per level, level 20 at most, and a line-clear base of 25. |
| `PremiumSquares.PremiumSquareColor` | cursor-sonnet/src/constants/premiumSquares.ts:16-21 | The display colour of each premium type. |
| `PremiumSquares.Definition` | cursor-sonnet/src/constants/premiumSquares.ts:24-49 | The definition record of each premium type. |
| `PremiumSquares.DefinitionsCarryOneMultiplier` | cursor-sonnet/src/constants/premiumSquares.ts:24-49 | Each definition has its own type and exactly one multiplier. DLS and TLS multiply the letter by 2 and 3; DWS and TWS multiply the word by 2 and 3. |
| `PremiumSquares.DecimalString` | cursor-sonnet/src/constants/premiumSquares.ts:83 | The decimal text of a natural number: non-empty and made only of digits. |
| `PremiumSquares.NumberToString` | cursor-sonnet/src/constants/premiumSquares.ts:83 | How a template literal writes a number. The text never contains a comma. |
| `PremiumSquares.DecimalStringInjective` | cursor-sonnet/src/constants/premiumSquares.ts:83 | Two natural numbers with the same decimal text are equal. |
| `PremiumSquares.NumberToStringInjective` | cursor-sonnet/src/constants/premiumSquares.ts:83 | Two integers written the same are equal, whatever their signs. |
| `PremiumSquares.LayoutKey` | cursor-sonnet/src/constants/premiumSquares.ts:83 | The key `${y},${x}` built for the cell (x, y). |
| `PremiumSquares.LayoutKeyInjective` | cursor-sonnet/src/constants/premiumSquares.ts:83 | Two cells with the same layout key are the same cell. |
| `PremiumSquares.LayoutKeyIsRowThenColumn` | cursor-sonnet/src/constants/premiumSquares.ts:82-85 | On the board, the key of (x, y) is the row digit, a comma and then the column digit. |
| `PremiumSquares.GetPremiumSquare` | cursor-sonnet/src/constants/premiumSquares.ts:82-85 | The layout lookup under that key, or no type. |
| `PremiumSquares.PremiumCells` | cursor-sonnet/src/constants/premiumSquares.ts:64-77 | Exactly four cells are premium: DLS at (2,3) and (6,7), TLS at (8,5) and DWS at (4,8). Every other integer cell has no type. |
| `PremiumSquares.HasPremiumSquareIffLayoutCell` | cursor-sonnet/src/constants/premiumSquares.ts:90-92 | `hasPremiumSquare` holds exactly when the lookup finds a type, which is exactly on those four cells. |
| `PremiumSquares.GetPremiumSquareDetails` | cursor-sonnet/src/constants/premiumSquares.ts:97-103 | The details' type is the lookup's result, and it is present exactly when the cell has a premium square. With a type, the details are that type's definition. Without one, they carry no multiplier. |
| `GridOps.EmptyGrid` | cursor-sonnet/src/utils/grid.ts:7-11 | Every cell of the 10 by 10 grid is empty. |
| `GridOps.CellOf` | cursor-sonnet/src/utils/grid.ts:20-24 | The locked cell copies the block's letter, value and colour. |
| `GridOps.LockBlockToGrid` | cursor-sonnet/src/utils/grid.ts:16-28 | For a row on the board: the cell at the position holds the block, and every other cell is unchanged. For a row off the board: the grid comes back equal to the input. |
| `GridOps.KeptRows` | cursor-sonnet/src/utils/grid.ts:38-46 | The rows that are not full, in order. There are no more of them than rows. |
| `GridOps.KeptRowsAreNotFull` | cursor-sonnet/src/utils/grid.ts:38-46 | No kept row is full. |
| `GridOps.ClearedGrid` | cursor-sonnet/src/utils/grid.ts:34-54 | The rows that are not full, with empty rows added on top. Definition; its properties are in `ClearedGridShape`, `ClearLinesWithoutFullRows` and `ClearLinesIdempotent`. |
| `GridOps.ClearLines` | cursor-sonnet/src/utils/grid.ts:34-54 | The bottom-up loop returns the cleared grid and the number of full rows. |
| `GridOps.ScanStep` | cursor-sonnet/src/utils/grid.ts:38-46 | One step of the bottom-up scan: row y goes in front of the rows kept below it when it is not full, and is counted when it is. |
| `GridOps.PadWithEmptyRows` | cursor-sonnet/src/utils/grid.ts:48-51 | The padding loop puts GridHeight minus the number of kept rows empty rows on top of the kept rows. |
| `GridOps.BlankIsPadding` | cursor-sonnet/src/utils/grid.ts:48-51 | The empty rows added one at a time at the top are the padding of the cleared grid. |
| `GridOps.KeptAndFullPartitionRows` | cursor-sonnet/src/utils/grid.ts:38-46 | The kept rows and the full rows together are all the rows. |
| `GridOps.ClearedGridShape` | cursor-sonnet/src/utils/grid.ts:38-51 | The result keeps 10 rows. The top rows, as many as were full, are empty. Below them are the kept rows in their original order. No row of the result is full. |
| `GridOps.NoFullRowKeepsAll` | cursor-sonnet/src/utils/grid.ts:38-46 | Rows with no full row among them are all kept, and none is counted. |
| `GridOps.ClearLinesWithoutFullRows` | cursor-sonnet/src/utils/grid.ts:38-53 | A grid without full rows comes back unchanged, with 0 lines cleared. |
| `GridOps.ClearLinesIdempotent` | cursor-sonnet/src/utils/grid.ts:34-54 | Clearing a cleared grid changes nothing and clears 0 lines. |
| `GridOps.IsGameOver` | cursor-sonnet/src/utils/grid.ts:59-62 | `isGameOver`: a tile in row 0 or row 1. Definition; its properties are in `LockInTopRowsIsGameOver` and `EmptyGridIsPlayable`. |
| `GridOps.LockInTopRowsIsGameOver` | cursor-sonnet/src/utils/grid.ts:59-62 | A tile locked into row 0 or row 1 makes `isGameOver` true. |
| `GridOps.EmptyGridIsPlayable` | cursor-sonnet/src/utils/grid.ts:7-11 | The empty grid is not game over, and clearing it changes nothing. |
| `Collision.IsValidPosition` | cursor-sonnet/src/utils/collision.ts:7-14 | `isValidPosition`: both coordinates on the 10 × 10 board. Definition; it decides the on-board case of `CanPlaceBlock`'s contract. |
| `Collision.CanPlaceBlock` | cursor-sonnet/src/utils/collision.ts:19-36 | False for a column off the board or a row at or below the floor. True for any row above the board. On the board (`isValidPosition`), true exactly when the cell is empty. |
| `Collision.GetDropPosition` | cursor-sonnet/src/utils/collision.ts:41-49 | The loop keeps the column and stops at the drop row. |
| `Collision.DropRowIsFirstStop` | cursor-sonnet/src/utils/collision.ts:41-49 | The drop row is at or below the start. Every row passed on the way can hold the tile. The row below the drop row cannot, so the loop stops at the board's floor. |
| `Collision.DropLandsOnFloorOrTile` | cursor-sonnet/src/utils/collision.ts:44-46 | From a free cell of the board, a tile lands on the board: on the bottom row, or on top of a tile. |
| `Dictionary.SplitLines` | cursor-sonnet/src/data/dictionary.ts:31 | `split('\n')` always yields at least one piece. |
| `Dictionary.SplitJoinRoundTrip` | cursor-sonnet/src/data/dictionary.ts:31 | Joining the pieces with newlines gives back the text, and no piece contains a newline. |
| `Dictionary.TrimStart` | cursor-sonnet/src/data/dictionary.ts:32 | A suffix of the text that does not start with white space. |
| `Dictionary.TrimEnd` | cursor-sonnet/src/data/dictionary.ts:32 | A prefix of the text that does not end with white space. |
| `Dictionary.TrimIsInnerPart` | cursor-sonnet/src/data/dictionary.ts:32 | `trim()` keeps a contiguous part of the text with no white space at either end. |
| `Dictionary.TrimBounds` | cursor-sonnet/src/data/dictionary.ts:32 | The trimmed text is the slice of the original between two bounds. |
| `Dictionary.TrimEnds` | cursor-sonnet/src/data/dictionary.ts:32 | A non-empty trimmed text neither starts nor ends with white space. |
| `Dictionary.ToUpper` | cursor-sonnet/src/data/dictionary.ts:32 | Upper-casing keeps the length and maps each character on its own. |
| `Dictionary.ToUpperIdempotent` | cursor-sonnet/src/data/dictionary.ts:32 | The result has no ASCII lower-case letter, and upper-casing twice equals upper-casing once. |
| `Dictionary.CleanLineIsClean` | cursor-sonnet/src/data/dictionary.ts:32 | A cleaned line is already upper case and has no white space at either end. |
| `Dictionary.NormalizedWordsAreClean` | cursor-sonnet/src/data/dictionary.ts:30-35 | Every word of the loaded set has 3 to 10 characters, is upper case and has no white space at either end. |
| `Dictionary.StoredLine` | cursor-sonnet/src/data/dictionary.ts:30-35 | Each stored word is the cleaned form of some line of the text, and has 3 to 10 characters. |
| `Dictionary.StorableLineIsClean` | cursor-sonnet/src/data/dictionary.ts:30-35 | A line whose cleaned form has 3 to 10 characters gives an upper-case word with no white space at either end. |
| `Dictionary.NormalizeWords` | cursor-sonnet/src/data/dictionary.ts:30-35 | The split, trim, upper-case and length-filter pipeline. Definition; its properties are in `NormalizedWordsAreClean` and `EveryStorableLineIsLoaded`. |
| `Dictionary.LoadedWords` | cursor-sonnet/src/data/dictionary.ts:28-46 | The normalised word set on success, or the 18-word fallback on failure. Definition; its properties are in `ValidWordsHaveStorableLength` and `FallbackWordsShape`. |
| `Dictionary.EveryStorableLineIsLoaded` | cursor-sonnet/src/data/dictionary.ts:30-35 | Every line whose cleaned form has 3 to 10 characters is in the set, so the filter drops nothing else. |
| `Dictionary.DictionaryLoader.constructor` | cursor-sonnet/src/data/dictionary.ts:6 | The word set starts unloaded. |
| `Dictionary.DictionaryLoader.LoadDictionary` | cursor-sonnet/src/data/dictionary.ts:12-50 | A set that is already loaded is returned unchanged. Otherwise the set becomes the normalised text after a successful fetch, or the fallback list after a failure, and is returned. |
| `Dictionary.IsValidWord` | cursor-sonnet/src/data/dictionary.ts:58-64 | `isValidWord`: false before loading, otherwise membership of the upper-cased word. Definition; its properties are in `NothingValidBeforeLoading`, `ValidityIgnoresCase` and `ValidWordsHaveStorableLength`. |
| `Dictionary.NothingValidBeforeLoading` | cursor-sonnet/src/data/dictionary.ts:58-62 | No word is valid while the set is not loaded. |
| `Dictionary.ValidityIgnoresCase` | cursor-sonnet/src/data/dictionary.ts:63 | A word is valid exactly when its upper-cased form is. |
| `Dictionary.ValidWordsHaveStorableLength` | cursor-sonnet/src/data/dictionary.ts:30-35 | Once the set is loaded from the list or the fallback, every valid word has 3 to 10 characters. |
| `Dictionary.FallbackWordsShape` | cursor-sonnet/src/data/dictionary.ts:42-45 | The fallback words have 3 or 4 letters, all from A to Z. |
| `Dictionary.FallbackAcceptsLowerCase` | cursor-sonnet/src/data/dictionary.ts:39-46 | With the fallback set, "cat" is valid and "CATS" is not. |
| `Dictionary.GetWordScore` | cursor-sonnet/src/data/dictionary.ts:97-103 | The older length-only score. |
| `Dictionary.GetWordScoreShape` | cursor-sonnet/src/data/dictionary.ts:97-103 | The score is 0 exactly below length 3. It never decreases with length, doubles from 3 to 6 letters (50, 100, 200, 400) and stays at 400 from 6 letters on. |
| `Score.WordBaseScore` | cursor-sonnet/src/utils/score.ts:17-21 | The letter values added left to right, with 0 for an unknown character. |
| `Score.LetterValueRange` | cursor-sonnet/src/utils/score.ts:20 | Every character is worth between 0 and 10 points. |
| `Score.WordBaseScoreAppend` | cursor-sonnet/src/utils/score.ts:17-21 | The base score of a concatenation is the sum of the two base scores. |
| `Score.WordBaseScoreBounds` | cursor-sonnet/src/utils/score.ts:17-21 | The base score is between 0 and 10 per letter, and at least 1 per letter for a word over A to Z. |
| `Score.CalculateWordScoreWithPremiumSquares` | cursor-sonnet/src/utils/score.ts:26-62 | The `forEach` loop returns the product of the word factors and the letter total times that product. |
| `Score.PremiumCellEffect` | cursor-sonnet/src/utils/score.ts:37-55 | Per cell on this layout: a letter on an empty DLS or TLS cell counts 2 or 3 times. An empty DWS cell doubles the word. An occupied or plain cell adds the plain value and multiplies by 1. |
| `Score.PlainCellsGiveBaseScore` | cursor-sonnet/src/utils/score.ts:52-55 | With no eligible premium cell, the letter total is the base score of the prefix and the word factor is 1. |
| `Score.NoPremiumMeansBaseScore` | cursor-sonnet/src/utils/score.ts:34-59 | With no eligible premium cell under the word, the premium score equals `calculateWordBaseScore`. |
| `Score.PremiumNeverLowers` | cursor-sonnet/src/utils/score.ts:34-59 | The letter total is never below the base score, and the word multiplier is at least 1. |
| `Score.CatOnDoubleWord` | cursor-sonnet/src/utils/score.ts:34-59 | "CAT" over the empty double-word cell (4, 8) scores (3 + 1 + 1) times 2, with word multiplier 2. |
| `Score.LengthBonus` | cursor-sonnet/src/utils/score.ts:77-78 | The table for 3 to 10 letters, 4.5 plus 0.5 per letter past 10, and 1 below 3. |
| `Score.LengthBonusClosedForm` | cursor-sonnet/src/utils/score.ts:77-78 | The bonus is (length - 1) / 2 from three letters on, and 1 below three. |
| `Score.ProductOfFive` | cursor-sonnet/src/utils/score.ts:87-89 | The left-to-right product of the five factors is their plain product. |
| `Score.WordScore` | cursor-sonnet/src/utils/score.ts:67-98 | The scored word keeps the match and the level. The combo multiplier is reported exactly when the combo count exceeds 1, and the chain multiplier exactly when the chain level exceeds 0. |
| `Score.FloorOfEighths` | cursor-sonnet/src/utils/score.ts:87-89 | Flooring k / 8 is integer division by 8. |
| `Score.WordScoreInHalves` | cursor-sonnet/src/utils/score.ts:73-89 | The final score is floor(base × bonus × level × combo × chain), with combo at index min(count, 4) and chain at min(chain, 3). Each multiplier is an exact number of halves, so the score equals the integer product divided by 8. |
| `Score.LengthBonusInHalves` | cursor-sonnet/src/utils/score.ts:77-78 | The length bonus is a whole number of halves. |
| `Score.MultipliersInHalves` | cursor-sonnet/src/utils/score.ts:81-84 | The capped combo and chain multipliers are whole numbers of halves. |
| `Score.HalvesProduct` | cursor-sonnet/src/utils/score.ts:87-89 | With three of the five factors in halves, the real product is the integer product over 8. |
| `Score.ChainNeverLowersScore` | cursor-sonnet/src/utils/score.ts:84-89 | For a non-negative base and level, a deeper chain never lowers the final score. |
| `Score.FiveLetterWordAtLevelTwo` | cursor-sonnet/src/utils/score.ts:73-89 | A five-letter word with base 10, at level 2, combo 1 and chain 0, scores 40. |
| `Score.LineScore` | cursor-sonnet/src/utils/score.ts:104-108 | `calculateLineScore`. |
| `Score.LineScoreGrowth` | cursor-sonnet/src/utils/score.ts:104-108 | One line earns 25 per level, and n ≥ 2 lines earn 50 per level per line. No lines earn 0, and at a positive level more lines earn more. |
| `Score.Level` | cursor-sonnet/src/utils/score.ts:113-115 | `calculateLevel`. |
| `Score.LevelBounds` | cursor-sonnet/src/utils/score.ts:113-115 | The level stays in 1 to 20 and never falls as words are formed. It is 20 exactly from 190 words on. |
| `Score.FallSpeed` | cursor-sonnet/src/utils/score.ts:120-126 | `calculateFallSpeed`. |
| `Score.FallSpeedBounds` | cursor-sonnet/src/utils/score.ts:120-126 | The fall speed is 1000 ms at level 1 and never below 100 ms. It never rises with the level, and it is 100 ms exactly from level 19 on. |
| `WordFinder.RunWord` | cursor-sonnet/src/utils/words.ts:19-27 | The letters of the run of tiles that ends just before index x; no longer than x. |
| `WordFinder.RunStart` | cursor-sonnet/src/utils/words.ts:23-25 | Where that run starts (`startX`), between 0 and x. |
| `WordFinder.RunPositions` | cursor-sonnet/src/utils/words.ts:29-32 | The positions pushed for a word: n consecutive cells of the line from its start. |
| `WordFinder.ScanLine` | cursor-sonnet/src/utils/words.ts:16-52 | The loop over one row (or column) returns exactly the matches of the line scan specification, in order. |
| `WordFinder.TileExtendsRun` | cursor-sonnet/src/utils/words.ts:19-27 | One index further, a tile extends the current word by its letter and reports nothing. |
| `WordFinder.RunEndReports` | cursor-sonnet/src/utils/words.ts:27-52 | An empty cell or the end of the line reports the current word, laid from where its run started, when it has at least 3 letters and is valid. The next word starts empty. |
| `WordFinder.CloseRun` | cursor-sonnet/src/utils/words.ts:27-52 | The empty-cell branch of the scan takes the matches found before index x to exactly those found up to and including x, and the next word starts empty. |
| `WordFinder.BuildMatch` | cursor-sonnet/src/utils/words.ts:29-48 | The positions loop and the score choice build the match of the word at its start. |
| `WordFinder.FindWordsSpec` | cursor-sonnet/src/utils/words.ts:11-97 | Every row's matches top-down, then every column's left to right. Definition; its properties are in `FindWordsSound`, `FindWordsCompleteRows`, `FindWordsCompleteColumns` and `FindWordsInScanOrder`. |
| `WordFinder.FindWords` | cursor-sonnet/src/utils/words.ts:11-97 | `findWords` returns the matches of every row top-down, then every column left to right. |
| `WordFinder.RunWordSpellsCells` | cursor-sonnet/src/utils/words.ts:19-27 | The run's cells are tiles that spell its word in order, and the cell before the run is empty or off the line. |
| `WordFinder.RunWordOfMaximalRun` | cursor-sonnet/src/utils/words.ts:19-28 | A run of tiles preceded by an empty cell or the line start is exactly the word the scan has built when it reaches the run's end. |
| `WordFinder.MatchAtSpells` | cursor-sonnet/src/utils/words.ts:29-32 | A reported match lies on consecutive cells of its line, holding tiles that spell the word, from the run's first cell. |
| `WordFinder.RunPositionsSpell` | cursor-sonnet/src/utils/words.ts:29-32 | The run's positions are one step apart, on the board, and hold its letters. |
| `WordFinder.MatchAtIsMaximal` | cursor-sonnet/src/utils/words.ts:19-28 | The cells just before and just after a reported match are empty or off the board, so no sub-run is ever reported. |
| `WordFinder.MatchAtIsWellFormed` | cursor-sonnet/src/utils/words.ts:28-48 | A match emitted at an index is well formed: at least 3 letters, valid, spelled on the grid, bounded, and scored with the base score when there is no earlier grid. |
| `WordFinder.LineMatchesAreEmitted` | cursor-sonnet/src/utils/words.ts:19-52 | Every match of a line is the match emitted where some run closes. |
| `WordFinder.RowsAndColumnsAreLines` | cursor-sonnet/src/utils/words.ts:15-61 | Row k is the horizontal line k of the grid, and column k is the vertical line k read top to bottom. |
| `WordFinder.LineMatchWellFormed` | cursor-sonnet/src/utils/words.ts:19-52 | Every match of a line of the grid is well formed. |
| `WordFinder.RowMatchesWellFormed` | cursor-sonnet/src/utils/words.ts:15-53 | Every match of the row scan is well formed. |
| `WordFinder.ColumnMatchesWellFormed` | cursor-sonnet/src/utils/words.ts:56-94 | Every match of the column scan is well formed. |
| `WordFinder.FindWordsSound` | cursor-sonnet/src/utils/words.ts:11-97 | Every match of `findWords` has 3 or more letters and passes `isValidWord`. Its positions are consecutive cells of one row or column and spell the word, with an empty cell or the edge at both ends. Without the earlier grid its score is `calculateWordBaseScore`. |
| `WordFinder.EmittedIsInLineMatches` | cursor-sonnet/src/utils/words.ts:19-52 | Wherever a valid run of 3 or more closes, the line scan reports its match. |
| `WordFinder.RowMatchesContainRow` | cursor-sonnet/src/utils/words.ts:15-53 | The row scan contains every match of each row. |
| `WordFinder.ColumnMatchesContainColumn` | cursor-sonnet/src/utils/words.ts:56-94 | The column scan contains every match of each column. |
| `WordFinder.WordRunIsEmitted` | cursor-sonnet/src/utils/words.ts:19-28 | A maximal valid run of 3 or more tiles closes at its end index, with exactly its letters. |
| `WordFinder.FindWordsCompleteRows` | cursor-sonnet/src/utils/words.ts:15-53 | Every maximal run of 3 or more tiles in a row that the dictionary accepts is reported, as a horizontal match on exactly those cells. |
| `WordFinder.FindWordsCompleteColumns` | cursor-sonnet/src/utils/words.ts:56-94 | The same for every such run in a column, as a vertical match. |
| `WordFinder.LineMatchesSameWords` | cursor-sonnet/src/utils/words.ts:34-41 | With or without the earlier grid, a line reports the same words on the same cells. |
| `WordFinder.RowMatchesSameWords` | cursor-sonnet/src/utils/words.ts:15-53 | The same holds for the row scan. |
| `WordFinder.ColumnMatchesSameWords` | cursor-sonnet/src/utils/words.ts:56-94 | The same holds for the column scan. |
| `WordFinder.PriorGridOnlyChangesScores` | cursor-sonnet/src/utils/words.ts:34-41 | `gridBeforeLock` only changes scores: `findWords` reports the same words, on the same cells, in the same order. |
| `WordFinder.NoLineMatchWithoutDictionary` | cursor-sonnet/src/utils/words.ts:28 | A line reports nothing while the dictionary is not loaded. |
| `WordFinder.NoLineMatchesBeforeLoading` | cursor-sonnet/src/utils/words.ts:15-94 | The row and column scans report nothing while the dictionary is not loaded. |
| `WordFinder.NothingFoundBeforeLoading` | cursor-sonnet/src/utils/words.ts:11-97 | `findWords` returns no match before the dictionary is loaded. |
| `WordFinder.RunStartsAfterEmptyCells` | cursor-sonnet/src/utils/words.ts:22-25 | A run starts after every empty cell before it. |
| `WordFinder.EarlierMatchStartsBefore` | cursor-sonnet/src/utils/words.ts:19-52 | A match reported earlier on a line starts before the run that closes now. |
| `WordFinder.StartOfMatchAt` | cursor-sonnet/src/utils/words.ts:29-32 | A reported match lies along its line and starts where its run starts. |
| `WordFinder.LineMatchesOrdered` | cursor-sonnet/src/utils/words.ts:19-52 | Within a line, each match starts after the previous one ended. |
| `WordFinder.LineMatchShape` | cursor-sonnet/src/utils/words.ts:28-32 | A match of a line lies on that line, has 3 or more cells and starts at index 7 at most. |
| `WordFinder.LineMatchesInOrder` | cursor-sonnet/src/utils/words.ts:19-52 | A line's matches are in scan order, with ranks inside that line's band. |
| `WordFinder.ConcatInScanOrder` | cursor-sonnet/src/utils/words.ts:15-94 | Two ordered lists, with every rank of the first below every rank of the second, stay ordered when joined. |
| `WordFinder.RowMatchesInOrder` | cursor-sonnet/src/utils/words.ts:15-53 | The row scan is in order, and its ranks are below those of the columns. |
| `WordFinder.ColumnMatchesInOrder` | cursor-sonnet/src/utils/words.ts:56-94 | The column scan is in order, and its ranks come after those of all rows. |
| `WordFinder.FindWordsInScanOrder` | cursor-sonnet/src/utils/words.ts:11-97 | The output order of `findWords`: horizontal matches row by row top-down, then vertical matches column by column left to right. Within a line, matches follow the order of their first cells. |
| `WordSelection.GetLengthBonus` | cursor-sonnet/src/utils/words.ts:129-141 | `getLengthBonus`: the table for 3 to 10, otherwise 4.5 + 0.5 per letter past 10, or 1. Definition; its properties are in `GetLengthBonusAgrees`. |
| `WordSelection.EffectiveScore` | cursor-sonnet/src/utils/words.ts:124-127 | `calculateEffectiveScore`: score × length bonus × level. Definition; the selection by it is proved in `BestIndexIsFirstMaximum`. |
| `WordSelection.GetLengthBonusAgrees` | cursor-sonnet/src/utils/words.ts:129-141 | `getLengthBonus` is the table for 3 to 10, 4.5 plus 0.5 per letter past 10, and 1 below 3. It equals the scorer's bonus and is at least 1. |
| `WordSelection.BestIndex` | cursor-sonnet/src/utils/words.ts:103-122 | The selected index lies among the first n. |
| `WordSelection.FindHighestScoringWord` | cursor-sonnet/src/utils/words.ts:103-122 | The result is null exactly for an empty list. Otherwise it is the word at the first index with the highest effective score, base × length bonus × level (`calculateEffectiveScore`). |
| `WordSelection.BestIndexIsFirstMaximum` | cursor-sonnet/src/utils/words.ts:113-119 | No word scores higher than the selected one, and every earlier word scores strictly lower, so ties keep the earlier word. |
| `WordSelection.FirstMaximumIsUnique` | cursor-sonnet/src/utils/words.ts:103-122 | Any index that is a maximum with only strictly lower scores before it is the selected index. |
| `Gravity.Stack` | cursor-sonnet/src/utils/words.ts:169-175 | The tiles of a column from row y down, lowest first. There are no more of them than rows. |
| `Gravity.CompactFromCells` | cursor-sonnet/src/utils/words.ts:166-176 | After compacting columns x to 9 one at a time, those columns hold their tiles packed at the bottom and the others are untouched. |
| `Gravity.CompactColumnKeepsOtherStacks` | cursor-sonnet/src/utils/words.ts:166-176 | Compacting one column leaves every other column's tiles alone. |
| `Gravity.GravityIsPacked` | cursor-sonnet/src/utils/words.ts:160-179 | Compacting column by column gives the grid with every column packed at once. |
| `Gravity.PackedCellPush` | cursor-sonnet/src/utils/words.ts:170-175 | Writing the next tile at `writeY` fills the next row up and leaves the others. |
| `Gravity.Gravity` | cursor-sonnet/src/utils/words.ts:160-179 | The grid after gravity, column by column. Definition; its properties are in `GravityIsPacked`, `GravityKeepsColumnTiles`, `GravityPacks` and `GravityIdempotent`. |
| `Gravity.ApplyGravity` | cursor-sonnet/src/utils/words.ts:160-179 | The loop with its decrementing `writeY` returns the gravity grid. |
| `Gravity.RemoveWordBlocks` | cursor-sonnet/src/utils/words.ts:146-155 | Removing a word returns gravity applied to a copy with exactly the word's cells emptied. The input grid is a value and is not changed. |
| `Gravity.StackOfPacked` | cursor-sonnet/src/utils/words.ts:160-179 | In the packed grid, the tiles from row y down are the lowest tiles of the original column. |
| `Gravity.StackOfPackedColumn` | cursor-sonnet/src/utils/words.ts:160-179 | A column holding some tiles packed at the bottom stacks, from row y down, the lowest of those tiles that fit. |
| `Gravity.GravityKeepsColumnTiles` | cursor-sonnet/src/utils/words.ts:166-176 | Gravity keeps each column's tiles in the same bottom-to-top order, and so keeps their number. |
| `Gravity.GravityPacks` | cursor-sonnet/src/utils/words.ts:160-179 | After gravity no tile sits above an empty cell, and each column is its tiles packed at the bottom. |
| `Gravity.GravityIdempotent` | cursor-sonnet/src/utils/words.ts:160-179 | Applying gravity twice equals applying it once. |
| `Gravity.RemovalCompactsEveryColumn` | cursor-sonnet/src/utils/words.ts:166-176 | A column the removed word does not touch still ends up as gravity alone would leave it. |
| `Gravity.RemovalKeepsOtherTiles` | cursor-sonnet/src/utils/words.ts:146-155 | After a removal each column holds, in order, exactly its tiles not on the word. The word's cells are emptied. |
| `Letters.DrawLetter` | cursor-sonnet/src/utils/letters.ts:12-21 | The letter a draw of `random` in the bag selects, or 'E' past the bag. Definition; its properties are in `DrawIsFirstCoveringLetter`, `FallbackOnlyPastTheBag` and `DrawIsALetter`. |
| `Letters.FirstCovering` | cursor-sonnet/src/utils/letters.ts:14-19 | The index the subtraction loop stops at, or the end of the table. It is never before the start. |
| `Letters.SumWeights` | cursor-sonnet/src/utils/letters.ts:8-10 | The `reduce` over the weights returns the bag's total. |
| `Letters.GetRandomLetter` | cursor-sonnet/src/utils/letters.ts:7-22 | The loop over the weights returns the letter chosen for `random = u × 98`. |
| `Letters.FirstCoveringIsLeast` | cursor-sonnet/src/utils/letters.ts:14-19 | The index found is the least one whose running total reaches the draw. |
| `Letters.RunningTotalsAscend` | cursor-sonnet/src/utils/letters.ts:14-19 | The running totals of the bag never fall. |
| `Letters.FallbackOnlyPastTheBag` | cursor-sonnet/src/utils/letters.ts:21 | The fallback 'E' is taken exactly when the draw exceeds the 98 tiles. |
| `Letters.DrawIsFirstCoveringLetter` | cursor-sonnet/src/utils/letters.ts:14-19 | A draw up to 98 returns the first letter, in A to Z order, whose running total reaches the draw. Every earlier letter's total falls short. |
| `Letters.DrawIsALetter` | cursor-sonnet/src/utils/letters.ts:8-19 | For 0 ≤ u < 1, the letter drawn is a key of the bag, one of A to Z with a point value. |
| `Letters.GetColorForValue` | cursor-sonnet/src/utils/letters.ts:42-44 | The colour of a point value, or the 1-point colour. |
| `Letters.NewBlock` | cursor-sonnet/src/utils/letters.ts:27-37 | The block built for the letter drawn with `u`. |
| `Letters.CreateBlock` | cursor-sonnet/src/utils/letters.ts:27-37 | `createBlock` returns the block for the drawn letter. |
| `Letters.BlockForLetter` | cursor-sonnet/src/utils/letters.ts:28-30 | A block for a letter A to Z carries that letter's value, which is positive, and the colour of that value. No fallback colour is needed, and the colour agrees with `getColorForValue`. |
| `StoreTransitions.NewBlocks` | cursor-sonnet/src/store/gameStore.ts:59 | One new tile per random number. |
| `StoreTransitions.NewBlocksAt` | cursor-sonnet/src/store/gameStore.ts:59 | The i-th new tile is drawn from the i-th number. |
| `StoreTransitions.NewBlocksOfLongerPrefix` | cursor-sonnet/src/store/gameStore.ts:59 | One more number adds one more tile, at the end. |
| `StoreTransitions.Initial` | cursor-sonnet/src/store/gameStore.ts:35-52 | The initial store state. |
| `StoreTransitions.StartGame` | cursor-sonnet/src/store/gameStore.ts:58-73 | `startGame`: five tiles are drawn, the first falls, and a sixth is queued. |
| `StoreTransitions.PauseGame` | cursor-sonnet/src/store/gameStore.ts:75-79 | `pauseGame`: sets `isPaused`. Definition; `GameOverIsValid` and `GameStore.PauseGame` state its effect. |
| `StoreTransitions.ResumeGame` | cursor-sonnet/src/store/gameStore.ts:81-85 | `resumeGame`: clears `isPaused`. Definition; `GameOverIsValid` and `GameStore.ResumeGame` state its effect. |
| `StoreTransitions.GameOver` | cursor-sonnet/src/store/gameStore.ts:87-101 | `gameOver`: the high score becomes the larger of score and high score, and play stops. Definition; its properties are in `GameOverIsValid` and `LockInTopRowsEndsGame`. |
| `StoreTransitions.MoveBlock` | cursor-sonnet/src/store/gameStore.ts:107-139 | `moveBlock` as a transition returning the new state and whether the tile moved. |
| `StoreTransitions.SoftDrop` | cursor-sonnet/src/store/gameStore.ts:141-170 | `softDrop` as a transition. |
| `StoreTransitions.Tick` | cursor-sonnet/src/store/gameStore.ts:201-227 | `tick` as a transition. |
| `StoreTransitions.Spawn` | cursor-sonnet/src/store/gameStore.ts:266-274 | The head of the queue falls from (4, 0), and a new tile joins the queue. |
| `StoreTransitions.PushRecent` | cursor-sonnet/src/store/gameStore.ts:342 | The newest word goes in front, and the list is cut to three. |
| `StoreTransitions.StoreRules` | cursor-sonnet/src/store/gameStore.ts:319-390 | The cascade's rules: `findWords` without the earlier grid, `calculateWordScore(word, level, 1, chain)`, and `removeWordBlocks`. |
| `StoreTransitions.CascadeFrom` | cursor-sonnet/src/store/gameStore.ts:319-390 | `processWordRemoval` run to its end. |
| `StoreTransitions.CascadeStep` | cursor-sonnet/src/store/gameStore.ts:319-390 | The cascade stops unchanged on a board without words. Otherwise it removes the best word and goes on while the new board holds a word and the chain level is below 10. |
| `StoreTransitions.Finalize` | cursor-sonnet/src/store/gameStore.ts:392-430 | `finalizeBlockLock` as a transition. |
| `StoreTransitions.FinalizeOverwritesCascadeFields` | cursor-sonnet/src/store/gameStore.ts:419-429 | Finalising sets the grid, score and recent words from the cascade, so their earlier values do not matter. |
| `StoreTransitions.LockBlock` | cursor-sonnet/src/store/gameStore.ts:229-430 | `lockBlock` as a transition. |
| `StoreTransitions.LockCurrent` | cursor-sonnet/src/store/gameStore.ts:238-430 | The lock once the delay is cancelled: no tile changes nothing; top-out ends the game; no word locks and spawns; otherwise cascade and finalise. Definition; its properties are in `LockInTopRowsEndsGame`, `LockWithoutWordSkipsClearing`, `LockCascade` and `LockBlockIsValid`. |
| `StoreTransitions.HardDrop` | cursor-sonnet/src/store/gameStore.ts:172-199 | `hardDrop` as a transition, with the distance fallen. |
| `StoreTransitions.Dropped` | cursor-sonnet/src/store/gameStore.ts:172-194 | The state a hard drop locks: delay cancelled, the tile at the landing row, 2 points per row. Definition; its properties are in `DroppedLanding` and `DroppedIsValid`. |
| `StoreTransitions.LockDelayExpired` | cursor-sonnet/src/store/gameStore.ts:162-165 | The lock-delay timeout: the tile locks and the flags are cleared. |
| `StoreTransitions.InitialIsValid` | cursor-sonnet/src/store/gameStore.ts:35-52 | The initial state satisfies the invariant and is not game over. |
| `StoreTransitions.StartGameIsValid` | cursor-sonnet/src/store/gameStore.ts:58-73 | From any state, a new game is valid and playing, not paused and not over. The first drawn tile falls from (4, 0). The queue holds draws 2 to 6 in order. Score and word count are 0, the level is 1 and the high score is kept. The grid is empty, the recent words and the chain are reset, and no lock delay is pending. |
| `StoreTransitions.MoveBlockIsValid` | cursor-sonnet/src/store/gameStore.ts:107-139 | Moves keep the invariant. |
| `StoreTransitions.SoftDropIsValid` | cursor-sonnet/src/store/gameStore.ts:141-170 | Soft drops keep the invariant. |
| `StoreTransitions.TickIsValid` | cursor-sonnet/src/store/gameStore.ts:201-227 | Ticks keep the invariant. |
| `StoreTransitions.GameOverIsValid` | cursor-sonnet/src/store/gameStore.ts:75-101 | Game over, pause and resume keep the invariant. |
| `StoreTransitions.MoveBlockOutcome` | cursor-sonnet/src/store/gameStore.ts:107-139 | A refused move changes nothing. A move is accepted exactly when playing, not paused, with a tile, and the target can hold it. An accepted move changes only the column, by dx, and the lock-delay flags. The delay is cancelled exactly when a timeout was pending and the cell below the target is free. |
| `StoreTransitions.SoftDropOutcome` | cursor-sonnet/src/store/gameStore.ts:141-170 | When the row below is free, the tile moves down one row for one point and no timeout is left pending. Otherwise only the lock delay changes: it is running afterwards. No other field changes in either case, and there is no playing guard. |
| `StoreTransitions.TickOutcome` | cursor-sonnet/src/store/gameStore.ts:201-227 | Ticking does nothing when not playing or paused. During play, a free row below moves the tile down one row and cancels the delay, and nothing else changes. A landed tile changes only the lock delay, which is running afterwards. A second tick then changes nothing more. |
| `StoreTransitions.TicksReachDropRow` | cursor-sonnet/src/store/gameStore.ts:201-227 | Ticks move a tile down exactly to the row a hard drop reaches: the tile is at that row exactly when it cannot fall, and a tick keeps the target row. |
| `StoreTransitions.DroppedLanding` | cursor-sonnet/src/store/gameStore.ts:172-194 | Before the lock, a hard drop cancels the delay and moves down a non-negative distance to `DropRow`, a row on the board. Every row passed can hold the tile and the row below the landing row cannot. The score gains twice the distance. |
| `StoreTransitions.HardDropOutcome` | cursor-sonnet/src/store/gameStore.ts:172-199 | The distance returned is `DropRow` (the landing row of `getDropPosition`) minus the start row. The state locked is the start state with the delay cancelled, the tile at that row and 2 × distance added to the score. What the landing row means is given by `DroppedLanding` and `Collision.DropRowIsFirstStop`. |
| `StoreTransitions.LockInTopRowsEndsGame` | cursor-sonnet/src/store/gameStore.ts:253-259 | Locking in row 0 or 1 ends the game. Play stops, the high score becomes max(high score, score), and the grid and score stay as they were, without the tile. |
| `StoreTransitions.LockWithoutWordSkipsClearing` | cursor-sonnet/src/store/gameStore.ts:261-276 | A lock that forms no word keeps the locked grid uncleared, with score, level and word count unchanged. The next tile spawns from the queue at (4, 0) and the lock delay is cancelled. Nothing else changes. |
| `StoreTransitions.LockFindsWordsWithOrWithoutPremium` | cursor-sonnet/src/store/gameStore.ts:262-264 | Whether a lock finds a word does not depend on the earlier grid passed for premium scoring. |
| `StoreTransitions.CascadeChain` | cursor-sonnet/src/store/gameStore.ts:363-389 | The chain level only grows and never passes 10, with one word credited per chain level. |
| `StoreTransitions.CascadeKeepsCredited` | cursor-sonnet/src/store/gameStore.ts:339-342 | A cascade only adds credited words, and the earlier ones stay in order. |
| `StoreTransitions.CascadeStopsWithoutWords` | cursor-sonnet/src/store/gameStore.ts:363-389 | A cascade that ends below chain level 10 leaves no word on the board. |
| `StoreTransitions.CascadeScoresAtChainLevels` | cursor-sonnet/src/store/gameStore.ts:326-341 | The i-th credited word was scored at chain level i, from its plain letter sum. |
| `StoreTransitions.FinderScoresPlainly` | cursor-sonnet/src/store/gameStore.ts:326 | The cascade's `findWords` scores every word with `calculateWordBaseScore`, so premium squares never reach a credited score. |
| `StoreTransitions.StoreRulesAreSound` | cursor-sonnet/src/store/gameStore.ts:326-353 | The store's finder scores plainly, and its scorer keeps the match it scores. |
| `StoreTransitions.RemoveBestScores` | cursor-sonnet/src/store/gameStore.ts:326-342 | One step appends exactly one credited word: `BestMatch` of the words found (the first with the highest effective score, see `WordSelection.BestIndexIsFirstMaximum`), scored at the current chain level. Every credited word stays scored at its chain level from its plain sum. |
| `StoreTransitions.CascadeCreditsBestFirst` | cursor-sonnet/src/store/gameStore.ts:326-342 | The first word a cascade credits is `BestMatch` of the words on its starting board, scored at the starting chain level. Later steps only append. |
| `StoreTransitions.CascadeScoreAndRecent` | cursor-sonnet/src/store/gameStore.ts:339-342 | A cascade adds exactly the credited final scores to the total, and pushes the credited words onto the recent list in turn. |
| `StoreTransitions.PushAllShape` | cursor-sonnet/src/store/gameStore.ts:342 | The recent list holds the newest words first, and at most three of them. |
| `StoreTransitions.LockCascade` | cursor-sonnet/src/store/gameStore.ts:315-390 | A lock's cascade credits at most 11 words. When the locked board holds a word, the first word credited is the best one found there, at chain 0. The score grows by the credited final scores, each scored at its chain level from its plain sum. The recent list is newest-first, capped at 3. A chain ending early leaves no word. |
| `StoreTransitions.WordsFormedCountsRecentList` | cursor-sonnet/src/store/gameStore.ts:392-409 | With three recent words, every lock with a word adds 3 to `wordsFormed` and sets the level from that count, however many words it removed. |
| `StoreTransitions.FinalizeOutcome` | cursor-sonnet/src/store/gameStore.ts:392-430 | Full rows are cleared, and the line score at the new level is added only when a line was cleared. `wordsFormed` grows by the recent-list length. The level is `calculateLevel` of the new count, so it lies in 1 to 20. The chain and the recent words are the cascade's. The next tile falls from (4, 0) with five queued. Nothing else changes. |
| `StoreTransitions.LockBlockIsValid` | cursor-sonnet/src/store/gameStore.ts:229-430 | Locking keeps the invariant. |
| `StoreTransitions.CascadeLockIsValid` | cursor-sonnet/src/store/gameStore.ts:295-430 | A lock that forms a word ends in a valid state. |
| `StoreTransitions.CascadeKeepsRecentShort` | cursor-sonnet/src/store/gameStore.ts:342 | The recent list never grows past three words. |
| `StoreTransitions.LockDelayExpiredIsValid` | cursor-sonnet/src/store/gameStore.ts:162-165 | The timeout keeps the invariant and leaves no timeout pending. |
| `StoreTransitions.HardDropIsValid` | cursor-sonnet/src/store/gameStore.ts:172-199 | Hard drops keep the invariant. |
| `StoreTransitions.DroppedIsValid` | cursor-sonnet/src/store/gameStore.ts:172-194 | The dropped state is valid, because the landing row is on the board. |
| `GameSession.ProcessWordRemoval` | cursor-sonnet/src/store/gameStore.ts:319-390 | The cascade loop ends in the grid, score, recent list and chain level of `CascadeFrom` from chain 0. |
| `GameSession.RemoveHighestWord` | cursor-sonnet/src/store/gameStore.ts:333-361 | One pass picks the best word, scores it at the chain level, pushes it onto the recent list and removes it under gravity, as `RemoveBest`. |
| `GameSession.CreateBlocks` | cursor-sonnet/src/store/gameStore.ts:59 | One new tile per random number, in order. |
| `GameSession.GameStore.constructor` | cursor-sonnet/src/store/gameStore.ts:35-56 | The store starts in the initial state, which is valid. |
| `GameSession.GameStore.StartGame` | cursor-sonnet/src/store/gameStore.ts:58-73 | The fields become the `StartGame` state, which is valid. |
| `GameSession.GameStore.Begin` | cursor-sonnet/src/store/gameStore.ts:65-72 | The `set` of `startGame`: the fields become a new game with the given tiles. |
| `GameSession.GameStore.ClearSession` | cursor-sonnet/src/store/gameStore.ts:65-72 | The board is emptied and score, level, word count, recent words, chain and lock delay are reset, with the tile at the spawn point. The high score, the tiles and the playing flag are left alone. |
| `GameSession.GameStore.ResetGame` | cursor-sonnet/src/store/gameStore.ts:103-105 | Resetting starts a new game. |
| `GameSession.GameStore.PauseGame` | cursor-sonnet/src/store/gameStore.ts:75-79 | Only `isPaused` becomes true, and the store stays valid. |
| `GameSession.GameStore.ResumeGame` | cursor-sonnet/src/store/gameStore.ts:81-85 | Only `isPaused` becomes false, and the store stays valid. |
| `GameSession.GameStore.GameOver` | cursor-sonnet/src/store/gameStore.ts:87-101 | The fields become the `GameOver` state, and validity is kept. |
| `GameSession.GameStore.MoveBlock` | cursor-sonnet/src/store/gameStore.ts:107-139 | The fields and the returned flag are those of the `MoveBlock` transition, and the store stays valid. |
| `GameSession.GameStore.SoftDrop` | cursor-sonnet/src/store/gameStore.ts:141-170 | The fields become the `SoftDrop` state, and the store stays valid. |
| `GameSession.GameStore.Tick` | cursor-sonnet/src/store/gameStore.ts:201-227 | The fields become the `Tick` state, and the store stays valid. |
| `GameSession.GameStore.SpawnNext` | cursor-sonnet/src/store/gameStore.ts:266-274 | The fields become the `Spawn` state. |
| `GameSession.GameStore.FinalizeBlockLock` | cursor-sonnet/src/store/gameStore.ts:392-430 | The fields become the `Finalize` state for the cascade that ended. |
| `GameSession.GameStore.LockBlock` | cursor-sonnet/src/store/gameStore.ts:229-293 | The fields become the `LockBlock` state, and the store stays valid. |
| `GameSession.GameStore.LockCurrent` | cursor-sonnet/src/store/gameStore.ts:238-293 | With the delay cancelled, the fields become the `LockCurrent` state. |
| `GameSession.GameStore.ResolveWords` | cursor-sonnet/src/store/gameStore.ts:295-317 | After a lock that formed a word, the fields become the finalised state of the full cascade from chain level 0. |
| `GameSession.GameStore.HardDrop` | cursor-sonnet/src/store/gameStore.ts:172-199 | The fields and the returned distance are those of the `HardDrop` transition, and the store stays valid. |
| `GameSession.GameStore.DropToLanding` | cursor-sonnet/src/store/gameStore.ts:173-194 | The `hardDrop` loop moves the tile to the `Dropped` state and returns the rows fallen. |
| `GameSession.GameStore.LockDelayExpired` | cursor-sonnet/src/store/gameStore.ts:162-165 | The pending timeout fires: the fields become the `LockDelayExpired` state, and the store stays valid. |

## Left out

- Audio (`audioManager` calls), rendering, keyboard and touch input, the animation loop, `localStorage` persistence and the static-file server are not part of this model. The audio calls have no effect on the state. The stored high score and the stored settings are parameters.
- `updateSettings` is not modelled. It only stores settings and forwards them to the audio player.
- Timers. The lock delay is a flag, and its firing is the explicit `LockDelayExpired` action. The 450 ms pauses of the cascade are dropped, and the whole cascade runs to its end inside `lockBlock`. The model therefore does not capture actions that interleave with a running cascade, nor a stale timeout firing after `startGame`.
- `pauseGame` does not suspend a pending lock-delay timeout, and neither does the model. Resuming with the remaining time is not modelled.
- `animatingBlocks` and the `Date.now` stamps are not kept. The premium-scored choice of the first word at a lock only picks the tiles to animate, so it changes no stored field.
- The branches for `findHighestScoringWord` returning null after a non-empty list are not modelled. They cannot run, because a non-empty list always yields a word.
- The fetch, the promise caching (`loadingPromise`), `ensureDictionaryLoaded`, `getDictionary` and the `Proxy` export are not modelled. Loading takes the fetch outcome as an input and settles at once.
- `toUpperCase` and `trim` are modelled for ASCII letters and the JavaScript white-space characters. Unicode case mapping and UTF-16 length are not modelled. A tile holds a single character.
- `Math.random()` is the parameter `u`. The model does not capture floating-point rounding of `u × 98` or of the score product. Arithmetic is exact over reals, which matches the code because every multiplier is a whole number of halves.
- `calculateFallSpeed` uses its own constants (1000, 50, 100), not `INITIAL_FALL_SPEED` or `FALL_SPEED_DECREASE`. The model follows the code.
- `Gravity.RemoveWordBlocks`: requires every position's row to be on the board, because the source would crash on a missing row. A column off the board is ignored, and the source's write there is never read by gravity.
- The reverse direction of the colour table (every colour key is some letter's value) is not stated. Only the direction the tile factory relies on is proved.
