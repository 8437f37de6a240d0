/**
 * The game's constant tables: board size, Scrabble letter values and tile
 * distribution, colours per point value, and the word-length, combo and
 * chain multipliers, with the facts the rest of the model relies on.
 */
module GameConstants {

  const GridWidth: int := 10
  const GridHeight: int := 10

  const BlockSize: int := 30
  const InitialFallSpeed: int := 500
  const MinFallSpeed: int := 100
  const FallSpeedDecrease: int := 30
  const LockDelay: int := 500

  /** The letters A to Z, in the key order of the letter tables. */
  const Alphabet: string := "ABCDEFGHIJKLMNOPQRSTUVWXYZ"

  /** Scrabble point value of each letter. */
  const LetterValues: map<char, int> := map[
    'A' := 1, 'B' := 3, 'C' := 3, 'D' := 2, 'E' := 1, 'F' := 4, 'G' := 2, 'H' := 4, 'I' := 1, 'J' := 8,
    'K' := 5, 'L' := 1, 'M' := 3, 'N' := 1, 'O' := 1, 'P' := 3, 'Q' := 10, 'R' := 1, 'S' := 1, 'T' := 1,
    'U' := 1, 'V' := 4, 'W' := 4, 'X' := 8, 'Y' := 4, 'Z' := 10]

  /** Number of tiles per letter, in the record's key order (A to Z). */
  const LetterDistribution: seq<(char, int)> := [
    ('A', 9), ('B', 2), ('C', 2), ('D', 4), ('E', 12), ('F', 2), ('G', 3), ('H', 2), ('I', 9), ('J', 1),
    ('K', 1), ('L', 4), ('M', 2), ('N', 6), ('O', 8), ('P', 2), ('Q', 1), ('R', 6), ('S', 4), ('T', 6),
    ('U', 4), ('V', 2), ('W', 2), ('X', 1), ('Y', 2), ('Z', 1)]

  /** Display colour per point value. */
  const LetterColors: map<int, string> := map[
    1 := "#4ecdc4", 2 := "#45b7d1", 3 := "#96ceb4", 4 := "#ffa351",
    5 := "#ff8b94", 8 := "#ffd93d", 10 := "#ff6b6b"]

  /** Word-length bonus for the lengths the table lists. */
  const WordLengthBonus: map<int, real> := map[
    3 := 1.0, 4 := 1.5, 5 := 2.0, 6 := 2.5, 7 := 3.0, 8 := 3.5, 9 := 4.0, 10 := 4.5]

  /** Multiplier for several words at once, indexed by the word count. */
  const ComboMultipliers: seq<real> := [1.0, 1.0, 1.5, 2.0, 2.5]

  /** Multiplier for cascade words, indexed by the chain depth. */
  const ChainMultipliers: seq<real> := [1.0, 1.5, 2.0, 2.5]

  const WordsPerLevel: int := 10
  const MaxLevel: int := 20
  const LineClearBaseScore: int := 25

  /** `LETTER_VALUES[c] || 0`: the point value of a letter, 0 for any other character. */
  function LetterValue(c: char): int {
    if c in LetterValues then LetterValues[c] else 0
  }

  /** The letters of the distribution, in order. */
  function DistributionLetters(d: seq<(char, int)>): (r: string)
    ensures |r| == |d|
    ensures forall i :: 0 <= i < |d| ==> r[i] == d[i].0
  {
    seq(|d|, i requires 0 <= i < |d| => d[i].0)
  }

  /** Sum of the weights of `d`, added left to right. */
  function WeightSum(d: seq<(char, int)>): int {
    if |d| == 0 then 0 else WeightSum(d[..|d| - 1]) + d[|d| - 1].1
  }

  /** Total number of tiles in the bag. */
  function TotalWeight(): int {
    WeightSum(LetterDistribution)
  }

  lemma {:induction false} WeightSumPositive(d: seq<(char, int)>)
    requires forall i :: 0 <= i < |d| ==> d[i].1 > 0
    ensures |d| > 0 ==> WeightSum(d) > 0
    ensures WeightSum(d) >= 0
  {
    if |d| > 0 {
      WeightSumPositive(d[..|d| - 1]);
    }
  }

  /** The board is 10 columns by 10 rows. */
  lemma GridIsTenByTen()
    ensures GridWidth == 10 && GridHeight == 10
  {
  }

  /** Every letter A to Z has a positive point value. */
  lemma EveryLetterHasPositiveValue()
    ensures |Alphabet| == 26
    ensures forall i :: 0 <= i < |Alphabet| ==> Alphabet[i] in LetterValues && LetterValue(Alphabet[i]) > 0
    ensures forall c :: c in LetterValues <==> c in Alphabet
  {
  }

  /** Every point value that a letter carries has its own colour. */
  lemma EveryLetterValueHasColor()
    ensures forall c :: c in LetterValues ==> LetterValues[c] in LetterColors
  {
  }

  /** The tile bag covers A to Z in order and every weight is positive. */
  lemma DistributionCoversAlphabet()
    ensures DistributionLetters(LetterDistribution) == Alphabet
    ensures forall i :: 0 <= i < |LetterDistribution| ==> LetterDistribution[i].1 > 0
  {
  }

  /** Running totals of the tile bag: the first k letters hold RunningTotals[k] tiles. */
  const RunningTotals: seq<int> := [0, 9, 11, 13, 17, 29, 31, 34, 36, 45, 46, 47, 51, 53, 59,
                                    67, 69, 70, 76, 80, 86, 90, 92, 94, 95, 97, 98]

  lemma {:induction false} PrefixWeights(k: nat)
    requires k <= |LetterDistribution|
    ensures WeightSum(LetterDistribution[..k]) == RunningTotals[k]
  {
    if k > 0 {
      PrefixWeights(k - 1);
      assert LetterDistribution[..k][..k - 1] == LetterDistribution[..k - 1];
    }
  }

  /** Each running total adds the next letter's weight to the previous one. */
  lemma RunningTotalStep(i: nat)
    requires i < |LetterDistribution|
    ensures |RunningTotals| == |LetterDistribution| + 1
    ensures RunningTotals[i + 1] == RunningTotals[i] + LetterDistribution[i].1
  {
    PrefixWeights(i);
    PrefixWeights(i + 1);
    assert LetterDistribution[..i + 1][..i] == LetterDistribution[..i];
  }

  /** There are 98 tiles in the bag. */
  lemma TotalWeightIs98()
    ensures TotalWeight() == 98
  {
    PrefixWeights(26);
    assert LetterDistribution[..26] == LetterDistribution;
  }

  /** The word-length table starts at 1.0 for three letters and rises by exactly 0.5 per letter up to 4.5 at ten. */
  lemma WordLengthBonusSteps()
    ensures forall n :: n in WordLengthBonus <==> 3 <= n <= 10
    ensures WordLengthBonus[3] == 1.0 && WordLengthBonus[10] == 4.5
    ensures forall n :: 3 <= n < 10 ==> WordLengthBonus[n + 1] == WordLengthBonus[n] + 0.5
  {
  }

  /** Combo multipliers never decrease; chain multipliers strictly increase. */
  lemma MultiplierTablesAscend()
    ensures forall i, j :: 0 <= i <= j < |ComboMultipliers| ==> ComboMultipliers[i] <= ComboMultipliers[j]
    ensures forall i, j :: 0 <= i < j < |ChainMultipliers| ==> ChainMultipliers[i] < ChainMultipliers[j]
    ensures forall i :: 0 <= i < |ComboMultipliers| ==> ComboMultipliers[i] >= 1.0
    ensures forall i :: 0 <= i < |ChainMultipliers| ==> ChainMultipliers[i] >= 1.0
  {
  }

  /** Level and line-clear constants. */
  lemma LevelConstants()
    ensures WordsPerLevel == 10 && MaxLevel == 20 && LineClearBaseScore == 25
  {
  }
}
