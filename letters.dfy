/**
 * The tile factory: a letter drawn by weight from the Scrabble tile bag, and
 * the block built from it. The random number is a parameter `u`, the value
 * `Math.random()` would have produced (0 <= u < 1 in the game).
 */
module Letters {
  import opened GameConstants
  import opened GameTypes

  /**
   * The first index k from i on whose running total totals[k + 1] reaches r,
   * or the last index of totals when none does.
   */
  function FirstCovering(r: real, totals: seq<int>, i: nat): (k: nat)
    requires i < |totals|
    ensures i <= k < |totals|
    decreases |totals| - i
  {
    if i == |totals| - 1 then i
    else if r <= totals[i + 1] as real then i
    else FirstCovering(r, totals, i + 1)
  }

  /** The letter a weighted draw r in [0, 98) selects; 'E' when the weights run out. */
  function DrawLetter(r: real): char {
    var k := FirstCovering(r, RunningTotals, 0);
    if k < |LetterDistribution| then LetterDistribution[k].0 else 'E'
  }

  /** `weights.reduce((sum, weight) => sum + weight, 0)`: the number of tiles in the bag. */
  method SumWeights() returns (total: int)
    ensures total == RunningTotals[|LetterDistribution|]
  {
    total := 0;
    var i := 0;
    while i < |LetterDistribution|
      invariant 0 <= i <= |LetterDistribution|
      invariant total == RunningTotals[i]
    {
      RunningTotalStep(i);
      total := total + LetterDistribution[i].1;
      i := i + 1;
    }
  }

  /**
   * `getRandomLetter()`, with the random number as input: scales it by the
   * total weight, subtracts the weights in A..Z order and returns the first
   * letter that brings it to 0 or below, or 'E' if none does.
   */
  method GetRandomLetter(u: real) returns (letter: char)
    ensures letter == DrawLetter(u * 98.0)
  {
    var totalWeight := SumWeights();
    assert totalWeight == 98;
    var r := u * totalWeight as real;
    assert r == u * 98.0;
    var random := r;
    var i := 0;
    while i < |LetterDistribution|
      invariant 0 <= i <= |LetterDistribution|
      invariant random == r - RunningTotals[i] as real
      invariant FirstCovering(r, RunningTotals, 0) == FirstCovering(r, RunningTotals, i)
    {
      RunningTotalStep(i);
      random := random - LetterDistribution[i].1 as real;
      if random <= 0.0 {
        assert FirstCovering(r, RunningTotals, i) == i;
        return LetterDistribution[i].0;
      }
      i := i + 1;
    }
    assert FirstCovering(r, RunningTotals, i) == |LetterDistribution|;
    return 'E';
  }

  /** FirstCovering finds the least index whose running total reaches r. */
  lemma {:induction false} FirstCoveringIsLeast(r: real, totals: seq<int>, i: nat)
    requires i < |totals|
    ensures var k := FirstCovering(r, totals, i);
      (k < |totals| - 1 ==> r <= totals[k + 1] as real) &&
      (forall j :: i < j <= k ==> totals[j] as real < r)
    decreases |totals| - i
  {
    if i < |totals| - 1 && !(r <= totals[i + 1] as real) {
      FirstCoveringIsLeast(r, totals, i + 1);
    }
  }

  /** Running totals that never fall between neighbours never fall at all. */
  lemma {:induction false} AscendingTotals(totals: seq<int>, j: nat, k: nat)
    requires forall i :: 0 <= i < |totals| - 1 ==> totals[i] <= totals[i + 1]
    requires j <= k < |totals|
    ensures totals[j] <= totals[k]
    decreases k - j
  {
    if j < k {
      AscendingTotals(totals, j, k - 1);
    }
  }

  /** The bag's running totals never fall: every weight is positive. */
  lemma RunningTotalsAscend()
    ensures forall i :: 0 <= i < |RunningTotals| - 1 ==> RunningTotals[i] <= RunningTotals[i + 1]
  {
    DistributionCoversAlphabet();
    forall i | 0 <= i < |RunningTotals| - 1
      ensures RunningTotals[i] <= RunningTotals[i + 1]
    {
      RunningTotalStep(i);
    }
  }

  /** The fallback 'E' is taken exactly when r exceeds the 98 tiles of the bag. */
  lemma FallbackOnlyPastTheBag(r: real)
    ensures FirstCovering(r, RunningTotals, 0) == |LetterDistribution| <==> r > 98.0
  {
    FirstCoveringIsLeast(r, RunningTotals, 0);
    var k := FirstCovering(r, RunningTotals, 0);
    if k < |LetterDistribution| {
      RunningTotalsAscend();
      AscendingTotals(RunningTotals, k + 1, 26);
    } else {
      assert RunningTotals[26] as real < r;
    }
  }

  /**
   * A draw r up to 98 returns the first letter, in A..Z order, whose running
   * total is at least r: that letter's total reaches r, and every earlier
   * letter's falls short.
   */
  lemma DrawIsFirstCoveringLetter(r: real)
    requires r <= 98.0
    ensures var k := FirstCovering(r, RunningTotals, 0);
      k < |LetterDistribution| && DrawLetter(r) == LetterDistribution[k].0 &&
      r <= RunningTotals[k + 1] as real &&
      (forall j :: 0 < j <= k ==> RunningTotals[j] as real < r)
  {
    FirstCoveringIsLeast(r, RunningTotals, 0);
    FallbackOnlyPastTheBag(r);
  }

  /** For every draw with 0 <= u < 1 the letter is a key of the tile bag, hence one of A..Z with a point value. */
  lemma DrawIsALetter(u: real)
    requires 0.0 <= u < 1.0
    ensures DrawLetter(u * 98.0) in Alphabet
    ensures DrawLetter(u * 98.0) in LetterValues
  {
    var r := u * 98.0;
    DrawIsFirstCoveringLetter(r);
    DistributionCoversAlphabet();
    EveryLetterHasPositiveValue();
    var k := FirstCovering(r, RunningTotals, 0);
    assert DistributionLetters(LetterDistribution)[k] == LetterDistribution[k].0;
    assert DrawLetter(r) == Alphabet[k];
  }

  /** `getColorForValue(value)`: the colour of a point value, or the 1-point colour. */
  function GetColorForValue(value: int): string {
    if value in LetterColors then LetterColors[value] else LetterColors[1]
  }

  /** The block built for a drawn letter. */
  function BlockFor(letter: char): Block {
    var value := LetterValue(letter);
    Block(letter, value, GetColorForValue(value))
  }

  /** The block `createBlock()` yields for the random number u; the bag's total weight is 98. */
  function NewBlock(u: real): Block {
    BlockFor(DrawLetter(u * 98.0))
  }

  /** `createBlock()`, with the random number as input. */
  method CreateBlock(u: real) returns (b: Block)
    ensures b == NewBlock(u)
  {
    var letter := GetRandomLetter(u);
    var value := LetterValue(letter);
    var color := GetColorForValue(value);
    b := Block(letter, value, color);
  }

  /** A block for a letter A..Z carries that letter's point value and the colour of that value, with no fallback needed. */
  lemma BlockForLetter(c: char)
    requires c in Alphabet
    ensures BlockFor(c).letter == c
    ensures BlockFor(c).value == LetterValues[c] > 0
    ensures BlockFor(c).value in LetterColors && BlockFor(c).color == LetterColors[BlockFor(c).value]
    ensures BlockFor(c).color == GetColorForValue(LetterValues[c])
  {
    EveryLetterHasPositiveValue();
    EveryLetterValueHasColor();
  }
}
