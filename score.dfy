/**
 * Scoring arithmetic: letter sums, premium squares under a placed word, the
 * length/level/combo/chain multipliers, line clears, level and fall speed.
 *
 * The multipliers of the game are all multiples of one half, so `real`
 * arithmetic followed by `Floor` is exact; `WordScoreInHalves` restates the
 * final score over integers.
 */
module Score {
  import opened GameConstants
  import opened GameTypes
  import opened PremiumSquares

  /** `calculateWordBaseScore(word)`: letter values added left to right, 0 for unknown characters. */
  function WordBaseScore(word: string): int {
    if |word| == 0 then 0 else WordBaseScore(word[..|word| - 1]) + LetterValue(word[|word| - 1])
  }

  /** A letter's value is never negative, and is at most 10. */
  lemma LetterValueRange(c: char)
    ensures 0 <= LetterValue(c) <= 10
  {
    EveryLetterHasPositiveValue();
    if c in LetterValues {
      assert c in Alphabet;
    }
  }

  /** The base score is additive over concatenation. */
  lemma {:induction false} WordBaseScoreAppend(a: string, b: string)
    ensures WordBaseScore(a + b) == WordBaseScore(a) + WordBaseScore(b)
    decreases |b|
  {
    if |b| > 0 {
      var b' := b[..|b| - 1];
      assert (a + b)[..|a + b| - 1] == a + b';
      WordBaseScoreAppend(a, b');
    } else {
      assert a + b == a;
    }
  }

  /** The base score is the sum of letter values: between 0 and 10 points per letter, and one point per letter for words over A to Z. */
  lemma {:induction false} WordBaseScoreBounds(word: string)
    ensures 0 <= WordBaseScore(word) <= 10 * |word|
    ensures (forall i :: 0 <= i < |word| ==> word[i] in LetterValues) ==> WordBaseScore(word) >= |word|
  {
    if |word| > 0 {
      WordBaseScoreBounds(word[..|word| - 1]);
      LetterValueRange(word[|word| - 1]);
      EveryLetterHasPositiveValue();
      var c := word[|word| - 1];
      if c in LetterValues {
        assert c in Alphabet;
      }
    }
  }

  // ---------------------------------------------------------------------------
  // Premium squares under a placed word
  // ---------------------------------------------------------------------------

  /** `LETTER_VALUES[word[index]] || 0`: 0 past the end of the word. */
  function LetterAt(word: string, i: int): int {
    if 0 <= i < |word| then LetterValue(word[i]) else 0
  }

  /** A premium square counts only if the cell was still empty in the supplied grid. */
  predicate Eligible(p: Position, g: Grid)
    requires InGrid(p)
  {
    g[p.y][p.x].None? && GetPremiumSquareDetails(p.x, p.y).kind.Some?
  }

  /** What the letter at index i adds to the letter total. */
  function LetterContribution(word: string, i: int, p: Position, g: Grid): int
    requires InGrid(p)
  {
    var lv := LetterAt(word, i);
    var sq := GetPremiumSquareDetails(p.x, p.y);
    if Eligible(p, g) then
      if sq.letterMultiplier.Some? then lv * sq.letterMultiplier.value
      else if sq.wordMultiplier.Some? then lv
      else 0
    else lv
  }

  /** What the cell at index i multiplies the word by. */
  function WordFactor(p: Position, g: Grid): int
    requires InGrid(p)
  {
    var sq := GetPremiumSquareDetails(p.x, p.y);
    if Eligible(p, g) && sq.letterMultiplier.None? && sq.wordMultiplier.Some? then sq.wordMultiplier.value else 1
  }

  /** Letter total over the first n positions. */
  function LetterTotal(word: string, ps: seq<Position>, g: Grid, n: nat): int
    requires n <= |ps|
    requires forall i :: 0 <= i < |ps| ==> InGrid(ps[i])
  {
    if n == 0 then 0 else LetterTotal(word, ps, g, n - 1) + LetterContribution(word, n - 1, ps[n - 1], g)
  }

  /** Product of the word factors over the first n positions. */
  function WordProduct(ps: seq<Position>, g: Grid, n: nat): int
    requires n <= |ps|
    requires forall i :: 0 <= i < |ps| ==> InGrid(ps[i])
  {
    if n == 0 then 1 else WordProduct(ps, g, n - 1) * WordFactor(ps[n - 1], g)
  }

  /**
   * `calculateWordScoreWithPremiumSquares(word, positions, grid)`: walks the
   * positions, adding each letter's value (multiplied on an eligible letter
   * square) and compounding the multiplier of eligible word squares.
   */
  method CalculateWordScoreWithPremiumSquares(word: string, ps: seq<Position>, g: Grid)
    returns (baseScore: int, wordMultiplier: int)
    requires forall i :: 0 <= i < |ps| ==> InGrid(ps[i])
    ensures wordMultiplier == WordProduct(ps, g, |ps|)
    ensures baseScore == LetterTotal(word, ps, g, |ps|) * wordMultiplier
  {
    var totalLetterScore := 0;
    wordMultiplier := 1;
    var index := 0;
    while index < |ps|
      invariant 0 <= index <= |ps|
      invariant totalLetterScore == LetterTotal(word, ps, g, index)
      invariant wordMultiplier == WordProduct(ps, g, index)
    {
      var pos := ps[index];
      var letterValue := LetterAt(word, index);
      var premiumSquare := GetPremiumSquareDetails(pos.x, pos.y);
      var isOccupied := g[pos.y][pos.x].Some?;
      if !isOccupied && premiumSquare.kind.Some? {
        if premiumSquare.letterMultiplier.Some? {
          totalLetterScore := totalLetterScore + letterValue * premiumSquare.letterMultiplier.value;
        } else if premiumSquare.wordMultiplier.Some? {
          wordMultiplier := wordMultiplier * premiumSquare.wordMultiplier.value;
          totalLetterScore := totalLetterScore + letterValue;
        }
      } else {
        totalLetterScore := totalLetterScore + letterValue;
      }
      index := index + 1;
    }
    baseScore := totalLetterScore * wordMultiplier;
  }

  /**
   * Per cell, on this board: a letter on an empty double/triple letter square
   * counts two/three times, a letter on the empty double word square doubles
   * the word, and every other cell (occupied or plain) adds the plain value.
   */
  lemma PremiumCellEffect(word: string, i: int, p: Position, g: Grid)
    requires InGrid(p)
    ensures var lv := LetterAt(word, i);
      LetterContribution(word, i, p, g) ==
        if g[p.y][p.x].Some? then lv
        else if (p.x == 2 && p.y == 3) || (p.x == 6 && p.y == 7) then 2 * lv
        else if p.x == 8 && p.y == 5 then 3 * lv
        else lv
    ensures WordFactor(p, g) == if g[p.y][p.x].None? && p.x == 4 && p.y == 8 then 2 else 1
  {
    PremiumCells(p.x, p.y);
  }

  /** Without any eligible square the letter total is the base score of the word's prefix and the multiplier is 1. */
  lemma {:induction false} PlainCellsGiveBaseScore(word: string, ps: seq<Position>, g: Grid, n: nat)
    requires n <= |ps| && n <= |word|
    requires forall i :: 0 <= i < |ps| ==> InGrid(ps[i])
    requires forall i :: 0 <= i < |ps| ==> !Eligible(ps[i], g)
    ensures LetterTotal(word, ps, g, n) == WordBaseScore(word[..n])
    ensures WordProduct(ps, g, n) == 1
  {
    if n > 0 {
      PlainCellsGiveBaseScore(word, ps, g, n - 1);
      assert word[..n][..n - 1] == word[..n - 1];
    }
  }

  /** With no eligible premium cell under the word, the premium score equals calculateWordBaseScore. */
  lemma NoPremiumMeansBaseScore(word: string, ps: seq<Position>, g: Grid)
    requires |ps| == |word|
    requires forall i :: 0 <= i < |ps| ==> InGrid(ps[i])
    requires forall i :: 0 <= i < |ps| ==> !Eligible(ps[i], g)
    ensures LetterTotal(word, ps, g, |ps|) * WordProduct(ps, g, |ps|) == WordBaseScore(word)
  {
    PlainCellsGiveBaseScore(word, ps, g, |ps|);
    assert word[..|word|] == word;
  }

  /** Premium squares never lower the letter total below the base score, and the word multiplier is at least 1. */
  lemma {:induction false} PremiumNeverLowers(word: string, ps: seq<Position>, g: Grid, n: nat)
    requires n <= |ps| && n <= |word|
    requires forall i :: 0 <= i < |ps| ==> InGrid(ps[i])
    ensures LetterTotal(word, ps, g, n) >= WordBaseScore(word[..n]) >= 0
    ensures WordProduct(ps, g, n) >= 1
  {
    if n > 0 {
      PremiumNeverLowers(word, ps, g, n - 1);
      assert word[..n][..n - 1] == word[..n - 1];
      LetterValueRange(word[n - 1]);
      var p := ps[n - 1];
      PremiumCells(p.x, p.y);
      DefinitionsCarryOneMultiplier(DLS);
      DefinitionsCarryOneMultiplier(TLS);
      DefinitionsCarryOneMultiplier(DWS);
      assert WordProduct(ps, g, n) == WordProduct(ps, g, n - 1) * WordFactor(p, g);
    }
  }

  /** C is worth 3 points, A and T one each. */
  lemma CatLetterValues()
    ensures LetterAt("CAT", 0) == 3 && LetterAt("CAT", 1) == 1 && LetterAt("CAT", 2) == 1
  {
    assert "CAT"[0] == 'C' && "CAT"[1] == 'A' && "CAT"[2] == 'T';
  }

  /** "CAT" laid left to right over the empty double word square at (4, 8) of an empty row scores (3 + 1 + 1) * 2. */
  lemma CatOnDoubleWord(g: Grid)
    requires g[8][3].None? && g[8][4].None? && g[8][5].None?
    ensures var ps := [Position(3, 8), Position(4, 8), Position(5, 8)];
      WordProduct(ps, g, 3) == 2 && LetterTotal("CAT", ps, g, 3) * WordProduct(ps, g, 3) == 10
  {
    var ps := [Position(3, 8), Position(4, 8), Position(5, 8)];
    assert forall i :: 0 <= i < |ps| ==> InGrid(ps[i]);
    PremiumCellEffect("CAT", 0, ps[0], g);
    PremiumCellEffect("CAT", 1, ps[1], g);
    PremiumCellEffect("CAT", 2, ps[2], g);
    CatLetterValues();
    assert LetterTotal("CAT", ps, g, 1) == 3;
    assert LetterTotal("CAT", ps, g, 2) == 4;
    assert LetterTotal("CAT", ps, g, 3) == 5;
    assert WordProduct(ps, g, 1) == 1;
    assert WordProduct(ps, g, 2) == 2;
  }

  // ---------------------------------------------------------------------------
  // Multipliers and the final word score
  // ---------------------------------------------------------------------------

  /** The length bonus: the table for 3..10, 4.5 plus 0.5 per letter past 10, and 1 below 3. */
  function LengthBonus(n: int): real {
    if n in WordLengthBonus then WordLengthBonus[n]
    else if n > 10 then 4.5 + (n - 10) as real * 0.5
    else 1.0
  }

  /** The length bonus in closed form: half of (length - 1) from three letters on, 1 below. */
  lemma LengthBonusClosedForm(n: int)
    ensures LengthBonus(n) == if n < 3 then 1.0 else (n - 1) as real / 2.0
  {
    WordLengthBonusSteps();
  }

  /** Twice the length bonus, as an integer. */
  function LengthBonusHalves(n: int): int {
    if n < 3 then 2 else n - 1
  }

  /** Twice the combo multiplier at a word count, as an integer. */
  function ComboHalves(i: nat): int
    requires i < |ComboMultipliers|
  {
    [2, 2, 3, 4, 5][i]
  }

  /** Twice the chain multiplier at a chain depth, as an integer. */
  function ChainHalves(i: nat): int
    requires i < |ChainMultipliers|
  {
    [2, 3, 4, 5][i]
  }

  /**
   * acc times the factors fs, multiplied in from left to right as the source
   * writes the product.
   */
  function ProductFrom(acc: real, fs: seq<real>): real
    decreases |fs|
  {
    if |fs| == 0 then acc else ProductFrom(acc * fs[0], fs[1..])
  }

  /** The product with at least one factor left, unfolded once. */
  lemma ProductFromUnfold(acc: real, fs: seq<real>)
    requires |fs| > 0
    ensures ProductFrom(acc, fs) == ProductFrom(acc * fs[0], fs[1..])
  {
  }

  /** One factor multiplied into the accumulator. */
  lemma ProductFromStep(acc: real, x: real, rest: seq<real>)
    ensures ProductFrom(acc, [x] + rest) == ProductFrom(acc * x, rest)
  {
    ProductFromUnfold(acc, [x] + rest);
    assert ([x] + rest)[0] == x && ([x] + rest)[1..] == rest;
  }

  /** Five factors multiplied in from the left make their plain product. */
  lemma ProductOfFive(a: real, b: real, c: real, d: real, e: real)
    ensures ProductFrom(1.0, [a, b, c, d, e]) == a * b * c * d * e
  {
    var ab := a * b;
    var abc := ab * c;
    var abcd := abc * d;
    var s4, s3, s2, s1: seq<real> := [b, c, d, e], [c, d, e], [d, e], [e];
    assert [a, b, c, d, e] == [a] + s4 && s4 == [b] + s3 && s3 == [c] + s2 && s2 == [d] + s1 && s1 == [e] + [];
    ProductFromStep(1.0, a, s4);
    assert 1.0 * a == a;
    ProductFromStep(a, b, s3);
    ProductFromStep(ab, c, s2);
    ProductFromStep(abc, d, s1);
    ProductFromStep(abcd, e, []);
  }

  function Min(a: int, b: int): int {
    if a <= b then a else b
  }

  /**
   * `calculateWordScore(match, level, comboCount, chainLevel)`: the match with
   * its final score, the bonus and multipliers applied, and the combo and
   * chain multipliers reported only when they apply.
   */
  function WordScore(m: WordMatch, level: int, comboCount: int, chainLevel: int): (r: ScoredWord)
    requires comboCount >= 0 && chainLevel >= 0
    ensures r.wordMatch == m
    ensures r.levelMultiplier == level
    ensures r.comboMultiplier.Some? <==> comboCount > 1
    ensures r.chainMultiplier.Some? <==> chainLevel > 0
  {
    var lengthBonus := LengthBonus(|m.word|);
    var comboMultiplier := ComboMultipliers[Min(comboCount, |ComboMultipliers| - 1)];
    var chainMultiplier := ChainMultipliers[Min(chainLevel, |ChainMultipliers| - 1)];
    var finalScore := ProductFrom(1.0, [m.score as real, lengthBonus, level as real, comboMultiplier, chainMultiplier]).Floor;
    ScoredWord(m, finalScore, lengthBonus, level,
      if comboCount > 1 then Some(comboMultiplier) else None,
      if chainLevel > 0 then Some(chainMultiplier) else None)
  }

  /** Floor of an integer over 8 is integer division by 8. */
  lemma FloorOfEighths(k: int)
    ensures (k as real / 8.0).Floor == k / 8
  {
    var q, r := k / 8, k % 8;
    assert k == 8 * q + r && 0 <= r < 8;
    assert k as real / 8.0 == q as real + r as real / 8.0;
  }

  /**
   * The final score over integers: with every multiplier counted in halves,
   * floor(base * bonus * level * combo * chain) is the product of base, level
   * and the three halves, divided by 8 and rounded down.
   */
  lemma WordScoreInHalves(m: WordMatch, level: int, comboCount: int, chainLevel: int)
    requires comboCount >= 0 && chainLevel >= 0
    ensures WordScore(m, level, comboCount, chainLevel).finalScore ==
      (m.score * LengthBonusHalves(|m.word|) * level
        * ComboHalves(Min(comboCount, 4)) * ChainHalves(Min(chainLevel, 3))) / 8
    ensures WordScore(m, level, comboCount, chainLevel).lengthBonus == LengthBonusHalves(|m.word|) as real / 2.0
  {
    var lb := LengthBonusHalves(|m.word|);
    var c := ComboHalves(Min(comboCount, 4));
    var ch := ChainHalves(Min(chainLevel, 3));
    LengthBonusInHalves(|m.word|);
    MultipliersInHalves(comboCount, chainLevel);
    ProductOfFive(m.score as real, lb as real / 2.0, level as real, c as real / 2.0, ch as real / 2.0);
    HalvesProduct(m.score, lb, level, c, ch);
    FloorOfEighths(m.score * lb * level * c * ch);
  }

  /** The length bonus is a whole number of halves. */
  lemma LengthBonusInHalves(n: int)
    ensures LengthBonus(n) == LengthBonusHalves(n) as real / 2.0
  {
    LengthBonusClosedForm(n);
  }

  /** The capped combo and chain multipliers are whole numbers of halves. */
  lemma MultipliersInHalves(comboCount: int, chainLevel: int)
    requires comboCount >= 0 && chainLevel >= 0
    ensures ComboMultipliers[Min(comboCount, |ComboMultipliers| - 1)] == ComboHalves(Min(comboCount, 4)) as real / 2.0
    ensures ChainMultipliers[Min(chainLevel, |ChainMultipliers| - 1)] == ChainHalves(Min(chainLevel, 3)) as real / 2.0
  {
  }

  /** Three of five integer factors halved: the real product is the integer product over 8. */
  lemma HalvesProduct(a: int, b: int, c: int, d: int, e: int)
    ensures a as real * (b as real / 2.0) * c as real * (d as real / 2.0) * (e as real / 2.0)
      == (a * b * c * d * e) as real / 8.0
  {
    var ab := a * b;
    var abc := ab * c;
    var abcd := abc * d;
    assert ab as real == a as real * b as real;
    assert abc as real == ab as real * c as real;
    assert abcd as real == abc as real * d as real;
    assert (abcd * e) as real == abcd as real * e as real;
    assert a as real * (b as real / 2.0) == ab as real / 2.0;
    assert ab as real / 2.0 * c as real == abc as real / 2.0;
    assert abc as real / 2.0 * (d as real / 2.0) == abcd as real / 4.0;
    assert abcd as real / 4.0 * (e as real / 2.0) == (abcd * e) as real / 8.0;
  }

  /** A deeper chain never lowers a word's final score (for a non-negative base and level). */
  lemma ChainNeverLowersScore(m: WordMatch, level: int, comboCount: int, chain1: int, chain2: int)
    requires comboCount >= 0 && 0 <= chain1 <= chain2
    requires m.score >= 0 && level >= 0
    ensures WordScore(m, level, comboCount, chain1).finalScore <= WordScore(m, level, comboCount, chain2).finalScore
  {
    WordScoreInHalves(m, level, comboCount, chain1);
    WordScoreInHalves(m, level, comboCount, chain2);
    var lb, c := LengthBonusHalves(|m.word|), ComboHalves(Min(comboCount, 4));
    var h1, h2 := ChainHalves(Min(chain1, 3)), ChainHalves(Min(chain2, 3));
    assert lb >= 0 && c >= 0 && h1 <= h2;
    NonNegativeProduct(m.score, lb);
    NonNegativeProduct(m.score * lb, level);
    NonNegativeProduct(m.score * lb * level, c);
    ScaledDivMonotone(m.score * lb * level * c, h1, h2);
  }

  lemma NonNegativeProduct(x: int, y: int)
    requires x >= 0 && y >= 0
    ensures x * y >= 0
  {
  }

  /** Scaling by a non-negative factor and dividing by 8 keeps the order. */
  lemma ScaledDivMonotone(a: int, h1: int, h2: int)
    requires a >= 0 && h1 <= h2
    ensures (a * h1) / 8 <= (a * h2) / 8
  {
    assert a * h1 <= a * h2 by {
      assert a * h2 - a * h1 == a * (h2 - h1);
      NonNegativeProduct(a, h2 - h1);
    }
  }

  /** A five-letter word with base 10 at level 2, alone (combo 1) and first in a cascade (chain 0), scores 10 * 2.0 * 2 = 40. */
  lemma FiveLetterWordAtLevelTwo(m: WordMatch)
    requires |m.word| == 5 && m.score == 10
    ensures WordScore(m, 2, 1, 0).finalScore == 40
  {
    WordScoreInHalves(m, 2, 1, 0);
  }

  // ---------------------------------------------------------------------------
  // Line clears, level and speed
  // ---------------------------------------------------------------------------

  /** `calculateLineScore(lines, level)`. */
  function LineScore(linesCleared: int, level: int): int {
    if linesCleared == 0 then 0
    else if linesCleared == 1 then LineClearBaseScore * level
    else LineClearBaseScore * 2 * level * linesCleared
  }

  /** One line earns 25 per level; n >= 2 lines earn twice that per line; more lines at a positive level earn more. */
  lemma LineScoreGrowth(n: int, level: int)
    requires n >= 2
    ensures LineScore(1, level) == 25 * level
    ensures LineScore(n, level) == 2 * n * LineScore(1, level)
    ensures level > 0 ==> 0 == LineScore(0, level) < LineScore(1, level) < LineScore(2, level) <= LineScore(n, level)
  {
    assert LineScore(n, level) == 50 * level * n;
    if level > 0 {
      assert 50 * level * 2 <= 50 * level * n;
    }
  }

  /** `calculateLevel(wordsFormed)`: one level per ten words, capped at 20. */
  function Level(wordsFormed: int): int {
    Min(wordsFormed / WordsPerLevel + 1, MaxLevel)
  }

  /** The level stays in [1, 20], never falls as words are formed, and reaches 20 at 190 words. */
  lemma LevelBounds(w1: int, w2: int)
    requires 0 <= w1 <= w2
    ensures 1 <= Level(w1) <= MaxLevel
    ensures Level(w1) <= Level(w2)
    ensures Level(w1) == MaxLevel <==> w1 >= 190
  {
    DivMonotoneTen(w1, w2);
  }

  lemma DivMonotoneTen(x: int, y: int)
    requires x <= y
    ensures x / 10 <= y / 10
  {
  }

  /** `calculateFallSpeed(level)`: 1000 ms at level 1, 50 ms faster per level, never below 100 ms. */
  function FallSpeed(level: int): int {
    var s := 1000 - (level - 1) * 50;
    if s >= 100 then s else 100
  }

  /** The fall speed never drops below 100 ms, never rises with the level, and bottoms out from level 19. */
  lemma FallSpeedBounds(l1: int, l2: int)
    requires l1 <= l2
    ensures FallSpeed(l1) >= MinFallSpeed
    ensures FallSpeed(l2) <= FallSpeed(l1)
    ensures FallSpeed(1) == 1000
    ensures FallSpeed(l1) == 100 <==> l1 >= 19
  {
  }
}
