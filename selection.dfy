/**
 * Choosing the word to remove: the match with the highest effective score
 * (base score times length bonus times level), the earliest one on ties.
 */
module WordSelection {
  import opened GameTypes
  import Score

  /** The length bonus table local to the word engine. */
  const LengthBonuses: map<int, real> := map[
    3 := 1.0, 4 := 1.5, 5 := 2.0, 6 := 2.5, 7 := 3.0, 8 := 3.5, 9 := 4.0, 10 := 4.5]

  /** `getLengthBonus(length)`: the table for 3..10, 4.5 plus 0.5 per letter past 10, and 1 below 3. */
  function GetLengthBonus(n: int): real {
    if n in LengthBonuses then LengthBonuses[n]
    else if n > 10 then 4.5 + (n - 10) as real * 0.5
    else 1.0
  }

  /** The word engine's length bonus agrees with the one used for the final score. */
  lemma GetLengthBonusAgrees(n: int)
    ensures GetLengthBonus(n) == Score.LengthBonus(n)
    ensures GetLengthBonus(n) >= 1.0
  {
    Score.LengthBonusClosedForm(n);
  }

  /** `calculateEffectiveScore(word, level)`. */
  function EffectiveScore(m: WordMatch, level: int): real {
    m.score as real * GetLengthBonus(|m.word|) * level as real
  }

  /** The index of the first match with the highest effective score among the first n. */
  function BestIndex(ws: seq<WordMatch>, level: int, n: nat): (k: nat)
    requires 1 <= n <= |ws|
    ensures k < n
  {
    if n == 1 then 0
    else
      var b := BestIndex(ws, level, n - 1);
      if EffectiveScore(ws[n - 1], level) > EffectiveScore(ws[b], level) then n - 1 else b
  }

  /**
   * `findHighestScoringWord(words, level)`: null for an empty list, otherwise
   * a running maximum that is replaced only by a strictly higher score.
   */
  method FindHighestScoringWord(ws: seq<WordMatch>, level: int) returns (r: Option<WordMatch>)
    ensures r.None? <==> |ws| == 0
    ensures r.Some? ==> r.value == ws[BestIndex(ws, level, |ws|)]
  {
    if |ws| == 0 {
      return None;
    }
    var highestWord := ws[0];
    var best := 0;
    var highestEffectiveScore := EffectiveScore(ws[0], level);
    var i := 1;
    while i < |ws|
      invariant 1 <= i <= |ws|
      invariant best == BestIndex(ws, level, i)
      invariant highestWord == ws[best] && highestEffectiveScore == EffectiveScore(ws[best], level)
    {
      var effectiveScore := EffectiveScore(ws[i], level);
      if effectiveScore > highestEffectiveScore {
        highestWord := ws[i];
        best := i;
        highestEffectiveScore := effectiveScore;
      }
      i := i + 1;
    }
    return Some(highestWord);
  }

  /**
   * BestIndex picks the first maximum: no match scores higher, and every
   * earlier match scores strictly lower.
   */
  lemma {:induction false} BestIndexIsFirstMaximum(ws: seq<WordMatch>, level: int, n: nat)
    requires 1 <= n <= |ws|
    ensures forall j :: 0 <= j < n ==> EffectiveScore(ws[j], level) <= EffectiveScore(ws[BestIndex(ws, level, n)], level)
    ensures forall j :: 0 <= j < BestIndex(ws, level, n) ==> EffectiveScore(ws[j], level) < EffectiveScore(ws[BestIndex(ws, level, n)], level)
  {
    if n > 1 {
      BestIndexIsFirstMaximum(ws, level, n - 1);
    }
  }

  /** The first maximum is the only index with both properties. */
  lemma FirstMaximumIsUnique(ws: seq<WordMatch>, level: int, k: nat)
    requires k < |ws|
    requires forall j :: 0 <= j < |ws| ==> EffectiveScore(ws[j], level) <= EffectiveScore(ws[k], level)
    requires forall j :: 0 <= j < k ==> EffectiveScore(ws[j], level) < EffectiveScore(ws[k], level)
    ensures BestIndex(ws, level, |ws|) == k
  {
    BestIndexIsFirstMaximum(ws, level, |ws|);
    var b := BestIndex(ws, level, |ws|);
    assert EffectiveScore(ws[k], level) <= EffectiveScore(ws[b], level);
    assert EffectiveScore(ws[b], level) <= EffectiveScore(ws[k], level);
  }
}
