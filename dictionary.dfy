/**
 * The word list: normalising the fetched text into the word set, the
 * fallback set used when loading fails, and the membership test.
 *
 * The fetch itself is not modelled: the loader receives `Some(text)` for a
 * successful response and `None` for a failed one. `None` as the word set
 * means "not loaded yet".
 */
module Dictionary {
  import opened GameTypes

  // ---------------------------------------------------------------------------
  // String helpers with the semantics of the JavaScript built-ins
  // ---------------------------------------------------------------------------

  /** `text.split('\n')`: the pieces between newlines; always at least one piece. */
  function SplitLines(s: string): (r: seq<string>)
    ensures |r| >= 1
    decreases |s|
  {
    if |s| == 0 then [""]
    else
      var rest := SplitLines(s[1..]);
      if s[0] == '\n' then [""] + rest else [[s[0]] + rest[0]] + rest[1..]
  }

  /** Pieces joined back with newlines. */
  function JoinLines(ps: seq<string>): string
    requires |ps| >= 1
  {
    if |ps| == 1 then ps[0] else ps[0] + "\n" + JoinLines(ps[1..])
  }

  /** Splitting loses nothing: joining the pieces with newlines gives back the text, and no piece holds a newline. */
  lemma {:induction false} SplitJoinRoundTrip(s: string)
    ensures JoinLines(SplitLines(s)) == s
    ensures forall i, j :: 0 <= i < |SplitLines(s)| && 0 <= j < |SplitLines(s)[i]| ==> SplitLines(s)[i][j] != '\n'
    decreases |s|
  {
    if |s| > 0 {
      var rest := SplitLines(s[1..]);
      SplitJoinRoundTrip(s[1..]);
      if s[0] == '\n' {
        assert SplitLines(s) == [""] + rest;
        assert SplitLines(s)[1..] == rest;
        assert JoinLines(SplitLines(s)) == "" + "\n" + JoinLines(rest);
        assert s == [s[0]] + s[1..];
      } else {
        var first := [s[0]] + rest[0];
        assert SplitLines(s) == [first] + rest[1..];
        if |rest| == 1 {
          assert JoinLines(SplitLines(s)) == first;
          assert s == [s[0]] + s[1..];
        } else {
          assert SplitLines(s)[1..] == rest[1..];
          assert JoinLines(rest) == rest[0] + "\n" + JoinLines(rest[1..]);
          assert JoinLines(SplitLines(s)) == first + "\n" + JoinLines(rest[1..]);
          assert s == [s[0]] + s[1..];
        }
      }
    }
  }

  /** The characters `String.prototype.trim` removes: white space and line terminators. */
  predicate IsJsWhitespace(c: char) {
    var n := c as int;
    n == 0x09 || n == 0x0A || n == 0x0B || n == 0x0C || n == 0x0D || n == 0x20 || n == 0xA0
    || n == 0x1680 || (0x2000 <= n <= 0x200A) || n == 0x2028 || n == 0x2029 || n == 0x202F
    || n == 0x205F || n == 0x3000 || n == 0xFEFF
  }

  function TrimStart(s: string): (r: string)
    ensures |r| <= |s| && r == s[|s| - |r|..]
    ensures |r| > 0 ==> !IsJsWhitespace(r[0])
  {
    if |s| > 0 && IsJsWhitespace(s[0]) then TrimStart(s[1..]) else s
  }

  function TrimEnd(s: string): (r: string)
    ensures |r| <= |s| && r == s[..|r|]
    ensures |r| > 0 ==> !IsJsWhitespace(r[|r| - 1])
  {
    if |s| > 0 && IsJsWhitespace(s[|s| - 1]) then TrimEnd(s[..|s| - 1]) else s
  }

  /** `s.trim()`. */
  function Trim(s: string): string {
    TrimEnd(TrimStart(s))
  }

  /** Trimming keeps a contiguous part of the text with no white space at either end. */
  lemma TrimIsInnerPart(s: string)
    ensures exists i, j :: 0 <= i <= j <= |s| && Trim(s) == s[i..j]
    ensures |Trim(s)| > 0 ==> !IsJsWhitespace(Trim(s)[0]) && !IsJsWhitespace(Trim(s)[|Trim(s)| - 1])
  {
    var i, j := TrimBounds(s);
    TrimEnds(s);
  }

  /** Where the trimmed text sits in the original. */
  lemma TrimBounds(s: string) returns (i: int, j: int)
    ensures 0 <= i <= j <= |s| && Trim(s) == s[i..j]
  {
    var a := TrimStart(s);
    var t := TrimEnd(a);
    i := |s| - |a|;
    j := i + |t|;
    assert a == s[i..] && t == a[..|t|];
    assert s[i..][..|t|] == s[i..j];
  }

  /** The trimmed text starts and ends with a character that is not white space. */
  lemma TrimEnds(s: string)
    ensures |Trim(s)| > 0 ==> !IsJsWhitespace(Trim(s)[0]) && !IsJsWhitespace(Trim(s)[|Trim(s)| - 1])
  {
    var a := TrimStart(s);
    var t := TrimEnd(a);
    if |t| > 0 {
      assert t == a[..|t|];
      assert t[0] == a[0];
    }
  }

  /** Upper case of one character: ASCII a..z map to A..Z, everything else stays. */
  function UpperChar(c: char): char {
    if 'a' <= c <= 'z' then (c as int - 'a' as int + 'A' as int) as char else c
  }

  /** `s.toUpperCase()` on ASCII letters. */
  function ToUpper(s: string): (r: string)
    ensures |r| == |s|
    ensures forall i :: 0 <= i < |s| ==> r[i] == UpperChar(s[i])
  {
    seq(|s|, i requires 0 <= i < |s| => UpperChar(s[i]))
  }

  /** Upper-casing keeps the length, leaves no ASCII lower-case letter, and is idempotent. */
  lemma ToUpperIdempotent(s: string)
    ensures |ToUpper(s)| == |s|
    ensures forall i :: 0 <= i < |s| ==> !('a' <= ToUpper(s)[i] <= 'z')
    ensures ToUpper(ToUpper(s)) == ToUpper(s)
  {
  }

  // ---------------------------------------------------------------------------
  // The word set
  // ---------------------------------------------------------------------------

  /** One line of the word list as it is stored. */
  function CleanLine(line: string): string {
    ToUpper(Trim(line))
  }

  predicate Storable(w: string) {
    3 <= |w| <= 10
  }

  /** The word set built from the fetched text: the cleaned lines of 3 to 10 characters. */
  function NormalizeWords(text: string): set<string> {
    var lines := SplitLines(text);
    set i | 0 <= i < |lines| && Storable(CleanLine(lines[i])) :: CleanLine(lines[i])
  }

  /** The minimal word set used when the word list cannot be fetched. */
  const FallbackWords: set<string> := {
    "THE", "AND", "FOR", "ARE", "BUT", "NOT", "YOU", "ALL", "CAN", "HER",
    "CAT", "DOG", "RUN", "JUMP", "PLAY", "WORD", "GAME", "TEST"}

  /** The word set once loading has settled: the normalised list, or the fallback on failure. */
  function LoadedWords(fetched: Option<string>): set<string> {
    match fetched
    case Some(text) => NormalizeWords(text)
    case None => FallbackWords
  }

  /**
   * The loader's state: the word set, None until loading settles. Loading is
   * done once; later calls return the set already held.
   */
  class DictionaryLoader {
    var dictionarySet: Option<set<string>>

    constructor ()
      ensures dictionarySet == None
    {
      dictionarySet := None;
    }

    /** `loadDictionary()`, with the fetch outcome as input. */
    method LoadDictionary(fetched: Option<string>) returns (words: set<string>)
      modifies this
      ensures old(dictionarySet).Some? ==> dictionarySet == old(dictionarySet) && words == old(dictionarySet).value
      ensures old(dictionarySet).None? ==> dictionarySet == Some(LoadedWords(fetched)) && words == LoadedWords(fetched)
    {
      if dictionarySet.Some? {
        return dictionarySet.value;
      }
      words := LoadedWords(fetched);
      dictionarySet := Some(words);
    }
  }

  /** `isValidWord(word)`: false before loading, otherwise membership of the upper-cased query. */
  predicate IsValidWord(dict: Option<set<string>>, word: string) {
    dict.Some? && ToUpper(word) in dict.value
  }

  /** A cleaned line is upper case and has no white space at either end. */
  lemma CleanLineIsClean(line: string)
    ensures ToUpper(CleanLine(line)) == CleanLine(line)
    ensures |CleanLine(line)| > 0 ==> !IsJsWhitespace(CleanLine(line)[0]) && !IsJsWhitespace(CleanLine(line)[|CleanLine(line)| - 1])
  {
    var t := Trim(line);
    TrimIsInnerPart(line);
    ToUpperIdempotent(t);
    var w := CleanLine(line);
    if |w| > 0 {
      assert w[0] == UpperChar(t[0]) && w[|w| - 1] == UpperChar(t[|t| - 1]);
    }
  }

  /** Every stored word has 3 to 10 characters, is upper case and has no surrounding white space. */
  lemma NormalizedWordsAreClean(text: string, w: string)
    requires w in NormalizeWords(text)
    ensures 3 <= |w| <= 10
    ensures ToUpper(w) == w
    ensures !IsJsWhitespace(w[0]) && !IsJsWhitespace(w[|w| - 1])
  {
    var line := StoredLine(text, w);
    StorableLineIsClean(line, w);
  }

  /** Each stored word is the cleaned form of some line of the text. */
  lemma StoredLine(text: string, w: string) returns (line: string)
    requires w in NormalizeWords(text)
    ensures CleanLine(line) == w && Storable(w)
  {
    var lines := SplitLines(text);
    var i :| 0 <= i < |lines| && Storable(CleanLine(lines[i])) && CleanLine(lines[i]) == w;
    line := lines[i];
  }

  /** A storable cleaned line is a clean word. */
  lemma StorableLineIsClean(line: string, w: string)
    requires CleanLine(line) == w && Storable(w)
    ensures ToUpper(w) == w
    ensures !IsJsWhitespace(w[0]) && !IsJsWhitespace(w[|w| - 1])
  {
    CleanLineIsClean(line);
  }

  /** Every line of the text whose cleaned form has 3 to 10 characters is in the set. */
  lemma EveryStorableLineIsLoaded(text: string, i: int)
    requires 0 <= i < |SplitLines(text)|
    requires Storable(CleanLine(SplitLines(text)[i]))
    ensures CleanLine(SplitLines(text)[i]) in NormalizeWords(text)
  {
  }

  /** Before the word set is loaded no word is valid. */
  lemma NothingValidBeforeLoading(word: string)
    ensures !IsValidWord(None, word)
  {
  }

  /** Membership ignores case: a word and its upper-cased form are equally valid. */
  lemma ValidityIgnoresCase(dict: Option<set<string>>, word: string)
    ensures IsValidWord(dict, word) <==> IsValidWord(dict, ToUpper(word))
  {
    ToUpperIdempotent(word);
  }

  /** Once loaded from the word list, a valid word has 3 to 10 letters; longer or shorter queries never validate. */
  lemma ValidWordsHaveStorableLength(fetched: Option<string>, word: string)
    requires IsValidWord(Some(LoadedWords(fetched)), word)
    ensures 3 <= |word| <= 10
  {
    if fetched.Some? {
      NormalizedWordsAreClean(fetched.value, ToUpper(word));
    } else {
      FallbackWordsShape(ToUpper(word));
    }
  }

  /** The fallback words are 3 or 4 upper-case letters. */
  lemma FallbackWordsShape(w: string)
    requires w in FallbackWords
    ensures 3 <= |w| <= 4
    ensures forall i :: 0 <= i < |w| ==> 'A' <= w[i] <= 'Z'
  {
  }

  /** A lower-case query of a fallback word is accepted. */
  lemma FallbackAcceptsLowerCase()
    ensures IsValidWord(Some(LoadedWords(None)), "cat")
    ensures !IsValidWord(Some(LoadedWords(None)), "CATS")
  {
    assert ToUpper("cat") == "CAT";
    assert ToUpper("CATS") == "CATS";
    assert "CATS" !in FallbackWords;
  }

  /** `getWordScore(length)`: the older length-only score. */
  function GetWordScore(wordLength: int): int {
    if wordLength < 3 then 0
    else if wordLength == 3 then 50
    else if wordLength == 4 then 100
    else if wordLength == 5 then 200
    else 400
  }

  /** The length score is 0 below three letters, starts at 50, doubles per letter up to six, and then stays at 400. */
  lemma GetWordScoreShape(n: int, m: int)
    requires n <= m
    ensures GetWordScore(n) <= GetWordScore(m)
    ensures GetWordScore(n) == 0 <==> n < 3
    ensures 3 <= n <= 5 ==> GetWordScore(n + 1) == 2 * GetWordScore(n)
    ensures n >= 6 ==> GetWordScore(n) == 400
  {
  }
}
