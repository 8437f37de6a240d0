/**
 * Premium squares: the four Scrabble-style multiplier definitions and the
 * board layout, a map keyed by the text "row,column".
 */
module PremiumSquares {
  import opened GameTypes

  datatype PremiumType = DLS | TLS | DWS | TWS

  /** A premium square definition; `kind` is None for the empty definition. */
  datatype PremiumSquare = PremiumSquare(
    kind: Option<PremiumType>,
    color: string,
    caption: string,
    letterMultiplier: Option<int>,
    wordMultiplier: Option<int>)

  /** Display colour of each premium type. */
  function PremiumSquareColor(t: PremiumType): string {
    match t
    case DLS => "#4ecdc4"
    case TLS => "#0891b2"
    case DWS => "#f09bb9"
    case TWS => "#e94560"
  }

  /** `PREMIUM_SQUARES[t]`: the definition of each premium type. */
  function Definition(t: PremiumType): PremiumSquare {
    match t
    case DLS => PremiumSquare(Some(DLS), PremiumSquareColor(DLS), "DL", Some(2), None)
    case TLS => PremiumSquare(Some(TLS), PremiumSquareColor(TLS), "TL", Some(3), None)
    case DWS => PremiumSquare(Some(DWS), PremiumSquareColor(DWS), "DW", None, Some(2))
    case TWS => PremiumSquare(Some(TWS), PremiumSquareColor(TWS), "TW", None, Some(3))
  }

  /** The definition returned for a cell without a premium square. */
  const EmptyPremiumSquare: PremiumSquare := PremiumSquare(None, "", "", None, None)

  /** The layout, keyed by "row,column". */
  const Layout: map<string, PremiumType> := map["3,2" := DLS, "7,6" := DLS, "5,8" := TLS, "8,4" := DWS]

  /** The decimal digit for 0 <= d < 10. */
  function Digit(d: int): char
    requires 0 <= d < 10
  {
    ('0' as int + d) as char
  }

  predicate IsDigit(c: char) {
    '0' <= c <= '9'
  }

  /** Decimal text of a natural number, without leading zeros. */
  function DecimalString(n: nat): (s: string)
    ensures |s| >= 1
    ensures forall i :: 0 <= i < |s| ==> IsDigit(s[i])
  {
    if n < 10 then [Digit(n)] else DecimalString(n / 10) + [Digit(n % 10)]
  }

  /** How a number is written in a template literal: a minus sign, then its decimal digits. */
  function NumberToString(n: int): (s: string)
    ensures forall i :: 0 <= i < |s| ==> s[i] != ','
  {
    if n < 0 then "-" + DecimalString(-n) else DecimalString(n)
  }

  /** The layout key `${y},${x}` that getPremiumSquare builds for the cell (x, y). */
  function LayoutKey(x: int, y: int): string {
    NumberToString(y) + "," + NumberToString(x)
  }

  /** `getPremiumSquare(x, y)`: the premium type at (x, y), if any. */
  function GetPremiumSquare(x: int, y: int): Option<PremiumType> {
    var key := LayoutKey(x, y);
    if key in Layout then Some(Layout[key]) else None
  }

  /** `hasPremiumSquare(x, y)`. */
  predicate HasPremiumSquare(x: int, y: int) {
    GetPremiumSquare(x, y) != None
  }

  /** `getPremiumSquareDetails(x, y)`: the definition at (x, y), or the empty definition. */
  function GetPremiumSquareDetails(x: int, y: int): (sq: PremiumSquare)
    ensures sq.kind == GetPremiumSquare(x, y)
    ensures sq.kind.Some? <==> HasPremiumSquare(x, y)
    ensures sq.kind.Some? ==> sq == Definition(sq.kind.value)
    ensures sq.kind.None? ==> sq.letterMultiplier.None? && sq.wordMultiplier.None?
  {
    var t := GetPremiumSquare(x, y);
    if t.None? then EmptyPremiumSquare else Definition(t.value)
  }

  /** Decimal text determines the number: distinct numbers are written differently. */
  lemma {:induction false} DecimalStringInjective(a: nat, b: nat)
    requires DecimalString(a) == DecimalString(b)
    ensures a == b
  {
    var s := DecimalString(a);
    if a < 10 && b < 10 {
      assert s[0] == Digit(a) && s[0] == Digit(b);
    } else if a < 10 {
      assert false;
    } else if b < 10 {
      assert false;
    } else {
      var pa, pb := DecimalString(a / 10), DecimalString(b / 10);
      assert s == pa + [Digit(a % 10)] && s == pb + [Digit(b % 10)];
      assert pa == s[..|s| - 1] == pb;
      DecimalStringInjective(a / 10, b / 10);
      assert Digit(a % 10) == s[|s| - 1] == Digit(b % 10);
    }
  }

  /** Number text determines the number. */
  lemma NumberToStringInjective(a: int, b: int)
    requires NumberToString(a) == NumberToString(b)
    ensures a == b
  {
    var s := NumberToString(a);
    assert (s[0] == '-') == (a < 0);
    assert (s[0] == '-') == (b < 0);
    if a < 0 {
      assert s[1..] == DecimalString(-a) == DecimalString(-b);
      DecimalStringInjective(-a, -b);
    } else {
      DecimalStringInjective(a, b);
    }
  }

  /** The layout key determines the cell: "row,column" text is read back uniquely. */
  lemma {:induction false} LayoutKeyInjective(x1: int, y1: int, x2: int, y2: int)
    requires LayoutKey(x1, y1) == LayoutKey(x2, y2)
    ensures x1 == x2 && y1 == y2
  {
    var k := LayoutKey(x1, y1);
    var r1, r2 := NumberToString(y1), NumberToString(y2);
    var c1, c2 := NumberToString(x1), NumberToString(x2);
    assert k == r1 + "," + c1 && k == r2 + "," + c2;
    assert k[|r1|] == ',' && forall i :: 0 <= i < |r1| ==> k[i] != ',';
    assert k[|r2|] == ',' && forall i :: 0 <= i < |r2| ==> k[i] != ',';
    assert |r1| == |r2|;
    assert r1 == k[..|r1|] == r2;
    assert c1 == k[|r1| + 1..] == c2;
    NumberToStringInjective(y1, y2);
    NumberToStringInjective(x1, x2);
  }

  /** Exactly four cells are premium: DLS at (2,3) and (6,7), TLS at (8,5), DWS at (4,8), written (x, y). */
  lemma PremiumCells(x: int, y: int)
    ensures GetPremiumSquare(x, y) ==
      if (x == 2 && y == 3) || (x == 6 && y == 7) then Some(DLS)
      else if x == 8 && y == 5 then Some(TLS)
      else if x == 4 && y == 8 then Some(DWS)
      else None
  {
    assert LayoutKey(2, 3) == "3,2" && LayoutKey(6, 7) == "7,6";
    assert LayoutKey(8, 5) == "5,8" && LayoutKey(4, 8) == "8,4";
    var key := LayoutKey(x, y);
    if key == "3,2" {
      LayoutKeyInjective(x, y, 2, 3);
    } else if key == "7,6" {
      LayoutKeyInjective(x, y, 6, 7);
    } else if key == "5,8" {
      LayoutKeyInjective(x, y, 8, 5);
    } else if key == "8,4" {
      LayoutKeyInjective(x, y, 4, 8);
    } else {
      assert key !in Layout;
    }
  }

  /** The lookup key puts the row first: the cell (x, y) is found under "y,x". */
  lemma LayoutKeyIsRowThenColumn(x: int, y: int)
    requires 0 <= x < 10 && 0 <= y < 10
    ensures LayoutKey(x, y) == [Digit(y), ',', Digit(x)]
  {
  }

  /** hasPremiumSquare holds exactly where getPremiumSquare finds a type, i.e. on the four layout cells. */
  lemma HasPremiumSquareIffLayoutCell(x: int, y: int)
    ensures HasPremiumSquare(x, y) <==> GetPremiumSquare(x, y).Some?
    ensures HasPremiumSquare(x, y) <==> (x, y) in {(2, 3), (6, 7), (8, 5), (4, 8)}
  {
    PremiumCells(x, y);
  }

  /** Each definition carries exactly one multiplier: 2 or 3 on the letter for DLS/TLS, on the word for DWS/TWS. */
  lemma DefinitionsCarryOneMultiplier(t: PremiumType)
    ensures Definition(t).kind == Some(t)
    ensures Definition(t).letterMultiplier.Some? != Definition(t).wordMultiplier.Some?
    ensures Definition(t).letterMultiplier == (if t == DLS then Some(2) else if t == TLS then Some(3) else None)
    ensures Definition(t).wordMultiplier == (if t == DWS then Some(2) else if t == TWS then Some(3) else None)
  {
  }
}
