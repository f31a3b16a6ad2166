/**
 * Grid coordinates, the per-cell state of a board, and the "row,column"
 * string form under which the game stores cell locations.
 */
module Cells {
  import opened Wrappers

  /** A grid coordinate; the board's rows and columns are numbered 0 to 9. */
  datatype Pos = Pos(row: int, column: int)

  predicate InRange(p: Pos) {
    0 <= p.row <= 9 && 0 <= p.column <= 9
  }

  /** One cell: whether it has been fired upon, and the index of the ship on it (-1: none). */
  datatype Cell = Cell(hasHit: bool, shipIndex: int)

  /**
   * A freshly built cell.  The game leaves both fields undefined; every use
   * treats them as `false` and as "no ship" (`undefined >= 0` is false).
   */
  const Untouched: Cell := Cell(false, -1)

  // ---------------------------------------------------------------------
  // Decimal rendering of integers, as JavaScript's toString does it

  predicate IsDigit(ch: char) {
    '0' <= ch <= '9'
  }

  predicate AllDigits(s: string) {
    forall k :: 0 <= k < |s| ==> IsDigit(s[k])
  }

  function DigitChar(d: nat): (ch: char)
    requires d < 10
    ensures IsDigit(ch)
  {
    ('0' as int + d) as char
  }

  function DigitValue(ch: char): (d: nat)
    requires IsDigit(ch)
    ensures d < 10
  {
    ch as int - '0' as int
  }

  /** Shortest decimal form of `n`: no leading zeros, "0" for zero. */
  function NatToString(n: nat): (s: string)
    ensures |s| > 0 && AllDigits(s)
  {
    if n < 10 then [DigitChar(n)] else NatToString(n / 10) + [DigitChar(n % 10)]
  }

  function IntToString(n: int): (s: string)
    ensures |s| > 0 && ',' !in s
  {
    if n < 0 then "-" + NatToString(-n) else NatToString(n)
  }

  /** Value of a non-empty run of decimal digits. */
  function ParseDigits(s: string): nat
    requires AllDigits(s)
  {
    if |s| == 0 then 0 else 10 * ParseDigits(s[..|s| - 1]) + DigitValue(s[|s| - 1])
  }

  /** An optional minus sign followed by at least one digit; None otherwise (where parseInt would give NaN or read a different prefix). */
  function ParseInt(s: string): Option<int> {
    if |s| > 1 && s[0] == '-' && AllDigits(s[1..]) then Some(0 - ParseDigits(s[1..]) as int)
    else if |s| > 0 && AllDigits(s) then Some(ParseDigits(s))
    else None
  }

  /** Index of the first `ch` in `s`, or |s| when there is none. */
  function FirstIndex(s: string, ch: char): (k: nat)
    ensures k <= |s| && ch !in s[..k] && (k < |s| ==> s[k] == ch)
  {
    if |s| == 0 then 0
    else if s[0] == ch then 0
    else
      var k := 1 + FirstIndex(s[1..], ch);
      assert s[..k] == [s[0]] + s[1..][..k - 1];
      k
  }

  // ---------------------------------------------------------------------
  // Cell.cellLocation and Cell.parseCellLocation

  /** The location string of a cell: "row,column". */
  function CellLocation(p: Pos): string {
    IntToString(p.row) + "," + IntToString(p.column)
  }

  /**
   * Splits at commas and reads the first two pieces as integers, as
   * `pos.split(",")` followed by two `parseInt` calls does.
   */
  function ParseCellLocation(s: string): Option<Pos> {
    var k := FirstIndex(s, ',');
    if k == |s| then None
    else
      var rest := s[k + 1..];
      var rowText, columnText := s[..k], rest[..FirstIndex(rest, ',')];
      match (ParseInt(rowText), ParseInt(columnText))
      case (Some(r), Some(c)) => Some(Pos(r, c))
      case _ => None
  }

  // ---------------------------------------------------------------------
  // The encoding round-trips, hence is injective

  lemma {:induction false} ParseDigitsOfNatToString(n: nat)
    ensures ParseDigits(NatToString(n)) == n
  {
    if n >= 10 {
      var s := NatToString(n);
      assert s[..|s| - 1] == NatToString(n / 10);
      ParseDigitsOfNatToString(n / 10);
    }
  }

  lemma ParseIntOfIntToString(n: int)
    ensures ParseInt(IntToString(n)) == Some(n)
  {
    if n < 0 {
      var s := IntToString(n);
      assert s[1..] == NatToString(-n);
      ParseDigitsOfNatToString(-n);
    } else {
      ParseDigitsOfNatToString(n);
    }
  }

  lemma FirstIndexOfJoin(a: string, ch: char, b: string)
    requires ch !in a
    ensures FirstIndex(a + [ch] + b, ch) == |a|
  {
    var s := a + [ch] + b;
    assert s[|a|] == ch;
  }

  /** parseCellLocation reads back every location string cellLocation produces. */
  lemma ParseCellLocationRoundTrip(p: Pos)
    ensures ParseCellLocation(CellLocation(p)) == Some(p)
  {
    var a, b := IntToString(p.row), IntToString(p.column);
    var s := CellLocation(p);
    assert s == a + [','] + b;
    FirstIndexOfJoin(a, ',', b);
    assert s[..|a|] == a;
    assert s[|a| + 1..] == b;
    assert FirstIndex(b, ',') == |b|;
    assert b[..|b|] == b;
    ParseIntOfIntToString(p.row);
    ParseIntOfIntToString(p.column);
  }

  /** Two cells have the same location string only if they are the same cell. */
  lemma CellLocationInjective(p: Pos, q: Pos)
    ensures CellLocation(p) == CellLocation(q) <==> p == q
  {
    ParseCellLocationRoundTrip(p);
    ParseCellLocationRoundTrip(q);
  }
}
