/**
 * The part of Python's int() that the generators rely on: turning the text of
 * the length field into an integer. Accepted: an optional '-' followed by one
 * or more ASCII decimal digits; anything else gives None. Python raises
 * ValueError for most such text, but also accepts surrounding whitespace, a
 * '+' sign and underscores between digits, which this model rejects. Python's
 * limit on the number of digits is not modelled.
 */
module IntLiteral {
  import opened Wrappers
  import opened Ascii

  predicate AllDigits(s: string)
  {
    forall i :: 0 <= i < |s| ==> IsDigit(s[i])
  }

  /** One or more decimal digits. */
  predicate IsDecimal(s: string)
  {
    |s| > 0 && AllDigits(s)
  }

  function DigitValue(c: char): (d: nat)
    requires IsDigit(c)
    ensures d < 10
  {
    c as int - '0' as int
  }

  /** The value of a digit string, most significant digit first. */
  function DecimalValue(s: string): nat
    requires AllDigits(s)
    decreases |s|
  {
    if s == [] then 0 else DecimalValue(s[..|s| - 1]) * 10 + DigitValue(s[|s| - 1])
  }

  /** int(text): Some(value) when text is an integer literal of the accepted form, None otherwise. */
  function ParseInt(text: string): (r: Option<int>)
    ensures r.Some? <==> IsDecimal(text) || (|text| > 0 && text[0] == '-' && IsDecimal(text[1..]))
    ensures r.Some? && text[0] != '-' ==> r.value >= 0
    ensures r.Some? && r.value < 0 ==> text[0] == '-'
  {
    if |text| > 0 && text[0] == '-' && IsDecimal(text[1..]) then Some(0 - DecimalValue(text[1..]) as int)
    else if IsDecimal(text) then Some(DecimalValue(text))
    else None
  }

  /** The digit for d. */
  function DigitChar(d: nat): (c: char)
    requires d < 10
    ensures IsDigit(c) && DigitValue(c) == d
  {
    ('0' as int + d) as char
  }

  /** str(n) for n >= 0: decimal digits without leading zeros. */
  function NatToDecimal(n: nat): (s: string)
    ensures IsDecimal(s)
  {
    if n < 10 then [DigitChar(n)] else NatToDecimal(n / 10) + [DigitChar(n % 10)]
  }

  /** str(n) */
  function IntToDecimal(n: int): string
  {
    if n < 0 then "-" + NatToDecimal(-n) else NatToDecimal(n)
  }

  lemma {:induction false} DecimalValueOfNatToDecimal(n: nat)
    ensures DecimalValue(NatToDecimal(n)) == n
  {
    var s := NatToDecimal(n);
    if n >= 10 {
      DecimalValueOfNatToDecimal(n / 10);
      assert s[..|s| - 1] == NatToDecimal(n / 10);
    }
  }

  /** Every integer written in decimal is read back as itself. */
  lemma ParseIntOfDecimal(n: int)
    ensures ParseInt(IntToDecimal(n)) == Some(n)
  {
    if n < 0 {
      var s := IntToDecimal(n);
      assert s[1..] == NatToDecimal(-n);
      DecimalValueOfNatToDecimal(-n);
    } else {
      assert IntToDecimal(n)[0] != '-';
      DecimalValueOfNatToDecimal(n);
    }
  }
}
