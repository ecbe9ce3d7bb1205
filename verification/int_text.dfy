/**
 * The part of Python's `int(text)` the queue handler relies on: an optional
 * sign followed by decimal digits; anything else is a ValueError.
 */
module IntText {
  import opened Wrappers

  predicate IsDigit(c: char)
  {
    '0' <= c <= '9'
  }

  predicate AllDigits(s: string)
  {
    forall i :: 0 <= i < |s| ==> IsDigit(s[i])
  }

  /** The value of a string of decimal digits, most significant first. */
  function DigitsValue(s: string): nat
    requires AllDigits(s)
  {
    if s == [] then 0
    else DigitsValue(s[..|s| - 1]) * 10 + (s[|s| - 1] as int - '0' as int)
  }

  /** Decimal digits, or a `+` or `-` followed by at least one decimal digit. */
  predicate IsIntLiteral(text: string)
  {
    && 0 < |text|
    && (|| AllDigits(text)
        || ((text[0] == '-' || text[0] == '+') && 1 < |text| && AllDigits(text[1..])))
  }

  /** `int(text)` for a sign-and-digits literal; None stands for the ValueError. */
  function ParseInt(text: string): (r: Option<int>)
    ensures r.Some? <==> IsIntLiteral(text)
    ensures r.Some? ==> 0 < |text|
    ensures r.Some? && r.value < 0 ==> text[0] == '-'
    ensures 0 < |text| && AllDigits(text) ==> r == Some(DigitsValue(text))
    ensures 1 < |text| && text[0] == '-' && AllDigits(text[1..]) ==> r == Some(0 - DigitsValue(text[1..]))
    ensures 1 < |text| && text[0] == '+' && AllDigits(text[1..]) ==> r == Some(DigitsValue(text[1..]))
    ensures text == [] || text == "-" || text == "+" ==> r.None?
  {
    if 0 < |text| && (text[0] == '-' || text[0] == '+') then
      var digits := text[1..];
      if 0 < |digits| && AllDigits(digits) then
        var magnitude: int := DigitsValue(digits);
        Some(if text[0] == '-' then -magnitude else magnitude)
      else None
    else if 0 < |text| && AllDigits(text) then Some(DigitsValue(text))
    else None
  }

  function DigitChar(d: nat): (c: char)
    requires d < 10
    ensures IsDigit(c) && c as int - '0' as int == d
  {
    (d + '0' as int) as char
  }

  /** Decimal text of a natural number, no leading zeros. */
  function ShowNat(n: nat): (s: string)
    ensures 0 < |s| && AllDigits(s)
  {
    if n < 10 then [DigitChar(n)] else ShowNat(n / 10) + [DigitChar(n % 10)]
  }

  /** Decimal text of an integer, with a `-` when negative: what `str(n)` prints. */
  function ShowInt(n: int): string
  {
    if n < 0 then "-" + ShowNat(-n) else ShowNat(n)
  }

  lemma {:induction false} ShowNatValue(n: nat)
    ensures DigitsValue(ShowNat(n)) == n
    decreases n
  {
    if n >= 10 {
      var s := ShowNat(n);
      ShowNatValue(n / 10);
      assert s[..|s| - 1] == ShowNat(n / 10);
    }
  }

  /** Parsing what `str(n)` prints gives back `n`. */
  lemma ParseShowRoundTrip(n: int)
    ensures ParseInt(ShowInt(n)) == Some(n)
  {
    if n < 0 {
      ShowNatValue(-n);
      assert ShowInt(n)[1..] == ShowNat(-n);
    } else {
      ShowNatValue(n);
    }
  }

  /** A word with a letter in it is not a number. */
  lemma NotANumber()
    ensures ParseInt("notanumber") == None
  {
    assert !IsDigit("notanumber"[0]);
  }
}
