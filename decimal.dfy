/**
 * Decimal text for integers: what `"%d" % n` and `str(n)` produce for a
 * non-negative n, and the part of Python's `int(s)` the core relies on
 * (an optional sign followed by ASCII digits).
 */
module Decimal {
  import opened Results

  predicate IsDigit(c: char) {
    '0' <= c <= '9'
  }

  predicate AllDigits(s: string) {
    forall i :: 0 <= i < |s| ==> IsDigit(s[i])
  }

  function DigitValue(c: char): (d: nat)
    requires IsDigit(c)
    ensures d < 10
  {
    (c as int) - ('0' as int)
  }

  function DigitChar(d: nat): (c: char)
    requires d < 10
    ensures IsDigit(c) && DigitValue(c) == d
  {
    (('0' as int) + d) as char
  }

  /** The value of a string of decimal digits, most significant first. */
  function DigitsValue(s: string): nat
    requires AllDigits(s)
  {
    if s == [] then 0 else DigitsValue(s[..|s| - 1]) * 10 + DigitValue(s[|s| - 1])
  }

  /** The decimal representation of n, without sign or leading zeros. */
  function Show(n: nat): (s: string)
    ensures |s| >= 1 && AllDigits(s)
    ensures |s| > 1 ==> s[0] != '0'
    ensures n < 10 <==> |s| == 1
  {
    if n < 10 then [DigitChar(n)] else Show(n / 10) + [DigitChar(n % 10)]
  }

  /** A non-empty string of ASCII digits. */
  predicate IsUnsigned(s: string) {
    s != [] && AllDigits(s)
  }

  /** A '+' or '-' followed by a non-empty string of ASCII digits. */
  predicate IsSigned(s: string) {
    |s| >= 2 && (s[0] == '+' || s[0] == '-') && AllDigits(s[1..])
  }

  /**
   * int(s) for strings made of an optional '+' or '-' and at least one
   * ASCII digit; every other string raises ValueError.
   */
  function ParseInt(s: string): (r: Result<int>)
    ensures r.Ok? <==> IsUnsigned(s) || IsSigned(s)
    ensures r.Err? ==> r.error == ValueError
    ensures IsUnsigned(s) ==> r == Ok(DigitsValue(s))
    ensures IsSigned(s) && s[0] == '+' ==> r == Ok(DigitsValue(s[1..]))
    ensures IsSigned(s) && s[0] == '-' ==> r == Ok(-(DigitsValue(s[1..]) as int))
  {
    if IsUnsigned(s) then Ok(DigitsValue(s))
    else if IsSigned(s) && s[0] == '-' then Ok(-(DigitsValue(s[1..]) as int))
    else if IsSigned(s) then Ok(DigitsValue(s[1..]))
    else Err(ValueError)
  }

  /** Reading back what Show writes gives the number again. */
  lemma {:induction false} ShowValue(n: nat)
    ensures DigitsValue(Show(n)) == n
  {
    if n >= 10 {
      var s := Show(n);
      assert s[..|s| - 1] == Show(n / 10);
      ShowValue(n / 10);
    }
  }

  /** int(str(n)) == n. */
  lemma ParseShow(n: nat)
    ensures ParseInt(Show(n)) == Ok(n)
  {
    ShowValue(n);
  }

  /** int("+" + str(n)) == n and int("-" + str(n)) == -n. */
  lemma ParseSignedShow(n: nat)
    ensures ParseInt(['+'] + Show(n)) == Ok(n)
    ensures ParseInt(['-'] + Show(n)) == Ok(-(n as int))
  {
    ShowValue(n);
    assert (['+'] + Show(n))[1..] == Show(n);
    assert (['-'] + Show(n))[1..] == Show(n);
  }
}
