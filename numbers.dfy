/**
  Decimal numerals: the `%d` conversion of printf (section 7.21.6.1 of ISO C11) and
  `atoi` (section 7.22.1.2 of ISO C11, base-10 `strtol` without the error report).
 */
module Numbers {

  predicate IsDigit(c: char) {
    '0' <= c <= '9'
  }

  function DigitValue(c: char): (d: nat)
    requires IsDigit(c)
    ensures d < 10
  {
    c as int - '0' as int
  }

  function DigitChar(d: nat): (c: char)
    requires d < 10
    ensures IsDigit(c) && DigitValue(c) == d
  {
    ('0' as int + d) as char
  }

  predicate AllDigits(s: string) {
    forall k :: 0 <= k < |s| ==> IsDigit(s[k])
  }

  /** The numeral of a natural number, most significant digit first, without leading zeros. */
  function Natural(n: nat): (s: string)
    ensures |s| > 0 && AllDigits(s)
    ensures s[0] == '0' ==> n == 0
    decreases n
  {
    if n < 10 then [DigitChar(n)] else Natural(n / 10) + [DigitChar(n % 10)]
  }

  /** What `printf("%d", n)` writes. */
  function Decimal(n: int): (s: string)
    ensures |s| > 0
    ensures s[0] == '-' <==> n < 0
  {
    if n < 0 then "-" + Natural(-n) else Natural(n)
  }

  /** `isspace` in the "C" locale: space, \t, \n, \v, \f, \r. */
  predicate IsSpace(c: char) {
    c == ' ' || c == '\t' || c == '\n' || c == '\U{000B}' || c == '\U{000C}' || c == '\r'
  }

  /** The input after its leading white space. */
  function SkipSpace(s: string): (t: string)
    ensures |t| <= |s| && t == s[|s| - |t|..]
    ensures t != [] ==> !IsSpace(t[0])
  {
    if s != [] && IsSpace(s[0]) then SkipSpace(s[1..]) else s
  }

  /** Length of the longest prefix made of decimal digits. */
  function DigitRun(s: string): (n: nat)
    ensures n <= |s| && AllDigits(s[..n])
    ensures n < |s| ==> !IsDigit(s[n])
  {
    if s != [] && IsDigit(s[0]) then
      var n := 1 + DigitRun(s[1..]);
      assert s[..n] == [s[0]] + s[1..][..n - 1];
      n
    else 0
  }

  /** The value of a string of digits, read most significant digit first. */
  function DigitsValue(s: string): (v: nat)
    requires AllDigits(s)
  {
    if s == [] then 0 else 10 * DigitsValue(s[..|s| - 1]) + DigitValue(s[|s| - 1])
  }

  /** The value of the leading digits of the subject sequence. */
  function Magnitude(s: string): (v: nat) {
    DigitsValue(s[..DigitRun(s)])
  }

  /**
    `atoi`: skip white space, read an optional sign, then as many decimal digits as
    follow; no digits at all gives 0. Values outside the range of `int` are undefined
    behaviour in C; here they are the exact value.
   */
  function Atoi(s: string): (n: int)
    ensures n < 0 ==> SkipSpace(s) != [] && SkipSpace(s)[0] == '-'
    ensures n != 0 ==> exists k :: 0 <= k < |s| && IsDigit(s[k])
  {
    var t := SkipSpace(s);
    if t != [] && t[0] == '-' then 0 - Magnitude(t[1..]) as int
    else if t != [] && t[0] == '+' then Magnitude(t[1..]) as int
    else Magnitude(t) as int
  }

  lemma {:induction false} DigitRunOfDigits(s: string)
    requires AllDigits(s)
    ensures DigitRun(s) == |s|
    decreases |s|
  {
    if s != [] {
      DigitRunOfDigits(s[1..]);
    }
  }

  lemma {:induction false} DigitsValueOfNatural(n: nat)
    ensures DigitsValue(Natural(n)) == n
    decreases n
  {
    var s := Natural(n);
    if n < 10 {
      assert s[..|s| - 1] == [];
    } else {
      assert s[..|s| - 1] == Natural(n / 10);
      DigitsValueOfNatural(n / 10);
    }
  }

  lemma MagnitudeOfNatural(n: nat)
    ensures Magnitude(Natural(n)) == n
  {
    var s := Natural(n);
    DigitRunOfDigits(s);
    assert s[..|s|] == s;
    DigitsValueOfNatural(n);
  }

  /** Reading back what `%d` wrote gives the number again. */
  lemma AtoiOfDecimal(n: int)
    ensures Atoi(Decimal(n)) == n
  {
    var s := Decimal(n);
    assert !IsSpace(s[0]);
    assert SkipSpace(s) == s;
    if n < 0 {
      var digits := Natural(-n);
      assert s == "-" + digits;
      assert s[1..] == digits;
      MagnitudeOfNatural(-n);
    } else {
      assert s[0] != '+' by { assert IsDigit(s[0]); }
      MagnitudeOfNatural(n);
    }
  }

  /** A token that starts with neither white space, a sign nor a digit converts to 0. */
  lemma AtoiOfNonNumeric(s: string)
    requires s == [] || (!IsSpace(s[0]) && s[0] != '-' && s[0] != '+' && !IsDigit(s[0]))
    ensures Atoi(s) == 0
  {
    assert SkipSpace(s) == s;
    assert DigitRun(s) == 0;
    assert s[..0] == [];
  }
}
