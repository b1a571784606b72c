/**
 * Decimal integer literals, as read by Python's `int(str)` and by the integer
 * form fields: surrounding whitespace, then an optional sign followed by one
 * or more ASCII digits. The whitespace `int()` skips is not quite what
 * `str.strip()` removes: the four information separators U+001C to U+001F are
 * whitespace to `str.isspace()`, but `int()` refuses them.
 */
module Numbers {
  import opened Wrappers
  import opened Text

  predicate IsDigit(c: char) {
    '0' <= c <= '9'
  }

  predicate AllDigits(s: string) {
    forall i :: 0 <= i < |s| ==> IsDigit(s[i])
  }

  /** The strings `int()` accepts in this model. */
  predicate IsIntLiteral(s: string) {
    if |s| > 0 && (s[0] == '-' || s[0] == '+') then
      |s| > 1 && AllDigits(s[1..])
    else
      |s| > 0 && AllDigits(s)
  }

  function DigitValue(c: char): (d: nat)
    requires IsDigit(c)
    ensures d < 10
  {
    c as int - '0' as int
  }

  function DigitChar(d: nat): (c: char)
    requires d < 10
    ensures IsDigit(c) && DigitValue(c) == d
  {
    ('0' as int + d) as char
  }

  /** The value of a string of digits, most significant first. */
  function DigitsValue(s: string): nat
    requires AllDigits(s)
  {
    if s == [] then 0 else DigitsValue(s[..|s| - 1]) * 10 + DigitValue(s[|s| - 1])
  }

  /**
   * The whitespace `int()` skips around a literal: the characters
   * `str.isspace()` holds for, except U+001C to U+001F. (Non-ASCII whitespace
   * is turned into a space first, and ASCII space, tab, line feed, vertical
   * tab, form feed and carriage return are skipped.)
   */
  predicate IsIntSpace(c: char) {
    IsSpace(c) && !('\U{1C}' <= c <= '\U{1F}')
  }

  /** The text `int()` reads as a literal: `s` without the whitespace it skips. */
  function IntStrip(s: string): string {
    StripWith(s, IsIntSpace)
  }

  /** The value of a literal that has no surrounding whitespace. */
  function ParseLiteral(t: string): (r: Option<int>)
    ensures r.Some? <==> IsIntLiteral(t)
    ensures r.Some? && t[0] == '-' ==> r.value <= 0
    ensures r.Some? && t[0] != '-' ==> r.value >= 0
  {
    if |t| > 0 && (t[0] == '-' || t[0] == '+') then
      if |t| > 1 && AllDigits(t[1..]) then
        Some(if t[0] == '-' then -(DigitsValue(t[1..]) as int) else DigitsValue(t[1..]))
      else
        None
    else if |t| > 0 && AllDigits(t) then
      Some(DigitsValue(t))
    else
      None
  }

  /**
   * `int(s)`: the value of the literal `s` holds once the whitespace `int()`
   * skips is removed from around it, or `None` where Python raises `ValueError`.
   */
  function ParseInt(s: string): (r: Option<int>)
    ensures r.Some? <==> IsIntLiteral(IntStrip(s))
    ensures r.Some? && IntStrip(s)[0] == '-' ==> r.value <= 0
    ensures r.Some? && IntStrip(s)[0] != '-' ==> r.value >= 0
  {
    ParseLiteral(IntStrip(s))
  }

  /** The canonical decimal spelling of a natural number. */
  function ShowNat(n: nat): (s: string)
    ensures |s| > 0 && AllDigits(s)
  {
    if n < 10 then [DigitChar(n)] else ShowNat(n / 10) + [DigitChar(n % 10)]
  }

  /** The canonical decimal spelling of an integer, as `str(n)` gives it. */
  function ShowInt(n: int): (s: string)
    ensures |s| > 0 && (s[0] == '-' || IsDigit(s[0])) && IsDigit(s[|s| - 1])
  {
    if n < 0 then "-" + ShowNat(-n) else ShowNat(n)
  }

  lemma {:induction false} DigitsOfShowNat(n: nat)
    ensures DigitsValue(ShowNat(n)) == n
  {
    var s := ShowNat(n);
    if n >= 10 {
      DigitsOfShowNat(n / 10);
      assert s[..|s| - 1] == ShowNat(n / 10);
    }
  }

  /** Reading back what `str` writes gives the number again. */
  lemma ParseShowInt(n: int)
    ensures ParseInt(ShowInt(n)) == Some(n)
  {
    if n < 0 {
      NegativeLiteral(ShowNat(-n));
      ParseUnpadded(ShowInt(n));
      DigitsOfShowNat(-n);
    } else {
      ParseIntOfDigits(ShowNat(n));
      DigitsOfShowNat(n);
    }
  }

  /** The whitespace `int()` skips never changes what it reads. */
  lemma ParseIntIgnoresPadding(s: string)
    ensures ParseInt(s) == ParseInt(IntStrip(s))
  {
    StripIdempotent(s, IsIntSpace);
  }

  /** An information separator before a number is whitespace to `str.strip()`, but `int()` refuses it. */
  lemma SeparatorIsNotIntPadding(c: char, d: string)
    requires '\U{1C}' <= c <= '\U{1F}' && |d| > 0 && AllDigits(d)
    ensures Strip([c] + d) == d
    ensures ParseInt([c] + d) == None
  {
    var t := [c] + d;
    assert IsDigit(d[0]) && IsDigit(d[|d| - 1]) && t[|t| - 1] == d[|d| - 1];
    assert LeadingSpaces(t, IsSpace) == 1 + LeadingSpaces(d, IsSpace);
    assert t[1..] == d;
    StripUnpadded(d, IsSpace);
    StripUnpadded(t, IsIntSpace);
  }

  /** Text without surrounding whitespace is read as it stands. */
  lemma ParseUnpadded(t: string)
    requires |t| > 0 && !IsIntSpace(t[0]) && !IsIntSpace(t[|t| - 1])
    ensures ParseInt(t) == ParseLiteral(t)
  {
    StripUnpadded(t, IsIntSpace);
  }

  /** A run of digits reads as its decimal value. */
  lemma ParseIntOfDigits(d: string)
    requires |d| > 0 && AllDigits(d)
    ensures ParseInt(d) == Some(DigitsValue(d) as int)
  {
    assert IsDigit(d[0]) && IsDigit(d[|d| - 1]);
    ParseUnpadded(d);
  }

  /** A `+` sign reads as no sign. */
  lemma ParseIntPlus(d: string)
    requires |d| > 0 && AllDigits(d)
    ensures ParseInt("+" + d) == ParseInt(d)
  {
    var t := "+" + d;
    assert t[|t| - 1] == d[|d| - 1] && IsDigit(d[|d| - 1]);
    ParseUnpadded(t);
    assert t[1..] == d;
    ParseIntOfDigits(d);
  }

  lemma NegativeLiteral(d: string)
    requires |d| > 0 && AllDigits(d)
    ensures |"-" + d| > 0 && !IsIntSpace(("-" + d)[0]) && !IsIntSpace(("-" + d)[|"-" + d| - 1])
    ensures ParseLiteral("-" + d) == Some(-(DigitsValue(d) as int))
  {
    var t := "-" + d;
    assert t[|t| - 1] == d[|d| - 1] && IsDigit(d[|d| - 1]);
    assert t[0] == '-' && t[1..] == d;
  }

  /** A `-` sign negates. */
  lemma ParseIntMinus(d: string)
    requires |d| > 0 && AllDigits(d)
    ensures ParseInt("-" + d) == Some(-ParseInt(d).value)
  {
    NegativeLiteral(d);
    ParseUnpadded("-" + d);
    ParseIntOfDigits(d);
  }

  lemma {:induction false} LeadingZeroValue(d: string)
    requires AllDigits(d)
    ensures AllDigits("0" + d) && DigitsValue("0" + d) == DigitsValue(d)
  {
    var z := "0" + d;
    assert AllDigits(z) by {
      forall i | 0 <= i < |z| ensures IsDigit(z[i]) {
        if i > 0 { assert z[i] == d[i - 1]; }
      }
    }
    if d != [] {
      assert z[..|z| - 1] == "0" + d[..|d| - 1];
      LeadingZeroValue(d[..|d| - 1]);
    }
  }

  /** Leading zeros are read as in any decimal literal: they add nothing. */
  lemma ParseIntLeadingZero(d: string)
    requires |d| > 0 && AllDigits(d)
    ensures ParseInt("0" + d) == ParseInt(d)
  {
    LeadingZeroValue(d);
    ParseIntOfDigits(d);
    ParseIntOfDigits("0" + d);
  }
}
