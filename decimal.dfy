/**
 * Decimal text of integers: JavaScript's `${n}` and Java's `"" + n` for the
 * integers the system prints, and Java's `Integer.parseInt`.
 */
module Decimal {
  import opened Wrappers

  const IntMax: int := 0x7FFF_FFFF
  const IntMin: int := -0x8000_0000

  predicate IsDigit(c: char) { '0' <= c <= '9' }

  predicate AllDigits(s: string) { forall i :: 0 <= i < |s| ==> IsDigit(s[i]) }

  function DigitChar(d: nat): (c: char)
    requires d < 10
    ensures IsDigit(c)
  {
    (48 + d) as char
  }

  function DigitValue(c: char): nat
    requires IsDigit(c)
  {
    c as int - 48
  }

  /** The shortest decimal text of a natural number. */
  function NatToString(n: nat): (s: string)
    ensures |s| >= 1 && AllDigits(s)
  {
    if n < 10 then [DigitChar(n)] else NatToString(n / 10) + [DigitChar(n % 10)]
  }

  /** The decimal text of an integer, with a leading '-' when negative. */
  function IntToString(i: int): string {
    if i < 0 then "-" + NatToString(-i) else NatToString(i)
  }

  /** The value of a string of decimal digits. */
  function DigitsValue(s: string): nat
    requires AllDigits(s)
  {
    if s == [] then 0 else 10 * DigitsValue(s[..|s| - 1]) + DigitValue(s[|s| - 1])
  }

  lemma {:induction false} DigitsValueOfNatToString(n: nat)
    ensures DigitsValue(NatToString(n)) == n
  {
    var s := NatToString(n);
    if n >= 10 {
      DigitsValueOfNatToString(n / 10);
      assert s[..|s| - 1] == NatToString(n / 10);
    }
  }

  /**
   * `Character.digit(c, 10)`, with -1 as `None`: the place of `c` in one of
   * the runs of ten decimal digits (Unicode category Nd) of the Basic
   * Multilingual Plane, ASCII first. A digit beyond that plane is two
   * surrogate units to Java, neither of them a digit.
   */
  function JavaDigit(c: char): (d: Option<nat>)
    ensures d.Some? ==> d.value < 10 && c as int <= 0xFFFF
    ensures IsDigit(c) ==> d == Some(DigitValue(c))
  {
    var x := c as int;
    if 0x0030 <= x < 0x003A then Some(x - 0x0030)
    else if x < 0x1000 then LowDigit(x)
    else HighDigit(x)
  }

  /** The digit runs from Arabic-Indic up to Tibetan. */
  function LowDigit(x: int): (d: Option<nat>)
    ensures d.Some? ==> d.value < 10 && 0x0660 <= x < 0x1000
  {
    if 0x0660 <= x < 0x066A then Some(x - 0x0660)
    else if 0x06F0 <= x < 0x06FA then Some(x - 0x06F0)
    else if 0x07C0 <= x < 0x07CA then Some(x - 0x07C0)
    else if 0x0966 <= x < 0x0970 then Some(x - 0x0966)
    else if 0x09E6 <= x < 0x09F0 then Some(x - 0x09E6)
    else if 0x0A66 <= x < 0x0A70 then Some(x - 0x0A66)
    else if 0x0AE6 <= x < 0x0AF0 then Some(x - 0x0AE6)
    else if 0x0B66 <= x < 0x0B70 then Some(x - 0x0B66)
    else if 0x0BE6 <= x < 0x0BF0 then Some(x - 0x0BE6)
    else if 0x0C66 <= x < 0x0C70 then Some(x - 0x0C66)
    else if 0x0CE6 <= x < 0x0CF0 then Some(x - 0x0CE6)
    else if 0x0D66 <= x < 0x0D70 then Some(x - 0x0D66)
    else if 0x0DE6 <= x < 0x0DF0 then Some(x - 0x0DE6)
    else if 0x0E50 <= x < 0x0E5A then Some(x - 0x0E50)
    else if 0x0ED0 <= x < 0x0EDA then Some(x - 0x0ED0)
    else if 0x0F20 <= x < 0x0F2A then Some(x - 0x0F20)
    else None
  }

  /** The digit runs from Myanmar up to the fullwidth forms. */
  function HighDigit(x: int): (d: Option<nat>)
    ensures d.Some? ==> d.value < 10 && 0x1040 <= x <= 0xFFFF
  {
    if 0x1040 <= x < 0x104A then Some(x - 0x1040)
    else if 0x1090 <= x < 0x109A then Some(x - 0x1090)
    else if 0x17E0 <= x < 0x17EA then Some(x - 0x17E0)
    else if 0x1810 <= x < 0x181A then Some(x - 0x1810)
    else if 0x1946 <= x < 0x1950 then Some(x - 0x1946)
    else if 0x19D0 <= x < 0x19DA then Some(x - 0x19D0)
    else if 0x1A80 <= x < 0x1A8A then Some(x - 0x1A80)
    else if 0x1A90 <= x < 0x1A9A then Some(x - 0x1A90)
    else if 0x1B50 <= x < 0x1B5A then Some(x - 0x1B50)
    else if 0x1BB0 <= x < 0x1BBA then Some(x - 0x1BB0)
    else if 0x1C40 <= x < 0x1C4A then Some(x - 0x1C40)
    else if 0x1C50 <= x < 0x1C5A then Some(x - 0x1C50)
    else if 0xA620 <= x < 0xA62A then Some(x - 0xA620)
    else if 0xA8D0 <= x < 0xA8DA then Some(x - 0xA8D0)
    else if 0xA900 <= x < 0xA90A then Some(x - 0xA900)
    else if 0xA9D0 <= x < 0xA9DA then Some(x - 0xA9D0)
    else if 0xA9F0 <= x < 0xA9FA then Some(x - 0xA9F0)
    else if 0xAA50 <= x < 0xAA5A then Some(x - 0xAA50)
    else if 0xABF0 <= x < 0xABFA then Some(x - 0xABF0)
    else if 0xFF10 <= x < 0xFF1A then Some(x - 0xFF10)
    else None
  }

  predicate AllJavaDigits(s: string) { forall i :: 0 <= i < |s| ==> JavaDigit(s[i]).Some? }

  /** The value of a string of digits of any script. */
  function JavaDigitsValue(s: string): nat
    requires AllJavaDigits(s)
  {
    if s == [] then 0 else 10 * JavaDigitsValue(s[..|s| - 1]) + JavaDigit(s[|s| - 1]).value
  }

  /** On ASCII digits the two readings agree. */
  lemma {:induction false} AsciiDigitsValue(s: string)
    requires AllDigits(s)
    ensures AllJavaDigits(s) && JavaDigitsValue(s) == DigitsValue(s)
  {
    if s != [] {
      AsciiDigitsValue(s[..|s| - 1]);
    }
  }

  /**
   * Java's `Integer.parseInt(s)`: an optional '+' or '-', then at least one
   * decimal digit of any script, and a value inside the 32-bit range;
   * otherwise a NumberFormatException, here `None`.
   */
  function JavaParseInt(s: string): (r: Option<int>)
    ensures r.Some? ==> IntMin <= r.value <= IntMax
    ensures r.Some? ==> s != [] && (s[0] == '-' ==> r.value <= 0) && (s[0] != '-' ==> r.value >= 0)
    ensures r.Some? ==> forall i :: 1 <= i < |s| ==> JavaDigit(s[i]).Some?
    ensures r.Some? ==> s[0] == '-' || s[0] == '+' || JavaDigit(s[0]).Some?
    ensures s == [] || s == "-" || s == "+" ==> r.None?
    ensures AllDigits(s) && s != [] && DigitsValue(s) <= IntMax ==> r == Some(DigitsValue(s))
  {
    var negative := s != [] && s[0] == '-';
    var body := if s != [] && (s[0] == '-' || s[0] == '+') then s[1..] else s;
    if body == [] || !AllJavaDigits(body) then None
    else
      var d: int := JavaDigitsValue(body);
      var v: int := if negative then -d else d;
      if AllDigits(s) then
        AsciiDigitsValue(s);
        if IntMin <= v <= IntMax then Some(v) else None
      else if IntMin <= v <= IntMax then Some(v) else None
  }

  /** Printing a 32-bit integer and parsing it back gives the integer. */
  lemma ParseIntOfIntToString(i: int)
    requires IntMin <= i <= IntMax
    ensures JavaParseInt(IntToString(i)) == Some(i)
  {
    if i < 0 {
      assert IntToString(i) == "-" + NatToString(-i);
      ParseIntOfNegatedText(-i);
    } else {
      assert IntToString(i) == NatToString(i);
      ParseIntOfNatText(i);
    }
  }

  /** The decimal text of an integer outside the 32-bit range does not parse. */
  lemma ParseIntOfWideInt(i: int)
    requires i < IntMin || IntMax < i
    ensures JavaParseInt(IntToString(i)) == None
  {
    if i < 0 {
      assert IntToString(i) == "-" + NatToString(-i);
      ParseIntOfNegatedText(-i);
    } else {
      assert IntToString(i) == NatToString(i);
      ParseIntOfNatText(i);
    }
  }

  /** Unsigned decimal text parses to its number exactly when that fits in 32 bits. */
  lemma ParseIntOfNatText(n: nat)
    ensures JavaParseInt(NatToString(n)) == if n <= IntMax then Some(n) else None
  {
    var s := NatToString(n);
    DigitsValueOfNatToString(n);
    AsciiDigitsValue(s);
    assert IsDigit(s[0]);
  }

  /** Decimal text after a minus sign parses to the negated number exactly when that fits in 32 bits. */
  lemma ParseIntOfNegatedText(n: nat)
    ensures JavaParseInt("-" + NatToString(n)) == if n <= -IntMin then Some(-(n as int)) else None
  {
    var s := "-" + NatToString(n);
    DigitsValueOfNatToString(n);
    AsciiDigitsValue(NatToString(n));
    assert s[1..] == NatToString(n);
    assert !IsDigit(s[0]);
  }

  /** Printing a non-negative 32-bit integer and parsing it back gives the integer. */
  lemma ParseIntOfNatToString(n: nat)
    requires n <= IntMax
    ensures JavaParseInt(NatToString(n)) == Some(n)
  {
    DigitsValueOfNatToString(n);
  }

  /** Digits of other scripts count: fullwidth and Arabic-Indic numbers parse. */
  lemma OtherScriptsParse()
    ensures JavaParseInt("\U{FF11}\U{FF12}\U{FF13}") == Some(123)
    ensures JavaParseInt("-\U{0664}\U{0662}") == Some(-42)
    ensures JavaParseInt("12a") == None
  {
    var wide := "\U{FF11}\U{FF12}\U{FF13}";
    assert wide[..2][..1] == "\U{FF11}" && wide[..2] == "\U{FF11}\U{FF12}";
    assert JavaDigitsValue(wide[..2][..1]) == 1;
    assert JavaDigitsValue(wide[..2]) == 12;
    assert JavaDigitsValue(wide) == 123;
    var arabic := "-\U{0664}\U{0662}";
    assert arabic[1..] == "\U{0664}\U{0662}" && arabic[1..][..1] == "\U{0664}";
    assert JavaDigitsValue(arabic[1..][..1]) == 4;
    assert JavaDigitsValue(arabic[1..]) == 42;
    assert JavaDigit('a').None?;
  }
}
