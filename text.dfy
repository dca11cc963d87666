/**
 * String operations of the JavaScript and Java runtimes that the client and
 * the backend rely on, written out over `seq<char>`.
 */
module Text {

  /** `s.startsWith(p)` */
  predicate StartsWith(s: string, p: string) {
    |p| <= |s| && s[..|p|] == p
  }

  /** `s.includes(sub)` / `s.contains(sub)` */
  predicate Contains(s: string, sub: string) {
    exists i | 0 <= i <= |s| :: OccursAt(s, sub, i)
  }

  predicate OccursAt(s: string, sub: string, i: int) {
    0 <= i <= |s| - |sub| && s[i..i + |sub|] == sub
  }

  /** A text that never holds the first character of `sub` does not contain `sub`. */
  lemma AbsentFirstChar(s: string, sub: string)
    requires |sub| > 0
    requires forall j :: 0 <= j < |s| ==> s[j] != sub[0]
    ensures !Contains(s, sub)
  {
    forall i | 0 <= i <= |s|
      ensures !OccursAt(s, sub, i)
    {
      if i <= |s| - |sub| {
        assert s[i..i + |sub|][0] == s[i];
      }
    }
  }

  /** Java's `String.trim()`: drops leading and trailing characters at or below U+0020. */
  function Trim(s: string): (r: string)
    ensures |r| <= |s|
    ensures r != [] ==> r[0] > ' ' && r[|r| - 1] > ' '
  {
    TrimRight(TrimLeft(s))
  }

  function TrimLeft(s: string): (r: string)
    ensures |r| <= |s| && r == s[|s| - |r|..]
    ensures r != [] ==> r[0] > ' '
  {
    if s != [] && s[0] <= ' ' then TrimLeft(s[1..]) else s
  }

  function TrimRight(s: string): (r: string)
    ensures |r| <= |s| && r == s[..|r|]
    ensures r != [] ==> r[|r| - 1] > ' '
  {
    if s != [] && s[|s| - 1] <= ' ' then TrimRight(s[..|s| - 1]) else s
  }

  /** A string none of whose characters is at or below U+0020 is its own trim. */
  lemma {:induction false} TrimOfVisible(s: string)
    requires forall i :: 0 <= i < |s| ==> s[i] > ' '
    ensures Trim(s) == s
  {
    assert TrimLeft(s) == s;
    assert TrimRight(s) == s;
  }

  /** ASCII case folding: upper-case ASCII letters to lower case, everything else unchanged. */
  function AsciiLower(c: char): (r: char)
    ensures 'A' <= c <= 'Z' ==> 'a' <= r <= 'z'
    ensures !('A' <= c <= 'Z') ==> r == c
  {
    if 'A' <= c <= 'Z' then (c as int + 32) as char else c
  }

  /**
   * Equality up to ASCII letter case. This is how a JavaScript regular
   * expression with the `i` flag and without `u` compares an ASCII pattern:
   * a character outside ASCII never matches an ASCII letter there.
   */
  predicate EqualsIgnoreCase(a: string, b: string) {
    |a| == |b| && forall i :: 0 <= i < |a| ==> AsciiLower(a[i]) == AsciiLower(b[i])
  }

  /**
   * The folding Java's `equalsIgnoreCase` amounts to when the other side is
   * ASCII: ASCII letters go to lower case, and the four characters outside
   * ASCII whose upper- or lower-case form is an ASCII letter go to that
   * letter (U+0130 and U+0131 to `i`, U+017F to `s`, the Kelvin sign U+212A
   * to `k`). Every other character is left alone.
   */
  function JavaFold(c: char): (r: char)
    ensures c as int < 0x80 ==> r == AsciiLower(c)
    ensures c == '\U{212A}' ==> r == 'k'
  {
    if c == '\U{130}' || c == '\U{131}' then 'i'
    else if c == '\U{17F}' then 's'
    else if c == '\U{212A}' then 'k'
    else AsciiLower(c)
  }

  /**
   * Java's `word.equalsIgnoreCase(s)` for an ASCII `word`. A character beyond
   * the Basic Multilingual Plane folds to no ASCII letter, so counting it as
   * one character rather than two code units changes no answer.
   */
  predicate JavaEqualsIgnoreCase(word: string, s: string) {
    |word| == |s| && forall i :: 0 <= i < |s| ==> AsciiLower(word[i]) == JavaFold(s[i])
  }

  /** Java's `String.length()`: the number of UTF-16 code units. */
  function Utf16Length(s: string): (n: nat)
    ensures |s| <= n <= 2 * |s|
  {
    if s == [] then 0 else (if s[0] as int > 0xFFFF then 2 else 1) + Utf16Length(s[1..])
  }

  /** Text made only of characters of the Basic Multilingual Plane has one code unit per character. */
  lemma {:induction false} Utf16LengthOfBmp(s: string)
    requires forall i :: 0 <= i < |s| ==> s[i] as int <= 0xFFFF
    ensures Utf16Length(s) == |s|
  {
    if s != [] {
      Utf16LengthOfBmp(s[1..]);
    }
  }

  /** The first UTF-16 code unit of a character: itself, or the high surrogate beyond the BMP. */
  function FirstUnit(c: char): int {
    if c as int <= 0xFFFF then c as int else 0xD800 + (c as int - 0x10000) / 0x400
  }

  /**
   * Whether `x` comes before `y` in UTF-16 code-unit order. Two characters
   * with the same first unit are both beyond the BMP, and their low
   * surrogates then order them as their code points do.
   */
  predicate UnitBefore(x: char, y: char) {
    FirstUnit(x) < FirstUnit(y) || (FirstUnit(x) == FirstUnit(y) && x < y)
  }

  /** JavaScript's `<=` on strings: lexicographic order on UTF-16 code units. */
  predicate LexLessEq(a: string, b: string)
    decreases |a|
  {
    a == [] || (b != [] && (UnitBefore(a[0], b[0]) || (a[0] == b[0] && LexLessEq(a[1..], b[1..]))))
  }

  /** A character of the upper BMP comes after every character beyond it, unlike code-point order. */
  lemma UnitOrderIsNotCodePointOrder()
    ensures LexLessEq("\U{1F600}", "\U{FF5E}") && !LexLessEq("\U{FF5E}", "\U{1F600}")
  {
  }

  lemma {:induction false} LexLessEqTotal(a: string, b: string)
    ensures LexLessEq(a, b) || LexLessEq(b, a)
    decreases |a|
  {
    if a != [] && b != [] && a[0] == b[0] {
      LexLessEqTotal(a[1..], b[1..]);
    }
  }

  lemma {:induction false} LexLessEqAntisymmetric(a: string, b: string)
    requires LexLessEq(a, b) && LexLessEq(b, a)
    ensures a == b
    decreases |a|
  {
    if a != [] && b != [] {
      LexLessEqAntisymmetric(a[1..], b[1..]);
      assert a == [a[0]] + a[1..] && b == [b[0]] + b[1..];
    }
  }

  lemma {:induction false} LexLessEqTransitive(a: string, b: string, c: string)
    requires LexLessEq(a, b) && LexLessEq(b, c)
    ensures LexLessEq(a, c)
    decreases |a|
  {
    if a != [] && a[0] == b[0] && b[0] == c[0] {
      LexLessEqTransitive(a[1..], b[1..], c[1..]);
    }
  }

  /**
   * All pieces of `s` between occurrences of `d`, empty pieces included:
   * one more piece than there are separators.
   */
  function Pieces(s: string, d: char): (r: seq<string>)
    ensures |r| >= 1
    ensures forall k :: 0 <= k < |r| ==> d !in r[k]
  {
    if s == [] then [""]
    else if s[0] == d then [""] + Pieces(s[1..], d)
    else
      var rest := Pieces(s[1..], d);
      [[s[0]] + rest[0]] + rest[1..]
  }

  function DropTrailingEmpty(parts: seq<string>): (r: seq<string>)
    ensures |r| <= |parts| && r == parts[..|r|]
    ensures r != [] ==> r[|r| - 1] != ""
  {
    if parts == [] then []
    else if parts[|parts| - 1] == "" then DropTrailingEmpty(parts[..|parts| - 1])
    else parts
  }

  /**
   * Java's `s.split(d)` for a one-character separator that is not a regular
   * expression metacharacter: without a match the input itself; otherwise
   * the pieces with trailing empty pieces removed.
   */
  function JavaSplit(s: string, d: char): seq<string> {
    if d !in s then [s] else DropTrailingEmpty(Pieces(s, d))
  }

  lemma {:induction false} PiecesWithoutSeparator(x: string, d: char)
    requires d !in x
    ensures Pieces(x, d) == [x]
  {
    if x != [] {
      PiecesWithoutSeparator(x[1..], d);
      assert [x[0]] + x[1..] == x;
    }
  }

  /** A separator-free prefix followed by a separator is the first piece. */
  lemma {:induction false} PiecesAfterPrefix(x: string, d: char, rest: string)
    requires d !in x
    ensures Pieces(x + [d] + rest, d) == [x] + Pieces(rest, d)
  {
    if x == [] {
      assert x + [d] + rest == [d] + rest;
      assert ([d] + rest)[1..] == rest;
    } else {
      var s := x + [d] + rest;
      assert s[0] == x[0] && s[1..] == x[1..] + [d] + rest;
      PiecesAfterPrefix(x[1..], d, rest);
      assert [x[0]] + x[1..] == x;
    }
  }
}
