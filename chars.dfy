/**
 * Character predicates and `str.strip()`.
 *
 * Python's `\s` in a str pattern and `str.strip()` with no argument both use
 * the same notion of whitespace (`str.isspace()`); `IsSpace` enumerates it.
 */
module Chars {

  /** `str.isspace()`: the characters `\s` matches and `strip()` removes. */
  predicate IsSpace(c: char) {
    || ('\t' <= c <= '\r')
    || ('\U{1C}' <= c <= '\U{1F}')
    || c == ' '
    || c == '\U{85}'
    || c == '\U{A0}'
    || c == '\U{1680}'
    || ('\U{2000}' <= c <= '\U{200A}')
    || c == '\U{2028}'
    || c == '\U{2029}'
    || c == '\U{202F}'
    || c == '\U{205F}'
    || c == '\U{3000}'
  }

  /** `\d`, restricted to the ASCII digits. */
  predicate IsDecimal(c: char) {
    '0' <= c <= '9'
  }

  /** `A-Za-z` */
  predicate IsAsciiLetter(c: char) {
    ('A' <= c <= 'Z') || ('a' <= c <= 'z')
  }

  /** `가-힣`: the precomposed Hangul syllables U+AC00 to U+D7A3. */
  predicate IsHangulSyllable(c: char) {
    '가' <= c <= '힣'
  }

  predicate AllSpace(s: string) {
    forall k :: 0 <= k < |s| ==> IsSpace(s[k])
  }

  /** The first index at or after `i` that is not whitespace, or `|s|`. */
  function SpanStart(s: string, i: nat): (a: nat)
    requires i <= |s|
    ensures i <= a <= |s|
    ensures forall k :: i <= k < a ==> IsSpace(s[k])
    ensures a < |s| ==> !IsSpace(s[a])
    decreases |s| - i
  {
    if i < |s| && IsSpace(s[i]) then SpanStart(s, i + 1) else i
  }

  /** The index just after the last character before `j` that is not whitespace, or 0. */
  function SpanEnd(s: string, j: nat): (b: nat)
    requires j <= |s|
    ensures b <= j
    ensures forall k :: b <= k < j ==> IsSpace(s[k])
    ensures b > 0 ==> !IsSpace(s[b - 1])
  {
    if j > 0 && IsSpace(s[j - 1]) then SpanEnd(s, j - 1) else j
  }

  /**
   * `s.strip()`: whitespace removed from both ends. The result is empty
   * exactly when `s` is all whitespace; otherwise it starts and ends with a
   * non-whitespace character. StripSlice says where it sits in `s`.
   */
  function Strip(s: string): (r: string)
    ensures r == [] <==> AllSpace(s)
    ensures r != [] ==> !IsSpace(r[0]) && !IsSpace(r[|r| - 1])
  {
    var a := SpanStart(s, 0);
    if a == |s| then []
    else
      var b := SpanEnd(s, |s|);
      assert a < b;
      s[a..b]
  }

  /**
   * `s.strip()` is the slice of `s` starting at the returned index, and what
   * it cuts off on either side is whitespace.
   */
  lemma StripSlice(s: string) returns (a: nat)
    ensures a + |Strip(s)| <= |s| && Strip(s) == s[a..a + |Strip(s)|]
    ensures forall k :: 0 <= k < a ==> IsSpace(s[k])
    ensures forall k :: a + |Strip(s)| <= k < |s| ==> IsSpace(s[k])
  {
    a := SpanStart(s, 0);
    if a == |s| {
      a := 0;
    }
  }

  /** A string that neither starts nor ends with whitespace is its own strip. */
  lemma StripUnchanged(s: string)
    requires s != [] ==> !IsSpace(s[0]) && !IsSpace(s[|s| - 1])
    ensures Strip(s) == s
  {
  }

  /** No decimal digit, `-` or `~` is whitespace. */
  lemma DecimalNotSpace()
    ensures forall c :: IsDecimal(c) || c == '-' || c == '~' ==> !IsSpace(c)
  {
  }
}
