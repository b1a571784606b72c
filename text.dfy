/**
 * Whitespace removal around a text. Python's `str.strip()` with no argument,
 * which Django's text form fields apply, removes the characters
 * `str.isspace()` holds for; `int()` skips a slightly smaller set, so the set
 * removed is a parameter.
 */
module Text {

  /** The characters `str.isspace()` holds for. */
  predicate IsSpace(c: char) {
    || c == ' '
    || '\t' <= c <= '\r'
    || '\U{1C}' <= c <= '\U{1F}'
    || c == '\U{85}' || c == '\U{A0}' || c == '\U{1680}'
    || '\U{2000}' <= c <= '\U{200A}'
    || c == '\U{2028}' || c == '\U{2029}' || c == '\U{202F}' || c == '\U{205F}' || c == '\U{3000}'
  }

  /** Number of characters of `space` at the start of `s`. */
  function LeadingSpaces(s: string, space: char -> bool): (n: nat)
    ensures n <= |s|
    ensures forall k :: 0 <= k < n ==> space(s[k])
    ensures n < |s| ==> !space(s[n])
  {
    if s != [] && space(s[0]) then 1 + LeadingSpaces(s[1..], space) else 0
  }

  /** Number of characters of `space` at the end of `s`. */
  function TrailingSpaces(s: string, space: char -> bool): (n: nat)
    ensures n <= |s|
    ensures forall k :: |s| - n <= k < |s| ==> space(s[k])
    ensures n < |s| ==> !space(s[|s| - 1 - n])
  {
    if s != [] && space(s[|s| - 1]) then 1 + TrailingSpaces(s[..|s| - 1], space) else 0
  }

  /** `s` without the characters of `space` around it. */
  function StripWith(s: string, space: char -> bool): (r: string)
    ensures r == [] || (!space(r[0]) && !space(r[|r| - 1]))
  {
    var rest := s[LeadingSpaces(s, space)..];
    rest[..|rest| - TrailingSpaces(rest, space)]
  }

  /** `s.strip()`: `s` without the whitespace around it. */
  function Strip(s: string): (r: string)
    ensures r == [] || (!IsSpace(r[0]) && !IsSpace(r[|r| - 1]))
  {
    StripWith(s, IsSpace)
  }

  /** Stripping removes characters of the set at the two ends and nothing else. */
  lemma StripRemovesOnlySpaces(s: string, space: char -> bool)
    ensures exists i, j :: 0 <= i <= j <= |s| && StripWith(s, space) == s[i..j]
                        && (forall k :: 0 <= k < i ==> space(s[k]))
                        && (forall k :: j <= k < |s| ==> space(s[k]))
  {
    var lead := LeadingSpaces(s, space);
    var rest := s[lead..];
    var trail := TrailingSpaces(rest, space);
    assert StripWith(s, space) == s[lead..|s| - trail];
  }

  /** A string with no character of the set at either end is its own stripped form. */
  lemma StripUnpadded(s: string, space: char -> bool)
    requires s == [] || (!space(s[0]) && !space(s[|s| - 1]))
    ensures StripWith(s, space) == s
  {
    assert LeadingSpaces(s, space) == 0;
    assert s[0..] == s;
    assert TrailingSpaces(s, space) == 0;
  }

  lemma StripIdempotent(s: string, space: char -> bool)
    ensures StripWith(StripWith(s, space), space) == StripWith(s, space)
  {
    StripUnpadded(StripWith(s, space), space);
  }
}
