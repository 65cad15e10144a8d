/** The parts of `std::string` / `std::string_view` searching that the
    library relies on: `npos`, `find`, `find_first_of`, `find_first_not_of`,
    `find_last_not_of`. Strings are `seq<char>`, positions are `int`s and a
    failed search returns `NPOS`. */
module StdString {
  /** `std::string_view::npos`, the largest `size_t`. */
  const NPOS: int := 0xFFFF_FFFF_FFFF_FFFF
  /** 2^64: unsigned `size_t` arithmetic wraps modulo this. */
  const SIZE_MOD: int := 0x1_0000_0000_0000_0000

  /** A view size is a `size_t` smaller than `npos`. */
  predicate ViewSize(s: string) { |s| < NPOS }

  /** `find_first_not_of(chars)`: the first index whose character is not in
      `chars`, or `npos`. */
  function FindFirstNotOf(s: string, chars: string): (p: int)
    requires ViewSize(s)
    ensures p == NPOS || 0 <= p < |s|
    ensures p != NPOS ==> s[p] !in chars
    ensures forall i :: 0 <= i < |s| && (p == NPOS || i < p) ==> s[i] in chars
  {
    FirstNotOfFrom(s, chars, 0)
  }

  function FirstNotOfFrom(s: string, chars: string, from: nat): (p: int)
    requires ViewSize(s) && from <= |s|
    ensures p == NPOS || from <= p < |s|
    ensures p != NPOS ==> s[p] !in chars
    ensures forall i :: from <= i < |s| && (p == NPOS || i < p) ==> s[i] in chars
    decreases |s| - from
  {
    if from == |s| then NPOS
    else if s[from] !in chars then from
    else FirstNotOfFrom(s, chars, from + 1)
  }

  /** `find_last_not_of(chars)`: the last index whose character is not in
      `chars`, or `npos`. */
  function FindLastNotOf(s: string, chars: string): (p: int)
    requires ViewSize(s)
    ensures p == NPOS || 0 <= p < |s|
    ensures p != NPOS ==> s[p] !in chars
    ensures forall i :: 0 <= i < |s| && (p == NPOS || p < i) ==> s[i] in chars
  {
    LastNotOfBefore(s, chars, |s|)
  }

  function LastNotOfBefore(s: string, chars: string, upto: nat): (p: int)
    requires ViewSize(s) && upto <= |s|
    ensures p == NPOS || 0 <= p < upto
    ensures p != NPOS ==> s[p] !in chars
    ensures forall i :: 0 <= i < upto && (p == NPOS || p < i) ==> s[i] in chars
  {
    if upto == 0 then NPOS
    else if s[upto - 1] !in chars then upto - 1
    else LastNotOfBefore(s, chars, upto - 1)
  }

  /** `find_first_of(cs, from)`: the first index at or after `from` whose
      character is in `cs`, or `npos`. */
  function FindFirstOf(s: string, cs: string, from: nat): (p: int)
    requires ViewSize(s) && from <= |s|
    ensures p == NPOS || from <= p < |s|
    ensures p != NPOS ==> s[p] in cs
    ensures forall i :: from <= i < |s| && (p == NPOS || i < p) ==> s[i] !in cs
    decreases |s| - from
  {
    if from == |s| then NPOS
    else if s[from] in cs then from
    else FindFirstOf(s, cs, from + 1)
  }

  /** `find(c, from)` for one character. */
  function FindChar(s: string, c: char, from: nat): (p: int)
    requires ViewSize(s) && from <= |s|
    ensures p == NPOS || from <= p < |s|
    ensures p != NPOS ==> s[p] == c
    ensures forall i :: from <= i < |s| && (p == NPOS || i < p) ==> s[i] != c
  {
    FindFirstOf(s, [c], from)
  }

  /** `pat` occurs in `s` at position `i`. */
  predicate OccursAt(s: string, pat: string, i: int)
  {
    0 <= i && i + |pat| <= |s| && s[i..i + |pat|] == pat
  }

  /** `find(pat, from)`: the first position at or after `from` where `pat`
      occurs, or `npos`. */
  function FindSub(s: string, pat: string, from: nat): (p: int)
    requires ViewSize(s)
    ensures p == NPOS || (from <= p && OccursAt(s, pat, p))
    ensures forall i :: from <= i && (p == NPOS || i < p) ==> !OccursAt(s, pat, i)
    decreases |s| + 1 - from
  {
    if from + |pat| > |s| then NPOS
    else if s[from..from + |pat|] == pat then from
    else FindSub(s, pat, from + 1)
  }
}
