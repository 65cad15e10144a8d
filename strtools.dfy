/** `xdev/str-tools.hpp`: constexpr trimming of a `string_view` against a set of
    characters. The view is a `seq<char>`; the narrowed view is a slice of it. */
module StrTools {
  import opened StdString

  /** The vertical tab, `\v`. */
  const VT: char := '\U{000B}'
  /** `detail::default_trim_chars`: space, `\t`, `\r`, `\v`, `\n`. */
  const DefaultTrimChars: string := [' ', '\t', '\r', VT, '\n']

  function Min(a: int, b: int): int { if a <= b then a else b }

  /** `ltrim`: drops `min(find_first_not_of(chars), size)` characters from the
      front. */
  function LTrim(input: string, chars: string := DefaultTrimChars): (r: string)
    requires ViewSize(input)
    ensures |r| <= |input| && r == input[|input| - |r|..]
    ensures r != [] ==> r[0] !in chars
    ensures forall i :: 0 <= i < |input| - |r| ==> input[i] in chars
  {
    input[Min(FindFirstNotOf(input, chars), |input|)..]
  }

  /** `rtrim`: drops `min(size - find_last_not_of(chars) - 1, size)` characters
      from the back, the subtraction wrapping modulo 2^64 as `size_t` does. */
  function RTrim(input: string, chars: string := DefaultTrimChars): (r: string)
    requires ViewSize(input)
    ensures |r| <= |input| && r == input[..|r|]
    ensures r != [] ==> r[|r| - 1] !in chars
    ensures forall i :: |r| <= i < |input| ==> input[i] in chars
  {
    var drop := (|input| - FindLastNotOf(input, chars) - 1) % SIZE_MOD;
    input[..|input| - Min(drop, |input|)]
  }

  /** `trim`: `rtrim(ltrim(input))`. */
  function Trim(input: string, chars: string := DefaultTrimChars): (r: string)
    requires ViewSize(input)
    ensures r == RTrim(LTrim(input, chars), chars)
  {
    RTrim(LTrim(input, chars), chars)
  }

  /** The trimmed view is a contiguous piece of the input: only characters of
      `chars` are removed, and only at the two ends. */
  lemma TrimIsInnerSlice(input: string, chars: string)
    requires ViewSize(input)
    ensures exists i, j ::
              && 0 <= i <= j <= |input| && Trim(input, chars) == input[i..j]
              && (forall k :: 0 <= k < i ==> input[k] in chars)
              && (forall k :: j <= k < |input| ==> input[k] in chars)
    ensures var r := Trim(input, chars); r != [] ==> r[0] !in chars && r[|r| - 1] !in chars
  {
    var l := LTrim(input, chars);
    var r := RTrim(l, chars);
    var i := |input| - |l|;
    var j := i + |r|;
    assert r == input[i..j];
    assert forall k :: j <= k < |input| ==> input[k] == l[k - i];
  }

  /** Input made only of trim characters trims to the empty view. */
  lemma AllTrimCharsGiveEmpty(input: string, chars: string)
    requires ViewSize(input)
    requires forall k :: 0 <= k < |input| ==> input[k] in chars
    ensures LTrim(input, chars) == [] && RTrim(input, chars) == [] && Trim(input, chars) == []
  {
  }

  /** Each trim is idempotent. */
  lemma TrimIdempotent(input: string, chars: string)
    requires ViewSize(input)
    ensures LTrim(LTrim(input, chars), chars) == LTrim(input, chars)
    ensures RTrim(RTrim(input, chars), chars) == RTrim(input, chars)
    ensures Trim(Trim(input, chars), chars) == Trim(input, chars)
  {
    LTrimFixed(LTrim(input, chars), chars);
    RTrimFixed(RTrim(input, chars), chars);
    var t := Trim(input, chars);
    TrimIsInnerSlice(input, chars);
    LTrimFixed(t, chars);
    RTrimFixed(t, chars);
  }

  lemma LTrimFixed(s: string, chars: string)
    requires ViewSize(s)
    requires s != [] ==> s[0] !in chars
    ensures LTrim(s, chars) == s
  {
  }

  lemma RTrimFixed(s: string, chars: string)
    requires ViewSize(s)
    requires s != [] ==> s[|s| - 1] !in chars
    ensures RTrim(s, chars) == s
  {
  }

  /** One trim character in front of a kept one: `ltrim` drops exactly it. */
  lemma LTrimOne(s: string, chars: string)
    requires ViewSize(s) && |s| >= 2 && s[0] in chars && s[1] !in chars
    ensures LTrim(s, chars) == s[1..]
  {
    var r := LTrim(s, chars);
    assert |r| == |s| - 1;
  }

  /** One trim character after a kept one: `rtrim` drops exactly it. */
  lemma RTrimOne(s: string, chars: string)
    requires ViewSize(s) && |s| >= 2 && s[|s| - 1] in chars && s[|s| - 2] !in chars
    ensures RTrim(s, chars) == s[..|s| - 1]
  {
    var r := RTrim(s, chars);
    assert |r| == |s| - 1;
  }
}
