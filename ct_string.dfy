/** `ct::ct_string<N>` (libs/ctt/include/xdev/ct/string.hpp): a fixed buffer
    of N characters filled from a character array, the terminator of a
    string literal included. `begin()` is the first character and `end()`
    the last one, so `body()` is every character but the last. */
module CtString {

  class FixedString {
    /** `data_[N]`. */
    const data: array<char>

    /** `ct_string(const char (&input)[N])`: the buffer starts zeroed and
        all N characters are copied in. */
    constructor (input: seq<char>)
      ensures data.Length == |input| && data[..] == input
      ensures fresh(data)
    {
      data := new char[|input|](_ => '\0');
      new;
      var i := 0;
      while i < |input|
        invariant 0 <= i <= |input|
        invariant data[..i] == input[..i]
      {
        data[i] := input[i];
        i := i + 1;
      }
      assert data[..] == data[..|input|];
    }

    /** The copy constructor: all N characters, into a buffer of its own. */
    constructor Copy(other: FixedString)
      ensures data.Length == other.data.Length && data[..] == other.data[..]
      ensures fresh(data)
    {
      var n := other.data.Length;
      data := new char[n](_ => '\0');
      new;
      var i := 0;
      while i < n
        invariant 0 <= i <= n
        invariant data[..i] == other.data[..i]
      {
        data[i] := other.data[i];
        i := i + 1;
      }
      assert data[..] == data[..n] && other.data[..] == other.data[..n];
    }

    /** `size()`: N, the terminator counted. */
    function Size(): (n: nat)
      ensures n == data.Length
    {
      data.Length
    }

    /** `operator[](index)`: the character at `index`. */
    function At(index: nat): (c: char)
      requires index < data.Length
      reads data
      ensures c in data[..]
    {
      data[index]
    }

    /** `body()`: the view `[begin(), end())`, which stops before the last
        character. */
    function Body(): (r: string)
      requires 1 <= data.Length
      reads data
      ensures |r| == Size() - 1
      ensures r + [At(Size() - 1)] == data[..]
    {
      data[..data.Length - 1]
    }
  }

  /** A string literal's buffer: the body is the literal's text and the size
      counts the terminating NUL. */
  method FromLiteral(text: string) returns (s: FixedString)
    ensures s.Size() == |text| + 1
    ensures s.Body() == text
    ensures forall i :: 0 <= i < |text| ==> s.At(i) == text[i]
    ensures s.At(|text|) == '\0'
  {
    s := new FixedString(text + ['\0']);
    assert s.data[..][..|text|] == text;
  }

  /** A copy has the same size, characters and body as the original, in a
      buffer that does not alias it. */
  method CopyOf(s: FixedString) returns (t: FixedString)
    requires 1 <= s.data.Length
    ensures t.data != s.data
    ensures t.Size() == s.Size() && t.Body() == s.Body()
    ensures forall i :: 0 <= i < s.Size() ==> t.At(i) == s.At(i)
  {
    t := new FixedString.Copy(s);
  }
}
