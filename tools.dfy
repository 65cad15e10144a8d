/** `xdev/tools.hpp`: string helpers that work on `std::string` step by step.
    Helpers that mutate a string of fixed length in place (`to_upper`,
    `to_lower`, `title`, `hex_dump`) take an `array<char>`; helpers that change
    the length of the string they are given (`replace`, `remove_whitespaces`,
    the trims) return the new contents. */
module Tools {
  import opened StdString
  import StrTools

  // ---------------------------------------------------------------------
  // Character classes of the C locale

  /** `isspace`: space, `\t`, `\n`, `\v`, `\f`, `\r`. */
  const CSpaces: string := [' ', '\t', '\n', '\U{000B}', '\U{000C}', '\r']

  predicate IsSpace(c: char) { c in CSpaces }

  predicate IsLower(c: char) { 'a' <= c <= 'z' }
  predicate IsUpper(c: char) { 'A' <= c <= 'Z' }
  predicate IsDigit(c: char) { '0' <= c <= '9' }

  /** `isalnum`. */
  predicate IsAlnum(c: char) { IsLower(c) || IsUpper(c) || IsDigit(c) }

  /** `toupper`: lower-case letters are mapped to upper case, all other
      characters are unchanged. */
  function ToUpperChar(c: char): (u: char)
    ensures IsLower(c) ==> IsUpper(u) && u as int == c as int - 32
    ensures !IsLower(c) ==> u == c
  {
    if IsLower(c) then (c as int - 32) as char else c
  }

  /** `tolower`: upper-case letters are mapped to lower case. */
  function ToLowerChar(c: char): (l: char)
    ensures IsUpper(c) ==> IsLower(l) && l as int == c as int + 32
    ensures !IsUpper(c) ==> l == c
  {
    if IsUpper(c) then (c as int + 32) as char else c
  }

  lemma CaseRoundTrip(c: char)
    ensures ToLowerChar(ToUpperChar(c)) == ToLowerChar(c)
    ensures ToUpperChar(ToLowerChar(c)) == ToUpperChar(c)
    ensures IsAlnum(ToUpperChar(c)) == IsAlnum(c) && IsAlnum(ToLowerChar(c)) == IsAlnum(c)
  {
  }

  // ---------------------------------------------------------------------
  // regex_escape

  /** The characters `regex_escape` protects. */
  const RegexSpecials: string := "{}[]()<>.+*^$|\\"

  /** One character as `regex_escape` writes it. */
  function EscapeChar(c: char): string
  {
    if c in RegexSpecials then ['\\', c] else [c]
  }

  /** Reference definition: a backslash before every special character. */
  function Escaped(s: string): (r: string)
    ensures |r| >= |s|
  {
    if s == [] then [] else EscapeChar(s[0]) + Escaped(s[1..])
  }

  /** The inverse of `Escaped`: a backslash is dropped and the character after
      it kept as is. */
  function Unescaped(s: string): string
  {
    if s == [] then []
    else if s[0] == '\\' && |s| >= 2 then [s[1]] + Unescaped(s[2..])
    else [s[0]] + Unescaped(s[1..])
  }

  function CountIn(s: string, cs: string): (n: nat)
    ensures n <= |s|
  {
    if s == [] then 0 else (if s[0] in cs then 1 else 0) + CountIn(s[1..], cs)
  }

  /** Escaping inserts exactly one character per special character and can be
      undone. */
  lemma {:induction false} EscapeRoundTrip(s: string)
    ensures Unescaped(Escaped(s)) == s
    ensures |Escaped(s)| == |s| + CountIn(s, RegexSpecials)
  {
    if s != [] {
      EscapeRoundTrip(s[1..]);
      var head := EscapeChar(s[0]);
      if s[0] in RegexSpecials {
        assert (head + Escaped(s[1..]))[2..] == Escaped(s[1..]);
      } else {
        assert s[0] != '\\';
        assert (head + Escaped(s[1..]))[1..] == Escaped(s[1..]);
      }
    }
  }

  lemma {:induction false} EscapedAppend(a: string, b: string)
    ensures Escaped(a + b) == Escaped(a) + Escaped(b)
  {
    if a != [] {
      assert (a + b)[0] == a[0];
      assert (a + b)[1..] == a[1..] + b;
      EscapedAppend(a[1..], b);
      assert Escaped(a + b) == EscapeChar(a[0]) + (Escaped(a[1..]) + Escaped(b));
    } else {
      assert a + b == b;
    }
  }

  lemma {:induction false} EscapedPlain(s: string)
    requires forall i :: 0 <= i < |s| ==> s[i] !in RegexSpecials
    ensures Escaped(s) == s
  {
    if s != [] { EscapedPlain(s[1..]); }
  }

  /** The state of the `regex_escape` loop: the first `done` input
      characters are escaped, the rest is still as given, and `offset` is
      where the unscanned part starts. */
  predicate EscapeInv(input: string, done: int, offset: int, result: string)
  {
    && 0 <= done <= |input|
    && result == Escaped(input[..done]) + input[done..]
    && offset == |Escaped(input[..done])|
    && ViewSize(result) && offset <= |result|
  }

  /** What `find_first_of` finding a special character at `found` says about
      the input. */
  lemma EscapeFound(input: string, done: nat, offset: nat, found: nat, result: string)
    requires done <= |input|
    requires result == Escaped(input[..done]) + input[done..]
    requires offset == |Escaped(input[..done])|
    requires offset <= found < |result| && result[found] in RegexSpecials
    requires forall i :: offset <= i < found ==> result[i] !in RegexSpecials
    ensures done + (found - offset) < |input|
    ensures input[done + (found - offset)] in RegexSpecials
    ensures forall i :: done <= i < done + (found - offset) ==> input[i] !in RegexSpecials
  {
    assert result[offset..] == input[done..];
    forall i | done <= i < done + (found - offset) ensures input[i] !in RegexSpecials {
      assert input[i] == result[offset + (i - done)];
    }
    assert input[done + (found - offset)] == result[found];
  }

  /** One round of the `regex_escape` loop: the characters between `offset`
      and the next special one are copied, the special one gets its backslash. */
  lemma EscapeStep(input: string, done: nat, offset: nat, found: nat, result: string)
    requires done <= |input|
    requires result == Escaped(input[..done]) + input[done..]
    requires offset == |Escaped(input[..done])|
    requires offset <= found < |result| && result[found] in RegexSpecials
    requires forall i :: offset <= i < found ==> result[i] !in RegexSpecials
    ensures done + (found - offset) < |input|
    ensures result[..found] + ['\\'] + result[found..]
            == Escaped(input[..done + (found - offset) + 1]) + input[done + (found - offset) + 1..]
    ensures found + 2 == |Escaped(input[..done + (found - offset) + 1])|
  {
    EscapeFound(input, done, offset, found, result);
    EscapedExtend(input, done, done + (found - offset));
    EscapeSplice(Escaped(input[..done]), input, done, done + (found - offset), result, found);
  }

  /** Inserting a backslash at `found` in `e + input[done..]`, where `found`
      is the position of `input[next]`. */
  lemma EscapeSplice(e: string, input: string, done: nat, next: nat, result: string, found: nat)
    requires done <= next < |input| && result == e + input[done..] && found == |e| + (next - done)
    ensures result[..found] + ['\\'] + result[found..] == e + input[done..next] + ['\\', input[next]] + input[next + 1..]
  {
    assert result[..found] == e + input[done..next];
    assert result[found..] == [input[next]] + input[next + 1..];
  }

  /** One round of the loop keeps its invariant and consumes input: from the
      state `done`, `offset`, `result` and a special character at `found`,
      the loop moves to `done'`, `offset'`, `result'`. */
  lemma EscapeAdvance(input: string, done: nat, offset: nat, found: int, result: string,
                      done': int, offset': int, result': string)
    requires |input| * 2 < NPOS
    requires EscapeInv(input, done, offset, result)
    requires found == FindFirstOf(result, RegexSpecials, offset) && found != NPOS
    requires done' == done + (found - offset) + 1 && offset' == found + 2
    requires result' == result[..found] + ['\\'] + result[found..]
    ensures done < done' && EscapeInv(input, done', offset', result')
  {
    EscapeStep(input, done, offset, found, result);
    EscapedBound(input[..done']);
  }

  /** Once no special character is left, the whole input is escaped. */
  lemma EscapeDone(input: string, done: nat, offset: nat, result: string)
    requires EscapeInv(input, done, offset, result)
    requires FindFirstOf(result, RegexSpecials, offset) == NPOS
    ensures result == Escaped(input)
  {
    EscapeRestPlain(input, done, offset, result);
    EscapedPlain(input[done..]);
    EscapedAppend(input[..done], input[done..]);
    assert input[..done] + input[done..] == input;
  }

  /** No special character is left in the unscanned part. */
  lemma EscapeRestPlain(input: string, done: nat, offset: nat, result: string)
    requires EscapeInv(input, done, offset, result)
    requires FindFirstOf(result, RegexSpecials, offset) == NPOS
    ensures forall i :: 0 <= i < |input[done..]| ==> input[done..][i] !in RegexSpecials
  {
    forall i | 0 <= i < |input[done..]| ensures input[done..][i] !in RegexSpecials {
      assert input[done..][i] == result[offset + i];
    }
  }

  lemma EscapedExtend(input: string, done: nat, next: nat)
    requires done <= next < |input|
    requires forall i :: done <= i < next ==> input[i] !in RegexSpecials
    requires input[next] in RegexSpecials
    ensures Escaped(input[..next + 1]) == Escaped(input[..done]) + input[done..next] + ['\\', input[next]]
  {
    var mid := input[done..next];
    EscapedPlain(mid);
    assert input[..next + 1] == (input[..done] + mid) + [input[next]];
    EscapedAppend(input[..done] + mid, [input[next]]);
    EscapedAppend(input[..done], mid);
  }

  lemma EscapedBound(s: string)
    ensures |Escaped(s)| <= 2 * |s|
  {
    EscapeRoundTrip(s);
  }

  /** `regex_escape` (tools.hpp:46-56): repeatedly finds the next special
      character from `offset`, inserts a backslash before it and resumes two
      characters further on. */
  method RegexEscape(input: string) returns (result: string)
    requires |input| * 2 < NPOS
    ensures result == Escaped(input)
  {
    result := input;
    var offset := 0;
    ghost var done := 0;
    assert input[..0] == [];
    var found := FindFirstOf(result, RegexSpecials, offset);
    while found != NPOS
      invariant EscapeInv(input, done, offset, result)
      invariant found == FindFirstOf(result, RegexSpecials, offset)
      decreases |input| - done
    {
      ghost var done0, offset0, result0 := done, offset, result;
      done := done + (found - offset) + 1;
      result := result[..found] + ['\\'] + result[found..];
      offset := found + 2;
      EscapeAdvance(input, done0, offset0, found, result0, done, offset, result);
      found := FindFirstOf(result, RegexSpecials, offset);
    }
    EscapeDone(input, done, offset, result);
  }

  // ---------------------------------------------------------------------
  // split / join

  /** Reference definition of the pieces of `text` between occurrences of
      `sep`, empty pieces included. */
  function Pieces(text: string, sep: char): (r: seq<string>)
    ensures |r| >= 1
  {
    if text == [] then [[]]
    else
      var rest := Pieces(text[1..], sep);
      if text[0] == sep then [[]] + rest
      else [[text[0]] + rest[0]] + rest[1..]
  }

  /** The pieces that are not empty, in order. */
  function NonEmpty(pieces: seq<string>): (r: seq<string>)
    ensures |r| <= |pieces|
    ensures forall i :: 0 <= i < |r| ==> r[i] != []
  {
    if pieces == [] then []
    else (if pieces[0] == [] then [] else [pieces[0]]) + NonEmpty(pieces[1..])
  }

  lemma NonEmptyAppend(a: seq<string>, b: seq<string>)
    ensures NonEmpty(a + b) == NonEmpty(a) + NonEmpty(b)
  {
    if a != [] {
      assert (a + b)[0] == a[0];
      assert (a + b)[1..] == a[1..] + b;
      NonEmptyAppend(a[1..], b);
    } else {
      assert a + b == b;
    }
  }

  /** Reference definition of `join` without a converter. */
  function Joined(items: seq<string>, sep: string): (r: string)
  {
    if items == [] then ""
    else if |items| == 1 then items[0]
    else items[0] + sep + Joined(items[1..], sep)
  }

  function CountChar(s: string, c: char): nat
  {
    if s == [] then 0 else (if s[0] == c then 1 else 0) + CountChar(s[1..], c)
  }

  /** `split` without `remove_empty`: one more piece than separators, no piece
      holds the separator, and joining the pieces with it restores the text. */
  lemma {:induction false} PiecesSpec(text: string, sep: char)
    ensures |Pieces(text, sep)| == CountChar(text, sep) + 1
    ensures forall i :: 0 <= i < |Pieces(text, sep)| ==> sep !in Pieces(text, sep)[i]
    ensures Joined(Pieces(text, sep), [sep]) == text
  {
    if text != [] {
      PiecesSpec(text[1..], sep);
      var rest := Pieces(text[1..], sep);
      if text[0] == sep {
        assert Joined(Pieces(text, sep), [sep]) == [sep] + Joined(rest, [sep]);
        assert text == [text[0]] + text[1..];
      } else {
        var r := Pieces(text, sep);
        assert r[1..] == rest[1..];
        forall i | 0 <= i < |r| ensures sep !in r[i] {
          if i > 0 { assert r[i] == rest[i]; }
          else { assert r[0] == [text[0]] + rest[0]; assert sep !in rest[0]; }
        }
        if |rest| == 1 {
          assert Joined(r, [sep]) == [text[0]] + rest[0];
        } else {
          assert Joined(rest, [sep]) == rest[0] + [sep] + Joined(rest[1..], [sep]);
          assert Joined(r, [sep]) == [text[0]] + rest[0] + [sep] + Joined(rest[1..], [sep]);
        }
        assert text == [text[0]] + text[1..];
      }
    }
  }

  /** The partner of `PiecesSpec`: pieces free of the separator survive a join
      followed by a split. */
  lemma {:induction false} SplitJoinRoundTrip(items: seq<string>, sep: char)
    requires |items| >= 1
    requires forall i :: 0 <= i < |items| ==> sep !in items[i]
    ensures Pieces(Joined(items, [sep]), sep) == items
  {
    if |items| == 1 {
      PiecesOfPlain(items[0], sep);
    } else {
      SplitJoinRoundTrip(items[1..], sep);
      PiecesOfPlainThenSep(items[0], Joined(items[1..], [sep]), sep);
      assert items == [items[0]] + items[1..];
    }
  }

  lemma {:induction false} PiecesOfPlain(s: string, sep: char)
    requires sep !in s
    ensures Pieces(s, sep) == [s]
  {
    if s != [] { PiecesOfPlain(s[1..], sep); assert s == [s[0]] + s[1..]; }
  }

  lemma {:induction false} PiecesOfPlainThenSep(s: string, t: string, sep: char)
    requires sep !in s
    ensures Pieces(s + [sep] + t, sep) == [s] + Pieces(t, sep)
  {
    if s == [] {
      assert (s + [sep] + t)[1..] == t;
    } else {
      assert (s + [sep] + t)[1..] == s[1..] + [sep] + t;
      PiecesOfPlainThenSep(s[1..], t, sep);
      assert s == [s[0]] + s[1..];
    }
  }

  /** The step the `split` loop takes: the first piece runs up to the first
      separator. */
  lemma {:induction false} PiecesAtFirstSep(t: string, sep: char, e: nat)
    requires e < |t| && t[e] == sep
    requires forall i :: 0 <= i < e ==> t[i] != sep
    ensures Pieces(t, sep) == [t[..e]] + Pieces(t[e + 1..], sep)
  {
    assert t == t[..e] + [sep] + t[e + 1..];
    PiecesOfPlainThenSep(t[..e], t[e + 1..], sep);
  }

  /** One round of the `split` loop, in terms of the reference pieces. */
  lemma SplitStep(text: string, sep: char, start: nat, end: int, before: seq<string>)
    requires ViewSize(text) && start <= |text|
    requires end == FindChar(text, sep, start) && end != NPOS
    requires before + Pieces(text[start..], sep) == Pieces(text, sep)
    ensures (before + [text[start..end]]) + Pieces(text[end + 1..], sep) == Pieces(text, sep)
  {
    var t := text[start..];
    forall i | 0 <= i < end - start ensures t[i] != sep {
      assert t[i] == text[start + i];
    }
    PiecesAtFirstSep(t, sep, end - start);
    assert t[..end - start] == text[start..end];
    assert t[end - start + 1..] == text[end + 1..];
    assert (before + [text[start..end]]) + Pieces(text[end + 1..], sep)
        == before + ([text[start..end]] + Pieces(text[end + 1..], sep));
  }

  lemma SplitLast(text: string, sep: char, start: nat, before: seq<string>)
    requires ViewSize(text) && start <= |text|
    requires FindChar(text, sep, start) == NPOS
    requires before + Pieces(text[start..], sep) == Pieces(text, sep)
    ensures before + [text[start..]] == Pieces(text, sep)
  {
    var t := text[start..];
    forall i | 0 <= i < |t| ensures t[i] != sep {
      assert t[i] == text[start + i];
    }
    PiecesOfPlain(t, sep);
  }

  /** The pieces `split` keeps: all of them, or the non-empty ones. */
  function Kept(pieces: seq<string>, removeEmpty: bool): seq<string>
  {
    if removeEmpty then NonEmpty(pieces) else pieces
  }

  lemma KeptSnoc(pieces: seq<string>, item: string, removeEmpty: bool)
    ensures Kept(pieces + [item], removeEmpty)
         == Kept(pieces, removeEmpty) + (if !removeEmpty || item != [] then [item] else [])
  {
    NonEmptyAppend(pieces, [item]);
    assert NonEmpty([item]) == (if item == [] then [] else [item]) + NonEmpty([]);
  }

  /** `split` (tools.hpp:61-80): scans for `sep` from `start`, pushing each
      piece (non-empty ones only when `removeEmpty`), then the remainder. */
  method Split(text: string, sep: char, removeEmpty: bool) returns (tokens: seq<string>)
    requires ViewSize(text)
    ensures tokens == Kept(Pieces(text, sep), removeEmpty)
  {
    tokens := [];
    var start := 0;
    ghost var before: seq<string> := [];
    var end := FindChar(text, sep, start);
    while end != NPOS
      invariant 0 <= start <= |text|
      invariant end == FindChar(text, sep, start)
      invariant before + Pieces(text[start..], sep) == Pieces(text, sep)
      invariant tokens == Kept(before, removeEmpty)
      decreases |text| - start
    {
      var item := text[start..end];
      SplitStep(text, sep, start, end, before);
      KeptSnoc(before, item, removeEmpty);
      if !removeEmpty || (removeEmpty && item != []) {
        tokens := tokens + [item];
      }
      before := before + [item];
      start := end + 1;
      end := FindChar(text, sep, start);
    }
    var item := text[start..];
    SplitLast(text, sep, start, before);
    KeptSnoc(before, item, removeEmpty);
    if !removeEmpty || (removeEmpty && item != []) {
      tokens := tokens + [item];
    }
  }

  function MapSeq<T>(items: seq<T>, conv: T -> string): (r: seq<string>)
    ensures |r| == |items| && forall i :: 0 <= i < |items| ==> r[i] == conv(items[i])
  {
    seq(|items|, i requires 0 <= i < |items| => conv(items[i]))
  }

  /** All items but the last, each followed by the separator. */
  function WithTrailing(items: seq<string>, sep: string): string
  {
    if items == [] then "" else items[0] + sep + WithTrailing(items[1..], sep)
  }

  lemma {:induction false} WithTrailingSnoc(items: seq<string>, x: string, sep: string)
    ensures WithTrailing(items + [x], sep) == WithTrailing(items, sep) + x + sep
  {
    if items != [] {
      assert (items + [x])[1..] == items[1..] + [x];
      WithTrailingSnoc(items[1..], x, sep);
    }
  }

  lemma {:induction false} JoinedAsTrailing(items: seq<string>, sep: string)
    requires items != []
    ensures Joined(items, sep) == WithTrailing(items[..|items| - 1], sep) + items[|items| - 1]
  {
    if |items| > 1 {
      JoinedAsTrailing(items[1..], sep);
      assert items[1..][..|items| - 2] == items[..|items| - 1][1..];
    }
  }

  /** `join` (tools.hpp:85-107): every element but the last followed by the
      separator, then the last; an empty iterable gives "". `conv` is the
      converter (the identity when none is given). */
  method Join<T>(items: seq<T>, sep: string, conv: T -> string) returns (result: string)
    ensures result == Joined(MapSeq(items, conv), sep)
  {
    result := "";
    if |items| == 0 {
      return;
    }
    var last := |items| - 1;
    var i := 0;
    ghost var conv' := MapSeq(items, conv);
    while i != last
      invariant 0 <= i <= last
      invariant result == WithTrailing(conv'[..i], sep)
    {
      WithTrailingSnoc(conv'[..i], conv'[i], sep);
      assert conv'[..i + 1] == conv'[..i] + [conv'[i]];
      result := result + conv(items[i]) + sep;
      i := i + 1;
    }
    result := result + conv(items[last]);
    JoinedAsTrailing(conv', sep);
  }

  /** Joining never adds a separator at either end: its length is the pieces'
      lengths plus one separator between each neighbouring pair. */
  lemma {:induction false} JoinedLength(items: seq<string>, sep: string)
    ensures |Joined(items, sep)| == TotalLength(items) + (if items == [] then 0 else (|items| - 1) * |sep|)
  {
    if |items| > 1 { JoinedLength(items[1..], sep); }
  }

  function TotalLength(items: seq<string>): nat
  {
    if items == [] then 0 else |items[0]| + TotalLength(items[1..])
  }

  // ---------------------------------------------------------------------
  // to_upper / to_lower / title (in place)

  function UpperStr(s: string): (r: string)
    ensures |r| == |s| && forall i :: 0 <= i < |s| ==> r[i] == ToUpperChar(s[i])
  {
    seq(|s|, i requires 0 <= i < |s| => ToUpperChar(s[i]))
  }

  function LowerStr(s: string): (r: string)
    ensures |r| == |s| && forall i :: 0 <= i < |s| ==> r[i] == ToLowerChar(s[i])
  {
    seq(|s|, i requires 0 <= i < |s| => ToLowerChar(s[i]))
  }

  /** `to_upper` (tools.hpp:109-112). */
  method ToUpper(str: array<char>)
    modifies str
    ensures str[..] == UpperStr(old(str[..]))
  {
    for i := 0 to str.Length
      invariant forall k :: 0 <= k < i ==> str[k] == ToUpperChar(old(str[k]))
      invariant forall k :: i <= k < str.Length ==> str[k] == old(str[k])
    {
      str[i] := ToUpperChar(str[i]);
    }
  }

  /** `to_lower` (tools.hpp:114-117). */
  method ToLower(str: array<char>)
    modifies str
    ensures str[..] == LowerStr(old(str[..]))
  {
    for i := 0 to str.Length
      invariant forall k :: 0 <= k < i ==> str[k] == ToLowerChar(old(str[k]))
      invariant forall k :: i <= k < str.Length ==> str[k] == old(str[k])
    {
      str[i] := ToLowerChar(str[i]);
    }
  }

  /** Case conversion keeps the length, is idempotent, and the last conversion
      applied decides the result. */
  lemma CaseConversions(s: string)
    ensures UpperStr(UpperStr(s)) == UpperStr(s) && LowerStr(LowerStr(s)) == LowerStr(s)
    ensures UpperStr(LowerStr(s)) == UpperStr(s) && LowerStr(UpperStr(s)) == LowerStr(s)
  {
    forall i | 0 <= i < |s| ensures ToLowerChar(ToUpperChar(s[i])) == ToLowerChar(s[i])
      && ToUpperChar(ToLowerChar(s[i])) == ToUpperChar(s[i])
    {
      CaseRoundTrip(s[i]);
    }
  }

  /** The character `title` leaves at position `i` of `s`: alphanumerics at the
      start of a word (the string start or after a non-alphanumeric) are
      upper-cased, other alphanumerics lower-cased, the rest kept. */
  function TitleAt(s: string, i: nat): char
    requires i < |s|
  {
    if !IsAlnum(s[i]) then s[i]
    else if i == 0 || !IsAlnum(s[i - 1]) then ToUpperChar(s[i])
    else ToLowerChar(s[i])
  }

  function Titled(s: string): (r: string)
    ensures |r| == |s| && forall i :: 0 <= i < |s| ==> r[i] == TitleAt(s, i)
  {
    seq(|s|, i requires 0 <= i < |s| => TitleAt(s, i))
  }

  /** `title` (tools.hpp:166-187): an `active` flag is set by every
      non-alphanumeric and cleared by the first alphanumeric after it. */
  method Title(s: array<char>)
    modifies s
    ensures s[..] == Titled(old(s[..]))
  {
    var active := true;
    for i := 0 to s.Length
      invariant active == (i == 0 || !IsAlnum(old(s[i - 1])))
      invariant forall k :: 0 <= k < i ==> s[k] == TitleAt(old(s[..]), k)
      invariant forall k :: i <= k < s.Length ==> s[k] == old(s[k])
    {
      if IsAlnum(s[i]) {
        if active {
          s[i] := ToUpperChar(s[i]);
          active := false;
        } else {
          s[i] := ToLowerChar(s[i]);
        }
      } else {
        active := true;
      }
    }
  }

  /** Title-casing keeps which positions are alphanumeric, never touches the
      other characters, and applying it twice changes nothing more. */
  lemma TitleIdempotent(s: string)
    ensures forall i :: 0 <= i < |s| ==> IsAlnum(Titled(s)[i]) == IsAlnum(s[i])
    ensures forall i :: 0 <= i < |s| && !IsAlnum(s[i]) ==> Titled(s)[i] == s[i]
    ensures Titled(Titled(s)) == Titled(s)
  {
    var t := Titled(s);
    forall i | 0 <= i < |s| ensures IsAlnum(t[i]) == IsAlnum(s[i]) { CaseRoundTrip(s[i]); }
    forall i | 0 <= i < |s| ensures Titled(t)[i] == t[i] {
      CaseRoundTrip(s[i]);
      if IsAlnum(s[i]) && i > 0 { CaseRoundTrip(s[i - 1]); }
    }
  }

  // ---------------------------------------------------------------------
  // replace

  /** Reference definition of `replace`: scanning left to right, each
      occurrence of `from` is replaced by `to` and scanning resumes after it. */
  function ReplaceAll(s: string, from: string, to: string): string
    requires from != []
  {
    if |from| <= |s| && s[..|from|] == from then to + ReplaceAll(s[|from|..], from, to)
    else if s == [] then []
    else [s[0]] + ReplaceAll(s[1..], from, to)
  }

  lemma OccursShift(u: string, pat: string, i: nat)
    requires u != []
    ensures OccursAt(u[1..], pat, i) == OccursAt(u, pat, i + 1)
  {
    if i + 1 + |pat| <= |u| {
      assert u[1..][i..i + |pat|] == u[i + 1..i + 1 + |pat|];
    }
  }

  /** No occurrence of `from` starts before `k`: the first `k` characters are
      kept as they are. */
  lemma {:induction false} ReplaceSkip(u: string, from: string, to: string, k: nat)
    requires from != [] && k <= |u|
    requires forall i :: 0 <= i < k ==> !OccursAt(u, from, i)
    ensures ReplaceAll(u, from, to) == u[..k] + ReplaceAll(u[k..], from, to)
  {
    if k > 0 {
      assert !OccursAt(u, from, 0);
      forall i | 0 <= i < k - 1 ensures !OccursAt(u[1..], from, i) {
        OccursShift(u, from, i);
      }
      ReplaceSkip(u[1..], from, to, k - 1);
      assert u[1..][k - 1..] == u[k..];
      assert u[..k] == [u[0]] + u[1..][..k - 1];
    }
  }

  /** The state of the `replace` loop: `result[..startPos]` is final and the
      rest of `result` is the unscanned part of the input. */
  predicate ReplaceInv(str: string, from: string, to: string, result: string, startPos: int, rest: string)
    requires from != []
  {
    && 0 <= startPos <= |result|
    && result[startPos..] == rest
    && result[..startPos] + ReplaceAll(rest, from, to) == ReplaceAll(str, from, to)
  }

  lemma OccursInSuffix(result: string, startPos: nat, rest: string, pat: string, i: nat)
    requires startPos <= |result| && result[startPos..] == rest
    ensures OccursAt(rest, pat, i) == OccursAt(result, pat, startPos + i)
  {
    if i + |pat| <= |rest| {
      assert rest[i..i + |pat|] == result[startPos + i..startPos + i + |pat|];
    }
  }

  /** An occurrence at `k` becomes `to` in the replacement of `rest[k..]`. */
  lemma ReplaceAtOccurrence(rest: string, from: string, to: string, k: nat)
    requires from != [] && OccursAt(rest, from, k)
    ensures ReplaceAll(rest[k..], from, to) == to + ReplaceAll(rest[k + |from|..], from, to)
  {
    var u := rest[k..];
    assert u[..|from|] == rest[k..k + |from|];
    assert u[|from|..] == rest[k + |from|..];
  }

  /** The first occurrence in `rest` is at `k`: everything before it is kept
      and the occurrence becomes `to`. */
  lemma ReplaceFirst(rest: string, from: string, to: string, k: nat)
    requires from != [] && OccursAt(rest, from, k)
    requires forall i :: 0 <= i < k ==> !OccursAt(rest, from, i)
    ensures ReplaceAll(rest, from, to) == rest[..k] + to + ReplaceAll(rest[k + |from|..], from, to)
  {
    ReplaceSkip(rest, from, to, k);
    ReplaceAtOccurrence(rest, from, to, k);
  }

  /** What `find(from, startPos)` on `result` says about the unscanned part. */
  lemma FoundInRest(result: string, from: string, startPos: nat, rest: string, found: int)
    requires ViewSize(result) && startPos <= |result| && result[startPos..] == rest
    requires found == FindSub(result, from, startPos) && found != NPOS
    ensures 0 <= found - startPos && OccursAt(rest, from, found - startPos)
    ensures forall i :: 0 <= i < found - startPos ==> !OccursAt(rest, from, i)
  {
    forall i | 0 <= i < found - startPos ensures !OccursAt(rest, from, i) {
      OccursInSuffix(result, startPos, rest, from, i);
    }
    OccursInSuffix(result, startPos, rest, from, found - startPos);
  }

  /** Replacing the first occurrence of `from` in the unscanned part keeps
      the `replace` invariant, with the scan resuming after `to`. */
  lemma ReplaceStep(str: string, from: string, to: string, result: string, startPos: nat, rest: string, found: nat)
    requires from != []
    requires ReplaceInv(str, from, to, result, startPos, rest)
    requires startPos <= found && OccursAt(rest, from, found - startPos)
    requires forall i :: 0 <= i < found - startPos ==> !OccursAt(rest, from, i)
    ensures ReplaceInv(str, from, to, result[..found] + to + result[found + |from|..],
                       found + |to|, rest[found - startPos + |from|..])
  {
    var k := found - startPos;
    ReplaceFirst(rest, from, to, k);
    Splice(result, startPos, rest, found, |from|, to);
    Regroup(result[..startPos], rest[..k] + to, ReplaceAll(rest[k + |from|..], from, to));
  }

  /** Splicing `to` over `fromLen` characters at `found`: what lies before
      the end of `to`, and what lies after it. */
  lemma Splice(result: string, startPos: nat, rest: string, found: nat, fromLen: nat, to: string)
    requires startPos <= found && startPos <= |result| && result[startPos..] == rest
    requires found - startPos + fromLen <= |rest|
    ensures (result[..found] + to + result[found + fromLen..])[..found + |to|]
            == result[..startPos] + (rest[..found - startPos] + to)
    ensures (result[..found] + to + result[found + fromLen..])[found + |to|..]
            == rest[found - startPos + fromLen..]
  {
    assert result[..found] == result[..startPos] + rest[..found - startPos];
    assert result[found + fromLen..] == rest[found - startPos + fromLen..];
  }

  lemma Regroup(a: string, b: string, c: string)
    ensures a + b + c == a + (b + c)
  {
  }

  /** The length bound of the `replace` loop survives a round that trades
      `fromLen` characters of the unscanned part for `toLen` final ones. */
  lemma ReplaceBound(resultLen: nat, restLen: nat, k: nat, fromLen: nat, toLen: nat, cap: int)
    requires fromLen >= 1 && k + fromLen <= restLen
    requires resultLen + restLen * toLen <= cap
    ensures (resultLen - fromLen + toLen) + (restLen - k - fromLen) * toLen <= cap
    ensures resultLen - fromLen + toLen <= cap
  {
    MulMono(k + fromLen, toLen);
    assert (restLen - k - fromLen) * toLen == restLen * toLen - (k + fromLen) * toLen;
    assert (restLen - k - fromLen) * toLen >= 0;
  }

  lemma ReplaceDone(str: string, from: string, to: string, result: string, startPos: nat, rest: string)
    requires from != [] && ViewSize(result)
    requires ReplaceInv(str, from, to, result, startPos, rest)
    requires FindSub(result, from, startPos) == NPOS
    ensures result == ReplaceAll(str, from, to)
  {
    forall i | 0 <= i < |rest| ensures !OccursAt(rest, from, i) {
      OccursInSuffix(result, startPos, rest, from, i);
    }
    ReplaceSkip(rest, from, to, |rest|);
    assert result == result[..startPos] + rest;
  }

  /** Before the first round of the `replace` loop, nothing is final yet. */
  lemma ReplaceStart(str: string, from: string, to: string)
    requires from != [] && |str| * (|to| + 1) < NPOS
    ensures ViewSize(str) && ReplaceInv(str, from, to, str, 0, str)
    ensures |str| + |str| * |to| <= |str| * (|to| + 1)
  {
    assert str[..0] + ReplaceAll(str, from, to) == ReplaceAll(str, from, to);
  }

  /** One round of the `replace` loop keeps its invariant and its length
      bound. */
  lemma ReplaceAdvance(str: string, from: string, to: string, result: string, startPos: nat, rest: string, found: int)
    requires from != [] && |str| * (|to| + 1) < NPOS
    requires ReplaceInv(str, from, to, result, startPos, rest)
    requires |result| + |rest| * |to| <= |str| * (|to| + 1)
    requires ViewSize(result) && found == FindSub(result, from, startPos) && found != NPOS
    ensures startPos <= found && found - startPos + |from| <= |rest| && found + |from| <= |result|
    ensures ReplaceInv(str, from, to, result[..found] + to + result[found + |from|..],
                       found + |to|, rest[found - startPos + |from|..])
    ensures |result[..found] + to + result[found + |from|..]| + |rest[found - startPos + |from|..]| * |to|
            <= |str| * (|to| + 1)
    ensures ViewSize(result[..found] + to + result[found + |from|..])
  {
    FoundInRest(result, from, startPos, rest, found);
    ReplaceStep(str, from, to, result, startPos, rest, found);
    ReplaceBound(|result|, |rest|, found - startPos, |from|, |to|, |str| * (|to| + 1));
  }

  lemma MulMono(a: nat, b: nat)
    requires a >= 1
    ensures a * b >= b
  {
  }

  /** `replace` (tools.hpp:119-126). It requires a non-empty `from`: with an
      empty one the source loop never ends. */
  method Replace(str: string, from: string, to: string) returns (result: string)
    requires from != []
    requires |str| * (|to| + 1) < NPOS
    ensures result == ReplaceAll(str, from, to)
  {
    result := str;
    var startPos := 0;
    ghost var rest := str;
    ReplaceStart(str, from, to);
    var found := FindSub(result, from, startPos);
    while found != NPOS
      invariant ViewSize(result)
      invariant ReplaceInv(str, from, to, result, startPos, rest)
      invariant |result| + |rest| * |to| <= |str| * (|to| + 1)
      invariant found == FindSub(result, from, startPos)
      decreases |rest|
    {
      ReplaceAdvance(str, from, to, result, startPos, rest, found);
      rest := rest[found - startPos + |from|..];
      result := result[..found] + to + result[found + |from|..];
      startPos := found + |to|;
      found := FindSub(result, from, startPos);
    }
    ReplaceDone(str, from, to, result, startPos, rest);
  }

  /** With a one-character `from`, `replace` agrees with splitting on that
      character and joining the pieces with `to`. */
  lemma {:induction false} ReplaceCharIsSplitJoin(s: string, c: char, to: string)
    ensures ReplaceAll(s, [c], to) == Joined(Pieces(s, c), to)
  {
    if s != [] {
      ReplaceCharIsSplitJoin(s[1..], c, to);
      ReplaceCharHead(s, c, to);
      var rest := Pieces(s[1..], c);
      if s[0] == c {
        JoinedCons([], rest, to);
      } else {
        JoinedGrowsHead(s[0], rest, to);
      }
    }
  }

  lemma ReplaceCharHead(s: string, c: char, to: string)
    requires s != []
    ensures ReplaceAll(s, [c], to)
         == (if s[0] == c then to else [s[0]]) + ReplaceAll(s[1..], [c], to)
  {
    if s[0] == c {
      assert s[..1] == [c];
    } else {
      assert s[..1] != [c];
    }
  }

  lemma JoinedCons(x: string, ys: seq<string>, sep: string)
    requires ys != []
    ensures Joined([x] + ys, sep) == x + sep + Joined(ys, sep)
  {
    assert ([x] + ys)[1..] == ys;
  }

  /** Growing the first piece by a character grows the joined text by it. */
  lemma JoinedGrowsHead(x: char, items: seq<string>, sep: string)
    requires items != []
    ensures Joined([[x] + items[0]] + items[1..], sep) == [x] + Joined(items, sep)
  {
    if |items| > 1 {
      JoinedCons([x] + items[0], items[1..], sep);
      JoinedCons(items[0], items[1..], sep);
      assert items == [items[0]] + items[1..];
    } else {
      assert [[x] + items[0]] + items[1..] == [[x] + items[0]];
    }
  }

  // ---------------------------------------------------------------------
  // remove_whitespaces

  /** Reference definition of `erase(remove(begin, end, c), end)`. */
  function Without(s: string, c: char): string
  {
    if s == [] then [] else (if s[0] == c then [] else [s[0]]) + Without(s[1..], c)
  }

  lemma {:induction false} WithoutSnoc(s: string, x: char, c: char)
    ensures Without(s + [x], c) == Without(s, c) + (if x == c then [] else [x])
  {
    if s == [] {
      assert s + [x] == [x];
    } else {
      assert (s + [x])[0] == s[0];
      assert (s + [x])[1..] == s[1..] + [x];
      WithoutSnoc(s[1..], x, c);
    }
  }

  /** `std::remove` followed by `erase`: the characters other than `c` are
      moved to the front, in order, and the tail is cut off. */
  method RemoveChar(s: string, c: char) returns (r: string)
    ensures r == Without(s, c)
  {
    r := [];
    for i := 0 to |s|
      invariant r == Without(s[..i], c)
    {
      WithoutSnoc(s[..i], s[i], c);
      assert s[..i + 1] == s[..i] + [s[i]];
      if s[i] != c {
        r := r + [s[i]];
      }
    }
    assert s[..|s|] == s;
  }

  /** `remove_whitespaces` (tools.hpp:132-136): spaces, then tabs. */
  method RemoveWhitespaces(str: string) returns (r: string)
    ensures r == Without(Without(str, ' '), '\t')
  {
    r := RemoveChar(str, ' ');
    r := RemoveChar(r, '\t');
  }

  /** Removing a character leaves none of it and keeps every other character
      as often as it was. */
  lemma {:induction false} WithoutSpec(s: string, c: char, d: char)
    ensures c !in Without(s, c)
    ensures d != c ==> CountChar(Without(s, c), d) == CountChar(s, d)
  {
    if s != [] {
      WithoutSpec(s[1..], c, d);
      var w := Without(s[1..], c);
      if s[0] != c {
        assert Without(s, c) == [s[0]] + w;
        assert ([s[0]] + w)[0] == s[0];
        assert ([s[0]] + w)[1..] == w;
      } else {
        assert Without(s, c) == w;
      }
    }
  }

  /** After `remove_whitespaces` no space or tab is left; all other characters
      remain, each as often as before. */
  lemma RemoveWhitespacesSpec(s: string, d: char)
    ensures ' ' !in Without(Without(s, ' '), '\t') && '\t' !in Without(Without(s, ' '), '\t')
    ensures d != ' ' && d != '\t' ==> CountChar(Without(Without(s, ' '), '\t'), d) == CountChar(s, d)
  {
    WithoutSpec(s, ' ', d);
    WithoutSpec(Without(s, ' '), '\t', d);
    WithoutKeeps(Without(s, ' '), '\t', ' ');
  }

  lemma {:induction false} WithoutKeeps(s: string, c: char, d: char)
    requires d !in s
    ensures d !in Without(s, c)
  {
    if s != [] {
      WithoutKeeps(s[1..], c, d);
    }
  }

  // ---------------------------------------------------------------------
  // ltrim / rtrim / trim (in place, `isspace`)

  /** `ltrim` (tools.hpp:141-145): erases up to the first non-space. */
  method LTrim(s: string) returns (r: string)
    requires ViewSize(s)
    ensures r == StrTools.LTrim(s, CSpaces)
  {
    var i := 0;
    while i < |s| && IsSpace(s[i])
      invariant 0 <= i <= |s|
      invariant forall k :: 0 <= k < i ==> s[k] in CSpaces
    {
      i := i + 1;
    }
    r := s[i..];
  }

  /** `rtrim` (tools.hpp:151-155): erases after the last non-space. */
  method RTrim(s: string) returns (r: string)
    requires ViewSize(s)
    ensures r == StrTools.RTrim(s, CSpaces)
  {
    var j := |s|;
    while j > 0 && IsSpace(s[j - 1])
      invariant 0 <= j <= |s|
      invariant forall k :: j <= k < |s| ==> s[k] in CSpaces
    {
      j := j - 1;
    }
    r := s[..j];
  }

  /** `trim` (tools.hpp:160-163): `ltrim` then `rtrim`. */
  method Trim(s: string) returns (r: string)
    requires ViewSize(s)
    ensures r == StrTools.Trim(s, CSpaces)
  {
    r := LTrim(s);
    r := RTrim(r);
  }

  /** `trim` as a pure function on a string of any length: whitespace
      dropped from the front ... */
  function LStripped(s: string): (r: string)
    ensures |r| <= |s| && r == s[|s| - |r|..]
    ensures r != [] ==> !IsSpace(r[0])
    ensures forall i :: 0 <= i < |s| - |r| ==> IsSpace(s[i])
  {
    if s != [] && IsSpace(s[0]) then LStripped(s[1..]) else s
  }

  /** ... and from the back. */
  function RStripped(s: string): (r: string)
    ensures |r| <= |s| && r == s[..|r|]
    ensures r != [] ==> !IsSpace(r[|r| - 1])
    ensures forall i :: |r| <= i < |s| ==> IsSpace(s[i])
  {
    if s != [] && IsSpace(s[|s| - 1]) then RStripped(s[..|s| - 1]) else s
  }

  function Stripped(s: string): (r: string)
  {
    RStripped(LStripped(s))
  }

  /** The pure form agrees with the in-place `trim` wherever the latter is
      defined. */
  lemma StrippedIsTrim(s: string)
    requires ViewSize(s)
    ensures Stripped(s) == StrTools.Trim(s, CSpaces)
  {
    LStrippedIsLTrim(s);
    RStrippedIsRTrim(LStripped(s));
  }

  lemma LStrippedIsLTrim(s: string)
    requires ViewSize(s)
    ensures LStripped(s) == StrTools.LTrim(s, CSpaces)
  {
  }

  lemma RStrippedIsRTrim(s: string)
    requires ViewSize(s)
    ensures RStripped(s) == StrTools.RTrim(s, CSpaces)
  {
  }

  // ---------------------------------------------------------------------
  // hex_dump

  /** The lower-case hexadecimal digit of a nibble. */
  function HexDigit(n: nat): (d: char)
    requires n < 16
    ensures d in "0123456789abcdef"
  {
    if n < 10 then (n + '0' as int) as char else (n - 10 + 'a' as int) as char
  }

  /** Reads a lower-case hexadecimal digit back. */
  function HexValue(d: char): nat
  {
    if '0' <= d <= '9' then d as int - '0' as int
    else if 'a' <= d <= 'f' then d as int - 'a' as int + 10
    else 0
  }

  lemma HexDigitRoundTrip(n: nat)
    requires n < 16
    ensures HexValue(HexDigit(n)) == n
  {
  }

  /** `hex_dump` (tools.hpp:206-216): the high nibble of `c` goes to `out[0]`,
      the low nibble to `out[1]`. */
  method HexDump(c: bv8, out: array<char>)
    requires out.Length >= 2
    modifies out
    ensures out[0] == HexDigit(HighNibble(c)) && out[1] == HexDigit(LowNibble(c))
    ensures HexValue(out[0]) * 16 + HexValue(out[1]) == c as nat
    ensures forall k :: 2 <= k < out.Length ==> out[k] == old(out[k])
  {
    var low := NibbleDigit(LowNibble(c));
    var high := NibbleDigit(HighNibble(c));
    Nibbles(c);
    out[1] := low;
    out[0] := high;
  }

  /** One branch pair of `hex_dump` (tools.hpp:209-214): a nibble below 10
      becomes a decimal digit, any other one a letter from `a`. */
  method NibbleDigit(n: nat) returns (d: char)
    requires n < 16
    ensures d == HexDigit(n) && HexValue(d) == n
  {
    if n < 10 {
      d := (n + '0' as int) as char;
    } else {
      d := (n - 10 + 'a' as int) as char;
    }
    HexDigitRoundTrip(n);
  }

  /** The high nibble of a byte, `c >> 4`. */
  function HighNibble(c: bv8): (n: nat)
    ensures n < 16
  {
    (c >> 4) as nat
  }

  /** The low nibble of a byte, `c & 0x0f`. */
  function LowNibble(c: bv8): (n: nat)
    ensures n < 16
  {
    (c & 0x0f) as nat
  }

  /** A byte is its high nibble times 16 plus its low nibble. */
  lemma Nibbles(c: bv8)
    ensures HighNibble(c) * 16 + LowNibble(c) == c as nat
  {
  }
}
