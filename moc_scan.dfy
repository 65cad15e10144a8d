/** The text helpers of the metaobject compiler (exe/moc/src/moc.cpp, with
    older copies in exe/moc/src/xdev-moc.cpp): brace-balanced scope ends, the
    class body, the component-prefix test on paths and the `name=value`
    arguments of the X macros.

    Iterators into a string are indices here, the end iterator being the
    string's length. A path is its sequence of components. */
module MocScan {
  import opened Wrappers
  import opened Values
  import opened Variants

  // ---------------------------------------------------------------------
  // brace balance

  /** The open/close counter after scanning `s[from..q)`: +1 per `open`,
      -1 per `close`, the `open` test first. */
  function Depth(s: string, open: char, close: char, from: nat, q: nat): int
    requires from <= q <= |s|
    decreases q
  {
    if q == from then 0
    else Depth(s, open, close, from, q - 1) + (if s[q - 1] == open then 1 else if s[q - 1] == close then -1 else 0)
  }

  /** `find_scope_end(start, end, open, close)`: look for the next `open` or
      `close` (`find_first_of`), count it, step past it, and stop once the
      counter is no longer positive. The result is the position just past
      the token that first brings the counter to 0 or below, or the end
      when none does; the end is not dereferenced. */
  method FindScopeEnd(s: string, start: nat, open: char, close: char) returns (r: nat)
    requires start <= |s|
    ensures start <= r <= |s|
    ensures r == |s| || (start < r && (s[r - 1] == open || s[r - 1] == close) && Depth(s, open, close, start, r) <= 0)
    ensures forall q :: start < q < r && (s[q - 1] == open || s[q - 1] == close) ==> Depth(s, open, close, start, q) > 0
  {
    var counter := 0;
    var it := start;
    while true
      invariant start <= it <= |s|
      invariant counter == Depth(s, open, close, start, it)
      invariant forall q :: start < q <= it && (s[q - 1] == open || s[q - 1] == close) ==>
                  Depth(s, open, close, start, q) > 0
      decreases |s| - it
    {
      while it < |s| && s[it] != open && s[it] != close
        invariant start <= it <= |s|
        invariant counter == Depth(s, open, close, start, it)
        invariant forall q :: start < q <= it && (s[q - 1] == open || s[q - 1] == close) ==>
                    Depth(s, open, close, start, q) > 0
      {
        it := it + 1;
      }
      if it == |s| {
        return |s|;
      }
      if s[it] == open {
        counter := counter + 1;
      } else {
        counter := counter - 1;
      }
      it := it + 1;
      if counter <= 0 {
        return it;
      }
    }
  }

  /** `get_class_body(begin, end)`: the first `{` from `begin`, and one past
      the `}` that balances it, the counter starting at 1 after the `{`.
      Without a `{`, or without a balancing `}`, the C++ iterators step past
      the end; both are `None` here. */
  method GetClassBody(s: string, begin: nat) returns (r: Option<(nat, nat)>)
    requires begin <= |s|
    ensures r.None? <==> ('{' !in s[begin..] ||
                          forall q :: BodyStart(s, begin) < q <= |s| ==> Depth(s, '{', '}', BodyStart(s, begin), q) > 0)
    ensures r.Some? ==> r.value.0 == BodyStart(s, begin) < r.value.1 <= |s|
    ensures r.Some? ==> s[r.value.1 - 1] == '}' && Depth(s, '{', '}', r.value.0, r.value.1) == 0
    ensures r.Some? ==> forall q :: r.value.0 < q < r.value.1 ==> Depth(s, '{', '}', r.value.0, q) > 0
  {
    var first := begin;
    while first < |s| && s[first] != '{'
      invariant begin <= first <= |s|
      invariant '{' !in s[begin..first]
    {
      first := first + 1;
    }
    BodyStartIsFirst(s, begin, first);
    if first == |s| {
      assert s[begin..] == s[begin..first];
      return Option.None;
    }
    assert s[begin..] == s[begin..first] + s[first..];
    assert s[begin..][first - begin] == '{';
    var second := MatchingClose(s, first);
    if second == |s| + 1 {
      return Option.None;
    }
    return Some((first, second));
  }

  /** The second loop of `get_class_body`: from the `{` at `first`, one past
      the `}` that brings the counter back to 0, or one past the end when
      there is none. */
  method MatchingClose(s: string, first: nat) returns (second: nat)
    requires first < |s| && s[first] == '{'
    ensures first < second <= |s| + 1
    ensures second <= |s| ==> s[second - 1] == '}' && Depth(s, '{', '}', first, second) == 0
    ensures forall q :: first < q <= |s| && q < second ==> Depth(s, '{', '}', first, q) > 0
  {
    assert Depth(s, '{', '}', first, first + 1) == 1;
    var counter := 1;
    var it := first + 1;
    while it < |s|
      invariant first + 1 <= it <= |s|
      invariant counter == Depth(s, '{', '}', first, it) > 0
      invariant forall q :: first < q <= it ==> Depth(s, '{', '}', first, q) > 0
    {
      if s[it] == '{' {
        counter := counter + 1;
      } else if s[it] == '}' {
        counter := counter - 1;
      }
      if counter <= 0 {
        return it + 1;
      }
      it := it + 1;
    }
    return |s| + 1;
  }

  /** The position of the first `{` from `begin`, or the end. */
  function BodyStart(s: string, begin: nat): (p: nat)
    requires begin <= |s|
    ensures begin <= p <= |s| && '{' !in s[begin..p]
    ensures p < |s| ==> s[p] == '{'
    decreases |s| - begin
  {
    if begin == |s| || s[begin] == '{' then begin else BodyStart(s, begin + 1)
  }

  /** A position before which there is no `{` and at which there is one (or
      the end) is the body start. */
  lemma {:induction false} BodyStartIsFirst(s: string, begin: nat, p: nat)
    requires begin <= p <= |s| && '{' !in s[begin..p] && (p < |s| ==> s[p] == '{')
    ensures BodyStart(s, begin) == p
    decreases p - begin
  {
    if begin < p {
      assert s[begin] == s[begin..p][0];
      assert s[begin + 1..p] == s[begin..p][1..];
      BodyStartIsFirst(s, begin + 1, p);
    }
  }

  /** The class body ends where the scope opened by its `{` ends:
      `get_class_body` and `find_scope_end` from the body's `{` agree. */
  lemma ClassBodyIsScope(s: string, first: nat, second: nat, r: nat)
    requires first < second <= |s| && s[first] == '{' && s[second - 1] == '}'
    requires Depth(s, '{', '}', first, second) == 0
    requires forall q :: first < q < second ==> Depth(s, '{', '}', first, q) > 0
    requires first <= r <= |s|
    requires r == |s| || (first < r && (s[r - 1] == '{' || s[r - 1] == '}') && Depth(s, '{', '}', first, r) <= 0)
    requires forall q :: first < q < r && (s[q - 1] == '{' || s[q - 1] == '}') ==> Depth(s, '{', '}', first, q) > 0
    ensures r == second
  {
  }

  // ---------------------------------------------------------------------
  // paths

  /** `p.remove_filename()` in std::filesystem, on the components of a path
      with a last element: the separator before the file name stays, as the
      trailing empty element a path ending in "/" iterates to, unless
      nothing or only the root directory "/" is left. */
  function RemoveFilename(p: seq<string>): (r: seq<string>)
    requires p != []
    ensures |p| - 1 <= |r| <= |p| && r[..|p| - 1] == p[..|p| - 1]
    ensures |r| == |p| ==> r[|p| - 1] == ""
    ensures |r| == |p| - 1 <==> |p| == 1 || p[|p| - 2] == "/"
  {
    var q := p[..|p| - 1];
    if q == [] || q[|q| - 1] == "/" then q else q + [""]
  }

  /** What `path_contains_file` decides once `dir` has been stripped: `dir`
      has no more elements than the file's directory, and they match that
      directory's first ones (`std::equal`). */
  predicate Within(dir: seq<string>, file: seq<string>)
    requires file != []
  {
    var parent := RemoveFilename(file);
    |dir| <= |parent| && dir == parent[..|dir|]
  }

  /** `path_contains_file(dir, file)`: a final "." element is removed from
      `dir` with `remove_filename` — through the non-const reference, so
      the caller's path changes too — and the file's name is removed the
      same way; then the file is in `dir` when `dir` is `Within` it. */
  method PathContainsFile(dir: seq<string>, file: seq<string>) returns (contains: bool, dirAfter: seq<string>)
    requires file != [] && file[|file| - 1] != ""
    ensures dirAfter == StrippedDir(dir)
    ensures contains <==> Within(dirAfter, file)
  {
    dirAfter := dir;
    if dirAfter != [] && dirAfter[|dirAfter| - 1] == "." {
      dirAfter := RemoveFilename(dirAfter);
    }
    var parent := RemoveFilename(file);
    if |dirAfter| > |parent| {
      return false, dirAfter;
    }
    var i := 0;
    while i < |dirAfter| && dirAfter[i] == parent[i]
      invariant 0 <= i <= |dirAfter|
      invariant dirAfter[..i] == parent[..i]
    {
      i := i + 1;
    }
    contains := i == |dirAfter|;
    assert contains ==> dirAfter == dirAfter[..i];
  }

  /** `dir` after `path_contains_file`: a final "." is replaced by the
      empty element of the separator before it. */
  function StrippedDir(dir: seq<string>): (r: seq<string>)
    ensures r == dir || (dir != [] && dir[|dir| - 1] == "." && r == RemoveFilename(dir))
  {
    if dir != [] && dir[|dir| - 1] == "." then RemoveFilename(dir) else dir
  }

  /** Stripping is done once: a second call leaves a stripped path as it is
      unless it ended in "./." */
  lemma StrippedDirChangesOnlyDot(dir: seq<string>)
    ensures StrippedDir(dir) != dir <==> dir != [] && dir[|dir| - 1] == "."
    ensures |StrippedDir(dir)| >= |dir| - 1
  {
  }

  /** A directory given without a final separator or "." contains every
      file below it, in subdirectories too. */
  lemma PlainDirContainsBelow(dir: seq<string>, rest: seq<string>)
    requires dir != [] && dir[|dir| - 1] != "" && dir[|dir| - 1] != "."
    requires rest != [] && rest[|rest| - 1] != ""
    ensures Within(StrippedDir(dir), dir + rest)
  {
    var parent := RemoveFilename(dir + rest);
    assert parent[..|dir|] == (dir + rest)[..|dir|] == dir;
  }

  /** A directory given with a final separator, or with a final "." that
      `path_contains_file` turns into one, keeps that empty element: it
      contains the files directly in it but no file in a subdirectory,
      whose next element is a name and not empty. */
  lemma SeparatorEndMissesSubdirectories(dir: seq<string>, sub: string, rest: seq<string>)
    requires dir != [] && dir[|dir| - 1] != "/" && sub != ""
    requires rest != [] && rest[|rest| - 1] != ""
    ensures StrippedDir(dir + ["."]) == dir + [""]
    ensures Within(dir + [""], dir + [rest[|rest| - 1]])
    ensures !Within(dir + [""], dir + [sub] + rest)
  {
    assert (dir + ["."])[..|dir|] == dir;
    assert (dir + [rest[|rest| - 1]])[..|dir|] == dir;
    var file := dir + [sub] + rest;
    var parent := RemoveFilename(file);
    assert parent[|dir|] == file[|dir|] == sub;
    assert (dir + [""])[|dir|] == "";
  }

  // ---------------------------------------------------------------------
  // macro arguments

  /** One match of the `name = value` pattern: the name and the raw value. */
  datatype ArgMatch = ArgMatch(name: string, data: string)

  /** The pattern's matches, as `regex_foreach` yields them: every value is
      non-empty and strictly shorter than the text it was found in (a name
      and `=` precede it). */
  ghost predicate ArgPattern(extract: string -> seq<ArgMatch>)
  {
    forall s, i :: 0 <= i < |extract(s)| ==> 0 < |extract(s)[i].data| < |s|
  }

  /** A plain value with one leading and one trailing `"` removed, as
      written: the trailing test reads `data[data.size() - 1]`, which for
      the value `"` alone comes after the erase that emptied it and reads
      out of range (`None`). */
  function UnquoteAsWritten(data: string): (r: Option<string>)
    requires data != []
    ensures r.None? <==> data == "\""
  {
    var d := if data[0] == '"' then data[1..] else data;
    if d == [] then Option.None
    else if d[|d| - 1] == '"' then Some(d[..|d| - 1])
    else Some(d)
  }

  /** The value `"` makes the as-written unquoting read out of range. */
  lemma QuoteAloneOverreads()
    ensures UnquoteAsWritten("\"") == Option.None
    ensures UnquoteAsWritten("\"x\"") == Some("x")
  {
    assert "\"x\""[1..] == "x\"";
    assert "x\""[..1] == "x";
  }

  /** A plain value with one leading and one trailing `"` removed; an empty
      remainder stays empty, so a lone `"` is the empty value, read without
      going out of range. */
  function Unquote(data: string): (r: string)
    ensures |r| <= |data|
    ensures data != [] && data != "\"" ==> UnquoteAsWritten(data) == Some(r)
    ensures data == "\"" ==> r == ""
  {
    var d := if data != [] && data[0] == '"' then data[1..] else data;
    if d != [] && d[|d| - 1] == '"' then d[..|d| - 1] else d
  }

  /** Quoting and unquoting: a quoted text loses exactly its two quotes, a
      text without quotes at its ends is kept. */
  lemma UnquoteRoundTrip(t: string)
    ensures Unquote("\"" + t + "\"") == t
    ensures t != [] && t[0] != '"' && t[|t| - 1] != '"' ==> Unquote(t) == t
  {
    var q := "\"" + t + "\"";
    assert q[1..] == t + "\"";
    assert (t + "\"")[..|t|] == t;
  }

  /** `xmacro_extract_args(raw)`: every match becomes an entry keyed by its
      name, a later match replacing an earlier one; a parenthesised value is
      itself extracted into a nested dict, any other is unquoted. */
  function ArgsOf(extract: string -> seq<ArgMatch>, raw: string): map<Value, Variant>
    requires ArgPattern(extract)
    decreases |raw|, 1
  {
    ArgsUpTo(extract, raw, |extract(raw)|)
  }

  /** The entries of the first `n` matches. */
  function ArgsUpTo(extract: string -> seq<ArgMatch>, raw: string, n: nat): map<Value, Variant>
    requires ArgPattern(extract) && n <= |extract(raw)|
    decreases |raw|, 0, n
  {
    if n == 0 then map[]
    else ArgsUpTo(extract, raw, n - 1)[Str(extract(raw)[n - 1].name) := ArgValue(extract, raw, n - 1)]
  }

  /** The value of match `i`. */
  function ArgValue(extract: string -> seq<ArgMatch>, raw: string, i: nat): Variant
    requires ArgPattern(extract) && i < |extract(raw)|
    decreases |raw|, 0, 0
  {
    var data := extract(raw)[i].data;
    if data[0] == '(' then Dict(ArgsOf(extract, data)) else Val(Str(Unquote(data)))
  }

  /** The C++ loop: `regex_foreach` over the matches, assigning
      `args[name]` each time. */
  method ExtractArgs(extract: string -> seq<ArgMatch>, raw: string) returns (args: map<Value, Variant>)
    requires ArgPattern(extract)
    ensures args == ArgsOf(extract, raw)
    decreases |raw|
  {
    var matches := extract(raw);
    args := map[];
    var i := 0;
    while i < |matches|
      invariant 0 <= i <= |matches|
      invariant args == ArgsUpTo(extract, raw, i)
    {
      var name := matches[i].name;
      var data := matches[i].data;
      assert 0 < |data| < |raw|;
      if data[0] == '(' {
        var nested := ExtractArgs(extract, data);
        args := args[Str(name) := Dict(nested)];
      } else {
        args := args[Str(name) := Val(Str(Unquote(data)))];
      }
      i := i + 1;
    }
  }

  /** Each name of a match is a key, and only those are; its value is the
      one of the last match with that name. */
  lemma {:induction false} LastMatchWins(extract: string -> seq<ArgMatch>, raw: string, n: nat, name: string)
    requires ArgPattern(extract) && n <= |extract(raw)|
    ensures Str(name) in ArgsUpTo(extract, raw, n) <==> exists i :: 0 <= i < n && extract(raw)[i].name == name
    ensures forall i :: 0 <= i < n && extract(raw)[i].name == name &&
                        (forall j :: i < j < n ==> extract(raw)[j].name != name) ==>
              Str(name) in ArgsUpTo(extract, raw, n) && ArgsUpTo(extract, raw, n)[Str(name)] == ArgValue(extract, raw, i)
    decreases n
  {
    if n > 0 {
      LastMatchWins(extract, raw, n - 1, name);
    }
  }
}
