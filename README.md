# xdev-core in Dafny

This project models the core of xdev-core, a C++20 framework that gives C++ classes a
dynamic side: values that hold any of a fixed set of alternatives, reflective objects
with properties and a class registry, two template engines and a meta-object compiler.
The parts modelled are:

- **Variant values** (`Values`, `Variants`, `Dicts`, `Lists`, `Decimal`): the `XVariant`
  alternatives, their equality and ordering, conversions to and from strings, and the
  dictionary and list containers built on them.
- **String helpers** (`StdString`, `StrTools`, `Tools`): trimming, splitting, joining,
  replacing and the other text utilities shared by the engines.
- **Objects** (`Properties`, `Objects`, `Registry`, `Resources`, `Exceptions`, `Gsl`):
  property tables, the object base class, the registry of static classes with their
  factories, the resource store and the exception and contract helpers.
- **Runtime template engine** (`TemplateExpressions`, `TemplateScan`, `TemplateBlocks`,
  `TemplateLoad`, `TemplateCompile`): the expression evaluator with its filters, the scan
  for `{{ }}` and `{% %}` tags, the block tree (text, value, `if`, `for`, named blocks,
  `extends`), how a template source is compiled into that tree and how the tree is rendered
  against a dictionary.
- **Compile-time template engine** (`CttTokens`, `CttEvaluator`, `CttControls`,
  `CttBlocks`, `CttRender`): the tokenizer, the value evaluator, the `for`/`endfor`
  controls and the block generator of `ctt`, modelled as ordinary functions over strings.
- **Compile-time containers** (`CtString`, `CtTuple`, `TupleTools`): fixed strings and
  tuples with the slicing, transforming, generating, flattening and counting operations
  of the tuple tools, with tuples as sequences of tagged elements.
- **Meta-object compiler** (`MocScan`, `MocCompiler`): how `moc` finds class bodies and
  scopes in a header, extracts members and invokables, registers object pools and decides
  which headers to process and what context each generated file receives.

Pure code is modelled by datatypes, functions and lemmas. Code that loops or updates
objects in place is modelled by methods and classes (`Registry.XClass`, the template
compiler's loading loops, the moc compiler's pool and header loops), each proved to
compute a specification function whose properties are proved as lemmas. Regular-expression
matches, file contents and other host facilities are parameters of the model.

## Model

| member | source | states |
|---|---|---|
| Values.Equal | libs/core/include/xdev/variant-value.hpp:17-19 | two values are equal exactly when they hold the same alternative with the same payload and are not none; none equals nothing, itself included |
| Values.StrLessIrreflexive | libs/core/include/xdev/variant-value.hpp:56 | the string ordering used by `<=>` never ranks a string below itself |
| Values.StrLessTransitive | libs/core/include/xdev/variant-value.hpp:56 | the string ordering used by `<=>` is transitive |
| Values.StrLessTotal | libs/core/include/xdev/variant-value.hpp:56 | two different strings are always ordered one way or the other |
| Values.LessIsStrictTotalOrder | libs/core/include/xdev/variant-value.hpp:55-56 | the value ordering is irreflexive, transitive and total on distinct values, so it can key a `std::map` |
| Values.IntOrdering | libs/core/include/xdev/variant-value.hpp:55-56 | on int values the ordering is integer order, and neither-less coincides with equality |
| Values.Flip | libs/core/include/xdev/variant-value.hpp:60 | `!` on a bool gives a bool with the opposite truth value |
| Values.Incremented | libs/core/include/xdev/variant-value.hpp:62-63 | `++` keeps the numeric kind and adds one |
| Values.Decremented | libs/core/include/xdev/variant-value.hpp:65-66 | `--` keeps the numeric kind and subtracts one |
| Values.FlipInvolutive | libs/core/include/xdev/variant-value.hpp:60 | negating twice gives back the original bool |
| Values.IncrementDecrementInverse | libs/core/include/xdev/variant-value.hpp:62-66 | `++` and `--` undo each other on ints and on doubles read as exact reals (not under IEEE rounding) |
| Values.ToString | libs/core/include/xdev/variant-value.hpp:83 | a bool renders as "true"/"false" according to its value, an int as its decimal digits, a string as itself |
| Values.ToStringInjectiveOnInts | libs/core/include/xdev/variant-value.hpp:83 | two ints with the same rendering are equal |
| Values.TypeName | libs/core/include/xdev/variant-value.hpp:85 | the type name is one of the five C++ names of the alternatives |
| Values.TypeNameIdentifiesKind | libs/core/include/xdev/variant-value.hpp:85 | two values have the same type name exactly when they hold the same alternative |
| Values.XVal.constructor | libs/core/include/xdev/variant-value.hpp:42-47 | a new holder holds the value it was built from |
| Values.XVal.Not | libs/core/include/xdev/variant-value.hpp:60 | `!` flips the held bool in place and returns the updated value |
| Values.XVal.PreIncrement | libs/core/include/xdev/variant-value.hpp:62 | prefix `++` increments in place and returns the new value |
| Values.XVal.PostIncrement | libs/core/include/xdev/variant-value.hpp:63 | postfix `++` increments in place and returns the previous value |
| Values.XVal.PreDecrement | libs/core/include/xdev/variant-value.hpp:65 | prefix `--` decrements in place and returns the new value |
| Values.XVal.PostDecrement | libs/core/include/xdev/variant-value.hpp:66 | postfix `--` decrements in place and returns the previous value |
| Decimal.DigitChar | exe/moc/src/moc.cpp:300 | a digit below ten is written as a decimal digit character |
| Decimal.NatToString | exe/moc/src/moc.cpp:300 | `to_string` of a count is a non-empty run of decimal digits with no leading zero |
| Decimal.NatToStringRoundTrip | exe/moc/src/moc.cpp:300 | reading the digits back gives the number: `to_string` loses nothing |
| Decimal.IntToStringInjective | libs/core/src/xdev-object.cpp:18 | distinct numbers render differently, so instance numbers give distinct object names |
| StdString.FindFirstNotOf | libs/core/include/xdev/str-tools.hpp:20 | `find_first_not_of` returns the first position whose character is outside the set, every earlier character being inside it, or npos when all are |
| StdString.FirstNotOfFrom | libs/template/src/template-blocks.cpp:103 | `find_first_not_of(chars, from)`: the same, searching from `from` on |
| StdString.FindLastNotOf | libs/core/include/xdev/str-tools.hpp:30 | `find_last_not_of` returns the last position whose character is outside the set, every later character being inside it, or npos |
| StdString.LastNotOfBefore | libs/template/src/template-blocks.cpp:111 | `find_last_not_of(chars, pos)`: the same, restricted to positions before the bound |
| StdString.FindFirstOf | libs/core/include/xdev/tools.hpp:50 | `find_first_of` returns the first position at or after `from` whose character is in the set, none before it being so, or npos |
| StdString.FindChar | libs/template/src/template-blocks.cpp:206 | `find(c, from)` returns the first occurrence of `c` at or after `from`, or npos when there is none |
| StdString.FindSub | libs/template/src/template-blocks.cpp:94 | `find(pattern, from)` returns the first position at or after `from` where the pattern occurs, or npos when it occurs nowhere after `from` |
| StrTools.LTrim | libs/core/include/xdev/str-tools.hpp:19-22 | `ltrim` keeps a suffix of the input, removes only trim characters and leaves a first character outside the set |
| StrTools.RTrim | libs/core/include/xdev/str-tools.hpp:29-32 | `rtrim` keeps a prefix, removes only trim characters and leaves a last character outside the set, including when the `size_t` subtraction wraps |
| StrTools.Trim | libs/core/include/xdev/str-tools.hpp:39-41 | `trim` is `rtrim` of `ltrim` |
| StrTools.TrimIsInnerSlice | libs/core/include/xdev/str-tools.hpp:39-41 | the trimmed view is a contiguous slice of the input with only trim characters cut from either end, and both its ends are outside the set |
| StrTools.AllTrimCharsGiveEmpty | libs/core/include/xdev/str-tools.hpp:19-41 | an input made only of trim characters trims to the empty view on every side |
| StrTools.TrimIdempotent | libs/core/include/xdev/str-tools.hpp:19-41 | trimming an already trimmed view changes nothing, for each of the three trims |
| StrTools.LTrimFixed | libs/core/include/xdev/str-tools.hpp:19-22 | a view that does not start with a trim character is left as it is by `ltrim` |
| StrTools.RTrimFixed | libs/core/include/xdev/str-tools.hpp:29-32 | a view that does not end with a trim character is left as it is by `rtrim` |
| StrTools.LTrimOne | libs/core/include/xdev/str-tools.hpp:19-22 | when only the first character is a trim character, `ltrim` drops exactly that one |
| StrTools.RTrimOne | libs/core/include/xdev/str-tools.hpp:29-32 | when only the last character is a trim character, `rtrim` drops exactly that one |
| Tools.ToUpperChar | libs/core/include/xdev/tools.hpp:111 | `toupper` maps each lower-case letter to its upper-case partner and leaves every other character alone |
| Tools.ToLowerChar | libs/core/include/xdev/tools.hpp:116 | `tolower` maps each upper-case letter to its lower-case partner and leaves every other character alone |
| Tools.CaseRoundTrip | libs/core/include/xdev/tools.hpp:109-117 | lowering an upper-cased character equals lowering it directly (and vice versa); neither changes whether it is alphanumeric |
| Tools.Escaped | libs/core/include/xdev/tools.hpp:46-56 | reference escaping never shortens the text |
| Tools.CountIn | libs/core/include/xdev/tools.hpp:50 | the number of special characters is at most the length |
| Tools.EscapeRoundTrip | libs/core/include/xdev/tools.hpp:46-56 | escaping adds exactly one backslash per special character and removing them restores the input |
| Tools.EscapedAppend | libs/core/include/xdev/tools.hpp:46-56 | escaping distributes over concatenation, so each character is escaped on its own |
| Tools.EscapedPlain | libs/core/include/xdev/tools.hpp:46-56 | text without special characters is left unchanged |
| Tools.EscapeStep | libs/core/include/xdev/tools.hpp:50-54 | one round of the loop: inserting the backslash at the found position extends the escaped prefix by one special character, and the next search starts two further on |
| Tools.EscapedExtend | libs/core/include/xdev/tools.hpp:50-54 | the escaped prefix up to the next special character is the old one, the plain run and the escaped character |
| Tools.EscapedBound | libs/core/include/xdev/tools.hpp:46-56 | escaping at most doubles the length |
| Tools.RegexEscape | libs/core/include/xdev/tools.hpp:46-56 | `regex_escape` puts one backslash before each of `{}[]()<>.+*^$|\` and changes nothing else |
| Tools.Pieces | libs/core/include/xdev/tools.hpp:61-80 | the reference pieces of a text are never an empty list |
| Tools.NonEmpty | libs/core/include/xdev/tools.hpp:68 | the kept pieces are a subsequence of the pieces, none of them empty |
| Tools.NonEmptyAppend | libs/core/include/xdev/tools.hpp:68-78 | dropping empty pieces distributes over concatenation, so order is kept |
| Tools.PiecesSpec | libs/core/include/xdev/tools.hpp:61-80 | without `remove_empty` there is one piece more than separators, no piece holds the separator, and joining with it gives back the text |
| Tools.SplitJoinRoundTrip | libs/core/include/xdev/tools.hpp:61-107 | splitting the join of separator-free items gives back the items |
| Tools.PiecesOfPlain | libs/core/include/xdev/tools.hpp:74-78 | a text without the separator is a single piece |
| Tools.PiecesOfPlainThenSep | libs/core/include/xdev/tools.hpp:66-73 | a plain run followed by the separator is the first piece, the rest is split on its own |
| Tools.PiecesAtFirstSep | libs/core/include/xdev/tools.hpp:66-72 | the first piece runs up to the first separator |
| Tools.SplitStep | libs/core/include/xdev/tools.hpp:66-72 | one round of the `split` loop pushes exactly the next reference piece |
| Tools.SplitLast | libs/core/include/xdev/tools.hpp:74-78 | once no separator remains, the remainder is the last reference piece |
| Tools.KeptSnoc | libs/core/include/xdev/tools.hpp:68-71 | pushing an item keeps it unless `remove_empty` is set and the item is empty |
| Tools.Split | libs/core/include/xdev/tools.hpp:61-80 | `split` returns the reference pieces, with the empty ones dropped exactly when `remove_empty` is set |
| Tools.MapSeq | libs/core/include/xdev/tools.hpp:99-105 | the converter is applied to each element, in order |
| Tools.WithTrailingSnoc | libs/core/include/xdev/tools.hpp:97-102 | each loop round appends one element followed by the separator |
| Tools.JoinedAsTrailing | libs/core/include/xdev/tools.hpp:95-106 | a join is every element but the last followed by the separator, then the last |
| Tools.Join | libs/core/include/xdev/tools.hpp:85-107 | `join` gives "" for an empty iterable and otherwise the converted elements in order with the separator between neighbours only |
| Tools.JoinedLength | libs/core/include/xdev/tools.hpp:85-107 | the joined length is the total length plus one separator per neighbouring pair: no leading or trailing separator |
| Tools.UpperStr | libs/core/include/xdev/tools.hpp:109-112 | upper-casing a string keeps its length and upper-cases each character |
| Tools.LowerStr | libs/core/include/xdev/tools.hpp:114-117 | lower-casing a string keeps its length and lower-cases each character |
| Tools.ToUpper | libs/core/include/xdev/tools.hpp:109-112 | `to_upper` rewrites the buffer in place to its upper-cased contents |
| Tools.ToLower | libs/core/include/xdev/tools.hpp:114-117 | `to_lower` rewrites the buffer in place to its lower-cased contents |
| Tools.CaseConversions | libs/core/include/xdev/tools.hpp:109-117 | each case conversion is idempotent and the last conversion applied decides the result |
| Tools.Titled | libs/core/include/xdev/tools.hpp:166-187 | title-casing keeps the length, and each position follows the title rule for its predecessor |
| Tools.Title | libs/core/include/xdev/tools.hpp:166-187 | `title` upper-cases an alphanumeric at the start or after a non-alphanumeric, lowers every other alphanumeric, in place |
| Tools.TitleIdempotent | libs/core/include/xdev/tools.hpp:166-187 | title-casing keeps which positions are alphanumeric, leaves non-alphanumerics untouched and is idempotent |
| Tools.OccursShift | libs/core/include/xdev/tools.hpp:122 | an occurrence in the tail is an occurrence one position later in the whole |
| Tools.ReplaceSkip | libs/core/include/xdev/tools.hpp:119-126 | the characters before the first occurrence of `from` are kept as they are |
| Tools.OccursInSuffix | libs/core/include/xdev/tools.hpp:122 | searching from `start_pos` sees exactly the occurrences in the unscanned suffix |
| Tools.ReplaceFirst | libs/core/include/xdev/tools.hpp:122-124 | the first occurrence becomes `to` and the replacement goes on after it |
| Tools.FoundInRest | libs/core/include/xdev/tools.hpp:122 | the position `find` returns is the first occurrence in the unscanned part |
| Tools.ReplaceStep | libs/core/include/xdev/tools.hpp:122-124 | one round replaces the next occurrence and resumes after the inserted `to`, which is never rescanned |
| Tools.ReplaceBound | libs/core/include/xdev/tools.hpp:123 | replacing keeps the working string within the length bound assumed for it |
| Tools.ReplaceDone | libs/core/include/xdev/tools.hpp:122 | when no occurrence is left, the string is the full left-to-right replacement |
| Tools.MulMono | libs/core/include/xdev/tools.hpp:123 | the length bound grows with the number of replacements |
| Tools.Replace | libs/core/include/xdev/tools.hpp:119-126 | `replace` substitutes every occurrence of a non-empty `from` left to right without rescanning `to`; an empty `from` is excluded (see Left out) |
| Tools.ReplaceCharIsSplitJoin | libs/core/include/xdev/tools.hpp:61-126 | replacing a single character equals splitting on it and joining with `to` |
| Tools.WithoutSnoc | libs/core/include/xdev/tools.hpp:134 | removing a character from a string with one more character drops that character exactly when it is the removed one |
| Tools.RemoveChar | libs/core/include/xdev/tools.hpp:134 | `erase(remove(...))` keeps the other characters in order and drops every copy of `c` |
| Tools.RemoveWhitespaces | libs/core/include/xdev/tools.hpp:132-136 | `remove_whitespaces` removes spaces, then tabs |
| Tools.WithoutSpec | libs/core/include/xdev/tools.hpp:134-135 | after removal no copy of the character is left and every other character occurs as often as before |
| Tools.RemoveWhitespacesSpec | libs/core/include/xdev/tools.hpp:132-136 | no space or tab is left and every other character occurs as often as before |
| Tools.WithoutKeeps | libs/core/include/xdev/tools.hpp:135 | removing tabs cannot bring back a removed space |
| Tools.LTrim | libs/core/include/xdev/tools.hpp:141-145 | the in-place `ltrim` erases exactly the leading `isspace` characters |
| Tools.RTrim | libs/core/include/xdev/tools.hpp:151-155 | the in-place `rtrim` erases exactly the trailing `isspace` characters |
| Tools.Trim | libs/core/include/xdev/tools.hpp:160-163 | the in-place `trim` is `ltrim` then `rtrim` |
| Tools.LStripped | libs/core/include/xdev/tools.hpp:141-145 | front stripping keeps a suffix, removes only whitespace and leaves a non-space first character |
| Tools.RStripped | libs/core/include/xdev/tools.hpp:151-155 | back stripping keeps a prefix, removes only whitespace and leaves a non-space last character |
| Tools.StrippedIsTrim | libs/core/include/xdev/tools.hpp:141-163 | the whitespace trims of tools.hpp agree with the `string_view` trims of str-tools.hpp on the `isspace` set |
| Tools.HexDigit | libs/core/include/xdev/tools.hpp:210-215 | a nibble is written as one of `0-9a-f` |
| Tools.HexDigitRoundTrip | libs/core/include/xdev/tools.hpp:210-215 | reading the digit back gives the nibble |
| Tools.NibbleDigit | libs/core/include/xdev/tools.hpp:209-214 | a nibble below 10 becomes a decimal digit and any other a letter from `a`; the digit reads back as the nibble |
| Tools.HexDump | libs/core/include/xdev/tools.hpp:206-216 | `hex_dump` writes the high nibble to `out[0]`, the low nibble to `out[1]`, the two digits read back as the byte, and nothing else in `out` changes |
| Variants.EqualIsIdentity | libs/core/include/xdev/variant.hpp:56 | two variants are equal exactly when they are structurally identical and hold no none anywhere |
| Variants.EqualSymmetric | libs/core/include/xdev/variant.hpp:56 | variant equality is symmetric |
| Variants.DictsDifferingInOneValue | libs/core/include/xdev/variant.hpp:56 | two dicts that differ in the value under one key are unequal, whatever the rest |
| Variants.TypeName | libs/core/include/xdev/variant.hpp:100-101 | a scalar reports its own type name; a container reports "xlist", "xdict" or "xfn" |
| Variants.TypeNameIdentifiesKind | libs/core/include/xdev/variant.hpp:100-101 | two variants report the same type name exactly when they hold the same alternative (and, for scalars, the same scalar kind) |
| Variants.StrValues | libs/core/include/xdev/variant.hpp:163 | each name becomes the string key with that text, in order |
| Variants.KeyPath | libs/core/include/xdev/variant.hpp:163 | an index stands for a non-empty chain of keys |
| Variants.PlainKeyPath | libs/core/include/xdev/variant.hpp:163 | a string index without dots is a single key |
| Variants.DottedKeyPath | libs/core/include/xdev/variant.hpp:163 | the index "a.b" stands for the key `a` followed by the key `b` |
| Variants.GetConcat | libs/core/include/xdev/variant.hpp:163-164 | reading along a path in two steps equals reading along the joined path, so `v["a.b"]` and `v["a"]["b"]` agree |
| Variants.PutThenGet | libs/core/include/xdev/variant.hpp:163 | a value written through `operator[]` is read back from the same path |
| Variants.PutOnFreshPath | libs/core/include/xdev/variant.hpp:163 | writing through a dict or a none along a path of missing entries never fails |
| Variants.PutKeepsOthers | libs/core/include/xdev/variant.hpp:163 | a write turns the target into a dict, adds the first key and leaves every other top-level entry as it was |
| Variants.XVar.constructor | libs/core/include/xdev/variant.hpp:173-179 | a new variant holds the value it was built from |
| Variants.XVar.CopyFrom | libs/core/include/xdev/variant.hpp:54 | copy assignment takes the other's contents and leaves the other unchanged |
| Variants.XVar.MoveFrom | libs/core/include/xdev/variant.hpp:51 | move assignment takes the other's contents and leaves the other holding none |
| Variants.XVar.SetAt | libs/core/include/xdev/variant.hpp:163 | `v[key] = x` succeeds exactly when the path crosses only dicts and nones; then `x` is read back at the key, otherwise nothing changes |
| Variants.XVar.Update | libs/core/include/xdev/variant.hpp:125 | `update` on a dict stores every entry of the other dict and keeps the remaining entries; on anything else nothing changes |
| Dicts.MinExists | libs/core/include/xdev/variant-dict.hpp:25 | every non-empty key set of the `std::map` has a least key |
| Dicts.MinUnique | libs/core/include/xdev/variant-dict.hpp:25 | the least key is unique |
| Dicts.MinKey | libs/core/include/xdev/variant-dict.hpp:34 | iteration starts at the key that is below every other key |
| Dicts.SortedKeys | libs/core/include/xdev/variant-dict.hpp:34-37 | iteration visits every key, only keys, in strictly increasing order |
| Dicts.SortedKeysDistinct | libs/core/include/xdev/variant-dict.hpp:34-37 | iteration visits each key once |
| Dicts.Items | libs/core/include/xdev/variant-dict.hpp:34-37 | iteration yields each entry with its value, in increasing key order |
| Dicts.At | libs/core/include/xdev/variant-dict.hpp:41-48 | `at(key, rest...)` fails with out-of-range on a missing first key and yields the entry for a single present key |
| Dicts.DotAtDescends | libs/core/include/xdev/variant-dict.hpp:50-51 | `dotAt("a.b")` reads `b` inside the dict under `a`, failing when `a` is missing, not a dict, or lacks `b` |
| Dicts.DotAtPlain | libs/core/include/xdev/variant-dict.hpp:50-51 | `dotAt` of a key without dots is an ordinary lookup |
| Dicts.Contains | libs/core/include/xdev/variant-dict.hpp:59-62 | `contains(key)` holds exactly when `at(key)` would succeed |
| Dicts.DictEqual | libs/core/include/xdev/variant-dict.hpp:56 | two dicts are equal exactly when they have the same keys with equal values |
| Dicts.XDict.constructor | libs/core/include/xdev/variant-dict.hpp:27 | a new dict is empty |
| Dicts.XDict.Size | libs/core/include/xdev/variant-dict.hpp:38 | `size()` is the number of keys |
| Dicts.XDict.Index | libs/core/include/xdev/variant-dict.hpp:39 | `operator[]` yields the entry, inserting a none entry when the key was missing and changing nothing otherwise |
| Dicts.XDict.Assign | libs/core/include/xdev/variant-dict.hpp:39 | `d[key] = x` adds or replaces that entry and leaves the others |
| Dicts.XDict.Update | libs/core/include/xdev/variant-dict.hpp:54 | `update(other)` stores every entry of `other` and keeps the entries under other keys |
| Dicts.DistinctKinds | libs/core/include/xdev/variant-dict.hpp:25 | keys of different kinds are different keys: int 1 and string "1" hold separate entries |
| Lists.ListEqual | libs/core/include/xdev/xdev-variant-list.hpp:110-111 | two lists are equal exactly when they have the same length and equal elements position by position |
| Lists.XList.constructor | libs/core/include/xdev/xdev-variant-list.hpp:52 | a list built from an initializer list holds those elements in order |
| Lists.XList.Size | libs/core/include/xdev/xdev-variant-list.hpp:64 | `size()` is the number of elements |
| Lists.XList.At | libs/core/include/xdev/xdev-variant-list.hpp:65-66 | `operator[](i)` is the element reached by the integer index `i` |
| Lists.XList.Push | libs/core/include/xdev/xdev-variant-list.hpp:88-89 | `push` puts the arguments, in argument order, after the last element (Back, the default) or before the first (Front) |
| Lists.XList.Pop | libs/core/include/xdev/xdev-variant-list.hpp:85-86 | `pop(count)` removes `count` elements from the front (the default) or from the back |
| Lists.PushThenPop | libs/core/include/xdev/xdev-variant-list.hpp:85-89 | popping what was just pushed at the same end restores the list |
| Properties.MakeMetaProperty | libs/core/include/xdev/xdev-properties.hpp:50-61 | a property descriptor keeps its name, type, access and kind, with read-write and normal as defaults |
| Properties.Listener.constructor | libs/core/include/xdev/xdev-properties.hpp:106-115 | a new listener is alive and has received exactly the first value it was given |
| Properties.Listener.Release | libs/core/include/xdev/xdev-properties.hpp:94-104 | dropping the last guard destroys the listener without changing what it received |
| Properties.Property.constructor | libs/core/include/xdev/xdev-properties.hpp:159-161 | `property(v)` stores `v` with its type and access and has no listeners |
| Properties.Property.Is | libs/core/include/xdev/xdev-properties.hpp:140-143 | `is<U>()` holds exactly when `U` is the property's type |
| Properties.Property.Equals | libs/core/include/xdev/xdev-properties.hpp:174-181 | `==` compares the stored value |
| Properties.Property.Notify | libs/core/include/xdev/xdev-properties.hpp:154 | every listener still alive receives the current value once; expired ones receive nothing |
| Properties.Property.Assign | libs/core/include/xdev/xdev-properties.hpp:168 | typed assignment on a read-write property stores the value and notifies every live listener, even when the value did not change |
| Properties.Property.AssignVariant | libs/core/include/xdev/xdev-properties.hpp:162 | assignment from a variant is accepted exactly on read-write properties; a read-only one raises `IllegalAccess`, keeps its value and notifies nobody |
| Properties.Property.Listen | libs/core/include/xdev/xdev-properties.hpp:170-173 | `listen` registers a new live listener, notified once with the current value, and hands back its guard |
| Properties.ListenCounts | libs/core/tests/test-properties.cpp:46-63 | a listener on an int property assigned three times after registration has counted 1, 2, 3 and 4 notifications |
| Properties.ReleasedCount | libs/core/tests/test-properties.cpp:66-80 | a listener whose guard was dropped stays at one notification after a further assignment |
| Properties.ListenScenario | libs/core/tests/test-properties.cpp:44-81 | a listener counts 1, 2, 3, 4 notifications over three assignments; one whose guard was dropped stays at 1 |
| Properties.ReadOnlyScenario | libs/core/tests/test-properties.cpp:25-34 | a read-only property rejects a variant assignment and still holds 2 |
| Objects.StaticClass.constructor | libs/core/include/xdev/xdev-object.hpp:157-161 | a new class descriptor has its name and has counted no instance |
| Objects.StaticClass.Increment | libs/core/include/xdev/xdev-object.hpp:191-193 | `operator++` counts one more instance and returns the new count |
| Objects.ObjectName | libs/core/src/xdev-object.cpp:18 | an instance is named by its class name, `#` and its decimal instance number |
| Objects.ObjectNamesDistinct | libs/core/src/xdev-object.cpp:16-20 | different instance numbers give different object names |
| Objects.XObject.constructor | libs/core/src/xdev-object.cpp:9-14 | a freshly constructed object is named "undefined" |
| Objects.XObject.Init | libs/core/src/xdev-object.cpp:16-20 | `_init` counts the instance in its class once and names the object after the class and the new count, which it returns |
| Objects.XObject.ToString | libs/core/include/xdev/xdev-object.hpp:282-285 | `toString()` is the object name |
| Objects.TwoInstances | libs/core/src/xdev-object.cpp:16-20 | two instances of one class are numbered 1 and 2 and so get different names |
| Objects.Connection.constructor | libs/core/include/xdev/xdev-object.hpp:103-116 | a new connection is alive and has not been called |
| Objects.Connection.Drop | libs/core/include/xdev/xdev-object.hpp:107 | when the last holder lets go the connection dies, its call history unchanged |
| Objects.Event.constructor | libs/core/include/xdev/xdev-object.hpp:119 | a new event has no connections |
| Objects.Event.Connect | libs/core/include/xdev/xdev-object.hpp:124 | `connect` registers a fresh live connection and hands it to the caller |
| Objects.Event.Fire | libs/core/include/xdev/xdev-object.hpp:121-123 | firing calls every live connection once with the arguments and skips the expired ones |
| Objects.EventScenario | libs/core/tests/test-events.cpp:162-203 | a connection the caller does not keep is never called, a kept one is called, and a scoped one only while it was held |
| Registry.FirstNamed | libs/core/src/xdev-xclass.cpp:20-24 | the first registry position whose class has that name, none before it having it, or none at all |
| Registry.CountOf | libs/core/src/xdev-xclass.cpp:14-16 | the number of entries referring to a class is at most the registry size |
| Registry.Without | libs/core/src/xdev-xclass.cpp:14-16 | the entries not referring to the class, as many as the others, none referring to it |
| Registry.WithoutSnoc | libs/core/src/xdev-xclass.cpp:14-16 | filtering and counting extend entry by entry |
| Registry.FirstOf | libs/core/src/xdev-xclass.cpp:14 | the first entry referring to the class, none before it doing so |
| Registry.AfterUnRegister | libs/core/src/xdev-xclass.cpp:12-17 | `UnRegister` as written shrinks the registry by exactly one entry, however many refer to the class |
| Registry.UnRegisterSingle | libs/core/src/xdev-xclass.cpp:12-17 | with a single registration, `UnRegister` removes it and keeps the other entries in order |
| Registry.UnRegisterTwiceLeavesOne | libs/core/src/xdev-xclass.cpp:12-17 | a class registered twice is still registered once after `UnRegister` |
| Registry.UnRegisteredAll | libs/core/src/xdev-xclass.cpp:12-17 | the intended unregistration leaves no entry referring to the class and keeps all others |
| Registry.NoneLeft | libs/core/src/xdev-xclass.cpp:14-16 | a registry with no entry referring to the class counts none |
| Registry.RemoveIfStart | libs/core/src/xdev-xclass.cpp:14-16 | `remove_if` starts writing at the first entry that refers to the class, everything before it kept in place |
| Registry.RemoveIfSkip | libs/core/src/xdev-xclass.cpp:14-16 | a step over an entry that refers to the class moves nothing and keeps the loop state |
| Registry.RemoveIfKeep | libs/core/src/xdev-xclass.cpp:14-16 | a step over another entry moves it to the write position, leaves a moved-from copy behind and keeps the loop state |
| Registry.XClass.RemoveIf | libs/core/src/xdev-xclass.cpp:14-16 | `remove_if` leaves the other entries in order at the front, then what the moves left behind, and returns the position after the last kept one |
| Registry.UnRegisterDone | libs/core/src/xdev-xclass.cpp:14-16 | the final `remove_if` state followed by the one-iterator `erase` is the specified registry, whose prefix is the kept entries |
| Registry.XClass.constructor | libs/core/include/xdev/xdev-xclass.hpp:37 | the registry starts empty |
| Registry.XClass.Register | libs/core/src/xdev-xclass.cpp:7-10 | `Register` appends the entry, duplicates included |
| Registry.XClass.UnRegister | libs/core/src/xdev-xclass.cpp:12-17 | `UnRegister` leaves the kept entries in order at the front and erases one element at the position `remove_if` returned |
| Registry.XClass.Create | libs/core/src/xdev-xclass.cpp:19-26 | `Create(name)` uses the factory of the first entry with that name, or fails with "class <name> not found" |
| Registry.XClass.CreateAs | libs/core/include/xdev/xdev-xclass.hpp:40-43 | `Create<ObjectT>(name)` fails as `Create(name)` does; otherwise it gives the object that factory makes when its class derives from `ObjectT`, and null when it does not |
| Registry.XClass.Class | libs/core/src/xdev-xclass.cpp:36-43 | `Class(name)` gives the class of the first entry with that name, or fails with "class <name> not found" |
| Registry.XClass.Find | libs/core/src/xdev-xclass.cpp:20-24 | the lookup loop stops at the first entry with the name, or runs to the end |
| Registry.XClass.Classes | libs/core/src/xdev-xclass.cpp:28-34 | `Classes()` lists each entry's class, in registration order |
| Registry.WithoutPrefix | libs/core/src/xdev-xclass.cpp:14-16 | entries before the first reference are kept where they are |
| Registry.SubClassesOf | libs/core/include/xdev/xdev-xclass.hpp:45-48 | `SubClassesOf` always fails with "not implemented" |
| Resources.Lookup | libs/core/include/xdev/xdev-resources.hpp:59-66 | `get(key)` and `operator[]` succeed exactly when the key is stored, yielding its value, and fail with `out_of_range` otherwise |
| Resources.LookupString | libs/core/include/xdev/xdev-resources.hpp:48-52 | `getString` succeeds exactly on a stored string; a missing key is `out_of_range` and any other stored type is `bad_any_cast` |
| Resources.BytesToString | libs/core/include/xdev/xdev-resources.hpp:39 | the string built from a byte buffer has one character per byte, with the same code |
| Resources.AddThenLookup | libs/core/include/xdev/xdev-resources.hpp:32-35 | an added value is found under its key, other keys are unaffected, and a later add under the same key wins |
| Resources.XResources.constructor | libs/core/include/xdev/xdev-resources.hpp:72 | a new store is empty |
| Resources.XResources.Add | libs/core/include/xdev/xdev-resources.hpp:32-35 | `add(key, value)` inserts or replaces the value under the key and changes nothing else |
| Resources.XResources.AddData | libs/core/include/xdev/xdev-resources.hpp:37-40 | `add(key, {data, len})` stores the string made of exactly the first `len` bytes |
| Resources.XResources.Get | libs/core/include/xdev/xdev-resources.hpp:59-62 | `get` is the store lookup |
| Resources.XResources.GetString | libs/core/include/xdev/xdev-resources.hpp:48-52 | `getString` is the typed store lookup |
| Resources.XResources.Has | libs/core/include/xdev/xdev-resources.hpp:67-70 | `has(key)` holds exactly when `get(key)` would succeed |
| Exceptions.Compose | libs/core/src/exception.cpp:84-91 | without a cause the text is the message; with one it is the message, the "Caused by" marker and the cause's text |
| Exceptions.CStr | libs/core/src/exception.cpp:52-57 | a string read through `c_str()` is its text before the first NUL, the whole text when it holds none |
| Exceptions.CStrCuts | libs/core/src/exception.cpp:52-57 | the message `ab\0cd` is read as `ab` |
| Exceptions.ComposeSplits | libs/core/src/exception.cpp:84-91 | the composed text gives back both the message and the cause's text |
| Exceptions.XException.Default | libs/core/src/exception.cpp:38-43 | the default exception is empty, has no parent and reads "empty" |
| Exceptions.XException.FromMessage | libs/core/src/exception.cpp:45-64 | an exception built from a message is not empty, has no parent and reads the message up to its first NUL, as `c_str()` and `what()` pass it |
| Exceptions.XException.Chained | libs/core/src/exception.cpp:66-79 | a chained exception owns a parentless copy of the cause and reads its message followed by the cause's text, each cut at its first NUL |
| Exceptions.XException.Copy | libs/core/src/exception.cpp:7-13 | a copy keeps the message, the flag and the text and drops the parent |
| Exceptions.XException.Move | libs/core/src/exception.cpp:15-21 | a move takes the parent and the text; the source keeps no parent and an emptied text |
| Exceptions.XException.CopyAssign | libs/core/src/exception.cpp:23-28 | copy assignment copies the flag and the text, drops the parent and keeps the base message |
| Exceptions.XException.MoveAssign | libs/core/src/exception.cpp:30-36 | move assignment takes the parent and the text; the source keeps no parent |
| Exceptions.XException.What | libs/core/src/exception.cpp:93-95 | `what()` is the text composed at construction |
| Exceptions.XException.Empty | libs/core/include/xdev/exception.hpp:1-40 | `empty()` reports the flag set at construction |
| Exceptions.ChainScenario | libs/core/src/exception.cpp:66-91 | a three-level chain reads outermost first, and a copy keeps that text without a parent |
| Exceptions.EmptyScenario | libs/core/src/exception.cpp:38-57 | a default exception is empty and reads "empty"; one built from "oops" is not empty and reads "oops" |
| Gsl.FinalLambda.constructor | libs/core/include/xdev/gsl.hpp:11-13 | a new guard holds its function and is not cancelled |
| Gsl.FinalLambda.Moved | libs/core/include/xdev/gsl.hpp:17-21 | the move constructor takes over the function and the flag and cancels the source |
| Gsl.FinalLambda.Destroy | libs/core/include/xdev/gsl.hpp:23-25 | destruction runs the function once unless cancelled |
| Gsl.FinalLambda.Cancel | libs/core/include/xdev/gsl.hpp:27 | `cancel` sets the flag |
| Gsl.FinalLambda.CallNow | libs/core/include/xdev/gsl.hpp:29-32 | `call_now` cancels and runs the function once at once |
| Gsl.PlainGuard | libs/core/include/xdev/gsl.hpp:10-25 | a guard destroyed once calls its function exactly once |
| Gsl.CancelledGuard | libs/core/include/xdev/gsl.hpp:23-27 | a cancelled guard never calls its function |
| Gsl.EarlyGuard | libs/core/include/xdev/gsl.hpp:23-32 | a guard called early is not called again on destruction |
| Gsl.MovedGuard | libs/core/include/xdev/gsl.hpp:17-25 | moving a guard disarms the source, so the pair calls the function once |
| Gsl.FinalLambdaScenario | libs/core/include/xdev/gsl.hpp:9-37 | a plain guard runs once, a cancelled one never, an early-called one once in total, and a moved pair once in total |
| Gsl.ExactlyOneOfFailureAndSuccess | libs/core/include/xdev/gsl.hpp:57-66 | of a `failure_finally` and a `success_finally` built together and not cancelled, exactly one runs: the first when the uncaught-exception count has grown |
| Gsl.ConditionalFinalLambda.constructor | libs/core/include/xdev/gsl.hpp:42-45 | a conditional guard records the uncaught-exception count at construction and is not cancelled |
| Gsl.ConditionalFinalLambda.Moved | libs/core/include/xdev/gsl.hpp:49-55 | the move constructor takes over the function, the count and the flag and cancels the source |
| Gsl.ConditionalFinalLambda.Cancel | libs/core/include/xdev/gsl.hpp:61 | `cancel` sets the flag |
| Gsl.ConditionalFinalLambda.Destroy | libs/core/include/xdev/gsl.hpp:57-59 | destruction runs the function once exactly when not cancelled and the unwinding state matches the guard's kind |
| TemplateExpressions.OpText | libs/template/src/xdev-template-expressions.cpp:313-317 | each comparison operator is written with one or two characters |
| TemplateExpressions.TestSplit | libs/template/src/xdev-template-expressions.cpp:233-241 | a comparison match cuts the content into a shorter left operand, the operator text and a shorter right operand that concatenate back to it |
| TemplateExpressions.Lookup | libs/template/src/xdev-template-expressions.cpp:36 | `RenderFunctions.at(name)` succeeds exactly for a registered name and throws `out_of_range` otherwise |
| TemplateExpressions.PipeCalls | libs/template/src/xdev-template-expressions.cpp:43-54 | a pipe yields at most one call per segment, each naming a registered function |
| TemplateExpressions.NewTemplate | libs/template/src/xdev-template-expressions.cpp:27-60 | a successfully built template expression keeps its content |
| TemplateExpressions.Load | libs/template/src/xdev-template-expressions.cpp:14-21 | `Load` keeps the content and builds a comparison exactly when the content matches the operator pattern |
| TemplateExpressions.LoadPlainVariable | libs/template/src/xdev-template-expressions.cpp:56-59 | content matching neither the call nor the pipe form is read as a bare variable with no calls |
| TemplateExpressions.LoadFunctionForm | libs/template/src/xdev-template-expressions.cpp:34-37 | the call form gives one call with the trimmed non-empty arguments and no base variable, or `out_of_range` for an unregistered name |
| TemplateExpressions.PipeOfNames | libs/template/src/xdev-template-expressions.cpp:43-54 | a pipe of bare registered names gives one argument-less call per segment, in order |
| TemplateExpressions.BaseValue | libs/template/src/xdev-template-expressions.cpp:66-79 | an empty base is none; a base in the context yields that entry; one neither in the context nor valid JSON fails with "Undefined variable" |
| TemplateExpressions.ArgValue | libs/template/src/xdev-template-expressions.cpp:87-112 | a quoted argument is its text; an argument that is neither quoted, a number nor in the context fails with "Undefined variable" |
| TemplateExpressions.ArgValues | libs/template/src/xdev-template-expressions.cpp:87-113 | successful argument evaluation yields one value per argument |
| TemplateExpressions.StringFunctions | libs/template/src/xdev-template-expressions.cpp:134-152 | `upper` and `lower` case-convert their string and keep its length; `replace` substitutes every occurrence |
| TemplateExpressions.LengthFunction | libs/template/src/xdev-template-expressions.cpp:154-168 | `length` counts dict entries, list elements or characters and throws "Cannot apply 'length' to " for anything else |
| TemplateExpressions.EvalCallsConcat | libs/template/src/xdev-template-expressions.cpp:80-115 | a pipe is a composition: evaluating `p + q` is evaluating `q` on the result of `p` |
| TemplateExpressions.CompareConsistent | libs/template/src/xdev-template-expressions.cpp:287-309 | the six operators agree with one another as on numbers: exactly one of `<`, `==`, `>` holds |
| TemplateExpressions.TestValues | libs/template/src/xdev-template-expressions.cpp:248-285 | a none, list or dict right side compares false, a function throws, and a scalar compares with the left side of the same kind |
| TemplateExpressions.Eval | libs/template/src/xdev-template-expressions.cpp:243-246 | a comparison evaluates to a bool |
| TemplateExpressions.ArgsFromStep | libs/template/src/xdev-template-expressions.cpp:87-113 | the argument loop stops at the first failing argument and otherwise pushes its value |
| TemplateExpressions.EvalCallsStep | libs/template/src/xdev-template-expressions.cpp:80-115 | each call receives the previous result first (when not empty), then its own arguments |
| TemplateExpressions.CollectArgs | libs/template/src/xdev-template-expressions.cpp:82-113 | the argument loop appends each argument's value after the piped result and stops at the first undefined variable |
| TemplateExpressions.EvalTemplate | libs/template/src/xdev-template-expressions.cpp:64-117 | the loop-based `eval` computes the specified evaluation |
| TemplateExpressions.CallsFromStep | libs/template/src/xdev-template-expressions.cpp:44-54 | each segment pushes its call, nothing for an empty name, or aborts on an unknown name |
| TemplateExpressions.CallsFromEnds | libs/template/src/xdev-template-expressions.cpp:43-54 | the segment loop starts empty and ends with what it collected |
| TemplateExpressions.PushPipeCalls | libs/template/src/xdev-template-expressions.cpp:43-54 | the pipe loop collects exactly the specified calls |
| TemplateExpressions.MakeTemplate | libs/template/src/xdev-template-expressions.cpp:27-60 | the constructor builds exactly the specified expression |
| TemplateScan.Get | libs/template/include/xdev/xdev-template-blocks.hpp:139-142 | `get(input, bounds)` yields the characters of the range exactly when it lies inside the input, as many as its size; any other range is undefined behaviour |
| TemplateScan.FreshIsNotSet | libs/template/include/xdev/xdev-template-blocks.hpp:149-171 | a freshly reset match is not set, and setting its content alone does not set it |
| TemplateScan.FirstCommand | libs/template/src/template-blocks.cpp:104-114 | the first command, in list order, that the input holds at the command position, none before it matching, or -1 |
| TemplateScan.TagShape | libs/template/src/template-blocks.cpp:103-111 | inside `{% ... %}` the first and last non-space searches land within the tag |
| TemplateScan.ScanPass | libs/template/src/template-blocks.cpp:94-115 | one pass of the loop never moves backwards; a pass that goes on moves strictly forward, and a found index is a valid command |
| TemplateScan.Delimit | libs/template/src/template-blocks.cpp:96-114 | once `{%` is found, the pass stops at a missing `%}` without moving, and otherwise ends past the `%}` with a valid command index when one is found |
| TemplateScan.Classify | libs/template/src/template-blocks.cpp:104-114 | classifying a delimited tag keeps its delimiters and either finds a command or moves on |
| TemplateScan.PassFinds | libs/template/src/template-blocks.cpp:94-113 | a pass that finds a command stops at a well-formed tag after the offset whose first word is that command and no earlier one |
| TemplateScan.PassStops | libs/template/src/template-blocks.cpp:94-101 | a pass gives up only when there is no further `{%`, or no `%}` after it |
| TemplateScan.PassAtTag | libs/template/src/template-blocks.cpp:94-115 | a pass from a terminated tag never gives up and moves past it |
| TemplateScan.Scan | libs/template/src/template-blocks.cpp:91-117 | the scan returns -1 or a command index and ends inside the input, never before where it started |
| TemplateScan.ScanFinds | libs/template/src/template-blocks.cpp:91-117 | a scan that returns an index stops at a well-formed tag whose first word is that command and no earlier one |
| TemplateScan.ScanExhausts | libs/template/src/template-blocks.cpp:91-117 | a scan that returns -1 left no terminated tag behind it |
| TemplateScan.NextBlockMovesOn | libs/template/src/template-blocks.cpp:91-117 | from a terminated tag the scan always moves past the offset, so the callers' loops progress |
| TemplateScan.NextBlockFound | libs/template/src/template-blocks.cpp:91-117 | a found tag lies inside the input at or after the offset and holds the command |
| TemplateScan.GetContent | libs/template/src/template-blocks.cpp:157-160 | `GetContent` is the text between the end of one tag and the start of the next, defined exactly when those are in order inside the input |
| TemplateScan.NextBlockOf | libs/template/src/template-blocks.cpp:91-117 | `NextBlockOf` computes the specified scan |
| TemplateScan.OnePass | libs/template/src/template-blocks.cpp:94-115 | one loop round computes the specified pass |
| TemplateScan.TryCommands | libs/template/src/template-blocks.cpp:104-114 | the command loop computes the specified classification |
| TemplateBlocks.RenderText | libs/template/src/template-blocks.cpp:49-58 | a render block succeeds exactly when its expression evaluates; an exception escapes as a template Error naming the expression, while a never-ending loop, undefined behaviour or a stack overflow, which `catch (const exception&)` cannot see, passes through unchanged |
| TemplateBlocks.Process | libs/template/src/template-blocks.cpp:49-58 | a text block renders its text, and no expression Error ever escapes a block |
| TemplateBlocks.ProcessList | libs/template/include/xdev/xdev-template-blocks.hpp:40-48 | no expression Error escapes a block list |
| TemplateBlocks.IfFrom | libs/template/src/template-blocks.cpp:344-360 | an expression Error in a branch is swallowed and the next branch is tried |
| TemplateBlocks.DictBinding | libs/template/src/template-blocks.cpp:441-449 | a dict entry binds the key under the first name and the value under the second, or the value alone under the only name; every other context entry stays |
| TemplateBlocks.ListBinding | libs/template/src/template-blocks.cpp:463-471 | a list item binds the item under its name and `loop` with size, index and last; every other context entry stays |
| TemplateBlocks.ForDict | libs/template/src/template-blocks.cpp:439-451 | no expression Error escapes the dict loop |
| TemplateBlocks.ForList | libs/template/src/template-blocks.cpp:467-474 | no expression Error escapes the list loop |
| TemplateBlocks.ForProcess | libs/template/src/template-blocks.cpp:414-482 | a missing iterable is "Undefined variable", a dict with more than two names and a list with other than one name raise their errors, and any other value renders "" |
| TemplateBlocks.RenderRoot | libs/template/include/xdev/xdev-template-blocks.hpp:72-74 | rendering needs a dict context (anything else is a bad cast) and renders the root's blocks in it |
| TemplateBlocks.ProcessListConcat | libs/template/include/xdev/xdev-template-blocks.hpp:40-48 | a list renders as its two halves one after the other, the first failure winning |
| TemplateBlocks.TextsRenderVerbatim | libs/template/include/xdev/xdev-template-blocks.hpp:83-97 | a list of text blocks renders as the texts joined, whatever the context |
| TemplateBlocks.IfRendersFirstSelected | libs/template/src/template-blocks.cpp:342-363 | the first branch whose condition selects renders, after branches that skip |
| TemplateBlocks.IfRendersOtherwise | libs/template/src/template-blocks.cpp:342-363 | when every branch skips, the else children render ("" when there is no else) |
| TemplateBlocks.IfFromSkips | libs/template/src/template-blocks.cpp:344-360 | skipping branches changes nothing in the outcome |
| TemplateBlocks.DictBindingTwice | libs/template/src/template-blocks.cpp:441-449 | binding a later entry overwrites what the earlier one bound, so each entry renders in the caller's context plus its own binding |
| TemplateBlocks.ForDictIsEachEntry | libs/template/src/template-blocks.cpp:439-451 | the dict loop with a shared, mutated context renders each entry as if in a fresh copy |
| TemplateBlocks.ForOverDict | libs/template/src/template-blocks.cpp:425-452 | a dict loop renders the children once per entry, in key order, each in the caller's context plus that entry's binding |
| TemplateBlocks.ForStartsDict | libs/template/src/template-blocks.cpp:425-438 | a dict loop starts from the first entry with the trimmed names |
| TemplateBlocks.ListBindingTwice | libs/template/src/template-blocks.cpp:467-471 | binding a later item overwrites the earlier one's binding |
| TemplateBlocks.ForListStep | libs/template/src/template-blocks.cpp:467-474 | one round of the list loop renders the children with the item bound |
| TemplateBlocks.ForListIsEachItem | libs/template/src/template-blocks.cpp:467-474 | the list loop with a shared, mutated context renders each item as if in a fresh copy |
| TemplateBlocks.ForOverList | libs/template/src/template-blocks.cpp:453-475 | a list loop renders the children once per item, in list order, with `loop` and the item bound |
| TemplateBlocks.ForListFromStart | libs/template/src/template-blocks.cpp:461-474 | the list loop from the first item is the per-item rendering |
| TemplateBlocks.ForStartsList | libs/template/src/template-blocks.cpp:453-462 | a list loop starts from the first item with the trimmed name |
| TemplateBlocks.ListFromStep | libs/template/include/xdev/xdev-template-blocks.hpp:43-46 | each round appends the block's output or stops at its failure |
| TemplateBlocks.ListFromEnds | libs/template/include/xdev/xdev-template-blocks.hpp:40-48 | the block loop starts empty and ends with what it accumulated |
| TemplateBlocks.ProcessBlocks | libs/template/include/xdev/xdev-template-blocks.hpp:40-48 | the loop concatenates the outputs of the blocks in order |
| TemplateBlocks.ProcessIf | libs/template/src/template-blocks.cpp:342-363 | the branch loop computes the specified `if` rendering |
| TemplateBlocks.ProcessFor | libs/template/src/template-blocks.cpp:414-482 | the `for` rendering on a copy of the context computes the specified result |
| TemplateBlocks.ForEachEntry | libs/template/src/template-blocks.cpp:439-451 | the dict loop computes the specified dict rendering |
| TemplateBlocks.ForEachItem | libs/template/src/template-blocks.cpp:461-474 | the list loop computes the specified list rendering |
| TemplateLoad.TilesGap | libs/template/src/template-blocks.cpp:207-222 | the text between the previous block and the next one extends a tiling of the input without adding an `extends` |
| TemplateLoad.BlocksOf | libs/template/src/template-blocks.cpp:249-252 | the block list keeps every block but the `extends` marker, so a template without one keeps all its pieces |
| TemplateLoad.RenderTryLoad | libs/template/src/template-blocks.cpp:63-82 | a block is found exactly when `{{` at the offset has a later `}}`; the block holds the trimmed text between them and loading resumes past the `}}` |
| TemplateLoad.ControlTryLoad | libs/template/src/template-blocks.cpp:119-155 | no block exactly when there is no `{% … %}` at the offset; otherwise the block is the one its trimmed tag text names, and an unknown tag fails with "unknown control block: " and the tag text |
| TemplateLoad.Construct | libs/template/src/template-blocks.cpp:133-149 | the constructor chosen by the tag's first word builds a matching block ending after the tag; an unknown word is the "unknown control block" error |
| TemplateLoad.IfCtor | libs/template/src/template-blocks.cpp:260-340 | a loaded `if` is an If block and loading resumes strictly after its opening tag |
| TemplateLoad.IfLoop | libs/template/src/template-blocks.cpp:260-337 | the nesting loop ends past its start with every opened `if` closed |
| TemplateLoad.IfStep | libs/template/src/template-blocks.cpp:265-337 | each pass moves strictly forward; no tag left is "endif missing"; only an `endif` lowers the level |
| TemplateLoad.IfTag | libs/template/src/template-blocks.cpp:287-337 | a pass continues from the tag it met, and only an `endif` closes a level |
| TemplateLoad.BranchContent | libs/template/src/template-blocks.cpp:267-274 | a branch with no opening tag is "if missing"; otherwise its content is exactly the text between the opening tag and the current one |
| TemplateLoad.NewBranch | libs/template/src/template-blocks.cpp:274-277 | a branch's condition is the trimmed text of its opening tag |
| TemplateLoad.ForLoop | libs/template/src/template-blocks.cpp:375-397 | the nesting loop closes every opened `for`, and the `endfor` it remembers is an `endfor` tag after its start |
| TemplateLoad.ForStep | libs/template/src/template-blocks.cpp:376-396 | each pass moves strictly forward and any `endfor` it remembers is a real `endfor` tag |
| TemplateLoad.ForTag | libs/template/src/template-blocks.cpp:379-392 | only an `endfor` tag replaces the remembered `endfor` |
| TemplateLoad.ForCtor | libs/template/src/template-blocks.cpp:369-412 | a loaded `for` resumes just after an `endfor` tag; its keys are the non-empty comma-separated names before `in` and its iterated variable the name after it |
| TemplateLoad.NamedLoop | libs/template/src/template-blocks.cpp:501-517 | the loop ends no earlier than the first tag it meets |
| TemplateLoad.NamedCtor | libs/template/src/template-blocks.cpp:488-520 | a tag without a name is "Failed to extract block block"; otherwise the block carries that name, no super block, and loading resumes after the tag |
| TemplateLoad.ExtendCtor | libs/template/src/template-blocks.cpp:551-565 | the error "Failed to extract extends block" exactly when the tag names no parent; otherwise an `extends` marker for that key |
| TemplateLoad.Tree | libs/template/src/template-blocks.cpp:193-254 | a successful load tiles the whole input with its pieces and holds an `extends` exactly when it reports a parent |
| TemplateLoad.Advance | libs/template/src/template-blocks.cpp:214-246 | a second `extends` is "Multiple extends not allowed"; otherwise the tiling and the parent bookkeeping are kept |
| TemplateLoad.FirstNamed | libs/template/src/template-blocks.cpp:567-580 | the result is the first named block with the id, and there is none exactly when no block has it |
| TemplateLoad.Override | libs/template/src/template-blocks.cpp:597-617 | a parent block overridden by the child takes the child's block of the same id with the parent block as super; any other block is kept |
| TemplateLoad.Replaced | libs/template/src/template-blocks.cpp:592-617 | the parent list keeps its length and each entry is overridden in place |
| TemplateLoad.ExtendedCases | libs/template/src/template-blocks.cpp:582-619 | without resources (the `nullptr` default of `RootBlock::Compile`) the parent lookup is undefined behaviour; a missing parent is an out-of-range error, a parent of another type a bad cast, and a compiled parent yields its list with the child's named blocks overriding |
| TemplateLoad.TilesAreVerbatim | libs/template/src/template-blocks.cpp:207-222 | every text block is a non-empty verbatim run of the input, and the pieces follow each other without gaps from the start |
| TemplateLoad.TreeRunsOut | libs/template/src/template-blocks.cpp:206-212 | with no `{` left the load ends with the rest of the input as one text block |
| TemplateLoad.PlainTextVerbatim | libs/template/src/template-blocks.cpp:193-212 | a template without `{` loads as one text block holding all of it |
| TemplateLoad.ForStepMissingEnd | libs/template/src/template-blocks.cpp:373-396 | with no `endfor` left a pass either reports "endfor missing" or opens another level |
| TemplateLoad.ForLoopMissingEnd | libs/template/src/template-blocks.cpp:373-396 | with no `endfor` left the loop fails with "endfor missing" |
| TemplateLoad.ForMissingEnd | libs/template/src/template-blocks.cpp:369-412 | a `for` with no `endfor` after it fails to load with "endfor missing" |
| TemplateLoad.IfStepMissingEnd | libs/template/src/template-blocks.cpp:265-337 | inside an open `if` with no `endif` left a pass fails or keeps the `if` open |
| TemplateLoad.IfLoopMissingEnd | libs/template/src/template-blocks.cpp:260-337 | inside an open `if` with no `endif` left the loop fails |
| TemplateLoad.IfMissingEnd | libs/template/src/template-blocks.cpp:260-340 | an `if` with no `endif` after it fails to load |
| TemplateCompile.Pushed | libs/template/src/template-blocks.cpp:214-246 | a block loaded at a `{` goes after the text since the previous block: the tiling reaches the block's end, and the list gains that text (when non-empty) and the block, an `extends` marker excepted |
| TemplateCompile.Found | libs/template/src/template-blocks.cpp:214-245 | a block found at a `{` is a non-text block ending after it, and a render block wins when `{{` is there |
| TemplateCompile.TreeFound | libs/template/src/template-blocks.cpp:205-247 | at a `{` the load stops on a failed `TryLoad`, moves one past the `{` when no block starts there, and otherwise takes the block |
| TemplateCompile.Stopped | libs/template/src/template-blocks.cpp:214-240 | a failing `TryLoad` makes the whole load fail with its error, and a second `extends` makes it fail with "Multiple extends not allowed" |
| TemplateCompile.Complete | libs/template/src/template-blocks.cpp:249-253 | a failed scan stays failed, and without an `extends` the result is the scanned block list |
| TemplateCompile.Whole | libs/template/src/template-blocks.cpp:193-254 | the loaded template is what the scan from offset 0 gives, completed by the `extends` step |
| TemplateCompile.LoadTree | libs/template/src/template-blocks.cpp:193-254 | the loop computes exactly the load specified by the tiling functions, whose properties are the lemmas of `TemplateLoad` |
| TemplateCompile.LoadPass | libs/template/src/template-blocks.cpp:203-247 | a pass either stops with the error of the whole load or keeps the loop invariant and makes progress (the offset grows, or the search start moves right) |
| TemplateCompile.LoadAt | libs/template/src/template-blocks.cpp:214-246 | the part of a pass after a `{` was found stops with the whole load's error or keeps the invariant, moving past the block or one past the `{` |
| TemplateCompile.Push | libs/template/src/template-blocks.cpp:223-245 | pushing a loaded block keeps the loop invariant at the block's end |
| TemplateCompile.TryLoadAt | libs/template/src/template-blocks.cpp:214-240 | the two `TryLoad` calls give the block specified by `Found` |
| TemplateCompile.TryLoadControl | libs/template/src/template-blocks.cpp:119-155 | computes the control block specified by `ControlTryLoad` |
| TemplateCompile.NewIf | libs/template/src/template-blocks.cpp:260-340 | the constructor's loop computes the `if` block specified by `IfCtor` |
| TemplateCompile.IfPass | libs/template/src/template-blocks.cpp:282-338 | one pass of the loop is the step specified by `IfStep` |
| TemplateCompile.OnIfTag | libs/template/src/template-blocks.cpp:287-337 | the branches on the tag found are those specified by `IfTag` |
| TemplateCompile.LoadBranch | libs/template/src/template-blocks.cpp:267-279 | `push_if_children` builds the branch specified by `NewBranch` |
| TemplateCompile.NewFor | libs/template/src/template-blocks.cpp:369-412 | the constructor's loop computes the `for` block specified by `ForCtor` |
| TemplateCompile.ForPass | libs/template/src/template-blocks.cpp:375-397 | one pass of the loop is the step specified by `ForStep` |
| TemplateCompile.OnForTag | libs/template/src/template-blocks.cpp:379-392 | the branches on the tag found are those specified by `ForTag` |
| TemplateCompile.NamedPass | libs/template/src/template-blocks.cpp:501-517 | a pass never moves backwards, makes progress while the loop goes on, and continuing from its result gives the loop specified by `NamedLoop` |
| TemplateCompile.NewNamed | libs/template/src/template-blocks.cpp:488-520 | the constructor computes the named block specified by `NamedCtor` |
| TemplateCompile.FindChild | libs/template/src/template-blocks.cpp:567-580 | the search returns the first named block of the child list with the id, as `FirstNamed` specifies |
| TemplateCompile.Extend | libs/template/src/template-blocks.cpp:582-619 | fetching the parent and overriding its blocks computes the list specified by `Extended` |
| TemplateCompile.CompileParent | libs/template/src/template-blocks.cpp:589-591 | a parent held as source text is compiled with the same resources, one level deeper, as `TreeLoad` specifies |
| TemplateCompile.FetchParent | libs/template/src/template-blocks.cpp:586-591 | a null resources pointer is undefined behaviour; otherwise the parent list is the stored compiled template, or the stored source compiled with the same resources, as `ParentOf` specifies |
| TemplateCompile.OverrideAll | libs/template/src/template-blocks.cpp:592-617 | every parent block is replaced by the first child block with its id (whose super becomes the parent block) and kept otherwise, in order, as `Replaced` specifies |
| CttTokens.Minus | libs/ctt/include/xdev/ctt/tokenizer.hpp:41 | `size - k` on `size_t` is the difference when it is non-negative and wraps modulo 2^64 below zero |
| CttTokens.OpenersAreStartToks | libs/ctt/include/xdev/ctt/tokenizer.hpp:21-36 | a position opens a token exactly when the two characters there are the `start_tok` of one of the three kinds |
| CttTokens.ClosersAreEndToks | libs/ctt/include/xdev/ctt/tokenizer.hpp:21-36 | a position closes a token exactly when the two characters there are the `end_tok` of one of the kinds |
| CttTokens.MatchStart | libs/ctt/include/xdev/ctt/tokenizer.hpp:39-46 | a match exactly when `pos` is before the last character and an opener is there, and the match is `pos` itself |
| CttTokens.MatchEnd | libs/ctt/include/xdev/ctt/tokenizer.hpp:47-56 | a read past the buffer exactly when `pos` is the last character and it could begin a closer; otherwise a token exactly when a closer is at `pos`, ending at `pos + 1` with the closer's kind |
| CttTokens.NextStart | libs/ctt/include/xdev/ctt/tokenizer.hpp:58-69 | the first opener at or after `pos`, with none skipped; nothing exactly when no opener follows |
| CttTokens.NextEnd | libs/ctt/include/xdev/ctt/tokenizer.hpp:71-82 | the first closer at or after `pos`, as a token of its kind opened at `start`, with none skipped; nothing when none follows; the read past the buffer only when no closer precedes it |
| CttTokens.NextToken | libs/ctt/include/xdev/ctt/tokenizer.hpp:84-97 | a token found is an opener followed by its first closer; nothing when past `size - 2` or no opener is left; "unterminated token" only when an opener is left |
| CttTokens.ParseFrom | libs/ctt/include/xdev/ctt/tokenizer.hpp:99-114 | each step only appends to the tokens found so far |
| CttTokens.Content | libs/ctt/include/xdev/ctt/tokenizer.hpp:19 | the content exists exactly when the closer does not overlap the opener, and has the length between the delimiters |
| CttTokens.PrefixExtend | libs/ctt/include/xdev/ctt/tokenizer.hpp:99-110 | appending the token the search found keeps the tokens ordered, each search resuming at the previous token's end |
| CttTokens.PrefixDone | libs/ctt/include/xdev/ctt/tokenizer.hpp:101-113 | when the search finds nothing more, the tokens found are the whole tokenization |
| CttTokens.ParseFromSound | libs/ctt/include/xdev/ctt/tokenizer.hpp:99-114 | every successful run of the recursion yields a tokenization of the input |
| CttTokens.ParseTokensSound | libs/ctt/include/xdev/ctt/tokenizer.hpp:116-119 | `parse_tokens` yields tokens in increasing order, each an opener and the first closer after it, skipping no opener |
| CttTokens.TokensOrdered | libs/ctt/include/xdev/ctt/tokenizer.hpp:99-114 | tokens never overlap: each starts at or after the end of every earlier one |
| CttTokens.KindIsCloser | libs/ctt/include/xdev/ctt/tokenizer.hpp:47-56 | the kind of a token is that of its closer: `{{ x %}` is a control token |
| CttTokens.UnterminatedRejected | libs/ctt/include/xdev/ctt/tokenizer.hpp:92 | an opener with no closer after it is the "unterminated token" error |
| CttTokens.NextStartSkips | libs/ctt/include/xdev/ctt/tokenizer.hpp:58-69 | the search for an opener passes every position without a `{` and stops at the first opener |
| CttTokens.NextStartNone | libs/ctt/include/xdev/ctt/tokenizer.hpp:58-69 | with no `{` left the search for an opener finds nothing |
| CttTokens.NextEndSkips | libs/ctt/include/xdev/ctt/tokenizer.hpp:71-82 | the search for a closer passes every position that closes nothing and ends the token at the first closer, with its kind |
| CttEvaluator.ViewOf | libs/ctt/include/xdev/ctt/evaluator.hpp:26 | the view is a trimmed part of `input[begin, end)`, never longer than it |
| CttEvaluator.EvaluatorOf | libs/ctt/include/xdev/ctt/evaluator.hpp:44-51 | an evaluator exactly when the trimmed view is made of word characters and dots, and it evaluates that view |
| CttEvaluator.Apply | libs/ctt/include/xdev/ctt/evaluator.hpp:28-31 | a view without a dot yields the context's entry for it; a missing key is the lookup's failure, which cannot leave the `noexcept` operator and so ends in `std::terminate` |
| CttEvaluator.ViewTrimmed | libs/ctt/include/xdev/ctt/evaluator.hpp:26 | the view never starts or ends with the default whitespace |
| CttEvaluator.HelloWorld | libs/ctt/include/xdev/ctt/evaluator.hpp:44-51 | the evaluator of `hello` applied to a context mapping it to "world" gives "world" |
| CttControls.Tail | libs/ctt/include/xdev/ctt/blocks.hpp:73 | the closing `\s?(-?)` must reach the end of the content, and reports a trim marker exactly when the content ends with `-` |
| CttControls.ForTag | libs/ctt/include/xdev/ctt/blocks.hpp:71-85 | a matched `for` tag names a word as loop variable and a word as container, with trim-before exactly when the content starts with `-` and trim-after exactly when it ends with one |
| CttControls.ForIter | libs/ctt/include/xdev/ctt/blocks.hpp:73 | the `\s+(\w+)\s+in` part yields a word as loop variable and keeps the trim-after rule |
| CttControls.ForContainer | libs/ctt/include/xdev/ctt/blocks.hpp:73 | the `\s+(\w+)\s?(-?)` part yields a word as container, keeping the loop variable already read |
| CttControls.EndforTag | libs/ctt/include/xdev/ctt/blocks.hpp:88-98 | a matched `endfor` tag is at least six characters, and each trim marker holds exactly when the content starts, or ends, with `-` |
| CttControls.WordEndSkipsWord | libs/ctt/include/xdev/ctt/blocks.hpp:73 | what the `\w+` scan skips is a word |
| CttControls.ForTagRoundTrip | libs/ctt/include/xdev/ctt/blocks.hpp:71-85 | every `for` head with word names is read back from its canonical tag text |
| CttControls.EndforTagRoundTrip | libs/ctt/include/xdev/ctt/blocks.hpp:88-98 | every pair of `endfor` trim markers is read back from its canonical tag text |
| CttControls.TagsExclusive | libs/ctt/include/xdev/ctt/blocks.hpp:174-190 | no tag content is both a `for` and an `endfor`, so the order in which the generator tries them does not matter |
| CttBlocks.TextOf | libs/ctt/include/xdev/ctt/blocks.hpp:112-131 | a text block covers exactly the slice `[start, end)` it was given |
| CttBlocks.PushText | libs/ctt/include/xdev/ctt/blocks.hpp:141-160 | `push_text` either leaves the output alone or appends one text block to it |
| CttBlocks.Generate | libs/ctt/include/xdev/ctt/blocks.hpp:165-199 | a successful generation only appends to the output, and the token it stops at lies between its start and the end of the token list |
| CttBlocks.GenerateRender | libs/ctt/include/xdev/ctt/blocks.hpp:170-173 | a render token appends to the output and moves on past the token |
| CttBlocks.GenerateControl | libs/ctt/include/xdev/ctt/blocks.hpp:174-190 | a control token only appends to the output and never moves backwards |
| CttBlocks.GenerateFor | libs/ctt/include/xdev/ctt/blocks.hpp:71-85 | a `for` tag only appends to the output and moves strictly past the tag |
| CttBlocks.Compile | libs/ctt/include/xdev/ctt/blocks.hpp:201-204 | a template whose tokenization fails does not compile, and one without any token fails reading the token before index 0 |
| CttBlocks.TextTrims | libs/ctt/include/xdev/ctt/blocks.hpp:112-125 | a trim flag removes only `\r\n` characters, and only on the side it names |
| CttBlocks.TokensApart | libs/ctt/include/xdev/ctt/blocks.hpp:141-160 | two consecutive tokens never share a character |
| CttBlocks.PushTextJoins | libs/ctt/include/xdev/ctt/blocks.hpp:151-158 | without trimming, the text before a token joins what came before it up to the token, losing nothing |
| CttBlocks.RenderStep | libs/ctt/include/xdev/ctt/blocks.hpp:170-173 | one render token splices the text before it and the token itself onto the output |
| CttBlocks.FinalStep | libs/ctt/include/xdev/ctt/blocks.hpp:194-198 | after the last token the final text completes the template |
| CttBlocks.RenderBadRange | libs/ctt/include/xdev/ctt/tokenizer.hpp:19 | a render token too short to hold content fails |
| CttBlocks.RenderNoEvaluator | libs/ctt/include/xdev/ctt/blocks.hpp:100-110 | a render token whose content no evaluator accepts fails |
| CttBlocks.RenderNext | libs/ctt/include/xdev/ctt/blocks.hpp:170-173 | a render token with an evaluator pushes the text before it and its block, then goes on from the next token |
| CttBlocks.RenderOnlyTilesFrom | libs/ctt/include/xdev/ctt/blocks.hpp:165-199 | from any point, a template made only of text and render tokens is spelled out again by the rest of the blocks |
| CttBlocks.RenderOnlyTiles | libs/ctt/include/xdev/ctt/blocks.hpp:201-204 | a template made only of text and render tokens compiles to blocks that spell the whole template, every character in exactly one block, in order |
| CttBlocks.ParserTextStopsShort | libs/ctt/include/xdev/ctt/parser.hpp:264-266 | the older generator ends the text between two tokens one character before the next token |
| CttBlocks.ExampleTokens | libs/ctt/include/xdev/ctt/tokenizer.hpp:116-119 | `{{a}}XY{{b}}` has two render tokens, at [0, 4] and [7, 11] |
| CttBlocks.ExampleBlocks | libs/ctt/include/xdev/ctt/blocks.hpp:165-199 | `{{a}}XY{{b}}` compiles to a render block, the text between the tokens, a render block and an empty final text, the text ending one character early with the older generator |
| CttBlocks.ParserDropsText | libs/ctt/include/xdev/ctt/parser.hpp:253-272 | with the older generator `{{a}}XY{{b}}` compiles to blocks that spell `{{a}}X{{b}}`; the generator in use keeps the `Y` |
| CttBlocks.StopsAtEndfor | libs/ctt/include/xdev/ctt/blocks.hpp:184-187 | a generation stops short of the last token only at an `endfor` tag |
| CttBlocks.MissingEndforRejected | libs/ctt/include/xdev/ctt/blocks.hpp:81-83 | a `for` tag whose body runs to the end of the template has no `endfor` and fails to compile |
| CttRender.ThenStep | libs/ctt/include/xdev/ctt.hpp:15-19 | appending a piece and then the rest is appending both at once, and an exception in the piece ends the output |
| CttRender.Elements | libs/ctt/include/xdev/ctt/blocks.hpp:42-58 | only a dict or a list is iterable; a list gives its elements in order, a dict its values in key order |
| CttRender.Bind | libs/ctt/include/xdev/ctt/blocks.hpp:40-50 | the iteration context binds the loop name to the element and keeps every other entry of the context |
| CttRender.ProcessInto | libs/ctt/include/xdev/ctt/blocks.hpp:37-109 | a block appends its output to what was written so far; a for over a missing or non-iterable container ends the render with its exception, and a render block whose key is missing ends the process through `std::terminate` |
| CttRender.ForInto | libs/ctt/include/xdev/ctt/blocks.hpp:44-55 | the loop appends the body's output once per element, each time with the loop name bound to it |
| CttRender.ProcessEach | libs/ctt/include/xdev/ctt.hpp:17 | the blocks of a list append their outputs in turn |
| CttRender.Render | libs/ctt/include/xdev/ctt.hpp:15-19 | the render is the output of every block, from an empty string |
| CttRender.ThenAssoc | libs/ctt/include/xdev/ctt.hpp:15-19 | the first exception wins however the outputs are grouped |
| CttRender.ProcessAllConcat | libs/ctt/include/xdev/ctt.hpp:15-19 | two block lists one after the other render as the first list's output followed by the second's, and an exception in the first leaves the second unrendered |
| CttRender.FirstErrorWins | libs/ctt/include/xdev/ctt.hpp:15-19 | a block that throws ends the render with its exception, whatever follows it |
| CttRender.TextOnlyRenders | libs/ctt/include/xdev/ctt/blocks.hpp:126-130 | text blocks render as their bodies in order, whatever the context |
| CttRender.ForEachText | libs/ctt/include/xdev/ctt/blocks.hpp:44-55 | a body of text is written once per element |
| CttRender.MissingKeyTerminates | libs/ctt/include/xdev/ctt/blocks.hpp:106-109 | a render block whose plain key is missing from the context ends the render in `std::terminate`, whatever blocks follow |
| CttRender.ForDispatch | libs/ctt/include/xdev/ctt/blocks.hpp:37-61 | a missing container escapes as the lookup failure, a container neither dict nor list as "no iterable type"; a list renders the body once per element and a dict once per value, in key order |
| CttRender.ForOverText | libs/ctt/include/xdev/ctt/blocks.hpp:37-61 | a for over a list with a text body writes the body once per element |
| CttRender.ThreeBlocks | libs/ctt/include/xdev/ctt.hpp:15-19 | three blocks that render are rendered one after the other |
| CttRender.ForEachOne | libs/ctt/include/xdev/ctt/blocks.hpp:44-58 | a loop over a non-empty list writes the first element's pass, then the rest |
| CttRender.ThreePasses | libs/ctt/include/xdev/ctt/blocks.hpp:44-55 | three iterations that render write their outputs in element order |
| CttRender.LoopBodyRenders | libs/ctt/tests/test-basic.cpp:36 | one pass of the loop body the test template compiles to (see CttLoop.LoopCompiles) writes the bound element between " pre " and " post" |
| CttRender.LoopOverList | libs/ctt/tests/test-basic.cpp:31-44 | the test template over the list [1, 2, 3] renders as "head pre 1 post pre 2 post pre 3 post tail" |
| CttLoop.LoopTokens | libs/ctt/include/xdev/ctt/tokenizer.hpp:116-119 | the test template tokenizes to its `for` tag [5, 30], its render tag [37, 47] and its `endfor` tag [54, 67], in that order |
| CttLoop.ForHeadParses | libs/ctt/include/xdev/ctt/blocks.hpp:71-85 | the content of the test's `for` tag reads as `value` over `input` with both trim markers |
| CttLoop.ValueEvaluator | libs/ctt/include/xdev/ctt/evaluator.hpp:44-51 | the render tag's content ` value ` is trimmed to the value evaluator of `value` |
| CttLoop.Texts | libs/ctt/include/xdev/ctt/blocks.hpp:112-131 | the four texts of the test template, with the line break next to each `-` marker removed |
| CttLoop.BodyBlocks | libs/ctt/include/xdev/ctt/blocks.hpp:165-199 | the body generated after the `for` tag is the loop body, stopped at the `endfor` tag with its trailing trim |
| CttLoop.LoopBlocks | libs/ctt/include/xdev/ctt/blocks.hpp:165-199 | the generation of the test template's tokens yields "head", the for block and " tail" |
| CttLoop.LoopCompiles | libs/ctt/tests/test-basic.cpp:34-38 | the test's raw literal, without a terminating NUL, compiles to exactly the block list the render lemmas use |
| CttLoop.LoopScenario | libs/ctt/tests/test-basic.cpp:31-44 | compiled from its source text, the test template over [1, 2, 3] renders as "head pre 1 post pre 2 post pre 3 post tail" |
| CtString.FixedString.constructor | libs/ctt/include/xdev/ct/string.hpp:18-20 | the buffer holds exactly the N characters of the input, in a buffer of its own |
| CtString.FixedString.Copy | libs/ctt/include/xdev/ct/string.hpp:22-24 | the copy holds the same N characters in a fresh buffer |
| CtString.FixedString.Size | libs/ctt/include/xdev/ct/string.hpp:34-36 | the size is N, the terminator counted |
| CtString.FixedString.At | libs/ctt/include/xdev/ct/string.hpp:38-40 | indexing yields a character of the buffer |
| CtString.FixedString.Body | libs/ctt/include/xdev/ct/string.hpp:26-44 | the body is one character shorter than the buffer and, followed by the last character, is the whole buffer |
| CtString.FromLiteral | libs/ctt/include/xdev/ct/string.hpp:18-20 | a literal's string has its length plus one as size, its text as body, and the NUL last |
| CtString.CopyOf | libs/ctt/include/xdev/ct/string.hpp:22-24 | a copy has the same size, characters and body as the original, in a buffer that does not alias it |
| CtTuple.Size | libs/ctt/include/xdev/ct/tuple.hpp:19-26 | the size is zero exactly for the empty tuple |
| CtTuple.AtFrom | libs/ctt/include/xdev/ct/tuple.hpp:37-44 | the walk that counts from `index` reaches the element `pos - index` places in |
| CtTuple.At | libs/ctt/include/xdev/ct/tuple.hpp:48-49 | `at_t<pos>` is the element at position `pos`, counting from 0 |
| CtTuple.Front | libs/ctt/include/xdev/ct/tuple.hpp:51-52 | `front_t` is the first element |
| CtTuple.Back | libs/ctt/include/xdev/ct/tuple.hpp:54-55 | `back_t` is the last element |
| CtTuple.CatKeepsOrder | libs/ctt/include/xdev/ct/tuple.hpp:57-68 | concatenation has the summed size, the left elements at their own positions and the right ones shifted by the left's size |
| CtTuple.PushAppends | libs/ctt/include/xdev/ct/tuple.hpp:70-71 | pushing adds one element that becomes the back, keeping the front and every earlier element |
| CtTuple.TupleExample | libs/ctt/tests/test-tuple.cpp:6-13 | `tuple<int, bool>` has two elements and `int` in front; pushing `nullptr_t` puts it at the back |
| TupleTools.Slice | libs/core/include/xdev/tuple-tools.hpp:30-42 | a slice has `count` elements, the i-th being the element at `begin + i` |
| TupleTools.Tail | libs/core/include/xdev/tuple-tools.hpp:44-51 | a tail of `rbegin` elements holds the last `rbegin` elements in order |
| TupleTools.SliceIsSubsequence | libs/core/include/xdev/xdev-tuple-slice.hpp:15-28 | a slice is the contiguous run `[begin, begin + count)`, and one reaching the end is the tail of that length |
| TupleTools.TailExample | libs/core/include/xdev/xdev-tuple-slice.hpp:37-41 | the tail of two of `(int, int, bool, nullptr_t, string)` is `(nullptr_t, string)` |
| TupleTools.ForeachFrom | libs/core/include/xdev/tuple-tools.hpp:78-97 | the walk visits elements in order while the callback is `void`, returns the first other result, and visits everything when all are `void` |
| TupleTools.ForeachStopsAtFirst | libs/core/include/xdev/tuple-tools.hpp:100-102 | `foreach` returns a result exactly when some callback is not `void`, and then it is the first such result, after visiting the elements up to it |
| TupleTools.ForeachExamples | libs/core/tests/test-tuple-tools.cpp:11-55 | a `void` callback visits all three elements; the breakable loop stops at 42 with the counter at 2, before the element that would throw |
| TupleTools.TransformFrom | libs/core/include/xdev/tuple-tools.hpp:110-139 | the transform appends to `current` the non-`void` results from `index` on, in order |
| TupleTools.Transform | libs/core/include/xdev/tuple-tools.hpp:181-188 | `transform` is the list of the non-`void` callback results, in element order |
| TupleTools.TransformExample | libs/core/tests/test-tuple-tools.cpp:57-76 | transforming `(true, 42, "any question ?")` gives `(false, (42, 1764))`, the `void` result dropped |
| TupleTools.GenerateFrom | libs/core/include/xdev/tuple-tools.hpp:212-226 | generation keeps what was collected, then collects the lambda's results for consecutive indices up to the first `void` |
| TupleTools.Generate | libs/core/include/xdev/tuple-tools.hpp:228-236 | `generate` holds the lambda's results for 0, 1, … in order, and the lambda is `void` right after them |
| TupleTools.GenerateStopsAtFirstVoid | libs/core/include/xdev/tuple-tools.hpp:212-236 | what is collected does not depend on which `void` index bounds the search: generation stops at the first `void` |
| TupleTools.LeavesConcat | libs/core/include/xdev/tuple-tools.hpp:252-273 | the leaves of two lists one after the other are the leaves of the first followed by those of the second |
| TupleTools.FlatLeaves | libs/core/include/xdev/tuple-tools.hpp:270-271 | a list without nested tuples has one leaf per element, in order |
| TupleTools.FlattenFromKeepsLeaves | libs/core/include/xdev/tuple-tools.hpp:252-273 | each step of flattening keeps the leaves in order, and the recursive flatten leaves no nested tuple |
| TupleTools.FlattenKeepsLeaves | libs/core/include/xdev/tuple-tools.hpp:276-286 | `flatten` keeps the leaves in reading order, and `flatten<true>` leaves no nested tuple |
| TupleTools.FlattenIsLeaves | libs/core/include/xdev/tuple-tools.hpp:238-250 | `flatten<true>` is the list of the leaves |
| TupleTools.FlattenExample | libs/core/include/xdev/tuple-tools.hpp:242-243 | `(1, (2, (3)))` flattened recursively is `(1, 2, 3)` |
| TupleTools.TypeCount | libs/core/include/xdev/tuple-tools.hpp:288-302 | `type_count` is the number of elements of the given type |
| TupleTools.SomesCount | libs/core/include/xdev/tuple-tools.hpp:296-300 | the counting callback bumps once per element of the type from `index` on |
| TupleTools.IndexOf | libs/core/include/xdev/tuple-tools.hpp:304-313 | `index_of` is the position of the first element of the type, and is `void` exactly when the tuple has none |
| MocScan.FindScopeEnd | exe/moc/src/moc.cpp:79-96 | the result is just past the first `open`/`close` token that brings the nesting counter to 0 or below, with the counter positive at every token before it, or the end when no token does |
| MocScan.GetClassBody | exe/moc/src/moc.cpp:62-77 | no body exactly when there is no `{` or no `}` balancing it; otherwise the body runs from the first `{` to just past the `}` that first balances it |
| MocScan.MatchingClose | exe/moc/src/moc.cpp:67-75 | from a `{`, the result is just past the `}` that first brings the counter back to 0, with the counter positive before it, or one past the end when none does |
| MocScan.BodyStart | exe/moc/src/moc.cpp:58-60 | the body starts at the first `{` from `begin`, or at the end |
| MocScan.BodyStartIsFirst | exe/moc/src/moc.cpp:58-60 | a position with no `{` before it and a `{` (or the end) at it is the body start |
| MocScan.ClassBodyIsScope | exe/moc/src/moc.cpp:62-96 | the class body ends where the scope opened by its `{` ends: `get_class_body` and `find_scope_end` agree |
| MocScan.RemoveFilename | exe/moc/src/moc.cpp:184-188 | `remove_filename` keeps every element before the name and leaves the separator as a final empty element, except when nothing or only the root directory is left |
| MocScan.PathContainsFile | exe/moc/src/moc.cpp:180-200 | the directory's final "." becomes an empty element for the caller too, and the file is inside it exactly when the directory's elements are a prefix of the elements of the file's directory, whose final separator counts as an empty element |
| MocScan.StrippedDir | exe/moc/src/moc.cpp:184-185 | stripping either keeps the directory or replaces one final "." by what `remove_filename` leaves |
| MocScan.StrippedDirChangesOnlyDot | exe/moc/src/moc.cpp:184-185 | the directory changes exactly when it ends in ".", and it loses at most that element |
| MocScan.PlainDirContainsBelow | exe/moc/src/moc.cpp:180-200 | a directory without a final separator or "." contains every file below it, in subdirectories too |
| MocScan.SeparatorEndMissesSubdirectories | exe/moc/src/moc.cpp:180-200 | a directory ending in "/." is stripped to a final separator, and a directory with one contains the files directly in it but none in a subdirectory |
| MocScan.UnquoteAsWritten | exe/moc/src/moc.cpp:113-117 | as written, unquoting reads out of range exactly for the value `"` alone |
| MocScan.QuoteAloneOverreads | exe/moc/src/moc.cpp:113-117 | the value `"` reads out of range, while `"x"` unquotes to `x` |
| MocScan.Unquote | exe/moc/src/moc.cpp:113-117 | unquoting never lengthens the value, agrees with the code as written wherever that stays in range, and makes a lone `"` the empty value |
| MocScan.UnquoteRoundTrip | exe/moc/src/moc.cpp:113-117 | a quoted text loses exactly its two quotes, and a text without quotes at its ends is kept |
| MocScan.ExtractArgs | exe/moc/src/moc.cpp:103-121 | the loop over the matches computes the argument dictionary specified by `ArgsOf`, with the corrected unquoting (see Findings) |
| MocScan.LastMatchWins | exe/moc/src/moc.cpp:106-119 | the names of the matches are exactly the keys, and each key holds the value of the last match with that name |
| MocCompiler.Registered | exe/moc/src/moc.cpp:128-141 | registering pool definitions keeps every pool already registered |
| MocCompiler.RegisteredLastWins | exe/moc/src/moc.cpp:133-140 | the keys are the old ones plus every definition's access name; an untouched pool is unchanged, and a redefined one is the last definition with that access, with no items |
| MocCompiler.FirstMatching | exe/moc/src/moc.cpp:170-176 | the search yields the first pool, in key order, whose macro matches, or none when no pool from there matches |
| MocCompiler.AddAt | exe/moc/src/moc.cpp:170-176 | adding a class use never adds or removes a pool |
| MocCompiler.WithItem | exe/moc/src/moc.cpp:167-177 | adding a class use never adds or removes a pool |
| MocCompiler.AddAtStop | exe/moc/src/moc.cpp:170-176 | the class is appended to the pool at the first match and to no other, and nothing changes without a match |
| MocCompiler.AddToFirst | exe/moc/src/moc.cpp:170-176 | the loop over the pools computes the update specified by `WithItem` |
| MocCompiler.MatchedIsFirst | exe/moc/src/moc.cpp:170-176 | the pool the search stops at is the first one in key order with that macro |
| MocCompiler.UnmatchedNotFirst | exe/moc/src/moc.cpp:170-176 | every pool but the first match is left unchanged |
| MocCompiler.AppendsToFirstOnly | exe/moc/src/moc.cpp:167-177 | a class use is appended to the items of the first pool, in key order, with its macro, and to no other pool |
| MocCompiler.FirstForUnique | exe/moc/src/moc.cpp:170-176 | at most one pool is the first with a given macro |
| MocCompiler.Uses | exe/moc/src/moc.cpp:154-178 | processing a header's class uses never adds or removes a pool |
| MocCompiler.UsesGrow | exe/moc/src/moc.cpp:154-178 | processing class uses only appends to each pool's items, keeping its name, access and macro |
| MocCompiler.KeyedLastWins | exe/moc/src/moc.cpp:277-289 | a member name is a key exactly when some member of the kind has it, and it holds the raw arguments of the last such member |
| MocCompiler.ListedMembers | exe/moc/src/xdev-moc.cpp:270-287 | the older edition's list never has more members than the matches |
| MocCompiler.ListedFromMatches | exe/moc/src/xdev-moc.cpp:270-287 | every listed member comes from a match of its kind |
| MocCompiler.ListedPrefix | exe/moc/src/xdev-moc.cpp:270-287 | a later match never changes the members listed before it |
| MocCompiler.ListedKeepsAll | exe/moc/src/xdev-moc.cpp:270-287 | every match of the kind is listed, duplicates included |
| MocCompiler.DuplicateMember | exe/moc/src/moc.cpp:282-289 | two properties named `x`: the current edition keeps the last one, the older edition lists both |
| MocCompiler.CollectKeyed | exe/moc/src/moc.cpp:277-293 | the member loop computes the property, function and event dictionaries specified by `KeyedMembers` |
| MocCompiler.CollectListed | exe/moc/src/xdev-moc.cpp:270-287 | the member loop computes the list specified by `ListedMembers` |
| MocCompiler.CollectMembers | exe/moc/src/moc.cpp:277-293 | each edition collects the three member tables it specifies |
| MocCompiler.NameArgs | exe/moc/src/moc.cpp:297-306 | the argument loop computes the names specified by `NamedArgs`, an unnamed parameter k being named "arg" followed by k |
| MocCompiler.GeneratedNamesDistinct | exe/moc/src/moc.cpp:300 | two unnamed parameters never get the same generated name |
| MocCompiler.MakeInvokable | exe/moc/src/moc.cpp:295-324 | an invokable gets one argument per parameter, as `InvokableOf` specifies |
| MocCompiler.ProcessClass | exe/moc/src/moc.cpp:257-335 | a class definition fails exactly when the class does not name itself as the template argument of its base |
| MocCompiler.ClassDefsOf | exe/moc/src/moc.cpp:253-336 | the class definitions succeed exactly when every class names itself as its base's template argument, one definition per class in order; otherwise the error names the first class that does not |
| MocCompiler.ClassDefs | exe/moc/src/moc.cpp:253-336 | the class loop computes the definitions specified by `ClassDefsOf` |
| MocCompiler.ClassDefsFails | exe/moc/src/moc.cpp:267-271 | a class that does not name itself stops the loop with its error |
| MocCompiler.ClassDefsStep | exe/moc/src/moc.cpp:253-336 | a well-named class adds its definition and the loop goes on with the next class |
| MocCompiler.OriginIsFirstContaining | exe/moc/src/moc.cpp:213-224 | the origin is the path relative to the first include directory that contains the header |
| MocCompiler.OriginIsFileName | exe/moc/src/moc.cpp:213-224 | the origin is the header's file name when no include directory contains it |
| MocCompiler.FirstOriginSkips | exe/moc/src/moc.cpp:214-218 | the include-directory loop goes past every directory that does not contain the header |
| MocCompiler.OriginOf | exe/moc/src/moc.cpp:213-224 | the include-directory loop computes the origin specified by `OriginFrom` |
| MocCompiler.GeneratedHeadersSkipped | exe/moc/src/xdev-moc.cpp:203-205 | a header inside the build directory is skipped by the older edition and only by it |
| MocCompiler.ProcessedHeaderOutcome | exe/moc/src/moc.cpp:202-350 | a processed header adds its origin to the pool includes; it fails exactly when one of its classes is badly named, producing nothing, and otherwise produces one output with one definition per class |
| MocCompiler.AllFilesStops | exe/moc/src/moc.cpp:364-366 | once a header fails, the headers after it change nothing |
| MocCompiler.AllUses | exe/moc/src/moc.cpp:358-361 | processing all headers' class uses never adds or removes a pool |
| MocCompiler.SortedSingleton | exe/moc/src/moc.cpp:159-161 | a single pool key is its own sorted order |
| MocCompiler.RegistrationPrecedesUse | exe/moc/src/moc.cpp:352-369 | a class that uses a pool declared in a later header is still added to that pool, since every pool is registered before any is processed |
| MocCompiler.Compiler.constructor | exe/moc/src/moc.cpp:352-369 | a compiler starts with no pools, no pool includes, no outputs and nothing created |
| MocCompiler.Compiler.RegisterPools | exe/moc/src/moc.cpp:128-141 | the pools become those specified by `Registered`, and nothing else changes |
| MocCompiler.Compiler.AddToFirstPool | exe/moc/src/moc.cpp:170-176 | the pools become those specified by `WithItem`, and nothing else changes |
| MocCompiler.Compiler.ProcessPools | exe/moc/src/moc.cpp:154-178 | the pools become those specified by `Uses`, and nothing else changes |
| MocCompiler.Compiler.ProcessFile | exe/moc/src/moc.cpp:202-350 | the includes, outputs and error become those specified by `FileStep`, leaving the pools alone |
| MocCompiler.Compiler.Record | exe/moc/src/moc.cpp:209-350 | the header's origin is appended to the includes and its classes become one output unless a class fails the name check, whose exception is returned, as `Recorded` specifies |
| MocCompiler.Compiler.CreatePools | exe/moc/src/moc.cpp:143-152 | one pools context is created from the current pools and includes, and nothing else changes |
| MocCompiler.Compiler.RegisterAll | exe/moc/src/moc.cpp:354-356 | the pools become those of every header's definitions, in order |
| MocCompiler.Compiler.ProcessAllPools | exe/moc/src/moc.cpp:359-361 | the pools become those with every header's class uses added, in order |
| MocCompiler.Compiler.ProcessAllFiles | exe/moc/src/moc.cpp:364-366 | the includes, outputs and error become those of every header processed in order, stopping at the first failure |
| MocCompiler.Compiler.Compile | exe/moc/src/moc.cpp:352-369 | registration, then pool processing, then file processing, and the pools are created only when no header failed |

## Left out

- Dynamic library loading (`XLibrary`: existence checks, `XDEV_LIB_PATH`, `dlopen`/`dlclose`): platform I/O.
- The Python binding (pybind11 type casters, CPython handles): foreign calls.
- The concurrency helpers (mutexes, condition variables, promises, threads) and the channel prototype in the event tests: concurrency is their whole point.
- JSON, YAML and base64 encoding and decoding: their bodies live in files that are not part of this model, so there is no behaviour to compare against.
- The older non-templated value headers and the `std::function` wrapper kind: the same data model is covered once through the templated headers; a function variant is a kind without behaviour here.
- `XMETADATA`/`FromJSON` object metadata: built on the JSON reader, which is not part of this model.
- `hexlify` in tools.hpp: it writes past the reserved but empty buffer, which is undefined behaviour; `walk_directory` (file system), `XDEV_BENCHMARK` (clock) and `visit_2way` (`std::visit` over two variants) are left out too.
- `std::to_string` of a `double`: floating-point formatting is not modelled; a double value is a `real` and its text is left abstract.
- `XStaticClass::propertyList`: it transforms into an empty vector, which is undefined behaviour.
- The Boost.Spirit arithmetic grammar of the template expressions (`pow`, trigonometry, constants): floating point.
- The template expression functions `date` (reads the clock) and `render` (compiles a resource at render time), and the numeric-argument branch that calls `stod`: clock, nested compilation and floating point.
- Regular-expression matching (`std::regex` and ctre) in the template engine and in `moc`: the function-call, block, class, member, invokable and pool expressions are parameters of the model (the `Host` records, and the match records a `moc` header carries); only the simple ctt `for`/`endfor` tag patterns are written out.
- The macro alternation `processPools` builds from the pool names: a class use reaches the model already paired with the macro that matched it.
- `BlockBlock::process` registering `super` in the global function table, and `RootBlock::CompileFile`: a global side table and file reading.
- A named block shared by two parent templates: in C++ it keeps the `super` set by the last parent; in the model each parent gets its own.
- TemplateLoad.Extended: compiling a parent template that is stored as source recurses with a fuel bound; running out is a `TooDeep` failure where the C++ would exhaust the stack.
- `XObjectBase::Create<C>` and the typed `XStaticClass::Create<T>`: they call the static class's `Create()`, which is pure virtual and implemented by the code `moc` generates, so there is no factory behind them to model; the `dynamic_pointer_cast` that follows is the one Registry.XClass.CreateAs models.
- Variants.TypeName: an object variant reports the name of its object's class, which lives in the object registry; the model states the name of every other alternative and requires a variant that is not an object.
- Variants.Get, Variants.Put: only the declaration of `operator[]` is part of this model, so its reading and writing along a dotted path are modelled from its uses.
- Dicts.At: the dotted descent of `Dict::at` is modelled from its uses, since its body is in a file that is not part of this model.
- `moc` file reading and writing, spdlog and `std::cout` logging, and rendering of the output templates in `createPools` and at the end of `processFile`: I/O. The model records part of the context each output template would receive instead: for the pools files all of it, and for a header's output pair the `basename`, `origin_filename` and `xclasses` keys only. MocCompiler.Output does not record the `pools` key (the compiler's pools, set when there is at least one, which `processFile` does not change) or the `filename` key (the base name followed by `.xdev.hpp` or `.xdev.cpp`).
- Pool items are recorded as class names rather than as `{"class": name}` dictionaries: the dictionary holds nothing else.
- The include directories of `moc` are a constructor parameter of `MocCompiler.Compiler` instead of coming from the command line, which is not part of this model.
- `fs::relative` and the other path operations of `moc`: paths are the sequences of elements std::filesystem iterates (a final separator is a final empty element, the root directory is "/"), and relative paths are computed lexically, without resolving links or the current directory.
- The resource compiler `basic-rc`, the `main` programs, the type-trait and concept headers, the umbrella headers and the build scripts: command-line handling, compile-time-only predicates and packaging.
- The ctt `if` test: the block generator rejects `if` with a `static_assert`, so that test cannot compile.
- TupleTools.TypeCount, TupleTools.IndexOf: type-level counts are modelled as functions over the per-element match results rather than over C++ types.
- MocScan.FindScopeEnd: when no `open` or `close` remains, the C++ dereferences the end iterator; the model returns the end position instead.
- MocScan.GetClassBody: without a `{`, or without the `}` that balances it, the C++ iterators step past the end; the model returns `None` in both cases.
- CttTokens.MatchEnd: on the last character the C++ reads one past the buffer; the model makes that a compile error.
- Registry.XClass.UnRegister: requires at least one registered entry for the class; with none, `remove_if` returns the end iterator and the C++ erases it, which is undefined behaviour. Every slot left after the call, the moved-from ones included, is stated.
- Values.Incremented, Values.Decremented: the C++ int alternative is a 32-bit `int`, and `++` on the largest or `--` on the smallest one is undefined behaviour; the model's integers are unbounded, so it has no such edge, and Values.IncrementDecrementInverse holds on every int only because of that.
- Values.IncrementDecrementInverse: on doubles it holds only because the model's double is an exact real; an IEEE `double` rounds, so `(0.1 + 1.0) - 1.0` is not `0.1`.
- TemplateExpressions.LengthFunction: the C++ narrows the `size_t` count to `int`; the model returns the count unbounded, so a count above 2^31 - 1 is not modelled.
- CtString.FixedString.At: states only that the character read is one of the buffer's, not its index arithmetic.
- CttEvaluator.Apply: the round trip to the context value is stated only for views without dots.
- Tools.Replace: requires a non-empty `from`; with an empty one `find` keeps returning the same position, so the C++ loop never ends (it grows the string without end when `to` is not empty). The template function `replace` reports that case as `NoReturn`.
- Dicts.XDict.Update, Variants.XVar.Update: only their declarations are part of this model; that an entry of `other` overwrites an existing entry under the same key, and that `update` on a variant that is not a dict changes nothing, are assumed rather than read from a body.
- Exceptions.XException.MoveAssign: requires a source other than the target; self-move-assignment, which the C++ allows, leaves the text in the unspecified state of a self-moved `std::string` and is not modelled.
- Strings are sequences of Unicode characters where the C++ has byte `std::string`s, and `toupper`, `tolower` and `isspace` are modelled on ASCII (the "C" locale); multi-byte encodings and other locales are not modelled.

## Findings

| source | as written | input that shows it | evidently intended | confidence | as-written member | corrected member |
|---|---|---|---|---|---|---|
| libs/core/src/xdev-xclass.cpp:12-17 | `erase(remove_if(…))` is given only the iterator `remove_if` returns, so it erases one element and any further moved-from entries stay in the list | registering the same class twice and unregistering it once leaves one entry | every entry of the class is removed | high, not executed | Registry.UnRegisterTwiceLeavesOne | Registry.UnRegisteredAll |
| libs/ctt/include/xdev/ctt/parser.hpp:264-266 | the text between two tokens ends one character before the next token | `{{a}}XY{{b}}` renders without the `Y` | the text block spans up to the next token, as blocks.hpp does | high, not executed | CttBlocks.ParserDropsText | CttBlocks.RenderOnlyTiles |
| exe/moc/src/moc.cpp:113-117 | the leading `"` is erased first and `data[data.size() - 1]` is read afterwards, so the value made of one `"` reads the empty string at index -1 | `name="` | the lone quote is erased and no second character is read, so the value is the empty string | high, not executed | MocScan.QuoteAloneOverreads | MocScan.Unquote |
