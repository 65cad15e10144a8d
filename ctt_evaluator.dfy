/** The evaluators of compile-time render blocks
    (libs/ctt/include/xdev/ctt/evaluator.hpp). The only evaluator, `value`,
    accepts a trimmed expression made of word characters and dots and looks
    it up in the context dict. */
module CttEvaluator {
  import opened Wrappers
  import opened StdString
  import opened Values
  import opened Variants
  import StrTools
  import Dicts

  /** `\w` of the regex engine: an ASCII letter, digit or underscore. */
  predicate IsWordChar(c: char)
  {
    ('a' <= c <= 'z') || ('A' <= c <= 'Z') || ('0' <= c <= '9') || c == '_'
  }

  /** `value::impl::match`: the view matches `[\w\.]+` as a whole. */
  predicate ValueSyntax(view: string)
  {
    |view| > 0 && forall i :: 0 <= i < |view| ==> IsWordChar(view[i]) || view[i] == '.'
  }

  /** `evaluators::value` instantiated on `input[begin, end)`: the view it
      evaluates. */
  datatype Evaluator = ValueEval(view: string)

  /** `value::impl::view`: `input.subview(begin, end)` with the default
      whitespace trimmed from both ends. */
  function ViewOf(s: string, begin: nat, end: nat): (r: string)
    requires begin <= end <= |s| && ViewSize(s)
    ensures |r| <= end - begin
  {
    StrTools.Trim(s[begin..end])
  }

  /** `evaluator_of<input, begin, end>`: the first evaluator of
      `evaluators_t` whose `match()` holds, or none (`void`). */
  function EvaluatorOf(s: string, begin: nat, end: nat): (r: Option<Evaluator>)
    requires begin <= end <= |s| && ViewSize(s)
    ensures r.Some? <==> ValueSyntax(ViewOf(s, begin, end))
    ensures r.Some? ==> r.value.view == ViewOf(s, begin, end)
  {
    var view := ViewOf(s, begin, end);
    if ValueSyntax(view) then Some(ValueEval(view)) else Option.None
  }

  /** `value::impl::operator()`: `context.at(view)`. The operator is
      `noexcept`, so the lookup's exception for a missing key cannot escape:
      an `Err` here stands for the `std::terminate` that follows, which the
      render block reports as `CttRender.Terminated`. */
  function Apply(e: Evaluator, context: map<Value, Variant>): (r: Result<Variant, AccessError>)
    ensures '.' !in e.view ==>
              r == (if Str(e.view) in context then Ok(context[Str(e.view)]) else Err(OutOfRange))
  {
    if '.' !in e.view then Dicts.DotAtPlain(context, e.view); Dicts.DotAt(context, e.view)
    else Dicts.DotAt(context, e.view)
  }

  /** The view never carries the default whitespace at either end. */
  lemma ViewTrimmed(s: string, begin: nat, end: nat)
    requires begin <= end <= |s| && ViewSize(s)
    ensures var v := ViewOf(s, begin, end);
            v != [] ==> v[0] !in StrTools.DefaultTrimChars && v[|v| - 1] !in StrTools.DefaultTrimChars
  {
    StrTools.TrimIsInnerSlice(s[begin..end], StrTools.DefaultTrimChars);
  }

  /** `evaluator_of<"hello", 0, 5>` applied to `{hello: "world"}` gives
      "world"; the string literal carries its terminating NUL. */
  lemma HelloWorld()
    ensures var e := EvaluatorOf("hello\0", 0, 5);
            e == Some(ValueEval("hello")) &&
            Apply(e.value, map[Str("hello") := Val(Str("world"))]) == Ok(Val(Str("world")))
  {
    var s := "hello\0";
    var v := s[0..5];
    assert v == "hello";
    assert v[0] !in StrTools.DefaultTrimChars && v[4] !in StrTools.DefaultTrimChars;
    StrTools.LTrimFixed(v, StrTools.DefaultTrimChars);
    StrTools.RTrimFixed(v, StrTools.DefaultTrimChars);
    assert ViewOf(s, 0, 5) == v;
    assert ValueSyntax(v);
    Dicts.DotAtPlain(map[Str("hello") := Val(Str("world"))], "hello");
  }
}
