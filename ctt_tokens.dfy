/** The compile-time template tokenizer (libs/ctt/include/xdev/ctt/tokenizer.hpp;
    parser.hpp repeats it inside `parser`). The template is the characters
    of a `ct::string` of size N, here a `string` of length N. Every function
    is a constant expression in the source; the model says what a constant
    evaluation gives, and a compile-time failure is a `CompileError`. */
module CttTokens {
  import opened Wrappers

  /** What stops a compile-time template from compiling. */
  datatype CompileError =
    | Unterminated   // static_assert "unterminated token"
    | Unhandled      // static_assert "Unhandled block !"
    | OutOfBounds    // a constant expression reads past the buffer
    | BadRange       // a view whose end lies before its begin
    | NoSuchToken    // `at_t` of an index the token tuple does not have
    | NoEvaluator    // a render block no evaluator accepts (a `void` member)
    | TrimMarker     // parser.hpp: static_assert on a `-` in a for tag

  /** The delimiter pairs, in the order `tokens_t` lists them. */
  datatype Kind = Control | Render | Comment

  const Kinds: seq<Kind> := [Control, Render, Comment]

  function StartTok(k: Kind): string
  {
    match k
    case Control => "{%"
    case Render => "{{"
    case Comment => "{#"
  }

  function EndTok(k: Kind): string
  {
    match k
    case Control => "%}"
    case Render => "}}"
    case Comment => "#}"
  }

  /** `tokens::impl<input, start, end, TokenT>`: `start` is where the opening
      delimiter begins, `end` is the position of the LAST character of the
      closing delimiter, and the kind is the kind of that closing delimiter. */
  datatype Token = Token(start: nat, end: nat, kind: Kind)

  /** `size - k` on `size_t`, which wraps below zero. */
  function Minus(size: nat, k: nat): (r: nat)
    requires k <= 2
    ensures size >= k ==> r == size - k
    ensures size < k ==> r == size + 0x1_0000_0000_0000_0000 - k
  {
    if size >= k then size - k else size + 0x1_0000_0000_0000_0000 - k
  }

  /** An opening delimiter of some kind starts at `p`. */
  predicate OpensAt(s: string, p: nat)
    requires p + 1 < |s|
  {
    s[p] == '{' && (s[p + 1] == '%' || s[p + 1] == '{' || s[p + 1] == '#')
  }

  /** A closing delimiter of kind `k` starts at `q`. */
  predicate ClosesAt(s: string, q: nat, k: Kind)
    requires q + 1 < |s|
  {
    s[q] == EndTok(k)[0] && s[q + 1] == EndTok(k)[1]
  }

  /** The first characters of the closing delimiters: reading the second
      character is only done after the first one matched. */
  predicate EndFirst(c: char)
  {
    c == '%' || c == '}' || c == '#'
  }

  /** A closing delimiter of some kind starts at `q`. */
  predicate Closes(s: string, q: nat)
    requires q + 1 < |s|
  {
    s[q + 1] == '}' && EndFirst(s[q])
  }

  /** The openers are exactly the `start_tok`s of `tokens_t`. */
  lemma OpenersAreStartToks(s: string, p: nat)
    requires p + 1 < |s|
    ensures OpensAt(s, p) <==> exists k: Kind :: s[p..p + 2] == StartTok(k)
  {
    if OpensAt(s, p) {
      var k := if s[p + 1] == '%' then Control else if s[p + 1] == '{' then Render else Comment;
      assert s[p..p + 2] == StartTok(k);
    }
    if exists k: Kind :: s[p..p + 2] == StartTok(k) {
      var k: Kind :| s[p..p + 2] == StartTok(k);
      assert s[p] == s[p..p + 2][0] && s[p + 1] == s[p..p + 2][1];
    }
  }

  /** The closers are exactly the `end_tok`s of `tokens_t`. */
  lemma ClosersAreEndToks(s: string, q: nat)
    requires q + 1 < |s|
    ensures Closes(s, q) <==> exists k: Kind :: ClosesAt(s, q, k)
  {
    if Closes(s, q) {
      var k := if s[q] == '%' then Control else if s[q] == '}' then Render else Comment;
      assert ClosesAt(s, q, k);
    }
  }

  /** `match_start<pos>`: guarded by `pos < size - 1`; the foreach over
      `tokens_t` returns `pos` for the first kind whose opener is there. */
  function MatchStart(s: string, pos: nat): (r: Option<nat>)
    requires |s| >= 1
    ensures r.Some? <==> pos + 1 < |s| && OpensAt(s, pos)
    ensures r.Some? ==> r.value == pos
  {
    if pos < Minus(|s|, 1) then
      if s[pos] == '{' && s[pos + 1] == '%' then Some(pos)
      else if s[pos] == '{' && s[pos + 1] == '{' then Some(pos)
      else if s[pos] == '{' && s[pos + 1] == '#' then Some(pos)
      else None
    else None
  }

  /** `match_end<pos, start>`: there is no bound check, so when the last
      character of the buffer could begin a closer, the comparison of the
      character after it reads past the buffer. */
  function MatchEnd(s: string, pos: nat, start: nat): (r: Result<Option<Token>, CompileError>)
    requires pos < |s|
    ensures r.Err? <==> pos + 1 == |s| && EndFirst(s[pos])
    ensures r.Ok? && r.value.Some? <==> pos + 1 < |s| && Closes(s, pos)
    ensures r.Ok? && r.value.Some? ==>
              r.value.value == Token(start, pos + 1, r.value.value.kind) && ClosesAt(s, pos, r.value.value.kind)
  {
    if s[pos] == '%' then
      if pos + 1 == |s| then Err(OutOfBounds)
      else if s[pos + 1] == '}' then Ok(Some(Token(start, pos + 1, Control))) else Ok(None)
    else if s[pos] == '}' then
      if pos + 1 == |s| then Err(OutOfBounds)
      else if s[pos + 1] == '}' then Ok(Some(Token(start, pos + 1, Render))) else Ok(None)
    else if s[pos] == '#' then
      if pos + 1 == |s| then Err(OutOfBounds)
      else if s[pos + 1] == '}' then Ok(Some(Token(start, pos + 1, Comment))) else Ok(None)
    else Ok(None)
  }

  /** `next_start<pos>`: the first opener at or after `pos`. */
  function NextStart(s: string, pos: nat): (r: Option<nat>)
    requires |s| >= 1
    ensures r.Some? ==> pos <= r.value && r.value + 1 < |s| && OpensAt(s, r.value)
    ensures r.Some? ==> forall p :: pos <= p < r.value ==> !OpensAt(s, p)
    ensures r.None? ==> forall p :: pos <= p && p + 1 < |s| ==> !OpensAt(s, p)
    decreases |s| - pos
  {
    if pos < |s| then
      match MatchStart(s, pos)
      case None => NextStart(s, pos + 1)
      case Some(p) => Some(p)
    else None
  }

  /** `next_end<pos, start>`: the first closer at or after `pos`, as a token
      opened at `start`; a read past the buffer on the way fails. */
  function NextEnd(s: string, pos: nat, start: nat): (r: Result<Option<Token>, CompileError>)
    ensures r.Ok? && r.value.Some? ==>
              var t := r.value.value;
              && t.start == start && pos + 1 <= t.end < |s| && ClosesAt(s, t.end - 1, t.kind)
              && forall q :: pos <= q < t.end - 1 ==> !Closes(s, q)
    ensures r.Ok? && r.value.None? ==>
              (forall q :: pos <= q && q + 1 < |s| ==> !Closes(s, q))
              && (pos < |s| ==> !EndFirst(s[|s| - 1]))
    ensures r.Err? ==>
              pos < |s| && EndFirst(s[|s| - 1])
              && forall q :: pos <= q && q + 1 < |s| ==> !Closes(s, q)
    decreases |s| - pos
  {
    if pos < |s| then
      match MatchEnd(s, pos, start)
      case Err(e) => Err(e)
      case Ok(None) => NextEnd(s, pos + 1, start)
      case Ok(Some(t)) => Ok(Some(t))
    else Ok(None)
  }

  /** Token `t` is what a search resuming at `from` finds: the first opener
      at or after `from`, and the first closer after that opener. */
  ghost predicate Found(s: string, t: Token, from: nat)
  {
    && from <= t.start && t.start + 2 <= t.end < |s|
    && OpensAt(s, t.start) && ClosesAt(s, t.end - 1, t.kind)
    && (forall p :: from <= p < t.start ==> !OpensAt(s, p))
    && (forall q :: t.start + 1 <= q < t.end - 1 ==> !Closes(s, q))
  }

  /** `next_token<pos>`: guarded by `pos < size - 2`; an opener without a
      closer is the static_assert "unterminated token". */
  function NextToken(s: string, pos: nat): (r: Result<Option<Token>, CompileError>)
    requires |s| >= 1
    ensures r.Ok? && r.value.Some? ==> Found(s, r.value.value, pos)
    ensures r.Ok? && r.value.None? ==>
              pos >= Minus(|s|, 2) || forall p :: pos <= p && p + 1 < |s| ==> !OpensAt(s, p)
    ensures r == Err(Unterminated) ==>
              exists p :: pos <= p && p + 1 < |s| && OpensAt(s, p)
  {
    if pos < Minus(|s|, 2) then
      match NextStart(s, pos)
      case None => Ok(None)
      case Some(start) =>
        match NextEnd(s, start + 1, start)
        case Err(e) => Err(e)
        case Ok(None) => Err(Unterminated)
        case Ok(Some(t)) => Ok(Some(t))
    else Ok(None)
  }

  /** `parse_tokens_impl<pos, result>`: each search resumes at the previous
      token's `end`. */
  function ParseFrom(s: string, pos: nat, acc: seq<Token>): (r: Result<seq<Token>, CompileError>)
    requires |s| >= 1
    ensures r.Ok? ==> |r.value| >= |acc| && r.value[..|acc|] == acc
    decreases |s| - pos
  {
    if pos < |s| - 1 then
      match NextToken(s, pos)
      case Err(e) => Err(e)
      case Ok(None) => Ok(acc)
      case Ok(Some(t)) =>
        var r := ParseFrom(s, t.end, acc + [t]);
        assert r.Ok? ==> r.value[..|acc|] == r.value[..|acc| + 1][..|acc|];
        r
    else Ok(acc)
  }

  /** `parse_tokens`. */
  function ParseTokens(s: string): Result<seq<Token>, CompileError>
    requires |s| >= 1
  {
    ParseFrom(s, 0, [])
  }

  /** `impl::content`: the text strictly between the two delimiters,
      `[start + 2, end - 1)`. A token whose closer overlaps its opener
      (`{%}`) has no content: the view's end would precede its begin. */
  function Content(s: string, t: Token): (r: Result<string, CompileError>)
    requires t.end < |s|
    ensures r.Ok? <==> t.start + 3 <= t.end
    ensures r.Ok? ==> |r.value| == t.end - t.start - 3
  {
    if t.start + 3 <= t.end then Ok(s[t.start + 2..t.end - 1]) else Err(BadRange)
  }

  /** Where the search for token `i` starts: 0, or the previous token's end. */
  function ResumeAt(toks: seq<Token>, i: nat): nat
    requires i <= |toks|
  {
    if i == 0 then 0 else toks[i - 1].end
  }

  /** What the tokenizer guarantees about its output: every token is found
      by a search resuming where the previous one ended, and no opener is
      left after the last one (except at the final two characters of a
      two-character template, where `size - 2` is 0). */
  ghost predicate Tokenizes(s: string, toks: seq<Token>)
  {
    && (forall i {:trigger ResumeAt(toks, i)} :: 0 <= i < |toks| ==> Found(s, toks[i], ResumeAt(toks, i)))
    && (forall p :: ResumeAt(toks, |toks|) <= p && p + 1 < |s| && !(p == 0 && |s| == 2) ==> !OpensAt(s, p))
  }

  /** The partial invariant of `ParseFrom`: the tokens found so far, with the
      search resuming at `pos`. */
  ghost predicate Prefix(s: string, acc: seq<Token>, pos: nat)
  {
    && ResumeAt(acc, |acc|) == pos
    && forall i {:trigger ResumeAt(acc, i)} :: 0 <= i < |acc| ==> Found(s, acc[i], ResumeAt(acc, i))
  }

  /** Tokens stay inside the template, each spans at least its two
      delimiters, and each starts where the search for it resumed or later. */
  predicate Chain(s: string, toks: seq<Token>)
  {
    forall i {:trigger ResumeAt(toks, i)} :: 0 <= i < |toks| ==>
      ResumeAt(toks, i) <= toks[i].start && toks[i].start + 2 <= toks[i].end < |s|
  }

  /** Appending a token the search found keeps the invariant. */
  lemma PrefixExtend(s: string, acc: seq<Token>, pos: nat, t: Token)
    requires Prefix(s, acc, pos) && Found(s, t, pos)
    ensures Prefix(s, acc + [t], t.end)
  {
    var acc' := acc + [t];
    forall i | 0 <= i < |acc'|
      ensures Found(s, acc'[i], ResumeAt(acc', i))
    {
      if i < |acc| {
        assert acc'[i] == acc[i] && ResumeAt(acc', i) == ResumeAt(acc, i);
      }
    }
  }

  /** When the search finds nothing more, the invariant becomes `Tokenizes`. */
  lemma PrefixDone(s: string, acc: seq<Token>, pos: nat)
    requires |s| >= 1 && Prefix(s, acc, pos) && (acc == [] ==> pos == 0)
    requires pos >= |s| - 1 || pos >= Minus(|s|, 2) || forall p :: pos <= p && p + 1 < |s| ==> !OpensAt(s, p)
    ensures Tokenizes(s, acc)
  {
    forall p | pos <= p && p + 1 < |s| && !(p == 0 && |s| == 2)
      ensures !OpensAt(s, p)
    {
      if !(forall p :: pos <= p && p + 1 < |s| ==> !OpensAt(s, p)) {
        assert p == pos && |acc| > 0;
        var t := acc[|acc| - 1];
        assert Found(s, t, ResumeAt(acc, |acc| - 1));
        assert pos == t.end && s[t.end] == EndTok(t.kind)[1] == '}';
      }
    }
  }

  /** Every successful tokenization satisfies `Tokenizes`. */
  lemma {:induction false} ParseFromSound(s: string, pos: nat, acc: seq<Token>)
    requires |s| >= 1 && Prefix(s, acc, pos)
    requires acc == [] ==> pos == 0
    ensures ParseFrom(s, pos, acc).Ok? ==> Tokenizes(s, ParseFrom(s, pos, acc).value)
    decreases |s| - pos
  {
    if pos < |s| - 1 {
      match NextToken(s, pos)
      case Err(_) =>
      case Ok(None) =>
        PrefixDone(s, acc, pos);
      case Ok(Some(t)) =>
        PrefixExtend(s, acc, pos, t);
        ParseFromSound(s, t.end, acc + [t]);
    } else {
      PrefixDone(s, acc, pos);
    }
  }

  /** `parse_tokens` yields tokens in increasing order, each one an opener
      and the first closer after it, skipping no opener. */
  lemma ParseTokensSound(s: string)
    requires |s| >= 1
    ensures ParseTokens(s).Ok? ==> Tokenizes(s, ParseTokens(s).value)
    ensures ParseTokens(s).Ok? ==> Chain(s, ParseTokens(s).value)
  {
    ParseFromSound(s, 0, []);
    if ParseTokens(s).Ok? {
      var toks := ParseTokens(s).value;
      forall i | 0 <= i < |toks|
        ensures ResumeAt(toks, i) <= toks[i].start && toks[i].start + 2 <= toks[i].end < |s|
      {
        assert Found(s, toks[i], ResumeAt(toks, i));
      }
    }
  }

  /** Tokens never overlap: each one starts at or after the end of the one
      before it. */
  lemma {:induction false} TokensOrdered(s: string, toks: seq<Token>, i: nat, j: nat)
    requires Chain(s, toks) && i < j < |toks|
    ensures toks[i].end <= toks[j].start
    decreases j - i
  {
    assert ResumeAt(toks, j) <= toks[j].start;
    if i + 1 < j {
      TokensOrdered(s, toks, i, j - 1);
      assert ResumeAt(toks, j - 1) <= toks[j - 1].start;
    } else {
      assert ResumeAt(toks, i) <= toks[i].start;
    }
  }

  /** The kind of a token is that of its closer, not of its opener:
      `{{ x %}` is a control token. */
  lemma KindIsCloser()
    ensures NextToken("{{ x %}", 0) == Ok(Some(Token(0, 6, Control)))
  {
    assert MatchStart("{{ x %}", 0) == Some(0);
    assert NextEnd("{{ x %}", 5, 0) == Ok(Some(Token(0, 6, Control)));
    assert NextEnd("{{ x %}", 4, 0) == NextEnd("{{ x %}", 5, 0);
    assert NextEnd("{{ x %}", 3, 0) == NextEnd("{{ x %}", 4, 0);
    assert NextEnd("{{ x %}", 2, 0) == NextEnd("{{ x %}", 3, 0);
    assert NextEnd("{{ x %}", 1, 0) == NextEnd("{{ x %}", 2, 0);
  }

  /** `next_start` walks over characters that cannot open a token up to
      the first opener. */
  lemma {:induction false} NextStartSkips(s: string, pos: nat, p: nat)
    requires |s| >= 1 && pos <= p && p + 1 < |s| && OpensAt(s, p)
    requires forall q :: pos <= q < p ==> s[q] != '{'
    ensures NextStart(s, pos) == Some(p)
    decreases p - pos
  {
    if pos < p {
      NextStartSkips(s, pos + 1, p);
    }
  }

  /** Without a `{` from `pos` on, `next_start` finds nothing. */
  lemma {:induction false} NextStartNone(s: string, pos: nat)
    requires |s| >= 1 && forall q :: pos <= q < |s| ==> s[q] != '{'
    ensures NextStart(s, pos) == None
    decreases |s| - pos
  {
    if pos < |s| {
      NextStartNone(s, pos + 1);
    }
  }

  /** `next_end` walks over characters that close nothing up to the first
      closer, and the token takes that closer's kind. */
  lemma {:induction false} NextEndSkips(s: string, pos: nat, start: nat, q: nat, k: Kind)
    requires pos <= q && q + 1 < |s| && ClosesAt(s, q, k)
    requires forall r :: pos <= r < q ==> !Closes(s, r)
    ensures NextEnd(s, pos, start) == Ok(Some(Token(start, q + 1, k)))
    decreases q - pos
  {
    if pos < q {
      NextEndSkips(s, pos + 1, start, q, k);
    }
  }

  /** An opener with no closer after it does not compile. */
  lemma UnterminatedRejected()
    ensures ParseTokens("ab{{ x ") == Err(Unterminated)
  {
    assert MatchStart("ab{{ x ", 0) == None;
    assert MatchStart("ab{{ x ", 1) == None;
    assert NextStart("ab{{ x ", 2) == Some(2);
    assert NextStart("ab{{ x ", 0) == Some(2);
    assert NextEnd("ab{{ x ", 7, 2) == Ok(None);
    assert NextEnd("ab{{ x ", 6, 2) == Ok(None);
    assert NextEnd("ab{{ x ", 5, 2) == Ok(None);
    assert NextEnd("ab{{ x ", 4, 2) == Ok(None);
    assert NextEnd("ab{{ x ", 3, 2) == Ok(None);
  }
}
