/** The block generator of the compile-time templates: from the token list
    to the list of blocks a renderer runs. blocks.hpp
    (`generate_blocks_impl`, `push_text`, the `text`, `render` and
    `for_control` blocks) and parser.hpp (the same generator inside
    `parser`) differ in three places, which `Generator` selects:
    the characters a `-` trims, the bounds of the text between two tokens,
    and whether a `for` tag may carry trim markers. */
module CttBlocks {
  import opened Wrappers
  import opened StdString
  import opened CttTokens
  import CttEvaluator
  import opened CttControls
  import StrTools

  /** Which of the two generators. */
  datatype Generator = Blocks | Parser

  /** A generated block. A text block is `[from, to)` of the template,
      trimmed; a render block holds its token and the evaluator of its
      content; a for block holds the blocks of its body. */
  datatype Block =
    | TextBlock(from: nat, to: nat, body: string)
    | RenderBlock(tok: Token, eval: CttEvaluator.Evaluator)
    | ForBlock(iter: string, container: string, blocks: seq<Block>, trimBefore: bool, trimAfter: bool)

  /** `generate_result_t`: the blocks, the index of the token the generation
      stopped at, and the trim flag that token passes on. */
  datatype Generated = Generated(output: seq<Block>, index: nat, trimAfter: bool)

  /** What a `-` trims: line breaks only in blocks.hpp (`text::trim_chars`),
      the default whitespace in parser.hpp. */
  function TrimChars(gen: Generator): string
  {
    match gen
    case Blocks => "\r\n"
    case Parser => StrTools.DefaultTrimChars
  }

  /** `text<input, start, end, ltrim, rtrim>`: the slice, trimmed on the
      sides the flags name. */
  function TextOf(gen: Generator, s: string, from: nat, to: nat, l: bool, r: bool): (b: Block)
    requires from <= to <= |s| && ViewSize(s)
    ensures b.TextBlock? && b.from == from && b.to == to
  {
    var v := s[from..to];
    var cs := TrimChars(gen);
    TextBlock(from, to,
      if l && r then StrTools.Trim(v, cs)
      else if l then StrTools.LTrim(v, cs)
      else if r then StrTools.RTrim(v, cs)
      else v)
  }

  /** `push_text`: the text before token `index` — from the start of the
      template for the first token, else from after the previous token.
      Nothing is pushed only for a first token at position 0; blocks.hpp
      pushes a text, empty for two adjacent tokens, whenever the token
      starts after the previous one's last character. parser.hpp ends the
      text one character early and pushes nothing for a gap below two. */
  function PushText(gen: Generator, s: string, toks: seq<Token>, out: seq<Block>, index: nat, l: bool, r: bool)
    : (o: seq<Block>)
    requires index < |toks| && Chain(s, toks) && ViewSize(s)
    ensures o == out || (|o| == |out| + 1 && o[..|out|] == out && o[|out|].TextBlock?)
  {
    var t := toks[index];
    assert ResumeAt(toks, index) <= t.start && t.end < |s|;
    if index == 0 then
      if t.start > 0 then out + [TextOf(gen, s, 0, t.start, l, r)] else out
    else
      var prev := toks[index - 1];
      match gen
      case Blocks =>
        if t.start - prev.end > 0 then out + [TextOf(gen, s, prev.end + 1, t.start, l, r)] else out
      case Parser =>
        if t.start - prev.end > 1 then out + [TextOf(gen, s, prev.end + 1, t.start - 1, l, r)] else out
  }

  /** Token `j` is an `endfor` tag: where a generation hands back. */
  predicate EndsAt(s: string, toks: seq<Token>, j: nat)
  {
    && j < |toks| && toks[j].kind == Control && toks[j].end < |s|
    && Content(s, toks[j]).Ok?
    && ForTag(Content(s, toks[j]).value).None?
    && EndforTag(Content(s, toks[j]).value).Some?
  }

  /** `generate_blocks_impl<input, toks, output, index, ltrim>`: render
      tokens become render blocks, `for` tags for blocks whose body is
      generated up to the matching `endfor`, which hands back; comments only
      trim the text around them; after the last token comes the final text,
      and past it there is no token to read. */
  function Generate(gen: Generator, s: string, toks: seq<Token>, out: seq<Block>, index: nat, ltrim: bool)
    : (r: Result<Generated, CompileError>)
    requires Chain(s, toks) && ViewSize(s) && index <= |toks| + 1
    ensures r.Ok? ==> index <= r.value.index <= |toks|
    ensures r.Ok? ==> |r.value.output| >= |out| && r.value.output[..|out|] == out
    decreases |toks| + 1 - index, 2
  {
    if index < |toks| then
      var t := toks[index];
      if t.kind.Render? then GenerateRender(gen, s, toks, out, index, ltrim)
      else if t.kind.Control? then GenerateControl(gen, s, toks, out, index, ltrim)
      else
        var o := PushText(gen, s, toks, out, index, true, true);
        var r := Generate(gen, s, toks, o, index + 1, false);
        assert r.Ok? ==> r.value.output[..|out|] == r.value.output[..|o|][..|out|];
        r
    else if index == 0 || index > |toks| then Err(NoSuchToken)
    else
      var last := toks[index - 1];
      assert ResumeAt(toks, index - 1) <= last.start && last.end < |s|;
      Ok(Generated(out + [TextOf(gen, s, last.end + 1, |s|, ltrim, false)], index, false))
  }

  /** A render token: the text before it, its block, then the next token. */
  function GenerateRender(gen: Generator, s: string, toks: seq<Token>, out: seq<Block>, index: nat, ltrim: bool)
    : (r: Result<Generated, CompileError>)
    requires Chain(s, toks) && ViewSize(s) && index < |toks| && toks[index].kind.Render?
    ensures r.Ok? ==> index < r.value.index <= |toks|
    ensures r.Ok? ==> |r.value.output| >= |out| && r.value.output[..|out|] == out
    decreases |toks| + 1 - index, 0
  {
    var t := toks[index];
    assert ResumeAt(toks, index) <= t.start && t.end < |s|;
    if t.start + 3 > t.end then Err(BadRange)
    else
      match CttEvaluator.EvaluatorOf(s, t.start + 2, t.end - 1)
      case None => Err(NoEvaluator)
      case Some(e) =>
        var o := PushText(gen, s, toks, out, index, ltrim, false) + [RenderBlock(t, e)];
        var r := Generate(gen, s, toks, o, index + 1, false);
        assert r.Ok? ==> r.value.output[..|out|] == r.value.output[..|o|][..|out|];
        r
  }

  /** A control token: a `for` tag (tried first), an `endfor` tag, or the
      static_assert "Unhandled block !". */
  function GenerateControl(gen: Generator, s: string, toks: seq<Token>, out: seq<Block>, index: nat, ltrim: bool)
    : (r: Result<Generated, CompileError>)
    requires Chain(s, toks) && ViewSize(s) && index < |toks| && toks[index].kind.Control?
    ensures r.Ok? ==> index <= r.value.index <= |toks|
    ensures r.Ok? ==> |r.value.output| >= |out| && r.value.output[..|out|] == out
    decreases |toks| + 1 - index, 1
  {
    var t := toks[index];
    assert ResumeAt(toks, index) <= t.start && t.end < |s|;
    match Content(s, t)
    case Err(e) => Err(e)
    case Ok(c) =>
      match ForTag(c)
      case None =>
        (match EndforTag(c)
         case Some(marks) => Ok(Generated(PushText(gen, s, toks, out, index, ltrim, marks.0), index, marks.1))
         case None => Err(Unhandled))
      case Some(h) =>
        if gen == Parser && (h.trimBefore || h.trimAfter) then Err(TrimMarker)
        else GenerateFor(gen, s, toks, out, index, ltrim, h)
  }

  /** A `for` tag: its body is generated from the next token with the tag's
      trailing trim; the generation goes on after the token the body
      stopped at. blocks.hpp passes on the trailing trim of that token,
      parser.hpp the tag's own. */
  function GenerateFor(gen: Generator, s: string, toks: seq<Token>, out: seq<Block>, index: nat, ltrim: bool,
                       h: ForHead)
    : (r: Result<Generated, CompileError>)
    requires Chain(s, toks) && ViewSize(s) && index < |toks|
    ensures r.Ok? ==> index < r.value.index <= |toks|
    ensures r.Ok? ==> |r.value.output| >= |out| && r.value.output[..|out|] == out
    decreases |toks| + 1 - index, 0
  {
    match Generate(gen, s, toks, [], index + 1, h.trimAfter)
    case Err(e) => Err(e)
    case Ok(inner) =>
      var after := if gen == Blocks then inner.trimAfter else h.trimAfter;
      var block := ForBlock(h.iter, h.container, inner.output, h.trimBefore, after);
      var o := PushText(gen, s, toks, out, index, ltrim, h.trimBefore) + [block];
      var r := Generate(gen, s, toks, o, inner.index + 1, after);
      assert r.Ok? ==> r.value.output[..|out|] == r.value.output[..|o|][..|out|];
      r
  }

  /** `generate_blocks<input, parse_tokens<input>()>().output`: the blocks
      of a template. A template without tokens fails: the final text reads
      the token before index 0. */
  function Compile(gen: Generator, s: string): (r: Result<seq<Block>, CompileError>)
    requires |s| >= 1 && ViewSize(s)
    ensures ParseTokens(s).Err? ==> r.Err?
    ensures ParseTokens(s) == Ok([]) ==> r == Err(NoSuchToken)
  {
    ParseTokensSound(s);
    match ParseTokens(s)
    case Err(e) => Err(e)
    case Ok(toks) =>
      match Generate(gen, s, toks, [], 0, false)
      case Err(e) => Err(e)
      case Ok(g) => Ok(g.output)
  }

  // ---------------------------------------------------------------------
  // properties of the generator

  /** The text `[from, to)` trimmed as far as `[i, j)`: only trim characters
      are dropped, and only on a side whose flag is set. */
  predicate TrimmedTo(s: string, cs: string, from: nat, to: nat, i: nat, j: nat, l: bool, r: bool)
  {
    && from <= i <= j <= to <= |s|
    && (!l ==> i == from) && (!r ==> j == to)
    && (forall k :: from <= k < i ==> s[k] in cs)
    && (forall k :: j <= k < to ==> s[k] in cs)
  }

  /** `trim` drops trim characters from both ends. */
  lemma TrimmedBoth(s: string, cs: string, from: nat, to: nat)
    requires from <= to <= |s| && ViewSize(s)
    ensures exists i: nat, j: nat :: TrimmedTo(s, cs, from, to, i, j, true, true)
                                     && StrTools.Trim(s[from..to], cs) == s[i..j]
  {
    TrimmedLeft(s, cs, from, to);
    var i: nat :| TrimmedTo(s, cs, from, to, i, to, true, false) && StrTools.LTrim(s[from..to], cs) == s[i..to];
    TrimmedRight(s, cs, i, to);
    var j: nat :| TrimmedTo(s, cs, i, to, i, j, false, true) && StrTools.RTrim(s[i..to], cs) == s[i..j];
    assert StrTools.Trim(s[from..to], cs) == s[i..j];
    assert TrimmedTo(s, cs, from, to, i, j, true, true);
  }

  /** `ltrim` drops trim characters from the front. */
  lemma TrimmedLeft(s: string, cs: string, from: nat, to: nat)
    requires from <= to <= |s| && ViewSize(s)
    ensures exists i: nat :: TrimmedTo(s, cs, from, to, i, to, true, false)
                             && StrTools.LTrim(s[from..to], cs) == s[i..to]
  {
    var v := s[from..to];
    var lt := StrTools.LTrim(v, cs);
    var i := to - |lt|;
    assert lt == s[i..to];
    forall k | from <= k < i ensures s[k] in cs { assert s[k] == v[k - from]; }
    assert TrimmedTo(s, cs, from, to, i, to, true, false);
  }

  /** `rtrim` drops trim characters from the back. */
  lemma TrimmedRight(s: string, cs: string, from: nat, to: nat)
    requires from <= to <= |s| && ViewSize(s)
    ensures exists j: nat :: TrimmedTo(s, cs, from, to, from, j, false, true)
                             && StrTools.RTrim(s[from..to], cs) == s[from..j]
  {
    var v := s[from..to];
    var rt := StrTools.RTrim(v, cs);
    var j := from + |rt|;
    assert rt == s[from..j];
    forall k | j <= k < to ensures s[k] in cs { assert s[k] == v[k - from]; }
    assert TrimmedTo(s, cs, from, to, from, j, false, true);
  }

  /** A `-` removes only trim characters, and only on the side it is on. */
  lemma TextTrims(gen: Generator, s: string, from: nat, to: nat, l: bool, r: bool)
    requires from <= to <= |s| && ViewSize(s)
    ensures exists i: nat, j: nat :: TrimmedTo(s, TrimChars(gen), from, to, i, j, l, r)
                                     && TextOf(gen, s, from, to, l, r).body == s[i..j]
  {
    var cs := TrimChars(gen);
    var body := TextOf(gen, s, from, to, l, r).body;
    if l && r {
      assert body == StrTools.Trim(s[from..to], cs);
      TrimmedBoth(s, cs, from, to);
    } else if l {
      assert body == StrTools.LTrim(s[from..to], cs);
      TrimmedLeft(s, cs, from, to);
      var i: nat :| TrimmedTo(s, cs, from, to, i, to, true, false) && StrTools.LTrim(s[from..to], cs) == s[i..to];
      assert TrimmedTo(s, cs, from, to, i, to, l, r);
    } else if r {
      assert body == StrTools.RTrim(s[from..to], cs);
      TrimmedRight(s, cs, from, to);
      var j: nat :| TrimmedTo(s, cs, from, to, from, j, false, true) && StrTools.RTrim(s[from..to], cs) == s[from..j];
      assert TrimmedTo(s, cs, from, to, from, j, l, r);
    } else {
      assert TrimmedTo(s, cs, from, to, from, to, l, r);
    }
  }

  /** The template text a flat list of blocks stands for: a text block's
      body and a render block's whole token. */
  function Spliced(s: string, bs: seq<Block>): string
  {
    if bs == [] then "" else Spliced(s, bs[..|bs| - 1]) + Piece(s, bs[|bs| - 1])
  }

  function Piece(s: string, b: Block): string
  {
    match b
    case TextBlock(_, _, body) => body
    case RenderBlock(t, _) => if t.start <= t.end < |s| then s[t.start..t.end + 1] else ""
    case ForBlock(_, _, _, _, _) => ""
  }

  /** Where the text covered by the first `i` tokens ends. */
  function Covered(toks: seq<Token>, i: nat): nat
    requires i <= |toks|
  {
    if i == 0 then 0 else toks[i - 1].end + 1
  }

  /** Two adjacent slices of a prefix join. */
  lemma PrefixJoin(s: string, i: nat, k: nat)
    requires i <= k <= |s|
    ensures s[..i] + s[i..k] == s[..k]
  {
  }

  /** Splicing one more block appends its piece. */
  lemma SplicedPush(s: string, bs: seq<Block>, b: Block)
    ensures Spliced(s, bs + [b]) == Spliced(s, bs) + Piece(s, b)
  {
    assert (bs + [b])[..|bs|] == bs;
  }

  /** A token ends with `}` and the next one starts with `{`: two tokens
      never share a character. */
  lemma TokensApart(s: string, toks: seq<Token>, index: nat)
    requires Tokenizes(s, toks) && 0 < index < |toks|
    ensures toks[index - 1].end < toks[index].start
  {
    var prev, t := toks[index - 1], toks[index];
    assert Found(s, prev, ResumeAt(toks, index - 1));
    assert Found(s, t, ResumeAt(toks, index));
    assert s[prev.end] == EndTok(prev.kind)[1] == '}';
    assert s[t.start] == '{';
  }

  /** Untrimmed text is the slice itself. */
  lemma PlainText(gen: Generator, s: string, from: nat, to: nat)
    requires from <= to <= |s| && ViewSize(s)
    ensures TextOf(gen, s, from, to, false, false) == TextBlock(from, to, s[from..to])
  {
  }

  /** What blocks.hpp's `push_text` without trimming pushes: the slice
      from where the previous token ended (the start of the template for
      the first token) up to the token, empty only before a first token at
      the start. */
  lemma PushTextPlain(s: string, toks: seq<Token>, out: seq<Block>, index: nat)
    requires Tokenizes(s, toks) && Chain(s, toks) && ViewSize(s) && index < |toks|
    ensures Covered(toks, index) <= toks[index].start < |s|
    ensures PushText(Blocks, s, toks, out, index, false, false)
            == if index == 0 && toks[index].start == 0 then out
               else out + [TextBlock(Covered(toks, index), toks[index].start, s[Covered(toks, index)..toks[index].start])]
  {
    assert ResumeAt(toks, index) <= toks[index].start && toks[index].end < |s|;
    if index == 0 {
      if toks[index].start > 0 {
        PlainText(Blocks, s, 0, toks[index].start);
      }
    } else {
      TokensApart(s, toks, index);
      PlainText(Blocks, s, toks[index - 1].end + 1, toks[index].start);
    }
  }

  /** The text before token `index` joins what came before it up to the
      token: blocks.hpp's `push_text` without trimming loses nothing. */
  lemma PushTextJoins(s: string, toks: seq<Token>, out: seq<Block>, index: nat)
    requires Tokenizes(s, toks) && Chain(s, toks) && ViewSize(s) && index < |toks|
    requires Covered(toks, index) <= |s| && Spliced(s, out) == s[..Covered(toks, index)]
    ensures toks[index].start <= |s|
    ensures Spliced(s, PushText(Blocks, s, toks, out, index, false, false)) == s[..toks[index].start]
  {
    PushTextPlain(s, toks, out, index);
    var c, st := Covered(toks, index), toks[index].start;
    if !(index == 0 && st == 0) {
      var b := TextBlock(c, st, s[c..st]);
      SplicedPush(s, out, b);
      PrefixJoin(s, c, st);
    }
  }

  /** One render token: the text before it and the token itself are
      spliced on. */
  lemma RenderStep(s: string, toks: seq<Token>, out: seq<Block>, index: nat, e: CttEvaluator.Evaluator)
    requires Tokenizes(s, toks) && Chain(s, toks) && ViewSize(s) && index < |toks|
    requires Covered(toks, index) <= |s| && Spliced(s, out) == s[..Covered(toks, index)]
    ensures Covered(toks, index + 1) <= |s|
    ensures Spliced(s, Pushed(Blocks, s, toks, out, index, false, e)) == s[..Covered(toks, index + 1)]
  {
    var t := toks[index];
    assert ResumeAt(toks, index) <= t.start && t.end < |s|;
    PushTextJoins(s, toks, out, index);
    SplicedPush(s, PushText(Blocks, s, toks, out, index, false, false), RenderBlock(t, e));
    PrefixJoin(s, t.start, t.end + 1);
  }

  /** After the last token: the final text completes the template. */
  lemma FinalStep(s: string, toks: seq<Token>, out: seq<Block>)
    requires Chain(s, toks) && ViewSize(s) && 0 < |toks|
    requires Covered(toks, |toks|) <= |s| && Spliced(s, out) == s[..Covered(toks, |toks|)]
    ensures Generate(Blocks, s, toks, out, |toks|, false).Ok?
    ensures Spliced(s, Generate(Blocks, s, toks, out, |toks|, false).value.output) == s
  {
    var last := toks[|toks| - 1];
    assert ResumeAt(toks, |toks| - 1) <= last.start && last.end < |s|;
    var b := TextOf(Blocks, s, last.end + 1, |s|, false, false);
    assert Generate(Blocks, s, toks, out, |toks|, false).value.output == out + [b];
    SplicedPush(s, out, b);
    PrefixJoin(s, last.end + 1, |s|);
    assert s[..|s|] == s;
  }

  /** A render token is generated by `GenerateRender`. */
  lemma GenerateRenderToken(gen: Generator, s: string, toks: seq<Token>, out: seq<Block>, index: nat, ltrim: bool)
    requires Chain(s, toks) && ViewSize(s) && index < |toks| && toks[index].kind.Render?
    ensures Generate(gen, s, toks, out, index, ltrim) == GenerateRender(gen, s, toks, out, index, ltrim)
  {
  }

  /** A render token too short for content fails. */
  lemma RenderBadRange(gen: Generator, s: string, toks: seq<Token>, out: seq<Block>, index: nat, ltrim: bool)
    requires Chain(s, toks) && ViewSize(s) && index < |toks| && toks[index].kind.Render?
    requires toks[index].start + 3 > toks[index].end
    ensures GenerateRender(gen, s, toks, out, index, ltrim) == Err(BadRange)
  {
  }

  /** A render token whose content no evaluator accepts fails. */
  lemma RenderNoEvaluator(gen: Generator, s: string, toks: seq<Token>, out: seq<Block>, index: nat, ltrim: bool)
    requires Chain(s, toks) && ViewSize(s) && index < |toks| && toks[index].kind.Render?
    requires toks[index].start + 3 <= toks[index].end < |s|
    requires CttEvaluator.EvaluatorOf(s, toks[index].start + 2, toks[index].end - 1).None?
    ensures GenerateRender(gen, s, toks, out, index, ltrim) == Err(NoEvaluator)
  {
  }

  /** The output after a render token with evaluator `e`: the text before
      it, then its block. */
  function Pushed(gen: Generator, s: string, toks: seq<Token>, out: seq<Block>, index: nat, ltrim: bool,
                  e: CttEvaluator.Evaluator): seq<Block>
    requires index < |toks| && Chain(s, toks) && ViewSize(s)
  {
    PushText(gen, s, toks, out, index, ltrim, false) + [RenderBlock(toks[index], e)]
  }

  /** A render token with an evaluator: the text before it and its block
      are pushed, and the generation goes on from the next token. */
  lemma RenderNext(gen: Generator, s: string, toks: seq<Token>, out: seq<Block>, index: nat, ltrim: bool)
    requires Chain(s, toks) && ViewSize(s) && index < |toks| && toks[index].kind.Render?
    requires toks[index].start + 3 <= toks[index].end < |s|
    requires CttEvaluator.EvaluatorOf(s, toks[index].start + 2, toks[index].end - 1).Some?
    ensures GenerateRender(gen, s, toks, out, index, ltrim)
            == Generate(gen, s, toks, Pushed(gen, s, toks, out, index, ltrim,
                                             CttEvaluator.EvaluatorOf(s, toks[index].start + 2, toks[index].end - 1).value),
                        index + 1, false)
  {
  }

  /** From any point of a template made only of text and render tokens, the
      blocks.hpp generator reproduces the rest of the template: every
      character is in exactly one block, in order. */
  lemma {:induction false} RenderOnlyTilesFrom(s: string, toks: seq<Token>, out: seq<Block>, index: nat)
    requires Tokenizes(s, toks) && Chain(s, toks) && ViewSize(s) && 0 < |toks| && index <= |toks|
    requires forall i :: 0 <= i < |toks| ==> toks[i].kind.Render?
    requires Covered(toks, index) <= |s| && Spliced(s, out) == s[..Covered(toks, index)]
    ensures var r := Generate(Blocks, s, toks, out, index, false);
            r.Ok? ==> Spliced(s, r.value.output) == s
    decreases |toks| - index, 1
  {
    if index < |toks| {
      GenerateRenderToken(Blocks, s, toks, out, index, false);
      assert ResumeAt(toks, index) <= toks[index].start && toks[index].end < |s|;
      if toks[index].start + 3 > toks[index].end {
        RenderBadRange(Blocks, s, toks, out, index, false);
      } else if CttEvaluator.EvaluatorOf(s, toks[index].start + 2, toks[index].end - 1).None? {
        RenderNoEvaluator(Blocks, s, toks, out, index, false);
      } else {
        RenderEvalTiles(s, toks, out, index, CttEvaluator.EvaluatorOf(s, toks[index].start + 2, toks[index].end - 1).value);
      }
    } else {
      FinalStep(s, toks, out);
    }
  }

  /** A render token with evaluator `e`: spliced on, the rest reproduces
      the rest of the template. */
  lemma {:induction false} RenderEvalTiles(s: string, toks: seq<Token>, out: seq<Block>, index: nat,
                                            e: CttEvaluator.Evaluator)
    requires Tokenizes(s, toks) && Chain(s, toks) && ViewSize(s) && 0 < |toks| && index < |toks|
    requires forall i :: 0 <= i < |toks| ==> toks[i].kind.Render?
    requires Covered(toks, index) <= |s| && Spliced(s, out) == s[..Covered(toks, index)]
    requires toks[index].start + 3 <= toks[index].end < |s|
    requires CttEvaluator.EvaluatorOf(s, toks[index].start + 2, toks[index].end - 1) == Some(e)
    ensures var r := GenerateRender(Blocks, s, toks, out, index, false);
            r.Ok? ==> Spliced(s, r.value.output) == s
    decreases |toks| - index, 0
  {
    RenderNext(Blocks, s, toks, out, index, false);
    RenderStep(s, toks, out, index, e);
    RenderOnlyTilesFrom(s, toks, Pushed(Blocks, s, toks, out, index, false, e), index + 1);
  }


  /** A template made only of text and render tokens compiles, with
      blocks.hpp, to blocks that spell the template out again. */
  lemma RenderOnlyTiles(s: string)
    requires |s| >= 1 && ViewSize(s)
    requires ParseTokens(s).Ok? && forall i :: 0 <= i < |ParseTokens(s).value| ==> ParseTokens(s).value[i].kind.Render?
    ensures Compile(Blocks, s).Ok? ==> Spliced(s, Compile(Blocks, s).value) == s
  {
    ParseTokensSound(s);
    if ParseTokens(s).value != [] {
      RenderOnlyTilesFrom(s, ParseTokens(s).value, [], 0);
    }
  }

  /** parser.hpp's `push_text` ends the text between two tokens one
      character before the next token, so that character reaches no block. */
  lemma ParserTextStopsShort(s: string, toks: seq<Token>, out: seq<Block>, index: nat, l: bool, r: bool)
    requires Chain(s, toks) && ViewSize(s) && 0 < index < |toks|
    requires toks[index].start - toks[index - 1].end > 1
    ensures var p := PushText(Parser, s, toks, out, index, l, r);
            |p| == |out| + 1 && p[|out|].to == toks[index].start - 1
  {
  }

  /** The tokens of `{{a}}XY{{b}}`. */
  lemma ExampleTokens()
    ensures ParseTokens("{{a}}XY{{b}}") == Ok([Token(0, 4, Render), Token(7, 11, Render)])
  {
    var s := "{{a}}XY{{b}}";
    var t0, t1 := Token(0, 4, Render), Token(7, 11, Render);
    assert NextEnd(s, 3, 0) == Ok(Some(t0));
    assert NextEnd(s, 2, 0) == Ok(Some(t0));
    assert NextEnd(s, 1, 0) == Ok(Some(t0));
    assert NextStart(s, 0) == Some(0);
    assert NextToken(s, 0) == Ok(Some(t0));
    assert NextStart(s, 7) == Some(7);
    assert NextStart(s, 6) == Some(7);
    assert NextStart(s, 5) == Some(7);
    assert NextStart(s, 4) == Some(7);
    assert NextEnd(s, 10, 7) == Ok(Some(t1));
    assert NextEnd(s, 9, 7) == Ok(Some(t1));
    assert NextEnd(s, 8, 7) == Ok(Some(t1));
    assert NextToken(s, 4) == Ok(Some(t1));
    assert ParseFrom(s, 11, [t0, t1]) == Ok([t0, t1]);
    assert [t0] + [t1] == [t0, t1];
    assert ParseFrom(s, 4, [t0]) == Ok([t0, t1]);
    assert [] + [t0] == [t0];
    assert ParseFrom(s, 0, []) == Ok([t0, t1]);
  }

  /** No word character is whitespace. */
  lemma WordCharKept(c: char)
    requires CttEvaluator.IsWordChar(c)
    ensures c !in StrTools.DefaultTrimChars
  {
  }

  /** A one-character view that is no whitespace trims to itself. */
  lemma SingleKept(v: string)
    requires |v| == 1 && ViewSize(v) && v[0] !in StrTools.DefaultTrimChars
    ensures StrTools.Trim(v) == v
  {
    StrTools.LTrimFixed(v, StrTools.DefaultTrimChars);
    StrTools.RTrimFixed(v, StrTools.DefaultTrimChars);
  }

  /** A one-character view that is a word character is its own evaluator. */
  lemma ViewOfWord(s: string, p: nat, q: nat, c: char)
    requires q == p + 1 && q <= |s| && ViewSize(s) && s[p] == c && CttEvaluator.IsWordChar(c)
    ensures CttEvaluator.EvaluatorOf(s, p, q) == Some(CttEvaluator.ValueEval([c]))
  {
    WordCharKept(c);
    var v := s[p..q];
    assert v[0] == c;
    SingleKept(v);
    assert v == [c];
  }

  /** Nothing precedes the first token of `{{a}}XY{{b}}`. */
  lemma ExamplePushedFirst(gen: Generator, s: string, toks: seq<Token>, o: seq<Block>)
    requires |s| == 12 && s[2] == 'a' && s[9] == 'b' && ViewSize(s) && toks == [Token(0, 4, Render), Token(7, 11, Render)] && Chain(s, toks)
    ensures Pushed(gen, s, toks, o, 0, false, CttEvaluator.ValueEval("a"))
            == o + [RenderBlock(toks[0], CttEvaluator.ValueEval("a"))]
  {
  }

  /** `XY`, or `X` alone with parser.hpp, precedes the second token. */
  lemma ExamplePushedSecond(gen: Generator, to: nat, s: string, toks: seq<Token>, o: seq<Block>)
    requires to == (if gen == Blocks then 7 else 6)
    requires |s| == 12 && s[2] == 'a' && s[9] == 'b' && ViewSize(s) && toks == [Token(0, 4, Render), Token(7, 11, Render)] && Chain(s, toks)
    ensures Pushed(gen, s, toks, o, 1, false, CttEvaluator.ValueEval("b"))
            == o + [TextBlock(5, to, s[5..to]), RenderBlock(toks[1], CttEvaluator.ValueEval("b"))]
  {
    assert PushText(gen, s, toks, o, 1, false, false) == o + [TextBlock(5, to, s[5..to])];
  }

  /** `{{a}}XY{{b}}`: the first render token. */
  lemma ExampleFirst(gen: Generator, s: string, toks: seq<Token>, o: seq<Block>, g: Generated)
    requires |s| == 12 && s[2] == 'a' && s[9] == 'b' && ViewSize(s) && toks == [Token(0, 4, Render), Token(7, 11, Render)] && Chain(s, toks)
    requires Generate(gen, s, toks, o + [RenderBlock(toks[0], CttEvaluator.ValueEval("a"))], 1, false) == Ok(g)
    ensures Generate(gen, s, toks, o, 0, false) == Ok(g)
  {
    ViewOfWord(s, toks[0].start + 2, toks[0].end - 1, 'a');
    GenerateRenderToken(gen, s, toks, o, 0, false);
    RenderNext(gen, s, toks, o, 0, false);
    ExamplePushedFirst(gen, s, toks, o);
  }

  /** The second render token, with the text before it. */
  lemma ExampleSecond(gen: Generator, to: nat, s: string, toks: seq<Token>, o: seq<Block>)
    requires to == (if gen == Blocks then 7 else 6)
    requires |s| == 12 && s[2] == 'a' && s[9] == 'b' && ViewSize(s) && toks == [Token(0, 4, Render), Token(7, 11, Render)] && Chain(s, toks)
    ensures Generate(gen, s, toks, o, 1, false)
            == Generate(gen, s, toks, o + [TextBlock(5, to, s[5..to]), RenderBlock(toks[1], CttEvaluator.ValueEval("b"))],
                        2, false)
  {
    ViewOfWord(s, toks[1].start + 2, toks[1].end - 1, 'b');
    GenerateRenderToken(gen, s, toks, o, 1, false);
    RenderNext(gen, s, toks, o, 1, false);
    ExamplePushedSecond(gen, to, s, toks, o);
  }

  /** The final text after the second token is empty. */
  lemma ExampleLast(gen: Generator, s: string, toks: seq<Token>, o: seq<Block>)
    requires |s| == 12 && s[2] == 'a' && s[9] == 'b' && ViewSize(s) && toks == [Token(0, 4, Render), Token(7, 11, Render)] && Chain(s, toks)
    ensures Generate(gen, s, toks, o, 2, false) == Ok(Generated(o + [TextBlock(12, 12, "")], 2, false))
  {
    assert TextOf(gen, s, 12, 12, false, false) == TextBlock(12, 12, "");
  }

  lemma ExampleList(r0: Block, t: Block, r1: Block, f: Block)
    ensures [r0] + [t, r1] + [f] == [r0, t, r1, f]
  {
  }

  /** The generation of `{{a}}XY{{b}}` with either generator: the text
      between the tokens runs from 5 to `to`. */
  lemma ExampleGenerate(gen: Generator, to: nat, s: string, toks: seq<Token>)
    requires to == (if gen == Blocks then 7 else 6)
    requires s == "{{a}}XY{{b}}" && toks == [Token(0, 4, Render), Token(7, 11, Render)] && Chain(s, toks)
    ensures Generate(gen, s, toks, [], 0, false)
            == Ok(Generated([RenderBlock(toks[0], CttEvaluator.ValueEval("a")), TextBlock(5, to, s[5..to]),
                             RenderBlock(toks[1], CttEvaluator.ValueEval("b")), TextBlock(12, 12, "")],
                            2, false))
  {
    var r0 := RenderBlock(toks[0], CttEvaluator.ValueEval("a"));
    ExampleSecond(gen, to, s, toks, [r0]);
    ExampleLast(gen, s, toks, [r0] + [TextBlock(5, to, s[5..to]), RenderBlock(toks[1], CttEvaluator.ValueEval("b"))]);
    ExampleList(r0, TextBlock(5, to, s[5..to]), RenderBlock(toks[1], CttEvaluator.ValueEval("b")), TextBlock(12, 12, ""));
    assert [] + [r0] == [r0];
    ExampleFirst(gen, s, toks, [], Generate(gen, s, toks, [r0], 1, false).value);
  }

  /** `{{a}}XY{{b}}` with either generator: the text between the tokens
      runs from 5 to `to`. */
  lemma ExampleBlocks(gen: Generator, to: nat)
    requires to == (if gen == Blocks then 7 else 6)
    ensures Compile(gen, "{{a}}XY{{b}}")
            == Ok([RenderBlock(Token(0, 4, Render), CttEvaluator.ValueEval("a")),
                   TextBlock(5, to, "{{a}}XY{{b}}"[5..to]),
                   RenderBlock(Token(7, 11, Render), CttEvaluator.ValueEval("b")), TextBlock(12, 12, "")])
  {
    ExampleTokens();
    ParseTokensSound("{{a}}XY{{b}}");
    ExampleGenerate(gen, to, "{{a}}XY{{b}}", [Token(0, 4, Render), Token(7, 11, Render)]);
  }

  /** The blocks of `{{a}}XY{{b}}` spell the template with `[to, 7)` left out. */
  lemma ExampleSpliced(s: string, to: nat, bs: seq<Block>)
    requires s == "{{a}}XY{{b}}" && 5 <= to <= 7
    requires bs == [RenderBlock(Token(0, 4, Render), CttEvaluator.ValueEval("a")), TextBlock(5, to, s[5..to]),
                    RenderBlock(Token(7, 11, Render), CttEvaluator.ValueEval("b")), TextBlock(12, 12, "")]
    ensures Spliced(s, bs) == s[..to] + s[7..]
  {
    assert bs[..1][..0] == [];
    assert Spliced(s, bs[..1]) == s[0..5];
    assert bs[..2][..1] == bs[..1];
    assert Spliced(s, bs[..2]) == s[0..5] + s[5..to];
    assert bs[..3][..2] == bs[..2];
    assert Spliced(s, bs[..3]) == s[0..5] + s[5..to] + s[7..12];
    assert bs[..3] == bs[..|bs| - 1];
    assert Spliced(s, bs) == s[0..5] + s[5..to] + s[7..12];
    assert s[0..5] + s[5..to] == s[..to];
  }

  /** With parser.hpp, `{{a}}XY{{b}}` compiles to blocks that spell
      `{{a}}X{{b}}`: the `Y` is lost. blocks.hpp keeps it. */
  lemma ParserDropsText(s: string)
    requires s == "{{a}}XY{{b}}"
    ensures Compile(Parser, s).Ok? && Spliced(s, Compile(Parser, s).value) == "{{a}}X{{b}}"
    ensures Compile(Blocks, s).Ok? && Spliced(s, Compile(Blocks, s).value) == s
  {
    ExampleSpelled(Parser, 6, s);
    ExampleSpelled(Blocks, 7, s);
    ExampleCut(s);
  }

  lemma ExampleCut(s: string)
    requires s == "{{a}}XY{{b}}"
    ensures s[..6] + s[7..] == "{{a}}X{{b}}" && s[..7] + s[7..] == s
  {
    assert s[..6] + s[7..] == "{{a}}X{{b}}";
  }

  /** The blocks of `{{a}}XY{{b}}` spell it with `[to, 7)` left out. */
  lemma ExampleSpelled(gen: Generator, to: nat, s: string)
    requires to == (if gen == Blocks then 7 else 6) && s == "{{a}}XY{{b}}"
    ensures Compile(gen, s).Ok? && Spliced(s, Compile(gen, s).value) == s[..to] + s[7..]
  {
    ExampleBlocks(gen, to);
    ExampleSpliced("{{a}}XY{{b}}", to, Compile(gen, "{{a}}XY{{b}}").value);
  }

  /** A comment token: the text before it, trimmed on both sides, and
      the generation goes on from the next token. */
  lemma GenerateCommentToken(gen: Generator, s: string, toks: seq<Token>, out: seq<Block>, index: nat, ltrim: bool)
    requires Chain(s, toks) && ViewSize(s) && index < |toks| && toks[index].kind.Comment?
    ensures Generate(gen, s, toks, out, index, ltrim)
            == Generate(gen, s, toks, PushText(gen, s, toks, out, index, true, true), index + 1, false)
  {
  }

  /** A control token is generated by `GenerateControl`. */
  lemma GenerateControlToken(gen: Generator, s: string, toks: seq<Token>, out: seq<Block>, index: nat, ltrim: bool)
    requires Chain(s, toks) && ViewSize(s) && index < |toks| && toks[index].kind.Control?
    ensures Generate(gen, s, toks, out, index, ltrim) == GenerateControl(gen, s, toks, out, index, ltrim)
  {
  }

  /** A `for` tag whose body was generated as `inner`: the generation goes
      on after the token the body stopped at. */
  lemma ForNext(gen: Generator, s: string, toks: seq<Token>, out: seq<Block>, index: nat, ltrim: bool, h: ForHead,
                inner: Generated, after: bool, o: seq<Block>)
    requires Chain(s, toks) && ViewSize(s) && index < |toks|
    requires Generate(gen, s, toks, [], index + 1, h.trimAfter) == Ok(inner)
    requires after == (if gen == Blocks then inner.trimAfter else h.trimAfter)
    requires o == PushText(gen, s, toks, out, index, ltrim, h.trimBefore)
                  + [ForBlock(h.iter, h.container, inner.output, h.trimBefore, after)]
    ensures GenerateFor(gen, s, toks, out, index, ltrim, h) == Generate(gen, s, toks, o, inner.index + 1, after)
  {
  }

  /** A `for` tag whose body fails fails. */
  lemma ForFails(gen: Generator, s: string, toks: seq<Token>, out: seq<Block>, index: nat, ltrim: bool, h: ForHead)
    requires Chain(s, toks) && ViewSize(s) && index < |toks|
    requires Generate(gen, s, toks, [], index + 1, h.trimAfter).Err?
    ensures GenerateFor(gen, s, toks, out, index, ltrim, h).Err?
  {
  }

  /** A generation stops short of the end only at an `endfor` tag:
      `generate_blocks_impl` returns early for nothing else. */
  lemma {:induction false} StopsAtEndfor(gen: Generator, s: string, toks: seq<Token>, out: seq<Block>, index: nat,
                                          ltrim: bool)
    requires Chain(s, toks) && ViewSize(s) && index <= |toks| + 1
    ensures var r := Generate(gen, s, toks, out, index, ltrim);
            r.Ok? && r.value.index < |toks| ==> EndsAt(s, toks, r.value.index)
    decreases |toks| + 1 - index, 3
  {
    if index < |toks| {
      if toks[index].kind.Render? {
        RenderStopsAtEndfor(gen, s, toks, out, index, ltrim);
      } else if toks[index].kind.Control? {
        ControlStopsAtEndfor(gen, s, toks, out, index, ltrim);
      } else {
        CommentStopsAtEndfor(gen, s, toks, out, index, ltrim);
      }
    }
  }

  lemma {:induction false} CommentStopsAtEndfor(gen: Generator, s: string, toks: seq<Token>, out: seq<Block>,
                                                 index: nat, ltrim: bool)
    requires Chain(s, toks) && ViewSize(s) && index < |toks| && toks[index].kind.Comment?
    ensures var r := Generate(gen, s, toks, out, index, ltrim);
            r.Ok? && r.value.index < |toks| ==> EndsAt(s, toks, r.value.index)
    decreases |toks| + 1 - index, 2
  {
    GenerateCommentToken(gen, s, toks, out, index, ltrim);
    StopsAtEndfor(gen, s, toks, PushText(gen, s, toks, out, index, true, true), index + 1, false);
  }

  lemma {:induction false} RenderStopsAtEndfor(gen: Generator, s: string, toks: seq<Token>, out: seq<Block>,
                                                index: nat, ltrim: bool)
    requires Chain(s, toks) && ViewSize(s) && index < |toks| && toks[index].kind.Render?
    ensures var r := Generate(gen, s, toks, out, index, ltrim);
            r.Ok? && r.value.index < |toks| ==> EndsAt(s, toks, r.value.index)
    decreases |toks| + 1 - index, 2
  {
    GenerateRenderToken(gen, s, toks, out, index, ltrim);
    assert ResumeAt(toks, index) <= toks[index].start && toks[index].end < |s|;
    if toks[index].start + 3 > toks[index].end {
      RenderBadRange(gen, s, toks, out, index, ltrim);
    } else if CttEvaluator.EvaluatorOf(s, toks[index].start + 2, toks[index].end - 1).None? {
      RenderNoEvaluator(gen, s, toks, out, index, ltrim);
    } else {
      RenderNext(gen, s, toks, out, index, ltrim);
      StopsAtEndfor(gen, s, toks, Pushed(gen, s, toks, out, index, ltrim, CttEvaluator.EvaluatorOf(s, toks[index].start + 2, toks[index].end - 1).value), index + 1, false);
    }
  }

  lemma {:induction false} ControlStopsAtEndfor(gen: Generator, s: string, toks: seq<Token>, out: seq<Block>,
                                                 index: nat, ltrim: bool)
    requires Chain(s, toks) && ViewSize(s) && index < |toks| && toks[index].kind.Control?
    ensures var r := Generate(gen, s, toks, out, index, ltrim);
            r.Ok? && r.value.index < |toks| ==> EndsAt(s, toks, r.value.index)
    decreases |toks| + 1 - index, 2
  {
    GenerateControlToken(gen, s, toks, out, index, ltrim);
    var t := toks[index];
    assert ResumeAt(toks, index) <= t.start && t.end < |s|;
    match Content(s, t)
    case Err(_) =>
    case Ok(c) =>
      match ForTag(c)
      case None =>
      case Some(h) =>
        if !(gen == Parser && (h.trimBefore || h.trimAfter)) {
          ForStopsAtEndfor(gen, s, toks, out, index, ltrim, h);
        }
  }

  lemma {:induction false} ForStopsAtEndfor(gen: Generator, s: string, toks: seq<Token>, out: seq<Block>,
                                             index: nat, ltrim: bool, h: ForHead)
    requires Chain(s, toks) && ViewSize(s) && index < |toks|
    ensures var r := GenerateFor(gen, s, toks, out, index, ltrim, h);
            r.Ok? && r.value.index < |toks| ==> EndsAt(s, toks, r.value.index)
    decreases |toks| + 1 - index, 1
  {
    if Generate(gen, s, toks, [], index + 1, h.trimAfter).Err? {
      ForFails(gen, s, toks, out, index, ltrim, h);
    } else {
      ForBodyStopsAtEndfor(gen, s, toks, out, index, ltrim, h, Generate(gen, s, toks, [], index + 1, h.trimAfter).value);
    }
  }

  lemma {:induction false} ForBodyStopsAtEndfor(gen: Generator, s: string, toks: seq<Token>, out: seq<Block>,
                                                 index: nat, ltrim: bool, h: ForHead, inner: Generated)
    requires Chain(s, toks) && ViewSize(s) && index < |toks|
    requires Generate(gen, s, toks, [], index + 1, h.trimAfter) == Ok(inner)
    ensures var r := GenerateFor(gen, s, toks, out, index, ltrim, h);
            r.Ok? && r.value.index < |toks| ==> EndsAt(s, toks, r.value.index)
    decreases |toks| + 1 - index, 0
  {
    var after := if gen == Blocks then inner.trimAfter else h.trimAfter;
    var o := PushText(gen, s, toks, out, index, ltrim, h.trimBefore)
             + [ForBlock(h.iter, h.container, inner.output, h.trimBefore, after)];
    ForNext(gen, s, toks, out, index, ltrim, h, inner, after, o);
    StopsAtEndfor(gen, s, toks, o, inner.index + 1, after);
  }

  /** A `for` tag whose body runs to the end of the template has no
      `endfor`: the generation after it reads past the last token. */
  lemma MissingEndforRejected(gen: Generator, s: string, toks: seq<Token>, out: seq<Block>, index: nat,
                              ltrim: bool, h: ForHead)
    requires Chain(s, toks) && ViewSize(s) && index < |toks|
    requires Generate(gen, s, toks, [], index + 1, h.trimAfter).Ok?
    requires Generate(gen, s, toks, [], index + 1, h.trimAfter).value.index == |toks|
    ensures GenerateFor(gen, s, toks, out, index, ltrim, h) == Err(NoSuchToken)
  {
  }
}
