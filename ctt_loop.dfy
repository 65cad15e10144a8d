/** The list loop of the ctt tests (libs/ctt/tests/test-basic.cpp:31-44),
    from its source text to its output: the template tokenizes to a `for`
    tag, a render tag and an `endfor` tag, compiles with blocks.hpp to
    `CttRender.LoopTemplate()`, and over `input` = [1, 2, 3] renders as
    "head pre 1 post pre 2 post pre 3 post tail".

    `operator"" _ctt` builds the `ct::string` from the characters of the
    raw literal alone, so the template has no terminating NUL: its size is
    the 74 characters of the text. */
module CttLoop {
  import opened Wrappers
  import opened StdString
  import StrTools
  import opened CttTokens
  import opened CttControls
  import CttEvaluator
  import opened CttBlocks
  import opened Values
  import opened Variants
  import CttRender

  /** The raw literal of the test, cut at the delimiters of its tags. */
  function LoopSource(): string
  {
    "head\n" + "{%" + "- for value in input -" + "%}"
    + "\n pre " + "{{" + " value " + "}}" + " post\n"
    + "{%" + "- endfor -" + "%}" + "\n tail"
  }

  /** Where the pieces of the template lie: the delimiters, the tag
      contents and the text between the tags. */
  predicate Shape(s: string)
  {
    && |s| == 74
    && s[0..5] == "head\n" && s[5..7] == "{%" && s[7..29] == "- for value in input -" && s[29..31] == "%}"
    && s[31..37] == "\n pre " && s[37..39] == "{{" && s[39..46] == " value " && s[46..48] == "}}"
    && s[48..54] == " post\n" && s[54..56] == "{%" && s[56..66] == "- endfor -" && s[66..68] == "%}"
    && s[68..74] == "\n tail"
  }

  lemma LoopShape()
    ensures Shape(LoopSource())
  {
    ShapeFor(LoopSource());
    ShapeValue(LoopSource());
    ShapeEndfor(LoopSource());
  }

  lemma ShapeFor(s: string)
    requires s == LoopSource()
    ensures |s| == 74
    ensures s[0..5] == "head\n" && s[5..7] == "{%" && s[7..29] == "- for value in input -" && s[29..31] == "%}"
  {
  }

  lemma ShapeValue(s: string)
    requires s == LoopSource()
    ensures s[31..37] == "\n pre " && s[37..39] == "{{" && s[39..46] == " value " && s[46..48] == "}}"
  {
  }

  lemma ShapeEndfor(s: string)
    requires s == LoopSource()
    ensures s[48..54] == " post\n" && s[54..56] == "{%" && s[56..66] == "- endfor -" && s[66..68] == "%}"
    ensures s[68..74] == "\n tail"
  {
  }

  /** A character missing from a slice is at none of its positions. */
  lemma Absent(s: string, from: nat, to: nat, c: char)
    requires from <= to <= |s| && c !in s[from..to]
    ensures forall q :: from <= q < to ==> s[q] != c
  {
    forall q | from <= q < to
      ensures s[q] != c
    {
      assert s[q] == s[from..to][q - from];
    }
  }

  /** The two characters of a slice of length two. */
  lemma Pair(s: string, i: nat, p: string)
    requires i + 2 <= |s| && s[i..i + 2] == p
    ensures |p| == 2 && s[i] == p[0] && s[i + 1] == p[1]
  {
    assert s[i] == s[i..i + 2][0] && s[i + 1] == s[i..i + 2][1];
  }

  /** The tokens of the template. */
  const ForTok: Token := Token(5, 30, Control)
  const ValueTok: Token := Token(37, 47, Render)
  const EndforTok: Token := Token(54, 67, Control)

  /** The search from the start finds the `for` tag. */
  lemma FirstToken(s: string)
    requires Shape(s)
    ensures NextToken(s, 0) == Ok(Some(ForTok))
  {
    Absent(s, 0, 5, '{');
    Pair(s, 5, "{%");
    NextStartSkips(s, 0, 5);
    Absent(s, 7, 29, '}');
    Pair(s, 29, "%}");
    NextEndSkips(s, 6, 5, 29, Control);
  }

  /** The search from the end of the `for` tag finds the render tag; the
      space before its `}}` closes nothing. */
  lemma SecondToken(s: string)
    requires Shape(s)
    ensures NextToken(s, 30) == Ok(Some(ValueTok))
  {
    Pair(s, 29, "%}");
    Absent(s, 31, 37, '{');
    Pair(s, 37, "{{");
    NextStartSkips(s, 30, 37);
    Absent(s, 39, 46, '}');
    assert s[45] == s[39..46][6] == ' ';
    Pair(s, 46, "}}");
    NextEndSkips(s, 38, 37, 46, Render);
  }

  /** The search from the end of the render tag finds the `endfor` tag. */
  lemma ThirdToken(s: string)
    requires Shape(s)
    ensures NextToken(s, 47) == Ok(Some(EndforTok))
  {
    Pair(s, 46, "}}");
    Absent(s, 48, 54, '{');
    Pair(s, 54, "{%");
    NextStartSkips(s, 47, 54);
    Absent(s, 56, 66, '}');
    Pair(s, 66, "%}");
    NextEndSkips(s, 55, 54, 66, Control);
  }

  /** After the `endfor` tag there is no opener left. */
  lemma NoFourthToken(s: string)
    requires Shape(s)
    ensures NextToken(s, 67) == Ok(Option.None)
  {
    Pair(s, 66, "%}");
    Absent(s, 68, 74, '{');
    NextStartNone(s, 67);
  }

  /** `parse_tokens` of the template: the three tags, in order. */
  lemma LoopTokens(s: string)
    requires Shape(s)
    ensures ParseTokens(s) == Ok([ForTok, ValueTok, EndforTok])
  {
    FirstToken(s);
    SecondToken(s);
    ThirdToken(s);
    NoFourthToken(s);
    assert [ForTok, ValueTok] + [EndforTok] == [ForTok, ValueTok, EndforTok];
    assert ParseFrom(s, 47, [ForTok, ValueTok]) == Ok([ForTok, ValueTok, EndforTok]);
    assert [ForTok] + [ValueTok] == [ForTok, ValueTok];
    assert ParseFrom(s, 30, [ForTok]) == Ok([ForTok, ValueTok, EndforTok]);
    assert [] + [ForTok] == [ForTok];
  }

  /** The head of the `for` tag: both trim markers, `value` over `input`. */
  function Head(): ForHead
  {
    ForHead(true, "value", "input", true)
  }

  lemma ForContent(s: string)
    requires Shape(s)
    ensures ForTok.end < |s| && Content(s, ForTok) == Ok("- for value in input -")
    ensures ForTag("- for value in input -") == Some(Head())
  {
    ForHeadParses();
  }

  /** The `for` tag's text reads back as its head. */
  lemma ForHeadParses()
    ensures ForTag("- for value in input -") == Some(Head())
  {
    assert ForText(Head()) == "- for value in input -";
    ForTagRoundTrip(Head());
  }

  lemma EndforContent(s: string)
    requires Shape(s)
    ensures EndforTok.end < |s| && Content(s, EndforTok) == Ok("- endfor -")
    ensures ForTag("- endfor -") == Option.None && EndforTag("- endfor -") == Some((true, true))
  {
    assert EndforText(true, true) == "- endfor -";
    EndforTagRoundTrip(true, true);
    TagsExclusive("- endfor -");
  }

  /** The render tag evaluates `value`: the spaces around it are trimmed. */
  lemma ValueEvaluator(s: string)
    requires Shape(s)
    ensures CttEvaluator.EvaluatorOf(s, 39, 46) == Some(CttEvaluator.ValueEval("value"))
  {
    var v := s[39..46];
    StrTools.LTrimOne(v, StrTools.DefaultTrimChars);
    StrTools.RTrimOne(v[1..], StrTools.DefaultTrimChars);
    assert v[1..][..|v[1..]| - 1] == "value";
    assert CttEvaluator.ValueSyntax("value");
  }

  /** The texts around the tags, with the line breaks next to a `-` trimmed. */
  lemma Texts(s: string)
    requires Shape(s)
    ensures TextOf(Blocks, s, 0, 5, false, true) == TextBlock(0, 5, "head")
    ensures TextOf(Blocks, s, 31, 37, true, false) == TextBlock(31, 37, " pre ")
    ensures TextOf(Blocks, s, 48, 54, false, true) == TextBlock(48, 54, " post")
    ensures TextOf(Blocks, s, 68, 74, true, false) == TextBlock(68, 74, " tail")
  {
    StrTools.RTrimOne(s[0..5], "\r\n");
    assert s[0..5][..4] == "head";
    StrTools.LTrimOne(s[31..37], "\r\n");
    assert s[31..37][1..] == " pre ";
    StrTools.RTrimOne(s[48..54], "\r\n");
    assert s[48..54][..5] == " post";
    StrTools.LTrimOne(s[68..74], "\r\n");
    assert s[68..74][1..] == " tail";
  }

  /** The blocks of the loop body before the `endfor` tag: the text
      before the render tag, trimmed after the `for` tag's `-`, and the
      render block. */
  function BodyStart(): seq<Block>
  {
    [TextBlock(31, 37, " pre "), RenderBlock(ValueTok, CttEvaluator.ValueEval("value"))]
  }

  /** The render tag pushes the text before it and its block. */
  lemma BodyRender(s: string, toks: seq<Token>)
    requires ViewSize(s) && |s| == 74 && toks == [ForTok, ValueTok, EndforTok] && Chain(s, toks)
    requires CttEvaluator.EvaluatorOf(s, 39, 46) == Some(CttEvaluator.ValueEval("value"))
    ensures Generate(Blocks, s, toks, [], 1, true)
            == Generate(Blocks, s, toks, Pushed(Blocks, s, toks, [], 1, true, CttEvaluator.ValueEval("value")), 2, false)
  {
    GenerateRenderToken(Blocks, s, toks, [], 1, true);
    RenderNext(Blocks, s, toks, [], 1, true);
  }

  /** What the render tag pushes: the text after the `for` tag, then its
      block. */
  lemma BodyPushed(s: string, toks: seq<Token>)
    requires ViewSize(s) && |s| == 74 && toks == [ForTok, ValueTok, EndforTok] && Chain(s, toks)
    requires TextOf(Blocks, s, 31, 37, true, false) == TextBlock(31, 37, " pre ")
    ensures Pushed(Blocks, s, toks, [], 1, true, CttEvaluator.ValueEval("value")) == BodyStart()
  {
    assert PushText(Blocks, s, toks, [], 1, true, false) == [TextBlock(31, 37, " pre ")];
  }

  /** The `endfor` tag pushes the text before it, trimmed by its leading
      `-`, and hands back its trailing `-`. */
  lemma BodyEndfor(s: string, toks: seq<Token>)
    requires ViewSize(s) && |s| == 74 && toks == [ForTok, ValueTok, EndforTok] && Chain(s, toks)
    requires Content(s, EndforTok) == Ok("- endfor -")
    requires ForTag("- endfor -") == Option.None && EndforTag("- endfor -") == Some((true, true))
    requires TextOf(Blocks, s, 48, 54, false, true) == TextBlock(48, 54, " post")
    ensures Generate(Blocks, s, toks, BodyStart(), 2, false) == Ok(Generated(CttRender.LoopBody(), 2, true))
  {
    GenerateControlToken(Blocks, s, toks, BodyStart(), 2, false);
    assert PushText(Blocks, s, toks, BodyStart(), 2, false, true) == BodyStart() + [TextBlock(48, 54, " post")];
    assert BodyStart() + [TextBlock(48, 54, " post")] == CttRender.LoopBody();
  }

  /** The body of the loop, generated from the token after the `for` tag
      with the tag's trailing trim. */
  lemma BodyBlocks(s: string, toks: seq<Token>)
    requires Shape(s) && toks == [ForTok, ValueTok, EndforTok] && Chain(s, toks)
    ensures Generate(Blocks, s, toks, [], 1, true) == Ok(Generated(CttRender.LoopBody(), 2, true))
  {
    ValueEvaluator(s);
    Texts(s);
    EndforContent(s);
    BodyRender(s, toks);
    BodyPushed(s, toks);
    BodyEndfor(s, toks);
  }

  /** The `for` tag is generated as a `for` block with its head. */
  lemma ForControl(s: string, toks: seq<Token>)
    requires ViewSize(s) && |s| == 74 && toks == [ForTok, ValueTok, EndforTok] && Chain(s, toks)
    requires Content(s, ForTok) == Ok("- for value in input -") && ForTag("- for value in input -") == Some(Head())
    ensures Generate(Blocks, s, toks, [], 0, false) == GenerateFor(Blocks, s, toks, [], 0, false, Head())
  {
    GenerateControlToken(Blocks, s, toks, [], 0, false);
  }

  /** What the `for` tag pushes: "head", then the for block. */
  lemma ForPushed(s: string, toks: seq<Token>)
    requires ViewSize(s) && |s| == 74 && toks == [ForTok, ValueTok, EndforTok] && Chain(s, toks)
    requires TextOf(Blocks, s, 0, 5, false, true) == TextBlock(0, 5, "head")
    ensures PushText(Blocks, s, toks, [], 0, false, true) + [ForBlock("value", "input", CttRender.LoopBody(), true, true)]
            == CttRender.LoopTemplate()[..2]
  {
  }

  /** The `for` tag: the text before it, trimmed by its leading `-`, then
      the for block; the generation goes on after the `endfor` tag. */
  lemma ForStep(s: string, toks: seq<Token>, body: seq<Block>, o: seq<Block>)
    requires ViewSize(s) && |toks| == 3 && Chain(s, toks)
    requires Generate(Blocks, s, toks, [], 1, true) == Ok(Generated(body, 2, true))
    requires o == PushText(Blocks, s, toks, [], 0, false, true) + [ForBlock("value", "input", body, true, true)]
    ensures GenerateFor(Blocks, s, toks, [], 0, false, Head()) == Generate(Blocks, s, toks, o, 3, true)
  {
    ForNext(Blocks, s, toks, [], 0, false, Head(), Generated(body, 2, true), true, o);
  }

  /** After the last token: the final text, trimmed by the `endfor` tag's
      trailing `-`. */
  lemma FinalText(s: string, toks: seq<Token>)
    requires ViewSize(s) && |s| == 74 && toks == [ForTok, ValueTok, EndforTok] && Chain(s, toks)
    requires TextOf(Blocks, s, 68, 74, true, false) == TextBlock(68, 74, " tail")
    ensures Generate(Blocks, s, toks, CttRender.LoopTemplate()[..2], 3, true)
            == Ok(Generated(CttRender.LoopTemplate(), 3, false))
  {
    assert CttRender.LoopTemplate()[..2] + [TextBlock(68, 74, " tail")] == CttRender.LoopTemplate();
  }

  /** The whole template: "head", the for block, " tail". */
  lemma LoopBlocks(s: string, toks: seq<Token>)
    requires Shape(s) && toks == [ForTok, ValueTok, EndforTok] && Chain(s, toks)
    ensures Generate(Blocks, s, toks, [], 0, false) == Ok(Generated(CttRender.LoopTemplate(), 3, false))
  {
    BodyBlocks(s, toks);
    ForContent(s);
    Texts(s);
    ForControl(s, toks);
    ForPushed(s, toks);
    ForStep(s, toks, CttRender.LoopBody(), CttRender.LoopTemplate()[..2]);
    FinalText(s, toks);
  }

  /** The test template compiles, with blocks.hpp, to `LoopTemplate()`. */
  lemma LoopCompiles()
    ensures Compile(Blocks, LoopSource()) == Ok(CttRender.LoopTemplate())
  {
    var s := LoopSource();
    LoopShape();
    LoopTokens(s);
    ParseTokensSound(s);
    LoopBlocks(s, [ForTok, ValueTok, EndforTok]);
  }

  /** The test: the template over `input` = [1, 2, 3] renders as
      "head pre 1 post pre 2 post pre 3 post tail". */
  lemma LoopScenario(show: Variant -> string)
    requires show(Val(Int(1))) == "1" && show(Val(Int(2))) == "2" && show(Val(Int(3))) == "3"
    ensures Compile(Blocks, LoopSource()).Ok?
    ensures CttRender.ProcessAll(show, Compile(Blocks, LoopSource()).value,
                                 map[Str("input") := List([Val(Int(1)), Val(Int(2)), Val(Int(3))])]) ==
            Ok("head" + " pre 1 post" + " pre 2 post" + " pre 3 post" + " tail")
  {
    LoopCompiles();
    CttRender.LoopOverList(show);
  }
}
