/** Rendering a compiled ctt template against a dict context
    (libs/ctt/include/xdev/ctt.hpp and the `process` members of the blocks in
    libs/ctt/include/xdev/ctt/blocks.hpp and parser.hpp).

    `renderer::operator()` starts from an empty string and lets every block
    append its output in block order. A text block appends its body, a render
    block the text of its evaluator's value, and a for block renders its body
    once per element of the looked-up container, with the loop name bound to
    the element in a copy of the context. The text of a variant (`fmt`'s
    formatter, `toString`) is the parameter `show`. */
module CttRender {
  import opened Wrappers
  import opened Values
  import opened Variants
  import Dicts
  import CttEvaluator
  import opened CttTokens
  import opened CttBlocks

  type Context = map<Value, Variant>

  /** What ends a render: the lookup failure of a for's `context.at` (a
      missing container), the `runtime_error` of a for over a value that is
      neither a dict nor a list, or `std::terminate`, called when a render
      block's key is missing because the lookup's exception leaves the
      `noexcept` evaluator. */
  datatype RenderError = Lookup(error: AccessError) | NotIterable(value: Variant) | Terminated

  /** Appending to an output that may already have thrown: the first
      exception wins, otherwise the two texts follow each other. */
  function Then(a: Result<string, RenderError>, b: Result<string, RenderError>): Result<string, RenderError>
  {
    if a.Err? then a else if b.Err? then b else Ok(a.value + b.value)
  }

  /** Appending a piece and then the rest is appending both at once. */
  lemma ThenStep(o: string, x: Result<string, RenderError>, y: Result<string, RenderError>)
    ensures x.Ok? ==> Then(Ok(o), Then(x, y)) == Then(Ok(o + x.value), y)
    ensures x.Err? ==> Then(Ok(o), Then(x, y)) == x
  {
    if x.Ok? && y.Ok? {
      assert o + (x.value + y.value) == o + x.value + y.value;
    }
  }

  /** Appending to the empty output changes nothing. */
  lemma ThenFromEmpty(x: Result<string, RenderError>)
    ensures Then(Ok(""), x) == x
  {
    if x.Ok? {
      assert "" + x.value == x.value;
    }
  }

  /** The elements a for visits: a dict's values in key order (it is a
      `std::map`), a list's elements in order; anything else is not
      iterable. */
  function Elements(v: Variant): (r: Option<seq<Variant>>)
    ensures r.Some? <==> v.Dict? || v.List?
    ensures v.List? ==> r == Some(v.items)
    ensures v.Dict? ==> |r.value| == |v.entries| &&
                        forall i :: 0 <= i < |r.value| ==>
                          r.value[i] == v.entries[Dicts.Items(v.entries)[i].0]
  {
    match v
    case List(xs) => Some(xs)
    case Dict(d) =>
      var items := Dicts.Items(d);
      Some(seq(|items|, i requires 0 <= i < |items| => items[i].1))
    case _ => Option.None
  }

  /** The context of one iteration: `loop_context[iter] = elem` on a copy
      of the context. The loop name is a word (the for tag's `\w+`), so the
      key is a plain string. */
  function Bind(ctx: Context, iter: string, elem: Variant): (r: Context)
    ensures Str(iter) in r && r[Str(iter)] == elem
    ensures forall k :: k in ctx && k != Str(iter) ==> k in r && r[k] == ctx[k]
  {
    ctx[Str(iter) := elem]
  }

  // ---------------------------------------------------------------------
  // rendering, as functions

  /** `process` of one block. */
  function ProcessBlock(show: Variant -> string, b: Block, ctx: Context): (r: Result<string, RenderError>)
    decreases b, 2
  {
    match b
    case TextBlock(_, _, body) => Ok(body)
    case RenderBlock(_, e) =>
      (match CttEvaluator.Apply(e, ctx)
       case Ok(v) => Ok(show(v))
       case Err(_) => Err(Terminated))
    case ForBlock(iter, container, body, _, _) =>
      match Dicts.DotAt(ctx, container)
      case Err(a) => Err(Lookup(a))
      case Ok(v) =>
        match Elements(v)
        case None => Err(NotIterable(v))
        case Some(xs) => ForEach(show, body, iter, xs, ctx)
  }

  /** The body of a for, rendered once per element, in element order. */
  function ForEach(show: Variant -> string, body: seq<Block>, iter: string, xs: seq<Variant>, ctx: Context)
    : Result<string, RenderError>
    decreases body, 1, |xs|
  {
    if xs == [] then Ok("")
    else Then(ProcessAll(show, body, Bind(ctx, iter, xs[0])), ForEach(show, body, iter, xs[1..], ctx))
  }

  /** `ct::foreach` over a block list: each block in turn. */
  function ProcessAll(show: Variant -> string, bs: seq<Block>, ctx: Context): Result<string, RenderError>
    decreases bs, 0
  {
    if bs == [] then Ok("")
    else Then(ProcessBlock(show, bs[0], ctx), ProcessAll(show, bs[1..], ctx))
  }

  // ---------------------------------------------------------------------
  // rendering, as the C++ loops

  /** `BlockT::process(context, output)`: append one block's output. */
  method ProcessInto(show: Variant -> string, b: Block, ctx: Context, output: string)
    returns (r: Result<string, RenderError>)
    ensures r == Then(Ok(output), ProcessBlock(show, b, ctx))
    decreases b, 2
  {
    match b
    case TextBlock(_, _, body) =>
      r := Ok(output + body);
    case RenderBlock(_, e) =>
      var v := CttEvaluator.Apply(e, ctx);
      if v.Err? {
        return Err(Terminated);
      }
      r := Ok(output + show(v.value));
    case ForBlock(iter, container, body, _, _) =>
      var cont := Dicts.DotAt(ctx, container);
      if cont.Err? {
        return Err(Lookup(cont.error));
      }
      var elems := Elements(cont.value);
      if elems.None? {
        return Err(NotIterable(cont.value));
      }
      r := ForInto(show, body, iter, elems.value, ctx, output);
  }

  /** The loop of `for_control::impl_t::process`: the body once per
      element, each time in the context with the loop name bound. */
  method ForInto(show: Variant -> string, body: seq<Block>, iter: string, xs: seq<Variant>, ctx: Context,
                 output: string)
    returns (r: Result<string, RenderError>)
    ensures r == Then(Ok(output), ForEach(show, body, iter, xs, ctx))
    decreases body, 1
  {
    var out := output;
    var j := 0;
    while j < |xs|
      invariant 0 <= j <= |xs|
      invariant Then(Ok(out), ForEach(show, body, iter, xs[j..], ctx)) ==
                Then(Ok(output), ForEach(show, body, iter, xs, ctx))
    {
      assert xs[j..][0] == xs[j] && xs[j..][1..] == xs[j + 1..];
      assert ForEach(show, body, iter, xs[j..], ctx) ==
             Then(ProcessAll(show, body, Bind(ctx, iter, xs[j])), ForEach(show, body, iter, xs[j + 1..], ctx));
      var next := ProcessEach(show, body, Bind(ctx, iter, xs[j]), out);
      ThenStep(out, ProcessAll(show, body, Bind(ctx, iter, xs[j])), ForEach(show, body, iter, xs[j + 1..], ctx));
      if next.Err? {
        return next;
      }
      out := next.value;
      j := j + 1;
    }
    assert xs[j..] == [] && out + "" == out;
    r := Ok(out);
  }

  /** The `ct::foreach` that lets each block of a list append in turn. */
  method ProcessEach(show: Variant -> string, bs: seq<Block>, ctx: Context, output: string)
    returns (r: Result<string, RenderError>)
    ensures r == Then(Ok(output), ProcessAll(show, bs, ctx))
    decreases bs, 0
  {
    var out := output;
    var i := 0;
    while i < |bs|
      invariant 0 <= i <= |bs|
      invariant Then(Ok(out), ProcessAll(show, bs[i..], ctx)) == Then(Ok(output), ProcessAll(show, bs, ctx))
    {
      assert bs[i..][0] == bs[i] && bs[i..][1..] == bs[i + 1..];
      assert ProcessAll(show, bs[i..], ctx) == Then(ProcessBlock(show, bs[i], ctx), ProcessAll(show, bs[i + 1..], ctx));
      var next := ProcessInto(show, bs[i], ctx, out);
      ThenStep(out, ProcessBlock(show, bs[i], ctx), ProcessAll(show, bs[i + 1..], ctx));
      if next.Err? {
        return next;
      }
      out := next.value;
      i := i + 1;
    }
    assert bs[i..] == [] && out + "" == out;
    r := Ok(out);
  }

  /** `renderer::operator()`: the output of every block, from an empty
      string. */
  method Render(show: Variant -> string, blocks: seq<Block>, ctx: Context) returns (r: Result<string, RenderError>)
    ensures r == ProcessAll(show, blocks, ctx)
  {
    r := ProcessEach(show, blocks, ctx, "");
    ThenFromEmpty(ProcessAll(show, blocks, ctx));
  }

  // ---------------------------------------------------------------------
  // properties of rendering

  /** The first exception wins however the outputs are grouped. */
  lemma ThenAssoc(x: Result<string, RenderError>, y: Result<string, RenderError>, z: Result<string, RenderError>)
    ensures Then(Then(x, y), z) == Then(x, Then(y, z))
  {
    if x.Ok? && y.Ok? && z.Ok? {
      assert x.value + y.value + z.value == x.value + (y.value + z.value);
    }
  }

  /** Block order is output order: two block lists one after the other
      render as the first list's output followed by the second's, and an
      exception in the first list leaves the second unrendered. */
  lemma {:induction false} ProcessAllConcat(show: Variant -> string, a: seq<Block>, b: seq<Block>, ctx: Context)
    ensures ProcessAll(show, a + b, ctx) == Then(ProcessAll(show, a, ctx), ProcessAll(show, b, ctx))
    decreases |a|
  {
    if a == [] {
      assert a + b == b;
      ThenFromEmpty(ProcessAll(show, b, ctx));
    } else {
      assert (a + b)[0] == a[0] && (a + b)[1..] == a[1..] + b;
      ProcessAllConcat(show, a[1..], b, ctx);
      ThenAssoc(ProcessBlock(show, a[0], ctx), ProcessAll(show, a[1..], ctx), ProcessAll(show, b, ctx));
    }
  }

  /** A block that throws ends the render with its exception, whatever
      follows it, once the blocks before it have rendered. */
  lemma FirstErrorWins(show: Variant -> string, a: seq<Block>, b: Block, c: seq<Block>, ctx: Context)
    requires ProcessAll(show, a, ctx).Ok? && ProcessBlock(show, b, ctx).Err?
    ensures ProcessAll(show, a + [b] + c, ctx) == ProcessBlock(show, b, ctx)
  {
    ProcessAllConcat(show, a + [b], c, ctx);
    ProcessAllConcat(show, a, [b], ctx);
    assert [b][1..] == [];
  }

  /** Every block is text. */
  predicate AllText(bs: seq<Block>)
  {
    forall i :: 0 <= i < |bs| ==> bs[i].TextBlock?
  }

  /** The bodies of text blocks, one after the other. */
  function Bodies(bs: seq<Block>): string
    requires AllText(bs)
  {
    if bs == [] then "" else bs[0].body + Bodies(bs[1..])
  }

  /** Text blocks render as their bodies in order, whatever the context. */
  lemma {:induction false} TextOnlyRenders(show: Variant -> string, bs: seq<Block>, ctx: Context)
    requires AllText(bs)
    ensures ProcessAll(show, bs, ctx) == Ok(Bodies(bs))
  {
    if bs != [] {
      TextOnlyRenders(show, bs[1..], ctx);
    }
  }

  /** `s` written `n` times. */
  function Repeat(s: string, n: nat): string
  {
    if n == 0 then "" else s + Repeat(s, n - 1)
  }

  /** A body of text is written once per element. */
  lemma {:induction false} ForEachText(show: Variant -> string, body: seq<Block>, iter: string, xs: seq<Variant>,
                                       ctx: Context)
    requires AllText(body)
    ensures ForEach(show, body, iter, xs, ctx) == Ok(Repeat(Bodies(body), |xs|))
    decreases |xs|
  {
    if xs != [] {
      TextOnlyRenders(show, body, Bind(ctx, iter, xs[0]));
      ForEachText(show, body, iter, xs[1..], ctx);
    }
  }

  /** How a for block renders: a missing container escapes as the lookup
      failure, a container that is neither a dict nor a list as
      `runtime_error`; a list renders the body once per element and a dict
      once per value, in key order. */
  lemma ForDispatch(show: Variant -> string, iter: string, container: string, body: seq<Block>,
                    tb: bool, ta: bool, ctx: Context)
    ensures var r := ProcessBlock(show, ForBlock(iter, container, body, tb, ta), ctx);
            var c := Dicts.DotAt(ctx, container);
            && (c.Err? ==> r == Err(Lookup(c.error)))
            && (c.Ok? && !c.value.Dict? && !c.value.List? ==> r == Err(NotIterable(c.value)))
            && (c.Ok? && c.value.List? ==> r == ForEach(show, body, iter, c.value.items, ctx))
            && (c.Ok? && c.value.Dict? ==>
                  exists vs: seq<Variant> ::
                    && |vs| == |c.value.entries|
                    && (forall i :: 0 <= i < |vs| ==> vs[i] == c.value.entries[Dicts.Items(c.value.entries)[i].0])
                    && r == ForEach(show, body, iter, vs, ctx))
  {
    var c := Dicts.DotAt(ctx, container);
    if c.Ok? && c.value.Dict? {
      var vs := Elements(c.value).value;
      assert ProcessBlock(show, ForBlock(iter, container, body, tb, ta), ctx) == ForEach(show, body, iter, vs, ctx);
    }
  }

  /** A render block whose key is missing ends the process: whatever
      blocks follow, the render ends in `std::terminate`, not in an
      exception a caller could catch. */
  lemma MissingKeyTerminates(show: Variant -> string, tok: Token, e: CttEvaluator.Evaluator,
                             rest: seq<Block>, ctx: Context)
    requires '.' !in e.view && Str(e.view) !in ctx
    ensures ProcessAll(show, [RenderBlock(tok, e)] + rest, ctx) == Err(Terminated)
  {
    assert ([RenderBlock(tok, e)] + rest)[0] == RenderBlock(tok, e);
  }

  /** A for over a list renders the body once per element. */
  lemma ForOverList(show: Variant -> string, iter: string, container: string, body: seq<Block>,
                    tb: bool, ta: bool, ctx: Context, items: seq<Variant>)
    requires Dicts.DotAt(ctx, container) == Ok(List(items))
    ensures ProcessBlock(show, ForBlock(iter, container, body, tb, ta), ctx) == ForEach(show, body, iter, items, ctx)
  {
    ForDispatch(show, iter, container, body, tb, ta, ctx);
  }

  /** A for over a list whose body is text writes the body once per
      element. */
  lemma ForOverText(show: Variant -> string, iter: string, container: string, body: seq<Block>,
                    tb: bool, ta: bool, ctx: Context)
    requires AllText(body) && Dicts.DotAt(ctx, container).Ok? && Dicts.DotAt(ctx, container).value.List?
    ensures ProcessBlock(show, ForBlock(iter, container, body, tb, ta), ctx) ==
            Ok(Repeat(Bodies(body), |Dicts.DotAt(ctx, container).value.items|))
  {
    ForEachText(show, body, iter, Dicts.DotAt(ctx, container).value.items, ctx);
  }

  // ---------------------------------------------------------------------
  // the list loop of the ctt tests

  /** The body of `{%- for value in input -%}` … `{%- endfor -%}` in the
      template "head\n{%- for value in input -%}\n pre {{ value }}
      post\n{%- endfor -%}\n tail": the line breaks next to the `-`
      markers are trimmed away. */
  function LoopBody(): seq<Block>
  {
    [TextBlock(31, 37, " pre "), RenderBlock(Token(37, 47, Kind.Render), CttEvaluator.ValueEval("value")),
     TextBlock(48, 54, " post")]
  }

  /** The blocks of that template; `CttLoop.LoopCompiles` proves that the
      template compiles to exactly this list. */
  function LoopTemplate(): seq<Block>
  {
    [TextBlock(0, 5, "head"), ForBlock("value", "input", LoopBody(), true, true), TextBlock(68, 74, " tail")]
  }

  /** Three blocks that render, rendered one after the other. */
  lemma ThreeBlocks(show: Variant -> string, a: Block, b: Block, c: Block, ctx: Context)
    requires ProcessBlock(show, a, ctx).Ok? && ProcessBlock(show, b, ctx).Ok? && ProcessBlock(show, c, ctx).Ok?
    ensures ProcessAll(show, [a, b, c], ctx) ==
            Ok(ProcessBlock(show, a, ctx).value + ProcessBlock(show, b, ctx).value + ProcessBlock(show, c, ctx).value)
  {
    var bs := [a, b, c];
    assert bs[1..] == [b, c] && bs[1..][1..] == [c] && bs[1..][1..][1..] == [];
    var x, y, z := ProcessBlock(show, a, ctx).value, ProcessBlock(show, b, ctx).value, ProcessBlock(show, c, ctx).value;
    assert ProcessAll(show, [c], ctx) == Ok(z + "");
    assert ProcessAll(show, [b, c], ctx) == Ok(y + (z + ""));
    assert x + (y + (z + "")) == x + y + z;
  }

  /** Three passes that render, one after the other. */
  lemma ThreePasses(show: Variant -> string, body: seq<Block>, iter: string, xs: seq<Variant>, ctx: Context,
                    r0: string, r1: string, r2: string)
    requires |xs| == 3
    requires ProcessAll(show, body, Bind(ctx, iter, xs[0])) == Ok(r0)
    requires ProcessAll(show, body, Bind(ctx, iter, xs[1])) == Ok(r1)
    requires ProcessAll(show, body, Bind(ctx, iter, xs[2])) == Ok(r2)
    ensures ForEach(show, body, iter, xs, ctx) == Ok(r0 + r1 + r2)
  {
    var ys := xs[1..];
    var zs := ys[1..];
    assert ys[0] == xs[1] && zs[0] == xs[2] && zs[1..] == [];
    ForEachOne(show, body, iter, zs, ctx, r2, "");
    assert r2 + "" == r2;
    ForEachOne(show, body, iter, ys, ctx, r1, r2);
    ForEachOne(show, body, iter, xs, ctx, r0, r1 + r2);
    assert r0 + (r1 + r2) == r0 + r1 + r2;
  }

  /** A non-empty loop writes the first pass, then the rest. */
  lemma ForEachOne(show: Variant -> string, body: seq<Block>, iter: string, xs: seq<Variant>, ctx: Context,
                   first: string, rest: string)
    requires xs != []
    requires ProcessAll(show, body, Bind(ctx, iter, xs[0])) == Ok(first)
    requires ForEach(show, body, iter, xs[1..], ctx) == Ok(rest)
    ensures ForEach(show, body, iter, xs, ctx) == Ok(first + rest)
  {
  }

  /** What one pass of the body writes. */
  function Row(show: Variant -> string, elem: Variant): string
  {
    " pre " + show(elem) + " post"
  }

  /** One pass of the body writes the bound element between " pre " and
      " post". */
  lemma LoopBodyRenders(show: Variant -> string, ctx: Context, elem: Variant)
    ensures ProcessAll(show, LoopBody(), Bind(ctx, "value", elem)) == Ok(Row(show, elem))
  {
    Dicts.DotAtPlain(Bind(ctx, "value", elem), "value");
    ThreeBlocks(show, TextBlock(31, 37, " pre "), RenderBlock(Token(37, 47, Kind.Render), CttEvaluator.ValueEval("value")),
                TextBlock(48, 54, " post"), Bind(ctx, "value", elem));
  }

  /** The rows of 1, 2 and 3 between "head" and " tail". */
  lemma LoopText(show: Variant -> string)
    requires show(Val(Int(1))) == "1" && show(Val(Int(2))) == "2" && show(Val(Int(3))) == "3"
    ensures "head" + (Row(show, Val(Int(1))) + Row(show, Val(Int(2))) + Row(show, Val(Int(3)))) + " tail" ==
            "head" + " pre 1 post" + " pre 2 post" + " pre 3 post" + " tail"
  {
    RowText(show, Val(Int(1)), "1");
    RowText(show, Val(Int(2)), "2");
    RowText(show, Val(Int(3)), "3");
  }

  lemma RowText(show: Variant -> string, v: Variant, d: string)
    requires show(v) == d
    ensures Row(show, v) == " pre " + d + " post"
  {
  }

  /** With `input` = [1, 2, 3] the template renders as
      "head pre 1 post pre 2 post pre 3 post tail", row by row. */
  lemma LoopOverList(show: Variant -> string)
    requires show(Val(Int(1))) == "1" && show(Val(Int(2))) == "2" && show(Val(Int(3))) == "3"
    ensures ProcessAll(show, LoopTemplate(), map[Str("input") := List([Val(Int(1)), Val(Int(2)), Val(Int(3))])]) ==
            Ok("head" + " pre 1 post" + " pre 2 post" + " pre 3 post" + " tail")
  {
    var xs := [Val(Int(1)), Val(Int(2)), Val(Int(3))];
    var ctx := map[Str("input") := List(xs)];
    InputLookup(xs, ctx);
    LoopForRenders(show, xs, ctx);
    ThreeBlocks(show, TextBlock(0, 5, "head"), ForBlock("value", "input", LoopBody(), true, true),
                TextBlock(68, 74, " tail"), ctx);
    LoopText(show);
  }

  /** The `for` block of that template writes one row per element. */
  lemma LoopForRenders(show: Variant -> string, xs: seq<Variant>, ctx: Context)
    requires |xs| == 3 && Dicts.DotAt(ctx, "input") == Ok(List(xs))
    ensures ProcessBlock(show, ForBlock("value", "input", LoopBody(), true, true), ctx) ==
            Ok(Row(show, xs[0]) + Row(show, xs[1]) + Row(show, xs[2]))
  {
    LoopBodyRenders(show, ctx, xs[0]);
    LoopBodyRenders(show, ctx, xs[1]);
    LoopBodyRenders(show, ctx, xs[2]);
    ForThreeRows(show, "value", "input", LoopBody(), true, true, ctx, xs,
                 Row(show, xs[0]), Row(show, xs[1]), Row(show, xs[2]));
  }

  /** A for over a list of three elements writes the three passes in order. */
  lemma ForThreeRows(show: Variant -> string, iter: string, container: string, body: seq<Block>,
                     tb: bool, ta: bool, ctx: Context, xs: seq<Variant>, r0: string, r1: string, r2: string)
    requires |xs| == 3 && Dicts.DotAt(ctx, container) == Ok(List(xs))
    requires ProcessAll(show, body, Bind(ctx, iter, xs[0])) == Ok(r0)
    requires ProcessAll(show, body, Bind(ctx, iter, xs[1])) == Ok(r1)
    requires ProcessAll(show, body, Bind(ctx, iter, xs[2])) == Ok(r2)
    ensures ProcessBlock(show, ForBlock(iter, container, body, tb, ta), ctx) == Ok(r0 + r1 + r2)
  {
    ThreePasses(show, body, iter, xs, ctx, r0, r1, r2);
    ForOverList(show, iter, container, body, tb, ta, ctx, xs);
  }

  lemma InputLookup(xs: seq<Variant>, ctx: Context)
    requires ctx == map[Str("input") := List(xs)]
    ensures Dicts.DotAt(ctx, "input") == Ok(List(xs))
  {
    Dicts.DotAtPlain(ctx, "input");
  }
}
