/** The blocks of the runtime template engine and how a compiled template
    renders against a dict context (libs/template/src/template-blocks.cpp,
    libs/template/include/xdev/xdev-template-blocks.hpp).

    A compiled template is a list of blocks: verbatim text, a `{{ … }}`
    render block, an `{% if %}` block with its branches and else children, a
    `{% for %}` block, a named `{% block %}` and an `{% extends %}` marker.
    Rendering a block gives its text or the exception that escapes. */
module TemplateBlocks {
  import opened Wrappers
  import opened Values
  import opened Variants
  import opened TemplateExpressions
  import Dicts
  import Tools

  type Context = map<Value, Variant>

  /** One `if`/`elif` branch: its condition and the blocks it renders. */
  datatype Branch = Branch(cond: Expr, body: seq<Block>)

  /** `TextBlock`, `RenderBlock`, `IfBlock`, `ForBlock`, `BlockBlock` (its
      id, children and the parent block it overrides, once extended) and
      `ExtendBlock` (the resource key of the parent template). */
  datatype Block =
    | Text(text: string)
    | Render(expr: Expr)
    | If(branches: seq<Branch>, otherwise: seq<Block>)
    | For(keys: seq<string>, iterated: string, children: seq<Block>)
    | Named(id: string, children: seq<Block>, super: Option<Block>)
    | Extend(key: string)

  // ---------------------------------------------------------------------
  // rendering, as functions

  /** `RenderBlock::process`: the value's text; an exception escapes as a
      template Error naming the expression. What is not an exception (a
      loop that never ends, undefined behaviour, a stack overflow) is out of
      reach of `catch (const exception&)` and passes through unchanged. */
  function RenderText(h: Host, e: Expr, ctx: Context): (r: Result<string, Failure>)
    ensures r.Ok? <==> Eval(h, e, ctx).Ok?
    ensures r.Err? && IsException(Eval(h, e, ctx).error.kind) ==>
              r.error == Failure(TemplateErr, "Evaluating: \"" + e.content + "\"")
    ensures r.Err? && !IsException(Eval(h, e, ctx).error.kind) ==> r.error == Eval(h, e, ctx).error
  {
    match Eval(h, e, ctx)
    case Ok(v) => Ok(ToText(h, v))
    case Err(f) =>
      if IsException(f.kind) then Err(Failure(TemplateErr, "Evaluating: \"" + e.content + "\""))
      else Err(f)
  }

  /** Whether an `if` condition's value selects its branch: `true`, or any
      value that is neither a bool nor empty. */
  predicate Selects(v: Variant)
  {
    if v.Val? && v.v.Bool? then v.v.b else !Empty(v)
  }

  /** `process` of one block. No expression Error ever escapes a block. */
  function Process(h: Host, b: Block, ctx: Context): (r: Result<string, Failure>)
    ensures b.Text? ==> r == Ok(b.text)
    ensures r.Err? ==> r.error.kind != ExpressionErr
    decreases b, 2
  {
    match b
    case Text(t) => Ok(t)
    case Render(e) => RenderText(h, e, ctx)
    case If(_, _) => IfFrom(h, b, 0, ctx)
    case For(_, _, _) => ForProcess(h, b, ctx)
    case Named(_, children, _) => ProcessList(h, children, ctx)
    case Extend(_) => Ok("")
  }

  /** `BlockList::process`: the outputs of the blocks, in order. */
  function ProcessList(h: Host, bs: seq<Block>, ctx: Context): (r: Result<string, Failure>)
    ensures r.Err? ==> r.error.kind != ExpressionErr
    decreases bs, 3
  {
    if bs == [] then Ok("")
    else
      var first :- Process(h, bs[0], ctx);
      var rest :- ProcessList(h, bs[1..], ctx);
      Ok(first + rest)
  }

  /** `IfBlock::process` from the `i`-th branch on: an expression Error in
      the condition or the body passes on to the next branch. */
  function IfFrom(h: Host, b: Block, i: nat, ctx: Context): (r: Result<string, Failure>)
    requires b.If? && i <= |b.branches|
    ensures r.Err? ==> r.error.kind != ExpressionErr
    decreases b, 0, |b.branches| - i
  {
    if i == |b.branches| then ProcessList(h, b.otherwise, ctx)
    else
      match Eval(h, b.branches[i].cond, ctx)
      case Err(f) => if f.kind == ExpressionErr then IfFrom(h, b, i + 1, ctx) else Err(f)
      case Ok(v) =>
        if Selects(v) then
          match ProcessList(h, b.branches[i].body, ctx)
          case Ok(s) => Ok(s)
          case Err(f) => if f.kind == ExpressionErr then IfFrom(h, b, i + 1, ctx) else Err(f)
        else IfFrom(h, b, i + 1, ctx)
  }

  /** The context a dict entry is rendered in: the key under the first
      name and the value under the second, or the value alone under the
      only name. */
  function DictBinding(ctx: Context, key: string, value: string, item: (Value, Variant)): (r: Context)
    ensures value != [] && key != value ==> Str(key) in r && r[Str(key)] == Val(item.0)
    ensures value != [] ==> Str(value) in r && r[Str(value)] == item.1
    ensures value == [] ==> Str(key) in r && r[Str(key)] == item.1
    ensures forall k :: k in ctx && k != Str(key) && k != Str(value) ==> k in r && r[k] == ctx[k]
  {
    if value != [] then ctx[Str(key) := Val(item.0)][Str(value) := item.1]
    else ctx[Str(key) := item.1]
  }

  /** The `loop` dict of the `i`-th of `n` list items. */
  function LoopInfo(n: nat, i: nat): Variant
  {
    Dict(map[Str("size") := Val(Int(n)), Str("index") := Val(Int(i)), Str("last") := Val(Bool(i + 1 >= n))])
  }

  /** The context a list item is rendered in. */
  function ListBinding(ctx: Context, value: string, n: nat, i: nat, item: Variant): (r: Context)
    ensures Str(value) in r && r[Str(value)] == item
    ensures value != "loop" ==> Str("loop") in r && r[Str("loop")] == LoopInfo(n, i)
    ensures forall k :: k in ctx && k != Str(value) && k != Str("loop") ==> k in r && r[k] == ctx[k]
  {
    ctx[Str("loop") := LoopInfo(n, i)][Str(value) := item]
  }

  /** The dict loop of `ForBlock::process` from the `i`-th entry on, with
      the output so far and the context the last entry left behind. */
  function ForDict(h: Host, b: Block, items: seq<(Value, Variant)>, i: nat, key: string, value: string,
                   ctx: Context, acc: string): (r: Result<string, Failure>)
    requires b.For? && i <= |items|
    ensures r.Err? ==> r.error.kind != ExpressionErr
    decreases b, 0, |items| - i
  {
    if i == |items| then Ok(acc)
    else
      var next := DictBinding(ctx, key, value, items[i]);
      match ProcessList(h, b.children, next)
      case Err(f) => Err(f)
      case Ok(s) => ForDict(h, b, items, i + 1, key, value, next, acc + s)
  }

  /** The list loop of `ForBlock::process` from the `i`-th item on. */
  function ForList(h: Host, b: Block, xs: seq<Variant>, i: nat, value: string, ctx: Context, acc: string)
    : (r: Result<string, Failure>)
    requires b.For? && i <= |xs|
    ensures r.Err? ==> r.error.kind != ExpressionErr
    decreases b, 0, |xs| - i
  {
    if i == |xs| then Ok(acc)
    else
      var next := ListBinding(ctx, value, |xs|, i, xs[i]);
      match ProcessList(h, b.children, next)
      case Err(f) => Err(f)
      case Ok(s) => ForList(h, b, xs, i + 1, value, next, acc + s)
  }

  /** `ForBlock::process` (template-blocks.cpp:414-482). */
  function ForProcess(h: Host, b: Block, ctx: Context): (r: Result<string, Failure>)
    requires b.For?
    ensures r.Err? ==> r.error.kind != ExpressionErr
    ensures At(ctx, b.iterated) == Err(OutOfRange) ==> r == Err(Failure(XErr, "Undefined variable: " + b.iterated))
    ensures At(ctx, b.iterated).Ok? && At(ctx, b.iterated).value.Dict? && |b.keys| > 2
            ==> r == Err(Failure(TemplateErr, "An dict cannot must have at most two keys (" + b.iterated + ")"))
    ensures At(ctx, b.iterated).Ok? && At(ctx, b.iterated).value.List? && |b.keys| != 1
            ==> r == Err(Failure(RuntimeErr, "An dict cannot must have only one keys (" + b.iterated + ")"))
    ensures At(ctx, b.iterated).Ok? && !At(ctx, b.iterated).value.Dict? && !At(ctx, b.iterated).value.List?
            ==> r == Ok("")
    decreases b, 1
  {
    match At(ctx, b.iterated)
    case Err(OutOfRange) => Err(Failure(XErr, "Undefined variable: " + b.iterated))
    case Err(BadAccess) => Err(Failure(BadCast, ""))
    case Ok(Dict(d)) =>
      if |b.keys| > 2 then
        Err(Failure(TemplateErr, "An dict cannot must have at most two keys (" + b.iterated + ")"))
      else if b.keys == [] then Err(Failure(UndefinedBehaviour, ""))
      else
        var value := if |b.keys| == 2 then Tools.Stripped(b.keys[1]) else "";
        ForDict(h, b, Dicts.Items(d), 0, Tools.Stripped(b.keys[0]), value, ctx, "")
    case Ok(List(xs)) =>
      if |b.keys| != 1 then
        Err(Failure(RuntimeErr, "An dict cannot must have only one keys (" + b.iterated + ")"))
      else ForList(h, b, xs, 0, Tools.Stripped(b.keys[0]), ctx, "")
    case Ok(_) => Ok("")
  }

  /** `RootBlock::render`: the context must hold a dict. */
  function RenderRoot(h: Host, root: seq<Block>, context: Variant): (r: Result<string, Failure>)
    ensures !context.Dict? ==> r == Err(Failure(BadCast, ""))
    ensures context.Dict? ==> r == ProcessList(h, root, context.entries)
  {
    if context.Dict? then ProcessList(h, root, context.entries) else Err(Failure(BadCast, ""))
  }

  // ---------------------------------------------------------------------
  // properties of rendering

  /** A list renders as its two halves, one after the other. */
  lemma {:induction false} ProcessListConcat(h: Host, a: seq<Block>, b: seq<Block>, ctx: Context)
    ensures ProcessList(h, a + b, ctx) ==
            (match ProcessList(h, a, ctx)
             case Err(f) => Err(f)
             case Ok(x) =>
               match ProcessList(h, b, ctx)
               case Err(f) => Err(f)
               case Ok(y) => Ok(x + y))
  {
    if a == [] {
      assert a + b == b;
      match ProcessList(h, b, ctx)
      case Err(_) =>
      case Ok(y) => assert "" + y == y;
    } else {
      assert (a + b)[0] == a[0];
      assert (a + b)[1..] == a[1..] + b;
      ProcessListConcat(h, a[1..], b, ctx);
      match Process(h, a[0], ctx)
      case Err(_) =>
      case Ok(s) =>
        match ProcessList(h, a[1..], ctx)
        case Err(_) =>
        case Ok(x) =>
          match ProcessList(h, b, ctx)
          case Err(_) =>
          case Ok(y) => assert s + (x + y) == (s + x) + y;
    }
  }

  /** A text-only list renders as the texts joined, whatever the context. */
  lemma {:induction false} TextsRenderVerbatim(h: Host, ts: seq<string>, ctx: Context)
    ensures ProcessList(h, seq(|ts|, i requires 0 <= i < |ts| => Text(ts[i])), ctx) == Ok(Concat(ts))
  {
    var bs := seq(|ts|, i requires 0 <= i < |ts| => Text(ts[i]));
    if ts != [] {
      var tail := seq(|ts[1..]|, i requires 0 <= i < |ts[1..]| => Text(ts[1..][i]));
      assert bs[1..] == tail;
      TextsRenderVerbatim(h, ts[1..], ctx);
    }
  }

  function Concat(ts: seq<string>): string
  {
    if ts == [] then "" else ts[0] + Concat(ts[1..])
  }

  /** A condition that is false for the engine: an expression Error, or a
      value that does not select. */
  predicate Skips(h: Host, br: Branch, ctx: Context)
  {
    var c := Eval(h, br.cond, ctx);
    (c.Err? && c.error.kind == ExpressionErr) || (c.Ok? && !Selects(c.value))
  }

  /** The first selecting branch renders, after branches that skip. */
  lemma {:induction false} IfRendersFirstSelected(h: Host, b: Block, k: nat, ctx: Context)
    requires b.If? && k < |b.branches|
    requires forall j :: 0 <= j < k ==> Skips(h, b.branches[j], ctx)
    requires Eval(h, b.branches[k].cond, ctx).Ok? && Selects(Eval(h, b.branches[k].cond, ctx).value)
    ensures Process(h, b, ctx) == ProcessList(h, b.branches[k].body, ctx)
  {
    IfFromSkips(h, b, 0, k, ctx);
  }

  /** When every branch skips, the else children render ("" without else). */
  lemma {:induction false} IfRendersOtherwise(h: Host, b: Block, ctx: Context)
    requires b.If?
    requires forall j :: 0 <= j < |b.branches| ==> Skips(h, b.branches[j], ctx)
    ensures Process(h, b, ctx) == ProcessList(h, b.otherwise, ctx)
  {
    IfFromSkips(h, b, 0, |b.branches|, ctx);
  }

  lemma {:induction false} IfFromSkips(h: Host, b: Block, i: nat, k: nat, ctx: Context)
    requires b.If? && i <= k <= |b.branches|
    requires forall j {:trigger Skips(h, b.branches[j], ctx)} :: i <= j < k ==> Skips(h, b.branches[j], ctx)
    ensures IfFrom(h, b, i, ctx) == IfFrom(h, b, k, ctx)
    decreases k - i
  {
    if i < k {
      IfFromSkips(h, b, i, k - 1, ctx);
      IfFromSkip(h, b, k - 1, ctx);
    }
  }

  /** A branch that skips hands over to the next one. */
  lemma IfFromSkip(h: Host, b: Block, i: nat, ctx: Context)
    requires b.If? && i < |b.branches| && Skips(h, b.branches[i], ctx)
    ensures IfFrom(h, b, i, ctx) == IfFrom(h, b, i + 1, ctx)
  {
  }

  /** Every dict entry is rendered in the original context with only that
      entry's names bound: one entry's names do not leak into the next. */
  function EachEntry(h: Host, children: seq<Block>, items: seq<(Value, Variant)>, key: string, value: string,
                     ctx: Context): Result<string, Failure>
  {
    if items == [] then Ok("")
    else
      var s :- ProcessList(h, children, DictBinding(ctx, key, value, items[0]));
      var rest :- EachEntry(h, children, items[1..], key, value, ctx);
      Ok(s + rest)
  }

  lemma DictBindingTwice(ctx: Context, key: string, value: string, a: (Value, Variant), c: (Value, Variant))
    ensures DictBinding(DictBinding(ctx, key, value, a), key, value, c) == DictBinding(ctx, key, value, c)
  {
  }

  lemma {:induction false} ForDictIsEachEntry(h: Host, b: Block, items: seq<(Value, Variant)>, i: nat,
                                               key: string, value: string, ctx: Context, last: Context, acc: string)
    requires b.For? && i <= |items|
    requires i == 0 ==> last == ctx
    requires i > 0 ==> last == DictBinding(ctx, key, value, items[i - 1])
    ensures ForDict(h, b, items, i, key, value, last, acc) ==
            (match EachEntry(h, b.children, items[i..], key, value, ctx)
             case Err(f) => Err(f)
             case Ok(s) => Ok(acc + s))
    decreases |items| - i
  {
    if i == |items| {
      assert items[i..] == [] && acc + "" == acc;
    } else {
      if i > 0 {
        DictBindingTwice(ctx, key, value, items[i - 1], items[i]);
      }
      assert items[i..][0] == items[i] && items[i..][1..] == items[i + 1..];
      match ProcessList(h, b.children, DictBinding(ctx, key, value, items[i]))
      case Err(_) =>
      case Ok(s) =>
        ForDictIsEachEntry(h, b, items, i + 1, key, value, ctx, DictBinding(ctx, key, value, items[i]), acc + s);
        match EachEntry(h, b.children, items[i + 1..], key, value, ctx)
        case Err(_) =>
        case Ok(t) => assert acc + (s + t) == (acc + s) + t;
    }
  }

  /** A dict loop renders each entry in the caller's context plus that
      entry's binding, in key order. */
  lemma ForOverDict(h: Host, b: Block, ctx: Context, d: map<Value, Variant>)
    requires b.For? && At(ctx, b.iterated) == Ok(Dict(d)) && 1 <= |b.keys| <= 2
    ensures Process(h, b, ctx) ==
            EachEntry(h, b.children, Dicts.Items(d), Tools.Stripped(b.keys[0]),
                      if |b.keys| == 2 then Tools.Stripped(b.keys[1]) else "", ctx)
  {
    var items := Dicts.Items(d);
    var key := Tools.Stripped(b.keys[0]);
    var value := if |b.keys| == 2 then Tools.Stripped(b.keys[1]) else "";
    ForStartsDict(h, b, ctx, d);
    ForDictIsEachEntry(h, b, items, 0, key, value, ctx, ctx, "");
    assert items[0..] == items;
    match EachEntry(h, b.children, items, key, value, ctx)
    case Err(_) =>
    case Ok(s) => assert "" + s == s;
  }

  lemma ForStartsDict(h: Host, b: Block, ctx: Context, d: map<Value, Variant>)
    requires b.For? && At(ctx, b.iterated) == Ok(Dict(d)) && 1 <= |b.keys| <= 2
    ensures Process(h, b, ctx) ==
            ForDict(h, b, Dicts.Items(d), 0, Tools.Stripped(b.keys[0]),
                    if |b.keys| == 2 then Tools.Stripped(b.keys[1]) else "", ctx, "")
  {
    assert Process(h, b, ctx) == ForProcess(h, b, ctx);
  }

  /** Every list item is rendered in the original context with `loop` and
      the item's name bound. */
  function EachItem(h: Host, children: seq<Block>, xs: seq<Variant>, i: nat, value: string, ctx: Context)
    : Result<string, Failure>
    requires i <= |xs|
    decreases |xs| - i
  {
    if i == |xs| then Ok("")
    else
      var s :- ProcessList(h, children, ListBinding(ctx, value, |xs|, i, xs[i]));
      var rest :- EachItem(h, children, xs, i + 1, value, ctx);
      Ok(s + rest)
  }

  lemma ListBindingTwice(ctx: Context, value: string, n: nat, i: nat, j: nat, x: Variant, y: Variant)
    ensures ListBinding(ListBinding(ctx, value, n, i, x), value, n, j, y) == ListBinding(ctx, value, n, j, y)
  {
  }

  /** One item of the list loop, whatever context the last item left. */
  lemma ForListStep(h: Host, b: Block, xs: seq<Variant>, i: nat, value: string, ctx: Context, last: Context, acc: string)
    requires b.For? && i < |xs|
    requires i == 0 ==> last == ctx
    requires i > 0 ==> last == ListBinding(ctx, value, |xs|, i - 1, xs[i - 1])
    ensures var next := ListBinding(ctx, value, |xs|, i, xs[i]);
            ForList(h, b, xs, i, value, last, acc) ==
            (match ProcessList(h, b.children, next)
             case Err(f) => Err(f)
             case Ok(s) => ForList(h, b, xs, i + 1, value, next, acc + s))
  {
    if i > 0 {
      ListBindingTwice(ctx, value, |xs|, i - 1, i, xs[i - 1], xs[i]);
    }
  }

  lemma {:induction false} ForListIsEachItem(h: Host, b: Block, xs: seq<Variant>, i: nat, value: string,
                                              ctx: Context, last: Context, acc: string)
    requires b.For? && i <= |xs|
    requires i == 0 ==> last == ctx
    requires i > 0 ==> last == ListBinding(ctx, value, |xs|, i - 1, xs[i - 1])
    ensures ForList(h, b, xs, i, value, last, acc) ==
            (match EachItem(h, b.children, xs, i, value, ctx)
             case Err(f) => Err(f)
             case Ok(s) => Ok(acc + s))
    decreases |xs| - i
  {
    if i == |xs| {
      assert acc + "" == acc;
    } else {
      ForListStep(h, b, xs, i, value, ctx, last, acc);
      match ProcessList(h, b.children, ListBinding(ctx, value, |xs|, i, xs[i]))
      case Err(_) =>
      case Ok(s) =>
        ForListIsEachItem(h, b, xs, i + 1, value, ctx, ListBinding(ctx, value, |xs|, i, xs[i]), acc + s);
        match EachItem(h, b.children, xs, i + 1, value, ctx)
        case Err(_) =>
        case Ok(t) => assert acc + (s + t) == (acc + s) + t;
    }
  }

  /** A list loop renders each item in the caller's context plus `loop` and
      the item, in list order. */
  lemma ForOverList(h: Host, b: Block, ctx: Context, xs: seq<Variant>)
    requires b.For? && At(ctx, b.iterated) == Ok(List(xs)) && |b.keys| == 1
    ensures Process(h, b, ctx) == EachItem(h, b.children, xs, 0, Tools.Stripped(b.keys[0]), ctx)
  {
    ForStartsList(h, b, ctx, xs);
    ForListFromStart(h, b, xs, Tools.Stripped(b.keys[0]), ctx);
  }

  lemma ForListFromStart(h: Host, b: Block, xs: seq<Variant>, value: string, ctx: Context)
    requires b.For?
    ensures ForList(h, b, xs, 0, value, ctx, "") == EachItem(h, b.children, xs, 0, value, ctx)
  {
    ForListIsEachItem(h, b, xs, 0, value, ctx, ctx, "");
    var each := EachItem(h, b.children, xs, 0, value, ctx);
    if each.Ok? {
      assert "" + each.value == each.value;
    }
  }

  lemma ForStartsList(h: Host, b: Block, ctx: Context, xs: seq<Variant>)
    requires b.For? && At(ctx, b.iterated) == Ok(List(xs)) && |b.keys| == 1
    ensures Process(h, b, ctx) == ForList(h, b, xs, 0, Tools.Stripped(b.keys[0]), ctx, "")
  {
    assert Process(h, b, ctx) == ForProcess(h, b, ctx);
  }

  // ---------------------------------------------------------------------
  // rendering, as the engine does it

  /** The output of the blocks from the `i`-th on, after `acc`. */
  function ListFrom(h: Host, bs: seq<Block>, i: nat, acc: string, ctx: Context): Result<string, Failure>
    requires i <= |bs|
  {
    match ProcessList(h, bs[i..], ctx)
    case Ok(s) => Ok(acc + s)
    case Err(f) => Err(f)
  }

  lemma ListFromStep(h: Host, bs: seq<Block>, i: nat, acc: string, ctx: Context, out: Result<string, Failure>)
    requires i < |bs| && out == Process(h, bs[i], ctx)
    ensures out.Err? ==> ListFrom(h, bs, i, acc, ctx) == Err(out.error)
    ensures out.Ok? ==> ListFrom(h, bs, i, acc, ctx) == ListFrom(h, bs, i + 1, acc + out.value, ctx)
  {
    assert bs[i..][0] == bs[i] && bs[i..][1..] == bs[i + 1..];
    if out.Ok? {
      var rest := ProcessList(h, bs[i + 1..], ctx);
      if rest.Ok? {
        assert acc + (out.value + rest.value) == (acc + out.value) + rest.value;
      }
    }
  }

  lemma ListFromEnds(h: Host, bs: seq<Block>, acc: string, ctx: Context)
    ensures ListFrom(h, bs, 0, "", ctx) == ProcessList(h, bs, ctx)
    ensures ListFrom(h, bs, |bs|, acc, ctx) == Ok(acc)
  {
    assert bs[0..] == bs && bs[|bs|..] == [];
    assert acc + "" == acc;
    var all := ProcessList(h, bs, ctx);
    if all.Ok? {
      assert "" + all.value == all.value;
    }
  }

  /** `BlockList::process` (xdev-template-blocks.hpp:40-48). */
  method ProcessBlocks(h: Host, bs: seq<Block>, ctx: Context) returns (r: Result<string, Failure>)
    ensures r == ProcessList(h, bs, ctx)
  {
    var result := "";
    ListFromEnds(h, bs, result, ctx);
    var i := 0;
    while i < |bs|
      invariant i <= |bs|
      invariant ListFrom(h, bs, i, result, ctx) == ProcessList(h, bs, ctx)
    {
      var out := Process(h, bs[i], ctx);
      ListFromStep(h, bs, i, result, ctx, out);
      if out.Err? {
        return Err(out.error);
      }
      result := result + out.value;
      i := i + 1;
    }
    ListFromEnds(h, bs, result, ctx);
    r := Ok(result);
  }

  /** `IfBlock::process` (template-blocks.cpp:342-363). */
  method ProcessIf(h: Host, b: Block, ctx: Context) returns (r: Result<string, Failure>)
    requires b.If?
    ensures r == Process(h, b, ctx)
  {
    var i := 0;
    while i < |b.branches|
      invariant i <= |b.branches|
      invariant IfFrom(h, b, i, ctx) == Process(h, b, ctx)
    {
      var check := Eval(h, b.branches[i].cond, ctx);
      if check.Err? {
        if check.error.kind != ExpressionErr {
          return Err(check.error);
        }
      } else if check.value.Val? && check.value.v.Bool? {
        if check.value.v.b {
          var out := ProcessBlocks(h, b.branches[i].body, ctx);
          if out.Ok? || out.error.kind != ExpressionErr {
            return out;
          }
        }
      } else if !Empty(check.value) {
        var out := ProcessBlocks(h, b.branches[i].body, ctx);
        if out.Ok? || out.error.kind != ExpressionErr {
          return out;
        }
      }
      i := i + 1;
    }
    r := ProcessBlocks(h, b.otherwise, ctx);
  }

  /** `ForBlock::process` (template-blocks.cpp:414-482), on a copy of the
      context. */
  method ProcessFor(h: Host, b: Block, ctx: Context) returns (r: Result<string, Failure>)
    requires b.For?
    ensures r == Process(h, b, ctx)
  {
    assert Process(h, b, ctx) == ForProcess(h, b, ctx);
    var iterable := At(ctx, b.iterated);
    if iterable.Err? {
      if iterable.error == OutOfRange {
        return Err(Failure(XErr, "Undefined variable: " + b.iterated));
      }
      return Err(Failure(BadCast, ""));
    }
    match iterable.value
    case Dict(d) =>
      if |b.keys| > 2 {
        return Err(Failure(TemplateErr, "An dict cannot must have at most two keys (" + b.iterated + ")"));
      }
      if b.keys == [] {
        return Err(Failure(UndefinedBehaviour, ""));
      }
      var key := Tools.Stripped(b.keys[0]);
      var value := "";
      if |b.keys| == 2 {
        value := Tools.Stripped(b.keys[1]);
      }
      r := ForEachEntry(h, b, Dicts.Items(d), key, value, ctx);
    case List(xs) =>
      if |b.keys| != 1 {
        return Err(Failure(RuntimeErr, "An dict cannot must have only one keys (" + b.iterated + ")"));
      }
      r := ForEachItem(h, b, xs, Tools.Stripped(b.keys[0]), ctx);
    case Val(_) =>
      r := Ok("");
    case Function(_) =>
      r := Ok("");
    case Object(_) =>
      r := Ok("");
  }

  /** The dict loop of `ForBlock::process`: each entry binds its names in
      the shared loop context, then the children render. */
  method ForEachEntry(h: Host, b: Block, items: seq<(Value, Variant)>, key: string, value: string, ctx: Context)
    returns (r: Result<string, Failure>)
    requires b.For?
    ensures r == ForDict(h, b, items, 0, key, value, ctx, "")
  {
    var forContext := ctx;
    var result := "";
    var i := 0;
    while i < |items|
      invariant i <= |items|
      invariant ForDict(h, b, items, i, key, value, forContext, result) == ForDict(h, b, items, 0, key, value, ctx, "")
    {
      var item := items[i];
      if value != [] {
        forContext := forContext[Str(key) := Val(item.0)];
        forContext := forContext[Str(value) := item.1];
      } else {
        forContext := forContext[Str(key) := item.1];
      }
      var out := ProcessBlocks(h, b.children, forContext);
      if out.Err? {
        return Err(out.error);
      }
      result := result + out.value;
      i := i + 1;
    }
    r := Ok(result);
  }

  /** The list loop of `ForBlock::process`: each item updates `loop` and
      binds the item, then the children render. */
  method ForEachItem(h: Host, b: Block, xs: seq<Variant>, value: string, ctx: Context)
    returns (r: Result<string, Failure>)
    requires b.For?
    ensures r == ForList(h, b, xs, 0, value, ctx, "")
  {
    var forContext := ctx;
    var result := "";
    var index := 0;
    while index < |xs|
      invariant index <= |xs|
      invariant ForList(h, b, xs, index, value, forContext, result) == ForList(h, b, xs, 0, value, ctx, "")
    {
      forContext := forContext[Str("loop") := LoopInfo(|xs|, index)];
      forContext := forContext[Str(value) := xs[index]];
      var out := ProcessBlocks(h, b.children, forContext);
      if out.Err? {
        return Err(out.error);
      }
      result := result + out.value;
      index := index + 1;
    }
    r := Ok(result);
  }
}
