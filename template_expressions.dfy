/** The expressions of the runtime template engine
    (libs/template/src/xdev-template-expressions.cpp): a `{{ … }}` body is
    either a comparison `left op right` or a base variable followed by a pipe
    of render functions, `who | replace('_', '#') | upper`, evaluated against a
    dict context.

    The regular expressions the engine matches with, the JSON reader, the
    kind conversion `Variant::convert<T>` and the render functions whose
    bodies depend on the clock or on other templates are not modelled: they
    are the fields of a `Host` value, so every statement below holds for
    whatever they answer. */
module TemplateExpressions {
  import opened Wrappers
  import opened Values
  import opened Variants
  import Dicts
  import Tools

  // ---------------------------------------------------------------------
  // failures

  /** Which exception escapes. */
  datatype FailureKind =
    | TemplateErr        // xdev::temp::Error
    | ExpressionErr      // Expression::Error
    | OutOfRangeErr      // std::out_of_range
    | BadCast            // the value held is not of the requested kind
    | RuntimeErr         // std::runtime_error
    | XErr               // XException
    | UndefinedBehaviour // the source reads past the end of a container
    | NoReturn           // the source loops forever
    | TooDeep            // the source recurses until the stack runs out

  /** An exception: its kind and, where the source composes it, its text.
      Exceptions raised inside the standard library carry an empty text here. */
  datatype Failure = Failure(kind: FailureKind, msg: string)

  /** Whether a failure is a C++ exception, which a `catch (const
      exception&)` would see; the last three kinds are not. */
  predicate IsException(k: FailureKind)
  {
    !(k.UndefinedBehaviour? || k.NoReturn? || k.TooDeep?)
  }

  // ---------------------------------------------------------------------
  // the parts that are not modelled

  /** The six comparison operators, in the order `OpertatorsRe` tries them. */
  datatype Op = Eq | Ne | Le | Ge | Lt | Gt

  function OpText(op: Op): (r: string)
    ensures 1 <= |r| <= 2
  {
    match op
    case Eq => "=="
    case Ne => "!="
    case Le => "<="
    case Ge => ">="
    case Lt => "<"
    case Gt => ">"
  }

  /** The engine's collaborators whose behaviour is outside the model:
      - `functionForm`: `\s*([a-zA-Z_]+)\((.*)\)\s*$`, giving groups 1 and 2;
      - `pipeForm`: `([\w\.]+)\s{0,}((\|.+){1,})`, giving groups 1 and 2;
      - `testAt`: `OpertatorsRe`, giving the length of group 1 and the operator;
      - `quoted`: `['"](.+)?['"]`, giving group 1;
      - `number`: `\d+(\.\d+)?` followed by `stod` of group 1;
      - `fromJson`: `xvar::FromJSON`, `None` when it throws;
      - `convert`: `left.convert<T>()` to the kind of the given value;
      - `text`: `Variant::toString` of values other than bool, int and string;
      - `objects`: a comparison whose right side is an object pointer;
      - `external`: the render functions other than upper/lower/replace/length
        (`date`, `render`, `super` and those added by `AddFunction`);
      - `registered`: the names in `RenderFunctions`;
      - `forHead`: `for\s+(.*)\s+in\s+(.*)`, giving groups 1 and 2;
      - `blockName`: `\w+\s+["']?(.+)["']?`, giving group 1. */
  datatype Host = Host(
    functionForm: string -> Option<(string, string)>,
    pipeForm: string -> Option<(string, string)>,
    testAt: string -> Option<(nat, Op)>,
    quoted: string -> Option<string>,
    number: string -> Option<Result<Variant, Failure>>,
    fromJson: string -> Option<Variant>,
    convert: (Variant, Value) -> Result<Value, Failure>,
    text: Variant -> string,
    objects: (Variant, Op, nat) -> Result<bool, Failure>,
    external: (string, seq<Variant>, map<Value, Variant>) -> Result<Variant, Failure>,
    registered: set<string>,
    forHead: string -> Option<(string, string)>,
    blockName: string -> Option<string>)

  /** The render functions with a body in the model. */
  const Builtins: set<string> := {"upper", "lower", "replace", "length"}

  // ---------------------------------------------------------------------
  // expressions

  /** A render-function call: the name and its raw argument texts. */
  datatype Call = Call(name: string, args: seq<string>)

  /** `TemplateExpression` (a base variable, possibly empty, and the calls of
      its pipe) or `TestExpression` (two operands and an operator). */
  datatype Expr =
    | Template(content: string, base: string, calls: seq<Call>)
    | Test(content: string, left: Expr, op: Op, right: Expr)

  /** `regex_match(content, OpertatorsRe)`, with the operands cut out of the
      content. A match whose positions do not fit the content is no match. */
  function TestSplit(h: Host, content: string): (r: Option<(string, Op, string)>)
    ensures r.Some? ==> |r.value.0| < |content| && |r.value.2| < |content|
    ensures r.Some? ==> content == r.value.0 + OpText(r.value.1) + r.value.2
  {
    match h.testAt(content)
    case Some((i, op)) =>
      if i + |OpText(op)| <= |content| then
        assert content == content[..i] + content[i..i + |OpText(op)|] + content[i + |OpText(op)|..];
        if content[i..i + |OpText(op)|] == OpText(op) then
          Some((content[..i], op, content[i + |OpText(op)|..]))
        else Option.None
      else Option.None
    case None => Option.None
  }

  /** `ExtractFunction` (xdev-template-expressions.cpp:210-227): the trimmed
      name and the trimmed non-empty comma-separated arguments. */
  function ExtractFunction(h: Host, raw: string): Option<(string, seq<string>)>
  {
    match h.functionForm(raw)
    case Some((name, args)) =>
      Some((Tools.Stripped(name), StripAll(Tools.NonEmpty(Tools.Pieces(args, ',')))))
    case None => Option.None
  }

  function StripAll(items: seq<string>): (r: seq<string>)
    ensures |r| == |items| && forall i :: 0 <= i < |r| ==> r[i] == Tools.Stripped(items[i])
  {
    seq(|items|, i requires 0 <= i < |items| => Tools.Stripped(items[i]))
  }

  /** `RenderFunctions.at(name)`: a name that is not registered throws. */
  function Lookup(h: Host, name: string, args: seq<string>): (r: Result<Call, Failure>)
    ensures r.Ok? <==> name in h.registered
    ensures r.Ok? ==> r.value == Call(name, args)
    ensures r.Err? ==> r.error.kind == OutOfRangeErr
  {
    if name in h.registered then Ok(Call(name, args)) else Err(Failure(OutOfRangeErr, ""))
  }

  /** The call one raw pipe segment contributes, if any
      (xdev-template-expressions.cpp:44-54): `f(args)` or a bare name;
      a segment that trims to nothing contributes none. */
  function PipeCall(h: Host, raw: string): Result<Option<Call>, Failure>
  {
    var t := Tools.Stripped(raw);
    match ExtractFunction(h, t)
    case Some((name, args)) =>
      var c :- Lookup(h, name, args); Ok(Some(c))
    case None =>
      if t != [] then var c :- Lookup(h, t, []); Ok(Some(c)) else Ok(Option.None)
  }

  /** The calls of a pipe, segment by segment; the first unknown name throws. */
  function PipeCalls(h: Host, raws: seq<string>): (r: Result<seq<Call>, Failure>)
    ensures r.Ok? ==> |r.value| <= |raws|
    ensures r.Ok? ==> forall i :: 0 <= i < |r.value| ==> r.value[i].name in h.registered
  {
    if raws == [] then Ok([])
    else
      var first :- PipeCall(h, raws[0]);
      var rest :- PipeCalls(h, raws[1..]);
      Ok((if first.Some? then [first.value] else []) + rest)
  }

  /** The `TemplateExpression` constructor (xdev-template-expressions.cpp:27-60):
      `name(args)` is one call without a base variable; `var | f | g(a)` is a
      base variable and the calls of its pipe; anything else is a bare base
      variable. */
  function NewTemplate(h: Host, content: string): (r: Result<Expr, Failure>)
    ensures r.Ok? ==> r.value.Template? && r.value.content == content
  {
    match ExtractFunction(h, content)
    case Some((name, args)) =>
      var c :- Lookup(h, name, args); Ok(Template(content, "", [c]))
    case None =>
      match h.pipeForm(content)
      case Some((base, pipes)) =>
        var calls :- PipeCalls(h, Tools.NonEmpty(Tools.Pieces(pipes, '|')));
        Ok(Template(content, base, calls))
      case None => Ok(Template(content, content, []))
  }

  /** `Expression::Load` (xdev-template-expressions.cpp:14-21) and the
      `TestExpression` constructor (233-241): a comparison when the content
      matches the operator pattern, its operands loaded the same way. */
  function Load(h: Host, content: string): (r: Result<Expr, Failure>)
    ensures r.Ok? ==> r.value.content == content
    ensures r.Ok? ==> (r.value.Test? <==> TestSplit(h, content).Some?)
    decreases |content|
  {
    match TestSplit(h, content)
    case Some((l, op, rt)) =>
      var left :- Load(h, l);
      var right :- Load(h, rt);
      Ok(Test(content, left, op, right))
    case None => NewTemplate(h, content)
  }

  /** A bare content that matches neither form is read as a variable. */
  lemma LoadPlainVariable(h: Host, content: string)
    requires TestSplit(h, content).None?
    requires h.functionForm(content).None? && h.pipeForm(content).None?
    ensures Load(h, content) == Ok(Template(content, content, []))
  {
  }

  /** The call form: one call, no base variable, when the name is registered,
      and `std::out_of_range` when it is not. */
  lemma LoadFunctionForm(h: Host, content: string, name: string, args: string)
    requires TestSplit(h, content).None?
    requires h.functionForm(content) == Some((name, args))
    ensures var n := Tools.Stripped(name);
            var a := StripAll(Tools.NonEmpty(Tools.Pieces(args, ',')));
            && (n in h.registered ==> Load(h, content) == Ok(Template(content, "", [Call(n, a)])))
            && (n !in h.registered ==> Load(h, content) == Err(Failure(OutOfRangeErr, "")))
  {
  }

  /** A pipe of bare registered names gives one argument-less call per
      segment, in order. */
  lemma {:induction false} PipeOfNames(h: Host, raws: seq<string>)
    requires forall i :: 0 <= i < |raws| ==> raws[i] == Tools.Stripped(raws[i]) && raws[i] != []
    requires forall i :: 0 <= i < |raws| ==> raws[i] in h.registered && h.functionForm(raws[i]).None?
    ensures PipeCalls(h, raws).Ok?
    ensures |PipeCalls(h, raws).value| == |raws|
    ensures forall i :: 0 <= i < |raws| ==> PipeCalls(h, raws).value[i] == Call(raws[i], [])
  {
    if raws != [] {
      PipeOfNames(h, raws[1..]);
      NameCall(h, raws[0]);
      var rest := PipeCalls(h, raws[1..]).value;
      PipeCallsCons(h, raws, Call(raws[0], []), rest);
    }
  }

  /** A bare registered name is an argument-less call. */
  lemma NameCall(h: Host, raw: string)
    requires raw == Tools.Stripped(raw) && raw != []
    requires raw in h.registered && h.functionForm(raw).None?
    ensures PipeCall(h, raw) == Ok(Some(Call(raw, [])))
  {
  }

  lemma PipeCallsCons(h: Host, raws: seq<string>, c: Call, rest: seq<Call>)
    requires raws != [] && PipeCall(h, raws[0]) == Ok(Some(c)) && PipeCalls(h, raws[1..]) == Ok(rest)
    ensures PipeCalls(h, raws) == Ok([c] + rest)
  {
  }

  // ---------------------------------------------------------------------
  // evaluation

  /** `context.at(name)`: a dotted name reads through nested dicts. */
  function At(ctx: map<Value, Variant>, name: string): Result<Variant, AccessError>
  {
    Dicts.DotAt(ctx, name)
  }

  /** The base variable (xdev-template-expressions.cpp:66-79): from the
      context, else as a JSON literal, else "Undefined variable". */
  function BaseValue(h: Host, ctx: map<Value, Variant>, base: string): (r: Result<Variant, Failure>)
    ensures base == [] ==> r == Ok(NoneVar)
    ensures base != [] && At(ctx, base).Ok? ==> r == Ok(At(ctx, base).value)
    ensures base != [] && At(ctx, base) == Err(OutOfRange) && h.fromJson(base).None?
            ==> r == Err(Failure(ExpressionErr, "Undefined variable: " + base))
  {
    if base == [] then Ok(NoneVar)
    else match At(ctx, base)
      case Ok(v) => Ok(v)
      case Err(OutOfRange) =>
        (match h.fromJson(base)
         case Some(v) => Ok(v)
         case None => Err(Failure(ExpressionErr, "Undefined variable: " + base)))
      case Err(BadAccess) => Err(Failure(BadCast, ""))
  }

  /** One argument (xdev-template-expressions.cpp:87-112): quoted text, a
      number, or a context variable that must exist. */
  function ArgValue(h: Host, ctx: map<Value, Variant>, arg: string): (r: Result<Variant, Failure>)
    ensures h.quoted(arg).Some? ==> r == Ok(Val(Str(h.quoted(arg).value)))
    ensures h.quoted(arg).None? && h.number(arg).None? && At(ctx, arg) == Err(OutOfRange)
            ==> r == Err(Failure(ExpressionErr, "Undefined variable: " + arg))
  {
    match h.quoted(arg)
    case Some(s) => Ok(Val(Str(s)))
    case None =>
      match h.number(arg)
      case Some(n) => n
      case None =>
        match At(ctx, arg)
        case Ok(v) => Ok(v)
        case Err(OutOfRange) => Err(Failure(ExpressionErr, "Undefined variable: " + arg))
        case Err(BadAccess) => Err(Failure(BadCast, ""))
  }

  /** The arguments, left to right; the first failure escapes. */
  function ArgValues(h: Host, ctx: map<Value, Variant>, args: seq<string>): (r: Result<seq<Variant>, Failure>)
    ensures r.Ok? ==> |r.value| == |args|
  {
    if args == [] then Ok([])
    else
      var first :- ArgValue(h, ctx, args[0]);
      var rest :- ArgValues(h, ctx, args[1..]);
      Ok([first] + rest)
  }

  /** `args[i].get<string>()`. */
  function StringArg(args: seq<Variant>, i: nat): Result<string, Failure>
  {
    if i >= |args| then Err(Failure(UndefinedBehaviour, ""))
    else if args[i].Val? && args[i].v.Str? then Ok(args[i].v.s)
    else Err(Failure(BadCast, ""))
  }

  /** A render function applied to its argument list
      (xdev-template-expressions.cpp:134-168). */
  function Apply(h: Host, name: string, args: seq<Variant>, ctx: map<Value, Variant>): Result<Variant, Failure>
  {
    if name == "upper" then
      var s :- StringArg(args, 0); Ok(Val(Str(Tools.UpperStr(s))))
    else if name == "lower" then
      var s :- StringArg(args, 0); Ok(Val(Str(Tools.LowerStr(s))))
    else if name == "replace" then
      var s :- StringArg(args, 0);
      var from :- StringArg(args, 1);
      var to :- StringArg(args, 2);
      if from == [] then Err(Failure(NoReturn, "")) else Ok(Val(Str(Tools.ReplaceAll(s, from, to))))
    else if name == "length" then
      if args == [] then Err(Failure(UndefinedBehaviour, ""))
      else match args[0]
        case Dict(d) => Ok(Val(Int(|d|)))
        case List(xs) => Ok(Val(Int(|xs|)))
        case Val(Str(s)) => Ok(Val(Int(|s|)))
        case _ => Err(Failure(ExpressionErr, "Cannot apply 'length' to "))
    else h.external(name, args, ctx)
  }

  /** `upper` and `lower` keep the length; `replace` substitutes. */
  lemma StringFunctions(h: Host, ctx: map<Value, Variant>, s: string, from: string, to: string)
    ensures Apply(h, "upper", [Val(Str(s))], ctx) == Ok(Val(Str(Tools.UpperStr(s))))
    ensures Apply(h, "lower", [Val(Str(s))], ctx) == Ok(Val(Str(Tools.LowerStr(s))))
    ensures |Tools.UpperStr(s)| == |s| && |Tools.LowerStr(s)| == |s|
    ensures from != [] ==>
      Apply(h, "replace", [Val(Str(s)), Val(Str(from)), Val(Str(to))], ctx) == Ok(Val(Str(Tools.ReplaceAll(s, from, to))))
  {
  }

  /** `length` counts dict entries, list elements or characters, and throws
      for anything else. */
  lemma LengthFunction(h: Host, ctx: map<Value, Variant>, x: Variant)
    ensures x.Dict? ==> Apply(h, "length", [x], ctx) == Ok(Val(Int(|x.entries|)))
    ensures x.List? ==> Apply(h, "length", [x], ctx) == Ok(Val(Int(|x.items|)))
    ensures x.Val? && x.v.Str? ==> Apply(h, "length", [x], ctx) == Ok(Val(Int(|x.v.s|)))
    ensures (x.Function? || x.Object? || (x.Val? && !x.v.Str?)) ==>
      Apply(h, "length", [x], ctx) == Err(Failure(ExpressionErr, "Cannot apply 'length' to "))
  {
  }

  /** What one call receives: the running result unless it is empty, then
      its own arguments. */
  function CallArgs(result: Variant, args: seq<Variant>): seq<Variant>
  {
    (if Empty(result) then [] else [result]) + args
  }

  /** The pipe (xdev-template-expressions.cpp:80-115): each call's value
      replaces the running result. */
  function EvalCalls(h: Host, ctx: map<Value, Variant>, result: Variant, calls: seq<Call>): Result<Variant, Failure>
    decreases |calls|
  {
    if calls == [] then Ok(result)
    else
      var args :- ArgValues(h, ctx, calls[0].args);
      var next :- Apply(h, calls[0].name, CallArgs(result, args), ctx);
      EvalCalls(h, ctx, next, calls[1..])
  }

  /** A pipe is the composition of its parts: evaluating `p + q` is evaluating
      `q` on the result of `p`. */
  lemma {:induction false} EvalCallsConcat(h: Host, ctx: map<Value, Variant>, result: Variant, p: seq<Call>, q: seq<Call>)
    ensures EvalCalls(h, ctx, result, p + q) ==
            (match EvalCalls(h, ctx, result, p) case Ok(v) => EvalCalls(h, ctx, v, q) case Err(e) => Err(e))
    decreases |p|
  {
    if p == [] {
      assert p + q == q;
    } else {
      assert (p + q)[0] == p[0];
      assert (p + q)[1..] == p[1..] + q;
      var args := ArgValues(h, ctx, p[0].args);
      if args.Ok? {
        var next := Apply(h, p[0].name, CallArgs(result, args.value), ctx);
        if next.Ok? {
          EvalCallsConcat(h, ctx, next.value, p[1..], q);
        }
      }
    }
  }

  /** The value a comparison converts its left side to: unchanged when it
      already has the right side's kind. */
  function Converted(h: Host, left: Variant, right: Value): Result<Value, Failure>
  {
    if left.Val? && Rank(left.v) == Rank(right) then Ok(left.v) else h.convert(left, right)
  }

  /** `std::equal_to`, `std::less` and the others on two payloads of one kind. */
  predicate Compare(op: Op, a: Value, b: Value)
  {
    match op
    case Eq => a == b
    case Ne => a != b
    case Lt => Less(a, b)
    case Gt => Less(b, a)
    case Le => !Less(b, a)
    case Ge => !Less(a, b)
  }

  /** The operators agree with each other as they do on numbers. */
  lemma CompareConsistent(a: Value, b: Value)
    ensures Compare(Ne, a, b) == !Compare(Eq, a, b)
    ensures Compare(Le, a, b) == (Compare(Lt, a, b) || Compare(Eq, a, b))
    ensures Compare(Ge, a, b) == (Compare(Gt, a, b) || Compare(Eq, a, b))
    ensures Compare(Gt, a, b) == Compare(Lt, b, a)
    ensures Compare(Lt, a, b) || Compare(Eq, a, b) || Compare(Gt, a, b)
    ensures !(Compare(Lt, a, b) && Compare(Eq, a, b)) && !(Compare(Gt, a, b) && Compare(Eq, a, b))
    ensures !(Compare(Lt, a, b) && Compare(Gt, a, b))
  {
    LessIsStrictTotalOrder(a, b, a);
    LessIsStrictTotalOrder(b, a, b);
  }

  /** A comparison (xdev-template-expressions.cpp:248-285), dispatched on the
      right side: none, list and dict give false, a function throws, a scalar
      compares with the converted left side. */
  function TestValues(h: Host, op: Op, left: Variant, right: Variant): (r: Result<bool, Failure>)
    ensures right == NoneVar || right.List? || right.Dict? ==> r == Ok(false)
    ensures right.Function? ==> r == Err(Failure(RuntimeErr, "functions not handled here"))
    ensures right.Val? && !right.v.None? && left.Val? && Rank(left.v) == Rank(right.v)
            ==> r == Ok(Compare(op, left.v, right.v))
  {
    match right
    case Val(v) =>
      if v.None? then Ok(false)
      else var l :- Converted(h, left, v); Ok(Compare(op, l, v))
    case List(_) => Ok(false)
    case Dict(_) => Ok(false)
    case Function(_) => Err(Failure(RuntimeErr, "functions not handled here"))
    case Object(p) => h.objects(left, op, p)
  }

  /** `eval` of either kind of expression; a comparison is a bool value. */
  function Eval(h: Host, e: Expr, ctx: map<Value, Variant>): (r: Result<Variant, Failure>)
    ensures e.Test? && r.Ok? ==> r.value.Val? && r.value.v.Bool?
  {
    match e
    case Template(_, base, calls) =>
      var b :- BaseValue(h, ctx, base);
      EvalCalls(h, ctx, b, calls)
    case Test(_, left, op, right) =>
      var l :- Eval(h, left, ctx);
      var rt :- Eval(h, right, ctx);
      var b :- TestValues(h, op, l, rt);
      Ok(Val(Bool(b)))
  }

  /** The arguments from the `j`-th on, after those already collected. */
  function ArgsFrom(h: Host, ctx: map<Value, Variant>, args: seq<string>, j: nat, acc: seq<Variant>): Result<seq<Variant>, Failure>
    requires j <= |args|
  {
    match ArgValues(h, ctx, args[j..])
    case Ok(vs) => Ok(acc + vs)
    case Err(e) => Err(e)
  }

  lemma ArgsFromStep(h: Host, ctx: map<Value, Variant>, args: seq<string>, j: nat, acc: seq<Variant>)
    requires j < |args|
    ensures ArgValue(h, ctx, args[j]).Err? ==> ArgsFrom(h, ctx, args, j, acc) == Err(ArgValue(h, ctx, args[j]).error)
    ensures ArgValue(h, ctx, args[j]).Ok? ==>
      ArgsFrom(h, ctx, args, j, acc) == ArgsFrom(h, ctx, args, j + 1, acc + [ArgValue(h, ctx, args[j]).value])
  {
    assert args[j..][0] == args[j];
    assert args[j..][1..] == args[j + 1..];
    var v := ArgValue(h, ctx, args[j]);
    var rest := ArgValues(h, ctx, args[j + 1..]);
    if v.Ok? && rest.Ok? {
      assert acc + ([v.value] + rest.value) == (acc + [v.value]) + rest.value;
    }
  }

  /** What a call does once its arguments are collected. */
  function ApplyThen(h: Host, ctx: map<Value, Variant>, name: string, args: Result<seq<Variant>, Failure>, rest: seq<Call>): Result<Variant, Failure>
  {
    if args.Err? then Err(args.error)
    else
      var next := Apply(h, name, args.value, ctx);
      if next.Err? then Err(next.error) else EvalCalls(h, ctx, next.value, rest)
  }

  /** One step of the pipe, in terms of the collected arguments. */
  lemma EvalCallsStep(h: Host, ctx: map<Value, Variant>, result: Variant, calls: seq<Call>, i: nat)
    requires i < |calls|
    ensures EvalCalls(h, ctx, result, calls[i..]) ==
      ApplyThen(h, ctx, calls[i].name, ArgsFrom(h, ctx, calls[i].args, 0, if Empty(result) then [] else [result]), calls[i + 1..])
  {
    assert calls[i..][0] == calls[i];
    assert calls[i..][1..] == calls[i + 1..];
    assert calls[i].args[0..] == calls[i].args;
  }

  /** `eval` of a `TemplateExpression` as the source runs it: the base
      variable, then for each call its arguments one by one. */
  method EvalTemplate(h: Host, e: Expr, ctx: map<Value, Variant>) returns (r: Result<Variant, Failure>)
    requires e.Template?
    ensures r == Eval(h, e, ctx)
  {
    var base := BaseValue(h, ctx, e.base);
    if base.Err? {
      return Err(base.error);
    }
    var result := base.value;
    var i := 0;
    while i < |e.calls|
      invariant 0 <= i <= |e.calls|
      invariant EvalCalls(h, ctx, result, e.calls[i..]) == EvalCalls(h, ctx, base.value, e.calls)
    {
      var call := e.calls[i];
      EvalCallsStep(h, ctx, result, e.calls, i);
      var args := CollectArgs(h, ctx, call.args, if Empty(result) then [] else [result]);
      if args.Err? {
        return Err(args.error);
      }
      var next := Apply(h, call.name, args.value, ctx);
      if next.Err? {
        return Err(next.error);
      }
      result := next.value;
      i := i + 1;
    }
    assert e.calls[i..] == [];
    r := Ok(result);
  }

  /** The inner loop of `eval`: each argument evaluated in turn after
      `start`, stopping at the first failure. */
  method CollectArgs(h: Host, ctx: map<Value, Variant>, raw: seq<string>, start: seq<Variant>)
    returns (r: Result<seq<Variant>, Failure>)
    ensures r == ArgsFrom(h, ctx, raw, 0, start)
  {
    var args := start;
    var j := 0;
    while j < |raw|
      invariant 0 <= j <= |raw|
      invariant ArgsFrom(h, ctx, raw, j, args) == ArgsFrom(h, ctx, raw, 0, start)
    {
      ArgsFromStep(h, ctx, raw, j, args);
      var v := ArgValue(h, ctx, raw[j]);
      if v.Err? {
        return Err(v.error);
      }
      args := args + [v.value];
      j := j + 1;
    }
    assert raw[j..] == [];
    assert args + [] == args;
    r := Ok(args);
  }

  /** The calls from the `i`-th segment on, after those already pushed. */
  function CallsFrom(h: Host, raws: seq<string>, i: nat, acc: seq<Call>): Result<seq<Call>, Failure>
    requires i <= |raws|
  {
    match PipeCalls(h, raws[i..])
    case Ok(cs) => Ok(acc + cs)
    case Err(e) => Err(e)
  }

  lemma CallsFromStep(h: Host, raws: seq<string>, i: nat, acc: seq<Call>, c: Result<Option<Call>, Failure>)
    requires i < |raws| && c == PipeCall(h, raws[i])
    ensures c.Err? ==> CallsFrom(h, raws, i, acc) == Err(c.error)
    ensures c.Ok? && c.value.Some? ==> CallsFrom(h, raws, i, acc) == CallsFrom(h, raws, i + 1, acc + [c.value.value])
    ensures c.Ok? && c.value.None? ==> CallsFrom(h, raws, i, acc) == CallsFrom(h, raws, i + 1, acc)
  {
    assert raws[i..][0] == raws[i];
    assert raws[i..][1..] == raws[i + 1..];
    var rest := PipeCalls(h, raws[i + 1..]);
    if c.Ok? && rest.Ok? {
      if c.value.Some? {
        assert acc + ([c.value.value] + rest.value) == (acc + [c.value.value]) + rest.value;
      } else {
        assert [] + rest.value == rest.value;
      }
    }
  }

  lemma CallsFromEnds(h: Host, raws: seq<string>, acc: seq<Call>)
    ensures CallsFrom(h, raws, 0, []) == PipeCalls(h, raws)
    ensures CallsFrom(h, raws, |raws|, acc) == Ok(acc)
  {
    assert raws[0..] == raws;
    assert raws[|raws|..] == [];
    assert acc + [] == acc;
    var all := PipeCalls(h, raws);
    if all.Ok? {
      assert [] + all.value == all.value;
    }
  }

  /** The pipe loop of the `TemplateExpression` constructor
      (xdev-template-expressions.cpp:43-54): the segments are visited in
      order, each pushing at most one call. */
  method PushPipeCalls(h: Host, raws: seq<string>) returns (r: Result<seq<Call>, Failure>)
    ensures r == PipeCalls(h, raws)
  {
    var calls: seq<Call> := [];
    var i := 0;
    CallsFromEnds(h, raws, calls);
    while i < |raws|
      invariant 0 <= i <= |raws|
      invariant CallsFrom(h, raws, i, calls) == PipeCalls(h, raws)
    {
      var c := PipeCall(h, raws[i]);
      CallsFromStep(h, raws, i, calls, c);
      if c.Err? {
        return Err(c.error);
      }
      if c.value.Some? {
        calls := calls + [c.value.value];
      }
      i := i + 1;
    }
    CallsFromEnds(h, raws, calls);
    r := Ok(calls);
  }

  /** The `TemplateExpression` constructor as the source runs it. */
  method MakeTemplate(h: Host, content: string) returns (r: Result<Expr, Failure>)
    ensures r == NewTemplate(h, content)
  {
    var f := ExtractFunction(h, content);
    if f.Some? {
      var c := Lookup(h, f.value.0, f.value.1);
      if c.Err? {
        return Err(c.error);
      }
      return Ok(Template(content, "", [c.value]));
    }
    var pipe := h.pipeForm(content);
    if pipe.None? {
      return Ok(Template(content, content, []));
    }
    var calls := PushPipeCalls(h, Tools.NonEmpty(Tools.Pieces(pipe.value.1, '|')));
    if calls.Err? {
      return Err(calls.error);
    }
    r := Ok(Template(content, pipe.value.0, calls.value));
  }

  /** `Variant::toString` as a render block prints a value. */
  function ToText(h: Host, v: Variant): string
  {
    if v.Val? && (v.v.Bool? || v.v.Int? || v.v.Str?) then Values.ToString(v.v) else h.text(v)
  }
}
