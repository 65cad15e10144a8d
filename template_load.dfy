/** Compiling a runtime template into blocks (libs/template/src/template-blocks.cpp:63-82,
    119-155, 157-160, 163-179, 193-254, 260-340, 369-412, 488-520, 551-619).

    `TreeBlock::Load` walks the input from `{` to `{`: a `{{ … }}` tag becomes
    a render block, a `{% … %}` tag a control block whose constructor pairs
    the nested tags with a level counter and loads the text in between, and
    the text between tags is kept verbatim. An `{% extends %}` tag makes the
    list the child of a parent template kept in the resources.

    Each `TryLoad` and constructor takes the offset of its tag and gives the
    offset after what it consumed; the constructors call back into `Load`
    for their contents. A parent template held as source text is compiled
    again, so the recursion carries a `fuel` bound. */
module TemplateLoad {
  import opened Wrappers
  import opened StdString
  import opened TemplateExpressions
  import opened TemplateBlocks
  import opened TemplateScan
  import Tools

  // ---------------------------------------------------------------------
  // data

  /** What the resources hold under a key, as `extend` reads it: a compiled
      `RootBlock`, the source text of a template, or something else. */
  datatype Stored = Compiled(blocks: seq<Block>) | Source(text: string) | Opaque(typeName: string)

  /** The `XResources::ptr` a template is compiled with: `nullptr` (the
      default argument of `RootBlock::Compile`), or a store of values. */
  datatype Store = NoResources | Resources(entries: map<string, Stored>)

  /** Every template text in the store is a valid `std::string`. */
  predicate StoreOk(s: Store)
  {
    s.Resources? ==> forall k :: k in s.entries && s.entries[k].Source? ==> ViewSize(s.entries[k].text)
  }

  /** A block a `TryLoad` or a control-block constructor built, and the
      offset it leaves behind. */
  datatype Loaded = Loaded(block: Block, next: int)

  /** A block of the list `Load` builds, with the range of the input it was
      loaded from; the `extends` marker is kept here. */
  datatype Piece = Piece(block: Block, span: Bounds)

  /** The list, and the key of the `extends` tag met, if any. */
  datatype Scanned = Scanned(pieces: seq<Piece>, parent: Option<string>)

  const IfLookups: seq<string> := ["if", "elif", "else", "endif"]
  const ForLookups: seq<string> := ["for", "endfor"]
  const BlockLookups: seq<string> := ["block", "endblock"]
  const ExtendsLookups: seq<string> := ["extends"]

  /** `s.find(w) == 0`. */
  predicate StartsWith(s: string, w: string)
  {
    OccursAt(s, w, 0)
  }

  /** A `{%` at `p` with a `%}` after it. */
  predicate TagAt(input: string, p: int)
    requires ViewSize(input)
  {
    OccursAt(input, BlockStart, p) && FindSub(input, BlockEnd, p + 2) != NPOS
  }

  /** A match whose `block_end.end` is where a scan starts. */
  function Start(offset: int): Match
  {
    Fresh.(blockEnd := Unset.(end := offset))
  }

  // ---------------------------------------------------------------------
  // the tiling of the input by the loaded blocks

  /** The pieces cover `[a, b)` of the input one after the other, none of
      them empty, and each text piece is the input over its range. */
  predicate Tiles(input: string, ps: seq<Piece>, a: int, b: int)
    decreases |ps|
  {
    if ps == [] then a == b
    else
      var last := ps[|ps| - 1];
      last.span.end == b && last.span.begin < b
      && (last.block.Text? ==> 0 <= last.span.begin && b <= |input| && last.block.text == input[last.span.begin..b])
      && Tiles(input, ps[..|ps| - 1], a, last.span.begin)
  }

  /** The number of `extends` markers. */
  function ExtendCount(ps: seq<Piece>): nat
    decreases |ps|
  {
    if ps == [] then 0
    else ExtendCount(ps[..|ps| - 1]) + if ps[|ps| - 1].block.Extend? then 1 else 0
  }

  /** The text since the last block, when there is any. */
  function Gap(input: string, prev: int, p: int): (r: seq<Piece>)
    requires 0 <= prev <= p <= |input|
  {
    if p - prev > 0 then [Piece(Text(input[prev..p]), Bounds(prev, p))] else []
  }

  lemma TilesGap(input: string, ps: seq<Piece>, prev: int, p: int)
    requires 0 <= prev <= p <= |input| && Tiles(input, ps, 0, prev)
    ensures Tiles(input, ps + Gap(input, prev, p), 0, p)
    ensures ExtendCount(ps + Gap(input, prev, p)) == ExtendCount(ps)
  {
    if p - prev > 0 {
      assert (ps + Gap(input, prev, p))[..|ps|] == ps;
    } else {
      assert ps + Gap(input, prev, p) == ps;
    }
  }

  /** The blocks of the list, without the `extends` marker. */
  function BlocksOf(ps: seq<Piece>): (r: seq<Block>)
    ensures forall b :: b in r ==> !b.Extend?
    ensures ExtendCount(ps) == 0 ==> |r| == |ps|
    decreases |ps|
  {
    if ps == [] then []
    else if ps[|ps| - 1].block.Extend? then BlocksOf(ps[..|ps| - 1])
    else BlocksOf(ps[..|ps| - 1]) + [ps[|ps| - 1].block]
  }

  // ---------------------------------------------------------------------
  // TryLoad

  /** `RenderBlock::TryLoad` (template-blocks.cpp:63-82): a `{{` at `offset`
      with a `}}` after it gives a render block of the trimmed text between
      them and the offset past the `}}`; anything else gives no block. */
  function RenderTryLoad(h: Host, input: string, offset: int): (r: Result<Option<Loaded>, Failure>)
    requires ViewSize(input) && 0 <= offset <= |input|
    ensures r.Ok? && r.value.None? <==> !RenderAt(input, offset)
    ensures r.Ok? && r.value.Some? ==>
              RenderAt(input, offset) && r.value.value.next == FindSub(input, RenderEnd, offset + 2) + 2
              && offset + 4 <= r.value.value.next <= |input|
              && r.value.value.block.Render?
              && r.value.value.block.expr.content == Tools.Stripped(input[offset + 2..FindSub(input, RenderEnd, offset + 2)])
  {
    if !RenderAt(input, offset) then Ok(None)
    else
      var end := FindSub(input, RenderEnd, offset + 2);
      var e :- Load(h, Tools.Stripped(input[offset + 2..end]));
      Ok(Some(Loaded(Render(e), end + 2)))
  }

  /** A `{{` at `p` with a `}}` after it. */
  predicate RenderAt(input: string, p: int)
    requires ViewSize(input)
  {
    OccursAt(input, RenderStart, p) && FindSub(input, RenderEnd, p + 2) != NPOS
  }

  /** The kind of block the text of a control tag asks for, trying the
      prefixes `block`, `extends`, `if` and `for` in that order. */
  predicate Dispatched(block: string, b: Block)
  {
    if StartsWith(block, "block") then b.Named?
    else if StartsWith(block, "extends") then b.Extend?
    else if StartsWith(block, "if") then b.If?
    else b.For?
  }

  /** A tag text none of the four prefixes starts. */
  predicate Unknown(block: string)
  {
    !StartsWith(block, "block") && !StartsWith(block, "extends") && !StartsWith(block, "if") && !StartsWith(block, "for")
  }

  /** `ControlBlock::TryLoad` (template-blocks.cpp:119-155): a `{%` at
      `offset` with a `%}` after it builds the control block its trimmed
      text asks for; anything else gives no block. */
  function ControlTryLoad(h: Host, s: Store, fuel: nat, input: string, offset: int): (r: Result<Option<Loaded>, Failure>)
    requires ViewSize(input) && 0 <= offset <= |input| && StoreOk(s)
    ensures r == Ok(None) <==> !TagAt(input, offset)
    ensures r.Ok? && r.value.Some? ==> offset < r.value.value.next <= |input| && !r.value.value.block.Text?
    ensures r.Ok? && r.value.Some? ==>
              Dispatched(Tools.Stripped(input[offset + 2..FindSub(input, BlockEnd, offset + 2)]), r.value.value.block)
    ensures TagAt(input, offset) && Unknown(Tools.Stripped(input[offset + 2..FindSub(input, BlockEnd, offset + 2)])) ==>
              r == Err(Failure(TemplateErr, "unknown control block: " + Tools.Stripped(input[offset + 2..FindSub(input, BlockEnd, offset + 2)])))
    decreases fuel, |input|, 2, 0, 0
  {
    if !TagAt(input, offset) then Ok(None)
    else
      var end := FindSub(input, BlockEnd, offset + 2);
      var l :- Construct(h, s, fuel, Tools.Stripped(input[offset + 2..end]), input, offset);
      Ok(Some(l))
  }

  /** The dispatch of `ControlBlock::TryLoad` to the constructors, which get
      the offset of the tag itself. */
  function Construct(h: Host, s: Store, fuel: nat, block: string, input: string, offset: int): (r: Result<Loaded, Failure>)
    requires ViewSize(input) && 0 <= offset <= |input| && StoreOk(s) && TagAt(input, offset)
    ensures r.Ok? ==> offset < r.value.next <= |input| && Dispatched(block, r.value.block)
    ensures Unknown(block) ==> r == Err(Failure(TemplateErr, "unknown control block: " + block))
    decreases fuel, |input|, 1, 1, 0
  {
    if StartsWith(block, "block") then NamedCtor(h, s, fuel, block, input, offset)
    else if StartsWith(block, "extends") then ExtendCtor(h, block, input, offset)
    else if StartsWith(block, "if") then IfCtor(h, s, fuel, input, offset)
    else if StartsWith(block, "for") then ForCtor(h, s, fuel, block, input, offset)
    else Err(Failure(TemplateErr, "unknown control block: " + block))
  }

  // ---------------------------------------------------------------------
  // IfBlock

  /** The variables of the `IfBlock` constructor's loop. */
  datatype IfState = IfState(level: int, bmatch: Match, ifMatch: Match, isElse: bool,
                             branches: seq<Branch>, otherwise: seq<Block>)

  /** `IfBlock::IfBlock` (template-blocks.cpp:260-340). */
  function IfCtor(h: Host, s: Store, fuel: nat, input: string, offset: int): (r: Result<Loaded, Failure>)
    requires ViewSize(input) && 0 <= offset <= |input| && StoreOk(s)
    ensures r.Ok? ==> r.value.block.If? && offset < r.value.next <= |input|
    decreases fuel, |input|, 1, 0, 0
  {
    var st :- IfLoop(h, s, fuel, input, IfState(0, Start(offset), Fresh, false, [], []));
    Ok(Loaded(If(st.branches, st.otherwise), st.bmatch.blockEnd.end))
  }

  /** The `do … while (level > 0)` loop. */
  function IfLoop(h: Host, s: Store, fuel: nat, input: string, st: IfState): (r: Result<IfState, Failure>)
    requires ViewSize(input) && 0 <= st.bmatch.blockEnd.end <= |input| && st.ifMatch.blockEnd.end > 0 && StoreOk(s)
    ensures r.Ok? ==> st.bmatch.blockEnd.end < r.value.bmatch.blockEnd.end <= |input| && r.value.level <= 0
    decreases fuel, |input|, 0, |input| - st.bmatch.blockEnd.end, 2
  {
    var next :- IfStep(h, s, fuel, input, st);
    if next.level > 0 then IfLoop(h, s, fuel, input, next) else Ok(next)
  }

  /** One pass of the loop: the next `if`, `elif`, `else` or `endif` tag. */
  function IfStep(h: Host, s: Store, fuel: nat, input: string, st: IfState): (r: Result<IfState, Failure>)
    requires ViewSize(input) && 0 <= st.bmatch.blockEnd.end <= |input| && st.ifMatch.blockEnd.end > 0 && StoreOk(s)
    ensures r.Ok? ==> st.bmatch.blockEnd.end < r.value.bmatch.blockEnd.end <= |input| && r.value.ifMatch.blockEnd.end > 0
    ensures NextBlock(input, IfLookups, st.bmatch.blockEnd.end, st.bmatch).0 == -1 ==> r == Err(Failure(TemplateErr, "endif missing"))
    ensures r.Ok? && r.value.level < st.level ==> NextBlock(input, IfLookups, st.bmatch.blockEnd.end, st.bmatch).0 == 3
    decreases fuel, |input|, 0, |input| - st.bmatch.blockEnd.end, 1
  {
    var (index, m) := NextBlock(input, IfLookups, st.bmatch.blockEnd.end, st.bmatch);
    if index == -1 then Err(Failure(TemplateErr, "endif missing"))
    else
      assert 0 <= index < 4 && st.bmatch.blockEnd.end < m.blockEnd.end <= |input| by {
        NextBlockFound(input, IfLookups, st.bmatch.blockEnd.end, st.bmatch);
      }
      IfTag(h, s, fuel, input, st, index, m)
  }

  /** What the pass does with the tag `m` of the command `IfLookups[index]`. */
  function IfTag(h: Host, s: Store, fuel: nat, input: string, st: IfState, index: int, m: Match): (r: Result<IfState, Failure>)
    requires ViewSize(input) && 0 <= st.bmatch.blockEnd.end < m.blockEnd.end <= |input| && st.ifMatch.blockEnd.end > 0 && StoreOk(s)
    requires 0 <= index < 4
    ensures r.Ok? ==> r.value.bmatch == m && r.value.ifMatch.blockEnd.end > 0
    ensures r.Ok? && r.value.level < st.level ==> index == 3
    decreases fuel, |input|, 0, |input| - st.bmatch.blockEnd.end, 0
  {
    if index == 0 then Ok(st.(level := st.level + 1, bmatch := m, ifMatch := if st.level == 0 then m else st.ifMatch))
    else if index == 3 && st.level == 1 then
      var content :- BranchContent(input, st.ifMatch, m);
      if st.isElse then
        var children :- TreeLoad(h, s, fuel, content);
        Ok(st.(level := 0, bmatch := m, otherwise := children))
      else
        var br :- NewBranch(h, s, fuel, input, st.ifMatch.content, content);
        Ok(st.(level := 0, bmatch := m, branches := st.branches + [br]))
    else if index == 3 then Ok(st.(level := st.level - 1, bmatch := m))
    else if st.level == 1 then
      var content :- BranchContent(input, st.ifMatch, m);
      var br :- NewBranch(h, s, fuel, input, st.ifMatch.content, content);
      Ok(st.(bmatch := m, ifMatch := m, isElse := st.isElse || index == 2, branches := st.branches + [br]))
    else Ok(st.(bmatch := m))
  }

  /** The check and the content at the head of `push_if_children`: the text
      between the opening tag and the current one. */
  function BranchContent(input: string, prev: Match, cur: Match): (r: Result<string, Failure>)
    requires prev.blockEnd.end > 0
    ensures !IsSet(prev) ==> r == Err(Failure(TemplateErr, "if missing"))
    ensures r.Ok? ==> 0 < prev.blockEnd.end <= cur.blockStart.begin <= |input|
                      && r.value == input[prev.blockEnd.end..cur.blockStart.begin]
  {
    if !IsSet(prev) then Err(Failure(TemplateErr, "if missing"))
    else GetContent(input, prev, cur)
  }

  /** A branch: the trimmed content of the opening tag as its condition and
      the blocks loaded from `content`. */
  function NewBranch(h: Host, s: Store, fuel: nat, input: string, cond: Bounds, content: string): (r: Result<Branch, Failure>)
    requires ViewSize(content) && StoreOk(s)
    ensures r.Ok? ==> Get(input, cond).Ok? && r.value.cond.content == Tools.Stripped(Get(input, cond).value)
    decreases fuel, |content|, 5, 0, 0
  {
    var expression :- Get(input, cond);
    var e :- Load(h, Tools.Stripped(expression));
    var body :- TreeLoad(h, s, fuel, content);
    Ok(Branch(e, body))
  }

  // ---------------------------------------------------------------------
  // ForBlock

  /** The variables of the `ForBlock` constructor's loop. */
  datatype ForState = ForState(level: int, bmatch: Match, forMatch: Match, endforMatch: Match)

  /** A tag whose command is `command`. */
  predicate TagOf(input: string, m: Match, command: string)
    requires ViewSize(input)
  {
    Tag(input, m) && OccursAt(input, command, m.command.begin)
  }

  /** The `do … while (level > 0)` loop of `ForBlock::ForBlock`
      (template-blocks.cpp:373-396). */
  function ForLoop(input: string, st: ForState): (r: Result<ForState, Failure>)
    requires ViewSize(input) && 0 <= st.bmatch.blockEnd.end <= |input| && st.forMatch.blockEnd.end > 0
    ensures r.Ok? ==> r.value.forMatch.blockEnd.end > 0 && r.value.level <= 0
    ensures r.Ok? ==> r.value.endforMatch == st.endforMatch
                      || (st.bmatch.blockEnd.end < r.value.endforMatch.blockEnd.end <= |input|
                          && TagOf(input, r.value.endforMatch, "endfor"))
    decreases |input| - st.bmatch.blockEnd.end
  {
    var next :- ForStep(input, st);
    if next.level > 0 then ForLoop(input, next) else Ok(next)
  }

  /** One pass of the loop: the next `for` or `endfor` tag. */
  function ForStep(input: string, st: ForState): (r: Result<ForState, Failure>)
    requires ViewSize(input) && 0 <= st.bmatch.blockEnd.end <= |input| && st.forMatch.blockEnd.end > 0
    ensures r.Ok? ==> st.bmatch.blockEnd.end < r.value.bmatch.blockEnd.end <= |input| && r.value.forMatch.blockEnd.end > 0
    ensures r.Ok? ==> r.value.endforMatch == st.endforMatch
                      || (st.bmatch.blockEnd.end < r.value.endforMatch.blockEnd.end <= |input|
                          && TagOf(input, r.value.endforMatch, "endfor"))
  {
    var (index, m) := NextBlock(input, ForLookups, st.bmatch.blockEnd.end, st.bmatch);
    if index == -1 then Err(Failure(TemplateErr, "endfor missing"))
    else
      assert 0 <= index < 2 && st.bmatch.blockEnd.end < m.blockEnd.end <= |input| && TagOf(input, m, ForLookups[index]) by {
        NextBlockFound(input, ForLookups, st.bmatch.blockEnd.end, st.bmatch);
      }
      Ok(ForTag(input, st, index, m))
  }

  /** What the pass does with the tag `m` of the command `ForLookups[index]`. */
  function ForTag(input: string, st: ForState, index: int, m: Match): (r: ForState)
    requires ViewSize(input) && 0 <= st.bmatch.blockEnd.end < m.blockEnd.end <= |input| && st.forMatch.blockEnd.end > 0
    requires 0 <= index < 2 && TagOf(input, m, ForLookups[index])
    ensures r.bmatch == m && r.forMatch.blockEnd.end > 0
    ensures r.endforMatch == st.endforMatch || (r.endforMatch == m && index == 1)
  {
    if index == 0 then st.(level := st.level + 1, bmatch := m, forMatch := if st.level == 0 then m else st.forMatch)
    else st.(level := st.level - 1, bmatch := m, endforMatch := if st.level == 1 then m else st.endforMatch)
  }

  /** `ForBlock::ForBlock` (template-blocks.cpp:369-412): the children are
      loaded from the text up to the matching `endfor`, then the tag text is
      split into the loop names and the iterated variable. */
  function ForCtor(h: Host, s: Store, fuel: nat, block: string, input: string, offset: int): (r: Result<Loaded, Failure>)
    requires ViewSize(input) && 0 <= offset <= |input| && StoreOk(s)
    ensures r.Ok? ==> r.value.block.For? && offset < r.value.next <= |input|
    ensures r.Ok? ==> exists m :: TagOf(input, m, "endfor") && m.blockEnd.end == r.value.next
    ensures r.Ok? ==> h.forHead(block).Some? && r.value.block.iterated == h.forHead(block).value.1
                      && r.value.block.keys == Tools.NonEmpty(Tools.Pieces(h.forHead(block).value.0, ','))
    decreases fuel, |input|, 1, 0, 0
  {
    var st :- ForLoop(input, ForState(0, Start(offset), Fresh, Fresh));
    var content :- GetContent(input, st.forMatch, st.endforMatch);
    var children :- TreeLoad(h, s, fuel, content);
    match h.forHead(block)
    case Some((names, iterated)) =>
      Ok(Loaded(For(Tools.NonEmpty(Tools.Pieces(names, ',')), iterated, children), st.endforMatch.blockEnd.end))
    case None => Err(Failure(TemplateErr, "cannot parse block: " + block))
  }

  // ---------------------------------------------------------------------
  // BlockBlock and ExtendBlock

  /** The `do … while (level > 0)` loop of `BlockBlock::BlockBlock`
      (template-blocks.cpp:501-516): a `block` tag opens a level, any other
      outcome of the scan, a failed one included, closes one. */
  function NamedLoop(input: string, level: int, m: Match, opening: Match): (r: (Match, Match))
    requires ViewSize(input) && 0 <= m.blockEnd.end <= |input| && opening.blockEnd.end > 0
    ensures NextBlock(input, BlockLookups, m.blockEnd.end, m).1.blockEnd.end <= r.0.blockEnd.end <= |input|
    ensures r.1.blockEnd.end > 0
    decreases |input| - m.blockEnd.end, if level > 0 then level else 0
  {
    var (index, found) := NextBlock(input, BlockLookups, m.blockEnd.end, m);
    var level' := if index == 0 then level + 1 else level - 1;
    var opening' := if index == 0 && level == 0 then found else opening;
    assert index == 0 ==> m.blockEnd.end < found.blockEnd.end by {
      if index == 0 { NextBlockFound(input, BlockLookups, m.blockEnd.end, m); }
    }
    if level' > 0 then NamedLoop(input, level', found, opening') else (found, opening')
  }

  /** `BlockBlock::BlockBlock` (template-blocks.cpp:488-520). */
  function NamedCtor(h: Host, s: Store, fuel: nat, block: string, input: string, offset: int): (r: Result<Loaded, Failure>)
    requires ViewSize(input) && 0 <= offset <= |input| && StoreOk(s) && TagAt(input, offset)
    ensures h.blockName(block).None? ==> r == Err(Failure(TemplateErr, "Failed to extract block block"))
    ensures r.Ok? ==> r.value.block.Named? && r.value.block.id == h.blockName(block).value && r.value.block.super.None?
    ensures r.Ok? ==> offset < r.value.next <= |input|
    decreases fuel, |input|, 1, 0, 0
  {
    match h.blockName(block)
    case None => Err(Failure(TemplateErr, "Failed to extract block block"))
    case Some(id) =>
      var (last, opening) := NamedLoop(input, 0, Start(offset), Fresh);
      assert offset < last.blockEnd.end by { NextBlockMovesOn(input, BlockLookups, offset, Start(offset)); }
      var content :- GetContent(input, opening, last);
      var children :- TreeLoad(h, s, fuel, content);
      Ok(Loaded(Named(id, children, None), last.blockEnd.end))
  }

  /** `ExtendBlock::ExtendBlock` (template-blocks.cpp:551-565): the key of
      the parent template, and the offset past the next `extends` tag. */
  function ExtendCtor(h: Host, block: string, input: string, offset: int): (r: Result<Loaded, Failure>)
    requires ViewSize(input) && 0 <= offset <= |input| && TagAt(input, offset)
    ensures h.blockName(block).None? <==> r == Err(Failure(TemplateErr, "Failed to extract extends block"))
    ensures r.Ok? ==> r.value.block == Extend(h.blockName(block).value) && offset < r.value.next <= |input|
  {
    match h.blockName(block)
    case None => Err(Failure(TemplateErr, "Failed to extract extends block"))
    case Some(key) =>
      var (_, m) := NextBlock(input, ExtendsLookups, offset, Fresh);
      assert offset < m.blockEnd.end by { NextBlockMovesOn(input, ExtendsLookups, offset, Fresh); }
      Ok(Loaded(Extend(key), m.blockEnd.end))
  }

  // ---------------------------------------------------------------------
  // TreeBlock::Load

  /** `TreeBlock::Load` (template-blocks.cpp:193-254), the blocks compiled
      from `input`, and `RootBlock::Compile` (163-168). */
  function TreeLoad(h: Host, s: Store, fuel: nat, input: string): (r: Result<seq<Block>, Failure>)
    requires ViewSize(input) && StoreOk(s)
    decreases fuel, |input|, 4, 0, 0
  {
    if |input| == 0 then Ok([])
    else
      var sc :- Tree(h, s, fuel, input, 0, 0, [], None);
      match sc.parent
      case None => Ok(BlocksOf(sc.pieces))
      case Some(key) => Extended(h, s, fuel, key, BlocksOf(sc.pieces))
  }

  /** The loop of `TreeBlock::Load`, about to look for the next `{` from
      `from`; the text since `prev` is not in a block yet. */
  function Tree(h: Host, s: Store, fuel: nat, input: string, prev: int, from: int, acc: seq<Piece>, ext: Option<string>)
    : (r: Result<Scanned, Failure>)
    requires ViewSize(input) && 0 <= prev <= from <= |input| && prev < |input| && StoreOk(s)
    requires Tiles(input, acc, 0, prev) && ExtendCount(acc) == (if ext.Some? then 1 else 0)
    ensures r.Ok? ==> Tiles(input, r.value.pieces, 0, |input|)
    ensures r.Ok? ==> ExtendCount(r.value.pieces) == (if r.value.parent.Some? then 1 else 0)
    decreases fuel, |input|, 3, |input| - from, 2
  {
    var p := FindChar(input, '{', from);
    if p == NPOS then
      var last := acc + [Piece(Text(input[prev..]), Bounds(prev, |input|))];
      assert Tiles(input, last, 0, |input|) && ExtendCount(last) == ExtendCount(acc) by {
        TilesGap(input, acc, prev, |input|);
        assert input[prev..|input|] == input[prev..];
      }
      Ok(Scanned(last, ext))
    else
      var render :- RenderTryLoad(h, input, p);
      if render.Some? then Advance(h, s, fuel, input, prev, p, render.value, acc, ext)
      else
        var control :- ControlTryLoad(h, s, fuel, input, p);
        if control.None? then Tree(h, s, fuel, input, prev, p + 1, acc, ext)
        else Advance(h, s, fuel, input, prev, p, control.value, acc, ext)
  }

  /** A block loaded at `p`: the text before it, then the block, go into
      the list, but a second `extends` is an error. */
  function Advance(h: Host, s: Store, fuel: nat, input: string, prev: int, p: int, l: Loaded, acc: seq<Piece>, ext: Option<string>)
    : (r: Result<Scanned, Failure>)
    requires ViewSize(input) && 0 <= prev <= p < l.next <= |input| && StoreOk(s) && !l.block.Text?
    requires Tiles(input, acc, 0, prev) && ExtendCount(acc) == (if ext.Some? then 1 else 0)
    ensures l.block.Extend? && ext.Some? ==> r == Err(Failure(TemplateErr, "Multiple extends not allowed"))
    ensures r.Ok? ==> Tiles(input, r.value.pieces, 0, |input|)
    ensures r.Ok? ==> ExtendCount(r.value.pieces) == (if r.value.parent.Some? then 1 else 0)
    decreases fuel, |input|, 3, |input| - p, 1
  {
    if l.block.Extend? && ext.Some? then Err(Failure(TemplateErr, "Multiple extends not allowed"))
    else
      var before := acc + Gap(input, prev, p);
      var acc' := before + [Piece(l.block, Bounds(p, l.next))];
      var ext' := if l.block.Extend? then Some(l.block.key) else ext;
      assert Tiles(input, acc', 0, l.next) && ExtendCount(acc') == (if ext'.Some? then 1 else 0) by {
        TilesGap(input, acc, prev, p);
        assert acc'[..|before|] == before;
      }
      if l.next < |input| then Tree(h, s, fuel, input, l.next, l.next, acc', ext')
      else Ok(Scanned(acc', ext'))
  }

  // ---------------------------------------------------------------------
  // ExtendBlock::extend

  /** The first named block with the given id. */
  function FirstNamed(bs: seq<Block>, id: string): (r: Option<Block>)
    ensures r.Some? ==> r.value in bs && r.value.Named? && r.value.id == id
    ensures r.Some? ==> exists i :: 0 <= i < |bs| && bs[i] == r.value
                                    && forall j :: 0 <= j < i ==> !(bs[j].Named? && bs[j].id == id)
    ensures r.None? <==> forall b :: b in bs ==> !(b.Named? && b.id == id)
    decreases |bs|
  {
    if bs == [] then None
    else if bs[0].Named? && bs[0].id == id then Some(bs[0])
    else
      var r := FirstNamed(bs[1..], id);
      assert r.Some? ==> exists i :: 1 <= i < |bs| && bs[i] == r.value
                                    && forall j :: 0 <= j < i ==> !(bs[j].Named? && bs[j].id == id) by {
        if r.Some? {
          var i :| 0 <= i < |bs[1..]| && bs[1..][i] == r.value
                   && forall j :: 0 <= j < i ==> !(bs[1..][j].Named? && bs[1..][j].id == id);
          assert bs[i + 1] == r.value;
        }
      }
      r
  }

  /** What a parent block becomes: the child's block of the same id, with
      the parent block as its super, or the parent block itself. */
  function Override(b: Block, child: seq<Block>): (r: Block)
    ensures !b.Named? || FirstNamed(child, b.id).None? ==> r == b
    ensures b.Named? && FirstNamed(child, b.id).Some? ==> r == FirstNamed(child, b.id).value.(super := Some(b))
  {
    if b.Named? then
      match FirstNamed(child, b.id)
      case Some(c) => c.(super := Some(b))
      case None => b
    else b
  }

  /** The loop of `extend` (template-blocks.cpp:597-618) over the parent
      list. */
  function Replaced(parent: seq<Block>, child: seq<Block>): (r: seq<Block>)
    ensures |r| == |parent|
    ensures forall i :: 0 <= i < |parent| ==> r[i] == Override(parent[i], child)
  {
    seq(|parent|, i requires 0 <= i < |parent| => Override(parent[i], child))
  }

  /** `ExtendBlock::extend` (template-blocks.cpp:582-619): the parent list
      with its named blocks overridden by the child's. A parent held as
      source text is compiled with the same resources; without resources,
      `m_resources->get` dereferences a null pointer. */
  function Extended(h: Host, s: Store, fuel: nat, key: string, child: seq<Block>): (r: Result<seq<Block>, Failure>)
    requires StoreOk(s)
    decreases fuel, 0, 0, 0, 1
  {
    var parent :- ParentOf(h, s, fuel, key);
    Ok(Replaced(parent, child))
  }

  /** What `extend` gives: without resources the lookup is undefined
      behaviour, a missing parent is `out_of_range`, a parent of another
      type a bad cast, and a compiled parent its list with the child's named
      blocks overriding. */
  lemma ExtendedCases(h: Host, s: Store, fuel: nat, key: string, child: seq<Block>)
    requires StoreOk(s)
    ensures var r := Extended(h, s, fuel, key, child);
            && (s.NoResources? ==> r == Err(Failure(UndefinedBehaviour, "")))
            && (s.Resources? && key !in s.entries ==> r == Err(Failure(OutOfRangeErr, "")))
            && (s.Resources? && key in s.entries && s.entries[key].Compiled? ==>
                  r == Ok(Replaced(s.entries[key].blocks, child)))
            && (s.Resources? && key in s.entries && s.entries[key].Opaque? ==> r == Err(Failure(BadCast, "")))
  {
  }

  /** The parent list `extend` overrides: `resources.at(key)` cast to a
      compiled template; one held as source text is compiled first. */
  function ParentOf(h: Host, s: Store, fuel: nat, key: string): (r: Result<seq<Block>, Failure>)
    requires StoreOk(s)
    decreases fuel, 0, 0, 0, 0
  {
    if s.NoResources? then Err(Failure(UndefinedBehaviour, ""))
    else if key !in s.entries then Err(Failure(OutOfRangeErr, ""))
    else
      match s.entries[key]
      case Compiled(bs) => Ok(bs)
      case Source(text) => if fuel == 0 then Err(Failure(TooDeep, "")) else TreeLoad(h, s, fuel - 1, text)
      case Opaque(_) => Err(Failure(BadCast, ""))
  }

  /** A parent held as source text is loaded one level deeper. */
  lemma SourceParent(h: Host, s: Store, fuel: nat, key: string, text: string)
    requires StoreOk(s) && s.Resources? && key in s.entries && s.entries[key] == Source(text) && fuel > 0
    ensures ViewSize(text) && ParentOf(h, s, fuel, key) == TreeLoad(h, s, fuel - 1, text)
  {
  }

  // ---------------------------------------------------------------------
  // properties

  /** Every text block of a tiling is a non-empty run of the input, kept
      verbatim, and the runs follow each other in the order of the list. */
  lemma {:induction false} TilesAreVerbatim(input: string, ps: seq<Piece>, a: int, b: int)
    requires Tiles(input, ps, a, b)
    ensures forall i :: 0 <= i < |ps| && ps[i].block.Text? ==>
              0 <= ps[i].span.begin < ps[i].span.end <= |input|
              && ps[i].block.text == input[ps[i].span.begin..ps[i].span.end]
    ensures forall i :: 0 <= i < |ps| - 1 ==> ps[i].span.end == ps[i + 1].span.begin
    ensures ps != [] ==> ps[0].span.begin == a
    decreases |ps|
  {
    if ps != [] {
      TilesAreVerbatim(input, ps[..|ps| - 1], a, ps[|ps| - 1].span.begin);
    }
  }

  /** With no `{` left, the loop ends with the rest of the input as text. */
  lemma TreeRunsOut(h: Host, s: Store, fuel: nat, input: string, prev: int, from: int, acc: seq<Piece>, ext: Option<string>)
    requires ViewSize(input) && 0 <= prev <= from <= |input| && prev < |input| && StoreOk(s)
    requires Tiles(input, acc, 0, prev) && ExtendCount(acc) == (if ext.Some? then 1 else 0)
    requires FindChar(input, '{', from) == NPOS
    ensures Tree(h, s, fuel, input, prev, from, acc, ext)
            == Ok(Scanned(acc + [Piece(Text(input[prev..]), Bounds(prev, |input|))], ext))
    ensures BlocksOf(acc + [Piece(Text(input[prev..]), Bounds(prev, |input|))]) == BlocksOf(acc) + [Text(input[prev..])]
    ensures ExtendCount(acc + [Piece(Text(input[prev..]), Bounds(prev, |input|))]) == ExtendCount(acc)
  {
    assert (acc + [Piece(Text(input[prev..]), Bounds(prev, |input|))])[..|acc|] == acc;
  }

  /** A template without `{` is one text block holding all of it. */
  lemma PlainTextVerbatim(h: Host, s: Store, fuel: nat, input: string)
    requires ViewSize(input) && StoreOk(s) && |input| > 0
    requires forall i :: 0 <= i < |input| ==> input[i] != '{'
    ensures TreeLoad(h, s, fuel, input) == Ok([Text(input)])
  {
    TreeRunsOut(h, s, fuel, input, 0, 0, [], None);
    var ps := [Piece(Text(input), Bounds(0, |input|))];
    assert [] + ps == ps && input[0..] == input;
    assert ps[..0] == [];
    assert BlocksOf(ps) == [Text(input)];
  }

  /** With no `endfor` left, a pass meets a `for` or reports the missing
      `endfor`. */
  lemma ForStepMissingEnd(input: string, st: ForState)
    requires ViewSize(input) && 0 <= st.bmatch.blockEnd.end <= |input| && st.forMatch.blockEnd.end > 0
    requires forall i :: st.bmatch.blockEnd.end <= i ==> !OccursAt(input, "endfor", i)
    ensures var r := ForStep(input, st);
            r == Err(Failure(TemplateErr, "endfor missing")) || (r.Ok? && r.value.level == st.level + 1)
  {
    var (index, m) := NextBlock(input, ForLookups, st.bmatch.blockEnd.end, st.bmatch);
    if index != -1 {
      NextBlockFound(input, ForLookups, st.bmatch.blockEnd.end, st.bmatch);
      assert index == 0;
    }
  }

  /** A `for` with no `endfor` after it: the constructor's loop runs out of
      tags and reports the missing `endfor`. */
  lemma {:induction false} ForLoopMissingEnd(input: string, st: ForState)
    requires ViewSize(input) && 0 <= st.bmatch.blockEnd.end <= |input| && st.forMatch.blockEnd.end > 0
    requires st.level >= 0
    requires forall i :: st.bmatch.blockEnd.end <= i ==> !OccursAt(input, "endfor", i)
    ensures ForLoop(input, st) == Err(Failure(TemplateErr, "endfor missing"))
    decreases |input| - st.bmatch.blockEnd.end
  {
    ForStepMissingEnd(input, st);
    var r := ForStep(input, st);
    if r.Ok? {
      ForLoopMissingEnd(input, r.value);
    }
  }

  /** So a `for` tag with no `endfor` after it fails to load with
      "endfor missing". */
  lemma ForMissingEnd(h: Host, s: Store, fuel: nat, block: string, input: string, offset: int)
    requires ViewSize(input) && 0 <= offset <= |input| && StoreOk(s)
    requires forall i :: offset <= i ==> !OccursAt(input, "endfor", i)
    ensures ForCtor(h, s, fuel, block, input, offset) == Err(Failure(TemplateErr, "endfor missing"))
  {
    ForLoopMissingEnd(input, ForState(0, Start(offset), Fresh, Fresh));
  }

  /** Inside an open `if`, with no `endif` left, a pass fails or leaves the
      `if` open. */
  lemma IfStepMissingEnd(h: Host, s: Store, fuel: nat, input: string, st: IfState)
    requires ViewSize(input) && 0 <= st.bmatch.blockEnd.end <= |input| && st.ifMatch.blockEnd.end > 0 && StoreOk(s)
    requires st.level >= 1
    requires forall i :: st.bmatch.blockEnd.end <= i ==> !OccursAt(input, "endif", i)
    ensures var r := IfStep(h, s, fuel, input, st);
            r.Err? || r.value.level >= 1
  {
    var (index, m) := NextBlock(input, IfLookups, st.bmatch.blockEnd.end, st.bmatch);
    if index == 3 {
      NextBlockFound(input, IfLookups, st.bmatch.blockEnd.end, st.bmatch);
    }
  }

  /** Inside an open `if`, with no `endif` left, the loop cannot succeed. */
  lemma {:induction false} IfLoopMissingEnd(h: Host, s: Store, fuel: nat, input: string, st: IfState)
    requires ViewSize(input) && 0 <= st.bmatch.blockEnd.end <= |input| && st.ifMatch.blockEnd.end > 0 && StoreOk(s)
    requires st.level >= 1
    requires forall i :: st.bmatch.blockEnd.end <= i ==> !OccursAt(input, "endif", i)
    ensures IfLoop(h, s, fuel, input, st).Err?
    decreases |input| - st.bmatch.blockEnd.end
  {
    IfStepMissingEnd(h, s, fuel, input, st);
    var step := IfStep(h, s, fuel, input, st);
    if step.Ok? {
      IfLoopMissingEnd(h, s, fuel, input, step.value);
    }
  }

  /** So an `if` tag that the scan reads as `if`, with no `endif` after it,
      fails to load. */
  lemma IfMissingEnd(h: Host, s: Store, fuel: nat, input: string, offset: int)
    requires ViewSize(input) && 0 <= offset <= |input| && StoreOk(s)
    requires NextBlock(input, IfLookups, offset, Start(offset)).0 == 0
    requires forall i :: offset <= i ==> !OccursAt(input, "endif", i)
    ensures IfCtor(h, s, fuel, input, offset).Err?
  {
    var st := IfState(0, Start(offset), Fresh, false, [], []);
    var step := IfStep(h, s, fuel, input, st);
    var (index, m) := NextBlock(input, IfLookups, offset, Start(offset));
    NextBlockFound(input, IfLookups, offset, Start(offset));
    assert step == IfTag(h, s, fuel, input, st, 0, m);
    if step.value.level > 0 {
      IfLoopMissingEnd(h, s, fuel, input, step.value);
    }
  }
}
