/** The loops of the template compiler as the C++ runs them
    (libs/template/src/template-blocks.cpp:119-155, 193-254, 260-340,
    369-412, 488-520, 582-619), each proved to compute the function of
    `TemplateLoad` that states what it builds. */
module TemplateCompile {
  import opened Wrappers
  import opened StdString
  import opened TemplateExpressions
  import opened TemplateBlocks
  import opened TemplateScan
  import opened TemplateLoad
  import Tools

  // ---------------------------------------------------------------------
  // TreeBlock::Load

  /** What is left of `TreeBlock::Load` at the head of its loop: nothing
      once `offset` reached the end, else the scan from `offset` when the
      loop is about to restart there, else the scan that goes on looking for
      a `{` from `start`. */
  ghost function Pending(h: Host, s: Store, fuel: nat, input: string, offset: int, prev: int, start: int,
                         pieces: seq<Piece>, ext: Option<string>): (r: Result<Scanned, Failure>)
    requires ViewSize(input) && StoreOk(s) && ExtendCount(pieces) == (if ext.Some? then 1 else 0)
    requires offset < |input| && start <= offset ==> 0 <= offset && Tiles(input, pieces, 0, offset)
    requires offset < |input| && offset < start ==> 0 <= prev <= offset && start <= |input| && Tiles(input, pieces, 0, prev)
    ensures offset >= |input| ==> r == Ok(Scanned(pieces, ext))
  {
    if offset >= |input| then Ok(Scanned(pieces, ext))
    else if start <= offset then Tree(h, s, fuel, input, offset, offset, pieces, ext)
    else Tree(h, s, fuel, input, prev, start, pieces, ext)
  }

  /** A block loaded at `p` goes after the text since `prev`. */
  lemma Pushed(input: string, ps: seq<Piece>, prev: int, p: int, l: Loaded)
    requires 0 <= prev <= p < l.next <= |input| && !l.block.Text? && Tiles(input, ps, 0, prev)
    ensures var ps' := ps + Gap(input, prev, p) + [Piece(l.block, Bounds(p, l.next))];
            Tiles(input, ps', 0, l.next)
            && ExtendCount(ps') == ExtendCount(ps) + (if l.block.Extend? then 1 else 0)
            && BlocksOf(ps') == BlocksOf(ps) + (if p - prev > 0 then [Text(input[prev..p])] else [])
                                + (if l.block.Extend? then [] else [l.block])
  {
    var before := ps + Gap(input, prev, p);
    var ps' := before + [Piece(l.block, Bounds(p, l.next))];
    TilesGap(input, ps, prev, p);
    assert ps'[..|before|] == before;
    if p - prev > 0 {
      assert before[..|ps|] == ps;
    } else {
      assert before == ps;
    }
  }

  /** The block a `{` at `p` opens, a render block tried first. */
  function Found(h: Host, s: Store, fuel: nat, input: string, p: int): (r: Result<Option<Loaded>, Failure>)
    requires ViewSize(input) && 0 <= p < |input| && StoreOk(s)
    ensures r.Ok? && r.value.Some? ==> p < r.value.value.next <= |input| && !r.value.value.block.Text?
    ensures r.Ok? && r.value.Some? && RenderAt(input, p) ==> r.value.value.block.Render?
  {
    var render :- RenderTryLoad(h, input, p);
    if render.Some? then Ok(render) else ControlTryLoad(h, s, fuel, input, p)
  }

  /** A pass of the loop of `TreeBlock::Load` that finds a `{`. */
  lemma TreeFound(h: Host, s: Store, fuel: nat, input: string, prev: int, from: int, acc: seq<Piece>, ext: Option<string>)
    requires ViewSize(input) && 0 <= prev <= from <= |input| && prev < |input| && StoreOk(s)
    requires Tiles(input, acc, 0, prev) && ExtendCount(acc) == (if ext.Some? then 1 else 0)
    requires FindChar(input, '{', from) != NPOS
    ensures var p := FindChar(input, '{', from);
            var l := Found(h, s, fuel, input, p);
            Tree(h, s, fuel, input, prev, from, acc, ext)
            == if l.Err? then Err(l.error)
               else if l.value.None? then Tree(h, s, fuel, input, prev, p + 1, acc, ext)
               else Advance(h, s, fuel, input, prev, p, l.value.value, acc, ext)
  {
  }

  /** The invariant of the loop of `TreeBlock::Load`: the pieces tile the
      input up to where the scan stands, `lst` holds their blocks and what
      is left of the scan ends as `whole`. */
  ghost predicate Inv(h: Host, s: Store, fuel: nat, input: string, whole: Result<Scanned, Failure>,
                      offset: int, prev: int, start: int, pieces: seq<Piece>, parent: Option<string>, lst: seq<Block>)
  {
    ViewSize(input) && StoreOk(s)
    && ExtendCount(pieces) == (if parent.Some? then 1 else 0) && lst == BlocksOf(pieces)
    && 0 <= start && (offset < |input| ==> start <= |input|)
    && (offset < |input| && start <= offset ==> 0 <= offset && Tiles(input, pieces, 0, offset))
    && (offset < |input| && offset < start ==> 0 <= prev <= offset && Tiles(input, pieces, 0, prev))
    && Pending(h, s, fuel, input, offset, prev, start, pieces, parent) == whole
  }

  /** The loop about to look for a `{` from `from`. */
  ghost predicate Ready(h: Host, s: Store, fuel: nat, input: string, whole: Result<Scanned, Failure>,
                        prev: int, from: int, pieces: seq<Piece>, parent: Option<string>, lst: seq<Block>)
  {
    ViewSize(input) && StoreOk(s) && 0 <= prev <= from <= |input| && prev < |input|
    && Tiles(input, pieces, 0, prev) && ExtendCount(pieces) == (if parent.Some? then 1 else 0)
    && lst == BlocksOf(pieces)
    && Tree(h, s, fuel, input, prev, from, pieces, parent) == whole
  }

  lemma Restart(h: Host, s: Store, fuel: nat, input: string, whole: Result<Scanned, Failure>,
                offset: int, prev: int, start: int, pieces: seq<Piece>, parent: Option<string>, lst: seq<Block>)
    requires Inv(h, s, fuel, input, whole, offset, prev, start, pieces, parent, lst) && offset < |input|
    ensures offset >= start ==> Ready(h, s, fuel, input, whole, offset, offset, pieces, parent, lst)
    ensures offset < start ==> Ready(h, s, fuel, input, whole, prev, start, pieces, parent, lst)
  {
  }

  lemma RunOut(h: Host, s: Store, fuel: nat, input: string, whole: Result<Scanned, Failure>,
               prev: int, from: int, pieces: seq<Piece>, parent: Option<string>, lst: seq<Block>)
    requires Ready(h, s, fuel, input, whole, prev, from, pieces, parent, lst)
    requires FindChar(input, '{', from) == NPOS
    ensures Inv(h, s, fuel, input, whole, NPOS, prev, NPOS, pieces + [Piece(Text(input[prev..]), Bounds(prev, |input|))],
                parent, lst + [Text(input[prev..])])
  {
    TreeRunsOut(h, s, fuel, input, prev, from, pieces, parent);
  }

  lemma Stopped(h: Host, s: Store, fuel: nat, input: string, whole: Result<Scanned, Failure>,
                prev: int, from: int, pieces: seq<Piece>, parent: Option<string>, lst: seq<Block>)
    requires Ready(h, s, fuel, input, whole, prev, from, pieces, parent, lst)
    requires FindChar(input, '{', from) != NPOS
    ensures var l := Found(h, s, fuel, input, FindChar(input, '{', from));
            l.Err? ==> whole == Err(l.error)
    ensures var l := Found(h, s, fuel, input, FindChar(input, '{', from));
            l.Ok? && l.value.Some? && l.value.value.block.Extend? && parent.Some? ==>
              whole == Err(Failure(TemplateErr, "Multiple extends not allowed"))
  {
    TreeFound(h, s, fuel, input, prev, from, pieces, parent);
  }

  lemma Skipped(h: Host, s: Store, fuel: nat, input: string, whole: Result<Scanned, Failure>,
                prev: int, from: int, pieces: seq<Piece>, parent: Option<string>, lst: seq<Block>)
    requires Ready(h, s, fuel, input, whole, prev, from, pieces, parent, lst)
    requires FindChar(input, '{', from) != NPOS
    requires Found(h, s, fuel, input, FindChar(input, '{', from)) == Ok(None)
    ensures var p := FindChar(input, '{', from);
            Inv(h, s, fuel, input, whole, p, prev, p + 1, pieces, parent, lst)
  {
    TreeFound(h, s, fuel, input, prev, from, pieces, parent);
  }

  lemma Took(h: Host, s: Store, fuel: nat, input: string, whole: Result<Scanned, Failure>,
             prev: int, from: int, pieces: seq<Piece>, parent: Option<string>, lst: seq<Block>, l: Loaded)
    requires Ready(h, s, fuel, input, whole, prev, from, pieces, parent, lst)
    requires FindChar(input, '{', from) != NPOS
    requires Found(h, s, fuel, input, FindChar(input, '{', from)) == Ok(Some(l))
    requires !(l.block.Extend? && parent.Some?)
    ensures var p := FindChar(input, '{', from);
            p - prev >= 0 && 0 <= prev <= |input|
            && Inv(h, s, fuel, input, whole, l.next, prev, p,
                   pieces + Gap(input, prev, p) + [Piece(l.block, Bounds(p, l.next))],
                   if l.block.Extend? then Some(l.block.key) else parent,
                   lst + (if p - prev > 0 then [Text(input[prev..p])] else []) + (if l.block.Extend? then [] else [l.block]))
  {
    var p := FindChar(input, '{', from);
    TreeFound(h, s, fuel, input, prev, from, pieces, parent);
    Pushed(input, pieces, prev, p, l);
  }

  /** What `TreeBlock::Load` gives once its loop ended as `w`: the list,
      extended when an `extends` tag was met. */
  function Complete(h: Host, s: Store, fuel: nat, w: Result<Scanned, Failure>): (r: Result<seq<Block>, Failure>)
    requires StoreOk(s)
    ensures w.Err? ==> r == Err(w.error)
    ensures w.Ok? && w.value.parent.None? ==> r == Ok(BlocksOf(w.value.pieces))
  {
    match w
    case Err(e) => Err(e)
    case Ok(sc) =>
      match sc.parent
      case None => Ok(BlocksOf(sc.pieces))
      case Some(key) => Extended(h, s, fuel, key, BlocksOf(sc.pieces))
  }

  lemma Whole(h: Host, s: Store, fuel: nat, input: string)
    requires ViewSize(input) && StoreOk(s)
    ensures TreeLoad(h, s, fuel, input) == Complete(h, s, fuel, Pending(h, s, fuel, input, 0, 0, 0, [], None))
  {
  }

  /** `TreeBlock::Load` (template-blocks.cpp:193-254). */
  method LoadTree(h: Host, s: Store, fuel: nat, input: string) returns (r: Result<seq<Block>, Failure>)
    requires ViewSize(input) && StoreOk(s)
    ensures r == TreeLoad(h, s, fuel, input)
    decreases fuel, |input|, 4, 0, 0
  {
    var lst: seq<Block> := [];
    ghost var pieces: seq<Piece> := [];
    var parent: Option<string> := None;
    var offset, prev, start := 0, 0, 0;
    ghost var whole := Pending(h, s, fuel, input, 0, 0, 0, [], None);
    Whole(h, s, fuel, input);
    while offset < |input|
      invariant Inv(h, s, fuel, input, whole, offset, prev, start, pieces, parent, lst)
      decreases |input| - offset, |input| - start
    {
      var failure;
      failure, offset, prev, start, pieces, parent, lst := LoadPass(h, s, fuel, input, whole, offset, prev, start, pieces, parent, lst);
      if failure.Some? {
        return Err(failure.value);
      }
    }
    if parent.Some? {
      r := Extend(h, s, fuel, parent.value, lst);
    } else {
      r := Ok(lst);
    }
  }

  /** One pass of the loop of `TreeBlock::Load`: the failure that stops
      it, or the new values of its variables. At the end of the input
      `offset` becomes `npos`, which ends the loop as the C++ `break` does. */
  method LoadPass(h: Host, s: Store, fuel: nat, input: string, ghost whole: Result<Scanned, Failure>,
                  offset: int, prev: int, start: int, ghost pieces: seq<Piece>, parent: Option<string>, lst: seq<Block>)
    returns (failure: Option<Failure>, offset': int, prev': int, start': int, ghost pieces': seq<Piece>,
             parent': Option<string>, lst': seq<Block>)
    requires Inv(h, s, fuel, input, whole, offset, prev, start, pieces, parent, lst) && offset < |input|
    ensures failure.Some? ==> whole == Err(failure.value)
    ensures failure.None? ==> Inv(h, s, fuel, input, whole, offset', prev', start', pieces', parent', lst')
    ensures failure.None? ==> offset' > offset || (offset' == offset && |input| - start' < |input| - start)
    decreases fuel, |input|, 3, 1, 0
  {
    Restart(h, s, fuel, input, whole, offset, prev, start, pieces, parent, lst);
    offset', prev', start', pieces', parent', lst' := offset, prev, start, pieces, parent, lst;
    failure := None;
    if offset' >= start' {
      start', prev' := offset', offset';
    }
    ghost var from := start';
    start' := FindChar(input, '{', start');
    offset' := start';
    if offset' == NPOS {
      RunOut(h, s, fuel, input, whole, prev', from, pieces', parent', lst');
      lst' := lst' + [Text(input[prev'..])];
      pieces' := pieces' + [Piece(Text(input[prev'..]), Bounds(prev', |input|))];
      return;
    }
    failure, offset', start', pieces', parent', lst' := LoadAt(h, s, fuel, input, whole, prev', from, start', pieces', parent', lst');
  }

  /** The rest of the pass once a `{` was found at `p`: the `TryLoad`
      calls and what goes into the list. */
  method LoadAt(h: Host, s: Store, fuel: nat, input: string, ghost whole: Result<Scanned, Failure>,
                prev: int, ghost from: int, p: int, ghost pieces: seq<Piece>, parent: Option<string>, lst: seq<Block>)
    returns (failure: Option<Failure>, offset': int, start': int, ghost pieces': seq<Piece>,
             parent': Option<string>, lst': seq<Block>)
    requires Ready(h, s, fuel, input, whole, prev, from, pieces, parent, lst)
    requires p == FindChar(input, '{', from) && p != NPOS
    ensures failure.Some? ==> whole == Err(failure.value)
    ensures failure.None? ==> Inv(h, s, fuel, input, whole, offset', prev, start', pieces', parent', lst')
    ensures failure.None? ==> offset' > p || (offset' == p && start' == p + 1)
    decreases fuel, |input|, 3, 0, 1
  {
    offset', start', pieces', parent', lst' := p, p, pieces, parent, lst;
    failure := None;
    Stopped(h, s, fuel, input, whole, prev, from, pieces, parent, lst);
    var found := TryLoadAt(h, s, fuel, input, p);
    if found.Err? {
      failure := Some(found.error);
      return;
    }
    if found.value.None? {
      Skipped(h, s, fuel, input, whole, prev, from, pieces, parent, lst);
      start' := p + 1;
      return;
    }
    var loaded := found.value.value;
    if loaded.block.Extend? && parent.Some? {
      failure := Some(Failure(TemplateErr, "Multiple extends not allowed"));
      return;
    }
    pieces', parent', lst' := Push(h, s, fuel, input, whole, prev, from, p, pieces, parent, lst, loaded);
    offset' := loaded.next;
  }

  /** A block loaded at `p` goes into the list after the text since `prev`;
      an `extends` block is kept aside instead. */
  method Push(h: Host, s: Store, fuel: nat, input: string, ghost whole: Result<Scanned, Failure>,
              prev: int, ghost from: int, p: int, ghost pieces: seq<Piece>, parent: Option<string>, lst: seq<Block>, loaded: Loaded)
    returns (ghost pieces': seq<Piece>, parent': Option<string>, lst': seq<Block>)
    requires Ready(h, s, fuel, input, whole, prev, from, pieces, parent, lst)
    requires p == FindChar(input, '{', from) && p != NPOS
    requires Found(h, s, fuel, input, p) == Ok(Some(loaded)) && !(loaded.block.Extend? && parent.Some?)
    ensures Inv(h, s, fuel, input, whole, loaded.next, prev, p, pieces', parent', lst')
  {
    Took(h, s, fuel, input, whole, prev, from, pieces, parent, lst, loaded);
    var gap := if p - prev > 0 then [Text(input[prev..p])] else [];
    pieces' := pieces + Gap(input, prev, p) + [Piece(loaded.block, Bounds(p, loaded.next))];
    if loaded.block.Extend? {
      parent' := Some(loaded.block.key);
      lst' := lst + gap + [];
    } else {
      parent' := parent;
      lst' := lst + gap + [loaded.block];
    }
  }

  /** The two `TryLoad` calls of the loop of `TreeBlock::Load`. */
  method TryLoadAt(h: Host, s: Store, fuel: nat, input: string, p: int) returns (r: Result<Option<Loaded>, Failure>)
    requires ViewSize(input) && 0 <= p < |input| && StoreOk(s)
    ensures r == Found(h, s, fuel, input, p)
    decreases fuel, |input|, 3, 0, 0
  {
    var render := RenderTryLoad(h, input, p);
    if render.Err? {
      return Err(render.error);
    }
    if render.value.Some? {
      return render;
    }
    r := TryLoadControl(h, s, fuel, input, p);
  }

  /** `ControlBlock::TryLoad` (template-blocks.cpp:119-155). */
  method TryLoadControl(h: Host, s: Store, fuel: nat, input: string, offset: int) returns (r: Result<Option<Loaded>, Failure>)
    requires ViewSize(input) && 0 <= offset <= |input| && StoreOk(s)
    ensures r == ControlTryLoad(h, s, fuel, input, offset)
    decreases fuel, |input|, 2, 0, 0
  {
    if !OccursAt(input, BlockStart, offset) {
      return Ok(None);
    }
    var end := FindSub(input, BlockEnd, offset + 2);
    if end == NPOS {
      return Ok(None);
    }
    var block := Tools.Stripped(input[offset + 2..end]);
    var l: Result<Loaded, Failure>;
    if StartsWith(block, "block") {
      l := NewNamed(h, s, fuel, block, input, offset);
    } else if StartsWith(block, "extends") {
      l := ExtendCtor(h, block, input, offset);
    } else if StartsWith(block, "if") {
      l := NewIf(h, s, fuel, input, offset);
    } else if StartsWith(block, "for") {
      l := NewFor(h, s, fuel, block, input, offset);
    } else {
      return Err(Failure(TemplateErr, "unknown control block: " + block));
    }
    if l.Err? {
      return Err(l.error);
    }
    r := Ok(Some(l.value));
  }

  // ---------------------------------------------------------------------
  // IfBlock

  /** `IfBlock::IfBlock` (template-blocks.cpp:260-340). */
  method NewIf(h: Host, s: Store, fuel: nat, input: string, offset: int) returns (r: Result<Loaded, Failure>)
    requires ViewSize(input) && 0 <= offset <= |input| && StoreOk(s)
    ensures r == IfCtor(h, s, fuel, input, offset)
    decreases fuel, |input|, 1, 0, 0
  {
    var st := IfState(0, Start(offset), Fresh, false, [], []);
    ghost var whole := IfLoop(h, s, fuel, input, st);
    while true
      invariant 0 <= st.bmatch.blockEnd.end <= |input| && st.ifMatch.blockEnd.end > 0
      invariant IfLoop(h, s, fuel, input, st) == whole
      decreases |input| - st.bmatch.blockEnd.end
    {
      var step := IfPass(h, s, fuel, input, st);
      if step.Err? {
        return Err(step.error);
      }
      var next := step.value;
      if next.level <= 0 {
        st := next;
        break;
      }
      st := next;
    }
    r := Ok(Loaded(If(st.branches, st.otherwise), st.bmatch.blockEnd.end));
  }

  /** One pass of the `do … while (level > 0)` loop of the `IfBlock`
      constructor. */
  method IfPass(h: Host, s: Store, fuel: nat, input: string, st: IfState) returns (r: Result<IfState, Failure>)
    requires ViewSize(input) && 0 <= st.bmatch.blockEnd.end <= |input| && st.ifMatch.blockEnd.end > 0 && StoreOk(s)
    ensures r == IfStep(h, s, fuel, input, st)
    decreases fuel, |input|, 0, |input| - st.bmatch.blockEnd.end, 1
  {
    var index, m := NextBlockOf(input, IfLookups, st.bmatch.blockEnd.end, st.bmatch);
    if index == -1 {
      return Err(Failure(TemplateErr, "endif missing"));
    }
    NextBlockFound(input, IfLookups, st.bmatch.blockEnd.end, st.bmatch);
    r := OnIfTag(h, s, fuel, input, st, index, m);
  }

  /** The branches of the pass on the tag it found. */
  method OnIfTag(h: Host, s: Store, fuel: nat, input: string, st: IfState, index: int, m: Match) returns (r: Result<IfState, Failure>)
    requires ViewSize(input) && 0 <= st.bmatch.blockEnd.end < m.blockEnd.end <= |input| && st.ifMatch.blockEnd.end > 0 && StoreOk(s)
    requires 0 <= index < 4
    ensures r == IfTag(h, s, fuel, input, st, index, m)
    decreases fuel, |input|, 0, |input| - st.bmatch.blockEnd.end, 0
  {
    if index == 0 {
      r := Ok(st.(level := st.level + 1, bmatch := m, ifMatch := if st.level == 0 then m else st.ifMatch));
    } else if index == 1 || index == 2 {
      if st.level == 1 {
        var content := BranchContent(input, st.ifMatch, m);
        if content.Err? {
          return Err(content.error);
        }
        var br := LoadBranch(h, s, fuel, input, st.ifMatch.content, content.value);
        if br.Err? {
          return Err(br.error);
        }
        r := Ok(st.(bmatch := m, ifMatch := m, isElse := st.isElse || index == 2, branches := st.branches + [br.value]));
      } else {
        r := Ok(st.(bmatch := m));
      }
    } else {
      if st.level == 1 {
        var content := BranchContent(input, st.ifMatch, m);
        if content.Err? {
          return Err(content.error);
        }
        if !st.isElse {
          var br := LoadBranch(h, s, fuel, input, st.ifMatch.content, content.value);
          if br.Err? {
            return Err(br.error);
          }
          r := Ok(st.(level := 0, bmatch := m, branches := st.branches + [br.value]));
        } else {
          var children := LoadTree(h, s, fuel, content.value);
          if children.Err? {
            return Err(children.error);
          }
          r := Ok(st.(level := 0, bmatch := m, otherwise := children.value));
        }
      } else {
        r := Ok(st.(level := st.level - 1, bmatch := m));
      }
    }
  }

  /** The condition and the body of a branch, as `push_if_children` builds
      them. */
  method LoadBranch(h: Host, s: Store, fuel: nat, input: string, cond: Bounds, content: string) returns (r: Result<Branch, Failure>)
    requires ViewSize(content) && StoreOk(s)
    ensures r == NewBranch(h, s, fuel, input, cond, content)
    decreases fuel, |content|, 5, 0, 0
  {
    var expression := Get(input, cond);
    if expression.Err? {
      return Err(expression.error);
    }
    var e := Load(h, Tools.Stripped(expression.value));
    if e.Err? {
      return Err(e.error);
    }
    var body := LoadTree(h, s, fuel, content);
    if body.Err? {
      return Err(body.error);
    }
    r := Ok(Branch(e.value, body.value));
  }

  // ---------------------------------------------------------------------
  // ForBlock

  /** `ForBlock::ForBlock` (template-blocks.cpp:369-412). */
  method NewFor(h: Host, s: Store, fuel: nat, block: string, input: string, offset: int) returns (r: Result<Loaded, Failure>)
    requires ViewSize(input) && 0 <= offset <= |input| && StoreOk(s)
    ensures r == ForCtor(h, s, fuel, block, input, offset)
    decreases fuel, |input|, 1, 0, 0
  {
    var st := ForState(0, Start(offset), Fresh, Fresh);
    ghost var whole := ForLoop(input, st);
    while true
      invariant 0 <= st.bmatch.blockEnd.end <= |input| && st.forMatch.blockEnd.end > 0
      invariant ForLoop(input, st) == whole
      decreases |input| - st.bmatch.blockEnd.end
    {
      var step := ForPass(input, st);
      if step.Err? {
        return Err(step.error);
      }
      st := step.value;
      if st.level <= 0 {
        break;
      }
    }
    assert whole == Ok(st);
    var content := GetContent(input, st.forMatch, st.endforMatch);
    if content.Err? {
      return Err(content.error);
    }
    var children := LoadTree(h, s, fuel, content.value);
    if children.Err? {
      return Err(children.error);
    }
    match h.forHead(block)
    case Some((names, iterated)) =>
      r := Ok(Loaded(For(Tools.NonEmpty(Tools.Pieces(names, ',')), iterated, children.value), st.endforMatch.blockEnd.end));
    case None =>
      r := Err(Failure(TemplateErr, "cannot parse block: " + block));
  }

  /** One pass of the `do … while (level > 0)` loop of the `ForBlock`
      constructor. */
  method ForPass(input: string, st: ForState) returns (r: Result<ForState, Failure>)
    requires ViewSize(input) && 0 <= st.bmatch.blockEnd.end <= |input| && st.forMatch.blockEnd.end > 0
    ensures r == ForStep(input, st)
  {
    var index, m := NextBlockOf(input, ForLookups, st.bmatch.blockEnd.end, st.bmatch);
    if index == -1 {
      return Err(Failure(TemplateErr, "endfor missing"));
    }
    NextBlockFound(input, ForLookups, st.bmatch.blockEnd.end, st.bmatch);
    var next := OnForTag(input, st, index, m);
    r := Ok(next);
  }

  /** The branches of the pass on the tag it found. */
  method OnForTag(input: string, st: ForState, index: int, m: Match) returns (next: ForState)
    requires ViewSize(input) && 0 <= st.bmatch.blockEnd.end < m.blockEnd.end <= |input| && st.forMatch.blockEnd.end > 0
    requires 0 <= index < 2 && TagOf(input, m, ForLookups[index])
    ensures next == ForTag(input, st, index, m)
  {
    if index == 0 {
      next := st.(level := st.level + 1, bmatch := m, forMatch := if st.level == 0 then m else st.forMatch);
    } else {
      next := st.(level := st.level - 1, bmatch := m, endforMatch := if st.level == 1 then m else st.endforMatch);
    }
  }

  // ---------------------------------------------------------------------
  // BlockBlock

  /** One pass of the `do … while (level > 0)` loop of the `BlockBlock`
      constructor: the new level, the tag met and the opening tag. */
  method NamedPass(input: string, level: int, m: Match, opening: Match) returns (level': int, found: Match, opening': Match)
    requires ViewSize(input) && 0 <= m.blockEnd.end <= |input| && opening.blockEnd.end > 0
    ensures m.blockEnd.end <= found.blockEnd.end <= |input| && opening'.blockEnd.end > 0
    ensures level' > 0 ==> m.blockEnd.end < found.blockEnd.end || level' < level
    ensures NamedLoop(input, level, m, opening)
            == if level' > 0 then NamedLoop(input, level', found, opening') else (found, opening')
  {
    var index;
    index, found := NextBlockOf(input, BlockLookups, m.blockEnd.end, m);
    opening' := opening;
    if index == 0 {
      NextBlockFound(input, BlockLookups, m.blockEnd.end, m);
      if level == 0 {
        opening' := found;
      }
      level' := level + 1;
    } else {
      level' := level - 1;
    }
  }

  /** `BlockBlock::BlockBlock` (template-blocks.cpp:488-520). */
  method NewNamed(h: Host, s: Store, fuel: nat, block: string, input: string, offset: int) returns (r: Result<Loaded, Failure>)
    requires ViewSize(input) && 0 <= offset <= |input| && StoreOk(s) && TagAt(input, offset)
    ensures r == NamedCtor(h, s, fuel, block, input, offset)
    decreases fuel, |input|, 1, 0, 0
  {
    var name := h.blockName(block);
    if name.None? {
      return Err(Failure(TemplateErr, "Failed to extract block block"));
    }
    var bmatch, opening, level := Start(offset), Fresh, 0;
    ghost var whole := NamedLoop(input, 0, bmatch, opening);
    while true
      invariant 0 <= bmatch.blockEnd.end <= |input| && opening.blockEnd.end > 0
      invariant NamedLoop(input, level, bmatch, opening) == whole
      decreases |input| - bmatch.blockEnd.end, if level > 0 then level else 0
    {
      level, bmatch, opening := NamedPass(input, level, bmatch, opening);
      if level <= 0 {
        break;
      }
    }
    assert (bmatch, opening) == whole;
    var content := GetContent(input, opening, bmatch);
    if content.Err? {
      return Err(content.error);
    }
    var children := LoadTree(h, s, fuel, content.value);
    if children.Err? {
      return Err(children.error);
    }
    r := Ok(Loaded(Named(name.value, children.value, None), bmatch.blockEnd.end));
  }

  // ---------------------------------------------------------------------
  // ExtendBlock::extend

  /** The search of the child list for a named block with the given id
      (`find_next<BlockBlock>` and the loop around it,
      template-blocks.cpp:567-579, 604-613). */
  method FindChild(child: seq<Block>, id: string) returns (found: Option<Block>)
    ensures found == FirstNamed(child, id)
  {
    var begin := 0;
    while begin < |child|
      invariant 0 <= begin <= |child|
      invariant FirstNamed(child[begin..], id) == FirstNamed(child, id)
    {
      if child[begin].Named? && child[begin].id == id {
        return Some(child[begin]);
      }
      assert child[begin..][1..] == child[begin + 1..];
      begin := begin + 1;
    }
    return None;
  }

  /** `ExtendBlock::extend` (template-blocks.cpp:582-619). */
  method Extend(h: Host, s: Store, fuel: nat, key: string, child: seq<Block>) returns (r: Result<seq<Block>, Failure>)
    requires StoreOk(s)
    ensures r == Extended(h, s, fuel, key, child)
    decreases fuel, 0, 0, 0, 2
  {
    var parent := FetchParent(h, s, fuel, key);
    if parent.Err? {
      return Err(parent.error);
    }
    var lst := OverrideAll(parent.value, child);
    r := Ok(lst);
  }

  /** `m_resources->get(key)` and the cast of `extend`
      (template-blocks.cpp:584-591); a null `m_resources` is undefined
      behaviour. */
  method FetchParent(h: Host, s: Store, fuel: nat, key: string) returns (r: Result<seq<Block>, Failure>)
    requires StoreOk(s)
    ensures r == ParentOf(h, s, fuel, key)
    decreases fuel, 0, 0, 0, 1
  {
    if s.NoResources? {
      return Err(Failure(UndefinedBehaviour, ""));
    }
    if key !in s.entries {
      return Err(Failure(OutOfRangeErr, ""));
    }
    match s.entries[key] {
      case Compiled(bs) =>
        r := Ok(bs);
      case Source(text) =>
        if fuel == 0 {
          return Err(Failure(TooDeep, ""));
        }
        SourceParent(h, s, fuel, key, text);
        r := CompileParent(h, s, fuel, text);
      case Opaque(_) =>
        r := Err(Failure(BadCast, ""));
    }
  }

  /** The `RootBlock::Compile` of a parent held as source text, with the
      same resources (template-blocks.cpp:590), one level deeper. */
  method CompileParent(h: Host, s: Store, fuel: nat, text: string) returns (r: Result<seq<Block>, Failure>)
    requires StoreOk(s) && ViewSize(text) && fuel > 0
    ensures r == TreeLoad(h, s, fuel - 1, text)
    decreases fuel, 0, 0, 0, 0
  {
    r := LoadTree(h, s, fuel - 1, text);
  }

  /** The loop of `extend` over the parent list (template-blocks.cpp:597-618):
      each named block the child also has is replaced by the child's. */
  method OverrideAll(parent: seq<Block>, child: seq<Block>) returns (lst: seq<Block>)
    ensures lst == Replaced(parent, child)
  {
    lst := [];
    for i := 0 to |parent|
      invariant |lst| == i
      invariant forall k :: 0 <= k < i ==> lst[k] == Override(parent[k], child)
    {
      var block := parent[i];
      if block.Named? {
        var found := FindChild(child, block.id);
        if found.Some? {
          lst := lst + [found.value.(super := Some(block))];
          continue;
        }
      }
      lst := lst + [block];
    }
  }
}
