/** Finding the tags of a template (libs/template/src/template-blocks.cpp:91-117,
    libs/template/include/xdev/xdev-template-blocks.hpp:128-172): a
    `block_match_t` records where a `{% command content %}` tag starts and
    ends, where its command word is and where its content is. */
module TemplateScan {
  import opened Wrappers
  import opened StdString
  import opened TemplateExpressions

  const RenderStart: string := "{{"
  const RenderEnd: string := "}}"
  const BlockStart: string := "{%"
  const BlockEnd: string := "%}"

  /** `bounds_t`: a half-open range of positions, `npos` when not set. */
  datatype Bounds = Bounds(begin: int, end: int)

  const Unset: Bounds := Bounds(NPOS, NPOS)

  /** `size(bounds)`: the length, or `npos` for a reversed range. */
  function Size(b: Bounds): int
  {
    if b.end < b.begin then NPOS else b.end - b.begin
  }

  predicate BoundsSet(b: Bounds)
  {
    b.begin != NPOS && b.end != NPOS
  }

  /** `get(input, bounds)`: the characters of the range; a range that does
      not lie inside the input is undefined behaviour. */
  function Get(input: string, b: Bounds): (r: Result<string, Failure>)
    ensures r.Ok? <==> 0 <= b.begin <= b.end <= |input|
    ensures r.Ok? ==> |r.value| == Size(b)
    ensures r.Err? ==> r.error.kind == UndefinedBehaviour
  {
    if 0 <= b.begin <= b.end <= |input| then Ok(input[b.begin..b.end])
    else Err(Failure(UndefinedBehaviour, ""))
  }

  /** `block_match_t`. */
  datatype Match = Match(blockStart: Bounds, blockEnd: Bounds, command: Bounds, content: Bounds)

  /** A freshly constructed (or `reset`) match. */
  const Fresh: Match := Match(Unset, Unset, Unset, Unset)

  /** `is_set`: command and both delimiters are set; the content need not be. */
  predicate IsSet(m: Match)
  {
    BoundsSet(m.command) && BoundsSet(m.blockStart) && BoundsSet(m.blockEnd)
  }

  /** A match no scan has filled is not set; setting the content alone does
      not set it. */
  lemma FreshIsNotSet(content: Bounds)
    ensures !IsSet(Fresh) && !IsSet(Fresh.(content := content))
    ensures Size(Unset) == 0
  {
  }

  /** What a successful scan records: `{%` at `blockStart`, the first `%}`
      after it at `blockEnd`, only spaces between `{%` and the command word,
      and the content running up to `%}`. */
  predicate Tag(input: string, m: Match)
    requires ViewSize(input)
  {
    OccursAt(input, BlockStart, m.blockStart.begin) && m.blockStart.end == m.blockStart.begin + 2
    && m.blockEnd.begin == FindSub(input, BlockEnd, m.blockStart.end) && m.blockEnd.begin != NPOS
    && m.blockEnd.end == m.blockEnd.begin + 2
    && m.blockStart.end <= m.command.begin <= m.blockEnd.begin
    && input[m.command.begin] != ' '
    && (forall i :: m.blockStart.end <= i < m.command.begin ==> input[i] == ' ')
    && m.content.end == m.blockEnd.begin
  }

  /** The first of `commands`, from the `k`-th on, that the input holds at
      position `at`, or -1. */
  function FirstCommand(input: string, commands: seq<string>, at: int, k: nat): (r: int)
    requires k <= |commands|
    ensures r == -1 || k <= r < |commands|
    ensures r >= 0 ==> OccursAt(input, commands[r], at)
    ensures forall j :: k <= j < |commands| && (r == -1 || j < r) ==> !OccursAt(input, commands[j], at)
    decreases |commands| - k
  {
    if k == |commands| then -1
    else if OccursAt(input, commands[k], at) then k
    else FirstCommand(input, commands, at, k + 1)
  }

  /** What one pass of the `NextBlockOf` loop ends with: a command found,
      the scan given up, or a tag skipped. */
  datatype Pass = Found(index: int, m: Match) | Stop(m: Match) | Skip(m: Match)

  /** The command bounds after every command was tried at `cb` in vain. */
  function Tried(command: Bounds, commands: seq<string>, cb: int): Bounds
  {
    if commands == [] then command.(begin := cb) else Bounds(cb, cb + |commands[|commands| - 1]|)
  }

  /** Between `{%` and the `%}` at `be` there is a non-space: the `%`. */
  lemma TagShape(input: string, bs: int, be: int)
    requires ViewSize(input) && 0 <= bs && bs + 2 <= be && OccursAt(input, BlockEnd, be)
    ensures FirstNotOfFrom(input, " ", bs + 2) != NPOS && FirstNotOfFrom(input, " ", bs + 2) <= be
    ensures LastNotOfBefore(input, " ", be + 1) == be
  {
    assert input[be] == '%' by { assert input[be..be + 2] == BlockEnd; }
  }

  /** One pass of the loop of `NextBlockOf`, from `m.blockEnd.end`. */
  function ScanPass(input: string, commands: seq<string>, m: Match): (r: Pass)
    requires ViewSize(input) && 0 <= m.blockEnd.end <= |input|
    ensures m.blockEnd.end <= r.m.blockEnd.end <= |input|
    ensures r.Skip? ==> m.blockEnd.end < r.m.blockEnd.end
    ensures r.Stop? ==> r.m.blockEnd.end == m.blockEnd.end
    ensures r.Found? ==> 0 <= r.index < |commands|
  {
    var bs := FindSub(input, BlockStart, m.blockEnd.end);
    if bs == NPOS then Stop(m.(blockStart := m.blockStart.(begin := NPOS)))
    else Delimit(input, commands, m, bs)
  }

  /** The rest of a pass once `{%` is found at `bs`: look for the `%}`. */
  function Delimit(input: string, commands: seq<string>, m: Match, bs: int): (r: Pass)
    requires ViewSize(input) && 0 <= m.blockEnd.end <= bs && OccursAt(input, BlockStart, bs)
    ensures bs + 2 <= |input| && m.blockEnd.end < bs + 2
    ensures r.Skip? || r.Found? ==> bs + 2 < r.m.blockEnd.end <= |input|
    ensures r.Stop? ==> r.m.blockEnd.end == m.blockEnd.end
    ensures r.Found? ==> 0 <= r.index < |commands|
  {
    var be := FindSub(input, BlockEnd, bs + 2);
    if be == NPOS then Stop(m.(blockStart := Bounds(bs, bs + 2), blockEnd := m.blockEnd.(begin := NPOS)))
    else
      var cb := FirstNotOfFrom(input, " ", bs + 2);
      Classify(input, commands, m.(blockStart := Bounds(bs, bs + 2), blockEnd := Bounds(be, be + 2)), cb)
  }

  /** The `for` loop over the commands once a tag is delimited in `tag` and
      its first word starts at `cb`. */
  function Classify(input: string, commands: seq<string>, tag: Match, cb: int): (r: Pass)
    requires ViewSize(input) && 0 <= tag.blockEnd.begin < |input|
    ensures r.m.blockEnd == tag.blockEnd && r.m.blockStart == tag.blockStart
    ensures r.Found? || r.Skip?
  {
    var k := FirstCommand(input, commands, cb, 0);
    if k >= 0 then
      Found(k, tag.(command := Bounds(cb, cb + |commands[k]|),
                    content := Bounds(FirstNotOfFrom(input, " ", cb + |commands[k]|),
                                      LastNotOfBefore(input, " ", tag.blockEnd.begin + 1))))
    else Skip(tag.(command := Tried(tag.command, commands, cb)))
  }

  /** A pass that finds a command stops at a well-formed tag whose first
      word is that command and no earlier one. */
  lemma PassFinds(input: string, commands: seq<string>, m: Match)
    requires ViewSize(input) && 0 <= m.blockEnd.end <= |input|
    requires ScanPass(input, commands, m).Found?
    ensures var r := ScanPass(input, commands, m);
            Tag(input, r.m) && IsSet(r.m) && m.blockEnd.end <= r.m.blockStart.begin
            && r.m.command.end == r.m.command.begin + |commands[r.index]|
            && OccursAt(input, commands[r.index], r.m.command.begin)
            && forall j :: 0 <= j < r.index ==> !OccursAt(input, commands[j], r.m.command.begin)
  {
    var bs := FindSub(input, BlockStart, m.blockEnd.end);
    var be := FindSub(input, BlockEnd, bs + 2);
    TagShape(input, bs, be);
  }

  /** A pass that gives up found no `{%`, or one with no `%}`. */
  lemma PassStops(input: string, commands: seq<string>, m: Match)
    requires ViewSize(input) && 0 <= m.blockEnd.end <= |input|
    requires ScanPass(input, commands, m).Stop?
    ensures NoTagFrom(input, m.blockEnd.end)
  {
  }

  /** From `from` on there is no `{%`, or the first one has no `%}` after it. */
  predicate NoTagFrom(input: string, from: nat)
    requires ViewSize(input)
  {
    var s := FindSub(input, BlockStart, from);
    s == NPOS || FindSub(input, BlockEnd, s + 2) == NPOS
  }

  /** A pass from a terminated tag never gives up. */
  lemma PassAtTag(input: string, commands: seq<string>, m: Match)
    requires ViewSize(input) && 0 <= m.blockEnd.end <= |input|
    requires OccursAt(input, BlockStart, m.blockEnd.end) && FindSub(input, BlockEnd, m.blockEnd.end + 2) != NPOS
    ensures !ScanPass(input, commands, m).Stop?
    ensures m.blockEnd.end < ScanPass(input, commands, m).m.blockEnd.end
  {
    assert FindSub(input, BlockStart, m.blockEnd.end) == m.blockEnd.end;
  }

  /** The `while` loop of `NextBlockOf`, resuming after `m.blockEnd.end`. */
  function Scan(input: string, commands: seq<string>, m: Match): (r: (int, Match))
    requires ViewSize(input) && 0 <= m.blockEnd.end <= |input|
    ensures -1 <= r.0 < |commands|
    ensures m.blockEnd.end <= r.1.blockEnd.end <= |input|
    decreases |input| - m.blockEnd.end
  {
    match ScanPass(input, commands, m)
    case Found(k, found) => (k, found)
    case Stop(stopped) => (-1, stopped)
    case Skip(skipped) => Scan(input, commands, skipped)
  }

  /** A scan that returns an index stops at a well-formed tag whose first
      word is that command and no earlier one. */
  lemma {:induction false} ScanFinds(input: string, commands: seq<string>, m: Match)
    requires ViewSize(input) && 0 <= m.blockEnd.end <= |input|
    requires Scan(input, commands, m).0 >= 0
    ensures var r := Scan(input, commands, m);
            Tag(input, r.1) && IsSet(r.1) && m.blockEnd.end <= r.1.blockStart.begin
            && r.1.command.end == r.1.command.begin + |commands[r.0]|
            && OccursAt(input, commands[r.0], r.1.command.begin)
            && forall j :: 0 <= j < r.0 ==> !OccursAt(input, commands[j], r.1.command.begin)
    decreases |input| - m.blockEnd.end
  {
    match ScanPass(input, commands, m)
    case Found(_, _) => PassFinds(input, commands, m);
    case Skip(skipped) => ScanFinds(input, commands, skipped);
  }

  /** A scan that returns -1 found no further `{%`, or one with no `%}`. */
  lemma {:induction false} ScanExhausts(input: string, commands: seq<string>, m: Match)
    requires ViewSize(input) && 0 <= m.blockEnd.end <= |input|
    requires Scan(input, commands, m).0 == -1
    ensures NoTagFrom(input, Scan(input, commands, m).1.blockEnd.end)
    decreases |input| - m.blockEnd.end
  {
    match ScanPass(input, commands, m)
    case Stop(_) => PassStops(input, commands, m);
    case Skip(skipped) => ScanExhausts(input, commands, skipped);
  }

  /** `NextBlockOf(input, commands, offset, match)`: the index of the
      command the next tag from `offset` on starts with, and the match. */
  function NextBlock(input: string, commands: seq<string>, offset: int, m: Match): (r: (int, Match))
    requires ViewSize(input) && 0 <= offset <= |input|
  {
    Scan(input, commands, m.(blockEnd := m.blockEnd.(end := offset)))
  }

  /** A terminated tag at `offset`: the scan always moves past it. */
  lemma NextBlockMovesOn(input: string, commands: seq<string>, offset: int, m: Match)
    requires ViewSize(input) && 0 <= offset <= |input|
    requires OccursAt(input, BlockStart, offset) && FindSub(input, BlockEnd, offset + 2) != NPOS
    ensures offset < NextBlock(input, commands, offset, m).1.blockEnd.end <= |input|
  {
    PassAtTag(input, commands, m.(blockEnd := m.blockEnd.(end := offset)));
  }

  /** A scan that finds a command stops on a tag at or after `offset` that
      lies inside the input, and so moves past `offset`. */
  lemma NextBlockFound(input: string, commands: seq<string>, offset: int, m: Match)
    requires ViewSize(input) && 0 <= offset <= |input|
    requires NextBlock(input, commands, offset, m).0 >= 0
    ensures var r := NextBlock(input, commands, offset, m);
            Tag(input, r.1) && offset <= r.1.blockStart.begin
            && r.1.blockStart.begin + 4 <= r.1.blockEnd.end <= |input|
            && OccursAt(input, commands[r.0], r.1.command.begin)
  {
    ScanFinds(input, commands, m.(blockEnd := m.blockEnd.(end := offset)));
  }

  /** The content between two tags, `GetContent` (template-blocks.cpp:157-160). */
  function GetContent(input: string, start: Match, end: Match): (r: Result<string, Failure>)
    ensures r.Ok? <==> 0 <= start.blockEnd.end <= end.blockStart.begin <= |input|
    ensures r.Ok? ==> r.value == input[start.blockEnd.end..end.blockStart.begin]
  {
    Get(input, Bounds(start.blockEnd.end, end.blockStart.begin))
  }

  /** `NextBlockOf` (template-blocks.cpp:91-117). */
  method NextBlockOf(input: string, commands: seq<string>, offset: int, m: Match) returns (index: int, found: Match)
    requires ViewSize(input) && 0 <= offset <= |input|
    ensures (index, found) == NextBlock(input, commands, offset, m)
  {
    found := m.(blockEnd := m.blockEnd.(end := offset));
    while true
      invariant 0 <= found.blockEnd.end <= |input|
      invariant Scan(input, commands, found) == NextBlock(input, commands, offset, m)
      decreases |input| - found.blockEnd.end
    {
      var pass;
      pass, index := OnePass(input, commands, found);
      found := pass.m;
      if !pass.Skip? {
        return;
      }
    }
  }

  /** The body of the `NextBlockOf` loop. */
  method OnePass(input: string, commands: seq<string>, m: Match) returns (r: Pass, index: int)
    requires ViewSize(input) && 0 <= m.blockEnd.end <= |input|
    ensures r == ScanPass(input, commands, m)
    ensures index == (if r.Found? then r.index else -1)
  {
    var bs := FindSub(input, BlockStart, m.blockEnd.end);
    if bs == NPOS {
      return Stop(m.(blockStart := m.blockStart.(begin := NPOS))), -1;
    }
    MarkerFits(input, bs);
    var be := FindSub(input, BlockEnd, bs + 2);
    if be == NPOS {
      return Stop(m.(blockStart := Bounds(bs, bs + 2), blockEnd := m.blockEnd.(begin := NPOS))), -1;
    }
    MarkerFits(input, be);
    var cb := FirstNotOfFrom(input, " ", bs + 2);
    var tag := m.(blockStart := Bounds(bs, bs + 2), blockEnd := Bounds(be, be + 2));
    r := TryCommands(input, commands, tag, cb);
    ScanPassTag(input, commands, m, bs, be, tag, cb);
    index := if r.Found? then r.index else -1;
  }

  /** A pass that finds both markers classifies the tag between them. */
  lemma ScanPassTag(input: string, commands: seq<string>, m: Match, bs: int, be: int, tag: Match, cb: int)
    requires ViewSize(input) && 0 <= m.blockEnd.end <= |input|
    requires bs == FindSub(input, BlockStart, m.blockEnd.end) && bs != NPOS && bs + 2 <= |input|
    requires be == FindSub(input, BlockEnd, bs + 2) && be != NPOS && be < |input|
    requires tag == m.(blockStart := Bounds(bs, bs + 2), blockEnd := Bounds(be, be + 2))
    requires cb == FirstNotOfFrom(input, " ", bs + 2)
    ensures ScanPass(input, commands, m) == Classify(input, commands, tag, cb)
  {
  }

  /** Where `find` reports one of the two-character markers, both of its
      characters are in the input. */
  lemma MarkerFits(input: string, p: int)
    requires OccursAt(input, BlockStart, p) || OccursAt(input, BlockEnd, p)
    ensures 0 <= p && p + 2 <= |input|
  {
  }

  /** The `for` loop of `NextBlockOf`: the first command the tag's first
      word starts with. */
  method TryCommands(input: string, commands: seq<string>, tag: Match, cb: int) returns (r: Pass)
    requires ViewSize(input) && 0 <= tag.blockEnd.begin < |input|
    ensures r == Classify(input, commands, tag, cb)
  {
    var found := tag.(command := tag.command.(begin := cb));
    var ii := 0;
    while ii < |commands|
      invariant ii <= |commands|
      invariant FirstCommand(input, commands, cb, ii) == FirstCommand(input, commands, cb, 0)
      invariant found == tag.(command := if ii == 0 then tag.command.(begin := cb) else Bounds(cb, cb + |commands[ii - 1]|))
    {
      found := found.(command := found.command.(end := found.command.begin + |commands[ii]|));
      if OccursAt(input, commands[ii], found.command.begin) {
        found := found.(content := Bounds(FirstNotOfFrom(input, " ", found.command.end),
                                          LastNotOfBefore(input, " ", found.blockEnd.begin + 1)));
        return Found(ii, found);
      }
      ii := ii + 1;
    }
    return Skip(found);
  }
}
