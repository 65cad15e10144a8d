/** The two control tags the compile-time templates understand, as the
    regular expressions of `for_control::try_load` and
    `endfor_control::try_load` match a control token's content as a whole
    (libs/ctt/include/xdev/ctt/blocks.hpp; parser.hpp has the same two).

      for:     `(-?)\s?for\s+(\w+)\s+in\s+(\w+)\s?(-?)`
      endfor:  `(-?)\s?endfor\s?(-?)`

    `\s` and `\w` never share a character and neither holds `-`, so each
    expression has at most one way to match; the model scans the content
    once from left to right. */
module CttControls {
  import opened Wrappers
  import StrTools
  import CttEvaluator

  /** `\s`: space, tab, line feed, vertical tab, form feed, carriage return. */
  predicate IsSpace(c: char)
  {
    c == ' ' || c == '\t' || c == '\n' || c == StrTools.VT || c == '\U{000C}' || c == '\r'
  }

  /** A non-empty run of `\w` characters. */
  predicate IsWord(w: string)
  {
    |w| > 0 && forall k :: 0 <= k < |w| ==> CttEvaluator.IsWordChar(w[k])
  }

  /** Where the run of `\s` starting at `i` ends. */
  function SpaceEnd(c: string, i: nat): (j: nat)
    requires i <= |c|
    ensures i <= j <= |c|
    ensures j < |c| ==> !IsSpace(c[j])
    decreases |c| - i
  {
    if i < |c| && IsSpace(c[i]) then SpaceEnd(c, i + 1) else i
  }

  /** Where the run of `\w` starting at `i` ends. */
  function WordEnd(c: string, i: nat): (j: nat)
    requires i <= |c|
    ensures i <= j <= |c|
    ensures j < |c| ==> !CttEvaluator.IsWordChar(c[j])
    decreases |c| - i
  {
    if i < |c| && CttEvaluator.IsWordChar(c[i]) then WordEnd(c, i + 1) else i
  }

  /** What `WordEnd` skips is a word. */
  lemma {:induction false} WordEndSkipsWord(c: string, i: nat)
    requires i <= |c| && i < WordEnd(c, i)
    ensures IsWord(c[i..WordEnd(c, i)])
    decreases |c| - i
  {
    var w := c[i..WordEnd(c, i)];
    if i + 1 < WordEnd(c, i) {
      WordEndSkipsWord(c, i + 1);
      assert w == [c[i]] + c[i + 1..WordEnd(c, i + 1)];
    }
  }

  /** `-?` at `i`. */
  function OptDash(c: string, i: nat): (j: nat)
    requires i <= |c|
    ensures j == i || (j == i + 1 <= |c| && c[i] == '-')
  {
    if i < |c| && c[i] == '-' then i + 1 else i
  }

  /** `\s?` at `i`. */
  function OptSpace(c: string, i: nat): (j: nat)
    requires i <= |c|
    ensures j == i || (j == i + 1 <= |c| && IsSpace(c[i]))
  {
    if i < |c| && IsSpace(c[i]) then i + 1 else i
  }

  /** The literal `w` appears at `i`. */
  predicate HasAt(c: string, i: nat, w: string)
  {
    i + |w| <= |c| && c[i..i + |w|] == w
  }

  /** The closing `\s?(-?)` of both expressions, which must reach the end of
      the content: whether the `-` is there, or no match. */
  function Tail(c: string, i: nat): (r: Option<bool>)
    requires i <= |c|
    ensures r == Some(true) ==> |c| > i && c[|c| - 1] == '-'
    ensures r == Some(false) ==> |c| == i || (|c| == i + 1 && IsSpace(c[i]))
  {
    var j := OptSpace(c, i);
    if j == |c| then Some(false)
    else if j + 1 == |c| && c[j] == '-' then Some(true)
    else Option.None
  }

  /** The parts of a `for` tag: the two trim markers, the loop variable and
      the container's name. */
  datatype ForHead = ForHead(trimBefore: bool, iter: string, container: string, trimAfter: bool)

  /** `for_control::try_load`'s match: the head of a `for` tag, or no match. */
  function ForTag(c: string): (r: Option<ForHead>)
    ensures r.Some? ==> IsWord(r.value.iter) && IsWord(r.value.container)
    ensures r.Some? ==> |c| > 0 && (r.value.trimBefore <==> c[0] == '-')
    ensures r.Some? ==> |c| > 0 && (r.value.trimAfter <==> c[|c| - 1] == '-')
  {
    var a := OptDash(c, 0);
    var b := OptSpace(c, a);
    if HasAt(c, b, "for") then ForIter(c, b + 3, a == 1) else Option.None
  }

  /** The match of `\s+(\w+)\s+in` from `i`, then the rest of the tag. */
  function ForIter(c: string, i: nat, trimBefore: bool): (r: Option<ForHead>)
    requires i <= |c|
    ensures r.Some? ==> IsWord(r.value.iter) && IsWord(r.value.container) && r.value.trimBefore == trimBefore
    ensures r.Some? ==> |c| > 0 && (r.value.trimAfter <==> c[|c| - 1] == '-')
  {
    var d := SpaceEnd(c, i);
    var e := WordEnd(c, d);
    var f := SpaceEnd(c, e);
    if d == i || e == d || f == e || !HasAt(c, f, "in") then Option.None
    else
      WordEndSkipsWord(c, d);
      ForContainer(c, f + 2, trimBefore, c[d..e])
  }

  /** The match of `\s+(\w+)\s?(-?)` from `i`, to the end of the content. */
  function ForContainer(c: string, i: nat, trimBefore: bool, iter: string): (r: Option<ForHead>)
    requires i <= |c|
    ensures r.Some? ==> IsWord(r.value.container) && r.value.iter == iter && r.value.trimBefore == trimBefore
    ensures r.Some? ==> |c| > 0 && (r.value.trimAfter <==> c[|c| - 1] == '-')
  {
    var g := SpaceEnd(c, i);
    var h := WordEnd(c, g);
    if g == i || h == g then Option.None
    else
      match Tail(c, h)
      case None => Option.None
      case Some(after) =>
        WordEndSkipsWord(c, g);
        Some(ForHead(trimBefore, iter, c[g..h], after))
  }

  /** `endfor_control::try_load`'s match: the two trim markers of an
      `endfor` tag, or no match. */
  function EndforTag(c: string): (r: Option<(bool, bool)>)
    ensures r.Some? ==> |c| >= 6 && (r.value.0 <==> c[0] == '-') && (r.value.1 <==> c[|c| - 1] == '-')
  {
    var a := OptDash(c, 0);
    var b := OptSpace(c, a);
    if !HasAt(c, b, "endfor") then Option.None
    else
      match Tail(c, b + 6)
      case None => Option.None
      case Some(after) => Some((a == 1, after))
  }

  // ---------------------------------------------------------------------
  // properties of the two tags

  /** The content of `{%- for iter in container -%}` and its variants
      without the markers. */
  function ForText(h: ForHead): string
  {
    ((if h.trimBefore then "-" else "") + " for") + (" " + h.iter + " in") + (" " + h.container + " ")
      + (if h.trimAfter then "-" else "")
  }

  /** The content of `{%- endfor -%}` and its variants without the markers. */
  function EndforText(trimBefore: bool, trimAfter: bool): string
  {
    (if trimBefore then "-" else "") + " endfor " + (if trimAfter then "-" else "")
  }

  /** A run of `\w` characters that the content holds at `i`, followed by a
      character that is not one, is what `WordEnd` scans. */
  lemma {:induction false} WordEndOf(c: string, i: nat, w: string)
    requires i + |w| <= |c| && c[i..i + |w|] == w
    requires forall k :: 0 <= k < |w| ==> CttEvaluator.IsWordChar(w[k])
    requires i + |w| == |c| || !CttEvaluator.IsWordChar(c[i + |w|])
    ensures WordEnd(c, i) == i + |w|
    decreases |w|
  {
    if |w| > 0 {
      assert c[i] == w[0];
      assert c[i + 1..i + 1 + |w[1..]|] == w[1..] by {
        assert c[i + 1..i + 1 + |w[1..]|] == c[i..i + |w|][1..];
      }
      WordEndOf(c, i + 1, w[1..]);
    }
  }

  /** The scan of `\s+(\w+)` over a space and a word followed by a space. */
  lemma SpaceThenWord(c: string, i: nat, w: string)
    requires IsWord(w) && i + 2 + |w| <= |c|
    requires IsSpace(c[i]) && c[i + 1..i + 1 + |w|] == w && c[i + 1 + |w|] == ' '
    ensures SpaceEnd(c, i) == i + 1 && WordEnd(c, i + 1) == i + 1 + |w|
  {
    assert c[i + 1] == w[0];
    WordEndOf(c, i + 1, w);
  }

  /** A word framed by two literals at `i`: the word and each literal are
      where the frame puts them. */
  lemma Framed(c: string, i: nat, l: string, w: string, r: string)
    requires i + |l| + |w| + |r| <= |c| && c[i..i + |l| + |w| + |r|] == l + w + r
    ensures c[i..i + |l|] == l && c[i + |l|..i + |l| + |w|] == w
    ensures c[i + |l| + |w|..i + |l| + |w| + |r|] == r
  {
    var f := l + w + r;
    assert forall k :: i <= k < i + |f| ==> c[k] == f[k - i] by {
      forall k | i <= k < i + |f| ensures c[k] == f[k - i] {
        assert c[k] == c[i..i + |f|][k - i];
      }
    }
    assert c[i..i + |l|] == l;
    assert c[i + |l|..i + |l| + |w|] == w;
    assert c[i + |l| + |w|..i + |l| + |w| + |r|] == r;
  }

  /** The container part of a `for` tag: a space, a word, a space, then
      the tail. */
  lemma ForContainerAt(c: string, i: nat, trimBefore: bool, iter: string, w: string, after: bool)
    requires IsWord(w) && i + 2 + |w| <= |c|
    requires IsSpace(c[i]) && c[i + 1..i + 1 + |w|] == w && c[i + 1 + |w|] == ' '
    requires Tail(c, i + 1 + |w|) == Some(after)
    ensures ForContainer(c, i, trimBefore, iter) == Some(ForHead(trimBefore, iter, w, after))
  {
    SpaceThenWord(c, i, w);
  }

  /** The loop-variable part of a `for` tag: a space, a word, then ` in`. */
  lemma ForIterAt(c: string, i: nat, trimBefore: bool, w: string)
    requires IsWord(w) && i + 4 + |w| <= |c|
    requires IsSpace(c[i]) && c[i + 1..i + 1 + |w|] == w && c[i + 1 + |w|..i + 4 + |w|] == " in"
    ensures ForIter(c, i, trimBefore) == ForContainer(c, i + 4 + |w|, trimBefore, w)
  {
    var e := i + 1 + |w|;
    assert c[e] == c[e..e + 3][0] && c[e + 1] == c[e..e + 3][1];
    assert SpaceEnd(c, e + 1) == e + 1;
    assert SpaceEnd(c, e) == e + 1;
    SpaceThenWord(c, i, w);
    assert HasAt(c, e + 1, "in") by {
      assert c[e + 1..e + 3] == c[e..e + 3][1..];
    }
  }

  /** The four parts of a concatenation are its slices. */
  lemma Parts(p0: string, p1: string, p2: string, p3: string)
    ensures var c := p0 + p1 + p2 + p3;
            var i, j := |p0| + |p1|, |p0| + |p1| + |p2|;
            c[..|p0|] == p0 && c[|p0|..i] == p1 && c[i..j] == p2 && c[j..] == p3
  {
  }

  /** The optional marker, a space and a keyword open the content. */
  lemma HeadAt(c: string, marker: string, keyword: string)
    requires marker == "-" || marker == ""
    requires |keyword| > 0 && keyword[0] != '-' && !IsSpace(keyword[0])
    requires |marker| + 1 + |keyword| <= |c| && c[..|marker| + 1 + |keyword|] == marker + " " + keyword
    ensures OptDash(c, 0) == |marker| && OptSpace(c, |marker|) == |marker| + 1
    ensures HasAt(c, |marker| + 1, keyword)
  {
    var m := |marker|;
    assert c[m] == (marker + " " + keyword)[m];
    assert marker == "-" ==> c[0] == '-';
    assert c[m + 1..m + 1 + |keyword|] == (marker + " " + keyword)[m + 1..];
  }

  /** A `for` tag's opening: the rest is scanned from after `for`. */
  lemma ForOpening(c: string, marker: string)
    requires marker == "-" || marker == ""
    requires |marker| + 4 <= |c| && c[..|marker| + 4] == marker + " for"
    ensures ForTag(c) == ForIter(c, |marker| + 4, marker == "-")
  {
    HeadAt(c, marker, "for");
  }

  /** A space and an optional marker close the content. */
  lemma TailAt(c: string, j: nat, marker: string)
    requires marker == "-" || marker == ""
    requires 0 < j && |c| == j + |marker| && c[j - 1] == ' ' && c[j..] == marker
    ensures Tail(c, j - 1) == Some(marker == "-")
  {
    assert marker == "-" ==> c[j] == marker[0];
  }

  /** The loop-variable part of a canonical text. */
  lemma ForIterOfLayout(c: string, k: nat, i: nat, trimBefore: bool, w: string)
    requires IsWord(w) && i == k + 4 + |w| <= |c| && c[k..i] == " " + w + " in"
    ensures ForIter(c, k, trimBefore) == ForContainer(c, i, trimBefore, w)
  {
    var f := c[k..i];
    assert c[k] == f[0] == ' ';
    assert c[k + 1..k + 1 + |w|] == f[1..1 + |w|] == w;
    assert c[k + 1 + |w|..k + 4 + |w|] == f[1 + |w|..] == " in";
    ForIterAt(c, k, trimBefore, w);
  }

  /** The container part of a canonical text, up to its end. */
  lemma ForContainerOfLayout(c: string, i: nat, j: nat, h: ForHead, post: string)
    requires IsWord(h.container) && post == (if h.trimAfter then "-" else "")
    requires j == i + 2 + |h.container| && |c| == j + |post|
    requires c[i..j] == " " + h.container + " " && c[j..] == post
    ensures ForContainer(c, i, h.trimBefore, h.iter) == Some(h)
  {
    Framed(c, i, " ", h.container, " ");
    assert c[i] == c[i..i + 1][0];
    assert c[j - 1] == c[j - 1..j][0];
    TailAt(c, j, post);
    ForContainerAt(c, i, h.trimBefore, h.iter, h.container, h.trimAfter);
  }

  /** `ForTag` on content laid out as the four parts of a canonical text. */
  lemma ForTagOfLayout(c: string, h: ForHead, pre: string, post: string, i: nat, j: nat)
    requires IsWord(h.iter) && IsWord(h.container)
    requires pre == (if h.trimBefore then "-" else "") && post == (if h.trimAfter then "-" else "")
    requires i == |pre| + 4 + 4 + |h.iter| && j == i + 2 + |h.container| && |c| == j + |post|
    requires c[..|pre| + 4] == pre + " for" && c[|pre| + 4..i] == " " + h.iter + " in"
    requires c[i..j] == " " + h.container + " " && c[j..] == post
    ensures ForTag(c) == Some(h)
  {
    ForOpening(c, pre);
    ForIterOfLayout(c, |pre| + 4, i, h.trimBefore, h.iter);
    ForContainerOfLayout(c, i, j, h, post);
  }

  /** Every `for` head is read back from its canonical text. */
  lemma ForTagRoundTrip(h: ForHead)
    requires IsWord(h.iter) && IsWord(h.container)
    ensures ForTag(ForText(h)) == Some(h)
  {
    var pre := if h.trimBefore then "-" else "";
    var post := if h.trimAfter then "-" else "";
    var p0, p1, p2 := pre + " for", " " + h.iter + " in", " " + h.container + " ";
    Parts(p0, p1, p2, post);
    ForTagOfLayout(ForText(h), h, pre, post, |p0| + |p1|, |p0| + |p1| + |p2|);
  }

  /** Every pair of `endfor` markers is read back from its canonical text. */
  lemma EndforTagRoundTrip(trimBefore: bool, trimAfter: bool)
    ensures EndforTag(EndforText(trimBefore, trimAfter)) == Some((trimBefore, trimAfter))
  {
    var pre := if trimBefore then "-" else "";
    var c := EndforText(trimBefore, trimAfter);
    var a := |pre|;
    assert OptDash(c, 0) == a;
    assert OptSpace(c, a) == a + 1;
    assert c[a + 1..a + 7] == "endfor";
    assert IsSpace(c[a + 7]);
  }

  /** No content is both a `for` and an `endfor` tag, so the order in which
      the generator tries them does not matter. */
  lemma TagsExclusive(c: string)
    ensures !(ForTag(c).Some? && EndforTag(c).Some?)
  {
  }
}
