/** `XException`: a runtime error with an emptiness flag, an owned copy of
    the exception that caused it, and a message text composed once, when it
    is constructed. */
module Exceptions {

  const CausedBy: string := "\n  -- Caused by : "

  /** The text `init` composes: the message, followed by the cause's text
      when there is a cause. */
  function Compose(message: string, cause: string, hasCause: bool): (r: string)
    ensures !hasCause ==> r == message
    ensures hasCause ==> |r| == |message| + |CausedBy| + |cause|
    ensures '\0' !in message && '\0' !in cause ==> '\0' !in r
  {
    assert forall i :: 0 <= i < |CausedBy| ==> CausedBy[i] != '\0';
    if hasCause then message + CausedBy + cause else message
  }

  /** A string as a `const char*` reads it (`c_str()`, `what()`): the text
      before the first NUL character. */
  function CStr(s: string): (r: string)
    ensures '\0' !in r
    ensures |r| <= |s| && r == s[..|r|]
    ensures |r| < |s| ==> s[|r|] == '\0'
    ensures '\0' !in s ==> r == s
  {
    if s == [] || s[0] == '\0' then [] else [s[0]] + CStr(s[1..])
  }

  /** A message with an embedded NUL is cut there. */
  lemma CStrCuts()
    ensures CStr("ab\0cd") == "ab"
  {
    assert "ab\0cd"[1..] == "b\0cd" && "b\0cd"[1..] == "\0cd";
  }

  /** The composed text gives back both of its parts. */
  lemma ComposeSplits(message: string, cause: string)
    ensures Compose(message, cause, true)[..|message|] == message
    ensures Compose(message, cause, true)[|message| + |CausedBy|..] == cause
  {
    var r := Compose(message, cause, true);
    assert r == message + CausedBy + cause;
    assert r[..|message|] == message;
  }

  class XException {
    /** `runtime_error::what()` of the base class. */
    var message: string
    var isEmpty: bool
    var parent: XException?
    var whatText: string

    /** The default constructor: an empty exception reading "empty". */
    constructor Default()
      ensures message == "empty" && isEmpty && parent == null && whatText == "empty"
    {
      message := "empty";
      isEmpty := true;
      parent := null;
      whatText := Compose("empty", "", false);
    }

    /** The constructors from a message (or from another exception's
        `what()`). The base is built from `what.c_str()`, so the message
        ends at its first NUL. */
    constructor FromMessage(what: string)
      ensures message == CStr(what) && !isEmpty && parent == null && whatText == CStr(what)
    {
      message := CStr(what);
      isEmpty := false;
      parent := null;
      whatText := Compose(CStr(what), "", false);
    }

    /** The chaining constructors: the parent is a copy of `cause`, and the
        text ends with the cause's `what()`. Both the message and the
        cause's text pass through a `const char*` and end at their first
        NUL. */
    constructor Chained(what: string, cause: XException)
      ensures message == CStr(what) && !isEmpty
      ensures parent != null && fresh(parent)
      ensures parent.whatText == cause.whatText && parent.isEmpty == cause.isEmpty
      ensures parent.message == cause.message && parent.parent == null
      ensures whatText == Compose(CStr(what), CStr(cause.whatText), true)
    {
      var copy := new XException.Copy(cause);
      message := CStr(what);
      isEmpty := false;
      parent := copy;
      whatText := Compose(CStr(what), CStr(copy.whatText), true);
    }

    /** Copy construction keeps the text and the flag and drops the parent. */
    constructor Copy(e: XException)
      ensures message == e.message && isEmpty == e.isEmpty
      ensures parent == null && whatText == e.whatText
    {
      message := e.message;
      isEmpty := e.isEmpty;
      parent := null;
      whatText := e.whatText;
    }

    /** Move construction takes the parent and the text; the source is left
        without a parent and with the emptied string a move leaves behind. */
    constructor Move(e: XException)
      modifies e
      ensures message == old(e.message) && isEmpty == old(e.isEmpty)
      ensures parent == old(e.parent) && whatText == old(e.whatText)
      ensures e.parent == null && e.whatText == ""
      ensures e.message == old(e.message) && e.isEmpty == old(e.isEmpty)
    {
      message := e.message;
      isEmpty := e.isEmpty;
      parent := e.parent;
      whatText := e.whatText;
      new;
      e.parent := null;
      e.whatText := "";
    }

    /** Copy assignment: the flag and the text are copied, the parent is
        dropped, and the base message stays as it was. */
    method CopyAssign(e: XException)
      modifies this
      ensures isEmpty == old(e.isEmpty) && parent == null && whatText == old(e.whatText)
      ensures message == old(message)
    {
      var t := e.whatText;
      var em := e.isEmpty;
      isEmpty := em;
      parent := null;
      whatText := t;
    }

    /** Move assignment from another exception: the parent and the text move
        over; the source keeps no parent. */
    method MoveAssign(e: XException)
      requires e != this
      modifies this, e
      ensures isEmpty == old(e.isEmpty) && parent == old(e.parent) && whatText == old(e.whatText)
      ensures message == old(message)
      ensures e.parent == null && e.whatText == ""
      ensures e.isEmpty == old(e.isEmpty) && e.message == old(e.message)
    {
      isEmpty := e.isEmpty;
      parent := e.parent;
      e.parent := null;
      whatText := e.whatText;
      e.whatText := "";
    }

    /** `what()`: the text composed at construction. */
    function What(): (r: string)
      reads this
      ensures r == whatText
    {
      whatText
    }

    /** `empty()`. */
    function Empty(): (r: bool)
      reads this
      ensures r == isEmpty
    {
      isEmpty
    }
  }

  /** The texts of the chain below hold no NUL, so `what()` reads them
      whole. */
  lemma ChainTexts()
    ensures CStr("inner") == "inner" && CStr("middle") == "middle" && CStr("outer") == "outer"
    ensures CStr(Compose("middle", "inner", true)) == Compose("middle", "inner", true)
    ensures Compose("outer", Compose("middle", "inner", true), true) ==
            "outer" + CausedBy + "middle" + CausedBy + "inner"
  {
    assert '\0' !in "inner" && '\0' !in "middle" && '\0' !in "outer";
    assert "outer" + CausedBy + ("middle" + CausedBy + "inner") == "outer" + CausedBy + "middle" + CausedBy + "inner";
  }

  /** A three-level chain reads outermost first, and the text survives a copy
      although the copy has no parent. */
  method ChainScenario() returns (text: string, copyText: string, copyHasParent: bool)
    ensures text == "outer" + CausedBy + "middle" + CausedBy + "inner"
    ensures copyText == text && !copyHasParent
  {
    ChainTexts();
    var inner := new XException.FromMessage("inner");
    assert inner.whatText == "inner";
    var middle := new XException.Chained("middle", inner);
    assert middle.whatText == Compose("middle", "inner", true);
    var outer := new XException.Chained("outer", middle);
    assert outer.whatText == Compose("outer", Compose("middle", "inner", true), true);
    text := outer.What();
    var copy := new XException.Copy(outer);
    copyText := copy.What();
    copyHasParent := copy.parent != null;
  }

  /** Default and message-built exceptions. */
  method EmptyScenario() returns (defaultEmpty: bool, defaultText: string, builtEmpty: bool, builtText: string)
    ensures defaultEmpty && defaultText == "empty"
    ensures !builtEmpty && builtText == "oops"
  {
    var d := new XException.Default();
    defaultEmpty := d.Empty();
    defaultText := d.What();
    assert '\0' !in "oops";
    var b := new XException.FromMessage("oops");
    builtEmpty := b.Empty();
    builtText := b.What();
  }
}
