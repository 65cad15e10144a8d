/** `xlist`: a `std::list` of variants with pushes and pops at either end. */
module Lists {
  import opened Values
  import opened Variants

  /** Which end `push` and `pop` work on. */
  datatype Direction = Front | Back

  /** `operator==` on lists: equal lengths and equal elements, position by
      position. */
  function ListEqual(a: seq<Variant>, b: seq<Variant>): (r: bool)
    ensures r <==> |a| == |b| && forall i :: 0 <= i < |a| ==> Variants.Equal(a[i], b[i])
  {
    Variants.Equal(List(a), List(b))
  }

  /** A list whose `push` and `pop` change the element sequence in place. */
  class XList {
    var items: seq<Variant>

    constructor(init: seq<Variant>)
      ensures items == init
    {
      items := init;
    }

    /** `size()`: the number of elements. */
    function Size(): (n: nat)
      reads this
      ensures n == |items|
    {
      |items|
    }

    /** `operator[](i)`: the i-th element counting from the front. */
    function At(i: nat): (r: Variant)
      reads this
      requires i < |items|
      ensures Get(List(items), [Int(i)]) == Get(r, [])
    {
      assert [Int(i)][1..] == [];
      items[i]
    }

    /** `push<direction>(first, rest...)`: the arguments, in argument order,
        go after the last element (`Back`, the default) or before the first
        one (`Front`). */
    method Push(direction: Direction, args: seq<Variant>)
      requires |args| >= 1
      modifies this
      ensures direction == Back ==> items == old(items) + args
      ensures direction == Front ==> items == args + old(items)
    {
      if direction == Back {
        var i := 0;
        while i < |args|
          invariant 0 <= i <= |args|
          invariant items == old(items) + args[..i]
        {
          items := items + [args[i]];
          i := i + 1;
          assert args[..i] == args[..i - 1] + [args[i - 1]];
        }
        assert args[..|args|] == args;
      } else {
        items := args + items;
      }
    }

    /** `pop<direction>(count)`: removes `count` elements from the front (the
        default) or from the back, one at a time. */
    method Pop(direction: Direction, count: nat)
      requires count <= |items|
      modifies this
      ensures direction == Front ==> items == old(items)[count..]
      ensures direction == Back ==> items == old(items)[..|old(items)| - count]
    {
      var n := 0;
      while n < count
        invariant 0 <= n <= count
        invariant direction == Front ==> items == old(items)[n..]
        invariant direction == Back ==> items == old(items)[..|old(items)| - n]
      {
        if direction == Front {
          items := items[1..];
        } else {
          items := items[..|items| - 1];
        }
        n := n + 1;
      }
    }
  }

  /** Popping what was just pushed at the same end restores the list. */
  lemma PushThenPop(items: seq<Variant>, args: seq<Variant>)
    ensures (items + args)[..|items + args| - |args|] == items
    ensures (args + items)[|args|..] == items
  {
  }
}
