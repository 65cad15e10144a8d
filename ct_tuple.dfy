/** `ct::tuple<Ts...>` (libs/ctt/include/xdev/ct/tuple.hpp): a list of types
    carried through template parameters. A type list is a sequence here; the
    type-level aliases become functions on it. */
module CtTuple {

  /** `size<TupleT>`: the number of element types. */
  function Size<T>(ts: seq<T>): (n: nat)
    ensures n == 0 <==> ts == []
  {
    |ts|
  }

  /** `at_impl<pos>::impl<index, First, Rest...>`: walk the list, counting
      from `index`, until the count reaches `pos`. */
  function AtFrom<T>(pos: nat, index: nat, ts: seq<T>): (r: T)
    requires index <= pos < index + |ts|
    ensures r == ts[pos - index]
    decreases |ts|
  {
    if index == pos then ts[0] else AtFrom(pos, index + 1, ts[1..])
  }

  /** `at_t<pos, TupleT>`: the element at `pos`, counting from 0. */
  function At<T>(pos: nat, ts: seq<T>): (r: T)
    requires pos < |ts|
    ensures r == ts[pos]
  {
    AtFrom(pos, 0, ts)
  }

  /** `front_t`: `at_t<0>`. */
  function Front<T>(ts: seq<T>): (r: T)
    requires ts != []
    ensures r == ts[0]
  {
    At(0, ts)
  }

  /** `back_t`: `at_t<size - 1>`. */
  function Back<T>(ts: seq<T>): (r: T)
    requires ts != []
    ensures r == ts[|ts| - 1]
  {
    At(|ts| - 1, ts)
  }

  /** `cat_t<Left, Right>`: `tuple<Left..., Right...>`. */
  function Cat<T>(left: seq<T>, right: seq<T>): seq<T>
  {
    left + right
  }

  /** `push_t<TupleT, T>`: `cat_t<TupleT, tuple<T>>`. */
  function Push<T>(ts: seq<T>, t: T): seq<T>
  {
    Cat(ts, [t])
  }

  /** Concatenation keeps both lists in order: the left elements come first
      at their own positions, then the right ones shifted by the left's
      size. */
  lemma CatKeepsOrder<T>(left: seq<T>, right: seq<T>)
    ensures Size(Cat(left, right)) == Size(left) + Size(right)
    ensures forall i :: 0 <= i < |left| ==> At(i, Cat(left, right)) == At(i, left)
    ensures forall i :: 0 <= i < |right| ==> At(|left| + i, Cat(left, right)) == At(i, right)
  {
  }

  /** Pushing appends one element: it becomes the back, the front and
      everything before it stay. */
  lemma PushAppends<T>(ts: seq<T>, t: T)
    ensures Size(Push(ts, t)) == Size(ts) + 1
    ensures Back(Push(ts, t)) == t
    ensures ts != [] ==> Front(Push(ts, t)) == Front(ts)
    ensures forall i :: 0 <= i < |ts| ==> At(i, Push(ts, t)) == At(i, ts)
  {
    CatKeepsOrder(ts, [t]);
  }

  /** The element types of the ct tuple tests. */
  datatype Type = IntType | BoolType | NullptrType

  /** `tuple<int, bool>` has two elements and `int` in front; pushing
      `nullptr_t` puts it at the back. */
  lemma TupleExample()
    ensures Size([IntType, BoolType]) == 2
    ensures Front([IntType, BoolType]) == IntType
    ensures Back(Push([IntType, BoolType], NullptrType)) == NullptrType
  {
    PushAppends([IntType, BoolType], NullptrType);
  }
}
