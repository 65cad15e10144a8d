/** The tuple tools of libs/core/include/xdev/tuple-tools.hpp, with their
    older copies in xdev-tuple-tools.hpp and xdev-tuple-slice.hpp.

    A `std::tuple` is a sequence of elements here. Whether a callback
    returns `void` is decided per element type in C++; a callback is a
    function of the element's index and the element that returns `None`
    for `void`. */
module TupleTools {
  import opened Wrappers
  import CtTuple

  // ---------------------------------------------------------------------
  // slices

  /** `slice<begin, count>`: `make_tuple(get<begin + indices>(tuple)...)`
      for the indices 0 … count-1; a zero count is refused at compile
      time. */
  function Slice<T>(xs: seq<T>, begin: nat, count: nat): (r: seq<T>)
    requires 0 < count && begin + count <= |xs|
    ensures |r| == count
    ensures forall i :: 0 <= i < count ==> r[i] == xs[begin + i]
  {
    seq(count, i requires 0 <= i < count => xs[begin + i])
  }

  /** `tail<rbegin>`: the slice of the last `rbegin` elements. */
  function Tail<T>(xs: seq<T>, rbegin: nat): (r: seq<T>)
    requires 0 < rbegin <= |xs|
    ensures |r| == rbegin
    ensures forall i :: 0 <= i < rbegin ==> r[i] == xs[|xs| - rbegin + i]
  {
    Slice(xs, |xs| - rbegin, rbegin)
  }

  /** A slice is the contiguous run `[begin, begin + count)`, and a tail is
      the suffix of that length. */
  lemma SliceIsSubsequence<T>(xs: seq<T>, begin: nat, count: nat)
    requires 0 < count && begin + count <= |xs|
    ensures Slice(xs, begin, count) == xs[begin..begin + count]
    ensures begin + count == |xs| ==> Slice(xs, begin, count) == Tail(xs, count)
  {
  }

  /** `tail<2>` of `(int, int, bool, nullptr_t, string)` is
      `(nullptr_t, string)`. */
  lemma TailExample()
    ensures Tail(["int", "int", "bool", "nullptr_t", "string"], 2) == ["nullptr_t", "string"]
  {
    var xs := ["int", "int", "bool", "nullptr_t", "string"];
    assert Tail(xs, 2)[0] == xs[3] && Tail(xs, 2)[1] == xs[4];
  }

  // ---------------------------------------------------------------------
  // foreach

  /** Where a `foreach` stopped: how many elements it visited and what the
      last callback returned (`None` when every callback was `void`). */
  datatype Visit<R> = Visit(visited: nat, result: Option<R>)

  /** `foreach_impl<index>`: call back on the element at `index`; a `void`
      result moves on to the next element while there is one, any other
      result is returned at once. */
  function ForeachFrom<T, R>(xs: seq<T>, f: (nat, T) -> Option<R>, index: nat): (r: Visit<R>)
    requires index < |xs|
    ensures index < r.visited <= |xs|
    ensures forall j :: index <= j < r.visited - 1 ==> f(j, xs[j]).None?
    ensures r.result == f(r.visited - 1, xs[r.visited - 1])
    ensures r.result.None? ==> r.visited == |xs|
    decreases |xs| - index
  {
    var out := f(index, xs[index]);
    if out.None? && index + 1 < |xs| then ForeachFrom(xs, f, index + 1)
    else Visit(index + 1, out)
  }

  /** `foreach(tuple, functor)`: from the first element. `get<0>` of an
      empty tuple does not compile. */
  function Foreach<T, R>(xs: seq<T>, f: (nat, T) -> Option<R>): (r: Visit<R>)
    requires xs != []
    ensures r == ForeachFrom(xs, f, 0)
  {
    ForeachFrom(xs, f, 0)
  }

  /** `foreach` visits the elements in order up to the first non-`void`
      result and returns that result; when every result is `void` it visits
      them all and returns nothing. */
  lemma ForeachStopsAtFirst<T, R>(xs: seq<T>, f: (nat, T) -> Option<R>)
    requires xs != []
    ensures Foreach(xs, f).result.Some? <==> exists i :: 0 <= i < |xs| && f(i, xs[i]).Some?
    ensures forall i :: 0 <= i < |xs| && f(i, xs[i]).Some? && (forall j :: 0 <= j < i ==> f(j, xs[j]).None?) ==>
              Foreach(xs, f) == Visit(i + 1, f(i, xs[i]))
  {
    var r := Foreach(xs, f);
    if r.result.Some? {
      assert f(r.visited - 1, xs[r.visited - 1]).Some?;
    }
    forall i | 0 <= i < |xs| && f(i, xs[i]).Some? && (forall j :: 0 <= j < i ==> f(j, xs[j]).None?)
      ensures Foreach(xs, f) == Visit(i + 1, f(i, xs[i]))
    {
    }
  }

  /** The elements of the foreach tests: a bool, an int and a string
      view. */
  datatype Elem = BoolElem(b: bool) | IntElem(n: int) | ViewElem(s: string)

  /** `(true, 42, "any question ?")`. */
  function TestTuple(): seq<Elem>
  {
    [BoolElem(true), IntElem(42), ViewElem("any question ?")]
  }

  /** The breakable loop of the tests: its counter is one more than the
      index; a bool gives `void`, an int gives `(counter, elem)`, anything
      else throws. */
  function Breaking(index: nat, e: Elem): Option<Result<(int, int), string>>
  {
    match e
    case BoolElem(_) => None
    case IntElem(n) => Some(Ok((index + 1, n)))
    case ViewElem(_) => Some(Err("nope !"))
  }

  /** A callback that is `void` everywhere visits all three elements; the
      breakable loop stops at 42 with the counter at 2, before the string
      that would throw. */
  lemma ForeachExamples()
    ensures Foreach(TestTuple(), (i: nat, e: Elem) => Option<bool>.None).visited == 3
    ensures Foreach(TestTuple(), Breaking) == Visit(2, Some(Ok((2, 42))))
  {
    var xs := TestTuple();
    assert ForeachFrom(xs, Breaking, 1) == Visit(2, Some(Ok((2, 42))));
  }

  // ---------------------------------------------------------------------
  // transform, generate and flatten

  /** The results that are not `void`, in order. */
  function Somes<R>(os: seq<Option<R>>): (r: seq<R>)
    ensures |r| <= |os|
  {
    if os == [] then []
    else (if os[0].Some? then [os[0].value] else []) + Somes(os[1..])
  }

  /** The callback applied to every element from `index` on. */
  function Results<T, R>(xs: seq<T>, f: (nat, T) -> Option<R>, index: nat): seq<Option<R>>
    requires index <= |xs|
  {
    seq(|xs| - index, k requires 0 <= k < |xs| - index => f(index + k, xs[index + k]))
  }

  /** `transform_impl<index>`: call back on the element at `index` and
      `push_back` a non-`void` result onto `current`; go on while there is a
      next element. */
  function TransformFrom<T, R>(xs: seq<T>, f: (nat, T) -> Option<R>, index: nat, current: seq<R>): (r: seq<R>)
    requires index < |xs|
    ensures r == current + Somes(Results(xs, f, index))
    decreases |xs| - index
  {
    var out := f(index, xs[index]);
    var next := if out.Some? then CtTuple.Push(current, out.value) else current;
    assert Results(xs, f, index)[0] == out;
    assert Results(xs, f, index)[1..] == Results(xs, f, index + 1);
    if index + 1 < |xs| then TransformFrom(xs, f, index + 1, next)
    else
      assert Results(xs, f, index + 1) == [];
      next
  }

  /** `transform(tuple, generator)`: from the first element with an empty
      result. */
  function Transform<T, R>(xs: seq<T>, f: (nat, T) -> Option<R>): (r: seq<R>)
    requires xs != []
    ensures r == Somes(Results(xs, f, 0))
  {
    TransformFrom(xs, f, 0, [])
  }

  /** The transform of the tests: a bool is negated, an int `n` becomes
      `(n, n * n)`, a string view gives `void`. */
  function Transformer(index: nat, e: Elem): Option<Elem2>
  {
    match e
    case BoolElem(b) => Some(NotOf(!b))
    case IntElem(n) => Some(PairOf(n, n * n))
    case ViewElem(_) => None
  }

  /** What the transform of the tests yields. */
  datatype Elem2 = NotOf(b: bool) | PairOf(x: int, y: int)

  /** Transforming `(true, 42, "any question ?")` yields `(false, (42,
      1764))`: the `void` result is dropped. */
  lemma TransformExample()
    ensures Transform(TestTuple(), Transformer) == [NotOf(false), PairOf(42, 1764)]
  {
    var xs := TestTuple();
    var os := Results(xs, Transformer, 0);
    assert |os| == 3 && os[0] == Transformer(0, xs[0]) && os[1] == Transformer(1, xs[1]) && os[2] == Transformer(2, xs[2]);
    assert os == [Some(NotOf(false)), Some(PairOf(42, 1764)), None];
    assert os[1..] == [Some(PairOf(42, 1764)), None] && os[1..][1..] == [None] && os[1..][1..][1..] == [];
    assert Somes(os[1..][1..]) == [];
    assert Somes(os[1..]) == [PairOf(42, 1764)];
  }

  /** `generate_impl<index>`: call the lambda for `index`, `index + 1`, …
      and collect the results until the first `void`. `bound` is an index
      at which the lambda is `void`; without one the C++ instantiation
      never ends. */
  function GenerateFrom<R>(f: nat -> Option<R>, index: nat, bound: nat, current: seq<R>): (r: seq<R>)
    requires index <= bound && f(bound).None?
    ensures |current| <= |r| <= |current| + bound - index && r[..|current|] == current
    ensures forall j :: |current| <= j < |r| ==> f(index + j - |current|) == Some(r[j])
    ensures f(index + |r| - |current|).None?
    decreases bound - index
  {
    match f(index)
    case None => current
    case Some(v) => GenerateFrom(f, index + 1, bound, CtTuple.Push(current, v))
  }

  /** `generate(lambda)`: from 0 with an empty result. */
  function Generate<R>(f: nat -> Option<R>, bound: nat): (r: seq<R>)
    requires f(bound).None?
    ensures |r| <= bound
    ensures forall j :: 0 <= j < |r| ==> f(j) == Some(r[j])
    ensures f(|r|).None?
  {
    GenerateFrom(f, 0, bound, [])
  }

  /** What is collected does not depend on which `void` index bounds the
      search: generation stops at the first `void`. */
  lemma GenerateStopsAtFirstVoid<R>(f: nat -> Option<R>, b1: nat, b2: nat)
    requires f(b1).None? && f(b2).None?
    ensures Generate(f, b1) == Generate(f, b2)
  {
    var r1, r2 := Generate(f, b1), Generate(f, b2);
  }

  /** An element of a tuple that may itself hold a tuple. */
  datatype Item<T> = Leaf(value: T) | Nested(items: seq<Item<T>>)

  /** `flatten_impl<recursive, index>`: past the last element the lambda is
      `void` and the result is `current`; a nested tuple is spliced in
      (itself flattened when `recursive`), anything else pushed. */
  function FlattenFrom<T>(recursive: bool, xs: seq<Item<T>>, index: nat, current: seq<Item<T>>): seq<Item<T>>
    requires index <= |xs|
    decreases xs, 0, |xs| - index
  {
    if index == |xs| then current
    else
      match xs[index]
      case Nested(ys) =>
        FlattenFrom(recursive, xs, index + 1, current + (if recursive then Flatten(true, ys) else ys))
      case Leaf(_) => FlattenFrom(recursive, xs, index + 1, CtTuple.Push(current, xs[index]))
  }

  /** `flatten<recursive>(tuple)`. */
  function Flatten<T>(recursive: bool, xs: seq<Item<T>>): seq<Item<T>>
    decreases xs, 1
  {
    FlattenFrom(recursive, xs, 0, [])
  }

  /** The plain elements in reading order, at any depth. */
  function Leaves<T>(xs: seq<Item<T>>): seq<T>
  {
    if xs == [] then []
    else
      (match xs[0]
       case Leaf(v) => [v]
       case Nested(ys) => Leaves(ys)) + Leaves(xs[1..])
  }

  /** No element holds a tuple. */
  predicate Flat<T>(xs: seq<Item<T>>)
  {
    forall i :: 0 <= i < |xs| ==> xs[i].Leaf?
  }

  /** The leaves of two lists one after the other. */
  lemma {:induction false} LeavesConcat<T>(a: seq<Item<T>>, b: seq<Item<T>>)
    ensures Leaves(a + b) == Leaves(a) + Leaves(b)
    decreases |a|
  {
    if a == [] {
      assert a + b == b;
    } else {
      assert (a + b)[0] == a[0] && (a + b)[1..] == a[1..] + b;
      LeavesConcat(a[1..], b);
    }
  }

  /** The leaves of a flat list, one per element. */
  lemma {:induction false} FlatLeaves<T>(xs: seq<Item<T>>)
    requires Flat(xs)
    ensures |Leaves(xs)| == |xs| && forall i :: 0 <= i < |xs| ==> Leaves(xs)[i] == xs[i].value
  {
    if xs != [] {
      FlatLeaves(xs[1..]);
    }
  }

  /** Flattening keeps the leaves in order, one level or all of them, and
      the recursive flatten leaves no tuple behind. */
  lemma {:induction false} FlattenFromKeepsLeaves<T>(recursive: bool, xs: seq<Item<T>>, index: nat,
                                                     current: seq<Item<T>>)
    requires index <= |xs|
    ensures Leaves(FlattenFrom(recursive, xs, index, current)) == Leaves(current) + Leaves(xs[index..])
    ensures recursive && Flat(current) ==> Flat(FlattenFrom(recursive, xs, index, current))
    decreases xs, 0, |xs| - index
  {
    if index == |xs| {
      assert xs[index..] == [];
    } else {
      var next := current + Spliced(recursive, xs[index]);
      FlattenFromStep(recursive, xs, index, current);
      SplicedKeepsLeaves(recursive, xs[index]);
      LeavesAt(xs, index);
      LeavesConcat(current, Spliced(recursive, xs[index]));
      FlatConcat(current, Spliced(recursive, xs[index]));
      FlattenFromKeepsLeaves(recursive, xs, index + 1, next);
    }
  }

  /** What one element adds to the flattened list: itself when it is plain,
      its elements (flattened in turn when `recursive`) when it is a tuple. */
  function Spliced<T>(recursive: bool, x: Item<T>): seq<Item<T>>
    decreases x, 2
  {
    match x
    case Nested(ys) => if recursive then Flatten(true, ys) else ys
    case Leaf(_) => [x]
  }

  lemma FlattenFromStep<T>(recursive: bool, xs: seq<Item<T>>, index: nat, current: seq<Item<T>>)
    requires index < |xs|
    ensures FlattenFrom(recursive, xs, index, current)
         == FlattenFrom(recursive, xs, index + 1, current + Spliced(recursive, xs[index]))
  {
  }

  /** One element's contribution has its leaves, and no tuple under
      `recursive`. */
  lemma SplicedKeepsLeaves<T>(recursive: bool, x: Item<T>)
    ensures Leaves(Spliced(recursive, x)) == Leaves([x])
    ensures recursive ==> Flat(Spliced(recursive, x))
    decreases x, 3
  {
    assert [x][1..] == [];
    match x
    case Nested(ys) =>
      if recursive {
        FlattenKeepsLeaves(true, ys);
      }
    case Leaf(_) =>
  }

  /** The leaves from `index` on: those of the element there, then the rest. */
  lemma LeavesAt<T>(xs: seq<Item<T>>, index: nat)
    requires index < |xs|
    ensures Leaves(xs[index..]) == Leaves([xs[index]]) + Leaves(xs[index + 1..])
    ensures Leaves([xs[index]]) == (match xs[index] case Leaf(v) => [v] case Nested(ys) => Leaves(ys))
  {
    assert xs[index..][0] == xs[index] && xs[index..][1..] == xs[index + 1..];
    assert [xs[index]][1..] == [];
  }

  lemma FlatConcat<T>(a: seq<Item<T>>, b: seq<Item<T>>)
    ensures Flat(a) && Flat(b) ==> Flat(a + b)
  {
  }

  /** `flatten` keeps the leaves in reading order; `flatten<true>` leaves
      no nested tuple. */
  lemma {:induction false} FlattenKeepsLeaves<T>(recursive: bool, xs: seq<Item<T>>)
    ensures Leaves(Flatten(recursive, xs)) == Leaves(xs)
    ensures recursive ==> Flat(Flatten(recursive, xs))
    decreases xs, 1
  {
    FlattenFromKeepsLeaves(recursive, xs, 0, []);
    assert xs[0..] == xs;
  }

  /** `flatten<true>` is the list of the leaves: `(1, (2, (3)))` becomes
      `(1, 2, 3)`. */
  lemma FlattenIsLeaves<T>(xs: seq<Item<T>>)
    ensures var r := Flatten(true, xs);
            |r| == |Leaves(xs)| && forall i :: 0 <= i < |r| ==> r[i] == Leaf(Leaves(xs)[i])
  {
    FlattenKeepsLeaves(true, xs);
    FlatLeaves(Flatten(true, xs));
  }

  /** `(1, (2, (3)))`: flattened recursively it is `(1, 2, 3)`. */
  lemma FlattenExample()
    ensures Flatten(true, [Leaf(1), Nested([Leaf(2), Nested([Leaf(3)])])]) == [Leaf(1), Leaf(2), Leaf(3)]
  {
    var xs := [Leaf(1), Nested([Leaf(2), Nested([Leaf(3)])])];
    FlattenIsLeaves(xs);
    var inner := [Leaf(2), Nested([Leaf(3)])];
    assert Leaves([Leaf(3)]) == [3];
    assert Leaves(inner[1..]) == [3];
    assert Leaves(inner) == [2, 3];
    assert Leaves(xs[1..]) == [2, 3];
    assert Leaves(xs) == [1, 2, 3];
  }

  // ---------------------------------------------------------------------
  // type_count and index_of

  /** `type_count<TupleT, T>`: a transform whose callback bumps a counter
      on every element of type `t` and is `void` otherwise; the count is
      how many elements have that type. */
  function TypeCount<T(==)>(xs: seq<T>, t: T): (n: nat)
    requires xs != []
    ensures n == multiset(xs)[t]
  {
    var bumps := Transform(xs, (i: nat, x: T) => if x == t then Some(()) else None);
    SomesCount(xs, t, 0);
    |bumps|
  }

  /** One bump per element of type `t` from `index` on. */
  lemma {:induction false} SomesCount<T>(xs: seq<T>, t: T, index: nat)
    requires index <= |xs|
    ensures |Somes(Results(xs, (i: nat, x: T) => if x == t then Some(()) else None, index))| ==
            multiset(xs[index..])[t]
    decreases |xs| - index
  {
    var f := (i: nat, x: T) => if x == t then Some(()) else None;
    var os := Results(xs, f, index);
    if index < |xs| {
      assert os[0] == f(index, xs[index]);
      assert os[1..] == Results(xs, f, index + 1);
      SomesCount(xs, t, index + 1);
      assert xs[index..] == [xs[index]] + xs[index + 1..];
    } else {
      assert xs[index..] == [];
    }
  }

  /** `index_of<TupleT, T>`: a foreach whose counter is the element's index
      and whose callback returns it on the first element of type `t`; no
      such element leaves it `void`. */
  function IndexOf<T(==)>(xs: seq<T>, t: T): (r: Option<nat>)
    requires xs != []
    ensures r.Some? ==> r.value < |xs| && xs[r.value] == t && t !in xs[..r.value]
    ensures r.None? <==> t !in xs
  {
    var v := Foreach(xs, (i: nat, x: T) => if x == t then Some(i) else None);
    assert v.result.Some? ==> xs[..v.visited - 1] == xs[..v.result.value];
    v.result
  }
}
