/** `xvar`: the tagged union of a scalar value, a list, a dict, a function and
    a shared object pointer, with structural equality, type names and the
    dotted-key `operator[]`. */
module Variants {
  import opened Wrappers
  import opened Values
  import Tools

  /** Exactly one of the five alternatives. Lists and dicts hold their
      elements by value, so a copy of a variant is independent of the
      original. Functions and shared objects are handles: `fn` names a
      callable and `obj` the address of the pointed-to object, so two
      variants holding the same `obj` alias one object. */
  datatype Variant =
    | Val(v: Value)
    | List(items: seq<Variant>)
    | Dict(entries: map<Value, Variant>)
    | Function(fn: nat)
    | Object(obj: nat)

  /** What a failed access throws: `std::out_of_range` for a missing key,
      `std::bad_variant_access` for an alternative that is not a dict. */
  datatype AccessError = OutOfRange | BadAccess

  const NoneVar: Variant := Val(Value.None)

  /** `Variant::empty`: the variant holds no value at all. An empty dict or
      list is not empty in this sense. */
  predicate Empty(v: Variant)
  {
    v == NoneVar
  }

  /** `Variant::operator==`: the same alternative with equal contents, element
      by element for lists and key by key for dicts; handles compare by
      identity. A none anywhere makes the comparison fail. */
  function Equal(a: Variant, b: Variant): bool
  {
    match (a, b)
    case (Val(x), Val(y)) => Values.Equal(x, y)
    case (List(xs), List(ys)) =>
      |xs| == |ys| && forall i :: 0 <= i < |xs| ==> Equal(xs[i], ys[i])
    case (Dict(d), Dict(e)) =>
      d.Keys == e.Keys && forall k :: k in d ==> Equal(d[k], e[k])
    case (Function(f), Function(g)) => f == g
    case (Object(p), Object(q)) => p == q
    case _ => false
  }

  /** No none value occurs anywhere inside the variant. */
  predicate NoNone(v: Variant)
  {
    match v
    case Val(x) => !x.None?
    case List(xs) => forall i :: 0 <= i < |xs| ==> NoNone(xs[i])
    case Dict(d) => forall k :: k in d ==> NoNone(d[k])
    case _ => true
  }

  /** Equality is structural identity, except that nothing holding a none is
      equal to anything. */
  lemma {:induction false} EqualIsIdentity(a: Variant, b: Variant)
    ensures Equal(a, b) <==> a == b && NoNone(a)
  {
    match (a, b)
    case (List(xs), List(ys)) =>
      forall i | 0 <= i < |xs| && i < |ys| {
        EqualIsIdentity(xs[i], ys[i]);
      }
      if Equal(a, b) {
        assert xs == ys;
      }
    case (Dict(d), Dict(e)) =>
      forall k | k in d && k in e {
        EqualIsIdentity(d[k], e[k]);
      }
      if Equal(a, b) {
        assert d == e;
      }
    case _ =>
  }

  /** Equality is symmetric. */
  lemma EqualSymmetric(a: Variant, b: Variant)
    ensures Equal(a, b) <==> Equal(b, a)
  {
    EqualIsIdentity(a, b);
    EqualIsIdentity(b, a);
  }

  /** Two dicts that differ in one value compare unequal, whatever the rest. */
  lemma DictsDifferingInOneValue(d: map<Value, Variant>, k: Value, x: Variant, y: Variant)
    requires x != y
    ensures !Equal(Dict(d[k := x]), Dict(d[k := y]))
  {
    EqualIsIdentity(Dict(d[k := x]), Dict(d[k := y]));
    assert d[k := x][k] != d[k := y][k];
  }

  /** `Variant::typeName` with `inner = true`: the scalar's own name, or the
      container's name. Objects report their class, which is not part of this
      model. */
  function TypeName(v: Variant): (r: string)
    requires !v.Object?
    ensures v.Val? ==> r == Values.TypeName(v.v)
    ensures !v.Val? ==> r in ["xlist", "xdict", "xfn"]
  {
    match v
    case Val(x) => Values.TypeName(x)
    case List(_) => "xlist"
    case Dict(_) => "xdict"
    case Function(_) => "xfn"
  }

  /** The type name tells the alternatives apart. */
  lemma TypeNameIdentifiesKind(a: Variant, b: Variant)
    requires !a.Object? && !b.Object?
    ensures TypeName(a) == TypeName(b) <==>
      (if a.Val? && b.Val? then Rank(a.v) == Rank(b.v)
       else a.List? == b.List? && a.Dict? == b.Dict? && a.Function? == b.Function? && a.Val? == b.Val?)
  {
    if a.Val? && b.Val? {
      Values.TypeNameIdentifiesKind(a.v, b.v);
    }
  }

  // ---------------------------------------------------------------------
  // dotted keys

  function StrValues(names: seq<string>): (r: seq<Value>)
    ensures |r| == |names|
    ensures forall i :: 0 <= i < |r| ==> r[i] == Str(names[i])
  {
    if names == [] then [] else [Str(names[0])] + StrValues(names[1..])
  }

  /** The chain of keys an `operator[]` index stands for: a string index is cut
      at every '.', any other index is a single key. */
  function KeyPath(key: Value): (p: seq<Value>)
    ensures |p| >= 1
  {
    if key.Str? then StrValues(Tools.Pieces(key.s, '.')) else [key]
  }

  /** A string without dots is a single key. */
  lemma PlainKeyPath(name: string)
    requires '.' !in name
    ensures KeyPath(Str(name)) == [Str(name)]
  {
    Tools.PiecesOfPlain(name, '.');
  }

  /** `"a.b"` stands for the key `a` followed by the key `b`. */
  lemma DottedKeyPath(a: string, b: string)
    requires '.' !in a && '.' !in b
    ensures KeyPath(Str(a + "." + b)) == [Str(a), Str(b)]
  {
    Tools.PiecesOfPlain(b, '.');
    Tools.PiecesOfPlainThenSep(a, b, '.');
    assert a + "." + b == a + ['.'] + b;
  }

  /** The read side of `operator[]` (and `Dict::dotAt`): descend along the
      keys, through dicts by key and through lists by int position. Only the
      declaration of `operator[]` is part of this model; its behaviour is
      modelled from its uses. */
  function Get(v: Variant, path: seq<Value>): Result<Variant, AccessError>
    decreases |path|
  {
    if path == [] then Ok(v)
    else if v.List? && path[0].Int? then
      if 0 <= path[0].i < |v.items| then Get(v.items[path[0].i], path[1..]) else Err(OutOfRange)
    else if !v.Dict? then Err(BadAccess)
    else if path[0] !in v.entries then Err(OutOfRange)
    else Get(v.entries[path[0]], path[1..])
  }

  /** The write side of `operator[]`: descend along the keys, turning a none
      (or a missing entry) into an empty dict on the way, and store `x` at the
      end. Any other alternative on the way cannot be indexed by key. Like
      `Get`, modelled from the uses of `operator[]`. */
  function Put(v: Variant, path: seq<Value>, x: Variant): Result<Variant, AccessError>
    decreases |path|
  {
    if path == [] then Ok(x)
    else if !(v.Dict? || v == NoneVar) then Err(BadAccess)
    else
      var d := if v.Dict? then v.entries else map[];
      var child := if path[0] in d then d[path[0]] else NoneVar;
      match Put(child, path[1..], x)
      case Ok(c) => Ok(Dict(d[path[0] := c]))
      case Err(e) => Err(e)
  }

  /** Reading along a path in two steps is reading along the joined path: this
      is why `v["a.b"]` and `v["a"]["b"]` agree. */
  lemma {:induction false} GetConcat(v: Variant, p: seq<Value>, q: seq<Value>)
    ensures Get(v, p + q) == (match Get(v, p) case Ok(u) => Get(u, q) case Err(e) => Err(e))
    decreases |p|
  {
    if p != [] {
      assert (p + q)[0] == p[0];
      assert (p + q)[1..] == p[1..] + q;
      if v.Dict? && p[0] in v.entries {
        GetConcat(v.entries[p[0]], p[1..], q);
      }
      if v.List? && p[0].Int? && 0 <= p[0].i < |v.items| {
        GetConcat(v.items[p[0].i], p[1..], q);
      }
    } else {
      assert p + q == q;
    }
  }

  /** A write is read back from the same path. */
  lemma {:induction false} PutThenGet(v: Variant, path: seq<Value>, x: Variant)
    requires Put(v, path, x).Ok?
    ensures Get(Put(v, path, x).value, path) == Ok(x)
    decreases |path|
  {
    if path != [] {
      var d := if v.Dict? then v.entries else map[];
      var child := if path[0] in d then d[path[0]] else NoneVar;
      PutThenGet(child, path[1..], x);
      var c := Put(child, path[1..], x).value;
      assert Put(v, path, x).value == Dict(d[path[0] := c]);
      assert d[path[0] := c][path[0]] == c;
    }
  }

  /** A write through a dict or a none never fails when nothing but dicts,
      nones and missing entries lie along the path. */
  lemma {:induction false} PutOnFreshPath(v: Variant, path: seq<Value>, x: Variant)
    requires v.Dict? || v == NoneVar
    requires |path| >= 1 && (v.Dict? ==> path[0] !in v.entries)
    ensures Put(v, path, x).Ok?
    decreases |path|
  {
    if |path| > 1 {
      PutOnFreshPath(NoneVar, path[1..], x);
    }
  }

  /** A write leaves every other top-level entry as it was. */
  lemma PutKeepsOthers(v: Variant, path: seq<Value>, x: Variant)
    requires |path| >= 1 && Put(v, path, x).Ok?
    ensures Put(v, path, x).value.Dict?
    ensures v.Dict? ==> Put(v, path, x).value.entries.Keys == v.entries.Keys + {path[0]}
    ensures v.Dict? ==> forall k :: k in v.entries && k != path[0] ==>
      Put(v, path, x).value.entries[k] == v.entries[k]
    ensures v == NoneVar ==> Put(v, path, x).value.entries.Keys == {path[0]}
  {
  }

  // ---------------------------------------------------------------------
  // in-place operations

  /** A variant variable: assignment, move, dotted `operator[]` writes and
      `update` change the held alternative in place. */
  class XVar {
    var value: Variant

    constructor(v: Variant)
      ensures value == v
    {
      value := v;
    }

    /** Copy assignment: this takes the other's contents, which stay as they
        were. */
    method CopyFrom(other: XVar)
      modifies this
      ensures value == other.value
      ensures other != this ==> other.value == old(other.value)
    {
      value := other.value;
    }

    /** Move assignment: this takes the other's contents and the other is left
        holding none. */
    method MoveFrom(other: XVar)
      requires other != this
      modifies this, other
      ensures value == old(other.value)
      ensures other.value == NoneVar
    {
      value := other.value;
      other.value := NoneVar;
    }

    /** `v[key] = x`. A dotted string key writes into nested dicts, creating
        them where missing. `ok` is false (and nothing changes) when the path
        crosses an alternative that is not a dict. */
    method SetAt(key: Value, x: Variant) returns (ok: bool)
      modifies this
      ensures ok <==> Put(old(value), KeyPath(key), x).Ok?
      ensures ok ==> value == Put(old(value), KeyPath(key), x).value
      ensures ok ==> Get(value, KeyPath(key)) == Ok(x)
      ensures !ok ==> value == old(value)
    {
      var r := Put(value, KeyPath(key), x);
      if r.Ok? {
        PutThenGet(value, KeyPath(key), x);
        value := r.value;
        ok := true;
      } else {
        ok := false;
      }
    }

    /** `update(dict)`: every entry of `other` is stored, replacing an entry
        under the same key; entries under other keys stay. */
    method Update(other: map<Value, Variant>) returns (ok: bool)
      modifies this
      ensures ok <==> old(value).Dict?
      ensures ok ==> value.Dict? && value.entries.Keys == old(value).entries.Keys + other.Keys
      ensures ok ==> forall k :: k in other ==> value.entries[k] == other[k]
      ensures ok ==> forall k :: k in old(value).entries && k !in other ==>
        value.entries[k] == old(value).entries[k]
      ensures !ok ==> value == old(value)
    {
      if value.Dict? {
        value := Dict(value.entries + other);
        ok := true;
      } else {
        ok := false;
      }
    }
  }
}
