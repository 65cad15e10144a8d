/** `xdict`: a `std::map` from values to variants. Keys are unique and
    iteration visits them in key order, whatever the insertion order. */
module Dicts {
  import opened Wrappers
  import opened Values
  import opened Variants
  import Tools

  // ---------------------------------------------------------------------
  // key order

  /** Every non-empty set of keys has a least element. */
  lemma {:induction false} MinExists(s: set<Value>)
    requires s != {}
    ensures exists m :: IsMinOf(m, s)
    decreases |s|
  {
    var x :| x in s;
    if s != {x} {
      MinExists(s - {x});
      var m :| IsMinOf(m, s - {x});
      if Less(x, m) {
        forall k | k in s && k != x
          ensures Less(x, k)
        {
          if k != m {
            LessIsStrictTotalOrder(x, m, k);
          }
        }
        assert IsMinOf(x, s);
      } else {
        LessIsStrictTotalOrder(m, x, m);
        assert IsMinOf(m, s);
      }
    } else {
      assert IsMinOf(x, s);
    }
  }

  predicate IsMinOf(m: Value, s: set<Value>)
  {
    m in s && forall k :: k in s && k != m ==> Less(m, k)
  }

  /** There is only one least element. */
  lemma MinUnique(s: set<Value>)
    ensures forall m1, m2 :: IsMinOf(m1, s) && IsMinOf(m2, s) ==> m1 == m2
  {
    forall m1, m2 | IsMinOf(m1, s) && IsMinOf(m2, s)
      ensures m1 == m2
    {
      LessIsStrictTotalOrder(m1, m2, m1);
    }
  }

  function MinKey(s: set<Value>): (m: Value)
    requires s != {}
    ensures m in s && forall k :: k in s && k != m ==> Less(m, k)
  {
    MinExists(s);
    MinUnique(s);
    var m :| IsMinOf(m, s);
    m
  }

  /** The order in which iterating a dict visits its keys. */
  function SortedKeys(s: set<Value>): (r: seq<Value>)
    ensures |r| == |s|
    ensures forall i :: 0 <= i < |r| ==> r[i] in s
    ensures forall k :: k in s ==> k in r
    ensures forall i, j :: 0 <= i < j < |r| ==> Less(r[i], r[j])
    decreases |s|
  {
    if s == {} then []
    else
      var m := MinKey(s);
      [m] + SortedKeys(s - {m})
  }

  /** Iteration visits each key once. */
  lemma SortedKeysDistinct(s: set<Value>)
    ensures forall i, j :: 0 <= i < j < |SortedKeys(s)| ==> SortedKeys(s)[i] != SortedKeys(s)[j]
  {
    var r := SortedKeys(s);
    forall i, j | 0 <= i < j < |r|
      ensures r[i] != r[j]
    {
      LessIsStrictTotalOrder(r[i], r[j], r[j]);
    }
  }

  /** The entries of a dict in iteration order. */
  function Items(d: map<Value, Variant>): (r: seq<(Value, Variant)>)
    ensures |r| == |d|
    ensures forall i :: 0 <= i < |r| ==> r[i].0 in d && r[i].1 == d[r[i].0]
    ensures forall i, j :: 0 <= i < j < |r| ==> Less(r[i].0, r[j].0)
  {
    var keys := SortedKeys(d.Keys);
    seq(|keys|, i requires 0 <= i < |keys| => (keys[i], d[keys[i]]))
  }

  // ---------------------------------------------------------------------
  // lookups

  /** `at(key, rest...)`: descend along the keys; a missing key is
      `std::out_of_range`. */
  function At(d: map<Value, Variant>, keys: seq<Value>): (r: Result<Variant, AccessError>)
    requires |keys| >= 1
    ensures keys[0] !in d ==> r == Err(OutOfRange)
    ensures |keys| == 1 && keys[0] in d ==> r == Ok(d[keys[0]])
  {
    assert |keys| == 1 && keys[0] in d ==> Get(Dict(d), keys) == Get(d[keys[0]], keys[1..]) && keys[1..] == [];
    Get(Dict(d), keys)
  }

  /** `dotAt("a.b.c")`: the key cut at every '.', then `at`. */
  function DotAt(d: map<Value, Variant>, key: string): Result<Variant, AccessError>
  {
    At(d, StrValues(Tools.Pieces(key, '.')))
  }

  /** A dotted key reads through the nested dict. */
  lemma DotAtDescends(d: map<Value, Variant>, a: string, b: string)
    requires '.' !in a && '.' !in b
    ensures DotAt(d, a + "." + b) ==
      (if Str(a) !in d then Err(OutOfRange)
       else if !d[Str(a)].Dict? then Err(BadAccess)
       else if Str(b) !in d[Str(a)].entries then Err(OutOfRange)
       else Ok(d[Str(a)].entries[Str(b)]))
  {
    DottedKeyPath(a, b);
    var path := [Str(a), Str(b)];
    assert StrValues(Tools.Pieces(a + "." + b, '.')) == KeyPath(Str(a + "." + b)) == path;
    assert DotAt(d, a + "." + b) == Get(Dict(d), path);
    assert path[1..] == [Str(b)] && path[1..][1..] == [];
    if Str(a) in d {
      assert Get(Dict(d), path) == Get(d[Str(a)], [Str(b)]);
    }
    if Str(a) in d && d[Str(a)].Dict? {
      var e := d[Str(a)].entries;
      assert Get(Dict(d), path) == Get(Dict(e), [Str(b)]);
      if Str(b) in e {
        assert Get(Dict(e), [Str(b)]) == Get(e[Str(b)], []);
      }
    }
  }

  /** A key without dots is an ordinary lookup. */
  lemma DotAtPlain(d: map<Value, Variant>, a: string)
    requires '.' !in a
    ensures DotAt(d, a) == (if Str(a) in d then Ok(d[Str(a)]) else Err(OutOfRange))
  {
    PlainKeyPath(a);
  }

  /** `contains(key)`. */
  function Contains(d: map<Value, Variant>, key: Value): (r: bool)
    ensures r <==> At(d, [key]).Ok?
  {
    assert [key][1..] == [];
    assert key in d ==> Get(Dict(d), [key]) == Get(d[key], []);
    key in d
  }

  /** `operator==` on dicts: the same keys with equal values. */
  function DictEqual(a: map<Value, Variant>, b: map<Value, Variant>): (r: bool)
    ensures r ==> a.Keys == b.Keys
    ensures r ==> forall k :: k in a ==> Variants.Equal(a[k], b[k])
    ensures a.Keys == b.Keys && (forall k :: k in a ==> Variants.Equal(a[k], b[k])) ==> r
  {
    Variants.Equal(Dict(a), Dict(b))
  }

  // ---------------------------------------------------------------------
  // in-place operations

  /** A dict whose `operator[]`, assignment and `update` change the map in
      place. */
  class XDict {
    var entries: map<Value, Variant>

    /** A new dict is empty. */
    constructor()
      ensures entries == map[]
    {
      entries := map[];
    }

    /** `size()`: the number of keys. */
    function Size(): (n: nat)
      reads this
      ensures n == |entries.Keys|
    {
      |entries|
    }

    /** Non-const `operator[]` used for reading: a missing key is inserted
        with a none value, which is what the read yields. */
    method Index(key: Value) returns (r: Variant)
      modifies this
      ensures key in entries && r == entries[key]
      ensures key in old(entries) ==> entries == old(entries)
      ensures key !in old(entries) ==> entries == old(entries)[key := NoneVar]
    {
      if key !in entries {
        entries := entries[key := NoneVar];
      }
      r := entries[key];
    }

    /** `d[key] = x`: adds or replaces the entry and leaves the others. */
    method Assign(key: Value, x: Variant)
      modifies this
      ensures entries.Keys == old(entries).Keys + {key}
      ensures entries[key] == x
      ensures forall k :: k in old(entries) && k != key ==> entries[k] == old(entries)[k]
    {
      entries := entries[key := x];
    }

    /** `update(other)`: stores every entry of `other`; entries under other
        keys stay. */
    method Update(other: map<Value, Variant>)
      modifies this
      ensures entries.Keys == old(entries).Keys + other.Keys
      ensures forall k :: k in other ==> entries[k] == other[k]
      ensures forall k :: k in old(entries) && k !in other ==> entries[k] == old(entries)[k]
    {
      entries := entries + other;
    }
  }

  /** Keys are values of their own kind: int 1 and string "1" are two keys. */
  lemma DistinctKinds(d: map<Value, Variant>, x: Variant, y: Variant)
    ensures var e := d[Int(1) := x][Str("1") := y];
      e[Int(1)] == x && e[Str("1")] == y && |e.Keys| >= 2
  {
    var e := d[Int(1) := x][Str("1") := y];
    assert {Int(1), Str("1")} <= e.Keys;
    assert |{Int(1), Str("1")}| == 2;
    SetCardinalityMono({Int(1), Str("1")}, e.Keys);
  }

  lemma SetCardinalityMono<T>(a: set<T>, b: set<T>)
    requires a <= b
    ensures |a| <= |b|
  {
    assert b == a + (b - a);
  }
}
