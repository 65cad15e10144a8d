/** `XClass`: the process-wide registry of reflected classes, a vector of
    (weak static-class pointer, factory) pairs searched front to back. The
    registry is one object; its operations are its methods. */
module Registry {
  import opened Wrappers
  import opened Objects

  /** A factory function pointer, identified by a number. */
  type Factory = nat

  /** `ClassData`: the weak pointer (null once it no longer refers to a
      class, as after it has been moved from) and the factory. */
  datatype ClassData = ClassData(staticClass: StaticClass?, create: Factory)

  /** `ClassData == name`: the referenced class carries that name. Locking an
      empty weak pointer would dereference null, hence the precondition. */
  predicate NamedAs(d: ClassData, name: string)
    requires d.staticClass != null
  {
    d.staticClass.name == name
  }

  /** `ClassData == clazz`: the entry refers to that very descriptor. */
  predicate RefersTo(d: ClassData, clazz: StaticClass)
  {
    d.staticClass == clazz
  }

  predicate AllAlive(s: seq<ClassData>)
  {
    forall i :: 0 <= i < |s| ==> s[i].staticClass != null
  }

  /** The position of the first entry with that name. */
  function FirstNamed(s: seq<ClassData>, name: string): (r: Option<nat>)
    requires AllAlive(s)
    ensures r.Some? ==> r.value < |s| && NamedAs(s[r.value], name)
    ensures r.Some? ==> forall j :: 0 <= j < r.value ==> !NamedAs(s[j], name)
    ensures r.None? ==> forall j :: 0 <= j < |s| ==> !NamedAs(s[j], name)
  {
    if s == [] then None
    else if NamedAs(s[0], name) then Some(0)
    else match FirstNamed(s[1..], name)
      case None => None
      case Some(k) => Some(k + 1)
  }

  /** How many entries refer to `clazz`. */
  function CountOf(s: seq<ClassData>, clazz: StaticClass): (n: nat)
    ensures n <= |s|
  {
    if s == [] then 0 else (if RefersTo(s[0], clazz) then 1 else 0) + CountOf(s[1..], clazz)
  }

  /** The entries that do not refer to `clazz`, in order. */
  function Without(s: seq<ClassData>, clazz: StaticClass): (r: seq<ClassData>)
    ensures |r| == |s| - CountOf(s, clazz)
    ensures forall i :: 0 <= i < |r| ==> !RefersTo(r[i], clazz)
  {
    if s == [] then []
    else (if RefersTo(s[0], clazz) then [] else [s[0]]) + Without(s[1..], clazz)
  }

  lemma {:induction false} WithoutSnoc(s: seq<ClassData>, x: ClassData, clazz: StaticClass)
    ensures Without(s + [x], clazz) == Without(s, clazz) + (if RefersTo(x, clazz) then [] else [x])
    ensures CountOf(s + [x], clazz) == CountOf(s, clazz) + (if RefersTo(x, clazz) then 1 else 0)
  {
    if s == [] {
      assert s + [x] == [x];
    } else {
      assert (s + [x])[1..] == s[1..] + [x];
      WithoutSnoc(s[1..], x, clazz);
    }
  }

  /** Position of the first entry referring to `clazz`. */
  function FirstOf(s: seq<ClassData>, clazz: StaticClass): (k: nat)
    requires CountOf(s, clazz) >= 1
    ensures k < |s| && RefersTo(s[k], clazz)
    ensures forall j :: 0 <= j < k ==> !RefersTo(s[j], clazz)
  {
    if RefersTo(s[0], clazz) then 0 else FirstOf(s[1..], clazz) + 1
  }

  /** What `remove_if` leaves at position `p` at or after its returned
      position: an element that was moved forward is left with an empty
      weak pointer; any other keeps its value. */
  function LeftBehind(s: seq<ClassData>, clazz: StaticClass, first: nat, p: nat): ClassData
    requires p < |s|
  {
    if p > first && !RefersTo(s[p], clazz) then ClassData(null, s[p].create) else s[p]
  }

  /** The registry after `erase(remove_if(begin, end, refers to clazz))`: the
      other entries in order, then everything `remove_if` left behind except
      the single element the one-iterator `erase` removes. */
  function AfterUnRegister(s: seq<ClassData>, clazz: StaticClass): (r: seq<ClassData>)
    requires CountOf(s, clazz) >= 1
    ensures |r| == |s| - 1
  {
    var kept := Without(s, clazz);
    var first := FirstOf(s, clazz);
    kept + seq(|s| - |kept| - 1, i requires 0 <= i < |s| - |kept| - 1 => LeftBehind(s, clazz, first, |kept| + 1 + i))
  }

  /** With exactly one registration, unregistering removes it and keeps the
      other entries in order. */
  lemma {:induction false} UnRegisterSingle(s: seq<ClassData>, clazz: StaticClass)
    requires CountOf(s, clazz) == 1
    ensures AfterUnRegister(s, clazz) == Without(s, clazz)
  {
  }

  /** A class registered twice is still registered once after one
      `UnRegister`. */
  lemma UnRegisterTwiceLeavesOne(clazz: StaticClass, f: Factory, g: Factory)
    ensures CountOf(AfterUnRegister([ClassData(clazz, f), ClassData(clazz, g)], clazz), clazz) == 1
  {
    var s := [ClassData(clazz, f), ClassData(clazz, g)];
    assert s[1..][1..] == [];
    assert Without(s, clazz) == [];
    assert FirstOf(s, clazz) == 0;
    var r := AfterUnRegister(s, clazz);
    assert LeftBehind(s, clazz, 0, 1) == ClassData(clazz, g);
    assert r == [ClassData(clazz, g)];
    assert r[1..] == [];
  }

  /** The evidently intended unregistration: every entry referring to the
      class goes. */
  function UnRegisteredAll(s: seq<ClassData>, clazz: StaticClass): (r: seq<ClassData>)
    ensures CountOf(r, clazz) == 0
    ensures |r| == |s| - CountOf(s, clazz)
  {
    var r := Without(s, clazz);
    NoneLeft(r, clazz);
    r
  }

  lemma {:induction false} NoneLeft(s: seq<ClassData>, clazz: StaticClass)
    requires forall i :: 0 <= i < |s| ==> !RefersTo(s[i], clazz)
    ensures CountOf(s, clazz) == 0
  {
    if s != [] {
      NoneLeft(s[1..], clazz);
    }
  }

  /** The state of the `remove_if` loop after reading `s[..rd]`: the kept
      entries are at the front, then what the moves left behind, then the
      unread rest. */
  predicate RemoveIfInv(s: seq<ClassData>, clazz: StaticClass, first: nat, a: seq<ClassData>, w: nat, rd: nat)
  {
    && first <= w < rd <= |s| == |a|
    && a[..w] == Without(s[..rd], clazz)
    && a[rd..] == s[rd..]
    && forall p :: w <= p < rd ==> a[p] == LeftBehind(s, clazz, first, p)
  }

  /** Before the loop: everything before the first entry that refers to
      the class stays in place, and that entry is the first left behind. */
  lemma RemoveIfStart(s: seq<ClassData>, clazz: StaticClass, first: nat)
    requires CountOf(s, clazz) >= 1 && first == FirstOf(s, clazz)
    ensures RemoveIfInv(s, clazz, first, s, first, first + 1)
  {
    assert s[..first + 1] == s[..first] + [s[first]];
    WithoutSnoc(s[..first], s[first], clazz);
    WithoutPrefix(s, clazz, first);
  }

  lemma RemoveIfEnd(s: seq<ClassData>, clazz: StaticClass, first: nat, a: seq<ClassData>, w: nat)
    requires RemoveIfInv(s, clazz, first, a, w, |s|)
    ensures first <= w < |s| == |a|
    ensures a[..w] == Without(s, clazz)
    ensures forall p :: w <= p < |s| ==> a[p] == LeftBehind(s, clazz, first, p)
  {
    assert s[..|s|] == s;
  }

  /** A step over an entry that refers to the class moves nothing. */
  lemma RemoveIfSkip(s: seq<ClassData>, clazz: StaticClass, first: nat, a: seq<ClassData>, w: nat, rd: nat)
    requires RemoveIfInv(s, clazz, first, a, w, rd) && rd < |s| && RefersTo(s[rd], clazz)
    ensures RemoveIfInv(s, clazz, first, a, w, rd + 1)
  {
    assert s[..rd + 1] == s[..rd] + [s[rd]];
    WithoutSnoc(s[..rd], s[rd], clazz);
    assert a[rd + 1..] == a[rd..][1..];
    assert LeftBehind(s, clazz, first, rd) == s[rd] == a[rd];
  }

  /** A step over another entry moves it to `w` and leaves a moved-from
      copy at `rd`. */
  lemma RemoveIfKeep(s: seq<ClassData>, clazz: StaticClass, first: nat, a: seq<ClassData>, w: nat, rd: nat)
    requires RemoveIfInv(s, clazz, first, a, w, rd) && rd < |s| && !RefersTo(s[rd], clazz)
    ensures RemoveIfInv(s, clazz, first, a[w := s[rd]][rd := ClassData(null, s[rd].create)], w + 1, rd + 1)
  {
    assert s[..rd + 1] == s[..rd] + [s[rd]];
    WithoutSnoc(s[..rd], s[rd], clazz);
    var a' := a[w := s[rd]][rd := ClassData(null, s[rd].create)];
    assert a'[..w + 1] == a[..w] + [s[rd]];
    assert a'[rd + 1..] == a[rd + 1..] == a[rd..][1..];
    forall p | w + 1 <= p < rd + 1
      ensures a'[p] == LeftBehind(s, clazz, first, p)
    {
      if p == rd {
        assert a'[p] == ClassData(null, s[rd].create);
      } else {
        assert a'[p] == a[p];
      }
    }
  }

  /** The state the `remove_if` loop ends in, followed by the one-element
      `erase`, is the specified one. */
  lemma UnRegisterDone(s: seq<ClassData>, clazz: StaticClass, first: nat, a: seq<ClassData>, w: nat)
    requires CountOf(s, clazz) >= 1 && first == FirstOf(s, clazz)
    requires first <= w < |s| == |a|
    requires a[..w] == Without(s, clazz)
    requires forall p :: w <= p < |s| ==> a[p] == LeftBehind(s, clazz, first, p)
    ensures a[..w] + a[w + 1..] == AfterUnRegister(s, clazz)
    ensures (a[..w] + a[w + 1..])[..|s| - CountOf(s, clazz)] == Without(s, clazz)
  {
    var r := AfterUnRegister(s, clazz);
    var t := a[..w] + a[w + 1..];
    assert |t| == |r|;
    forall i | 0 <= i < |t|
      ensures t[i] == r[i]
    {
      if i >= w {
        assert t[i] == a[i + 1];
      }
    }
  }

  /** The registry. */
  class XClass {
    var classes: seq<ClassData>

    constructor()
      ensures classes == []
    {
      classes := [];
    }

    /** `Register`: appends, duplicates included. */
    method Register(clazz: StaticClass, create: Factory)
      modifies this
      ensures classes == old(classes) + [ClassData(clazz, create)]
    {
      classes := classes + [ClassData(clazz, create)];
    }

    /** `UnRegister`: `remove_if` moves the entries that do not refer to the
        class forward, then one `erase` removes the element at the position it
        returned. Undefined when the class is not registered. */
    method UnRegister(clazz: StaticClass)
      requires CountOf(classes, clazz) >= 1
      modifies this
      ensures classes == AfterUnRegister(old(classes), clazz)
      ensures classes[..|old(classes)| - CountOf(old(classes), clazz)] == Without(old(classes), clazz)
    {
      var s := classes;
      var first := 0;
      while !RefersTo(s[first], clazz)
        invariant 0 <= first <= FirstOf(s, clazz)
        decreases FirstOf(s, clazz) - first
      {
        first := first + 1;
      }
      var a, w := RemoveIf(s, clazz, first);
      UnRegisterDone(s, clazz, first, a, w);
      classes := a[..w] + a[w + 1..];
    }

    /** `std::remove_if` from the first entry that refers to `clazz`: the
        other entries move forward in order, each leaving a moved-from copy
        behind, and the returned position `w` follows the last kept one. */
    static method RemoveIf(s: seq<ClassData>, clazz: StaticClass, first: nat) returns (a: seq<ClassData>, w: nat)
      requires CountOf(s, clazz) >= 1 && first == FirstOf(s, clazz)
      ensures first <= w < |s| == |a|
      ensures a[..w] == Without(s, clazz)
      ensures forall p :: w <= p < |s| ==> a[p] == LeftBehind(s, clazz, first, p)
    {
      a := s;
      w := first;
      var rd := first + 1;
      RemoveIfStart(s, clazz, first);
      while rd < |s|
        invariant RemoveIfInv(s, clazz, first, a, w, rd)
      {
        if RefersTo(s[rd], clazz) {
          RemoveIfSkip(s, clazz, first, a, w, rd);
        } else {
          RemoveIfKeep(s, clazz, first, a, w, rd);
          a := a[w := s[rd]][rd := ClassData(null, s[rd].create)];
          w := w + 1;
        }
        rd := rd + 1;
      }
      RemoveIfEnd(s, clazz, first, a, w);
    }

    /** `Create(name)`: the factory of the first entry with that name, or
        `out_of_range` "class <name> not found". */
    method Create(name: string) returns (r: Result<Factory, string>)
      requires AllAlive(classes)
      ensures FirstNamed(classes, name).Some? ==> r == Ok(classes[FirstNamed(classes, name).value].create)
      ensures FirstNamed(classes, name).None? ==> r == Err("class " + name + " not found")
    {
      var i := Find(name);
      if i < |classes| {
        r := Ok(classes[i].create);
      } else {
        r := Err("class " + name + " not found");
      }
    }

    /** `Create<ObjectT>(name)`: the object `Create(name)` makes, cast with
        `dynamic_pointer_cast` to `ObjectT`. The cast gives null (`None`)
        when the object's class does not derive from `ObjectT`; `isTarget`
        tells, for each factory, whether what it makes does. */
    method CreateAs(name: string, isTarget: Factory -> bool) returns (r: Result<Option<Factory>, string>)
      requires AllAlive(classes)
      ensures FirstNamed(classes, name).None? ==> r == Err("class " + name + " not found")
      ensures FirstNamed(classes, name).Some? ==>
                var f := classes[FirstNamed(classes, name).value].create;
                r == Ok(if isTarget(f) then Some(f) else None)
      ensures r.Ok? && r.value.Some? ==> isTarget(r.value.value)
    {
      var made := Create(name);
      match made
      case Err(e) =>
        r := Err(e);
      case Ok(f) =>
        r := Ok(if isTarget(f) then Some(f) else None);
    }

    /** `Class(name)`: the static class of the first entry with that name, or
        `out_of_range`. */
    method Class(name: string) returns (r: Result<StaticClass?, string>)
      requires AllAlive(classes)
      ensures FirstNamed(classes, name).Some? ==> r == Ok(classes[FirstNamed(classes, name).value].staticClass)
      ensures FirstNamed(classes, name).None? ==> r == Err("class " + name + " not found")
    {
      var i := Find(name);
      if i < |classes| {
        r := Ok(classes[i].staticClass);
      } else {
        r := Err("class " + name + " not found");
      }
    }

    /** The loop `Create` and `Class` share: the first position with that
        name, or the length when there is none. */
    method Find(name: string) returns (i: nat)
      requires AllAlive(classes)
      ensures FirstNamed(classes, name).Some? ==> i == FirstNamed(classes, name).value
      ensures FirstNamed(classes, name).None? ==> i == |classes|
    {
      i := 0;
      while i < |classes| && !NamedAs(classes[i], name)
        invariant i <= |classes|
        invariant forall j :: 0 <= j < i ==> !NamedAs(classes[j], name)
      {
        i := i + 1;
      }
    }

    /** `Classes()`: the static classes in registration order. */
    method Classes() returns (out: seq<StaticClass?>)
      ensures |out| == |classes|
      ensures forall i :: 0 <= i < |out| ==> out[i] == classes[i].staticClass
    {
      out := [];
      for i := 0 to |classes|
        invariant |out| == i
        invariant forall j :: 0 <= j < i ==> out[j] == classes[j].staticClass
      {
        out := out + [classes[i].staticClass];
      }
    }
  }

  lemma {:induction false} WithoutPrefix(s: seq<ClassData>, clazz: StaticClass, k: nat)
    requires k <= |s|
    requires forall j :: 0 <= j < k ==> !RefersTo(s[j], clazz)
    ensures Without(s[..k], clazz) == s[..k]
  {
    if k > 0 {
      WithoutPrefix(s, clazz, k - 1);
      assert s[..k] == s[..k - 1] + [s[k - 1]];
      WithoutSnoc(s[..k - 1], s[k - 1], clazz);
    }
  }

  /** `SubClassesOf<T>()` always fails with "not implemented". */
  function SubClassesOf(): (r: Result<seq<StaticClass>, string>)
    ensures r == Err("not implemented")
  {
    Err("not implemented")
  }
}
