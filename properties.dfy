/** Object properties: a descriptor per declared property, and a typed value
    cell with an access rule and weakly held change listeners. */
module Properties {

  datatype Access = ReadWrite | ReadOnly
  datatype Kind = Normal | Static

  /** `XMetaPropertyBase`: what a class declares about one of its
      properties. The type is identified by its compile-time type name. */
  datatype MetaProperty = MetaProperty(name: string, typeName: string, access: Access, kind: Kind)

  /** The descriptor constructor, with its default access and kind. */
  function MakeMetaProperty(name: string, typeName: string, access: Access := ReadWrite, kind: Kind := Normal): (m: MetaProperty)
    ensures m.name == name && m.typeName == typeName && m.access == access && m.kind == kind
  {
    MetaProperty(name, typeName, access, kind)
  }

  /** A registered listener. The caller keeps it alive through the returned
      guard; the property itself holds it only weakly. `received` is the
      sequence of values it has been notified with. */
  class Listener<T> {
    var alive: bool
    var received: seq<T>

    constructor(first: T)
      ensures alive && received == [first]
    {
      alive := true;
      received := [first];
    }

    /** The last guard is dropped: the listener is destroyed. */
    method Release()
      modifies this
      ensures !alive && received == old(received)
    {
      alive := false;
    }
  }

  predicate Distinct<T>(s: seq<Listener<T>>)
  {
    forall i, j :: 0 <= i < j < |s| ==> s[i] != s[j]
  }

  /** `property<T, access>`: the value, the access rule fixed by the type, and
      the weak listener list. */
  class Property<T(==)> {
    const typeName: string
    const access: Access
    var value: T
    var listeners: seq<Listener<T>>

    predicate Valid()
      reads this
    {
      Distinct(listeners)
    }

    /** `property(const T& v)`: stores `v`, no listeners yet. */
    constructor(typeName: string, access: Access, v: T)
      ensures this.typeName == typeName && this.access == access
      ensures value == v && listeners == [] && Valid()
    {
      this.typeName := typeName;
      this.access := access;
      value := v;
      listeners := [];
    }

    /** `is<U>()`: the property's type is `U`. */
    function Is(u: string): (r: bool)
      ensures r <==> u == typeName
    {
      u == typeName
    }

    /** `==` and `!=` compare the stored value. */
    function Equals(other: T): (r: bool)
      reads this
      ensures r <==> value == other
    {
      value == other
    }

    /** Every listener still alive receives the current value, once. */
    method Notify()
      requires Valid()
      modifies listeners
      ensures forall i :: 0 <= i < |listeners| ==> listeners[i].alive == old(listeners[i].alive)
      ensures forall i :: 0 <= i < |listeners| ==>
        listeners[i].received == old(listeners[i].received) + (if listeners[i].alive then [value] else [])
    {
      var i := 0;
      while i < |listeners|
        invariant 0 <= i <= |listeners|
        invariant forall j :: 0 <= j < |listeners| ==> listeners[j].alive == old(listeners[j].alive)
        invariant forall j :: 0 <= j < i ==>
          listeners[j].received == old(listeners[j].received) + (if listeners[j].alive then [value] else [])
        invariant forall j :: i <= j < |listeners| ==> listeners[j].received == old(listeners[j].received)
      {
        var l := listeners[i];
        if l.alive {
          l.received := l.received + [value];
        }
        i := i + 1;
      }
    }

    /** Typed assignment, available on read-write properties only: stores the
        value and notifies, even when the value did not change. */
    method Assign(x: T)
      requires Valid() && access == ReadWrite
      modifies this, listeners
      ensures value == x && listeners == old(listeners) && Valid()
      ensures forall i :: 0 <= i < |listeners| ==> listeners[i].alive == old(listeners[i].alive)
      ensures forall i :: 0 <= i < |listeners| ==>
        listeners[i].received == old(listeners[i].received) + (if listeners[i].alive then [x] else [])
    {
      value := x;
      Notify();
    }

    /** Assignment from a variant (already converted to `T`), checked at run
        time: a read-only property rejects it with `IllegalAccess` and keeps
        its value; otherwise it behaves as `Assign`. */
    method AssignVariant(x: T) returns (ok: bool)
      requires Valid()
      modifies this, listeners
      ensures ok <==> access == ReadWrite
      ensures value == (if ok then x else old(value))
      ensures listeners == old(listeners) && Valid()
      ensures forall i :: 0 <= i < |listeners| ==> listeners[i].alive == old(listeners[i].alive)
      ensures forall i :: 0 <= i < |listeners| ==>
        listeners[i].received == old(listeners[i].received) + (if ok && listeners[i].alive then [x] else [])
    {
      if access == ReadOnly {
        ok := false;
      } else {
        Assign(x);
        ok := true;
      }
    }

    /** `listen(watcher)`: a new listener is notified once with the current
        value and registered; the caller receives its guard. */
    method Listen() returns (l: Listener<T>)
      requires Valid()
      modifies this
      ensures fresh(l) && l.alive && l.received == [value]
      ensures value == old(value) && listeners == old(listeners) + [l] && Valid()
    {
      l := new Listener(value);
      listeners := listeners + [l];
    }
  }

  /** The notification counts of a listener on an int property that is
      assigned 2, 55 and 42 after registration, and of a second listener whose
      guard is dropped before the property is assigned again. */
  method ListenScenario() returns (counts: seq<nat>, afterRelease: nat)
    ensures counts == [1, 2, 3, 4]
    ensures afterRelease == 1
  {
    counts := ListenCounts();
    afterRelease := ReleasedCount();
  }

  /** A listener on an int property assigned 2, 55 and 42 after registration
      has been notified 1, 2, 3 and 4 times. */
  method ListenCounts() returns (counts: seq<nat>)
    ensures counts == [1, 2, 3, 4]
  {
    var p := new Property<int>("int", ReadWrite, 2);
    var l := p.Listen();
    assert p.listeners == [l];
    counts := [|l.received|];
    p.Assign(2);
    assert p.listeners[0] == l && l.alive && |l.received| == 2;
    counts := counts + [|l.received|];
    p.Assign(55);
    counts := counts + [|l.received|];
    p.Assign(42);
    counts := counts + [|l.received|];
  }

  /** A listener whose guard is dropped hears nothing more. */
  method ReleasedCount() returns (afterRelease: nat)
    ensures afterRelease == 1
  {
    var q := new Property<int>("int", ReadWrite, 2);
    var g := q.Listen();
    assert q.listeners == [g];
    g.Release();
    q.Assign(2);
    afterRelease := |g.received|;
  }

  /** A read-only property rejects a variant assignment and keeps 2. */
  method ReadOnlyScenario() returns (accepted: bool, kept: int)
    ensures !accepted && kept == 2
  {
    var p := new Property<int>("int", ReadOnly, 2);
    accepted := p.AssignVariant(3);
    kept := p.value;
  }
}
