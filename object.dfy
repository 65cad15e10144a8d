/** Reflected objects: the per-class static descriptor with its instance
    counter, object naming, and events with weakly held connections. */
module Objects {
  import opened Decimal
  import opened Variants

  /** `XStaticClass`: a class name and the number of instances initialised
      so far. */
  class StaticClass {
    const name: string
    var instanceCount: nat

    /** A new descriptor has counted no instance. */
    constructor(name: string)
      ensures this.name == name && instanceCount == 0
    {
      this.name := name;
      instanceCount := 0;
    }

    /** Prefix `operator++`: counts one more instance and returns the new
        count. */
    method Increment() returns (n: nat)
      modifies this
      ensures instanceCount == old(instanceCount) + 1 && n == instanceCount
    {
      instanceCount := instanceCount + 1;
      n := instanceCount;
    }
  }

  /** The name `_init` gives the n-th instance of a class. */
  function ObjectName(className: string, n: nat): (r: string)
    ensures |r| == |className| + 1 + |NatToString(n)|
    ensures r[..|className| + 1] == className + "#"
    ensures r[|className| + 1..] == NatToString(n)
  {
    className + "#" + NatToString(n)
  }

  /** Different instance numbers give different names. */
  lemma ObjectNamesDistinct(className: string, n: nat, m: nat)
    requires n != m
    ensures ObjectName(className, n) != ObjectName(className, m)
  {
    if ObjectName(className, n) == ObjectName(className, m) {
      NatToStringRoundTrip(n);
      NatToStringRoundTrip(m);
    }
  }

  /** `XObjectBase` with the metadata that naming touches. */
  class XObject {
    const staticClass: StaticClass
    var objectName: string

    /** A freshly constructed object is called "undefined". */
    constructor(staticClass: StaticClass)
      ensures this.staticClass == staticClass && objectName == "undefined"
    {
      this.staticClass := staticClass;
      objectName := "undefined";
    }

    /** `_init`: counts the instance in its class exactly once and names the
        object after the class and the new count. */
    method Init() returns (n: nat)
      modifies this, staticClass
      ensures staticClass.instanceCount == old(staticClass.instanceCount) + 1
      ensures n == staticClass.instanceCount
      ensures objectName == ObjectName(staticClass.name, n)
    {
      n := staticClass.Increment();
      objectName := staticClass.name + "#" + NatToString(n);
    }

    /** `toString()` is the object name. */
    function ToString(): (r: string)
      reads this
      ensures r == objectName
    {
      objectName
    }
  }

  /** Two instances of one class, initialised one after the other, are
      numbered 1 and 2 and so named differently. */
  method TwoInstances(className: string) returns (first: string, second: string)
    ensures first == ObjectName(className, 1) && second == ObjectName(className, 2)
    ensures first != second
  {
    var c := new StaticClass(className);
    var a := new XObject(c);
    var b := new XObject(c);
    var n := a.Init();
    var m := b.Init();
    first := a.ToString();
    second := b.ToString();
    ObjectNamesDistinct(className, 1, 2);
  }

  // ---------------------------------------------------------------------
  // events

  /** A connection of a function to an event. Only the caller's pointer keeps
      it alive; `calls` holds the argument lists it has been invoked with. */
  class Connection {
    var alive: bool
    var calls: seq<seq<Variant>>

    constructor()
      ensures alive && calls == []
    {
      alive := true;
      calls := [];
    }

    /** The caller's last pointer to the connection goes away. */
    method Drop()
      modifies this
      ensures !alive && calls == old(calls)
    {
      alive := false;
    }
  }

  predicate DistinctConnections(s: seq<Connection>)
  {
    forall i, j :: 0 <= i < j < |s| ==> s[i] != s[j]
  }

  /** `Event`: a list of weak pointers to its connections. */
  class Event {
    var connections: seq<Connection>

    constructor()
      ensures connections == []
    {
      connections := [];
    }

    predicate Valid()
      reads this
    {
      DistinctConnections(connections)
    }

    /** `connect(fn)`: a new connection, registered and handed to the caller. */
    method Connect() returns (c: Connection)
      requires Valid()
      modifies this
      ensures fresh(c) && c.alive && c.calls == []
      ensures connections == old(connections) + [c] && Valid()
    {
      c := new Connection();
      connections := connections + [c];
    }

    /** `operator()(args...)`: every connection still alive is invoked once
        with the arguments; expired ones are skipped. */
    method Fire(args: seq<Variant>)
      requires Valid()
      modifies connections
      ensures forall i :: 0 <= i < |connections| ==> connections[i].alive == old(connections[i].alive)
      ensures forall i :: 0 <= i < |connections| ==>
        connections[i].calls == old(connections[i].calls) + (if connections[i].alive then [args] else [])
    {
      for i := 0 to |connections|
        invariant forall j :: 0 <= j < |connections| ==> connections[j].alive == old(connections[j].alive)
        invariant forall j :: 0 <= j < i ==>
          connections[j].calls == old(connections[j].calls) + (if connections[j].alive then [args] else [])
        invariant forall j :: i <= j < |connections| ==> connections[j].calls == old(connections[j].calls)
      {
        var c := connections[i];
        if c.alive {
          c.calls := c.calls + [args];
        }
      }
    }
  }

  /** Three uses of an event: a connection the caller does not keep is never
      invoked, a kept one is, and one that went out of scope is invoked only
      while it was held. */
  method EventScenario() returns (notKept: nat, kept: nat, scoped: nat)
    ensures notKept == 0 && kept == 1 && scoped == 1
  {
    var args := [Val(Values.Int(42))];

    var e1 := new Event();
    var c1 := e1.Connect();
    c1.Drop();
    e1.Fire(args);
    notKept := |c1.calls|;

    var e2 := new Event();
    var c2 := e2.Connect();
    e2.Fire(args);
    assert e2.connections[0] == c2;
    kept := |c2.calls|;

    var e3 := new Event();
    var c3 := e3.Connect();
    e3.Fire(args);
    assert e3.connections[0] == c3 && |c3.calls| == 1;
    c3.Drop();
    e3.Fire(args);
    scoped := |c3.calls|;
  }
}
