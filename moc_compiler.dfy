/** `XMetaObjectCompiler` (exe/moc/src/moc.cpp, and the older edition in
    exe/moc/src/xdev-moc.cpp): it collects object pools from the headers,
    files every pooled class under its pool, and turns each `X(class …)`
    declaration into a class definition for the code templates.

    What the regular expressions find in a header is given with the header
    (its pool registrations, its macro-annotated classes and its `X` class
    declarations with their members and invokables); reading files, logging
    and rendering the output templates are not modelled, the template
    contexts are recorded instead. */
module MocCompiler {
  import opened Wrappers
  import opened Values
  import Dicts
  import Decimal
  import Tools
  import MocScan

  // ---------------------------------------------------------------------
  // pools

  /** An `XPOOLREGISTER(name, Access = access, Macro = macro)` match. */
  datatype PoolDef = PoolDef(name: string, access: string, macro: string)

  /** A pool entry of `_pools`; the items are the pooled class names (the
      C++ stores each as `{"class": name}`). */
  datatype Pool = Pool(name: string, access: string, macro: string, items: seq<string>)

  /** A class declared after a pool macro (or `XCLASS`). */
  datatype ClassUse = ClassUse(macro: string, className: string)

  /** `_pools`: keyed by the access name, iterated in key order. */
  type Pools = map<Value, Pool>

  /** `registerPools` over the matches of one header: each registration is
      stored under its access name with no items yet. */
  function Registered(pools: Pools, defs: seq<PoolDef>): (r: Pools)
    ensures pools.Keys <= r.Keys
    decreases |defs|
  {
    if defs == [] then pools
    else
      Registered(pools, defs[..|defs| - 1])[Str(defs[|defs| - 1].access) :=
        Pool(defs[|defs| - 1].name, defs[|defs| - 1].access, defs[|defs| - 1].macro, [])]
  }

  /** A key is present after registering iff it was before or some
      registration has that access; the last registration with an access
      wins and starts empty, and other pools are kept. */
  lemma {:induction false} RegisteredLastWins(pools: Pools, defs: seq<PoolDef>, k: Value)
    ensures k in Registered(pools, defs) <==> k in pools || exists i :: 0 <= i < |defs| && Str(defs[i].access) == k
    ensures (forall i :: 0 <= i < |defs| ==> Str(defs[i].access) != k) && k in pools ==>
              Registered(pools, defs)[k] == pools[k]
    ensures forall i :: 0 <= i < |defs| && Str(defs[i].access) == k && (forall j :: i < j < |defs| ==> Str(defs[j].access) != k) ==>
              k in Registered(pools, defs) && Registered(pools, defs)[k] == Pool(defs[i].name, defs[i].access, defs[i].macro, [])
  {
    RegisteredKeys(pools, defs, k);
    if k in pools && forall i :: 0 <= i < |defs| ==> Str(defs[i].access) != k {
      RegisteredUntouched(pools, defs, k);
    }
    forall i | 0 <= i < |defs| && Str(defs[i].access) == k && (forall j :: i < j < |defs| ==> Str(defs[j].access) != k)
      ensures k in Registered(pools, defs) && Registered(pools, defs)[k] == Pool(defs[i].name, defs[i].access, defs[i].macro, [])
    {
      RegisteredLast(pools, defs, k, i);
    }
  }

  lemma {:induction false} RegisteredKeys(pools: Pools, defs: seq<PoolDef>, k: Value)
    ensures k in Registered(pools, defs) <==> k in pools || exists i :: 0 <= i < |defs| && Str(defs[i].access) == k
    decreases |defs|
  {
    if defs != [] {
      var n := |defs| - 1;
      RegisteredKeys(pools, defs[..n], k);
      if k in Registered(pools, defs[..n]) && k !in pools {
        var i :| 0 <= i < n && Str(defs[..n][i].access) == k;
        assert defs[..n][i] == defs[i];
      }
      if exists i :: 0 <= i < |defs| && Str(defs[i].access) == k {
        var i :| 0 <= i < |defs| && Str(defs[i].access) == k;
        if i < n {
          assert defs[..n][i] == defs[i];
        }
      }
    }
  }

  lemma {:induction false} RegisteredUntouched(pools: Pools, defs: seq<PoolDef>, k: Value)
    requires k in pools && forall i :: 0 <= i < |defs| ==> Str(defs[i].access) != k
    ensures k in Registered(pools, defs) && Registered(pools, defs)[k] == pools[k]
    decreases |defs|
  {
    if defs != [] {
      var n := |defs| - 1;
      assert forall i :: 0 <= i < n ==> defs[..n][i] == defs[i];
      RegisteredUntouched(pools, defs[..n], k);
    }
  }

  lemma {:induction false} RegisteredLast(pools: Pools, defs: seq<PoolDef>, k: Value, i: nat)
    requires i < |defs| && Str(defs[i].access) == k && forall j :: i < j < |defs| ==> Str(defs[j].access) != k
    ensures k in Registered(pools, defs) && Registered(pools, defs)[k] == Pool(defs[i].name, defs[i].access, defs[i].macro, [])
    decreases |defs|
  {
    var n := |defs| - 1;
    if i < n {
      assert defs[..n][i] == defs[i];
      assert forall j :: i < j < n ==> defs[..n][j] == defs[j];
      RegisteredLast(pools, defs[..n], k, i);
    }
  }

  /** The index of the first key, from `from`, whose pool has the macro. */
  function FirstMatching(pools: Pools, keys: seq<Value>, macro: string, from: nat): (r: Option<nat>)
    requires from <= |keys| && forall i :: 0 <= i < |keys| ==> keys[i] in pools
    ensures r.Some? ==> from <= r.value < |keys| && pools[keys[r.value]].macro == macro &&
                        forall j :: from <= j < r.value ==> pools[keys[j]].macro != macro
    ensures r.None? ==> forall j :: from <= j < |keys| ==> pools[keys[j]].macro != macro
    decreases |keys| - from
  {
    if from == |keys| then Option.None
    else if pools[keys[from]].macro == macro then Some(from)
    else FirstMatching(pools, keys, macro, from + 1)
  }

  /** The pool is the first in key order whose macro is `macro`. */
  predicate FirstFor(pools: Pools, k: Value, macro: string)
  {
    k in pools && pools[k].macro == macro &&
    forall k' :: k' in pools && Less(k', k) ==> pools[k'].macro != macro
  }

  /** The same pool, possibly with more items appended. */
  predicate Grown(after: Pool, before: Pool)
  {
    after.name == before.name && after.access == before.access && after.macro == before.macro &&
    before.items <= after.items
  }

  /** `keys` lists the keys of `pools` in key order, each once. */
  predicate KeyOrder(pools: Pools, keys: seq<Value>)
  {
    (forall i :: 0 <= i < |keys| ==> keys[i] in pools) &&
    (forall k :: k in pools ==> k in keys) &&
    (forall i, j :: 0 <= i < j < |keys| ==> Less(keys[i], keys[j]))
  }

  /** The class appended to the first pool, visiting the keys in the given
      order, whose macro matches. */
  function AddAt(pools: Pools, keys: seq<Value>, use: ClassUse): (r: Pools)
    requires forall i :: 0 <= i < |keys| ==> keys[i] in pools
    ensures r.Keys == pools.Keys
  {
    match FirstMatching(pools, keys, use.macro, 0)
    case None => pools
    case Some(i) => pools[keys[i] := pools[keys[i]].(items := pools[keys[i]].items + [use.className])]
  }

  /** One match of `processPools`: the class is appended to the items of
      the first pool, in key order, whose macro matches. */
  function WithItem(pools: Pools, use: ClassUse): (r: Pools)
    ensures r.Keys == pools.Keys
  {
    AddAt(pools, Dicts.SortedKeys(pools.Keys), use)
  }

  /** The C++ iteration order is the key order. */
  lemma SortedKeysOrder(pools: Pools)
    ensures KeyOrder(pools, Dicts.SortedKeys(pools.Keys))
  {
  }

  /** Stopping at the first matching key `i` (or the end) and appending
      there is `AddAt`. */
  lemma AddAtStop(pools: Pools, keys: seq<Value>, use: ClassUse, i: nat)
    requires (forall j :: 0 <= j < |keys| ==> keys[j] in pools) && i <= |keys|
    requires FirstMatching(pools, keys, use.macro, i) == FirstMatching(pools, keys, use.macro, 0)
    requires i < |keys| ==> pools[keys[i]].macro == use.macro
    ensures i < |keys| ==> AddAt(pools, keys, use) == pools[keys[i] := pools[keys[i]].(items := pools[keys[i]].items + [use.className])]
    ensures i == |keys| ==> AddAt(pools, keys, use) == pools
  {
  }

  /** The inner loop of `processPools`: the pools are visited in key
      order, the first with the use's macro gets the class, then `break`. */
  method AddToFirst(pools: Pools, use: ClassUse) returns (r: Pools)
    ensures r == WithItem(pools, use)
  {
    var keys := Dicts.SortedKeys(pools.Keys);
    var i := 0;
    while i < |keys| && pools[keys[i]].macro != use.macro
      invariant 0 <= i <= |keys|
      invariant FirstMatching(pools, keys, use.macro, i) == FirstMatching(pools, keys, use.macro, 0)
    {
      i := i + 1;
    }
    AddAtStop(pools, keys, use, i);
    r := pools;
    if i < |keys| {
      r := pools[keys[i] := pools[keys[i]].(items := pools[keys[i]].items + [use.className])];
    }
  }

  /** In sorted keys, a smaller key comes earlier. */
  lemma SortedIndexOrder(keys: seq<Value>, a: nat, b: nat)
    requires forall i, j :: 0 <= i < j < |keys| ==> Less(keys[i], keys[j])
    requires a < |keys| && b < |keys| && Less(keys[a], keys[b])
    ensures a < b
  {
    if b <= a {
      if a == b {
        LessIsStrictTotalOrder(keys[a], keys[a], keys[a]);
      } else {
        LessIsStrictTotalOrder(keys[b], keys[a], keys[b]);
      }
      assert false;
    }
  }

  /** The key `FirstMatching` finds is the first for the macro. */
  lemma MatchedIsFirst(pools: Pools, keys: seq<Value>, macro: string, i: nat)
    requires KeyOrder(pools, keys)
    requires FirstMatching(pools, keys, macro, 0) == Some(i)
    ensures FirstFor(pools, keys[i], macro)
  {
    forall k' | k' in pools && Less(k', keys[i])
      ensures pools[k'].macro != macro
    {
      var j :| 0 <= j < |keys| && keys[j] == k';
      SortedIndexOrder(keys, j, i);
    }
  }

  /** No other key is the first for the macro, and its pool is kept. */
  lemma UnmatchedNotFirst(pools: Pools, keys: seq<Value>, use: ClassUse, m: nat)
    requires KeyOrder(pools, keys) && m < |keys|
    requires FirstMatching(pools, keys, use.macro, 0) != Some(m)
    ensures !FirstFor(pools, keys[m], use.macro)
    ensures AddAt(pools, keys, use)[keys[m]] == pools[keys[m]]
  {
    match FirstMatching(pools, keys, use.macro, 0)
    case None =>
    case Some(i) =>
      LessIsStrictTotalOrder(keys[m], keys[m], keys[m]);
      assert Less(keys[i], keys[m]) || Less(keys[m], keys[i]);
  }

  /** `processPools` appends a class to the first pool whose macro matches
      and to no other; the keys stay the same. */
  lemma AppendsToFirstOnly(pools: Pools, use: ClassUse, k: Value)
    requires k in pools
    ensures WithItem(pools, use).Keys == pools.Keys
    ensures WithItem(pools, use)[k] ==
            if FirstFor(pools, k, use.macro) then pools[k].(items := pools[k].items + [use.className]) else pools[k]
  {
    var keys := Dicts.SortedKeys(pools.Keys);
    SortedKeysOrder(pools);
    var m :| 0 <= m < |keys| && keys[m] == k;
    if FirstMatching(pools, keys, use.macro, 0) == Some(m) {
      MatchedIsFirst(pools, keys, use.macro, m);
    } else {
      UnmatchedNotFirst(pools, keys, use, m);
    }
  }

  /** At most one pool is the first for a macro. */
  lemma FirstForUnique(pools: Pools, k1: Value, k2: Value, macro: string)
    requires FirstFor(pools, k1, macro) && FirstFor(pools, k2, macro)
    ensures k1 == k2
  {
    LessIsStrictTotalOrder(k1, k2, k1);
  }

  /** `processPools` over the class uses of one header. */
  function Uses(pools: Pools, uses: seq<ClassUse>): (r: Pools)
    ensures r.Keys == pools.Keys
    decreases |uses|
  {
    if uses == [] then pools else WithItem(Uses(pools, uses[..|uses| - 1]), uses[|uses| - 1])
  }

  /** Filing one more class. */
  lemma UsesNext(pools: Pools, uses: seq<ClassUse>, i: nat)
    requires i < |uses|
    ensures Uses(pools, uses[..i + 1]) == WithItem(Uses(pools, uses[..i]), uses[i])
  {
    assert uses[..i + 1][..i] == uses[..i];
  }

  /** Filing classes keeps every pool's name, access and macro, and only
      appends to its items: the pools registered are the pools used. */
  lemma {:induction false} UsesGrow(pools: Pools, uses: seq<ClassUse>, k: Value)
    requires k in pools
    ensures k in Uses(pools, uses) && Grown(Uses(pools, uses)[k], pools[k])
    decreases |uses|
  {
    if uses != [] {
      var before := Uses(pools, uses[..|uses| - 1]);
      UsesGrow(pools, uses[..|uses| - 1], k);
      AppendsToFirstOnly(before, uses[|uses| - 1], k);
    }
  }

  // ---------------------------------------------------------------------
  // headers

  /** An `X(class …)` member declaration `kind<raw args> name`. */
  datatype MemberMatch = MemberMatch(kind: string, rawArgs: string, name: string)

  /** A collected member, as the older edition lists it. */
  datatype Member = Member(rawArgs: string, name: string)

  /** The members of one kind: a dict keyed by name (moc.cpp) or a list in
      source order (xdev-moc.cpp). */
  datatype MemberTable = Keyed(byName: map<string, string>) | Listed(inOrder: seq<Member>)

  /** A parameter of an `XINVOKABLE`: its declared and bare types and its
      name when it has one. */
  datatype Param = Param(declType: string, cleanType: string, name: Option<string>)

  /** A parameter as the templates see it. */
  datatype Arg = Arg(declType: string, cleanType: string, name: string)

  /** An `XINVOKABLE ret name(params)` match. */
  datatype InvokableMatch = InvokableMatch(returnType: string, name: string, params: seq<Param>)

  datatype Invokable = Invokable(name: string, returnType: string, args: seq<Arg>,
                                 argsDecl: string, argsTypes: string, argsNames: string)

  /** An `X(class) Name : public xobj<Crtp>` match with what the member and
      invokable patterns find in its body. */
  datatype ClassMatch = ClassMatch(name: string, base: string, crtpName: string,
                                   members: seq<MemberMatch>, invokables: seq<InvokableMatch>)

  datatype ClassDef = ClassDef(name: string, base: string, properties: MemberTable, functions: MemberTable,
                               events: MemberTable, invokables: seq<Invokable>)

  /** A header of the project: its path relative to the sources, its base
      name, and what the patterns find in it. */
  datatype Header = Header(path: seq<string>, name: string, poolDefs: seq<PoolDef>,
                           classUses: seq<ClassUse>, classes: seq<ClassMatch>)

  /** The context of one generated `.xdev.hpp`/`.xdev.cpp` pair. */
  datatype Output = Output(basename: string, originFilename: string, classes: seq<ClassDef>)

  /** The context of the generated pools files. */
  datatype PoolsContext = PoolsContext(pools: Pools, includes: seq<string>)

  /** moc.cpp, or the older xdev-moc.cpp. */
  datatype Edition = Current | Older

  /** A path with a file name (`file.has_filename()`). */
  predicate ValidPath(p: seq<string>)
  {
    p != [] && p[|p| - 1] != ""
  }

  // ---------------------------------------------------------------------
  // members

  /** moc.cpp: `members[type][name] = raw_args` for each match of the kind. */
  function KeyedMembers(kind: string, ms: seq<MemberMatch>): map<string, string>
    decreases |ms|
  {
    if ms == [] then map[]
    else if ms[|ms| - 1].kind == kind then KeyedMembers(kind, ms[..|ms| - 1])[ms[|ms| - 1].name := ms[|ms| - 1].rawArgs]
    else KeyedMembers(kind, ms[..|ms| - 1])
  }

  /** Keyed members: a name is present iff a match of the kind declares it,
      with the raw arguments of the last such match. */
  lemma {:induction false} KeyedLastWins(kind: string, ms: seq<MemberMatch>, name: string)
    ensures name in KeyedMembers(kind, ms) <==> exists i :: 0 <= i < |ms| && ms[i].kind == kind && ms[i].name == name
    ensures forall i :: 0 <= i < |ms| && ms[i].kind == kind && ms[i].name == name &&
                        (forall j :: i < j < |ms| ==> ms[j].kind != kind || ms[j].name != name) ==>
              name in KeyedMembers(kind, ms) && KeyedMembers(kind, ms)[name] == ms[i].rawArgs
    decreases |ms|
  {
    if ms != [] {
      var n := |ms| - 1;
      KeyedLastWins(kind, ms[..n], name);
      assert forall i :: 0 <= i < n ==> ms[..n][i] == ms[i];
    }
  }

  /** xdev-moc.cpp: every match of the kind, in source order. */
  function ListedMembers(kind: string, ms: seq<MemberMatch>): (r: seq<Member>)
    ensures |r| <= |ms|
    decreases |ms|
  {
    if ms == [] then []
    else if ms[|ms| - 1].kind == kind then ListedMembers(kind, ms[..|ms| - 1]) + [Member(ms[|ms| - 1].rawArgs, ms[|ms| - 1].name)]
    else ListedMembers(kind, ms[..|ms| - 1])
  }

  /** `m` is what some match of the kind in `ms` lists. */
  ghost predicate ListedFrom(kind: string, ms: seq<MemberMatch>, m: Member)
  {
    exists j :: 0 <= j < |ms| && ms[j].kind == kind && m == Member(ms[j].rawArgs, ms[j].name)
  }

  /** Every listed member comes from a match of the kind. */
  lemma {:induction false} ListedFromMatches(kind: string, ms: seq<MemberMatch>)
    ensures forall i :: 0 <= i < |ListedMembers(kind, ms)| ==> ListedFrom(kind, ms, ListedMembers(kind, ms)[i])
    decreases |ms|
  {
    if ms != [] {
      var n := |ms| - 1;
      var l, l0 := ListedMembers(kind, ms), ListedMembers(kind, ms[..n]);
      assert l == if ms[n].kind == kind then l0 + [Member(ms[n].rawArgs, ms[n].name)] else l0;
      ListedFromMatches(kind, ms[..n]);
      forall i | 0 <= i < |l|
        ensures ListedFrom(kind, ms, l[i])
      {
        if i < |l0| {
          assert l[i] == l0[i];
          assert ListedFrom(kind, ms[..n], l0[i]);
          var j :| 0 <= j < n && ms[..n][j].kind == kind && l0[i] == Member(ms[..n][j].rawArgs, ms[..n][j].name);
          assert ms[..n][j] == ms[j];
          assert ms[j].kind == kind && l[i] == Member(ms[j].rawArgs, ms[j].name);
        } else {
          assert ms[n].kind == kind && l[i] == Member(ms[n].rawArgs, ms[n].name);
        }
      }
    }
  }

  /** The members listed from a prefix stay in place. */
  lemma ListedPrefix(kind: string, ms: seq<MemberMatch>, i: nat)
    requires ms != [] && i < |ListedMembers(kind, ms[..|ms| - 1])|
    ensures i < |ListedMembers(kind, ms)| && ListedMembers(kind, ms)[i] == ListedMembers(kind, ms[..|ms| - 1])[i]
  {
  }

  /** Listed members keep every match of the kind, duplicates included. */
  lemma {:induction false} ListedKeepsAll(kind: string, ms: seq<MemberMatch>)
    ensures forall j :: 0 <= j < |ms| && ms[j].kind == kind ==> Member(ms[j].rawArgs, ms[j].name) in ListedMembers(kind, ms)
    decreases |ms|
  {
    if ms != [] {
      var n := |ms| - 1;
      ListedKeepsAll(kind, ms[..n]);
      assert forall j :: 0 <= j < n ==> ms[..n][j] == ms[j];
    }
  }

  function Table(edition: Edition, kind: string, ms: seq<MemberMatch>): MemberTable
  {
    if edition == Current then Keyed(KeyedMembers(kind, ms)) else Listed(ListedMembers(kind, ms))
  }

  /** A property declared twice: moc.cpp keeps the later one, xdev-moc.cpp
      both. */
  lemma DuplicateMember()
    ensures Table(Current, "property", [MemberMatch("property", "int", "x"), MemberMatch("property", "bool", "x")])
            == Keyed(map["x" := "bool"])
    ensures Table(Older, "property", [MemberMatch("property", "int", "x"), MemberMatch("property", "bool", "x")])
            == Listed([Member("int", "x"), Member("bool", "x")])
  {
    var ms := [MemberMatch("property", "int", "x"), MemberMatch("property", "bool", "x")];
    assert ms[..1] == [ms[0]] && ms[..1][..0] == [];
    assert KeyedMembers("property", ms[..1]) == map["x" := "int"];
    assert ListedMembers("property", ms[..1]) == [Member("int", "x")];
  }

  /** The member loop of moc.cpp: one dict per kind, assigned by name. */
  method CollectKeyed(ms: seq<MemberMatch>) returns (properties: map<string, string>, functions: map<string, string>, events: map<string, string>)
    ensures properties == KeyedMembers("property", ms)
    ensures functions == KeyedMembers("function", ms)
    ensures events == KeyedMembers("event", ms)
  {
    properties, functions, events := map[], map[], map[];
    var i := 0;
    while i < |ms|
      invariant 0 <= i <= |ms|
      invariant properties == KeyedMembers("property", ms[..i])
      invariant functions == KeyedMembers("function", ms[..i])
      invariant events == KeyedMembers("event", ms[..i])
    {
      if ms[i].kind == "property" {
        properties := properties[ms[i].name := ms[i].rawArgs];
      } else if ms[i].kind == "function" {
        functions := functions[ms[i].name := ms[i].rawArgs];
      } else if ms[i].kind == "event" {
        events := events[ms[i].name := ms[i].rawArgs];
      }
      assert ms[..i + 1][..i] == ms[..i];
      i := i + 1;
    }
    assert ms[..|ms|] == ms;
  }

  /** One member loop of xdev-moc.cpp: every match of the kind is pushed. */
  method CollectListed(kind: string, ms: seq<MemberMatch>) returns (members: seq<Member>)
    ensures members == ListedMembers(kind, ms)
  {
    members := [];
    var i := 0;
    while i < |ms|
      invariant 0 <= i <= |ms|
      invariant members == ListedMembers(kind, ms[..i])
    {
      if ms[i].kind == kind {
        members := members + [Member(ms[i].rawArgs, ms[i].name)];
      }
      assert ms[..i + 1][..i] == ms[..i];
      i := i + 1;
    }
    assert ms[..|ms|] == ms;
  }

  method CollectMembers(edition: Edition, ms: seq<MemberMatch>) returns (properties: MemberTable, functions: MemberTable, events: MemberTable)
    ensures properties == Table(edition, "property", ms)
    ensures functions == Table(edition, "function", ms)
    ensures events == Table(edition, "event", ms)
  {
    if edition == Current {
      var p, f, e := CollectKeyed(ms);
      properties, functions, events := Keyed(p), Keyed(f), Keyed(e);
    } else {
      var p := CollectListed("property", ms);
      var f := CollectListed("function", ms);
      var e := CollectListed("event", ms);
      properties, functions, events := Listed(p), Listed(f), Listed(e);
    }
  }

  // ---------------------------------------------------------------------
  // invokables

  /** The name of parameter `k`: its own, or "arg<k>", k being the number of
      parameters collected before it. */
  function ArgName(p: Param, k: nat): string
  {
    if p.name.Some? then p.name.value else "arg" + Decimal.NatToString(k)
  }

  function NamedArgs(params: seq<Param>): seq<Arg>
  {
    seq(|params|, k requires 0 <= k < |params| => Arg(params[k].declType, params[k].cleanType, ArgName(params[k], k)))
  }

  /** The parameter loop: `args.size()` is the index of the parameter. */
  method NameArgs(params: seq<Param>) returns (args: seq<Arg>)
    ensures args == NamedArgs(params)
    ensures forall k :: 0 <= k < |params| && params[k].name.None? ==> args[k].name == "arg" + Decimal.NatToString(k)
  {
    args := [];
    var i := 0;
    while i < |params|
      invariant 0 <= i <= |params|
      invariant args == NamedArgs(params[..i])
    {
      var name := if params[i].name.Some? then params[i].name.value else "arg" + Decimal.NatToString(|args|);
      args := args + [Arg(params[i].declType, params[i].cleanType, name)];
      i := i + 1;
    }
    assert params[..|params|] == params;
  }

  /** Generated parameter names never clash with each other. */
  lemma GeneratedNamesDistinct(params: seq<Param>, i: nat, j: nat)
    requires i < j < |params| && params[i].name.None? && params[j].name.None?
    ensures NamedArgs(params)[i].name != NamedArgs(params)[j].name
  {
    var a := NamedArgs(params);
    if a[i].name == a[j].name {
      assert a[i].name[3..] == Decimal.NatToString(i);
      assert a[j].name[3..] == Decimal.NatToString(j);
      Decimal.NatToStringRoundTrip(i);
      Decimal.NatToStringRoundTrip(j);
    }
  }

  function InvokableOf(im: InvokableMatch): Invokable
  {
    var args := NamedArgs(im.params);
    Invokable(im.name, im.returnType, args,
              Tools.Joined(seq(|args|, i requires 0 <= i < |args| => args[i].declType + " " + args[i].name), ", "),
              Tools.Joined(seq(|args|, i requires 0 <= i < |args| => args[i].cleanType), ", "),
              Tools.Joined(seq(|args|, i requires 0 <= i < |args| => args[i].name), ", "))
  }

  method MakeInvokable(im: InvokableMatch) returns (inv: Invokable)
    ensures inv == InvokableOf(im)
    ensures |inv.args| == |im.params|
  {
    var args := NameArgs(im.params);
    inv := Invokable(im.name, im.returnType, args,
                     Tools.Joined(seq(|args|, i requires 0 <= i < |args| => args[i].declType + " " + args[i].name), ", "),
                     Tools.Joined(seq(|args|, i requires 0 <= i < |args| => args[i].cleanType), ", "),
                     Tools.Joined(seq(|args|, i requires 0 <= i < |args| => args[i].name), ", "));
  }

  // ---------------------------------------------------------------------
  // class definitions

  /** The `XException` message for a class whose CRTP argument is not its own
      name. */
  function NameError(name: string): string
  {
    name + " must inherit from template xobj parent (eg.: xobj<" + name + ">)"
  }

  function Invokables(ims: seq<InvokableMatch>): seq<Invokable>
  {
    seq(|ims|, i requires 0 <= i < |ims| => InvokableOf(ims[i]))
  }

  /** One class declaration: rejected unless its CRTP argument is its own
      name, otherwise its members and invokables. */
  function ClassDefOf(edition: Edition, cm: ClassMatch): Result<ClassDef, string>
  {
    if cm.name != cm.crtpName then Err(NameError(cm.name))
    else Ok(ClassDef(cm.name, cm.base, Table(edition, "property", cm.members), Table(edition, "function", cm.members),
                     Table(edition, "event", cm.members), Invokables(cm.invokables)))
  }

  method ProcessClass(edition: Edition, cm: ClassMatch) returns (r: Result<ClassDef, string>)
    ensures r == ClassDefOf(edition, cm)
    ensures r.Err? <==> cm.name != cm.crtpName
  {
    if cm.name != cm.crtpName {
      return Err(NameError(cm.name));
    }
    var properties, functions, events := CollectMembers(edition, cm.members);
    var invokables := [];
    var i := 0;
    while i < |cm.invokables|
      invariant 0 <= i <= |cm.invokables|
      invariant invokables == Invokables(cm.invokables[..i])
    {
      var inv := MakeInvokable(cm.invokables[i]);
      invokables := invokables + [inv];
      i := i + 1;
    }
    assert cm.invokables[..|cm.invokables|] == cm.invokables;
    return Ok(ClassDef(cm.name, cm.base, properties, functions, events, invokables));
  }

  /** The class loop of `processFile`: the definitions in order, or the
      exception of the first class with a wrong CRTP argument. */
  function ClassDefsOf(edition: Edition, cms: seq<ClassMatch>): (r: Result<seq<ClassDef>, string>)
    ensures r.Ok? <==> forall i :: 0 <= i < |cms| ==> cms[i].name == cms[i].crtpName
    ensures r.Ok? ==> |r.value| == |cms| && forall i :: 0 <= i < |cms| ==> ClassDefOf(edition, cms[i]) == Ok(r.value[i])
    ensures r.Err? ==> exists i :: 0 <= i < |cms| && cms[i].name != cms[i].crtpName &&
                                   (forall j :: 0 <= j < i ==> cms[j].name == cms[j].crtpName) &&
                                   r.error == NameError(cms[i].name)
    decreases |cms|
  {
    if cms == [] then Ok([])
    else if cms[0].name != cms[0].crtpName then Err(NameError(cms[0].name))
    else
      var rest := ClassDefsOf(edition, cms[1..]);
      if rest.Err? then
        assert forall j :: 1 <= j < |cms| ==> cms[j] == cms[1..][j - 1];
        rest
      else
        assert forall j :: 1 <= j < |cms| ==> cms[j] == cms[1..][j - 1];
        Ok([ClassDefOf(edition, cms[0]).value] + rest.value)
  }

  /** The definitions collected before position `i`, ahead of the rest. */
  function Prefixed(done: seq<ClassDef>, rest: Result<seq<ClassDef>, string>): Result<seq<ClassDef>, string>
  {
    if rest.Err? then rest else Ok(done + rest.value)
  }

  method ClassDefs(edition: Edition, cms: seq<ClassMatch>) returns (r: Result<seq<ClassDef>, string>)
    ensures r == ClassDefsOf(edition, cms)
  {
    var done := [];
    var i := 0;
    assert cms[0..] == cms;
    assert Prefixed([], ClassDefsOf(edition, cms)) == ClassDefsOf(edition, cms) by {
      if ClassDefsOf(edition, cms).Ok? {
        assert [] + ClassDefsOf(edition, cms).value == ClassDefsOf(edition, cms).value;
      }
    }
    while i < |cms|
      invariant 0 <= i <= |cms|
      invariant Prefixed(done, ClassDefsOf(edition, cms[i..])) == ClassDefsOf(edition, cms)
    {
      var d := ProcessClass(edition, cms[i]);
      if d.Err? {
        ClassDefsFails(edition, cms, i);
        return Err(d.error);
      }
      ClassDefsStep(edition, cms, i, done);
      done := done + [d.value];
      i := i + 1;
    }
    assert cms[|cms|..] == [];
    assert done + [] == done;
    return Ok(done);
  }

  lemma ClassDefsFails(edition: Edition, cms: seq<ClassMatch>, i: nat)
    requires i < |cms| && cms[i].name != cms[i].crtpName
    ensures ClassDefsOf(edition, cms[i..]) == Err(NameError(cms[i].name))
  {
    assert cms[i..][0] == cms[i];
  }

  lemma ClassDefsStep(edition: Edition, cms: seq<ClassMatch>, i: nat, done: seq<ClassDef>)
    requires i < |cms| && cms[i].name == cms[i].crtpName
    ensures Prefixed(done, ClassDefsOf(edition, cms[i..])) ==
            Prefixed(done + [ClassDefOf(edition, cms[i]).value], ClassDefsOf(edition, cms[i + 1..]))
  {
    assert cms[i..][0] == cms[i] && cms[i..][1..] == cms[i + 1..];
    var rest := ClassDefsOf(edition, cms[i + 1..]);
    if rest.Ok? {
      assert done + ([ClassDefOf(edition, cms[i]).value] + rest.value) == done + [ClassDefOf(edition, cms[i]).value] + rest.value;
    }
  }

  // ---------------------------------------------------------------------
  // origin file names

  /** `path_contains_file(dir, file)` as a predicate on the caller's `dir`. */
  predicate Contained(dir: seq<string>, file: seq<string>)
    requires file != []
  {
    MocScan.Within(MocScan.StrippedDir(dir), file)
  }

  /** `fs::relative(path, dir)` for a path inside `dir`: the elements after
      those of `dir`, the empty element of a final separator not counted. */
  function Relative(dir: seq<string>, path: seq<string>): string
    requires path != [] && Contained(dir, path)
  {
    var d := MocScan.StrippedDir(dir);
    var n := if d != [] && d[|d| - 1] == "" then |d| - 1 else |d|;
    Tools.Joined(path[n..], "/")
  }

  /** Include directory `j` is the first one from `i` on that contains the
      path. */
  predicate FirstContaining(dirs: seq<seq<string>>, path: seq<string>, i: nat, j: nat)
    requires path != []
  {
    i <= j < |dirs| && Contained(dirs[j], path) && forall l :: i <= l < j ==> !Contained(dirs[l], path)
  }

  /** The search of `processFile`'s include-directory loop: the candidate
      of the first position from `i` on that is a hit, or `name` when there
      is none. */
  function FirstOrigin(hits: seq<bool>, rels: seq<string>, name: string, i: nat): string
    requires |hits| == |rels| && i <= |hits|
    decreases |hits| - i
  {
    if i == |hits| then name
    else if hits[i] then rels[i]
    else FirstOrigin(hits, rels, name, i + 1)
  }

  /** The search passes over positions that are not hits. */
  lemma {:induction false} FirstOriginSkips(hits: seq<bool>, rels: seq<string>, name: string, i: nat, j: nat)
    requires |hits| == |rels| && i <= j <= |hits|
    requires forall l :: i <= l < j ==> !hits[l]
    ensures FirstOrigin(hits, rels, name, i) == FirstOrigin(hits, rels, name, j)
    decreases j - i
  {
    if i < j {
      FirstOriginSkips(hits, rels, name, i + 1, j);
    }
  }

  /** Which include directories contain the path. */
  function Containing(dirs: seq<seq<string>>, path: seq<string>): (r: seq<bool>)
    requires path != []
    ensures |r| == |dirs| && forall l :: 0 <= l < |dirs| ==> r[l] == Contained(dirs[l], path)
    decreases |dirs|
  {
    if dirs == [] then [] else [Contained(dirs[0], path)] + Containing(dirs[1..], path)
  }

  /** The path relative to each include directory that contains it. */
  function Relatives(dirs: seq<seq<string>>, path: seq<string>): (r: seq<string>)
    requires path != []
    ensures |r| == |dirs| && forall l :: 0 <= l < |dirs| && Contained(dirs[l], path) ==> r[l] == Relative(dirs[l], path)
    decreases |dirs|
  {
    if dirs == [] then [] else [if Contained(dirs[0], path) then Relative(dirs[0], path) else ""] + Relatives(dirs[1..], path)
  }

  /** `origin_filename`: the path relative to the first include directory
      from `i` on that contains it, or else the file name. */
  function OriginFrom(dirs: seq<seq<string>>, path: seq<string>, i: nat): string
    requires ValidPath(path) && i <= |dirs|
  {
    FirstOrigin(Containing(dirs, path), Relatives(dirs, path), path[|path| - 1], i)
  }

  /** The origin is the path relative to the first include directory that
      contains it. */
  lemma OriginIsFirstContaining(dirs: seq<seq<string>>, path: seq<string>, i: nat, j: nat)
    requires ValidPath(path) && i <= |dirs| && FirstContaining(dirs, path, i, j)
    ensures OriginFrom(dirs, path, i) == Relative(dirs[j], path)
  {
    var hits, rels := Containing(dirs, path), Relatives(dirs, path);
    FirstOriginSkips(hits, rels, path[|path| - 1], i, j);
  }

  /** The origin is the file name when no include directory contains the
      path. */
  lemma OriginIsFileName(dirs: seq<seq<string>>, path: seq<string>, i: nat)
    requires ValidPath(path) && i <= |dirs|
    requires forall j :: i <= j < |dirs| ==> !Contained(dirs[j], path)
    ensures OriginFrom(dirs, path, i) == path[|path| - 1]
  {
    var hits, rels := Containing(dirs, path), Relatives(dirs, path);
    FirstOriginSkips(hits, rels, path[|path| - 1], i, |dirs|);
  }

  method OriginOf(dirs: seq<seq<string>>, path: seq<string>) returns (origin: string)
    requires ValidPath(path)
    ensures origin == OriginFrom(dirs, path, 0)
  {
    ghost var hits, rels, name := Containing(dirs, path), Relatives(dirs, path), path[|path| - 1];
    var i := 0;
    while i < |dirs|
      invariant 0 <= i <= |dirs|
      invariant FirstOrigin(hits, rels, name, i) == FirstOrigin(hits, rels, name, 0)
    {
      var contains, dir := MocScan.PathContainsFile(dirs[i], path);
      assert contains == hits[i];
      if contains {
        return Relative(dirs[i], path);
      }
      i := i + 1;
    }
    return path[|path| - 1];
  }


  // ---------------------------------------------------------------------
  // processing one header

  /** What `processFile` changes: the bin path (older edition), the pool
      includes, the generated contexts, and the exception it ends with. */
  datatype Files = Files(binPath: seq<string>, includes: seq<string>, outputs: seq<Output>, error: Option<string>)

  /** `processFile(meta)`. The older edition returns early for headers under
      the bin directory, after `path_contains_file` has stripped a trailing
      "." from it. */
  function FileStep(edition: Edition, srcPath: seq<string>, dirs: seq<seq<string>>, f: Files, h: Header): Files
    requires ValidPath(h.path)
  {
    var bin := if edition == Older then MocScan.StrippedDir(f.binPath) else f.binPath;
    if edition == Older && Contained(f.binPath, h.path) then f.(binPath := bin)
    else Recorded(edition, srcPath, dirs, f.(binPath := bin), h)
  }

  /** The part of `processFile` past the bin-directory test: the header is
      listed among the pool includes, then its classes become an output
      unless one fails the name check. */
  function Recorded(edition: Edition, srcPath: seq<string>, dirs: seq<seq<string>>, f: Files, h: Header): Files
    requires ValidPath(h.path)
  {
    var origin := OriginFrom(dirs, srcPath + h.path, 0);
    var defs := ClassDefsOf(edition, h.classes);
    if defs.Err? then Files(f.binPath, f.includes + [origin], f.outputs, Some(defs.error))
    else Files(f.binPath, f.includes + [origin], f.outputs + [Output(h.name, origin, defs.value)], Option.None)
  }

  /** Headers under the bin directory are skipped by the older edition, and
      by it alone. */
  lemma GeneratedHeadersSkipped(edition: Edition, srcPath: seq<string>, dirs: seq<seq<string>>, f: Files, h: Header)
    requires ValidPath(h.path)
    ensures var g := FileStep(edition, srcPath, dirs, f, h);
            g.includes == f.includes <==> edition == Older && Contained(f.binPath, h.path)
    ensures var g := FileStep(edition, srcPath, dirs, f, h);
            edition == Older && Contained(f.binPath, h.path) ==> g.outputs == f.outputs && g.error == f.error
  {
    var g := FileStep(edition, srcPath, dirs, f, h);
    if !(edition == Older && Contained(f.binPath, h.path)) {
      assert |g.includes| == |f.includes| + 1;
    }
  }

  /** A processed header is listed among the pool includes even when its
      class check throws; its outputs are added only when every class passes
      it, and the exception names the first class that fails it. */
  lemma ProcessedHeaderOutcome(edition: Edition, srcPath: seq<string>, dirs: seq<seq<string>>, f: Files, h: Header)
    requires ValidPath(h.path) && !(edition == Older && Contained(f.binPath, h.path))
    ensures var g := FileStep(edition, srcPath, dirs, f, h);
            |g.includes| == |f.includes| + 1 && g.includes[..|f.includes|] == f.includes
    ensures var g := FileStep(edition, srcPath, dirs, f, h);
            g.error.None? <==> forall i :: 0 <= i < |h.classes| ==> h.classes[i].name == h.classes[i].crtpName
    ensures var g := FileStep(edition, srcPath, dirs, f, h);
            g.error.Some? ==>
              g.outputs == f.outputs &&
              exists i :: 0 <= i < |h.classes| && h.classes[i].name != h.classes[i].crtpName && g.error.value == NameError(h.classes[i].name)
    ensures var g := FileStep(edition, srcPath, dirs, f, h);
            g.error.None? ==> |g.outputs| == |f.outputs| + 1 && |g.outputs[|f.outputs|].classes| == |h.classes|
  {
    var g := FileStep(edition, srcPath, dirs, f, h);
    assert g.includes[..|f.includes|] == f.includes;
  }

  /** `processFile` over the headers in order, up to the first exception. */
  function AllFiles(edition: Edition, srcPath: seq<string>, dirs: seq<seq<string>>, f: Files, hs: seq<Header>): Files
    requires forall i :: 0 <= i < |hs| ==> ValidPath(hs[i].path)
    decreases |hs|
  {
    if hs == [] then f
    else
      var before := AllFiles(edition, srcPath, dirs, f, hs[..|hs| - 1]);
      if before.error.Some? then before else FileStep(edition, srcPath, dirs, before, hs[|hs| - 1])
  }

  /** Processing one more header. */
  lemma AllFilesNext(edition: Edition, srcPath: seq<string>, dirs: seq<seq<string>>, f: Files, hs: seq<Header>, i: nat)
    requires forall i :: 0 <= i < |hs| ==> ValidPath(hs[i].path)
    requires i < |hs|
    ensures var before := AllFiles(edition, srcPath, dirs, f, hs[..i]);
            AllFiles(edition, srcPath, dirs, f, hs[..i + 1])
            == if before.error.Some? then before else FileStep(edition, srcPath, dirs, before, hs[i])
  {
    assert hs[..i + 1][..i] == hs[..i];
  }

  /** Once a header throws, no later header is processed. */
  lemma {:induction false} AllFilesStops(edition: Edition, srcPath: seq<string>, dirs: seq<seq<string>>, f: Files, hs: seq<Header>, n: nat)
    requires forall i :: 0 <= i < |hs| ==> ValidPath(hs[i].path)
    requires n <= |hs| && AllFiles(edition, srcPath, dirs, f, hs[..n]).error.Some?
    ensures AllFiles(edition, srcPath, dirs, f, hs) == AllFiles(edition, srcPath, dirs, f, hs[..n])
    decreases |hs|
  {
    if n < |hs| {
      assert hs[..|hs| - 1][..n] == hs[..n];
      AllFilesStops(edition, srcPath, dirs, f, hs[..|hs| - 1], n);
    } else {
      assert hs[..n] == hs;
    }
  }

  // ---------------------------------------------------------------------
  // compile

  /** `registerPools` over every header. */
  function AllRegistered(pools: Pools, hs: seq<Header>): Pools
    decreases |hs|
  {
    if hs == [] then pools else Registered(AllRegistered(pools, hs[..|hs| - 1]), hs[|hs| - 1].poolDefs)
  }

  /** `processPools` over every header. */
  function AllUses(pools: Pools, hs: seq<Header>): (r: Pools)
    ensures r.Keys == pools.Keys
    decreases |hs|
  {
    if hs == [] then pools else Uses(AllUses(pools, hs[..|hs| - 1]), hs[|hs| - 1].classUses)
  }

  /** The only key, in key order. */
  lemma SortedSingleton(k: Value)
    ensures Dicts.SortedKeys({k}) == [k]
  {
    assert {k} - {k} == {};
  }

  /** Because every header is registered before any is processed, a class
      declared in one header is filed under a pool that a later header
      registers. */
  lemma RegistrationPrecedesUse()
    ensures AllUses(AllRegistered(map[], [Header(["a.hpp"], "a", [], [ClassUse("XITEM", "Foo")], []),
                                         Header(["b.hpp"], "b", [PoolDef("Items", "items", "XITEM")], [], [])]),
                    [Header(["a.hpp"], "a", [], [ClassUse("XITEM", "Foo")], []),
                     Header(["b.hpp"], "b", [PoolDef("Items", "items", "XITEM")], [], [])])
            == map[Str("items") := Pool("Items", "items", "XITEM", ["Foo"])]
  {
    var h0 := Header(["a.hpp"], "a", [], [ClassUse("XITEM", "Foo")], []);
    var h1 := Header(["b.hpp"], "b", [PoolDef("Items", "items", "XITEM")], [], []);
    var hs := [h0, h1];
    var p := map[Str("items") := Pool("Items", "items", "XITEM", [])];
    assert hs[..1] == [h0] && hs[..1][..0] == [];
    assert AllRegistered(map[], [h0]) == map[];
    assert Registered(map[], h1.poolDefs) == p by {
      assert h1.poolDefs[..0] == [];
    }
    assert AllRegistered(map[], hs) == p;
    SortedSingleton(Str("items"));
    assert p.Keys == {Str("items")};
    assert Dicts.SortedKeys(p.Keys) == [Str("items")];
    assert FirstMatching(p, [Str("items")], "XITEM", 0) == Some(0);
    AddAtStop(p, [Str("items")], ClassUse("XITEM", "Foo"), 0);
    assert p[Str("items")].items + ["Foo"] == ["Foo"];
    assert WithItem(p, ClassUse("XITEM", "Foo")) == map[Str("items") := Pool("Items", "items", "XITEM", ["Foo"])];
    assert h0.classUses[..0] == [];
    assert AllUses(p, [h0]) == WithItem(p, ClassUse("XITEM", "Foo"));
  }

  class Compiler {
    const edition: Edition
    /** `_src_path` and the project's `include_dirs`, as components. */
    const srcPath: seq<string>
    const includeDirs: seq<seq<string>>
    /** `_bin_path`, which the older edition's skip test may rewrite. */
    var binPath: seq<string>
    var pools: Pools
    var poolsIncludes: seq<string>
    /** The contexts of the generated class files, in order. */
    var outputs: seq<Output>
    /** The contexts of the generated pools files. */
    var created: seq<PoolsContext>

    constructor (edition: Edition, srcPath: seq<string>, binPath: seq<string>, includeDirs: seq<seq<string>>)
      ensures this.edition == edition && this.srcPath == srcPath && this.includeDirs == includeDirs
      ensures this.binPath == binPath && pools == map[] && poolsIncludes == [] && outputs == [] && created == []
    {
      this.edition := edition;
      this.srcPath := srcPath;
      this.includeDirs := includeDirs;
      this.binPath := binPath;
      pools := map[];
      poolsIncludes := [];
      outputs := [];
      created := [];
    }

    /** `registerPools(meta)`. */
    method RegisterPools(h: Header)
      modifies this
      ensures pools == Registered(old(pools), h.poolDefs)
      ensures binPath == old(binPath) && poolsIncludes == old(poolsIncludes) && outputs == old(outputs) && created == old(created)
    {
      var i := 0;
      while i < |h.poolDefs|
        invariant 0 <= i <= |h.poolDefs|
        invariant pools == Registered(old(pools), h.poolDefs[..i])
        invariant binPath == old(binPath) && poolsIncludes == old(poolsIncludes) && outputs == old(outputs) && created == old(created)
      {
        var d := h.poolDefs[i];
        pools := pools[Str(d.access) := Pool(d.name, d.access, d.macro, [])];
        assert h.poolDefs[..i + 1][..i] == h.poolDefs[..i];
        i := i + 1;
      }
      assert h.poolDefs[..|h.poolDefs|] == h.poolDefs;
    }

    /** The inner loop of `processPools`: the first pool in key order with
        the use's macro gets the class, then `break`. */
    method AddToFirstPool(use: ClassUse)
      modifies this
      ensures pools == WithItem(old(pools), use)
      ensures binPath == old(binPath) && poolsIncludes == old(poolsIncludes) && outputs == old(outputs) && created == old(created)
    {
      pools := AddToFirst(pools, use);
    }

    /** `processPools(meta)`. */
    method ProcessPools(h: Header)
      modifies this
      ensures pools == Uses(old(pools), h.classUses)
      ensures binPath == old(binPath) && poolsIncludes == old(poolsIncludes) && outputs == old(outputs) && created == old(created)
    {
      var i := 0;
      while i < |h.classUses|
        invariant 0 <= i <= |h.classUses|
        invariant pools == Uses(old(pools), h.classUses[..i])
        invariant binPath == old(binPath) && poolsIncludes == old(poolsIncludes) && outputs == old(outputs) && created == old(created)
      {
        AddToFirstPool(h.classUses[i]);
        UsesNext(old(pools), h.classUses, i);
        i := i + 1;
      }
      assert h.classUses[..|h.classUses|] == h.classUses;
    }

    /** `processFile(meta)`; the exception is the returned message. */
    method ProcessFile(h: Header) returns (err: Option<string>)
      requires ValidPath(h.path)
      modifies this
      ensures Files(binPath, poolsIncludes, outputs, err) ==
              FileStep(edition, srcPath, includeDirs, Files(old(binPath), old(poolsIncludes), old(outputs), Option.None), h)
      ensures pools == old(pools) && created == old(created)
    {
      if edition == Older {
        var contained, bin := MocScan.PathContainsFile(binPath, h.path);
        binPath := bin;
        if contained {
          return Option.None;
        }
      }
      err := Record(h);
    }

    /** `processFile(meta)` past the bin-directory test. */
    method Record(h: Header) returns (err: Option<string>)
      requires ValidPath(h.path)
      modifies this
      ensures Files(binPath, poolsIncludes, outputs, err) ==
              Recorded(edition, srcPath, includeDirs, Files(old(binPath), old(poolsIncludes), old(outputs), Option.None), h)
      ensures pools == old(pools) && created == old(created)
    {
      var path := srcPath + h.path;
      assert path[|path| - 1] == h.path[|h.path| - 1];
      var origin := OriginOf(includeDirs, path);
      poolsIncludes := poolsIncludes + [origin];
      var defs := ClassDefs(edition, h.classes);
      if defs.Err? {
        return Some(defs.error);
      }
      outputs := outputs + [Output(h.name, origin, defs.value)];
      return Option.None;
    }

    /** `createPools()`: the pools context, once. */
    method CreatePools()
      modifies this
      ensures created == old(created) + [PoolsContext(pools, poolsIncludes)]
      ensures pools == old(pools) && binPath == old(binPath) && poolsIncludes == old(poolsIncludes) && outputs == old(outputs)
    {
      created := created + [PoolsContext(pools, poolsIncludes)];
    }

    /** The first loop of `compile()`. */
    method RegisterAll(headers: seq<Header>)
      modifies this
      ensures pools == AllRegistered(old(pools), headers)
      ensures binPath == old(binPath) && poolsIncludes == old(poolsIncludes) && outputs == old(outputs) && created == old(created)
    {
      var i := 0;
      while i < |headers|
        invariant 0 <= i <= |headers|
        invariant pools == AllRegistered(old(pools), headers[..i])
        invariant binPath == old(binPath) && poolsIncludes == old(poolsIncludes) && outputs == old(outputs) && created == old(created)
      {
        RegisterPools(headers[i]);
        assert headers[..i + 1][..i] == headers[..i];
        i := i + 1;
      }
      assert headers[..|headers|] == headers;
    }

    /** The second loop of `compile()`. */
    method ProcessAllPools(headers: seq<Header>)
      modifies this
      ensures pools == AllUses(old(pools), headers)
      ensures binPath == old(binPath) && poolsIncludes == old(poolsIncludes) && outputs == old(outputs) && created == old(created)
    {
      var i := 0;
      while i < |headers|
        invariant 0 <= i <= |headers|
        invariant pools == AllUses(old(pools), headers[..i])
        invariant binPath == old(binPath) && poolsIncludes == old(poolsIncludes) && outputs == old(outputs) && created == old(created)
      {
        ProcessPools(headers[i]);
        assert headers[..i + 1][..i] == headers[..i];
        i := i + 1;
      }
      assert headers[..|headers|] == headers;
    }

    /** The third loop of `compile()`, left by the first exception. */
    method ProcessAllFiles(headers: seq<Header>) returns (err: Option<string>)
      requires forall i :: 0 <= i < |headers| ==> ValidPath(headers[i].path)
      modifies this
      ensures Files(binPath, poolsIncludes, outputs, err) ==
              AllFiles(edition, srcPath, includeDirs, Files(old(binPath), old(poolsIncludes), old(outputs), Option.None), headers)
      ensures pools == old(pools) && created == old(created)
    {
      ghost var start := Files(binPath, poolsIncludes, outputs, Option.None);
      var i := 0;
      while i < |headers|
        invariant 0 <= i <= |headers|
        invariant Files(binPath, poolsIncludes, outputs, Option.None) == AllFiles(edition, srcPath, includeDirs, start, headers[..i])
        invariant pools == old(pools) && created == old(created)
      {
        AllFilesNext(edition, srcPath, includeDirs, start, headers, i);
        var e := ProcessFile(headers[i]);
        if e.Some? {
          AllFilesStops(edition, srcPath, includeDirs, start, headers, i + 1);
          return e;
        }
        i := i + 1;
      }
      assert headers[..|headers|] == headers;
      return Option.None;
    }

    /** `compile()`: every header is registered, then every header's pooled
        classes are filed, then every header is processed, then the pools
        files are generated; an exception from a header ends it. */
    method Compile(headers: seq<Header>) returns (err: Option<string>)
      requires forall i :: 0 <= i < |headers| ==> ValidPath(headers[i].path)
      modifies this
      ensures pools == AllUses(AllRegistered(old(pools), headers), headers)
      ensures Files(binPath, poolsIncludes, outputs, err) ==
              AllFiles(edition, srcPath, includeDirs, Files(old(binPath), old(poolsIncludes), old(outputs), Option.None), headers)
      ensures created == old(created) + (if err.None? then [PoolsContext(pools, poolsIncludes)] else [])
    {
      RegisterAll(headers);
      ProcessAllPools(headers);
      err := ProcessAllFiles(headers);
      if err.None? {
        CreatePools();
      }
    }
  }
}
