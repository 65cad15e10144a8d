/** `XResources`: a named store of arbitrary values (`std::any`), used for
    embedded files and compiled templates. */
module Resources {
  import opened Wrappers

  /** What a `std::any` holds: a string, or a value of some other type that
      only the type name tells apart here. */
  datatype Any = Text(s: string) | Opaque(typeName: string, id: nat)

  /** `std::out_of_range` from `map::at`, `std::bad_any_cast` from
      `any_cast<string>`. */
  datatype LookupError = OutOfRange | BadAnyCast

  /** `get(key)` and `operator[](key)`. */
  function Lookup(m: map<string, Any>, key: string): (r: Result<Any, LookupError>)
    ensures r.Ok? <==> key in m
    ensures r.Ok? ==> r.value == m[key]
    ensures r.Err? ==> r.error == OutOfRange
  {
    if key in m then Ok(m[key]) else Err(OutOfRange)
  }

  /** `getString(key)`: a missing key is `out_of_range`, a stored value that
      is not a string is `bad_any_cast`. */
  function LookupString(m: map<string, Any>, key: string): (r: Result<string, LookupError>)
    ensures r.Ok? <==> key in m && m[key].Text?
    ensures r.Ok? ==> m[key] == Text(r.value)
    ensures r == Err(OutOfRange) <==> key !in m
  {
    if key !in m then Err(OutOfRange)
    else if !m[key].Text? then Err(BadAnyCast)
    else Ok(m[key].s)
  }

  /** A byte buffer as the string `std::string(data, data + len)` builds. */
  function BytesToString(data: seq<bv8>): (r: string)
    ensures |r| == |data|
    ensures forall i :: 0 <= i < |r| ==> r[i] as int == data[i] as int
  {
    if data == [] then [] else [data[0] as char] + BytesToString(data[1..])
  }

  /** An added value is found under its key and under no other key does
      anything change; a later add under the same key wins. */
  lemma AddThenLookup(m: map<string, Any>, key: string, v: Any, w: Any, other: string)
    requires other != key
    ensures Lookup(m[key := v], key) == Ok(v)
    ensures Lookup(m[key := v], other) == Lookup(m, other)
    ensures Lookup(m[key := v][key := w], key) == Ok(w)
  {
  }

  class XResources {
    var resources: map<string, Any>

    /** `Make()`: a new store is empty. */
    constructor()
      ensures resources == map[]
    {
      resources := map[];
    }

    /** `add(key, value)`: inserts, or replaces the value under that key. */
    method Add(key: string, v: Any)
      modifies this
      ensures resources == old(resources)[key := v]
    {
      resources := resources[key := v];
    }

    /** `add(key, {data, len})`: stores the string made of exactly the first
        `len` bytes of the buffer. */
    method AddData(key: string, data: seq<bv8>, len: nat)
      requires len <= |data|
      modifies this
      ensures resources == old(resources)[key := Text(BytesToString(data[..len]))]
    {
      resources := resources[key := Text(BytesToString(data[..len]))];
    }

    function Get(key: string): (r: Result<Any, LookupError>)
      reads this
      ensures r == Lookup(resources, key)
    {
      Lookup(resources, key)
    }

    function GetString(key: string): (r: Result<string, LookupError>)
      reads this
      ensures r == LookupString(resources, key)
    {
      LookupString(resources, key)
    }

    /** `has(key)`. */
    function Has(key: string): (r: bool)
      reads this
      ensures r <==> Get(key).Ok?
    {
      key in resources
    }
  }
}
