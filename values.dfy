/** The scalar kind of the value model: `xval`, a tagged union of none, bool,
    int, double and string, with its comparisons and in-place operators. */
module Values {
  import opened Decimal

  /** One alternative per member of the underlying `std::variant`, in the
      same order. A C++ `double` is modelled as a mathematical real. */
  datatype Value = None | Bool(b: bool) | Int(i: int) | Double(d: real) | Str(s: string)

  /** Position of the alternative inside the `std::variant`. */
  function Rank(v: Value): nat
  {
    match v
    case None => 0
    case Bool(_) => 1
    case Int(_) => 2
    case Double(_) => 3
    case Str(_) => 4
  }

  /** `Value::operator==`: both sides hold the same alternative with the same
      payload. `None::operator==` answers false, so a none value is unequal to
      everything, itself included; an int never equals a double. */
  function Equal(a: Value, b: Value): (r: bool)
    ensures r <==> a == b && !a.None?
  {
    match (a, b)
    case (Bool(x), Bool(y)) => x == y
    case (Int(x), Int(y)) => x == y
    case (Double(x), Double(y)) => x == y
    case (Str(x), Str(y)) => x == y
    case _ => false
  }

  /** Lexicographic order of strings, by character code. */
  predicate StrLess(x: string, y: string)
  {
    if x == [] then y != []
    else if y == [] then false
    else if x[0] != y[0] then x[0] < y[0]
    else StrLess(x[1..], y[1..])
  }

  /** `Value::operator<=>`: the `std::variant` ordering, first by alternative,
      then by payload. */
  predicate Less(a: Value, b: Value)
  {
    if Rank(a) != Rank(b) then Rank(a) < Rank(b)
    else match (a, b)
      case (Bool(x), Bool(y)) => !x && y
      case (Int(x), Int(y)) => x < y
      case (Double(x), Double(y)) => x < y
      case (Str(x), Str(y)) => StrLess(x, y)
      case _ => false
  }

  lemma {:induction false} StrLessIrreflexive(x: string)
    ensures !StrLess(x, x)
  {
    if x != [] {
      StrLessIrreflexive(x[1..]);
    }
  }

  lemma {:induction false} StrLessTransitive(x: string, y: string, z: string)
    requires StrLess(x, y) && StrLess(y, z)
    ensures StrLess(x, z)
  {
    if x != [] && x[0] == y[0] && y[0] == z[0] {
      StrLessTransitive(x[1..], y[1..], z[1..]);
    }
  }

  lemma {:induction false} StrLessTotal(x: string, y: string)
    requires x != y
    ensures StrLess(x, y) || StrLess(y, x)
  {
    if x != [] && y != [] && x[0] == y[0] {
      assert x == [x[0]] + x[1..] && y == [y[0]] + y[1..];
      StrLessTotal(x[1..], y[1..]);
    }
  }

  /** The ordering is a strict total order on values, so it can serve as the
      key order of a `std::map`. */
  lemma LessIsStrictTotalOrder(a: Value, b: Value, c: Value)
    ensures !Less(a, a)
    ensures Less(a, b) && Less(b, c) ==> Less(a, c)
    ensures a != b ==> Less(a, b) || Less(b, a)
  {
    if a.Str? {
      StrLessIrreflexive(a.s);
    }
    if Less(a, b) && Less(b, c) && a.Str? && b.Str? && c.Str? {
      StrLessTransitive(a.s, b.s, c.s);
    }
    if a != b && a.Str? && b.Str? {
      StrLessTotal(a.s, b.s);
    }
  }

  /** On int values the ordering is integer order. */
  lemma IntOrdering(x: int, y: int)
    ensures Less(Int(x), Int(y)) <==> x < y
    ensures Less(Int(y), Int(x)) <==> y < x
    ensures !Less(Int(x), Int(y)) && !Less(Int(y), Int(x)) <==> Equal(Int(x), Int(y))
  {
  }

  /** `operator!` on a bool value. */
  function Flip(v: Value): (r: Value)
    requires v.Bool?
    ensures r.Bool? && r.b != v.b
  {
    Bool(!v.b)
  }

  /** Prefix `++` on a numeric value: same kind, one more. */
  function Incremented(v: Value): (r: Value)
    requires v.Int? || v.Double?
    ensures Rank(r) == Rank(v)
    ensures r.Int? ==> r.i == v.i + 1
    ensures r.Double? ==> r.d == v.d + 1.0
  {
    if v.Int? then Int(v.i + 1) else Double(v.d + 1.0)
  }

  /** Prefix `--` on a numeric value: same kind, one less. */
  function Decremented(v: Value): (r: Value)
    requires v.Int? || v.Double?
    ensures Rank(r) == Rank(v)
    ensures r.Int? ==> r.i == v.i - 1
    ensures r.Double? ==> r.d == v.d - 1.0
  {
    if v.Int? then Int(v.i - 1) else Double(v.d - 1.0)
  }

  lemma FlipInvolutive(v: Value)
    requires v.Bool?
    ensures Flip(Flip(v)) == v
  {
  }

  lemma IncrementDecrementInverse(v: Value)
    requires v.Int? || v.Double?
    ensures Decremented(Incremented(v)) == v
    ensures Incremented(Decremented(v)) == v
  {
  }

  /** `Value::toString` on bools, ints and strings. */
  function ToString(v: Value): (r: string)
    requires v.Bool? || v.Int? || v.Str?
    ensures v.Bool? ==> (r == "true" <==> v.b) && (r == "false" <==> !v.b)
    ensures v.Int? ==> r == IntToString(v.i)
    ensures v.Str? ==> r == v.s
  {
    match v
    case Bool(b) => if b then "true" else "false"
    case Int(i) => IntToString(i)
    case Str(s) => s
  }

  /** Two ints render alike only when they are equal. */
  lemma ToStringInjectiveOnInts(x: int, y: int)
    requires ToString(Int(x)) == ToString(Int(y))
    ensures x == y
  {
    IntToStringInjective(x, y);
  }

  /** `Value::typeName`: the C++ name of the held alternative. */
  function TypeName(v: Value): (r: string)
    ensures r in ["xdev::variant::None", "bool", "int", "double", "std::string"]
  {
    match v
    case None => "xdev::variant::None"
    case Bool(_) => "bool"
    case Int(_) => "int"
    case Double(_) => "double"
    case Str(_) => "std::string"
  }

  /** The type name tells the alternatives apart. */
  lemma TypeNameIdentifiesKind(a: Value, b: Value)
    ensures TypeName(a) == TypeName(b) <==> Rank(a) == Rank(b)
  {
  }

  /** A scalar value whose in-place operators `!`, `++` and `--` rewrite the
      held alternative. */
  class XVal {
    var value: Value

    constructor(v: Value)
      ensures value == v
    {
      value := v;
    }

    /** `operator!` flips a held bool and returns the value itself. */
    method Not() returns (r: Value)
      requires value.Bool?
      modifies this
      ensures value == Flip(old(value)) && r == value
    {
      value := Flip(value);
      r := value;
    }

    /** Prefix `++`: increments, then yields the new value. */
    method PreIncrement() returns (r: Value)
      requires value.Int? || value.Double?
      modifies this
      ensures value == Incremented(old(value)) && r == value
    {
      value := Incremented(value);
      r := value;
    }

    /** Postfix `++`: yields the old value, then increments. */
    method PostIncrement() returns (r: Value)
      requires value.Int? || value.Double?
      modifies this
      ensures value == Incremented(old(value)) && r == old(value)
    {
      r := value;
      value := Incremented(value);
    }

    /** Prefix `--`: decrements, then yields the new value. */
    method PreDecrement() returns (r: Value)
      requires value.Int? || value.Double?
      modifies this
      ensures value == Decremented(old(value)) && r == value
    {
      value := Decremented(value);
      r := value;
    }

    /** Postfix `--`: yields the old value, then decrements. */
    method PostDecrement() returns (r: Value)
      requires value.Int? || value.Double?
      modifies this
      ensures value == Decremented(old(value)) && r == old(value)
    {
      r := value;
      value := Decremented(value);
    }
  }
}
