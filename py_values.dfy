/**
 * The values `json.loads` produces, and the Python built-ins the ingest path
 * applies to them: `dict.get`, truthiness, `str`, `float`, `",".join`,
 * iteration, and list comprehensions whose element expression may raise.
 */
module PyValues {
  import opened Wrappers

  /** A parsed JSON document as Python holds it.  A JSON number with a fraction
      or an exponent is a `float` (kept as a real: IEEE rounding is not modelled);
      an object is a `dict`, kept as its members in insertion order. */
  datatype Value =
    | Null
    | Bool(b: bool)
    | Int(i: int)
    | Float(x: real)
    | Str(s: string)
    | List(items: seq<Value>)
    | Object(members: seq<Member>)

  datatype Member = Member(key: string, value: Value)

  /** The exceptions the modelled code can raise or catch. */
  datatype Exception =
    | AttributeError          // a method looked up on a value that lacks it (e.g. `None.get`)
    | TypeError
    | ValueError
    | OverflowError           // `float(n)` for an integer beyond the float range
    | GeometryError           // whatever `shapely.geometry.shape` raises on a bad geometry
    | JsonDecodeError         // the uploaded file is not JSON
    | DatabaseError           // a `SQLAlchemyError` raised by flush or commit
    | PlainException(message: string)

  /** The result of evaluating a Python expression: a value, or an exception. */
  datatype Outcome<+T> = Returns(value: T) | Raises(exc: Exception)

  /** Library code outside the model, as opaque functions:
      - `shapeAccepts(g)`: `shapely.geometry.shape(g)` returns instead of raising;
      - `intToFloat(n)`: `float(n)`, or None where it raises OverflowError;
      - `parseFloat(s)`: `float(s)`, or None where it raises ValueError;
      - `floatText(x)`: `str(x)` of a float;
      - `containerText(v)`: `str(v)` of a list or a dict. */
  datatype Runtime = Runtime(
    shapeAccepts: Value -> bool,
    intToFloat: int -> Option<real>,
    parseFloat: string -> Option<real>,
    floatText: real -> string,
    containerText: Value -> string)

  // ---------------------------------------------------------------- dicts

  /** The keys of a dict. */
  function Keys(members: seq<Member>): set<string> {
    set m | m in members :: m.key
  }

  /** The value stored under `key`, if any (the first member with that key). */
  function Lookup(members: seq<Member>, key: string): (r: Option<Value>)
    ensures r.Some? <==> key in Keys(members)
    ensures r.Some? ==> Member(key, r.value) in members
  {
    if members == [] then None
    else if members[0].key == key then Some(members[0].value)
    else Lookup(members[1..], key)
  }

  /** `d.get(key, default)`. */
  function GetOr(members: seq<Member>, key: string, default: Value): Value {
    Lookup(members, key).GetOr(default)
  }

  /** `d.get(key)`: the stored value, or None when the key is absent. */
  function Get(members: seq<Member>, key: string): Value {
    GetOr(members, key, Null)
  }

  /** `{k: v for k, v in d.items() if k not in drop}`, in the dict's order. */
  function Without(members: seq<Member>, drop: set<string>): (r: seq<Member>)
    ensures forall m :: m in r ==> m in members && m.key !in drop
  {
    if members == [] then []
    else if members[0].key in drop then Without(members[1..], drop)
    else [members[0]] + Without(members[1..], drop)
  }

  /** The filtered dict holds exactly the keys that were not dropped, each with
      the value it had before. */
  lemma {:induction false} WithoutLookup(members: seq<Member>, drop: set<string>, key: string)
    ensures Lookup(Without(members, drop), key) == if key in drop then None else Lookup(members, key)
  {
    if members != [] {
      WithoutLookup(members[1..], drop, key);
    }
  }

  lemma WithoutKeys(members: seq<Member>, drop: set<string>)
    ensures Keys(Without(members, drop)) == Keys(members) - drop
  {
    forall key | key in Keys(members) - drop
      ensures key in Keys(Without(members, drop))
    {
      WithoutLookup(members, drop, key);
    }
  }

  // ---------------------------------------------------------------- truthiness

  /** `bool(v)`: None, False, zero, and empty strings, lists and dicts are false. */
  predicate Truthy(v: Value) {
    match v
    case Null => false
    case Bool(b) => b
    case Int(i) => i != 0
    case Float(x) => x != 0.0
    case Str(s) => s != ""
    case List(items) => items != []
    case Object(members) => members != []
  }

  // ---------------------------------------------------------------- str()

  function DigitChar(d: nat): char
    requires d < 10
  {
    "0123456789"[d]
  }

  /** The decimal numeral of a natural number, as `str` writes it. */
  function NatText(n: nat): (s: string)
    ensures |s| > 0
    decreases n
  {
    if n < 10 then [DigitChar(n)] else NatText(n / 10) + [DigitChar(n % 10)]
  }

  /** The number a string of decimal digits denotes; the inverse of `NatText`. */
  function DigitsValue(s: string): int
    decreases |s|
  {
    if s == [] then 0 else DigitsValue(s[..|s| - 1]) * 10 + (s[|s| - 1] as int - '0' as int)
  }

  lemma {:induction false} NatTextRoundTrip(n: nat)
    ensures DigitsValue(NatText(n)) == n
    ensures forall k :: 0 <= k < |NatText(n)| ==> '0' <= NatText(n)[k] <= '9'
    decreases n
  {
    if n >= 10 {
      NatTextRoundTrip(n / 10);
      var s := NatText(n);
      assert s[..|s| - 1] == NatText(n / 10);
    }
  }

  /** `str(i)` of an `int`. */
  function IntText(i: int): string {
    if i < 0 then "-" + NatText(-i) else NatText(i)
  }

  /** `int(s)` of a numeral with an optional leading minus sign. */
  function ParseInt(s: string): int {
    if |s| > 0 && s[0] == '-' then -DigitsValue(s[1..]) else DigitsValue(s)
  }

  /** `int(str(i)) == i`. */
  lemma IntTextRoundTrip(i: int)
    ensures ParseInt(IntText(i)) == i
  {
    NatTextRoundTrip(if i < 0 then -i else i);
    if i < 0 {
      assert IntText(i)[1..] == NatText(-i);
    }
  }

  /** A numeral never contains a comma. */
  lemma IntTextHasNoComma(i: int)
    ensures ',' !in IntText(i)
  {
    NatTextRoundTrip(if i < 0 then -i else i);
  }

  /** `str(v)`.  Floats, lists and dicts go through Python's `repr` machinery,
      which the model takes from the runtime. */
  function Text(v: Value, rt: Runtime): string {
    match v
    case Null => "None"
    case Bool(b) => if b then "True" else "False"
    case Int(i) => IntText(i)
    case Float(x) => rt.floatText(x)
    case Str(s) => s
    case List(_) => rt.containerText(v)
    case Object(_) => rt.containerText(v)
  }

  // ---------------------------------------------------------------- join / split

  /** `sep.join(parts)`. */
  function Join(sep: string, parts: seq<string>): string
    decreases |parts|
  {
    if |parts| == 0 then ""
    else if |parts| == 1 then parts[0]
    else parts[0] + sep + Join(sep, parts[1..])
  }

  /** The position of the first `c` in `s`. */
  function IndexOf(s: string, c: char): (i: nat)
    requires c in s
    ensures i < |s| && s[i] == c && c !in s[..i]
  {
    if s[0] == c then 0 else 1 + IndexOf(s[1..], c)
  }

  /** `s.split(sep)` for a one-character separator: the inverse of `Join`. */
  function Split(s: string, sep: char): (r: seq<string>)
    ensures |r| > 0
    decreases |s|
  {
    if sep in s then
      var i := IndexOf(s, sep);
      [s[..i]] + Split(s[i + 1..], sep)
    else [s]
  }

  lemma SplitAtFirst(a: string, sep: char, b: string)
    requires sep !in a
    ensures Split(a + [sep] + b, sep) == [a] + Split(b, sep)
  {
    var s := a + [sep] + b;
    assert s[|a|] == sep;
    var i := IndexOf(s, sep);
    assert s[..i] == a;
    assert s[i + 1..] == b;
  }

  /** Splitting a join on its separator gives the parts back, provided there is
      at least one part and no part contains the separator. */
  lemma {:induction false} SplitJoin(sep: char, parts: seq<string>)
    requires |parts| > 0
    requires forall k :: 0 <= k < |parts| ==> sep !in parts[k]
    ensures Split(Join([sep], parts), sep) == parts
    decreases |parts|
  {
    if |parts| > 1 {
      SplitJoin(sep, parts[1..]);
      SplitAtFirst(parts[0], sep, Join([sep], parts[1..]));
    }
  }

  // ---------------------------------------------------------------- float()

  /** `float(v)`. */
  function ToFloat(v: Value, rt: Runtime): Outcome<real> {
    match v
    case Null => Raises(TypeError)
    case Bool(b) => Returns(if b then 1.0 else 0.0)
    case Int(i) => (match rt.intToFloat(i) case Some(x) => Returns(x) case None => Raises(OverflowError))
    case Float(x) => Returns(x)
    case Str(s) => (match rt.parseFloat(s) case Some(x) => Returns(x) case None => Raises(ValueError))
    case List(_) => Raises(TypeError)
    case Object(_) => Raises(TypeError)
  }

  // ---------------------------------------------------------------- iteration

  /** `[f(x) for x in xs]`: the elements are evaluated left to right and the
      first exception aborts the whole list. */
  function Comprehension<A, B>(xs: seq<A>, f: A -> Outcome<B>): (r: Outcome<seq<B>>)
    ensures r.Returns? <==> forall k :: 0 <= k < |xs| ==> f(xs[k]).Returns?
    ensures r.Returns? ==> |r.value| == |xs| && forall k :: 0 <= k < |xs| ==> f(xs[k]) == Returns(r.value[k])
    ensures r.Raises? ==>
      exists k :: 0 <= k < |xs| && f(xs[k]) == Raises(r.exc) && forall j :: 0 <= j < k ==> f(xs[j]).Returns?
    decreases |xs|
  {
    if xs == [] then Returns([])
    else
      match f(xs[0])
      case Raises(e) => Raises(e)
      case Returns(y) =>
        match Comprehension(xs[1..], f)
        case Raises(e) => Raises(e)
        case Returns(ys) => Returns([y] + ys)
  }

  /** What `for x in v` visits: the items of a list, the one-character strings of a
      string, the keys of a dict; anything else is not iterable. */
  function Iterate(v: Value): (r: Outcome<seq<Value>>)
    ensures r.Raises? <==> !(v.List? || v.Str? || v.Object?)
    ensures r.Returns? && !v.List? ==> forall k :: 0 <= k < |r.value| ==> r.value[k].Str?
  {
    match v
    case List(items) => Returns(items)
    case Str(s) => Returns(seq(|s|, k requires 0 <= k < |s| => Str([s[k]])))
    case Object(members) => Returns(seq(|members|, k requires 0 <= k < |members| => Str(members[k].key)))
    case _ => Raises(TypeError)
  }
}
