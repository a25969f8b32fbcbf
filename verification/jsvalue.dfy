/**
  The JavaScript values that cross the server's boundary: request bodies
  parsed from JSON, the objects the handlers build, and the tagged items
  handed to the store. Numbers are integers in this model.
*/
module JsValue {
  import Text

  /** A JSON-compatible value. An object keeps its own keys in insertion order, as `Object.entries` lists them. */
  datatype Value =
    | Undefined
    | Null
    | Bool(b: bool)
    | Num(n: int)
    | Str(s: string)
    | Arr(elems: seq<Value>)
    | Obj(fields: seq<(string, Value)>)

  /** What the core's code can throw, or have thrown at it by the store. */
  datatype Fault =
    | TypeError            // a property read on null/undefined, `in` on a primitive, calling a non-function
    | ReferenceError       // a name read outside the block that declares it
    | ConditionFailed      // the store refused a conditional write
    | Rejected             // the store refused an item that is not made of tagged attribute values

  predicate Nullish(v: Value) {
    v.Undefined? || v.Null?
  }

  /** JavaScript truthiness, as used by `!v`, `v || d` and `filter(Boolean)`. */
  predicate Truthy(v: Value) {
    match v
    case Undefined => false
    case Null => false
    case Bool(b) => b
    case Num(n) => n != 0
    case Str(s) => s != ""
    case Arr(_) => true
    case Obj(_) => true
  }

  /** The keys of an object's entries, in order. */
  function Keys(fields: seq<(string, Value)>): (r: seq<string>)
    ensures |r| == |fields|
    ensures forall i :: 0 <= i < |r| ==> r[i] == fields[i].0
  {
    seq(|fields|, i requires 0 <= i < |fields| => fields[i].0)
  }

  /** The entries of a JavaScript object: no key occurs twice. */
  ghost predicate DistinctKeys(fields: seq<(string, Value)>) {
    forall i, j :: 0 <= i < j < |fields| ==> fields[i].0 != fields[j].0
  }

  /** `obj[key]` for an own property: the value stored under `key`, or `undefined`. */
  function Get(fields: seq<(string, Value)>, key: string): (r: Value)
    ensures key !in Keys(fields) ==> r == Undefined
    ensures key in Keys(fields) ==> exists i :: 0 <= i < |fields| && fields[i] == (key, r)
  {
    if fields == [] then Undefined
    else if fields[0].0 == key then fields[0].1
    else
      var r := Get(fields[1..], key);
      assert Keys(fields) == [fields[0].0] + Keys(fields[1..]);
      assert key in Keys(fields[1..]) ==> exists i :: 0 <= i < |fields| && fields[i] == (key, r) by {
        if key in Keys(fields[1..]) {
          var i :| 0 <= i < |fields[1..]| && fields[1..][i] == (key, r);
          assert fields[i + 1] == (key, r);
        }
      }
      r
  }

  /** In an object, the value read under a key is the one stored with it. */
  lemma {:induction false} GetAt(fields: seq<(string, Value)>, i: nat)
    requires DistinctKeys(fields) && i < |fields|
    ensures Get(fields, fields[i].0) == fields[i].1
  {
    if i > 0 {
      DistinctKeysTail(fields);
      GetAt(fields[1..], i - 1);
    }
  }

  lemma DistinctKeysTail(fields: seq<(string, Value)>)
    requires DistinctKeys(fields) && fields != []
    ensures DistinctKeys(fields[1..])
  {
    forall a, b | 0 <= a < b < |fields[1..]| ensures fields[1..][a].0 != fields[1..][b].0 {
      assert fields[1..][a] == fields[a + 1] && fields[1..][b] == fields[b + 1];
    }
  }

  /**
    `v[key]` on a value that is not nullish. Only the names the core reads
    (`id`, `championName`, the slot arrays, `description`, `creator`, `S`,
    `L`) are asked for; none of them is a property of an array or a
    primitive.
  */
  function Prop(v: Value, key: string): (r: Value)
    requires !Nullish(v)
    ensures !v.Obj? ==> r == Undefined
  {
    if v.Obj? then Get(v.fields, key) else Undefined
  }

  /** `key in v`: a `TypeError` on primitives; on arrays, none of the names asked for. */
  function In(key: string, v: Value): (r: Result<bool>)
    ensures r.Fail? <==> !(v.Obj? || v.Arr?)
    ensures v.Obj? ==> r == Ok(key in Keys(v.fields))
  {
    match v
    case Obj(fields) => Ok(key in Keys(fields))
    case Arr(_) => Ok(false)
    case _ => Fail(TypeError)
  }

  /** A computation that either yields a value or throws. */
  datatype Result<+T> = Ok(value: T) | Fail(fault: Fault)

  /** The decimal numeral of an integer, as `String(n)` writes it. */
  function NumToString(n: int): (r: string)
    ensures r != ""
    ensures n < 0 <==> r[0] == '-'
  {
    if n < 0 then "-" + Digits(-n) else Digits(n)
  }

  function Digits(n: nat): (r: string)
    ensures r != "" && '0' <= r[0] <= '9'
    ensures forall i :: 0 <= i < |r| ==> '0' <= r[i] <= '9'
  {
    var d := ['0' + (n % 10) as char];
    if n < 10 then d else Digits(n / 10) + d
  }

  /** `String(v)`: strings are kept as they are; arrays join their elements' strings with ",", writing null and undefined as "". */
  function ToJsString(v: Value): (r: string)
    ensures v.Str? ==> r == v.s
    decreases v, 1
  {
    match v
    case Undefined => "undefined"
    case Null => "null"
    case Bool(b) => if b then "true" else "false"
    case Num(n) => NumToString(n)
    case Str(s) => s
    case Arr(xs) => Text.Join(ElementStrings(xs), ",")
    case Obj(_) => "[object Object]"
  }

  function ElementStrings(xs: seq<Value>): (r: seq<string>)
    ensures |r| == |xs|
    decreases xs, 0
  {
    if xs == [] then []
    else [if Nullish(xs[0]) then "" else ToJsString(xs[0])] + ElementStrings(xs[1..])
  }
}
