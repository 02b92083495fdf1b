/**
 * JSON values as the TypeScript code sees them: parsed request bodies, the
 * JSON-typed database columns and a parsed model reply.
 */
module Json {
  import opened Wrappers

  /** A date column or `new Date()`; instants are opaque integers here. */
  type Timestamp = int

  datatype Value =
    | Null
    | Bool(b: bool)
    | Num(n: real)
    | Str(s: string)
    | Arr(items: seq<Value>)
    | Obj(fields: map<string, Value>)

  /** JavaScript truthiness: null, false, 0 and "" are falsy, every array and
      object is truthy. */
  predicate Truthy(v: Value)
  {
    match v
    case Null => false
    case Bool(b) => b
    case Num(n) => n != 0.0
    case Str(s) => s != ""
    case Arr(_) => true
    case Obj(_) => true
  }

  /** Reading property `key` of a non-null value; None is `undefined`. Only an
      object has the own properties the source reads. */
  function Field(v: Value, key: string): (r: Option<Value>)
    ensures r.Some? <==> v.Obj? && key in v.fields
    ensures r.Some? ==> r.value == v.fields[key]
  {
    match v
    case Obj(fields) => if key in fields then Some(fields[key]) else None
    case _ => None
  }

  /** `value.filter((entry) => typeof entry === "string")`. */
  function StringEntries(items: seq<Value>): (r: seq<string>)
    ensures |r| <= |items|
    ensures forall x :: x in r <==> Str(x) in items
  {
    if items == [] then []
    else
      var rest := StringEntries(items[1..]);
      assert forall x :: Str(x) in items <==> Str(x) == items[0] || Str(x) in items[1..];
      if items[0].Str? then [items[0].s] + rest else rest
  }

  /** The filter keeps the original order: it distributes over concatenation. */
  lemma {:induction false} StringEntriesAppend(a: seq<Value>, b: seq<Value>)
    ensures StringEntries(a + b) == StringEntries(a) + StringEntries(b)
  {
    if a == [] {
      assert a + b == b;
    } else {
      assert (a + b)[0] == a[0];
      assert (a + b)[1..] == a[1..] + b;
      StringEntriesAppend(a[1..], b);
    }
  }

  function Strs(xs: seq<string>): (r: seq<Value>)
    ensures |r| == |xs| && forall i :: 0 <= i < |xs| ==> r[i] == Str(xs[i])
  {
    if xs == [] then [] else [Str(xs[0])] + Strs(xs[1..])
  }

  /** A list of strings stored as a JSON array reads back unchanged. */
  lemma {:induction false} StringEntriesOfStrs(xs: seq<string>)
    ensures StringEntries(Strs(xs)) == xs
  {
    if xs != [] {
      assert Strs(xs)[1..] == Strs(xs[1..]);
      StringEntriesOfStrs(xs[1..]);
    }
  }
}
