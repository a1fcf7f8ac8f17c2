/**
 * The JSON-like values that flow between application code and the document
 * store: JavaScript primitives, `Date`s, the store's `Timestamp`s, write-time
 * `FieldValue` sentinels, document references, arrays and plain objects.
 *
 * A plain object is a list of fields in insertion order. (JavaScript lists
 * array-index keys such as "0" first; the model does not. Its properties
 * are stated through `Lookup` and `Keys`, which ignore order, except
 * `Assign`'s clause that a new key is appended at the end.) Reading a
 * property returns the first field with that key; every object the runtime
 * builds has distinct keys.
 */
module Values {
  import opened Wrappers

  /** `boolean`, `number` (integers only) and `string`. */
  datatype Primitive = Bool(b: bool) | Num(n: int) | Str(s: string)

  /** The `FieldValue` sentinels this code base produces: `serverTimestamp()`,
      and `increment(n)` / `decrement(n)` (the latter is `increment(-n)`). */
  datatype FieldValue = ServerTimestamp | Increment(operand: int)

  datatype Value =
    | Undefined
    | Null
    | Prim(p: Primitive)
    | Date(millis: int)                      // a JavaScript `Date`, by its time value
    | Timestamp(seconds: int, nanos: int)    // the store's `Timestamp`
    | Sentinel(fv: FieldValue)
    | DocRef(path: string)                   // a `DocumentReference`
    | Arr(items: seq<Value>)
    | Obj(fields: seq<Field>)

  datatype Field = Field(key: string, value: Value)

  type Fields = seq<Field>

  /** The key under which a document's id travels in an object. */
  const IdKey := "id"

  function StrValue(s: string): Value {
    Prim(Str(s))
  }

  /** The keys an object enumerates. */
  function Keys(fs: Fields): set<string> {
    if fs == [] then {} else {fs[0].key} + Keys(fs[1..])
  }

  /** What every object built by the JavaScript runtime satisfies. */
  predicate DistinctKeys(fs: Fields) {
    fs == [] || (fs[0].key !in Keys(fs[1..]) && DistinctKeys(fs[1..]))
  }

  /** Property read `o[k]`, `None` standing for a missing own key. */
  function Lookup(fs: Fields, k: string): (r: Option<Value>)
    ensures r.Some? <==> k in Keys(fs)
  {
    if fs == [] then None
    else if fs[0].key == k then Some(fs[0].value)
    else Lookup(fs[1..], k)
  }

  /** The value read is that of a field of the object. */
  lemma {:induction false} LookupFound(fs: Fields, k: string)
    requires k in Keys(fs)
    ensures Field(k, Lookup(fs, k).value) in fs
  {
    if fs[0].key != k {
      LookupFound(fs[1..], k);
    }
  }

  /** Property assignment `o[k] = v`: an existing key keeps its position,
      a new key is appended. */
  function Assign(fs: Fields, k: string, v: Value): (r: Fields)
    ensures Keys(r) == Keys(fs) + {k}
    ensures Lookup(r, k) == Some(v)
    ensures forall j :: j != k ==> Lookup(r, j) == Lookup(fs, j)
    ensures DistinctKeys(fs) ==> DistinctKeys(r)
    ensures k !in Keys(fs) ==> r == fs + [Field(k, v)]
    ensures k in Keys(fs) ==> |r| == |fs|
  {
    if fs == [] then [Field(k, v)]
    else if fs[0].key == k then
      var r := [Field(k, v)] + fs[1..];
      assert r[1..] == fs[1..];
      r
    else
      var rest := Assign(fs[1..], k, v);
      var r := [fs[0]] + rest;
      assert r[1..] == rest;
      assert Lookup(r, k) == Lookup(rest, k) == Some(v);
      assert k !in Keys(fs) ==> r == fs + [Field(k, v)] by {
        if k !in Keys(fs) {
          assert fs == [fs[0]] + fs[1..];
        }
      }
      r
  }

  /** Property deletion `delete o[k]`. */
  function Remove(fs: Fields, k: string): (r: Fields)
    ensures Keys(r) == Keys(fs) - {k}
    ensures Lookup(r, k) == None
    ensures forall j :: j != k ==> Lookup(r, j) == Lookup(fs, j)
    ensures DistinctKeys(fs) ==> DistinctKeys(r)
    ensures k !in Keys(fs) ==> r == fs
  {
    if fs == [] then []
    else if fs[0].key == k then Remove(fs[1..], k)
    else [fs[0]] + Remove(fs[1..], k)
  }

  /** The fields `delete o[k]` keeps are exactly those with another key. */
  lemma {:induction false} RemoveMembers(fs: Fields, k: string)
    ensures forall f :: f in Remove(fs, k) <==> f in fs && f.key != k
  {
    if fs != [] {
      RemoveMembers(fs[1..], k);
      assert fs == [fs[0]] + fs[1..];
    }
  }

  /** `o[k] = v` introduces no field other than the assigned one. */
  lemma {:induction false} AssignMembers(fs: Fields, k: string, v: Value)
    ensures forall f :: f in Assign(fs, k, v) ==> f == Field(k, v) || f in fs
  {
    if fs != [] && fs[0].key != k {
      AssignMembers(fs[1..], k, v);
    }
  }

  /** Object spread `{ ...target, ...source }`: the source's fields are
      assigned onto the target one after the other. */
  function Spread(target: Fields, source: Fields): (r: Fields)
    ensures Keys(r) == Keys(target) + Keys(source)
    ensures DistinctKeys(target) ==> DistinctKeys(r)
    ensures DistinctKeys(source) ==>
      forall j :: Lookup(r, j) == if j in Keys(source) then Lookup(source, j) else Lookup(target, j)
    decreases |source|
  {
    if source == [] then target
    else Spread(Assign(target, source[0].key, source[0].value), source[1..])
  }

  /** The own enumerable properties of the runtime class instances that the
      converters' plain-object branches walk when no earlier branch claims
      them: a `Date` has none, the firebase-admin `Timestamp` keeps its two
      components, `increment(n)` keeps its operand. */
  function InstanceFields(v: Value): (r: Fields)
    requires v.Date? || v.Timestamp? || v.Sentinel?
    ensures DistinctKeys(r) && FieldsDefined(r) && !FieldsHaveTimestamp(r)
  {
    match v
    case Date(_) => []
    case Timestamp(s, n) =>
      var tail := [Field("_nanoseconds", Prim(Num(n)))];
      assert tail[1..] == [];
      assert Keys(tail) == {"_nanoseconds"} && DistinctKeys(tail);
      assert |"_seconds"| != |"_nanoseconds"|;
      var fs := [Field("_seconds", Prim(Num(s)))] + tail;
      assert fs[1..] == tail;
      PrimitiveFieldsClean(fs);
      fs
    case Sentinel(ServerTimestamp) => []
    case Sentinel(Increment(n)) =>
      var fs := [Field("operand", Prim(Num(n)))];
      assert fs[1..] == [];
      PrimitiveFieldsClean(fs);
      fs
  }

  lemma PrimitiveFieldsClean(fs: Fields)
    requires forall i :: 0 <= i < |fs| ==> fs[i].value.Prim?
    ensures FieldsDefined(fs) && !FieldsHaveTimestamp(fs)
  {
    if fs != [] {
      PrimitiveFieldsClean(fs[1..]);
    }
  }

  /** No object at any depth holds a field whose value is `undefined`
      (array elements may still be `undefined`). */
  predicate Defined(v: Value)
    decreases v, 1
  {
    match v
    case Arr(items) => forall i :: 0 <= i < |items| ==> Defined(items[i])
    case Obj(fs) => FieldsDefined(fs)
    case _ => true
  }

  predicate FieldsDefined(fs: Fields)
    decreases fs, 0
  {
    fs == [] || (!fs[0].value.Undefined? && Defined(fs[0].value) && FieldsDefined(fs[1..]))
  }

  /** Some `Timestamp` occurs at some depth. */
  predicate HasTimestamp(v: Value)
    decreases v, 1
  {
    match v
    case Timestamp(_, _) => true
    case Arr(items) => exists i :: 0 <= i < |items| && HasTimestamp(items[i])
    case Obj(fs) => FieldsHaveTimestamp(fs)
    case _ => false
  }

  predicate FieldsHaveTimestamp(fs: Fields)
    decreases fs, 0
  {
    fs != [] && (HasTimestamp(fs[0].value) || FieldsHaveTimestamp(fs[1..]))
  }

  /** JavaScript truthiness. */
  predicate Truthy(v: Value) {
    match v
    case Undefined => false
    case Null => false
    case Prim(Bool(b)) => b
    case Prim(Num(n)) => n != 0
    case Prim(Str(s)) => s != ""
    case _ => true
  }
}
