/**
 * The write-side converter `toFirestore` (src/firestore/toFirestore.ts):
 * a recursive walk that copies a domain value into the shape handed to the
 * store, dropping object keys whose value is `undefined`.
 */
module FirestoreWrite {
  import opened Wrappers
  import opened Values

  /** `toFirestore(obj)`. Leaves (`null`, every non-object, `FieldValue`
      sentinels, document references) pass through, a `Date` is copied,
      arrays map element-wise, and any other object is rebuilt from its own
      keys. A `Timestamp` has no branch of its own, so it is rebuilt as a
      plain object from its own properties. */
  function ToFirestore(v: Value): (r: Value)
    ensures v.Undefined? || v.Null? || v.Prim? || v.Sentinel? || v.DocRef? ==> r == v
    ensures v.Date? ==> r == Date(v.millis)
    ensures v.Timestamp? ==>
      r == Obj([Field("_seconds", Prim(Num(v.seconds))), Field("_nanoseconds", Prim(Num(v.nanos)))])
    ensures v.Arr? ==> r.Arr? && |r.items| == |v.items|
    ensures v.Arr? ==> forall i :: 0 <= i < |v.items| ==> r.items[i] == ToFirestore(v.items[i])
    ensures v.Obj? ==> r.Obj? && Keys(r.fields) <= Keys(v.fields)
    ensures r.Undefined? <==> v.Undefined?
    ensures Defined(r)
    ensures !HasTimestamp(r)
    decreases v, 1
  {
    match v
    case Date(t) => Date(t)
    case Timestamp(s, n) =>
      assert InstanceFields(v) == [Field("_seconds", Prim(Num(s))), Field("_nanoseconds", Prim(Num(n)))];
      Obj(InstanceFields(v))
    case Arr(items) => Arr(seq(|items|, i requires 0 <= i < |items| => ToFirestore(items[i])))
    case Obj(fs) => Obj(ToFirestoreFields(fs))
    case _ => v
  }

  /** The object branch: one field per own key whose value is not
      `undefined`, in enumeration order, each value converted. */
  function ToFirestoreFields(fs: Fields): (r: Fields)
    ensures Keys(r) <= Keys(fs)
    ensures |r| <= |fs|
    ensures DistinctKeys(fs) ==> DistinctKeys(r)
    ensures FieldsDefined(r)
    ensures !FieldsHaveTimestamp(r)
    decreases fs, 0
  {
    if fs == [] then []
    else if fs[0].value.Undefined? then ToFirestoreFields(fs[1..])
    else [Field(fs[0].key, ToFirestore(fs[0].value))] + ToFirestoreFields(fs[1..])
  }

  /** Exactly the keys whose value is not `undefined` survive (a `null`
      value survives), each holding its converted value. */
  lemma {:induction false} ToFirestoreFieldsLookup(fs: Fields, k: string)
    requires DistinctKeys(fs)
    ensures Lookup(ToFirestoreFields(fs), k) ==
      match Lookup(fs, k)
      case Some(v) => if v.Undefined? then None else Some(ToFirestore(v))
      case None => None
    decreases fs
  {
    if fs != [] {
      ToFirestoreFieldsLookup(fs[1..], k);
    }
  }

  /** A value is left as it is exactly when no object in it holds an
      `undefined` field and it contains no `Timestamp`. */
  lemma {:induction false} ToFirestoreFixpoint(v: Value)
    ensures ToFirestore(v) == v <==> Defined(v) && !HasTimestamp(v)
    decreases v, 1
  {
    match v
    case Arr(items) =>
      if Defined(v) && !HasTimestamp(v) {
        forall i | 0 <= i < |items| ensures ToFirestore(items[i]) == items[i] {
          ToFirestoreFixpoint(items[i]);
        }
      }
    case Obj(fs) =>
      if Defined(v) && !HasTimestamp(v) {
        ToFirestoreFieldsFixpoint(fs);
      }
    case _ =>
  }

  lemma {:induction false} ToFirestoreFieldsFixpoint(fs: Fields)
    requires FieldsDefined(fs) && !FieldsHaveTimestamp(fs)
    ensures ToFirestoreFields(fs) == fs
    decreases fs, 0
  {
    if fs != [] {
      ToFirestoreFixpoint(fs[0].value);
      ToFirestoreFieldsFixpoint(fs[1..]);
    }
  }

  /** Converting twice is converting once. */
  lemma ToFirestoreIdempotent(v: Value)
    ensures ToFirestore(ToFirestore(v)) == ToFirestore(v)
  {
    ToFirestoreFixpoint(ToFirestore(v));
  }
}
