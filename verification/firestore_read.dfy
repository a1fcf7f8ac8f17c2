/**
 * The read-side converters: `toNativeTypes` (src/firestore/toNativeTypes.ts),
 * which turns store `Timestamp`s back into `Date`s, and `ofFirestore`
 * (src/firestore/ofFirestore.ts), which merges a document's id into its body.
 *
 * `ToNativeTypesAsWritten` follows the source branch for branch; the model
 * uses `ToNativeTypes`, which differs only on `Date` and `FieldValue` inputs.
 * The store keeps neither (see the `Commit` module), so on what it returns
 * the two agree: `AsWrittenAgreesOnStoreData`, `OfFirestoreAgreesOnStoreData`.
 */
module FirestoreRead {
  import opened Wrappers
  import opened Values

  /** `Timestamp.toDate()`: `new Date(seconds * 1000 + Math.round(nanos / 1e6))`,
      the nanoseconds rounded to the nearest millisecond, halves upwards. */
  function TimestampMillis(seconds: int, nanos: int): (ms: int)
    ensures (ms - seconds * 1000) * 1000000 - 500000 <= nanos < (ms - seconds * 1000) * 1000000 + 500000
  {
    seconds * 1000 + (nanos + 500000) / 1000000
  }

  /** `toNativeTypes(obj)` exactly as written: `null`, non-objects and
      document references pass through, a `Timestamp` becomes a `Date`,
      arrays map element-wise, and every other object, a `Date` or a
      `FieldValue` included, is rebuilt from its own enumerable keys. */
  function ToNativeTypesAsWritten(v: Value): (r: Value)
    ensures v.Undefined? || v.Null? || v.Prim? || v.DocRef? ==> r == v
    ensures v.Timestamp? ==> r == Date(TimestampMillis(v.seconds, v.nanos))
    ensures v.Date? ==> r == Obj([])
    ensures v.Arr? ==> r.Arr? && |r.items| == |v.items|
    ensures v.Arr? ==> forall i :: 0 <= i < |v.items| ==> r.items[i] == ToNativeTypesAsWritten(v.items[i])
    ensures v.Sentinel? ==> r == Obj(InstanceFields(v))
    ensures v.Obj? ==> r.Obj? && Keys(r.fields) == Keys(v.fields) && |r.fields| == |v.fields|
    ensures v.Obj? ==> forall i :: 0 <= i < |v.fields| ==>
      r.fields[i] == Field(v.fields[i].key, ToNativeTypesAsWritten(v.fields[i].value))
    decreases v, 1
  {
    match v
    case Timestamp(s, n) => Date(TimestampMillis(s, n))
    case Date(_) => Obj(InstanceFields(v))
    case Sentinel(_) => Obj(InstanceFields(v))
    case Arr(items) => Arr(seq(|items|, i requires 0 <= i < |items| => ToNativeTypesAsWritten(items[i])))
    case Obj(fs) => Obj(ToNativeFieldsAsWritten(fs))
    case _ => v
  }

  /** The object branch: every own key, in order, with its value converted. */
  function ToNativeFieldsAsWritten(fs: Fields): (r: Fields)
    ensures |r| == |fs|
    ensures Keys(r) == Keys(fs)
    ensures DistinctKeys(fs) ==> DistinctKeys(r)
    ensures forall i :: 0 <= i < |fs| ==> r[i] == Field(fs[i].key, ToNativeTypesAsWritten(fs[i].value))
    decreases fs, 0
  {
    if fs == [] then []
    else
      var rest := ToNativeFieldsAsWritten(fs[1..]);
      var r := [Field(fs[0].key, ToNativeTypesAsWritten(fs[0].value))] + rest;
      assert r[1..] == rest;
      r
  }

  /** Applying the as-written converter twice destroys every date: the
      first pass turns a `Timestamp` into a `Date`, the second turns that
      `Date` into an empty object. */
  lemma AsWrittenNotIdempotent(seconds: int, nanos: int)
    ensures ToNativeTypesAsWritten(Timestamp(seconds, nanos)).Date?
    ensures ToNativeTypesAsWritten(ToNativeTypesAsWritten(Timestamp(seconds, nanos))) == Obj([])
    ensures ToNativeTypesAsWritten(ToNativeTypesAsWritten(Timestamp(seconds, nanos)))
         != ToNativeTypesAsWritten(Timestamp(seconds, nanos))
  {
  }

  /** `toNativeTypes` as evidently intended: only `Timestamp`s are converted;
      every other leaf, native `Date`s and sentinels included, passes
      through. */
  function ToNativeTypes(v: Value): (r: Value)
    ensures v.Undefined? || v.Null? || v.Prim? || v.DocRef? || v.Date? || v.Sentinel? ==> r == v
    ensures v.Timestamp? ==> r == Date(TimestampMillis(v.seconds, v.nanos))
    ensures v.Arr? ==> r.Arr? && |r.items| == |v.items|
    ensures v.Arr? ==> forall i :: 0 <= i < |v.items| ==> r.items[i] == ToNativeTypes(v.items[i])
    ensures v.Obj? ==> r.Obj? && Keys(r.fields) == Keys(v.fields) && |r.fields| == |v.fields|
    ensures !HasTimestamp(r)
    ensures !HasTimestamp(v) ==> r == v
    decreases v, 1
  {
    match v
    case Timestamp(s, n) => Date(TimestampMillis(s, n))
    case Arr(items) =>
      var r := Arr(seq(|items|, i requires 0 <= i < |items| => ToNativeTypes(items[i])));
      assert !HasTimestamp(v) ==> r.items == items;
      r
    case Obj(fs) => Obj(ToNativeFields(fs))
    case _ => v
  }

  /** The object branch: every own key is kept, in order, with its value
      converted; nothing is filtered. */
  function ToNativeFields(fs: Fields): (r: Fields)
    ensures |r| == |fs|
    ensures Keys(r) == Keys(fs)
    ensures DistinctKeys(fs) ==> DistinctKeys(r)
    ensures !FieldsHaveTimestamp(r)
    ensures !FieldsHaveTimestamp(fs) ==> r == fs
    decreases fs, 0
  {
    if fs == [] then []
    else [Field(fs[0].key, ToNativeTypes(fs[0].value))] + ToNativeFields(fs[1..])
  }

  function NativeOption(o: Option<Value>): Option<Value> {
    match o
    case Some(v) => Some(ToNativeTypes(v))
    case None => None
  }

  /** Reading a converted object's key reads the converted value. */
  lemma {:induction false} ToNativeFieldsLookup(fs: Fields, k: string)
    ensures Lookup(ToNativeFields(fs), k) == NativeOption(Lookup(fs, k))
    decreases fs
  {
    if fs != [] {
      ToNativeFieldsLookup(fs[1..], k);
    }
  }

  /** Converting twice is converting once. */
  lemma ToNativeTypesIdempotent(v: Value)
    ensures ToNativeTypes(ToNativeTypes(v)) == ToNativeTypes(v)
  {
  }

  /** Neither a `Date` nor a `FieldValue` at any depth: what a document
      read back from the store holds. */
  predicate FromStore(v: Value)
    decreases v, 1
  {
    match v
    case Date(_) => false
    case Sentinel(_) => false
    case Arr(items) => forall i :: 0 <= i < |items| ==> FromStore(items[i])
    case Obj(fs) => FieldsFromStore(fs)
    case _ => true
  }

  predicate FieldsFromStore(fs: Fields)
    decreases fs, 0
  {
    fs == [] || (FromStore(fs[0].value) && FieldsFromStore(fs[1..]))
  }

  /** On everything the store can return, the source's converter and the
      corrected one coincide. */
  lemma {:induction false} AsWrittenAgreesOnStoreData(v: Value)
    requires FromStore(v)
    ensures ToNativeTypesAsWritten(v) == ToNativeTypes(v)
    decreases v, 1
  {
    match v
    case Arr(items) =>
      forall i | 0 <= i < |items|
        ensures ToNativeTypesAsWritten(items[i]) == ToNativeTypes(items[i])
      {
        AsWrittenAgreesOnStoreData(items[i]);
      }
    case Obj(fs) =>
      FieldsAgreeOnStoreData(fs);
    case _ =>
  }

  lemma {:induction false} FieldsAgreeOnStoreData(fs: Fields)
    requires FieldsFromStore(fs)
    ensures ToNativeFieldsAsWritten(fs) == ToNativeFields(fs)
    decreases fs, 0
  {
    if fs != [] {
      AsWrittenAgreesOnStoreData(fs[0].value);
      FieldsAgreeOnStoreData(fs[1..]);
    }
  }

  /** A field list holds store data exactly when each of its fields does. */
  lemma {:induction false} FieldsFromStoreMembers(fs: Fields)
    ensures FieldsFromStore(fs) <==> forall f :: f in fs ==> FromStore(f.value)
    decreases fs
  {
    if fs != [] {
      FieldsFromStoreMembers(fs[1..]);
      assert fs == [fs[0]] + fs[1..];
    }
  }

  /** Spreading store data over store data gives store data. */
  lemma {:induction false} SpreadFromStore(target: Fields, source: Fields)
    requires FieldsFromStore(target) && FieldsFromStore(source)
    ensures FieldsFromStore(Spread(target, source))
    decreases |source|
  {
    if source != [] {
      var spreadOnce := Assign(target, source[0].key, source[0].value);
      FieldsFromStoreMembers(target);
      FieldsFromStoreMembers(spreadOnce);
      AssignMembers(target, source[0].key, source[0].value);
      SpreadFromStore(spreadOnce, source[1..]);
    }
  }

  /** A document as the store hands it back: its id and `data()`. */
  datatype Snapshot = Snapshot(id: string, data: Fields)

  /** What a field read from the store looks like after `ofFirestore`. */
  function ReadValue(v: Value, hasTimestamp: bool): Value {
    if hasTimestamp then ToNativeTypes(v) else v
  }

  /** `{ id: document.id, ...document.data() }`: the body is spread after
      the id, so a stored `id` field overrides the document id. */
  function IdMerge(doc: Snapshot): (r: Fields)
    ensures Keys(r) == Keys(doc.data) + {IdKey}
    ensures DistinctKeys(doc.data) ==> DistinctKeys(r)
    ensures DistinctKeys(doc.data) ==>
      Lookup(r, IdKey) == if IdKey in Keys(doc.data) then Lookup(doc.data, IdKey) else Some(StrValue(doc.id))
    ensures DistinctKeys(doc.data) ==> forall k :: k != IdKey ==> Lookup(r, k) == Lookup(doc.data, k)
  {
    var target := [Field(IdKey, StrValue(doc.id))];
    assert target[1..] == [];
    assert DistinctKeys(target);
    Spread(target, doc.data)
  }

  /** `ofFirestore(document, hasTimestamp = false)`. */
  function OfFirestore(doc: Snapshot, hasTimestamp: bool := false): (r: Fields)
    ensures IdKey in Keys(r)
    ensures Keys(r) == Keys(doc.data) + {IdKey}
    ensures DistinctKeys(doc.data) ==> DistinctKeys(r)
    ensures hasTimestamp ==> !FieldsHaveTimestamp(r)
    ensures !hasTimestamp ==> r == IdMerge(doc)
  {
    var data := IdMerge(doc);
    if hasTimestamp then ToNativeFields(data) else data
  }

  /** `ofFirestore` with the source's converter. */
  function OfFirestoreAsWritten(doc: Snapshot, hasTimestamp: bool := false): (r: Fields)
    ensures |r| == |IdMerge(doc)|
    ensures Keys(r) == Keys(doc.data) + {IdKey}
    ensures DistinctKeys(doc.data) ==> DistinctKeys(r)
    ensures hasTimestamp ==> forall i :: 0 <= i < |r| ==>
      r[i] == Field(IdMerge(doc)[i].key, ToNativeTypesAsWritten(IdMerge(doc)[i].value))
    ensures !hasTimestamp ==> r == IdMerge(doc)
  {
    var data := IdMerge(doc);
    if hasTimestamp then ToNativeFieldsAsWritten(data) else data
  }

  /** On a body the store can hold, `ofFirestore` reads the same through
      either converter. */
  lemma OfFirestoreAgreesOnStoreData(doc: Snapshot, hasTimestamp: bool)
    requires FieldsFromStore(doc.data)
    ensures OfFirestoreAsWritten(doc, hasTimestamp) == OfFirestore(doc, hasTimestamp)
  {
    var target := [Field(IdKey, StrValue(doc.id))];
    assert FieldsFromStore(target) by {
      assert target[1..] == [];
      assert FromStore(target[0].value);
    }
    SpreadFromStore(target, doc.data);
    assert IdMerge(doc) == Spread(target, doc.data);
    FieldsAgreeOnStoreData(IdMerge(doc));
  }

  /** Every stored key reads back as its value, converted when asked; a
      body without `id` reads back the document id under `id`. */
  lemma OfFirestoreLookup(doc: Snapshot, hasTimestamp: bool, k: string)
    requires DistinctKeys(doc.data)
    ensures Lookup(OfFirestore(doc, hasTimestamp), k) ==
      if k in Keys(doc.data) then Some(ReadValue(Lookup(doc.data, k).value, hasTimestamp))
      else if k == IdKey then Some(StrValue(doc.id))
      else None
  {
    ToNativeFieldsLookup(IdMerge(doc), k);
  }
}
