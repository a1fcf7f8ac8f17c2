/**
 * What the store keeps when it commits a written body: `FieldValue`
 * sentinels are resolved against the commit time and the document as it
 * was, and a JavaScript `Date` is kept as a `Timestamp`
 * (`Timestamp.fromDate`). Nothing kept is a `Date` or a sentinel, which is
 * what `FirestoreRead.FromStore` describes.
 */
module Commit {
  import opened Wrappers
  import opened Values
  import opened FirestoreWrite
  import opened FirestoreRead

  /** The store's clock at commit time. */
  datatype Instant = Instant(seconds: int, nanos: int)

  /** `Timestamp.fromMillis(ms)`: the whole seconds, rounded down, and the
      remaining milliseconds as nanoseconds. */
  function DateToTimestamp(millis: int): (t: Value)
    ensures t.Timestamp? && 0 <= t.nanos < 1000000000 && t.nanos % 1000000 == 0
    ensures t.seconds * 1000 + t.nanos / 1000000 == millis
  {
    Timestamp(millis / 1000, (millis % 1000) * 1000000)
  }

  /** A `Date` kept by the store reads back, converted, as the same `Date`. */
  lemma DateReadsBack(millis: int)
    ensures ToNativeTypes(DateToTimestamp(millis)) == Date(millis)
  {
    var t := DateToTimestamp(millis);
    assert (t.nanos + 500000) / 1000000 == t.nanos / 1000000;
  }

  /** `increment(n)` applied to the stored value: added to a number,
      otherwise the operand itself. */
  function Incremented(prior: Option<Value>, n: int): (r: Value)
    ensures r.Prim? && r.p.Num?
    ensures (prior.Some? && prior.value.Prim? && prior.value.p.Num?) ==> r.p.n - prior.value.p.n == n
    ensures !(prior.Some? && prior.value.Prim? && prior.value.p.Num?) ==> r.p.n == n
  {
    match prior
    case Some(Prim(Num(m))) => Prim(Num(m + n))
    case _ => Prim(Num(n))
  }

  /** The value the store keeps for a written value, given the value it
      held before under the same top-level key (`None` below the top
      level, where a written object replaces what was there). */
  function StoredValue(v: Value, now: Instant, prior: Option<Value>): (r: Value)
    ensures FromStore(r)
    ensures FromStore(v) ==> r == v
    ensures v.Date? ==> r == DateToTimestamp(v.millis)
    ensures v == Sentinel(ServerTimestamp) ==> r == Timestamp(now.seconds, now.nanos)
    ensures v.Sentinel? && v.fv.Increment? ==> r == Incremented(prior, v.fv.operand)
    ensures v.Arr? ==> r.Arr? && |r.items| == |v.items|
    ensures v.Arr? ==> forall i :: 0 <= i < |v.items| ==> r.items[i] == StoredValue(v.items[i], now, None)
    ensures v.Obj? ==> r.Obj? && Keys(r.fields) == Keys(v.fields)
    decreases v, 1
  {
    match v
    case Date(millis) => DateToTimestamp(millis)
    case Sentinel(ServerTimestamp) => Timestamp(now.seconds, now.nanos)
    case Sentinel(Increment(n)) => Incremented(prior, n)
    case Arr(items) =>
      var r := Arr(seq(|items|, i requires 0 <= i < |items| => StoredValue(items[i], now, None)));
      assert FromStore(v) ==> r.items == items;
      r
    case Obj(fs) => Obj(StoredFields(fs, now, []))
    case _ => v
  }

  /** A committed body: every field resolved against the value the same
      key held in `prior`; keys and their order are kept. */
  function StoredFields(fs: Fields, now: Instant, prior: Fields): (r: Fields)
    ensures |r| == |fs| && Keys(r) == Keys(fs)
    ensures DistinctKeys(fs) ==> DistinctKeys(r)
    ensures FieldsFromStore(r)
    ensures FieldsFromStore(fs) ==> r == fs
    decreases fs, 0
  {
    if fs == [] then []
    else
      var rest := StoredFields(fs[1..], now, prior);
      var r := [Field(fs[0].key, StoredValue(fs[0].value, now, Lookup(prior, fs[0].key)))] + rest;
      assert r[1..] == rest;
      r
  }

  /** Each key of a committed body holds its written value, resolved. */
  lemma {:induction false} StoredFieldsLookup(fs: Fields, now: Instant, prior: Fields, k: string)
    ensures Lookup(StoredFields(fs, now, prior), k) ==
      match Lookup(fs, k)
      case Some(v) => Some(StoredValue(v, now, Lookup(prior, k)))
      case None => None
    decreases fs
  {
    if fs != [] {
      StoredFieldsLookup(fs[1..], now, prior, k);
    }
  }

  /** No `FieldValue` sentinel at any depth: plain application data. */
  predicate NoSentinel(v: Value)
    decreases v, 1
  {
    match v
    case Sentinel(_) => false
    case Arr(items) => forall i :: 0 <= i < |items| ==> NoSentinel(items[i])
    case Obj(fs) => FieldsNoSentinel(fs)
    case _ => true
  }

  predicate FieldsNoSentinel(fs: Fields)
    decreases fs, 0
  {
    fs == [] || (NoSentinel(fs[0].value) && FieldsNoSentinel(fs[1..]))
  }

  /** The write-store-read round trip: data without sentinels, shaped by
      `toFirestore`, committed and read back with timestamps on, is what
      `toFirestore` shaped. `Date`s at any depth come back as equal
      `Date`s, `null` is kept, and `undefined` object fields stay dropped. */
  lemma {:induction false} RoundTrip(v: Value, now: Instant)
    requires NoSentinel(v)
    ensures ToNativeTypes(StoredValue(ToFirestore(v), now, None)) == ToFirestore(v)
    decreases v, 1
  {
    match v
    case Date(millis) =>
      DateReadsBack(millis);
    case Timestamp(s, n) =>
      var fs := InstanceFields(v);
      assert fs == [Field("_seconds", Prim(Num(s))), Field("_nanoseconds", Prim(Num(n)))];
      FieldsFromStoreMembers(fs);
      assert FromStore(Obj(fs));
    case Arr(items) =>
      var w := ToFirestore(v);
      var stored := StoredValue(w, now, None);
      var read := ToNativeTypes(stored);
      forall i | 0 <= i < |items| ensures read.items[i] == w.items[i] {
        RoundTrip(items[i], now);
      }
      assert read.items == w.items;
    case Obj(fs) =>
      RoundTripFields(fs, now);
    case _ =>
  }

  /** The object case: a body shaped by `toFirestore`, committed and read
      back, is the shaped body. */
  lemma {:induction false} RoundTripFields(fs: Fields, now: Instant)
    requires FieldsNoSentinel(fs)
    ensures ToNativeFields(StoredFields(ToFirestoreFields(fs), now, [])) == ToFirestoreFields(fs)
    decreases fs, 0
  {
    if fs != [] {
      RoundTripFields(fs[1..], now);
      if !fs[0].value.Undefined? {
        RoundTrip(fs[0].value, now);
        var rest := ToFirestoreFields(fs[1..]);
        var w := [Field(fs[0].key, ToFirestore(fs[0].value))] + rest;
        assert w[1..] == rest;
        var stored := StoredFields(w, now, []);
        assert stored == [Field(fs[0].key, StoredValue(ToFirestore(fs[0].value), now, None))] + StoredFields(rest, now, []);
        assert stored[1..] == StoredFields(rest, now, []);
      }
    }
  }

  /** Committing what the store already holds changes nothing. */
  lemma CommitIdempotent(fs: Fields, now: Instant, prior: Fields, later: Instant, prior2: Fields)
    ensures StoredFields(StoredFields(fs, now, prior), later, prior2) == StoredFields(fs, now, prior)
  {
  }
}
