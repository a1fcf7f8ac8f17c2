/**
 * The repository base class `FirebaseAbstract<T>`
 * (src/firestore/FirebaseAbstract.ts) over one collection.
 *
 * The collection is a map from document id to stored body. A write hands
 * the store a shaped body, which it keeps as `Commit.StoredFields` resolves
 * it at the commit time `now`, a parameter. Queries are evaluated by the
 * store, which is a function parameter `run` from the constraint list to
 * the snapshots it yields; merge writes go through a parameter `mergeInto`
 * likewise.
 */
module Repository {
  import opened Wrappers
  import opened Values
  import opened Errors
  import opened ErrorHandling
  import opened FirestoreWrite
  import opened FirestoreRead
  import opened RepoTypes
  import opened Commit

  /** The collection: document id to stored fields. */
  type Docs = map<string, Fields>

  /** Every stored body is an object the runtime could have built, holding
      only what the store keeps: no `Date` and no sentinel. */
  predicate WellFormed(docs: Docs) {
    forall id :: id in docs ==> DistinctKeys(docs[id]) && FieldsFromStore(docs[id])
  }

  /** `WriteOptions`: add `createdAt` on creation and `updatedAt` on update. */
  datatype WriteOptions = WriteOptions(timestamps: bool)

  /** `ReadOptions`: turn `Timestamp`s into `Date`s on read. */
  datatype ReadOptions = ReadOptions(timestamps: bool)

  /** `SetOptions & WriteOptions`; an absent `merge` is `false`. */
  datatype SetOptions = SetOptions(merge: bool, mergeFields: Option<seq<string>>, timestamps: bool)

  /** Each operation's default options: `{ timestamps: true }`. */
  const DefaultWriteOptions := WriteOptions(true)
  const DefaultReadOptions := ReadOptions(true)
  const DefaultSetOptions := SetOptions(false, None, true)

  // ---------------------------------------------------------------- writes

  /** The body `add` and `set` write: `toFirestore(data)`, then with
      timestamps `createdAt` set to the server-timestamp sentinel and
      `updatedAt` to `null`, then `id` deleted. */
  function CreationBody(data: Fields, timestamps: bool): (body: Fields)
    ensures IdKey !in Keys(body)
    ensures DistinctKeys(data) ==> DistinctKeys(body)
    ensures timestamps ==>
      Lookup(body, CreatedAtKey) == Some(Sentinel(ServerTimestamp)) && Lookup(body, UpdatedAtKey) == Some(Null)
    ensures forall k :: k != IdKey && (!timestamps || (k != CreatedAtKey && k != UpdatedAtKey)) ==>
      Lookup(body, k) == Lookup(ToFirestoreFields(data), k)
    ensures !timestamps ==> Keys(body) == Keys(ToFirestoreFields(data)) - {IdKey}
  {
    var clone := ToFirestoreFields(data);
    var stamped :=
      if timestamps then Assign(Assign(clone, CreatedAtKey, Sentinel(ServerTimestamp)), UpdatedAtKey, Null)
      else clone;
    Remove(stamped, IdKey)
  }

  /** The body `update` writes: `toFirestore(data)`, then with timestamps
      `updatedAt` set to the server-timestamp sentinel and `createdAt`
      deleted, then `id` deleted. */
  function UpdateBody(data: Fields, timestamps: bool): (body: Fields)
    ensures IdKey !in Keys(body)
    ensures DistinctKeys(data) ==> DistinctKeys(body)
    ensures timestamps ==>
      Lookup(body, UpdatedAtKey) == Some(Sentinel(ServerTimestamp)) && CreatedAtKey !in Keys(body)
    ensures forall k :: k != IdKey && (!timestamps || (k != CreatedAtKey && k != UpdatedAtKey)) ==>
      Lookup(body, k) == Lookup(ToFirestoreFields(data), k)
    ensures !timestamps ==> Keys(body) == Keys(ToFirestoreFields(data)) - {IdKey}
  {
    var clone := ToFirestoreFields(data);
    var stamped :=
      if timestamps then Remove(Assign(clone, UpdatedAtKey, Sentinel(ServerTimestamp)), CreatedAtKey)
      else clone;
    Remove(stamped, IdKey)
  }

  /** `add(data, options)`: the store files the body under a fresh id,
      which is returned. */
  function Add(docs: Docs, data: Fields, autoId: string, now: Instant, options: WriteOptions := DefaultWriteOptions)
    : (r: (Docs, string))
    requires autoId !in docs
    ensures r.1 !in docs && r.0.Keys == docs.Keys + {r.1}
    ensures forall id :: id in docs ==> r.0[id] == docs[id]
    ensures r.0[r.1] == StoredFields(CreationBody(data, options.timestamps), now, [])
  {
    (docs[autoId := StoredFields(CreationBody(data, options.timestamps), now, [])], autoId)
  }

  /** Why the store refuses a write. */
  datatype StoreError = NoDocumentToUpdate(id: string)

  /** `update(data, options)`: the store rejects an update of a missing
      document; otherwise each top-level field of the body, resolved
      against the stored one, replaces it or joins the document. */
  function Update(docs: Docs, data: Fields, now: Instant, options: WriteOptions := DefaultWriteOptions)
    : (r: Result<Docs, StoreError>)
    requires HasStringId(data)
    ensures r.Failure? <==> IdOf(data) !in docs
    ensures r.Failure? ==> r.error == NoDocumentToUpdate(IdOf(data))
    ensures r.Success? ==> r.value.Keys == docs.Keys
    ensures r.Success? ==> forall id :: id in docs && id != IdOf(data) ==> r.value[id] == docs[id]
    ensures r.Success? ==>
      Keys(r.value[IdOf(data)]) == Keys(docs[IdOf(data)]) + Keys(UpdateBody(data, options.timestamps))
  {
    var id := IdOf(data);
    if id !in docs then Failure(NoDocumentToUpdate(id))
    else Success(docs[id := Spread(docs[id], StoredFields(UpdateBody(data, options.timestamps), now, docs[id]))])
  }

  /** `set(data, options)`: without `merge` or `mergeFields` the body
      replaces the document or creates it; with either, the store merges
      the body into what is there, given the options, and resolves the
      result against the stored document. */
  function Set(
    docs: Docs, data: Fields, now: Instant, mergeInto: (Option<Fields>, Fields, SetOptions) -> Fields,
    options: SetOptions := DefaultSetOptions): (r: Docs)
    requires HasStringId(data)
    ensures r.Keys == docs.Keys + {IdOf(data)}
    ensures forall id :: id in docs && id != IdOf(data) ==> r[id] == docs[id]
    ensures !options.merge && options.mergeFields.None? ==>
      r[IdOf(data)] == StoredFields(CreationBody(data, options.timestamps), now, [])
    ensures options.merge || options.mergeFields.Some? ==>
      var stored := if IdOf(data) in docs then Some(docs[IdOf(data)]) else None;
      r[IdOf(data)] == StoredFields(mergeInto(stored, CreationBody(data, options.timestamps), options), now, stored.GetOr([]))
  {
    var id := IdOf(data);
    var body := CreationBody(data, options.timestamps);
    if options.merge || options.mergeFields.Some? then
      var stored := if id in docs then Some(docs[id]) else None;
      docs[id := StoredFields(mergeInto(stored, body, options), now, stored.GetOr([]))]
    else docs[id := StoredFields(body, now, [])]
  }

  /** `delete(id)`: no existence check, no error. */
  function Delete(docs: Docs, id: string): (r: Docs)
    ensures id !in r && r.Keys == docs.Keys - {id}
    ensures forall k :: k in r ==> r[k] == docs[k]
  {
    docs - {id}
  }

  // ----------------------------------------------------------------- reads

  /** A stored document read back through `ofFirestore`. */
  function ReadDocument(docs: Docs, id: string, options: ReadOptions): Fields
    requires id in docs
  {
    OfFirestore(Snapshot(id, docs[id]), options.timestamps)
  }

  /** `getById(id, options)`: not-found for a missing document, otherwise
      the body read back through `ofFirestore`. */
  function GetById(docs: Docs, id: string, options: ReadOptions := DefaultReadOptions): (r: Result<Fields, AppError>)
    ensures r.Failure? <==> id !in docs
    ensures r.Failure? ==> r.error == NewDocumentNotFoundError()
    ensures r.Success? ==> r.value == ReadDocument(docs, id, options)
    ensures r.Success? ==> Keys(r.value) == Keys(docs[id]) + {IdKey}
    ensures r.Success? && options.timestamps ==> !FieldsHaveTimestamp(r.value)
  {
    if id !in docs then Failure(NewDocumentNotFoundError())
    else Success(ReadDocument(docs, id, options))
  }

  /** `Promise.all` over already settled lookups: every value, in order,
      or the error of a failed one (the first, in index order). */
  function AllOrNothing<T, E>(results: seq<Result<T, E>>): (r: Result<seq<T>, E>)
    ensures r.Success? <==> forall i :: 0 <= i < |results| ==> results[i].Success?
    ensures r.Success? ==> |r.value| == |results| && forall i :: 0 <= i < |results| ==> results[i] == Success(r.value[i])
    ensures r.Failure? ==> exists i :: 0 <= i < |results| && results[i] == Failure(r.error)
  {
    if results == [] then Success([])
    else
      var rest := AllOrNothing(results[1..]);
      if results[0].Failure? then Failure(results[0].error)
      else if rest.Failure? then
        assert exists i :: 1 <= i < |results| && results[i] == Failure(rest.error) by {
          var j :| 0 <= j < |results[1..]| && results[1..][j] == Failure(rest.error);
          assert results[j + 1] == Failure(rest.error);
        }
        Failure(rest.error)
      else
        var values := [results[0].value] + rest.value;
        assert forall i :: 1 <= i < |results| ==> results[i] == results[1..][i - 1] && values[i] == rest.value[i - 1];
        Success(values)
  }

  /** `getByIds(ids, options)`: `Promise.all(ids.map(id => getById(id, options)))`.
      Every document, aligned with `ids`, or the not-found error; every
      lookup fails alike, so which one settles first does not matter. */
  function GetByIds(docs: Docs, ids: seq<string>, options: ReadOptions := DefaultReadOptions)
    : (r: Result<seq<Fields>, AppError>)
    ensures r.Success? <==> forall i :: 0 <= i < |ids| ==> ids[i] in docs
    ensures r.Failure? ==> r.error == NewDocumentNotFoundError()
    ensures r.Success? ==> |r.value| == |ids|
    ensures r.Success? ==> forall i :: 0 <= i < |ids| ==> GetById(docs, ids[i], options) == Success(r.value[i])
  {
    var results := seq(|ids|, i requires 0 <= i < |ids| => GetById(docs, ids[i], options));
    assert forall i :: 0 <= i < |ids| ==> (results[i].Success? <==> ids[i] in docs);
    assert forall i :: 0 <= i < |ids| && results[i].Failure? ==> results[i].error == NewDocumentNotFoundError();
    AllOrNothing(results)
  }

  // --------------------------------------------------------------- queries

  /** `WhereFilterOp`. */
  datatype WhereFilterOp =
    | Less | LessOrEqual | Equal | NotEqual | GreaterOrEqual | Greater
    | ArrayContains | In | NotIn | ArrayContainsAny

  /** `OrderByDirection`. */
  datatype Direction = Asc | Desc

  /** `FirebaseWhere<T>`: the `[field, operator, value]` tuple or the
      `{ field, operator, value }` object. */
  datatype WhereFilter =
    | WhereTuple(field: string, operator: WhereFilterOp, value: Value)
    | WhereObject(field: string, operator: WhereFilterOp, value: Value)

  /** One constraint the query builder adds. */
  datatype Constraint =
    | Where(field: string, operator: WhereFilterOp, value: Value)
    | Limit(n: int)
    | OrderBy(field: string, direction: Direction)

  /** A query on the collection: its constraints in the order added. */
  type Query = seq<Constraint>

  /** What the store yields for a query. */
  type QueryRunner = Query -> seq<Snapshot>

  /** `q.where(...)` for either form of filter. */
  function WhereOf(filter: WhereFilter): (c: Constraint)
    ensures c == Where(filter.field, filter.operator, filter.value)
  {
    match filter
    case WhereTuple(f, op, v) => Where(f, op, v)
    case WhereObject(f, op, v) => Where(f, op, v)
  }

  /** `if (limit) q = q.limit(limit)`: `null` and `0` add nothing. */
  function LimitConstraint(limit: Option<int>): seq<Constraint> {
    if limit.Some? && limit.value != 0 then [Limit(limit.value)] else []
  }

  /** `if (orderBy) q = q.orderBy(orderBy, orderByDirection || 'asc')`:
      `null` and the empty key add nothing. */
  function OrderByConstraint(orderBy: Option<string>, direction: Option<Direction>): seq<Constraint> {
    if orderBy.Some? && orderBy.value != "" then [OrderBy(orderBy.value, direction.GetOr(Asc))] else []
  }

  /** The query `getWhereMany` builds: one `where` per filter, in order,
      then the limit, then the ordering. */
  function WhereManyQuery(filters: seq<WhereFilter>, limit: Option<int>, orderBy: Option<string>, direction: Option<Direction>): (q: Query)
    ensures |q| == |filters| + (if limit.Some? && limit.value != 0 then 1 else 0)
                             + (if orderBy.Some? && orderBy.value != "" then 1 else 0)
    ensures forall i :: 0 <= i < |filters| ==>
      q[i] == Where(filters[i].field, filters[i].operator, filters[i].value)
    ensures forall i :: |filters| <= i < |q| ==> !q[i].Where?
    ensures forall n :: Limit(n) in q <==> limit == Some(n) && n != 0
    ensures forall f, d :: OrderBy(f, d) in q <==> orderBy == Some(f) && f != "" && d == direction.GetOr(Asc)
  {
    var wheres := seq(|filters|, i requires 0 <= i < |filters| => WhereOf(filters[i]));
    wheres + LimitConstraint(limit) + OrderByConstraint(orderBy, direction)
  }

  /** The query `getWhere` builds from one field, operator and value. */
  function WhereQuery(field: string, operator: WhereFilterOp, value: Value, limit: Option<int>, orderBy: Option<string>, direction: Option<Direction>): (q: Query)
    ensures |q| == 1 + (if limit.Some? && limit.value != 0 then 1 else 0)
                     + (if orderBy.Some? && orderBy.value != "" then 1 else 0)
    ensures q[0] == Where(field, operator, value)
    ensures forall i :: 1 <= i < |q| ==> !q[i].Where?
    ensures forall n :: Limit(n) in q <==> limit == Some(n) && n != 0
    ensures forall f, d :: OrderBy(f, d) in q <==> orderBy == Some(f) && f != "" && d == direction.GetOr(Asc)
  {
    [Where(field, operator, value)] + LimitConstraint(limit) + OrderByConstraint(orderBy, direction)
  }

  /** `getDocs(query, options)`: every snapshot the store yields, in order,
      read back through `ofFirestore`; no result is the empty list. */
  function GetDocs(run: QueryRunner, q: Query, options: ReadOptions := DefaultReadOptions): (r: seq<Fields>)
    ensures |r| == |run(q)|
    ensures forall i :: 0 <= i < |r| ==> IdKey in Keys(r[i]) && Keys(r[i]) == Keys(run(q)[i].data) + {IdKey}
    ensures forall i :: 0 <= i < |r| ==> r[i] == OfFirestore(run(q)[i], options.timestamps)
    ensures run(q) == [] ==> r == []
  {
    var snapshots := run(q);
    seq(|snapshots|, i requires 0 <= i < |snapshots| => OfFirestore(snapshots[i], options.timestamps))
  }

  /** `getAll(options)`: the unconstrained collection. */
  function GetAll(run: QueryRunner, options: ReadOptions := DefaultReadOptions): (r: seq<Fields>)
    ensures |r| == |run([])|
    ensures forall i :: 0 <= i < |r| ==> r[i] == OfFirestore(run([])[i], options.timestamps)
    ensures run([]) == [] ==> r == []
  {
    GetDocs(run, [], options)
  }

  /** `getWhere(field, operator, value, limit, orderBy, orderByDirection, options)`. */
  function GetWhere(
    run: QueryRunner, field: string, operator: WhereFilterOp, value: Value,
    limit: Option<int> := None, orderBy: Option<string> := None, direction: Option<Direction> := None,
    options: ReadOptions := DefaultReadOptions): (r: seq<Fields>)
    ensures var q := WhereQuery(field, operator, value, limit, orderBy, direction);
      && |r| == |run(q)|
      && (forall i :: 0 <= i < |r| ==> r[i] == OfFirestore(run(q)[i], options.timestamps))
      && (run(q) == [] ==> r == [])
  {
    GetDocs(run, WhereQuery(field, operator, value, limit, orderBy, direction), options)
  }

  /** `getWhereMany(filters, limit, orderBy, orderByDirection, options)`. */
  function GetWhereMany(
    run: QueryRunner, filters: seq<WhereFilter>,
    limit: Option<int> := None, orderBy: Option<string> := None, direction: Option<Direction> := None,
    options: ReadOptions := DefaultReadOptions): (r: seq<Fields>)
    ensures var q := WhereManyQuery(filters, limit, orderBy, direction);
      && |r| == |run(q)|
      && (forall i :: 0 <= i < |r| ==> r[i] == OfFirestore(run(q)[i], options.timestamps))
      && (run(q) == [] ==> r == [])
  {
    GetDocs(run, WhereManyQuery(filters, limit, orderBy, direction), options)
  }

  /** The first document of a result, or `null`. */
  function First(documents: seq<Fields>): (r: Option<Fields>)
    ensures r.None? <==> documents == []
    ensures r.Some? ==> r.value == documents[0]
  {
    if |documents| > 0 then Some(documents[0]) else None
  }

  /** `getOneWhere(field, operator, value, orderBy, orderByDirection, options)`:
      `getWhere` with limit 1, first document or `null`. */
  function GetOneWhere(
    run: QueryRunner, field: string, operator: WhereFilterOp, value: Value,
    orderBy: Option<string> := None, direction: Option<Direction> := None,
    options: ReadOptions := DefaultReadOptions): (r: Option<Fields>)
    ensures var q := WhereQuery(field, operator, value, Some(1), orderBy, direction);
      (r.None? <==> run(q) == []) &&
      (r.Some? ==> r.value == OfFirestore(run(q)[0], options.timestamps))
  {
    First(GetWhere(run, field, operator, value, Some(1), orderBy, direction, options))
  }

  /** `getOneWhereMany(filters, orderBy, orderByDirection, options)`:
      `getWhereMany` with limit 1, first document or `null`. */
  function GetOneWhereMany(
    run: QueryRunner, filters: seq<WhereFilter>,
    orderBy: Option<string> := None, direction: Option<Direction> := None,
    options: ReadOptions := DefaultReadOptions): (r: Option<Fields>)
    ensures var q := WhereManyQuery(filters, Some(1), orderBy, direction);
      (r.None? <==> run(q) == []) &&
      (r.Some? ==> r.value == OfFirestore(run(q)[0], options.timestamps))
  {
    First(GetWhereMany(run, filters, Some(1), orderBy, direction, options))
  }

  // ---------------------------------------------------------------- lemmas

  /** An unmanaged key of a written body holds the caller's value converted
      by `toFirestore`, and is absent when the caller's value is
      `undefined`. */
  lemma WrittenFieldFromData(data: Fields, timestamps: bool, k: string)
    requires DistinctKeys(data)
    requires k != IdKey && (!timestamps || (k != CreatedAtKey && k != UpdatedAtKey))
    ensures var expected :=
        match Lookup(data, k)
        case Some(v) => if v.Undefined? then None else Some(ToFirestore(v))
        case None => None;
      Lookup(CreationBody(data, timestamps), k) == expected &&
      Lookup(UpdateBody(data, timestamps), k) == expected
  {
    ToFirestoreFieldsLookup(data, k);
  }

  /** Without timestamps, `add`, `set` and `update` write the same body:
      the converted data without `id`. */
  lemma UntimedBodiesAgree(data: Fields)
    ensures CreationBody(data, false) == UpdateBody(data, false)
    ensures IdKey !in Keys(CreationBody(data, false))
  {
  }

  /** Reading a document back right after `add` gives the new id as its
      `id`, whatever the data held under `id`. */
  lemma AddThenGetById(docs: Docs, data: Fields, autoId: string, now: Instant, options: WriteOptions, readOptions: ReadOptions)
    requires autoId !in docs && DistinctKeys(data)
    ensures var (after, id) := Add(docs, data, autoId, now, options);
      var read := GetById(after, id, readOptions);
      id == autoId && read.Success? && Lookup(read.value, IdKey) == Some(StrValue(autoId))
  {
    var body := StoredFields(CreationBody(data, options.timestamps), now, []);
    OfFirestoreLookup(Snapshot(autoId, body), readOptions.timestamps, IdKey);
  }

  /** Likewise after a plain `set`: the document reads back under the
      payload's `id`. */
  lemma SetThenGetById(
    docs: Docs, data: Fields, now: Instant, mergeInto: (Option<Fields>, Fields, SetOptions) -> Fields,
    timestamps: bool, readOptions: ReadOptions)
    requires HasStringId(data) && DistinctKeys(data)
    ensures var after := Set(docs, data, now, mergeInto, SetOptions(false, None, timestamps));
      var read := GetById(after, IdOf(data), readOptions);
      read.Success? && Lookup(read.value, IdKey) == Some(StrValue(IdOf(data)))
  {
    var body := StoredFields(CreationBody(data, timestamps), now, []);
    OfFirestoreLookup(Snapshot(IdOf(data), body), readOptions.timestamps, IdKey);
  }

  /** A field of a body filed by `add` or a plain `set` reads back as its
      written value, resolved at commit time and converted when asked. */
  lemma WrittenFieldReadsBack(written: Fields, now: Instant, id: string, timestamps: bool, k: string, v: Value)
    requires DistinctKeys(written) && k != IdKey && Lookup(written, k) == Some(v)
    ensures Lookup(OfFirestore(Snapshot(id, StoredFields(written, now, [])), timestamps), k)
      == Some(ReadValue(StoredValue(v, now, None), timestamps))
  {
    var body := StoredFields(written, now, []);
    StoredFieldsLookup(written, now, [], k);
    assert Lookup(body, k) == Some(StoredValue(v, now, None));
    assert k in Keys(body);
    OfFirestoreLookup(Snapshot(id, body), timestamps, k);
  }

  /** What `getById` returns for the document `add` just filed. */
  lemma AddedDocumentRead(docs: Docs, data: Fields, autoId: string, now: Instant, options: WriteOptions, readOptions: ReadOptions)
    requires autoId !in docs
    ensures GetById(Add(docs, data, autoId, now, options).0, autoId, readOptions)
      == Success(OfFirestore(Snapshot(autoId, StoredFields(CreationBody(data, options.timestamps), now, [])), readOptions.timestamps))
  {
  }

  /** The stamps of a creation body, as `ofFirestore` reads them back
      once committed. */
  lemma CreationStampsStored(data: Fields, autoId: string, now: Instant)
    requires DistinctKeys(data)
    ensures var doc := OfFirestore(Snapshot(autoId, StoredFields(CreationBody(data, true), now, [])), true);
      && Lookup(doc, CreatedAtKey) == Some(Date(TimestampMillis(now.seconds, now.nanos)))
      && Lookup(doc, UpdatedAtKey) == Some(Null)
  {
    var written := CreationBody(data, true);
    WrittenFieldReadsBack(written, now, autoId, true, CreatedAtKey, Sentinel(ServerTimestamp));
    WrittenFieldReadsBack(written, now, autoId, true, UpdatedAtKey, Null);
  }

  /** With timestamps, a document read back after `add` carries the commit
      time as its `createdAt` `Date` and `null` as its `updatedAt`. */
  lemma CreationStampsReadBack(docs: Docs, data: Fields, autoId: string, now: Instant)
    requires autoId !in docs && DistinctKeys(data)
    ensures var read := GetById(Add(docs, data, autoId, now).0, autoId);
      && read.Success?
      && Lookup(read.value, CreatedAtKey) == Some(Date(TimestampMillis(now.seconds, now.nanos)))
      && Lookup(read.value, UpdatedAtKey) == Some(Null)
  {
    AddedDocumentRead(docs, data, autoId, now, DefaultWriteOptions, DefaultReadOptions);
    CreationStampsStored(data, autoId, now);
  }

  /** A `Date` the caller writes is kept as a `Timestamp`: it reads back
      as the same `Date` with timestamps on, and as that `Timestamp`
      with them off. */
  lemma DateFieldReadsBack(docs: Docs, data: Fields, autoId: string, now: Instant, options: WriteOptions, k: string, millis: int)
    requires autoId !in docs && DistinctKeys(data)
    requires Lookup(data, k) == Some(Date(millis))
    requires k != IdKey && (!options.timestamps || (k != CreatedAtKey && k != UpdatedAtKey))
    ensures var after := Add(docs, data, autoId, now, options).0;
      && Lookup(GetById(after, autoId, ReadOptions(true)).value, k) == Some(Date(millis))
      && Lookup(GetById(after, autoId, ReadOptions(false)).value, k) == Some(DateToTimestamp(millis))
  {
    var written := CreationBody(data, options.timestamps);
    WrittenFieldFromData(data, options.timestamps, k);
    assert Lookup(written, k) == Some(Date(millis));
    WrittenFieldReadsBack(written, now, autoId, true, k, Date(millis));
    WrittenFieldReadsBack(written, now, autoId, false, k, Date(millis));
    DateReadsBack(millis);
  }

  /** With timestamps on, every field the caller wrote through `add`, at
      any depth and without sentinels, reads back as `toFirestore` shaped
      it: a key whose value was `undefined` is absent, `null` is kept, and
      every `Date` inside comes back as an equal `Date`. */
  lemma AddedFieldReadsBack(docs: Docs, data: Fields, autoId: string, now: Instant, options: WriteOptions, k: string)
    requires autoId !in docs && DistinctKeys(data)
    requires k != IdKey && (!options.timestamps || (k != CreatedAtKey && k != UpdatedAtKey))
    requires Lookup(data, k).Some? ==> NoSentinel(Lookup(data, k).value)
    ensures Lookup(GetById(Add(docs, data, autoId, now, options).0, autoId, ReadOptions(true)).value, k)
      == Lookup(ToFirestoreFields(data), k)
  {
    var written := CreationBody(data, options.timestamps);
    var stored := StoredFields(written, now, []);
    AddedDocumentRead(docs, data, autoId, now, options, ReadOptions(true));
    ToFirestoreFieldsLookup(data, k);
    match Lookup(written, k)
    case Some(w) =>
      WrittenFieldReadsBack(written, now, autoId, true, k, w);
      RoundTrip(Lookup(data, k).value, now);
    case None =>
      StoredFieldsLookup(written, now, [], k);
      OfFirestoreLookup(Snapshot(autoId, stored), true, k);
  }

  /** An update with timestamps stamps `updatedAt` with the commit time but
      leaves the stored `createdAt` and `id` as they were; every other
      field it carries, resolved against the stored one, replaces it, and
      the rest are kept. */
  lemma UpdateKeepsCreation(docs: Docs, data: Fields, now: Instant, timestamps: bool)
    requires HasStringId(data) && IdOf(data) in docs
    requires DistinctKeys(data) && DistinctKeys(docs[IdOf(data)])
    ensures var before := docs[IdOf(data)];
      var after := Update(docs, data, now, WriteOptions(timestamps)).value[IdOf(data)];
      var body := UpdateBody(data, timestamps);
      && Lookup(after, IdKey) == Lookup(before, IdKey)
      && (timestamps ==> Lookup(after, CreatedAtKey) == Lookup(before, CreatedAtKey))
      && (timestamps ==> Lookup(after, UpdatedAtKey) == Some(Timestamp(now.seconds, now.nanos)))
      && (forall k :: k in Keys(body) ==>
            Lookup(after, k) == Some(StoredValue(Lookup(body, k).value, now, Lookup(before, k))))
      && (forall k :: k !in Keys(body) ==> Lookup(after, k) == Lookup(before, k))
  {
    var before := docs[IdOf(data)];
    var body := UpdateBody(data, timestamps);
    forall k | k in Keys(body)
      ensures Lookup(StoredFields(body, now, before), k) == Some(StoredValue(Lookup(body, k).value, now, Lookup(before, k)))
    {
      StoredFieldsLookup(body, now, before, k);
    }
  }

  /** Every write keeps the stored bodies well formed (a merge write when
      the merge keeps keys distinct). */
  lemma WritesPreserveWellFormed(
    docs: Docs, data: Fields, autoId: string, id: string, now: Instant,
    mergeInto: (Option<Fields>, Fields, SetOptions) -> Fields, options: SetOptions)
    requires WellFormed(docs) && DistinctKeys(data)
    requires forall stored: Option<Fields>, body: Fields, o: SetOptions :: DistinctKeys(body) && (stored.Some? ==> DistinctKeys(stored.value)) ==>
      DistinctKeys(mergeInto(stored, body, o))
    ensures autoId !in docs ==> WellFormed(Add(docs, data, autoId, now, WriteOptions(options.timestamps)).0)
    ensures HasStringId(data) && Update(docs, data, now, WriteOptions(options.timestamps)).Success? ==>
      WellFormed(Update(docs, data, now, WriteOptions(options.timestamps)).value)
    ensures HasStringId(data) ==> WellFormed(Set(docs, data, now, mergeInto, options))
    ensures WellFormed(Delete(docs, id))
  {
    if autoId !in docs {
      FileKeepsWellFormed(docs, autoId, StoredFields(CreationBody(data, options.timestamps), now, []));
    }
    if HasStringId(data) {
      var target := IdOf(data);
      if target in docs {
        var before := docs[target];
        var resolved := StoredFields(UpdateBody(data, options.timestamps), now, before);
        SpreadFromStore(before, resolved);
        FileKeepsWellFormed(docs, target, Spread(before, resolved));
      }
      var body := CreationBody(data, options.timestamps);
      if options.merge || options.mergeFields.Some? {
        var stored := if target in docs then Some(docs[target]) else None;
        FileKeepsWellFormed(docs, target, StoredFields(mergeInto(stored, body, options), now, stored.GetOr([])));
      } else {
        FileKeepsWellFormed(docs, target, StoredFields(body, now, []));
      }
    }
  }

  lemma FileKeepsWellFormed(docs: Docs, id: string, body: Fields)
    requires WellFormed(docs) && DistinctKeys(body) && FieldsFromStore(body)
    ensures WellFormed(docs[id := body])
  {
  }

  /** On a well-formed store, every read through the corrected converter
      returns what the source's converter returns. */
  lemma ReadsAgreeWithSource(docs: Docs, id: string, options: ReadOptions)
    requires WellFormed(docs) && id in docs
    ensures GetById(docs, id, options).value == OfFirestoreAsWritten(Snapshot(id, docs[id]), options.timestamps)
  {
    OfFirestoreAgreesOnStoreData(Snapshot(id, docs[id]), options.timestamps);
  }

  /** The store answers a query with documents of the collection: each
      snapshot is a stored document under its id. */
  predicate AnswersFrom(docs: Docs, snapshots: seq<Snapshot>) {
    forall i :: 0 <= i < |snapshots| ==> snapshots[i].id in docs && snapshots[i].data == docs[snapshots[i].id]
  }

  /** When the store answers from a well-formed collection, every query
      read (`getDocs`, and through it `getAll`, `getWhere`, `getWhereMany`
      and the `getOne` variants) returns what the source's converter
      returns. */
  lemma QueriesAgreeWithSource(docs: Docs, run: QueryRunner, q: Query, options: ReadOptions)
    requires WellFormed(docs) && AnswersFrom(docs, run(q))
    ensures forall i :: 0 <= i < |run(q)| ==>
      GetDocs(run, q, options)[i] == OfFirestoreAsWritten(run(q)[i], options.timestamps)
  {
    forall i | 0 <= i < |run(q)|
      ensures GetDocs(run, q, options)[i] == OfFirestoreAsWritten(run(q)[i], options.timestamps)
    {
      OfFirestoreAgreesOnStoreData(run(q)[i], options.timestamps);
    }
  }

  /** Deleting is idempotent and never fails; afterwards the document is
      not found. */
  lemma DeleteIdempotent(docs: Docs, id: string)
    ensures Delete(Delete(docs, id), id) == Delete(docs, id)
    ensures GetById(Delete(docs, id), id).Failure?
  {
  }

  /** A missing document surfaces as a 422 answer with the not-found code
      and message. */
  lemma MissingDocumentAnswered(docs: Docs, id: string, options: ReadOptions)
    requires id !in docs
    ensures InternalErrors(Thrown(GetById(docs, id, options).error)) ==
      Respond(422, ErrorBody("application/document-not-found", "Document not found."))
  {
    DocumentNotFoundResponse();
  }

  /** `getWhere` is `getWhereMany` with one filter. */
  lemma GetWhereIsOneFilter(
    run: QueryRunner, field: string, operator: WhereFilterOp, value: Value,
    limit: Option<int>, orderBy: Option<string>, direction: Option<Direction>, options: ReadOptions)
    ensures GetWhere(run, field, operator, value, limit, orderBy, direction, options) ==
      GetWhereMany(run, [WhereTuple(field, operator, value)], limit, orderBy, direction, options)
  {
    var q := WhereManyQuery([WhereTuple(field, operator, value)], limit, orderBy, direction);
    assert q == WhereQuery(field, operator, value, limit, orderBy, direction);
  }

  /** The tuple and object forms of a filter build the same query. */
  lemma FilterFormsAgree(a: seq<WhereFilter>, b: seq<WhereFilter>, limit: Option<int>, orderBy: Option<string>, direction: Option<Direction>)
    requires |a| == |b|
    requires forall i :: 0 <= i < |a| ==>
      a[i].field == b[i].field && a[i].operator == b[i].operator && a[i].value == b[i].value
    ensures WhereManyQuery(a, limit, orderBy, direction) == WhereManyQuery(b, limit, orderBy, direction)
  {
    var qa, qb := WhereManyQuery(a, limit, orderBy, direction), WhereManyQuery(b, limit, orderBy, direction);
    assert qa[..|a|] == qb[..|b|];
  }

  /** No filters, no limit and no ordering is `getAll`. */
  lemma NoFiltersIsGetAll(run: QueryRunner, direction: Option<Direction>, options: ReadOptions)
    ensures GetWhereMany(run, [], None, None, direction, options) == GetAll(run, options)
  {
    assert WhereManyQuery([], None, None, direction) == [];
  }

  /** The single-document reads ask the store for one document. */
  lemma OneWhereAsksForOne(filters: seq<WhereFilter>, orderBy: Option<string>, direction: Option<Direction>)
    ensures forall n :: Limit(n) in WhereManyQuery(filters, Some(1), orderBy, direction) <==> n == 1
  {
  }
}
