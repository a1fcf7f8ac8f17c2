# burand-functions core in Dafny

A model of the data-shaping and decision logic of a small Firestore
convenience layer for Express back ends, with proofs about that logic.

- **Values.** Application values and store values are one tagged datatype
  (`Values.Value`). It covers JavaScript primitives, `Date`, the store's
  `Timestamp`, `FieldValue` sentinels, document references, arrays and
  plain objects. An object is a list of fields in insertion order, read
  first-match like JavaScript property access.
- **Converters.** `toFirestore` (write side), `toNativeTypes` (read side)
  and `ofFirestore` (merges the document id into the body) are recursive
  functions over that datatype.
- **Repository.** `FirebaseAbstract` is a set of functions over one
  collection, modelled as a map from document id to stored fields. Writes
  shape the body (timestamps, `id` stripping), then file it, update it
  field by field, or replace it. Reads signal not-found as a `Result`.
- **Commit.** What the store keeps of a written body: the server-timestamp
  sentinel becomes the commit time, `increment(n)` is added to the
  stored number, and a `Date` is kept as a `Timestamp`. The commit time
  is a parameter. So no stored body holds a `Date` or a sentinel, and on
  what the store returns the source's `toNativeTypes` and the corrected
  one read alike.
  Queries are built as constraint lists and evaluated by a query runner
  passed in as a function.
- **Errors and middlewares.** The error classes (`AppError`, `ApiError`,
  `DocumentNotFoundError`) form a closed datatype. `internalErrors` is a
  total function from the thrown value to "respond with (status, body)"
  or "pass to next". `ensureAuthentication` is a validator of the
  `Authorization` header; the identity provider's `verifyIdToken` is a
  function parameter.
- **Utilities.** `abbreviateLastName` works over ASCII case mapping and
  the ECMAScript `trim` whitespace set. `removeNonDigits` is a one-pass
  filter checked against a recursive reference. `calculateAge` takes
  "today" as calendar components.

Files, one module each: `wrappers.dfy` (Option, Result), `values.dfy`,
`firestore_write.dfy`, `firestore_read.dfy`, `errors.dfy`,
`internal_errors.dfy`, `text.dfy` (JavaScript string built-ins),
`authentication.dfy`, `names.dfy`, `digits.dfy`, `age.dfy`,
`repo_types.dfy`, `commit.dfy` and `repository.dfy`.

Behaviour of the code worth knowing, as the model states it:

- `ofFirestore` spreads the stored body after the document id, so a
  stored `id` field overrides the snapshot id
  (`FirestoreRead.IdMerge`, `FirestoreRead.OfFirestoreLookup`).
- `getWhere` and `getWhereMany` in `src/` return an empty list for an
  empty result. The compiled `lib/` build throws `DocumentNotFoundError`
  there instead; the model follows `src/`.
- `toFirestore` has no `Timestamp` branch, so a `Timestamp` written back
  is rebuilt as a plain object from its own properties `_seconds` and
  `_nanoseconds` (`FirestoreWrite.ToFirestore`).

## Model

| member | source | states |
|---|---|---|
| Values.Lookup | src/firestore/toFirestore.ts:22 | reading `obj[key]` yields a value exactly when the key is one of the object's own keys |
| Values.LookupFound | src/firestore/toFirestore.ts:22 | the value read under a key is the value of one of the object's fields with that key |
| Values.Assign | src/firestore/toFirestore.ts:23 | `clone[key] = v` adds the key, reads back `v`, leaves every other key's value as it was and keeps keys distinct; in the model's key order a new key goes last and an existing key keeps its place |
| Values.AssignMembers | src/firestore/FirebaseAbstract.ts:56-57 | an assignment introduces no field other than the assigned one |
| Values.Remove | src/firestore/FirebaseAbstract.ts:60 | `delete clone.id` removes exactly that key, keeps every other key's value and keeps keys distinct |
| Values.RemoveMembers | src/firestore/FirebaseAbstract.ts:82 | the fields left after a delete are exactly the fields with another key |
| Values.Spread | src/firestore/ofFirestore.ts:9 | `{ ...a, ...b }` has the union of the keys; a key of `b` reads its value in `b`, any other key reads its value in `a` |
| Values.InstanceFields | src/firestore/toFirestore.ts:19-27 | the own properties the object branch copies from a `Timestamp`, `Date` or sentinel are distinct, defined and contain no `Timestamp` |
| FirestoreWrite.ToFirestore | src/firestore/toFirestore.ts:6-28 | null, undefined, primitives, sentinels and references come back unchanged; a `Date` comes back with the same time value; an array is converted element by element, in place and in order; an a `Timestamp`, having no branch of its own, becomes the plain object of its `_seconds` and `_nanoseconds`; an object keeps a subset of its keys; no object in the result holds an `undefined` field and no `Timestamp` remains |
| FirestoreWrite.ToFirestoreFields | src/firestore/toFirestore.ts:19-27 | the rebuilt object's keys are a subset of the input's, stay distinct, and none holds `undefined` |
| FirestoreWrite.ToFirestoreFieldsLookup | src/firestore/toFirestore.ts:21-25 | a key survives exactly when its value is not `undefined` (a `null` survives), and then holds the converted value |
| FirestoreWrite.ToFirestoreFixpoint | src/firestore/toFirestore.ts:6-28 | a value is left unchanged if and only if no object in it holds `undefined` and it contains no `Timestamp` |
| FirestoreWrite.ToFirestoreFieldsFixpoint | src/firestore/toFirestore.ts:19-27 | an object without `undefined` fields and without `Timestamp`s is rebuilt as itself |
| FirestoreWrite.ToFirestoreIdempotent | src/firestore/toFirestore.ts:6-28 | converting twice is converting once |
| FirestoreRead.TimestampMillis | src/firestore/toNativeTypes.ts:12 | `Timestamp.toDate()`: the seconds in milliseconds plus the nanoseconds rounded to the nearest millisecond, halves upwards |
| FirestoreRead.ToNativeTypesAsWritten | src/firestore/toNativeTypes.ts:6-28 | the converter as written: leaves come back unchanged, a `Timestamp` becomes a `Date`, an array is converted element by element in order, a `Date` becomes the empty object, a sentinel the object of its own properties, and any other object keeps exactly its keys, in order, each value converted |
| FirestoreRead.ToNativeFieldsAsWritten | src/firestore/toNativeTypes.ts:19-27 | the object branch as written keeps every key, in order and distinct when it was, each holding its converted value |
| FirestoreRead.AsWrittenNotIdempotent | src/firestore/toNativeTypes.ts:6-28 | a second pass over a converted `Timestamp` gives `{}` instead of the `Date` |
| FirestoreRead.ToNativeTypes | src/firestore/toNativeTypes.ts:6-28 | null, primitives, references, dates and sentinels come back unchanged; a `Timestamp` becomes the `Date` with its millisecond time value; an array is converted element by element, in place and in order; objects keep exactly their keys; no `Timestamp` remains; a value with no `Timestamp` is returned as it is |
| FirestoreRead.ToNativeFields | src/firestore/toNativeTypes.ts:19-27 | every key is kept, with no `undefined` filtering, keys stay distinct, and an object with no `Timestamp` is returned as it is |
| FirestoreRead.ToNativeFieldsLookup | src/firestore/toNativeTypes.ts:21-25 | each key of the result holds the converted value of the same key in the input |
| FirestoreRead.ToNativeTypesIdempotent | src/firestore/toNativeTypes.ts:6-28 | converting twice is converting once |
| FirestoreRead.AsWrittenAgreesOnStoreData | src/firestore/toNativeTypes.ts:6-28 | on data the store returns (no `Date`, no sentinel), the converter as written and the corrected one agree |
| FirestoreRead.FieldsAgreeOnStoreData | src/firestore/toNativeTypes.ts:19-27 | the same agreement for an object's fields |
| FirestoreRead.FieldsFromStoreMembers | src/firestore/toNativeTypes.ts:19-27 | a body holds only store data exactly when each of its fields does |
| FirestoreRead.SpreadFromStore | src/firestore/ofFirestore.ts:9 | spreading store data over store data gives store data |
| FirestoreRead.IdMerge | src/firestore/ofFirestore.ts:9 | the merged object has the body's keys plus `id`; `id` is the stored `id` when the body has one and the snapshot id otherwise; every other key reads the body's value |
| FirestoreRead.OfFirestore | src/firestore/ofFirestore.ts:8-16 | the result always has an `id` key and exactly the body's keys besides; with `hasTimestamp` no `Timestamp` remains; without it (the default) the merged object is returned unconverted |
| FirestoreRead.OfFirestoreAsWritten | src/firestore/ofFirestore.ts:8-16 | `ofFirestore` with the source's converter: the stored keys plus `id`, distinct when the stored ones are; each field of the merged object converted when `hasTimestamp`, the merged object as it is otherwise |
| FirestoreRead.OfFirestoreAgreesOnStoreData | src/firestore/ofFirestore.ts:8-16 | on any body the store can hold, `ofFirestore` reads the same through the source's converter and the corrected one |
| FirestoreRead.OfFirestoreLookup | src/firestore/ofFirestore.ts:9-15 | each stored key reads its value, converted when `hasTimestamp`; a body without `id` reads the snapshot id under `id`; any other key is absent |
| Errors.NewAppError | src/exceptions/AppError.ts:1-9 | `message` and `code` are stored as given, with no status code |
| Errors.NewApiError | src/exceptions/ApiError.ts:20-23 | message and code are handed to the `AppError` part unchanged, and the status is stored as given |
| Errors.ApiErrorDefaultStatus | src/exceptions/ApiError.ts:20 | an `ApiError` built without a status has status 400 |
| Errors.NewDocumentNotFoundError | src/exceptions/DocumentNotFoundError.ts:6-13 | the message is always `Document not found.`, the code `application/document-not-found`, and there is no status code |
| ErrorHandling.InternalErrors | src/middlewares/internalErrors.ts:7-47 | an `ApiError` is answered with its own status; any other `AppError` with 422; both with `{code, message}`; a `ZodError` with 400 and the validation body; another error with 400 and its `errorInfo` exactly when both `codePrefix` and `errorInfo` are truthy; every other error is passed on unchanged |
| ErrorHandling.AppErrorResponse | src/middlewares/internalErrors.ts:13-29 | over the whole error taxonomy, an application error is answered with its status when it has one and 422 otherwise, never passed on |
| ErrorHandling.DocumentNotFoundResponse | src/middlewares/internalErrors.ts:22-29 | a missing document is answered 422 with its fixed code and message |
| Authentication.IsBearerScheme | src/middlewares/ensureAuthentication.ts:34 | `/^Bearer$/i` accepts exactly the six-letter strings that spell `bearer` with each letter in either case |
| Authentication.EnsureAuthentication | src/middlewares/ensureAuthentication.ts:15-50 | a missing or empty header is rejected as missing (status 400); a header without exactly one space is rejected as malformatted (406); every rejection is one of the three errors |
| Authentication.AcceptedHeaders | src/middlewares/ensureAuthentication.ts:26-49 | a header with one space is accepted if and only if its first half is `Bearer` in any letter case and the provider verifies its second half; the user is then the decoded uid and email; otherwise it is rejected as malformatted (406) or invalid (401) |
| Authentication.RejectionsAreAnswered | src/middlewares/ensureAuthentication.ts:22-47 | every rejection is answered by the error middleware with 400, 406 or 401 |
| Text.Trim | src/utils/abbreviateLastName.ts:2 | the result neither starts nor ends with whitespace, is no longer than the input and holds only the input's characters |
| Text.TrimInfix | src/utils/abbreviateLastName.ts:2 | the trim is the contiguous part of the input that starts right after its leading whitespace |
| Text.TrimCutsWhitespace | src/utils/abbreviateLastName.ts:2 | everything before and after that part is whitespace: trimming cuts only whitespace, and only at the ends |
| Text.TrimIdentity | src/utils/abbreviateLastName.ts:32 | a string that neither starts nor ends with whitespace is its own trim |
| Text.TrimAppendedSpace | src/utils/abbreviateLastName.ts:32 | trimming a trimmed string with one space appended gives the string back |
| Text.Lower | src/utils/abbreviateLastName.ts:2 | lower-casing keeps the length and maps each character |
| Text.LowerIsLower | src/utils/abbreviateLastName.ts:2 | a lower-cased string has nothing left to lower |
| Text.UpperChar | src/utils/abbreviateLastName.ts:7 | upper-casing neither creates nor removes whitespace |
| Text.Split | src/utils/abbreviateLastName.ts:2 | `split` always yields at least one piece |
| Text.SplitJoin | src/utils/abbreviateLastName.ts:2 | joining the pieces with the separator gives the input back |
| Text.SplitShape | src/middlewares/ensureAuthentication.ts:26-28 | there is one more piece than there are separators, and no piece contains the separator |
| Text.SplitAtOnlySeparator | src/middlewares/ensureAuthentication.ts:26-32 | with exactly one separator, the two pieces are the text before it and the text after it |
| Names.SplitName | src/utils/abbreviateLastName.ts:1-3 | the parts joined by spaces are the lower-cased, trimmed input, and no part contains a space |
| Names.Capitalize | src/utils/abbreviateLastName.ts:5-8 | the first character is upper-cased and the rest is kept |
| Names.CapitalizeFirstName | src/utils/abbreviateLastName.ts:5-8 | the first part with its first character upper-cased and the rest kept, at the same length |
| Names.AbbreviateAndCapitalizeLastName | src/utils/abbreviateLastName.ts:10-19 | nothing for a single part; otherwise the last part's upper-cased initial and a period |
| Names.AbbreviateLastName | src/utils/abbreviateLastName.ts:27-33 | the output has no leading or trailing whitespace |
| Names.NamePartsShape | src/utils/abbreviateLastName.ts:1-3 | the first part does not start with whitespace; with several parts, the first and last parts are not empty |
| Names.AbbreviateOnePart | src/utils/abbreviateLastName.ts:27-33 | a one-part name yields only the capitalised name, with no space and no period |
| Names.CapitalizeKeepsTrimmed | src/utils/abbreviateLastName.ts:5-8 | capitalising a trimmed string leaves it trimmed |
| Names.AbbreviateManyParts | src/utils/abbreviateLastName.ts:27-33 | with several parts, the output is the capitalised first part, a space, the last part's upper-cased initial and a period |
| Names.MiddlePartsIgnored | src/utils/abbreviateLastName.ts:14 | two names with the same first part and the same last initial abbreviate alike, whatever lies between |
| Names.FirstNameLowerCase | src/utils/abbreviateLastName.ts:5-8 | after its initial, the first name in the output is in lower case |
| Names.FirstPartIsLowerCase | src/utils/abbreviateLastName.ts:2 | the first part of a split name is in lower case |
| Digits.RemoveNonDigits | src/utils/removeNonDigits.ts:7-9 | one pass yields the input's digit subsequence: only `0`-`9`, no longer than the input |
| Digits.DigitsOnly | src/utils/removeNonDigits.ts:8 | the output holds only digits and is no longer than the input |
| Digits.DigitsCounted | src/utils/removeNonDigits.ts:8 | each digit occurs as often in the output as in the input, and no other character occurs |
| Digits.DigitsAreSubsequence | src/utils/removeNonDigits.ts:8 | the output is a subsequence of the input, in the original order |
| Digits.AllDigitsUnchanged | src/utils/removeNonDigits.ts:8 | an all-digit input is returned unchanged |
| Digits.DigitsIdempotent | src/utils/removeNonDigits.ts:7-9 | removing non-digits twice is removing them once |
| Age.YearDifference | src/utils/calculateAge.ts:1-3 | adding the difference to the birth year gives today's year |
| Age.BirthdayNotReachedThisYear | src/utils/calculateAge.ts:5-10 | holds exactly when today falls before this year's anniversary of the birth date |
| Age.CalculateAge | src/utils/calculateAge.ts:18-28 | the age is the year difference or one less, and one less exactly when today's (month, day) comes before the birthday's |
| Age.AgeCountsAnniversaries | src/utils/calculateAge.ts:18-28 | the age-th anniversary of the birth date has been reached and the next one has not |
| Age.AgeIsUnique | src/utils/calculateAge.ts:18-28 | only one number of years has that property |
| Age.BirthdayCounts | src/utils/calculateAge.ts:9 | on the birthday itself the full year difference counts |
| Age.LaterMonthCounts | src/utils/calculateAge.ts:5-10 | in a later month than the birth month the full year difference counts |
| RepoTypes.SetIsAddWithId | src/typings/repoTypes.ts:8-10 | a set payload is exactly an add payload plus a string `id` |
| RepoTypes.SetIsUpdate | src/typings/repoTypes.ts:8-14 | every set payload is an update payload |
| RepoTypes.PayloadsOmitManagedKeys | src/typings/repoTypes.ts:4-14 | no payload names `createdAt` or `updatedAt`, and an add payload has no `id` |
| RepoTypes.SetPayloadCompletesModel | src/typings/repoTypes.ts:8-10 | over a model type (`T extends Model`), a set payload plus `createdAt` and `updatedAt` names exactly the model's properties, the two stamps not among the payload's |
| RepoTypes.SentinelAccepted | src/typings/repoTypes.ts:5 | a `FieldValue` sentinel may stand in for any payload property |
| Commit.DateToTimestamp | src/firestore/FirebaseAbstract.ts:62 | a `Date` is kept as whole seconds and a nanosecond part below one second, a whole number of milliseconds, that together give back its time value |
| Commit.DateReadsBack | src/firestore/toNativeTypes.ts:11-13 | a `Date` kept by the store converts back to the same `Date` |
| Commit.Incremented | src/firestore/increment.ts:9-11 | `increment(n)` adds `n` to a stored number, and gives `n` when no number is stored |
| Commit.StoredValue | src/firestore/FirebaseAbstract.ts:62 | the kept value holds no `Date` and no sentinel; store data is kept as it is; a `Date` becomes its `Timestamp`, the server-timestamp sentinel the commit time, an increment the incremented value; arrays are resolved element by element |
| Commit.StoredFields | src/firestore/FirebaseAbstract.ts:84 | a committed body has the written body's keys, distinct when they were, and only store data; a body of store data is kept as it is |
| Commit.StoredFieldsLookup | src/firestore/FirebaseAbstract.ts:84 | each key of a committed body holds its written value resolved against the value the key held before |
| Commit.RoundTrip | src/firestore/toNativeTypes.ts:6-28 | data without sentinels, shaped by `toFirestore`, committed and read back with timestamps on, is the shaped data: `Date`s at any depth come back equal, `null` is kept, `undefined` fields stay dropped |
| Commit.RoundTripFields | src/firestore/toFirestore.ts:19-27 | the same round trip for an object body |
| Commit.CommitIdempotent | src/firestore/FirebaseAbstract.ts:106 | committing what the store already holds changes nothing |
| Repository.CreationBody | src/firestore/FirebaseAbstract.ts:52-60 | the body `add` and `set` write has no `id`; with timestamps, `createdAt` is the server-timestamp sentinel and `updatedAt` is `null`; every other key holds the converted data; without timestamps the keys are the converted data's minus `id` |
| Repository.UpdateBody | src/firestore/FirebaseAbstract.ts:74-82 | the body `update` writes has no `id`; with timestamps, `updatedAt` is the sentinel and `createdAt` is absent; every other key holds the converted data |
| Repository.Add | src/firestore/FirebaseAbstract.ts:52-65 | the body, as the store commits it, is filed under a new id, which is returned; no other document changes |
| Repository.Update | src/firestore/FirebaseAbstract.ts:74-85 | the target is `data.id`; a missing document is refused; otherwise the stored keys gain the body's keys and no other document changes |
| Repository.Set | src/firestore/FirebaseAbstract.ts:96-107 | the target is `data.id`; without `merge` or `mergeFields` the committed body replaces or creates the document; with either, the body and the options are handed to the store's merge and the result is committed against the stored document; no other document changes |
| Repository.Delete | src/firestore/FirebaseAbstract.ts:115-117 | the document is gone, the others are unchanged, and nothing fails |
| Repository.GetById | src/firestore/FirebaseAbstract.ts:127-135 | fails with `DocumentNotFoundError` exactly when the document is missing; otherwise returns the body read through `ofFirestore` (timestamps on by default), with the body's keys plus `id` |
| Repository.AllOrNothing | src/firestore/FirebaseAbstract.ts:144-147 | all values in order when every lookup succeeds; otherwise the error of a failed lookup |
| Repository.GetByIds | src/firestore/FirebaseAbstract.ts:144-147 | succeeds exactly when every id is stored; then it returns one document per id, aligned with the ids; otherwise it fails with `DocumentNotFoundError` |
| Repository.WhereManyQuery | src/firestore/FirebaseAbstract.ts:205-231 | one `where` per filter, in order, and no other `where`; a limit exactly when it is set and not zero; an ordering exactly when the key is set and not empty, its direction defaulting to ascending; nothing else |
| Repository.WhereQuery | src/firestore/FirebaseAbstract.ts:181-189 | the given `where` first and no other; a limit exactly when it is set and not zero; an ordering exactly when the key is set and not empty, ascending by default; nothing else |
| Repository.GetDocs | src/firestore/FirebaseAbstract.ts:284-288 | one document per snapshot, in order, each with an `id`; no snapshot gives the empty list, not an error |
| Repository.GetAll | src/firestore/FirebaseAbstract.ts:155-157 | one document per snapshot of the unconstrained collection, in order; an empty collection gives the empty list |
| Repository.GetWhere | src/firestore/FirebaseAbstract.ts:172-192 | one document per snapshot the one-filter query yields, in order; no result gives the empty list, not an error |
| Repository.GetWhereMany | src/firestore/FirebaseAbstract.ts:205-231 | one document per snapshot the filter-list query yields, in order; no result gives the empty list, not an error |
| Repository.GetOneWhere | src/firestore/FirebaseAbstract.ts:245-255 | `null` exactly when the limit-1 query yields nothing; otherwise its first document |
| Repository.GetOneWhereMany | src/firestore/FirebaseAbstract.ts:267-275 | the same for a filter list |
| Repository.WrittenFieldFromData | src/firestore/FirebaseAbstract.ts:52-82 | each unmanaged key of a written body holds the caller's value converted, and is absent when the caller's value is `undefined` |
| Repository.UntimedBodiesAgree | src/firestore/FirebaseAbstract.ts:52-106 | without timestamps, `add`, `set` and `update` write the same body: the converted data without `id` |
| Repository.AddThenGetById | src/firestore/FirebaseAbstract.ts:52-65 | after `add`, reading the new id succeeds and the document's `id` is the new id |
| Repository.SetThenGetById | src/firestore/FirebaseAbstract.ts:96-107 | after a plain `set`, the document reads back under the payload's `id` |
| Repository.WrittenFieldReadsBack | src/firestore/FirebaseAbstract.ts:52-65 | a field of a body `add` or a plain `set` filed reads back as its written value, resolved at commit time and converted when asked |
| Repository.AddedDocumentRead | src/firestore/FirebaseAbstract.ts:52-65 | reading the id `add` returned gives the committed body through `ofFirestore` |
| Repository.CreationStampsStored | src/firestore/FirebaseAbstract.ts:55-58 | the committed creation stamps read back as the commit time's `Date` under `createdAt` and `null` under `updatedAt` |
| Repository.CreationStampsReadBack | src/firestore/FirebaseAbstract.ts:52-65 | with the default options, a document read right after `add` has the commit time as its `createdAt` `Date` and `null` as its `updatedAt` |
| Repository.DateFieldReadsBack | src/firestore/FirebaseAbstract.ts:52-65 | a `Date` the caller writes reads back as the same `Date` with timestamps on and as the stored `Timestamp` with them off |
| Repository.UpdateKeepsCreation | src/firestore/FirebaseAbstract.ts:74-85 | an update keeps the stored `id` and, with timestamps, the stored `createdAt`, stamps `updatedAt` with the commit time, replaces the fields it carries with their committed values and keeps the rest |
| Repository.WritesPreserveWellFormed | src/firestore/FirebaseAbstract.ts:52-117 | every write keeps each stored body's keys distinct and free of `Date`s and sentinels |
| Repository.AddedFieldReadsBack | src/firestore/FirebaseAbstract.ts:52-65 | with timestamps on, every unmanaged field written through `add` reads back through `getById` as `toFirestore` shaped it, `Date`s at any depth included |
| Repository.QueriesAgreeWithSource | src/firestore/FirebaseAbstract.ts:284-288 | when the store answers from a well-formed collection, every document a query read returns is what the source's `toNativeTypes` gives; `getAll`, `getWhere`, `getWhereMany` and the `getOne` variants read through it |
| Repository.ReadsAgreeWithSource | src/firestore/FirebaseAbstract.ts:127-135 | on a well-formed store, `getById` reads exactly what the source's `toNativeTypes` would give |
| Repository.DeleteIdempotent | src/firestore/FirebaseAbstract.ts:115-117 | deleting twice is deleting once, and the document is then not found |
| Repository.MissingDocumentAnswered | src/firestore/FirebaseAbstract.ts:127-135 | a read of a missing document ends as a 422 answer with the not-found code and message |
| Repository.GetWhereIsOneFilter | src/firestore/FirebaseAbstract.ts:172-231 | `getWhere` is `getWhereMany` with one filter |
| Repository.FilterFormsAgree | src/firestore/FirebaseAbstract.ts:214-220 | the tuple and object forms of a filter build the same query |
| Repository.NoFiltersIsGetAll | src/firestore/FirebaseAbstract.ts:155-157 | no filters, no limit and no ordering query the whole collection, as `getAll` does |
| Repository.OneWhereAsksForOne | src/firestore/FirebaseAbstract.ts:273 | the single-document reads ask the store for exactly one document |

## Left out

- The store itself (`getFirestore()`, `query.get()`): query evaluation, ordering and limits are a function parameter, and merge writes go through a merge function parameter.
- Commit.Instant: the commit time is a parameter; the store's clock and its microsecond precision are not modelled.
- Commit.StoredValue: a sentinel or an `undefined` inside an array, which the client library refuses, is resolved or kept instead of failing the write; an increment nested inside an object value is resolved as if nothing were stored there, which is right for `update` and plain `set` but not for a deep merge.
- Values.Assign: the model keeps insertion order for every key, including array-index keys such as `"0"`, which JavaScript enumerates first in ascending order. The one contract that states order is `Assign`'s clause that a new key is appended at the end (`r == fs + [Field(k, v)]`), which is therefore wrong for an array-index key; every other property is stated through `Lookup` and `Keys`, which do not depend on order.
- Commit.DateToTimestamp: the store keeps a written `Date` as a `Timestamp`, as `Timestamp.fromDate` of the Firestore client library does (whole seconds rounded down, the rest as nanoseconds); that library is not part of this model, and a time value outside the store's range is not rejected.
- FirestoreRead.TimestampMillis: follows `Timestamp.toDate()` of the Firestore client library, which rounds the nanoseconds to the nearest millisecond; that library is not part of this model.
- Dotted field paths in `update` and the store's rejection of an empty update: an update replaces top-level fields only.
- `Promise.all` concurrency: `getByIds` reads the ids one after the other; every failure is the same error, so which one settles first does not matter.
- Firestore's own error for updating a missing document: modelled as the model's own `NoDocumentToUpdate`, since its message and code come from the client library.
- Floating-point numbers, `NaN` and `-0`: numbers are integers, so the truthiness of a `limit` is "not zero".
- `toCents` and `toCurrency` (floating point, `toFixed`) and `removeAccents` (Unicode normalisation by the runtime library).
- `globalErrors` (logging, always 500) and the Express bootstrap in `src/http/index.ts`.
- The compiled `lib/` build, which diverges from `src/`; the model follows `src/`.
- `increment`, `decrement` and `serverTimestamp` are thin wrappers; they appear only as the sentinel constructors `Increment` and `ServerTimestamp`.
- `Date` internals: a `Date` is its time value, and `calculateAge` takes the local calendar components of today and of the birth date as parameters, so the clock and time zones are outside the model.
- Names.AbbreviateAndCapitalizeLastName: strings are sequences of code points, not of UTF-16 code units, so `lastName.charAt(0)` is modelled as the whole first character; for a last name that starts outside the Basic Multilingual Plane the program takes only the high surrogate (`"ana 𝐁eto"` gives `"Ana \uD835."`), the model the whole character. `Names.AbbreviateLastName` inherits this.
- Text.UpperChar: covers ASCII letters only, not full Unicode case mapping; `Text.LowerChar` likewise.
- Authentication.EnsureAuthentication: `decoded.email as string` is kept as an optional string.
- Repository.Update: states the keys of the updated document; its field values are stated in `Repository.UpdateKeepsCreation`, which needs distinct keys.
- Repository.GetDocs: does not state which documents the store returns for a query, since query evaluation is a parameter.
- RepoTypes: a model type is a schema of required properties; optional model properties are not modelled.

## Findings

| source | as written | input that shows it | evidently intended | confidence | as-written member | corrected member |
|---|---|---|---|---|---|---|
| src/firestore/toNativeTypes.ts:7-27 | a `Date` (and a `FieldValue`) is not among the pass-through cases, so it falls into the plain-object branch and is rebuilt from its own enumerable keys, which a `Date` does not have | `toNativeTypes(toNativeTypes(ts))` for any `Timestamp` `ts`: the first pass gives a `Date`, the second gives `{}` | a `Date` passes through, so the conversion is idempotent and the identity on values without `Timestamp`s | not executed | FirestoreRead.AsWrittenNotIdempotent | FirestoreRead.ToNativeTypes |
