/**
 * The payload shapes of the repository (src/typings/repoTypes.ts) over a
 * model type (`Model`: `id`, `createdAt`, `updatedAt`). A model type is
 * described by a schema from property names to declared kinds.
 */
module RepoTypes {
  import opened Wrappers
  import opened Values

  /** The declared TypeScript type of a model property. */
  datatype Kind = BoolKind | NumberKind | StringKind | DateKind | RefKind | ArrayKind | ObjectKind | NullableKind(of: Kind)

  type Schema = map<string, Kind>

  const CreatedAtKey := "createdAt"
  const UpdatedAtKey := "updatedAt"

  /** A value of the declared kind. */
  predicate HasKind(v: Value, k: Kind) {
    match k
    case BoolKind => v.Prim? && v.p.Bool?
    case NumberKind => v.Prim? && v.p.Num?
    case StringKind => v.Prim? && v.p.Str?
    case DateKind => v.Date?
    case RefKind => v.DocRef?
    case ArrayKind => v.Arr?
    case ObjectKind => v.Obj?
    case NullableKind(of) => v.Null? || HasKind(v, of)
  }

  /** `T extends Model`: `id: string`, `createdAt: Date`, `updatedAt: Date`. */
  predicate IsModelSchema(schema: Schema) {
    && IdKey in schema && schema[IdKey] == StringKind
    && CreatedAtKey in schema && schema[CreatedAtKey] == DateKind
    && UpdatedAtKey in schema && schema[UpdatedAtKey] == DateKind
  }

  /** `keyof Omit<T, 'id' | 'createdAt' | 'updatedAt'>`. */
  function PayloadKeys(schema: Schema): set<string> {
    schema.Keys - {IdKey, CreatedAtKey, UpdatedAtKey}
  }

  /** `T[P] | FieldValue`, and `undefined` too when the property is optional. */
  predicate PayloadFieldOk(schema: Schema, f: Field, optional: bool) {
    && f.key in PayloadKeys(schema)
    && (HasKind(f.value, schema[f.key]) || f.value.Sentinel? || (optional && f.value.Undefined?))
  }

  /** `Pick<T, 'id'>`: the payload carries a string `id`. */
  predicate HasStringId(fs: Fields) {
    match Lookup(fs, IdKey)
    case Some(Prim(Str(_))) => true
    case _ => false
  }

  function IdOf(fs: Fields): string
    requires HasStringId(fs)
  {
    Lookup(fs, IdKey).value.p.s
  }

  /** `AddDocument<T>`: every payload property, none of the managed ones. */
  predicate IsAddDocument(schema: Schema, fs: Fields) {
    && DistinctKeys(fs)
    && Keys(fs) == PayloadKeys(schema)
    && forall f :: f in fs ==> PayloadFieldOk(schema, f, false)
  }

  /** `SetDocument<T>`: every payload property plus a string `id`. */
  predicate IsSetDocument(schema: Schema, fs: Fields) {
    && DistinctKeys(fs)
    && HasStringId(fs)
    && Keys(fs) == PayloadKeys(schema) + {IdKey}
    && forall f :: f in fs ==> f.key == IdKey || PayloadFieldOk(schema, f, false)
  }

  /** `UpdateDocument<T>`: a string `id` and any payload properties, each
      optional. */
  predicate IsUpdateDocument(schema: Schema, fs: Fields) {
    && DistinctKeys(fs)
    && HasStringId(fs)
    && forall f :: f in fs ==> f.key == IdKey || PayloadFieldOk(schema, f, true)
  }

  /** A set payload is an add payload with a string `id` added. */
  lemma SetIsAddWithId(schema: Schema, fs: Fields)
    ensures IsSetDocument(schema, fs) <==>
      DistinctKeys(fs) && HasStringId(fs) && IsAddDocument(schema, Remove(fs, IdKey))
  {
    RemoveMembers(fs, IdKey);
    if DistinctKeys(fs) && HasStringId(fs) {
      assert IdKey in Keys(fs);
      assert IdKey !in PayloadKeys(schema);
      if IsAddDocument(schema, Remove(fs, IdKey)) {
        assert Keys(fs) == Keys(Remove(fs, IdKey)) + {IdKey};
      }
    }
  }

  /** Every set payload is also an update payload. */
  lemma SetIsUpdate(schema: Schema, fs: Fields)
    requires IsSetDocument(schema, fs)
    ensures IsUpdateDocument(schema, fs)
  {
  }

  /** No payload names a managed timestamp, and an add payload has no `id`. */
  lemma PayloadsOmitManagedKeys(schema: Schema, fs: Fields)
    ensures IsAddDocument(schema, fs) ==> IdKey !in Keys(fs)
    ensures IsAddDocument(schema, fs) || IsSetDocument(schema, fs) || IsUpdateDocument(schema, fs) ==>
      CreatedAtKey !in Keys(fs) && UpdatedAtKey !in Keys(fs)
  {
    if CreatedAtKey in Keys(fs) {
      LookupFound(fs, CreatedAtKey);
    }
    if UpdatedAtKey in Keys(fs) {
      LookupFound(fs, UpdatedAtKey);
    }
  }

  /** Over a model type, a set payload together with the two managed
      timestamps names every property of the model: `SetDocument<T>` plus
      `createdAt` and `updatedAt` is a whole `T`. */
  lemma SetPayloadCompletesModel(schema: Schema, fs: Fields)
    requires IsModelSchema(schema) && IsSetDocument(schema, fs)
    ensures Keys(fs) + {CreatedAtKey, UpdatedAtKey} == schema.Keys
    ensures Keys(fs) * {CreatedAtKey, UpdatedAtKey} == {}
  {
    PayloadsOmitManagedKeys(schema, fs);
  }

  /** A `FieldValue` sentinel may stand in for any payload property. */
  lemma SentinelAccepted(schema: Schema, fs: Fields, k: string, fv: FieldValue)
    requires IsAddDocument(schema, fs) && k in PayloadKeys(schema)
    ensures IsAddDocument(schema, Assign(fs, k, Sentinel(fv)))
  {
    AssignMembers(fs, k, Sentinel(fv));
  }
}
