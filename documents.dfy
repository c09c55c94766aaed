/**
 * Documents of the `VehicleStats` collection as JSON-like values, and the
 * store-side effect of the update operators the data-access layer sends.
 */
module Documents {
  import opened Wrappers

  /** A field value of a stored document or of an update's payload. */
  datatype Value =
    | Undefined
    | Null
    | Bool(b: bool)
    | Num(n: int)
    | Str(s: string)
    | Obj(fields: map<string, Value>)

  /** A document without its `_id`: the collection is keyed by `_id`. */
  type Doc = map<string, Value>

  /** The ways a store call of this model can reject. */
  datatype StoreError =
    | DuplicateKey      // a unique index refuses the write
    | PathConflict      // two `$set` paths of one update overlap
    | NotAnObject       // a `$set` path descends into a field that is not an object
    | EmptyBulkWrite    // the driver refuses an `insertMany` of no documents

  /** `{ ...doc, id: doc._id }` of a document read back under key `id`. */
  function WithId(doc: Doc, id: string): (r: Doc)
    ensures r.Keys == doc.Keys + {"_id", "id"}
    ensures r["_id"] == Str(id) && r["id"] == Str(id)
    ensures forall k :: k in doc && k != "_id" && k != "id" ==> r[k] == doc[k]
  {
    doc["_id" := Str(id)]["id" := Str(id)]
  }

  /**
   * `$set: { ...props, "metadata.updatedBy": updatedBy, "metadata.updatedAt": updatedAt }` on `doc`.
   * The store refuses the update when `props` also names `metadata` (the paths
   * overlap) or when the stored `metadata` exists and is not an object.
   */
  function SetWithMetadata(doc: Doc, props: Doc, updatedBy: Value, updatedAt: Value): (r: Result<Doc, StoreError>)
    ensures r.Failure? <==> "metadata" in props || ("metadata" in doc && !doc["metadata"].Obj?)
    ensures r.Success? ==>
      && r.value.Keys == doc.Keys + props.Keys + {"metadata"}
      && (forall k :: k in props ==> r.value[k] == props[k])
      && (forall k :: k in doc && k !in props && k != "metadata" ==> r.value[k] == doc[k])
      && r.value["metadata"].Obj?
      && var prior := if "metadata" in doc then doc["metadata"].fields else map[];
         var meta := r.value["metadata"].fields;
         && meta.Keys == prior.Keys + {"updatedBy", "updatedAt"}
         && meta["updatedBy"] == updatedBy && meta["updatedAt"] == updatedAt
         && (forall k :: k in prior && k != "updatedBy" && k != "updatedAt" ==> meta[k] == prior[k])
  {
    if "metadata" in props then Failure(PathConflict)
    else if "metadata" in doc && !doc["metadata"].Obj? then Failure(NotAnObject)
    else
      var meta := if "metadata" in doc then doc["metadata"].fields else map[];
      Success((doc + props)["metadata" := Obj(meta["updatedBy" := updatedBy]["updatedAt" := updatedAt])])
  }

  /**
   * `updateOne({ _id: id }, { $set: props }, { upsert: true })` on the collection:
   * the document is created when absent, the fields of `props` are overwritten
   * and every other field is kept.
   */
  function UpsertSet(docs: map<string, Doc>, id: string, props: Doc): (r: map<string, Doc>)
    ensures r.Keys == docs.Keys + {id}
    ensures forall other :: other in docs && other != id ==> r[other] == docs[other]
    ensures id in docs ==> r[id].Keys == docs[id].Keys + props.Keys
    ensures id !in docs ==> r[id] == props
    ensures forall k :: k in props ==> r[id][k] == props[k]
    ensures forall k :: id in docs && k in docs[id] && k !in props ==> r[id][k] == docs[id][k]
  {
    var base := if id in docs then docs[id] else map[];
    docs[id := base + props]
  }

  /** Upserting the same fields twice leaves the collection as upserting them once. */
  lemma UpsertSetIdempotent(docs: map<string, Doc>, id: string, props: Doc)
    ensures UpsertSet(UpsertSet(docs, id, props), id, props) == UpsertSet(docs, id, props)
  {
    var once := UpsertSet(docs, id, props);
    assert once[id] + props == once[id];
  }
}
