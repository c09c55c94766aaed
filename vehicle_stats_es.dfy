/**
 * The event-sourcing handler that rebuilds the `VehicleStats` view from
 * `VehicleStatsModified` events: a version-indexed mapper turns the event data
 * into the stored fields, then the document is deleted or upserted.
 */
module VehicleStatsES {
  import opened Wrappers
  import opened Documents
  import VehicleStatsDA

  /** The fields of a `VehicleStatsModified` event the handler reads. */
  datatype ModifiedEvent = ModifiedEvent(etv: int, aid: string, av: int, data: Doc, user: string, timestamp: int)

  /** Why the mapper throws. */
  datatype MapperError =
    | EtvZeroRejected    // the etv 0 mapper throws 'etv 0 is not an option'
    | NoMapperForEtv     // no mapper at this index: calling `undefined` throws a TypeError

  /** `aggregateDataMapper[etv](data)`: only version 1 maps, by blanking `modType`. */
  function AggregateData(etv: int, data: Doc): (r: Result<Doc, MapperError>)
    ensures etv == 0 ==> r == Failure(EtvZeroRejected)
    ensures etv != 0 && etv != 1 ==> r == Failure(NoMapperForEtv)
    ensures etv == 1 ==> r.Success? && r.value.Keys == data.Keys + {"modType"} && r.value["modType"] == Undefined
    ensures etv == 1 ==> forall k :: k in data && k != "modType" ==> r.value[k] == data[k]
  {
    if etv == 0 then Failure(EtvZeroRejected)
    else if etv == 1 then Success(data["modType" := Undefined])
    else Failure(NoMapperForEtv)
  }

  /** `data.modType === 'DELETE'`. */
  predicate IsDelete(data: Doc) {
    "modType" in data && data["modType"] == Str("DELETE")
  }

  /** The collection after replaying `e`, or the error the mapper throws (then nothing changes). */
  function Replay(docs: map<string, Doc>, e: ModifiedEvent): Result<map<string, Doc>, MapperError> {
    match AggregateData(e.etv, e.data)
    case Failure(err) => Failure(err)
    case Success(fields) =>
      Success(if IsDelete(e.data) then docs - {e.aid} else UpsertSet(docs, e.aid, fields))
  }

  /** Version 1 events: a DELETE removes the document, any other kind upserts the data with `modType` undefined. */
  lemma ReplayVersionOne(docs: map<string, Doc>, e: ModifiedEvent)
    requires e.etv == 1
    ensures Replay(docs, e).Success?
    ensures IsDelete(e.data) ==> Replay(docs, e).value == docs - {e.aid}
    ensures !IsDelete(e.data) ==>
      var r := Replay(docs, e).value;
      && r.Keys == docs.Keys + {e.aid}
      && r[e.aid]["modType"] == Undefined
      && (forall k :: k in e.data && k != "modType" ==> r[e.aid][k] == e.data[k])
      && (forall k :: e.aid in docs && k in docs[e.aid] && k !in e.data && k != "modType" ==> r[e.aid][k] == docs[e.aid][k])
      && (forall other :: other in docs && other != e.aid ==> r[other] == docs[other])
  {
  }

  /** Any version other than 1 fails before the store is touched, a DELETE included. */
  lemma ReplayOtherVersionsFail(docs: map<string, Doc>, e: ModifiedEvent)
    requires e.etv != 1
    ensures Replay(docs, e).Failure?
    ensures e.etv == 0 ==> Replay(docs, e).error == EtvZeroRejected
    ensures e.etv != 0 ==> Replay(docs, e).error == NoMapperForEtv
  {
  }

  /** Replaying the same event twice leaves the collection as replaying it once. */
  lemma ReplayIdempotent(docs: map<string, Doc>, e: ModifiedEvent)
    requires Replay(docs, e).Success?
    ensures Replay(Replay(docs, e).value, e) == Replay(docs, e)
  {
    var fields := AggregateData(e.etv, e.data).value;
    if !IsDelete(e.data) {
      UpsertSetIdempotent(docs, e.aid, fields);
    } else {
      assert docs - {e.aid} - {e.aid} == docs - {e.aid};
    }
  }

  /** `handleVehicleStatsModified$`: the mapper runs first, then the delete or the upsert. */
  method HandleVehicleStatsModified(store: VehicleStatsDA.VehicleStatsStore, e: ModifiedEvent)
    returns (r: Result<(), MapperError>)
    requires store.Valid()
    modifies store
    ensures store.Valid()
    ensures store.ledger == old(store.ledger) && store.fleetStats == old(store.fleetStats)
    ensures store.aidIndexed == old(store.aidIndexed)
    ensures match Replay(old(store.docs), e)
      case Failure(err) => r == Failure(err) && store.docs == old(store.docs)
      case Success(after) => r == Success(()) && store.docs == after
  {
    var mapped := AggregateData(e.etv, e.data);
    if mapped.Failure? {
      return Failure(mapped.error);
    }
    if IsDelete(e.data) {
      var _ := store.DeleteVehicleStats(e.aid);
    } else {
      var _ := store.UpdateVehicleStatsFromRecovery(e.aid, mapped.value);
    }
    r := Success(());
  }
}
