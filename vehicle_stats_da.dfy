/**
 * The data-access layer of the vehicle-stats domain as one store object holding
 * its three collections: `processed_vehicles` (the dedup ledger of aids),
 * `fleet_statistics` (the singleton aggregate `real_time_fleet_stats`) and
 * `VehicleStats` (entity documents keyed by `_id`).
 */
module VehicleStatsDA {
  import opened Wrappers
  import opened Documents
  import opened FleetStatistics
  import opened FleetProjection
  import opened Sequences
  import opened GraphQLInputs
  import JsText

  // ----- The dedup ledger -----

  /** One `processed_vehicles` document. */
  datatype ProcessedAid = ProcessedAid(aid: string, processedAt: string)

  /** No two entries of the ledger share an aid. */
  predicate DistinctAids(ledger: seq<ProcessedAid>) {
    forall i, j :: 0 <= i < j < |ledger| ==> ledger[i].aid != ledger[j].aid
  }

  /** True when some entry of the ledger carries `aid`. */
  predicate InLedger(ledger: seq<ProcessedAid>, aid: string) {
    exists i :: 0 <= i < |ledger| && ledger[i].aid == aid
  }

  /** The aids of the entries `find({ aid: { $in: aids } })` returns, in ledger order. */
  function ProcessedAmong(ledger: seq<ProcessedAid>, aids: seq<string>): (r: seq<string>)
    ensures forall x :: x in r <==> x in aids && InLedger(ledger, x)
    ensures |r| <= |ledger|
    decreases |ledger|
  {
    if ledger == [] then []
    else
      var init, last := ledger[..|ledger| - 1], ledger[|ledger| - 1];
      var r := ProcessedAmong(init, aids) + (if last.aid in aids then [last.aid] else []);
      assert forall x :: InLedger(ledger, x) <==> InLedger(init, x) || last.aid == x by {
        forall x | InLedger(ledger, x) && last.aid != x ensures InLedger(init, x) {
          var i :| 0 <= i < |ledger| && ledger[i].aid == x;
          assert init[i] == ledger[i];
        }
        forall x | InLedger(init, x) ensures InLedger(ledger, x) {
          var i :| 0 <= i < |init| && init[i].aid == x;
          assert ledger[i] == init[i];
        }
      }
      r
  }

  /** Over a ledger without duplicates the answer has no duplicates either, hence no more aids than asked. */
  lemma {:induction false} ProcessedAmongDistinct(ledger: seq<ProcessedAid>, aids: seq<string>)
    requires DistinctAids(ledger)
    ensures Distinct(ProcessedAmong(ledger, aids))
    ensures |ProcessedAmong(ledger, aids)| <= |aids|
    decreases |ledger|
  {
    var r := ProcessedAmong(ledger, aids);
    if ledger != [] {
      var init, last := ledger[..|ledger| - 1], ledger[|ledger| - 1];
      assert DistinctAids(init);
      ProcessedAmongDistinct(init, aids);
      if last.aid in aids {
        assert !InLedger(init, last.aid);
      }
    }
    DistinctSubsetLength(r, aids);
  }

  /** The documents `aids.map(aid => ({ aid, processedAt }))`. */
  function EntriesOf(aids: seq<string>, now: string): (r: seq<ProcessedAid>)
    ensures |r| == |aids|
    ensures forall i :: 0 <= i < |aids| ==> r[i].aid == aids[i] && r[i].processedAt == now
  {
    seq(|aids|, i requires 0 <= i < |aids| => ProcessedAid(aids[i], now))
  }

  /** Builds the ledger entries one aid at a time. */
  method BuildEntries(aids: seq<string>, now: string) returns (entries: seq<ProcessedAid>)
    ensures entries == EntriesOf(aids, now)
  {
    entries := [];
    for i := 0 to |aids|
      invariant entries == EntriesOf(aids[..i], now)
    {
      entries := entries + [ProcessedAid(aids[i], now)];
    }
    assert aids[..|aids|] == aids;
  }

  /**
   * Whether `insertMany` of `aids` goes through: without the unique index it
   * always does; with it, no aid may repeat in the input or already be in the ledger.
   */
  predicate Admits(ledger: seq<ProcessedAid>, uniqueAid: bool, aids: seq<string>) {
    !uniqueAid || (Distinct(aids) && forall i :: 0 <= i < |aids| ==> !InLedger(ledger, aids[i]))
  }

  /** An insert the unique index admits keeps the ledger free of duplicate aids and records every aid. */
  lemma AdmittedInsert(ledger: seq<ProcessedAid>, aids: seq<string>, now: string)
    requires DistinctAids(ledger)
    requires Admits(ledger, true, aids)
    ensures DistinctAids(ledger + EntriesOf(aids, now))
    ensures forall x :: InLedger(ledger + EntriesOf(aids, now), x) <==> InLedger(ledger, x) || x in aids
  {
    var l := ledger + EntriesOf(aids, now);
    forall i, j | 0 <= i < j < |l| ensures l[i].aid != l[j].aid {
      if j >= |ledger| && i < |ledger| {
        assert l[j].aid == aids[j - |ledger|];
        assert !InLedger(ledger, aids[j - |ledger|]);
      }
    }
    forall x | InLedger(l, x) ensures InLedger(ledger, x) || x in aids {
      var i :| 0 <= i < |l| && l[i].aid == x;
      if i >= |ledger| { assert aids[i - |ledger|] == x; }
    }
    forall x | x in aids ensures InLedger(l, x) {
      var i :| 0 <= i < |aids| && aids[i] == x;
      assert l[|ledger| + i].aid == x;
    }
    forall x | InLedger(ledger, x) ensures InLedger(l, x) {
      var i :| 0 <= i < |ledger| && ledger[i].aid == x;
      assert l[i] == ledger[i];
    }
  }

  /** Once every aid of a batch is in the ledger, asking for that batch returns every one of them. */
  lemma ProcessedAfterInsert(ledger: seq<ProcessedAid>, aids: seq<string>, now: string)
    ensures forall x :: x in aids ==> x in ProcessedAmong(ledger + EntriesOf(aids, now), aids)
  {
    var l := ledger + EntriesOf(aids, now);
    forall x | x in aids ensures InLedger(l, x) {
      var i :| 0 <= i < |aids| && aids[i] == x;
      assert l[|ledger| + i].aid == x;
    }
  }

  /** The query `{ _id, organizationId }` matches this document's organization. */
  predicate OwnedBy(doc: Doc, organizationId: string) {
    "organizationId" in doc && doc["organizationId"] == Str(organizationId)
  }

  // ----- The listing query -----

  /** The listing filter as the API receives it; `None` is an absent field. */
  datatype ListingFilter = ListingFilter(name: Option<string>, organizationId: Option<string>, active: Option<bool>)

  /** The Mongo query `generateListingQuery` builds; `namePattern` is a case-insensitive `$regex`. */
  datatype ListingQuery = ListingQuery(namePattern: Option<string>, organizationId: Option<string>, active: Option<bool>)

  /** Fills the query field by field: a truthy name, a truthy organization, any defined `active`. */
  method GenerateListingQuery(filter: ListingFilter) returns (q: ListingQuery)
    ensures q.namePattern.Some? <==> JsText.TruthyString(filter.name)
    ensures q.namePattern.Some? ==> q.namePattern == filter.name
    ensures q.organizationId.Some? <==> JsText.TruthyString(filter.organizationId)
    ensures q.organizationId.Some? ==> q.organizationId == filter.organizationId
    ensures q.active == filter.active
  {
    q := ListingQuery(None, None, None);
    if JsText.TruthyString(filter.name) {
      q := q.(namePattern := filter.name);
    }
    if JsText.TruthyString(filter.organizationId) {
      q := q.(organizationId := filter.organizationId);
    }
    if filter.active.Some? {
      q := q.(active := filter.active);
    }
  }

  /**
   * Whether a document satisfies the listing query; `nameMatches(pattern, name)`
   * stands for the case-insensitive regular-expression test on the name.
   */
  predicate Matches(q: ListingQuery, doc: Doc, nameMatches: (string, string) -> bool) {
    && (q.namePattern.Some? ==>
          "name" in doc && doc["name"].Str? && nameMatches(q.namePattern.value, doc["name"].s))
    && (q.organizationId.Some? ==> "organizationId" in doc && doc["organizationId"] == Str(q.organizationId.value))
    && (q.active.Some? ==> "active" in doc && doc["active"] == Bool(q.active.value))
  }

  /** A filter with no truthy name or organization and no `active` selects every document. */
  lemma EmptyFilterMatchesAll(filter: ListingFilter, q: ListingQuery, doc: Doc, nameMatches: (string, string) -> bool)
    requires !JsText.TruthyString(filter.name) && !JsText.TruthyString(filter.organizationId) && filter.active.None?
    requires q.namePattern.Some? <==> JsText.TruthyString(filter.name)
    requires q.organizationId.Some? <==> JsText.TruthyString(filter.organizationId)
    requires q.active == filter.active
    ensures Matches(q, doc, nameMatches)
  {
  }

  /** `pagination`'s fields; an absent one takes its default (page 0, count 10). */
  datatype Pagination = Pagination(page: Option<int>, count: Option<int>)

  /** One sort key with direction 1 or -1. */
  datatype SortSpec = SortSpec(field: string, direction: int)

  /** What the listing asks of the cursor: query, projected fields, skip, limit and sort. */
  datatype Cursor = Cursor(query: ListingQuery, projection: set<string>, skip: int, limit: int, sort: SortSpec)

  /** The sort of the listing: the requested one, else newest `metadata.createdAt` first. */
  function SortOf(sortInput: Option<SortInput>): (r: SortSpec)
    ensures sortInput.Some? ==> r.field == sortInput.value.field && (r.direction == 1 <==> sortInput.value.asc)
    ensures sortInput.None? ==> r == SortSpec("metadata.createdAt", -1)
    ensures r.direction == 1 || r.direction == -1
  {
    match sortInput
    case Some(s) => SortSpec(s.field, if s.asc then 1 else -1)
    case None => SortSpec("metadata.createdAt", -1)
  }

  /** A listing row: `name` and `active` when present, plus `_id` and `id`. */
  function ListingRow(doc: Doc, id: string): (r: Doc)
    ensures r.Keys == (doc.Keys * {"name", "active"}) + {"_id", "id"}
    ensures forall k :: k in doc && (k == "name" || k == "active") ==> r[k] == doc[k]
  {
    WithId(map k | k in doc && (k == "name" || k == "active") :: doc[k], id)
  }

  /**
   * The rows of one page taken from the matching rows in sort order: `skip` rows
   * dropped, then at most `limit` kept (`limit` 0 keeps all, a negative limit
   * counts as its absolute value); a negative `skip` is refused.
   */
  function Window<T>(ordered: seq<T>, skip: int, limit: int): (r: Option<seq<T>>)
    ensures r.None? <==> skip < 0
    ensures r.Some? ==>
      var rest := if skip < |ordered| then |ordered| - skip else 0;
      var keep := if limit == 0 || rest <= (if limit < 0 then -limit else limit) then rest
                  else (if limit < 0 then -limit else limit);
      && |r.value| == keep
      && forall i :: 0 <= i < |r.value| ==> r.value[i] == ordered[skip + i]
  {
    if skip < 0 then None
    else
      var rest := if skip < |ordered| then ordered[skip..] else [];
      var n := if limit < 0 then -limit else limit;
      Some(if limit == 0 || |rest| <= n then rest else rest[..n])
  }

  // ----- The store -----

  class VehicleStatsStore {
    /** `VehicleStats`: documents keyed by `_id`. */
    var docs: map<string, Doc>
    /** `processed_vehicles`, in insertion order. */
    var ledger: seq<ProcessedAid>
    /** Whether the unique index on `processed_vehicles.aid` exists. */
    var aidIndexed: bool
    /** The `real_time_fleet_stats` document of `fleet_statistics`, when it exists. */
    var fleetStats: Option<FleetAggregate>

    /** The unique index keeps aids distinct; `avg` is never stored in the aggregate. */
    ghost predicate Valid()
      reads this
    {
      && (aidIndexed ==> DistinctAids(ledger))
      && (fleetStats.Some? ==> fleetStats.value.hpStats.avg.None?)
    }

    /** An empty database. */
    constructor ()
      ensures Valid()
      ensures docs == map[] && ledger == [] && !aidIndexed && fleetStats == None
    {
      docs := map[];
      ledger := [];
      aidIndexed := false;
      fleetStats := None;
    }

    /** `getProcessedAids$`: the aids among `aids` the ledger holds, in ledger order; nothing is written. */
    method GetProcessedAids(aids: seq<string>) returns (found: seq<string>)
      requires Valid()
      ensures found == ProcessedAmong(ledger, aids)
      ensures forall x :: x in found <==> x in aids && InLedger(ledger, x)
      ensures aidIndexed ==> Distinct(found) && |found| <= |aids|
    {
      found := [];
      for i := 0 to |ledger|
        invariant found == ProcessedAmong(ledger[..i], aids)
      {
        assert ledger[..i + 1][..i] == ledger[..i];
        if ledger[i].aid in aids {
          found := found + [ledger[i].aid];
        }
      }
      assert ledger[..|ledger|] == ledger;
      if aidIndexed {
        ProcessedAmongDistinct(ledger, aids);
      }
    }

    /**
     * `insertProcessedAids$`: one entry per aid stamped `now`, answering the
     * number inserted; the driver refuses an empty batch, and the unique index
     * refuses the whole batch on a duplicate.
     */
    method InsertProcessedAids(aids: seq<string>, now: string) returns (r: Result<int, StoreError>)
      requires Valid()
      modifies this
      ensures Valid()
      ensures docs == old(docs) && fleetStats == old(fleetStats) && aidIndexed == old(aidIndexed)
      ensures r.Success? <==> aids != [] && Admits(old(ledger), aidIndexed, aids)
      ensures r.Success? ==> r.value == |aids| && ledger == old(ledger) + EntriesOf(aids, now)
      ensures r.Failure? ==> ledger == old(ledger)
      ensures r.Failure? ==> (r.error == EmptyBulkWrite <==> aids == [])
      ensures r.Failure? && aids != [] ==> r.error == DuplicateKey
    {
      var entries := BuildEntries(aids, now);
      if entries == [] {
        return Failure(EmptyBulkWrite);
      }
      if !Admits(ledger, aidIndexed, aids) {
        return Failure(DuplicateKey);
      }
      if aidIndexed {
        AdmittedInsert(ledger, aids, now);
      }
      ledger := ledger + entries;
      r := Success(|entries|);
    }

    /**
     * `createFleetStatisticsIndexes$`: the unique index on `aid` (refused while
     * the ledger holds a duplicate aid) and the `_id` index of the aggregate;
     * answers the number of indexes, 2. Repeating it changes nothing.
     */
    method CreateFleetStatisticsIndexes() returns (r: Result<int, StoreError>)
      requires Valid()
      modifies this
      ensures Valid()
      ensures docs == old(docs) && ledger == old(ledger) && fleetStats == old(fleetStats)
      ensures r.Success? <==> DistinctAids(ledger)
      ensures r.Success? ==> r.value == 2 && aidIndexed
      ensures r.Failure? ==> r.error == DuplicateKey && aidIndexed == old(aidIndexed)
    {
      if !DistinctAids(ledger) {
        return Failure(DuplicateKey);
      }
      aidIndexed := true;
      r := Success(2);
    }

    /**
     * `updateFleetStatistics$`: builds the update from `batch`, upserts it into
     * the aggregate and answers the projected new aggregate.
     */
    method UpdateFleetStatistics(batch: BatchStats, now: string) returns (view: FleetAggregate)
      requires Valid()
      modifies this
      ensures Valid()
      ensures docs == old(docs) && ledger == old(ledger) && aidIndexed == old(aidIndexed)
      ensures fleetStats == Some(Merge(old(fleetStats), batch, now))
      ensures view == ProjectUpdated(fleetStats.value)
    {
      var u := BuildUpdate(batch, now);
      MergeLeavesAvgUnset(fleetStats, batch, now);
      var stats := Apply(fleetStats, u);
      fleetStats := Some(stats);
      view := ProjectAfterUpdate(stats);
    }

    /** `getFleetStatistics$`: the projected aggregate, or the zero default; nothing is written. */
    method GetFleetStatistics(now: string) returns (view: FleetAggregate)
      ensures view == ProjectRead(fleetStats, now)
    {
      view := ProjectOnRead(fleetStats, now);
    }

    /** `getVehicleStats$`: the document with this id and organization, or `{}`. */
    method GetVehicleStats(id: string, organizationId: string) returns (r: Doc)
      ensures id in docs && OwnedBy(docs[id], organizationId) ==> r == WithId(docs[id], id)
      ensures !(id in docs && OwnedBy(docs[id], organizationId)) ==> r == map[]
    {
      if id in docs && OwnedBy(docs[id], organizationId) {
        r := WithId(docs[id], id);
      } else {
        r := map[];
      }
    }

    /**
     * `getVehicleStatsList$`: the cursor the listing opens and the projected rows
     * of every matching document, by id; the page is `Window` of those rows in
     * the cursor's sort order, from `skip`, at most `limit`.
     */
    method GetVehicleStatsList(filter: ListingFilter, pagination: Pagination, sortInput: Option<SortInput>,
                               nameMatches: (string, string) -> bool)
      returns (cursor: Cursor, rows: map<string, Doc>)
      ensures cursor.projection == {"name", "active"}
      ensures cursor.limit == pagination.count.GetOr(10)
      ensures cursor.skip == pagination.count.GetOr(10) * pagination.page.GetOr(0)
      ensures cursor.sort == SortOf(sortInput)
      ensures cursor.query.active == filter.active
      ensures cursor.query.namePattern.Some? <==> JsText.TruthyString(filter.name)
      ensures cursor.query.namePattern.Some? ==> cursor.query.namePattern == filter.name
      ensures cursor.query.organizationId.Some? <==> JsText.TruthyString(filter.organizationId)
      ensures cursor.query.organizationId.Some? ==> cursor.query.organizationId == filter.organizationId
      ensures rows.Keys == set id | id in docs && Matches(cursor.query, docs[id], nameMatches)
      ensures forall id :: id in rows ==> rows[id] == ListingRow(docs[id], id)
    {
      var page, count := pagination.page.GetOr(0), pagination.count.GetOr(10);
      var query := GenerateListingQuery(filter);
      cursor := Cursor(query, {"name", "active"}, count * page, count, SortOf(sortInput));
      rows := map id | id in docs && Matches(query, docs[id], nameMatches) :: ListingRow(docs[id], id);
    }

    /**
     * `updateVehicleStats$`: `$set` of `props` plus `metadata.updatedBy`/`updatedAt`
     * on an existing document, answering it as updated; `None` (undefined) when
     * no document has this id. A `props` that names `metadata` is refused.
     */
    method UpdateVehicleStats(id: string, props: Doc, updatedBy: string, now: int)
      returns (r: Result<Option<Doc>, StoreError>)
      requires Valid()
      modifies this
      ensures Valid()
      ensures ledger == old(ledger) && fleetStats == old(fleetStats) && aidIndexed == old(aidIndexed)
      ensures "metadata" in props ==> r == Failure(PathConflict) && docs == old(docs)
      ensures "metadata" !in props && id !in old(docs) ==> r == Success(None) && docs == old(docs)
      ensures "metadata" !in props && id in old(docs) ==>
        match SetWithMetadata(old(docs)[id], props, Str(updatedBy), Num(now))
        case Failure(e) => r == Failure(e) && docs == old(docs)
        case Success(d) => r == Success(Some(WithId(d, id))) && docs == old(docs)[id := d]
    {
      if "metadata" in props {
        return Failure(PathConflict);
      }
      if id !in docs {
        return Success(None);
      }
      var updated := SetWithMetadata(docs[id], props, Str(updatedBy), Num(now));
      match updated
      case Failure(e) =>
        r := Failure(e);
      case Success(d) =>
        docs := docs[id := d];
        r := Success(Some(WithId(d, id)));
    }

    /**
     * `updateVehicleStatsFromRecovery$`: `$set` of `props` with upsert. The
     * driver's `updateOne` result carries no `value`, so the call answers `None`.
     */
    method UpdateVehicleStatsFromRecovery(id: string, props: Doc) returns (r: Option<Doc>)
      requires Valid()
      modifies this
      ensures Valid()
      ensures ledger == old(ledger) && fleetStats == old(fleetStats) && aidIndexed == old(aidIndexed)
      ensures docs == UpsertSet(old(docs), id, props)
      ensures r == None
    {
      docs := UpsertSet(docs, id, props);
      r := None;
    }

    /**
     * `replaceVehicleStats$`: the document becomes `props` when it exists (no
     * upsert); the answer is `{ id, ...props }` either way.
     */
    method ReplaceVehicleStats(id: string, props: Doc) returns (r: Doc)
      requires Valid()
      modifies this
      ensures Valid()
      ensures ledger == old(ledger) && fleetStats == old(fleetStats) && aidIndexed == old(aidIndexed)
      ensures docs == if id in old(docs) then old(docs)[id := props] else old(docs)
      ensures r == map["id" := Str(id)] + props
    {
      if id in docs {
        docs := docs[id := props];
      }
      r := map["id" := Str(id)] + props;
    }

    /** `deleteVehicleStats$`: removes the document; answers the deleted count. */
    method DeleteVehicleStats(id: string) returns (deletedCount: int)
      requires Valid()
      modifies this
      ensures Valid()
      ensures ledger == old(ledger) && fleetStats == old(fleetStats) && aidIndexed == old(aidIndexed)
      ensures docs == old(docs) - {id}
      ensures deletedCount == if id in old(docs) then 1 else 0
    {
      deletedCount := if id in docs then 1 else 0;
      docs := docs - {id};
    }

    /** `deleteVehicleStatss$`: removes every listed document; true iff at least one was removed. */
    method DeleteVehicleStatss(ids: seq<string>) returns (removed: bool)
      requires Valid()
      modifies this
      ensures Valid()
      ensures ledger == old(ledger) && fleetStats == old(fleetStats) && aidIndexed == old(aidIndexed)
      ensures docs == old(docs) - Elems(ids)
      ensures removed <==> exists i :: 0 <= i < |ids| && ids[i] in old(docs)
    {
      var deletedCount := |docs.Keys * Elems(ids)|;
      assert (exists i :: 0 <= i < |ids| && ids[i] in docs) <==> docs.Keys * Elems(ids) != {} by {
        if docs.Keys * Elems(ids) != {} {
          var x :| x in docs.Keys * Elems(ids);
          var i :| 0 <= i < |ids| && ids[i] == x;
        }
        if exists i :: 0 <= i < |ids| && ids[i] in docs {
          var i :| 0 <= i < |ids| && ids[i] in docs;
          assert ids[i] in docs.Keys * Elems(ids);
        }
      }
      docs := docs - Elems(ids);
      removed := deletedCount > 0;
    }
  }
}
